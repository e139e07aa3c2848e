/**
 * Redaction of recall results for the user interface (agent-harness/pi-observational-memory-governed.ts:
 * `redactUiMemoryContent`, `redactUiMemoryTree`).  Strings found in memory content - the value of a memory
 * key, or in an array that is - are replaced; an object met there starts again from its own keys.
 */
module UiRedaction {
  import opened ObjectGraphs
  import RecallBounds

  const MEMORY_CONTENT_KEYS: set<string> := {
    "content", "text", "summary", "sourceEntries", "source_entries", "observations", "reflections",
    "details", "directObservationMatches", "direct_observation_matches", "matches", "result", "output", "message"
  }

  function RedactContent(t: Tree): Tree {
    match t
    case Str(_) => Str(REDACTED_RECALL)
    case Prim(_) => t
    case Circle => Str(CIRCULAR)
    case Arr(items) => Arr(seq(|items|, i requires 0 <= i < |items| => RedactContent(items[i])))
    case Obj(fields) => Obj(seq(|fields|, i requires 0 <= i < |fields| => RedactField(fields[i])))
  }

  function RedactTree(t: Tree): Tree {
    match t
    case Arr(items) => Arr(seq(|items|, i requires 0 <= i < |items| => RedactTree(items[i])))
    case Obj(fields) => Obj(seq(|fields|, i requires 0 <= i < |fields| => RedactField(fields[i])))
    case Circle => Str(CIRCULAR)
    case _ => t
  }

  function RedactField(f: Field): Field {
    Field(f.key, if f.key in MEMORY_CONTENT_KEYS then RedactContent(f.value) else RedactTree(f.value))
  }

  /** One call of `redactRecallUiResult`: the recursive walk and its set of objects on the way down. */
  class Walk {
    const h: Heap
    var seen: set<Id>

    constructor (h: Heap)
      ensures this.h == h && seen == {}
    {
      this.h, seen := h, {};
    }

    method RedactUiMemoryContent(v: Value) returns (t: Tree)
      requires FitsIn(h, v)
      modifies this
      ensures seen == old(seen) && t == RedactContent(Unfold(h, v, seen))
      decreases h.Keys - seen, 1
    {
      match v
      case StrV(_) => t := Str(REDACTED_RECALL);
      case PrimV(p) => t := Prim(p);
      case Ref(id) =>
        if id in seen { return Str(CIRCULAR); }
        ghost var whole := Unfold(h, v, seen);
        seen := seen + {id};
        match h[id] {
          case ArrN(items) =>
            var output := RedactItems(items, true);
            t := Arr(output);
            assert forall i :: 0 <= i < |items| ==> whole.items[i] == Unfold(h, items[i], seen);
          case ObjN(fields) =>
            var output := RedactFields(fields);
            t := Obj(output);
            assert forall i :: 0 <= i < |fields| ==>
              whole.fields[i] == Field(fields[i].0, Unfold(h, fields[i].1, seen));
        }
        seen := seen - {id};
        assert seen == old(seen);
    }

    method RedactUiMemoryTree(v: Value) returns (t: Tree)
      requires FitsIn(h, v)
      modifies this
      ensures seen == old(seen) && t == RedactTree(Unfold(h, v, seen))
      decreases h.Keys - seen, 1
    {
      match v
      case StrV(text) => t := Str(text);
      case PrimV(p) => t := Prim(p);
      case Ref(id) =>
        if id in seen { return Str(CIRCULAR); }
        ghost var whole := Unfold(h, v, seen);
        seen := seen + {id};
        match h[id] {
          case ArrN(items) =>
            var output := RedactItems(items, false);
            t := Arr(output);
            assert forall i :: 0 <= i < |items| ==> whole.items[i] == Unfold(h, items[i], seen);
          case ObjN(fields) =>
            var output := RedactFields(fields);
            t := Obj(output);
            assert forall i :: 0 <= i < |fields| ==>
              whole.fields[i] == Field(fields[i].0, Unfold(h, fields[i].1, seen));
        }
        seen := seen - {id};
        assert seen == old(seen);
    }

    /** The `map` over an array, in content or not. */
    method RedactItems(items: seq<Value>, content: bool) returns (output: seq<Tree>)
      requires forall i :: 0 <= i < |items| ==> FitsIn(h, items[i])
      modifies this
      ensures seen == old(seen) && |output| == |items|
      ensures forall i :: 0 <= i < |items| ==>
                output[i] == if content then
                  RedactContent(Unfold(h, items[i], seen)) else RedactTree(Unfold(h, items[i], seen))
      decreases h.Keys - seen, 2
    {
      output := [];
      for k := 0 to |items|
        invariant seen == old(seen) && |output| == k
        invariant forall i :: 0 <= i < k ==>
          output[i] == if content then
            RedactContent(Unfold(h, items[i], seen)) else RedactTree(Unfold(h, items[i], seen))
      {
        var entry: Tree;
        if content {
          entry := RedactUiMemoryContent(items[k]);
        } else {
          entry := RedactUiMemoryTree(items[k]);
        }
        output := output + [entry];
      }
    }

    method RedactFields(fields: seq<(string, Value)>) returns (output: seq<Field>)
      requires forall i :: 0 <= i < |fields| ==> FitsIn(h, fields[i].1)
      modifies this
      ensures seen == old(seen) && |output| == |fields|
      ensures forall i :: 0 <= i < |fields| ==>
          output[i] == RedactField(Field(fields[i].0, Unfold(h, fields[i].1, seen)))
      decreases h.Keys - seen, 2
    {
      output := [];
      for k := 0 to |fields|
        invariant seen == old(seen) && |output| == k
        invariant forall i :: 0 <= i < k ==> output[i] == RedactField(Field(fields[i].0, Unfold(h, fields[i].1, seen)))
      {
        var entry: Tree;
        if fields[k].0 in MEMORY_CONTENT_KEYS {
          entry := RedactUiMemoryContent(fields[k].1);
        } else {
          entry := RedactUiMemoryTree(fields[k].1);
        }
        output := output + [Field(fields[k].0, entry)];
      }
    }
  }

  // ----- What redaction hides, and nothing else -----------------------------------------------------

  /** Same keys, same lengths, same everything but the strings in memory content. */
  ghost predicate Alike(a: Tree, b: Tree, content: bool) {
    match a
    case Arr(items) =>
      b.Arr? && |items| == |b.items| && forall i :: 0 <= i < |items| ==> Alike(items[i], b.items[i], content)
    case Obj(fields) =>
      && b.Obj? && |fields| == |b.fields|
      && forall i :: 0 <= i < |fields| ==>
           fields[i].key == b.fields[i].key &&
             Alike(fields[i].value, b.fields[i].value, fields[i].key in MEMORY_CONTENT_KEYS)
    case Str(_) => if content then b.Str? else b == a || (b == Circle && a == Str(CIRCULAR))
    case Circle => b == Circle || (!content && b == Str(CIRCULAR))
    case Prim(_) => b == a
  }

  function Redact(t: Tree, content: bool): Tree { if content then RedactContent(t) else RedactTree(t) }

  lemma {:induction false} RedactItemsAt(t: Tree, content: bool, i: nat)
    requires t.Arr? && i < |t.items|
    ensures Redact(t, content).Arr? && |Redact(t, content).items| == |t.items|
    ensures Redact(t, content).items[i] == Redact(t.items[i], content)
  {
    if content {
      assert RedactContent(t).items[i] == RedactContent(t.items[i]);
    } else {
      assert RedactTree(t).items[i] == RedactTree(t.items[i]);
    }
  }

  lemma {:induction false} RedactFieldsAt(t: Tree, content: bool, i: nat)
    requires t.Obj? && i < |t.fields|
    ensures Redact(t, content).Obj? && |Redact(t, content).fields| == |t.fields|
    ensures Redact(t, content).fields[i] ==
            Field(t.fields[i].key, Redact(t.fields[i].value, t.fields[i].key in MEMORY_CONTENT_KEYS))
  {
    if content {
      assert RedactContent(t).fields[i] == RedactField(t.fields[i]);
    } else {
      assert RedactTree(t).fields[i] == RedactField(t.fields[i]);
    }
  }

  lemma MarkersDiffer()
    ensures CIRCULAR != REDACTED_RECALL
  {
    assert |CIRCULAR| != |REDACTED_RECALL|;
  }

  /** Two results redact to the same tree exactly when they agree on all but the strings in memory content. */
  lemma {:induction false} HidesExactlyContent(a: Tree, b: Tree, content: bool)
    ensures Redact(a, content) == Redact(b, content) <==> Alike(a, b, content)
    decreases a
  {
    MarkersDiffer();
    if a.Arr? && b.Arr? && |a.items| == |b.items| {
      forall i | 0 <= i < |a.items|
        ensures Redact(a, content).items[i] == Redact(a.items[i], content)
        ensures Redact(b, content).items[i] == Redact(b.items[i], content)
        ensures Redact(a.items[i], content) == Redact(b.items[i], content) <==> Alike(a.items[i], b.items[i], content)
      {
        RedactItemsAt(a, content, i);
        RedactItemsAt(b, content, i);
        HidesExactlyContent(a.items[i], b.items[i], content);
      }
      if Alike(a, b, content) { assert Redact(a, content).items == Redact(b, content).items; }
    } else if a.Obj? && b.Obj? && |a.fields| == |b.fields| {
      forall i | 0 <= i < |a.fields|
        ensures var inside := a.fields[i].key in MEMORY_CONTENT_KEYS;
          && Redact(a, content).fields[i] == Field(a.fields[i].key, Redact(a.fields[i].value, inside))
          && Redact(b, content).fields[i] ==
             Field(b.fields[i].key, Redact(b.fields[i].value, b.fields[i].key in MEMORY_CONTENT_KEYS))
          && (Redact(a.fields[i].value, inside) == Redact(b.fields[i].value, inside) <==>
              Alike(a.fields[i].value, b.fields[i].value, inside))
      {
        RedactFieldsAt(a, content, i);
        RedactFieldsAt(b, content, i);
        HidesExactlyContent(a.fields[i].value, b.fields[i].value, a.fields[i].key in MEMORY_CONTENT_KEYS);
      }
      if Alike(a, b, content) { assert Redact(a, content).fields == Redact(b, content).fields; }
    }
  }

  /** A reference back up stands directly in memory content. */
  ghost predicate CircleInContent(t: Tree, content: bool) {
    match t
    case Circle => content
    case Arr(items) => exists i :: 0 <= i < |items| && CircleInContent(items[i], content)
    case Obj(fields) =>
      exists i :: 0 <= i < |fields| && CircleInContent(fields[i].value, fields[i].key in MEMORY_CONTENT_KEYS)
    case _ => false
  }

  /**
   * As functions on any tree: redacting again changes nothing exactly if no circle stood directly in memory
   * content, since the marker left there is a string like any other to the second pass.
   */
  lemma {:induction false} IdempotentIff(t: Tree, content: bool)
    ensures Redact(Redact(t, content), content) == Redact(t, content) <==> !CircleInContent(t, content)
  {
    MarkersDiffer();
    var once := Redact(t, content);
    if t.Arr? {
      assert once.Arr? && |once.items| == |t.items|;
      forall i | 0 <= i < |t.items|
        ensures once.items[i] == Redact(t.items[i], content)
        ensures Redact(once, content).items[i] == Redact(Redact(t.items[i], content), content)
        ensures Redact(Redact(t.items[i], content), content) == Redact(t.items[i], content) <==>
            !CircleInContent(t.items[i], content)
      {
        RedactItemsAt(t, content, i);
        RedactItemsAt(once, content, i);
        IdempotentIff(t.items[i], content);
      }
      if !CircleInContent(t, content) { assert Redact(once, content).items == once.items; }
    } else if t.Obj? {
      assert once.Obj? && |once.fields| == |t.fields|;
      forall i | 0 <= i < |t.fields|
        ensures var inside := t.fields[i].key in MEMORY_CONTENT_KEYS;
          && once.fields[i] == Field(t.fields[i].key, Redact(t.fields[i].value, inside))
          && Redact(once, content).fields[i] ==
            Field(t.fields[i].key, Redact(Redact(t.fields[i].value, inside), inside))
          && (Redact(Redact(t.fields[i].value, inside), inside) == Redact(t.fields[i].value, inside) <==>
              !CircleInContent(t.fields[i].value, inside))
      {
        RedactFieldsAt(t, content, i);
        RedactFieldsAt(once, content, i);
        IdempotentIff(t.fields[i].value, t.fields[i].key in MEMORY_CONTENT_KEYS);
      }
      if !CircleInContent(t, content) { assert Redact(once, content).fields == once.fields; }
    }
  }

  lemma {:induction false} BoundedHasNoCircles(t: Tree, content: bool)
    requires RecallBounds.WithinLimits(t)
    ensures !CircleInContent(t, content)
  {
    match t
    case Arr(items) =>
      forall i | 0 <= i < |items| { BoundedHasNoCircles(items[i], content); }
    case Obj(fields) =>
      forall i | 0 <= i < |fields| { BoundedHasNoCircles(fields[i].value, fields[i].key in MEMORY_CONTENT_KEYS); }
    case _ =>
  }

  /**
   * What the interface is given has been bounded first, and on that redaction is idempotent without a proviso:
   * bounding has already turned every circle into a string.
   */
  lemma RedactingBoundedTwice(t: Tree)
    ensures var bounded := RecallBounds.BoundTree(t);
      RedactTree(RedactTree(bounded)) == RedactTree(bounded)
  {
    var bounded := RecallBounds.BoundTree(t);
    RecallBounds.BoundTreeIsWithinLimits(t);
    BoundedHasNoCircles(bounded, false);
    IdempotentIff(bounded, false);
  }

  /** Redaction keeps everything but the strings in memory content, circles read as the strings they become. */
  lemma {:induction false} KeepsTheRest(t: Tree, content: bool)
    ensures Alike(Plain(t), Redact(t, content), content)
  {
    if t.Arr? {
      var p := Plain(t);
      forall i | 0 <= i < |t.items|
        ensures Alike(p.items[i], Redact(t, content).items[i], content)
      {
        RedactItemsAt(t, content, i);
        KeepsTheRest(t.items[i], content);
      }
    } else if t.Obj? {
      var p := Plain(t);
      forall i | 0 <= i < |t.fields|
        ensures var inside := t.fields[i].key in MEMORY_CONTENT_KEYS;
          && p.fields[i].key == t.fields[i].key == Redact(t, content).fields[i].key
          && Alike(p.fields[i].value, Redact(t, content).fields[i].value, inside)
      {
        RedactFieldsAt(t, content, i);
        KeepsTheRest(t.fields[i].value, t.fields[i].key in MEMORY_CONTENT_KEYS);
      }
    }
  }

  /** Kinds, lengths and keys survive for every value; a circle counts as the string that replaces it. */
  ghost predicate SameShape(a: Tree, b: Tree) {
    match a
    case Arr(items) => b.Arr? && |items| == |b.items| && forall i :: 0 <= i < |items| ==>
      SameShape(items[i], b.items[i])
    case Obj(fields) =>
      && b.Obj? && |fields| == |b.fields|
      && forall i :: 0 <= i < |fields| ==>
           fields[i].key == b.fields[i].key && SameShape(fields[i].value, b.fields[i].value)
    case Prim(p) => b == a
    case _ => b.Str?
  }

  lemma {:induction false} KeepsShape(t: Tree, content: bool)
    ensures SameShape(t, Redact(t, content))
  {
    if t.Arr? {
      forall i | 0 <= i < |t.items| ensures SameShape(t.items[i], Redact(t, content).items[i]) {
        RedactItemsAt(t, content, i);
        KeepsShape(t.items[i], content);
      }
    } else if t.Obj? {
      forall i | 0 <= i < |t.fields|
        ensures t.fields[i].key == Redact(t, content).fields[i].key
        ensures SameShape(t.fields[i].value, Redact(t, content).fields[i].value)
      {
        RedactFieldsAt(t, content, i);
        KeepsShape(t.fields[i].value, t.fields[i].key in MEMORY_CONTENT_KEYS);
      }
    }
  }
}

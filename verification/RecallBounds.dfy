/**
 * Bounded recall results (agent-harness/pi-observational-memory-governed.ts: `utf8Prefix`,
 * `boundRecallValue`).  Lengths are those of the UTF-8 encoding (section 3 of RFC 3629) of UTF-16 text
 * (section 2.1 of RFC 2781): a surrogate pair takes four bytes, and a surrogate on its own is encoded as the
 * replacement character, three.
 */
module RecallBounds {
  import opened ObjectGraphs

  const MAX_RECALL_TEXT_BYTES := 16 * 1024
  const MAX_RECALL_ITEMS := 32

  predicate High(u: Unit) { 0xD800 <= u <= 0xDBFF }
  predicate Low(u: Unit) { 0xDC00 <= u <= 0xDFFF }

  function UnitLen(u: Unit): nat { if u < 0x80 then 1 else if u < 0x800 then 2 else 3 }

  function Utf8Len(s: Text): nat {
    if s == [] then 0
    else if |s| >= 2 && High(s[0]) && Low(s[1]) then 4 + Utf8Len(s[2..])
    else UnitLen(s[0]) + Utf8Len(s[1..])
  }

  // ----- The encoding itself ---------------------------------------------------------------------------

  /** The leading and trailing surrogates, by their upper six bits. */
  predicate Leads(u: Unit) { u as int / 0x400 == 0x36 }
  predicate Trails(u: Unit) { u as int / 0x400 == 0x37 }

  /** A continuation byte with the lowest six bits. */
  function Continued(n: nat): int { 0x80 + n % 0x40 }

  /** The bytes of one character (section 3 of RFC 3629). */
  function EncodeOne(c: nat): (bytes: seq<int>)
    requires c < 0x11_0000
    ensures forall i :: 0 <= i < |bytes| ==> 0 <= bytes[i] < 0x100
  {
    if c < 0x80 then [c]
    else if c < 0x800 then [0xC0 + c / 0x40, Continued(c)]
    else if c < 0x1_0000 then [0xE0 + c / 0x1000, Continued(c / 0x40), Continued(c)]
    else [0xF0 + c / 0x4_0000, Continued(c / 0x1000), Continued(c / 0x40), Continued(c)]
  }

  /** UTF-16 text in UTF-8; a surrogate on its own becomes U+FFFD. */
  function Encode(s: Text): seq<int> {
    if s == [] then []
    else if Leads(s[0]) && |s| >= 2 && Trails(s[1]) then
      EncodeOne(0x1_0000 + (s[0] as int % 0x400) * 0x400 + s[1] as int % 0x400) + Encode(s[2..])
    else if Leads(s[0]) || Trails(s[0]) then EncodeOne(0xFFFD) + Encode(s[1..])
    else EncodeOne(s[0] as int) + Encode(s[1..])
  }

  /** The lengths reckoned with are those of the encoded text. */
  lemma {:induction false} Utf8LenIsEncodedLength(s: Text)
    ensures Utf8Len(s) == |Encode(s)|
  {
    if s != [] {
      assert High(s[0]) <==> Leads(s[0]);
      assert Low(s[0]) <==> Trails(s[0]);
      if |s| >= 2 {
        assert Low(s[1]) <==> Trails(s[1]);
        Utf8LenIsEncodedLength(s[2..]);
      }
      Utf8LenIsEncodedLength(s[1..]);
    }
  }

  /** Every surrogate belongs to a pair. */
  predicate WellFormed(s: Text) {
    if s == [] then true
    else if High(s[0]) then |s| >= 2 && Low(s[1]) && WellFormed(s[2..])
    else !Low(s[0]) && WellFormed(s[1..])
  }

  /** What one more unit adds to a text. */
  function Added(s: Text, u: Unit): nat {
    if s != [] && High(s[|s| - 1]) && Low(u) then 1 else UnitLen(u)
  }

  lemma {:induction false} OneMoreUnit(s: Text, u: Unit)
    ensures Utf8Len(s + [u]) == Utf8Len(s) + Added(s, u)
  {
    if s == [] {
    } else if |s| >= 2 && High(s[0]) && Low(s[1]) {
      OneMoreUnit(s[2..], u);
      assert (s + [u])[2..] == s[2..] + [u];
    } else {
      OneMoreUnit(s[1..], u);
      assert (s + [u])[1..] == s[1..] + [u];
      if |s| == 1 { assert s[1..] == []; }
    }
  }

  /** Length grows strictly with every unit, whether or not the prefix cuts a pair. */
  lemma {:induction false} LongerTakesMore(s: Text, i: nat, j: nat)
    requires i <= j <= |s|
    ensures Utf8Len(s[..i]) + (j - i) <= Utf8Len(s[..j])
  {
    if i < j {
      LongerTakesMore(s, i, j - 1);
      assert s[..j] == s[..j - 1] + [s[j - 1]];
      OneMoreUnit(s[..j - 1], s[j - 1]);
    }
  }

  const MARKER: Text := Ascii("\n") + REDACTED_RECALL

  lemma {:induction false} AsciiLen(s: Text, t: Text)
    requires forall i :: 0 <= i < |t| ==> t[i] < 128
    ensures Utf8Len(s + t) == Utf8Len(s) + |t|
  {
    if t == [] {
      assert s + t == s;
    } else {
      var init, u := t[..|t| - 1], t[|t| - 1];
      AsciiLen(s, init);
      OneMoreUnit(s + init, u);
      assert s + t == (s + init) + [u];
    }
  }

  /** The longest prefix, by units and up to `from`, that takes no more than `budget` bytes. */
  function Fitting(s: Text, budget: int, from: nat): (k: nat)
    requires from <= |s|
    ensures k <= from && (k > 0 ==> Utf8Len(s[..k]) <= budget)
    ensures forall j :: k < j <= from ==> Utf8Len(s[..j]) > budget
  {
    if from == 0 || Utf8Len(s[..from]) <= budget then from else Fitting(s, budget, from - 1)
  }

  /** Where the text is cut: never after a high surrogate. */
  function CutAt(s: Text, budget: int): (k: nat)
    ensures k <= |s|
  {
    var k := Fitting(s, budget, |s|);
    if k > 0 && High(s[k - 1]) then k - 1 else k
  }

  function Bounded(s: Text, maxBytes: int): Text {
    if Utf8Len(s) <= maxBytes then s else s[..CutAt(s, maxBytes - |MARKER|)] + MARKER
  }

  method Utf8Prefix(value: Text, maxBytes: int) returns (text: Text)
    ensures text == Bounded(value, maxBytes)
  {
    if Utf8Len(value) <= maxBytes { return value; }
    MarkerLen();
    var end := Cut(value, maxBytes - Utf8Len(MARKER));
    return value[..end] + MARKER;
  }

  lemma MarkerLen()
    ensures Utf8Len(MARKER) == |MARKER|
  {
    AsciiLen([], MARKER);
    assert [] + MARKER == MARKER;
  }

  /** The search, and the step back from a high surrogate. */
  method Cut(value: Text, budget: int) returns (end: nat)
    ensures end == CutAt(value, budget)
  {
    end := LongestFitting(value, budget);
    if end > 0 && High(value[end - 1]) { end := end - 1; }
  }

  /** The binary search. */
  method LongestFitting(value: Text, budget: int) returns (low: nat)
    ensures low == Fitting(value, budget, |value|)
  {
    var high := |value|;
    low := 0;
    while low < high
      invariant 0 <= low <= high <= |value|
      invariant low > 0 ==> Utf8Len(value[..low]) <= budget
      invariant forall j :: high < j <= |value| ==> Utf8Len(value[..j]) > budget
    {
      var mid := (low + high + 1) / 2;
      if Utf8Len(value[..mid]) <= budget {
        low := mid;
      } else {
        NoneFitsFrom(value, budget, mid);
        high := mid - 1;
      }
    }
  }

  lemma NoneFitsFrom(value: Text, budget: int, mid: nat)
    requires mid <= |value| && Utf8Len(value[..mid]) > budget
    ensures forall j :: mid <= j <= |value| ==> Utf8Len(value[..j]) > budget
  {
    forall j | mid <= j <= |value| ensures Utf8Len(value[..j]) > budget { LongerTakesMore(value, mid, j); }
  }

  /** The byte budget is kept unless it is too small for the marker alone. */
  lemma WithinBudgetIff(s: Text, maxBytes: int)
    ensures Utf8Len(Bounded(s, maxBytes)) <= maxBytes <==> Utf8Len(s) <= maxBytes || |MARKER| <= maxBytes
  {
    if Utf8Len(s) > maxBytes {
      CutFits(s, maxBytes - |MARKER|);
      AsciiLen(s[..CutAt(s, maxBytes - |MARKER|)], MARKER);
    }
  }

  lemma CutFits(s: Text, budget: int)
    ensures Utf8Len(s[..CutAt(s, budget)]) <= budget <==> budget >= 0
  {
    LongerTakesMore(s, CutAt(s, budget), Fitting(s, budget, |s|));
    LongerTakesMore(s, 0, CutAt(s, budget));
    assert s[..0] == [];
  }

  lemma {:induction false} WellFormedConcat(s: Text, t: Text)
    requires WellFormed(s)
    ensures WellFormed(s + t) <==> WellFormed(t)
  {
    if s == [] {
      assert s + t == t;
    } else if High(s[0]) {
      WellFormedConcat(s[2..], t);
      assert (s + t)[2..] == s[2..] + t;
    } else {
      WellFormedConcat(s[1..], t);
      assert (s + t)[1..] == s[1..] + t;
    }
  }

  lemma {:induction false} AsciiIsWellFormed(t: Text)
    requires forall i :: 0 <= i < |t| ==> t[i] < 128
    ensures WellFormed(t)
  {
    if t != [] { AsciiIsWellFormed(t[1..]); }
  }

  /** A prefix of well-formed text is well formed unless it ends in the middle of a pair. */
  lemma {:induction false} WellFormedPrefixIff(s: Text, k: nat)
    requires WellFormed(s) && k <= |s|
    ensures WellFormed(s[..k]) <==> k == 0 || !High(s[k - 1])
  {
    if k == 0 {
    } else if High(s[0]) {
      if k >= 2 {
        WellFormedPrefixIff(s[2..], k - 2);
        assert s[..k][2..] == s[2..][..k - 2];
      }
    } else {
      WellFormedPrefixIff(s[1..], k - 1);
      assert s[..k][1..] == s[1..][..k - 1];
    }
  }

  lemma {:induction false} NoTwoHighs(s: Text, k: nat)
    requires WellFormed(s) && 1 < k <= |s| && High(s[k - 1])
    ensures !High(s[k - 2])
  {
    if High(s[0]) {
      if k > 3 { NoTwoHighs(s[2..], k - 2); }
    } else if k > 2 {
      NoTwoHighs(s[1..], k - 1);
    }
  }

  /** The cut never parts a pair. */
  lemma CutIsBetweenCharacters(s: Text, budget: int)
    requires WellFormed(s)
    ensures WellFormed(s[..CutAt(s, budget)])
  {
    var k, end := Fitting(s, budget, |s|), CutAt(s, budget);
    if k > 1 && High(s[k - 1]) { NoTwoHighs(s, k); }
    WellFormedPrefixIff(s, end);
  }

  lemma BoundedIsWellFormed(s: Text, maxBytes: int)
    requires WellFormed(s)
    ensures WellFormed(Bounded(s, maxBytes))
  {
    var end := CutAt(s, maxBytes - |MARKER|);
    CutIsBetweenCharacters(s, maxBytes - |MARKER|);
    AsciiIsWellFormed(MARKER);
    WellFormedConcat(s[..end], MARKER);
  }

  /** No longer well-formed beginning would have fitted with the marker. */
  lemma BoundedKeepsTheMost(s: Text, maxBytes: int, j: nat)
    requires WellFormed(s) && j <= |s| && WellFormed(s[..j])
    requires Utf8Len(s[..j] + MARKER) <= maxBytes
    ensures j <= CutAt(s, maxBytes - |MARKER|)
  {
    WellFormedPrefixIff(s, j);
    AsciiLen(s[..j], MARKER);
  }

  // ----- Whole results ---------------------------------------------------------------------------

  function Kept(n: nat): nat { if n < MAX_RECALL_ITEMS then n else MAX_RECALL_ITEMS }

  function BoundTree(t: Tree): Tree {
    match t
    case Str(text) => Str(Bounded(text, MAX_RECALL_TEXT_BYTES))
    case Prim(_) => t
    case Circle => Str(CIRCULAR)
    case Arr(items) => Arr(seq(Kept(|items|), i requires 0 <= i < Kept(|items|) => BoundTree(items[i])))
    case Obj(fields) =>
      Obj(seq(|fields|, i requires 0 <= i < |fields| => Field(fields[i].key, BoundTree(fields[i].value))))
  }

  /** Something the walk meets is too long. */
  ghost predicate Cuts(t: Tree) {
    match t
    case Str(text) => Utf8Len(text) > MAX_RECALL_TEXT_BYTES
    case Arr(items) => |items| > MAX_RECALL_ITEMS || exists i :: 0 <= i < Kept(|items|) && Cuts(items[i])
    case Obj(fields) => exists i :: 0 <= i < |fields| && Cuts(fields[i].value)
    case _ => false
  }

  /** Every string within 16 KiB and every array within 32 items, at every depth. */
  ghost predicate WithinLimits(t: Tree) {
    match t
    case Str(text) => Utf8Len(text) <= MAX_RECALL_TEXT_BYTES
    case Arr(items) => |items| <= MAX_RECALL_ITEMS && forall i :: 0 <= i < |items| ==> WithinLimits(items[i])
    case Obj(fields) => forall i :: 0 <= i < |fields| ==> WithinLimits(fields[i].value)
    case Prim(_) => true
    case Circle => false
  }

  /**
   * `b` is what is left of `t`: of a string that takes more than 16 KiB a beginning and the marker, of an array
   * the first 32 items, of an object every field in its place; circles have become strings.
   */
  ghost predicate LeftOf(b: Tree, t: Tree) {
    match t
    case Str(text) =>
      b.Str? && if |Encode(text)| <= 16384 then b.text == text
                else exists end :: 0 <= end <= |text| &&
                       b.text == text[..end] + Ascii("\n") + Ascii("[recall result truncated by DeepSonar]")
    case Prim(_) => b == t
    case Circle => b == Str(Ascii("[CIRCULAR]"))
    case Arr(items) =>
      && b.Arr? && |b.items| <= |items| && |b.items| == (if |items| < 32 then |items| else 32)
      && forall i :: 0 <= i < |b.items| ==> LeftOf(b.items[i], items[i])
    case Obj(fields) =>
      && b.Obj? && |b.fields| == |fields|
      && forall i :: 0 <= i < |fields| ==>
           b.fields[i].key == fields[i].key && LeftOf(b.fields[i].value, fields[i].value)
  }

  lemma BoundedKeepsBeginning(text: Text)
    ensures LeftOf(Str(Bounded(text, MAX_RECALL_TEXT_BYTES)), Str(text))
  {
    Utf8LenIsEncodedLength(text);
    if |Encode(text)| > 16384 {
      var end := CutAt(text, MAX_RECALL_TEXT_BYTES - |MARKER|);
      MarkerFollows(text[..end]);
    }
  }

  lemma MarkerFollows(head: Text)
    ensures head + MARKER == head + Ascii("\n") + Ascii("[recall result truncated by DeepSonar]")
  {
  }

  lemma {:induction false} BoundTreeKeepsBeginnings(t: Tree)
    ensures LeftOf(BoundTree(t), t)
  {
    match t
    case Str(text) => BoundedKeepsBeginning(text);
    case Arr(items) => forall i | 0 <= i < Kept(|items|) { BoundTreeKeepsBeginnings(items[i]); }
    case Obj(fields) => forall i | 0 <= i < |fields| { BoundTreeKeepsBeginnings(fields[i].value); }
    case _ =>
  }

  class Walk {
    const h: Heap
    var seen: set<Id>
    var changed: bool

    constructor (h: Heap)
      ensures this.h == h && seen == {} && !changed
    {
      this.h, seen, changed := h, {}, false;
    }

    method BoundRecallValue(v: Value) returns (t: Tree)
      requires FitsIn(h, v)
      modifies this
      ensures seen == old(seen)
      ensures t == BoundTree(Unfold(h, v, seen))
      ensures changed <==> old(changed) || Cuts(Unfold(h, v, seen))
      decreases h.Keys - seen, 1
    {
      match v
      case StrV(text) =>
        if Utf8Len(text) > MAX_RECALL_TEXT_BYTES { changed := true; }
        var bounded := Utf8Prefix(text, MAX_RECALL_TEXT_BYTES);
        t := Str(bounded);
      case PrimV(p) => t := Prim(p);
      case Ref(id) =>
        if id in seen { return Str(CIRCULAR); }
        ghost var whole := Unfold(h, v, seen);
        seen := seen + {id};
        match h[id] {
          case ArrN(items) =>
            if |items| > MAX_RECALL_ITEMS { changed := true; }
            var output := BoundItems(items[..Kept(|items|)]);
            t := Arr(output);
            assert forall i :: 0 <= i < Kept(|items|) ==> whole.items[i] == Unfold(h, items[..Kept(|items|)][i], seen);
          case ObjN(fields) =>
            var output := BoundFields(fields);
            t := Obj(output);
            assert forall i :: 0 <= i < |fields| ==> whole.fields[i].value == Unfold(h, fields[i].1, seen);
        }
        seen := seen - {id};
        assert seen == old(seen);
    }

    method BoundItems(items: seq<Value>) returns (output: seq<Tree>)
      requires forall i :: 0 <= i < |items| ==> FitsIn(h, items[i])
      modifies this
      ensures seen == old(seen) && |output| == |items|
      ensures forall i :: 0 <= i < |items| ==> output[i] == BoundTree(Unfold(h, items[i], seen))
      ensures changed <==> old(changed) || exists i :: 0 <= i < |items| && Cuts(Unfold(h, items[i], seen))
      decreases h.Keys - seen, 2
    {
      output := [];
      for k := 0 to |items|
        invariant seen == old(seen) && |output| == k
        invariant forall i :: 0 <= i < k ==> output[i] == BoundTree(Unfold(h, items[i], seen))
        invariant changed <==> old(changed) || exists i :: 0 <= i < k && Cuts(Unfold(h, items[i], seen))
      {
        var entry := BoundRecallValue(items[k]);
        output := output + [entry];
      }
    }

    method BoundFields(fields: seq<(string, Value)>) returns (output: seq<Field>)
      requires forall i :: 0 <= i < |fields| ==> FitsIn(h, fields[i].1)
      modifies this
      ensures seen == old(seen) && |output| == |fields|
      ensures forall i :: 0 <= i < |fields| ==> output[i] == Field(fields[i].0, BoundTree(Unfold(h, fields[i].1, seen)))
      ensures changed <==> old(changed) || exists i :: 0 <= i < |fields| && Cuts(Unfold(h, fields[i].1, seen))
      decreases h.Keys - seen, 2
    {
      output := [];
      for k := 0 to |fields|
        invariant seen == old(seen) && |output| == k
        invariant forall i :: 0 <= i < k ==> output[i] == Field(fields[i].0, BoundTree(Unfold(h, fields[i].1, seen)))
        invariant changed <==> old(changed) || exists i :: 0 <= i < k && Cuts(Unfold(h, fields[i].1, seen))
      {
        var entry := BoundRecallValue(fields[k].1);
        output := output + [Field(fields[k].0, entry)];
      }
    }
  }

  lemma CircularFits()
    ensures Utf8Len(CIRCULAR) <= MAX_RECALL_TEXT_BYTES && |MARKER| <= MAX_RECALL_TEXT_BYTES
  {
    AsciiLen([], CIRCULAR);
    assert [] + CIRCULAR == CIRCULAR;
  }

  /** Whatever the heap, cycles included, the result is within the limits. */
  lemma {:induction false} BoundTreeIsWithinLimits(t: Tree)
    ensures WithinLimits(BoundTree(t))
  {
    CircularFits();
    match t
    case Str(text) => WithinBudgetIff(text, MAX_RECALL_TEXT_BYTES);
    case Arr(items) => forall i | 0 <= i < Kept(|items|) { BoundTreeIsWithinLimits(items[i]); }
    case Obj(fields) => forall i | 0 <= i < |fields| { BoundTreeIsWithinLimits(fields[i].value); }
    case _ =>
  }

  /** A tree within the limits is left alone; so bounding twice is bounding once. */
  lemma {:induction false} WithinLimitsIsKept(t: Tree)
    requires WithinLimits(t)
    ensures BoundTree(t) == t
  {
    match t
    case Arr(items) =>
      forall i | 0 <= i < |items| { WithinLimitsIsKept(items[i]); }
      assert BoundTree(t).items == items;
    case Obj(fields) =>
      forall i | 0 <= i < |fields| { WithinLimitsIsKept(fields[i].value); }
      assert BoundTree(t).fields == fields;
    case _ =>
  }

  lemma BoundingTwice(t: Tree)
    ensures BoundTree(BoundTree(t)) == BoundTree(t)
  {
    BoundTreeIsWithinLimits(t);
    WithinLimitsIsKept(BoundTree(t));
  }

  /** The `changed` flag tells the truth: it is raised exactly when the result lost something. */
  lemma {:induction false} ChangedIffLost(t: Tree)
    ensures Cuts(t) <==> BoundTree(t) != Plain(t)
  {
    match t
    case Str(text) =>
      CircularFits();
      WithinBudgetIff(text, MAX_RECALL_TEXT_BYTES);
    case Arr(items) =>
      forall i | 0 <= i < |items| { ChangedIffLost(items[i]); }
      var b, p := BoundTree(t).items, Plain(t).items;
      assert |b| == Kept(|items|) && |p| == |items|;
      assert forall i :: 0 <= i < |b| ==> b[i] == BoundTree(items[i]) && p[i] == Plain(items[i]);
      if !Cuts(t) { assert b == p; }
    case Obj(fields) =>
      forall i | 0 <= i < |fields| { ChangedIffLost(fields[i].value); }
      var b, p := BoundTree(t).fields, Plain(t).fields;
      assert |b| == |fields| == |p|;
      assert forall i :: 0 <= i < |fields| ==>
        b[i].value == BoundTree(fields[i].value) && p[i].value == Plain(fields[i].value);
      if !Cuts(t) { assert b == p; }
    case _ =>
  }
}

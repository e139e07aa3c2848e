/**
 * Settings without their secrets (apps/scheduler/src/credential-secret-projection.ts:
 * `redactSecretProjection`, `restoreMaskedSecretValues`): the strings of secret fields are masked whole,
 * other strings where they assign secrets; an edited projection is restored against the original.
 */
module SecretProjection {
  import opened Options
  import opened SecretAssignments
  import opened Texts

  datatype Field = Field(key: string, value: Json)

  datatype Json = Str(s: string) | Other(n: int) | Arr(items: seq<Json>) | Obj(fields: seq<Field>)

  /** The key a value stands under, if any. */
  type Key = Option<string>

  predicate UnderSecretKey(key: Key, words: Words) { key.Some? && SecretKey(key.value, words) }

  function RedactString(s: string, key: Key, words: Words): string {
    if UnderSecretKey(key, words) && s != "" then MASK else RedactText(s, words)
  }

  function Redact(v: Json, key: Key, words: Words): Json {
    match v
    case Str(s) => Str(RedactString(s, key, words))
    case Other(_) => v
    case Arr(items) => Arr(seq(|items|, i requires 0 <= i < |items| => Redact(items[i], None, words)))
    case Obj(fields) =>
      Obj(seq(|fields|, i requires 0 <= i < |fields| =>
            Field(fields[i].key, Redact(fields[i].value, Some(fields[i].key), words))))
  }

  /** The value of a key; `None` is undefined. */
  function Lookup(fields: seq<Field>, key: string): Option<Json> {
    if fields == [] then None
    else if fields[0].key == key then Some(fields[0].value)
    else Lookup(fields[1..], key)
  }

  /** Keys of an object are distinct. */
  ghost predicate ProperJson(v: Json) {
    match v
    case Arr(items) => forall i :: 0 <= i < |items| ==> ProperJson(items[i])
    case Obj(fields) =>
      && (forall i, j :: 0 <= i < j < |fields| ==> fields[i].key != fields[j].key)
      && (forall i :: 0 <= i < |fields| ==> ProperJson(fields[i].value))
    case _ => true
  }

  function RestoreString(original: Option<Json>, incoming: string, key: Key, words: Words): string {
    match original
    case Some(Str(o)) =>
      if UnderSecretKey(key, words) && incoming == MASK then o else RestoreText(o, incoming, words)
    case _ => incoming
  }

  function ItemOf(original: Option<Json>, i: nat): Option<Json> {
    match original
    case Some(Arr(items)) => if i < |items| then Some(items[i]) else None
    case _ => None
  }

  function FieldOf(original: Option<Json>, key: string): Option<Json> {
    match original
    case Some(Obj(fields)) => Lookup(fields, key)
    case _ => None
  }

  function Restore(original: Option<Json>, incoming: Json, key: Key, words: Words): Json
    decreases incoming
  {
    match incoming
    case Str(s) => Str(RestoreString(original, s, key, words))
    case Other(_) => incoming
    case Arr(items) =>
      Arr(seq(|items|, i requires 0 <= i < |items| => Restore(ItemOf(original, i), items[i], None, words)))
    case Obj(fields) =>
      Obj(seq(|fields|, i requires 0 <= i < |fields| =>
            Field(fields[i].key, Restore(FieldOf(original, fields[i].key), fields[i].value, Some(fields[i].key),
              words))))
  }

  // ----- Redaction -------------------------------------------------------------------------------------

  lemma {:induction false} RedactTwice(v: Json, key: Key, words: Words)
    ensures Redact(Redact(v, key, words), key, words) == Redact(v, key, words)
  {
    var once := Redact(v, key, words);
    match v
    case Str(s) => RedactTextTwice(s, words);
    case Other(_) =>
    case Arr(items) =>
      forall i | 0 <= i < |items| { RedactTwice(items[i], None, words); }
      assert Redact(once, key, words).items == once.items;
    case Obj(fields) =>
      forall i | 0 <= i < |fields| { RedactTwice(fields[i].value, Some(fields[i].key), words); }
      assert Redact(once, key, words).fields == once.fields;
  }

  /** A secret word stands somewhere in the name. */
  ghost predicate NamesSecret(key: string, words: Words) {
    exists a, w, b :: key == Around(a, w, b) && Lower(w) in words
  }

  function Around(a: string, w: string, b: string): string { a + w + b }

  lemma SecretKeyIff(key: string, words: Words)
    ensures SecretKey(key, words) <==> NamesSecret(key, words)
  {
    if SecretKey(key, words) {
      var i, j :| 0 <= i <= j <= |key| && Lower(key[i..j]) in words;
      assert key == Around(key[..i], key[i..j], key[j..]);
    }
    if a, w, b :| key == Around(a, w, b) && Lower(w) in words {
      assert key[|a|..|a| + |w|] == w;
    }
  }

  /** A field of settings: one whose name contains a secret word is masked whole, unless it is empty; the text of
      any other is redacted where it assigns secrets; and both come back from the original. */
  lemma FieldsAreMaskedByName(fields: seq<Field>, i: nat, s: string, key: Key, words: Words)
    requires i < |fields| && fields[i].value == Str(s)
    requires forall j, k :: 0 <= j < k < |fields| ==> fields[j].key != fields[k].key
    ensures Redact(Obj(fields), key, words).fields[i] ==
            Field(fields[i].key,
                  Str(if NamesSecret(fields[i].key, words) && s != "" then MASK else RedactText(s, words)))
    ensures Restore(Some(Obj(fields)), Obj([Field(fields[i].key, Str(MASK))]), key, words) ==
            Obj([Field(fields[i].key,
                       Str(if NamesSecret(fields[i].key, words) then s else RestoreText(s, MASK, words)))])
  {
    SecretKeyIff(fields[i].key, words);
    LookupFinds(fields, i);
    var back := Restore(Some(Obj(fields)), Obj([Field(fields[i].key, Str(MASK))]), key, words);
    assert back.fields[0].key == fields[i].key;
  }

  /** The same settings up to the contents of secret fields and the values of secret assignments. */
  ghost predicate Alike(a: Json, b: Json, key: Key, words: Words) {
    match a
    case Str(s) =>
      && b.Str?
      && if UnderSecretKey(key, words) then s == "" <==> b.s == "" else SameButValues(Scan(s, words), Scan(b.s, words))
    case Other(_) => b == a
    case Arr(items) => b.Arr? && |b.items| == |items| && forall i :: 0 <= i < |items| ==>
      Alike(items[i], b.items[i], None, words)
    case Obj(fields) =>
      && b.Obj? && |b.fields| == |fields|
      && forall i :: 0 <= i < |fields| ==>
           b.fields[i].key == fields[i].key && Alike(fields[i].value, b.fields[i].value, Some(fields[i].key), words)
  }

  lemma StringsHidden(a: string, b: string, key: Key, words: Words)
    ensures RedactString(a, key, words) == RedactString(b, key, words) <==>
            if UnderSecretKey(key, words) then a == "" <==> b == "" else SameButValues(Scan(a, words), Scan(b, words))
  {
    HidesExactlyValues(a, b, words);
    assert Scan("", words) == [];
    assert RedactText("", words) == "";
    assert MASK != "";
  }

  /** Redaction hides the secrets and nothing else: two settings look the same exactly when they are alike. */
  lemma {:induction false} HidesExactlySecrets(a: Json, b: Json, key: Key, words: Words)
    ensures Redact(a, key, words) == Redact(b, key, words) <==> Alike(a, b, key, words)
    decreases a
  {
    var x, y := Redact(a, key, words), Redact(b, key, words);
    if a.Str? && b.Str? {
      StringsHidden(a.s, b.s, key, words);
    } else if a.Arr? && b.Arr? && |a.items| == |b.items| {
      forall i | 0 <= i < |a.items|
        ensures x.items[i] == y.items[i] <==> Alike(a.items[i], b.items[i], None, words)
      {
        HidesExactlySecrets(a.items[i], b.items[i], None, words);
      }
      if Alike(a, b, key, words) { assert x.items == y.items; }
    } else if a.Obj? && b.Obj? && |a.fields| == |b.fields| {
      forall i | 0 <= i < |a.fields|
        ensures x.fields[i] == y.fields[i] <==>
                b.fields[i].key == a.fields[i].key &&
                  Alike(a.fields[i].value, b.fields[i].value, Some(a.fields[i].key), words)
      {
        HidesExactlySecrets(a.fields[i].value, b.fields[i].value, Some(a.fields[i].key), words);
      }
      if Alike(a, b, key, words) { assert x.fields == y.fields; }
    }
  }

  // ----- Round trip ------------------------------------------------------------------------------------

  /** Every text outside secret fields can be restored from its own redaction. */
  ghost predicate RestorableTree(v: Json, key: Key, words: Words) {
    match v
    case Str(s) => UnderSecretKey(key, words) || Restorable(Scan(s, words))
    case Other(_) => true
    case Arr(items) => forall i :: 0 <= i < |items| ==> RestorableTree(items[i], None, words)
    case Obj(fields) => forall i :: 0 <= i < |fields| ==> RestorableTree(fields[i].value, Some(fields[i].key), words)
  }

  lemma {:induction false} LookupFinds(fields: seq<Field>, i: nat)
    requires i < |fields| && forall j, k :: 0 <= j < k < |fields| ==> fields[j].key != fields[k].key
    ensures Lookup(fields, fields[i].key) == Some(fields[i].value)
  {
    if i > 0 { LookupFinds(fields[1..], i - 1); }
  }

  lemma StringRoundTripIff(s: string, key: Key, words: Words)
    ensures RestoreString(Some(Str(s)), RedactString(s, key, words), key, words) == s <==>
            UnderSecretKey(key, words) || Restorable(Scan(s, words))
  {
    TextRoundTripIff(s, words);
    assert Scan("", words) == [];
    assert RedactText("", words) == "" && RestoreText("", "", words) == "";
    if !UnderSecretKey(key, words) { assert RedactString(s, key, words) == RedactText(s, words); }
  }

  /** Restoring the projection against its original gives the original, exactly for restorable texts. */
  lemma {:induction false} RoundTripIff(v: Json, key: Key, words: Words)
    requires ProperJson(v)
    ensures Restore(Some(v), Redact(v, key, words), key, words) == v <==> RestorableTree(v, key, words)
  {
    var redacted := Redact(v, key, words);
    var back := Restore(Some(v), redacted, key, words);
    match v
    case Str(s) => StringRoundTripIff(s, key, words);
    case Other(_) =>
    case Arr(items) =>
      forall i | 0 <= i < |items|
        ensures back.items[i] == items[i] <==> RestorableTree(items[i], None, words)
      {
        RoundTripIff(items[i], None, words);
        assert redacted.items[i] == Redact(items[i], None, words) && ItemOf(Some(v), i) == Some(items[i]);
      }
      if RestorableTree(v, key, words) { assert back.items == items; }
    case Obj(fields) =>
      forall i | 0 <= i < |fields|
        ensures back.fields[i] == fields[i] <==> RestorableTree(fields[i].value, Some(fields[i].key), words)
      {
        RoundTripIff(fields[i].value, Some(fields[i].key), words);
        LookupFinds(fields, i);
        assert redacted.fields[i] == Field(fields[i].key, Redact(fields[i].value, Some(fields[i].key), words));
      }
      if RestorableTree(v, key, words) { assert back.fields == fields; }
  }

  // ----- Edited projections -------------------------------------------------------------------------------

  /** One string after restoring: what was sent, unless it was a mask or held blank assignments. */
  ghost predicate StringRestored(original: Option<Json>, incoming: string, result: string, key: Key, words: Words) {
    || result == incoming
    || (original.Some? && original.value.Str? && UnderSecretKey(key, words) && incoming == MASK &&
      result == original.value.s)
    || (original.Some? && original.value.Str? && BlanksFilled(original.value.s, incoming, result, words))
  }

  ghost predicate BlanksFilled(original: string, incoming: string, result: string, words: Words) {
    var r, ts, o := Scan(result, words), Scan(incoming, words), Scan(original, words);
    && |r| == |ts|
    && forall k :: 0 <= k < |ts| ==>
         r[k] == ts[k] || (Blank(ts[k]) && r[k].Assign? && r[k].value != "" && r[k] == ts[k].(value := r[k].value)
                           && LastValue(o, Lower(r[k].prefix)) == Some(r[k].value))
  }

  /** The edited tree, changed only where it held masks or blanks, from the original's value at the same path. */
  ghost predicate OnlyMasksRestored(original: Option<Json>, incoming: Json, result: Json, key: Key, words: Words)
    decreases incoming
  {
    match incoming
    case Str(s) => result.Str? && StringRestored(original, s, result.s, key, words)
    case Other(_) => result == incoming
    case Arr(items) =>
      && result.Arr? && |result.items| == |items|
      && forall i :: 0 <= i < |items| ==> OnlyMasksRestored(ItemOf(original, i), items[i], result.items[i], None, words)
    case Obj(fields) =>
      && result.Obj? && |result.fields| == |fields|
      && forall i :: 0 <= i < |fields| ==>
           && result.fields[i].key == fields[i].key
           && OnlyMasksRestored(FieldOf(original, fields[i].key), fields[i].value, result.fields[i].value,
             Some(fields[i].key), words)
  }

  lemma TextBlanksFilled(original: string, incoming: string, words: Words)
    ensures BlanksFilled(original, incoming, RestoreText(original, incoming, words), words)
  {
    RestoreReads(original, incoming, words);
  }

  /** Whatever the edit, restoring overwrites nothing but masks and blanks. */
  lemma {:induction false} RestoreRespectsEdits(original: Option<Json>, incoming: Json, key: Key, words: Words)
    ensures OnlyMasksRestored(original, incoming, Restore(original, incoming, key, words), key, words)
    decreases incoming
  {
    match incoming
    case Str(s) =>
      if original.Some? && original.value.Str? { TextBlanksFilled(original.value.s, s, words); }
    case Other(_) =>
    case Arr(items) =>
      forall i | 0 <= i < |items| { RestoreRespectsEdits(ItemOf(original, i), items[i], None, words); }
    case Obj(fields) =>
      forall i | 0 <= i < |fields| {
        RestoreRespectsEdits(FieldOf(original, fields[i].key), fields[i].value, Some(fields[i].key), words);
      }
  }
}

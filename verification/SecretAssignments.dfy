/**
 * Secret assignments inside texts (apps/scheduler/src/credential-secret-projection.ts:
 * `redactSecretAssignments`, `restoreSecretAssignments`), such as `api_key = "..."` in a configuration file.
 *
 * The assignment pattern is modelled as it matches: a prefix (a secret word, an equals sign or colon, white
 * space around it, a quote), a value without quotes, a quote.  The only quote of a prefix is its last
 * character, so at a given place there is at most one match.
 */
module SecretAssignments {
  import opened Options
  import opened Texts

  const MASK: string := "[\U{5DF2}\U{4FDD}\U{5B58}\U{5BC6}\U{94A5}]"

  /** The secret words; what follows holds for any set of them. */
  type Words = set<string>

  const SECRET_WORDS: Words := {
    "apikey", "api_key", "api-key", "accesstoken", "access_token", "access-token", "authtoken", "auth_token",
      "auth-token",
    "clientsecret", "client_secret", "client-secret", "privatekey", "private_key", "private-key",
    "password", "secret", "token", "authorization", "cookie", "credential"
  }

  predicate IsQuote(c: char) { c == '"' || c == '\'' }

  predicate QuoteFree(s: string) { forall i :: 0 <= i < |s| ==> !IsQuote(s[i]) }

  predicate IsPrefix(p: string, words: Words) {
    p != "" && IsQuote(p[|p| - 1]) && IsAssignment(TrimEnd(p[..|p| - 1]), words)
  }

  predicate IsAssignment(s: string, words: Words) {
    s != "" && (s[|s| - 1] == '=' || s[|s| - 1] == ':') && Lower(TrimEnd(s[..|s| - 1])) in words
  }

  /** The name contains a secret word. */
  predicate SecretKey(key: string, words: Words) {
    exists i, j :: 0 <= i <= j <= |key| && Lower(key[i..j]) in words
  }

  /** Two halves with an underscore, a hyphen or nothing between. */
  predicate Joined(w: string, a: string, b: string) { w == a + b || w == a + "_" + b || w == a + "-" + b }

  /** The words are those of the pattern. */
  lemma SecretWordsAre(w: string)
    ensures w in SECRET_WORDS <==>
            || w in {"password", "secret", "token", "authorization", "cookie", "credential"}
            || Joined(w, "api", "key") || Joined(w, "access", "token") || Joined(w, "auth", "token")
            || Joined(w, "client", "secret") || Joined(w, "private", "key")
  {
    assert "api" + "key" == "apikey";
    assert "api" + "_" + "key" == "api_key" && "api" + "-" + "key" == "api-key";
    assert "access" + "token" == "accesstoken";
    assert "access" + "_" + "token" == "access_token" && "access" + "-" + "token" == "access-token";
    assert "auth" + "token" == "authtoken";
    assert "auth" + "_" + "token" == "auth_token" && "auth" + "-" + "token" == "auth-token";
    assert "client" + "secret" == "clientsecret";
    assert "client" + "_" + "secret" == "client_secret" && "client" + "-" + "secret" == "client-secret";
    assert "private" + "key" == "privatekey";
    assert "private" + "_" + "key" == "private_key" && "private" + "-" + "key" == "private-key";
  }

  // ----- Texts as literals and assignments ------------------------------------------------------------

  datatype Token = Lit(c: char) | Assign(prefix: string, value: string, quote: char)

  /** The place of the first quote, or the length. */
  function FirstQuote(s: string): (q: nat)
    ensures q <= |s| && QuoteFree(s[..q]) && (q < |s| ==> IsQuote(s[q]))
  {
    if s == "" || IsQuote(s[0]) then 0
    else
      var q := FirstQuote(s[1..]);
      assert forall i :: 0 < i < q + 1 ==> s[i] == s[1..][i - 1];
      q + 1
  }

  predicate MatchesHere(s: string, words: Words) {
    var q := FirstQuote(s);
    q < |s| && IsPrefix(s[..q + 1], words) && FirstQuote(s[q + 1..]) < |s| - q - 1
  }

  /** Where the value of a match that starts here ends. */
  function ValueEnd(s: string, words: Words): (r: nat)
    requires MatchesHere(s, words)
    ensures FirstQuote(s) < r < |s| && IsQuote(s[r]) && QuoteFree(s[FirstQuote(s) + 1..r])
  {
    var q := FirstQuote(s);
    var f := FirstQuote(s[q + 1..]);
    assert s[q + 1..q + 1 + f] == s[q + 1..][..f];
    q + 1 + f
  }

  function FirstToken(s: string, words: Words): Token
    requires s != ""
  {
    if MatchesHere(s, words) then
      Assign(s[..FirstQuote(s) + 1], s[FirstQuote(s) + 1..ValueEnd(s, words)], s[ValueEnd(s, words)])
    else Lit(s[0])
  }

  function AfterFirst(s: string, words: Words): (rest: string)
    requires s != ""
    ensures |rest| < |s|
  {
    if MatchesHere(s, words) then s[ValueEnd(s, words) + 1..] else s[1..]
  }

  function Scan(s: string, words: Words): seq<Token>
    decreases |s|
  {
    if s == "" then [] else [FirstToken(s, words)] + Scan(AfterFirst(s, words), words)
  }

  function TokenText(t: Token): string {
    match t
    case Lit(c) => [c]
    case Assign(prefix, value, quote) => prefix + value + [quote]
  }

  function Render(ts: seq<Token>): string { if ts == [] then "" else TokenText(ts[0]) + Render(ts[1..]) }

  /** An assignment as `Scan` makes them: quotes where they belong and nowhere else. */
  predicate Proper(t: Token, words: Words) {
    t.Assign? ==>
      && IsPrefix(t.prefix, words) && QuoteFree(t.prefix[..|t.prefix| - 1])
      && QuoteFree(t.value) && IsQuote(t.quote)
  }

  lemma FirstTokenText(s: string, words: Words)
    requires s != ""
    ensures s == TokenText(FirstToken(s, words)) + AfterFirst(s, words)
    ensures Proper(FirstToken(s, words), words)
  {
    if MatchesHere(s, words) {
      var q, r := FirstQuote(s), ValueEnd(s, words);
      assert s[..q + 1][..q] == s[..q];
      assert s == s[..q + 1] + s[q + 1..r] + [s[r]] + s[r + 1..];
    }
  }

  lemma {:induction false} ScanIsLossless(s: string, words: Words)
    ensures Render(Scan(s, words)) == s
    decreases |s|
  {
    if s != "" {
      FirstTokenText(s, words);
      ScanIsLossless(AfterFirst(s, words), words);
      assert Scan(s, words)[1..] == Scan(AfterFirst(s, words), words);
    }
  }

  /** The same token, or the same assignment with another value that contains no quote. */
  predicate SameButValue(a: Token, b: Token) {
    match a
    case Lit(_) => b == a
    case Assign(p, _, q) => b.Assign? && b.prefix == p && b.quote == q && QuoteFree(b.value)
  }

  predicate SameButValues(a: seq<Token>, b: seq<Token>) {
    |a| == |b| && forall i :: 0 <= i < |a| ==> SameButValue(a[i], b[i])
  }

  function Quotes(s: string): nat { if s == "" then 0 else (if IsQuote(s[0]) then 1 else 0) + Quotes(s[1..]) }

  lemma {:induction false} QuotesConcat(s: string, t: string)
    ensures Quotes(s + t) == Quotes(s) + Quotes(t)
  {
    if s == "" {
      assert s + t == t;
    } else {
      QuotesConcat(s[1..], t);
      assert (s + t)[1..] == s[1..] + t;
    }
  }

  lemma {:induction false} NoQuotes(s: string)
    ensures QuoteFree(s) <==> Quotes(s) == 0
  {
    if s != "" {
      NoQuotes(s[1..]);
      assert forall i :: 0 < i < |s| ==> s[i] == s[1..][i - 1];
      assert forall i :: 0 <= i < |s| - 1 ==> s[1..][i] == s[i + 1];
    }
  }

  lemma {:induction false} QuotesAtFirst(s: string)
    requires FirstQuote(s) < |s|
    ensures Quotes(s) == 1 + Quotes(s[FirstQuote(s) + 1..])
  {
    if !IsQuote(s[0]) {
      QuotesAtFirst(s[1..]);
      assert s[1..][FirstQuote(s[1..]) + 1..] == s[FirstQuote(s) + 1..];
    }
  }

  lemma HasQuoteIff(s: string)
    ensures FirstQuote(s) < |s| <==> Quotes(s) > 0
  {
    NoQuotes(s);
    if FirstQuote(s) == |s| { assert s[..FirstQuote(s)] == s; }
  }

  /** Whether an assignment starts here depends on the text up to the first quote and on there being another. */
  lemma MatchesByQuotes(s: string, words: Words)
    ensures MatchesHere(s, words) <==>
            FirstQuote(s) < |s| && IsPrefix(s[..FirstQuote(s) + 1], words) && Quotes(s) >= 2
  {
    if FirstQuote(s) < |s| {
      QuotesAtFirst(s);
      HasQuoteIff(s[FirstQuote(s) + 1..]);
    }
  }

  /** Two texts that look the same to a match at their beginning. */
  predicate Agree(s: string, t: string) {
    && Quotes(s) == Quotes(t) && FirstQuote(s) <= |t| && s[..FirstQuote(s)] == t[..FirstQuote(s)]
    && (FirstQuote(s) < |s| ==> FirstQuote(s) < |t| && t[FirstQuote(s)] == s[FirstQuote(s)])
    && (FirstQuote(s) == |s| ==> s == t)
  }

  lemma FirstQuoteAt(s: string, q: nat)
    requires q < |s| && QuoteFree(s[..q]) && IsQuote(s[q])
    ensures FirstQuote(s) == q
  {
    var f := FirstQuote(s);
    assert forall i :: 0 <= i < q ==> s[..q][i] == s[i];
    assert forall i :: 0 <= i < f ==> s[..f][i] == s[i];
  }

  lemma AgreeMatch(s: string, t: string, words: Words)
    requires Agree(s, t)
    ensures MatchesHere(s, words) <==> MatchesHere(t, words)
  {
    MatchesByQuotes(s, words);
    MatchesByQuotes(t, words);
    if FirstQuote(s) < |s| {
      var q := FirstQuote(s);
      FirstQuoteAt(t, q);
      assert s[..q + 1] == s[..q] + [s[q]] && t[..q + 1] == t[..q] + [t[q]];
    }
  }

  lemma AgreeAfterLiteral(c: char, s: string, t: string)
    requires Agree(s, t)
    ensures Agree([c] + s, [c] + t)
  {
    var x, y := [c] + s, [c] + t;
    assert x[1..] == s && y[1..] == t;
    if !IsQuote(c) {
      var q := FirstQuote(s);
      assert FirstQuote(x) == q + 1;
      assert x[..q + 1] == [c] + s[..q] && y[..q + 1] == [c] + t[..q];
    }
  }

  lemma AgreeAfterPrefix(p: string, s: string, t: string)
    requires p != "" && IsQuote(p[|p| - 1]) && QuoteFree(p[..|p| - 1]) && Quotes(s) == Quotes(t)
    ensures Agree(p + s, p + t) && FirstQuote(p + t) == |p| - 1
  {
    assert (p + s)[..|p| - 1] == p[..|p| - 1] && (p + t)[..|p| - 1] == p[..|p| - 1];
    FirstQuoteAt(p + s, |p| - 1);
    FirstQuoteAt(p + t, |p| - 1);
    QuotesConcat(p, s);
    QuotesConcat(p, t);
  }

  lemma QuotesOfRest(value: string, quote: char, rest: string)
    requires QuoteFree(value) && IsQuote(quote)
    ensures Quotes(value + [quote] + rest) == 1 + Quotes(rest)
    ensures FirstQuote(value + [quote] + rest) == |value|
  {
    NoQuotes(value);
    QuotesConcat(value, [quote]);
    QuotesConcat(value + [quote], rest);
    assert (value + [quote] + rest)[..|value|] == value;
    FirstQuoteAt(value + [quote] + rest, |value|);
  }

  /** A text that begins with a prefix and a quoted value. */
  lemma MatchesPrefix(p: string, value: string, quote: char, rest: string, words: Words)
    requires IsPrefix(p, words) && QuoteFree(p[..|p| - 1]) && QuoteFree(value) && IsQuote(quote)
    ensures var s := p + (value + [quote] + rest);
      && FirstQuote(s) == |p| - 1 && s[..|p|] == p && s[|p|..] == value + [quote] + rest
      && MatchesHere(s, words) && ValueEnd(s, words) == |p| + |value|
  {
    var tail := value + [quote] + rest;
    var s := p + tail;
    AgreeAfterPrefix(p, tail, tail);
    assert s[..|p|] == p && s[|p|..] == tail;
    QuotesOfRest(value, quote, rest);
  }

  lemma SplitAfterPrefix(p: string, value: string, quote: char, rest: string)
    ensures var s, r := p + (value + [quote] + rest), |p| + |value|;
      s[|p|..r] == value && s[r] == quote && s[r + 1..] == rest
  {
  }

  /** An assignment followed by anything is read as that assignment. */
  lemma ReadsAssignment(t: Token, rest: string, words: Words)
    requires t.Assign? && Proper(t, words)
    ensures var s := TokenText(t) + rest;
      s != "" && FirstToken(s, words) == t && AfterFirst(s, words) == rest
  {
    PrefixFirst(t, rest);
    MatchesPrefix(t.prefix, t.value, t.quote, rest, words);
    SplitAfterPrefix(t.prefix, t.value, t.quote, rest);
  }

  /** Replacing values leaves every other token where it was: the new text is read the same way. */
  lemma {:induction false} ScanStable(s: string, b: seq<Token>, words: Words)
    requires SameButValues(Scan(s, words), b)
    ensures Scan(Render(b), words) == b && Agree(s, Render(b))
    decreases |s|
  {
    if s != "" {
      var rest, t := AfterFirst(s, words), Render(b);
      assert Scan(s, words)[0] == FirstToken(s, words) && Scan(s, words)[1..] == Scan(rest, words);
      assert SameButValue(Scan(s, words)[0], b[0]);
      ScanStable(rest, b[1..], words);
      FirstTokenText(s, words);
      assert b == [b[0]] + b[1..] && t == TokenText(b[0]) + Render(b[1..]);
      if MatchesHere(s, words) {
        AssignmentAgrees(FirstToken(s, words), rest, b[0], Render(b[1..]), words);
        ReadsAssignment(b[0], Render(b[1..]), words);
      } else {
        AgreeAfterLiteral(s[0], rest, Render(b[1..]));
        AgreeMatch(s, t, words);
        assert t[1..] == Render(b[1..]);
      }
    }
  }

  lemma AssignmentAgrees(a: Token, rest: string, b: Token, rest': string, words: Words)
    requires a.Assign? && Proper(a, words) && SameButValue(a, b) && Quotes(rest) == Quotes(rest')
    ensures Agree(TokenText(a) + rest, TokenText(b) + rest')
  {
    QuotesOfRest(a.value, a.quote, rest);
    QuotesOfRest(b.value, b.quote, rest');
    AgreeAfterPrefix(a.prefix, a.value + [a.quote] + rest, b.value + [b.quote] + rest');
    PrefixFirst(a, rest);
    PrefixFirst(b, rest');
  }

  lemma PrefixFirst(t: Token, rest: string)
    requires t.Assign?
    ensures TokenText(t) + rest == t.prefix + (t.value + [t.quote] + rest)
  {
  }

  // ----- Redacting a text ---------------------------------------------------------------------------

  function MaskedToken(t: Token): Token { if t.Assign? then t.(value := MASK) else t }

  function Masked(ts: seq<Token>): seq<Token> { seq(|ts|, i requires 0 <= i < |ts| => MaskedToken(ts[i])) }

  function RedactText(s: string, words: Words): string { Render(Masked(Scan(s, words))) }

  /** A redacted text reads as the original with every value masked. */
  lemma RedactReads(s: string, words: Words)
    ensures Scan(RedactText(s, words), words) == Masked(Scan(s, words))
  {
    ScanStable(s, Masked(Scan(s, words)), words);
  }

  lemma RedactTextTwice(s: string, words: Words)
    ensures RedactText(RedactText(s, words), words) == RedactText(s, words)
  {
    RedactReads(s, words);
    assert Masked(Masked(Scan(s, words))) == Masked(Scan(s, words));
  }

  lemma {:induction false} ScanIsProper(s: string, words: Words)
    ensures forall i :: 0 <= i < |Scan(s, words)| ==> Proper(Scan(s, words)[i], words)
    decreases |s|
  {
    if s != "" {
      FirstTokenText(s, words);
      ScanIsProper(AfterFirst(s, words), words);
    }
  }

  lemma MaskedEqualIff(x: seq<Token>, y: seq<Token>, words: Words)
    requires forall i :: 0 <= i < |y| ==> Proper(y[i], words)
    ensures Masked(x) == Masked(y) <==> SameButValues(x, y)
  {
    assert |x| == |Masked(x)| && |y| == |Masked(y)|;
    assert forall i :: 0 <= i < |x| ==> MaskedToken(x[i]) == Masked(x)[i];
    assert forall i :: 0 <= i < |y| ==> MaskedToken(y[i]) == Masked(y)[i];
    if SameButValues(x, y) { assert Masked(x) == Masked(y); }
  }

  /** Two texts redact to the same exactly when they differ in values of secret assignments only. */
  lemma HidesExactlyValues(a: string, b: string, words: Words)
    ensures RedactText(a, words) == RedactText(b, words) <==> SameButValues(Scan(a, words), Scan(b, words))
  {
    RedactReads(a, words);
    RedactReads(b, words);
    ScanIsProper(b, words);
    var x, y := Scan(a, words), Scan(b, words);
    MaskedEqualIff(x, y, words);
  }

  // ----- What an assignment is ----------------------------------------------------------------------

  predicate White(s: string) { forall i :: 0 <= i < |s| ==> IsSpace(s[i]) }

  /** A secret word, not ending in white space. */
  predicate SecretWord(w: string, words: Words) {
    Lower(w) in words && w != "" && QuoteFree(w) && !IsSpace(w[|w| - 1])
  }

  /** `w = "` or `w : '`, with any white space around the sign, as it stands before the value. */
  ghost predicate OpensAssignment(p: string, words: Words) {
    exists w, ws1, sep, ws2, q ::
      && p == Opening(w, ws1, sep, ws2, q) && SecretWord(w, words) && White(ws1) && White(ws2)
      && (sep == '=' || sep == ':') && (q == '"' || q == '\'')
  }

  function Opening(w: string, ws1: string, sep: char, ws2: string, q: char): string { w + ws1 + [sep] + ws2 + [q] }

  /** Words that are not empty and have no white space at their end, as those of the pattern. */
  predicate PlainWords(words: Words) { forall w :: w in words ==> w != "" && !IsSpace(w[|w| - 1]) }

  lemma {:induction false} TrimEndDropsWhite(s: string, ws: string)
    requires White(ws) && (s == "" || !IsSpace(s[|s| - 1]))
    ensures TrimEnd(s + ws) == s
  {
    if ws == "" {
      assert s + ws == s;
    } else {
      TrimEndDropsWhite(s, ws[..|ws| - 1]);
      assert (s + ws)[..|s + ws| - 1] == s + ws[..|ws| - 1];
    }
  }

  /** The prefixes of the pattern are the openings. */
  lemma OpensIff(p: string, words: Words)
    requires PlainWords(words) && p != "" && QuoteFree(p[..|p| - 1])
    ensures IsPrefix(p, words) <==> OpensAssignment(p, words)
  {
    if IsPrefix(p, words) { PrefixOpens(p, words); }
    if OpensAssignment(p, words) {
      var w, ws1, sep, ws2, q :| p == Opening(w, ws1, sep, ws2, q) && SecretWord(w, words) && White(ws1) && White(ws2)
        && (sep == '=' || sep == ':') && (q == '"' || q == '\'');
      OpeningIsPrefix(w, ws1, sep, ws2, q, words);
    }
  }

  lemma PrefixOpens(p: string, words: Words)
    requires PlainWords(words) && IsPrefix(p, words) && QuoteFree(p[..|p| - 1])
    ensures OpensAssignment(p, words)
  {
    var s := p[..|p| - 1];
    var ws2 := TrimEndIs(s);
    var named := TrimEnd(s);
    var body := named[..|named| - 1];
    var ws1 := TrimEndIs(body);
    var w := TrimEnd(body);
    var sep, q := named[|named| - 1], p[|p| - 1];
    assert named == w + ws1 + [sep];
    assert p == Opening(w, ws1, sep, ws2, q) by { assert p == s + [q]; }
    assert QuoteFree(w) by { assert forall i :: 0 <= i < |w| ==> w[i] == s[i]; }
    assert SecretWord(w, words);
  }

  lemma OpeningIsPrefix(w: string, ws1: string, sep: char, ws2: string, q: char, words: Words)
    requires SecretWord(w, words) && White(ws1) && White(ws2) && (sep == '=' || sep == ':') && (q == '"' || q == '\'')
    ensures var p := Opening(w, ws1, sep, ws2, q); IsPrefix(p, words) && QuoteFree(p[..|p| - 1])
  {
    var p := Opening(w, ws1, sep, ws2, q);
    var named := w + ws1 + [sep];
    assert p[..|p| - 1] == named + ws2;
    assert !IsSpace(sep);
    TrimEndDropsWhite(named, ws2);
    assert named[..|named| - 1] == w + ws1;
    TrimEndDropsWhite(w, ws1);
    assert forall c :: IsSpace(c) ==> !IsQuote(c);
  }

  // ----- How a text with assignments is read ---------------------------------------------------------

  lemma Associates(a: string, b: string, c: string)
    ensures a + (b + c) == (a + b) + c
  {
  }

  function Lits(s: string): seq<Token> { seq(|s|, i requires 0 <= i < |s| => Lit(s[i])) }

  predicate NoMatchIn(pre: string, rest: string, words: Words) {
    forall i :: 0 <= i < |pre| ==> !MatchesHere(pre[i..] + rest, words)
  }

  lemma NoMatchInTail(pre: string, rest: string, words: Words)
    requires pre != "" && NoMatchIn(pre, rest, words)
    ensures !MatchesHere(pre + rest, words) && NoMatchIn(pre[1..], rest, words)
  {
    assert pre[0..] == pre;
    forall i | 0 <= i < |pre[1..]| ensures !MatchesHere(pre[1..][i..] + rest, words) {
      assert pre[1..][i..] == pre[i + 1..];
    }
  }

  /** Where no match starts, tokens are letters. */
  lemma {:induction false} ScanUntil(pre: string, rest: string, words: Words)
    requires NoMatchIn(pre, rest, words)
    ensures Scan(pre + rest, words) == Lits(pre) + Scan(rest, words)
  {
    if pre == "" {
      assert pre + rest == rest && Lits(pre) + Scan(rest, words) == Scan(rest, words);
    } else {
      NoMatchInTail(pre, rest, words);
      LetterFirst(pre, rest, words);
      ScanUntil(pre[1..], rest, words);
      LitsPrepend(pre, Scan(rest, words));
    }
  }

  lemma LitsPrepend(pre: string, ts: seq<Token>)
    requires pre != ""
    ensures [Lit(pre[0])] + (Lits(pre[1..]) + ts) == Lits(pre) + ts
  {
  }

  lemma LetterFirst(pre: string, rest: string, words: Words)
    requires pre != "" && !MatchesHere(pre + rest, words)
    ensures Scan(pre + rest, words) == [Lit(pre[0])] + Scan(pre[1..] + rest, words)
  {
    assert (pre + rest)[1..] == pre[1..] + rest;
  }

  /** Before a quote, a match starts exactly where the text up to the quote is a prefix and another quote follows. */
  lemma MatchesBeforeQuote(x: string, q: char, rest: string, words: Words)
    requires QuoteFree(x) && IsQuote(q)
    ensures MatchesHere(x + [q] + rest, words) <==> IsPrefix(x + [q], words) && !QuoteFree(rest)
  {
    var s := x + [q] + rest;
    assert s[..|x|] == x;
    FirstQuoteAt(s, |x|);
    assert s[..|x| + 1] == x + [q] && s[|x| + 1..] == rest;
    HasQuoteIff(rest);
    NoQuotes(rest);
  }

  lemma {:induction false} ScanPlain(s: string, words: Words)
    requires QuoteFree(s)
    ensures Scan(s, words) == Lits(s)
  {
    if s != "" {
      assert forall i :: 0 <= i < |s| - 1 ==> s[1..][i] == s[i + 1];
      ScanPlain(s[1..], words);
      assert !MatchesHere(s, words);
      assert [Lit(s[0])] + Lits(s[1..]) == Lits(s);
    }
  }

  /** Text up to a quote that opens no assignment, or that no quote follows. */
  lemma ScanOther(pre: string, q: char, rest: string, words: Words)
    requires QuoteFree(pre) && IsQuote(q)
    requires QuoteFree(rest) || forall i :: 0 <= i <= |pre| ==> !IsPrefix(pre[i..] + [q], words)
    ensures Scan(pre + [q] + rest, words) == Lits(pre + [q]) + Scan(rest, words)
  {
    var head := pre + [q];
    forall i | 0 <= i < |head| ensures !MatchesHere(head[i..] + rest, words) {
      assert head[i..] == pre[i..] + [q];
      MatchesBeforeQuote(pre[i..], q, rest, words);
    }
    ScanUntil(head, rest, words);
  }

  /** A prefix that no earlier one covers, and its value. */
  lemma ScanAssignment(pre: string, t: Token, rest: string, words: Words)
    requires QuoteFree(pre) && t.Assign? && Proper(t, words)
    requires forall i :: 0 <= i < |pre| ==> !IsPrefix(pre[i..] + t.prefix, words)
    ensures Scan(pre + (TokenText(t) + rest), words) == Lits(pre) + ([t] + Scan(rest, words))
  {
    var tail := TokenText(t) + rest;
    forall i | 0 <= i < |pre| ensures !MatchesHere(pre[i..] + tail, words) { NoMatchBefore(pre[i..], t, rest, words); }
    ScanUntil(pre, tail, words);
    ReadsAssignment(t, rest, words);
  }

  lemma NoMatchBefore(x: string, t: Token, rest: string, words: Words)
    requires QuoteFree(x) && t.Assign? && Proper(t, words) && !IsPrefix(x + t.prefix, words)
    ensures !MatchesHere(x + (TokenText(t) + rest), words)
  {
    var last := |t.prefix| - 1;
    var y, q, tail := x + t.prefix[..last], t.prefix[last], t.value + [t.quote] + rest;
    assert QuoteFree(y);
    MatchesBeforeQuote(y, q, tail, words);
    assert t.prefix == t.prefix[..last] + [q];
    assert y + [q] == x + t.prefix;
    PrefixFirst(t, rest);
    Associates(x, t.prefix, tail);
  }

  /** The prefix a match takes, when one ends here. */
  lemma {:induction false} WidestPrefix(pre: string, p: string, words: Words) returns (k: nat)
    requires IsPrefix(p, words)
    ensures k <= |pre| && IsPrefix(pre[k..] + p, words)
    ensures forall i :: 0 <= i < k ==> !IsPrefix(pre[i..] + p, words)
  {
    if pre == "" || IsPrefix(pre + p, words) {
      k := 0;
      assert pre[0..] == pre && "" + p == p;
    } else {
      var later := WidestPrefix(pre[1..], p, words);
      k := later + 1;
      assert pre[1..][later..] == pre[k..];
      forall i | 0 <= i < k ensures !IsPrefix(pre[i..] + p, words) {
        if i > 0 { assert pre[1..][i - 1..] == pre[i..]; } else { assert pre[0..] == pre; }
      }
    }
  }

  lemma {:induction false} RenderConcat(a: seq<Token>, b: seq<Token>)
    ensures Render(a + b) == Render(a) + Render(b)
  {
    if a == [] {
      assert a + b == b;
    } else {
      RenderConcat(a[1..], b);
      assert (a + b)[1..] == a[1..] + b && (a + b)[0] == a[0];
      Associates(TokenText(a[0]), Render(a[1..]), Render(b));
    }
  }

  lemma {:induction false} RenderLits(s: string)
    ensures Render(Lits(s)) == s
  {
    if s != "" {
      RenderLits(s[1..]);
      assert Lits(s)[1..] == Lits(s[1..]);
    }
  }

  /** Letters, one token and the rest, as text. */
  lemma RenderParts(pre: string, t: Token, rest: seq<Token>)
    ensures Render(Lits(pre) + ([t] + rest)) == pre + (TokenText(t) + Render(rest))
  {
    RenderConcat(Lits(pre), [t] + rest);
    RenderLits(pre);
    assert ([t] + rest)[1..] == rest;
  }

  // ----- What redaction does to a text ----------------------------------------------------------------

  /** Every assignment of a quoted value to a secret name is masked, whatever stands before and after. */
  lemma MasksAssignment(pre: string, w: string, ws1: string, sep: char, ws2: string, q: char, v: string, q2: char,
    rest: string, words: Words)
    requires QuoteFree(pre) && SecretWord(w, words) && White(ws1) && (sep == '=' || sep == ':') && White(ws2)
    requires (q == '"' || q == '\'') && QuoteFree(v) && (q2 == '"' || q2 == '\'')
    ensures RedactText(pre + (Opening(w, ws1, sep, ws2, q) + v + [q2] + rest), words) ==
        pre + (Opening(w, ws1, sep, ws2, q) + MASK + [q2] + RedactText(rest, words))
  {
    var p := Opening(w, ws1, sep, ws2, q);
    OpeningIsPrefix(w, ws1, sep, ws2, q, words);
    var k, t := MatchTaken(pre, p, v, q2, words);
    RedactAssignment(pre[..k], t, rest, words);
    Regroup(pre, k, p, v, q2, rest);
    Regroup(pre, k, p, MASK, q2, RedactText(rest, words));
  }

  /** The assignment as the pattern reads it: its prefix may begin in the text before. */
  lemma MatchTaken(pre: string, p: string, v: string, q2: char, words: Words) returns (k: nat, t: Token)
    requires QuoteFree(pre) && IsPrefix(p, words) && QuoteFree(p[..|p| - 1]) && QuoteFree(v) && IsQuote(q2)
    ensures k <= |pre| && t == Assign(pre[k..] + p, v, q2) && Proper(t, words) && QuoteFree(pre[..k])
    ensures forall i :: 0 <= i < k ==> !IsPrefix(pre[..k][i..] + t.prefix, words)
  {
    k := WidestPrefix(pre, p, words);
    t := Assign(pre[k..] + p, v, q2);
    assert t.prefix[..|t.prefix| - 1] == pre[k..] + p[..|p| - 1];
    forall i | 0 <= i < k ensures !IsPrefix(pre[..k][i..] + t.prefix, words) {
      assert pre[..k][i..] + t.prefix == pre[i..] + p;
    }
  }

  lemma RedactAssignment(pre: string, t: Token, rest: string, words: Words)
    requires QuoteFree(pre) && t.Assign? && Proper(t, words)
    requires forall i :: 0 <= i < |pre| ==> !IsPrefix(pre[i..] + t.prefix, words)
    ensures RedactText(pre + (TokenText(t) + rest), words) ==
        pre + (TokenText(t.(value := MASK)) + RedactText(rest, words))
  {
    ScanAssignment(pre, t, rest, words);
    var ts := Scan(rest, words);
    MaskedParts(pre, t, ts);
    RenderParts(pre, t.(value := MASK), Masked(ts));
  }

  lemma MaskedParts(pre: string, t: Token, ts: seq<Token>)
    ensures Masked(Lits(pre) + ([t] + ts)) == Lits(pre) + ([MaskedToken(t)] + Masked(ts))
  {
  }

  lemma Regroup(pre: string, k: nat, p: string, v: string, q2: char, rest: string)
    requires k <= |pre|
    ensures pre[..k] + (TokenText(Assign(pre[k..] + p, v, q2)) + rest) == pre + (p + v + [q2] + rest)
  {
    var x := v + [q2] + rest;
    PrefixFirst(Assign(pre[k..] + p, v, q2), rest);
    PrefixFirst(Assign(p, v, q2), rest);
    Associates(pre[k..], p, x);
    Associates(pre[..k], pre[k..], p + x);
    assert pre[..k] + pre[k..] == pre;
  }

  /** All other text stays: text without quotes, and text up to a quote that does not open an assignment. */
  lemma KeepsOtherText(pre: string, q: char, rest: string, words: Words)
    requires PlainWords(words) && QuoteFree(pre) && (q == '"' || q == '\'')
    requires QuoteFree(rest) || forall i :: 0 <= i <= |pre| ==> !OpensAssignment(pre[i..] + [q], words)
    ensures RedactText(pre, words) == pre
    ensures RedactText(pre + [q] + rest, words) == pre + [q] + RedactText(rest, words)
  {
    ScanPlain(pre, words);
    RenderLits(pre);
    assert Masked(Lits(pre)) == Lits(pre);
    forall i | 0 <= i <= |pre| && !QuoteFree(rest) ensures !IsPrefix(pre[i..] + [q], words) {
      assert (pre[i..] + [q])[..|pre[i..]|] == pre[i..];
      OpensIff(pre[i..] + [q], words);
    }
    RedactOther(pre, q, rest, words);
  }

  lemma RedactOther(pre: string, q: char, rest: string, words: Words)
    requires QuoteFree(pre) && IsQuote(q)
    requires QuoteFree(rest) || forall i :: 0 <= i <= |pre| ==> !IsPrefix(pre[i..] + [q], words)
    ensures RedactText(pre + [q] + rest, words) == pre + [q] + RedactText(rest, words)
  {
    ScanOther(pre, q, rest, words);
    MaskedLits(pre + [q], Scan(rest, words));
    RenderConcat(Lits(pre + [q]), Masked(Scan(rest, words)));
    RenderLits(pre + [q]);
  }

  lemma MaskedLits(pre: string, ts: seq<Token>)
    ensures Masked(Lits(pre) + ts) == Lits(pre) + Masked(ts)
  {
  }

  // ----- Restoring a text ---------------------------------------------------------------------------

  /** The value the last assignment with this prefix, in lower case, has. */
  function LastValue(ts: seq<Token>, key: string): Option<string> {
    if ts == [] then None
    else
      var t := ts[|ts| - 1];
      if t.Assign? && Lower(t.prefix) == key then Some(t.value) else LastValue(ts[..|ts| - 1], key)
  }

  predicate Blank(t: Token) { t.Assign? && (t.value == "" || t.value == MASK) }

  function RestoredToken(t: Token, original: seq<Token>): Token {
    if Blank(t) && LastValue(original, Lower(t.prefix)).Some? && LastValue(original, Lower(t.prefix)).value != "" then
      t.(value := LastValue(original, Lower(t.prefix)).value)
    else t
  }

  function Restored(ts: seq<Token>, original: seq<Token>): seq<Token> {
    seq(|ts|, i requires 0 <= i < |ts| => RestoredToken(ts[i], original))
  }

  function RestoreText(original: string, incoming: string, words: Words): string {
    Render(Restored(Scan(incoming, words), Scan(original, words)))
  }

  lemma {:induction false} RenderAppend(ts: seq<Token>, t: Token)
    ensures Render(ts + [t]) == Render(ts) + TokenText(t)
  {
    if ts == [] {
      assert [t][1..] == [];
      assert Render([t]) == TokenText(t) + "";
    } else {
      var all := ts + [t];
      RenderAppend(ts[1..], t);
      assert all[0] == ts[0] && all[1..] == ts[1..] + [t];
      Associates(TokenText(ts[0]), Render(ts[1..]), TokenText(t));
    }
  }

  /** The map of the values of an original, later assignments replacing earlier ones. */
  ghost predicate HoldsLast(values: map<string, string>, ts: seq<Token>) {
    && (forall key :: key in values ==> LastValue(ts, key) == Some(values[key]))
    && (forall key :: LastValue(ts, key).Some? ==> key in values)
  }

  method OriginalValues(matches: seq<Token>) returns (values: map<string, string>)
    ensures HoldsLast(values, matches)
  {
    values := map[];
    var k := 0;
    while k < |matches|
      invariant 0 <= k <= |matches| && HoldsLast(values, matches[..k])
    {
      assert matches[..k + 1][..k] == matches[..k];
      if matches[k].Assign? { values := values[Lower(matches[k].prefix) := matches[k].value]; }
      k := k + 1;
    }
    assert matches[..k] == matches;
  }

  method RestoreSecretAssignments(original: string, incoming: string, words: Words) returns (text: string)
    ensures text == RestoreText(original, incoming, words)
  {
    ghost var matches := Scan(original, words);
    var originalValues := OriginalValues(Scan(original, words));
    text := Replaced(Scan(incoming, words), originalValues, matches);
  }

  method Replaced(ts: seq<Token>, originalValues: map<string, string>, ghost matches: seq<Token>) returns (text: string)
    requires HoldsLast(originalValues, matches)
    ensures text == Render(Restored(ts, matches))
  {
    text := "";
    var k := 0;
    while k < |ts|
      invariant 0 <= k <= |ts| && text == Render(Restored(ts[..k], matches))
    {
      RestoredAppend(ts, k, matches);
      text := text + TokenText(Replacement(ts[k], originalValues, matches));
      k := k + 1;
    }
    assert ts[..k] == ts;
  }

  lemma RestoredAppend(ts: seq<Token>, k: nat, original: seq<Token>)
    requires k < |ts|
    ensures Render(Restored(ts[..k + 1], original))
            == Render(Restored(ts[..k], original)) + TokenText(RestoredToken(ts[k], original))
  {
    var t := RestoredToken(ts[k], original);
    RenderAppend(Restored(ts[..k], original), t);
    assert Restored(ts[..k + 1], original) == Restored(ts[..k], original) + [t];
  }

  /** The callback of the replacement. */
  function Replacement(t: Token, originalValues: map<string, string>, ghost matches: seq<Token>): (r: Token)
    requires HoldsLast(originalValues, matches)
    ensures r == RestoredToken(t, matches)
  {
    if t.Assign? && Lower(t.prefix) in originalValues && originalValues[Lower(t.prefix)] != "" &&
      (t.value == "" || t.value == MASK)
    then t.(value := originalValues[Lower(t.prefix)])
    else t
  }

  /** A value found in the original is one of its values. */
  lemma {:induction false} LastValueOccurs(ts: seq<Token>, key: string)
    requires LastValue(ts, key).Some?
    ensures exists i ::
              0 <= i < |ts| && ts[i].Assign? && Lower(ts[i].prefix) == key && ts[i].value == LastValue(ts, key).value
  {
    var t := ts[|ts| - 1];
    if !(t.Assign? && Lower(t.prefix) == key) { LastValueOccurs(ts[..|ts| - 1], key); }
  }

  lemma {:induction false} LastValueExists(ts: seq<Token>, i: nat)
    requires i < |ts| && ts[i].Assign?
    ensures LastValue(ts, Lower(ts[i].prefix)).Some?
  {
    var t := ts[|ts| - 1];
    if !(t.Assign? && Lower(t.prefix) == Lower(ts[i].prefix)) { LastValueExists(ts[..|ts| - 1], i); }
  }

  lemma LastValueIsQuoteFree(s: string, key: string, words: Words)
    requires LastValue(Scan(s, words), key).Some?
    ensures QuoteFree(LastValue(Scan(s, words), key).value)
  {
    ScanIsProper(s, words);
    LastValueOccurs(Scan(s, words), key);
  }

  /** Restoring touches blank assignments only, and fills them with values of the original. */
  lemma RestoreReads(original: string, incoming: string, words: Words)
    ensures Scan(RestoreText(original, incoming, words), words) ==
        Restored(Scan(incoming, words), Scan(original, words))
  {
    var ts, o := Scan(incoming, words), Scan(original, words);
    ScanIsProper(incoming, words);
    forall i | 0 <= i < |ts| ensures SameButValue(ts[i], Restored(ts, o)[i]) {
      if Restored(ts, o)[i] != ts[i] { LastValueIsQuoteFree(original, Lower(ts[i].prefix), words); }
    }
    ScanStable(incoming, Restored(ts, o), words);
  }

  /**
   * What a saved text holds after an edit: token for token the edited one, except for assignments left
   * masked or empty, and those carry the last non-empty value the same name had.
   */
  lemma RestoreTouchesBlanksOnly(original: string, incoming: string, words: Words, k: nat)
    requires k < |Scan(incoming, words)|
    ensures var r, ts := Scan(RestoreText(original, incoming, words), words), Scan(incoming, words);
      && |r| == |ts|
      && (!Blank(ts[k]) ==> r[k] == ts[k])
      && (r[k] != ts[k] ==>
            && r[k].Assign? && r[k].prefix == ts[k].prefix && r[k].quote == ts[k].quote && r[k].value != ""
            && LastValue(Scan(original, words), Lower(r[k].prefix)) == Some(r[k].value))
  {
    RestoreReads(original, incoming, words);
  }

  // ----- What restoring does to a text -----------------------------------------------------------------

  lemma RestoreAssignment(original: string, pre: string, t: Token, rest: string, words: Words)
    requires QuoteFree(pre) && t.Assign? && Proper(t, words)
    requires forall i :: 0 <= i < |pre| ==> !IsPrefix(pre[i..] + t.prefix, words)
    ensures RestoreText(original, pre + (TokenText(t) + rest), words) ==
        pre + (TokenText(RestoredToken(t, Scan(original, words))) + RestoreText(original, rest, words))
  {
    var o, ts := Scan(original, words), Scan(rest, words);
    ScanAssignment(pre, t, rest, words);
    RestoredParts(pre, t, ts, o);
    RenderParts(pre, RestoredToken(t, o), Restored(ts, o));
  }

  lemma RestoredParts(pre: string, t: Token, ts: seq<Token>, o: seq<Token>)
    ensures Restored(Lits(pre) + ([t] + ts), o) == Lits(pre) + ([RestoredToken(t, o)] + Restored(ts, o))
  {
  }

  /** A value that was edited is kept, whatever the original held. */
  lemma KeepsNewValue(original: string, pre: string, w: string, ws1: string, sep: char, ws2: string, q: char,
    v: string, q2: char, rest: string, words: Words)
    requires QuoteFree(pre) && SecretWord(w, words) && White(ws1) && (sep == '=' || sep == ':') && White(ws2)
    requires (q == '"' || q == '\'') && QuoteFree(v) && v != "" && v != MASK && (q2 == '"' || q2 == '\'')
    ensures RestoreText(original, pre + (Opening(w, ws1, sep, ws2, q) + v + [q2] + rest), words) ==
        pre + (Opening(w, ws1, sep, ws2, q) + v + [q2] + RestoreText(original, rest, words))
  {
    var p := Opening(w, ws1, sep, ws2, q);
    OpeningIsPrefix(w, ws1, sep, ws2, q, words);
    var k, t := MatchTaken(pre, p, v, q2, words);
    RestoreAssignment(original, pre[..k], t, rest, words);
    Regroup(pre, k, p, v, q2, rest);
    Regroup(pre, k, p, v, q2, RestoreText(original, rest, words));
  }

  /** No secret name that ends in `w` begins in the text before it. */
  predicate NoWiderName(pre: string, w: string, words: Words) {
    forall i :: 0 <= i < |pre| ==> Lower(pre[i..] + w) !in words
  }

  /** A value left masked or empty gets the value that the same name, in whatever case, had in the original. */
  lemma FillsBlank(opre: string, ow: string, saved: string, oq2: char, orest: string,
    pre: string, w: string, ws1: string, sep: char, ws2: string, q: char, blank: string, q2: char, rest: string,
    words: Words)
    requires QuoteFree(opre) && SecretWord(ow, words) && NoWiderName(opre, ow, words)
    requires QuoteFree(saved) && saved != "" && (oq2 == '"' || oq2 == '\'')
    requires QuoteFree(pre) && SecretWord(w, words) && NoWiderName(pre, w, words) && Lower(w) == Lower(ow)
    requires White(ws1) && (sep == '=' || sep == ':') && White(ws2) && (q == '"' || q == '\'')
    requires (blank == "" || blank == MASK) && (q2 == '"' || q2 == '\'')
    requires LastValue(Scan(orest, words), Lower(Opening(w, ws1, sep, ws2, q))) == None
    ensures var original := opre + (Opening(ow, ws1, sep, ws2, q) + saved + [oq2] + orest);
      RestoreText(original, pre + (Opening(w, ws1, sep, ws2, q) + blank + [q2] + rest), words) ==
        pre + (Opening(w, ws1, sep, ws2, q) + saved + [q2] + RestoreText(original, rest, words))
  {
    var op, p := Opening(ow, ws1, sep, ws2, q), Opening(w, ws1, sep, ws2, q);
    var o, t := Assign(op, saved, oq2), Assign(p, blank, q2);
    ProperOpening(ow, ws1, sep, ws2, q, saved, oq2, words);
    ProperOpening(w, ws1, sep, ws2, q, blank, q2, words);
    NoWiderPrefix(opre, ow, ws1, sep, ws2, q, words);
    NoWiderPrefix(pre, w, ws1, sep, ws2, q, words);
    SameKey(ow, w, ws1, sep, ws2, q);
    FillsToken(opre, o, orest, pre, t, rest, words);
  }

  lemma ProperOpening(w: string, ws1: string, sep: char, ws2: string, q: char, v: string, q2: char, words: Words)
    requires SecretWord(w, words) && White(ws1) && (sep == '=' || sep == ':') && White(ws2) && (q == '"' || q == '\'')
    requires QuoteFree(v) && (q2 == '"' || q2 == '\'')
    ensures Proper(Assign(Opening(w, ws1, sep, ws2, q), v, q2), words)
  {
    OpeningIsPrefix(w, ws1, sep, ws2, q, words);
  }

  lemma FillsToken(opre: string, o: Token, orest: string, pre: string, t: Token, rest: string, words: Words)
    requires QuoteFree(opre) && o.Assign? && Proper(o, words) && o.value != ""
    requires QuoteFree(pre) && t.Assign? && Proper(t, words) && Blank(t) && Lower(t.prefix) == Lower(o.prefix)
    requires forall i :: 0 <= i < |opre| ==> !IsPrefix(opre[i..] + o.prefix, words)
    requires forall i :: 0 <= i < |pre| ==> !IsPrefix(pre[i..] + t.prefix, words)
    requires LastValue(Scan(orest, words), Lower(t.prefix)) == None
    ensures var original := opre + (TokenText(o) + orest);
      RestoreText(original, pre + (TokenText(t) + rest), words) ==
        pre + (TokenText(t.(value := o.value)) + RestoreText(original, rest, words))
  {
    ScanAssignment(opre, o, orest, words);
    LastOfParts(opre, o, Scan(orest, words), Lower(t.prefix));
    RestoreAssignment(opre + (TokenText(o) + orest), pre, t, rest, words);
  }

  lemma SameKey(ow: string, w: string, ws1: string, sep: char, ws2: string, q: char)
    requires Lower(w) == Lower(ow)
    ensures Lower(Opening(w, ws1, sep, ws2, q)) == Lower(Opening(ow, ws1, sep, ws2, q))
  {
    forall i | 0 <= i < |w| ensures LowerChar(w[i]) == LowerChar(ow[i]) {
      assert Lower(w)[i] == Lower(ow)[i];
    }
    assert |w| == |ow|;
    forall i | 0 <= i < |Opening(w, ws1, sep, ws2, q)|
      ensures LowerChar(Opening(w, ws1, sep, ws2, q)[i]) == LowerChar(Opening(ow, ws1, sep, ws2, q)[i])
    {
    }
  }

  lemma NoWiderPrefix(pre: string, w: string, ws1: string, sep: char, ws2: string, q: char, words: Words)
    requires QuoteFree(pre) && SecretWord(w, words) && NoWiderName(pre, w, words)
    requires White(ws1) && (sep == '=' || sep == ':') && White(ws2) && (q == '"' || q == '\'')
    ensures forall i :: 0 <= i < |pre| ==> !IsPrefix(pre[i..] + Opening(w, ws1, sep, ws2, q), words)
  {
    forall i | 0 <= i < |pre|
      ensures !IsPrefix(pre[i..] + Opening(w, ws1, sep, ws2, q), words)
    {
      WiderName(pre[i..] + w, ws1, sep, ws2, q, words);
      assert pre[i..] + Opening(w, ws1, sep, ws2, q) == Opening(pre[i..] + w, ws1, sep, ws2, q);
    }
  }

  lemma WiderName(x: string, ws1: string, sep: char, ws2: string, q: char, words: Words)
    requires x != "" && !IsSpace(x[|x| - 1]) && Lower(x) !in words
    requires White(ws1) && (sep == '=' || sep == ':') && White(ws2) && (q == '"' || q == '\'')
    ensures !IsPrefix(Opening(x, ws1, sep, ws2, q), words)
  {
    var p, named := Opening(x, ws1, sep, ws2, q), x + ws1 + [sep];
    assert p[..|p| - 1] == named + ws2;
    TrimEndDropsWhite(named, ws2);
    assert named[..|named| - 1] == x + ws1;
    TrimEndDropsWhite(x, ws1);
  }

  lemma {:induction false} LastOfParts(pre: string, t: Token, ts: seq<Token>, key: string)
    requires t.Assign? && Lower(t.prefix) == key && LastValue(ts, key) == None
    ensures LastValue(Lits(pre) + ([t] + ts), key) == Some(t.value)
  {
    var all := Lits(pre) + ([t] + ts);
    if ts == [] {
      assert all[|all| - 1] == t;
    } else {
      assert all[|all| - 1] == ts[|ts| - 1] && all[..|all| - 1] == Lits(pre) + ([t] + ts[..|ts| - 1]);
      LastOfParts(pre, t, ts[..|ts| - 1], key);
    }
  }

  /** Every assignment has the value that its name has last, and an empty one is impossible to tell from a mask. */
  predicate Restorable(ts: seq<Token>) {
    forall i :: 0 <= i < |ts| && ts[i].Assign? ==>
      match LastValue(ts, Lower(ts[i].prefix))
      case None => false
      case Some(last) => ts[i].value == if last == "" then MASK else last
  }

  lemma RestoredIsSameIff(ts: seq<Token>)
    ensures Restored(Masked(ts), ts) == ts <==> Restorable(ts)
  {
    var back := Restored(Masked(ts), ts);
    assert |back| == |ts|;
    forall i | 0 <= i < |ts|
      ensures back[i] == ts[i] <==> (ts[i].Assign? ==>
                LastValue(ts, Lower(ts[i].prefix)).Some?
                && var last := LastValue(ts, Lower(ts[i].prefix)).value;
                   ts[i].value == if last == "" then MASK else last)
    {
      assert back[i] == RestoredToken(MaskedToken(ts[i]), ts);
      if ts[i].Assign? { LastValueExists(ts, i); }
    }
    if Restorable(ts) { assert back == ts; }
  }

  /**
   * Redacting a text and restoring it gives the text back exactly when assignments to one name agree and
   * none is empty (save one that already reads as the mask).
   */
  lemma TextRoundTripIff(s: string, words: Words)
    ensures RestoreText(s, RedactText(s, words), words) == s <==> Restorable(Scan(s, words))
  {
    RedactReads(s, words);
    var redacted := RedactText(s, words);
    RestoreReads(s, redacted, words);
    ScanIsLossless(s, words);
    RestoredIsSameIff(Scan(s, words));
  }

  /** In particular when the names are distinct and the values are not empty. */
  lemma {:induction false} DistinctNamesRoundTrip(s: string, words: Words)
    requires var ts := Scan(s, words);
      && (forall i :: 0 <= i < |ts| && ts[i].Assign? ==> ts[i].value != "")
      && (forall i, j :: 0 <= i < |ts| && 0 <= j < |ts| && i != j && ts[i].Assign? && ts[j].Assign? ==>
            Lower(ts[i].prefix) != Lower(ts[j].prefix))
    ensures RestoreText(s, RedactText(s, words), words) == s
  {
    var ts := Scan(s, words);
    forall i | 0 <= i < |ts| && ts[i].Assign?
      ensures LastValue(ts, Lower(ts[i].prefix)) == Some(ts[i].value)
    {
      LastValueExists(ts, i);
      LastValueOccurs(ts, Lower(ts[i].prefix));
    }
    TextRoundTripIff(s, words);
  }
}

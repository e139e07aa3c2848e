/**
 * The bounded body of a canvas node (apps/scheduler/src/canvas-delta.ts: `boundedCanvasBody`), which both the
 * snapshot and the deltas of a canvas carry.
 */
module CanvasBody {
  import opened Options
  import opened Jsons
  import opened Texts

  datatype Progress = Progress(message: string, kind: string)

  datatype Subject =
    | Finding(findingId: Option<string>, revision: Option<string>)
    | PlatformBlocker(kind: Option<string>)

  /** A bounded body; `findingId` is present exactly beside a finding, and may then be null. */
  datatype Body = Body(
    summary: string, description: string, severity: Option<string>, role: Option<string>, kind: Option<string>,
    lastProgress: Option<Progress>, reason: Option<string>, subject: Option<Subject>,
    findingId: Option<Option<string>>, uiColor: Option<string>)

  function Slice(s: string, n: nat): string { if |s| <= n then s else s[..n] }

  function Text(p: Payload, key: string): Option<string> {
    match Get(p, key)
    case Some(Str(s)) => Some(s)
    case _ => None
  }

  function Record(p: Payload, key: string): Option<Payload> {
    match Get(p, key)
    case Some(Obj(q)) => Some(q)
    case _ => None
  }

  function FirstOf(a: Option<string>, b: Option<string>): Option<string> { if a.Some? then a else b }

  function OrEmpty(a: Option<string>): string { if a.Some? then a.value else "" }

  function Sliced(a: Option<string>, n: nat): Option<string> { if a.Some? then Some(Slice(a.value, n)) else None }

  predicate IsHex(c: char) { '0' <= c <= '9' || 'a' <= c <= 'f' || 'A' <= c <= 'F' }

  predicate IsColor(s: string) { |s| == 7 && s[0] == '#' && forall i :: 1 <= i < 7 ==> IsHex(s[i]) }

  function Color(p: Payload): Option<string> {
    match Text(p, "ui_color")
    case Some(c) => if IsColor(c) then Some(Lower(c)) else None
    case None => None
  }

  function LastProgress(p: Payload): Option<Progress> {
    match Record(p, "last_progress")
    case Some(q) => Some(Progress(Slice(OrEmpty(Text(q, "message")), 240), Slice(OrEmpty(Text(q, "kind")), 64)))
    case None => None
  }

  /** What a human node asks about, with the finding it repeats beside it. */
  function Asked(p: Payload): (Option<Subject>, Option<Option<string>>) {
    var q := Record(p, "subject");
    if q.Some? && Get(q.value, "type") == Some(Str("finding")) then
      (Some(Finding(Text(q.value, "finding_id"), Sliced(Text(q.value, "subject_revision"), 500))),
       Some(Text(q.value, "finding_id")))
    else if q.Some? && Get(q.value, "type") == Some(Str("platform_blocker")) then
      (Some(PlatformBlocker(Text(q.value, "kind"))), None)
    else if Text(p, "finding_id").Some? then
      (Some(Finding(Text(p, "finding_id"), None)), Some(Text(p, "finding_id")))
    else (None, None)
  }

  function Bounded(value: Json, human: bool): Body {
    var p := if value.Obj? then value.entries else map[];
    Body(Slice(OrEmpty(FirstOf(Text(p, "summary"), FirstOf(Text(p, "description"), Text(p, "message")))), 240),
         Slice(OrEmpty(FirstOf(Text(p, "description"), Text(p, "summary"))), 240),
         Text(p, "severity"), Text(p, "role"), Text(p, "type"), LastProgress(p),
         if human then Sliced(Text(p, "reason"), 500) else None,
         if human then Asked(p).0 else None,
         if human then Asked(p).1 else None,
         Color(p))
  }

  // ----- The body as it travels ------------------------------------------------------------------------

  function OrNull(a: Option<string>): Json { if a.Some? then Str(a.value) else Null }

  function SubjectJson(s: Subject): Json {
    match s
    case Finding(id, revision) =>
      Obj(map["type" := Str("finding"), "finding_id" := OrNull(id), "subject_revision" := OrNull(revision)])
    case PlatformBlocker(kind) => Obj(map["type" := Str("platform_blocker"), "kind" := OrNull(kind)])
  }

  function ProgressJson(p: Option<Progress>): Json {
    match p
    case Some(x) => Obj(map["message" := Str(x.message), "kind" := Str(x.kind)])
    case None => Null
  }

  function TextJson(a: Option<string>): Option<Json> { if a.Some? then Some(Str(a.value)) else None }

  const KEYS: set<string> := {
    "summary", "description", "severity", "role", "type", "last_progress", "reason", "subject", "finding_id", "ui_color"
  }

  function Entry(b: Body, key: string): Option<Json> {
    if key == "summary" then Some(Str(b.summary))
    else if key == "description" then Some(Str(b.description))
    else if key == "severity" then Some(OrNull(b.severity))
    else if key == "role" then Some(OrNull(b.role))
    else if key == "type" then Some(OrNull(b.kind))
    else if key == "last_progress" then Some(ProgressJson(b.lastProgress))
    else if key == "reason" then TextJson(b.reason)
    else if key == "subject" then (if b.subject.Some? then Some(SubjectJson(b.subject.value)) else None)
    else if key == "finding_id" then (if b.findingId.Some? then Some(OrNull(b.findingId.value)) else None)
    else if key == "ui_color" then TextJson(b.uiColor)
    else None
  }

  function Wire(b: Body): Json { Obj(map k | k in KEYS && Entry(b, k).Some? :: Entry(b, k).value) }

  /** Every text within its limit, and nothing about a question on a node that is not a human's. */
  ghost predicate WithinBounds(b: Body, human: bool) {
    && |b.summary| <= 240 && |b.description| <= 240
    && (b.lastProgress.Some? ==> |b.lastProgress.value.message| <= 240 && |b.lastProgress.value.kind| <= 64)
    && (b.reason.Some? ==> human && |b.reason.value| <= 500)
    && (b.subject.Some? ==> human)
    && (b.findingId.Some? <==> b.subject.Some? && b.subject.value.Finding?)
    && (b.findingId.Some? ==> b.findingId.value == b.subject.value.findingId)
    && (b.subject.Some? && b.subject.value.Finding? && b.subject.value.revision.Some? ==>
      |b.subject.value.revision.value| <= 500)
    && (b.uiColor.Some? ==> IsColor(b.uiColor.value) && Lower(b.uiColor.value) == b.uiColor.value)
  }

  lemma BoundedIsWithinBounds(value: Json, human: bool)
    ensures WithinBounds(Bounded(value, human), human)
  {
  }

  /** `r` is the beginning of `s`, of `n` characters if there are as many. */
  predicate Begins(r: string, s: string, n: nat) { r <= s && |r| == if |s| < n then |s| else n }

  /** The first of the keys under which the payload has a text, with that text; or the empty text. */
  ghost predicate FirstText(p: Payload, keys: seq<string>, s: string) {
    if keys == [] then s == ""
    else if keys[0] in p && p[keys[0]].Str? then s == p[keys[0]].s
    else FirstText(p, keys[1..], s)
  }

  lemma FirstOfTwo(p: Payload, a: string, b: string, s: string)
    requires FirstText(p, [a, b], s)
    ensures s == OrEmpty(FirstOf(Text(p, a), Text(p, b)))
  {
    assert [a, b][1..] == [b] && [b][1..] == [];
    if Text(p, a).None? {
      assert FirstText(p, [b], s);
      if Text(p, b).None? { assert FirstText(p, [b][1..], s); }
    }
  }

  lemma FirstOfThree(p: Payload, a: string, b: string, c: string, s: string)
    requires FirstText(p, [a, b, c], s)
    ensures s == OrEmpty(FirstOf(Text(p, a), FirstOf(Text(p, b), Text(p, c))))
  {
    assert [a, b, c][1..] == [b, c];
    if Text(p, a).None? { FirstOfTwo(p, b, c, s); }
  }

  /** What the bounded body of a payload shows as summary and description. */
  lemma BoundedSummaryIs(p: Payload, human: bool, summary: string, description: string)
    requires FirstText(p, ["summary", "description", "message"], summary)
    requires FirstText(p, ["description", "summary"], description)
    ensures Begins(Bounded(Obj(p), human).summary, summary, 240)
    ensures Begins(Bounded(Obj(p), human).description, description, 240)
  {
    FirstOfThree(p, "summary", "description", "message", summary);
    FirstOfTwo(p, "description", "summary", description);
  }

  /** Its other texts: kept if they are texts, the reason only on a human node, the color only if it is one. */
  lemma BoundedTextsAre(p: Payload, human: bool)
    ensures var b := Bounded(Obj(p), human);
      && (b.severity.Some? <==> "severity" in p && p["severity"].Str?)
      && (b.severity.Some? ==> p["severity"] == Str(b.severity.value))
      && (b.role.Some? <==> "role" in p && p["role"].Str?) && (b.role.Some? ==> p["role"] == Str(b.role.value))
      && (b.kind.Some? <==> "type" in p && p["type"].Str?) && (b.kind.Some? ==> p["type"] == Str(b.kind.value))
      && (b.reason.Some? <==> human && "reason" in p && p["reason"].Str?)
      && (b.reason.Some? ==> Begins(b.reason.value, p["reason"].s, 500))
  {
  }

  /** The color is kept, in lower case, if it is a number sign and six hexadecimal digits. */
  lemma BoundedColorIs(p: Payload, human: bool)
    ensures var b := Bounded(Obj(p), human);
      && (b.uiColor.Some? ==> "ui_color" in p && p["ui_color"].Str? && b.uiColor.value == Lower(p["ui_color"].s))
      && ("ui_color" in p && p["ui_color"].Str? ==>
            var c := p["ui_color"].s;
            b.uiColor.Some? <==> |c| == 7 && c[0] == '#' && forall i :: 1 <= i < 7 ==> c[i] in HEX_DIGITS)
  {
    forall c ensures IsHex(c) <==> c in HEX_DIGITS { HexDigits(c); }
  }

  const HEX_DIGITS := "0123456789abcdefABCDEF"

  lemma HexDigits(c: char)
    ensures IsHex(c) <==> c in HEX_DIGITS
  {
    if '0' <= c <= '9' { assert HEX_DIGITS[c as int - '0' as int] == c; }
    if 'a' <= c <= 'f' { assert HEX_DIGITS[10 + c as int - 'a' as int] == c; }
    if 'A' <= c <= 'F' { assert HEX_DIGITS[16 + c as int - 'A' as int] == c; }
  }

  /** And of the progress made: absent unless it is an object, its texts empty unless they are texts. */
  lemma BoundedProgressIs(p: Payload, human: bool)
    ensures var b := Bounded(Obj(p), human);
      && (b.lastProgress.Some? <==> "last_progress" in p && p["last_progress"].Obj?)
      && (b.lastProgress.Some? ==>
            var q := p["last_progress"].entries;
            && Begins(b.lastProgress.value.message, if "message" in q && q["message"].Str? then q["message"].s else "",
                      240)
            && Begins(b.lastProgress.value.kind, if "kind" in q && q["kind"].Str? then q["kind"].s else "", 64))
  {
  }

  /** And of the question a human node asks: about the finding its subject names, else about a blocker of the
      platform, else about the finding the node itself names. */
  lemma BoundedSubjectIs(p: Payload, human: bool)
    ensures var b := Bounded(Obj(p), human);
      var q := if "subject" in p && p["subject"].Obj? then p["subject"].entries else map[];
      if !human then b.subject == None && b.findingId == None
      else if "type" in q && q["type"] == Str("finding") then
        && b.subject.Some? && b.subject.value.Finding? && b.findingId == Some(b.subject.value.findingId)
        && (b.subject.value.findingId.Some? <==> "finding_id" in q && q["finding_id"].Str?)
        && (b.subject.value.findingId.Some? ==> q["finding_id"] == Str(b.subject.value.findingId.value))
        && (b.subject.value.revision.Some? <==> "subject_revision" in q && q["subject_revision"].Str?)
        && (b.subject.value.revision.Some? ==> Begins(b.subject.value.revision.value, q["subject_revision"].s, 500))
      else if "type" in q && q["type"] == Str("platform_blocker") then
        && b.findingId == None && b.subject.Some? && b.subject.value.PlatformBlocker?
        && (b.subject.value.kind.Some? <==> "kind" in q && q["kind"].Str?)
        && (b.subject.value.kind.Some? ==> q["kind"] == Str(b.subject.value.kind.value))
      else if "finding_id" in p && p["finding_id"].Str? then
        && b.subject == Some(Finding(Some(p["finding_id"].s), None)) && b.findingId == Some(Some(p["finding_id"].s))
      else b.subject == None && b.findingId == None
  {
  }

  /** The entries of a payload that carries the body. */
  ghost predicate Carries(p: Payload, b: Body) {
    && Get(p, "summary") == Some(Str(b.summary)) && Get(p, "description") == Some(Str(b.description))
    && Get(p, "severity") == Some(OrNull(b.severity)) && Get(p, "role") == Some(OrNull(b.role))
    && Get(p, "type") == Some(OrNull(b.kind)) && Get(p, "last_progress") == Some(ProgressJson(b.lastProgress))
    && Get(p, "reason") == TextJson(b.reason) && Get(p, "ui_color") == TextJson(b.uiColor)
    && Get(p, "subject") == (if b.subject.Some? then Some(SubjectJson(b.subject.value)) else None)
    && Get(p, "finding_id") == (if b.findingId.Some? then Some(OrNull(b.findingId.value)) else None)
  }

  lemma WireGets(b: Body, key: string)
    requires key in KEYS
    ensures Get(Wire(b).entries, key) == Entry(b, key)
  {
  }

  lemma WireCarries(b: Body)
    ensures Carries(Wire(b).entries, b)
  {
    WireGets(b, "summary");
    WireGets(b, "description");
    WireGets(b, "severity");
    WireGets(b, "role");
    WireGets(b, "type");
    WireGets(b, "last_progress");
    WireGets(b, "reason");
    WireGets(b, "subject");
    WireGets(b, "finding_id");
    WireGets(b, "ui_color");
  }

  lemma AskedAgain(p: Payload, b: Body, human: bool)
    requires WithinBounds(b, human) && Carries(p, b)
    ensures Asked(p) == (b.subject, b.findingId)
  {
    if b.subject.Some? {
      SubjectReads(b.subject.value);
    }
  }

  lemma SubjectReads(s: Subject)
    ensures var q := SubjectJson(s).entries;
      match s
      case Finding(id, revision) =>
        Get(q, "type") == Some(Str("finding")) && Text(q, "finding_id") == id && Text(q, "subject_revision") == revision
      case PlatformBlocker(kind) => Get(q, "type") == Some(Str("platform_blocker")) && Text(q, "kind") == kind
  {
  }

  lemma ProgressReads(p: Payload, b: Body, human: bool)
    requires WithinBounds(b, human) && Carries(p, b)
    ensures LastProgress(p) == b.lastProgress
  {
  }

  lemma TextsRead(p: Payload, b: Body, human: bool)
    requires WithinBounds(b, human) && Carries(p, b)
    ensures Text(p, "summary") == Some(b.summary) && Text(p, "description") == Some(b.description)
    ensures Text(p, "severity") == b.severity && Text(p, "role") == b.role && Text(p, "type") == b.kind
    ensures Sliced(Text(p, "reason"), 500) == b.reason && Color(p) == b.uiColor
  {
  }

  /** A body within bounds is carried unchanged. */
  lemma WithinBoundsIsKept(p: Payload, b: Body, human: bool)
    requires WithinBounds(b, human) && Carries(p, b)
    ensures Bounded(Obj(p), human) == b
  {
    TextsRead(p, b, human);
    ProgressReads(p, b, human);
    AskedAgain(p, b, human);
  }

  /** For every body, well shaped or not: bounding what was bounded changes nothing. */
  lemma BoundingTwice(value: Json, human: bool)
    ensures Bounded(Wire(Bounded(value, human)), human) == Bounded(value, human)
  {
    var b := Bounded(value, human);
    BoundedIsWithinBounds(value, human);
    WireCarries(b);
    WithinBoundsIsKept(Wire(b).entries, b, human);
  }
}

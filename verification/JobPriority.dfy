/**
 * Lanes and fixed priorities of Jobs (apps/scheduler/src/core.ts: `schedulingPurposeForJob`,
 * `fixedPriorityForJob`, `stripPublicSchedulingMarkers`, the scheduling part of `createJobInTransaction`,
 * `priorityNormalization`, `normalizePendingJobPriorities`).
 */
module JobPriority {
  import opened Options
  import opened Jsons
  import opened Texts

  datatype Purpose = Hub | ConvergenceEvidence | Discovery | Verify | Report | Manual

  datatype Severity = Critical | High | Medium | Low | Info

  const HUB := 500
  const REPORT := 450
  const VERIFY_CRITICAL := 320
  const VERIFY_HIGH := 310
  const CONVERGENCE_EVIDENCE := 220
  const ROLE := 200
  const VERIFY_MEDIUM := 120
  const VERIFY_LOW := 110
  const VERIFY_INFO := 100

  const SYSTEM_JOB_TYPES: set<string> := {"hub_reason", "verify_finding", "verify", "report"}

  // ----- Text ---------------------------------------------------------------------------------------

  function Normal(s: string): string { Lower(Trim(s)) }

  /** `String(value ?? "")`, for values whose text can be a name; other texts never are one. */
  function Text(j: Option<Json>): string {
    match j
    case Some(Str(s)) => s
    case Some(Arr(items)) => if |items| == 1 then ArrayText(items[0]) else ""
    case _ => ""
  }

  function ArrayText(j: Json): string {
    match j
    case Str(s) => s
    case Arr(items) => if |items| == 1 then ArrayText(items[0]) else ""
    case _ => ""
  }

  function PurposeName(p: Purpose): string {
    match p
    case Hub => "hub"
    case ConvergenceEvidence => "convergence_evidence"
    case Discovery => "discovery"
    case Verify => "verify"
    case Report => "report"
    case Manual => "manual"
  }

  function AsPurpose(value: Option<Json>, fallback: Purpose): Purpose {
    var name := Normal(Text(value));
    if name == "hub" then Hub
    else if name == "convergence_evidence" then ConvergenceEvidence
    else if name == "discovery" then Discovery
    else if name == "verify" then Verify
    else if name == "report" then Report
    else if name == "manual" then Manual
    else fallback
  }

  function AsSeverity(value: Option<Json>, fallback: Severity): Severity {
    var name := Normal(Text(value));
    if name == "critical" then Critical
    else if name == "high" then High
    else if name == "medium" then Medium
    else if name == "low" then Low
    else if name == "info" then Info
    else fallback
  }

  // ----- The lane of a Job ---------------------------------------------------------------------------

  /** The type is compared in lower case but with its surrounding white space. */
  function PurposeFor(jobType: string, purpose: Option<Json>, payload: Payload): Purpose {
    var t := Lower(jobType);
    if t == "hub_reason" then Hub
    else if t == "verify_finding" || t == "verify" then Verify
    else if t == "report" then Report
    else
      var explicit := Coalesce(purpose, Get(payload, "scheduling_purpose"));
      var chosen := AsPurpose(explicit, Discovery);
      if explicit != None && chosen == ConvergenceEvidence then ConvergenceEvidence else Discovery
  }

  function ClassPriority(purpose: Purpose, severity: Severity): int {
    match purpose
    case Report => REPORT
    case Hub => HUB
    case ConvergenceEvidence => CONVERGENCE_EVIDENCE
    case Verify =>
      (match severity
       case Critical => VERIFY_CRITICAL
       case High => VERIFY_HIGH
       case Medium => VERIFY_MEDIUM
       case Low => VERIFY_LOW
       case Info => VERIFY_INFO)
    case _ => ROLE
  }

  function PriorityOf(purpose: Purpose, severity: Option<Json>): int {
    ClassPriority(purpose, AsSeverity(severity, Medium))
  }

  function PriorityFor(jobType: string, purpose: Option<Json>, severity: Option<Json>, payload: Payload): int {
    PriorityOf(PurposeFor(jobType, purpose, payload), severity)
  }

  predicate IsTrue(j: Option<Json>) { j == Some(Bool(true)) }

  predicate OwnedFollowup(payload: Payload, parentType: string) {
    match Get(payload, "verification_followup")
    case Some(Obj(followup)) =>
      && IsTrue(Get(followup, "scheduler_owned"))
      && (Normal(parentType) == "hub_reason" || IsTrue(Get(followup, "manual_override")))
      && (match Get(followup, "finding_id") case Some(Str(id)) => Trim(id) != "" case _ => false)
      && (match Get(followup, "required_evidence") case Some(Arr(_)) => true case _ => false)
    case _ => false
  }

  /** The lane that boot and resume assign; here the type is trimmed. */
  function PurposeOnNormalization(jobType: string, payload: Payload, parentType: string): Purpose {
    if Normal(jobType) in SYSTEM_JOB_TYPES then PurposeFor(Normal(jobType), None, payload - {"scheduling_purpose"})
    else if OwnedFollowup(payload, parentType) then ConvergenceEvidence
    else Discovery
  }

  function Stripped(payload: Payload): Payload {
    var sanitized := payload - {"scheduling_purpose", "scheduler_owned", "manual_override"};
    match Get(sanitized, "verification_followup")
    case Some(Obj(followup)) =>
      sanitized["verification_followup" := Obj(followup - {"scheduler_owned", "manual_override"})]
    case _ => sanitized
  }

  // ----- Creating and normalizing rows ---------------------------------------------------------------

  datatype Row = Row(jobType: string, priority: int, payload: Json)

  datatype Created = Job(row: Row) | PriorityFixed(expected: int)

  function FindingSeverity(payload: Payload): Option<Json> {
    match Get(payload, "finding")
    case Some(Obj(finding)) => Get(finding, "severity")
    case _ => None
  }

  function PayloadSeverity(payload: Payload): Option<Json> {
    Coalesce(Get(payload, "severity"), FindingSeverity(payload))
  }

  predicate SystemAtCreation(jobType: string) { Lower(jobType) in SYSTEM_JOB_TYPES }

  /** `extras` are the entries creation adds for reviews and runtime profiles. */
  function Create(jobType: string, requested: Payload, priority: Option<int>, extras: Payload): Created {
    var schedulingPayload := if SystemAtCreation(jobType) then requested else Stripped(requested);
    var asked := if SystemAtCreation(jobType) then Get(requested, "scheduling_purpose") else None;
    var purpose := PurposeFor(jobType, asked, schedulingPayload);
    var fixed := PriorityFor(jobType, Some(Str(PurposeName(purpose))), PayloadSeverity(schedulingPayload),
      schedulingPayload);
    if priority.Some? && priority.value != fixed then PriorityFixed(fixed)
    else Job(Row(jobType, fixed,
      Obj(schedulingPayload + extras + map["scheduling_purpose" := Str(PurposeName(purpose))])))
  }

  /** What the row is joined with: the parent's type and the severity of its finding. */
  datatype Context = Context(parentType: string, findingSeverity: Option<Json>)

  function PayloadOf(r: Row): Payload { match r.payload case Obj(p) => p case _ => map[] }

  function NormalPriority(r: Row, c: Context): int {
    var payload := PayloadOf(r);
    var purpose := PurposeOnNormalization(r.jobType, payload, c.parentType);
    PriorityFor(r.jobType, Some(Str(PurposeName(purpose))), Coalesce(c.findingSeverity, PayloadSeverity(payload)),
      payload)
  }

  function LaneOf(r: Row, c: Context): Purpose { PurposeOnNormalization(r.jobType, PayloadOf(r), c.parentType) }

  predicate Changed(r: Row, c: Context) {
    || r.priority != NormalPriority(r, c)
    || Get(PayloadOf(r), "scheduling_purpose") != Some(Str(PurposeName(LaneOf(r, c))))
  }

  function Normalized(r: Row, c: Context): Row {
    if !Changed(r, c) then r
    else
      var purpose := PurposeOnNormalization(r.jobType, PayloadOf(r), c.parentType);
      Row(r.jobType, NormalPriority(r, c), Obj(PayloadOf(r)["scheduling_purpose" := Str(PurposeName(purpose))]))
  }

  /**
   * The loop over the pending rows, with the normalization of a row and the test for it as parameters:
   * rewrites the rows in `order`, and counts the updates it issued.
   */
  method RewriteRows<R>(rows: map<nat, R>, order: seq<nat>, normal: (nat, R) -> R, changed: (nat, R) -> bool)
    returns (result: map<nat, R>, updated: nat)
    requires forall k :: 0 <= k < |order| ==> order[k] in rows
    requires forall j, k :: 0 <= j < k < |order| ==> order[j] != order[k]
    ensures result.Keys == rows.Keys
    ensures forall id :: id in rows ==>
              result[id] == if id in order && changed(id, rows[id]) then normal(id, rows[id]) else rows[id]
    ensures updated == 0 <==> forall k :: 0 <= k < |order| ==> !changed(order[k], rows[order[k]])
  {
    result, updated := rows, 0;
    var k := 0;
    while k < |order|
      invariant 0 <= k <= |order| && result.Keys == rows.Keys
      invariant forall id :: id in rows ==>
        result[id] == if id in order[..k] && changed(id, rows[id]) then normal(id, rows[id]) else rows[id]
      invariant updated == 0 <==> forall j :: 0 <= j < k ==> !changed(order[j], rows[order[j]])
    {
      var id := order[k];
      assert order[..k + 1] == order[..k] + [id];
      if changed(id, result[id]) {
        result := result[id := normal(id, result[id])];
        updated := updated + 1;
      }
      k := k + 1;
    }
    assert order[..k] == order;
  }

  /** The jobs table, as far as normalization reads and writes it. */
  class Jobs {
    var rows: map<nat, Row>
    var pending: set<nat>
    const contexts: map<nat, Context>

    ghost predicate Valid()
      reads this
    {
      pending <= rows.Keys <= contexts.Keys
    }

    /** One pass over the pending rows, in the order the query gave them. */
    method NormalizePending(order: seq<nat>) returns (examined: nat, updated: nat)
      requires Valid()
      requires (forall k :: 0 <= k < |order| ==> order[k] in pending) && (forall id :: id in pending ==> id in order)
      requires forall j, k :: 0 <= j < k < |order| ==> order[j] != order[k]
      modifies this`rows
      ensures Valid() && rows.Keys == old(rows).Keys && examined == |order|
      ensures forall id :: id in rows ==>
                rows[id] == if id in pending then Normalized(old(rows)[id], contexts[id]) else old(rows)[id]
      ensures updated == 0 <==> forall id :: id in pending ==> !Changed(old(rows)[id], contexts[id])
    {
      var cs := contexts;
      rows, updated := RewriteRows(rows, order,
        (id: nat, r: Row) => if id in cs then Normalized(r, cs[id]) else r,
        (id: nat, r: Row) => id in cs && Changed(r, cs[id]));
      examined := |order|;
    }
  }

  // ----- Normalizing again changes nothing -------------------------------------------------------------

  lemma FollowupIsElsewhere(p: Payload, name: string, parentType: string)
    ensures OwnedFollowup(p["scheduling_purpose" := Str(name)], parentType) == OwnedFollowup(p, parentType)
    ensures PayloadSeverity(p["scheduling_purpose" := Str(name)]) == PayloadSeverity(p)
  {
    var q := p["scheduling_purpose" := Str(name)];
    assert Get(q, "verification_followup") == Get(p, "verification_followup");
    assert Get(q, "finding") == Get(p, "finding") && Get(q, "severity") == Get(p, "severity");
  }

  /** A name without white space is not changed by trimming. */
  lemma NoSpaceNoTrim(s: string)
    requires forall i :: 0 <= i < |s| ==> !IsSpace(s[i])
    ensures Trim(s) == s
  {
  }

  lemma PlainName(s: string)
    requires forall i :: 0 <= i < |s| ==> 'a' <= s[i] <= 'z' || s[i] == '_'
    ensures Normal(s) == s
  {
    NoSpaceNoTrim(s);
    assert Lower(s) == s;
  }

  lemma PurposeNamesRead(p: Purpose)
    ensures AsPurpose(Some(Str(PurposeName(p))), Discovery) == p
  {
    PlainName(PurposeName(p));
  }

  /** The purpose of a row after normalization depends on nothing normalization writes. */
  lemma NormalPurposeStays(jobType: string, p: Payload, name: string, parentType: string)
    ensures PurposeOnNormalization(jobType, p["scheduling_purpose" := Str(name)], parentType)
            == PurposeOnNormalization(jobType, p, parentType)
  {
    FollowupIsElsewhere(p, name, parentType);
    assert p["scheduling_purpose" := Str(name)] - {"scheduling_purpose"} == p - {"scheduling_purpose"};
  }

  /** Given a purpose, the payload's own is not read. */
  lemma GivenPurposeDecides(jobType: string, purpose: Purpose, p: Payload)
    ensures PurposeFor(jobType, Some(Str(PurposeName(purpose))), p) ==
      if Lower(jobType) == "hub_reason" then Hub
      else if Lower(jobType) == "verify_finding" || Lower(jobType) == "verify" then Verify
      else if Lower(jobType) == "report" then Report
      else if purpose == ConvergenceEvidence then ConvergenceEvidence else Discovery
  {
    PurposeNamesRead(purpose);
  }

  /** For every row, whatever its payload and type: normalizing twice is normalizing once. */
  lemma NormalizingTwice(r: Row, c: Context)
    ensures !Changed(Normalized(r, c), c)
    ensures Normalized(Normalized(r, c), c) == Normalized(r, c)
  {
    if Changed(r, c) {
      var p := PayloadOf(r);
      var purpose := PurposeOnNormalization(r.jobType, p, c.parentType);
      var q := p["scheduling_purpose" := Str(PurposeName(purpose))];
      NormalPurposeStays(r.jobType, p, PurposeName(purpose), c.parentType);
      FollowupIsElsewhere(p, PurposeName(purpose), c.parentType);
      GivenPurposeDecides(r.jobType, purpose, p);
      GivenPurposeDecides(r.jobType, purpose, q);
    }
  }

  /** `changed` is exact: an update is issued precisely when it would change the row. */
  lemma ChangedIff(r: Row, c: Context)
    ensures Changed(r, c) <==> Normalized(r, c) != r
  {
    if Changed(r, c) { NormalizingTwice(r, c); }
  }

  // ----- Public Jobs stay in the discovery lane --------------------------------------------------------

  ghost function NormalizedAll(r: Row, cs: seq<Context>): Row {
    if cs == [] then r else Normalized(NormalizedAll(r, cs[..|cs| - 1]), cs[|cs| - 1])
  }

  /** No follow-up the scheduler would recognise as its own: the mark is missing. */
  predicate Unmarked(p: Payload) {
    match Get(p, "verification_followup")
    case Some(Obj(followup)) => "scheduler_owned" !in followup
    case _ => true
  }

  /** Stripping takes the markers away, from the payload and from its follow-up, and nothing else. */
  lemma StrippedIsUnmarked(p: Payload)
    ensures Unmarked(Stripped(p)) && Stripped(Stripped(p)) == Stripped(p)
    ensures Stripped(p).Keys == p.Keys - {"scheduling_purpose", "scheduler_owned", "manual_override"}
    ensures forall k :: k in Stripped(p) && k != "verification_followup" ==> Stripped(p)[k] == p[k]
    ensures var k := "verification_followup";
      k in p && !p[k].Obj? ==> Stripped(p)[k] == p[k]
    ensures var k := "verification_followup";
      k in p && p[k].Obj? ==>
        && Stripped(p)[k].Obj?
        && var f, g := p[k].entries, Stripped(p)[k].entries;
           g.Keys == f.Keys - {"scheduler_owned", "manual_override"} && forall x :: x in g ==> g[x] == f[x]
  {
    var q := p - {"scheduling_purpose", "scheduler_owned", "manual_override"};
    if "verification_followup" in q && q["verification_followup"].Obj? {
      var f := q["verification_followup"].entries;
      assert f - {"scheduler_owned", "manual_override"} - {"scheduler_owned", "manual_override"} ==
        f - {"scheduler_owned", "manual_override"};
    }
    assert Stripped(Stripped(p)) == Stripped(p);
  }

  ghost predicate InDiscovery(r: Row) {
    r.payload.Obj? && Get(r.payload.entries, "scheduling_purpose") == Some(Str("discovery"))
  }

  /** A row of a public Job, its purpose aside. */
  ghost predicate PublicRow(r: Row) {
    r.payload.Obj? && Unmarked(r.payload.entries) && !SystemAtCreation(r.jobType) && r.priority == ROLE
  }

  lemma PublicRowNormalized(r: Row, c: Context)
    requires PublicRow(r)
    ensures PublicRow(Normalized(r, c)) && Normalized(r, c).jobType == r.jobType
    ensures InDiscovery(Normalized(r, c)) <==> Normal(r.jobType) !in SYSTEM_JOB_TYPES
  {
    var p := PayloadOf(r);
    var purpose := PurposeOnNormalization(r.jobType, p, c.parentType);
    GivenPurposeDecides(r.jobType, purpose, p);
    FollowupIsElsewhere(p, PurposeName(purpose), c.parentType);
    assert !OwnedFollowup(p, c.parentType);
    if Normal(r.jobType) in SYSTEM_JOB_TYPES { SystemLanes(r.jobType, p); }
  }

  /** The system types name a system lane. */
  lemma SystemLanes(jobType: string, p: Payload)
    requires Normal(jobType) in SYSTEM_JOB_TYPES
    ensures PurposeFor(Normal(jobType), None, p - {"scheduling_purpose"}) in {Hub, Verify, Report}
  {
    LowerTwice(Trim(jobType));
  }

  lemma LowerTwice(s: string)
    ensures Lower(Lower(s)) == Lower(s)
  {
  }

  /**
   * A Job made through the public entry, whatever its payload claims, starts in the discovery lane at role
   * priority - any other priority asked for is refused - and keeps that priority through any number of
   * normalizations with any parents and findings.
   * It keeps the lane as well exactly if its type, trimmed, is no system type - creation looks at the type
   * untrimmed, normalization trimmed.
   */
  lemma {:induction false} PublicJobsStayInDiscovery(
      jobType: string, requested: Payload, priority: Option<int>, extras: Payload, cs: seq<Context>)
    requires !SystemAtCreation(jobType) && "verification_followup" !in extras
    ensures Create(jobType, requested, priority, extras).Job? <==> priority == None || priority == Some(ROLE)
    ensures Create(jobType, requested, priority, extras).Job? ==>
      Create(jobType, requested, priority, extras).row.payload ==
        Obj(Stripped(requested) + extras + map["scheduling_purpose" := Str("discovery")])
    ensures Create(jobType, requested, priority, extras) == PriorityFixed(ROLE) <==>
        priority.Some? && priority.value != ROLE
    ensures Create(jobType, requested, priority, extras).Job? ==>
      var r := Create(jobType, requested, priority, extras).row;
      && r.jobType == jobType && InDiscovery(r) && PublicRow(r)
      && NormalizedAll(r, cs).priority == ROLE
      && NormalizedAll(r, cs).jobType == jobType && PublicRow(NormalizedAll(r, cs))
      && (InDiscovery(NormalizedAll(r, cs)) <==> cs == [] || Normal(jobType) !in SYSTEM_JOB_TYPES)
  {
    StrippedIsUnmarked(requested);
    var schedulingPayload := Stripped(requested);
    GivenPurposeDecides(jobType, Discovery, schedulingPayload);
    var all := schedulingPayload + extras + map["scheduling_purpose" := Str("discovery")];
    assert Get(all, "verification_followup") == Get(schedulingPayload, "verification_followup");
    var created := Create(jobType, requested, priority, extras);
    if created.Job? {
      assert created.row == Row(jobType, ROLE, Obj(all));
      if cs != [] {
        PublicJobsStayInDiscovery(jobType, requested, priority, extras, cs[..|cs| - 1]);
        PublicRowNormalized(NormalizedAll(created.row, cs[..|cs| - 1]), cs[|cs| - 1]);
      }
    }
  }

  lemma RolePriorityIsNoSystemLane(purpose: Purpose, severity: Option<Json>)
    requires purpose in {Hub, Verify, Report}
    ensures PriorityOf(purpose, severity) != ROLE
  {
  }

  /**
   * After normalization the priority is that of the recorded lane, except for the types above: those are
   * filed under a system lane and keep the role priority.
   */
  lemma PriorityIsThatOfTheLane(r: Row, c: Context)
    ensures var p := PayloadOf(r);
      var purpose := PurposeOnNormalization(r.jobType, p, c.parentType);
      NormalPriority(r, c) == PriorityOf(purpose, Coalesce(c.findingSeverity, PayloadSeverity(p)))
      <==> SystemAtCreation(r.jobType) || Normal(r.jobType) !in SYSTEM_JOB_TYPES
  {
    var p := PayloadOf(r);
    var purpose := PurposeOnNormalization(r.jobType, p, c.parentType);
    GivenPurposeDecides(r.jobType, purpose, p);
    if SystemAtCreation(r.jobType) {
      SystemTypesAreTrim(r.jobType);
      LowerTwice(Trim(r.jobType));
    } else if Normal(r.jobType) in SYSTEM_JOB_TYPES {
      SystemLanes(r.jobType, p);
      RolePriorityIsNoSystemLane(purpose, Coalesce(c.findingSeverity, PayloadSeverity(p)));
    }
  }

  /** The severity a value names, however it is written; anything else counts as medium. */
  lemma PriorityInNumbers(severity: Option<Json>)
    ensures var name := Normal(Text(severity));
      PriorityOf(Verify, severity) ==
        if name == "critical" then 320 else if name == "high" then 310 else if name == "low" then 110
        else if name == "info" then 100 else 120
    ensures PriorityOf(Hub, severity) == 500 && PriorityOf(Report, severity) == 450
    ensures PriorityOf(ConvergenceEvidence, severity) == 220 && PriorityOf(Discovery, severity) == 200
  {
  }

  /**
   * The priority of every normalized row, in numbers, from its type, its severity and the follow-up in its
   * payload, whatever lane and priority it had before.
   */
  lemma NormalizedPriorityIs(r: Row, c: Context)
    requires PlainType(r.jobType)
    ensures var kind := Normal(r.jobType);
      var severity := Normal(Text(Coalesce(c.findingSeverity, PayloadSeverity(PayloadOf(r)))));
      Normalized(r, c).priority ==
        if kind == "hub_reason" then 500
        else if kind == "report" then 450
        else if kind == "verify_finding" || kind == "verify" then
          (if severity == "critical" then 320 else if severity == "high" then 310 else if severity == "low" then 110
           else if severity == "info" then 100 else 120)
        else if ForScheduler(PayloadOf(r), c.parentType) then 220
        else 200
  {
    PriorityIsThatOfTheLane(r, c);
    PriorityInNumbers(Coalesce(c.findingSeverity, PayloadSeverity(PayloadOf(r))));
    LaneIs(r, c);
    assert Normalized(r, c).priority == NormalPriority(r, c);
  }

  lemma LaneIs(r: Row, c: Context)
    ensures var kind := Normal(r.jobType);
      LaneOf(r, c) ==
        if kind == "hub_reason" then Hub
        else if kind == "report" then Report
        else if kind == "verify_finding" || kind == "verify" then Verify
        else if ForScheduler(PayloadOf(r), c.parentType) then ConvergenceEvidence
        else Discovery
  {
    if Normal(r.jobType) in SYSTEM_JOB_TYPES {
      SystemLaneIs(Normal(r.jobType), PayloadOf(r) - {"scheduling_purpose"});
    } else {
      OwnedIff(PayloadOf(r), c.parentType);
    }
  }

  lemma SystemLaneIs(kind: string, p: Payload)
    requires kind in SYSTEM_JOB_TYPES
    ensures PurposeFor(kind, None, p) ==
        if kind == "hub_reason" then Hub else if kind == "report" then Report else Verify
  {
    PlainName(kind);
    LowerTwice(Trim(kind));
  }

  /** A follow-up of the scheduler: marked as its own, coming from a hub or an operator's override, for a named
      finding and with a list of the evidence required. */
  ghost predicate ForScheduler(p: Payload, parentType: string) {
    exists f, id, evidence ::
      && "verification_followup" in p && p["verification_followup"] == Obj(f)
      && "scheduler_owned" in f && f["scheduler_owned"] == Bool(true)
      && (Normal(parentType) == "hub_reason" || ("manual_override" in f && f["manual_override"] == Bool(true)))
      && "finding_id" in f && f["finding_id"] == Str(id) && (exists i :: 0 <= i < |id| && !IsSpace(id[i]))
      && "required_evidence" in f && f["required_evidence"] == Arr(evidence)
  }

  lemma {:induction false} TrimIsEmptyIff(s: string)
    ensures TrimStart(s) == "" <==> forall i :: 0 <= i < |s| ==> IsSpace(s[i])
    ensures Trim(s) == "" <==> forall i :: 0 <= i < |s| ==> IsSpace(s[i])
  {
    if s != "" && IsSpace(s[0]) {
      TrimIsEmptyIff(s[1..]);
      assert forall i :: 0 < i < |s| ==> s[i] == s[1..][i - 1];
    } else if s != "" {
      TrimEndKeepsFirst(s);
    }
  }

  lemma {:induction false} TrimEndKeepsFirst(s: string)
    requires s != "" && !IsSpace(s[0])
    ensures TrimEnd(s) != ""
  {
    if IsSpace(s[|s| - 1]) { TrimEndKeepsFirst(s[..|s| - 1]); }
  }

  lemma OwnedIff(p: Payload, parentType: string)
    ensures OwnedFollowup(p, parentType) <==> ForScheduler(p, parentType)
  {
    if OwnedFollowup(p, parentType) {
      var f := p["verification_followup"].entries;
      OwnedIsForScheduler(p, parentType, f, f["finding_id"].s, f["required_evidence"].items);
    }
    if ForScheduler(p, parentType) { ForSchedulerIsOwned(p, parentType); }
  }

  lemma OwnedIsForScheduler(p: Payload, parentType: string, f: Payload, id: string, evidence: seq<Json>)
    requires OwnedFollowup(p, parentType) && Get(p, "verification_followup") == Some(Obj(f))
    requires Get(f, "finding_id") == Some(Str(id)) && Get(f, "required_evidence") == Some(Arr(evidence))
    ensures ForScheduler(p, parentType)
  {
    TrimIsEmptyIff(id);
    assert f["finding_id"] == Str(id) && f["required_evidence"] == Arr(evidence);
  }

  lemma ForSchedulerIsOwned(p: Payload, parentType: string)
    requires ForScheduler(p, parentType)
    ensures OwnedFollowup(p, parentType)
  {
    TrimIsEmptyIff(p["verification_followup"].entries["finding_id"].s);
  }

  /** A text, or a list of one around it, however often, as `String` reads it. */
  function Wrapped(s: string, n: nat): Json { if n == 0 then Str(s) else Arr([Wrapped(s, n - 1)]) }

  lemma {:induction false} TextOfWrapped(s: string, n: nat)
    ensures ArrayText(Wrapped(s, n)) == s && Text(Some(Wrapped(s, n))) == s
  {
    if n > 0 { TextOfWrapped(s, n - 1); }
  }

  /** How severe, the most severe first. */
  function SeverityRank(severity: Severity): nat {
    match severity case Critical => 0 case High => 1 case Medium => 2 case Low => 3 case Info => 4
  }

  /**
   * The queue classes, strictly ordered: hub, report, urgent verification, convergence evidence, roles, other
   * verification; within verification by severity.
   */
  function ClassRank(purpose: Purpose, severity: Severity): nat {
    match purpose
    case Hub => 0
    case Report => 1
    case Verify => if SeverityRank(severity) <= 1 then 2 + SeverityRank(severity) else 4 + SeverityRank(severity)
    case ConvergenceEvidence => 4
    case _ => 5
  }

  /** The numbers realize exactly this order, so classes never tie. */
  lemma ClassesAreOrdered(p: Purpose, a: Severity, q: Purpose, b: Severity)
    ensures ClassPriority(p, a) > ClassPriority(q, b) <==> ClassRank(p, a) < ClassRank(q, b)
  {
  }

  function SeverityOf(r: Row, c: Context): Severity {
    AsSeverity(Coalesce(c.findingSeverity, PayloadSeverity(PayloadOf(r))), Medium)
  }

  /** The type reads the same with and without trimming, as far as the system types go. */
  predicate PlainType(jobType: string) { SystemAtCreation(jobType) || Normal(jobType) !in SYSTEM_JOB_TYPES }

  /** The queue serves normalized rows in the order of their lanes and severities, whatever their payloads say. */
  lemma QueueFollowsLanes(r: Row, c: Context, q: Row, d: Context)
    requires PlainType(r.jobType) && PlainType(q.jobType)
    ensures Normalized(r, c).priority > Normalized(q, d).priority <==>
            ClassRank(LaneOf(r, c), SeverityOf(r, c)) < ClassRank(LaneOf(q, d), SeverityOf(q, d))
  {
    PriorityIsThatOfTheLane(r, c);
    PriorityIsThatOfTheLane(q, d);
    ClassesAreOrdered(LaneOf(r, c), SeverityOf(r, c), LaneOf(q, d), SeverityOf(q, d));
  }

  /** Outside the system types a row is in the convergence lane exactly if the scheduler owns its follow-up. */
  lemma ConvergenceIff(r: Row, c: Context)
    requires Normal(r.jobType) !in SYSTEM_JOB_TYPES
    ensures NormalPriority(r, c) == (if ForScheduler(PayloadOf(r), c.parentType) then CONVERGENCE_EVIDENCE else ROLE)
    ensures Get(PayloadOf(Normalized(r, c)), "scheduling_purpose") == Some(Str("convergence_evidence")) <==>
            ForScheduler(PayloadOf(r), c.parentType)
  {
    OwnedIff(PayloadOf(r), c.parentType);
    OwnedDecides(r, c);
  }

  lemma OwnedDecides(r: Row, c: Context)
    requires Normal(r.jobType) !in SYSTEM_JOB_TYPES
    ensures NormalPriority(r, c) == (if OwnedFollowup(PayloadOf(r), c.parentType) then CONVERGENCE_EVIDENCE else ROLE)
    ensures Get(PayloadOf(Normalized(r, c)), "scheduling_purpose") == Some(Str("convergence_evidence")) <==>
            OwnedFollowup(PayloadOf(r), c.parentType)
  {
    var p := PayloadOf(r);
    var purpose := PurposeOnNormalization(r.jobType, p, c.parentType);
    GivenPurposeDecides(r.jobType, purpose, p);
    if SystemAtCreation(r.jobType) { SystemTypesAreTrim(r.jobType); }
  }

  /** The lane of a system type. */
  function SystemLane(jobType: string): Purpose {
    if Lower(jobType) == "hub_reason" then Hub else if Lower(jobType) == "report" then Report else Verify
  }

  ghost predicate InLane(r: Row, purpose: Purpose) {
    r.payload.Obj? && Get(r.payload.entries, "scheduling_purpose") == Some(Str(PurposeName(purpose)))
  }

  lemma SystemRowNormalized(r: Row, c: Context)
    requires SystemAtCreation(r.jobType)
    ensures var n := Normalized(r, c);
      && n.jobType == r.jobType && InLane(n, SystemLane(r.jobType))
      && n.priority == PriorityOf(SystemLane(r.jobType), Coalesce(c.findingSeverity, PayloadSeverity(PayloadOf(r))))
      && PayloadSeverity(PayloadOf(n)) == PayloadSeverity(PayloadOf(r))
  {
    var p := PayloadOf(r);
    SystemTypesAreTrim(r.jobType);
    LowerTwice(r.jobType);
    var purpose := PurposeOnNormalization(r.jobType, p, c.parentType);
    assert purpose == SystemLane(r.jobType);
    GivenPurposeDecides(r.jobType, purpose, p);
    FollowupIsElsewhere(p, PurposeName(purpose), c.parentType);
  }

  /**
   * A Job of a system type stays in the lane of its type, whatever lane its payload names, and its priority
   * follows the severity of its finding, or of its payload while it has none.
   */
  lemma {:induction false} SystemJobsKeepTheirLane(jobType: string, requested: Payload, extras: Payload,
    cs: seq<Context>)
    requires SystemAtCreation(jobType) && "severity" !in extras && "finding" !in extras
    ensures Create(jobType, requested, None, extras).Job?
    ensures Create(jobType, requested, None, extras).row.payload ==
            Obj(requested + extras + map["scheduling_purpose" := Str(PurposeName(SystemLane(jobType)))])
    ensures var r := NormalizedAll(Create(jobType, requested, None, extras).row, cs);
      && r.jobType == jobType && InLane(r, SystemLane(jobType))
      && PayloadSeverity(PayloadOf(r)) == PayloadSeverity(requested)
      && r.priority == PriorityOf(SystemLane(jobType),
           if cs == [] then PayloadSeverity(requested)
             else Coalesce(cs[|cs| - 1].findingSeverity, PayloadSeverity(requested)))
  {
    var purpose := PurposeFor(jobType, Get(requested, "scheduling_purpose"), requested);
    assert purpose == SystemLane(jobType);
    GivenPurposeDecides(jobType, purpose, requested);
    var all := requested + extras + map["scheduling_purpose" := Str(PurposeName(purpose))];
    assert Get(all, "severity") == Get(requested, "severity") && Get(all, "finding") == Get(requested, "finding");
    assert PayloadSeverity(all) == PayloadSeverity(requested);
    if cs != [] {
      SystemJobsKeepTheirLane(jobType, requested, extras, cs[..|cs| - 1]);
      SystemRowNormalized(NormalizedAll(Create(jobType, requested, None, extras).row, cs[..|cs| - 1]), cs[|cs| - 1]);
    }
  }

  lemma SystemTypesAreTrim(jobType: string)
    requires SystemAtCreation(jobType)
    ensures Normal(jobType) == Lower(jobType)
  {
    forall i | 0 <= i < |jobType| ensures !IsSpace(jobType[i]) {
      assert !IsSpace(Lower(jobType)[i]);
    }
    NoSpaceNoTrim(jobType);
  }
}

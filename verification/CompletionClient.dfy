/**
 * The completion client of the provider-header fixture
 * (agent-harness/opensandbox/om-provider-headers-completion.py, `run`).
 *
 * The server is arbitrary: every exchange may return anything or be lost.  `World` records the
 * exchanges; `Run` is the client's loop, and its contract speaks of the record it leaves.
 */
module CompletionClient {
  import opened Options

  // ---------- What the client can see in a reply ----------

  /** A value read out of a JSON object.  `Missing` is an absent key, `NaN` Python's not-a-number, and
      `Blob` a list or an object the client only compares or tests for truth. */
  datatype Value = Missing | Null | Bool(b: bool) | Num(n: real) | NaN | Str(s: string) | Blob(id: nat, empty: bool)

  datatype Actions = NoActions | ActionList(items: seq<Value>) | ActionText(text: string) | ActionsRaise

  datatype ExecState = ExecState(authority: Value, status: Value, attempt: Value, nextRevision: Value,
                                 remaining: Value, acceptedTerminal: Value, allowed: Actions, blocker: Value)

  datatype Budget = NotABudget | Budget(attempts: Value, wallTime: Value, tokens: Value)

  datatype Repair = NotARepair | Repair(key: Value, revision: Value, budget: Budget)

  datatype Recovery = NotARecovery
    | Recovery(attempt: Value, ref: Value, job: Value, status: Value, evidence: Value, revision: Value,
               blockingIsZero: bool)

  datatype Body = Body(accepted: Value, operation: Value, receiptStatus: Value, proposalRevision: Value,
                       errorCode: Value, execution: Option<ExecState>,
                       repair: Repair, original: Recovery, latest: Recovery)

  /** `execution` is None when the key is absent, not an object, or the empty object: the client cannot
      tell these apart.  `(0, {})` stands for a lost, late or malformed exchange. */
  datatype Reply = Reply(status: int, body: Body)

  const EMPTY_BODY := Body(Missing, Missing, Missing, Missing, Missing, None,
                           Repair(Missing, Missing, Budget(Missing, Missing, Missing)),
                           Recovery(Missing, Missing, Missing, Missing, Missing, Missing, false),
                           Recovery(Missing, Missing, Missing, Missing, Missing, Missing, false))

  const LOST := Reply(0, EMPTY_BODY)

  datatype Proposal = Proposal(key: string, revision: nat)

  /** One request as it left the client, with what came back. */
  datatype Exchange =
    | Post(proposal: Proposal, reply: Reply)
    | Receipt(key: string, reply: Reply)
    | State(reply: Reply)

  datatype Code = Inactive | InitialStateConflict | NotAllowed | BudgetExhausted | RestoreNotAllowed
    | RestoreUnconfirmed | Rejected | IdentityConflict | RecoveryStopped | RevisionConflict | WaitExhausted

  /** `Raised` is a Python exception leaving `run`; its caller reports it as a client error. */
  datatype Result = Accepted | Stopped(code: Code) | Raised

  // ---------- Python's comparisons ----------

  /** The number a value counts as: booleans are integers. */
  function AsNumber(v: Value): Option<real> {
    match v
    case Bool(b) => Some(if b then 1.0 else 0.0)
    case Num(n) => Some(n)
    case _ => None
  }

  predicate EqInt(v: Value, n: int) {
    AsNumber(v) == Some(n as real)
  }

  predicate EqStr(v: Value, s: string) { v == Str(s) }

  predicate Eq(a: Value, b: Value) {
    if a.NaN? || b.NaN? then false
    else if AsNumber(a).Some? && AsNumber(b).Some? then AsNumber(a) == AsNumber(b)
    else if a.Missing? || a.Null? then b.Missing? || b.Null?
    else a == b
  }

  /** Equality by kind: numbers and booleans by the number they are, nothing with nothing, texts, lists and
      objects with their like, not-a-number with nothing at all. */
  lemma EqMeans(a: Value, b: Value)
    ensures AsNumber(a).Some? && AsNumber(b).Some? ==> (Eq(a, b) <==> AsNumber(a).value == AsNumber(b).value)
    ensures AsNumber(a).Some? && AsNumber(b).None? ==> !Eq(a, b) && !Eq(b, a)
    ensures a in {Missing, Null} ==> (Eq(a, b) <==> b in {Missing, Null}) && (Eq(b, a) <==> b in {Missing, Null})
    ensures a.Str? ==> (Eq(a, b) <==> b.Str? && b.s == a.s)
    ensures a.Blob? ==> (Eq(a, b) <==> b == a)
    ensures a.NaN? ==> !Eq(a, b) && !Eq(b, a)
  {
  }

  function OrElse(v: Value, n: int): Value { if v.Missing? then Num(n as real) else v }

  /** `v <= 0`; None when Python raises. */
  function AtMostZero(v: Value): Option<bool> {
    if v.NaN? then Some(false)
    else match AsNumber(v)
         case Some(n) => Some(n <= 0.0)
         case None => None
  }

  /** Above zero, as far as Python can tell: not-a-number is not at most zero. */
  predicate Positive(v: Value) { v.NaN? || v == Bool(true) || (v.Num? && v.n > 0.0) }

  predicate Zero(v: Value) { v == Num(0.0) || v == Bool(false) }

  /** `a > b`, with two strings compared letter by letter; None when Python raises. */
  function Greater(a: Value, b: Value): Option<bool> {
    if a.Str? && b.Str? then Some(StrGreater(a.s, b.s))
    else if (a.NaN? && (b.NaN? || AsNumber(b).Some?)) || (b.NaN? && AsNumber(a).Some?) then Some(false)
    else if AsNumber(a).Some? && AsNumber(b).Some? then Some(AsNumber(a).value > AsNumber(b).value)
    else None
  }

  predicate StrGreater(a: string, b: string) {
    if a == [] then false
    else if b == [] then true
    else if a[0] != b[0] then a[0] > b[0]
    else StrGreater(a[1..], b[1..])
  }

  /** What an absent number counts as where zero is the default. */
  function Rank(v: Value): Option<real> { if v.Missing? then Some(0.0) else AsNumber(v) }

  /** The first place where two texts differ decides, or that one goes on. */
  ghost predicate SortsAfter(a: string, b: string) {
    exists i: nat :: AfterFrom(a, b, i)
  }

  predicate AfterFrom(a: string, b: string, i: nat) {
    && i <= |a| && i <= |b| && a[..i] == b[..i]
    && ((i == |b| && i < |a|) || (i < |a| && i < |b| && a[i] > b[i]))
  }

  lemma {:induction false} StrGreaterIff(a: string, b: string)
    ensures StrGreater(a, b) <==> SortsAfter(a, b)
  {
    if a != [] && b != [] && a[0] == b[0] {
      StrGreaterIff(a[1..], b[1..]);
      if i: nat :| AfterFrom(a, b, i) {
        assert a[..i][1..] == b[..i][1..] && a[1..][..i-1] == a[..i][1..] && b[1..][..i-1] == b[..i][1..];
        assert AfterFrom(a[1..], b[1..], i - 1);
      }
      if i: nat :| AfterFrom(a[1..], b[1..], i) {
        assert a[..i+1] == [a[0]] + a[1..][..i] && b[..i+1] == [b[0]] + b[1..][..i];
        assert AfterFrom(a, b, i + 1);
      }
    } else if a != [] && (b == [] || a[0] > b[0]) {
      assert AfterFrom(a, b, 0);
    }
  }

  /** A later revision: two texts are compared as texts, numbers as numbers, an absent one being zero. */
  ghost predicate Later(a: Value, b: Value) {
    || (a.Str? && b.Str? && SortsAfter(a.s, b.s))
    || (Rank(a).Some? && Rank(b).Some? && Rank(a).value > Rank(b).value)
  }

  /** Python has no order for these. */
  predicate Incomparable(a: Value, b: Value) {
    !(a.Str? && b.Str?) && !((a.Missing? || a.NaN? || a.Bool? || a.Num?) && (b.Missing? || b.NaN? || b.Bool? || b.Num?))
  }

  lemma LaterIff(a: Value, b: Value)
    ensures Greater(OrElse(a, 0), OrElse(b, 0)) == Some(true) <==> Later(a, b)
    ensures Greater(OrElse(a, 0), OrElse(b, 0)) == None <==> Incomparable(a, b)
  {
    if a.Str? && b.Str? { StrGreaterIff(a.s, b.s); }
  }

  predicate Truth(v: Value) {
    match v
    case Missing => false
    case Null => false
    case Bool(b) => b
    case Num(n) => n != 0.0
    case NaN => true
    case Str(s) => s != ""
    case Blob(_, empty) => !empty
  }

  lemma FalseMeans(v: Value)
    ensures !Truth(v) <==> v in {Missing, Null, Bool(false), Num(0.0), Str("")} || (v.Blob? && v.empty)
  {
  }

  predicate Contains(text: string, part: string) {
    part <= text || (text != [] && Contains(text[1..], part))
  }

  lemma {:induction false} ContainsIff(text: string, part: string)
    ensures Contains(text, part) <==> exists k :: 0 <= k <= |text| && part <= text[k..]
  {
    if part <= text {
      assert text[0..] == text;
    } else if text != [] {
      ContainsIff(text[1..], part);
      if k :| 0 <= k <= |text| && part <= text[k..] {
        assert text[0..] == text && k > 0 && text[k..] == text[1..][k-1..];
      }
      if k :| 0 <= k <= |text[1..]| && part <= text[1..][k..] { assert text[k+1..] == text[1..][k..]; }
    } else {
      assert forall k :: 0 <= k <= |text| ==> text[k..] == text;
    }
  }

  /** `name in actions`; None when Python raises. */
  function Lists(a: Actions, name: string): Option<bool> {
    match a
    case NoActions => Some(false)
    case ActionList(items) => Some(Str(name) in items)
    case ActionText(t) => Some(Contains(t, name))
    case ActionsRaise => None
  }

  /** `name in set(actions)`: a text becomes the set of its letters; unhashable members raise. */
  function SetHas(a: Actions, name: string): Option<bool> {
    match a
    case NoActions => Some(false)
    case ActionList(items) => if exists i :: 0 <= i < |items| && items[i].Blob? then None else Some(Str(name) in items)
    case ActionText(t) => Some(|name| == 1 && name[0] in t)
    case ActionsRaise => None
  }

  /** The actions, turned into a set, hold the name: it is in the list, of which every member can be in a set. */
  predicate Allows(a: Actions, name: string) {
    a.ActionList? && Str(name) in a.items && forall i :: 0 <= i < |a.items| ==> !a.items[i].Blob?
  }

  lemma AllowsIff(a: Actions, name: string)
    requires |name| > 1
    ensures SetHas(a, name) == Some(true) <==> Allows(a, name)
    ensures SetHas(a, name) == None <==>
            a.ActionsRaise? || (a.ActionList? && exists i :: 0 <= i < |a.items| && a.items[i].Blob?)
  {
  }

  /** The actions name it: in a list, or somewhere in a text. */
  ghost predicate Names(a: Actions, name: string) {
    (a.ActionList? && Str(name) in a.items) || (a.ActionText? && exists k :: 0 <= k <= |a.text| && name <= a.text[k..])
  }

  lemma NamesIff(a: Actions, name: string)
    ensures Lists(a, name) == Some(true) <==> Names(a, name)
    ensures Lists(a, name) == None <==> a.ActionsRaise?
  {
    if a.ActionText? { ContainsIff(a.text, name); }
  }

  // ---------- Judgements the client makes ----------

  predicate AcceptedBody(b: Body, revision: int) {
    && b.accepted == Bool(true) && EqStr(b.operation, "mark_job_done")
    && EqStr(b.receiptStatus, "persisted_deferred") && EqInt(b.proposalRevision, revision)
  }

  predicate Accepts(reply: Reply, revision: int) {
    reply.status == 200 && AcceptedBody(reply.body, revision)
  }

  predicate Running(s: ExecState, attempt: string) {
    s.authority == Str("scheduler") && s.status == Str("running") && s.attempt == Str(attempt)
  }

  /** A rejection the scheduler may recover from, in a receipt that is complete. */
  predicate RecoverableRejection(b: Body) {
    && b.accepted == Bool(false)
    && b.errorCode in {Str("COMPLETION_EFFECT_UNKNOWN"), Str("REPAIR_USAGE_PENDING"), Str("REPAIR_USAGE_UNKNOWN")}
    && b.repair.Repair? && b.original.Recovery? && b.latest.Recovery?
  }

  /** The rejection belongs to this proposal, this attempt and one recovery. */
  predicate Identified(b: Body, p: Proposal, attempt: string)
    requires RecoverableRejection(b)
  {
    && b.repair.key == Str(p.key) && AsNumber(b.repair.revision) == Some(p.revision as real)
    && b.original.attempt == b.latest.attempt == Str(attempt)
    && Truth(b.original.ref) && Eq(b.latest.ref, b.original.ref) && Eq(b.latest.job, b.original.job)
  }

  predicate RecoveryEnded(b: Body)
    requires RecoverableRejection(b)
  {
    b.latest.status in {Str("stop_requested"), Str("closed"), Str("completion_accepted")}
  }

  /** Attempts and time are left to the repair, and its tokens are not used up; absent attempts or time are
      none, absent tokens are not a limit. */
  predicate Funded(b: Body)
    requires RecoverableRejection(b)
  {
    b.repair.budget.Budget? && Positive(b.repair.budget.attempts) && Positive(b.repair.budget.wallTime)
    && !Zero(b.repair.budget.tokens)
  }

  /** Nothing is pending, and the scheduler's evidence is not that of the rejection. */
  predicate OtherEvidence(b: Body)
    requires RecoverableRejection(b)
  {
    && b.latest.status == Str("awaiting_completion") && b.latest.blockingIsZero
    && b.latest.evidence.Str? && b.original.evidence != b.latest.evidence
  }

  /** And it is later. */
  ghost predicate NewEvidence(b: Body)
    requires RecoverableRejection(b)
  {
    OtherEvidence(b) && Later(b.latest.revision, b.original.revision)
  }

  predicate Spent(v: Value) { v.Missing? || (AsNumber(v).Some? && AsNumber(v).value <= 0.0) }

  /** What ends the run for want of budget; the tests go from left to right, and one on a value that is no
      number raises instead. */
  predicate Exhausted(budget: Budget, remaining: Value, revision: nat) {
    || budget.NotABudget?
    || Spent(budget.attempts)
    || (Positive(budget.attempts) && Spent(budget.wallTime))
    || (Positive(budget.attempts) && Positive(budget.wallTime) && (Zero(budget.tokens) || Spent(remaining)))
    || (Positive(budget.attempts) && Positive(budget.wallTime) && Positive(remaining) && revision >= 7)
  }

  /** The test for newer evidence; None when Python raises. */
  function Ready(b: Body): (ready: Option<bool>)
    requires b.original.Recovery? && b.latest.Recovery?
    ensures RecoverableRejection(b) ==> (ready == Some(true) <==> NewEvidence(b))
    ensures RecoverableRejection(b) ==>
              (ready == None <==> OtherEvidence(b) && Incomparable(b.latest.revision, b.original.revision))
  {
    LaterIff(b.latest.revision, b.original.revision);
    if !(EqStr(b.latest.status, "awaiting_completion") && b.latest.blockingIsZero
         && !Eq(b.latest.evidence, b.original.evidence) && b.latest.evidence.Str?) then Some(false)
    else Greater(OrElse(b.latest.revision, 0), OrElse(b.original.revision, 0))
  }

  /** What a receipt must show before the proposal after `p` may be sent. */
  ghost predicate Authorizes(reply: Reply, p: Proposal, attempt: string) {
    && reply.status == 200 && RecoverableRejection(reply.body)
    && Identified(reply.body, p, attempt) && Funded(reply.body) && NewEvidence(reply.body)
  }

  /** What the state read with a receipt must show for the round to go on. */
  predicate Sustains(s: ExecState, attempt: string) {
    Running(s, attempt) && s.blocker !in {Str("repair_budget_exhausted"), Str("repair_deadline_exhausted")}
  }

  /** What the state read next must show as well. */
  ghost predicate Invites(reply: Reply, p: Proposal, attempt: string) {
    reply.status == 200 && reply.body.execution.Some? && InvitesNext(reply.body.execution.value, p, attempt)
  }

  ghost predicate InvitesNext(s: ExecState, p: Proposal, attempt: string) {
    && Running(s, attempt) && AsNumber(s.nextRevision) == Some(p.revision as real + 1.0) && Positive(s.remaining)
    && (s.blocker == Null || s.blocker == Missing) && Names(s.allowed, "correct_proposal")
  }

  /** What the state must show before an accepted proposal is re-sent. */
  predicate InvitesRestore(reply: Reply, attempt: string) {
    && reply.status == 200 && reply.body.execution.Some?
    && var s := reply.body.execution.value;
       Running(s, attempt) && s.blocker == Str("completion_already_accepted")
       && Allows(s.allowed, "read_receipt") && Allows(s.allowed, "wait_for_settlement")
  }

  // ---------- The discipline, as a monitor of the record ----------

  /** Where the client stands after an exchange. */
  datatype Stage =
    | Waiting          // nothing licenses a post (the first one needs no licence)
    | Authorized       // the receipt just read authorizes the next proposal
    | AuthorizedRead   // ... and a state read since leaves the attempt running, with attempts left
    | Invited          // ... and a second state invited it
    | Shown            // the receipt just read shows the proposal accepted
    | ShownRead        // ... and a state read since leaves the attempt running
    | RestoreInvited   // ... and a second state invited its restore
    | Done             // the last post was accepted
    | Restored         // the restore was posted and not confirmed
    | RestoredRead     // ... and its receipt was read
    | Violation

  /** The posts made, in order, and the stage. */
  datatype Phase = Phase(posts: seq<Proposal>, stage: Stage)

  ghost function AfterReceipt(posts: seq<Proposal>, key: string, reply: Reply, attempt: string): Stage {
    if posts == [] || key != posts[|posts|-1].key then Waiting
    else if Authorizes(reply, posts[|posts|-1], attempt) then Authorized
    else if Accepts(reply, posts[|posts|-1].revision) then Shown
    else Waiting
  }

  ghost function AfterState(f: Phase, reply: Reply, attempt: string): Stage {
    var read := StateIn(reply);
    if f.stage.Authorized? && read.Some? && Sustains(read.value, attempt) && Positive(read.value.remaining) then
      AuthorizedRead
    else if f.stage.Shown? && read.Some? && Sustains(read.value, attempt) then ShownRead
    else if f.stage.AuthorizedRead? && f.posts != [] && Invites(reply, f.posts[|f.posts|-1], attempt) then Invited
    else if f.stage.ShownRead? && InvitesRestore(reply, attempt) then RestoreInvited
    else Waiting
  }

  /** A post is in order as the first one, as an invited next proposal under a new key, or as the one
      restore of the last proposal. */
  ghost function AfterPost(f: Phase, p: Proposal, reply: Reply): Stage {
    if (f.posts == [] && f.stage.Waiting? && p.revision == 0) || (f.stage.Invited? && NextInLine(f.posts, p)) then
      if Accepts(reply, p.revision) then Done else Waiting
    else if f.stage.RestoreInvited? && f.posts != [] && p == f.posts[|f.posts|-1] then
      if Accepts(reply, p.revision) then Done else Restored
    else Violation
  }

  predicate NextInLine(posts: seq<Proposal>, p: Proposal) {
    && 1 <= |posts| <= 7 && p.revision == |posts|
    && forall i :: 0 <= i < |posts| ==> posts[i].key != p.key
  }

  ghost function Step(f: Phase, e: Exchange, attempt: string): Phase {
    match e
    case Post(p, reply) => Phase(f.posts + [p], AfterPost(f, p, reply))
    case Receipt(key, reply) =>
      if f.stage in {Done, RestoredRead, Violation} then f.(stage := Violation)
      else if f.stage.Restored? then f.(stage := RestoredRead)
      else f.(stage := AfterReceipt(f.posts, key, reply, attempt))
    case State(reply) =>
      if f.stage in {Done, Restored, RestoredRead, Violation} then f.(stage := Violation)
      else f.(stage := AfterState(f, reply, attempt))
  }

  ghost function Track(log: seq<Exchange>, attempt: string): Phase {
    if log == [] then Phase([], Waiting)
    else Step(Track(log[..|log|-1], attempt), log[|log|-1], attempt)
  }

  lemma TrackSnoc(log: seq<Exchange>, e: Exchange, attempt: string)
    ensures Track(log + [e], attempt) == Step(Track(log, attempt), e, attempt)
  {
    assert (log + [e])[..|log|] == log;
  }

  /** What a finished run leaves: a record in order, whose stage agrees with the result. */
  ghost predicate Disciplined(log: seq<Exchange>, r: Result, attempt: string) {
    var stage := Track(log, attempt).stage;
    && !stage.Violation?
    && (r == Accepted <==> stage.Done?)
    && (stage in {Restored, RestoredRead} ==> r == Stopped(RestoreUnconfirmed))
  }

  /** The budget test of the loop, left to right; None when Python raises before it is decided. */
  function OutOfBudget(budget: Budget, remaining: Value, revision: nat): (out: Option<bool>)
    ensures out == Some(true) <==> Exhausted(budget, remaining, revision)
    ensures out == Some(false) <==>
            && budget.Budget? && Positive(budget.attempts) && Positive(budget.wallTime) && !Zero(budget.tokens)
            && Positive(remaining) && revision < 7
  {
    if budget.NotABudget? then Some(true)
    else
      var a := AtMostZero(OrElse(budget.attempts, 0));
      if a != Some(false) then a
      else
        var t := AtMostZero(OrElse(budget.wallTime, 0));
        if t != Some(false) then t
        else if EqInt(OrElse(budget.tokens, 1), 0) then Some(true)
        else
          var r := AtMostZero(OrElse(remaining, 0));
          if r != Some(false) then r
          else Some(revision >= 7)
  }

  const RECOVERABLE := {Str("COMPLETION_EFFECT_UNKNOWN"), Str("REPAIR_USAGE_PENDING"), Str("REPAIR_USAGE_UNKNOWN")}

  datatype Verdict = Stop(result: Result) | Wait | Propose

  /** What a receipt that does not show acceptance leads to, `remaining` being the attempts that the state read
      with it names.  Only an identity-matched recoverable rejection with newer evidence, inside every budget,
      leads to a proposal; one with no news yet is waited for; everything else ends the run. */
  function Judge(b: Body, p: Proposal, id: string, remaining: Value): (verdict: Verdict)
    ensures verdict == Stop(Stopped(Rejected)) <==>
            b.accepted != Bool(false) || (!b.errorCode.Blob? && !RecoverableRejection(b))
    ensures verdict == Stop(Stopped(IdentityConflict)) <==> RecoverableRejection(b) && !Identified(b, p, id)
    ensures verdict == Stop(Stopped(RecoveryStopped)) <==>
            RecoverableRejection(b) && Identified(b, p, id) && RecoveryEnded(b)
    ensures verdict == Stop(Stopped(BudgetExhausted)) <==>
            && RecoverableRejection(b) && Identified(b, p, id) && !RecoveryEnded(b)
            && Exhausted(b.repair.budget, remaining, p.revision)
    ensures verdict == Propose <==>
            && RecoverableRejection(b) && Identified(b, p, id) && Funded(b) && Positive(remaining) && p.revision < 7
            && NewEvidence(b)
    ensures verdict == Wait <==>
            && RecoverableRejection(b) && Identified(b, p, id) && !RecoveryEnded(b)
            && Funded(b) && Positive(remaining) && p.revision < 7 && !NewEvidence(b)
            && !(OtherEvidence(b) && Incomparable(b.latest.revision, b.original.revision))
    ensures verdict.Stop? ==>
              verdict.result == Raised
              || (verdict.result.Stopped? &&
                  verdict.result.code in {Rejected, IdentityConflict, RecoveryStopped, BudgetExhausted})
  {
    if b.accepted != Bool(false) then Stop(Stopped(Rejected))
    else if b.errorCode.Blob? then Stop(Raised)
    else if b.errorCode !in RECOVERABLE || !b.repair.Repair? || !b.original.Recovery? || !b.latest.Recovery? then
      Stop(Stopped(Rejected))
    else if !EqStr(b.repair.key, p.key) || !EqInt(b.repair.revision, p.revision)
            || !EqStr(b.original.attempt, id) || !EqStr(b.latest.attempt, id) || !Truth(b.original.ref)
            || !Eq(b.latest.ref, b.original.ref) || !Eq(b.latest.job, b.original.job) then
      Stop(Stopped(IdentityConflict))
    else if EqStr(b.latest.status, "stop_requested") || EqStr(b.latest.status, "closed")
            || EqStr(b.latest.status, "completion_accepted") then
      Stop(Stopped(RecoveryStopped))
    else
      match OutOfBudget(b.repair.budget, remaining, p.revision)
      case None => Stop(Raised)
      case Some(true) => Stop(Stopped(BudgetExhausted))
      case Some(false) =>
        match Ready(b)
        case None => Stop(Raised)
        case Some(ready) => if ready then Propose else Wait
  }

  /** What the second state leads to: the next proposal if it invites it, waiting if there is a blocker or the
      correction is not listed, and an end otherwise. */
  function Advise(advice: Option<ExecState>, p: Proposal, id: string): (verdict: Verdict)
    ensures verdict == Propose <==> advice.Some? && InvitesNext(advice.value, p, id)
    ensures verdict == Stop(Stopped(Inactive)) <==> advice.None? || !Running(advice.value, id)
    ensures verdict == Stop(Stopped(RevisionConflict)) <==>
            && advice.Some? && Running(advice.value, id)
            && AsNumber(advice.value.nextRevision) != Some(p.revision as real + 1.0)
    ensures verdict == Stop(Stopped(BudgetExhausted)) <==>
            && advice.Some? && Running(advice.value, id)
            && AsNumber(advice.value.nextRevision) == Some(p.revision as real + 1.0) && Spent(advice.value.remaining)
    ensures verdict == Wait <==>
            && advice.Some? && Running(advice.value, id)
            && AsNumber(advice.value.nextRevision) == Some(p.revision as real + 1.0) && Positive(advice.value.remaining)
            && (advice.value.blocker !in {Null, Missing}
                || (!advice.value.allowed.ActionsRaise? && !Names(advice.value.allowed, "correct_proposal")))
    ensures verdict.Stop? ==> verdict.result.Raised? || verdict.result.Stopped?
  {
    if advice.None? || !EqStr(advice.value.authority, "scheduler") || !EqStr(advice.value.status, "running")
       || !EqStr(advice.value.attempt, id) then Stop(Stopped(Inactive))
    else if !EqInt(advice.value.nextRevision, p.revision + 1) then Stop(Stopped(RevisionConflict))
    else
      match AtMostZero(OrElse(advice.value.remaining, 0))
      case None => Stop(Raised)
      case Some(true) => Stop(Stopped(BudgetExhausted))
      case Some(false) =>
        if !(advice.value.blocker.Missing? || advice.value.blocker.Null?) then Wait
        else
          NamesIff(advice.value.allowed, "correct_proposal");
          match Lists(advice.value.allowed, "correct_proposal")
          case None => Stop(Raised)
          case Some(listed) => if listed then Propose else Wait
  }

  // ---------- The client ----------

  class World {
    var log: seq<Exchange>
    var now: int

    constructor ()
      ensures log == []
    {
      log := [];
      now := *;
    }

    /** A monotonic clock: any amount of time may pass between two readings. */
    method Clock() returns (t: int)
      modifies this`now
      ensures t == now >= old(now)
    {
      var passed :| 0 <= passed;
      now := now + passed;
      t := now;
    }

    method AnyReply() returns (reply: Reply) {
      reply := *;
    }

    /** Any key at all, a used one included. */
    method NewKey() returns (key: string) {
      key := *;
    }

    /** `request("POST")`; past the deadline nothing is sent and the exchange counts as lost. */
    method PostProposal(p: Proposal, deadline: int) returns (reply: Reply)
      modifies this
      ensures now >= old(now) && (log != old(log) ==> old(now) < deadline)
      ensures if old(log) == log then reply == LOST && now >= deadline else log == old(log) + [Post(p, reply)]
    {
      var t := Clock();
      if t >= deadline {
        return LOST;
      }
      reply := AnyReply();
      log := log + [Post(p, reply)];
    }

    method ReadReceipt(key: string, deadline: int) returns (reply: Reply)
      modifies this
      ensures now >= old(now) && (log != old(log) ==> old(now) < deadline)
      ensures if old(log) == log then reply == LOST && now >= deadline else log == old(log) + [Receipt(key, reply)]
    {
      var t := Clock();
      if t >= deadline {
        return LOST;
      }
      reply := AnyReply();
      log := log + [Receipt(key, reply)];
    }

    /** `state()`: the execution state, if a reply carried one. */
    method ReadState(deadline: int) returns (s: Option<ExecState>)
      modifies this
      ensures now >= old(now) && (log != old(log) ==> old(now) < deadline)
      ensures if old(log) == log then s == None && now >= deadline
              else
                && log != [] && log == old(log) + [log[|log|-1]]
                && log[|log|-1].State? && s == StateIn(log[|log|-1].reply)
    {
      var t := Clock();
      if t >= deadline {
        return None;
      }
      var reply := AnyReply();
      log := log + [State(reply)];
      s := StateIn(reply);
    }
  }

  function StateIn(reply: Reply): Option<ExecState> {
    if reply.status == 200 then reply.body.execution else None
  }

  /** The client's local variables between two rounds of its loop. */
  datatype Local = Local(proposal: Proposal, usedKeys: set<string>)

  /** Still in order and undecided.  Until the deadline the last post is the current proposal, and every
      key posted is on the list. */
  ghost predicate InStep(f: Phase, v: Local, late: bool) {
    && f.stage !in {Done, Restored, RestoredRead, Violation}
    && v.proposal.revision <= 7
    && (forall i :: 0 <= i < |f.posts| ==> f.posts[i].key in v.usedKeys)
    && (!late ==> f.posts != [] && f.posts[|f.posts|-1] == v.proposal && |f.posts| == v.proposal.revision + 1)
  }

  /** After a receipt read and a state read the stage says what the receipt was. */
  lemma AfterReads(f: Phase, v: Local, receipt: Reply, state: Reply, id: string)
    requires InStep(f, v, false)
    ensures var f' := Step(Step(f, Receipt(v.proposal.key, receipt), id), State(state), id);
            && InStep(f', v, false)
            && (StateIn(state).Some? && Sustains(StateIn(state).value, id) ==>
                  && (Authorizes(receipt, v.proposal, id) && Positive(StateIn(state).value.remaining) ==>
                        f'.stage.AuthorizedRead?)
                  && (Accepts(receipt, v.proposal.revision) ==> f'.stage.ShownRead?))
  {
  }

  lemma AfterOneRead(f: Phase, v: Local, e: Exchange, id: string, late: bool)
    requires InStep(f, v, late) && !e.Post?
    ensures InStep(Step(f, e, id), v, late)
  {
  }

  /** An invited post under a new key keeps the record in order. */
  lemma AfterInvitedPost(f: Phase, v: Local, p: Proposal, answer: Reply, id: string)
    requires InStep(f, v, false) && f.stage.Invited?
    requires p.revision == v.proposal.revision + 1 <= 7 && p.key !in v.usedKeys
    ensures var f' := Step(f, Post(p, answer), id);
            if Accepts(answer, p.revision) then f'.stage.Done?
            else InStep(f', Local(p, v.usedKeys + {p.key}), false)
  {
    assert NextInLine(f.posts, p);
  }

  /** The receipt shows the proposal accepted: re-send it once, if the scheduler's advice allows. */
  method Restore(w: World, deadline: int, v: Local, id: string) returns (r: Result)
    requires var f := Track(w.log, id); InStep(f, v, w.now >= deadline) && (w.now < deadline ==> f.stage.ShownRead?)
    modifies w
    ensures Disciplined(w.log, r, id)
    ensures old(w.log) <= w.log && |w.log| <= |old(w.log)| + 3 && w.now >= old(w.now)
    ensures var n := |old(w.log)|;
            |w.log| > n ==>
              && w.log[n].State?
              && (if InvitesRestore(w.log[n].reply, id) then
                    if |w.log| == n + 1 then r == Stopped(RestoreUnconfirmed) && w.now >= deadline
                    else
                      && w.log[n + 1].Post? && w.log[n + 1].proposal == v.proposal
                      && r == (if Accepts(w.log[n + 1].reply, v.proposal.revision) then Accepted
                               else Stopped(RestoreUnconfirmed))
                  else |w.log| == n + 1 && r in {Stopped(RestoreNotAllowed), Raised})
  {
    ghost var l0 := w.log;
    var again := w.ReadState(deadline);
    if w.log != l0 {
      TrackSnoc(l0, w.log[|w.log|-1], id);
    }
    if again.None? || !EqStr(again.value.authority, "scheduler") || !EqStr(again.value.status, "running")
      || !EqStr(again.value.attempt, id) || !EqStr(again.value.blocker, "completion_already_accepted") {
      return Stopped(RestoreNotAllowed);
    }
    var mayRead, mayWait := SetHas(again.value.allowed, "read_receipt"),
      SetHas(again.value.allowed, "wait_for_settlement");
    AllowsIff(again.value.allowed, "read_receipt");
    AllowsIff(again.value.allowed, "wait_for_settlement");
    if mayRead.None? || mayWait.None? {
      return Raised;
    }
    if !mayRead.value || !mayWait.value {
      return Stopped(RestoreNotAllowed);
    }
    r := Resend(w, deadline, v, id);
  }

  /** The one repeat of an accepted proposal, and a last look at its receipt. */
  method Resend(w: World, deadline: int, v: Local, id: string) returns (r: Result)
    requires var f := Track(w.log, id); InStep(f, v, w.now >= deadline)
                                        && (w.now < deadline ==> f.stage.RestoreInvited?)
    modifies w
    ensures Disciplined(w.log, r, id)
    ensures old(w.log) <= w.log && |w.log| <= |old(w.log)| + 2 && w.now >= old(w.now)
    ensures var n := |old(w.log)|;
            if |w.log| == n then r == Stopped(RestoreUnconfirmed) && w.now >= deadline
            else
              && w.log[n].Post? && w.log[n].proposal == v.proposal
              && r == if Accepts(w.log[n].reply, v.proposal.revision) then Accepted else Stopped(RestoreUnconfirmed)
  {
    ghost var l1 := w.log;
    var restored := w.PostProposal(v.proposal, deadline);
    if w.log != l1 {
      TrackSnoc(l1, Post(v.proposal, restored), id);
    }
    if Accepts(restored, v.proposal.revision) {
      return Accepted;
    }
    ghost var l2 := w.log;
    var last := w.ReadReceipt(v.proposal.key, deadline);
    TrackSnoc(l2, Receipt(v.proposal.key, last), id);
    return Stopped(RestoreUnconfirmed);
  }

  /** What follows the second state, exchange `n`: the next proposal is sent exactly if the state invites it, the
      clock has not run out and its key is new; a state that only does not list it yet is waited for. */
  ghost predicate AnswersAdvice(log: seq<Exchange>, n: nat, v: Local, id: string, r: Option<Result>, late: bool)
    requires n < |log| && log[n].State?
  {
    var advice := StateIn(log[n].reply);
    if Invites(log[n].reply, v.proposal, id) then
      || (|log| == n + 1 && (late || r == Some(Stopped(IdentityConflict))))
      || (|log| == n + 2 && log[n + 1].Post? && log[n + 1].proposal.revision == v.proposal.revision + 1
          && r == if Accepts(log[n + 1].reply, v.proposal.revision + 1) then Some(Accepted) else None)
    else
      var verdict := Advise(advice, v.proposal, id);
      |log| == n + 1 && r == if verdict.Stop? then Some(verdict.result) else None
  }

  /** The receipt authorizes a next proposal: ask the scheduler, and send it if invited. */
  method Correct(w: World, deadline: int, v: Local, id: string) returns (r: Option<Result>, v': Local)
    requires InStep(Track(w.log, id), v, w.now >= deadline)
    requires w.now < deadline ==> Track(w.log, id).stage.AuthorizedRead?
    requires v.proposal.revision < 7
    modifies w
    ensures r.Some? ==> Disciplined(w.log, r.value, id)
    ensures r.None? ==> InStep(Track(w.log, id), v', w.now >= deadline)
    ensures old(w.log) <= w.log && |w.log| <= |old(w.log)| + 2 && w.now >= old(w.now)
    ensures var n := |old(w.log)|;
            |w.log| > n ==> w.log[n].State? && AnswersAdvice(w.log, n, v, id, r, w.now >= deadline)
  {
    v' := v;
    ghost var l0, f0 := w.log, Track(w.log, id);
    var advice := w.ReadState(deadline);
    ghost var l1 := w.log;
    if l1 != l0 {
      TrackSnoc(l0, l1[|l0|], id);
      AfterOneRead(f0, v, l1[|l0|], id, false);
    }
    match Advise(advice, v.proposal, id)
    case Stop(result) => r := Some(result);
    case Wait => r := None;
    case Propose =>
      r, v' := SendNext(w, deadline, v, id);
  }

  /** The next proposal, invited, under a new key. */
  method SendNext(w: World, deadline: int, v: Local, id: string) returns (r: Option<Result>, v': Local)
    requires InStep(Track(w.log, id), v, w.now >= deadline)
    requires w.now < deadline ==> Track(w.log, id).stage.Invited?
    requires v.proposal.revision < 7
    modifies w
    ensures r.Some? ==> Disciplined(w.log, r.value, id)
    ensures r.None? ==> InStep(Track(w.log, id), v', w.now >= deadline)
    ensures old(w.log) <= w.log && |w.log| <= |old(w.log)| + 1 && w.now >= old(w.now)
    ensures var n := |old(w.log)|;
            if |w.log| == n then w.now >= deadline || r == Some(Stopped(IdentityConflict))
            else
              && w.log[n].Post? && w.log[n].proposal.revision == v.proposal.revision + 1
              && r == if Accepts(w.log[n].reply, v.proposal.revision + 1) then Some(Accepted) else None
  {
    v' := v;
    ghost var l, f := w.log, Track(w.log, id);
    var key := w.NewKey();
    if key in v.usedKeys {
      return Some(Stopped(IdentityConflict)), v';
    }
    var next := Proposal(key, v.proposal.revision + 1);
    v' := Local(next, v.usedKeys + {key});
    var answer := w.PostProposal(next, deadline);
    if w.log != l {
      TrackSnoc(l, Post(next, answer), id);
      AfterInvitedPost(f, v, next, answer, id);
    }
    r := if Accepts(answer, next.revision) then Some(Accepted) else None;
  }

  /** The two reads a round begins with; the state is not read after a refusal of the receipt. */
  method ReadBoth(w: World, deadline: int, v: Local, id: string) returns (receipt: Reply, read: Option<ExecState>)
    requires InStep(Track(w.log, id), v, w.now >= deadline)
    modifies w
    ensures InStep(Track(w.log, id), v, w.now >= deadline)
    ensures old(w.log) <= w.log && |w.log| <= |old(w.log)| + 2 && w.now >= old(w.now)
    ensures var n := |old(w.log)|;
            && (|w.log| > n ==> w.log[n] == Receipt(v.proposal.key, receipt))
            && (|w.log| == n + 2 <==> |w.log| > n && receipt.status !in {401, 403} && |w.log| != n + 1)
            && (|w.log| == n + 2 ==> w.log[n + 1].State? && read == StateIn(w.log[n + 1].reply))
            && (read.Some? ==> |w.log| == n + 2)
    ensures read.Some? ==>
              var f := Track(w.log, id);
              w.now < deadline && Sustains(read.value, id) ==>
                && (Authorizes(receipt, v.proposal, id) && Positive(read.value.remaining) ==> f.stage.AuthorizedRead?)
                && (Accepts(receipt, v.proposal.revision) ==> f.stage.ShownRead?)
  {
    ghost var l0, f0 := w.log, Track(w.log, id);
    receipt := w.ReadReceipt(v.proposal.key, deadline);
    ghost var e1 := Receipt(v.proposal.key, receipt);
    TrackSnoc(l0, e1, id);
    AfterOneRead(f0, v, e1, id, w.now >= deadline);
    AfterOneRead(f0, v, e1, id, true);
    read := None;
    if receipt.status != 401 && receipt.status != 403 {
      ghost var l1 := w.log;
      read := w.ReadState(deadline);
      if w.log != l1 {
        TrackSnoc(l1, w.log[|l1|], id);
        AfterOneRead(Track(l1, id), v, w.log[|l1|], id, false);
        AfterReads(f0, v, receipt, w.log[|l1|].reply, id);
      }
    }
  }

  /** What follows the two reads of a round, exchanges `n` and `n + 1`. */
  ghost predicate FollowsReads(log: seq<Exchange>, n: nat, v: Local, id: string, r: Option<Result>, late: bool)
    requires n + 1 < |log| && log[n].Receipt? && log[n + 1].State? && StateIn(log[n + 1].reply).Some?
  {
    var receipt, s := log[n].reply, StateIn(log[n + 1].reply).value;
    if !Running(s, id) then |log| == n + 2 && r == Some(Stopped(Inactive))
    else if !Sustains(s, id) then |log| == n + 2 && r == Some(Stopped(BudgetExhausted))
    else FollowsReceipt(log, n + 2, receipt, s.remaining, v, id, r, late)
  }

  /** What follows, from exchange `n` on, the receipt of an attempt that may go on. */
  ghost predicate FollowsReceipt(log: seq<Exchange>, n: nat, receipt: Reply, remaining: Value, v: Local, id: string,
    r: Option<Result>, late: bool)
    requires n <= |log|
  {
    if receipt.status != 200 then |log| == n && r == None
    else if Accepts(receipt, v.proposal.revision) then
      |log| > n ==> log[n].State? && (|log| > n + 1 ==> log[n + 1].Post? && log[n + 1].proposal == v.proposal)
    else
      var verdict := Judge(receipt.body, v.proposal, id, remaining);
      && (verdict.Stop? ==> |log| == n && r == Some(verdict.result))
      && (verdict.Wait? ==> |log| == n && r == None)
      && (verdict.Propose? && |log| > n ==> log[n].State? && AnswersAdvice(log, n, v, id, r, late))
  }

  /** One round of the loop. */
  method Round(w: World, deadline: int, v: Local, id: string) returns (r: Option<Result>, v': Local)
    requires InStep(Track(w.log, id), v, w.now >= deadline)
    modifies w
    ensures r.Some? ==> Disciplined(w.log, r.value, id)
    ensures r.None? ==> InStep(Track(w.log, id), v', w.now >= deadline)
    ensures old(w.log) <= w.log && |w.log| <= |old(w.log)| + 5 && w.now >= old(w.now)
    ensures r.None? ==> |w.log| <= |old(w.log)| + 4
    ensures var n := |old(w.log)|;
            && (|w.log| > n ==> w.log[n].Receipt?)
            && (|w.log| > n && w.log[n].reply.status in {401, 403} ==>
                  |w.log| == n + 1 && r == Some(Stopped(NotAllowed)))
            && (|w.log| > n + 1 ==> w.log[n + 1].State?)
            && (|w.log| > n + 1 && StateIn(w.log[n + 1].reply).Some? ==>
                  FollowsReads(w.log, n, v, id, r, w.now >= deadline))
  {
    v' := v;
    var receipt, read := ReadBoth(w, deadline, v, id);
    if receipt.status == 401 || receipt.status == 403 {
      return Some(Stopped(NotAllowed)), v';
    }
    if read.None? {
      return None, v';
    }
    var current := read.value;
    if !EqStr(current.authority, "scheduler") || !EqStr(current.status, "running") || !EqStr(current.attempt, id) {
      return Some(Stopped(Inactive)), v';
    }
    if EqStr(current.blocker, "repair_budget_exhausted") || EqStr(current.blocker, "repair_deadline_exhausted") {
      return Some(Stopped(BudgetExhausted)), v';
    }
    r, v' := ActOnReceipt(w, deadline, v, id, receipt, current.remaining);
  }

  /** The rest of a round, with the receipt and the attempts that the state read with it names. */
  method ActOnReceipt(w: World, deadline: int, v: Local, id: string, receipt: Reply, remaining: Value)
    returns (r: Option<Result>, v': Local)
    requires InStep(Track(w.log, id), v, w.now >= deadline)
    requires w.now < deadline ==>
               var f := Track(w.log, id);
               && (Authorizes(receipt, v.proposal, id) && Positive(remaining) ==> f.stage.AuthorizedRead?)
               && (Accepts(receipt, v.proposal.revision) ==> f.stage.ShownRead?)
    modifies w
    ensures r.Some? ==> Disciplined(w.log, r.value, id)
    ensures r.None? ==> InStep(Track(w.log, id), v', w.now >= deadline)
    ensures old(w.log) <= w.log && |w.log| <= |old(w.log)| + 3 && w.now >= old(w.now)
    ensures r.None? ==> |w.log| <= |old(w.log)| + 2
    ensures FollowsReceipt(w.log, |old(w.log)|, receipt, remaining, v, id, r, w.now >= deadline)
  {
    v' := v;
    if receipt.status != 200 {
      return None, v';
    }
    if AcceptedBody(receipt.body, v.proposal.revision) {
      var restored := Restore(w, deadline, v, id);
      return Some(restored), v';
    }
    var verdict := Judge(receipt.body, v.proposal, id, remaining);
    match verdict
    case Stop(result) => r := Some(result);
    case Wait => r := None;
    case Propose =>
      assert Authorizes(receipt, v.proposal, id);
      r, v' := Correct(w, deadline, v, id);
  }

  /**
   * The licence of the first proposal: the scheduler speaks, of a running Job and the attempt named `id`, at
   * revision 0 with attempts left, no terminal accepted yet, and correcting or reconciling among its actions.
   */
  predicate MayBegin(s: ExecState, id: string) {
    && Running(s, id) && id != "" && Zero(s.nextRevision) && Positive(s.remaining)
    && s.acceptedTerminal in {Missing, Null}
    && (Allows(s.allowed, "correct_proposal") || Allows(s.allowed, "reconcile_effects"))
  }

  /** The first state, and whether it lets the client begin. */
  method Preflight(w: World, deadline: int) returns (refused: Option<Result>, id: string)
    requires w.log == []
    modifies w
    ensures |w.log| <= 1 && Track(w.log, id) == Phase([], Waiting)
    ensures refused.Some? ==> refused.value != Accepted
    ensures |w.log| == 1 ==> w.log[0].State?
    ensures refused.None? ==> |w.log| == 1 && StateIn(w.log[0].reply).Some?
    ensures |w.log| == 1 && w.log[0].reply.status == 200 && w.log[0].reply.body.execution.Some? ==>
              var s := w.log[0].reply.body.execution.value;
              && (refused.None? <==> s.attempt.Str? && MayBegin(s, s.attempt.s))
              && (refused.None? ==> s.attempt == Str(id))
  {
    id := "";
    var initial := w.ReadState(deadline);
    if initial.None? {
      return Some(Stopped(Inactive)), id;
    }
    var s0 := initial.value;
    if !EqStr(s0.authority, "scheduler") || !EqStr(s0.status, "running") || !s0.attempt.Str? || s0.attempt.s == "" {
      return Some(Stopped(Inactive)), id;
    }
    id := s0.attempt.s;
    if !EqInt(s0.nextRevision, 0) {
      return Some(Stopped(InitialStateConflict)), id;
    }
    var spent := AtMostZero(OrElse(s0.remaining, 0));
    if spent.None? {
      return Some(Raised), id;
    }
    if spent.value || !(s0.acceptedTerminal.Missing? || s0.acceptedTerminal.Null?) {
      return Some(Stopped(InitialStateConflict)), id;
    }
    var mayCorrect, mayReconcile := SetHas(s0.allowed, "correct_proposal"), SetHas(s0.allowed, "reconcile_effects");
    AllowsIff(s0.allowed, "correct_proposal");
    AllowsIff(s0.allowed, "reconcile_effects");
    if mayCorrect.None? || mayReconcile.None? {
      return Some(Raised), id;
    }
    if !mayCorrect.value && !mayReconcile.value {
      return Some(Stopped(NotAllowed)), id;
    }
    return None, id;
  }

  /** `run`.  The deadline is any reading of the clock; the record starts empty. */
  method Run(w: World, deadline: int) returns (r: Result, ghost attempt: string)
    requires w.log == []
    modifies w
    ensures Disciplined(w.log, r, attempt)
    ensures Track(w.log, attempt).posts != [] ==>
              w.log[0].State? && StateIn(w.log[0].reply).Some? && MayBegin(StateIn(w.log[0].reply).value, attempt)
    ensures |w.log| <= 363
  {
    var refused, id := Preflight(w, deadline);
    attempt := id;
    if refused.Some? {
      return refused.value, attempt;
    }
    ghost var first := w.log;

    var key := w.NewKey();
    var v := Local(Proposal(key, 0), {key});
    var reply := w.PostProposal(v.proposal, deadline);
    TrackSnoc(first, Post(v.proposal, reply), id);
    if Accepts(reply, 0) {
      return Accepted, attempt;
    }

    var round := 0;
    while round < 90
      invariant 0 <= round <= 90 && |w.log| <= 2 + 4 * round
      invariant attempt == id && first <= w.log
      invariant InStep(Track(w.log, id), v, w.now >= deadline)
    {
      round := round + 1;
      var now := w.Clock();
      if now >= deadline {
        break;
      }
      var outcome;
      outcome, v := Round(w, deadline, v, id);
      if outcome.Some? {
        return outcome.value, attempt;
      }
    }
    return Stopped(WaitExhausted), attempt;
  }

  // ---------- What the discipline means ----------

  /** Revisions 0, 1, 2, ... under pairwise distinct keys. */
  predicate Fresh(ps: seq<Proposal>) {
    && (forall i :: 0 <= i < |ps| ==> ps[i].revision == i)
    && (forall i, j :: 0 <= i < j < |ps| ==> ps[i].key != ps[j].key)
  }

  /** Fresh, except that the last post repeats the one before it. */
  predicate FreshThenRepeat(ps: seq<Proposal>) {
    2 <= |ps| && Fresh(ps[..|ps|-1]) && ps[|ps|-1] == ps[|ps|-2]
  }

  lemma {:induction false} PostsOfRecord(log: seq<Exchange>, attempt: string)
    requires !Track(log, attempt).stage.Violation?
    ensures PostsInOrder(Track(log, attempt))
  {
    if log != [] {
      var f, e := Track(log[..|log|-1], attempt), log[|log|-1];
      assert Track(log, attempt) == Step(f, e, attempt);
      if !f.stage.Violation? {
        PostsOfRecord(log[..|log|-1], attempt);
        StepKeepsPosts(f, e, attempt);
      }
    }
  }

  ghost predicate PostsInOrder(f: Phase) {
    && |f.posts| <= 9
    && (f.stage in {Restored, RestoredRead} ==> FreshThenRepeat(f.posts))
    && (f.stage.Done? ==> Fresh(f.posts) || FreshThenRepeat(f.posts))
    && (f.stage !in {Done, Restored, RestoredRead} ==> Fresh(f.posts) && |f.posts| <= 8)
  }

  lemma StepKeepsPosts(f: Phase, e: Exchange, attempt: string)
    requires PostsInOrder(f) && !f.stage.Violation? && !Step(f, e, attempt).stage.Violation?
    ensures PostsInOrder(Step(f, e, attempt))
  {
    if e.Post? { PostKeepsPosts(f, e.proposal, e.reply, attempt); }
  }

  lemma PostKeepsPosts(f: Phase, p: Proposal, reply: Reply, attempt: string)
    requires PostsInOrder(f) && !f.stage.Violation? && !Step(f, Post(p, reply), attempt).stage.Violation?
    ensures PostsInOrder(Step(f, Post(p, reply), attempt))
  {
    assert (f.posts + [p])[..|f.posts|] == f.posts;
  }

  /** Against any server: at most nine posts; revisions 0, 1, 2, ... under distinct keys, except that the
      last post may repeat the one before it. */
  lemma DisciplineBoundsPosts(log: seq<Exchange>, r: Result, attempt: string)
    requires Disciplined(log, r, attempt)
    ensures var ps := Track(log, attempt).posts; |ps| <= 9 && (Fresh(ps) || FreshThenRepeat(ps))
  {
    PostsOfRecord(log, attempt);
  }

  lemma {:induction false} PrefixInOrder(log: seq<Exchange>, k: nat, attempt: string)
    requires k <= |log| && !Track(log, attempt).stage.Violation?
    ensures !Track(log[..k], attempt).stage.Violation?
    decreases |log| - k
  {
    if k == |log| {
      assert log[..k] == log;
    } else {
      PrefixInOrder(log, k + 1, attempt);
      assert log[..k+1] == log[..k] + [log[k]];
      TrackSnoc(log[..k], log[k], attempt);
    }
  }

  /** How the stages that license a post are reached. */
  lemma StageReached(f: Phase, e: Exchange, attempt: string)
    ensures var g := Step(f, e, attempt);
            && (g.stage.Invited? ==> e.State? && f.posts == g.posts != [] && f.stage.AuthorizedRead?
                                     && Invites(e.reply, f.posts[|f.posts|-1], attempt))
            && (g.stage.RestoreInvited? ==> e.State? && f.posts == g.posts && f.stage.ShownRead?
                                            && InvitesRestore(e.reply, attempt))
            && (g.stage.AuthorizedRead? ==> e.State? && f.posts == g.posts && f.stage.Authorized?
                                            && StateIn(e.reply).Some? && Positive(StateIn(e.reply).value.remaining))
            && (g.stage.ShownRead? ==> e.State? && f.posts == g.posts && f.stage.Shown?)
            && (g.stage in {AuthorizedRead, ShownRead} ==>
                  StateIn(e.reply).Some? && Sustains(StateIn(e.reply).value, attempt))
            && (g.stage.Authorized? ==> e.Receipt? && f.posts == g.posts != [] && e.key == f.posts[|f.posts|-1].key
                                        && Authorizes(e.reply, f.posts[|f.posts|-1], attempt))
            && (g.stage.Shown? ==> e.Receipt? && f.posts == g.posts != [] && e.key == f.posts[|f.posts|-1].key
                                   && Accepts(e.reply, f.posts[|f.posts|-1].revision))
  {
  }

  /** Every post after the first stands right behind three reads: the receipt of the proposal before it, a
      state, and a state that invites it.  Either the receipt is an identity-matched recoverable rejection
      with newer evidence and the post is the next revision, or the receipt shows acceptance and the post
      is the same proposal again. */
  lemma EveryLaterPostIsLicensed(log: seq<Exchange>, r: Result, attempt: string, k: nat)
    requires Disciplined(log, r, attempt)
    requires k < |log| && log[k].Post? && Track(log[..k], attempt).posts != []
    ensures 3 <= k && log[k-3].Receipt? && log[k-2].State? && log[k-1].State?
    ensures var posts := Track(log[..k], attempt).posts;
            var prev := posts[|posts|-1];
            && log[k-3].key == prev.key
            && (|| (log[k].proposal.revision == prev.revision + 1
                    && Authorizes(log[k-3].reply, prev, attempt) && Invites(log[k-1].reply, prev, attempt)
                    && StateIn(log[k-2].reply).Some? && Positive(StateIn(log[k-2].reply).value.remaining))
                || (log[k].proposal == prev
                    && Accepts(log[k-3].reply, prev.revision) && InvitesRestore(log[k-1].reply, attempt)))
            && StateIn(log[k-2].reply).Some? && Sustains(StateIn(log[k-2].reply).value, attempt)
  {
    var f := Track(log[..k], attempt);
    PrefixInOrder(log, k, attempt);
    PrefixInOrder(log, k + 1, attempt);
    PostsOfRecord(log[..k], attempt);
    Unroll(log, k + 1, attempt);
    PostLicensed(f, log[k], attempt);
    ThreeReads(log, k, attempt);
  }

  /** In numbers: a next revision, one of 1 to 7, goes out only while the repair has attempts, time and tokens
      left and both states read name attempts left; budgets that are absent count as none, absent tokens as
      no limit. */
  lemma EveryNextRevisionIsFunded(log: seq<Exchange>, r: Result, attempt: string, k: nat)
    requires Disciplined(log, r, attempt)
    requires k < |log| && log[k].Post? && Track(log[..k], attempt).posts != []
    requires var posts := Track(log[..k], attempt).posts; log[k].proposal != posts[|posts|-1]
    ensures 3 <= k && log[k-3].Receipt? && log[k-2].State? && log[k-1].State?
    ensures 1 <= log[k].proposal.revision <= 7
    ensures var repair := log[k-3].reply.body.repair;
            && repair.Repair? && repair.budget.Budget?
            && (repair.budget.attempts in {NaN, Bool(true)}
                || (repair.budget.attempts.Num? && repair.budget.attempts.n > 0.0))
            && (repair.budget.wallTime in {NaN, Bool(true)}
                || (repair.budget.wallTime.Num? && repair.budget.wallTime.n > 0.0))
            && repair.budget.tokens !in {Num(0.0), Bool(false)}
    ensures forall i :: k - 2 <= i <= k - 1 ==>
              && log[i].reply.status == 200 && log[i].reply.body.execution.Some?
              && var left := log[i].reply.body.execution.value.remaining;
                 left in {NaN, Bool(true)} || (left.Num? && left.n > 0.0)
  {
    var posts := Track(log[..k], attempt).posts;
    EveryLaterPostIsLicensed(log, r, attempt, k);
    RevisionWithinSeven(log, r, attempt, k);
    assert Funded(log[k-3].reply.body);
    assert Invites(log[k-1].reply, posts[|posts|-1], attempt);
  }

  lemma RevisionWithinSeven(log: seq<Exchange>, r: Result, attempt: string, k: nat)
    requires Disciplined(log, r, attempt)
    requires k < |log| && log[k].Post? && Track(log[..k], attempt).posts != []
    requires var posts := Track(log[..k], attempt).posts; log[k].proposal != posts[|posts|-1]
    ensures 1 <= log[k].proposal.revision <= 7
  {
    PrefixInOrder(log, k + 1, attempt);
    Unroll(log, k + 1, attempt);
    PrefixInOrder(log, k, attempt);
    PostsOfRecord(log[..k], attempt);
    NewPostIsNextInLine(Track(log[..k], attempt), log[k], attempt);
  }

  lemma NewPostIsNextInLine(f: Phase, e: Exchange, attempt: string)
    requires e.Post? && f.posts != [] && e.proposal != f.posts[|f.posts|-1] && !Step(f, e, attempt).stage.Violation?
    ensures NextInLine(f.posts, e.proposal)
  {
  }

  lemma PostLicensed(f: Phase, e: Exchange, attempt: string)
    requires e.Post? && f.posts != [] && !Step(f, e, attempt).stage.Violation?
    requires f.stage !in {Done, Restored, RestoredRead} ==> Fresh(f.posts)
    ensures || (f.stage.Invited? && e.proposal.revision == f.posts[|f.posts|-1].revision + 1)
            || (f.stage.RestoreInvited? && e.proposal == f.posts[|f.posts|-1])
  {
  }

  lemma ThreeReads(log: seq<Exchange>, k: nat, attempt: string)
    requires k <= |log| && Track(log[..k], attempt).posts != []
    requires Track(log[..k], attempt).stage in {Invited, RestoreInvited}
    ensures 3 <= k && log[k-3].Receipt? && log[k-2].State? && log[k-1].State?
    ensures var f := Track(log[..k], attempt);
            var prev := f.posts[|f.posts|-1];
            && log[k-3].key == prev.key
            && StateIn(log[k-2].reply).Some? && Sustains(StateIn(log[k-2].reply).value, attempt)
            && (f.stage.Invited? ==>
                  && Authorizes(log[k-3].reply, prev, attempt) && Invites(log[k-1].reply, prev, attempt)
                  && Positive(StateIn(log[k-2].reply).value.remaining))
            && (f.stage.RestoreInvited? ==>
                  Accepts(log[k-3].reply, prev.revision) && InvitesRestore(log[k-1].reply, attempt))
  {
    StageCame(log, k, attempt);
    ReceiptAndState(log, k - 1, attempt);
  }

  lemma ReceiptAndState(log: seq<Exchange>, k: nat, attempt: string)
    requires k <= |log| && Track(log[..k], attempt).posts != []
    requires Track(log[..k], attempt).stage in {AuthorizedRead, ShownRead}
    ensures 2 <= k && log[k-2].Receipt? && log[k-1].State?
    ensures var f := Track(log[..k], attempt);
            var prev := f.posts[|f.posts|-1];
            && log[k-2].key == prev.key
            && StateIn(log[k-1].reply).Some? && Sustains(StateIn(log[k-1].reply).value, attempt)
            && (f.stage.AuthorizedRead? ==>
                  Authorizes(log[k-2].reply, prev, attempt) && Positive(StateIn(log[k-1].reply).value.remaining))
            && (f.stage.ShownRead? ==> Accepts(log[k-2].reply, prev.revision))
  {
    StageCame(log, k, attempt);
    StageCame(log, k - 1, attempt);
  }

  /** The exchange behind a stage that licenses, or comes to license, a post. */
  lemma StageCame(log: seq<Exchange>, k: nat, attempt: string)
    requires k <= |log|
    ensures var g := Track(log[..k], attempt);
            g.stage in {Invited, RestoreInvited, AuthorizedRead, ShownRead, Authorized, Shown} ==>
              && k > 0
              && var f, e := Track(log[..k-1], attempt), log[k-1];
              && f.posts == g.posts
              && (g.stage.Invited? ==> e.State? && g.posts != [] && f.stage.AuthorizedRead?
                                       && Invites(e.reply, g.posts[|g.posts|-1], attempt))
              && (g.stage.RestoreInvited? ==> e.State? && f.stage.ShownRead? && InvitesRestore(e.reply, attempt))
              && (g.stage in {AuthorizedRead, ShownRead} ==>
                    e.State? && StateIn(e.reply).Some? && Sustains(StateIn(e.reply).value, attempt))
              && (g.stage.AuthorizedRead? ==> f.stage.Authorized? && Positive(StateIn(e.reply).value.remaining))
              && (g.stage.ShownRead? ==> f.stage.Shown?)
              && (g.stage in {Authorized, Shown} ==>
                    e.Receipt? && g.posts != [] && e.key == g.posts[|g.posts|-1].key)
              && (g.stage.Authorized? ==> Authorizes(e.reply, g.posts[|g.posts|-1], attempt))
              && (g.stage.Shown? ==> Accepts(e.reply, g.posts[|g.posts|-1].revision))
  {
    Unroll(log, k, attempt);
    if k > 0 { StageReached(Track(log[..k-1], attempt), log[k-1], attempt); }
  }

  lemma Unroll(log: seq<Exchange>, k: nat, attempt: string)
    requires k <= |log|
    ensures k == 0 ==> Track(log[..k], attempt) == Phase([], Waiting)
    ensures 0 < k ==> Track(log[..k], attempt) == Step(Track(log[..k-1], attempt), log[k-1], attempt)
  {
    if 0 < k {
      assert log[..k][..k-1] == log[..k-1];
    }
  }

  /** An accepted post ends the record. */
  lemma AcceptedPostIsLast(f: Phase, e: Exchange, next: Exchange, attempt: string)
    requires e.Post? && Accepts(e.reply, e.proposal.revision) && !Step(f, e, attempt).stage.Violation?
    ensures Step(f, e, attempt).stage.Done? && Step(Step(f, e, attempt), next, attempt).stage.Violation?
  {
  }

  lemma NotReportedNotAccepted(log: seq<Exchange>, r: Result, attempt: string, k: nat)
    requires Disciplined(log, r, attempt) && r != Accepted && k < |log| && log[k].Post?
    ensures !Accepts(log[k].reply, log[k].proposal.revision)
  {
    PrefixInOrder(log, k + 1, attempt);
    Unroll(log, k + 1, attempt);
    if k + 1 < |log| {
      PrefixInOrder(log, k + 2, attempt);
      Unroll(log, k + 2, attempt);
      if Accepts(log[k].reply, log[k].proposal.revision) {
        AcceptedPostIsLast(Track(log[..k], attempt), log[k], log[k + 1], attempt);
      }
    } else {
      assert log[..k+1] == log;
      if Accepts(log[k].reply, log[k].proposal.revision) {
        AcceptedPostIsLast(Track(log[..k], attempt), log[k], log[k], attempt);
      }
    }
  }

  /** `Accepted` is reported exactly when a post was answered by a 200 acceptance of its own revision. */
  lemma AcceptedIffServerAccepted(log: seq<Exchange>, r: Result, attempt: string)
    requires Disciplined(log, r, attempt)
    ensures r == Accepted <==>
            exists k :: 0 <= k < |log| && log[k].Post? && log[k].reply.status == 200 &&
                        var b := log[k].reply.body;
                        && b.accepted == Bool(true) && b.operation == Str("mark_job_done")
                        && b.receiptStatus == Str("persisted_deferred")
                        && AsNumber(b.proposalRevision) == Some(log[k].proposal.revision as real)
  {
    if r == Accepted {
      assert log[|log|-1].Post? && Accepts(log[|log|-1].reply, log[|log|-1].proposal.revision);
    } else {
      forall k | 0 <= k < |log| && log[k].Post?
        ensures !Accepts(log[k].reply, log[k].proposal.revision)
      {
        NotReportedNotAccepted(log, r, attempt, k);
      }
    }
  }
}

/**
 * Trust of runtime image versions (apps/image-admission/src/index.ts: `claimScan`, `inspectAndScanAuthorized`,
 * `fail`, `checkTrackedTags`, `queueContinuousRescans`; apps/image-admission/src/trust-policy.ts).
 *
 * Any number of scan tasks run against each other and against operators.  Each transaction is one step.  A
 * task works with the row it read when it claimed its scan, so the trust it `seen` may be stale.
 */
module ImageTrust {
  import opened Options

  type VersionId = nat
  type ImageId = nat
  type ScanId = nat
  type TaskId = nat
  type JobId = nat
  type Digest = string

  datatype Kind = Official | ThirdParty
  datatype Image = Image(kind: Kind, retired: bool)
  datatype Trust = Quarantined | Scanning | Trusted | Disabled | Rejected | Revoked
  datatype Version = Version(image: ImageId, digest: Option<Digest>, trust: Trust)
  datatype ScanStatus = Queued | Claimed | Running | Succeeded | Failed
  datatype Scan = Scan(version: VersionId, restore: bool, status: ScanStatus)
  datatype Job = Job(version: VersionId, active: bool)

  /**
   * A scan in the hands of a worker.  `Doubting` has committed a success without learning of it, so it is about
   * to report a failure; `Revoking` has committed a revocation and still has jobs to cancel.
   */
  datatype Stage = Inspecting | Doubting | Revoking
  datatype Task = Task(scan: ScanId, version: VersionId, seen: Trust, restore: bool, stage: Stage)

  /** What inspection, signature and vulnerability scan came to. */
  datatype Outcome = Inspected(critical: nat, secrets: nat, digest: Digest) | Broken

  datatype State = State(
    images: map<ImageId, Image>, versions: map<VersionId, Version>, scans: map<ScanId, Scan>,
    jobs: map<JobId, Job>, tasks: map<TaskId, Task>)

  datatype Event =
    | Claim(task: TaskId, scan: ScanId)
    | Start(task: TaskId)                                  // the scan row is marked running
    | Conclude(task: TaskId, outcome: Outcome)
    | LoseAck(task: TaskId, outcome: Outcome)              // the success commits and the caller sees an error
    | CancelJobs(task: TaskId)
    | Abandon(task: TaskId)                                // maintenance, or the death of the worker
    | Discover(tracked: VersionId, digest: Digest, version: VersionId, scan: ScanId)
    | Rescan(stale: set<VersionId>, added: map<ScanId, VersionId>)
    // Everybody else.
    | Operate(version: VersionId, trust: Trust)
    | Import(version: VersionId, row: Version)
    | Enqueue(scan: ScanId, version: VersionId, restore: bool)
    | Launch(job: JobId, version: VersionId)
    | End(job: JobId)

  function KindOf(s: State, v: VersionId): Kind
    requires v in s.versions && s.versions[v].image in s.images
  {
    s.images[s.versions[v].image].kind
  }

  function RetiredOf(s: State, v: VersionId): bool
    requires v in s.versions && s.versions[v].image in s.images
  {
    s.images[s.versions[v].image].retired
  }

  /** Only images from outside have to be free of critical findings and secrets. */
  predicate PassesPolicy(kind: Kind, critical: nat, secrets: nat) {
    (critical == 0 && secrets == 0) || kind == Official
  }

  predicate ShouldRevoke(kind: Kind, seen: Trust) { kind != Official && seen == Trusted }

  ghost predicate DigestTaken(s: State, v: VersionId, digest: Digest)
    requires v in s.versions
  {
    exists u :: u in s.versions && u != v && s.versions[u].image == s.versions[v].image &&
      s.versions[u].digest == Some(digest)
  }

  predicate Open(x: Scan) { x.status == Queued || x.status == Claimed || x.status == Running }

  ghost predicate HasOpenScan(s: State, v: VersionId) {
    exists x :: x in s.scans && s.scans[x].version == v && Open(s.scans[x])
  }

  /** The versions one pass of the periodic rescan picks, `stale` ones being old enough and in use. */
  ghost predicate Due(s: State, stale: set<VersionId>, v: VersionId) {
    && v in stale && v in s.versions && s.versions[v].trust == Trusted && s.versions[v].image in s.images
    && !RetiredOf(s, v) && !HasOpenScan(s, v)
  }

  ghost predicate Rooted(s: State) {
    && (forall v :: v in s.versions ==> s.versions[v].image in s.images)
    && (forall x :: x in s.scans ==> s.scans[x].version in s.versions)
    && (forall t :: t in s.tasks ==> s.tasks[t].version in s.versions && s.tasks[t].scan in s.scans)
  }

  ghost predicate Enabled(s: State, e: Event)
    requires Rooted(s)
  {
    match e
    case Claim(task, scan) => task !in s.tasks && scan in s.scans && s.scans[scan].status == Queued
    case Start(task) => task in s.tasks && s.tasks[task].stage == Inspecting
    case Conclude(task, outcome) =>
      task in s.tasks && (s.tasks[task].stage == Inspecting || (s.tasks[task].stage == Doubting && outcome.Broken?))
    case LoseAck(task, outcome) =>
      task in s.tasks && s.tasks[task].stage == Inspecting && Passes(s, s.tasks[task], outcome)
    case CancelJobs(task) => task in s.tasks && s.tasks[task].stage == Revoking
    case Abandon(task) => task in s.tasks
    case Discover(tracked, digest, version, scan) =>
      && tracked in s.versions && version !in s.versions && scan !in s.scans
      && s.versions[tracked].trust == Trusted && !RetiredOf(s, tracked) && s.versions[tracked].digest != Some(digest)
    case Rescan(stale, added) =>
      && (forall x :: x in added ==> x !in s.scans && Due(s, stale, added[x]))
      && (forall v :: Due(s, stale, v) ==> v in added.Values)
      && (forall x, y :: x in added && y in added && x != y ==> added[x] != added[y])
    case Operate(version, _) => version in s.versions
    case Import(version, row) =>
      && version !in s.versions && row.image in s.images
      && forall u :: u in s.versions && s.versions[u].image == row.image && row.digest.Some? ==>
        s.versions[u].digest != row.digest
    case Enqueue(scan, version, _) => scan !in s.scans && version in s.versions
    case Launch(job, version) => job !in s.jobs && version in s.versions
    case End(job) => job in s.jobs
  }

  /** Neither the retired check, nor the policy, nor the unique index on digests raises. */
  ghost predicate Passes(s: State, x: Task, outcome: Outcome)
    requires x.version in s.versions && s.versions[x.version].image in s.images
  {
    && outcome.Inspected? && !RetiredOf(s, x.version)
    && PassesPolicy(KindOf(s, x.version), outcome.critical, outcome.secrets)
    && (s.versions[x.version].trust != Revoked ==> !DigestTaken(s, x.version, outcome.digest))
  }

  /** `restore_official_trust`, honoured for official images only. */
  predicate Restores(s: State, x: Task)
    requires x.version in s.versions && s.versions[x.version].image in s.images
  {
    KindOf(s, x.version) == Official && x.restore
  }

  function AfterClaim(s: State, scan: ScanId): map<VersionId, Version>
    requires scan in s.scans && s.scans[scan].version in s.versions &&
        s.versions[s.scans[scan].version].image in s.images
  {
    var v := s.scans[scan].version;
    var was := s.versions[v].trust;
    if was == Revoked || RetiredOf(s, v) then s.versions
    else s.versions[v := s.versions[v].(trust := if was == Trusted then Trusted else Scanning)]
  }

  function AfterSuccess(s: State, x: Task, digest: Digest): map<VersionId, Version>
    requires x.version in s.versions && s.versions[x.version].image in s.images
  {
    var row := s.versions[x.version];
    if row.trust == Revoked then s.versions
    else s.versions[x.version := row.(digest := Some(digest),
                                      trust := if row.trust == Trusted || Restores(s, x) then Trusted else Quarantined)]
  }

  /** Official trust that the task saw is kept; anything else is rejected or, if the task saw trust, revoked. */
  function AfterFailure(s: State, x: Task): map<VersionId, Version>
    requires x.version in s.versions && s.versions[x.version].image in s.images
  {
    var row := s.versions[x.version];
    var revoke := ShouldRevoke(KindOf(s, x.version), x.seen);
    var kept := KindOf(s, x.version) == Official && x.seen == Trusted;
    if RetiredOf(s, x.version) || kept || row.trust == Revoked then s.versions
    else s.versions[x.version := row.(trust := if revoke then Revoked else Rejected)]
  }

  function Marked(s: State, scan: ScanId, status: ScanStatus): map<ScanId, Scan>
    requires scan in s.scans
  {
    s.scans[scan := s.scans[scan].(status := status)]
  }

  ghost function ClaimStep(s: State, task: TaskId, scan: ScanId): (t: State)
    requires Rooted(s) && Enabled(s, Claim(task, scan))
    ensures Rooted(t)
  {
    var versions := AfterClaim(s, scan);
    var v := s.scans[scan].version;
    s.(scans := Marked(s, scan, Claimed), versions := versions,
       tasks := s.tasks[task := Task(scan, v, versions[v].trust, s.scans[scan].restore, Inspecting)])
  }

  ghost function ConcludeStep(s: State, task: TaskId, outcome: Outcome): (t: State)
    requires Rooted(s) && Enabled(s, Conclude(task, outcome))
    ensures Rooted(t)
  {
    var x := s.tasks[task];
    if Passes(s, x, outcome) then
      s.(versions := AfterSuccess(s, x, outcome.digest), scans := Marked(s, x.scan, Succeeded),
        tasks := s.tasks - {task})
    else
      s.(versions := AfterFailure(s, x), scans := Marked(s, x.scan, Failed),
         tasks := if !RetiredOf(s, x.version) && ShouldRevoke(KindOf(s, x.version), x.seen)
                  then s.tasks[task := x.(stage := Revoking)] else s.tasks - {task})
  }

  ghost function LoseAckStep(s: State, task: TaskId, outcome: Outcome): (t: State)
    requires Rooted(s) && Enabled(s, LoseAck(task, outcome))
    ensures Rooted(t)
  {
    var x := s.tasks[task];
    s.(versions := AfterSuccess(s, x, outcome.digest), scans := Marked(s, x.scan, Succeeded),
       tasks := s.tasks[task := x.(stage := Doubting)])
  }

  ghost function DiscoverStep(s: State, tracked: VersionId, digest: Digest, version: VersionId,
    scan: ScanId): (t: State)
    requires Rooted(s) && Enabled(s, Discover(tracked, digest, version, scan))
    ensures Rooted(t)
  {
    var image := s.versions[tracked].image;
    if exists u :: u in s.versions && s.versions[u].image == image && s.versions[u].digest == Some(digest) then s
    else s.(versions := s.versions[version := Version(image, Some(digest), Quarantined)],
            scans := s.scans[scan := Scan(version, false, Queued)])
  }

  function JobsStopped(s: State, v: VersionId): map<JobId, Job> {
    map j | j in s.jobs :: if s.jobs[j].version == v then s.jobs[j].(active := false) else s.jobs[j]
  }

  ghost function RescanStep(s: State, stale: set<VersionId>, added: map<ScanId, VersionId>): (t: State)
    requires Rooted(s) && Enabled(s, Rescan(stale, added))
    ensures Rooted(t)
  {
    s.(scans := s.scans + map x | x in added :: Scan(added[x], false, Queued))
  }

  ghost function Next(s: State, e: Event): (t: State)
    requires Rooted(s) && Enabled(s, e)
    ensures Rooted(t)
  {
    match e
    case Claim(task, scan) => ClaimStep(s, task, scan)
    case Start(task) => s.(scans := Marked(s, s.tasks[task].scan, Running))
    case Conclude(task, outcome) => ConcludeStep(s, task, outcome)
    case LoseAck(task, outcome) => LoseAckStep(s, task, outcome)
    case CancelJobs(task) => s.(jobs := JobsStopped(s, s.tasks[task].version), tasks := s.tasks - {task})
    case Abandon(task) => s.(tasks := s.tasks - {task})
    case Discover(tracked, digest, version, scan) => DiscoverStep(s, tracked, digest, version, scan)
    case Rescan(stale, added) => RescanStep(s, stale, added)
    case Operate(version, trust) => s.(versions := s.versions[version := s.versions[version].(trust := trust)])
    case Import(version, row) => s.(versions := s.versions[version := row])
    case Enqueue(scan, version, restore) => s.(scans := s.scans[scan := Scan(version, restore, Queued)])
    case Launch(job, version) => s.(jobs := s.jobs[job := Job(version, true)])
    case End(job) => s.(jobs := s.jobs[job := s.jobs[job].(active := false)])
  }

  ghost function Run(s0: State, es: seq<Event>): (r: Option<State>)
    requires Rooted(s0)
    ensures r.Some? ==> Rooted(r.value)
  {
    if es == [] then Some(s0)
    else
      match Run(s0, es[..|es| - 1])
      case None => None
      case Some(s) =>
        var e := es[|es| - 1];
        if Enabled(s, e) then Some(Next(s, e)) else None
  }

  // ----- The steps of a worker ---------------------------------------------------------------------

  class Database {
    const images: map<ImageId, Image>
    var versions: map<VersionId, Version>
    var scans: map<ScanId, Scan>
    var jobs: map<JobId, Job>
    ghost var tasks: map<TaskId, Task>

    ghost function Contents(): State
      reads this
    {
      State(images, versions, scans, jobs, tasks)
    }

    /** One transaction: take a queued scan, show the version as being scanned, read it. */
    method ClaimScan(ghost task: TaskId, scan: ScanId) returns (row: Task)
      requires Rooted(Contents()) && Enabled(Contents(), Claim(task, scan))
      modifies this
      ensures Contents() == Next(old(Contents()), Claim(task, scan)) && row == tasks[task]
    {
      var x := scans[scan];
      scans := scans[scan := x.(status := Claimed)];
      var v := versions[x.version];
      if v.trust != Revoked && !images[v.image].retired {
        versions := versions[x.version := v.(trust := if v.trust == Trusted then Trusted else Scanning)];
      }
      row := Task(scan, x.version, versions[x.version].trust, x.restore, Inspecting);
      tasks := tasks[task := row];
    }

    /** The transaction after a clean inspection. */
    method RecordSuccess(ghost task: TaskId, row: Task, critical: nat, secrets: nat, digest: Digest)
      requires Rooted(Contents()) && Enabled(Contents(), Conclude(task, Inspected(critical, secrets, digest)))
      requires row == tasks[task] && Passes(Contents(), row, Inspected(critical, secrets, digest))
      modifies this
      ensures Contents() == Next(old(Contents()), Conclude(task, Inspected(critical, secrets, digest)))
    {
      var v := versions[row.version];
      var restoreOfficialTrust := images[v.image].kind == Official && row.restore;
      if v.trust != Revoked {
        var trust := if v.trust == Trusted || restoreOfficialTrust then Trusted else Quarantined;
        versions := versions[row.version := v.(digest := Some(digest), trust := trust)];
      }
      scans := scans[row.scan := scans[row.scan].(status := Succeeded)];
      tasks := tasks - {task};
    }

    /** `fail`, up to the cancellation of jobs. */
    method Fail(ghost task: TaskId, row: Task, ghost outcome: Outcome) returns (revoke: bool)
      requires Rooted(Contents()) && Enabled(Contents(), Conclude(task, outcome))
      requires row == tasks[task] && !Passes(Contents(), row, outcome)
      modifies this
      ensures Contents() == Next(old(Contents()), Conclude(task, outcome))
      ensures revoke <==> task in tasks
    {
      scans := scans[row.scan := scans[row.scan].(status := Failed)];
      var v := versions[row.version];
      ghost var before := tasks;
      tasks := tasks - {task};
      if images[v.image].retired { return false; }
      revoke := ShouldRevoke(images[v.image].kind, row.seen);
      if images[v.image].kind == Official && row.seen == Trusted && !revoke { return false; }
      if v.trust != Revoked {
        versions := versions[row.version := v.(trust := if revoke then Revoked else Rejected)];
      }
      if revoke { tasks := before[task := row.(stage := Revoking)]; }
    }

    /** From the findings to the end of the scan: the policy and the unique index decide. */
    method ConcludeScan(ghost task: TaskId, row: Task, outcome: Outcome) returns (succeeded: bool, revoke: bool)
      requires Rooted(Contents()) && Enabled(Contents(), Conclude(task, outcome)) && row == tasks[task]
      modifies this
      ensures Contents() == Next(old(Contents()), Conclude(task, outcome))
      ensures succeeded <==> scans[row.scan].status == Succeeded
      ensures revoke <==> task in tasks
    {
      var v := versions[row.version];
      var image := images[v.image];
      succeeded := false;
      if outcome.Inspected? && !image.retired {
        if image.kind == Official || !(outcome.critical > 0 || outcome.secrets > 0) {
          succeeded := v.trust == Revoked ||
            !exists u :: u in versions && u != row.version && versions[u].image == v.image &&
              versions[u].digest == Some(outcome.digest);
        }
      }
      if succeeded {
        RecordSuccess(task, row, outcome.critical, outcome.secrets, outcome.digest);
        revoke := false;
      } else {
        revoke := Fail(task, row, outcome);
      }
    }

    /** Cancels the active jobs pinned to the revoked version. */
    method CancelPinnedJobs(ghost task: TaskId, row: Task)
      requires Rooted(Contents()) && Enabled(Contents(), CancelJobs(task)) && row == tasks[task]
      modifies this
      ensures Contents() == Next(old(Contents()), CancelJobs(task))
    {
      var todo := jobs.Keys;
      while todo != {}
        invariant todo <= old(jobs).Keys && jobs.Keys == old(jobs).Keys
        invariant versions == old(versions) && scans == old(scans) && tasks == old(tasks)
        invariant forall j :: j in jobs ==>
          var was := old(jobs)[j];
          jobs[j] == if j !in todo && was.version == row.version then was.(active := false) else was
        decreases |todo|
      {
        var j :| j in todo;
        if jobs[j].version == row.version { jobs := jobs[j := jobs[j].(active := false)]; }
        todo := todo - {j};
      }
      tasks := tasks - {task};
    }
  }

  // ----- Whole runs ----------------------------------------------------------------------------------

  ghost predicate OperatedOn(es: seq<Event>, v: VersionId, trust: Trust) {
    exists k :: 0 <= k < |es| && es[k] == Operate(v, trust)
  }

  ghost predicate NotOperatedOn(es: seq<Event>, v: VersionId) {
    forall k :: 0 <= k < |es| ==> !(es[k].Operate? && es[k].version == v)
  }

  ghost predicate SameImage(s: State, t: State, v: VersionId) {
    t.images == s.images && v in s.versions && v in t.versions && t.versions[v].image == s.versions[v].image
  }

  // What a step does to one version.

  function ClaimedRow(s: State, row: Version): Version
    requires row.image in s.images
  {
    if row.trust == Revoked || s.images[row.image].retired then row
    else row.(trust := if row.trust == Trusted then Trusted else Scanning)
  }

  function PassedRow(s: State, x: Task, row: Version, digest: Digest): Version
    requires row.image in s.images
  {
    if row.trust == Revoked then row
    else
      var restores := s.images[row.image].kind == Official && x.restore;
      row.(digest := Some(digest), trust := if row.trust == Trusted || restores then Trusted else Quarantined)
  }

  function FailedRow(s: State, x: Task, row: Version): Version
    requires row.image in s.images
  {
    var image := s.images[row.image];
    if image.retired || (image.kind == Official && x.seen == Trusted) || row.trust == Revoked then row
    else row.(trust := if ShouldRevoke(image.kind, x.seen) then Revoked else Rejected)
  }

  ghost function RowAfter(s: State, e: Event, v: VersionId): Version
    requires Rooted(s) && Enabled(s, e) && v in s.versions
  {
    var row := s.versions[v];
    match e
    case Claim(_, scan) => if s.scans[scan].version == v then ClaimedRow(s, row) else row
    case Conclude(task, outcome) =>
      var x := s.tasks[task];
      if x.version != v then row
      else if Passes(s, x, outcome) then PassedRow(s, x, row, outcome.digest)
      else FailedRow(s, x, row)
    case LoseAck(task, outcome) =>
      if s.tasks[task].version == v then PassedRow(s, s.tasks[task], row, outcome.digest) else row
    case Operate(u, trust) => if u == v then row.(trust := trust) else row
    case _ => row
  }

  ghost predicate RowIs(t: State, v: VersionId, row: Version) { v in t.versions && t.versions[v] == row }

  lemma ClaimRow(s: State, task: TaskId, scan: ScanId, v: VersionId)
    requires Rooted(s) && Enabled(s, Claim(task, scan)) && v in s.versions
    ensures RowIs(ClaimStep(s, task, scan), v, RowAfter(s, Claim(task, scan), v))
  {
  }

  lemma ConcludeRow(s: State, task: TaskId, outcome: Outcome, v: VersionId)
    requires Rooted(s) && Enabled(s, Conclude(task, outcome)) && v in s.versions
    ensures RowIs(ConcludeStep(s, task, outcome), v, RowAfter(s, Conclude(task, outcome), v))
  {
    var t, x := ConcludeStep(s, task, outcome), s.tasks[task];
    if Passes(s, x, outcome) {
      assert t.versions == AfterSuccess(s, x, outcome.digest);
    } else {
      assert t.versions == AfterFailure(s, x);
    }
  }

  lemma LoseAckRow(s: State, task: TaskId, outcome: Outcome, v: VersionId)
    requires Rooted(s) && Enabled(s, LoseAck(task, outcome)) && v in s.versions
    ensures RowIs(LoseAckStep(s, task, outcome), v, RowAfter(s, LoseAck(task, outcome), v))
  {
  }

  lemma RowNext(s: State, e: Event, v: VersionId)
    requires Rooted(s) && Enabled(s, e) && v in s.versions
    ensures RowIs(Next(s, e), v, RowAfter(s, e, v)) && Next(s, e).images == s.images
  {
    if e.Claim? {
      ClaimRow(s, e.task, e.scan, v);
    } else if e.Conclude? {
      ConcludeRow(s, e.task, e.outcome, v);
    } else if e.LoseAck? {
      LoseAckRow(s, e.task, e.outcome, v);
    } else if e.Discover? {
      DiscoveryReplacesNothing(s, e.tracked, e.digest, e.version, e.scan);
    }
  }

  lemma VersionStays(s: State, e: Event, v: VersionId)
    requires Rooted(s) && Enabled(s, e) && v in s.versions
    ensures SameImage(s, Next(s, e), v)
  {
    RowNext(s, e, v);
    ImageStays(s, e, v);
  }

  lemma ImageStays(s: State, e: Event, v: VersionId)
    requires Rooted(s) && Enabled(s, e) && v in s.versions
    ensures RowAfter(s, e, v).image == s.versions[v].image
  {
  }

  lemma {:induction false} VersionStaysForever(s0: State, es: seq<Event>, v: VersionId)
    requires Rooted(s0) && Run(s0, es).Some? && v in s0.versions
    ensures SameImage(s0, Run(s0, es).value, v)
  {
    if es != [] {
      VersionStaysForever(s0, es[..|es| - 1], v);
      VersionStays(Run(s0, es[..|es| - 1]).value, es[|es| - 1], v);
    }
  }

  lemma RevokedStaysPut(s: State, e: Event, v: VersionId)
    requires Rooted(s) && Enabled(s, e) && v in s.versions && s.versions[v].trust == Revoked
    requires !(e.Operate? && e.version == v)
    ensures RowAfter(s, e, v) == s.versions[v]
  {
  }

  /** Revoked is final: no worker, whatever its scan saw, moves a version out of it. */
  lemma {:induction false} RevokedIsFinal(s0: State, es: seq<Event>, v: VersionId)
    requires Rooted(s0) && Run(s0, es).Some? && v in s0.versions
    requires s0.versions[v].trust == Revoked && NotOperatedOn(es, v)
    ensures v in Run(s0, es).value.versions && Run(s0, es).value.versions[v] == s0.versions[v]
  {
    if es != [] {
      var before, e := es[..|es| - 1], es[|es| - 1];
      RevokedIsFinal(s0, before, v);
      assert e in es;
      RowNext(Run(s0, before).value, e, v);
      RevokedStaysPut(Run(s0, before).value, e, v);
    }
  }

  /** The success of a scan queued to restore official trust in the version. */
  ghost predicate RestoringStep(s: State, e: Event, v: VersionId)
    requires Rooted(s) && Enabled(s, e)
  {
    && (e.Conclude? || e.LoseAck?) && s.tasks[e.task].version == v && s.tasks[e.task].restore
    && v in s.versions && KindOf(s, v) == Official && Passes(s, s.tasks[e.task], e.outcome)
  }

  lemma TrustStep(s: State, e: Event, v: VersionId)
    requires Rooted(s) && Enabled(s, e) && v in s.versions
    ensures RowAfter(s, e, v).trust == Trusted ==>
      s.versions[v].trust == Trusted || e == Operate(v, Trusted) || RestoringStep(s, e, v)
  {
  }

  lemma OfficialStep(s: State, e: Event, v: VersionId)
    requires Rooted(s) && Enabled(s, e) && v in s.versions && KindOf(s, v) == Official
    ensures RowAfter(s, e, v).trust == Revoked ==> s.versions[v].trust == Revoked || e == Operate(v, Revoked)
  {
  }

  lemma OperatedLater(es: seq<Event>, v: VersionId, trust: Trust)
    requires es != []
    ensures OperatedOn(es[..|es| - 1], v, trust) ==> OperatedOn(es, v, trust)
    ensures es[|es| - 1] == Operate(v, trust) ==> OperatedOn(es, v, trust)
  {
    if OperatedOn(es[..|es| - 1], v, trust) {
      var k :| 0 <= k < |es| - 1 && es[..|es| - 1][k] == Operate(v, trust);
      assert es[k] == Operate(v, trust);
    }
  }

  ghost predicate ImportedAs(es: seq<Event>, v: VersionId, trust: Trust) {
    exists k :: 0 <= k < |es| && es[k].Import? && es[k].version == v && es[k].row.trust == trust
  }

  lemma ImportedLater(es: seq<Event>, v: VersionId, trust: Trust)
    requires es != []
    ensures ImportedAs(es[..|es| - 1], v, trust) ==> ImportedAs(es, v, trust)
    ensures var e := es[|es| - 1]; e.Import? && e.version == v && e.row.trust == trust ==> ImportedAs(es, v, trust)
  {
    if ImportedAs(es[..|es| - 1], v, trust) {
      var k :| 0 <= k < |es| - 1 && es[..|es| - 1][k].Import? && es[k].version == v && es[k].row.trust == trust;
      assert es[k].Import?;
    }
  }

  /** A new digest behind a tag becomes a version of its own, in quarantine and queued; nothing else changes. */
  lemma DiscoveryReplacesNothing(s: State, tracked: VersionId, digest: Digest, version: VersionId, scan: ScanId)
    requires Rooted(s) && Enabled(s, Discover(tracked, digest, version, scan))
    ensures var t := DiscoverStep(s, tracked, digest, version, scan);
      && (forall u :: u in s.versions ==> u in t.versions && t.versions[u] == s.versions[u])
      && (forall u :: u in t.versions && u !in s.versions ==> u == version)
      && (version in t.versions ==>
            t.versions[version] == Version(s.versions[tracked].image, Some(digest), Quarantined) &&
              HasOpenScan(t, version))
      && (version !in t.versions ==> t == s)
  {
    var t := DiscoverStep(s, tracked, digest, version, scan);
    if version in t.versions { assert t.scans[scan] == Scan(version, false, Queued); }
  }

  lemma NewVersionStep(s: State, e: Event, v: VersionId)
    requires Rooted(s) && Enabled(s, e) && v !in s.versions && v in Next(s, e).versions
    ensures Next(s, e).versions[v].trust == Quarantined ||
        (e.Import? && e.version == v && Next(s, e).versions[v] == e.row)
  {
    if e.Discover? { DiscoveryReplacesNothing(s, e.tracked, e.digest, e.version, e.scan); }
  }

  /** Somewhere in the run a restoring scan of the version succeeded. */
  ghost predicate RestoredIn(s0: State, es: seq<Event>, v: VersionId)
    requires Rooted(s0)
  {
    exists k :: 0 <= k < |es| && RestoredAt(s0, es, v, k)
  }

  ghost predicate RestoredAt(s0: State, es: seq<Event>, v: VersionId, k: nat)
    requires Rooted(s0) && k < |es|
  {
    Run(s0, es[..k]).Some? && Enabled(Run(s0, es[..k]).value, es[k]) && RestoringStep(Run(s0, es[..k]).value, es[k], v)
  }

  lemma RestoredLater(s0: State, es: seq<Event>, v: VersionId)
    requires Rooted(s0) && es != []
    ensures RestoredIn(s0, es[..|es| - 1], v) ==> RestoredIn(s0, es, v)
    ensures RestoredAt(s0, es, v, |es| - 1) ==> RestoredIn(s0, es, v)
  {
    var before := es[..|es| - 1];
    if RestoredIn(s0, before, v) {
      var k :| 0 <= k < |before| && RestoredAt(s0, before, v, k);
      assert before[..k] == es[..k] && RestoredAt(s0, es, v, k);
    }
  }

  /**
   * Whatever the interleaving, a version - one that appears during the run included - is trusted only if it
   * was at the start, an operator trusted it, it was imported as trusted, or a scan that was queued to restore
   * trust in an official version succeeded.
   */
  lemma {:induction false} TrustHasASource(s0: State, es: seq<Event>, v: VersionId)
    requires Rooted(s0) && Run(s0, es).Some? && v in Run(s0, es).value.versions
    ensures Run(s0, es).value.versions[v].trust == Trusted ==>
      || (v in s0.versions && s0.versions[v].trust == Trusted)
      || OperatedOn(es, v, Trusted) || ImportedAs(es, v, Trusted) || RestoredIn(s0, es, v)
  {
    if es != [] {
      var before, e := es[..|es| - 1], es[|es| - 1];
      var s := Run(s0, before).value;
      OperatedLater(es, v, Trusted);
      ImportedLater(es, v, Trusted);
      RestoredLater(s0, es, v);
      if v in s.versions {
        TrustHasASource(s0, before, v);
        RowNext(s, e, v);
        TrustStep(s, e, v);
      } else {
        NewVersionStep(s, e, v);
      }
    }
  }

  /** In particular no work of scanners makes a third-party version trusted. */
  lemma {:induction false} TrustNeedsAnOperator(s0: State, es: seq<Event>, v: VersionId)
    requires Rooted(s0) && Run(s0, es).Some?
    requires v in Run(s0, es).value.versions && KindOf(Run(s0, es).value, v) == ThirdParty
    ensures Run(s0, es).value.versions[v].trust == Trusted ==>
      (v in s0.versions && s0.versions[v].trust == Trusted) || OperatedOn(es, v, Trusted) || ImportedAs(es, v, Trusted)
  {
    TrustHasASource(s0, es, v);
    if RestoredIn(s0, es, v) {
      var k :| 0 <= k < |es| && RestoredAt(s0, es, v, k);
      KindStays(s0, es, v, k);
      assert false;
    }
  }

  lemma {:induction false} KindStays(s0: State, es: seq<Event>, v: VersionId, k: nat)
    requires Rooted(s0) && Run(s0, es).Some? && k <= |es|
    requires Run(s0, es[..k]).Some? && v in Run(s0, es[..k]).value.versions
    ensures SameImage(Run(s0, es[..k]).value, Run(s0, es).value, v)
  {
    if k == |es| {
      assert es[..k] == es;
    } else {
      var before := es[..|es| - 1];
      assert before[..k] == es[..k];
      KindStays(s0, before, v, k);
      VersionStays(Run(s0, before).value, es[|es| - 1], v);
    }
  }

  /** No official version is revoked by workers. */
  lemma {:induction false} OfficialIsNotRevoked(s0: State, es: seq<Event>, v: VersionId)
    requires Rooted(s0) && Run(s0, es).Some? && v in s0.versions && KindOf(s0, v) == Official
    ensures SameImage(s0, Run(s0, es).value, v)
    ensures Run(s0, es).value.versions[v].trust == Revoked ==>
        s0.versions[v].trust == Revoked || OperatedOn(es, v, Revoked)
  {
    VersionStaysForever(s0, es, v);
    if es != [] {
      var before, e := es[..|es| - 1], es[|es| - 1];
      OfficialIsNotRevoked(s0, before, v);
      RowNext(Run(s0, before).value, e, v);
      OfficialStep(Run(s0, before).value, e, v);
      OperatedLater(es, v, Revoked);
    }
  }

  /** A worker step that hears of a failure and did not see the version trusted. */
  ghost predicate FailsUnseeing(s: State, e: Event, v: VersionId)
    requires Rooted(s) && Enabled(s, e)
  {
    && e.Conclude? && s.tasks[e.task].version == v && !Passes(s, s.tasks[e.task], e.outcome)
    && s.tasks[e.task].seen != Trusted && !RetiredOf(s, v)
  }

  /** The one way a worker lowers official trust: its scan was claimed before the version was trusted. */
  lemma OfficialLosesTrustIff(s: State, e: Event, v: VersionId)
    requires Rooted(s) && Enabled(s, e) && v in s.versions && KindOf(s, v) == Official
    requires s.versions[v].trust == Trusted && !e.Operate?
    ensures v in Next(s, e).versions
    ensures Next(s, e).versions[v].trust != Trusted <==> FailsUnseeing(s, e, v)
  {
    RowNext(s, e, v);
    LosesTrustIff(s, e, v);
  }

  lemma LosesTrustIff(s: State, e: Event, v: VersionId)
    requires Rooted(s) && Enabled(s, e) && v in s.versions && KindOf(s, v) == Official
    requires s.versions[v].trust == Trusted && !e.Operate?
    ensures RowAfter(s, e, v).trust != Trusted <==> FailsUnseeing(s, e, v)
  {
  }

  ghost predicate TasksSawTrust(s: State, v: VersionId) {
    forall t :: t in s.tasks && s.tasks[t].version == v ==> s.tasks[t].seen == Trusted
  }

  /**
   * An official version trusted while no scan claimed earlier is under way stays trusted, whatever fails,
   * until an operator decides otherwise.
   */
  lemma {:induction false} OfficialTrustIsKept(s0: State, es: seq<Event>, v: VersionId)
    requires Rooted(s0) && Run(s0, es).Some? && v in s0.versions && KindOf(s0, v) == Official
    requires s0.versions[v].trust == Trusted && TasksSawTrust(s0, v) && NotOperatedOn(es, v)
    ensures SameImage(s0, Run(s0, es).value, v)
    ensures Run(s0, es).value.versions[v].trust == Trusted && TasksSawTrust(Run(s0, es).value, v)
  {
    if es != [] {
      var before, e := es[..|es| - 1], es[|es| - 1];
      OfficialTrustIsKept(s0, before, v);
      VersionStays(Run(s0, before).value, e, v);
      assert e in es;
    }
  }

  /**
   * Without that proviso trust is lost.  `Operate` stands here for a registration of the image
   * (apps/scheduler/src/domains/runtime-image/routes.ts:543-553, 701-710, 770-773), which writes `trusted` over
   * an existing version whatever its scans; the status route (913-918) would refuse while the scan is open.
   */
  lemma ApprovalDuringAScanIsLost(s: State, task: TaskId, scan: ScanId, v: VersionId)
    requires Rooted(s) && Enabled(s, Claim(task, scan)) && s.scans[scan].version == v
    requires KindOf(s, v) == Official && !RetiredOf(s, v) && s.versions[v].trust == Quarantined
    ensures var es := [Claim(task, scan), Operate(v, Trusted), Conclude(task, Broken)];
      Run(s, es).Some? && v in Run(s, es).value.versions && Run(s, es).value.versions[v].trust == Rejected
  {
    var a, b, c := Claim(task, scan), Operate(v, Trusted), Conclude(task, Broken);
    ClaimOfQuarantined(s, task, scan, v);
    var s1 := Next(s, a);
    FailureAfterApproval(s1, task, v);
    var s2 := Next(s1, b);
    RunNext(s, [], s, a, [a]);
    RunNext(s, [a], s1, b, [a, b]);
    RunNext(s, [a, b], s2, c, [a, b, c]);
  }

  lemma RunNext(s0: State, es: seq<Event>, s: State, e: Event, all: seq<Event>)
    requires Rooted(s0) && Run(s0, es) == Some(s) && Enabled(s, e) && all == es + [e]
    ensures Run(s0, all) == Some(Next(s, e))
  {
    assert all[..|es|] == es;
  }

  lemma ClaimOfQuarantined(s: State, task: TaskId, scan: ScanId, v: VersionId)
    requires Rooted(s) && Enabled(s, Claim(task, scan)) && s.scans[scan].version == v
    requires KindOf(s, v) == Official && !RetiredOf(s, v) && s.versions[v].trust == Quarantined
    ensures AwaitsVerdict(Next(s, Claim(task, scan)), task, v)
  {
  }

  /** An official version under a scan whose task did not see it trusted. */
  ghost predicate AwaitsVerdict(s: State, task: TaskId, v: VersionId)
    requires Rooted(s)
  {
    && task in s.tasks && s.tasks[task].version == v && s.tasks[task].seen == Scanning
    && s.tasks[task].stage in {Inspecting, Doubting} && KindOf(s, v) == Official && !RetiredOf(s, v)
  }

  lemma FailureAfterApproval(s: State, task: TaskId, v: VersionId)
    requires Rooted(s) && AwaitsVerdict(s, task, v)
    ensures Enabled(s, Operate(v, Trusted)) && Enabled(Next(s, Operate(v, Trusted)), Conclude(task, Broken))
    ensures var t := Next(Next(s, Operate(v, Trusted)), Conclude(task, Broken));
      v in t.versions && t.versions[v].trust == Rejected
  {
    var t := Next(s, Operate(v, Trusted));
    assert t.versions[v].trust == Trusted && !Passes(t, t.tasks[task], Broken);
    assert ConcludeStep(t, task, Broken).versions == AfterFailure(t, t.tasks[task]);
  }

  lemma LostAckStillAwaits(s: State, task: TaskId, v: VersionId, outcome: Outcome)
    requires Rooted(s) && AwaitsVerdict(s, task, v) && Enabled(s, LoseAck(task, outcome))
    ensures AwaitsVerdict(LoseAckStep(s, task, outcome), task, v)
    ensures LoseAckStep(s, task, outcome).scans[s.tasks[task].scan].status == Succeeded
  {
  }

  /** The status route lets this one through: the latest scan has succeeded, but its worker does not know. */
  lemma ApprovalOfADoubtedSuccessIsLost(s: State, task: TaskId, v: VersionId, outcome: Outcome)
    requires Rooted(s) && AwaitsVerdict(s, task, v) && Enabled(s, LoseAck(task, outcome))
    ensures var s1 := Next(s, LoseAck(task, outcome));
      && s.tasks[task].scan in s1.scans && s1.scans[s.tasks[task].scan].status == Succeeded
      && Enabled(s1, Operate(v, Trusted))
      && var s2 := Next(s1, Operate(v, Trusted));
      && Enabled(s2, Conclude(task, Broken))
      && var s3 := Next(s2, Conclude(task, Broken));
      v in s3.versions && s3.versions[v].trust == Rejected
  {
    LostAckStillAwaits(s, task, v, outcome);
    FailureAfterApproval(LoseAckStep(s, task, outcome), task, v);
  }

  lemma RunOne(s0: State, es: seq<Event>, e: Event)
    requires Rooted(s0) && Run(s0, es).Some? && Enabled(Run(s0, es).value, e)
    ensures Run(s0, es + [e]) == Some(Next(Run(s0, es).value, e))
  {
    assert (es + [e])[..|es|] == es;
  }

  lemma FailureRevokes(s: State, task: TaskId, outcome: Outcome)
    requires Rooted(s) && Enabled(s, Conclude(task, outcome)) && !Passes(s, s.tasks[task], outcome)
    requires var x := s.tasks[task];
      KindOf(s, x.version) == ThirdParty && !RetiredOf(s, x.version) && x.seen == Trusted
    ensures var t := ConcludeStep(s, task, outcome);
      && s.tasks[task].version in t.versions && t.versions[s.tasks[task].version].trust == Revoked
      && task in t.tasks && t.tasks[task] == s.tasks[task].(stage := Revoking) && t.jobs == s.jobs
  {
  }

  /** A job keeps its version and, once stopped, stays stopped. */
  lemma JobStays(s: State, e: Event, j: JobId)
    requires Rooted(s) && Enabled(s, e) && j in s.jobs
    ensures j in Next(s, e).jobs && Next(s, e).jobs[j].version == s.jobs[j].version
    ensures !s.jobs[j].active ==> !Next(s, e).jobs[j].active
  {
    if !e.CancelJobs? && !e.Launch? && !e.End? { OtherStepKeepsJobs(s, e); }
  }

  lemma OtherStepKeepsJobs(s: State, e: Event)
    requires Rooted(s) && Enabled(s, e) && !e.CancelJobs? && !e.Launch? && !e.End?
    ensures Next(s, e).jobs == s.jobs
  {
  }

  /** The revocation in the hands of `task` is still to be carried out. */
  ghost predicate Pends(s: State, task: TaskId, v: VersionId) {
    task in s.tasks && s.tasks[task].stage == Revoking && s.tasks[task].version == v
  }

  lemma PendsUntilCarriedOut(s: State, e: Event, task: TaskId, v: VersionId)
    requires Rooted(s) && Enabled(s, e) && Pends(s, task, v) && e != CancelJobs(task) && e != Abandon(task)
    ensures Pends(Next(s, e), task, v)
  {
    if TaskStep(e) { TaskStepTouches(s, e); } else { OtherStepKeepsTasks(s, e); }
  }

  lemma {:induction false} RevocationIsCarriedOut(s: State, task: TaskId, v: VersionId, j: JobId, es: seq<Event>)
    requires Rooted(s) && Pends(s, task, v) && j in s.jobs && s.jobs[j].version == v
    requires Run(s, es).Some? && forall k :: 0 <= k < |es| ==> es[k] != Abandon(task)
    ensures var t := Run(s, es).value;
      && j in t.jobs && t.jobs[j].version == v
      && (!t.jobs[j].active || (Pends(t, task, v) && forall k :: 0 <= k < |es| ==> es[k] != CancelJobs(task)))
  {
    if es != [] {
      var before, e := es[..|es| - 1], es[|es| - 1];
      RevocationIsCarriedOut(s, task, v, j, before);
      assert e in es;
      var t := Run(s, before).value;
      JobStays(t, e, j);
      if t.jobs[j].active && e != CancelJobs(task) { PendsUntilCarriedOut(t, e, task, v); }
      assert forall k :: 0 <= k < |before| ==> es[k] == before[k];
    }
  }

  /**
   * What a concluded scan comes to.  It succeeds exactly if it ran to its end on an image still offered, found
   * nothing in an image from outside, and brought no digest that another version of the image has.  A success
   * records the digest and leaves trust that was there or is restored; a failure costs a third-party version
   * its place for good if it was seen trusted, and official trust only if it was not seen.
   */
  lemma VerdictOfFindings(s: State, task: TaskId, outcome: Outcome)
    requires Rooted(s) && Enabled(s, Conclude(task, outcome))
    ensures var x := s.tasks[task];
      var row := s.versions[x.version];
      var image := s.images[row.image];
      var t := Next(s, Conclude(task, outcome));
      var succeeds :=
        && outcome.Inspected? && !image.retired
        && (image.kind == Official || (outcome.critical == 0 && outcome.secrets == 0))
        && (row.trust == Revoked ||
            forall u :: u in s.versions && u != x.version && s.versions[u].image == row.image ==>
              s.versions[u].digest != Some(outcome.digest));
      && x.scan in t.scans && t.scans[x.scan].status == (if succeeds then Succeeded else Failed)
      && x.version in t.versions
      && t.versions[x.version] ==
        if row.trust == Revoked then row
        else if succeeds then
          var trusted := row.trust == Trusted || (image.kind == Official && x.restore);
          row.(digest := Some(outcome.digest), trust := if trusted then Trusted else Quarantined)
        else if image.retired || (image.kind == Official && x.seen == Trusted) then row
        else row.(trust := if image.kind == ThirdParty && x.seen == Trusted then Revoked else Rejected)
  {
    var x := s.tasks[task];
    if outcome.Inspected? {
      assert DigestTaken(s, x.version, outcome.digest) <==>
        exists u :: u in s.versions && u != x.version && s.versions[u].image == s.versions[x.version].image &&
          s.versions[u].digest == Some(outcome.digest);
    }
  }

  /**
   * A scan that saw a third-party version trusted and fails, be it for a critical finding or a secret, for a
   * digest already taken, or for any error, revokes the version for good: only an operator brings it back; and once
   * its worker has carried the revocation out, every job that was pinned to it has stopped, whatever happened
   * in between.
   */
  lemma FailureRevokesForGood(s: State, task: TaskId, outcome: Outcome, es: seq<Event>)
    requires Rooted(s) && Enabled(s, Conclude(task, outcome))
    requires var v := s.tasks[task].version;
      || outcome.Broken? || outcome.critical > 0 || outcome.secrets > 0
      || (s.versions[v].trust != Revoked &&
          exists u :: u in s.versions && u != v &&
                      s.versions[u].image == s.versions[v].image && s.versions[u].digest == Some(outcome.digest))
    requires var x := s.tasks[task];
      KindOf(s, x.version) == ThirdParty && !RetiredOf(s, x.version) && x.seen == Trusted
    requires Run(Next(s, Conclude(task, outcome)), es).Some?
    ensures var v, t := s.tasks[task].version, Run(Next(s, Conclude(task, outcome)), es).value;
      && (NotOperatedOn(es, v) ==> v in t.versions && t.versions[v].trust == Revoked)
      && (CancelJobs(task) in es && Abandon(task) !in es ==>
            forall j :: j in s.jobs && s.jobs[j].version == v ==> j in t.jobs && !t.jobs[j].active)
  {
    VerdictOfFindings(s, task, outcome);
    assert Next(s, Conclude(task, outcome)).scans[s.tasks[task].scan].status == Failed;
    FailureRevokes(s, task, outcome);
    var v, u := s.tasks[task].version, Next(s, Conclude(task, outcome));
    if NotOperatedOn(es, v) { RevokedIsFinal(u, es, v); }
    if CancelJobs(task) in es && Abandon(task) !in es {
      forall j | j in s.jobs && s.jobs[j].version == v
        ensures j in Run(u, es).value.jobs && !Run(u, es).value.jobs[j].active
      {
        RevocationIsCarriedOut(u, task, v, j, es);
      }
    }
  }

  /**
   * A scan that finds nothing, from claim to conclusion: a version that was trusted stays so, an official one
   * whose scan was queued to restore trust gets it back, and every other one waits in quarantine for an
   * operator, whatever it was before; the digest is recorded and no other version changes.
   */
  lemma CleanScanOutcome(s: State, task: TaskId, scan: ScanId, digest: Digest)
    requires Rooted(s) && Enabled(s, Claim(task, scan))
    requires !RetiredOf(s, s.scans[scan].version) && s.versions[s.scans[scan].version].trust != Revoked
    requires !DigestTaken(s, s.scans[scan].version, digest)
    ensures var v := s.scans[scan].version;
      var claimed := Next(s, Claim(task, scan));
      && Enabled(claimed, Conclude(task, Inspected(0, 0, digest)))
      && var t := Next(claimed, Conclude(task, Inspected(0, 0, digest)));
      && v in t.versions && t.versions[v].digest == Some(digest)
      && var keeps := s.versions[v].trust == Trusted || (KindOf(s, v) == Official && s.scans[scan].restore);
      && t.versions[v].trust == (if keeps then Trusted else Quarantined)
      && scan in t.scans && t.scans[scan].status == Succeeded && task !in t.tasks
      && forall u :: u in s.versions && u != v ==> u in t.versions && t.versions[u] == s.versions[u]
  {
    var v := s.scans[scan].version;
    var claimed := ClaimStep(s, task, scan);
    assert !DigestTaken(claimed, v, digest) by {
      assert forall u :: u in s.versions ==>
        claimed.versions[u].digest == s.versions[u].digest && claimed.versions[u].image == s.versions[u].image;
    }
    assert Passes(claimed, claimed.tasks[task], Inspected(0, 0, digest));
    assert ConcludeStep(claimed, task, Inspected(0, 0, digest)).versions ==
      AfterSuccess(claimed, claimed.tasks[task], digest);
  }

  /** Only tasks on third-party versions get to cancel jobs. */
  ghost predicate RevokersAreThirdParty(s: State)
    requires Rooted(s)
  {
    forall t :: t in s.tasks && s.tasks[t].stage == Revoking ==> KindOf(s, s.tasks[t].version) == ThirdParty
  }

  /** Workers never stop a job that runs an official image. */
  lemma {:induction false} OfficialJobsRunOn(s0: State, es: seq<Event>, j: JobId)
    requires Rooted(s0) && RevokersAreThirdParty(s0) && Run(s0, es).Some?
    requires j in s0.jobs && s0.jobs[j].version in s0.versions && KindOf(s0, s0.jobs[j].version) == Official
    requires forall k :: 0 <= k < |es| ==> es[k] != End(j)
    ensures RevokersAreThirdParty(Run(s0, es).value)
    ensures j in Run(s0, es).value.jobs && Run(s0, es).value.jobs[j] == s0.jobs[j]
    ensures SameImage(s0, Run(s0, es).value, s0.jobs[j].version)
  {
    VersionStaysForever(s0, es, s0.jobs[j].version);
    if es != [] {
      var before, e := es[..|es| - 1], es[|es| - 1];
      OfficialJobsRunOn(s0, before, j);
      NextKeepsRevokers(Run(s0, before).value, e);
      assert e in es;
    }
  }

  lemma NextKeepsRevokers(s: State, e: Event)
    requires Rooted(s) && RevokersAreThirdParty(s) && Enabled(s, e)
    ensures RevokersAreThirdParty(Next(s, e))
  {
    var t := Next(s, e);
    forall u | u in t.tasks && t.tasks[u].stage == Revoking
      ensures KindOf(t, t.tasks[u].version) == ThirdParty
    {
      assert t.tasks[u].version in s.versions;
      VersionStays(s, e, t.tasks[u].version);
    }
  }

  // ----- Scans and digests ---------------------------------------------------------------------------

  ghost predicate SingleOpenScans(s: State) {
    forall x, y :: x in s.scans && y in s.scans && x != y && Open(s.scans[x]) && Open(s.scans[y]) ==>
      s.scans[x].version != s.scans[y].version
  }

  ghost predicate DigestsUnique(s: State) {
    forall u, v :: u in s.versions && v in s.versions && u != v && s.versions[u].image == s.versions[v].image ==>
      s.versions[u].digest == None || s.versions[u].digest != s.versions[v].digest
  }

  /** A scan is open exactly while its task inspects. */
  predicate StageFits(stage: Stage, status: ScanStatus) {
    && (stage == Inspecting <==> status == Claimed || status == Running)
    && (stage == Doubting ==> status == Succeeded)
  }

  /** Each task holds a scan that nobody else holds and that is no longer queued. */
  ghost predicate ScansHeldOnce(s: State)
    requires Rooted(s)
  {
    && (forall t :: t in s.tasks ==>
          s.scans[s.tasks[t].scan].status != Queued && s.scans[s.tasks[t].scan].version == s.tasks[t].version)
    && (forall t, u :: t in s.tasks && u in s.tasks && t != u ==> s.tasks[t].scan != s.tasks[u].scan)
    && (forall t :: t in s.tasks ==> StageFits(s.tasks[t].stage, s.scans[s.tasks[t].scan].status))
  }

  /** Scans and tasks of a state, as far as a step on one of them can touch them. */
  ghost predicate OnlyTouches(s: State, t: State, scan: ScanId, task: TaskId) {
    && (forall x :: x in s.scans ==> x in t.scans && t.scans[x].version == s.scans[x].version)
    && t.scans.Keys == s.scans.Keys && (forall x :: x in s.scans && x != scan ==> t.scans[x] == s.scans[x])
    && (forall u :: u != task ==> (u in t.tasks <==> u in s.tasks) && (u in s.tasks ==> t.tasks[u] == s.tasks[u]))
  }

  predicate TaskStep(e: Event) {
    e.Claim? || e.Start? || e.Conclude? || e.LoseAck? || e.CancelJobs? || e.Abandon?
  }

  function ScanOf(s: State, e: Event): ScanId
    requires TaskStep(e) && (e.Claim? || e.task in s.tasks)
  {
    if e.Claim? then e.scan else s.tasks[e.task].scan
  }

  ghost predicate Touches(s: State, e: Event, t: State)
    requires TaskStep(e) && (e.Claim? || e.task in s.tasks)
  {
    var scan := ScanOf(s, e);
    && OnlyTouches(s, t, scan, e.task) && scan in t.scans
    && (e.Claim? ==> t.scans[scan].status == Claimed && e.task in t.tasks && t.tasks[e.task].scan == scan
                     && t.tasks[e.task].version == s.scans[scan].version && t.tasks[e.task].stage == Inspecting)
    && (e.Start? ==> t.scans[scan].status == Running)
    && (e.Conclude? ==> t.scans[scan].status in {Succeeded, Failed})
    && (e.LoseAck? ==> t.scans[scan].status == Succeeded)
    && ((e.CancelJobs? || e.Abandon?) ==> t.scans == s.scans)
    && (!e.Claim? && e.task in t.tasks ==>
          t.tasks[e.task].(stage := Inspecting) == s.tasks[e.task].(stage := Inspecting)
          && (t.tasks[e.task].stage == Inspecting <==> e.Start?) && (t.tasks[e.task].stage == Doubting <==> e.LoseAck?))
  }

  lemma ConcludeTouches(s: State, task: TaskId, outcome: Outcome)
    requires Rooted(s) && Enabled(s, Conclude(task, outcome))
    ensures Touches(s, Conclude(task, outcome), ConcludeStep(s, task, outcome))
  {
    var t, x := ConcludeStep(s, task, outcome), s.tasks[task];
    if Passes(s, x, outcome) {
      MarkTouches(s, t, x.scan, task, Succeeded);
    } else {
      MarkTouches(s, t, x.scan, task, Failed);
    }
  }

  lemma LoseAckTouches(s: State, task: TaskId, outcome: Outcome)
    requires Rooted(s) && Enabled(s, LoseAck(task, outcome))
    ensures Touches(s, LoseAck(task, outcome), LoseAckStep(s, task, outcome))
  {
    MarkTouches(s, LoseAckStep(s, task, outcome), s.tasks[task].scan, task, Succeeded);
  }

  lemma MarkTouches(s: State, t: State, scan: ScanId, task: TaskId, status: ScanStatus)
    requires scan in s.scans && t.scans == Marked(s, scan, status)
    requires t.tasks - {task} == s.tasks - {task}
    ensures OnlyTouches(s, t, scan, task) && t.scans[scan].status == status
  {
    assert forall u :: u in s.tasks && u != task ==> u in s.tasks - {task} && (s.tasks - {task})[u] == s.tasks[u];
    assert forall u :: u in t.tasks && u != task ==> u in t.tasks - {task} && (t.tasks - {task})[u] == t.tasks[u];
  }

  lemma ClaimTouches(s: State, task: TaskId, scan: ScanId)
    requires Rooted(s) && Enabled(s, Claim(task, scan))
    ensures Touches(s, Claim(task, scan), ClaimStep(s, task, scan))
  {
  }

  lemma TaskStepTouches(s: State, e: Event)
    requires Rooted(s) && TaskStep(e) && Enabled(s, e)
    ensures Touches(s, e, Next(s, e))
  {
    if e.Claim? {
      ClaimTouches(s, e.task, e.scan);
    } else if e.Conclude? {
      ConcludeTouches(s, e.task, e.outcome);
    } else if e.LoseAck? {
      LoseAckTouches(s, e.task, e.outcome);
    }
  }

  lemma OtherStepKeepsTasks(s: State, e: Event)
    requires Rooted(s) && Enabled(s, e) && !TaskStep(e)
    ensures Next(s, e).tasks == s.tasks
    ensures forall x :: x in s.scans ==> x in Next(s, e).scans && Next(s, e).scans[x] == s.scans[x]
  {
  }

  lemma TouchKeepsHeldOnce(s: State, t: State, scan: ScanId, task: TaskId)
    requires Rooted(s) && Rooted(t) && ScansHeldOnce(s) && OnlyTouches(s, t, scan, task)
    requires forall u :: u in s.tasks && u != task ==> s.tasks[u].scan != scan
    requires task in t.tasks ==>
      && t.tasks[task].scan == scan && t.scans[scan].version == t.tasks[task].version
      && t.scans[scan].status != Queued && StageFits(t.tasks[task].stage, t.scans[scan].status)
    ensures ScansHeldOnce(t)
  {
  }

  lemma NextKeepsScansHeldOnce(s: State, e: Event)
    requires Rooted(s) && ScansHeldOnce(s) && Enabled(s, e)
    ensures ScansHeldOnce(Next(s, e))
  {
    if TaskStep(e) {
      TaskStepTouches(s, e);
      TouchKeepsHeldOnce(s, Next(s, e), ScanOf(s, e), e.task);
    } else {
      OtherStepKeepsTasks(s, e);
    }
  }

  lemma DigestOfOne(s: State, t: State, v: VersionId)
    requires DigestsUnique(s) && v in s.versions && v in t.versions && t.versions.Keys == s.versions.Keys
    requires forall u :: u in s.versions && u != v ==> t.versions[u] == s.versions[u]
    requires t.versions[v].image == s.versions[v].image
    requires t.versions[v].digest == s.versions[v].digest ||
        (t.versions[v].digest.Some? && !DigestTaken(s, v, t.versions[v].digest.value))
    ensures DigestsUnique(t)
  {
  }

  lemma ConcludeKeepsDigests(s: State, task: TaskId, outcome: Outcome)
    requires Rooted(s) && DigestsUnique(s) && Enabled(s, Conclude(task, outcome))
    ensures DigestsUnique(ConcludeStep(s, task, outcome))
  {
    var t, x := ConcludeStep(s, task, outcome), s.tasks[task];
    if Passes(s, x, outcome) {
      assert t.versions == AfterSuccess(s, x, outcome.digest);
    } else {
      assert t.versions == AfterFailure(s, x);
    }
    DigestOfOne(s, t, x.version);
  }

  lemma NextKeepsDigests(s: State, e: Event)
    requires Rooted(s) && DigestsUnique(s) && Enabled(s, e)
    ensures DigestsUnique(Next(s, e))
  {
    if e.Claim? {
      ClaimKeepsDigests(s, e.task, e.scan);
    } else if e.Conclude? {
      ConcludeKeepsDigests(s, e.task, e.outcome);
    } else if e.LoseAck? {
      LoseAckKeepsDigests(s, e.task, e.outcome);
    } else if e.Operate? {
      DigestOfOne(s, Next(s, e), e.version);
    } else if e.Discover? {
      DiscoverKeepsDigests(s, e);
    } else if e.Import? {
      ImportKeepsDigests(s, e);
    } else {
      assert Next(s, e).versions == s.versions;
    }
  }

  lemma LoseAckKeepsDigests(s: State, task: TaskId, outcome: Outcome)
    requires Rooted(s) && DigestsUnique(s) && Enabled(s, LoseAck(task, outcome))
    ensures DigestsUnique(LoseAckStep(s, task, outcome))
  {
    DigestOfOne(s, LoseAckStep(s, task, outcome), s.tasks[task].version);
  }

  lemma ClaimKeepsDigests(s: State, task: TaskId, scan: ScanId)
    requires Rooted(s) && DigestsUnique(s) && Enabled(s, Claim(task, scan))
    ensures DigestsUnique(ClaimStep(s, task, scan))
  {
    DigestOfOne(s, ClaimStep(s, task, scan), s.scans[scan].version);
  }

  lemma DiscoverKeepsDigests(s: State, e: Event)
    requires Rooted(s) && DigestsUnique(s) && e.Discover? && Enabled(s, e)
    ensures DigestsUnique(DiscoverStep(s, e.tracked, e.digest, e.version, e.scan))
  {
  }

  lemma ImportKeepsDigests(s: State, e: Event)
    requires Rooted(s) && DigestsUnique(s) && e.Import? && Enabled(s, e)
    ensures DigestsUnique(Next(s, e))
  {
  }

  /** A task's step opens no scan. */
  lemma TouchOpensNothing(s: State, e: Event, t: State)
    requires Rooted(s) && ScansHeldOnce(s) && TaskStep(e) && Enabled(s, e) && Touches(s, e, t)
    ensures forall x :: x in t.scans ==> x in s.scans && t.scans[x].version == s.scans[x].version
    ensures forall x :: x in t.scans && Open(t.scans[x]) ==> Open(s.scans[x])
  {
    if !e.Claim? { assert StageFits(s.tasks[e.task].stage, s.scans[s.tasks[e.task].scan].status); }
  }

  lemma FewerOpenScans(s: State, t: State)
    requires SingleOpenScans(s)
    requires forall x :: x in t.scans && Open(t.scans[x]) ==>
      x in s.scans && Open(s.scans[x]) && t.scans[x].version == s.scans[x].version
    ensures SingleOpenScans(t)
  {
  }

  lemma NextKeepsSingleOpen(s: State, e: Event)
    requires Rooted(s) && ScansHeldOnce(s) && SingleOpenScans(s) && Enabled(s, e) && !e.Enqueue?
    ensures SingleOpenScans(Next(s, e))
  {
    if TaskStep(e) {
      TaskStepTouches(s, e);
      TouchOpensNothing(s, e, Next(s, e));
      FewerOpenScans(s, Next(s, e));
    } else if e.Rescan? {
      RescanKeepsSingleOpen(s, e);
    } else if e.Discover? {
      DiscoverKeepsSingleOpen(s, e);
    } else {
      assert Next(s, e).scans == s.scans;
    }
  }

  lemma DiscoverKeepsSingleOpen(s: State, e: Event)
    requires Rooted(s) && SingleOpenScans(s) && e.Discover? && Enabled(s, e)
    ensures SingleOpenScans(DiscoverStep(s, e.tracked, e.digest, e.version, e.scan))
  {
  }

  lemma RescanKeepsSingleOpen(s: State, e: Event)
    requires Rooted(s) && SingleOpenScans(s) && e.Rescan? && Enabled(s, e)
    ensures SingleOpenScans(Next(s, e))
  {
    var t := Next(s, e);
    forall x, y | x in t.scans && y in t.scans && x != y && Open(t.scans[x]) && Open(t.scans[y])
      ensures t.scans[x].version != t.scans[y].version
    {
      if x in e.added && y !in e.added { assert Due(s, e.stale, e.added[x]); }
      if y in e.added && x !in e.added { assert Due(s, e.stale, e.added[y]); }
    }
  }

  /**
   * Every scan is claimed by one task and concluded at most once; no digest appears twice in an image; and
   * unless somebody queues by hand, a version never has two scans open, however often the rescan runs.
   */
  lemma {:induction false} RunKeepsBooks(s0: State, es: seq<Event>)
    requires Rooted(s0) && ScansHeldOnce(s0) && DigestsUnique(s0) && Run(s0, es).Some?
    ensures ScansHeldOnce(Run(s0, es).value) && DigestsUnique(Run(s0, es).value)
    ensures SingleOpenScans(s0) && (forall k :: 0 <= k < |es| ==> !es[k].Enqueue?) ==>
        SingleOpenScans(Run(s0, es).value)
  {
    if es != [] {
      var before, e := es[..|es| - 1], es[|es| - 1];
      RunKeepsBooks(s0, before);
      var s := Run(s0, before).value;
      NextKeepsScansHeldOnce(s, e);
      NextKeepsDigests(s, e);
      assert e in es;
      if SingleOpenScans(s) && !e.Enqueue? { NextKeepsSingleOpen(s, e); }
      assert SingleOpenScans(s0) && (forall k :: 0 <= k < |es| ==> !es[k].Enqueue?) ==>
               forall k :: 0 <= k < |before| ==> !before[k].Enqueue? by {
        assert forall k :: 0 <= k < |before| ==> before[k] == es[k];
      }
    }
  }

  /** A task committed this success without learning of it. */
  ghost predicate Doubted(s: State, x: ScanId) {
    exists t :: t in s.tasks && s.tasks[t].stage == Doubting && s.tasks[t].scan == x
  }

  /** A concluded scan that nobody doubts. */
  ghost predicate Certain(s: State, x: ScanId) { x in s.scans && !Open(s.scans[x]) && !Doubted(s, x) }

  lemma TouchKeepsCertain(s: State, e: Event, t: State, x: ScanId)
    requires Rooted(s) && ScansHeldOnce(s) && Certain(s, x) && TaskStep(e) && Enabled(s, e) && Touches(s, e, t)
    ensures Certain(t, x) && t.scans[x] == s.scans[x]
  {
    if !e.Claim? { assert StageFits(s.tasks[e.task].stage, s.scans[s.tasks[e.task].scan].status); }
    assert ScanOf(s, e) != x || e.CancelJobs? || e.Abandon?;
  }

  lemma CertainStays(s: State, e: Event, x: ScanId)
    requires Rooted(s) && ScansHeldOnce(s) && Certain(s, x) && Enabled(s, e)
    ensures Certain(Next(s, e), x) && Next(s, e).scans[x] == s.scans[x]
  {
    if TaskStep(e) {
      TaskStepTouches(s, e);
      TouchKeepsCertain(s, e, Next(s, e), x);
    } else {
      OtherStepKeepsTasks(s, e);
    }
  }

  lemma {:induction false} CertainStaysForever(s0: State, es: seq<Event>, x: ScanId)
    requires Rooted(s0) && ScansHeldOnce(s0) && DigestsUnique(s0) && Certain(s0, x) && Run(s0, es).Some?
    ensures Certain(Run(s0, es).value, x) && Run(s0, es).value.scans[x] == s0.scans[x]
  {
    if es != [] {
      var before, e := es[..|es| - 1], es[|es| - 1];
      CertainStaysForever(s0, before, x);
      RunKeepsBooks(s0, before);
      CertainStays(Run(s0, before).value, e, x);
    }
  }

  ghost predicate Reverses(s0: State, es: seq<Event>, x: ScanId)
    requires Rooted(s0)
  {
    Run(s0, es).Some? && x in s0.scans && x in Run(s0, es).value.scans && Run(s0, es).value.scans[x] != s0.scans[x]
  }

  /**
   * The verdict of a concluded scan can still change if and only if it is a success whose task lost the
   * acknowledgement of its commit: that task goes on to report a failure.
   */
  lemma VerdictChangesIff(s0: State, x: ScanId)
    requires Rooted(s0) && ScansHeldOnce(s0) && DigestsUnique(s0) && x in s0.scans && !Open(s0.scans[x])
    ensures (exists es :: Reverses(s0, es, x)) <==> Doubted(s0, x)
  {
    if Doubted(s0, x) {
      var t :| t in s0.tasks && s0.tasks[t].stage == Doubting && s0.tasks[t].scan == x;
      var e := Conclude(t, Broken);
      assert StageFits(s0.tasks[t].stage, s0.scans[x].status);
      assert Run(s0, []) == Some(s0);
      RunOne(s0, [], e);
      assert [] + [e] == [e];
      assert ConcludeStep(s0, t, Broken).scans[x].status == Failed;
      assert Reverses(s0, [e], x);
    } else {
      forall es
        ensures !Reverses(s0, es, x)
      {
        if Reverses(s0, es, x) { CertainStaysForever(s0, es, x); }
      }
    }
  }

  /** A scan taken by a worker that is gone. */
  ghost predicate Orphaned(s: State, x: ScanId, v: VersionId) {
    && x in s.scans && s.scans[x].version == v && (s.scans[x].status == Claimed || s.scans[x].status == Running)
    && forall t :: t in s.tasks ==> s.tasks[t].scan != x
  }

  lemma TouchKeepsOrphan(s: State, e: Event, t: State, x: ScanId, v: VersionId)
    requires Rooted(s) && Orphaned(s, x, v) && TaskStep(e) && Enabled(s, e) && Touches(s, e, t)
    ensures Orphaned(t, x, v)
  {
    OrphanIsNotTouched(s, e, x, v);
  }

  lemma OrphanIsNotTouched(s: State, e: Event, x: ScanId, v: VersionId)
    requires Rooted(s) && Orphaned(s, x, v) && TaskStep(e) && Enabled(s, e)
    ensures ScanOf(s, e) != x
  {
  }

  lemma OrphanStays(s: State, e: Event, x: ScanId, v: VersionId)
    requires Rooted(s) && Orphaned(s, x, v) && Enabled(s, e)
    ensures Orphaned(Next(s, e), x, v) && (e.Rescan? ==> v !in e.added.Values)
  {
    if TaskStep(e) {
      TaskStepTouches(s, e);
      TouchKeepsOrphan(s, e, Next(s, e), x, v);
    } else {
      OtherStepKeepsTasks(s, e);
      if e.Rescan? { assert HasOpenScan(s, v); }
    }
  }

  /** Nothing takes such a scan up again, and while it stands the periodic rescan passes the version over. */
  lemma {:induction false} OrphanedScanStopsRescans(s0: State, es: seq<Event>, x: ScanId, v: VersionId)
    requires Rooted(s0) && Orphaned(s0, x, v) && Run(s0, es).Some?
    ensures Orphaned(Run(s0, es).value, x, v)
    ensures forall k :: 0 <= k < |es| && es[k].Rescan? ==> v !in es[k].added.Values
  {
    if es != [] {
      var before, e := es[..|es| - 1], es[|es| - 1];
      OrphanedScanStopsRescans(s0, before, x, v);
      var s := Run(s0, before).value;
      OrphanStays(s, e, x, v);
      forall k | 0 <= k < |es| && es[k].Rescan? ensures v !in es[k].added.Values {
        if k < |before| { assert es[k] == before[k]; }
      }
    }
  }

  // ----- When a version can still be rescanned -----------------------------------------------------------

  /** A worker that claims a scan and goes away leaves an orphan. */
  lemma AbandonedClaimIsOrphan(s: State, task: TaskId, scan: ScanId)
    requires Rooted(s) && ScansHeldOnce(s) && Enabled(s, Claim(task, scan))
    ensures Run(s, [Claim(task, scan), Abandon(task)]).Some?
    ensures Orphaned(Run(s, [Claim(task, scan), Abandon(task)]).value, scan, s.scans[scan].version)
  {
    var a, b := Claim(task, scan), Abandon(task);
    ClaimTouches(s, task, scan);
    assert Run(s, []) == Some(s);
    RunOne(s, [], a);
    assert [] + [a] == [a];
    RunOne(s, [a], b);
    assert [a] + [b] == [a, b];
  }

  lemma {:induction false} RunConcat(s: State, a: seq<Event>, b: seq<Event>)
    requires Rooted(s) && Run(s, a).Some? && Run(Run(s, a).value, b).Some?
    ensures Run(s, a + b) == Run(Run(s, a).value, b)
  {
    if b == [] {
      assert a + b == a;
    } else {
      var init, e := b[..|b| - 1], b[|b| - 1];
      assert b == init + [e];
      RunConcat(s, a, init);
      RunOne(s, a + init, e);
      assert a + b == a + init + [e];
    }
  }

  lemma Above(ids: set<nat>) returns (n: nat)
    ensures forall i :: i in ids ==> i < n
  {
    if ids == {} {
      n := 0;
    } else {
      var m :| m in ids;
      var k := Above(ids - {m});
      n := if k <= m then m + 1 else k;
      assert forall i :: i in ids && i != m ==> i in ids - {m};
    }
  }

  lemma FreshDigest(taken: set<Digest>) returns (digest: Digest)
    ensures digest !in taken
  {
    var lengths := set d | d in taken :: |d|;
    var n := Above(lengths);
    digest := seq(n, i => 'x');
    assert digest in taken ==> |digest| in lengths;
  }

  function OpenScans(s: State, v: VersionId): set<ScanId> {
    set x | x in s.scans && s.scans[x].version == v && Open(s.scans[x])
  }

  /** A trusted version without an orphaned scan, in a state with its books in order. */
  ghost predicate Ready(s: State, v: VersionId)
    requires Rooted(s)
  {
    && ScansHeldOnce(s) && DigestsUnique(s)
    && v in s.versions && s.versions[v].trust == Trusted && !RetiredOf(s, v)
    && forall x :: !Orphaned(s, x, v)
  }

  lemma ClaimOpensNothing(s: State, v: VersionId, task: TaskId, x: ScanId)
    requires Rooted(s) && Enabled(s, Claim(task, x))
    ensures OpenScans(ClaimStep(s, task, x), v) == OpenScans(s, v)
  {
    ClaimTouches(s, task, x);
  }

  lemma ClaimKeepsReady(s: State, v: VersionId, task: TaskId, x: ScanId)
    requires Rooted(s) && Ready(s, v) && Enabled(s, Claim(task, x)) && s.scans[x].version == v
    ensures var t := ClaimStep(s, task, x);
      && Ready(t, v) && OpenScans(t, v) == OpenScans(s, v)
      && task in t.tasks && t.tasks[task].version == v && t.tasks[task].stage == Inspecting && t.tasks[task].scan == x
  {
    NextKeepsScansHeldOnce(s, Claim(task, x));
    ClaimKeepsDigests(s, task, x);
    ClaimOpensNothing(s, v, task, x);
    forall y ensures !Orphaned(ClaimStep(s, task, x), y, v) {
      assert !Orphaned(s, y, v);
      ClaimLeavesNoOrphan(s, v, task, x, y);
    }
    ClaimRow(s, task, x, v);
  }

  /** A task on the version can always find nothing, under the version's own digest or a new one. */
  lemma CleanOutcome(s: State, v: VersionId, task: TaskId) returns (outcome: Outcome)
    requires Rooted(s) && Ready(s, v) && task in s.tasks && s.tasks[task].version == v
    ensures outcome.Inspected? && Passes(s, s.tasks[task], outcome)
  {
    var digest: Digest;
    if s.versions[v].digest.Some? {
      digest := s.versions[v].digest.value;
    } else {
      digest := FreshDigest(set u | u in s.versions && s.versions[u].digest.Some? :: s.versions[u].digest.value);
      assert forall u :: u in s.versions ==> s.versions[u].digest != Some(digest);
    }
    outcome := Inspected(0, 0, digest);
  }

  /** A step of one task leaves no other scan without its holder. */
  lemma TouchLeavesNoOrphan(s: State, t: State, v: VersionId, scan: ScanId, task: TaskId, y: ScanId)
    requires OnlyTouches(s, t, scan, task) && !Orphaned(s, y, v) && y != scan
    requires task in s.tasks ==> s.tasks[task].scan == scan
    ensures !Orphaned(t, y, v)
  {
    if y in s.scans && (exists u :: u in s.tasks && s.tasks[u].scan == y) {
      var u :| u in s.tasks && s.tasks[u].scan == y;
      assert u in t.tasks && t.tasks[u].scan == y;
    }
  }

  lemma ConcludeLeavesNoOrphan(s: State, v: VersionId, task: TaskId, outcome: Outcome, y: ScanId)
    requires Rooted(s) && Enabled(s, Conclude(task, outcome)) && !Orphaned(s, y, v)
    ensures !Orphaned(ConcludeStep(s, task, outcome), y, v)
  {
    ConcludeTouches(s, task, outcome);
    if y != s.tasks[task].scan {
      TouchLeavesNoOrphan(s, ConcludeStep(s, task, outcome), v, s.tasks[task].scan, task, y);
    }
  }

  lemma ClaimLeavesNoOrphan(s: State, v: VersionId, task: TaskId, x: ScanId, y: ScanId)
    requires Rooted(s) && Enabled(s, Claim(task, x)) && !Orphaned(s, y, v)
    ensures !Orphaned(ClaimStep(s, task, x), y, v)
  {
    ClaimTouches(s, task, x);
    if y != x { TouchLeavesNoOrphan(s, ClaimStep(s, task, x), v, x, task, y); }
  }

  lemma ConcludeCloses(s: State, v: VersionId, task: TaskId, outcome: Outcome)
    requires Rooted(s) && ScansHeldOnce(s) && Enabled(s, Conclude(task, outcome))
    requires s.tasks[task].version == v && s.tasks[task].stage == Inspecting
    ensures OpenScans(ConcludeStep(s, task, outcome), v) == OpenScans(s, v) - {s.tasks[task].scan}
    ensures s.tasks[task].scan in OpenScans(s, v)
  {
    ConcludeTouches(s, task, outcome);
    assert StageFits(s.tasks[task].stage, s.scans[s.tasks[task].scan].status);
  }

  lemma ConcludeKeepsReady(s: State, v: VersionId, task: TaskId, outcome: Outcome)
    requires Rooted(s) && Ready(s, v) && Enabled(s, Conclude(task, outcome)) && s.tasks[task].version == v
    requires Passes(s, s.tasks[task], outcome)
    ensures Ready(ConcludeStep(s, task, outcome), v)
  {
    NextKeepsScansHeldOnce(s, Conclude(task, outcome));
    ConcludeKeepsDigests(s, task, outcome);
    forall y ensures !Orphaned(ConcludeStep(s, task, outcome), y, v) {
      assert !Orphaned(s, y, v);
      ConcludeLeavesNoOrphan(s, v, task, outcome, y);
    }
    assert ConcludeStep(s, task, outcome).versions == AfterSuccess(s, s.tasks[task], outcome.digest);
  }

  predicate ScanEvents(es: seq<Event>) { forall k :: 0 <= k < |es| ==> es[k].Claim? || es[k].Conclude? }

  lemma FinishHeld(s: State, v: VersionId, task: TaskId) returns (es: seq<Event>)
    requires Rooted(s) && Ready(s, v) && task in s.tasks && s.tasks[task].version == v &&
        s.tasks[task].stage == Inspecting
    ensures Run(s, es).Some? && Ready(Run(s, es).value, v) && ScanEvents(es)
    ensures OpenScans(Run(s, es).value, v) == OpenScans(s, v) - {s.tasks[task].scan}
    ensures s.tasks[task].scan in OpenScans(s, v)
  {
    var outcome := CleanOutcome(s, v, task);
    ConcludeKeepsReady(s, v, task, outcome);
    ConcludeCloses(s, v, task, outcome);
    assert Run(s, []) == Some(s);
    RunOne(s, [], Conclude(task, outcome));
    es := [] + [Conclude(task, outcome)];
  }

  lemma TakeQueued(s: State, v: VersionId, x: ScanId) returns (task: TaskId)
    requires Rooted(s) && Ready(s, v) && x in OpenScans(s, v) && s.scans[x].status == Queued
    ensures Enabled(s, Claim(task, x)) && Run(s, [Claim(task, x)]) == Some(ClaimStep(s, task, x))
  {
    task := Above(s.tasks.Keys);
    assert Run(s, []) == Some(s);
    RunOne(s, [], Claim(task, x));
    assert [] + [Claim(task, x)] == [Claim(task, x)];
  }

  /** One open scan of the version is brought to its end. */
  lemma FinishOne(s: State, v: VersionId, x: ScanId) returns (es: seq<Event>)
    requires Rooted(s) && Ready(s, v) && x in OpenScans(s, v)
    ensures Run(s, es).Some? && Ready(Run(s, es).value, v) && ScanEvents(es)
    ensures OpenScans(Run(s, es).value, v) == OpenScans(s, v) - {x}
  {
    if s.scans[x].status == Queued {
      var task := TakeQueued(s, v, x);
      ClaimKeepsReady(s, v, task, x);
      var rest := FinishHeld(ClaimStep(s, task, x), v, task);
      RunConcat(s, [Claim(task, x)], rest);
      es := [Claim(task, x)] + rest;
    } else {
      var task := HolderOf(s, v, x);
      es := FinishHeld(s, v, task);
    }
  }

  lemma HolderOf(s: State, v: VersionId, x: ScanId) returns (task: TaskId)
    requires Rooted(s) && Ready(s, v) && x in OpenScans(s, v) && s.scans[x].status != Queued
    ensures task in s.tasks && s.tasks[task].scan == x && s.tasks[task].version == v &&
        s.tasks[task].stage == Inspecting
  {
    assert !Orphaned(s, x, v);
    task :| task in s.tasks && s.tasks[task].scan == x;
    assert StageFits(s.tasks[task].stage, s.scans[x].status);
  }

  lemma {:induction false} FinishAll(s: State, v: VersionId) returns (es: seq<Event>)
    requires Rooted(s) && Ready(s, v)
    ensures Run(s, es).Some? && Ready(Run(s, es).value, v) && ScanEvents(es)
    ensures OpenScans(Run(s, es).value, v) == {}
    decreases |OpenScans(s, v)|
  {
    if OpenScans(s, v) == {} {
      es := [];
    } else {
      var x :| x in OpenScans(s, v);
      var first := FinishOne(s, v, x);
      var rest := FinishAll(Run(s, first).value, v);
      RunConcat(s, first, rest);
      es := first + rest;
    }
  }

  /** A run without operators and hand-made scans that ends in a rescan of the version. */
  ghost predicate RescannedBy(s: State, es: seq<Event>, v: VersionId)
    requires Rooted(s)
  {
    && Run(s, es).Some? && ByScannersAlone(es)
    && es != [] && es[|es| - 1].Rescan? && v in es[|es| - 1].added.Values
  }

  /**
   * One pass of the periodic rescan queues one scan, without restoring trust, for exactly the versions that are
   * old enough and in use, trusted, of an image still offered, and have no scan queued or under way.
   */
  lemma RescanPicks(s: State, stale: set<VersionId>, added: map<ScanId, VersionId>)
    requires Rooted(s) && Enabled(s, Rescan(stale, added))
    ensures forall v :: v in added.Values <==>
              && v in stale && v in s.versions && s.versions[v].trust == Trusted
              && !s.images[s.versions[v].image].retired
              && forall x :: x in s.scans && s.scans[x].version == v ==> s.scans[x].status in {Succeeded, Failed}
    ensures forall x, y :: x in added && y in added && added[x] == added[y] ==> x == y
    ensures var t := Next(s, Rescan(stale, added));
      && t.versions == s.versions && t.tasks == s.tasks && t.jobs == s.jobs && added.Keys !! s.scans.Keys
      && t.scans.Keys == s.scans.Keys + added.Keys && (forall x :: x in s.scans ==> t.scans[x] == s.scans[x])
      && (forall x :: x in added ==> t.scans[x] == Scan(added[x], false, Queued))
  {
    forall v ensures v in added.Values <==> Due(s, stale, v) {}
    forall v | v in s.versions { OpenScanMeans(s, v); }
    RescanAdds(s, stale, added);
  }

  lemma OpenScanMeans(s: State, v: VersionId)
    ensures HasOpenScan(s, v) <==>
            !forall x :: x in s.scans && s.scans[x].version == v ==> s.scans[x].status in {Succeeded, Failed}
  {
    assert forall x :: x in s.scans ==> (Open(s.scans[x]) <==> s.scans[x].status !in {Succeeded, Failed});
  }

  lemma RescanAdds(s: State, stale: set<VersionId>, added: map<ScanId, VersionId>)
    requires Rooted(s) && Enabled(s, Rescan(stale, added))
    ensures forall x, y :: x in added && y in added && added[x] == added[y] ==> x == y
    ensures var t := Next(s, Rescan(stale, added));
      && t.versions == s.versions && t.tasks == s.tasks && t.jobs == s.jobs && added.Keys !! s.scans.Keys
      && t.scans.Keys == s.scans.Keys + added.Keys && (forall x :: x in s.scans ==> t.scans[x] == s.scans[x])
      && (forall x :: x in added ==> t.scans[x] == Scan(added[x], false, Queued))
  {
  }

  /**
   * A digest found behind the tag of a trusted version still offered, other than its own, becomes a version of
   * the same image, in quarantine and queued for a scan, unless the image has that digest already.
   */
  lemma DiscoverAdds(s: State, tracked: VersionId, digest: Digest, version: VersionId, scan: ScanId)
    requires Rooted(s) && Enabled(s, Discover(tracked, digest, version, scan))
    ensures s.versions[tracked].trust == Trusted && s.versions[tracked].digest != Some(digest)
    ensures !s.images[s.versions[tracked].image].retired
    ensures var image, t := s.versions[tracked].image, Next(s, Discover(tracked, digest, version, scan));
      if exists u :: u in s.versions && s.versions[u].image == image && s.versions[u].digest == Some(digest) then t == s
      else
        && version !in s.versions && scan !in s.scans && t.tasks == s.tasks && t.jobs == s.jobs
        && t.versions == s.versions[version := Version(image, Some(digest), Quarantined)]
        && t.scans == s.scans[scan := Scan(version, false, Queued)]
  {
  }

  predicate ByScannersAlone(es: seq<Event>) { forall k :: 0 <= k < |es| ==> !es[k].Operate? && !es[k].Enqueue? }

  /**
   * The periodic rescan can still reach a trusted version that is not retired, by the work of scanners alone,
   * if and only if the version has no orphaned scan.
   */
  lemma RescanReachesIff(s: State, v: VersionId)
    requires Rooted(s) && ScansHeldOnce(s) && DigestsUnique(s)
    requires v in s.versions && s.versions[v].trust == Trusted && !RetiredOf(s, v)
    ensures (exists es :: RescannedBy(s, es, v)) <==> !(exists x :: Orphaned(s, x, v))
  {
    if exists x :: Orphaned(s, x, v) {
      var x :| Orphaned(s, x, v);
      forall es ensures !RescannedBy(s, es, v) { OrphanIsNotRescanned(s, es, x, v); }
    } else {
      var es := ReadyIsRescanned(s, v);
    }
  }

  lemma OrphanIsNotRescanned(s: State, es: seq<Event>, x: ScanId, v: VersionId)
    requires Rooted(s) && Orphaned(s, x, v)
    ensures !RescannedBy(s, es, v)
  {
    if Run(s, es).Some? { OrphanedScanStopsRescans(s, es, x, v); }
  }

  lemma ReadyIsRescanned(s: State, v: VersionId) returns (es: seq<Event>)
    requires Rooted(s) && Ready(s, v)
    ensures RescannedBy(s, es, v)
  {
    var first := FinishAll(s, v);
    var e := RescanIsEnabled(Run(s, first).value, v);
    RunOne(s, first, e);
    es := first + [e];
    ScanEventsThenRescan(first, e);
  }

  lemma ScanEventsThenRescan(es: seq<Event>, e: Event)
    requires ScanEvents(es) && e.Rescan?
    ensures ByScannersAlone(es + [e])
  {
  }

  lemma RescanIsEnabled(s: State, v: VersionId) returns (e: Event)
    requires Rooted(s) && Ready(s, v) && OpenScans(s, v) == {}
    ensures e.Rescan? && v in e.added.Values && Enabled(s, e)
  {
    var scan := Above(s.scans.Keys);
    e := Rescan({v}, map[scan := v]);
    assert e.added[scan] == v && v in e.added.Values;
    assert forall y :: y in s.scans && s.scans[y].version == v && Open(s.scans[y]) ==> y in OpenScans(s, v);
  }
}

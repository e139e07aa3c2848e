/**
 * Heartbeats that renew a Job's lease (apps/scheduler/src/attempt-lease.ts), running against the
 * guarded terminal transition (apps/scheduler/src/core.ts) and any other writer of the same rows.
 *
 * The scheduler's closures are interleaved at their awaits; a renewal transaction is taken apart at its
 * row locks.  Row locks have the database's meaning: a locked row is changed by its holder only, and
 * an attempt row can be added to a Job only while the Job row is unlocked, because it references it.
 */
module AttemptLease {
  import opened Options

  type JobId = string
  type RegId = nat
  type TickId = nat

  datatype Owner = Owner(job: JobId, attempt: string, sandbox: string)

  datatype JobStatus = Pending | Claimed | Provisioning | Running | WaitingHuman
    | Succeeded | Failed | Timeout | Cancelled | Orphan

  datatype Job = Job(status: JobStatus, sandbox: Option<string>)

  datatype Attempt = Attempt(id: string, active: bool, cancelRequested: bool, sandbox: Option<string>)

  /** The lifecycle policy (apps/scheduler/src/domains/job-lifecycle/transition-policy.ts): a success or a
      cancellation is final, any other ending can only be resumed to pending. */
  predicate MayBecome(from: JobStatus, to: JobStatus) {
    match from
    case Succeeded => to.Succeeded?
    case Cancelled => to.Cancelled?
    case Failed => to.Failed? || to.Pending?
    case Timeout => to.Timeout? || to.Pending?
    case Orphan => to.Orphan? || to.Pending?
    case _ => true
  }

  predicate Ended(s: JobStatus) {
    s in {Succeeded, Failed, Timeout, Cancelled, Orphan}
  }

  /** What ended stays as it is, except that a failure, a timeout or an orphan may be resumed. */
  lemma PolicyIs(from: JobStatus, to: JobStatus)
    ensures MayBecome(from, to) <==> from == to || !Ended(from) || (to == Pending && from in {Failed, Timeout, Orphan})
    ensures !Ended(from) <==> from in {Pending, Claimed, Provisioning, Running, WaitingHuman}
  {
  }

  /** A tick between two awaits. */
  datatype Phase =
    | Probing          // isAlive is pending
    | Starting         // the transaction has begun and waits for the Job row
    | JobLocked        // the Job row is locked and was accepted
    | AttemptLocked    // the latest attempt row is locked and was accepted

  datatype Tick = Tick(reg: RegId, phase: Phase)

  /** One call of `start`: its closure's variables. */
  datatype Registration = Registration(owner: Owner, timer: bool, busy: bool)

  /** What happened to a Job's row. */
  datatype Note =
    | Renewed(owner: Owner, job: Job, latest: Attempt)
    | Finalized(jobId: JobId, status: JobStatus, closed: set<string>)   // with the attempts it closed
    | Resumed(jobId: JobId)

  datatype State = State(
    regs: map<RegId, Registration>,
    current: map<Owner, RegId>,           // the `registrations` map
    ticks: map<TickId, Tick>,
    jobs: map<JobId, Job>,
    attempts: map<JobId, seq<Attempt>>,   // by attempt number, the latest last
    jobLocks: map<JobId, TickId>,
    attemptLocks: map<JobId, TickId>,     // on the latest attempt's row
    log: seq<Note>)

  datatype Event =
    | Start(owner: Owner, reg: RegId)
    | Stop(reg: RegId)                       // the closure `start` returned, called at any time
    | StopAll
    | TimerFires(reg: RegId, tick: TickId)
    | ProbeEnds(tick: TickId, alive: bool)
    | LockJob(tick: TickId)
    | LockAttempt(tick: TickId)
    | Extend(tick: TickId)                   // the guarded UPDATE and the commit
    | Break(tick: TickId)                    // an error anywhere after the probe: rollback
    | Finalize(jobId: JobId, status: JobStatus)
    | WriteJob(jobId: JobId, job: Job)
    | WriteAttempt(jobId: JobId, index: nat, attempt: Attempt)
    | AddAttempt(jobId: JobId, attempt: Attempt)

  predicate IsCurrent(s: State, reg: RegId) {
    && reg in s.regs
    && s.regs[reg].owner in s.current && s.current[s.regs[reg].owner] == reg
  }

  /** `registration.stop`: only its own entry is removed. */
  function Stopped(s: State, reg: RegId): State
    requires reg in s.regs
  {
    s.(regs := s.regs[reg := s.regs[reg].(timer := false)],
       current := if IsCurrent(s, reg) then s.current - {s.regs[reg].owner} else s.current)
  }

  /** The tick's `finally`, after the transaction has let go of its rows. */
  function Finished(s: State, t: TickId): State
    requires t in s.ticks && s.ticks[t].reg in s.regs
  {
    var reg := s.ticks[t].reg;
    s.(ticks := s.ticks - {t},
       regs := s.regs[reg := s.regs[reg].(busy := false)],
       jobLocks := map j | j in s.jobLocks && s.jobLocks[j] != t :: s.jobLocks[j],
       attemptLocks := map j | j in s.attemptLocks && s.attemptLocks[j] != t :: s.attemptLocks[j])
  }

  predicate JobAccepts(s: State, o: Owner) {
    o.job in s.jobs && s.jobs[o.job].status.Running? && s.jobs[o.job].sandbox == Some(o.sandbox)
  }

  predicate HasAttempt(s: State, job: JobId) {
    job in s.attempts && s.attempts[job] != []
  }

  function Latest(s: State, job: JobId): Attempt
    requires HasAttempt(s, job)
  {
    s.attempts[job][|s.attempts[job]|-1]
  }

  predicate AttemptAccepts(s: State, o: Owner) {
    && HasAttempt(s, o.job)
    && var a := Latest(s, o.job);
       a.id == o.attempt && a.active && !a.cancelRequested && a.sandbox == Some(o.sandbox)
  }

  function OwnerOf(s: State, t: TickId): Owner
    requires t in s.ticks && s.ticks[t].reg in s.regs
  {
    s.regs[s.ticks[t].reg].owner
  }

  predicate Live(s: State, t: TickId) { t in s.ticks && s.ticks[t].reg in s.regs }

  function AttemptIds(s: State, job: JobId): set<string> {
    if job in s.attempts then set a | a in s.attempts[job] :: a.id else {}
  }

  /** The terminal settlement of a Job's attempts leaves none active. */
  function Closed(attempts: seq<Attempt>): seq<Attempt> {
    seq(|attempts|, i requires 0 <= i < |attempts| => attempts[i].(active := false))
  }

  predicate Enabled(s: State, e: Event) {
    match e
    case Start(_, reg) => reg !in s.regs
    case Stop(reg) => reg in s.regs
    case StopAll => forall o :: o in s.current ==> s.current[o] in s.regs
    case TimerFires(reg, t) => reg in s.regs && s.regs[reg].timer && t !in s.ticks
    case ProbeEnds(t, _) => Live(s, t) && s.ticks[t].phase.Probing?
    case LockJob(t) => Live(s, t) && s.ticks[t].phase.Starting? && OwnerOf(s, t).job !in s.jobLocks
    case LockAttempt(t) => Live(s, t) && s.ticks[t].phase.JobLocked? && OwnerOf(s, t).job !in s.attemptLocks
    case Extend(t) => Live(s, t) && s.ticks[t].phase.AttemptLocked?
    case Break(t) => Live(s, t) && !s.ticks[t].phase.Probing?
    case Finalize(j, status) => j in s.jobs && j !in s.jobLocks && j !in s.attemptLocks && status in {Succeeded, Failed}
    case WriteJob(j, job) => j !in s.jobLocks && (j in s.jobs ==> MayBecome(s.jobs[j].status, job.status))
    case WriteAttempt(j, i, a) =>
      // An attempt keeps its id, and one that is over stays over.
      && HasAttempt(s, j) && i < |s.attempts[j]| && (i == |s.attempts[j]| - 1 ==> j !in s.attemptLocks)
      && a.id == s.attempts[j][i].id && (a.active ==> s.attempts[j][i].active)
    case AddAttempt(j, a) => j !in s.jobLocks && a.id !in AttemptIds(s, j)
  }

  function StopEvery(s: State): State
    requires forall o :: o in s.current ==> s.current[o] in s.regs
  {
    var stopped := set o | o in s.current :: s.current[o];
    s.(regs := map r | r in s.regs :: if r in stopped then s.regs[r].(timer := false) else s.regs[r],
       current := map[])
  }

  function Next(s: State, e: Event): State
    requires Enabled(s, e)
  {
    match e
    case Start(o, reg) =>
      var cleared := if o in s.current && s.current[o] in s.regs then Stopped(s, s.current[o]) else s;
      cleared.(regs := cleared.regs[reg := Registration(o, true, false)], current := cleared.current[o := reg])
    case Stop(reg) => Stopped(s, reg)
    case StopAll => StopEvery(s)
    case TimerFires(reg, t) =>
      if !IsCurrent(s, reg) || s.regs[reg].busy then s
      else s.(regs := s.regs[reg := s.regs[reg].(busy := true)], ticks := s.ticks[t := Tick(reg, Probing)])
    case ProbeEnds(t, alive) =>
      if !alive || !IsCurrent(s, s.ticks[t].reg) then Finished(s, t)
      else s.(ticks := s.ticks[t := s.ticks[t].(phase := Starting)])
    case LockJob(t) =>
      var o := OwnerOf(s, t);
      if IsCurrent(s, s.ticks[t].reg) && JobAccepts(s, o) then
        s.(ticks := s.ticks[t := s.ticks[t].(phase := JobLocked)], jobLocks := s.jobLocks[o.job := t])
      else Stopped(Finished(s, t), s.ticks[t].reg)
    case LockAttempt(t) =>
      var o := OwnerOf(s, t);
      if IsCurrent(s, s.ticks[t].reg) && AttemptAccepts(s, o) then
        s.(ticks := s.ticks[t := s.ticks[t].(phase := AttemptLocked)], attemptLocks := s.attemptLocks[o.job := t])
      else Stopped(Finished(s, t), s.ticks[t].reg)
    case Extend(t) =>
      var o := OwnerOf(s, t);
      if JobAccepts(s, o) && HasAttempt(s, o.job) then
        Finished(s, t).(log := s.log + [Renewed(o, s.jobs[o.job], Latest(s, o.job))])
      else Stopped(Finished(s, t), s.ticks[t].reg)
    case Break(t) => Finished(s, t)
    case Finalize(j, status) =>
      if s.jobs[j].status.Running? then
        s.(jobs := s.jobs[j := s.jobs[j].(status := status)],
           attempts := if j in s.attempts then s.attempts[j := Closed(s.attempts[j])] else s.attempts,
           log := s.log + [Finalized(j, status, AttemptIds(s, j))])
      else s
    case WriteJob(j, job) =>
      var resumed := j in s.jobs && Ended(s.jobs[j].status) && !Ended(job.status);
      s.(jobs := s.jobs[j := job], log := if resumed then s.log + [Resumed(j)] else s.log)
    case WriteAttempt(j, i, a) => s.(attempts := s.attempts[j := s.attempts[j][i := a]])
    case AddAttempt(j, a) =>
      s.(attempts := s.attempts[j := (if j in s.attempts then s.attempts[j] else []) + [a]])
  }

  const INIT := State(map[], map[], map[], map[], map[], map[], map[], [])

  function Run(es: seq<Event>): Option<State> {
    if es == [] then Some(INIT)
    else
      match Run(es[..|es|-1])
      case None => None
      case Some(s) => if Enabled(s, es[|es|-1]) then Some(Next(s, es[|es|-1])) else None
  }

  // ---------- What every step keeps ----------

  /** Closures, timers and the `registrations` map agree. */
  predicate Registered(s: State) {
    && (forall o :: o in s.current ==>
      s.current[o] in s.regs && s.regs[s.current[o]].owner == o && s.regs[s.current[o]].timer)
    && (forall r :: r in s.regs && s.regs[r].timer ==> IsCurrent(s, r))
    && (forall t :: t in s.ticks ==> s.ticks[t].reg in s.regs && s.regs[s.ticks[t].reg].busy)
    && (forall t, u :: t in s.ticks && u in s.ticks && s.ticks[t].reg == s.ticks[u].reg ==> t == u)
  }

  /** The rows this tick holds, and what it has seen in them. */
  predicate Holds(s: State, t: TickId)
    requires Live(s, t)
  {
    var o, p := OwnerOf(s, t), s.ticks[t].phase;
    && (p in {JobLocked, AttemptLocked} ==> o.job in s.jobLocks && s.jobLocks[o.job] == t && JobAccepts(s, o))
    && (p.AttemptLocked? ==> o.job in s.attemptLocks && s.attemptLocks[o.job] == t && AttemptAccepts(s, o))
  }

  predicate Locked(s: State) {
    forall t :: t in s.ticks ==> Live(s, t) && Holds(s, t)
  }

  predicate ResumedAfter(s: State, i: nat, job: JobId) {
    exists m :: i < m < |s.log| && s.log[m] == Resumed(job)
  }

  /** A Job finalized stays ended until it is resumed, and a success for good; the attempts closed with it
      stay closed. */
  predicate Settled(s: State) {
    forall i :: 0 <= i < |s.log| && s.log[i].Finalized? ==>
      var n := s.log[i];
      && n.jobId in s.jobs && n.closed <= AttemptIds(s, n.jobId)
      && (n.status.Succeeded? ==> s.jobs[n.jobId].status.Succeeded?)
      && (Ended(s.jobs[n.jobId].status) || ResumedAfter(s, i, n.jobId))
      && (forall k ::
            n.jobId in s.attempts && 0 <= k < |s.attempts[n.jobId]| && s.attempts[n.jobId][k].id in n.closed ==>
            !s.attempts[n.jobId][k].active)
  }

  predicate About(n: Note, job: JobId) {
    match n
    case Renewed(o, _, _) => o.job == job
    case Finalized(j, _, _) => j == job
    case Resumed(j) => j == job
  }

  /** What may follow a finalization in the log. */
  predicate PairInOrder(log: seq<Note>, i: nat, k: nat)
    requires i < k < |log| && log[i].Finalized?
  {
    && !log[i].status.Succeeded?
    && (log[k].Resumed? || exists m :: i < m < k && log[m] == Resumed(log[i].jobId))
    && (log[k].Renewed? ==> log[k].latest.id !in log[i].closed)
  }

  predicate OrderedLog(log: seq<Note>) {
    forall i, k :: 0 <= i < k < |log| && log[i].Finalized? && About(log[k], log[i].jobId) ==> PairInOrder(log, i, k)
  }

  predicate Ordered(s: State) { OrderedLog(s.log) }

  /** The conditions under which an extension may commit. */
  predicate Rightful(n: Note)
    requires n.Renewed?
  {
    && n.job.status.Running? && n.job.sandbox == Some(n.owner.sandbox)
    && n.latest.id == n.owner.attempt && n.latest.active && !n.latest.cancelRequested
    && n.latest.sandbox == Some(n.owner.sandbox)
  }

  predicate Inv(s: State) {
    && Registered(s) && Locked(s) && Settled(s) && Ordered(s)
    && forall i :: 0 <= i < |s.log| && s.log[i].Renewed? ==> Rightful(s.log[i])
  }

  lemma StoppedKeepsRegistered(s: State, reg: RegId)
    requires Registered(s) && reg in s.regs
    ensures Registered(Stopped(s, reg))
  {
    var s' := Stopped(s, reg);
    forall r | r in s'.regs && s'.regs[r].timer
      ensures IsCurrent(s', r)
    {
      assert IsCurrent(s, r);
    }
  }

  lemma FinishedKeepsRegistered(s: State, t: TickId)
    requires Registered(s) && Live(s, t)
    ensures Registered(Finished(s, t))
  {
    var s' := Finished(s, t);
    forall r | r in s'.regs && s'.regs[r].timer
      ensures IsCurrent(s', r)
    {
      assert IsCurrent(s, r);
    }
  }

  lemma StartKeepsRegistered(s: State, e: Event)
    requires e.Start? && Enabled(s, e) && Registered(s)
    ensures Registered(Next(s, e))
  {
    var o, reg := e.owner, e.reg;
    var cleared := if o in s.current && s.current[o] in s.regs then Stopped(s, s.current[o]) else s;
    if o in s.current {
      StoppedKeepsRegistered(s, s.current[o]);
    }
    assert Registered(cleared) && o !in cleared.current && reg !in cleared.regs;
    var s' := Next(s, e);
    forall r | r in s'.regs && s'.regs[r].timer
      ensures IsCurrent(s', r)
    {
      if r != reg {
        assert IsCurrent(cleared, r);
      }
    }
  }

  lemma StopAllKeepsRegistered(s: State)
    requires Registered(s)
    ensures Registered(StopEvery(s))
  {
    var s' := StopEvery(s);
    assert forall r :: r in s.regs && s.regs[r].timer ==> IsCurrent(s, r) && !s'.regs[r].timer;
  }

  lemma TimerKeepsRegistered(s: State, e: Event)
    requires e.TimerFires? && Enabled(s, e) && Registered(s)
    ensures Registered(Next(s, e))
  {
    if IsCurrent(s, e.reg) && !s.regs[e.reg].busy { TickStartKeepsRegistered(s, e.reg, e.tick); }
  }

  lemma TickStartKeepsRegistered(s: State, reg: RegId, t: TickId)
    requires Registered(s) && IsCurrent(s, reg) && !s.regs[reg].busy && t !in s.ticks
    ensures Registered(s.(regs := s.regs[reg := s.regs[reg].(busy := true)], ticks := s.ticks[t := Tick(reg, Probing)]))
  {
    var s' := s.(regs := s.regs[reg := s.regs[reg].(busy := true)], ticks := s.ticks[t := Tick(reg, Probing)]);
    forall r | r in s'.regs && s'.regs[r].timer
      ensures IsCurrent(s', r)
    {
      assert IsCurrent(s, r);
    }
  }

  /** The events in which a tick moves on or ends. */
  predicate TickEvent(e: Event) {
    e.ProbeEnds? || e.LockJob? || e.LockAttempt? || e.Extend? || e.Break?
  }

  /** The closures' state depends only on these fields. */
  predicate SameClosures(s: State, s': State) {
    s'.regs == s.regs && s'.current == s.current && s'.ticks == s.ticks
  }

  lemma SameClosuresKeepRegistered(s: State, s': State)
    requires Registered(s) && SameClosures(s, s')
    ensures Registered(s')
  {
    assert forall r :: r in s.regs ==> IsCurrent(s', r) == IsCurrent(s, r);
  }

  lemma TickKeepsRegistered(s: State, e: Event)
    requires TickEvent(e) && Enabled(s, e) && Registered(s)
    ensures Registered(Next(s, e))
  {
    var t := e.tick;
    var ended := Finished(s, t);
    FinishedKeepsRegistered(s, t);
    StoppedKeepsRegistered(ended, s.ticks[t].reg);
    forall p: Phase
      ensures Registered(s.(ticks := s.ticks[t := s.ticks[t].(phase := p)]))
    {
      TickMoveKeepsRegistered(s, t, p);
    }
    var s' := Next(s, e);
    if SameClosures(ended, s') {
      SameClosuresKeepRegistered(ended, s');
    } else if SameClosures(Stopped(ended, s.ticks[t].reg), s') {
      SameClosuresKeepRegistered(Stopped(ended, s.ticks[t].reg), s');
    } else {
      var p := s'.ticks[t].phase;
      SameClosuresKeepRegistered(s.(ticks := s.ticks[t := s.ticks[t].(phase := p)]), s');
    }
  }

  lemma NextKeepsRegistered(s: State, e: Event)
    requires Enabled(s, e) && Registered(s)
    ensures Registered(Next(s, e))
  {
    if TickEvent(e) {
      TickKeepsRegistered(s, e);
    } else if e.Start? {
      StartKeepsRegistered(s, e);
    } else if e.Stop? {
      StoppedKeepsRegistered(s, e.reg);
    } else if e.StopAll? {
      StopAllKeepsRegistered(s);
    } else if e.TimerFires? {
      TimerKeepsRegistered(s, e);
    } else {
      SameClosuresKeepRegistered(s, Next(s, e));
    }
  }

  lemma TickMoveKeepsRegistered(s: State, t: TickId, phase: Phase)
    requires Registered(s) && Live(s, t)
    ensures Registered(s.(ticks := s.ticks[t := s.ticks[t].(phase := phase)]))
  {
  }

  /** Ticks that did not move stand as before and hold what they held. */
  lemma OthersHold(s: State, s': State, moved: set<TickId>)
    requires Locked(s)
    requires forall u :: u in s'.ticks && u !in moved ==> u in s.ticks && s'.ticks[u] == s.ticks[u]
    requires forall r :: r in s.regs ==> r in s'.regs && s'.regs[r].owner == s.regs[r].owner
    requires forall j, u :: j in s.jobLocks && s.jobLocks[j] == u && u !in moved && u in s'.ticks ==>
                              j in s'.jobLocks && s'.jobLocks[j] == u
    requires forall j, u :: j in s.attemptLocks && s.attemptLocks[j] == u && u !in moved && u in s'.ticks ==>
                              j in s'.attemptLocks && s'.attemptLocks[j] == u
    requires s'.jobs == s.jobs && s'.attempts == s.attempts
    ensures forall u :: u in s'.ticks && u !in moved ==> Live(s', u) && Holds(s', u)
  {
    forall u | u in s'.ticks && u !in moved
      ensures Live(s', u) && Holds(s', u)
    {
      assert Live(s, u) && Holds(s, u) && OwnerOf(s', u) == OwnerOf(s, u);
    }
  }

  lemma FinishedKeepsLocked(s: State, t: TickId, stop: bool)
    requires Live(s, t) && Locked(s)
    ensures var s' := if stop then Stopped(Finished(s, t), s.ticks[t].reg) else Finished(s, t); Locked(s')
  {
    var s' := if stop then Stopped(Finished(s, t), s.ticks[t].reg) else Finished(s, t);
    OthersHold(s, s', {t});
  }

  lemma LockJobKeepsLocked(s: State, t: TickId)
    requires Enabled(s, LockJob(t)) && Locked(s)
    ensures Locked(Next(s, LockJob(t)))
  {
    var o := OwnerOf(s, t);
    if IsCurrent(s, s.ticks[t].reg) && JobAccepts(s, o) {
      var s' := Next(s, LockJob(t));
      OthersHold(s, s', {t});
      assert OwnerOf(s', t) == o && Holds(s', t);
    } else {
      FinishedKeepsLocked(s, t, true);
    }
  }

  lemma LockAttemptKeepsLocked(s: State, t: TickId)
    requires Enabled(s, LockAttempt(t)) && Locked(s)
    ensures Locked(Next(s, LockAttempt(t)))
  {
    var o := OwnerOf(s, t);
    if IsCurrent(s, s.ticks[t].reg) && AttemptAccepts(s, o) {
      var s' := Next(s, LockAttempt(t));
      OthersHold(s, s', {t});
      assert Holds(s, t) && OwnerOf(s', t) == o && Holds(s', t);
    } else {
      FinishedKeepsLocked(s, t, true);
    }
  }

  lemma OtherTickKeepsLocked(s: State, e: Event)
    requires e.ProbeEnds? || e.Extend? || e.Break?
    requires Enabled(s, e) && Locked(s)
    ensures Locked(Next(s, e))
  {
    var t, s' := e.tick, Next(s, e);
    if t in s'.ticks {
      OthersHold(s, s', {t});
      assert Holds(s', t);
    } else {
      FinishedKeepsLocked(s, t, false);
      FinishedKeepsLocked(s, t, true);
      var s'' := if s' == Stopped(Finished(s, t), s.ticks[t].reg) then s' else Finished(s, t);
      OthersHold(s'', s', {});
    }
  }

  lemma ClosureKeepsLocked(s: State, e: Event)
    requires e.Start? || e.Stop? || e.StopAll?
    requires Enabled(s, e) && Locked(s)
    ensures Locked(Next(s, e))
  {
    if e.Start? {
      StartKeepsLocked(s, e);
    } else {
      OthersHold(s, Next(s, e), {});
    }
  }

  lemma StartKeepsLocked(s: State, e: Event)
    requires e.Start? && Enabled(s, e) && Locked(s)
    ensures Locked(Next(s, e))
  {
    StartKeepsOwners(s, e);
    OthersHold(s, Next(s, e), {});
  }

  lemma StartKeepsOwners(s: State, e: Event)
    requires e.Start? && Enabled(s, e)
    ensures var s' := Next(s, e);
            && (forall r :: r in s.regs ==> r in s'.regs && s'.regs[r].owner == s.regs[r].owner)
            && s'.ticks == s.ticks && s'.jobs == s.jobs && s'.attempts == s.attempts
            && s'.jobLocks == s.jobLocks && s'.attemptLocks == s.attemptLocks
  {
  }

  lemma TimerKeepsLocked(s: State, e: Event)
    requires e.TimerFires? && Enabled(s, e) && Locked(s)
    ensures Locked(Next(s, e))
  {
    OthersHold(s, Next(s, e), {e.tick});
  }

  lemma RowWriteKeepsLocked(s: State, e: Event)
    requires e.Finalize? || e.WriteJob? || e.WriteAttempt? || e.AddAttempt?
    requires Enabled(s, e) && Locked(s)
    ensures Locked(Next(s, e))
  {
    var s' := Next(s, e);
    forall t | t in s'.ticks
      ensures Live(s', t) && Holds(s', t)
    {
      assert Live(s, t) && Holds(s, t) && OwnerOf(s', t) == OwnerOf(s, t);
    }
  }

  lemma NextKeepsLocked(s: State, e: Event)
    requires Enabled(s, e) && Locked(s)
    ensures Locked(Next(s, e))
  {
    if e.LockJob? {
      LockJobKeepsLocked(s, e.tick);
    } else if e.LockAttempt? {
      LockAttemptKeepsLocked(s, e.tick);
    } else if TickEvent(e) {
      OtherTickKeepsLocked(s, e);
    } else if e.TimerFires? {
      TimerKeepsLocked(s, e);
    } else if e.Start? || e.Stop? || e.StopAll? {
      ClosureKeepsLocked(s, e);
    } else {
      RowWriteKeepsLocked(s, e);
    }
  }

  lemma LogGrows(s: State, e: Event)
    requires Enabled(s, e)
    ensures Next(s, e).log == s.log || (|Next(s, e).log| == |s.log| + 1 && s.log == Next(s, e).log[..|s.log|])
  {
  }

  /** Every event leaves a finalized Job as `Settled` says. */
  lemma NoteStaysSettled(s: State, e: Event, i: nat)
    requires Enabled(s, e) && Settled(s) && i < |s.log| && s.log[i].Finalized?
    ensures var s' := Next(s, e);
            var n := s.log[i];
            && n.jobId in s'.jobs
            && (n.status.Succeeded? ==> s'.jobs[n.jobId].status.Succeeded?)
            && (Ended(s'.jobs[n.jobId].status) || ResumedAfter(s', i, n.jobId))
  {
    ResumptionStays(s, e, i, s.log[i].jobId);
    if e.Finalize? || e.WriteJob? {
      JobWriteNoted(s, e, i, s.log[i].jobId);
    } else {
      OtherStepKeepsJobs(s, e);
    }
  }

  lemma OtherStepKeepsJobs(s: State, e: Event)
    requires Enabled(s, e) && !e.Finalize? && !e.WriteJob?
    ensures Next(s, e).jobs == s.jobs
  {
    match e
    case Start(_, _) =>
    case Stop(_) =>
    case StopAll =>
    case TimerFires(_, _) =>
    case ProbeEnds(_, _) =>
    case LockJob(_) =>
    case LockAttempt(_) =>
    case Extend(_) =>
    case _ =>
  }

  lemma ResumptionStays(s: State, e: Event, i: nat, j: JobId)
    requires Enabled(s, e)
    ensures ResumedAfter(s, i, j) ==> ResumedAfter(Next(s, e), i, j)
  {
    LogGrows(s, e);
    if ResumedAfter(s, i, j) {
      var m :| i < m < |s.log| && s.log[m] == Resumed(j);
      assert Next(s, e).log[m] == Resumed(j);
    }
  }

  /** A job that ended and is put to work again is noted as resumed. */
  lemma JobWriteNoted(s: State, e: Event, i: nat, j: JobId)
    requires (e.Finalize? || e.WriteJob?) && Enabled(s, e) && i < |s.log| && j in s.jobs
    ensures var s' := Next(s, e);
            && j in s'.jobs
            && (s.jobs[j].status.Succeeded? ==> s'.jobs[j].status.Succeeded?)
            && (Ended(s.jobs[j].status) ==> Ended(s'.jobs[j].status) || ResumedAfter(s', i, j))
  {
    var s' := Next(s, e);
    if Ended(s.jobs[j].status) && !Ended(s'.jobs[j].status) {
      assert s'.log[|s.log|] == Resumed(j);
    }
  }

  lemma ClosedStayClosed(s: State, e: Event, i: nat)
    requires Enabled(s, e) && Settled(s) && i < |s.log| && s.log[i].Finalized?
    ensures var s' := Next(s, e);
            var n := s.log[i];
            && n.closed <= AttemptIds(s', n.jobId)
            && (forall k ::
                  n.jobId in s'.attempts && 0 <= k < |s'.attempts[n.jobId]| &&
                  s'.attempts[n.jobId][k].id in n.closed ==>
                  !s'.attempts[n.jobId][k].active)
  {
    var s' := Next(s, e);
    var n := s.log[i];
    var j := n.jobId;
    assert n.closed <= AttemptIds(s, j);
    if j in s.attempts {
      assert j in s'.attempts && |s.attempts[j]| <= |s'.attempts[j]|;
      assert forall k :: 0 <= k < |s.attempts[j]| ==> s'.attempts[j][k].id == s.attempts[j][k].id;
      forall id | id in n.closed
        ensures id in AttemptIds(s', j)
      {
        var a :| a in s.attempts[j] && a.id == id;
        var k :| 0 <= k < |s.attempts[j]| && s.attempts[j][k] == a;
        assert s'.attempts[j][k] in s'.attempts[j];
      }
    }
  }

  lemma FreshNoteSettled(s: State, e: Event)
    requires Enabled(s, e) && |Next(s, e).log| == |s.log| + 1 && Next(s, e).log[|s.log|].Finalized?
    ensures var s' := Next(s, e);
            var n := s'.log[|s.log|];
            && e.Finalize? && n.jobId == e.jobId && n.jobId in s'.jobs && n.closed == AttemptIds(s', n.jobId)
            && s'.jobs[n.jobId].status == n.status
            && (forall k :: n.jobId in s'.attempts && 0 <= k < |s'.attempts[n.jobId]| ==>
              !s'.attempts[n.jobId][k].active)
  {
    var s' := Next(s, e);
    var j := e.jobId;
    if j in s.attempts {
      var as0, as1 := s.attempts[j], s'.attempts[j];
      forall id | id in AttemptIds(s, j)
        ensures id in AttemptIds(s', j)
      {
        var k :| 0 <= k < |as0| && as0[k].id == id;
        assert as1[k] in as1;
      }
      forall id | id in AttemptIds(s', j)
        ensures id in AttemptIds(s, j)
      {
        var k :| 0 <= k < |as1| && as1[k].id == id;
        assert as0[k] in as0;
      }
    }
  }

  lemma NextKeepsSettled(s: State, e: Event)
    requires Enabled(s, e) && Settled(s)
    ensures Settled(Next(s, e))
  {
    var s' := Next(s, e);
    LogGrows(s, e);
    forall i | 0 <= i < |s'.log| && s'.log[i].Finalized?
      ensures var n := s'.log[i];
              && n.jobId in s'.jobs && n.closed <= AttemptIds(s', n.jobId)
              && (n.status.Succeeded? ==> s'.jobs[n.jobId].status.Succeeded?)
              && (Ended(s'.jobs[n.jobId].status) || ResumedAfter(s', i, n.jobId))
              && (forall k ::
                    n.jobId in s'.attempts && 0 <= k < |s'.attempts[n.jobId]| &&
                    s'.attempts[n.jobId][k].id in n.closed ==>
                    !s'.attempts[n.jobId][k].active)
    {
      if i < |s.log| {
        NoteStaysSettled(s, e, i);
        ClosedStayClosed(s, e, i);
      } else {
        FreshNoteSettled(s, e);
      }
    }
  }

  /** A note is added about a Job only while it is not a past success; a renewal or a finalization only
      while it runs. */
  lemma FreshNoteInOrder(s: State, e: Event, i: nat)
    requires Enabled(s, e) && Registered(s) && Locked(s) && Settled(s)
    requires |Next(s, e).log| == |s.log| + 1 && i < |s.log| && s.log[i].Finalized?
    requires About(Next(s, e).log[|s.log|], s.log[i].jobId)
    ensures var n := Next(s, e).log[|s.log|];
            && !s.log[i].status.Succeeded?
            && (n.Resumed? || ResumedAfter(s, i, s.log[i].jobId))
            && (n.Renewed? ==> n.latest.id !in s.log[i].closed)
  {
    if e.Extend? {
      assert Live(s, e.tick) && Holds(s, e.tick);
    }
  }

  lemma OldPairInOrder(log: seq<Note>, n: Note, i: nat, k: nat)
    requires i < k < |log| && log[i].Finalized? && PairInOrder(log, i, k)
    ensures PairInOrder(log + [n], i, k)
  {
    if !log[k].Resumed? {
      var m :| i < m < k && log[m] == Resumed(log[i].jobId);
      assert (log + [n])[m] == log[m];
    }
  }

  lemma NewPairInOrder(s: State, e: Event, i: nat)
    requires Enabled(s, e) && Registered(s) && Locked(s) && Settled(s)
    requires |Next(s, e).log| == |s.log| + 1 && i < |s.log| && s.log[i].Finalized?
    requires About(Next(s, e).log[|s.log|], s.log[i].jobId)
    ensures PairInOrder(s.log + [Next(s, e).log[|s.log|]], i, |s.log|)
  {
    FreshNoteInOrder(s, e, i);
    if ResumedAfter(s, i, s.log[i].jobId) {
      var m :| i < m < |s.log| && s.log[m] == Resumed(s.log[i].jobId);
      assert (s.log + [Next(s, e).log[|s.log|]])[m] == s.log[m];
    }
  }

  lemma OrderedSnoc(log: seq<Note>, n: Note)
    requires OrderedLog(log)
    requires forall i :: 0 <= i < |log| && log[i].Finalized? && About(n, log[i].jobId) ==>
        PairInOrder(log + [n], i, |log|)
    ensures OrderedLog(log + [n])
  {
    var log' := log + [n];
    forall i, k | 0 <= i < k < |log'| && log'[i].Finalized? && About(log'[k], log'[i].jobId)
      ensures PairInOrder(log', i, k)
    {
      if k < |log| { OldPairInOrder(log, n, i, k); }
    }
  }

  lemma NextKeepsOrdered(s: State, e: Event)
    requires Enabled(s, e) && Registered(s) && Locked(s) && Settled(s) && Ordered(s)
    ensures Ordered(Next(s, e))
  {
    LogGrows(s, e);
    var log, log' := s.log, Next(s, e).log;
    if log' != log {
      var n := log'[|log|];
      assert log' == log + [n];
      forall i | 0 <= i < |log| && log[i].Finalized? && About(n, log[i].jobId)
        ensures PairInOrder(log + [n], i, |log|)
      {
        NewPairInOrder(s, e, i);
      }
      OrderedSnoc(log, n);
    }
  }

  lemma ExtendIsRightful(s: State, t: TickId)
    requires Enabled(s, Extend(t)) && Inv(s)
    ensures Next(s, Extend(t)).log == s.log
         || (|Next(s, Extend(t)).log| == |s.log| + 1 && Next(s, Extend(t)).log[..|s.log|] == s.log
             && Rightful(Next(s, Extend(t)).log[|s.log|]))
  {
  }

  lemma OthersRenewNothing(s: State, e: Event)
    requires Enabled(s, e) && !e.Extend?
    ensures Next(s, e).log == s.log
         || (exists n :: Next(s, e).log == s.log + [n] && !n.Renewed?)
  {
    match e
    case Finalize(j, st) => assert s.jobs[j].status.Running? ==>
                              Next(s, e).log == s.log + [Finalized(j, st, AttemptIds(s, j))];
    case WriteJob(j, job) => assert Next(s, e).log == s.log || Next(s, e).log == s.log + [Resumed(j)];
    case _ =>
  }

  lemma NextKeepsRightful(s: State, e: Event)
    requires Enabled(s, e) && Inv(s)
    ensures forall i :: 0 <= i < |Next(s, e).log| && Next(s, e).log[i].Renewed? ==> Rightful(Next(s, e).log[i])
  {
    if e.Extend? { ExtendIsRightful(s, e.tick); } else { OthersRenewNothing(s, e); }
    var log := Next(s, e).log;
    forall i | 0 <= i < |log| && log[i].Renewed? ensures Rightful(log[i]) {
      if i < |s.log| { assert log[..|s.log|] == s.log; assert log[i] == s.log[i]; }
    }
  }

  lemma {:induction false} RunKeepsInv(es: seq<Event>)
    requires Run(es).Some?
    ensures Inv(Run(es).value)
  {
    if es != [] {
      RunKeepsInv(es[..|es|-1]);
      var s, e := Run(es[..|es|-1]).value, es[|es|-1];
      NextKeepsRegistered(s, e);
      NextKeepsLocked(s, e);
      NextKeepsSettled(s, e);
      NextKeepsOrdered(s, e);
      NextKeepsRightful(s, e);
    }
  }

  // ---------- Main results ----------

  /** Every extension in every run was committed while its Job ran in its sandbox and its attempt was the
      latest one, active and uncancelled. */
  lemma ExtensionsAreRightful(es: seq<Event>, i: nat)
    requires Run(es).Some? && i < |Run(es).value.log| && Run(es).value.log[i].Renewed?
    ensures Rightful(Run(es).value.log[i])
  {
    RunKeepsInv(es);
  }

  /** Once a renewal has locked the attempt row its guarded UPDATE cannot miss: it commits and keeps the
      registration. */
  lemma LockedExtensionCommits(es: seq<Event>, e: Event)
    requires Run(es).Some? && e.Extend? && Enabled(Run(es).value, e)
    ensures var s := Run(es).value;
            var s' := Next(s, e);
            && |s'.log| == |s.log| + 1 && s'.log[|s.log|].Renewed? && s'.log[|s.log|].owner == OwnerOf(s, e.tick)
            && s'.current == s.current
  {
    RunKeepsInv(es);
  }

  /** Each registration has at most one tick in flight, and each key at most one live timer. */
  lemma OneTickPerRegistration(es: seq<Event>)
    requires Run(es).Some?
    ensures var s := Run(es).value;
            && (forall t, u :: t in s.ticks && u in s.ticks && s.ticks[t].reg == s.ticks[u].reg ==> t == u)
            && (forall r, q :: r in s.regs && q in s.regs && s.regs[r].timer && s.regs[q].timer ==>
                  s.regs[r].owner == s.regs[q].owner ==> r == q)
  {
    RunKeepsInv(es);
    var s := Run(es).value;
    forall r, q | r in s.regs && q in s.regs && s.regs[r].owner == s.regs[q].owner && s.regs[r].timer && s.regs[q].timer
      ensures r == q
    {
      assert IsCurrent(s, r) && IsCurrent(s, q);
    }
  }

  /** A stop closure, however late, leaves every other registration alone; its own never renews again. */
  lemma StopIsPrivate(es: seq<Event>, reg: RegId)
    requires Run(es).Some? && reg in Run(es).value.regs
    ensures var s := Run(es).value;
            var s' := Next(s, Stop(reg));
            && (forall o :: o in s.current && s.current[o] != reg ==> o in s'.current && s'.current[o] == s.current[o])
            && (forall r :: r in s.regs && r != reg ==> s'.regs[r] == s.regs[r])
            && !IsCurrent(s', reg) && !s'.regs[reg].timer
  {
    RunKeepsInv(es);
  }

  /** A Job that succeeded is finalized once, is never resumed and never renewed again. */
  lemma SuccessIsFinal(es: seq<Event>, i: nat, k: nat)
    requires Run(es).Some? && i < k < |Run(es).value.log|
    requires var log := Run(es).value.log; log[i].Finalized? && log[i].status.Succeeded?
    ensures !About(Run(es).value.log[k], Run(es).value.log[i].jobId)
  {
    var log := LogOf(es);
    assert About(log[k], log[i].jobId) ==> PairInOrder(log, i, k);
  }

  /** The log of a run, which is in order. */
  lemma LogOf(es: seq<Event>) returns (log: seq<Note>)
    requires Run(es).Some?
    ensures log == Run(es).value.log && OrderedLog(log)
    ensures forall i :: 0 <= i < |log| && log[i].Renewed? ==> Rightful(log[i])
  {
    RunKeepsInv(es);
    log := Run(es).value.log;
  }

  /** Between a finalization and anything more than a resumption of the same Job lies a resumption, and the
      earlier one was a failure: a Job is finalized at most once each time it is put to work. */
  lemma FinalizedOncePerResumption(es: seq<Event>, i: nat, k: nat)
    requires Run(es).Some? && i < k < |Run(es).value.log|
    requires var log := Run(es).value.log;
             log[i].Finalized? && About(log[k], log[i].jobId) && !log[k].Resumed?
    ensures var log := Run(es).value.log;
            log[i].status.Failed? && exists m :: i < m < k && log[m] == Resumed(log[i].jobId)
  {
    var log := LogOf(es);
    assert PairInOrder(log, i, k);
    LoggedStatus(es, i);
  }

  lemma {:induction false} LoggedStatus(es: seq<Event>, i: nat)
    requires Run(es).Some? && i < |Run(es).value.log| && Run(es).value.log[i].Finalized?
    ensures Run(es).value.log[i].status in {Succeeded, Failed}
  {
    if es != [] {
      var s, e := Run(es[..|es|-1]).value, es[|es|-1];
      LogGrows(s, e);
      if i < |s.log| {
        LoggedStatus(es[..|es|-1], i);
      } else {
        FreshNoteSettled(s, e);
      }
    }
  }

  /** The owner of an attempt that existed when its Job was finalized never renews it afterwards, even if
      the Job is resumed and runs again in the same sandbox. */
  lemma NoRenewalAfterFinalization(es: seq<Event>, i: nat, k: nat)
    requires Run(es).Some? && i < k < |Run(es).value.log|
    requires var log := Run(es).value.log;
             log[i].Finalized? && log[k].Renewed? && log[k].owner.job == log[i].jobId
    ensures Run(es).value.log[k].owner.attempt !in Run(es).value.log[i].closed
  {
    var log := LogOf(es);
    assert PairInOrder(log, i, k) && Rightful(log[k]);
  }

  /** A terminal state is never overwritten by a late event: until the Job is resumed, a further finalization
      changes nothing at all. */
  lemma LateFinalizationIsIgnored(es: seq<Event>, i: nat, status: JobStatus)
    requires Run(es).Some? && i < |Run(es).value.log| && Run(es).value.log[i].Finalized?
    requires var s := Run(es).value;
             var j := s.log[i].jobId;
             !ResumedAfter(s, i, j) && Enabled(s, Finalize(j, status))
    ensures Next(Run(es).value, Finalize(Run(es).value.log[i].jobId, status)) == Run(es).value
  {
    SettledAt(es, i);
  }

  lemma SettledAt(es: seq<Event>, i: nat)
    requires Run(es).Some? && i < |Run(es).value.log| && Run(es).value.log[i].Finalized?
    ensures var s := Run(es).value;
            var n := s.log[i];
            n.jobId in s.jobs && (Ended(s.jobs[n.jobId].status) || ResumedAfter(s, i, n.jobId))
  {
    RunKeepsInv(es);
  }

  /** A finalization that commits ends the Job and every attempt it has, and notes them all. */
  lemma FinalizationClosesAttempts(s: State, j: JobId, status: JobStatus)
    requires Enabled(s, Finalize(j, status)) && s.jobs[j].status == Running
    ensures var t := Next(s, Finalize(j, status));
            && t.jobs == s.jobs[j := s.jobs[j].(status := status)]
            && |t.log| == |s.log| + 1 && t.log[..|s.log|] == s.log
            && var note := t.log[|s.log|];
            && note.Finalized? && note.jobId == j && note.status == status
            && (forall a :: a in note.closed <==>
                  j in s.attempts && exists k :: 0 <= k < |s.attempts[j]| && s.attempts[j][k].id == a)
            && (j in s.attempts ==>
                  && j in t.attempts && |t.attempts[j]| == |s.attempts[j]|
                  && forall k :: 0 <= k < |s.attempts[j]| ==>
                       !t.attempts[j][k].active && t.attempts[j][k].id == s.attempts[j][k].id)
  {
    var note := Next(s, Finalize(j, status)).log[|s.log|];
    assert note.closed == AttemptIds(s, j);
    if j in s.attempts {
      assert forall k :: 0 <= k < |s.attempts[j]| ==> s.attempts[j][k] in s.attempts[j];
    }
  }

  // ---------- Whether a Job can be finalized again ----------

  /** `more` continues the run and holds another finalization of the Job. */
  ghost predicate FinalizesAgain(es: seq<Event>, more: seq<Event>, j: JobId) {
    && Run(es).Some? && Run(es + more).Some?
    && exists k ::
         |Run(es).value.log| <= k < |Run(es + more).value.log| && IsFinalization(Run(es + more).value.log[k], j)
  }

  predicate IsFinalization(n: Note, j: JobId) { n.Finalized? && n.jobId == j }

  lemma {:induction false} LogPersists(es: seq<Event>, more: seq<Event>)
    requires Run(es).Some? && Run(es + more).Some?
    ensures Run(es).value.log <= Run(es + more).value.log
  {
    if more == [] {
      assert es + more == es;
    } else {
      var all := es + more;
      assert all[..|all|-1] == es + more[..|more|-1];
      LogPersists(es, more[..|more|-1]);
      LogGrows(Run(all[..|all|-1]).value, all[|all|-1]);
    }
  }

  /** The statuses a resumed Job goes through, the last being that of its second end. */
  lemma {:induction false} RewriteJob(es: seq<Event>, j: JobId, sandbox: Option<string>, path: seq<JobStatus>)
    returns (more: seq<Event>)
    requires Run(es).Some? && j in Run(es).value.jobs
    requires j !in Run(es).value.jobLocks && j !in Run(es).value.attemptLocks
    requires path != [] && MayBecome(Run(es).value.jobs[j].status, path[0])
    requires forall i :: 0 < i < |path| ==> MayBecome(path[i-1], path[i])
    ensures Run(es + more).Some?
    ensures var s := Run(es + more).value;
            && s.jobLocks == Run(es).value.jobLocks && s.attemptLocks == Run(es).value.attemptLocks
            && j in s.jobs && s.jobs[j] == Job(path[|path|-1], sandbox)
    decreases |path|
  {
    if |path| == 1 {
      more := [WriteJob(j, Job(path[0], sandbox))];
      var _ := Extended(es, Run(es).value, more[0], Next(Run(es).value, more[0]));
    } else {
      var init := path[..|path|-1];
      var before := RewriteJob(es, j, sandbox, init);
      var e := WriteJob(j, Job(path[|path|-1], sandbox));
      var s := Run(es + before).value;
      assert MayBecome(path[|path|-2], path[|path|-1]);
      var longer := Extended(es + before, s, e, Next(s, e));
      more := before + [e];
      assert es + more == longer;
    }
  }

  lemma FailureCanBeFinalizedAgain(es: seq<Event>, j: JobId) returns (more: seq<Event>)
    requires Run(es).Some? && j in Run(es).value.jobs
    requires j !in Run(es).value.jobLocks && j !in Run(es).value.attemptLocks
    requires Run(es).value.jobs[j].status.Failed?
    ensures FinalizesAgain(es, more, j)
  {
    var s := Run(es).value;
    var put := RewriteJob(es, j, s.jobs[j].sandbox, [Pending, Claimed, Provisioning, Running]);
    var t := Run(es + put).value;
    LogPersists(es, put);
    var e := Finalize(j, Succeeded);
    var all := Extended(es + put, t, e, Next(t, e));
    more := put + [e];
    assert es + more == all;
    assert IsFinalization(Run(es + more).value.log[|t.log|], j);
  }

  /** "Finalized at most once" fails exactly for failures: in every reachable state, after a finalization that
      commits, some continuation finalizes the Job a second time if and only if it ended as failed - the
      policy lets a failed Job go through pending, claimed and provisioning to running again. */
  lemma FinalizedAgainIff(es: seq<Event>, j: JobId, status: JobStatus)
    requires Run(es).Some? && Enabled(Run(es).value, Finalize(j, status)) && Run(es).value.jobs[j].status.Running?
    ensures Run(es + [Finalize(j, status)]).Some?
    ensures (exists more :: FinalizesAgain(es + [Finalize(j, status)], more, j)) <==> status.Failed?
  {
    var s := Run(es).value;
    var e := Finalize(j, status);
    var once := Extended(es, s, e, Next(s, e));
    var n := |s.log|;
    assert Run(once).value.log[n] == Finalized(j, status, AttemptIds(s, j));
    if status.Failed? {
      var more := FailureCanBeFinalizedAgain(once, j);
    } else {
      forall more
        ensures !FinalizesAgain(once, more, j)
      {
        if FinalizesAgain(once, more, j) { SuccessAllowsNoMore(once, more, n, j); }
      }
    }
  }

  lemma SuccessAllowsNoMore(es: seq<Event>, more: seq<Event>, n: nat, j: JobId)
    requires Run(es).Some? && n < |Run(es).value.log|
    requires IsFinalization(Run(es).value.log[n], j) && Run(es).value.log[n].status.Succeeded?
    ensures !FinalizesAgain(es, more, j)
  {
    if FinalizesAgain(es, more, j) {
      LogPersists(es, more);
      var log := Run(es + more).value.log;
      var k :| |Run(es).value.log| <= k < |log| && IsFinalization(log[k], j);
      SuccessIsFinal(es + more, n, k);
      assert false;
    }
  }

  /** One more event at the end of a run. */
  lemma Extended(es: seq<Event>, s: State, e: Event, s': State) returns (es': seq<Event>)
    requires Run(es) == Some(s) && Enabled(s, e) && Next(s, e) == s'
    ensures es' == es + [e] && Run(es') == Some(s')
  {
    es' := es + [e];
    assert es'[..|es|] == es;
  }

  // ---------- A heartbeat from end to end ----------

  /** No row lock is left behind: whoever holds one is a tick under way. */
  predicate LocksAreHeld(s: State) {
    && (forall j :: j in s.jobLocks ==> s.jobLocks[j] in s.ticks)
    && (forall j :: j in s.attemptLocks ==> s.attemptLocks[j] in s.ticks)
  }

  lemma FinishedKeepsLocksHeld(s: State, t: TickId)
    requires Live(s, t) && LocksAreHeld(s)
    ensures LocksAreHeld(Finished(s, t))
  {
  }

  lemma NextKeepsLocksHeld(s: State, e: Event)
    requires Enabled(s, e) && LocksAreHeld(s)
    ensures LocksAreHeld(Next(s, e))
  {
    if e.ProbeEnds? || e.LockJob? || e.LockAttempt? || e.Extend? || e.Break? {
      FinishedKeepsLocksHeld(s, e.tick);
      TickKeepsLocksHeld(s, e);
    } else {
      OtherKeepsLocks(s, e);
    }
  }

  lemma StoppedKeepsLocksHeld(s: State, reg: RegId)
    requires reg in s.regs && LocksAreHeld(s)
    ensures LocksAreHeld(Stopped(s, reg))
  {
  }

  lemma TickKeepsLocksHeld(s: State, e: Event)
    requires e.ProbeEnds? || e.LockJob? || e.LockAttempt? || e.Extend? || e.Break?
    requires Enabled(s, e) && LocksAreHeld(s) && LocksAreHeld(Finished(s, e.tick))
    ensures LocksAreHeld(Next(s, e))
  {
    StoppedKeepsLocksHeld(Finished(s, e.tick), s.ticks[e.tick].reg);
    if e.LockJob? { LockJobKeepsLocksHeld(s, e.tick); }
    if e.LockAttempt? { LockAttemptKeepsLocksHeld(s, e.tick); }
  }

  lemma LockJobKeepsLocksHeld(s: State, t: TickId)
    requires Enabled(s, LockJob(t)) && LocksAreHeld(s)
    requires LocksAreHeld(Stopped(Finished(s, t), s.ticks[t].reg))
    ensures LocksAreHeld(Next(s, LockJob(t)))
  {
  }

  lemma LockAttemptKeepsLocksHeld(s: State, t: TickId)
    requires Enabled(s, LockAttempt(t)) && LocksAreHeld(s)
    requires LocksAreHeld(Stopped(Finished(s, t), s.ticks[t].reg))
    ensures LocksAreHeld(Next(s, LockAttempt(t)))
  {
  }

  lemma OtherKeepsLocks(s: State, e: Event)
    requires !e.ProbeEnds? && !e.LockJob? && !e.LockAttempt? && !e.Extend? && !e.Break? && Enabled(s, e)
    ensures Next(s, e).jobLocks == s.jobLocks && Next(s, e).attemptLocks == s.attemptLocks
    ensures s.ticks.Keys <= Next(s, e).ticks.Keys
  {
  }

  lemma {:induction false} RunKeepsLocksHeld(es: seq<Event>)
    requires Run(es).Some?
    ensures LocksAreHeld(Run(es).value)
  {
    if es != [] {
      RunKeepsLocksHeld(es[..|es|-1]);
      NextKeepsLocksHeld(Run(es[..|es|-1]).value, es[|es|-1]);
    }
  }

  /** A tick is due, nothing of the registration is under way and both rows are free. */
  predicate Ready(s: State, reg: RegId, t: TickId) {
    && IsCurrent(s, reg) && s.regs[reg].timer && !s.regs[reg].busy && t !in s.ticks
    && s.regs[reg].owner.job !in s.jobLocks && s.regs[reg].owner.job !in s.attemptLocks
  }

  /** The Job runs in the owner's sandbox, and the owner's attempt is its latest, active and uncancelled. */
  predicate Owns(s: State, o: Owner) {
    && o.job in s.jobs && s.jobs[o.job] == Job(Running, Some(o.sandbox))
    && o.job in s.attempts && |s.attempts[o.job]| > 0
    && s.attempts[o.job][|s.attempts[o.job]| - 1] == Attempt(o.attempt, true, false, Some(o.sandbox))
  }

  /** The part of the state a tick leaves alone. */
  predicate OnlyTicked(s: State, u: State, reg: RegId) {
    && u.ticks == s.ticks && u.jobs == s.jobs && u.attempts == s.attempts
    && u.jobLocks == s.jobLocks && u.attemptLocks == s.attemptLocks
    && u.regs.Keys == s.regs.Keys && reg in s.regs
    && (forall r :: r in s.regs && r != reg ==> u.regs[r] == s.regs[r])
    && u.regs[reg].owner == s.regs[reg].owner && !u.regs[reg].busy
  }

  /**
   * One heartbeat that nobody disturbs, in any reachable state.  If the sandbox does not answer nothing happens.
   * If it does, the lease is extended exactly if the owner still owns the Job, and otherwise the registration
   * stops itself; either way both rows are free again and the next tick may come.
   */
  lemma UndisturbedTick(es: seq<Event>, reg: RegId, t: TickId, alive: bool) returns (all: seq<Event>)
    requires Run(es).Some? && Ready(Run(es).value, reg, t)
    ensures es <= all && Run(all).Some?
    ensures var s, u := Run(es).value, Run(all).value;
            var o := s.regs[reg].owner;
            && OnlyTicked(s, u, reg)
            && (alive && Owns(s, o) ==>
                  && u.log == s.log + [Renewed(o, s.jobs[o.job], s.attempts[o.job][|s.attempts[o.job]| - 1])]
                  && u.current == s.current && u.regs[reg].timer)
            && (!alive ==> u.log == s.log && u.current == s.current && u.regs[reg].timer)
            && (alive && !Owns(s, o) ==> u.log == s.log && u.current == s.current - {o} && !u.regs[reg].timer)
  {
    var s := Run(es).value;
    RunKeepsLocksHeld(es);
    var s1 := Next(s, TimerFires(reg, t));
    var es1 := Extended(es, s, TimerFires(reg, t), s1);
    var s2 := Next(s1, ProbeEnds(t, alive));
    var es2 := Extended(es1, s1, ProbeEnds(t, alive), s2);
    if alive {
      all := LockedTick(es2, reg, t);
    } else {
      all := es2;
    }
  }

  /** The transaction of tick `t` is about to lock the rows, and nobody else has them. */
  predicate AtTheRows(s: State, reg: RegId, t: TickId) {
    && IsCurrent(s, reg) && s.regs[reg].timer && t in s.ticks && s.ticks[t] == Tick(reg, Starting)
    && s.regs[reg].owner.job !in s.jobLocks && s.regs[reg].owner.job !in s.attemptLocks
    && (forall j :: j in s.jobLocks ==> s.jobLocks[j] != t)
    && (forall j :: j in s.attemptLocks ==> s.attemptLocks[j] != t)
  }

  predicate TickEnded(s: State, u: State, reg: RegId, t: TickId)
    requires reg in s.regs
  {
    var o := s.regs[reg].owner;
    && OnlyTicked(s.(ticks := s.ticks - {t}), u, reg)
    && (Owns(s, o) ==>
          && u.log == s.log + [Renewed(o, s.jobs[o.job], s.attempts[o.job][|s.attempts[o.job]| - 1])]
          && u.current == s.current && u.regs[reg].timer)
    && (!Owns(s, o) ==> u.log == s.log && u.current == s.current - {o} && !u.regs[reg].timer)
  }

  lemma LockedTick(es: seq<Event>, reg: RegId, t: TickId) returns (all: seq<Event>)
    requires Run(es).Some? && AtTheRows(Run(es).value, reg, t)
    ensures es <= all && Run(all).Some? && TickEnded(Run(es).value, Run(all).value, reg, t)
  {
    var s := Run(es).value;
    var o := s.regs[reg].owner;
    var s1 := Next(s, LockJob(t));
    var es1 := Extended(es, s, LockJob(t), s1);
    if !JobAccepts(s, o) {
      JobRefuses(s, reg, t);
      return es1;
    }
    JobAcceptsTick(s, reg, t);
    var s2 := Next(s1, LockAttempt(t));
    var es2 := Extended(es1, s1, LockAttempt(t), s2);
    if !AttemptAccepts(s, o) {
      AttemptRefuses(s, reg, t);
      return es2;
    }
    AttemptAcceptsTick(s, reg, t);
    OwnerRenews(s, reg, t);
    all := Extended(es2, s2, Extend(t), Next(s2, Extend(t)));
  }

  lemma JobRefuses(s: State, reg: RegId, t: TickId)
    requires AtTheRows(s, reg, t) && !JobAccepts(s, s.regs[reg].owner)
    ensures TickEnded(s, Next(s, LockJob(t)), reg, t)
  {
  }

  lemma JobAcceptsTick(s: State, reg: RegId, t: TickId)
    requires AtTheRows(s, reg, t) && JobAccepts(s, s.regs[reg].owner)
    ensures Next(s, LockJob(t)) == s.(ticks := s.ticks[t := Tick(reg, JobLocked)],
                                      jobLocks := s.jobLocks[s.regs[reg].owner.job := t])
    ensures Enabled(Next(s, LockJob(t)), LockAttempt(t))
  {
  }

  lemma AttemptRefuses(s: State, reg: RegId, t: TickId)
    requires AtTheRows(s, reg, t) && JobAccepts(s, s.regs[reg].owner) && !AttemptAccepts(s, s.regs[reg].owner)
    requires Enabled(Next(s, LockJob(t)), LockAttempt(t))
    ensures TickEnded(s, Next(Next(s, LockJob(t)), LockAttempt(t)), reg, t)
  {
    JobAcceptsTick(s, reg, t);
  }

  lemma AttemptAcceptsTick(s: State, reg: RegId, t: TickId)
    requires AtTheRows(s, reg, t) && JobAccepts(s, s.regs[reg].owner) && AttemptAccepts(s, s.regs[reg].owner)
    requires Enabled(Next(s, LockJob(t)), LockAttempt(t))
    ensures var job := s.regs[reg].owner.job;
            Next(Next(s, LockJob(t)), LockAttempt(t)) ==
            s.(ticks := s.ticks[t := Tick(reg, AttemptLocked)], jobLocks := s.jobLocks[job := t],
               attemptLocks := s.attemptLocks[job := t])
    ensures Enabled(Next(Next(s, LockJob(t)), LockAttempt(t)), Extend(t))
  {
    JobAcceptsTick(s, reg, t);
  }

  lemma OwnerRenews(s: State, reg: RegId, t: TickId)
    requires AtTheRows(s, reg, t) && JobAccepts(s, s.regs[reg].owner) && AttemptAccepts(s, s.regs[reg].owner)
    requires Enabled(Next(s, LockJob(t)), LockAttempt(t))
    requires Enabled(Next(Next(s, LockJob(t)), LockAttempt(t)), Extend(t))
    ensures TickEnded(s, Next(Next(Next(s, LockJob(t)), LockAttempt(t)), Extend(t)), reg, t)
  {
    AttemptAcceptsTick(s, reg, t);
  }

  /** A newer attempt, a cancellation or another sandbox takes the Job from its owner at once. */
  lemma OwnershipEnds(s: State, o: Owner, e: Event)
    requires Owns(s, o) && Enabled(s, e)
    requires || (e.AddAttempt? && e.jobId == o.job)
             || (e.WriteAttempt? && e.jobId == o.job && e.index == |s.attempts[o.job]| - 1
                 && (e.attempt.cancelRequested || !e.attempt.active || e.attempt.sandbox != Some(o.sandbox)))
             || (e.WriteJob? && e.jobId == o.job && (!e.job.status.Running? || e.job.sandbox != Some(o.sandbox)))
    ensures !Owns(Next(s, e), o)
  {
    if e.AddAttempt? {
      assert s.attempts[o.job][|s.attempts[o.job]| - 1] in s.attempts[o.job];
      assert o.attempt in AttemptIds(s, o.job);
    }
  }

  // ---------- After a stop ----------

  /** A start takes over from an earlier registration of the same owner, and from nobody else. */
  lemma StartReplaces(s: State, o: Owner, reg: RegId)
    requires Registered(s) && Enabled(s, Start(o, reg))
    ensures var t := Next(s, Start(o, reg));
            && IsCurrent(t, reg) && t.regs[reg] == Registration(o, true, false)
            && (forall r :: r in s.regs ==>
                  r in t.regs && t.regs[r] == if s.regs[r].owner == o then s.regs[r].(timer := false) else s.regs[r])
            && t.current == s.current[o := reg] && t.ticks == s.ticks && t.log == s.log
  {
    var cleared := if o in s.current then Stopped(s, s.current[o]) else s;
    TakesOver(s, o);
    assert Next(s, Start(o, reg)) ==
      cleared.(regs := cleared.regs[reg := Registration(o, true, false)], current := cleared.current[o := reg]);
  }

  lemma TakesOver(s: State, o: Owner)
    requires Registered(s)
    ensures var cleared := if o in s.current then Stopped(s, s.current[o]) else s;
            && cleared.regs.Keys == s.regs.Keys && cleared.current == s.current - {o}
            && cleared.ticks == s.ticks && cleared.log == s.log
            && forall r :: r in s.regs ==>
                 cleared.regs[r] == if s.regs[r].owner == o then s.regs[r].(timer := false) else s.regs[r]
  {
    forall r | r in s.regs && s.regs[r].owner == o && s.regs[r].timer
      ensures o in s.current && s.current[o] == r
    {
      assert IsCurrent(s, r);
    }
  }

  /** The step a tick takes next, if it is not an error. */
  predicate GoesOn(e: Event, t: TickId) { e in {ProbeEnds(t, true), ProbeEnds(t, false), LockJob(t), LockAttempt(t)} }

  /** A tick whose registration is no longer current ends with its next step, and lets go of its rows; only once
      the attempt row is locked is it too late. */
  lemma StaleTickEnds(s: State, t: TickId, e: Event)
    requires Live(s, t) && !IsCurrent(s, s.ticks[t].reg) && GoesOn(e, t) && Enabled(s, e)
    ensures var u := Next(s, e);
            && t !in u.ticks && u.log == s.log && (forall j :: j in u.jobLocks ==> u.jobLocks[j] != t)
            && (forall j :: j in u.attemptLocks ==> u.attemptLocks[j] != t)
  {
  }

  /** The registration is over, and no tick of it holds the attempt row. */
  predicate Retired(s: State, reg: RegId) {
    && reg in s.regs && !IsCurrent(s, reg)
    && forall t :: t in s.ticks && s.ticks[t].reg == reg ==> !s.ticks[t].phase.AttemptLocked?
  }

  lemma RetiredStays(s: State, e: Event, reg: RegId)
    requires Enabled(s, e) && Registered(s) && Retired(s, reg)
    ensures Retired(Next(s, e), reg)
  {
    NeverCurrentAgain(s, e, reg);
    if e.LockAttempt? {
      if s.ticks[e.tick].reg == reg { StaleTickEnds(s, e.tick, e); }
    } else {
      OthersLockNoAttempt(s, e, reg);
    }
  }

  lemma OthersLockNoAttempt(s: State, e: Event, reg: RegId)
    requires Enabled(s, e) && Registered(s) && Retired(s, reg) && !e.LockAttempt?
    ensures forall t :: t in Next(s, e).ticks && Next(s, e).ticks[t].reg == reg ==>
              !Next(s, e).ticks[t].phase.AttemptLocked?
  {
  }

  /** No owner of `s` gets another registration, and registrations keep their owners. */
  predicate OnlyLoses(s: State, u: State) {
    && (forall o :: o in u.current ==> o in s.current && u.current[o] == s.current[o])
    && (forall r :: r in s.regs ==> r in u.regs && u.regs[r].owner == s.regs[r].owner)
  }

  lemma NeverCurrentAgain(s: State, e: Event, reg: RegId)
    requires Enabled(s, e) && reg in s.regs && !IsCurrent(s, reg)
    ensures reg in Next(s, e).regs && !IsCurrent(Next(s, e), reg)
  {
    match e
    case Start(o, _) => if o in s.current && s.current[o] in s.regs { assert OnlyLoses(s, Stopped(s, s.current[o])); }
    case Stop(_) => assert OnlyLoses(s, Next(s, e));
    case StopAll => assert OnlyLoses(s, Next(s, e));
    case TimerFires(_, _) => assert OnlyLoses(s, Next(s, e));
    case ProbeEnds(_, _) => TickOnlyLoses(s, e);
    case LockJob(_) => TickOnlyLoses(s, e);
    case LockAttempt(_) => TickOnlyLoses(s, e);
    case Extend(_) => TickOnlyLoses(s, e);
    case Break(_) => TickOnlyLoses(s, e);
    case _ => WritesNoRegistration(s, e);
  }

  lemma WritesNoRegistration(s: State, e: Event)
    requires Enabled(s, e) && (e.Finalize? || e.WriteJob? || e.WriteAttempt? || e.AddAttempt?)
    ensures Next(s, e).current == s.current && Next(s, e).regs == s.regs && Next(s, e).ticks == s.ticks
  {
  }

  lemma TickOnlyLoses(s: State, e: Event)
    requires Enabled(s, e) && (e.ProbeEnds? || e.LockJob? || e.LockAttempt? || e.Extend? || e.Break?)
    ensures OnlyLoses(s, Next(s, e))
  {
    var f := Finished(s, e.tick);
    assert OnlyLoses(s, f) && f.current == s.current;
    StopOnlyLoses(f, s.ticks[e.tick].reg);
  }

  lemma StopOnlyLoses(s: State, reg: RegId)
    requires reg in s.regs
    ensures OnlyLoses(s, Stopped(s, reg))
  {
  }

  lemma {:induction false} RetiredForever(es: seq<Event>, more: seq<Event>, reg: RegId)
    requires Run(es).Some? && Run(es + more).Some? && Retired(Run(es).value, reg)
    ensures Retired(Run(es + more).value, reg)
  {
    if more == [] {
      assert es + more == es;
    } else {
      var all := es + more;
      assert all[..|all|-1] == es + more[..|more|-1];
      RetiredForever(es, more[..|more|-1], reg);
      RunKeepsInv(all[..|all|-1]);
      RetiredStays(Run(all[..|all|-1]).value, all[|all|-1], reg);
    }
  }

  /** A registration that was stopped before its tick had locked the attempt row never extends a lease again,
      whatever happens later. */
  lemma StoppedNeverRenews(es: seq<Event>, more: seq<Event>, reg: RegId, t: TickId)
    requires Run(es).Some? && Run(es + more).Some? && reg in Run(es).value.regs && !IsCurrent(Run(es).value, reg)
    requires var s := Run(es).value;
             forall u :: u in s.ticks && s.ticks[u].reg == reg ==> s.ticks[u].phase in {Probing, Starting, JobLocked}
    requires Enabled(Run(es + more).value, Extend(t))
    ensures Run(es + more).value.ticks[t].reg != reg
  {
    RetiredForever(es, more, reg);
  }
}

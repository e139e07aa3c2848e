/**
 * The platform upgrade lock (deploy/platform-upgrade-windows.cs: `Parent`, `Acquire`, `BorrowLease`,
 * `CloseLease`, `Release`) over the kernel's handle tables.
 *
 * The lock file is opened without sharing, so an open fails while any handle to an earlier open is live in
 * any process.  A short-lived helper opens it and duplicates the handle into its parent, the host; other
 * children of the host borrow the lock by duplicating it out again.  Any process may die at any step, and
 * the kernel then closes its handles.  Process ids and handle values are reused.
 */
module UpgradeLock {
  import opened Options

  type Pid = nat
  type HandleValue = nat

  /** What one successful open created.  `lock` tells opens of the lock file from all others. */
  datatype File = File(id: nat, lock: bool)

  /** `parentBirth` is the birth of the process that really started this one. */
  datatype Process = Process(birth: int, parent: Pid, parentBirth: int)

  datatype Slot = Slot(pid: Pid, value: HandleValue)

  datatype State = State(processes: map<Pid, Process>, handles: map<Slot, File>, opens: nat, clock: int)

  datatype Event =
    | Spawn(pid: Pid, parent: Pid, at: int)
    | Die(pid: Pid, at: int)
    | OpenLock(pid: Pid, value: HandleValue)                      // CreateFileW on the lock path, no sharing
    | OpenOther(pid: Pid, value: HandleValue)                     // any other object
    | GiveToParent(pid: Pid, host: Pid, from: HandleValue, to: HandleValue)                      // Acquire
    | TakeFromParent(pid: Pid, host: Pid, created: int, from: HandleValue, to: HandleValue)      // BorrowLease
    | MoveFromParent(pid: Pid, host: Pid, created: int, from: HandleValue, to: HandleValue)      // Release
    | CloseHandle(pid: Pid, value: HandleValue)

  const INIT := State(map[], map[], 0, 0)

  /** `Parent(pid, expected)`: the caller's recorded parent, alive, older than the caller, and, when a
      creation time is expected, created then. */
  predicate ParentChecks(s: State, caller: Pid, host: Pid, expected: Option<int>) {
    && caller in s.processes && s.processes[caller].parent == host
    && host in s.processes && s.processes[host].birth < s.processes[caller].birth
    && (expected.Some? ==> s.processes[host].birth == expected.value)
  }

  predicate Held(s: State, f: File) {
    exists slot :: slot in s.handles && s.handles[slot] == f
  }

  predicate LockHeld(s: State) {
    exists slot :: slot in s.handles && s.handles[slot].lock
  }

  predicate Enabled(s: State, e: Event) {
    match e
    case Spawn(pid, parent, at) => pid !in s.processes && parent in s.processes && s.clock <= at
    case Die(pid, at) => pid in s.processes && s.clock <= at
    case OpenLock(pid, value) => pid in s.processes && Slot(pid, value) !in s.handles && !LockHeld(s)
    case OpenOther(pid, value) => pid in s.processes && Slot(pid, value) !in s.handles
    case GiveToParent(pid, host, from, to) =>
      ParentChecks(s, pid, host, None) && Slot(pid, from) in s.handles && Slot(host, to) !in s.handles
    case TakeFromParent(pid, host, created, from, to) =>
      ParentChecks(s, pid, host, Some(created)) && Slot(host, from) in s.handles && Slot(pid, to) !in s.handles
    case MoveFromParent(pid, host, created, from, to) =>
      ParentChecks(s, pid, host, Some(created)) && Slot(host, from) in s.handles && Slot(pid, to) !in s.handles
    case CloseHandle(pid, value) => Slot(pid, value) in s.handles
  }

  function Next(s: State, e: Event): State
    requires Enabled(s, e)
  {
    match e
    case Spawn(pid, parent, at) =>
      s.(processes := s.processes[pid := Process(at, parent, s.processes[parent].birth)], clock := at)
    case Die(pid, at) =>
      s.(processes := s.processes - {pid},
         handles := map slot | slot in s.handles && slot.pid != pid :: s.handles[slot], clock := at)
    case OpenLock(pid, value) =>
      s.(handles := s.handles[Slot(pid, value) := File(s.opens, true)], opens := s.opens + 1)
    case OpenOther(pid, value) =>
      s.(handles := s.handles[Slot(pid, value) := File(s.opens, false)], opens := s.opens + 1)
    case GiveToParent(pid, host, from, to) =>
      s.(handles := s.handles[Slot(host, to) := s.handles[Slot(pid, from)]])
    case TakeFromParent(pid, host, _, from, to) =>
      s.(handles := s.handles[Slot(pid, to) := s.handles[Slot(host, from)]])
    case MoveFromParent(pid, host, _, from, to) =>
      s.(handles := (s.handles - {Slot(host, from)})[Slot(pid, to) := s.handles[Slot(host, from)]])
    case CloseHandle(pid, value) => s.(handles := s.handles - {Slot(pid, value)})
  }

  /** A run from a machine on which one process exists and no handle to the lock. */
  function Run(es: seq<Event>): Option<State> {
    if es == [] then Some(INIT.(processes := map[0 := Process(0, 0, -1)]))
    else
      match Run(es[..|es|-1])
      case None => None
      case Some(s) => if Enabled(s, es[|es|-1]) then Some(Next(s, es[|es|-1])) else None
  }

  // ---------- What every step keeps ----------

  /** All live handles on the lock come from one open; open numbers are never reused. */
  predicate OneHolder(s: State) {
    && (forall a, b :: a in s.handles && b in s.handles && s.handles[a].lock && s.handles[b].lock ==>
          s.handles[a] == s.handles[b])
    && (forall a :: a in s.handles ==> s.handles[a].id < s.opens && a.pid in s.processes)
  }

  /** A process that bears a live process's parent id is that parent or was born no earlier than the child. */
  predicate Kin(s: State) {
    && (forall p :: p in s.processes ==>
      s.processes[p].birth <= s.clock && s.processes[p].parentBirth <= s.processes[p].birth)
    && (forall c :: c in s.processes && s.processes[c].parent in s.processes ==>
          var host := s.processes[s.processes[c].parent];
          host.birth == s.processes[c].parentBirth || s.processes[c].birth <= host.birth)
  }

  lemma NextKeepsOneHolder(s: State, e: Event)
    requires Enabled(s, e) && OneHolder(s)
    ensures OneHolder(Next(s, e))
  {
    if e.OpenLock? {
      assert forall a :: a in s.handles ==> !s.handles[a].lock;
    }
  }

  lemma NextKeepsKin(s: State, e: Event)
    requires Enabled(s, e) && Kin(s)
    ensures Kin(Next(s, e))
  {
  }

  lemma {:induction false} RunKeepsInv(es: seq<Event>)
    requires Run(es).Some?
    ensures OneHolder(Run(es).value) && Kin(Run(es).value)
  {
    if es != [] {
      var s, e := Run(es[..|es|-1]).value, es[|es|-1];
      RunKeepsInv(es[..|es|-1]);
      NextKeepsOneHolder(s, e);
      NextKeepsKin(s, e);
    }
  }

  // ---------- Main results ----------

  /** At every moment all live handles on the lock, in whatever processes, belong to one acquisition. */
  lemma OneAcquisition(es: seq<Event>, a: Slot, b: Slot)
    requires Run(es).Some? && a in Run(es).value.handles && b in Run(es).value.handles
    requires Run(es).value.handles[a].lock && Run(es).value.handles[b].lock
    ensures Run(es).value.handles[a] == Run(es).value.handles[b]
  {
    RunKeepsInv(es);
  }

  /** An open whose last handle is gone stays gone, whatever values and process ids are reused. */
  lemma GoneStaysGone(s: State, e: Event, f: File)
    requires Enabled(s, e) && !Held(s, f) && f.id < s.opens
    ensures !Held(Next(s, e), f) && f.id < Next(s, e).opens
  {
  }

  lemma {:induction false} GoneForever(before: seq<Event>, after: seq<Event>, f: File)
    requires Run(before).Some? && Run(before + after).Some?
    requires !Held(Run(before).value, f) && f.id < Run(before).value.opens
    ensures !Held(Run(before + after).value, f) && f.id < Run(before + after).value.opens
  {
    if after == [] {
      assert before + after == before;
    } else {
      var es := before + after;
      assert es[..|es|-1] == before + after[..|after|-1];
      GoneForever(before, after[..|after|-1], f);
      GoneStaysGone(Run(es[..|es|-1]).value, es[|es|-1], f);
    }
  }

  /** A later acquisition opens the lock only after the host and every borrower of the earlier one have
      closed or died, and none of them ever holds it again. */
  lemma AcquireWaitsForAllHolders(before: seq<Event>, open: Event, after: seq<Event>, f: File)
    requires open.OpenLock? && Run(before).Some? && Run(before + [open]).Some? && Run(before + [open] + after).Some?
    requires f.lock && f.id < Run(before).value.opens
    ensures !Held(Run(before).value, f)
    ensures !Held(Run(before + [open] + after).value, f)
  {
    assert (before + [open])[..|before|] == before;
    var s := Run(before).value;
    assert Enabled(s, open);
    assert !Held(s, f);
    GoneStaysGone(s, open, f);
    GoneForever(before + [open], after, f);
  }

  function LockSlots(s: State): set<Slot> { set slot | slot in s.handles && s.handles[slot].lock }

  /** A step that takes the lock or hands a handle on it to another process. */
  predicate PassesLock(s: State, e: Event) {
    match e
    case OpenLock(_, _) => true
    case GiveToParent(pid, _, from, _) => Slot(pid, from) in LockSlots(s)
    case TakeFromParent(_, host, _, from, _) => Slot(host, from) in LockSlots(s)
    case MoveFromParent(_, host, _, from, _) => Slot(host, from) in LockSlots(s)
    case _ => false
  }

  /** The owner of the slot dies or closes it. */
  predicate Vacates(e: Event, slot: Slot) {
    (e.Die? && e.pid == slot.pid) || e == CloseHandle(slot.pid, slot.value)
  }

  predicate Vacated(es: seq<Event>, slot: Slot) { exists k :: 0 <= k < |es| && Vacates(es[k], slot) }

  /** No step of the continuation takes the lock or hands it on. */
  predicate Quiet(before: seq<Event>, after: seq<Event>) {
    forall k :: 0 <= k < |after| ==>
      Run(before + after[..k]).Some? && !PassesLock(Run(before + after[..k]).value, after[k])
  }

  lemma QuietStep(s: State, e: Event, slot: Slot)
    requires Enabled(s, e) && !PassesLock(s, e)
    ensures slot in LockSlots(Next(s, e)) <==> slot in LockSlots(s) && !Vacates(e, slot)
  {
  }

  lemma VacatedSnoc(es: seq<Event>, e: Event, slot: Slot)
    ensures Vacated(es + [e], slot) <==> Vacated(es, slot) || Vacates(e, slot)
  {
    var all := es + [e];
    assert all[|es|] == e && forall k :: 0 <= k < |es| ==> all[k] == es[k];
    if Vacates(e, slot) { assert Vacates(all[|es|], slot); }
    if Vacated(es, slot) {
      var k :| 0 <= k < |es| && Vacates(es[k], slot);
      assert Vacates(all[k], slot);
    }
  }

  lemma QuietSnoc(before: seq<Event>, init: seq<Event>, e: Event)
    requires Run(before).Some? && Run(before + (init + [e])).Some? && Quiet(before, init + [e])
    ensures Quiet(before, init) && Run(before + init).Some?
    ensures Enabled(Run(before + init).value, e) && !PassesLock(Run(before + init).value, e)
    ensures Run(before + (init + [e])).value == Next(Run(before + init).value, e)
  {
    var all := init + [e];
    QuietPrefix(before, init, e);
    assert all[..|init|] == init && all[|init|] == e;
    RunSnoc(before + init, e);
    assert before + all == before + init + [e];
  }

  lemma RunSnoc(es: seq<Event>, e: Event)
    ensures Run(es + [e]).Some? <==> Run(es).Some? && Enabled(Run(es).value, e)
    ensures Run(es + [e]).Some? ==> Run(es + [e]).value == Next(Run(es).value, e)
  {
    assert (es + [e])[..|es|] == es;
  }

  lemma QuietPrefix(before: seq<Event>, init: seq<Event>, e: Event)
    requires Quiet(before, init + [e])
    ensures Quiet(before, init)
  {
    var all := init + [e];
    forall k | 0 <= k < |init|
      ensures Run(before + init[..k]).Some? && !PassesLock(Run(before + init[..k]).value, init[k])
    {
      assert all[..k] == init[..k] && all[k] == init[k];
    }
  }

  lemma {:induction false} SlotStaysUntilVacated(before: seq<Event>, after: seq<Event>, slot: Slot)
    requires Run(before).Some? && Run(before + after).Some? && Quiet(before, after)
    ensures slot in LockSlots(Run(before + after).value) <==>
        slot in LockSlots(Run(before).value) && !Vacated(after, slot)
    decreases |after|
  {
    if after == [] {
      assert before + after == before;
    } else {
      var init, e := after[..|after|-1], after[|after|-1];
      assert after == init + [e];
      QuietSnoc(before, init, e);
      SlotStaysUntilVacated(before, init, slot);
      QuietStep(Run(before + init).value, e, slot);
      VacatedSnoc(init, e, slot);
    }
  }

  lemma FreeIffNoSlots(s: State)
    ensures LockHeld(s) <==> LockSlots(s) != {}
  {
    if LockHeld(s) {
      var slot :| slot in s.handles && s.handles[slot].lock;
      assert slot in LockSlots(s);
    }
  }

  /**
   * While the lock is not handed on, and whatever else happens - processes starting under old ids, old handle
   * values naming other objects - any live process can open it if and only if every process that owned a
   * handle on it has died or closed that handle.  So a dead host never blocks the next upgrade.
   */
  lemma FreeLockCanBeOpened(before: seq<Event>, after: seq<Event>, pid: Pid, value: HandleValue)
    requires Run(before).Some? && Run(before + after).Some? && Quiet(before, after)
    requires pid in Run(before + after).value.processes && Slot(pid, value) !in Run(before + after).value.handles
    ensures Enabled(Run(before + after).value, OpenLock(pid, value)) <==>
            forall slot :: slot in LockSlots(Run(before).value) ==> Vacated(after, slot)
  {
    var first, last := LockSlots(Run(before).value), LockSlots(Run(before + after).value);
    forall slot
      ensures slot in last <==> slot in first && !Vacated(after, slot)
    {
      SlotStaysUntilVacated(before, after, slot);
    }
    FreeIffNoSlots(Run(before + after).value);
    assert last == {} <==> forall slot :: slot in first ==> Vacated(after, slot) by {
      if last != {} {
        var slot :| slot in last;
        assert slot in first && !Vacated(after, slot);
      }
    }
  }

  /** When the parent check succeeds the process it found is the one that started the caller, not a later
      process under the same id. */
  lemma ParentIsTheStarter(es: seq<Event>, caller: Pid, host: Pid, expected: Option<int>)
    requires Run(es).Some? && ParentChecks(Run(es).value, caller, host, expected)
    ensures Run(es).value.processes[host].birth == Run(es).value.processes[caller].parentBirth
    ensures expected.Some? ==> Run(es).value.processes[caller].parentBirth == expected.value
  {
    RunKeepsInv(es);
  }

  /** The process under this id, if there is one, was born after `birth`. */
  predicate BornLater(s: State, pid: Pid, birth: int) {
    birth < s.clock && (pid in s.processes ==> birth < s.processes[pid].birth)
  }

  lemma {:induction false} SuccessorsAreBornLater(es: seq<Event>, k: nat, host: Pid, birth: int)
    requires Run(es).Some? && k < |es| && es[k].Die? && es[k].pid == host && birth < es[k].at
    ensures BornLater(Run(es).value, host, birth)
    decreases |es|
  {
    var init := es[..|es|-1];
    if k < |init| { SuccessorsAreBornLater(init, k, host, birth); }
  }

  /** A lease dies with its host: once the process born at `birth` is gone, nobody borrows or releases a handle
      on its word, whatever process bears its id and whatever object the handle value names by then. */
  lemma LeaseDiesWithHost(es: seq<Event>, k: nat, host: Pid, birth: int, e: Event)
    requires Run(es).Some? && k < |es| && es[k].Die? && es[k].pid == host && birth < es[k].at
    requires (e.TakeFromParent? || e.MoveFromParent?) && e.host == host && e.created == birth
    ensures !Enabled(Run(es).value, e)
  {
    SuccessorsAreBornLater(es, k, host, birth);
  }

  /** The steps of `Acquire` leave the lock with the host alone, even if the helper dies as soon as it has
      handed it over; if it dies before, the lock is free again. */
  lemma AcquireHandsOver(s: State, helper: Pid, host: Pid, v: HandleValue, to: HandleValue, at: int)
    requires OneHolder(s) && ParentChecks(s, helper, host, None) && helper != host && s.clock <= at
    requires Enabled(s, OpenLock(helper, v)) && Slot(host, to) !in s.handles
    ensures var afterOpen := Next(s, OpenLock(helper, v));
            var given := Next(afterOpen, GiveToParent(helper, host, v, to));
            && (forall slot :: slot in Next(given, CloseHandle(helper, v)).handles ==>
                  Next(given, CloseHandle(helper, v)).handles[slot].lock ==> slot == Slot(host, to))
            && LockHeld(Next(given, CloseHandle(helper, v)))
            && LockHeld(Next(given, Die(helper, at)))
            && !LockHeld(Next(afterOpen, Die(helper, at)))
  {
    var afterOpen := Next(s, OpenLock(helper, v));
    assert forall slot :: slot in s.handles ==> !s.handles[slot].lock;
    var given := Next(afterOpen, GiveToParent(helper, host, v, to));
    assert given.handles[Slot(host, to)].lock;
    var closed, died := Next(given, CloseHandle(helper, v)), Next(given, Die(helper, at));
    assert Slot(host, to) in closed.handles && closed.handles[Slot(host, to)].lock;
    assert Slot(host, to) in died.handles && died.handles[Slot(host, to)].lock;
  }

  /** The host alone has the lock, under this handle value. */
  predicate HostAlone(s: State, host: Pid, v: HandleValue) {
    && host in s.processes && Slot(host, v) in s.handles && s.handles[Slot(host, v)].lock
    && forall slot :: slot in s.handles && s.handles[slot].lock ==> slot == Slot(host, v)
  }

  /** A later child of the host can borrow the lock, and while it has it the lock outlives the host: nobody else
      can open it until the child closes its handle or dies. */
  lemma BorrowerKeepsTheLock(s: State, host: Pid, v: HandleValue, child: Pid, to: HandleValue, at: int, dies: int)
    requires HostAlone(s, host, v) && child !in s.processes && Slot(child, to) !in s.handles
    requires s.clock <= at <= dies && s.processes[host].birth < at
    ensures Enabled(s, Spawn(child, host, at))
    ensures var spawned := Next(s, Spawn(child, host, at));
            var borrow := TakeFromParent(child, host, s.processes[host].birth, v, to);
            && Enabled(spawned, borrow)
            && var borrowed := Next(spawned, borrow);
            && Slot(child, to) in borrowed.handles && borrowed.handles[Slot(child, to)] == s.handles[Slot(host, v)]
            && Slot(host, v) in borrowed.handles && Enabled(borrowed, Die(host, dies))
            && var orphaned := Next(borrowed, Die(host, dies));
            && HostAlone(orphaned, child, to)
            && (forall pid, value :: !Enabled(orphaned, OpenLock(pid, value)))
            && !LockHeld(Next(orphaned, CloseHandle(child, to))) && !LockHeld(Next(orphaned, Die(child, dies)))
  {
  }

  /** A helper's release takes the handle away from the host, and closing what it took frees the lock. */
  lemma ReleaseFreesTheLock(s: State, host: Pid, v: HandleValue, helper: Pid, to: HandleValue)
    requires HostAlone(s, host, v) && host != helper && Slot(helper, to) !in s.handles
    requires ParentChecks(s, helper, host, Some(s.processes[host].birth))
    ensures var release := MoveFromParent(helper, host, s.processes[host].birth, v, to);
            && Enabled(s, release)
            && var released := Next(s, release);
            && Slot(host, v) !in released.handles && Enabled(released, CloseHandle(helper, to))
            && !LockHeld(Next(released, CloseHandle(helper, to)))
  {
  }
}

/**
 * The maintenance gate (apps/image-admission/src/maintenance.ts: `createAdmissionMaintenanceGate`,
 * `admissionMaintenanceAllowsWork`): polled refreshes start one set of background loops while the platform
 * state allows it and stop them otherwise.
 *
 * A refresh is cut at its awaits: it asks for the state, the answer arrives, the call goes on, the promise is
 * settled.  Further refreshes, gate closings and answers come in any order in between.  `start` runs
 * without being interrupted, and a loop it has launched is alive exactly from its registration to its stop.
 */
module MaintenanceGate {
  import opened Options

  type LoopId = nat

  datatype UpgradeState = UpgradeState(phase: string, generation: string, runtimeRole: string, currentRole: string,
    targetVersion: string)
  datatype Identity = Identity(generation: string, version: string)

  predicate AllowsWork(state: Option<UpgradeState>, identity: Identity) {
    match state
    case None => false
    case Some(x) =>
      if x.phase != "active" then false
      else if identity.generation == "" then x.generation == "" && x.runtimeRole == ""
      else x.generation == identity.generation && x.runtimeRole == x.currentRole && x.targetVersion == identity.version
  }

  /** The state is active, and of this process: a process without a generation works before any upgrade only, one
      with a generation in the role that is current and at the version aimed for. */
  predicate OnDuty(x: UpgradeState, identity: Identity) {
    && x.phase == "active" && x.generation == identity.generation
    && (identity.generation == "" ==> x.runtimeRole == "")
    && (identity.generation != "" ==> x.runtimeRole == x.currentRole && x.targetVersion == identity.version)
  }

  /** A platform state lets at most one generation work, and of a generation one version. */
  lemma AllowsOneIdentity(state: Option<UpgradeState>, a: Identity, b: Identity)
    requires AllowsWork(state, a) && AllowsWork(state, b)
    ensures a.generation == b.generation && (a.generation != "" ==> a == b)
  {
  }

  /** Where the refresh in flight is. */
  datatype Phase = Idle | Reading | Answered(allowed: bool) | Settling

  /** `rounds` counts the calls of `start`; a loop belongs to the round that launched it. */
  datatype State = State(
    running: bool, closed: bool, phase: Phase, stops: seq<LoopId>,
    alive: set<LoopId>, round: map<LoopId, nat>, rounds: nat)

  datatype Event =
    | Refresh                                          // `refresh()`; joins the one in flight, if any
    | Read(state: Option<UpgradeState>, failed: bool)  // the read of the state returns or throws
    | Resume(launched: seq<LoopId>, throws: bool)      // after the answer; what `start` does if it is called
    | Settle
    | Close

  function Initial(): State { State(false, false, Idle, [], {}, map[], 0) }

  predicate Distinct(xs: seq<LoopId>) { forall i, j :: 0 <= i < j < |xs| ==> xs[i] != xs[j] }

  predicate Enabled(s: State, e: Event) {
    match e
    case Refresh => true
    case Read(_, _) => s.phase == Reading
    case Resume(launched, _) => s.phase.Answered? && Distinct(launched) && forall i :: 0 <= i < |launched| ==>
      launched[i] !in s.round
    case Settle => s.phase == Settling
    case Close => true
  }

  function Elements(xs: seq<LoopId>): set<LoopId> { set x | x in xs }

  /** `stop()`. */
  function Stopped(s: State): State {
    s.(running := false, stops := [], alive := s.alive - Elements(s.stops))
  }

  predicate Starts(s: State) { s.phase.Answered? && s.phase.allowed && !s.running && !s.closed }

  function Launched(s: State, launched: seq<LoopId>): State {
    s.(stops := s.stops + launched, alive := s.alive + Elements(launched),
       round := map x | x in s.round.Keys + Elements(launched) :: if x in launched then s.rounds else s.round[x],
       rounds := s.rounds + 1)
  }

  function Next(s: State, e: Event, identity: Identity): State
    requires Enabled(s, e)
  {
    match e
    case Refresh => if s.phase != Idle then s else s.(phase := if s.closed then Answered(false) else Reading)
    case Read(state, failed) => s.(phase := Answered(!failed && !s.closed && AllowsWork(state, identity)))
    case Resume(launched, throws) =>
      if !s.phase.allowed then Stopped(s).(phase := Settling)
      else if s.running || s.closed then s.(phase := Settling)
      else
        var t := Launched(s, launched);
        if throws then Stopped(t).(phase := Settling) else t.(running := true, phase := Settling)
    case Settle => s.(phase := Idle)
    case Close => Stopped(s.(closed := true))
  }

  function Run(s0: State, es: seq<Event>, identity: Identity): Option<State> {
    if es == [] then Some(s0)
    else
      match Run(s0, es[..|es| - 1], identity)
      case None => None
      case Some(s) => if Enabled(s, es[|es| - 1]) then Some(Next(s, es[|es| - 1], identity)) else None
  }

  // ----- The gate itself ---------------------------------------------------------------------------

  class Gate {
    const identity: Identity
    var running: bool
    var closed: bool
    var phase: Phase
    var stops: seq<LoopId>
    // What the loops do, as far as the gate causes it.
    ghost var alive: set<LoopId>
    ghost var round: map<LoopId, nat>
    ghost var rounds: nat

    ghost function Contents(): State
      reads this
    {
      State(running, closed, phase, stops, alive, round, rounds)
    }

    constructor (identity: Identity)
      ensures Contents() == Initial() && this.identity == identity
    {
      this.identity := identity;
      running, closed, phase, stops := false, false, Idle, [];
      alive, round, rounds := {}, map[], 0;
    }

    /** Stops every loop, last registered first. */
    method Stop()
      modifies this
      ensures Contents() == Stopped(old(Contents()))
    {
      running := false;
      var current := stops;
      stops := [];
      var i := |current|;
      while i > 0
        invariant 0 <= i <= |current|
        invariant alive == old(alive) - Elements(current[i..])
        invariant !running && stops == [] && closed == old(closed) && phase == old(phase)
        invariant round == old(round) && rounds == old(rounds)
      {
        i := i - 1;
        alive := alive - {current[i]};
        assert current[i..] == [current[i]] + current[i + 1..];
        assert Elements(current[i..]) == {current[i]} + Elements(current[i + 1..]);
      }
      assert current[0..] == current;
    }

    method Begin()
      modifies this
      ensures Contents() == Next(old(Contents()), Refresh, identity)
    {
      if phase != Idle { return; }
      phase := if closed then Answered(false) else Reading;
    }

    method Answer(state: Option<UpgradeState>, failed: bool)
      requires Enabled(Contents(), Read(state, failed))
      modifies this
      ensures Contents() == Next(old(Contents()), Read(state, failed), identity)
      ensures phase == Answered(!failed && !closed && state.Some? && OnDuty(state.value, identity))
    {
      phase := Answered(!failed && !closed && AllowsWork(state, identity));
    }

    /** The rest of a refresh; `launched` are the loops `start` registers before it returns or throws. */
    method GoOn(launched: seq<LoopId>, throws: bool)
      requires Enabled(Contents(), Resume(launched, throws))
      modifies this
      ensures Contents() == Next(old(Contents()), Resume(launched, throws), identity)
    {
      if !phase.allowed {
        Stop();
      } else if !(running || closed) {
        var k := 0;
        while k < |launched|
          invariant 0 <= k <= |launched|
          invariant stops == old(stops) + launched[..k] && alive == old(alive) + Elements(launched[..k])
          invariant running == old(running) && closed == old(closed) && phase == old(phase)
          invariant round == old(round) && rounds == old(rounds)
        {
          stops := stops + [launched[k]];
          alive := alive + {launched[k]};
          assert launched[..k + 1] == launched[..k] + [launched[k]];
          assert Elements(launched[..k + 1]) == Elements(launched[..k]) + {launched[k]};
          k := k + 1;
        }
        assert launched[..k] == launched;
        round := Launched(old(Contents()), launched).round;
        rounds := rounds + 1;
        if throws {
          Stop();
        } else {
          running := true;
        }
      }
      phase := Settling;
    }

    method CloseGate()
      modifies this
      ensures Contents() == Next(old(Contents()), Close, identity)
    {
      closed := true;
      Stop();
    }
  }

  // ----- Every interleaving ------------------------------------------------------------------------

  /** The loops alive are those the gate can stop; they are of the last round; a gate not running has none. */
  ghost predicate Inv(s: State) {
    && s.alive == Elements(s.stops) && s.alive <= s.round.Keys
    && (forall x :: x in s.round ==> s.round[x] < s.rounds)
    && (forall x :: x in s.alive ==> s.round[x] == s.rounds - 1)
    && (!s.running ==> s.stops == [])
    && (s.closed ==> !s.running)
  }

  lemma NextKeepsInv(s: State, e: Event, identity: Identity)
    requires Inv(s) && Enabled(s, e)
    ensures Inv(Next(s, e, identity))
  {
    if e.Resume? {
      var t := Launched(s, e.launched);
      assert Starts(s) ==> s.stops + e.launched == e.launched;
    }
  }

  lemma {:induction false} RunKeepsInv(es: seq<Event>, identity: Identity)
    requires Run(Initial(), es, identity).Some?
    ensures Inv(Run(Initial(), es, identity).value)
  {
    if es != [] {
      RunKeepsInv(es[..|es| - 1], identity);
      NextKeepsInv(Run(Initial(), es[..|es| - 1], identity).value, es[|es| - 1], identity);
    }
  }

  /** At most one set of loops is alive: any two living loops were launched by the same call of `start`. */
  lemma OneSetOfLoops(es: seq<Event>, identity: Identity, x: LoopId, y: LoopId)
    requires Run(Initial(), es, identity).Some?
    requires x in Run(Initial(), es, identity).value.alive && y in Run(Initial(), es, identity).value.alive
    ensures var s := Run(Initial(), es, identity).value;
      x in s.round && y in s.round && s.round[x] == s.round[y]
  {
    RunKeepsInv(es, identity);
  }

  /** Nothing is left alive by a refusal, by an unreadable state, or by a start that throws. */
  lemma NoLoopsUnlessStarted(es: seq<Event>, identity: Identity, launched: seq<LoopId>, throws: bool)
    requires Run(Initial(), es + [Resume(launched, throws)], identity).Some?
    ensures (es + [Resume(launched, throws)])[..|es|] == es && Run(Initial(), es, identity).Some?
    ensures var s, t := Run(Initial(), es, identity).value,
        Run(Initial(), es + [Resume(launched, throws)], identity).value;
      && (!s.phase.Answered? || !s.phase.allowed || (Starts(s) && throws) ==> t.alive == {})
      && (Starts(s) && !throws ==> t.alive == Elements(launched))
      && (!Starts(s) && s.phase.Answered? && s.phase.allowed ==> t.alive == s.alive)
  {
    assert (es + [Resume(launched, throws)])[..|es|] == es;
    RunKeepsInv(es, identity);
    var s := Run(Initial(), es, identity).value;
    assert Starts(s) ==> s.stops + launched == launched;
  }

  /** After `close` nothing is alive and nothing is started, whatever answers were still on their way. */
  lemma {:induction false} ClosedStaysQuiet(es: seq<Event>, later: seq<Event>, identity: Identity)
    requires Run(Initial(), es, identity).Some? && Enabled(Run(Initial(), es, identity).value, Close)
    requires Run(Next(Run(Initial(), es, identity).value, Close, identity), later, identity).Some?
    ensures var s := Next(Run(Initial(), es, identity).value, Close, identity);
      var t := Run(s, later, identity).value;
      Inv(t) && t.closed && t.alive == {} && t.rounds == s.rounds
  {
    RunKeepsInv(es, identity);
    var s := Next(Run(Initial(), es, identity).value, Close, identity);
    NextKeepsInv(Run(Initial(), es, identity).value, Close, identity);
    if later != [] {
      ClosedStaysQuiet(es, later[..|later| - 1], identity);
      NextKeepsInv(Run(s, later[..|later| - 1], identity).value, later[|later| - 1], identity);
    }
  }

  /** The answer at `k` allowed work, and neither a close nor another answer came after it. */
  ghost predicate Licensed(es: seq<Event>, identity: Identity, k: nat) {
    && k < |es| && es[k].Read? && !es[k].failed && es[k].state.Some? && OnDuty(es[k].state.value, identity)
    && forall j :: k < j < |es| ==> !es[j].Read? && !es[j].Resume?
  }

  lemma {:induction false} AllowedIsLicensed(es: seq<Event>, identity: Identity) returns (k: nat)
    requires Run(Initial(), es, identity).Some?
    requires Run(Initial(), es, identity).value.phase == Answered(true)
    ensures Licensed(es, identity, k)
  {
    var before, e := es[..|es| - 1], es[|es| - 1];
    var s := Run(Initial(), before, identity).value;
    if e.Read? {
      k := |es| - 1;
    } else {
      k := AllowedIsLicensed(before, identity);
      forall j | k < j < |es| ensures !es[j].Read? && !es[j].Resume? {
        if j < |before| { assert es[j] == before[j]; }
      }
      assert es[k] == before[k];
    }
  }

  /** And they do start: an answer that arrives licenses the start exactly if it was read, is for this process,
      and the gate is neither closed nor running. */
  lemma AnswerStartsIff(es: seq<Event>, identity: Identity, state: Option<UpgradeState>, failed: bool)
    requires Run(Initial(), es + [Read(state, failed)], identity).Some?
    ensures (es + [Read(state, failed)])[..|es|] == es && Run(Initial(), es, identity).Some?
    ensures var s := Run(Initial(), es, identity).value;
      Starts(Run(Initial(), es + [Read(state, failed)], identity).value) <==>
        !failed && state.Some? && OnDuty(state.value, identity) && !s.closed && !s.running
  {
    assert (es + [Read(state, failed)])[..|es|] == es;
  }

  /** Loops start only on the strength of the latest answer, one that allows this very process to work. */
  lemma StartIsLicensed(es: seq<Event>, identity: Identity) returns (k: nat)
    requires Run(Initial(), es, identity).Some? && Starts(Run(Initial(), es, identity).value)
    ensures Licensed(es, identity, k) && forall j :: 0 <= j < |es| ==> es[j] != Close
  {
    k := AllowedIsLicensed(es, identity);
    NeverClosed(es, identity);
  }

  lemma {:induction false} NeverClosed(es: seq<Event>, identity: Identity)
    requires Run(Initial(), es, identity).Some? && !Run(Initial(), es, identity).value.closed
    ensures forall j :: 0 <= j < |es| ==> es[j] != Close
  {
    if es != [] {
      var before, e := es[..|es| - 1], es[|es| - 1];
      NeverClosed(before, identity);
      forall j | 0 <= j < |es| ensures es[j] != Close {
        if j < |before| { assert es[j] == before[j]; }
      }
    }
  }

  lemma OneMore(es: seq<Event>, e: Event, identity: Identity)
    requires Run(Initial(), es, identity).Some? && Enabled(Run(Initial(), es, identity).value, e)
    ensures Run(Initial(), es + [e], identity) == Some(Next(Run(Initial(), es, identity).value, e, identity))
  {
    assert (es + [e])[..|es|] == es;
  }

  /** The refresh in flight, if any, comes to its end. */
  lemma RefreshEnds(es: seq<Event>, identity: Identity) returns (all: seq<Event>)
    requires Run(Initial(), es, identity).Some? && !Run(Initial(), es, identity).value.closed
    ensures es <= all && Run(Initial(), all, identity).Some?
    ensures var s, t := Run(Initial(), es, identity).value, Run(Initial(), all, identity).value;
      t.phase == Idle && !t.closed && t.round == s.round
  {
    all := es;
    if Run(Initial(), all, identity).value.phase == Reading {
      OneMore(all, Read(None, true), identity);
      all := all + [Read(None, true)];
    }
    if Run(Initial(), all, identity).value.phase.Answered? {
      OneMore(all, Resume([], true), identity);
      all := all + [Resume([], true)];
    }
    if Run(Initial(), all, identity).value.phase == Settling {
      OneMore(all, Settle, identity);
      all := all + [Settle];
    }
  }

  /** One refresh of an idle gate, from the call to the answer. */
  lemma RefreshAsks(es: seq<Event>, identity: Identity, state: Option<UpgradeState>) returns (all: seq<Event>)
    requires Run(Initial(), es, identity).Some?
    requires var s := Run(Initial(), es, identity).value; s.phase == Idle && !s.closed
    ensures es <= all && Run(Initial(), all, identity).Some?
    ensures var s, t := Run(Initial(), es, identity).value, Run(Initial(), all, identity).value;
      t == s.(phase := Answered(state.Some? && OnDuty(state.value, identity)))
  {
    OneMore(es, Refresh, identity);
    OneMore(es + [Refresh], Read(state, false), identity);
    all := es + [Refresh] + [Read(state, false)];
  }

  /** A gate that is not closed can always be stopped and started again: a missing state ends every loop, and a
      later one that is for this process starts a new set, whatever loops `start` launches. */
  lemma StopsAndStartsAgain(es: seq<Event>, identity: Identity, x: UpgradeState, launched: seq<LoopId>)
    returns (stopped: seq<Event>, started: seq<Event>)
    requires Run(Initial(), es, identity).Some? && !Run(Initial(), es, identity).value.closed
    requires OnDuty(x, identity) && Distinct(launched)
    requires forall i :: 0 <= i < |launched| ==> launched[i] !in Run(Initial(), es, identity).value.round
    ensures es <= stopped <= started && Run(Initial(), stopped, identity).Some?
    ensures Run(Initial(), started, identity).Some?
    ensures var s := Run(Initial(), stopped, identity).value; !s.running && s.alive == {}
    ensures var t := Run(Initial(), started, identity).value; t.running && t.alive == Elements(launched)
  {
    var idle := RefreshEnds(es, identity);
    var asked := RefreshAsks(idle, identity, None);
    OneMore(asked, Resume([], true), identity);
    stopped := asked + [Resume([], true)];
    RunKeepsInv(stopped, identity);
    OneMore(stopped, Settle, identity);
    var answered := RefreshAsks(stopped + [Settle], identity, Some(x));
    OneMore(answered, Resume(launched, false), identity);
    started := answered + [Resume(launched, false)];
    assert [] + launched == launched;
  }

  /**
   * Two processes that both start their loops on the same platform state belong to one generation and, if it
   * is a named one, to one version of it: an upgrade never has the old and the new version at work on it.
   */
  lemma StartersAgree(es: seq<Event>, a: Identity, fs: seq<Event>, b: Identity) returns (j: nat, k: nat)
    requires Run(Initial(), es, a).Some? && Starts(Run(Initial(), es, a).value)
    requires Run(Initial(), fs, b).Some? && Starts(Run(Initial(), fs, b).value)
    ensures Licensed(es, a, j) && Licensed(fs, b, k)
    ensures es[j].state == fs[k].state ==> a.generation == b.generation && (a.generation != "" ==> a == b)
  {
    j := AllowedIsLicensed(es, a);
    k := AllowedIsLicensed(fs, b);
    if es[j].state == fs[k].state { AllowsOneIdentity(es[j].state, a, b); }
  }
}

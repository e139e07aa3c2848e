/**
 * Delivery of canvas facts to running Jobs (apps/scheduler/src/canvas-updates.ts): a ledger row is planned
 * before the message is sent and settled afterwards.
 *
 * Any number of schedulers handle any number of notifications; each may stop for good between any two
 * awaits.  A transaction is one step, and its commit may succeed without the caller learning of it.
 */
module CanvasBroadcast {
  import opened Options

  /** The unique key of a ledger row: source node, target Job, attempt number. */
  datatype Key = Key(node: string, job: string, attempt: nat)

  datatype Status = Planned | Injected | Failed | Unknown

  datatype Stage =
    | Intending    // about to plan
    | Owning       // its own row was inserted; the send is next
    | Sending      // the send was called
    | Sent         // the send resolved; the injected settlement is next
    | Doubting     // something threw; the unknown settlement is next

  datatype Delivery = Delivery(key: Key, stage: Stage)

  datatype State = State(
    rows: map<Key, Status>,
    deliveries: map<nat, Delivery>,
    calls: seq<Key>,          // every call of `send`
    resolved: set<Key>,       // the keys whose send resolved
    left: seq<Key>)           // every time a row stopped being planned

  datatype Event =
    | Notice(d: nat, key: Key)
    | Plan(d: nat, begun: bool, seen: bool)   // insert and begin the effect; `seen`: the caller saw the commit
    | PlanFails(d: nat)
    | CallSend(d: nat)
    | SendResolves(d: nat)
    | SendRejects(d: nat)
    | SettleInjected(d: nat, committed: bool, seen: bool)
    | SettleUnknown(d: nat, committed: bool)
    | Crash(d: nat)
    | Recover(key: Key, status: Status)       // another writer closes a planned row

  predicate At(s: State, d: nat, stage: Stage) { d in s.deliveries && s.deliveries[d].stage == stage }

  predicate Enabled(s: State, e: Event) {
    match e
    case Notice(d, _) => d !in s.deliveries
    case Plan(d, _, _) => At(s, d, Intending)
    case PlanFails(d) => At(s, d, Intending)
    case CallSend(d) => At(s, d, Owning)
    case SendResolves(d) => At(s, d, Sending)
    case SendRejects(d) => At(s, d, Sending)
    case SettleInjected(d, committed, seen) => At(s, d, Sent) && (seen ==> committed)
    case SettleUnknown(d, _) => At(s, d, Doubting)
    case Crash(d) => d in s.deliveries
    case Recover(key, status) => status in {Failed, Unknown}
  }

  /** `UPDATE ... WHERE delivery_status = 'planned'`. */
  function Settle(s: State, key: Key, status: Status): State {
    if key in s.rows && s.rows[key].Planned? then s.(rows := s.rows[key := status], left := s.left + [key]) else s
  }

  function Moved(s: State, d: nat, stage: Stage): State
    requires d in s.deliveries
  {
    s.(deliveries := s.deliveries[d := s.deliveries[d].(stage := stage)])
  }

  function Over(s: State, d: nat): State { s.(deliveries := s.deliveries - {d}) }

  function Next(s: State, e: Event): State
    requires Enabled(s, e)
  {
    match e
    case Notice(d, key) => s.(deliveries := s.deliveries[d := Delivery(key, Intending)])
    case Plan(d, begun, seen) =>
      var key := s.deliveries[d].key;
      if key in s.rows || !begun then Over(s, d)
      else
        var planned := s.(rows := s.rows[key := Planned]);
        if seen then Moved(planned, d, Owning) else Over(planned, d)
    case PlanFails(d) => Over(s, d)
    case CallSend(d) => Moved(s, d, Sending).(calls := s.calls + [s.deliveries[d].key])
    case SendResolves(d) => Moved(s, d, Sent).(resolved := s.resolved + {s.deliveries[d].key})
    case SendRejects(d) => Moved(s, d, Doubting)
    case SettleInjected(d, committed, seen) =>
      var settled := if committed then Settle(s, s.deliveries[d].key, Injected) else s;
      if seen then Over(settled, d) else Moved(settled, d, Doubting)
    case SettleUnknown(d, committed) => Over(if committed then Settle(s, s.deliveries[d].key, Unknown) else s, d)
    case Crash(d) => Over(s, d)
    case Recover(key, status) => Settle(s, key, status)
  }

  function Run(es: seq<Event>): Option<State> {
    if es == [] then Some(State(map[], map[], [], {}, []))
    else
      match Run(es[..|es|-1])
      case None => None
      case Some(s) => if Enabled(s, es[|es|-1]) then Some(Next(s, es[|es|-1])) else None
  }

  // ---------- What every step keeps ----------

  predicate Once(log: seq<Key>) {
    forall i, j :: 0 <= i < j < |log| ==> log[i] != log[j]
  }

  /** One delivery at most owns a row, and it alone may call `send`, which nobody has done before. */
  predicate Owned(s: State) {
    && (forall d :: d in s.deliveries && !s.deliveries[d].stage.Intending? ==> s.deliveries[d].key in s.rows)
    && (forall d, c :: d in s.deliveries && c in s.deliveries && s.deliveries[d].key == s.deliveries[c].key ==>
          !s.deliveries[d].stage.Intending? && !s.deliveries[c].stage.Intending? ==> d == c)
    && (forall d :: d in s.deliveries && s.deliveries[d].stage.Owning? ==> s.deliveries[d].key !in s.calls)
    && (forall k :: k in s.calls ==> k in s.rows)
    && Once(s.calls)
  }

  /** What the stages of a delivery mean. */
  predicate Staged(s: State) {
    && (forall d :: d in s.deliveries && s.deliveries[d].stage in {Sending, Sent, Doubting} ==>
      s.deliveries[d].key in s.calls)
    && (forall d :: d in s.deliveries && s.deliveries[d].stage.Sent? ==> s.deliveries[d].key in s.resolved)
  }

  /** What the statuses of a row mean. */
  predicate Meant(s: State) {
    && (forall k :: k in s.rows && s.rows[k].Injected? ==> k in s.resolved)
    && (forall k :: k in s.left ==> k in s.rows && !s.rows[k].Planned?)
    && (forall k :: k in s.rows && !s.rows[k].Planned? ==> k in s.left)
    && Once(s.left)
  }

  /** The delivery leaves, and nothing else changes but the status of a row. */
  lemma OverKeepsOwned(s: State, d: nat, rows: map<Key, Status>)
    requires Owned(s) && s.rows.Keys <= rows.Keys
    ensures Owned(Over(s, d).(rows := rows))
  {
  }

  lemma PlanKeepsOwned(s: State, e: Event)
    requires e.Plan? && Enabled(s, e) && Owned(s)
    ensures Owned(Next(s, e))
  {
    var key := s.deliveries[e.d].key;
    if key in s.rows || !e.begun {
      OverKeepsOwned(s, e.d, s.rows);
    } else if !e.seen {
      OverKeepsOwned(s, e.d, s.rows[key := Planned]);
    } else {
      assert forall d :: d in s.deliveries && !s.deliveries[d].stage.Intending? ==> s.deliveries[d].key != key;
    }
  }

  lemma SendKeepsOwned(s: State, e: Event)
    requires e.CallSend? && Enabled(s, e) && Owned(s)
    ensures Owned(Next(s, e))
  {
  }

  /** A delivery past its send moves on, with or without a change of its row. */
  lemma MoveKeepsOwned(s: State, d: nat, stage: Stage, rows: map<Key, Status>)
    requires Owned(s) && d in s.deliveries && !s.deliveries[d].stage.Intending? && s.rows.Keys <= rows.Keys
    requires !stage.Intending? && !stage.Owning?
    ensures Owned(Moved(s, d, stage).(rows := rows))
  {
  }

  lemma SettleKeepsOwned(s: State, e: Event)
    requires (e.SettleInjected? || e.SettleUnknown?) && Enabled(s, e) && Owned(s)
    ensures Owned(Next(s, e))
  {
    var key := s.deliveries[e.d].key;
    var status := if e.SettleInjected? then Injected else Unknown;
    var t := if e.committed then Settle(s, key, status) else s;
    if e.SettleInjected? && !e.seen {
      MoveKeepsOwned(s, e.d, Doubting, t.rows);
    } else {
      OverKeepsOwned(s, e.d, t.rows);
    }
  }

  lemma NextKeepsOwned(s: State, e: Event)
    requires Enabled(s, e) && Owned(s)
    ensures Owned(Next(s, e))
  {
    if e.Plan? {
      PlanKeepsOwned(s, e);
    } else if e.CallSend? {
      SendKeepsOwned(s, e);
    } else if e.SettleInjected? || e.SettleUnknown? {
      SettleKeepsOwned(s, e);
    } else if e.PlanFails? || e.Crash? {
      OverKeepsOwned(s, e.d, s.rows);
    } else if e.SendResolves? {
      MoveKeepsOwned(s, e.d, Sent, s.rows);
    } else if e.SendRejects? {
      MoveKeepsOwned(s, e.d, Doubting, s.rows);
    }
  }

  lemma NextKeepsStaged(s: State, e: Event)
    requires Enabled(s, e) && Staged(s)
    ensures Staged(Next(s, e))
  {
  }

  lemma NextKeepsMeant(s: State, e: Event)
    requires Enabled(s, e) && Staged(s) && Meant(s)
    ensures Meant(Next(s, e))
  {
    if e.SettleInjected? {
      assert s.deliveries[e.d].stage.Sent?;
    }
  }

  lemma {:induction false} RunKeepsInv(es: seq<Event>)
    requires Run(es).Some?
    ensures Owned(Run(es).value) && Staged(Run(es).value) && Meant(Run(es).value)
  {
    if es != [] {
      var s, e := Run(es[..|es|-1]).value, es[|es|-1];
      RunKeepsInv(es[..|es|-1]);
      NextKeepsOwned(s, e);
      NextKeepsStaged(s, e);
      NextKeepsMeant(s, e);
    }
  }

  // ---------- Main results ----------

  /** In every run `send` is called at most once for a source node, target Job and attempt, and a row that is no
      longer planned stopped being so exactly once. */
  lemma AtMostOneSend(es: seq<Event>)
    requires Run(es).Some?
    ensures var s := Run(es).value;
            && (forall i, j :: 0 <= i < j < |s.calls| ==> s.calls[i] != s.calls[j])
            && (forall i, j :: 0 <= i < j < |s.left| ==> s.left[i] != s.left[j])
            && (forall k :: k in s.left <==> k in s.rows && s.rows[k] != Planned)
  {
    RunKeepsInv(es);
  }

  /** A row marked injected means the send resolved; a message was only ever sent under a ledger row. */
  lemma InjectedMeansSent(es: seq<Event>, k: Key)
    requires Run(es).Some?
    ensures var s := Run(es).value;
            && (k in s.rows && s.rows[k].Injected? ==> k in s.resolved)
            && (k in s.calls ==> k in s.rows)
  {
    RunKeepsInv(es);
  }

  /** A settled row never changes again, whatever deliveries, crashes and recoveries follow. */
  lemma SettledStays(s: State, e: Event, k: Key)
    requires Enabled(s, e) && k in s.rows && !s.rows[k].Planned?
    ensures k in Next(s, e).rows && Next(s, e).rows[k] == s.rows[k]
  {
  }

  lemma {:induction false} SettledStaysForever(before: seq<Event>, after: seq<Event>, k: Key)
    requires Run(before).Some? && Run(before + after).Some?
    requires var s := Run(before).value; k in s.rows && !s.rows[k].Planned?
    ensures k in Run(before + after).value.rows && Run(before + after).value.rows[k] == Run(before).value.rows[k]
  {
    if after == [] {
      assert before + after == before;
    } else {
      var es := before + after;
      assert es[..|es|-1] == before + after[..|after|-1];
      SettledStaysForever(before, after[..|after|-1], k);
      SettledStays(Run(es[..|es|-1]).value, es[|es|-1], k);
    }
  }

  // ---------- When a message can still be sent ----------

  /** The row is there and the delivery that planned it is gone without having called `send`. */
  ghost predicate Lost(s: State, k: Key) {
    && k in s.rows && k !in s.calls
    && forall d :: d in s.deliveries && s.deliveries[d].key == k ==> !s.deliveries[d].stage.Owning?
  }

  lemma LostStaysLost(s: State, e: Event, k: Key)
    requires Enabled(s, e) && Lost(s, k)
    ensures Lost(Next(s, e), k)
  {
  }

  lemma {:induction false} LostForever(es: seq<Event>, more: seq<Event>, k: Key)
    requires Run(es).Some? && Run(es + more).Some? && Lost(Run(es).value, k)
    ensures Lost(Run(es + more).value, k)
  {
    if more == [] {
      assert es + more == es;
    } else {
      var all := es + more;
      assert all[..|all|-1] == es + more[..|more|-1];
      LostForever(es, more[..|more|-1], k);
      LostStaysLost(Run(all[..|all|-1]).value, all[|all|-1], k);
    }
  }

  ghost predicate Sends(es: seq<Event>, more: seq<Event>, k: Key) {
    Run(es + more).Some? && k in Run(es + more).value.calls
  }

  lemma OneMore(es: seq<Event>, more: seq<Event>, e: Event)
    requires Run(es + more).Some? && Enabled(Run(es + more).value, e)
    ensures Run(es + (more + [e])) == Some(Next(Run(es + more).value, e))
  {
    var all := es + (more + [e]);
    assert all[..|all|-1] == es + more && all[|all|-1] == e;
  }

  lemma FreshDelivery(ids: set<nat>) returns (d: nat)
    ensures forall i :: i in ids ==> i < d
  {
    if ids == {} {
      d := 0;
    } else {
      var m :| m in ids;
      var n := FreshDelivery(ids - {m});
      d := if n <= m then m + 1 else n;
      assert forall i :: i in ids && i != m ==> i in ids - {m};
    }
  }

  /** The end of a delivery that owns its row: called, and settled as the outcomes of its steps say. */
  lemma SendEndsAs(es: seq<Event>, d: nat, resolves: bool, settled: bool, settleSeen: bool, doubtSettled: bool)
    returns (more: seq<Event>)
    requires Run(es).Some? && At(Run(es).value, d, Owning) && (settleSeen ==> settled)
    requires var s := Run(es).value; s.deliveries[d].key in s.rows && s.rows[s.deliveries[d].key] == Planned
    ensures Run(es + more).Some?
    ensures var s, t := Run(es).value, Run(es + more).value;
            var k := s.deliveries[d].key;
            && t.deliveries == s.deliveries - {d} && t.calls == s.calls + [k]
            && t.rows == s.rows[k := if resolves && settled then Injected else if doubtSettled then Unknown
                                     else Planned]
  {
    assert es + [] == es;
    OneMore(es, [], CallSend(d));
    var called := [] + [CallSend(d)];
    if resolves {
      OneMore(es, called, SendResolves(d));
      var sent := called + [SendResolves(d)];
      SettlementEnds(Run(es + sent).value, d, settled, settleSeen);
      OneMore(es, sent, SettleInjected(d, settled, settleSeen));
      more := sent + [SettleInjected(d, settled, settleSeen)];
      if settleSeen { return; }
    } else {
      OneMore(es, called, SendRejects(d));
      more := called + [SendRejects(d)];
    }
    DoubtEnds(Run(es + more).value, d, doubtSettled);
    OneMore(es, more, SettleUnknown(d, doubtSettled));
    more := more + [SettleUnknown(d, doubtSettled)];
  }

  lemma SettlementEnds(s: State, d: nat, settled: bool, seen: bool)
    requires At(s, d, Sent) && s.deliveries[d].key in s.rows && (seen ==> settled)
    ensures var t, k := Next(s, SettleInjected(d, settled, seen)), s.deliveries[d].key;
            && t.deliveries == (if seen then s.deliveries - {d} else s.deliveries[d := Delivery(k, Doubting)])
            && t.calls == s.calls && t.rows == if settled && s.rows[k] == Planned then s.rows[k := Injected] else s.rows
  {
  }

  lemma DoubtEnds(s: State, d: nat, settled: bool)
    requires At(s, d, Doubting) && s.deliveries[d].key in s.rows
    ensures var t, k := Next(s, SettleUnknown(d, settled)), s.deliveries[d].key;
            && t.deliveries == s.deliveries - {d} && t.calls == s.calls
            && t.rows == if settled && s.rows[k] == Planned then s.rows[k := Unknown] else s.rows
  {
  }

  lemma PlanEndsAs(s: State, d: nat, k: Key, begun: bool, seen: bool)
    requires Owned(s) && d !in s.deliveries && k !in s.rows
    ensures var noticed := Next(s, Notice(d, k));
            && Enabled(noticed, Plan(d, begun, seen))
            && var t := Next(noticed, Plan(d, begun, seen));
            && t.calls == s.calls && t.rows == (if begun then s.rows[k := Planned] else s.rows)
            && (begun && seen ==> t.deliveries == s.deliveries[d := Delivery(k, Owning)])
            && (!(begun && seen) ==> t.deliveries == s.deliveries)
            && (begun && !seen ==> Lost(t, k))
  {
  }

  /**
   * What becomes of a message whose row is not there yet, for every outcome of the steps of its delivery: of the
   * plan, of its acknowledgement, of the send, of the injected settlement and its acknowledgement, and of the
   * unknown settlement.  It is marked injected exactly if the send resolved and that settlement committed, seen
   * or not; a plan whose commit goes unseen is never sent.
   */
  lemma DeliveryEndsAs(es: seq<Event>, k: Key, begun: bool, planSeen: bool, resolves: bool, settled: bool,
    settleSeen: bool, doubtSettled: bool) returns (more: seq<Event>)
    requires Run(es).Some? && k !in Run(es).value.rows && (settleSeen ==> settled)
    ensures Run(es + more).Some?
    ensures var s, t := Run(es).value, Run(es + more).value;
            && t.deliveries == s.deliveries
            && t.calls == (if begun && planSeen then s.calls + [k] else s.calls)
            && (!begun ==> t.rows == s.rows)
            && (begun && !planSeen ==> t.rows == s.rows[k := Planned] && Lost(t, k))
            && (begun && planSeen ==>
                  t.rows == s.rows[k := if resolves && settled then Injected else if doubtSettled then Unknown
                                        else Planned])
  {
    RunKeepsInv(es);
    var s := Run(es).value;
    var d := FreshDelivery(s.deliveries.Keys);
    assert es + [] == es;
    OneMore(es, [], Notice(d, k));
    var noticed := [] + [Notice(d, k)];
    PlanEndsAs(s, d, k, begun, planSeen);
    OneMore(es, noticed, Plan(d, begun, planSeen));
    more := noticed + [Plan(d, begun, planSeen)];
    if begun && planSeen { more := ThenSends(es, more, d, resolves, settled, settleSeen, doubtSettled); }
  }

  lemma ThenSends(es: seq<Event>, planned: seq<Event>, d: nat, resolves: bool, settled: bool, settleSeen: bool,
    doubtSettled: bool) returns (more: seq<Event>)
    requires Run(es + planned).Some? && At(Run(es + planned).value, d, Owning) && (settleSeen ==> settled)
    requires var s := Run(es + planned).value; s.deliveries[d].key in s.rows && s.rows[s.deliveries[d].key] == Planned
    ensures Run(es + more).Some?
    ensures var s, t := Run(es + planned).value, Run(es + more).value;
            var k := s.deliveries[d].key;
            && t.deliveries == s.deliveries - {d} && t.calls == s.calls + [k]
            && t.rows == s.rows[k := if resolves && settled then Injected else if doubtSettled then Unknown
                                     else Planned]
  {
    var rest := SendEndsAs(es + planned, d, resolves, settled, settleSeen, doubtSettled);
    assert es + planned + rest == es + (planned + rest);
    more := planned + rest;
  }

  /** Planned, sent and settled without a fault, a delivery ends injected. */
  lemma UndisturbedDeliveryInjects(es: seq<Event>, k: Key) returns (more: seq<Event>)
    requires Run(es).Some? && k !in Run(es).value.rows
    ensures Sends(es, more, k) && Run(es + more).value.rows == Run(es).value.rows[k := Injected]
  {
    more := DeliveryEndsAs(es, k, true, true, true, true, true, true);
  }

  /**
   * The price of sending at most once: in a reachable state a message not yet sent can still be sent if and
   * only if its row is not planned yet or the delivery that planned it is still about to send.  A scheduler
   * that dies between the two loses the message.
   */
  lemma SendableIff(es: seq<Event>, k: Key)
    requires Run(es).Some? && k !in Run(es).value.calls
    ensures (exists more :: Sends(es, more, k)) <==> !Lost(Run(es).value, k)
  {
    var s := Run(es).value;
    if Lost(s, k) {
      forall more ensures !Sends(es, more, k) {
        if Sends(es, more, k) { LostForever(es, more, k); }
      }
    } else if k !in s.rows {
      var more := UndisturbedDeliveryInjects(es, k);
    } else {
      var d :| d in s.deliveries && s.deliveries[d].key == k && s.deliveries[d].stage.Owning?;
      assert es + [] == es;
      OneMore(es, [], CallSend(d));
      assert Sends(es, [] + [CallSend(d)], k);
    }
  }
}

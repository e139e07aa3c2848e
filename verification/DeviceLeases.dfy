/**
 * The device broker's lease table (apps/device-broker/src/leases.ts).
 *
 * `LeaseStore` is the table as the broker runs it; `Next` interleaves its operations, with the
 * await inside `acquire` splitting it into a check step and a commit step.  Every synchronous
 * stretch of code reads the clock at the points where the broker does; the readings never decrease.
 */
module DeviceLeases {
  import opened Options

  datatype Owner = Owner(jobId: string, attemptId: string, projectId: string)

  datatype Device = Device(key: string, model: Option<string>, transport: string)

  datatype Request = Request(owner: Owner, transport: string, deviceKey: Option<string>, model: Option<string>,
                             exclusive: bool, ttlSec: Option<int>)

  datatype Config = Config(allowedKeys: seq<string>, ttlDefaultSec: int, ttlMaxSec: int)

  datatype ReleaseNote = ReleaseNote(at: int, reason: string)

  datatype Lease = Lease(id: nat, device: string, transport: string, owner: Owner,
                         createdAt: int, expiresAt: int, released: Option<ReleaseNote>)

  datatype Refusal = UnsupportedTransport | NoDevice | DeviceBusy | NotWhitelisted

  /** What the check segment of `acquire` has decided when it reaches the await. */
  datatype Ticket = Ticket(id: nat, device: string, transport: string, owner: Owner, expiresAt: int)

  datatype CheckResult = Refused(reason: Refusal) | Granted(ticket: Ticket)

  predicate Active(l: Lease, now: int) {
    l.released.None? && l.expiresAt > now
  }

  // ---------- Device selection ----------

  predicate Truthy(s: Option<string>) { s.Some? && s.value != "" }

  predicate Matches(req: Request, d: Device) {
    && d.transport == req.transport
    && (if Truthy(req.deviceKey) then d.key == req.deviceKey.value
        else if Truthy(req.model) then d.model == req.model
        else true)
  }

  function Candidates(req: Request, devices: seq<Device>): seq<Device> {
    if devices == [] then []
    else (if Matches(req, devices[0]) then [devices[0]] else []) + Candidates(req, devices[1..])
  }

  function FirstAllowed(cfg: Config, devices: seq<Device>): Option<Device> {
    if devices == [] then None
    else if devices[0].key in cfg.allowedKeys then Some(devices[0])
    else FirstAllowed(cfg, devices[1..])
  }

  /** The device is one the request speaks of: by key if it names one, else by model if it names one. */
  predicate AskedFor(req: Request, d: Device) {
    && d.transport == req.transport
    && (req.deviceKey.Some? && req.deviceKey.value != "" ==> d.key == req.deviceKey.value)
    && ((req.deviceKey.None? || req.deviceKey.value == "") && req.model.Some? && req.model.value != "" ==>
          d.model.Some? && d.model.value == req.model.value)
  }

  predicate Eligible(cfg: Config, req: Request, d: Device) { AskedFor(req, d) && d.key in cfg.allowedKeys }

  /** The first device that was asked for and is on the whitelist. */
  predicate FirstEligible(cfg: Config, req: Request, devices: seq<Device>, k: nat) {
    && k < |devices| && Eligible(cfg, req, devices[k])
    && forall i :: 0 <= i < k ==> !Eligible(cfg, req, devices[i])
  }

  /** Filtering and searching find the first such device. */
  lemma {:induction false} SearchFindsFirst(cfg: Config, req: Request, devices: seq<Device>)
    ensures Candidates(req, devices) == [] <==> forall i :: 0 <= i < |devices| ==> !AskedFor(req, devices[i])
    ensures match FirstAllowed(cfg, Candidates(req, devices))
            case None => forall i :: 0 <= i < |devices| ==> !Eligible(cfg, req, devices[i])
            case Some(d) => exists k: nat :: FirstEligible(cfg, req, devices, k) && devices[k] == d
  {
    if devices != [] {
      var rest := devices[1..];
      SearchFindsFirst(cfg, req, rest);
      assert forall i :: 0 < i < |devices| ==> devices[i] == rest[i - 1];
      var found := Candidates(req, rest);
      if AskedFor(req, devices[0]) {
        assert Candidates(req, devices) == [devices[0]] + found && ([devices[0]] + found)[1..] == found;
      } else {
        assert Candidates(req, devices) == found;
      }
      if Eligible(cfg, req, devices[0]) {
        assert FirstEligible(cfg, req, devices, 0);
      } else {
        assert FirstAllowed(cfg, Candidates(req, devices)) == FirstAllowed(cfg, found);
        if FirstAllowed(cfg, found).Some? {
          var k: nat :| FirstEligible(cfg, req, rest, k) && FirstAllowed(cfg, found) == Some(rest[k]);
          assert FirstEligible(cfg, req, devices, k + 1);
        }
      }
    }
  }

  /** The time asked for, or the default, brought within a minute and the maximum. */
  function ClampTtl(cfg: Config, ttl: Option<int>): (r: int)
    ensures r <= cfg.ttlMaxSec
    ensures 60 <= cfg.ttlMaxSec ==> 60 <= r
    ensures ttl.Some? && 60 <= ttl.value <= cfg.ttlMaxSec ==> r == ttl.value
    ensures ttl.None? && 60 <= cfg.ttlDefaultSec <= cfg.ttlMaxSec ==> r == cfg.ttlDefaultSec
    ensures (if ttl.Some? then ttl.value else cfg.ttlDefaultSec) < 60 <= cfg.ttlMaxSec ==> r == 60
    ensures (if ttl.Some? then ttl.value else cfg.ttlDefaultSec) > cfg.ttlMaxSec ==> r == cfg.ttlMaxSec
  {
    var wanted := if ttl.Some? then ttl.value else cfg.ttlDefaultSec;
    var atLeast := if wanted < 60 then 60 else wanted;
    if atLeast > cfg.ttlMaxSec then cfg.ttlMaxSec else atLeast
  }

  // ---------- The table's operations as functions ----------

  function PurgeOne(l: Lease, now: int): Lease {
    if l.released.None? && l.expiresAt <= now then l.(released := Some(ReleaseNote(now, "expired"))) else l
  }

  function Purged(ls: seq<Lease>, now: int): seq<Lease> {
    seq(|ls|, i requires 0 <= i < |ls| => PurgeOne(ls[i], now))
  }

  function CountExpired(ls: seq<Lease>, now: int): nat {
    if ls == [] then 0
    else CountExpired(ls[..|ls|-1], now)
         + (if PurgeOne(ls[|ls|-1], now) != ls[|ls|-1] then 1 else 0)
  }

  predicate Busy(ls: seq<Lease>, device: string, now: int) {
    exists i :: 0 <= i < |ls| && ls[i].device == device && Active(ls[i], now)
  }

  /** Some lease on the device is neither released nor expired. */
  predicate Held(ls: seq<Lease>, device: string, now: int) {
    exists i :: 0 <= i < |ls| && ls[i].device == device && ls[i].released == None && now < ls[i].expiresAt
  }

  function ReleaseOne(l: Lease, id: nat, note: ReleaseNote): Lease {
    if l.id == id && l.released.None? then l.(released := Some(note)) else l
  }

  function ReleasedIn(ls: seq<Lease>, id: nat, note: ReleaseNote): seq<Lease> {
    seq(|ls|, i requires 0 <= i < |ls| => ReleaseOne(ls[i], id, note))
  }

  /** The decision of the check segment, on a table already purged. */
  function Decide(cfg: Config, ls: seq<Lease>, req: Request, devices: seq<Device>,
                  checkAt: int, expiryAt: int, id: nat): CheckResult
  {
    if req.transport != "adb" && req.transport != "hdc" then Refused(UnsupportedTransport)
    else if !req.exclusive then Refused(UnsupportedTransport)
    else
      var found := Candidates(req, devices);
      if found == [] then Refused(NoDevice)
      else
        match FirstAllowed(cfg, found)
        case None => Refused(NotWhitelisted)
        case Some(d) =>
          if Busy(ls, d.key, checkAt) then Refused(DeviceBusy)
          else Granted(Ticket(id, d.key, req.transport, req.owner, expiryAt + ClampTtl(cfg, req.ttlSec) * 1000))
  }

  function Issued(t: Ticket, now: int): Lease {
    Lease(t.id, t.device, t.transport, t.owner, now, t.expiresAt, None)
  }

  // ---------- The table as the broker runs it ----------

  class LeaseStore {
    const cfg: Config
    var leases: seq<Lease>

    constructor (cfg: Config)
      ensures this.cfg == cfg && leases == []
    {
      this.cfg := cfg;
      leases := [];
    }

    method PurgeExpired(now: int) returns (purged: nat)
      modifies this`leases
      ensures leases == Purged(old(leases), now)
      ensures purged == CountExpired(old(leases), now)
      ensures IsStep(cfg, old(leases), Purge(now), leases)
    {
      purged := 0;
      var i := 0;
      while i < |leases|
        invariant 0 <= i <= |leases| == |old(leases)|
        invariant forall k :: 0 <= k < i ==> leases[k] == PurgeOne(old(leases)[k], now)
        invariant forall k :: i <= k < |leases| ==> leases[k] == old(leases)[k]
        invariant purged == CountExpired(old(leases)[..i], now)
      {
        assert old(leases)[..i+1][..i] == old(leases)[..i];
        var l := leases[i];
        if l.released.None? && l.expiresAt <= now {
          leases := leases[i := l.(released := Some(ReleaseNote(now, "expired")))];
          purged := purged + 1;
        }
        i := i + 1;
      }
      assert old(leases)[..i] == old(leases);
    }

    /** The first lease that still holds the device. */
    method ActiveLeaseFor(device: string, now: int) returns (r: Option<Lease>)
      ensures r.Some? <==> Busy(leases, device, now)
      ensures r.Some? ==> r.value in leases && r.value.device == device && Active(r.value, now)
    {
      var i := 0;
      while i < |leases|
        invariant 0 <= i <= |leases|
        invariant forall k :: 0 <= k < i ==> !(leases[k].device == device && Active(leases[k], now))
      {
        if leases[i].device == device && leases[i].released.None? && !(leases[i].expiresAt <= now) {
          return Some(leases[i]);
        }
        i := i + 1;
      }
      return None;
    }

    /** `acquire` up to its await. */
    method BeginAcquire(req: Request, devices: seq<Device>, purgeAt: int, checkAt: int, expiryAt: int, id: nat)
      returns (r: CheckResult)
      modifies this`leases
      ensures leases == Purged(old(leases), purgeAt)
      ensures r == Decide(cfg, leases, req, devices, checkAt, expiryAt, id)
      ensures r == Refused(UnsupportedTransport) <==> req.transport !in {"adb", "hdc"} || !req.exclusive
      ensures req.transport in {"adb", "hdc"} && req.exclusive ==>
                && (r == Refused(NoDevice) <==> forall i :: 0 <= i < |devices| ==> !AskedFor(req, devices[i]))
                && (r == Refused(NotWhitelisted) <==>
                      && (exists i :: 0 <= i < |devices| && AskedFor(req, devices[i]))
                      && (forall i :: 0 <= i < |devices| ==> !Eligible(cfg, req, devices[i])))
                && (r == Refused(DeviceBusy) <==>
                      exists k: nat :: FirstEligible(cfg, req, devices, k) && Held(leases, devices[k].key, checkAt))
                && (r.Granted? ==>
                      exists k: nat :: FirstEligible(cfg, req, devices, k) && !Held(leases, devices[k].key, checkAt) &&
                        r.ticket == Ticket(id, devices[k].key, req.transport, req.owner,
                                           expiryAt + ClampTtl(cfg, req.ttlSec) * 1000))
      ensures IsStep(cfg, old(leases), Begin(req, devices, purgeAt, checkAt, expiryAt, id), leases)
      ensures Opens(cfg, old(leases), Begin(req, devices, purgeAt, checkAt, expiryAt, id), r)
    {
      var _ := PurgeExpired(purgeAt);
      if (req.transport != "adb" && req.transport != "hdc") || !req.exclusive {
        return Refused(UnsupportedTransport);
      }
      SearchFindsFirst(cfg, req, devices);
      var found := Candidates(req, devices);
      if found == [] {
        return Refused(NoDevice);
      }
      var chosen := FirstAllowed(cfg, found);
      if chosen.None? {
        return Refused(NotWhitelisted);
      }
      var holder := ActiveLeaseFor(chosen.value.key, checkAt);
      if holder.Some? {
        return Refused(DeviceBusy);
      }
      var ttlSec := ClampTtl(cfg, req.ttlSec);
      r := Granted(Ticket(id, chosen.value.key, req.transport, req.owner, expiryAt + ttlSec * 1000));
    }

    /** `acquire` after its await: the insert does not look at the table again. */
    method CommitAcquire(t: Ticket, now: int) returns (lease: Lease)
      modifies this`leases
      ensures lease == Issued(t, now)
      ensures leases == old(leases) + [lease]
      ensures forall s: State ::
                s.leases == old(leases) && Enabled(s, Commit(t.id, now)) && s.open[t.id].ticket == t ==>
                  Next(cfg, s, Commit(t.id, now)).leases == leases
    {
      lease := Issued(t, now);
      leases := leases + [lease];
    }

    method Release(id: nat, reason: string, purgeAt: int, now: int)
      requires forall i, j :: 0 <= i < j < |leases| ==> leases[i].id != leases[j].id
      modifies this`leases
      ensures leases == ReleasedIn(Purged(old(leases), purgeAt), id, ReleaseNote(now, reason))
      ensures IsStep(cfg, old(leases), Event.Release(id, reason, purgeAt, now), leases)
    {
      var _ := PurgeExpired(purgeAt);
      ghost var before := leases;
      var i := 0;
      while i < |leases|
        invariant 0 <= i <= |leases| && leases == before
        invariant forall k :: 0 <= k < i ==> leases[k].id != id
      {
        if leases[i].id == id {
          if leases[i].released.None? {
            leases := leases[i := leases[i].(released := Some(ReleaseNote(now, reason)))];
          }
          return;
        }
        i := i + 1;
      }
    }

    /** `session`, its token being verified between purge and lookup: an answer is a lease still in force. */
    method Session(id: nat, purgeAt: int, now: int) returns (r: Option<Lease>)
      requires forall i, j :: 0 <= i < j < |leases| ==> leases[i].id != leases[j].id
      requires purgeAt <= now
      modifies this`leases
      ensures leases == Purged(old(leases), purgeAt)
      ensures r.Some? <==> exists i :: 0 <= i < |old(leases)| && old(leases)[i].id == id && Active(old(leases)[i], now)
      ensures r.Some? ==> r.value in old(leases) && r.value.id == id && Active(r.value, now)
    {
      var _ := PurgeExpired(purgeAt);
      assert forall k :: 0 <= k < |leases| ==> leases[k] == PurgeOne(old(leases)[k], purgeAt);
      var i := 0;
      while i < |leases|
        invariant 0 <= i <= |leases| && leases == Purged(old(leases), purgeAt)
        invariant forall k :: 0 <= k < i ==> leases[k].id != id
      {
        if leases[i].id == id {
          if leases[i].released.Some? || leases[i].expiresAt <= now {
            return None;
          }
          assert leases[i] == old(leases)[i];
          return Some(leases[i]);
        }
        i := i + 1;
      }
      return None;
    }
  }

  // ---------- Interleaved runs ----------

  /** An acquire between its two steps, with the number of the step that made the check. */
  datatype Open = Open(ticket: Ticket, checked: nat)

  /** The step numbers at which a lease's acquire checked and committed. */
  datatype Window = Window(check: nat, commit: nat)

  datatype State = State(leases: seq<Lease>, open: map<nat, Open>, windows: map<nat, Window>, clock: int, step: nat)

  datatype Event =
    | Begin(req: Request, devices: seq<Device>, purgeAt: int, checkAt: int, expiryAt: int, id: nat)
    | Commit(id: nat, at: int)
    | Abandon(id: nat)
    | Release(id: nat, reason: string, purgeAt: int, at: int)
    | Purge(at: int)

  const INIT := State([], map[], map[], 0, 0)

  /** Clock readings never decrease and lease ids are fresh. */
  predicate Enabled(s: State, e: Event) {
    match e
    case Begin(_, _, p, c, x, id) => s.clock <= p <= c <= x && id !in s.open && id !in s.windows
    case Commit(id, at) => s.clock <= at && id in s.open
    case Abandon(id) => id in s.open
    case Release(_, _, p, at) => s.clock <= p <= at
    case Purge(at) => s.clock <= at
  }

  function Next(cfg: Config, s: State, e: Event): State
    requires Enabled(s, e)
  {
    match e
    case Begin(req, devices, p, c, x, id) =>
      var ls := Purged(s.leases, p);
      var r := Decide(cfg, ls, req, devices, c, x, id);
      State(ls, if r.Granted? then s.open[id := Open(r.ticket, s.step)] else s.open, s.windows, x, s.step + 1)
    case Commit(id, at) =>
      State(s.leases + [Issued(s.open[id].ticket, at)], s.open - {id},
            s.windows[id := Window(s.open[id].checked, s.step)], at, s.step + 1)
    case Abandon(id) =>
      State(s.leases, s.open - {id}, s.windows, s.clock, s.step + 1)
    case Release(id, reason, p, at) =>
      State(ReleasedIn(Purged(s.leases, p), id, ReleaseNote(at, reason)), s.open, s.windows, at, s.step + 1)
    case Purge(at) =>
      State(Purged(s.leases, at), s.open, s.windows, at, s.step + 1)
  }

  /** In any run whose table is `before`, the event leaves the table `after`. */
  ghost predicate IsStep(cfg: Config, before: seq<Lease>, e: Event, after: seq<Lease>) {
    forall s: State :: s.leases == before && Enabled(s, e) ==> Next(cfg, s, e).leases == after
  }

  /** In any such run the acquire stays open exactly if it was granted, with the ticket it was given. */
  ghost predicate Opens(cfg: Config, before: seq<Lease>, e: Event, r: CheckResult)
    requires e.Begin?
  {
    forall s: State :: s.leases == before && Enabled(s, e) ==>
      var t := Next(cfg, s, e);
      (r.Granted? <==> e.id in t.open) && (r.Granted? ==> t.open[e.id] == Open(r.ticket, s.step))
  }

  /** The state a run ends in; None when some event could not happen. */
  function Run(cfg: Config, es: seq<Event>): Option<State> {
    if es == [] then Some(INIT)
    else
      match Run(cfg, es[..|es|-1])
      case None => None
      case Some(s) => if Enabled(s, es[|es|-1]) then Some(Next(cfg, s, es[|es|-1])) else None
  }

  predicate Overlap(a: Window, b: Window) {
    a.check < b.commit && b.check < a.commit
  }

  // ---------- What every step keeps ----------

  predicate Accounted(cfg: Config, s: State) {
    && (forall i :: 0 <= i < |s.leases| ==>
          && s.leases[i].id in s.windows
          && s.windows[s.leases[i].id].check < s.windows[s.leases[i].id].commit < s.step
          && s.leases[i].createdAt <= s.clock
          && s.leases[i].expiresAt <= s.leases[i].createdAt + cfg.ttlMaxSec * 1000)
    && (forall i, j :: 0 <= i < j < |s.leases| ==> s.leases[i].id != s.leases[j].id)
    && (forall id :: id in s.open ==>
          && id !in s.windows
          && s.open[id].ticket.id == id
          && s.open[id].checked < s.step
          && s.open[id].ticket.expiresAt <= s.clock + cfg.ttlMaxSec * 1000)
  }

  /** A lease committed before a later acquire checked the same device is no longer in force. */
  predicate Fenced(s: State)
    requires forall i :: 0 <= i < |s.leases| ==> s.leases[i].id in s.windows
  {
    && (forall i, j :: 0 <= i < |s.leases| && 0 <= j < |s.leases| && s.leases[i].device == s.leases[j].device ==>
          s.windows[s.leases[i].id].commit < s.windows[s.leases[j].id].check ==> !Active(s.leases[i], s.clock))
    && (forall i, id :: 0 <= i < |s.leases| && id in s.open && s.leases[i].device == s.open[id].ticket.device ==>
          s.windows[s.leases[i].id].commit < s.open[id].checked ==> !Active(s.leases[i], s.clock))
  }

  predicate Inv(cfg: Config, s: State) { Accounted(cfg, s) && Fenced(s) }

  lemma BeginKeepsAccounted(cfg: Config, s: State, e: Event)
    requires e.Begin? && Enabled(s, e) && Accounted(cfg, s)
    ensures Accounted(cfg, Next(cfg, s, e))
  {
  }

  lemma CommitKeepsAccounted(cfg: Config, s: State, e: Event)
    requires e.Commit? && Enabled(s, e) && Accounted(cfg, s)
    ensures Accounted(cfg, Next(cfg, s, e))
  {
  }

  lemma NextKeepsAccounted(cfg: Config, s: State, e: Event)
    requires Enabled(s, e) && Accounted(cfg, s)
    ensures Accounted(cfg, Next(cfg, s, e))
  {
    if e.Begin? {
      BeginKeepsAccounted(cfg, s, e);
    } else if e.Commit? {
      CommitKeepsAccounted(cfg, s, e);
    }
  }

  /** The same leases, later: none has come back into force. */
  predicate Later(ls: seq<Lease>, t: int, ls': seq<Lease>, t': int) {
    && |ls'| == |ls|
    && (forall i :: 0 <= i < |ls| ==>
          ls'[i].id == ls[i].id && ls'[i].device == ls[i].device && (Active(ls'[i], t') ==> Active(ls[i], t)))
  }

  lemma LaterKeepsFenced(cfg: Config, s: State, s': State)
    requires Inv(cfg, s) && Accounted(cfg, s')
    requires Later(s.leases, s.clock, s'.leases, s'.clock) && s'.windows == s.windows
    requires forall id :: id in s'.open ==> id in s.open && s'.open[id] == s.open[id]
    ensures Fenced(s')
  {
  }

  lemma BeginKeepsFenced(cfg: Config, s: State, e: Event)
    requires e.Begin? && Enabled(s, e) && Inv(cfg, s)
    ensures Inv(cfg, Next(cfg, s, e))
  {
    NextKeepsAccounted(cfg, s, e);
    var s' := Next(cfg, s, e);
    assert Later(s.leases, s.clock, s'.leases, s'.clock);
    var quiet := s'.(open := s.open);
    LaterKeepsFenced(cfg, s, quiet);
    if e.id in s'.open {
      assert !Busy(s'.leases, s'.open[e.id].ticket.device, e.checkAt);
    }
  }

  lemma CommitKeepsFenced(cfg: Config, s: State, e: Event)
    requires e.Commit? && Enabled(s, e) && Inv(cfg, s)
    ensures Inv(cfg, Next(cfg, s, e))
  {
    NextKeepsAccounted(cfg, s, e);
    var s' := Next(cfg, s, e);
    assert forall i :: 0 <= i < |s.leases| ==> s'.leases[i] == s.leases[i];
  }

  lemma NextKeepsInv(cfg: Config, s: State, e: Event)
    requires Enabled(s, e) && Inv(cfg, s)
    ensures Inv(cfg, Next(cfg, s, e))
  {
    match e
    case Begin(_, _, _, _, _, _) => BeginKeepsFenced(cfg, s, e);
    case Commit(_, _) => CommitKeepsFenced(cfg, s, e);
    case _ =>
      NextKeepsAccounted(cfg, s, e);
      LaterKeepsFenced(cfg, s, Next(cfg, s, e));
  }

  lemma {:induction false} RunKeepsInv(cfg: Config, es: seq<Event>)
    requires Run(cfg, es).Some?
    ensures Inv(cfg, Run(cfg, es).value)
  {
    if es != [] {
      RunKeepsInv(cfg, es[..|es|-1]);
      NextKeepsInv(cfg, Run(cfg, es[..|es|-1]).value, es[|es|-1]);
    }
  }

  // ---------- Main results ----------

  /** Two leases in force on one device at any later time come from overlapping acquires. */
  lemma SimultaneousLeasesOverlap(cfg: Config, es: seq<Event>, i: nat, j: nat, now: int)
    requires Run(cfg, es).Some?
    requires var s := Run(cfg, es).value;
             && i < j < |s.leases| && s.clock <= now
             && s.leases[i].device == s.leases[j].device
             && Active(s.leases[i], now) && Active(s.leases[j], now)
    ensures var s := Run(cfg, es).value;
            && s.leases[i].id in s.windows && s.leases[j].id in s.windows
            && Overlap(s.windows[s.leases[i].id], s.windows[s.leases[j].id])
  {
    RunKeepsInv(cfg, es);
    var s := Run(cfg, es).value;
    assert Active(s.leases[i], s.clock) && Active(s.leases[j], s.clock);
    WindowsDistinct(cfg, es);
  }

  /** No two steps are the same step, so a commit never coincides with another acquire's check. */
  predicate DistinctSteps(s: State) {
    && (forall a, b :: a in s.windows && b in s.windows ==> s.windows[a].check != s.windows[b].commit)
    && (forall a, b :: a in s.open && b in s.windows ==> s.open[a].checked != s.windows[b].commit)
    && (forall a :: a in s.windows ==> s.windows[a].check < s.step && s.windows[a].commit < s.step)
    && (forall a :: a in s.open ==> s.open[a].checked < s.step)
  }

  lemma BeginKeepsDistinctSteps(cfg: Config, s: State, e: Event)
    requires e.Begin? && Enabled(s, e) && DistinctSteps(s)
    ensures DistinctSteps(Next(cfg, s, e))
  {
    var s' := Next(cfg, s, e);
    forall a | a in s'.open
      ensures s'.open[a].checked < s'.step
      ensures forall b :: b in s.windows ==> s'.open[a].checked != s.windows[b].commit
    {
      assert a != e.id ==> a in s.open && s'.open[a] == s.open[a];
    }
  }

  lemma CommitKeepsDistinctSteps(cfg: Config, s: State, e: Event)
    requires e.Commit? && Enabled(s, e) && DistinctSteps(s)
    ensures DistinctSteps(Next(cfg, s, e))
  {
    var s' := Next(cfg, s, e);
    assert s'.windows[e.id] == Window(s.open[e.id].checked, s.step);
    assert forall a :: a in s'.windows && a != e.id ==> a in s.windows && s'.windows[a] == s.windows[a];
  }

  lemma NextKeepsDistinctSteps(cfg: Config, s: State, e: Event)
    requires Enabled(s, e) && DistinctSteps(s)
    ensures DistinctSteps(Next(cfg, s, e))
  {
    if e.Begin? {
      BeginKeepsDistinctSteps(cfg, s, e);
    } else if e.Commit? {
      CommitKeepsDistinctSteps(cfg, s, e);
    }
  }

  lemma {:induction false} WindowsDistinct(cfg: Config, es: seq<Event>)
    requires Run(cfg, es).Some?
    ensures DistinctSteps(Run(cfg, es).value)
  {
    if es != [] {
      WindowsDistinct(cfg, es[..|es|-1]);
      NextKeepsDistinctSteps(cfg, Run(cfg, es[..|es|-1]).value, es[|es|-1]);
    }
  }

  predicate Exclusive(s: State, now: int) {
    forall i, j :: 0 <= i < j < |s.leases| && s.leases[i].device == s.leases[j].device ==>
      !(Active(s.leases[i], now) && Active(s.leases[j], now))
  }

  /** Runs whose acquires never overlap keep every device exclusive. */
  lemma SequentialRunsAreExclusive(cfg: Config, es: seq<Event>, now: int)
    requires Run(cfg, es).Some? && Run(cfg, es).value.clock <= now
    requires var w := Run(cfg, es).value.windows;
             forall a, b :: a in w && b in w && a != b ==> !Overlap(w[a], w[b])
    ensures Exclusive(Run(cfg, es).value, now)
  {
    RunKeepsInv(cfg, es);
    var s := Run(cfg, es).value;
    forall i, j | 0 <= i < j < |s.leases| && s.leases[i].device == s.leases[j].device
      ensures !(Active(s.leases[i], now) && Active(s.leases[j], now))
    {
      if Active(s.leases[i], now) && Active(s.leases[j], now) {
        SimultaneousLeasesOverlap(cfg, es, i, j, now);
      }
    }
  }

  /** However a run goes, a device is free of a lease ttlMaxSec after the lease was granted. */
  lemma FreeAfterTtl(cfg: Config, es: seq<Event>, i: nat, now: int)
    requires Run(cfg, es).Some? && i < |Run(cfg, es).value.leases|
    requires Run(cfg, es).value.leases[i].createdAt + cfg.ttlMaxSec * 1000 <= now
    ensures !Active(Run(cfg, es).value.leases[i], now)
  {
    RunKeepsInv(cfg, es);
  }

  /** The class comment promises one unfinished lease per device.  A commit keeps that promise exactly
      when no lease holds the device at that moment (or the new one is born expired): the test the
      check step made, which the commit step does not repeat. */
  lemma CommitKeepsExclusionIff(cfg: Config, s: State, e: Event)
    requires e.Commit? && Enabled(s, e) && Accounted(cfg, s) && Exclusive(s, e.at)
    ensures Exclusive(Next(cfg, s, e), e.at) <==>
            (!Busy(s.leases, s.open[e.id].ticket.device, e.at) || s.open[e.id].ticket.expiresAt <= e.at)
  {
    var s' := Next(cfg, s, e);
    var n := |s.leases|;
    var d := s.open[e.id].ticket.device;
    if Busy(s.leases, d, e.at) && s.open[e.id].ticket.expiresAt > e.at {
      var i :| 0 <= i < n && s.leases[i].device == d && Active(s.leases[i], e.at);
      assert s'.leases[i].device == s'.leases[n].device;
      assert Active(s'.leases[i], e.at) && Active(s'.leases[n], e.at);
    } else {
      forall i, j | 0 <= i < j < |s'.leases| && s'.leases[i].device == s'.leases[j].device
        ensures !(Active(s'.leases[i], e.at) && Active(s'.leases[j], e.at))
      {
        if j == n {
          assert s'.leases[i] == s.leases[i];
        }
      }
    }
  }

  /** Two requests that both check before either commits are both granted the device. */
  lemma OverlappingAcquiresDoubleGrant()
    ensures exists cfg: Config, es: seq<Event> ::
              Run(cfg, es).Some? && !Exclusive(Run(cfg, es).value, Run(cfg, es).value.clock)
  {
    var cfg := Config(["d"], 600, 3600);
    var req := Request(Owner("j", "a", "p"), "adb", None, None, true, Some(600));
    var d := Device("d", None, "adb");
    var es := [Begin(req, [d], 0, 0, 0, 1), Begin(req, [d], 0, 0, 0, 2), Commit(1, 0), Commit(2, 0)];
    assert Candidates(req, [d]) == [d] by { assert [d][1..] == []; }
    assert FirstAllowed(cfg, [d]) == Some(d);
    var t := Ticket(1, "d", "adb", req.owner, 600000);
    assert es[..0] == [] && es[..1][..0] == es[..0] && es[..2][..1] == es[..1] && es[..3][..2] == es[..2];
    assert es[..3] == es[..|es|-1];
    var s0 := INIT;
    var s1 := State([], map[1 := Open(t, 0)], map[], 0, 1);
    assert Run(cfg, es[..1]) == Some(s1) by { assert Run(cfg, es[..0]) == Some(s0); assert Purged([], 0) == []; }
    var s2 := State([], map[1 := Open(t, 0), 2 := Open(t.(id := 2), 1)], map[], 0, 2);
    assert Run(cfg, es[..2]) == Some(s2) by { assert Purged([], 0) == []; }
    var s3 := State([Issued(t, 0)], map[2 := Open(t.(id := 2), 1)], map[1 := Window(0, 2)], 0, 3);
    assert Run(cfg, es[..3]) == Some(s3) by {
      assert s2.open - {1} == s3.open;
      assert Next(cfg, s2, es[2]) == s3;
      assert es[..3][|es[..3]|-1] == es[2] && es[..3][..|es[..3]|-1] == es[..2];
    }
    var s4 := Next(cfg, s3, es[3]);
    assert Run(cfg, es) == Some(s4);
    assert Active(s4.leases[0], 0) && Active(s4.leases[1], 0) && s4.leases[0].device == s4.leases[1].device;
  }
}

/**
 * The device broker's registry of admitted devices (apps/device-broker/src/registry.ts): a register that
 * only moves to newer revisions, with a copy in a local file that may fail to be written.
 */
module DeviceRegistry {
  import opened Options
  import opened OrderedMaps

  /** An element of a pushed list; `Junk` is anything without a usable string key. */
  datatype Entry = Junk | Entry(key: string, transport: string, model: Option<string>, enabled: Option<bool>)

  datatype Expected = Expected(key: string, transport: string, model: Option<string>)

  /** A JavaScript number. */
  datatype Number = NotFinite | Finite(value: real)

  datatype Push = Push(revision: Number, devices: seq<Entry>, pushedAt: Option<string>, now: string)

  datatype Mode = EnvLegacy | PlatformAndCeiling | Platform | DenyAll

  /** The registry's fields. */
  datatype Register = Register(revision: int, pushedAt: Option<string>, pushed: Ordered<Expected>)

  /** What a read of the state file can give; None marks a field of the wrong type. */
  datatype Content =
    | Unreadable
    | Document(revision: Option<Number>, pushedAt: Option<string>, devices: Option<seq<Entry>>)

  const FRESH := Register(0, None, [])

  // ---------- Normalization ----------

  predicate Implemented(transport: string) { transport == "adb" || transport == "hdc" }

  predicate Admitted(e: Entry) {
    e.Entry? && e.key != "" && Implemented(e.transport) && e.enabled != Some(false)
  }

  function Normalized(devices: seq<Entry>): Ordered<Expected> {
    if devices == [] then []
    else
      var m, e := Normalized(devices[..|devices|-1]), devices[|devices|-1];
      if Admitted(e) then Put(m, e.key, Expected(e.key, e.transport, e.model)) else m
  }

  method Normalize(devices: seq<Entry>) returns (m: Ordered<Expected>)
    ensures m == Normalized(devices)
  {
    m := [];
    var i := 0;
    while i < |devices|
      invariant 0 <= i <= |devices| && m == Normalized(devices[..i])
    {
      assert devices[..i+1][..i] == devices[..i];
      var e := devices[i];
      i := i + 1;
      if e.Junk? || e.key == "" {
        continue;
      }
      if !Implemented(e.transport) {
        continue;
      }
      if e.enabled == Some(false) {
        continue;
      }
      m := Put(m, e.key, Expected(e.key, e.transport, e.model));
    }
    assert devices[..i] == devices;
  }

  /** Unique keys, each device under its own, none that normalization would drop. */
  predicate Normal(m: Ordered<Expected>) {
    && Unique(m)
    && forall i :: 0 <= i < |m| ==> m[i].0 == m[i].1.key && m[i].0 != "" && Implemented(m[i].1.transport)
  }

  lemma {:induction false} PutKeepsNormal(m: Ordered<Expected>, d: Expected)
    requires Normal(m) && d.key != "" && Implemented(d.transport)
    ensures Normal(Put(m, d.key, d))
  {
    PutIsUpdate(m, d.key, d);
    if m != [] && m[0].0 != d.key {
      assert Normal(m[1..]);
      PutKeepsNormal(m[1..], d);
    }
  }

  lemma {:induction false} NormalizedIsNormal(devices: seq<Entry>)
    ensures Normal(Normalized(devices))
  {
    if devices != [] {
      NormalizedIsNormal(devices[..|devices|-1]);
      var e := devices[|devices|-1];
      if Admitted(e) {
        PutKeepsNormal(Normalized(devices[..|devices|-1]), Expected(e.key, e.transport, e.model));
      }
    }
  }

  /** The list `snapshot` writes. */
  function Listed(m: Ordered<Expected>): seq<Entry> {
    seq(|m|, i requires 0 <= i < |m| => Entry(m[i].1.key, m[i].1.transport, m[i].1.model, None))
  }

  /** Normalizing what was listed gives the same devices in the same order. */
  lemma {:induction false} ListedRoundTrip(m: Ordered<Expected>)
    requires Normal(m)
    ensures Normalized(Listed(m)) == m
  {
    if m != [] {
      var init, last := m[..|m|-1], m[|m|-1];
      InitOf(m);
      ListedRoundTrip(init);
      assert Listed(m)[..|m|-1] == Listed(init);
      PutAppends(init, last.0, last.1);
      assert m == init + [last];
    }
  }

  // ---------- Apply, persist, load ----------

  predicate Acceptable(r: Register, p: Push) {
    p.revision.Finite? && p.revision.value >= 0.0 && p.revision.value.Floor >= r.revision
  }

  predicate Replayed(r: Register, p: Push) {
    Acceptable(r, p) && p.revision.value.Floor == r.revision && r.pushedAt.Some?
  }

  function Applied(r: Register, p: Push): Register {
    if !Acceptable(r, p) || Replayed(r, p) then r
    else Register(p.revision.value.Floor, if p.pushedAt.Some? then p.pushedAt else Some(p.now), Normalized(p.devices))
  }

  function Saved(r: Register): Content {
    Document(Some(Finite(r.revision as real)), r.pushedAt, Some(Listed(r.pushed)))
  }

  function Loaded(r: Register, c: Content): Register {
    match c
    case Unreadable => FRESH
    case Document(revision, pushedAt, devices) =>
      if revision.None? || revision.value.NotFinite? || revision.value.value < 0.0 || pushedAt.None? ||
        devices.None? then r
      else Register(revision.value.value.Floor, pushedAt, Normalized(devices.value))
  }

  /** The state file. */
  datatype Write = Takes | Misses | Tears

  class Disk {
    var content: Content

    constructor ()
      ensures content == Unreadable
    {
      content := Unreadable;
    }

    /** A write may take effect, have no effect, or leave the file torn. */
    method Store(c: Content) returns (ghost write: Write)
      modifies this
      ensures content == match write case Takes => c case Misses => old(content) case Tears => Unreadable
    {
      if * {
        content := c;
        write := Takes;
      } else if * {
        content := Unreadable;
        write := Tears;
      } else {
        write := Misses;
      }
    }
  }

  class Registry {
    const ceilingKeys: seq<string>
    const trustPlatform: bool
    const disk: Disk?
    var revision: int
    var pushedAt: Option<string>
    var pushed: Ordered<Expected>

    constructor (ceilingKeys: seq<string>, trustPlatform: bool, disk: Disk?)
      ensures View() == FRESH
      ensures this.ceilingKeys == ceilingKeys && this.trustPlatform == trustPlatform && this.disk == disk
    {
      this.ceilingKeys := ceilingKeys;
      this.trustPlatform := trustPlatform;
      this.disk := disk;
      revision, pushedAt, pushed := 0, None, [];
    }

    function View(): Register
      reads this
    {
      Register(revision, pushedAt, pushed)
    }

    method Load()
      modifies this
      ensures View() == if disk == null then old(View()) else Loaded(old(View()), disk.content)
      ensures disk != null && old(View()) == FRESH ==>
                forall r :: Next(System(r, disk.content), Restarted) == System(View(), disk.content)
    {
      if disk == null {
        return;
      }
      match disk.content
      case Unreadable =>
        revision, pushedAt, pushed := 0, None, [];
      case Document(rev, at, devices) =>
        if rev.None? || rev.value.NotFinite? || rev.value.value < 0.0 {
          return;
        }
        if at.None? {
          return;
        }
        if devices.None? {
          return;
        }
        revision := rev.value.value.Floor;
        pushedAt := at;
        pushed := Normalize(devices.value);
    }

    /** Ok exactly when the revision is a finite number no older than the registry's; with a file it is a step of
        the system below. */
    method Apply(p: Push) returns (ok: bool, ghost write: Write)
      modifies this, disk
      ensures ok <==> p.revision.Finite? && 0.0 <= p.revision.value && old(revision) <= p.revision.value.Floor
      ensures View() == Applied(old(View()), p)
      ensures disk != null ==>
                System(View(), disk.content) == Next(System(old(View()), old(disk.content)), Pushed(p, write))
      ensures disk != null && (!ok || (p.revision.value.Floor == old(revision) && old(pushedAt).Some?)) ==>
                forall w :: Next(System(old(View()), old(disk.content)), Pushed(p, w)) ==
                            System(View(), old(disk.content))
    {
      write := Misses;
      if p.revision.NotFinite? || p.revision.value < 0.0 {
        return false, write;
      }
      var rev := p.revision.value.Floor;
      if rev < revision {
        return false, write;
      }
      if rev == revision && pushedAt.Some? {
        return true, write;
      }
      revision := rev;
      pushedAt := if p.pushedAt.Some? then p.pushedAt else Some(p.now);
      pushed := Normalize(p.devices);
      if disk != null {
        write := disk.Store(Saved(View()));
      }
      return true, write;
    }

    method CurrentMode() returns (mode: Mode)
      ensures mode.EnvLegacy? <==> pushed == []
      ensures mode.PlatformAndCeiling? <==> pushed != [] && ceilingKeys != []
      ensures mode.Platform? <==> pushed != [] && ceilingKeys == [] && trustPlatform
      ensures mode.DenyAll? <==> pushed != [] && ceilingKeys == [] && !trustPlatform
    {
      if |pushed| == 0 {
        return EnvLegacy;
      }
      if |ceilingKeys| > 0 {
        return PlatformAndCeiling;
      }
      return if trustPlatform then Platform else DenyAll;
    }

    method IsUsable(key: string, transport: string) returns (usable: bool)
      ensures usable == Usable(View(), ceilingKeys, trustPlatform, key, transport)
    {
      if |pushed| == 0 {
        return true;
      }
      var m := ToMap(pushed);
      if key !in m {
        return false;
      }
      if m[key].transport != transport {
        return false;
      }
      if |ceilingKeys| > 0 {
        return key in ceilingKeys;
      }
      return trustPlatform;
    }
  }

  // ---------- Which devices may be used ----------

  predicate InPlatformSet(r: Register, ceiling: seq<string>, trust: bool, key: string, transport: string) {
    var m := ToMap(r.pushed);
    && key in m && m[key].transport == transport
    && (if ceiling != [] then key in ceiling else trust)
  }

  predicate Usable(r: Register, ceiling: seq<string>, trust: bool, key: string, transport: string) {
    r.pushed == [] || InPlatformSet(r, ceiling, trust, key, transport)
  }

  /** The rule as the module comment gives it: the platform's set counts once anything was pushed. */
  predicate Promised(r: Register, ceiling: seq<string>, trust: bool, key: string, transport: string) {
    r.pushedAt.None? || InPlatformSet(r, ceiling, trust, key, transport)
  }

  /** Code and rule admit the same devices. */
  ghost predicate RuleKept(r: Register, ceiling: seq<string>, trust: bool) {
    forall key, transport :: Usable(r, ceiling, trust, key, transport) <==> Promised(r, ceiling, trust, key, transport)
  }

  lemma RuleKeptIff(r: Register, ceiling: seq<string>, trust: bool)
    requires r.pushedAt.None? ==> r.pushed == []
    ensures RuleKept(r, ceiling, trust) <==> (r.pushed == [] ==> r.pushedAt.None?)
  {
    if r.pushedAt.Some? && r.pushed == [] {
      assert Usable(r, ceiling, trust, "", "") && !Promised(r, ceiling, trust, "", "");
    }
  }

  predicate AdmitsSome(devices: seq<Entry>) { exists i :: 0 <= i < |devices| && Admitted(devices[i]) }

  lemma {:induction false} NormalizedIsEmptyIff(devices: seq<Entry>)
    ensures Normalized(devices) == [] <==> !AdmitsSome(devices)
  {
    if AdmitsSome(devices) {
      AdmitsSomething(devices);
    } else {
      AdmitsNothing(devices);
    }
  }

  lemma {:induction false} AdmitsSomething(devices: seq<Entry>)
    requires AdmitsSome(devices)
    ensures Normalized(devices) != []
  {
    var init := devices[..|devices|-1];
    if !Admitted(devices[|devices|-1]) {
      var i :| 0 <= i < |devices| && Admitted(devices[i]);
      assert init[i] == devices[i];
      AdmitsSomething(init);
    }
  }

  lemma {:induction false} AdmitsNothing(devices: seq<Entry>)
    requires forall i :: 0 <= i < |devices| ==> !Admitted(devices[i])
    ensures Normalized(devices) == []
  {
    if devices != [] {
      AdmitsNothing(devices[..|devices|-1]);
    }
  }

  // ---------- Any sequence of pushes ----------

  function AfterAll(ps: seq<Push>): Register {
    if ps == [] then FRESH else Applied(AfterAll(ps[..|ps|-1]), ps[|ps|-1])
  }

  predicate Valid(p: Push) { p.revision.Finite? && p.revision.value >= 0.0 }

  /** The earliest push among those with the greatest revision. */
  predicate Winner(ps: seq<Push>, w: nat) {
    && w < |ps| && Valid(ps[w])
    && (forall i :: 0 <= i < |ps| && Valid(ps[i]) ==> ps[i].revision.value.Floor <= ps[w].revision.value.Floor)
    && (forall i :: 0 <= i < w && Valid(ps[i]) ==> ps[i].revision.value.Floor < ps[w].revision.value.Floor)
  }

  predicate Holds(r: Register, p: Push) {
    && Valid(p) && r.revision == p.revision.value.Floor
    && r.pushedAt == (if p.pushedAt.Some? then p.pushedAt else Some(p.now))
    && r.pushed == Normalized(p.devices)
  }

  lemma {:induction false} NothingValid(ps: seq<Push>)
    requires forall i :: 0 <= i < |ps| ==> !Valid(ps[i])
    ensures AfterAll(ps) == FRESH
  {
    if ps != [] {
      NothingValid(ps[..|ps|-1]);
      assert !Valid(ps[|ps|-1]);
    }
  }

  lemma WinnerStays(ps: seq<Push>, w: nat)
    requires ps != [] && Winner(ps[..|ps|-1], w)
    requires var p := ps[|ps|-1]; Valid(p) ==> p.revision.value.Floor <= ps[w].revision.value.Floor
    ensures Winner(ps, w)
  {
    var init := ps[..|ps|-1];
    assert forall i :: 0 <= i < |init| ==> init[i] == ps[i];
  }

  lemma LastWins(ps: seq<Push>)
    requires ps != [] && Valid(ps[|ps|-1])
    requires forall i :: 0 <= i < |ps| - 1 && Valid(ps[i]) ==>
        ps[i].revision.value.Floor < ps[|ps|-1].revision.value.Floor
    ensures Winner(ps, |ps| - 1)
  {
  }

  /** Whatever the order and the repetitions of the pushes, the registry holds the winner. */
  lemma {:induction false} RegistryHoldsWinner(ps: seq<Push>) returns (w: nat)
    requires exists i :: 0 <= i < |ps| && Valid(ps[i])
    ensures Winner(ps, w) && Holds(AfterAll(ps), ps[w])
  {
    var init, p := ps[..|ps|-1], ps[|ps|-1];
    var r := AfterAll(init);
    assert forall i :: 0 <= i < |init| ==> init[i] == ps[i];
    if exists i :: 0 <= i < |init| && Valid(init[i]) {
      w := RegistryHoldsWinner(init);
      if Valid(p) && p.revision.value.Floor > r.revision {
        LastWins(ps);
        w := |ps| - 1;
      } else {
        WinnerStays(ps, w);
      }
    } else {
      NothingValid(init);
      assert Valid(p);
      LastWins(ps);
      w := |ps| - 1;
    }
  }

  lemma OneWinner(ps: seq<Push>, v: nat, w: nat)
    requires Winner(ps, v) && Winner(ps, w)
    ensures v == w
  {
  }

  /**
   * After any pushes the code admits exactly the devices that the rule of the module comment admits, whatever
   * the ceiling and the trust, if and only if no push was valid or the one the registry holds admits a device.
   */
  lemma UsableAsPromisedIff(ps: seq<Push>, ceiling: seq<string>, trust: bool)
    ensures RuleKept(AfterAll(ps), ceiling, trust) <==>
            (forall i :: 0 <= i < |ps| ==> !Valid(ps[i])) ||
              (exists w: nat :: Winner(ps, w) && AdmitsSome(ps[w].devices))
  {
    if forall i :: 0 <= i < |ps| ==> !Valid(ps[i]) {
      NothingValid(ps);
      RuleKeptIff(FRESH, ceiling, trust);
    } else {
      var w := RegistryHoldsWinner(ps);
      RuleKeptIff(AfterAll(ps), ceiling, trust);
      NormalizedIsEmptyIff(ps[w].devices);
      forall v: nat | Winner(ps, v) ensures v == w { OneWinner(ps, v, w); }
    }
  }

  /** One push of an empty set, meant to close every device, opens them all. */
  lemma EmptyPushOpensEverything(now: string, ceiling: seq<string>, trust: bool, key: string, transport: string)
    ensures var r := AfterAll([Push(Finite(1.0), [], None, now)]);
            r.pushedAt == Some(now) && Usable(r, ceiling, trust, key, transport) &&
              !Promised(r, ceiling, trust, key, transport)
  {
    var p := Push(Finite(1.0), [], None, now);
    assert [p][..0] == [] && AfterAll([]) == FRESH;
    assert AfterAll([p]) == Applied(FRESH, p);
  }

  // ---------- In the words of a push ----------

  /** The entry offers the device: a key, a transport that is implemented, and not disabled. */
  predicate Offers(e: Entry, key: string) {
    e.Entry? && e.key == key && key != "" && e.transport in {"adb", "hdc"} && (e.enabled.Some? ==> e.enabled.value)
  }

  predicate LastOffer(devices: seq<Entry>, i: nat, key: string) {
    i < |devices| && Offers(devices[i], key) && forall j :: i < j < |devices| ==> !Offers(devices[j], key)
  }

  /** Normalization keeps of each key the last entry that offers it. */
  lemma {:induction false} NormalizedOffers(devices: seq<Entry>, key: string)
    ensures var m := ToMap(Normalized(devices));
            && ((forall i :: 0 <= i < |devices| ==> !Offers(devices[i], key)) ==> key !in m)
            && (forall i: nat :: LastOffer(devices, i, key) ==>
                  key in m && m[key] == Expected(key, devices[i].transport, devices[i].model))
  {
    if devices != [] {
      var init, e := devices[..|devices|-1], devices[|devices|-1];
      NormalizedOffers(init, key);
      NormalizedIsNormal(init);
      if e.Entry? { assert Admitted(e) <==> Offers(e, e.key); }
      if Admitted(e) { PutIsUpdate(Normalized(init), e.key, Expected(e.key, e.transport, e.model)); }
      assert forall i :: 0 <= i < |init| ==> init[i] == devices[i];
      forall i: nat | LastOffer(devices, i, key)
        ensures i < |init| ==> LastOffer(init, i, key)
      {
      }
    }
  }

  /**
   * After a push that the registry takes, and that offers some device, a device may be used exactly if the last
   * entry to offer its key names its transport, and the rig allows it: by its list of keys if it has one, else
   * by trusting the platform.
   */
  lemma UsableAfterPush(r: Register, p: Push, ceiling: seq<string>, trust: bool, key: string, transport: string)
    requires Acceptable(r, p) && !Replayed(r, p)
    requires exists i, k :: 0 <= i < |p.devices| && Offers(p.devices[i], k)
    ensures Usable(Applied(r, p), ceiling, trust, key, transport) <==>
            && (exists i: nat :: LastOffer(p.devices, i, key) && p.devices[i].transport == transport)
            && (if ceiling == [] then trust else key in ceiling)
  {
    NormalizedOffers(p.devices, key);
    var i, k :| 0 <= i < |p.devices| && Offers(p.devices[i], k);
    NormalizedOffers(p.devices, k);
    var last := LastOfferOf(p.devices, i, k);
    assert k in ToMap(Applied(r, p).pushed);
    if j :| 0 <= j < |p.devices| && Offers(p.devices[j], key) { var l := LastOfferOf(p.devices, j, key); }
  }

  lemma LastOfferOf(devices: seq<Entry>, i: nat, key: string) returns (last: nat)
    requires i < |devices| && Offers(devices[i], key)
    ensures LastOffer(devices, last, key)
    decreases |devices| - i
  {
    if j :| i < j < |devices| && Offers(devices[j], key) { last := LastOfferOf(devices, j, key); } else { last := i; }
  }

  // ---------- Saving, crashing, loading ----------

  /** Save then load is the identity on a register that was pushed to. */
  lemma SaveLoadRoundTrip(r: Register, before: Register)
    requires r.revision >= 0 && r.pushedAt.Some? && Normal(r.pushed)
    ensures Loaded(before, Saved(r)) == r
  {
    ListedRoundTrip(r.pushed);
    assert (r.revision as real).Floor == r.revision;
  }

  datatype Event = Pushed(p: Push, write: Write) | Restarted

  /** A broker process and its file. */
  datatype System = System(memory: Register, file: Content)

  function Next(s: System, e: Event): System {
    match e
    case Pushed(p, write) =>
      var r := Applied(s.memory, p);
      if !Acceptable(s.memory, p) || Replayed(s.memory, p) then s
      else System(r, if write.Takes? then Saved(r) else if write.Misses? then s.file else Unreadable)
    case Restarted => System(Loaded(FRESH, s.file), s.file)
  }

  function Run(es: seq<Event>): System {
    if es == [] then System(FRESH, Unreadable) else Next(Run(es[..|es|-1]), es[|es|-1])
  }

  /** The file never runs ahead of memory, and agrees with it at the same revision. */
  ghost predicate FileBehind(s: System) {
    && s.memory.revision >= 0 && Normal(s.memory.pushed)
    && (s.memory.pushedAt.None? ==> s.memory == FRESH)
    && (s.file.Unreadable?
        || exists r: Register ::
             && s.file == Saved(r) && r.revision >= 0 && r.pushedAt.Some? && Normal(r.pushed)
             && r.revision <= s.memory.revision && s.memory.pushedAt.Some?
             && (r.revision == s.memory.revision ==> r.pushed == s.memory.pushed))
  }

  lemma NextKeepsFileBehind(s: System, e: Event)
    requires FileBehind(s)
    ensures FileBehind(Next(s, e))
  {
    if e.Pushed? {
      NormalizedIsNormal(e.p.devices);
      if Acceptable(s.memory, e.p) && !Replayed(s.memory, e.p) {
        var r := Applied(s.memory, e.p);
        if e.write.Takes? {
          assert Next(s, e).file == Saved(r);
        }
      }
    } else if !s.file.Unreadable? {
      var r: Register :| s.file == Saved(r) && r.revision >= 0 && r.pushedAt.Some? && Normal(r.pushed);
      SaveLoadRoundTrip(r, FRESH);
    }
  }

  lemma {:induction false} RunKeepsFileBehind(es: seq<Event>)
    ensures FileBehind(Run(es))
  {
    if es != [] {
      RunKeepsFileBehind(es[..|es|-1]);
      NextKeepsFileBehind(Run(es[..|es|-1]), es[|es|-1]);
    }
  }

  /** After any run, with any saves missed or torn: a restart followed by a repetition of the push the
      broker was holding restores the set and the revision it had. */
  lemma RestartAndReplayRestores(es: seq<Event>, p: Push, write: Write)
    requires Run(es).memory.pushedAt.Some? && Valid(p)
    requires p.revision.value.Floor == Run(es).memory.revision && Normalized(p.devices) == Run(es).memory.pushed
    ensures var before, after := Run(es).memory, Next(Next(Run(es), Restarted), Pushed(p, write)).memory;
            after.revision == before.revision && after.pushed == before.pushed && after.pushedAt.Some?
  {
    RunKeepsFileBehind(es);
    var s := Run(es);
    if !s.file.Unreadable? {
      var r: Register :| s.file == Saved(r) && r.revision >= 0 && r.pushedAt.Some? && Normal(r.pushed)
                         && r.revision <= s.memory.revision &&
                           (r.revision == s.memory.revision ==> r.pushed == s.memory.pushed);
      SaveLoadRoundTrip(r, FRESH);
    }
  }

  /** The file can be read and holds this revision. */
  predicate FileHolds(c: Content, revision: int) { c.Document? && c.revision == Some(Finite(revision as real)) }

  /** A restart and a valid push take the registry to an older revision than it had. */
  ghost predicate CanGoBack(s: System) {
    exists q: Push, write: Write ::
      Valid(q) && Next(Next(s, Restarted), Pushed(q, write)).memory.revision < s.memory.revision
  }

  /**
   * The registry never goes back while it runs; across a restart it can, in a reachable state, exactly if the
   * last save was missed or torn, so that the file does not hold the current revision.
   */
  lemma GoesBackIff(es: seq<Event>)
    ensures CanGoBack(Run(es)) <==> Run(es).memory.revision > 0 && !FileHolds(Run(es).file, Run(es).memory.revision)
  {
    RunKeepsFileBehind(es);
    var s := Run(es);
    var loaded := Next(s, Restarted).memory;
    LoadedRevision(s);
    if s.memory.revision > 0 && !FileHolds(s.file, s.memory.revision) {
      var q := Push(Finite(loaded.revision as real), [], None, "");
      assert Valid(q) && Next(Next(s, Restarted), Pushed(q, Misses)).memory.revision == loaded.revision;
    }
  }

  lemma LoadedRevision(s: System)
    requires FileBehind(s)
    ensures var loaded := Next(s, Restarted).memory;
            && 0 <= loaded.revision <= s.memory.revision
            && (FileHolds(s.file, s.memory.revision) ==> loaded.revision == s.memory.revision)
            && (s.memory.revision > 0 && !FileHolds(s.file, s.memory.revision) ==> loaded.revision < s.memory.revision)
  {
    if !s.file.Unreadable? {
      var r: Register :| s.file == Saved(r) && r.revision >= 0 && r.pushedAt.Some? && Normal(r.pushed)
                         && r.revision <= s.memory.revision;
      SaveLoadRoundTrip(r, FRESH);
    }
  }
}

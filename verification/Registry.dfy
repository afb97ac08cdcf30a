/** The in-memory inventory keyed by MAC (internal/registry/registry.go).

    Every mutation is a function on the map of adapters; the class at the end is
    the registry itself, updated in place and proved against those functions.
    A ghost history of what was loaded and observed is the evidence the
    registry's contents are measured against. */
module Registry {
  import opened Text
  import opened Model
  import opened Mac

  type Inventory = map<string, Adapter>

  /** What changed when a device answered a probe. */
  datatype Observation = Observation(
    adapter: Adapter, created: bool, cameOnline: bool, stateChanged: bool,
    metadataChanged: bool, roleChanged: bool, previousIP: string, displaced: Option<Adapter>)
  {
    /** Anything worth persisting or publishing. */
    predicate Changed() {
      created || cameOnline || stateChanged || metadataChanged
    }
  }

  /** The Known/Online counters. */
  datatype Tally = Tally(known: nat, online: nat)

  datatype RecordResult = Rejected | Recorded(reg: Inventory, obs: Observation)

  // ----- Recording an observation -----

  function Fresh(mac: string, ip: string, info: DeviceInfo, now: int): Adapter {
    Adapter(mac, AdapterID(mac), Classify(info), ip, None, info.devName, info.productName,
            info.model, info.version, Some(info.channelID), true, now, now)
  }

  function Refreshed(a: Adapter, ip: string, info: DeviceInfo, now: int): Adapter {
    a.(ip := ip, role := Classify(info), reportedName := info.devName, productName := info.productName,
       model := info.model, firmware := info.version, channel := Some(info.channelID),
       online := true, lastSeenAt := now)
  }

  predicate Occupies(reg: Inventory, other: string, mac: string, ip: string)
    requires other in reg
  {
    other != mac && reg[other].ip == ip && reg[other].online
  }

  /** Everyone else shown online at ip. */
  function Occupants(reg: Inventory, mac: string, ip: string): set<string> {
    set other | other in reg && Occupies(reg, other, mac, ip)
  }

  /** All occupants switched offline. */
  function Displace(reg: Inventory, mac: string, ip: string): Inventory {
    map m | m in reg :: if Occupies(reg, m, mac, ip) then reg[m].(online := false) else reg[m]
  }

  ghost function DisplacedBy(reg: Inventory, mac: string, ip: string): Option<Adapter> {
    var others := Occupants(reg, mac, ip);
    if others == {} then None else
      var o :| o in others;
      Some(reg[o].(online := false))
  }

  ghost function Describe(reg: Inventory, mac: string, ip: string, info: DeviceInfo, now: int): Observation {
    var displaced := DisplacedBy(reg, mac, ip);
    if mac !in reg then
      Observation(Fresh(mac, ip, info, now), true, true, true, true, false, "", displaced)
    else
      var a := reg[mac];
      var roleChanged := a.role != Classify(info);
      Observation(
        Refreshed(a, ip, info, now), false, !a.online,
        a.ip != ip || a.channel == None || a.channel.value != info.channelID,
        || roleChanged || a.reportedName != info.devName || a.productName != info.productName
        || a.model != info.model || a.firmware != info.version,
        roleChanged, if a.ip != ip then a.ip else "", displaced)
  }

  /** RecordObservation: a reply without a usable MAC records nothing. */
  ghost function Record(reg: Inventory, ip: string, info: DeviceInfo, now: int): RecordResult {
    var mac := Normalize(info.lanMac);
    if mac == "" then Rejected
    else
      var obs := Describe(reg, mac, ip, info, now);
      Recorded(Displace(reg, mac, ip)[mac := obs.adapter], obs)
  }

  // ----- The other mutations -----

  function WentOffline(reg: Inventory, mac: string): Inventory {
    if mac in reg then reg[mac := reg[mac].(online := false)] else reg
  }

  function Named(reg: Inventory, mac: string, name: Option<string>): Inventory {
    if mac in reg then reg[mac := reg[mac].(name := name)] else reg
  }

  function Hydrated(reg: Inventory, loaded: seq<Adapter>): Inventory
    decreases |loaded|
  {
    if loaded == [] then reg
    else Hydrated(reg[loaded[0].mac := loaded[0].(online := false)], loaded[1..])
  }

  // ----- Evidence -----

  /** What the registry was told: a persisted adapter, or a device reply that
      carried a usable MAC. */
  datatype Event =
    | Loaded(mac: string, ip: string, channel: Option<int>)
    | Observed(mac: string, ip: string, channel: Option<int>)

  function LatestOf(h: seq<Event>, mac: string): Option<Event> {
    if h == [] then None
    else if h[|h| - 1].mac == mac then Some(h[|h| - 1])
    else LatestOf(h[..|h| - 1], mac)
  }

  function LatestAt(h: seq<Event>, ip: string): Option<Event> {
    if h == [] then None
    else if h[|h| - 1].Observed? && h[|h| - 1].ip == ip then Some(h[|h| - 1])
    else LatestAt(h[..|h| - 1], ip)
  }

  lemma LatestExtend(h: seq<Event>, e: Event, mac: string, ip: string)
    ensures LatestOf(h + [e], mac) == if e.mac == mac then Some(e) else LatestOf(h, mac)
    ensures LatestAt(h + [e], ip) == if e.Observed? && e.ip == ip then Some(e) else LatestAt(h, ip)
  {
    assert (h + [e])[..|h|] == h;
  }

  predicate WellKeyed(reg: Inventory) {
    forall m | m in reg :: m != "" && reg[m].mac == m && reg[m].id == AdapterID(m)
  }

  /** An adapter stands where and as the last event about it says; if it is
      shown online, that event was a reply, and no later reply came from its
      address. */
  predicate Supported(reg: Inventory, h: seq<Event>, m: string)
    requires m in reg
  {
    && var latest := LatestOf(h, m);
       && latest.Some?
       && latest.value.ip == reg[m].ip
       && latest.value.channel == reg[m].channel
       && (reg[m].online ==> latest.value.Observed? && LatestAt(h, reg[m].ip) == latest)
  }

  ghost predicate Evidence(reg: Inventory, h: seq<Event>) {
    && WellKeyed(reg)
    && (forall m | m in reg :: Supported(reg, h, m))
    && (forall m | LatestOf(h, m).Some? :: m in reg)
  }

  predicate UniqueOnline(reg: Inventory) {
    forall m, n | m in reg && n in reg && reg[m].online && reg[n].online && reg[m].ip == reg[n].ip :: m == n
  }

  lemma {:induction false} LatestOfIsOf(h: seq<Event>, mac: string)
    ensures LatestOf(h, mac).Some? ==> LatestOf(h, mac).value.mac == mac
  {
    if h != [] {
      LatestOfIsOf(h[..|h| - 1], mac);
    }
  }

  /** One address hosts one device: evidence leaves no room for two. */
  lemma EvidenceMakesOnlineUnique(reg: Inventory, h: seq<Event>)
    requires Evidence(reg, h)
    ensures UniqueOnline(reg)
  {
    forall m, n | m in reg && n in reg && reg[m].online && reg[n].online && reg[m].ip == reg[n].ip
      ensures m == n
    {
      assert Supported(reg, h, m) && Supported(reg, h, n);
      LatestOfIsOf(h, m);
      LatestOfIsOf(h, n);
    }
  }

  // ----- Runs -----

  /** Registry and history together. */
  datatype State = State(reg: Inventory, history: seq<Event>)

  datatype Op =
    | Observe(ip: string, info: DeviceInfo, now: int)
    | GoOffline(mac: string)
    | Rename(mac: string, name: Option<string>)
    | Load(adapters: seq<Adapter>)

  function ObservedEvent(ip: string, info: DeviceInfo): Event {
    Observed(Normalize(info.lanMac), ip, Some(info.channelID))
  }

  function LoadEvents(loaded: seq<Adapter>): seq<Event> {
    seq(|loaded|, i requires 0 <= i < |loaded| => Loaded(loaded[i].mac, loaded[i].ip, loaded[i].channel))
  }

  ghost function Apply(s: State, op: Op): State {
    match op
    case Observe(ip, info, now) =>
      var r := Record(s.reg, ip, info, now);
      if r.Rejected? then s else State(r.reg, s.history + [ObservedEvent(ip, info)])
    case GoOffline(mac) => s.(reg := WentOffline(s.reg, mac))
    case Rename(mac, name) => s.(reg := Named(s.reg, mac, name))
    case Load(adapters) => State(Hydrated(s.reg, adapters), s.history + LoadEvents(adapters))
  }

  ghost function Run(s: State, ops: seq<Op>): State
    decreases |ops|
  {
    if ops == [] then s else Run(Apply(s, ops[0]), ops[1..])
  }

  /** Persisted rows carry a MAC and the id derived from it. */
  predicate LoadableAdapters(loaded: seq<Adapter>) {
    forall i | 0 <= i < |loaded| :: loaded[i].mac != "" && loaded[i].id == AdapterID(loaded[i].mac)
  }

  predicate Legal(op: Op) {
    op.Load? ==> LoadableAdapters(op.adapters)
  }

  lemma RecordSupports(s: State, ip: string, info: DeviceInfo, now: int, m: string)
    requires Normalize(info.lanMac) != "" && m in Apply(s, Observe(ip, info, now)).reg
    requires m in s.reg ==> Supported(s.reg, s.history, m)
    ensures var s' := Apply(s, Observe(ip, info, now)); Supported(s'.reg, s'.history, m)
  {
    LatestExtend(s.history, ObservedEvent(ip, info), m, Apply(s, Observe(ip, info, now)).reg[m].ip);
  }

  lemma RecordedKeys(reg: Inventory, ip: string, info: DeviceInfo, now: int)
    requires WellKeyed(reg) && Record(reg, ip, info, now).Recorded?
    ensures WellKeyed(Record(reg, ip, info, now).reg)
    ensures Record(reg, ip, info, now).reg.Keys == reg.Keys + {Normalize(info.lanMac)}
  {
  }

  lemma RecordKeepsEvidence(s: State, ip: string, info: DeviceInfo, now: int)
    requires Evidence(s.reg, s.history)
    ensures var s' := Apply(s, Observe(ip, info, now)); Evidence(s'.reg, s'.history)
  {
    if Normalize(info.lanMac) != "" {
      var s' := Apply(s, Observe(ip, info, now));
      RecordedKeys(s.reg, ip, info, now);
      forall m | m in s'.reg ensures Supported(s'.reg, s'.history, m) {
        RecordSupports(s, ip, info, now, m);
      }
      forall m | LatestOf(s'.history, m).Some? ensures m in s'.reg {
        LatestExtend(s.history, ObservedEvent(ip, info), m, ip);
      }
    }
  }

  lemma LoadOneKeepsEvidence(reg: Inventory, h: seq<Event>, a: Adapter)
    requires Evidence(reg, h) && LoadableAdapters([a])
    ensures Evidence(reg[a.mac := a.(online := false)], h + [Loaded(a.mac, a.ip, a.channel)])
  {
    var e := Loaded(a.mac, a.ip, a.channel);
    var reg', h' := reg[a.mac := a.(online := false)], h + [e];
    assert [a][0] == a;
    forall m | m in reg' ensures Supported(reg', h', m) {
      LatestExtend(h, e, m, reg'[m].ip);
      assert m != a.mac ==> Supported(reg, h, m);
    }
    forall m | LatestOf(h', m).Some? ensures m in reg' {
      LatestExtend(h, e, m, "");
    }
  }

  lemma LoadEventsNext(h: seq<Event>, loaded: seq<Adapter>)
    requires loaded != []
    ensures h + [Loaded(loaded[0].mac, loaded[0].ip, loaded[0].channel)] + LoadEvents(loaded[1..]) ==
            h + LoadEvents(loaded)
  {
  }

  lemma {:induction false} HydrateKeepsEvidence(reg: Inventory, h: seq<Event>, loaded: seq<Adapter>)
    requires Evidence(reg, h) && LoadableAdapters(loaded)
    ensures Evidence(Hydrated(reg, loaded), h + LoadEvents(loaded))
    decreases |loaded|
  {
    if loaded == [] {
      assert h + LoadEvents(loaded) == h;
    } else {
      var a := loaded[0];
      var e := Loaded(a.mac, a.ip, a.channel);
      var reg', h' := reg[a.mac := a.(online := false)], h + [e];
      LoadOneKeepsEvidence(reg, h, a);
      HydrateKeepsEvidence(reg', h', loaded[1..]);
      LoadEventsNext(h, loaded);
    }
  }

  lemma ApplyKeepsEvidence(s: State, op: Op)
    requires Evidence(s.reg, s.history) && Legal(op)
    ensures var s' := Apply(s, op); Evidence(s'.reg, s'.history)
  {
    match op
    case Observe(ip, info, now) => RecordKeepsEvidence(s, ip, info, now);
    case Load(adapters) => HydrateKeepsEvidence(s.reg, s.history, adapters);
    case _ =>
      var s' := Apply(s, op);
      forall m | m in s'.reg ensures Supported(s'.reg, s'.history, m) {
        assert Supported(s.reg, s.history, m);
      }
  }

  /** The evidence invariant, over every run from any state that has it (the
      empty registry does). */
  lemma {:induction false} EvidenceAlways(s: State, ops: seq<Op>)
    requires Evidence(s.reg, s.history)
    requires forall i | 0 <= i < |ops| :: Legal(ops[i])
    ensures var s' := Run(s, ops); Evidence(s'.reg, s'.history) && UniqueOnline(s'.reg)
    decreases |ops|
  {
    if ops == [] {
      EvidenceMakesOnlineUnique(s.reg, s.history);
    } else {
      ApplyKeepsEvidence(s, ops[0]);
      EvidenceAlways(Apply(s, ops[0]), ops[1..]);
    }
  }

  // ----- Change flags are a complete diff -----

  /** The inventory without the times of last contact. */
  function Forget(reg: Inventory): Inventory {
    map m | m in reg :: reg[m].(lastSeenAt := 0)
  }

  /** Changed() is raised exactly when some field other than lastSeenAt of some
      adapter moved; when it is not raised nothing was displaced either. */
  lemma ChangedIsTheDiff(reg: Inventory, ip: string, info: DeviceInfo, now: int)
    requires WellKeyed(reg) && UniqueOnline(reg)
    requires Record(reg, ip, info, now).Recorded?
    ensures var Recorded(reg', obs) := Record(reg, ip, info, now);
            && (obs.Changed() <==> Forget(reg') != Forget(reg))
            && (!obs.Changed() ==> obs.displaced == None && obs.previousIP == "" && !obs.roleChanged)
  {
    var mac := Normalize(info.lanMac);
    var Recorded(reg', obs) := Record(reg, ip, info, now);
    if obs.Changed() {
      if mac !in reg {
        assert mac in Forget(reg') && mac !in Forget(reg);
      } else {
        assert Forget(reg')[mac] != Forget(reg)[mac];
      }
    } else {
      UnchangedMeansSame(reg, ip, info, now);
    }
  }

  lemma UnchangedMeansSame(reg: Inventory, ip: string, info: DeviceInfo, now: int)
    requires WellKeyed(reg) && UniqueOnline(reg)
    requires Record(reg, ip, info, now).Recorded? && !Record(reg, ip, info, now).obs.Changed()
    ensures var Recorded(reg', obs) := Record(reg, ip, info, now);
            Forget(reg') == Forget(reg) && obs.displaced == None && obs.previousIP == "" && !obs.roleChanged
  {
    var mac := Normalize(info.lanMac);
    NobodyElseThere(reg, mac, ip);
    SameButSeen(reg, mac, now);
  }

  lemma SameButSeen(reg: Inventory, mac: string, now: int)
    requires mac in reg
    ensures Forget(reg[mac := reg[mac].(lastSeenAt := now)]) == Forget(reg)
  {
  }

  /** Where an adapter is shown online nobody else is. */
  lemma NobodyElseThere(reg: Inventory, mac: string, ip: string)
    requires UniqueOnline(reg) && mac in reg && reg[mac].online && reg[mac].ip == ip
    ensures Occupants(reg, mac, ip) == {} && Displace(reg, mac, ip) == reg
  {
    assert forall m | m in reg :: !Occupies(reg, m, mac, ip);
  }

  function OnlineSet(reg: Inventory): set<string> {
    set m | m in reg && reg[m].online
  }

  function CountsOf(reg: Inventory): Tally {
    Tally(|reg|, |OnlineSet(reg)|)
  }

  /** At most one occupant, and it is the one reported as displaced. */
  lemma OccupantIsDisplaced(reg: Inventory, mac: string, ip: string)
    requires UniqueOnline(reg)
    ensures DisplacedBy(reg, mac, ip) == None <==> Occupants(reg, mac, ip) == {}
    ensures forall o | o in Occupants(reg, mac, ip) ::
              && Occupants(reg, mac, ip) == {o}
              && DisplacedBy(reg, mac, ip) == Some(reg[o].(online := false))
  {
    forall o | o in Occupants(reg, mac, ip)
      ensures Occupants(reg, mac, ip) == {o}
    {
      assert forall p | p in Occupants(reg, mac, ip) :: p == o;
    }
  }

  function Bit(b: bool): int {
    if b then 1 else 0
  }

  /** Recording keeps the inventory well keyed and one device per address. */
  lemma RecordKeepsShape(reg: Inventory, ip: string, info: DeviceInfo, now: int)
    requires WellKeyed(reg) && UniqueOnline(reg) && Record(reg, ip, info, now).Recorded?
    ensures var Recorded(reg', obs) := Record(reg, ip, info, now);
            && WellKeyed(reg') && UniqueOnline(reg')
            && obs.adapter.mac == Normalize(info.lanMac)
            && reg'.Keys == reg.Keys + {obs.adapter.mac} && reg'[obs.adapter.mac] == obs.adapter
  {
    RecordedKeys(reg, ip, info, now);
    DisplacedAndAlone(reg, Normalize(info.lanMac), ip, Record(reg, ip, info, now).obs.adapter);
  }

  /** After displacement the newcomer is alone at its address. */
  lemma DisplacedAndAlone(reg: Inventory, mac: string, ip: string, a: Adapter)
    requires UniqueOnline(reg) && a.ip == ip
    ensures UniqueOnline(Displace(reg, mac, ip)[mac := a])
  {
    var reg' := Displace(reg, mac, ip)[mac := a];
    forall m | m in reg' && reg'[m].online && m != mac ensures m in reg && reg[m] == reg'[m] && reg[m].ip != ip {
      assert !Occupies(reg, m, mac, ip);
    }
  }

  /** The keys and the online keys after an observation. */
  lemma RecordSets(reg: Inventory, mac: string, ip: string, a: Adapter)
    requires a.online
    ensures var reg' := Displace(reg, mac, ip)[mac := a];
            && reg'.Keys == reg.Keys + {mac}
            && OnlineSet(reg') == (OnlineSet(reg) - Occupants(reg, mac, ip)) + {mac}
  {
  }

  lemma SizeWith(s: set<string>, x: string)
    ensures |s + {x}| == |s| + Bit(x !in s)
  {
    if x in s {
      assert s + {x} == s;
    }
  }

  /** The counters move by exactly what the flags say. */
  lemma CountsFollowFlags(reg: Inventory, ip: string, info: DeviceInfo, now: int)
    requires WellKeyed(reg) && UniqueOnline(reg)
    requires Record(reg, ip, info, now).Recorded?
    ensures var Recorded(reg', obs) := Record(reg, ip, info, now);
            && CountsOf(reg').known == CountsOf(reg).known + Bit(obs.created)
            && CountsOf(reg').online == CountsOf(reg).online + Bit(obs.cameOnline) - Bit(obs.displaced.Some?)
  {
    var mac := Normalize(info.lanMac);
    var Recorded(reg', obs) := Record(reg, ip, info, now);
    var gone, online := Occupants(reg, mac, ip), OnlineSet(reg);
    OccupantIsDisplaced(reg, mac, ip);
    assert |gone| == Bit(obs.displaced.Some?) by {
      if o :| o in gone {
        assert gone == {o};
      }
    }
    RecordSets(reg, mac, ip, obs.adapter);
    assert |reg'| == |reg'.Keys| && |reg| == |reg.Keys|;
    SizeWith(reg.Keys, mac);
    SizeWith(online - gone, mac);
    assert gone <= online && mac !in gone;
    assert |online - gone| == |online| - |gone|;
    assert obs.cameOnline <==> mac !in online;
  }

  /** Going offline lowers only the online count, by one. */
  lemma OfflineCounts(reg: Inventory, mac: string)
    requires mac in reg && reg[mac].online
    ensures CountsOf(WentOffline(reg, mac)).known == CountsOf(reg).known
    ensures CountsOf(WentOffline(reg, mac)).online == CountsOf(reg).online - 1
  {
    var reg' := WentOffline(reg, mac);
    assert reg'.Keys == reg.Keys;
    assert |reg'| == |reg'.Keys| && |reg| == |reg.Keys|;
    assert OnlineSet(reg') == OnlineSet(reg) - {mac};
    assert mac in OnlineSet(reg);
  }

  /** After a reply the registry shows it: identity, address, role, names, model,
      firmware and channel are the device's, and it is online as of now. A new
      device has no user name and was first seen now; a known one keeps both. */
  lemma RecordShowsTheReply(reg: Inventory, ip: string, info: DeviceInfo, now: int)
    requires WellKeyed(reg) && Normalize(info.lanMac) != ""
    ensures Record(reg, ip, info, now).Recorded?
    ensures var reg', m := Record(reg, ip, info, now).reg, Normalize(info.lanMac);
            && m in reg'
            && reg'[m].mac == m && reg'[m].id == "dt241m_" + Compact(m) && reg'[m].ip == ip &&
                reg'[m].role == Classify(info)
            && reg'[m].reportedName == info.devName && reg'[m].productName == info.productName
            && reg'[m].model == info.model && reg'[m].firmware == info.version
            && reg'[m].channel == Some(info.channelID) && reg'[m].online && reg'[m].lastSeenAt == now
            && reg'[m].name == (if m in reg then reg[m].name else None)
            && reg'[m].firstSeenAt == (if m in reg then reg[m].firstSeenAt else now)
    ensures forall k | k in reg && k != Normalize(info.lanMac) ::
              && k in Record(reg, ip, info, now).reg
              && Record(reg, ip, info, now).reg[k] ==
                 if reg[k].online && reg[k].ip == ip then reg[k].(online := false) else reg[k]
  {
  }

  /** Every MAC ever loaded or heard. */
  function EverSeen(h: seq<Event>): set<string> {
    set i | 0 <= i < |h| :: h[i].mac
  }

  lemma {:induction false} LatestOfSeen(h: seq<Event>, m: string)
    ensures LatestOf(h, m).Some? <==> m in EverSeen(h)
    decreases |h|
  {
    if h != [] {
      var n := |h| - 1;
      LatestOfSeen(h[..n], m);
      assert EverSeen(h) == EverSeen(h[..n]) + {h[n].mac} by {
        assert forall i | 0 <= i < n :: h[..n][i] == h[i];
      }
    }
  }

  /** The counters in every reachable state: how many devices were ever loaded or
      heard, and how many of them are shown online. */
  lemma CountsMeaning(reg: Inventory, h: seq<Event>)
    requires Evidence(reg, h)
    ensures CountsOf(reg).known == |EverSeen(h)|
    ensures CountsOf(reg).online == |set m | m in EverSeen(h) && m in reg && reg[m].online|
  {
    forall m ensures m in reg <==> m in EverSeen(h) {
      LatestOfSeen(h, m);
      assert m in reg ==> Supported(reg, h, m);
    }
    assert reg.Keys == EverSeen(h);
    assert |reg| == |reg.Keys|;
    assert OnlineSet(reg) == set m | m in EverSeen(h) && m in reg && reg[m].online;
  }

  // ----- Listing by MAC -----

  /** Strictly increasing MACs. */
  predicate ByMac(all: seq<Adapter>) {
    forall i, j | 0 <= i < j < |all| :: all[i].mac != all[j].mac && AtMost(all[i].mac, all[j].mac)
  }

  predicate DistinctMacs(all: seq<Adapter>) {
    forall i, j | 0 <= i < j < |all| :: all[i].mac != all[j].mac
  }

  function InsertByMac(all: seq<Adapter>, a: Adapter): seq<Adapter> {
    if all == [] then [a]
    else if AtMost(a.mac, all[0].mac) then [a] + all
    else [all[0]] + InsertByMac(all[1..], a)
  }

  function SortByMac(all: seq<Adapter>): seq<Adapter> {
    if all == [] then [] else InsertByMac(SortByMac(all[1..]), all[0])
  }

  lemma {:induction false} InsertKeepsByMac(all: seq<Adapter>, a: Adapter)
    requires ByMac(all) && forall i | 0 <= i < |all| :: all[i].mac != a.mac
    ensures ByMac(InsertByMac(all, a)) && forall x :: x in InsertByMac(all, a) <==> x in all || x == a
  {
    if all != [] {
      if AtMost(a.mac, all[0].mac) {
        forall i | 0 <= i < |all| ensures AtMost(a.mac, all[i].mac) {
          if i > 0 {
            AtMostTransitive(a.mac, all[0].mac, all[i].mac);
          }
        }
      } else {
        AtMostTotal(a.mac, all[0].mac);
        InsertKeepsByMac(all[1..], a);
        var rest := InsertByMac(all[1..], a);
        forall i | 0 <= i < |rest| ensures rest[i].mac != all[0].mac && AtMost(all[0].mac, rest[i].mac) {
          assert rest[i] in all[1..] || rest[i] == a;
        }
        assert all == [all[0]] + all[1..];
      }
    }
  }

  lemma {:induction false} SortedByMac(all: seq<Adapter>)
    requires DistinctMacs(all)
    ensures ByMac(SortByMac(all)) && forall x :: x in SortByMac(all) <==> x in all
    decreases |all|
  {
    if all != [] {
      SortedByMac(all[1..]);
      var rest := SortByMac(all[1..]);
      forall i | 0 <= i < |rest| ensures rest[i].mac != all[0].mac {
        assert rest[i] in all[1..];
      }
      InsertKeepsByMac(rest, all[0]);
      assert all == [all[0]] + all[1..];
    }
  }

  // ----- The registry object -----

  class Registry {
    var adapters: Inventory
    ghost var history: seq<Event>

    ghost predicate Valid()
      reads this
    {
      Evidence(adapters, history)
    }

    ghost function View(): State
      reads this
    {
      State(adapters, history)
    }

    constructor ()
      ensures Valid() && View() == State(map[], [])
    {
      adapters, history := map[], [];
    }

    method Hydrate(loaded: seq<Adapter>)
      requires Valid() && LoadableAdapters(loaded)
      modifies this
      ensures Valid() && View() == Apply(old(View()), Load(loaded))
    {
      ghost var before := adapters;
      for i := 0 to |loaded|
        invariant history == old(history)
        invariant Hydrated(before, loaded) == Hydrated(adapters, loaded[i..])
      {
        assert loaded[i..][1..] == loaded[i + 1..];
        adapters := adapters[loaded[i].mac := loaded[i].(online := false)];
      }
      assert loaded[|loaded|..] == [];
      HydrateKeepsEvidence(before, history, loaded);
      history := history + LoadEvents(loaded);
    }

    method Lookup(mac: string) returns (found: Option<Adapter>)
      ensures found == if mac in adapters then Some(adapters[mac]) else None
    {
      found := if mac in adapters then Some(adapters[mac]) else None;
    }

    /** Every adapter once, ordered by MAC. */
    method All() returns (all: seq<Adapter>)
      requires Valid()
      ensures forall i | 0 <= i < |all| :: all[i].mac in adapters && adapters[all[i].mac] == all[i]
      ensures forall m | m in adapters :: adapters[m] in all
      ensures ByMac(all)
    {
      var out: seq<Adapter> := [];
      var rest := adapters.Keys;
      while rest != {}
        invariant rest <= adapters.Keys
        invariant forall i | 0 <= i < |out| ::
            out[i].mac in adapters && adapters[out[i].mac] == out[i] && out[i].mac !in rest
        invariant forall m | m in adapters && m !in rest :: adapters[m] in out
        invariant DistinctMacs(out)
        decreases rest
      {
        var m :| m in rest;
        rest := rest - {m};
        out := out + [adapters[m]];
      }
      SortedByMac(out);
      all := SortByMac(out);
      forall i | 0 <= i < |all| ensures all[i].mac in adapters && adapters[all[i].mac] == all[i] {
        assert all[i] in out;
      }
    }

    method Counts() returns (c: Tally)
      ensures c == CountsOf(adapters)
    {
      var online := 0;
      var rest := adapters.Keys;
      ghost var seen: set<string> := {};
      while rest != {}
        invariant rest <= adapters.Keys
        invariant seen == set m | m in adapters && m !in rest && adapters[m].online
        invariant online == |seen|
        decreases rest
      {
        var m :| m in rest;
        rest := rest - {m};
        if adapters[m].online {
          online := online + 1;
          seen := seen + {m};
        }
      }
      assert seen == OnlineSet(adapters);
      c := Tally(|adapters|, online);
    }

    method SetName(mac: string, name: Option<string>) returns (updated: Option<Adapter>)
      requires Valid()
      modifies this`adapters
      ensures Valid() && View() == Apply(old(View()), Rename(mac, name))
      ensures updated == if mac in adapters then Some(adapters[mac]) else None
    {
      ApplyKeepsEvidence(View(), Rename(mac, name));
      if mac !in adapters {
        return None;
      }
      adapters := adapters[mac := adapters[mac].(name := name)];
      updated := Some(adapters[mac]);
    }

    method MarkOffline(mac: string) returns (changed: Option<Adapter>)
      requires Valid()
      modifies this`adapters
      ensures Valid() && View() == Apply(old(View()), GoOffline(mac))
      ensures changed == if mac in old(adapters) && old(adapters)[mac].online then Some(adapters[mac]) else None
    {
      ApplyKeepsEvidence(View(), GoOffline(mac));
      if mac !in adapters || !adapters[mac].online {
        assert mac in adapters ==> adapters[mac := adapters[mac].(online := false)] == adapters;
        return None;
      }
      adapters := adapters[mac := adapters[mac].(online := false)];
      changed := Some(adapters[mac]);
    }

    /** The displacement loop: it stops at the first match, in whatever order
        the map is walked. The invariant is what makes that enough. */
    method DisplaceFirst(mac: string, ip: string) returns (displaced: Option<Adapter>)
      requires Valid()
      modifies this`adapters
      ensures adapters == Displace(old(adapters), mac, ip)
      ensures displaced == DisplacedBy(old(adapters), mac, ip)
    {
      ghost var before := adapters;
      EvidenceMakesOnlineUnique(adapters, history);
      OccupantIsDisplaced(before, mac, ip);
      displaced := None;
      var rest := adapters.Keys;
      while rest != {}
        invariant adapters == before && displaced == None
        invariant rest <= adapters.Keys
        invariant Occupants(before, mac, ip) <= rest
        decreases rest
      {
        var k :| k in rest;
        rest := rest - {k};
        var other := adapters[k];
        if other.mac != mac && other.ip == ip && other.online {
          assert k in Occupants(before, mac, ip);
          adapters := adapters[k := other.(online := false)];
          assert adapters == Displace(before, mac, ip);
          return Some(adapters[k]);
        }
      }
      assert forall m | m in before :: !Occupies(before, m, mac, ip) by {
        assert forall m | m in before && Occupies(before, m, mac, ip) :: m in Occupants(before, mac, ip);
      }
      assert adapters == Displace(before, mac, ip);
    }

    method RecordObservation(ip: string, info: DeviceInfo, now: int) returns (obs: Option<Observation>)
      requires Valid()
      modifies this
      ensures Valid() && View() == Apply(old(View()), Observe(ip, info, now))
      ensures var r := Record(old(adapters), ip, info, now);
              obs == if r.Rejected? then None else Some(r.obs)
    {
      ghost var before := adapters;
      RecordKeepsEvidence(View(), ip, info, now);
      var mac := Normalize(info.lanMac);
      if mac == "" {
        return None;
      }
      var displaced := DisplaceFirst(mac, ip);
      if mac !in adapters {
        var a := Fresh(mac, ip, info, now);
        adapters := adapters[mac := a];
        obs := Some(Observation(a, true, true, true, true, false, "", displaced));
      } else {
        var existing := adapters[mac];
        assert existing == before[mac];
        var role := Classify(info);
        var stateChanged := existing.ip != ip || existing.channel == None || existing.channel.value != info.channelID;
        var roleChanged := existing.role != role;
        var previousIP := if existing.ip != ip then existing.ip else "";
        var metadataChanged := roleChanged || existing.reportedName != info.devName ||
          existing.productName != info.productName || existing.model != info.model || existing.firmware != info.version;
        var updated := existing.(
          ip := ip, role := role, reportedName := info.devName, productName := info.productName, model := info.model,
          firmware := info.version, channel := Some(info.channelID), online := true, lastSeenAt := now);
        adapters := adapters[mac := updated];
        obs := Some(Observation(updated, false, !existing.online, stateChanged, metadataChanged, roleChanged,
            previousIP, displaced));
      }
      history := history + [ObservedEvent(ip, info)];
    }
  }
}

/** Polling and scanning (PollKnownDevices and scan in
    internal/controller/discovery.go) against a network that stays still. The
    workers may take the adapters, and the addresses, in any order: each item
    makes one registry update, so an order of items is an order of updates. */
module Poll {
  import opened Text
  import opened Model
  import opened Mac
  import R = Registry
  import C = Cidr

  /** Who answers at each address. */
  type Network = map<string, DeviceInfo>

  function MacAt(net: Network, ip: string): string
    requires ip in net
  {
    Normalize(net[ip].lanMac)
  }

  /** Replies carry usable MACs, and no device is at two addresses. */
  predicate Tidy(net: Network) {
    && "" !in net
    && (forall ip | ip in net :: MacAt(net, ip) != "")
    && (forall ip, jp | ip in net && jp in net && MacAt(net, ip) == MacAt(net, jp) :: ip == jp)
  }

  /** The adapter stands where its device is, with that device's channel. */
  predicate True(net: Network, a: Adapter) {
    a.ip in net && MacAt(net, a.ip) == a.mac && a.channel == Some(net[a.ip].channelID)
  }

  // ----- One item -----

  ghost function Hear(reg: R.Inventory, net: Network, ip: string, now: int): R.Inventory {
    if ip in net && MacAt(net, ip) != "" then R.Record(reg, ip, net[ip], now).reg else reg
  }

  /** The worker's body for the adapter a of the snapshot. */
  ghost function PollItem(reg: R.Inventory, net: Network, a: Adapter, now: int): R.Inventory {
    if a.ip == "" then reg
    else if a.ip in net then Hear(reg, net, a.ip, now)
    else R.WentOffline(reg, a.mac)
  }

  /** The item asks for a rescan: someone else answered, or an adapter that was
      online is silent. */
  predicate Alarming(net: Network, a: Adapter) {
    a.ip != "" && if a.ip in net then MacAt(net, a.ip) != a.mac else a.online
  }

  ghost function PollAll(reg: R.Inventory, net: Network, snapshot: R.Inventory, order: seq<string>,
      now: int): R.Inventory
    requires forall m | m in order :: m in snapshot
    decreases |order|
  {
    if order == [] then reg
    else PollAll(PollItem(reg, net, snapshot[order[0]], now), net, snapshot, order[1..], now)
  }

  ghost function ScanAll(reg: R.Inventory, net: Network, targets: seq<string>, now: int): R.Inventory
    decreases |targets|
  {
    if targets == [] then reg else ScanAll(Hear(reg, net, targets[0], now), net, targets[1..], now)
  }

  predicate Rescan(net: Network, snapshot: R.Inventory) {
    exists m | m in snapshot :: Alarming(net, snapshot[m])
  }

  /** A completed poll: every adapter of the snapshot once in some order, then a
      scan of the targets if an item asked for it. */
  ghost function Polled(reg: R.Inventory, net: Network, order: seq<string>, targets: seq<string>, now: int): R.Inventory
    requires forall m | m in order :: m in reg
  {
    var polled := PollAll(reg, net, reg, order, now);
    if Rescan(net, reg) then ScanAll(polled, net, targets, now) else polled
  }

  // ----- Invariants -----

  ghost predicate Shape(reg: R.Inventory) {
    R.WellKeyed(reg) && R.UniqueOnline(reg) && forall m | m in reg && reg[m].online :: reg[m].ip != ""
  }

  lemma HearEffect(reg: R.Inventory, net: Network, ip: string, now: int)
    requires Shape(reg) && Tidy(net)
    ensures var reg' := Hear(reg, net, ip, now);
            && Shape(reg')
            && (forall m | m in reg :: m in reg')
            && (ip in net ==>
                  var m := MacAt(net, ip);
                  m in reg' && reg'[m].online && reg'[m].ip == ip && True(net, reg'[m]))
            && (forall m | m in reg' && reg'[m].online && !(ip in net && m == MacAt(net, ip)) ::
                 m in reg && reg'[m] == reg[m] && (ip in net ==> reg[m].ip != ip))
            && (forall m | m in reg && reg[m].online && reg[m].ip != ip && !(ip in net && m == MacAt(net, ip)) ::
                 reg'[m] == reg[m])
  {
    if ip in net {
      R.RecordKeepsShape(reg, ip, net[ip], now);
    }
  }

  /** Everyone shown online is true, or still waits for its item. */
  predicate Settling(reg: R.Inventory, net: Network, snapshot: R.Inventory, waiting: seq<string>) {
    forall m | m in reg && reg[m].online ::
      True(net, reg[m]) || (m in snapshot && m in waiting && reg[m].ip == snapshot[m].ip)
  }

  lemma PollItemSettles(reg: R.Inventory, net: Network, snapshot: R.Inventory, waiting: seq<string>, now: int)
    requires Shape(reg) && Tidy(net) && R.WellKeyed(snapshot) && (forall m | m in waiting :: m in snapshot) &&
             waiting != []
    requires Settling(reg, net, snapshot, waiting)
    ensures var reg' := PollItem(reg, net, snapshot[waiting[0]], now);
            Shape(reg') && Settling(reg', net, snapshot, waiting[1..])
  {
    var a := snapshot[waiting[0]];
    var reg' := PollItem(reg, net, a, now);
    assert forall m | m in waiting :: m == waiting[0] || m in waiting[1..];
    if a.ip in net {
      HearEffect(reg, net, a.ip, now);
    } else {
      assert forall m | m in reg' && reg'[m].online :: m in reg && reg'[m] == reg[m];
    }
  }

  lemma {:induction false} PollAllSettles(reg: R.Inventory, net: Network, snapshot: R.Inventory, order: seq<string>,
      now: int)
    requires Shape(reg) && Tidy(net) && R.WellKeyed(snapshot) && forall m | m in order :: m in snapshot
    requires Settling(reg, net, snapshot, order)
    ensures var reg' := PollAll(reg, net, snapshot, order, now); Shape(reg') && Settling(reg', net, snapshot, [])
    decreases |order|
  {
    if order != [] {
      PollItemSettles(reg, net, snapshot, order, now);
      PollAllSettles(PollItem(reg, net, snapshot[order[0]], now), net, snapshot, order[1..], now);
    }
  }

  // ----- The scan -----

  /** The devices at these addresses are shown online, there. */
  predicate Found(reg: R.Inventory, net: Network, ips: seq<string>) {
    forall ip | ip in ips && ip in net ::
        MacAt(net, ip) in reg && reg[MacAt(net, ip)].online && reg[MacAt(net, ip)].ip == ip
  }

  lemma {:induction false} ScanFinds(reg: R.Inventory, net: Network, found: seq<string>, targets: seq<string>, now: int)
    requires Shape(reg) && Tidy(net) && Settling(reg, net, map[], []) && Found(reg, net, found)
    ensures var reg' := ScanAll(reg, net, targets, now);
            Shape(reg') && Settling(reg', net, map[], []) && Found(reg', net, found + targets)
    decreases |targets|
  {
    if targets == [] {
      assert found + targets == found;
    } else {
      var ip := targets[0];
      HearEffect(reg, net, ip, now);
      var reg' := Hear(reg, net, ip, now);
      forall jp | jp in found + [ip] && jp in net
        ensures MacAt(net, jp) in reg' && reg'[MacAt(net, jp)].online && reg'[MacAt(net, jp)].ip == jp
      {
        assert jp in found || jp == ip;
      }
      ScanFinds(reg', net, found + [ip], targets[1..], now);
      assert found + [ip] + targets[1..] == found + targets;
    }
  }

  // ----- Convergence -----

  /** A completed poll of a still network, in any order, leaves every adapter
      shown online truly at its address with its true channel; and if a rescan
      was triggered, every device at a scanned address is shown online there. */
  lemma PollConverges(reg: R.Inventory, net: Network, order: seq<string>, targets: seq<string>, now: int)
    requires Shape(reg) && Tidy(net) && forall m :: m in order <==> m in reg
    ensures var reg' := Polled(reg, net, order, targets, now);
            && (forall m | m in reg' && reg'[m].online :: True(net, reg'[m]))
            && (Rescan(net, reg) ==> Found(reg', net, targets))
  {
    PollAllSettles(reg, net, reg, order, now);
    var polled := PollAll(reg, net, reg, order, now);
    assert Settling(polled, net, map[], []);
    ScanFinds(polled, net, [], targets, now);
    assert [] + targets == targets;
  }

  /** With the configured ranges as targets: after a rescan every device at a host
      address of some range is shown online there. */
  lemma RescanCoversRanges(reg: R.Inventory, net: Network, order: seq<string>, ranges: seq<C.Prefix>, now: int)
    requires Shape(reg) && Tidy(net) && (forall m :: m in order <==> m in reg) && Rescan(net, reg)
    requires forall i | 0 <= i < |ranges| :: ranges[i].Valid()
    ensures var reg' := Polled(reg, net, order, C.Firsts(C.AllHosts(ranges)), now);
            forall i, a | 0 <= i < |ranges| && a in C.HostAddrs(ranges[i]) && C.Dotted(a) in net ::
              var m := MacAt(net, C.Dotted(a));
              m in reg' && reg'[m].online && reg'[m].ip == C.Dotted(a) && True(net, reg'[m])
  {
    var targets := C.Firsts(C.AllHosts(ranges));
    PollConverges(reg, net, order, targets, now);
    C.ScanTargets(ranges, targets);
  }

  /** Nobody who was online has moved or gone. */
  predicate Undisturbed(reg: R.Inventory, snapshot: R.Inventory) {
    forall m | m in snapshot && snapshot[m].online :: m in reg && reg[m].online && reg[m].ip == snapshot[m].ip
  }

  lemma {:induction false} CalmPoll(reg: R.Inventory, net: Network, snapshot: R.Inventory, order: seq<string>, now: int)
    requires Shape(reg) && Tidy(net) && Shape(snapshot) && (forall m | m in order :: m in snapshot)
    requires !Rescan(net, snapshot) && Undisturbed(reg, snapshot)
    ensures Undisturbed(PollAll(reg, net, snapshot, order, now), snapshot)
    decreases |order|
  {
    if order != [] {
      var a := snapshot[order[0]];
      assert !Alarming(net, a);
      HearEffect(reg, net, a.ip, now);
      var reg' := PollItem(reg, net, a, now);
      forall m | m in snapshot && snapshot[m].online
        ensures m in reg' && reg'[m].online && reg'[m].ip == snapshot[m].ip
      {
        assert !Alarming(net, snapshot[m]);
      }
      CalmPoll(reg', net, snapshot, order[1..], now);
    }
  }

  /** Without an alarm nobody is lost: exactly those online before are online
      after at the same address, except that answering adapters come online. */
  lemma NoAlarmNoLoss(reg: R.Inventory, net: Network, order: seq<string>, targets: seq<string>, now: int)
    requires Shape(reg) && Tidy(net) && (forall m :: m in order <==> m in reg) && !Rescan(net, reg)
    ensures Undisturbed(Polled(reg, net, order, targets, now), reg)
  {
    CalmPoll(reg, net, reg, order, now);
  }

  // ----- Devices that come back -----

  /** The adapter's recorded address is answered by itself. */
  predicate AtHome(reg: R.Inventory, net: Network, m: string) {
    m in reg && reg[m].ip in net && MacAt(net, reg[m].ip) == m
  }

  predicate Home(reg: R.Inventory, net: Network, m: string) {
    AtHome(reg, net, m) && reg[m].online
  }

  lemma HearKeepsHome(reg: R.Inventory, net: Network, ip: string, now: int, m: string)
    requires Shape(reg) && Tidy(net) && AtHome(reg, net, m)
    ensures var reg' := Hear(reg, net, ip, now);
            && Shape(reg') && AtHome(reg', net, m) && reg'[m].ip == reg[m].ip
            && (reg[m].online || ip == reg[m].ip ==> Home(reg', net, m))
  {
    HearEffect(reg, net, ip, now);
  }

  lemma PollItemKeepsHome(reg: R.Inventory, net: Network, a: Adapter, now: int, m: string)
    requires Shape(reg) && Tidy(net) && AtHome(reg, net, m) && (a.mac == m ==> a.ip == reg[m].ip)
    ensures var reg' := PollItem(reg, net, a, now);
            && Shape(reg') && AtHome(reg', net, m) && reg'[m].ip == reg[m].ip
            && (reg[m].online || a.mac == m ==> Home(reg', net, m))
  {
    HearKeepsHome(reg, net, a.ip, now, m);
  }

  lemma {:induction false} PollAllRevives(reg: R.Inventory, net: Network, snapshot: R.Inventory, order: seq<string>,
                                          now: int, m: string)
    requires Shape(reg) && Tidy(net) && R.WellKeyed(snapshot) && (forall k | k in order :: k in snapshot)
    requires AtHome(reg, net, m) && m in snapshot && snapshot[m].ip == reg[m].ip && (reg[m].online || m in order)
    ensures Home(PollAll(reg, net, snapshot, order, now), net, m)
    ensures PollAll(reg, net, snapshot, order, now)[m].ip == reg[m].ip
    decreases |order|
  {
    if order != [] {
      PollItemKeepsHome(reg, net, snapshot[order[0]], now, m);
      assert m in order ==> m == order[0] || m in order[1..];
      PollAllRevives(PollItem(reg, net, snapshot[order[0]], now), net, snapshot, order[1..], now, m);
    }
  }

  lemma {:induction false} ScanAllKeepsHome(reg: R.Inventory, net: Network, targets: seq<string>, now: int, m: string)
    requires Shape(reg) && Tidy(net) && Home(reg, net, m)
    ensures Home(ScanAll(reg, net, targets, now), net, m) && ScanAll(reg, net, targets, now)[m].ip == reg[m].ip
    decreases |targets|
  {
    if targets != [] {
      HearKeepsHome(reg, net, targets[0], now, m);
      ScanAllKeepsHome(Hear(reg, net, targets[0], now), net, targets[1..], now, m);
    }
  }

  /** Whoever answers at its recorded address, online before or not, is shown online
      there after the poll, with or without a rescan. */
  lemma PollRevives(reg: R.Inventory, net: Network, order: seq<string>, targets: seq<string>, now: int, m: string)
    requires Shape(reg) && Tidy(net) && (forall k :: k in order <==> k in reg) && AtHome(reg, net, m)
    ensures var reg' := Polled(reg, net, order, targets, now);
            Home(reg', net, m) && reg'[m].ip == reg[m].ip
  {
    PollAllRevives(reg, net, reg, order, now, m);
    PollAllSettles(reg, net, reg, order, now);
    ScanAllKeepsHome(PollAll(reg, net, reg, order, now), net, targets, now, m);
  }

  // ----- Polling again -----

  /** The address recorded for m is answered by someone else. */
  predicate TakenOver(reg: R.Inventory, net: Network, m: string) {
    m in reg && reg[m].ip in net && MacAt(net, reg[m].ip) != m
  }

  /** A rescan is asked for exactly by an adapter whose address is answered by
      someone else, or one that was online and is silent; one that was already
      offline and is silent asks for nothing. */
  lemma RescanMeaning(reg: R.Inventory, net: Network)
    requires R.WellKeyed(reg) && "" !in net
    ensures Rescan(net, reg) <==>
            exists m | m in reg :: TakenOver(reg, net, m) || (reg[m].online && reg[m].ip != "" && reg[m].ip !in net)
  {
    forall m | m in reg
      ensures Alarming(net, reg[m]) <==>
              TakenOver(reg, net, m) || (reg[m].online && reg[m].ip != "" && reg[m].ip !in net)
    {
    }
  }

  /** After a completed poll of a network that stays still, the next poll scans
      again if and only if some recorded address has been taken over. */
  lemma NextPollRescansIff(reg: R.Inventory, net: Network, order: seq<string>, targets: seq<string>, now: int)
    requires Shape(reg) && Tidy(net) && forall m :: m in order <==> m in reg
    ensures var reg' := Polled(reg, net, order, targets, now);
            Rescan(net, reg') <==> exists m | m in reg' :: TakenOver(reg', net, m)
  {
    PollConverges(reg, net, order, targets, now);
    PolledShape(reg, net, order, targets, now);
    RescanMeaning(Polled(reg, net, order, targets, now), net);
  }

  lemma PolledShape(reg: R.Inventory, net: Network, order: seq<string>, targets: seq<string>, now: int)
    requires Shape(reg) && Tidy(net) && forall m :: m in order <==> m in reg
    ensures Shape(Polled(reg, net, order, targets, now))
  {
    PollAllSettles(reg, net, reg, order, now);
    var polled := PollAll(reg, net, reg, order, now);
    assert Settling(polled, net, map[], []);
    ScanFinds(polled, net, [], targets, now);
  }

  /** The device is nowhere on the network. */
  predicate Absent(net: Network, m: string) {
    forall ip | ip in net :: MacAt(net, ip) != m
  }

  /** The address recorded for an absent device does not move. */
  lemma HearLeaves(reg: R.Inventory, net: Network, ip: string, now: int, m: string)
    requires Absent(net, m) && m in reg
    ensures m in Hear(reg, net, ip, now) && Hear(reg, net, ip, now)[m].ip == reg[m].ip
  {
  }

  lemma {:induction false} PollAllLeaves(reg: R.Inventory, net: Network, snapshot: R.Inventory, order: seq<string>,
                                         now: int, m: string)
    requires Absent(net, m) && m in reg && forall k | k in order :: k in snapshot
    ensures var reg' := PollAll(reg, net, snapshot, order, now); m in reg' && reg'[m].ip == reg[m].ip
    decreases |order|
  {
    if order != [] {
      HearLeaves(reg, net, snapshot[order[0]].ip, now, m);
      PollAllLeaves(PollItem(reg, net, snapshot[order[0]], now), net, snapshot, order[1..], now, m);
    }
  }

  lemma {:induction false} ScanAllLeaves(reg: R.Inventory, net: Network, targets: seq<string>, now: int, m: string)
    requires Absent(net, m) && m in reg
    ensures var reg' := ScanAll(reg, net, targets, now); m in reg' && reg'[m].ip == reg[m].ip
    decreases |targets|
  {
    if targets != [] {
      HearLeaves(reg, net, targets[0], now, m);
      ScanAllLeaves(Hear(reg, net, targets[0], now), net, targets[1..], now, m);
    }
  }

  /** One device replaced by another at its address and gone: every poll of the
      still network from then on scans it all again. */
  lemma ReplacedDeviceRescansForEver(reg: R.Inventory, net: Network, order: seq<string>, targets: seq<string>, now: int,
                                     m: string)
    requires Shape(reg) && Tidy(net) && (forall k :: k in order <==> k in reg) && Absent(net, m) &&
             TakenOver(reg, net, m)
    ensures Rescan(net, reg) && TakenOver(Polled(reg, net, order, targets, now), net, m)
  {
    RescanMeaning(reg, net);
    PollAllLeaves(reg, net, reg, order, now, m);
    ScanAllLeaves(PollAll(reg, net, reg, order, now), net, targets, now, m);
  }

  // ----- The poll on the registry object -----

  method ObserveAt(r: R.Registry, net: Network, ip: string, expected: string, now: int)
      returns (verified: bool, answered: bool)
    requires r.Valid()
    modifies r
    ensures r.Valid() && r.adapters == Hear(old(r.adapters), net, ip, now)
    ensures answered <==> ip in net
    ensures verified <==> ip in net && MacAt(net, ip) == expected
  {
    answered := ip in net;
    verified := answered && Normalize(net[ip].lanMac) == expected;
    if answered {
      var _ := r.RecordObservation(ip, net[ip], now);
    }
  }

  /** PollKnownDevices: workers take the snapshot's adapters in whatever order. */
  method PollKnownDevices(r: R.Registry, net: Network, targets: seq<string>, now: int)
      returns (ghost order: seq<string>)
    requires r.Valid()
    modifies r
    ensures r.Valid()
    ensures forall m :: m in order <==> m in old(r.adapters)
    ensures r.adapters == Polled(old(r.adapters), net, order, targets, now)
  {
    order := [];
    var snapshot := r.adapters;
    var rest := snapshot.Keys;
    var needsRediscovery := false;
    while rest != {}
      invariant r.Valid() && rest <= snapshot.Keys
      invariant forall m :: m in order <==> m in snapshot && m !in rest
      invariant r.adapters == PollAll(snapshot, net, snapshot, order, now)
      invariant needsRediscovery <==> exists m | m in order :: Alarming(net, snapshot[m])
      decreases rest
    {
      var m :| m in rest;
      rest := rest - {m};
      PollAllSnoc(snapshot, net, snapshot, order, m, now);
      ghost var before := order;
      order := order + [m];
      assert forall k :: k in order <==> k in before || k == m;
      var alarm := PollOne(r, net, snapshot[m], now);
      needsRediscovery := needsRediscovery || alarm;
    }
    if needsRediscovery {
      Scan(r, net, targets, now);
    }
  }

  /** What a worker does with one adapter of the snapshot. */
  method PollOne(r: R.Registry, net: Network, a: Adapter, now: int) returns (alarm: bool)
    requires r.Valid()
    modifies r
    ensures r.Valid() && r.adapters == PollItem(old(r.adapters), net, a, now)
    ensures alarm <==> Alarming(net, a)
  {
    if a.ip == "" {
      return false;
    }
    var verified, answered := ObserveAt(r, net, a.ip, a.mac, now);
    if answered {
      return !verified;
    }
    var _ := r.MarkOffline(a.mac);
    alarm := a.online;
  }

  /** scan: every target is asked, and whoever answers is recorded. */
  method Scan(r: R.Registry, net: Network, targets: seq<string>, now: int)
    requires r.Valid()
    modifies r
    ensures r.Valid() && r.adapters == ScanAll(old(r.adapters), net, targets, now)
  {
    ghost var before := r.adapters;
    for i := 0 to |targets|
      invariant r.Valid() && ScanAll(before, net, targets, now) == ScanAll(r.adapters, net, targets[i..], now)
    {
      assert targets[i..][1..] == targets[i + 1..];
      var _, _ := ObserveAt(r, net, targets[i], "", now);
    }
    assert targets[|targets|..] == [];
  }

  lemma {:induction false} PollAllSnoc(reg: R.Inventory, net: Network, snapshot: R.Inventory, order: seq<string>,
      m: string, now: int)
    requires m in snapshot && forall k | k in order :: k in snapshot
    ensures PollAll(reg, net, snapshot, order + [m], now) ==
            PollItem(PollAll(reg, net, snapshot, order, now), net, snapshot[m], now)
    decreases |order|
  {
    if order == [] {
      assert (order + [m])[1..] == [];
    } else {
      assert (order + [m])[1..] == order[1..] + [m];
      PollAllSnoc(PollItem(reg, net, snapshot[order[0]], now), net, snapshot, order[1..], m, now);
    }
  }
}

/** The publisher's entry points (internal/controller/publish.go) as steps on
    its state, their effect measured against the goal, and the publisher object. */
module Presenter {
  import opened Text
  import opened Model
  import opened Topics
  import opened Publisher
  import R = Registry
  import S = Sources

  /** The retained messages and what the publisher remembers having sent. */
  datatype Pub = Pub(broker: Broker, lastCounts: Option<R.Tally>, lastSources: S.Table)

  /** A per-adapter publication, with the snapshot it will publish from. */
  datatype Update =
    | Seen(obs: R.Observation)
    | Renamed(adapter: Adapter)
    | Gone(adapter: Adapter)
    | NameRefused(adapter: Adapter)

  function Subject(u: Update): Adapter {
    if u.Seen? then u.obs.adapter else u.adapter
  }

  // ----- What each entry point sends -----

  function When(b: bool, msgs: seq<Message>): seq<Message> {
    if b then msgs else []
  }

  /** The availability of a displaced adapter. */
  function GoneMessages(obs: R.Observation): seq<Message> {
    if obs.displaced.Some? then AvailabilityMessages(obs.displaced.value) else []
  }

  function SeenMessages(obs: R.Observation, t: S.Table): seq<Message> {
    var a := obs.adapter;
    GoneMessages(obs) +
    When(obs.created || obs.metadataChanged, DiscoveryMessages(a, t)) +
    When(obs.created || obs.metadataChanged, NameMessages(a)) +
    When(obs.cameOnline, AvailabilityMessages(a)) +
    When(obs.created || obs.stateChanged || obs.roleChanged, StateMessages(a, t))
  }

  function DirectMessages(u: Update, t: S.Table): seq<Message> {
    match u
    case Seen(obs) => SeenMessages(obs, t)
    case Renamed(a) => NameMessages(a) + DiscoveryMessages(a, t)
    case Gone(a) => AvailabilityMessages(a)
    case NameRefused(a) => NameMessages(a)
  }

  predicate SendsCounts(u: Update) {
    match u
    case Seen(obs) => obs.cameOnline || obs.displaced.Some?
    case Gone(_) => true
    case _ => false
  }

  predicate RefreshesSources(u: Update) {
    match u
    case Seen(obs) => obs.adapter.role == Transmitter || obs.roleChanged
    case Renamed(a) => a.role == Transmitter
    case _ => false
  }

  /** Some order of a set, the same one every time. */
  ghost function Enumerate(keys: set<string>): (order: seq<string>)
    ensures forall k :: k in order <==> k in keys
  {
    if keys == {} then [] else var k :| k in keys; [k] + Enumerate(keys - {k})
  }

  function AllReceivers(reg: R.Inventory, t: S.Table, order: seq<string>): seq<Message>
    requires forall m | m in order :: m in reg
  {
    if order == [] then [] else ReceiverMessages(reg[order[0]], t) + AllReceivers(reg, t, order[1..])
  }

  function DeviceMessages(a: Adapter, t: S.Table): seq<Message> {
    DiscoveryMessages(a, t) + AvailabilityMessages(a) + NameMessages(a) + StateMessages(a, t)
  }

  function AllDevices(reg: R.Inventory, t: S.Table, order: seq<string>): seq<Message>
    requires forall m | m in order :: m in reg
  {
    if order == [] then [] else DeviceMessages(reg[order[0]], t) + AllDevices(reg, t, order[1..])
  }

  function SweepMessages(reg: R.Inventory, t: S.Table, c: R.Tally, order: seq<string>): seq<Message>
    requires forall m | m in order :: m in reg
  {
    ControllerMessages() + AllDevices(reg, t, order) + CountMessages(c)
  }

  // ----- Steps on the publisher's state -----

  ghost function CountsStep(p: Pub, reg: R.Inventory): Pub {
    var c := R.CountsOf(reg);
    Pub(if p.lastCounts == Some(c) then p.broker else Send(p.broker, CountMessages(c)), Some(c), p.lastSources)
  }

  ghost function RefreshStep(p: Pub, reg: R.Inventory): Pub {
    var t := S.TableNow(reg);
    if t == p.lastSources then p
    else Pub(Send(p.broker, AllReceivers(reg, t, Enumerate(reg.Keys))), p.lastCounts, t)
  }

  ghost function PublishUpdate(p: Pub, reg: R.Inventory, u: Update): Pub {
    var direct := p.(broker := Send(p.broker, DirectMessages(u, S.TableNow(reg))));
    var counted := if SendsCounts(u) then CountsStep(direct, reg) else direct;
    if RefreshesSources(u) then RefreshStep(counted, reg) else counted
  }

  ghost function Swept(p: Pub, reg: R.Inventory): Pub {
    var t, c := S.TableNow(reg), R.CountsOf(reg);
    Pub(Send(p.broker, SweepMessages(reg, t, c, Enumerate(reg.Keys))), Some(c), t)
  }

  ghost function AimNow(reg: R.Inventory): Aim {
    Aim(reg, S.TableNow(reg), R.CountsOf(reg))
  }

  // ----- Topics covered -----

  lemma WantedSlots(a: Adapter, t: S.Table, slot: Slot)
    requires Want(a, t, slot).Some?
    ensures slot in CONFIG_SLOTS + STATE_SLOTS + {Availability, NameState}
    ensures slot in CONFIG_SLOTS <==> slot.Config?
  {
  }

  lemma ConfigsWanted(a: Adapter, t: S.Table, slot: Slot)
    requires slot in CONFIG_SLOTS
    ensures Want(a, t, slot).Some?
  {
  }

  /** The topics of each group of an adapter's messages, one at a time. */
  lemma GroupTopics(aim: Aim, a: Adapter, t: Topic)
    requires Current(aim, a)
    ensures Conforming(aim, DiscoveryMessages(a, aim.table)) && Conforming(aim, StateMessages(a, aim.table))
    ensures t in TopicsOf(DiscoveryMessages(a, aim.table)) <==> t.Device? && t.mac == a.mac && t.slot in CONFIG_SLOTS
    ensures t in TopicsOf(StateMessages(a, aim.table)) <==>
            t.Device? && t.mac == a.mac && t.slot in STATE_SLOTS && Want(a, aim.table, t.slot).Some?
  {
    DiscoveryConforms(aim, a);
    StateConforms(aim, a);
    assert t in SlotTopics(a.mac, CONFIG_SLOTS) <==> t.Device? && t.mac == a.mac && t.slot in CONFIG_SLOTS;
    assert t in Wanted(a, aim.table, STATE_SLOTS) <==>
           t.Device? && t.mac == a.mac && t.slot in STATE_SLOTS && Want(a, aim.table, t.slot).Some?;
  }

  lemma DeviceConforms(aim: Aim, a: Adapter, t: Topic)
    requires Current(aim, a)
    ensures Conforming(aim, DeviceMessages(a, aim.table))
    ensures t in TopicsOf(DeviceMessages(a, aim.table)) <==>
            t.Device? && t.mac == a.mac && Want(a, aim.table, t.slot).Some?
  {
    var d, v, n, s := DiscoveryMessages(a, aim.table), AvailabilityMessages(a), NameMessages(a),
        StateMessages(a, aim.table);
    GroupTopics(aim, a, t);
    SimpleConforms(aim, a);
    ConformingAppend(aim, d, v);
    ConformingAppend(aim, d + v, n);
    ConformingAppend(aim, d + v + n, s);
    assert t in TopicsOf(DeviceMessages(a, aim.table)) <==>
           t in TopicsOf(d) || t == Device(a.mac, Availability) || t == Device(a.mac, NameState) || t in TopicsOf(s);
    WantedIff(a, aim.table, t);
  }

  lemma WantedIff(a: Adapter, table: S.Table, t: Topic)
    ensures t.Device? ==>
            (Want(a, table, t.slot).Some? <==>
             t.slot in CONFIG_SLOTS || t.slot == Availability || t.slot == NameState ||
             (t.slot in STATE_SLOTS && Want(a, table, t.slot).Some?))
  {
    if t.Device? {
      if Want(a, table, t.slot).Some? {
        WantedSlots(a, table, t.slot);
      }
      if t.slot in CONFIG_SLOTS {
        ConfigsWanted(a, table, t.slot);
      }
    }
  }

  lemma {:induction false} AllDevicesConform(aim: Aim, order: seq<string>, t: Topic)
    requires R.WellKeyed(aim.reg) && forall m | m in order :: m in aim.reg
    ensures Conforming(aim, AllDevices(aim.reg, aim.table, order))
    ensures t in TopicsOf(AllDevices(aim.reg, aim.table, order)) <==>
            t.Device? && t.mac in order && Want(aim.reg[t.mac], aim.table, t.slot).Some?
  {
    if order != [] {
      AllDevicesConform(aim, order[1..], t);
      DeviceConforms(aim, aim.reg[order[0]], t);
      ConformingAppend(aim, DeviceMessages(aim.reg[order[0]], aim.table), AllDevices(aim.reg, aim.table, order[1..]));
      assert forall m :: m in order <==> m == order[0] || m in order[1..];
    }
  }

  /** A receiver's topics that depend on the source table. */
  predicate TableTopic(reg: R.Inventory, t: Topic) {
    t.Device? && t.slot in SOURCE_SLOTS && t.mac in reg && reg[t.mac].role == Receiver
  }

  lemma {:induction false} AllReceiversConform(aim: Aim, order: seq<string>, t: Topic)
    requires R.WellKeyed(aim.reg) && forall m | m in order :: m in aim.reg
    ensures Conforming(aim, AllReceivers(aim.reg, aim.table, order))
    ensures t in TopicsOf(AllReceivers(aim.reg, aim.table, order)) <==> TableTopic(aim.reg, t) && t.mac in order
  {
    if order != [] {
      AllReceiversConform(aim, order[1..], t);
      ReceiverConforms(aim, aim.reg[order[0]]);
      ConformingAppend(aim, ReceiverMessages(aim.reg[order[0]], aim.table),
          AllReceivers(aim.reg, aim.table, order[1..]));
      assert forall m :: m in order <==> m == order[0] || m in order[1..];
    }
  }

  lemma CountsConform(aim: Aim)
    ensures Conforming(aim, CountMessages(aim.counts)) &&
            TopicsOf(CountMessages(aim.counts)) == {KnownState, OnlineState}
  {
    var m := CountMessages(aim.counts);
    TopicsOfOne(m[0]);
    TopicsOfOne(m[1]);
    ConformingAppend(aim, [m[0]], [m[1]]);
    assert m == [m[0]] + [m[1]];
  }

  lemma ControllerConforms(aim: Aim, t: Topic)
    ensures Conforming(aim, ControllerMessages())
    ensures t in TopicsOf(ControllerMessages()) <==>
            !t.Device? && t != KnownState && t != OnlineState && Goal(aim, t).Some?
  {
    var m := ControllerMessages();
    TopicsOfOne(m[0]);
    TopicsOfOne(m[1]);
    TopicsOfOne(m[2]);
    TopicsOfOne(m[3]);
    ConformingAppend(aim, [m[0]], [m[1]]);
    ConformingAppend(aim, [m[0]] + [m[1]], [m[2]]);
    ConformingAppend(aim, [m[0]] + [m[1]] + [m[2]], [m[3]]);
    assert m == [m[0]] + [m[1]] + [m[2]] + [m[3]];
  }

  /** A sweep, in any order, publishes exactly the goal: every topic something
      is wanted on, with what is wanted. */
  lemma SweepConforms(aim: Aim, order: seq<string>, t: Topic)
    requires R.WellKeyed(aim.reg) && forall m :: m in order <==> m in aim.reg
    ensures Conforming(aim, SweepMessages(aim.reg, aim.table, aim.counts, order))
    ensures t in TopicsOf(SweepMessages(aim.reg, aim.table, aim.counts, order)) <==> Goal(aim, t).Some?
  {
    var c, d, n := ControllerMessages(), AllDevices(aim.reg, aim.table, order), CountMessages(aim.counts);
    ControllerConforms(aim, t);
    AllDevicesConform(aim, order, t);
    CountsConform(aim);
    ConformingAppend(aim, c, d);
    ConformingAppend(aim, c + d, n);
  }

  lemma SweepOrderIrrelevant(b: Broker, aim: Aim, x: seq<string>, y: seq<string>)
    requires R.WellKeyed(aim.reg) && (forall m :: m in x <==> m in aim.reg) && (forall m :: m in y <==> m in aim.reg)
    ensures Send(b, SweepMessages(aim.reg, aim.table, aim.counts, x)) ==
            Send(b, SweepMessages(aim.reg, aim.table, aim.counts, y))
  {
    var p, q := SweepMessages(aim.reg, aim.table, aim.counts, x), SweepMessages(aim.reg, aim.table, aim.counts, y);
    forall t ensures t in TopicsOf(p) <==> t in TopicsOf(q) {
      SweepConforms(aim, x, t);
      SweepConforms(aim, y, t);
    }
    SweepConforms(aim, x, RescanPress);
    SweepConforms(aim, y, RescanPress);
    SameTopicsSameEffect(aim, b, p, q);
  }

  // ----- The sweep -----

  predicate Settled(p: Pub, aim: Aim) {
    p.lastCounts == Some(aim.counts) && p.lastSources == aim.table
  }

  /** From any broker whatsoever a sweep reaches the goal on every topic. */
  lemma EverythingReachesGoal(p: Pub, reg: R.Inventory, t: Topic)
    requires R.WellKeyed(reg)
    ensures Holds(AimNow(reg), Swept(p, reg).broker, t) && Settled(Swept(p, reg), AimNow(reg))
    ensures Goal(AimNow(reg), t) == None ==> Get(Swept(p, reg).broker, t) == Get(p.broker, t)
  {
    var aim := AimNow(reg);
    SweepConforms(aim, Enumerate(reg.Keys), t);
    SendConforming(aim, p.broker, SweepMessages(reg, aim.table, aim.counts, Enumerate(reg.Keys)), t);
  }

  /** Where the goal is met and the caches are right, a sweep changes nothing. */
  lemma EverythingIdle(p: Pub, reg: R.Inventory)
    requires R.WellKeyed(reg) && Settled(p, AimNow(reg)) && forall t :: Holds(AimNow(reg), p.broker, t)
    ensures Swept(p, reg) == p
  {
    var aim := AimNow(reg);
    var msgs := SweepMessages(reg, aim.table, aim.counts, Enumerate(reg.Keys));
    SweepConforms(aim, Enumerate(reg.Keys), RescanPress);
    SendNothingNew(aim, p.broker, msgs);
  }

  // ----- Incremental updates -----

  function SlotsIf(b: bool, slots: set<Slot>): set<Slot> {
    if b then slots else {}
  }

  /** The slots of adapter m an update undertakes to publish. */
  function OwedSlots(u: Update, m: string): set<Slot> {
    match u
    case Seen(obs) =>
      SlotsIf(obs.displaced.Some? && obs.displaced.value.mac == m, {Availability}) +
      SlotsIf(obs.adapter.mac == m && (obs.created || obs.metadataChanged), CONFIG_SLOTS + {NameState}) +
      SlotsIf(obs.adapter.mac == m && obs.cameOnline, {Availability}) +
      SlotsIf(obs.adapter.mac == m && (obs.created || obs.stateChanged || obs.roleChanged), STATE_SLOTS)
    case Renamed(a) => SlotsIf(a.mac == m, CONFIG_SLOTS + {NameState})
    case Gone(a) => SlotsIf(a.mac == m, {Availability})
    case NameRefused(a) => SlotsIf(a.mac == m, {NameState})
  }

  predicate Owes(u: Update, t: Topic) {
    t.Device? && t.slot in OwedSlots(u, t.mac)
  }

  /** The snapshot is still what the registry holds. */
  predicate UpToDate(reg: R.Inventory, u: Update) {
    && Subject(u).mac in reg && reg[Subject(u).mac] == Subject(u)
    && (u.Seen? && u.obs.displaced.Some? ==>
          u.obs.displaced.value.mac in reg && reg[u.obs.displaced.value.mac] == u.obs.displaced.value)
  }

  lemma WhenConforms(aim: Aim, b: bool, msgs: seq<Message>, t: Topic)
    requires Conforming(aim, msgs)
    ensures Conforming(aim, When(b, msgs)) && (t in TopicsOf(When(b, msgs)) <==> b && t in TopicsOf(msgs))
  {
  }

  lemma FiveConform(aim: Aim, x0: seq<Message>, x1: seq<Message>, x2: seq<Message>, x3: seq<Message>, x4: seq<Message>,
                    t: Topic)
    requires Conforming(aim, x0) && Conforming(aim, x1) && Conforming(aim, x2) && Conforming(aim, x3) &&
             Conforming(aim, x4)
    ensures Conforming(aim, x0 + x1 + x2 + x3 + x4)
    ensures t in TopicsOf(x0 + x1 + x2 + x3 + x4) <==>
            t in TopicsOf(x0) || t in TopicsOf(x1) || t in TopicsOf(x2) || t in TopicsOf(x3) || t in TopicsOf(x4)
  {
    ConformingAppend(aim, x0, x1);
    ConformingAppend(aim, x0 + x1, x2);
    ConformingAppend(aim, x0 + x1 + x2, x3);
    ConformingAppend(aim, x0 + x1 + x2 + x3, x4);
  }

  lemma GoneConforms(aim: Aim, obs: R.Observation, t: Topic)
    requires UpToDate(aim.reg, Seen(obs))
    ensures Conforming(aim, GoneMessages(obs))
    ensures t in TopicsOf(GoneMessages(obs)) <==>
            obs.displaced.Some? && t == Device(obs.displaced.value.mac, Availability)
  {
    if obs.displaced.Some? {
      SimpleConforms(aim, obs.displaced.value);
    }
  }

  /** The topics of an observation's messages, group by group. */
  lemma SeenGroups(aim: Aim, obs: R.Observation, t: Topic)
    requires UpToDate(aim.reg, Seen(obs))
    ensures Conforming(aim, SeenMessages(obs, aim.table))
    ensures var a, meta := obs.adapter, obs.created || obs.metadataChanged;
            var state := obs.created || obs.stateChanged || obs.roleChanged;
            t in TopicsOf(SeenMessages(obs, aim.table)) <==>
            || t in TopicsOf(GoneMessages(obs))
            || (meta && t in TopicsOf(DiscoveryMessages(a, aim.table)))
            || (meta && t in TopicsOf(NameMessages(a)))
            || (obs.cameOnline && t in TopicsOf(AvailabilityMessages(a)))
            || (state && t in TopicsOf(StateMessages(a, aim.table)))
  {
    var a, table := obs.adapter, aim.table;
    var meta, state := obs.created || obs.metadataChanged, obs.created || obs.stateChanged || obs.roleChanged;
    GroupTopics(aim, a, t);
    SimpleConforms(aim, a);
    GoneConforms(aim, obs, t);
    WhenConforms(aim, meta, DiscoveryMessages(a, table), t);
    WhenConforms(aim, meta, NameMessages(a), t);
    WhenConforms(aim, obs.cameOnline, AvailabilityMessages(a), t);
    WhenConforms(aim, state, StateMessages(a, table), t);
    FiveConform(
      aim, GoneMessages(obs), When(meta, DiscoveryMessages(a, table)), When(meta, NameMessages(a)),
      When(obs.cameOnline, AvailabilityMessages(a)), When(state, StateMessages(a, table)), t);
  }

  lemma SeenConforms(aim: Aim, obs: R.Observation, t: Topic)
    requires UpToDate(aim.reg, Seen(obs))
    ensures Conforming(aim, SeenMessages(obs, aim.table))
    ensures t in TopicsOf(SeenMessages(obs, aim.table)) <==> Owes(Seen(obs), t) && Goal(aim, t).Some?
  {
    SeenGroups(aim, obs, t);
    GoneConforms(aim, obs, t);
    GroupTopics(aim, obs.adapter, t);
    SimpleConforms(aim, obs.adapter);
    SeenOwes(aim, obs, t);
  }

  lemma SeenOwes(aim: Aim, obs: R.Observation, t: Topic)
    requires UpToDate(aim.reg, Seen(obs))
    ensures var a, meta := obs.adapter, obs.created || obs.metadataChanged;
            var state := obs.created || obs.stateChanged || obs.roleChanged;
            Owes(Seen(obs), t) && Goal(aim, t).Some? <==>
            || (obs.displaced.Some? && t == Device(obs.displaced.value.mac, Availability))
            || (meta && t.Device? && t.mac == a.mac && t.slot in CONFIG_SLOTS)
            || (meta && t == Device(a.mac, NameState))
            || (obs.cameOnline && t == Device(a.mac, Availability))
            || (state && t.Device? && t.mac == a.mac && t.slot in STATE_SLOTS && Want(a, aim.table, t.slot).Some?)
  {
    if t.Device? && t.mac == obs.adapter.mac && t.slot in CONFIG_SLOTS {
      ConfigsWanted(obs.adapter, aim.table, t.slot);
    }
  }

  /** An update's direct messages agree with the goal and cover what it owes. */
  lemma DirectConforms(aim: Aim, u: Update, t: Topic)
    requires UpToDate(aim.reg, u)
    ensures Conforming(aim, DirectMessages(u, aim.table))
    ensures t in TopicsOf(DirectMessages(u, aim.table)) <==> Owes(u, t) && Goal(aim, t).Some?
  {
    match u
    case Seen(obs) => SeenConforms(aim, obs, t);
    case Renamed(a) =>
      DiscoveryConforms(aim, a);
      SimpleConforms(aim, a);
      ConformingAppend(aim, NameMessages(a), DiscoveryMessages(a, aim.table));
      if t.Device? && t.slot in CONFIG_SLOTS {
        ConfigsWanted(a, aim.table, t.slot);
      }
    case Gone(a) => SimpleConforms(aim, a);
    case NameRefused(a) => SimpleConforms(aim, a);
  }

  /** c carries the goal wherever it differs from b. */
  predicate OnlyToGoal(aim: Aim, b: Broker, c: Broker, t: Topic) {
    Get(c, t) == Get(b, t) || (Goal(aim, t).Some? && Get(c, t) == Shown(Goal(aim, t).value))
  }

  lemma CountsEffect(p: Pub, reg: R.Inventory, t: Topic)
    ensures var p' := CountsStep(p, reg);
            && OnlyToGoal(AimNow(reg), p.broker, p'.broker, t)
            && p'.lastCounts == Some(R.CountsOf(reg)) && p'.lastSources == p.lastSources
            && (t in {KnownState, OnlineState} && p.lastCounts != Some(R.CountsOf(reg)) ==>
                 Holds(AimNow(reg), p'.broker, t))
            && (t !in {KnownState, OnlineState} ==> Get(p'.broker, t) == Get(p.broker, t))
  {
    CountsConform(AimNow(reg));
    SendConforming(AimNow(reg), p.broker, CountMessages(R.CountsOf(reg)), t);
  }

  lemma RefreshEffect(p: Pub, reg: R.Inventory, t: Topic)
    requires R.WellKeyed(reg)
    ensures var p' := RefreshStep(p, reg);
            && OnlyToGoal(AimNow(reg), p.broker, p'.broker, t)
            && p'.lastSources == S.TableNow(reg) && p'.lastCounts == p.lastCounts
            && (TableTopic(reg, t) && p.lastSources != S.TableNow(reg) ==> Holds(AimNow(reg), p'.broker, t))
            && (!TableTopic(reg, t) ==> Get(p'.broker, t) == Get(p.broker, t))
  {
    var aim := AimNow(reg);
    AllReceiversConform(aim, Enumerate(reg.Keys), t);
    SendConforming(aim, p.broker, AllReceivers(reg, aim.table, Enumerate(reg.Keys)), t);
  }

  /** Publishing an up-to-date update moves topics only to the goal, and brings
      to the goal everything it owes, the counters if it sends them and every
      receiver's sources if it refreshes an outdated table. */
  lemma UpdateEffect(p: Pub, reg: R.Inventory, u: Update, t: Topic)
    requires R.WellKeyed(reg) && UpToDate(reg, u)
    ensures var aim, p' := AimNow(reg), PublishUpdate(p, reg, u);
            && OnlyToGoal(aim, p.broker, p'.broker, t)
            && (Owes(u, t) ==> Holds(aim, p'.broker, t))
            && p'.lastCounts == (if SendsCounts(u) then Some(R.CountsOf(reg)) else p.lastCounts)
            && p'.lastSources == (if RefreshesSources(u) then S.TableNow(reg) else p.lastSources)
            && (SendsCounts(u) && p.lastCounts != p'.lastCounts && t in {KnownState, OnlineState} ==>
                 Holds(aim, p'.broker, t))
            && (!SendsCounts(u) && !t.Device? ==> Get(p'.broker, t) == Get(p.broker, t))
            && (p.lastSources != p'.lastSources && TableTopic(reg, t) ==> Holds(aim, p'.broker, t))
  {
    var aim := AimNow(reg);
    DirectConforms(aim, u, t);
    SendConforming(aim, p.broker, DirectMessages(u, aim.table), t);
    var direct := p.(broker := Send(p.broker, DirectMessages(u, aim.table)));
    CountsEffect(direct, reg, t);
    var counted := if SendsCounts(u) then CountsStep(direct, reg) else direct;
    RefreshEffect(counted, reg, t);
  }
}

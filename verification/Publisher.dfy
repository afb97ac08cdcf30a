/** The Home Assistant presenter (internal/controller/publish.go) and the
    discovery configs it publishes (internal/mqtt/discovery.go).

    `everything` is the simple specification: publish all of it. The other entry
    points publish only what their change flags and the two caches call for.
    A payload is a value over the fields the JSON is computed from. */
module Publisher {
  import opened Text
  import opened Model
  import opened Topics
  import R = Registry
  import S = Sources

  // ----- Entities of an adapter -----

  datatype Entity =
    | NameText | IPSensor | RoleSensor
    | ReceiverChannel | TransmitterChannel | ChannelSensor
    | SourceSelect

  function ComponentOf(e: Entity): Component {
    match e
    case NameText => TextBox
    case IPSensor | RoleSensor | ChannelSensor => Sensor
    case ReceiverChannel | TransmitterChannel => Number
    case SourceSelect => Select
  }

  function ItemOf(e: Entity): ObjectId {
    match e
    case NameText => NameId
    case IPSensor => IPAddressId
    case RoleSensor => RoleId
    case ReceiverChannel | TransmitterChannel | ChannelSensor => ChannelId
    case SourceSelect => SourceId
  }

  function ConfigSlot(e: Entity): Slot {
    Config(ComponentOf(e), ItemOf(e))
  }

  function EntitiesFor(role: Role): seq<Entity> {
    match role
    case Receiver => [NameText, IPSensor, RoleSensor, ReceiverChannel, SourceSelect]
    case Transmitter => [NameText, IPSensor, RoleSensor, TransmitterChannel]
    case Unknown => [NameText, IPSensor, RoleSensor, ChannelSensor]
  }

  predicate ContainsEntity(list: seq<Entity>, e: Entity) {
    exists i | 0 <= i < |list| :: ConfigSlot(list[i]) == ConfigSlot(e)
  }

  /** The candidates a role does not use. */
  function Unused(role: Role, candidates: seq<Entity>): seq<Entity> {
    if candidates == [] then []
    else
      (if ContainsEntity(EntitiesFor(role), candidates[0]) then [] else [candidates[0]]) +
      Unused(role, candidates[1..])
  }

  const ROLE_DEPENDENT: seq<Entity> := [ReceiverChannel, ChannelSensor, SourceSelect]

  /** The entities whose config topics StaleTopics clears. */
  function StaleEntities(role: Role): seq<Entity> {
    Unused(role, ROLE_DEPENDENT)
  }

  /** Which config slots each role clears. */
  lemma StaleByRole(role: Role)
    ensures StaleEntities(role) ==
            match role
            case Receiver => [ChannelSensor]
            case Transmitter => [ChannelSensor, SourceSelect]
            case Unknown => [ReceiverChannel, SourceSelect]
  {
    var used := EntitiesFor(role);
    assert used[3].ReceiverChannel? || used[3].TransmitterChannel? || used[3].ChannelSensor?;
    assert role == Receiver ==> used[4] == SourceSelect;
    assert ContainsEntity(used, ReceiverChannel) <==> role != Unknown by {
      assert ConfigSlot(used[3]) == ConfigSlot(ReceiverChannel) <==> role != Unknown;
    }
    assert ContainsEntity(used, ChannelSensor) <==> role == Unknown by {
      assert ConfigSlot(used[3]) == ConfigSlot(ChannelSensor) <==> role == Unknown;
    }
    assert ContainsEntity(used, SourceSelect) <==> role == Receiver;
    assert ROLE_DEPENDENT[1..] == [ChannelSensor, SourceSelect];
    assert ROLE_DEPENDENT[1..][1..] == [SourceSelect];
    assert ROLE_DEPENDENT[1..][1..][1..] == [];
  }

  function SlotsOf(es: seq<Entity>): set<Slot> {
    if es == [] then {} else {ConfigSlot(es[0])} + SlotsOf(es[1..])
  }

  const CONFIG_SLOTS: set<Slot> := {
    Config(TextBox, NameId), Config(Sensor, IPAddressId), Config(Sensor, RoleId),
    Config(Number, ChannelId), Config(Sensor, ChannelId), Config(Select, SourceId)}

  lemma SlotsCons(e: Entity, es: seq<Entity>)
    ensures SlotsOf([e] + es) == {ConfigSlot(e)} + SlotsOf(es)
  {
    assert ([e] + es)[1..] == es;
  }

  lemma SlotsOne(e: Entity)
    ensures SlotsOf([e]) == {ConfigSlot(e)}
  {
    SlotsCons(e, []);
    assert [e] + [] == [e];
  }

  function CommonSlots(): set<Slot> {
    {Config(TextBox, NameId), Config(Sensor, IPAddressId), Config(Sensor, RoleId)}
  }

  function UsedSlots(role: Role): set<Slot> {
    match role
    case Receiver => CommonSlots() + {Config(Number, ChannelId), Config(Select, SourceId)}
    case Transmitter => CommonSlots() + {Config(Number, ChannelId)}
    case Unknown => CommonSlots() + {Config(Sensor, ChannelId)}
  }

  lemma SlotsByRole(role: Role)
    ensures SlotsOf(EntitiesFor(role)) == UsedSlots(role)
  {
    var tail := EntitiesFor(role)[3..];
    assert EntitiesFor(role) == [NameText] + ([IPSensor] + ([RoleSensor] + tail));
    SlotsCons(NameText, [IPSensor] + ([RoleSensor] + tail));
    SlotsCons(IPSensor, [RoleSensor] + tail);
    SlotsCons(RoleSensor, tail);
    SlotsOne(tail[0]);
    if role == Receiver {
      SlotsOne(SourceSelect);
      SlotsCons(ReceiverChannel, [SourceSelect]);
      assert tail == [ReceiverChannel] + [SourceSelect];
    } else {
      assert tail == [tail[0]];
    }
  }

  lemma StaleSlotsByRole(role: Role)
    ensures SlotsOf(StaleEntities(role)) == CONFIG_SLOTS - UsedSlots(role)
  {
    StaleByRole(role);
    SlotsOne(ChannelSensor);
    SlotsOfTwo(ChannelSensor, SourceSelect);
    SlotsOfTwo(ReceiverChannel, SourceSelect);
  }

  lemma SlotsOfTwo(d: Entity, e: Entity)
    ensures SlotsOf([d, e]) == {ConfigSlot(d), ConfigSlot(e)}
  {
    SlotsOne(e);
    SlotsCons(d, [e]);
    assert [d] + [e] == [d, e];
  }

  lemma AllUsedSlots()
    ensures CONFIG_SLOTS == UsedSlots(Receiver) + UsedSlots(Transmitter) + UsedSlots(Unknown)
  {
  }

  /** For every role the published and the cleared config slots are disjoint and
      together are the config slots of all roles. */
  lemma RolesPartitionConfigs(role: Role)
    ensures SlotsOf(EntitiesFor(role)) !! SlotsOf(StaleEntities(role))
    ensures SlotsOf(EntitiesFor(role)) + SlotsOf(StaleEntities(role)) == CONFIG_SLOTS
    ensures CONFIG_SLOTS == SlotsOf(EntitiesFor(Receiver)) + SlotsOf(EntitiesFor(Transmitter)) +
            SlotsOf(EntitiesFor(Unknown))
  {
    StaleSlotsByRole(role);
    SlotsByRole(role);
    SlotsByRole(Receiver);
    SlotsByRole(Transmitter);
    SlotsByRole(Unknown);
    AllUsedSlots();
    var used, all := UsedSlots(role), CONFIG_SLOTS;
    assert used <= all by {
      match role
      case Receiver =>
      case Transmitter =>
      case Unknown =>
    }
    DifferenceCovers(used, all);
  }

  lemma DifferenceCovers(used: set<Slot>, all: set<Slot>)
    requires used <= all
    ensures used !! (all - used) && used + (all - used) == all
  {
  }

  /** Within a role an object, hence a unique_id, has one component. */
  lemma OneComponentPerObject(role: Role, c: Component, d: Component, o: ObjectId)
    requires Config(c, o) in SlotsOf(EntitiesFor(role)) && Config(d, o) in SlotsOf(EntitiesFor(role))
    ensures c == d
  {
    SlotsByRole(role);
  }

  // ----- Payloads -----

  /** The "device" block of a discovery config. */
  datatype DeviceBlock = DeviceBlock(mac: string, name: string, model: string, modelId: string, firmware: string)

  datatype Payload =
    | Plain(text: string)
    | EntityConfig(entity: Entity, uniqueId: string, icon: Option<Role>, device: DeviceBlock, options: seq<string>)
    | ControllerEntity(item: ObjectId)

  function DeviceOf(a: Adapter): DeviceBlock {
    DeviceBlock(
      a.mac, DisplayName(a),
      if a.productName != "" then a.productName else if a.model != "" then a.model else "DT241M",
      a.model, a.firmware)
  }

  /** Only channel entities show the role's icon; only the select lists options. */
  function BuildConfig(a: Adapter, e: Entity, options: seq<string>): Payload {
    EntityConfig(
      e, a.id + "_" + ObjectText(ItemOf(e)),
      if ItemOf(e) == ChannelId then Some(a.role) else None,
      DeviceOf(a),
      if e == SourceSelect then options else [])
  }

  datatype Message = Message(topic: Topic, payload: Payload)

  function AdapterMessages(a: Adapter, entities: seq<Entity>, options: seq<string>): seq<Message> {
    seq(|entities|, i requires 0 <= i < |entities| =>
      Message(Device(a.mac, ConfigSlot(entities[i])), BuildConfig(a, entities[i], options)))
  }

  function ClearingMessages(a: Adapter, entities: seq<Entity>): seq<Message> {
    seq(|entities|, i requires 0 <= i < |entities| => Message(Device(a.mac, ConfigSlot(entities[i])), Plain("")))
  }

  function DiscoveryMessages(a: Adapter, t: S.Table): seq<Message> {
    ClearingMessages(a, StaleEntities(a.role)) + AdapterMessages(a, EntitiesFor(a.role), S.Options(t))
  }

  function AvailabilityMessages(a: Adapter): seq<Message> {
    [Message(Device(a.mac, Availability), Plain(if a.online then "online" else "offline"))]
  }

  function NameMessages(a: Adapter): seq<Message> {
    [Message(Device(a.mac, NameState), Plain(DisplayName(a)))]
  }

  function StateMessages(a: Adapter, t: S.Table): seq<Message> {
    (if a.channel.Some? then [Message(Device(a.mac, ChannelState), Plain(Itoa(a.channel.value)))] else []) +
    (if a.ip != "" then [Message(Device(a.mac, IPState), Plain(a.ip))] else []) +
    [Message(Device(a.mac, RoleState), Plain(RoleText(a.role)))] +
    (if a.role == Receiver then [Message(Device(a.mac, SourceState), Plain(S.ForChannel(t, a.channel)))] else [])
  }

  function ReceiverMessages(a: Adapter, t: S.Table): seq<Message> {
    if a.role != Receiver then []
    else [Message(Device(a.mac, ConfigSlot(SourceSelect)), BuildConfig(a, SourceSelect, S.Options(t))),
          Message(Device(a.mac, SourceState), Plain(S.ForChannel(t, a.channel)))]
  }

  function CountMessages(c: R.Tally): seq<Message> {
    [Message(KnownState, Plain(Itoa(c.known))), Message(OnlineState, Plain(Itoa(c.online)))]
  }

  function ControllerMessages(): seq<Message> {
    [Message(ControllerAvailability, Plain("online")),
     Message(ControllerConfig(Button, RescanId), ControllerEntity(RescanId)),
     Message(ControllerConfig(Sensor, KnownId), ControllerEntity(KnownId)),
     Message(ControllerConfig(Sensor, OnlineId), ControllerEntity(OnlineId))]
  }

  // ----- The broker's retained messages -----

  type Broker = map<Topic, Payload>

  /** A retained publish; an empty payload deletes the retained message. */
  function Publish(b: Broker, m: Message): Broker {
    if m.payload == Plain("") then b - {m.topic} else b[m.topic := m.payload]
  }

  function Send(b: Broker, msgs: seq<Message>): Broker
    decreases |msgs|
  {
    if msgs == [] then b else Send(Publish(b, msgs[0]), msgs[1..])
  }

  lemma {:induction false} SendAppend(b: Broker, x: seq<Message>, y: seq<Message>)
    ensures Send(b, x + y) == Send(Send(b, x), y)
    decreases |x|
  {
    if x == [] {
      assert x + y == y;
    } else {
      assert (x + y)[1..] == x[1..] + y;
      SendAppend(Publish(b, x[0]), x[1..], y);
    }
  }

  function Get(b: Broker, t: Topic): Option<Payload> {
    if t in b then Some(b[t]) else None
  }

  /** What a subscriber finds after p was published. */
  function Shown(p: Payload): Option<Payload> {
    if p == Plain("") then None else Some(p)
  }

  function TopicsOf(msgs: seq<Message>): set<Topic> {
    set i | 0 <= i < |msgs| :: msgs[i].topic
  }

  // ----- The goal: what each topic should carry -----

  function WantConfig(a: Adapter, t: S.Table, c: Component, o: ObjectId): Option<Payload> {
    match (c, o)
    case (TextBox, NameId) => Some(BuildConfig(a, NameText, []))
    case (Sensor, IPAddressId) => Some(BuildConfig(a, IPSensor, []))
    case (Sensor, RoleId) => Some(BuildConfig(a, RoleSensor, []))
    case (Number, ChannelId) =>
      Some(match a.role
           case Receiver => BuildConfig(a, ReceiverChannel, [])
           case Transmitter => BuildConfig(a, TransmitterChannel, [])
           case Unknown => Plain(""))
    case (Sensor, ChannelId) => Some(if a.role == Unknown then BuildConfig(a, ChannelSensor, []) else Plain(""))
    case (Select, SourceId) => Some(if a.role == Receiver then BuildConfig(a, SourceSelect, S.Options(t))
        else Plain(""))
    case _ => None
  }

  /** None where the controller has nothing to say about a slot. */
  function Want(a: Adapter, t: S.Table, slot: Slot): Option<Payload> {
    match slot
    case Availability => Some(Plain(if a.online then "online" else "offline"))
    case NameState => Some(Plain(DisplayName(a)))
    case ChannelState => if a.channel.Some? then Some(Plain(Itoa(a.channel.value))) else None
    case IPState => if a.ip != "" then Some(Plain(a.ip)) else None
    case RoleState => Some(Plain(RoleText(a.role)))
    case SourceState => if a.role == Receiver then Some(Plain(S.ForChannel(t, a.channel))) else None
    case Config(c, o) => WantConfig(a, t, c, o)
    case _ => None
  }

  datatype Aim = Aim(reg: R.Inventory, table: S.Table, counts: R.Tally)

  function Goal(aim: Aim, t: Topic): Option<Payload> {
    match t
    case Device(m, slot) => if m in aim.reg then Want(aim.reg[m], aim.table, slot) else None
    case ControllerAvailability => Some(Plain("online"))
    case KnownState => Some(Plain(Itoa(aim.counts.known)))
    case OnlineState => Some(Plain(Itoa(aim.counts.online)))
    case ControllerConfig(c, o) =>
      if (c == Button && o == RescanId) || (c == Sensor && (o == KnownId || o == OnlineId))
      then Some(ControllerEntity(o))
      else None
    case RescanPress => None
  }

  /** The broker already carries what the goal asks for on t. */
  predicate Holds(aim: Aim, b: Broker, t: Topic) {
    Goal(aim, t).Some? ==> Get(b, t) == Shown(Goal(aim, t).value)
  }

  predicate Conforms(aim: Aim, m: Message) {
    Goal(aim, m.topic) == Some(m.payload)
  }

  predicate Conforming(aim: Aim, msgs: seq<Message>) {
    forall i | 0 <= i < |msgs| :: Conforms(aim, msgs[i])
  }

  /** Messages that agree with the goal bring their topics to the goal and leave
      every other topic alone, whatever their order. */
  lemma {:induction false} SendConforming(aim: Aim, b: Broker, msgs: seq<Message>, t: Topic)
    requires Conforming(aim, msgs)
    ensures Get(Send(b, msgs), t) == if t in TopicsOf(msgs) then Shown(Goal(aim, t).value) else Get(b, t)
    decreases |msgs|
  {
    if msgs != [] {
      var rest := msgs[1..];
      assert forall i | 0 <= i < |rest| :: rest[i] == msgs[i + 1];
      SendConforming(aim, Publish(b, msgs[0]), rest, t);
      assert TopicsOf(msgs) == {msgs[0].topic} + TopicsOf(rest) by {
        assert forall i | 0 < i < |msgs| :: msgs[i].topic == rest[i - 1].topic;
      }
      assert Conforms(aim, msgs[0]);
    }
  }

  lemma ConformingAppend(aim: Aim, x: seq<Message>, y: seq<Message>)
    ensures Conforming(aim, x + y) <==> Conforming(aim, x) && Conforming(aim, y)
    ensures TopicsOf(x + y) == TopicsOf(x) + TopicsOf(y)
  {
    var z := x + y;
    assert forall i | 0 <= i < |x| :: z[i] == x[i];
    assert forall i | 0 <= i < |y| :: z[|x| + i] == y[i];
    assert forall i | |x| <= i < |z| :: z[i] == y[i - |x|];
  }

  lemma BrokerExtensional(b: Broker, c: Broker)
    requires forall t :: Get(b, t) == Get(c, t)
    ensures b == c
  {
    assert forall t :: t in b <==> Get(b, t).Some?;
    assert forall t :: t in c <==> Get(c, t).Some?;
    forall t | t in b ensures b[t] == c[t] {
      assert Get(b, t) == Get(c, t);
    }
  }

  /** Two batches for the same goal and the same topics have the same effect. */
  lemma SameTopicsSameEffect(aim: Aim, b: Broker, x: seq<Message>, y: seq<Message>)
    requires Conforming(aim, x) && Conforming(aim, y) && TopicsOf(x) == TopicsOf(y)
    ensures Send(b, x) == Send(b, y)
  {
    forall t ensures Get(Send(b, x), t) == Get(Send(b, y), t) {
      SendConforming(aim, b, x, t);
      SendConforming(aim, b, y, t);
    }
    BrokerExtensional(Send(b, x), Send(b, y));
  }

  /** Publishing what already holds changes nothing. */
  lemma SendNothingNew(aim: Aim, b: Broker, msgs: seq<Message>)
    requires Conforming(aim, msgs) && forall t | t in TopicsOf(msgs) :: Holds(aim, b, t)
    ensures Send(b, msgs) == b
  {
    forall t ensures Get(Send(b, msgs), t) == Get(b, t) {
      SendConforming(aim, b, msgs, t);
    }
    BrokerExtensional(Send(b, msgs), b);
  }

  // ----- Each group of messages against the goal -----

  /** a is what the registry holds for its MAC. */
  predicate Current(aim: Aim, a: Adapter) {
    a.mac in aim.reg && aim.reg[a.mac] == a
  }

  function SlotTopics(m: string, slots: set<Slot>): set<Topic> {
    set s | s in slots :: Device(m, s)
  }

  const STATE_SLOTS: set<Slot> := {ChannelState, IPState, RoleState, SourceState}

  const SOURCE_SLOTS: set<Slot> := {Config(Select, SourceId), SourceState}

  /** The topics among some slots on which something is wanted. */
  function Wanted(a: Adapter, t: S.Table, slots: set<Slot>): set<Topic> {
    set s | s in slots && Want(a, t, s).Some? :: Device(a.mac, s)
  }

  lemma TopicsOfOne(m: Message)
    ensures TopicsOf([m]) == {m.topic} && TopicsOf([]) == {}
  {
    assert [m][0].topic == m.topic;
  }

  lemma {:induction false} InSlots(es: seq<Entity>, slot: Slot)
    ensures slot in SlotsOf(es) <==> exists i | 0 <= i < |es| :: ConfigSlot(es[i]) == slot
  {
    if es != [] {
      InSlots(es[1..], slot);
      assert forall i | 0 < i < |es| :: es[i] == es[1..][i - 1];
    }
  }

  lemma EntityTopics(a: Adapter, es: seq<Entity>, options: seq<string>)
    ensures TopicsOf(AdapterMessages(a, es, options)) == SlotTopics(a.mac, SlotsOf(es))
    ensures TopicsOf(ClearingMessages(a, es)) == SlotTopics(a.mac, SlotsOf(es))
  {
    var build, clear := AdapterMessages(a, es, options), ClearingMessages(a, es);
    forall i | 0 <= i < |es| ensures build[i].topic == clear[i].topic == Device(a.mac, ConfigSlot(es[i])) {}
    forall t
      ensures t in SlotTopics(a.mac, SlotsOf(es)) <==> t.Device? && t.mac == a.mac && exists i | 0 <= i < |es| ::
              ConfigSlot(es[i]) == t.slot
    {
      if t.Device? {
        InSlots(es, t.slot);
      }
    }
    forall i | 0 <= i < |es|
      ensures Device(a.mac, ConfigSlot(es[i])) in TopicsOf(build) && Device(a.mac, ConfigSlot(es[i])) in TopicsOf(clear)
    {
      assert build[i].topic in TopicsOf(build) && clear[i].topic in TopicsOf(clear);
    }
  }

  lemma ClearedIsWanted(a: Adapter, t: S.Table, i: nat)
    requires i < |StaleEntities(a.role)|
    ensures Want(a, t, ConfigSlot(StaleEntities(a.role)[i])) == Some(Plain(""))
  {
    StaleByRole(a.role);
    var e := StaleEntities(a.role)[i];
    assert e == SourceSelect || e == if a.role == Unknown then ReceiverChannel else ChannelSensor;
  }

  lemma BuiltIsWanted(a: Adapter, t: S.Table, i: nat)
    requires i < |EntitiesFor(a.role)|
    ensures var e := EntitiesFor(a.role)[i];
            Want(a, t, ConfigSlot(e)) == Some(BuildConfig(a, e, S.Options(t)))
  {
  }

  lemma DiscoveryConforms(aim: Aim, a: Adapter)
    requires Current(aim, a)
    ensures Conforming(aim, DiscoveryMessages(a, aim.table))
    ensures TopicsOf(DiscoveryMessages(a, aim.table)) == SlotTopics(a.mac, CONFIG_SLOTS)
  {
    RolesPartitionConfigs(a.role);
    var stale, used, options := StaleEntities(a.role), EntitiesFor(a.role), S.Options(aim.table);
    EntityTopics(a, stale, options);
    EntityTopics(a, used, options);
    ConformingAppend(aim, ClearingMessages(a, stale), AdapterMessages(a, used, options));
    forall i | 0 <= i < |stale| ensures Conforms(aim, ClearingMessages(a, stale)[i]) {
      ClearedIsWanted(a, aim.table, i);
    }
    forall i | 0 <= i < |used| ensures Conforms(aim, AdapterMessages(a, used, options)[i]) {
      BuiltIsWanted(a, aim.table, i);
    }
  }

  lemma SimpleConforms(aim: Aim, a: Adapter)
    requires Current(aim, a)
    ensures Conforming(aim, AvailabilityMessages(a)) &&
            TopicsOf(AvailabilityMessages(a)) == {Device(a.mac, Availability)}
    ensures Conforming(aim, NameMessages(a)) && TopicsOf(NameMessages(a)) == {Device(a.mac, NameState)}
  {
    TopicsOfOne(AvailabilityMessages(a)[0]);
    TopicsOfOne(NameMessages(a)[0]);
  }

  /** A message sent only if something is wanted on its slot. */
  function Maybe(a: Adapter, t: S.Table, slot: Slot): seq<Message> {
    if Want(a, t, slot).Some? then [Message(Device(a.mac, slot), Want(a, t, slot).value)] else []
  }

  lemma MaybeConforms(aim: Aim, a: Adapter, slot: Slot)
    requires Current(aim, a)
    ensures Conforming(aim, Maybe(a, aim.table, slot))
    ensures TopicsOf(Maybe(a, aim.table, slot)) == Wanted(a, aim.table, {slot})
  {
    if Want(a, aim.table, slot).Some? {
      TopicsOfOne(Message(Device(a.mac, slot), Want(a, aim.table, slot).value));
    }
  }

  lemma StateConforms(aim: Aim, a: Adapter)
    requires Current(aim, a)
    ensures Conforming(aim, StateMessages(a, aim.table))
    ensures TopicsOf(StateMessages(a, aim.table)) == Wanted(a, aim.table, STATE_SLOTS)
  {
    var t := aim.table;
    var c, i, r, s := Maybe(a, t, ChannelState), Maybe(a, t, IPState), Maybe(a, t, RoleState), Maybe(a, t, SourceState);
    assert StateMessages(a, t) == c + i + r + s;
    MaybeConforms(aim, a, ChannelState);
    MaybeConforms(aim, a, IPState);
    MaybeConforms(aim, a, RoleState);
    MaybeConforms(aim, a, SourceState);
    ConformingAppend(aim, c, i);
    ConformingAppend(aim, c + i, r);
    ConformingAppend(aim, c + i + r, s);
    assert STATE_SLOTS == {ChannelState} + {IPState} + {RoleState} + {SourceState};
    WantedUnion(a, t, {ChannelState}, {IPState});
    WantedUnion(a, t, {ChannelState} + {IPState}, {RoleState});
    WantedUnion(a, t, {ChannelState} + {IPState} + {RoleState}, {SourceState});
  }

  lemma WantedUnion(a: Adapter, t: S.Table, x: set<Slot>, y: set<Slot>)
    ensures Wanted(a, t, x + y) == Wanted(a, t, x) + Wanted(a, t, y)
  {
  }

  lemma ReceiverConforms(aim: Aim, a: Adapter)
    requires Current(aim, a)
    ensures Conforming(aim, ReceiverMessages(a, aim.table))
    ensures TopicsOf(ReceiverMessages(a, aim.table)) == if a.role == Receiver then SlotTopics(a.mac, SOURCE_SLOTS)
            else {}
  {
    var msgs := ReceiverMessages(a, aim.table);
    if a.role == Receiver {
      TopicsOfOne(msgs[0]);
      TopicsOfOne(msgs[1]);
      ConformingAppend(aim, [msgs[0]], [msgs[1]]);
      assert msgs == [msgs[0]] + [msgs[1]];
    }
  }
}

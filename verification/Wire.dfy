/** The broker as it really is, keyed by the text of topics. The agreement of the
    views is stated over structured topics; here it is carried over to texts,
    foreign retained messages included. */
module Wire {
  import opened Text
  import opened Model
  import opened Topics
  import opened Publisher
  import opened Presenter
  import opened Agreement
  import Mac
  import R = Registry
  import S = Sources
  import St = Store
  import C = ControllerObject
  import Broadcast = Publisher

  type Wire = map<string, Payload>

  function PublishText(w: Wire, m: Message): Wire {
    var topic := Render(m.topic);
    if m.payload == Plain("") then w - {topic} else w[topic := m.payload]
  }

  function SendText(w: Wire, msgs: seq<Message>): Wire
    decreases |msgs|
  {
    if msgs == [] then w else SendText(PublishText(w, msgs[0]), msgs[1..])
  }

  function GetText(w: Wire, text: string): Option<Payload> {
    if text in w then Some(w[text]) else None
  }

  /** On every topic the controller can name, the wire holds what b holds. */
  ghost predicate Carries(w: Wire, b: Broker) {
    forall t | Proper(t) :: GetText(w, Render(t)) == Get(b, t)
  }

  predicate ProperMessages(msgs: seq<Message>) {
    forall i | 0 <= i < |msgs| :: Proper(msgs[i].topic)
  }

  lemma PublishCarries(w: Wire, b: Broker, m: Message)
    requires Carries(w, b) && Proper(m.topic)
    ensures Carries(PublishText(w, m), Broadcast.Publish(b, m))
  {
    var w', b' := PublishText(w, m), Broadcast.Publish(b, m);
    forall t | Proper(t) ensures GetText(w', Render(t)) == Get(b', t) {
      assert GetText(w, Render(t)) == Get(b, t);
      if Render(t) == Render(m.topic) {
        RenderInjective(t, m.topic);
      }
    }
  }

  lemma {:induction false} SendCarries(w: Wire, b: Broker, msgs: seq<Message>)
    requires Carries(w, b) && ProperMessages(msgs)
    ensures Carries(SendText(w, msgs), Send(b, msgs))
    decreases |msgs|
  {
    if msgs != [] {
      PublishCarries(w, b, msgs[0]);
      assert forall i | 0 <= i < |msgs| - 1 :: msgs[1..][i] == msgs[i + 1];
      SendCarries(PublishText(w, msgs[0]), Broadcast.Publish(b, msgs[0]), msgs[1..]);
    }
  }

  lemma {:induction false} SendLeaves(w: Wire, msgs: seq<Message>, text: string)
    requires forall i | 0 <= i < |msgs| :: Render(msgs[i].topic) != text
    ensures GetText(SendText(w, msgs), text) == GetText(w, text)
    decreases |msgs|
  {
    if msgs != [] {
      SendLeaves(PublishText(w, msgs[0]), msgs[1..], text);
    }
  }

  /** Messages that change nothing in the structured broker change no text. */
  lemma IdleOnTheWire(w: Wire, b: Broker, msgs: seq<Message>)
    requires Carries(w, b) && ProperMessages(msgs) && Send(b, msgs) == b
    ensures SendText(w, msgs) == w
  {
    var w' := SendText(w, msgs);
    SendCarries(w, b, msgs);
    forall text ensures GetText(w', text) == GetText(w, text) {
      if i :| 0 <= i < |msgs| && Render(msgs[i].topic) == text {
        var t := msgs[i].topic;
        assert GetText(w', Render(t)) == Get(b, t) && GetText(w, Render(t)) == Get(b, t);
      } else {
        SendLeaves(w, msgs, text);
      }
    }
    SameTexts(w, w');
  }

  lemma SameTexts(w: Wire, x: Wire)
    requires forall text :: GetText(w, text) == GetText(x, text)
    ensures w == x
  {
    assert forall text :: text in w <==> GetText(w, text).Some?;
    assert forall text :: text in x <==> GetText(x, text).Some?;
    forall text | text in w ensures text in x && w[text] == x[text] {
      assert GetText(w, text) == GetText(x, text);
    }
  }

  // ----- Every wire has its broker -----

  /** Whatever a broker holds, some structured broker describes what of it
      concerns the controller. */
  lemma {:induction false} SomeBroker(w: Wire) returns (b: Broker)
    ensures Carries(w, b)
    decreases |w|
  {
    if w == map[] {
      b := map[];
    } else {
      var text :| text in w;
      var less := w - {text};
      assert |less| == |w| - 1;
      var rest := SomeBroker(less);
      if t :| Proper(t) && Render(t) == text {
        b := rest[t := w[text]];
        forall u | Proper(u) ensures GetText(w, Render(u)) == Get(b, u) {
          assert GetText(less, Render(u)) == Get(rest, u);
          if Render(u) == text {
            RenderInjective(u, t);
          }
        }
      } else {
        b := rest;
        forall u | Proper(u) ensures GetText(w, Render(u)) == Get(b, u) {
          assert GetText(less, Render(u)) == Get(rest, u);
        }
      }
    }
  }

  // ----- MACs in the registry are MACs -----

  ghost predicate RealMacs(reg: R.Inventory) {
    forall m | m in reg :: Mac.IsMac(m)
  }

  lemma StartKeepsMacs(reg: R.Inventory, op: Begin)
    requires R.WellKeyed(reg) && R.UniqueOnline(reg) && Effective(reg, op) && RealMacs(reg)
    ensures RealMacs(After(reg, op))
  {
    StartIsLocal(reg, op);
    if op.Observe? {
      Mac.NormalizeIdempotent(op.info.lanMac);
      assert Subject(UpdateFor(reg, op)).mac == Mac.Normalize(op.info.lanMac);
    }
  }

  /** A message that agrees with the goal is on a topic of a known adapter or of
      the controller. */
  lemma ConformingIsProper(aim: Aim, msgs: seq<Message>)
    requires Conforming(aim, msgs) && RealMacs(aim.reg)
    ensures ProperMessages(msgs)
  {
    forall i | 0 <= i < |msgs| ensures Proper(msgs[i].topic) {
      assert Conforms(aim, msgs[i]);
    }
  }

  // ----- The messages of each publication -----

  ghost function RecountMessages(p: Pub, reg: R.Inventory): seq<Message> {
    if p.lastCounts == Some(R.CountsOf(reg)) then [] else CountMessages(R.CountsOf(reg))
  }

  ghost function RefreshMessages(p: Pub, reg: R.Inventory): seq<Message> {
    if p.lastSources == S.TableNow(reg) then [] else AllReceivers(reg, S.TableNow(reg), Enumerate(reg.Keys))
  }

  ghost function EverythingMessages(reg: R.Inventory): seq<Message> {
    SweepMessages(reg, S.TableNow(reg), R.CountsOf(reg), Enumerate(reg.Keys))
  }

  ghost function UpdateMessages(p: Pub, reg: R.Inventory, u: Update): seq<Message> {
    DirectMessages(u, S.TableNow(reg)) +
    (if SendsCounts(u) then RecountMessages(p, reg) else []) +
    (if RefreshesSources(u) then RefreshMessages(p, reg) else [])
  }

  lemma RecountSends(p: Pub, reg: R.Inventory)
    ensures CountsStep(p, reg).broker == Send(p.broker, RecountMessages(p, reg))
  {
  }

  lemma RefreshSends(p: Pub, reg: R.Inventory)
    ensures RefreshStep(p, reg).broker == Send(p.broker, RefreshMessages(p, reg))
  {
  }

  lemma SendThree(b: Broker, x: seq<Message>, y: seq<Message>, z: seq<Message>)
    ensures Send(b, x + y + z) == Send(Send(Send(b, x), y), z)
  {
    SendAppend(b, x, y);
    SendAppend(b, x + y, z);
  }

  lemma UpdateSends(p: Pub, reg: R.Inventory, u: Update)
    ensures PublishUpdate(p, reg, u).broker == Send(p.broker, UpdateMessages(p, reg, u))
  {
    var x := DirectMessages(u, S.TableNow(reg));
    var y := if SendsCounts(u) then RecountMessages(p, reg) else [];
    var z := if RefreshesSources(u) then RefreshMessages(p, reg) else [];
    SendThree(p.broker, x, y, z);
    var direct := p.(broker := Send(p.broker, x));
    RecountSends(direct, reg);
    var counted := if SendsCounts(u) then CountsStep(direct, reg) else direct;
    RefreshSends(counted, reg);
  }

  lemma ProperAppend(x: seq<Message>, y: seq<Message>)
    requires ProperMessages(x) && ProperMessages(y)
    ensures ProperMessages(x + y)
  {
  }

  lemma RefreshIsProper(p: Pub, reg: R.Inventory)
    requires R.WellKeyed(reg) && RealMacs(reg)
    ensures ProperMessages(RefreshMessages(p, reg))
  {
    AllReceiversConform(AimNow(reg), Enumerate(reg.Keys), RescanPress);
    ConformingIsProper(AimNow(reg), AllReceivers(reg, S.TableNow(reg), Enumerate(reg.Keys)));
  }

  lemma DirectIsProper(reg: R.Inventory, u: Update)
    requires RealMacs(reg) && UpToDate(reg, u)
    ensures ProperMessages(DirectMessages(u, S.TableNow(reg)))
  {
    DirectConforms(AimNow(reg), u, RescanPress);
    ConformingIsProper(AimNow(reg), DirectMessages(u, S.TableNow(reg)));
  }

  lemma UpdateIsProper(p: Pub, reg: R.Inventory, u: Update)
    requires R.WellKeyed(reg) && RealMacs(reg) && UpToDate(reg, u)
    ensures ProperMessages(UpdateMessages(p, reg, u))
  {
    var x := DirectMessages(u, S.TableNow(reg));
    var y := if SendsCounts(u) then RecountMessages(p, reg) else [];
    var z := if RefreshesSources(u) then RefreshMessages(p, reg) else [];
    DirectIsProper(reg, u);
    RecountIsProper(p, reg);
    RefreshIsProper(p, reg);
    ProperAppend(x, y);
    ProperAppend(x + y, z);
  }

  lemma RecountIsProper(p: Pub, reg: R.Inventory)
    ensures ProperMessages(RecountMessages(p, reg))
  {
  }

  lemma EverythingIsProper(reg: R.Inventory)
    requires R.WellKeyed(reg) && RealMacs(reg)
    ensures ProperMessages(EverythingMessages(reg))
  {
    SweepConforms(AimNow(reg), Enumerate(reg.Keys), RescanPress);
    ConformingIsProper(AimNow(reg), EverythingMessages(reg));
  }

  // ----- Runs on the wire -----

  /** The wire after a step: the texts of the messages the step sends. */
  ghost function WireNext(w: Wire, s: Sys, l: Label): Wire
    requires Enabled(s, l)
  {
    match l
    case Publish(id) => SendText(w, UpdateMessages(s.pub, s.reg, s.flights[id].update))
    case Sweep => SendText(w, EverythingMessages(s.reg))
    case Recount => SendText(w, RecountMessages(s.pub, s.reg))
    case _ => w
  }

  lemma StepCarries(w: Wire, s: Sys, l: Label)
    requires R.WellKeyed(s.reg) && FlightsSound(s) && RealMacs(s.reg) && Carries(w, s.pub.broker) && Allowed(s, l)
    ensures Carries(WireNext(w, s, l), Next(s, l).pub.broker)
  {
    match l
    case Publish(id) =>
      var u := s.flights[id].update;
      UpdateIsProper(s.pub, s.reg, u);
      UpdateSends(s.pub, s.reg, u);
      SendCarries(w, s.pub.broker, UpdateMessages(s.pub, s.reg, u));
    case Sweep =>
      EverythingIsProper(s.reg);
      SendCarries(w, s.pub.broker, EverythingMessages(s.reg));
    case Recount =>
      RecountIsProper(s.pub, s.reg);
      SendCarries(w, s.pub.broker, RecountMessages(s.pub, s.reg));
    case _ =>
  }

  lemma StepKeepsMacs(s: Sys, l: Label)
    requires R.WellKeyed(s.reg) && R.UniqueOnline(s.reg) && RealMacs(s.reg) && Allowed(s, l)
    ensures RealMacs(Next(s, l).reg)
  {
    if l.Start? {
      StartKeepsMacs(s.reg, l.op);
    }
  }

  ghost function RunWire(w: Wire, s: Sys, run: seq<Label>): Wire
    requires AllowedRun(s, run)
    decreases |run|
  {
    if run == [] then w else RunWire(WireNext(w, s, run[0]), Next(s, run[0]), run[1..])
  }

  lemma {:induction false} RunCarries(w: Wire, s: Sys, run: seq<Label>)
    requires Inv(s) && RealMacs(s.reg) && Carries(w, s.pub.broker) && AllowedRun(s, run)
    ensures Carries(RunWire(w, s, run), RunSys(s, run).pub.broker) && RealMacs(RunSys(s, run).reg)
    decreases |run|
  {
    if run != [] {
      StepCarries(w, s, run[0]);
      StepKeepsMacs(s, run[0]);
      StepKeepsInv(s, run[0]);
      RunCarries(WireNext(w, s, run[0]), Next(s, run[0]), run[1..]);
    }
  }

  lemma QuietWireIdle(w: Wire, e: Sys)
    requires Inv(e) && e.flights == map[] && RealMacs(e.reg) && Carries(w, e.pub.broker)
    ensures SendText(w, EverythingMessages(e.reg)) == w
  {
    QuietAgrees(e);
    EverythingIsProper(e.reg);
    IdleOnTheWire(w, e.pub.broker, EverythingMessages(e.reg));
  }

  /** The agreement in texts. After a sweep onto whatever the wire holds, ours or
      not, and any allowed run that ends with nothing in flight, another sweep
      changes no retained text. */
  lemma WireAgrees(w: Wire, s: Sys, run: seq<Label>)
    requires Base(s) && RealMacs(s.reg) && Carries(w, s.pub.broker)
    requires AllowedRun(Next(s, Sweep), run) && RunSys(Next(s, Sweep), run).flights == map[]
    ensures var w' := RunWire(WireNext(w, s, Sweep), Next(s, Sweep), run);
            SendText(w', EverythingMessages(RunSys(Next(s, Sweep), run).reg)) == w'
  {
    var swept := Next(s, Sweep);
    StepCarries(w, s, Sweep);
    SweepEstablishes(s);
    RunKeepsInv(swept, run);
    RunCarries(WireNext(w, s, Sweep), swept, run);
    QuietWireIdle(RunWire(WireNext(w, s, Sweep), swept, run), RunSys(swept, run));
  }

  // ----- What a subscriber reads -----

  /** The wire carries the goal on every topic that has one. */
  ghost predicate AtRest(w: Wire, reg: R.Inventory) {
    forall t | Proper(t) && Goal(AimNow(reg), t).Some? :: GetText(w, Render(t)) == Shown(Goal(AimNow(reg), t).value)
  }

  /** It does whenever nothing is in flight. */
  lemma QuietWireIsAtRest(w: Wire, e: Sys)
    requires Inv(e) && e.flights == map[] && Carries(w, e.pub.broker)
    ensures AtRest(w, e.reg)
  {
    forall t | Proper(t) && Goal(AimNow(e.reg), t).Some?
      ensures GetText(w, Render(t)) == Shown(Goal(AimNow(e.reg), t).value)
    {
      QuietHolds(e, t);
      assert GetText(w, Render(t)) == Get(e.pub.broker, t);
    }
  }

  /** A device topic at rest carries what the adapter wants there. */
  lemma SlotReads(w: Wire, reg: R.Inventory, m: string, slot: Slot)
    requires AtRest(w, reg) && m in reg && Mac.IsMac(m) && Want(reg[m], S.TableNow(reg), slot).Some?
    ensures GetText(w, Render(Device(m, slot))) == Shown(Want(reg[m], S.TableNow(reg), slot).value)
  {
    var t := Device(m, slot);
    assert Proper(t) && Goal(AimNow(reg), t) == Want(reg[m], S.TableNow(reg), slot);
  }

  lemma ControllerTopicReads(w: Wire, reg: R.Inventory, t: Topic)
    requires AtRest(w, reg) && !t.Device? && Goal(AimNow(reg), t).Some?
    ensures GetText(w, Render(t)) == Shown(Goal(AimNow(reg), t).value)
  {
  }

  /** What a subscriber finds after a plain payload was published. */
  function Reads(text: string): Option<Payload> {
    if text == "" then None else Some(Plain(text))
  }

  lemma ItoaNotEmpty(n: int)
    ensures Itoa(n) != ""
  {
  }

  /** An adapter's state as Home Assistant reads it: availability, role and name. */
  lemma DeviceReads(w: Wire, reg: R.Inventory, m: string)
    requires AtRest(w, reg) && R.WellKeyed(reg) && m in reg && Mac.IsMac(m)
    ensures var a, stem := reg[m], "dt241m/device/" + Mac.Compact(m);
            && GetText(w, stem + "/availability") == Some(Plain(if a.online then "online" else "offline"))
            && GetText(w, stem + "/" + "name" + "/" + "state") == Reads(DisplayName(a))
            && GetText(w, stem + "/" + "role" + "/" + "state") ==
               Some(Plain(match a.role
                          case Transmitter => "transmitter"
                          case Receiver => "receiver"
                          case Unknown => "unknown"))
  {
    AvailabilityText(m);
    StateTopicTexts(m);
    SlotReads(w, reg, m, Availability);
    SlotReads(w, reg, m, NameState);
    SlotReads(w, reg, m, RoleState);
  }

  /** Its channel and its address, when known. */
  lemma DeviceStateReads(w: Wire, reg: R.Inventory, m: string)
    requires AtRest(w, reg) && m in reg && Mac.IsMac(m)
    ensures var a, stem := reg[m], "dt241m/device/" + Mac.Compact(m);
            && (a.channel.Some? ==>
                  GetText(w, stem + "/" + "channel" + "/" + "state") == Some(Plain(Itoa(a.channel.value))))
            && (a.ip != "" ==> GetText(w, stem + "/" + "ip" + "/" + "state") == Some(Plain(a.ip)))
  {
    var a := reg[m];
    StateTopicTexts(m);
    if a.channel.Some? {
      ItoaNotEmpty(a.channel.value);
      SlotReads(w, reg, m, ChannelState);
    }
    if a.ip != "" {
      SlotReads(w, reg, m, IPState);
    }
  }

  /** A receiver's source: the label shown for its channel. */
  lemma SourceReads(w: Wire, reg: R.Inventory, m: string)
    requires AtRest(w, reg) && m in reg && Mac.IsMac(m) && reg[m].role == Receiver
    ensures GetText(w, "dt241m/device/" + Mac.Compact(m) + "/" + "source" + "/" + "state") ==
            Reads(S.ForChannel(S.TableNow(reg), reg[m].channel))
  {
    StateTopicTexts(m);
    SlotReads(w, reg, m, SourceState);
  }

  lemma ControllerReads(w: Wire, reg: R.Inventory)
    requires AtRest(w, reg)
    ensures var stem := "dt241m" + "/" + "controller" + "/";
            && GetText(w, stem + "availability") == Some(Plain("online"))
            && GetText(w, stem + "known_devices" + "/" + "state") == Some(Plain(Itoa(|reg.Keys|)))
            && GetText(w, stem + "online_devices" + "/" + "state") ==
               Some(Plain(Itoa(|set m | m in reg && reg[m].online|)))
  {
    ControllerTopicTexts();
    ItoaNotEmpty(|reg|);
    ItoaNotEmpty(|R.OnlineSet(reg)|);
    assert |reg| == |reg.Keys|;
    assert R.OnlineSet(reg) == set m | m in reg && reg[m].online;
    ControllerTopicReads(w, reg, ControllerAvailability);
    ControllerTopicReads(w, reg, KnownState);
    ControllerTopicReads(w, reg, OnlineState);
  }

  /** The config of an entity of m: its own unique id, and m's own device block. */
  predicate ConfigOf(p: Payload, a: Adapter, item: string) {
    && p.EntityConfig? && p.uniqueId == "dt241m_" + Mac.Compact(a.mac) + "_" + item
    && p.device.mac == a.mac && p.device.name == DisplayName(a) && p.device.firmware == a.firmware
    && p.device.modelId == a.model && p.icon == (if item == "channel" then Some(a.role) else None)
    && p.device.model == (if a.productName != "" then a.productName else if a.model != "" then a.model else "DT241M")
  }

  lemma BuiltIsConfigOf(a: Adapter, e: Entity, options: seq<string>)
    requires a.id == "dt241m_" + Mac.Compact(a.mac)
    ensures ConfigOf(BuildConfig(a, e, options), a, ObjectText(ItemOf(e)))
  {
  }

  function ConfigText(m: string, component: string, item: string): string {
    "homeassistant/" + component + "/" + ("dt241m_" + Mac.Compact(m)) + "/" + item + "/config"
  }

  /** A config topic at rest, by its text. */
  lemma ConfigReads(w: Wire, reg: R.Inventory, m: string, c: Component, o: ObjectId)
    requires AtRest(w, reg) && m in reg && Mac.IsMac(m) && WantConfig(reg[m], S.TableNow(reg), c, o).Some?
    ensures GetText(w, ConfigText(m, ComponentText(c), ObjectText(o))) ==
            Shown(WantConfig(reg[m], S.TableNow(reg), c, o).value)
  {
    DiscoveryText(c, "dt241m_" + Mac.Compact(m), o);
    SlotReads(w, reg, m, Config(c, o));
  }

  /** The channel is a number for receivers and transmitters. */
  lemma NumberReads(w: Wire, reg: R.Inventory, m: string)
    requires AtRest(w, reg) && R.WellKeyed(reg) && m in reg && Mac.IsMac(m)
    ensures var number := GetText(w, ConfigText(m, "number", "channel"));
            if reg[m].role == Unknown then number == None
            else
              && number.Some? && ConfigOf(number.value, reg[m], "channel")
              && number.value.entity == if reg[m].role == Receiver then ReceiverChannel else TransmitterChannel
  {
    ConfigReads(w, reg, m, Number, ChannelId);
    BuiltIsConfigOf(reg[m], ReceiverChannel, []);
    BuiltIsConfigOf(reg[m], TransmitterChannel, []);
  }

  /** And a sensor for devices of unknown role. */
  lemma SensorReads(w: Wire, reg: R.Inventory, m: string)
    requires AtRest(w, reg) && R.WellKeyed(reg) && m in reg && Mac.IsMac(m)
    ensures var sensor := GetText(w, ConfigText(m, "sensor", "channel"));
            if reg[m].role == Unknown then sensor.Some? && ConfigOf(sensor.value, reg[m], "channel") else sensor == None
  {
    ConfigReads(w, reg, m, Sensor, ChannelId);
    BuiltIsConfigOf(reg[m], ChannelSensor, []);
  }

  /** Receivers alone have a source select, with the labels of the current table. */
  lemma SelectReads(w: Wire, reg: R.Inventory, m: string)
    requires AtRest(w, reg) && R.WellKeyed(reg) && m in reg && Mac.IsMac(m)
    ensures var a, select := reg[m], GetText(w, ConfigText(m, "select", "source"));
            if a.role == Receiver
            then select.Some? && ConfigOf(select.value, a, "source") &&
                select.value.options == S.Options(S.TableNow(reg))
            else select == None
  {
    ConfigReads(w, reg, m, Select, SourceId);
    BuiltIsConfigOf(reg[m], SourceSelect, S.Options(S.TableNow(reg)));
  }

  /** The config topic of an entity that every role has carries its config. */
  lemma CommonConfigReads(w: Wire, reg: R.Inventory, m: string, e: Entity)
    requires AtRest(w, reg) && R.WellKeyed(reg) && m in reg && Mac.IsMac(m)
    requires e == NameText || e == IPSensor || e == RoleSensor
    ensures var p := GetText(w, ConfigText(m, ComponentText(ComponentOf(e)), ObjectText(ItemOf(e))));
            p.Some? && ConfigOf(p.value, reg[m], ObjectText(ItemOf(e)))
  {
    ConfigReads(w, reg, m, ComponentOf(e), ItemOf(e));
    BuiltIsConfigOf(reg[m], e, []);
  }

  lemma NamesOfCommonEntities()
    ensures ComponentText(ComponentOf(NameText)) == "text" && ObjectText(ItemOf(NameText)) == "name"
    ensures ComponentText(ComponentOf(IPSensor)) == "sensor" && ObjectText(ItemOf(IPSensor)) == "ip_address"
    ensures ComponentText(ComponentOf(RoleSensor)) == "sensor" && ObjectText(ItemOf(RoleSensor)) == "role"
  {
  }

  /** Every device has a name, an address and a role entity. */
  lemma EveryDeviceHas(w: Wire, reg: R.Inventory, m: string)
    requires AtRest(w, reg) && R.WellKeyed(reg) && m in reg && Mac.IsMac(m)
    ensures var a := reg[m];
            var name, ip := GetText(w, ConfigText(m, "text", "name")),
                GetText(w, ConfigText(m, "sensor", "ip_address"));
            var role := GetText(w, ConfigText(m, "sensor", "role"));
            && name.Some? && ConfigOf(name.value, a, "name")
            && ip.Some? && ConfigOf(ip.value, a, "ip_address")
            && role.Some? && ConfigOf(role.value, a, "role")
  {
    NamesOfCommonEntities();
    CommonConfigReads(w, reg, m, NameText);
    CommonConfigReads(w, reg, m, IPSensor);
    CommonConfigReads(w, reg, m, RoleSensor);
  }

  /** No two entities share a unique id. */
  lemma UniqueIdsDiffer(m: string, o: ObjectId, n: string, p: ObjectId)
    requires Mac.IsMac(m) && Mac.IsMac(n)
    requires "dt241m_" + Mac.Compact(m) + "_" + ObjectText(o) == "dt241m_" + Mac.Compact(n) + "_" + ObjectText(p)
    ensures m == n && o == p
  {
    Mac.CompactRoundTrip(m);
    Mac.CompactRoundTrip(n);
    SameParts("dt241m_", Mac.Compact(m), ObjectText(o), Mac.Compact(n), ObjectText(p));
    Mac.CompactInjective(m, n);
    ObjectTextInjective(o, p);
  }

  lemma SameParts(head: string, x: string, a: string, y: string, b: string)
    requires |x| == |y| && head + x + "_" + a == head + y + "_" + b
    ensures x == y && a == b
  {
    var s, t, n := head + x + "_" + a, head + y + "_" + b, |head| + |x|;
    assert x == s[|head|..n] && y == t[|head|..n];
    assert a == s[n + 1..] && b == t[n + 1..];
  }

  /** An observation that changed nothing sends nothing, once the sources shown are
      the current ones. */
  lemma NothingNewNothingSent(p: Pub, reg: R.Inventory, ip: string, info: DeviceInfo, now: int)
    requires R.WellKeyed(reg) && R.UniqueOnline(reg) && R.Record(reg, ip, info, now).Recorded?
    requires !R.Record(reg, ip, info, now).obs.Changed()
    requires p.lastSources == S.TableNow(R.Record(reg, ip, info, now).reg)
    ensures UpdateMessages(p, R.Record(reg, ip, info, now).reg, Seen(R.Record(reg, ip, info, now).obs)) == []
  {
    R.ChangedIsTheDiff(reg, ip, info, now);
  }

  // ----- Across restarts -----

  lemma {:induction false} CompletedMacs(s: Sys, ops: seq<Begin>)
    requires Inv(s) && s.flights == map[] && RealMacs(s.reg)
    ensures RealMacs(C.CompleteAll(s, ops).reg)
    decreases |ops|
  {
    if ops != [] {
      if Effective(s.reg, ops[0]) {
        StartKeepsMacs(s.reg, ops[0]);
      }
      C.CompleteKeepsInv(s, ops[0]);
      CompletedMacs(C.Complete(s, ops[0]), ops[1..]);
    }
  }

  lemma RowsHaveRealMacs(e: Sys)
    requires StoreSound(e) && RealMacs(e.reg)
    ensures RealMacs(St.Restored(e.rows))
  {
  }

  /** From an empty store the registry holds nothing but MACs, in every lifetime. */
  lemma {:induction false} LifetimeMacs(lives: seq<(Broker, seq<Begin>)>)
    ensures RealMacs(St.Restored(C.Lifetimes(map[], lives)))
    decreases |lives|
  {
    if lives != [] {
      var n := |lives| - 1;
      var (b, ops) := lives[n];
      var s := C.Reborn(C.Lifetimes(map[], lives[..n]), b);
      LifetimeMacs(lives[..n]);
      C.EveryLifetimeIsSound(lives[..n], b);
      SweepEstablishes(s);
      CompletedMacs(Next(s, Sweep), ops);
      C.CompleteAllKeepsInv(Next(s, Sweep), ops);
      RowsHaveRealMacs(C.CompleteAll(Next(s, Sweep), ops));
    }
  }

  /** At every operation boundary of every lifetime, a sweep changes no text. */
  lemma WireIdleAcrossRestarts(lives: seq<(Broker, seq<Begin>)>, b: Broker, ops: seq<Begin>, w: Wire)
    requires Carries(w, C.CompleteAll(Next(C.Reborn(C.Lifetimes(map[], lives), b), Sweep), ops).pub.broker)
    ensures SendText(w, EverythingMessages(C.CompleteAll(Next(C.Reborn(C.Lifetimes(map[], lives), b), Sweep),
            ops).reg)) == w
  {
    var s := C.Reborn(C.Lifetimes(map[], lives), b);
    LifetimeMacs(lives);
    C.EveryLifetimeIsSound(lives, b);
    SweepEstablishes(s);
    CompletedMacs(Next(s, Sweep), ops);
    C.CompleteAllKeepsInv(Next(s, Sweep), ops);
    QuietWireIdle(w, C.CompleteAll(Next(s, Sweep), ops));
  }
}

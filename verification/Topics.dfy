/** The MQTT topic layout (internal/mqtt/topics.go). Topics are values here;
    Render gives the text on the wire and is injective, so distinct values never
    share a retained message. */
module Topics {
  import opened Text
  import opened Mac

  datatype Component = Number | Sensor | Select | TextBox | Button

  datatype ObjectId = ChannelId | SourceId | NameId | IPAddressId | RoleId | RescanId | KnownId | OnlineId

  /** The topics of one adapter. */
  datatype Slot =
    | Availability
    | ChannelState | ChannelSet
    | NameState | NameSet
    | IPState
    | RoleState
    | SourceState | SourceSet
    | Config(component: Component, item: ObjectId)

  datatype Topic =
    | Device(mac: string, slot: Slot)
    | ControllerAvailability
    | RescanPress
    | KnownState
    | OnlineState
    | ControllerConfig(component: Component, item: ObjectId)

  function ComponentText(c: Component): string {
    match c
    case Number => "number"
    case Sensor => "sensor"
    case Select => "select"
    case TextBox => "text"
    case Button => "button"
  }

  function ObjectText(o: ObjectId): string {
    match o
    case ChannelId => "channel"
    case SourceId => "source"
    case NameId => "name"
    case IPAddressId => "ip_address"
    case RoleId => "role"
    case RescanId => "rescan"
    case KnownId => "known_devices"
    case OnlineId => "online_devices"
  }

  /** homeassistant/<component>/<node>/<object>/config */
  function DiscoveryPath(c: Component, node: string, o: ObjectId): seq<string> {
    ["homeassistant", ComponentText(c), node, ObjectText(o), "config"]
  }

  function DevicePath(m: string, slot: Slot): seq<string> {
    match slot
    case Availability => ["dt241m", "device", Compact(m), "availability"]
    case ChannelState => ["dt241m", "device", Compact(m), "channel", "state"]
    case ChannelSet => ["dt241m", "device", Compact(m), "channel", "set"]
    case NameState => ["dt241m", "device", Compact(m), "name", "state"]
    case NameSet => ["dt241m", "device", Compact(m), "name", "set"]
    case IPState => ["dt241m", "device", Compact(m), "ip", "state"]
    case RoleState => ["dt241m", "device", Compact(m), "role", "state"]
    case SourceState => ["dt241m", "device", Compact(m), "source", "state"]
    case SourceSet => ["dt241m", "device", Compact(m), "source", "set"]
    case Config(c, o) => DiscoveryPath(c, "dt241m_" + Compact(m), o)
  }

  function Path(t: Topic): (p: seq<string>)
    ensures p != []
  {
    match t
    case Device(m, slot) => DevicePath(m, slot)
    case ControllerAvailability => ["dt241m", "controller", "availability"]
    case RescanPress => ["dt241m", "controller", "rescan", "press"]
    case KnownState => ["dt241m", "controller", "known_devices", "state"]
    case OnlineState => ["dt241m", "controller", "online_devices", "state"]
    case ControllerConfig(c, o) => DiscoveryPath(c, "dt241m_controller", o)
  }

  function Render(t: Topic): string {
    Join(Path(t))
  }

  /** The MAC in a topic is a normalised one. */
  predicate Proper(t: Topic) {
    t.Device? ==> IsMac(t.mac)
  }

  lemma ComponentTextInjective(a: Component, b: Component)
    requires ComponentText(a) == ComponentText(b)
    ensures a == b
  {
    assert "number"[0] == 'n' && "button"[0] == 'b' && "sensor"[2] == 'n' && "select"[2] == 'l';
    assert "sensor"[0] == 's' && "select"[0] == 's';
  }

  lemma ObjectTextInjective(a: ObjectId, b: ObjectId)
    requires ObjectText(a) == ObjectText(b)
    ensures a == b
  {
    assert "source"[0] == 's' && "rescan"[0] == 'r' && "name"[0] == 'n' && "role"[0] == 'r';
  }

  lemma SegmentsHaveNoSlash(t: Topic)
    requires Proper(t)
    ensures forall i | 0 <= i < |Path(t)| :: NoSlash(Path(t)[i])
  {
    match t
    case Device(m, Config(c, o)) =>
      CompactNoSlash(m);
      DiscoveryNoSlash(c, "dt241m_" + Compact(m), o);
    case Device(m, slot) => CompactNoSlash(m);
    case ControllerConfig(c, o) => DiscoveryNoSlash(c, "dt241m_controller", o);
    case _ =>
  }

  lemma CompactNoSlash(m: string)
    requires IsMac(m)
    ensures NoSlash(Compact(m)) && NoSlash("dt241m_" + Compact(m))
  {
    CompactRoundTrip(m);
  }

  lemma DiscoveryNoSlash(c: Component, node: string, o: ObjectId)
    requires NoSlash(node)
    ensures forall i | 0 <= i < |DiscoveryPath(c, node, o)| :: NoSlash(DiscoveryPath(c, node, o)[i])
  {
    assert NoSlash(ComponentText(c)) && NoSlash(ObjectText(o));
  }

  lemma DiscoveryPathInjective(c: Component, n: string, o: ObjectId, c': Component, n': string, o': ObjectId)
    requires DiscoveryPath(c, n, o) == DiscoveryPath(c', n', o')
    ensures c == c' && n == n' && o == o'
  {
    var p, q := DiscoveryPath(c, n, o), DiscoveryPath(c', n', o');
    assert p[1] == q[1] && p[2] == q[2] && p[3] == q[3];
    ComponentTextInjective(c, c');
    ObjectTextInjective(o, o');
  }

  lemma DevicePathInjective(m: string, s: Slot, n: string, r: Slot)
    requires IsMac(m) && IsMac(n)
    requires DevicePath(m, s) == DevicePath(n, r)
    ensures m == n && s == r
  {
    var p, q := DevicePath(m, s), DevicePath(n, r);
    assert |p[0]| == |q[0]| && p[2] == q[2];
    assert s.Config? <==> |p[0]| == 13;
    assert r.Config? <==> |q[0]| == 13;
    if s.Config? {
      DiscoveryPathInjective(s.component, "dt241m_" + Compact(m), s.item, r.component, "dt241m_" + Compact(n), r.item);
      assert Compact(m) == ("dt241m_" + Compact(m))[7..];
      assert Compact(n) == ("dt241m_" + Compact(n))[7..];
    } else {
      assert p[3] == q[3] && p[3][0] == q[3][0] && |p[3]| == |q[3]|;
      assert |p| == 5 ==> |p[4]| == |q[4]|;
    }
    CompactInjective(m, n);
  }

  /** No two topics share a text: not two slots of one adapter, not two
      adapters, not an adapter and the controller, and not a command topic and a
      published one. */
  lemma RenderInjective(t: Topic, u: Topic)
    requires Proper(t) && Proper(u) && Render(t) == Render(u)
    ensures t == u
  {
    SegmentsHaveNoSlash(t);
    SegmentsHaveNoSlash(u);
    JoinInjective(Path(t), Path(u));
    PathInjective(t, u);
  }

  lemma PathInjective(t: Topic, u: Topic)
    requires Proper(t) && Proper(u) && Path(t) == Path(u)
    ensures t == u
  {
    var p, q := Path(t), Path(u);
    if t.Device? && u.Device? {
      DevicePathInjective(t.mac, t.slot, u.mac, u.slot);
    } else if t.ControllerConfig? && u.ControllerConfig? {
      DiscoveryPathInjective(t.component, "dt241m_controller", t.item, u.component, "dt241m_controller", u.item);
    } else {
      if t.Device? {
        CompactRoundTrip(t.mac);
      }
      if u.Device? {
        CompactRoundTrip(u.mac);
      }
      assert |p| == |q| && |p[0]| == |q[0]| && |p[1]| == |q[1]| && |p[2]| == |q[2]|;
    }
  }

  // ----- Command topics -----

  datatype Command = ChannelCommand | NameCommand | SourceCommand

  function CommandText(c: Command): string {
    match c
    case ChannelCommand => "channel"
    case NameCommand => "name"
    case SourceCommand => "source"
  }

  function SetSlot(c: Command): Slot {
    match c
    case ChannelCommand => ChannelSet
    case NameCommand => NameSet
    case SourceCommand => SourceSet
  }

  datatype DeviceCommand = DeviceCommand(mac: string, command: Command)

  const DEVICE_PREFIX := "dt241m/device/"

  function SetSuffix(c: Command): string {
    "/" + CommandText(c) + "/set"
  }

  /** The end of the pattern: /(channel|name|source)/set. */
  function ParseSuffix(rest: string): Option<Command> {
    if rest == SetSuffix(ChannelCommand) then Some(ChannelCommand)
    else if rest == SetSuffix(NameCommand) then Some(NameCommand)
    else if rest == SetSuffix(SourceCommand) then Some(SourceCommand)
    else None
  }

  lemma SuffixRoundTrip(rest: string, c: Command)
    ensures ParseSuffix(rest) == Some(c) <==> rest == SetSuffix(c)
  {
    assert |SetSuffix(ChannelCommand)| == 12 && |SetSuffix(NameCommand)| == 9 && |SetSuffix(SourceCommand)| == 11;
  }

  /** The pattern dt241m/device/<12 hex digits>/(channel|name|source)/set. */
  function ParseDeviceCommand(topic: string): Option<DeviceCommand> {
    if |topic| < 26 || topic[..14] != DEVICE_PREFIX || !AllHex(topic[14..26]) then None
    else
      var command := ParseSuffix(topic[26..]);
      if command == None then None else Some(DeviceCommand(Normalize(topic[14..26]), command.value))
  }

  lemma SetTopicText(m: string, c: Command)
    ensures Render(Device(m, SetSlot(c))) == DEVICE_PREFIX + Compact(m) + SetSuffix(c)
  {
    var text := CommandText(c);
    JoinFive("dt241m", "device", Compact(m), text, "set");
    assert Path(Device(m, SetSlot(c))) == ["dt241m", "device", Compact(m), text, "set"];
    assert "dt241m" + "/" + "device" + "/" == DEVICE_PREFIX;
    assert "/" + text + "/" + "set" == SetSuffix(c);
  }

  // ----- The text of every topic -----

  lemma JoinFour(a: string, b: string, c: string, d: string)
    ensures Join([a, b, c, d]) == a + "/" + b + "/" + c + "/" + d
  {
    JoinCons(c, [d]);
    JoinCons(b, [c, d]);
    JoinCons(a, [b, c, d]);
    assert [c] + [d] == [c, d] && [b] + [c, d] == [b, c, d] && [a] + [b, c, d] == [a, b, c, d];
    assert a + "/" + (b + "/" + (c + "/" + d)) == a + "/" + b + "/" + c + "/" + d;
  }

  /** dt241m/device/<compact MAC>/<item>/<kind> */
  lemma ItemTopicText(m: string, item: string, kind: string)
    ensures Join(["dt241m", "device", Compact(m), item, kind]) ==
            "dt241m/device/" + Compact(m) + "/" + item + "/" + kind
  {
    JoinFive("dt241m", "device", Compact(m), item, kind);
    assert "dt241m" + "/" + "device" + "/" == "dt241m/device/";
    assert "dt241m/device/" + Compact(m) + ("/" + item + "/" + kind) ==
           "dt241m/device/" + Compact(m) + "/" + item + "/" + kind;
  }

  lemma AvailabilityText(m: string)
    ensures Render(Device(m, Availability)) == "dt241m/device/" + Compact(m) + "/availability"
  {
    JoinFour("dt241m", "device", Compact(m), "availability");
    assert "dt241m" + "/" + "device" + "/" == "dt241m/device/";
    assert "dt241m/device/" + Compact(m) + "/" + "availability" == "dt241m/device/" + Compact(m) + "/availability";
  }

  /** Each state topic is named after what it carries. */
  lemma StateTopicTexts(m: string)
    ensures Render(Device(m, ChannelState)) == "dt241m/device/" + Compact(m) + "/" + "channel" + "/" + "state"
    ensures Render(Device(m, NameState)) == "dt241m/device/" + Compact(m) + "/" + "name" + "/" + "state"
    ensures Render(Device(m, IPState)) == "dt241m/device/" + Compact(m) + "/" + "ip" + "/" + "state"
    ensures Render(Device(m, RoleState)) == "dt241m/device/" + Compact(m) + "/" + "role" + "/" + "state"
    ensures Render(Device(m, SourceState)) == "dt241m/device/" + Compact(m) + "/" + "source" + "/" + "state"
  {
    ItemTopicText(m, "channel", "state");
    ItemTopicText(m, "name", "state");
    ItemTopicText(m, "ip", "state");
    ItemTopicText(m, "role", "state");
    ItemTopicText(m, "source", "state");
  }

  function StateSlot(c: Command): Slot {
    match c
    case ChannelCommand => ChannelState
    case NameCommand => NameState
    case SourceCommand => SourceState
  }

  /** What is commanded on .../set is reported on .../state of the same item. */
  lemma SetAndStatePair(m: string, c: Command)
    ensures var stem := "dt241m/device/" + Compact(m) + "/" +
                        (match c
                         case ChannelCommand => "channel"
                         case NameCommand => "name"
                         case SourceCommand => "source") + "/";
            Render(Device(m, SetSlot(c))) == stem + "set" && Render(Device(m, StateSlot(c))) == stem + "state"
  {
    StateTopicTexts(m);
    ItemTopicText(m, "channel", "set");
    ItemTopicText(m, "name", "set");
    ItemTopicText(m, "source", "set");
  }

  /** homeassistant/<component>/<node>/<object>/config */
  lemma DiscoveryText(c: Component, node: string, o: ObjectId)
    ensures Join(DiscoveryPath(c, node, o)) ==
            "homeassistant/" + ComponentText(c) + "/" + node + "/" + ObjectText(o) + "/config"
  {
    var x, y := ComponentText(c), ObjectText(o);
    JoinFive("homeassistant", x, node, y, "config");
    assert "homeassistant" + "/" == "homeassistant/" && "/" + y + "/" + "config" == "/" + y + "/config";
    assert "homeassistant" + "/" + x + "/" + node + ("/" + y + "/config") ==
           "homeassistant/" + x + "/" + node + "/" + y + "/config";
  }

  /** The discovery topics in use, written out. */
  lemma ConfigTopicTexts(m: string)
    ensures var node := "dt241m_" + Compact(m);
            && Render(Device(m, Config(Number, ChannelId))) ==
                "homeassistant/" + "number" + "/" + node + "/" + "channel" + "/config"
            && Render(Device(m, Config(Sensor, ChannelId))) ==
                "homeassistant/" + "sensor" + "/" + node + "/" + "channel" + "/config"
            && Render(Device(m, Config(Select, SourceId))) ==
                "homeassistant/" + "select" + "/" + node + "/" + "source" + "/config"
            && Render(Device(m, Config(TextBox, NameId))) ==
                "homeassistant/" + "text" + "/" + node + "/" + "name" + "/config"
            && Render(Device(m, Config(Sensor, IPAddressId))) ==
               "homeassistant/" + "sensor" + "/" + node + "/" + "ip_address" + "/config"
            && Render(Device(m, Config(Sensor, RoleId))) ==
                "homeassistant/" + "sensor" + "/" + node + "/" + "role" + "/config"
  {
    var node := "dt241m_" + Compact(m);
    DiscoveryText(Number, node, ChannelId);
    DiscoveryText(Sensor, node, ChannelId);
    DiscoveryText(Select, node, SourceId);
    DiscoveryText(TextBox, node, NameId);
    DiscoveryText(Sensor, node, IPAddressId);
    DiscoveryText(Sensor, node, RoleId);
  }

  lemma ControllerTopicTexts()
    ensures Render(ControllerAvailability) == "dt241m" + "/" + "controller" + "/" + "availability"
    ensures Render(RescanPress) == "dt241m" + "/" + "controller" + "/" + "rescan" + "/" + "press"
    ensures Render(KnownState) == "dt241m" + "/" + "controller" + "/" + "known_devices" + "/" + "state"
    ensures Render(OnlineState) == "dt241m" + "/" + "controller" + "/" + "online_devices" + "/" + "state"
  {
    JoinThree("dt241m", "controller", "availability");
    JoinFour("dt241m", "controller", "rescan", "press");
    JoinFour("dt241m", "controller", "known_devices", "state");
    JoinFour("dt241m", "controller", "online_devices", "state");
  }

  lemma JoinThree(a: string, b: string, c: string)
    ensures Join([a, b, c]) == a + "/" + b + "/" + c
  {
    JoinCons(b, [c]);
    JoinCons(a, [b, c]);
    assert [b] + [c] == [b, c] && [a] + [b, c] == [a, b, c];
    assert a + "/" + (b + "/" + c) == a + "/" + b + "/" + c;
  }

  lemma RescanConfigText()
    ensures Render(ControllerConfig(Button, RescanId)) ==
            "homeassistant/" + "button" + "/" + "dt241m_controller" + "/" + "rescan" + "/config"
  {
    DiscoveryText(Button, "dt241m_controller", RescanId);
  }

  lemma KnownConfigText()
    ensures Render(ControllerConfig(Sensor, KnownId)) ==
            "homeassistant/" + "sensor" + "/" + "dt241m_controller" + "/" + "known_devices" + "/config"
  {
    DiscoveryText(Sensor, "dt241m_controller", KnownId);
  }

  lemma OnlineConfigText()
    ensures Render(ControllerConfig(Sensor, OnlineId)) ==
            "homeassistant/" + "sensor" + "/" + "dt241m_controller" + "/" + "online_devices" + "/config"
  {
    DiscoveryText(Sensor, "dt241m_controller", OnlineId);
  }

  /** A topic is recognised exactly when it is the set topic of a normalised
      MAC, and then that MAC and command are recovered. */
  lemma CommandRoundTrip(topic: string, m: string, c: Command)
    ensures ParseDeviceCommand(topic) == Some(DeviceCommand(m, c)) <==>
            IsMac(m) && topic == Render(Device(m, SetSlot(c)))
  {
    SetTopicText(m, c);
    if IsMac(m) && topic == Render(Device(m, SetSlot(c))) {
      SetTopicParses(m, c);
    }
    if ParseDeviceCommand(topic) == Some(DeviceCommand(m, c)) {
      ParsedIsSetTopic(topic, m, c);
    }
  }

  lemma ThreeParts(topic: string)
    requires |topic| >= 26
    ensures topic == topic[..14] + topic[14..26] + topic[26..]
  {
  }

  lemma ParsedIsSetTopic(topic: string, m: string, c: Command)
    requires ParseDeviceCommand(topic) == Some(DeviceCommand(m, c))
    ensures IsMac(m) && topic == DEVICE_PREFIX + Compact(m) + SetSuffix(c)
  {
    HexIsCompact(topic[14..26]);
    SuffixRoundTrip(topic[26..], c);
    ThreeParts(topic);
  }

  lemma SetTopicParses(m: string, c: Command)
    requires IsMac(m)
    ensures ParseDeviceCommand(DEVICE_PREFIX + Compact(m) + SetSuffix(c)) == Some(DeviceCommand(m, c))
  {
    var topic := DEVICE_PREFIX + Compact(m) + SetSuffix(c);
    CompactRoundTrip(m);
    SuffixRoundTrip(SetSuffix(c), c);
    assert topic[..14] == DEVICE_PREFIX && topic[14..26] == Compact(m) && topic[26..] == SetSuffix(c);
  }
}

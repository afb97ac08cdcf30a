/** The publisher itself (internal/controller/publish.go): methods that issue
    retained publishes one at a time and update the two caches, each proved
    against its step in Presenter. */
module PresenterObject {
  import opened Text
  import opened Model
  import opened Topics
  import opened Publisher
  import opened Presenter
  import R = Registry
  import S = Sources

  lemma SendSnoc(b: Broker, msgs: seq<Message>, i: nat)
    requires i < |msgs|
    ensures Send(b, msgs[..i + 1]) == Publish(Send(b, msgs[..i]), msgs[i])
  {
    assert msgs[..i + 1] == msgs[..i] + [msgs[i]];
    SendAppend(b, msgs[..i], [msgs[i]]);
    SendOne(Send(b, msgs[..i]), msgs[i]);
  }

  lemma SendOne(b: Broker, m: Message)
    ensures Send(b, [m]) == Publish(b, m) && Send(b, []) == b
  {
    assert [m][1..] == [];
    assert Send(Publish(b, m), []) == Publish(b, m);
  }

  lemma Associate(x: seq<Message>, y: seq<Message>, z: seq<Message>)
    ensures x + (y + z) == x + y + z
  {
  }

  lemma {:induction false} AllDevicesSnoc(reg: R.Inventory, t: S.Table, order: seq<string>, m: string)
    requires m in reg && forall k | k in order :: k in reg
    ensures AllDevices(reg, t, order + [m]) == AllDevices(reg, t, order) + DeviceMessages(reg[m], t)
  {
    if order == [] {
      assert (order + [m])[1..] == [];
    } else {
      assert (order + [m])[0] == order[0] && (order + [m])[1..] == order[1..] + [m];
      AllDevicesSnoc(reg, t, order[1..], m);
      Associate(DeviceMessages(reg[order[0]], t), AllDevices(reg, t, order[1..]), DeviceMessages(reg[m], t));
    }
  }

  lemma {:induction false} AllReceiversSnoc(reg: R.Inventory, t: S.Table, order: seq<string>, m: string)
    requires m in reg && forall k | k in order :: k in reg
    ensures AllReceivers(reg, t, order + [m]) == AllReceivers(reg, t, order) + ReceiverMessages(reg[m], t)
  {
    if order == [] {
      assert (order + [m])[1..] == [];
    } else {
      assert (order + [m])[0] == order[0] && (order + [m])[1..] == order[1..] + [m];
      AllReceiversSnoc(reg, t, order[1..], m);
      Associate(ReceiverMessages(reg[order[0]], t), AllReceivers(reg, t, order[1..]), ReceiverMessages(reg[m], t));
    }
  }

  lemma RefreshOrderIrrelevant(b: Broker, aim: Aim, x: seq<string>, y: seq<string>)
    requires R.WellKeyed(aim.reg) && (forall m :: m in x <==> m in aim.reg) && (forall m :: m in y <==> m in aim.reg)
    ensures Send(b, AllReceivers(aim.reg, aim.table, x)) == Send(b, AllReceivers(aim.reg, aim.table, y))
  {
    var p, q := AllReceivers(aim.reg, aim.table, x), AllReceivers(aim.reg, aim.table, y);
    forall t ensures t in TopicsOf(p) <==> t in TopicsOf(q) {
      AllReceiversConform(aim, x, t);
      AllReceiversConform(aim, y, t);
    }
    AllReceiversConform(aim, x, RescanPress);
    AllReceiversConform(aim, y, RescanPress);
    SameTopicsSameEffect(aim, b, p, q);
  }

  /** all holds adapters of reg, each under its own MAC. */
  predicate Listing(reg: R.Inventory, all: seq<Adapter>) {
    forall i | 0 <= i < |all| :: all[i].mac in reg && reg[all[i].mac] == all[i]
  }

  function MacsOf(all: seq<Adapter>): seq<string> {
    seq(|all|, i requires 0 <= i < |all| => all[i].mac)
  }

  lemma ListingCovers(reg: R.Inventory, all: seq<Adapter>)
    requires R.WellKeyed(reg) && Listing(reg, all) && forall m | m in reg :: reg[m] in all
    ensures forall m :: m in MacsOf(all) <==> m in reg
  {
    forall m | m in reg ensures m in MacsOf(all) {
      var k :| 0 <= k < |all| && all[k] == reg[m];
      assert MacsOf(all)[k] == m;
    }
  }

  lemma SweepStep(b: Broker, reg: R.Inventory, t: S.Table, all: seq<Adapter>, i: nat)
    requires Listing(reg, all) && i < |all|
    ensures Send(b, AllDevices(reg, t, MacsOf(all)[..i + 1])) ==
            Send(Send(b, AllDevices(reg, t, MacsOf(all)[..i])), DeviceMessages(all[i], t))
  {
    var order := MacsOf(all);
    assert order[..i + 1] == order[..i] + [all[i].mac];
    AllDevicesSnoc(reg, t, order[..i], all[i].mac);
    SendAppend(b, AllDevices(reg, t, order[..i]), DeviceMessages(all[i], t));
  }

  lemma RefreshLoopStep(b: Broker, reg: R.Inventory, t: S.Table, all: seq<Adapter>, i: nat)
    requires Listing(reg, all) && i < |all|
    ensures Send(b, AllReceivers(reg, t, MacsOf(all)[..i + 1])) ==
            Send(Send(b, AllReceivers(reg, t, MacsOf(all)[..i])), ReceiverMessages(all[i], t))
  {
    var order := MacsOf(all);
    assert order[..i + 1] == order[..i] + [all[i].mac];
    AllReceiversSnoc(reg, t, order[..i], all[i].mac);
    SendAppend(b, AllReceivers(reg, t, order[..i]), ReceiverMessages(all[i], t));
  }

  lemma RefreshInOrder(p: Pub, reg: R.Inventory, all: seq<Adapter>)
    requires R.WellKeyed(reg) && Listing(reg, all) && forall m | m in reg :: reg[m] in all
    requires p.lastSources != S.TableNow(reg)
    ensures RefreshStep(p, reg) == Pub(Send(p.broker, AllReceivers(reg, S.TableNow(reg), MacsOf(all))), p.lastCounts,
            S.TableNow(reg))
  {
    ListingCovers(reg, all);
    RefreshOrderIrrelevant(p.broker, AimNow(reg), MacsOf(all), Enumerate(reg.Keys));
  }

  class MqttPublisher {
    const registry: R.Registry
    var broker: Broker
    var lastCounts: Option<R.Tally>
    var lastSources: S.Table

    constructor (registry: R.Registry, broker: Broker)
      ensures this.registry == registry && View() == Pub(broker, None, [])
    {
      this.registry := registry;
      this.broker, lastCounts, lastSources := broker, None, [];
    }

    ghost function View(): Pub
      reads this
    {
      Pub(broker, lastCounts, lastSources)
    }

    method PublishRetained(m: Message)
      modifies this`broker
      ensures broker == Publish(old(broker), m)
    {
      broker := if m.payload == Plain("") then broker - {m.topic} else broker[m.topic := m.payload];
    }

    method Availability(a: Adapter)
      modifies this`broker
      ensures broker == Send(old(broker), AvailabilityMessages(a))
    {
      SendOne(broker, AvailabilityMessages(a)[0]);
      PublishRetained(Message(Device(a.mac, Slot.Availability), Plain(if a.online then "online" else "offline")));
    }

    method Name(a: Adapter)
      modifies this`broker
      ensures broker == Send(old(broker), NameMessages(a))
    {
      SendOne(broker, NameMessages(a)[0]);
      PublishRetained(Message(Device(a.mac, NameState), Plain(DisplayName(a))));
    }

    method DiscoveryWith(a: Adapter, t: S.Table)
      modifies this`broker
      ensures broker == Send(old(broker), DiscoveryMessages(a, t))
    {
      var stale := StaleEntities(a.role);
      ghost var clear := ClearingMessages(a, stale);
      for i := 0 to |stale|
        invariant broker == Send(old(broker), clear[..i])
      {
        SendSnoc(old(broker), clear, i);
        PublishRetained(Message(Device(a.mac, ConfigSlot(stale[i])), Plain("")));
      }
      assert clear[..|stale|] == clear;
      ghost var cleared := broker;
      var used, options := EntitiesFor(a.role), S.Options(t);
      var msgs := AdapterMessages(a, used, options);
      for i := 0 to |msgs|
        invariant broker == Send(cleared, msgs[..i])
      {
        SendSnoc(cleared, msgs, i);
        PublishRetained(msgs[i]);
      }
      assert msgs[..|msgs|] == msgs;
      SendAppend(old(broker), clear, msgs);
    }

    method StateWith(a: Adapter, t: S.Table)
      modifies this`broker
      ensures broker == Send(old(broker), StateMessages(a, t))
    {
      ghost var b0 := broker;
      ghost var c, i, r, s := Maybe(a, t, ChannelState), Maybe(a, t, IPState), Maybe(a, t, RoleState),
          Maybe(a, t, SourceState);
      assert StateMessages(a, t) == c + i + r + s;
      SendAppend(b0, c + i + r, s);
      SendAppend(b0, c + i, r);
      SendAppend(b0, c, i);
      if a.channel.Some? {
        SendOne(broker, c[0]);
        PublishRetained(Message(Device(a.mac, ChannelState), Plain(Itoa(a.channel.value))));
      }
      assert broker == Send(b0, c);
      if a.ip != "" {
        SendOne(broker, i[0]);
        PublishRetained(Message(Device(a.mac, IPState), Plain(a.ip)));
      }
      assert broker == Send(Send(b0, c), i);
      SendOne(broker, r[0]);
      PublishRetained(Message(Device(a.mac, RoleState), Plain(RoleText(a.role))));
      if a.role == Receiver {
        SendOne(broker, s[0]);
        PublishRetained(Message(Device(a.mac, SourceState), Plain(S.ForChannel(t, a.channel))));
      }
    }

    method PublishCounts(c: R.Tally)
      modifies this`broker
      ensures broker == Send(old(broker), CountMessages(c))
    {
      var m := CountMessages(c);
      SendAppend(broker, [m[0]], [m[1]]);
      assert m == [m[0]] + [m[1]];
      SendOne(broker, m[0]);
      PublishRetained(m[0]);
      SendOne(broker, m[1]);
      PublishRetained(m[1]);
    }

    method Counts()
      modifies this`broker, this`lastCounts
      ensures View() == CountsStep(old(View()), registry.adapters)
    {
      var c := registry.Counts();
      var same := lastCounts == Some(c);
      lastCounts := Some(c);
      if !same {
        PublishCounts(c);
      }
    }

    method ReceiverSource(rx: Adapter, t: S.Table)
      modifies this`broker
      ensures broker == Send(old(broker), ReceiverMessages(rx, t))
    {
      if rx.role == Receiver {
        var m := ReceiverMessages(rx, t);
        SendAppend(broker, [m[0]], [m[1]]);
        assert m == [m[0]] + [m[1]];
        SendOne(broker, m[0]);
        PublishRetained(m[0]);
        SendOne(broker, m[1]);
        PublishRetained(m[1]);
      }
    }

    method RepublishReceivers(all: seq<Adapter>, t: S.Table)
      requires Listing(registry.adapters, all)
      modifies this`broker
      ensures broker == Send(old(broker), AllReceivers(registry.adapters, t, MacsOf(all)))
    {
      ghost var b0, reg, order := broker, registry.adapters, MacsOf(all);
      for i := 0 to |all|
        invariant broker == Send(b0, AllReceivers(reg, t, order[..i]))
      {
        RefreshLoopStep(b0, reg, t, all, i);
        ReceiverSource(all[i], t);
      }
      assert order[..|all|] == order;
    }

    method RefreshSources()
      requires registry.Valid()
      modifies this`broker, this`lastSources
      ensures View() == RefreshStep(old(View()), registry.adapters)
    {
      var t := S.BuildTable(registry);
      if t != lastSources {
        SendSources(t);
      }
    }

    method SendSources(t: S.Table)
      requires registry.Valid() && t == S.TableNow(registry.adapters) && t != lastSources
      modifies this`broker, this`lastSources
      ensures View() == RefreshStep(old(View()), registry.adapters)
    {
      var all := registry.All();
      RefreshInOrder(View(), registry.adapters, all);
      lastSources := t;
      RepublishReceivers(all, t);
    }

    method SeenDirect(obs: R.Observation, t: S.Table)
      modifies this`broker
      ensures broker == Send(old(broker), SeenMessages(obs, t))
    {
      var a := obs.adapter;
      ghost var b0 := broker;
      ghost var meta, state := obs.created || obs.metadataChanged, obs.created || obs.stateChanged || obs.roleChanged;
      ghost var gone := if obs.displaced.Some? then AvailabilityMessages(obs.displaced.value) else [];
      ghost var x1, x2 := When(meta, DiscoveryMessages(a, t)), When(meta, NameMessages(a));
      ghost var x3, x4 := When(obs.cameOnline, AvailabilityMessages(a)), When(state, StateMessages(a, t));
      if obs.displaced.Some? {
        Availability(obs.displaced.value);
      }
      SendAppend(b0, gone, x1);
      if obs.created || obs.metadataChanged {
        DiscoveryWith(a, t);
      }
      SendAppend(b0, gone + x1, x2);
      if obs.created || obs.metadataChanged {
        Name(a);
      }
      SendAppend(b0, gone + x1 + x2, x3);
      if obs.cameOnline {
        Availability(a);
      }
      SendAppend(b0, gone + x1 + x2 + x3, x4);
      if obs.created || obs.stateChanged || obs.roleChanged {
        StateWith(a, t);
      }
    }

    method Observation(obs: R.Observation)
      requires registry.Valid()
      modifies this
      ensures View() == PublishUpdate(old(View()), registry.adapters, Seen(obs))
    {
      var t := S.BuildTable(registry);
      SeenDirect(obs, t);
      if obs.cameOnline || obs.displaced.Some? {
        Counts();
      }
      if obs.adapter.role == Transmitter || obs.roleChanged {
        RefreshSources();
      }
    }

    method Renamed(a: Adapter)
      requires registry.Valid()
      modifies this
      ensures View() == PublishUpdate(old(View()), registry.adapters, Update.Renamed(a))
    {
      var t := S.BuildTable(registry);
      SendAppend(broker, NameMessages(a), DiscoveryMessages(a, t));
      Name(a);
      DiscoveryWith(a, t);
      if a.role == Transmitter {
        RefreshSources();
      }
    }

    method Offline(a: Adapter)
      requires registry.Valid()
      modifies this
      ensures View() == PublishUpdate(old(View()), registry.adapters, Gone(a))
    {
      Availability(a);
      Counts();
    }

    method RejectedName(a: Adapter)
      requires registry.Valid()
      modifies this`broker
      ensures View() == PublishUpdate(old(View()), registry.adapters, NameRefused(a))
    {
      Name(a);
    }

    method SweepAdapter(a: Adapter, t: S.Table)
      modifies this`broker
      ensures broker == Send(old(broker), DeviceMessages(a, t))
    {
      ghost var b0, d, v, n := broker, DiscoveryMessages(a, t), AvailabilityMessages(a), NameMessages(a);
      SendAppend(b0, d + v + n, StateMessages(a, t));
      SendAppend(b0, d + v, n);
      SendAppend(b0, d, v);
      DiscoveryWith(a, t);
      Availability(a);
      Name(a);
      StateWith(a, t);
    }

    method PublishController()
      modifies this`broker
      ensures broker == Send(old(broker), ControllerMessages())
    {
      ghost var b0 := broker;
      var msgs := ControllerMessages();
      for i := 0 to |msgs|
        invariant broker == Send(b0, msgs[..i])
      {
        SendSnoc(b0, msgs, i);
        PublishRetained(msgs[i]);
      }
      assert msgs[..|msgs|] == msgs;
    }

    method SweepAll(all: seq<Adapter>, t: S.Table)
      requires Listing(registry.adapters, all)
      modifies this`broker
      ensures broker == Send(old(broker), AllDevices(registry.adapters, t, MacsOf(all)))
    {
      ghost var b0, reg, order := broker, registry.adapters, MacsOf(all);
      for i := 0 to |all|
        invariant broker == Send(b0, AllDevices(reg, t, order[..i]))
      {
        SweepStep(b0, reg, t, all, i);
        SweepAdapter(all[i], t);
      }
      assert order[..|all|] == order;
    }

    method Everything()
      requires registry.Valid()
      modifies this
      ensures View() == Swept(old(View()), registry.adapters)
    {
      ghost var b0, reg := broker, registry.adapters;
      PublishController();
      var t := S.BuildTable(registry);
      lastSources := t;
      var all := registry.All();
      ListingCovers(reg, all);
      SweepAll(all, t);
      var c := registry.Counts();
      lastCounts := Some(c);
      PublishCounts(c);
      ghost var order := MacsOf(all);
      SendAppend(b0, ControllerMessages(), AllDevices(reg, t, order));
      SendAppend(b0, ControllerMessages() + AllDevices(reg, t, order), CountMessages(c));
      SweepOrderIrrelevant(b0, AimNow(reg), order, Enumerate(reg.Keys));
    }
  }
}

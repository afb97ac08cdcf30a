/** The write path as the code runs it (internal/controller/write.go and the
    observe helpers of discovery.go): methods on a controller that shares the
    registry, proved against WriteProtocol step for step. */
module WriteSession {
  import opened Text
  import opened Model
  import opened Mac
  import opened WriteProtocol
  import R = Registry

  class Controller {
    const registry: R.Registry
    const attempts: nat
    var script: seq<Moment>
    /** The requests that left for the hardware. */
    ghost var sends: seq<Send>
    var asked: nat

    ghost predicate Valid()
      reads this, registry
    {
      registry.Valid() && SeemlyScript(script)
    }

    ghost function View(): World
      reads this, registry
    {
      World(registry.View(), script, sends, asked)
    }

    constructor (registry: R.Registry, attempts: nat, script: seq<Moment>)
      requires registry.Valid() && SeemlyScript(script)
      ensures this.registry == registry && this.attempts == attempts
      ensures Valid() && View() == World(registry.View(), script, [], 0)
    {
      this.registry, this.attempts := registry, attempts;
      this.script, sends, asked := script, [], 0;
    }

    /** Other goroutines run until this one is scheduled again. */
    method Yield() returns (m: Moment)
      requires Valid()
      modifies this`script, registry
      ensures Valid() && m == Head(old(script)) && View() == Tick(old(View()))
    {
      m := Head(script);
      script := Rest(script);
      ghost var before := registry.View();
      for i := 0 to |m.others|
        invariant Valid() && R.Run(before, m.others) == R.Run(registry.View(), m.others[i..])
        invariant script == Rest(old(script))
      {
        assert m.others[i..][1..] == m.others[i + 1..];
        assert i < |m.others| && old(script) != [] ==> old(script)[0].others[i] == m.others[i];
        match m.others[i]
        case Observe(ip, info, now) => var _ := registry.RecordObservation(ip, info, now);
        case GoOffline(mac) => var _ := registry.MarkOffline(mac);
        case Rename(mac, name) => var _ := registry.SetName(mac, name);
        case Load(adapters) => registry.Hydrate(adapters);
      }
      assert m.others[|m.others|..] == [];
    }

    method GetDeviceInfo() returns (reply: Option<DeviceInfo>, m: Moment)
      requires Valid()
      modifies this`script, this`asked, registry
      ensures Valid() && m == Head(old(script)) && reply == m.reply
      ensures View() == Tick(old(View())).(asked := old(asked) + 1)
    {
      m := Yield();
      asked := asked + 1;
      reply := m.reply;
    }

    method Observe(ip: string, info: DeviceInfo, now: int)
      requires Valid()
      modifies this`script, registry
      ensures Valid() && View() == Record(Tick(old(View())), ip, info, now)
    {
      var _ := Yield();
      var _ := registry.RecordObservation(ip, info, now);
    }

    method ObserveAt(ip: string, mac: string) returns (sighting: Sighting)
      requires Valid()
      modifies this`script, this`asked, registry
      ensures Valid() && (View(), sighting) == WriteProtocol.ObserveAt(old(View()), ip, mac)
    {
      var reply, m := GetDeviceInfo();
      if reply == None {
        return Unreachable;
      }
      Observe(ip, reply.value, m.now);
      sighting := if Normalize(reply.value.lanMac) == mac then Verified else OtherDevice;
    }

    method VerifiedIP(mac: string) returns (found: Option<string>)
      requires Valid()
      modifies this`script, this`asked, registry
      ensures Valid() && (View(), found) == WriteProtocol.VerifiedIP(old(View()), mac)
    {
      var adapter := registry.Lookup(mac);
      if adapter == None {
        return None;
      }
      var ip := adapter.value.ip;
      if ip != "" {
        var sighting := ObserveAt(ip, mac);
        if sighting == Verified {
          return Some(ip);
        }
        if sighting == Unreachable {
          var _ := Yield();
          var _ := registry.MarkOffline(mac);
        }
      }
      var _ := Yield();
      var located := registry.Lookup(mac);
      found := if located.Some? && located.value.online then Some(located.value.ip) else None;
    }

    method Write(mac: string, ip: string, channel: int, ghost began: nat) returns (status: WriteStatus)
      requires Valid()
      modifies this`script, this`sends, registry
      ensures Valid() && status == Head(old(script)).ack
      ensures View() == WriteOnce(old(View()), mac, ip, channel, began)
    {
      sends := sends + [Send(mac, ip, channel, began, |registry.history|, |script|)];
      var m := Yield();
      status := m.ack;
    }

    /** At most `attempts` reads; the last value reported, None if there was
        none or if another device answered. */
    method ReadBack(mac: string, ip: string, requested: int) returns (reported: Option<int>)
      requires Valid()
      modifies this`script, this`asked, registry
      ensures Valid() && (View(), reported) ==
              WriteProtocol.ReadBack(old(View()), mac, ip, requested, attempts, true, None)
    {
      reported := None;
      var attempt := 1;
      ghost var start := View();
      while attempt <= attempts
        invariant Valid() && 1 <= attempt <= attempts + 1 && sends == old(sends)
        invariant WriteProtocol.ReadBack(start, mac, ip, requested, attempts, true, None) ==
                  WriteProtocol.ReadBack(View(), mac, ip, requested, attempts + 1 - attempt, attempt == 1, reported)
      {
        if attempt > 1 && Head(script).cancelled {
          var _ := Yield();
          return;
        }
        var reply, m := GetDeviceInfo();
        if reply.Some? {
          var info := reply.value;
          Observe(ip, info, m.now);
          if Normalize(info.lanMac) != mac {
            return None;
          }
          reported := Some(info.channelID);
          if info.channelID == requested {
            return;
          }
        }
        attempt := attempt + 1;
      }
    }

    method ChangeChannel(mac: string, requested: int) returns (out: Outcome)
      requires Valid()
      modifies this, registry
      ensures Valid() && (View(), out) == WriteProtocol.ChangeChannel(old(View()), mac, requested, attempts)
    {
      ghost var began := |registry.history|;
      var found := VerifiedIP(mac);
      if found == None {
        return Outcome(Failed, mac, "", requested, None, DeviceNotLocated, None);
      }
      var ip := found.value;
      var _ := Yield();
      var adapter := registry.Lookup(mac);
      if adapter == None || !WritableRole(adapter.value.role) {
        return Outcome(Failed, mac, ip, requested, if adapter.Some? then adapter.value.channel
            else None, UnknownRole, None);
      }
      var write := Write(mac, ip, requested, began);
      var reported := ReadBack(mac, ip, requested);
      if write == WriteRejected {
        out := Outcome(Failed, mac, ip, requested, reported, WriteWasRejected, Some(write));
      } else if reported == Some(requested) {
        out := Outcome(Matched, mac, ip, requested, reported, NoReason, Some(write));
      } else {
        out := Outcome(Mismatch, mac, ip, requested, reported, NoReason, Some(write));
      }
    }
  }
}

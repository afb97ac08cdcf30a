/** Changing a channel (internal/controller/write.go): locate the device, prove
    the address is still its own, write once, read back.

    The environment is a script. Between any two steps other goroutines may
    apply any registry operations (other observations, scans joined, skipped or
    cancelled half-way, polls, renames), and each read may be answered by
    anyone or nobody. A statement about every script is a statement about every
    run. */
module WriteProtocol {
  import opened Text
  import opened Model
  import opened Mac
  import R = Registry

  datatype WriteStatus = WriteAccepted | WriteRejected | WriteAmbiguous

  /** What happens around one step of the protocol. */
  datatype Moment = Moment(
    others: seq<R.Op>,            // registry operations by other goroutines
    reply: Option<DeviceInfo>,    // the answer to a read, None for none
    ack: WriteStatus,             // the answer to a write
    cancelled: bool,              // the context ended
    now: int)

  const SILENCE := Moment([], None, WriteAmbiguous, false, 0)

  /** A set_channel_id request, with the length of the history when the call
      began and when it was issued, and how much of the script was then left. */
  datatype Send = Send(mac: string, ip: string, channel: int, began: nat, issued: nat, left: nat)

  datatype World = World(st: R.State, script: seq<Moment>, sends: seq<Send>, asked: nat)

  datatype Status = Matched | Mismatch | Failed

  datatype Reason = NoReason | DeviceNotLocated | UnknownRole | WriteWasRejected

  datatype Outcome = Outcome(
    status: Status, mac: string, ip: string, requested: int, reported: Option<int>,
    reason: Reason, write: Option<WriteStatus>)

  // ----- One step of the environment -----

  function Head(script: seq<Moment>): Moment {
    if script == [] then SILENCE else script[0]
  }

  function Rest(script: seq<Moment>): seq<Moment> {
    if script == [] then [] else script[1..]
  }

  ghost function Tick(w: World): World {
    w.(st := R.Run(w.st, Head(w.script).others), script := Rest(w.script))
  }

  // ----- The protocol -----

  datatype Sighting = Verified | OtherDevice | Unreachable

  ghost function Record(w: World, ip: string, info: DeviceInfo, now: int): World {
    w.(st := R.Apply(w.st, R.Observe(ip, info, now)))
  }

  /** observeAt: read, then record whatever answered. */
  ghost function ObserveAt(w: World, ip: string, mac: string): (World, Sighting) {
    var m := Head(w.script);
    var asked := Tick(w).(asked := w.asked + 1);
    if m.reply == None then (asked, Unreachable)
    else
      var recorded := Record(Tick(asked), ip, m.reply.value, m.now);
      (recorded, if Normalize(m.reply.value.lanMac) == mac then Verified else OtherDevice)
  }

  /** verifiedIP: an address just proven to belong to mac, rediscovering it if
      its last-known address is silent or answers as someone else. The scan is
      part of the environment: it is one more step of the script. */
  ghost function VerifiedIP(w: World, mac: string): (World, Option<string>) {
    if mac !in w.st.reg then (w, None)
    else
      var ip := w.st.reg[mac].ip;
      var (seen, sighting) := if ip == "" then (w, OtherDevice) else ObserveAt(w, ip, mac);
      if ip != "" && sighting == Verified then (seen, Some(ip))
      else
        var marked := if ip != "" && sighting == Unreachable
                      then Tick(seen).(st := R.Apply(Tick(seen).st, R.GoOffline(mac))) else seen;
        var scanned := Tick(marked);
        var reg := scanned.st.reg;
        (scanned, if mac in reg && reg[mac].online then Some(reg[mac].ip) else None)
  }

  predicate WritableRole(role: Role) {
    role == Receiver || role == Transmitter
  }

  /** The readback loop: at most `attempts` reads, ending early on the requested
      channel, on another identity, or when cancelled between reads. */
  ghost function ReadBack(w: World, mac: string, ip: string, requested: int, attempts: nat, first: bool,
      reported: Option<int>): (World, Option<int>)
    decreases attempts
  {
    if attempts == 0 then (w, reported)
    else
      var m := Head(w.script);
      if !first && m.cancelled then (Tick(w), reported)
      else
        var asked := Tick(w).(asked := w.asked + 1);
        if m.reply == None then ReadBack(asked, mac, ip, requested, attempts - 1, false, reported)
        else
          var info := m.reply.value;
          var recorded := Record(Tick(asked), ip, info, m.now);
          if Normalize(info.lanMac) != mac then (recorded, None)
          else if info.channelID == requested then (recorded, Some(requested))
          else ReadBack(recorded, mac, ip, requested, attempts - 1, false, Some(info.channelID))
  }

  ghost function WriteOnce(w: World, mac: string, ip: string, requested: int, began: nat): World {
    Tick(w).(sends := w.sends + [Send(mac, ip, requested, began, |w.st.history|, |w.script|)])
  }

  ghost function ChangeChannel(w: World, mac: string, requested: int, attempts: nat): (World, Outcome) {
    var began := |w.st.history|;
    var (located, found) := VerifiedIP(w, mac);
    if found == None then (located, Outcome(Failed, mac, "", requested, None, DeviceNotLocated, None))
    else
      var ip := found.value;
      var ready := Tick(located);
      if mac !in ready.st.reg || !WritableRole(ready.st.reg[mac].role) then
        (ready, Outcome(Failed, mac, ip, requested, if mac in ready.st.reg then ready.st.reg[mac].channel
            else None, UnknownRole, None))
      else
        var ack := Head(ready.script).ack;
        var written := WriteOnce(ready, mac, ip, requested, began);
        var (done, reported) := ReadBack(written, mac, ip, requested, attempts, true, None);
        (done,
         if ack == WriteRejected then Outcome(Failed, mac, ip, requested, reported, WriteWasRejected, Some(ack))
         else if reported == Some(requested) then Outcome(Matched, mac, ip, requested, reported, NoReason, Some(ack))
         else Outcome(Mismatch, mac, ip, requested, reported, NoReason, Some(ack)))
  }

  // ----- Soundness of the registry throughout -----

  /** Operations the controller performs: rows are loadable, and nothing is
      observed at the empty address. */
  predicate Seemly(op: R.Op) {
    R.Legal(op) && (op.Observe? ==> op.ip != "")
  }

  predicate SeemlyScript(script: seq<Moment>) {
    forall i, k | 0 <= i < |script| && 0 <= k < |script[i].others| :: Seemly(script[i].others[k])
  }

  ghost predicate Sound(st: R.State) {
    R.Evidence(st.reg, st.history) && forall m | m in st.reg && st.reg[m].online :: st.reg[m].ip != ""
  }

  ghost predicate Good(w: World) {
    Sound(w.st) && SeemlyScript(w.script)
  }

  lemma {:induction false} HydratedOnline(reg: R.Inventory, loaded: seq<Adapter>, m: string)
    requires m in R.Hydrated(reg, loaded) && R.Hydrated(reg, loaded)[m].online
    ensures m in reg && R.Hydrated(reg, loaded)[m] == reg[m]
    decreases |loaded|
  {
    if loaded != [] {
      HydratedOnline(reg[loaded[0].mac := loaded[0].(online := false)], loaded[1..], m);
    }
  }

  lemma ApplySound(st: R.State, op: R.Op)
    requires Sound(st) && Seemly(op)
    ensures Sound(R.Apply(st, op)) && st.history <= R.Apply(st, op).history
  {
    R.ApplyKeepsEvidence(st, op);
    ApplyKeepsAddresses(st, op);
  }

  lemma ApplyKeepsAddresses(st: R.State, op: R.Op)
    requires Seemly(op) && forall m | m in st.reg && st.reg[m].online :: st.reg[m].ip != ""
    ensures var next := R.Apply(st, op); forall m | m in next.reg && next.reg[m].online :: next.reg[m].ip != ""
    ensures st.history <= R.Apply(st, op).history
  {
    var next := R.Apply(st, op);
    forall m | m in next.reg && next.reg[m].online ensures next.reg[m].ip != "" {
      if op.Load? {
        HydratedOnline(st.reg, op.adapters, m);
      }
    }
  }

  lemma {:induction false} RunSound(st: R.State, ops: seq<R.Op>)
    requires Sound(st) && forall i | 0 <= i < |ops| :: Seemly(ops[i])
    ensures Sound(R.Run(st, ops)) && st.history <= R.Run(st, ops).history
    decreases |ops|
  {
    if ops != [] {
      ApplySound(st, ops[0]);
      RunSound(R.Apply(st, ops[0]), ops[1..]);
    }
  }

  lemma TickGood(w: World)
    requires Good(w)
    ensures Good(Tick(w)) && w.st.history <= Tick(w).st.history
  {
    RunSound(w.st, Head(w.script).others);
  }

  // ----- Justification -----

  /** An observation of mac at ip was recorded at position `from` or later. */
  predicate Justified(h: seq<R.Event>, from: nat, mac: string, ip: string) {
    exists i | from <= i < |h| :: h[i].Observed? && h[i].mac == mac && h[i].ip == ip
  }

  lemma JustifiedGrows(h: seq<R.Event>, g: seq<R.Event>, from: nat, mac: string, ip: string)
    requires h <= g && Justified(h, from, mac, ip)
    ensures Justified(g, from, mac, ip)
  {
    var i :| from <= i < |h| && h[i].Observed? && h[i].mac == mac && h[i].ip == ip;
    assert g[i] == h[i];
  }

  /** If mac is online, it is at an excused address or at one it was observed at
      since `from`. */
  predicate Accounted(st: R.State, from: nat, mac: string, excused: set<string>) {
    mac in st.reg && st.reg[mac].online ==>
        st.reg[mac].ip in excused || Justified(st.history, from, mac, st.reg[mac].ip)
  }

  lemma ApplyAccounted(st: R.State, op: R.Op, from: nat, mac: string, excused: set<string>)
    requires Sound(st) && Seemly(op) && from <= |st.history| && Accounted(st, from, mac, excused)
    ensures Accounted(R.Apply(st, op), from, mac, excused)
  {
    ApplySound(st, op);
    var next := R.Apply(st, op);
    if mac in next.reg && next.reg[mac].online {
      if op.Observe? && next != st && Normalize(op.info.lanMac) == mac {
        assert next.history[|st.history|] == R.ObservedEvent(op.ip, op.info);
      } else {
        if op.Load? {
          HydratedOnline(st.reg, op.adapters, mac);
        }
        assert mac in st.reg && st.reg[mac].online && st.reg[mac].ip == next.reg[mac].ip;
        if st.reg[mac].ip !in excused {
          JustifiedGrows(st.history, next.history, from, mac, st.reg[mac].ip);
        }
      }
    }
  }

  lemma {:induction false} RunAccounted(st: R.State, ops: seq<R.Op>, from: nat, mac: string, excused: set<string>)
    requires Sound(st) && (forall i | 0 <= i < |ops| :: Seemly(ops[i]))
    requires from <= |st.history| && Accounted(st, from, mac, excused)
    ensures Accounted(R.Run(st, ops), from, mac, excused)
    decreases |ops|
  {
    if ops != [] {
      ApplySound(st, ops[0]);
      ApplyAccounted(st, ops[0], from, mac, excused);
      RunAccounted(R.Apply(st, ops[0]), ops[1..], from, mac, excused);
    }
  }

  lemma TickAccounted(w: World, from: nat, mac: string, excused: set<string>)
    requires Good(w) && from <= |w.st.history| && Accounted(w.st, from, mac, excused)
    ensures Accounted(Tick(w).st, from, mac, excused)
  {
    RunAccounted(w.st, Head(w.script).others, from, mac, excused);
  }

  /** A reply whose MAC does not normalise. */
  predicate Malformed(reply: Option<DeviceInfo>) {
    reply.Some? && Normalize(reply.value.lanMac) == ""
  }

  lemma RecordGood(w: World, ip: string, info: DeviceInfo, now: int)
    requires Good(w) && ip != ""
    ensures Good(Record(w, ip, info, now)) && w.st.history <= Record(w, ip, info, now).st.history
  {
    ApplySound(w.st, R.Observe(ip, info, now));
  }

  /** After a read at ip: verified means just observed there; an answer by anyone
      else leaves mac at no unexplained address, provided it is well-formed or
      mac was at none before. */
  lemma ObserveAtAccounts(w: World, ip: string, mac: string, excused: set<string>)
    requires Good(w) && ip != "" && mac != "" && excused <= {ip}
    requires Malformed(Head(w.script).reply) ==> excused == {}
    requires Accounted(w.st, |w.st.history|, mac, excused)
    ensures var (w', sighting) := ObserveAt(w, ip, mac);
            && Good(w') && w.st.history <= w'.st.history
            && (sighting == Verified ==> Justified(w'.st.history, |w.st.history|, mac, ip))
            && (sighting == OtherDevice ==> Accounted(w'.st, |w.st.history|, mac, {}))
  {
    var from := |w.st.history|;
    var m := Head(w.script);
    var asked := Tick(w).(asked := w.asked + 1);
    TickGood(w);
    TickAccounted(w, from, mac, excused);
    if m.reply.Some? {
      var info := m.reply.value;
      var before := Tick(asked);
      TickGood(asked);
      TickAccounted(asked, from, mac, excused);
      RecordGood(before, ip, info, m.now);
      var recorded := Record(before, ip, info, m.now);
      if Normalize(info.lanMac) == mac {
        assert recorded.st.history[|before.st.history|] == R.ObservedEvent(ip, info);
      } else {
        ApplyAccounted(before.st, R.Observe(ip, info, m.now), from, mac, excused);
        if !Malformed(m.reply) {
          RecordDisplaces(before.st, ip, info, m.now, mac);
        }
      }
    }
  }

  /** Someone else answered at ip, so mac is not shown online there any more. */
  lemma RecordDisplaces(st: R.State, ip: string, info: DeviceInfo, now: int, mac: string)
    requires Normalize(info.lanMac) != "" && Normalize(info.lanMac) != mac
    ensures var next := R.Apply(st, R.Observe(ip, info, now));
            mac in next.reg && next.reg[mac].online ==> next.reg[mac].ip != ip
  {
  }

  /** The device is shown online and its verification read is answered with a
      MAC that does not normalise. */
  predicate Misled(st: R.State, mac: string, reply: Option<DeviceInfo>) {
    mac in st.reg && st.reg[mac].online && Malformed(reply)
  }

  /** Whatever verifiedIP answers was observed since the call began. */
  lemma VerifiedIPJustified(w: World, mac: string)
    requires Good(w) && !Misled(w.st, mac, Head(w.script).reply)
    ensures var (w', found) := VerifiedIP(w, mac);
            && Good(w') && w.st.history <= w'.st.history
            && (found.Some? ==> found.value != "" && Justified(w'.st.history, |w.st.history|, mac, found.value))
  {
    if mac in w.st.reg {
      var from, ip := |w.st.history|, w.st.reg[mac].ip;
      if ip == "" {
        TickGood(w);
        TickAccounted(w, from, mac, {});
      } else {
        ObserveAtAccounts(w, ip, mac, if Malformed(Head(w.script).reply) then {} else {ip});
        var (seen, sighting) := ObserveAt(w, ip, mac);
        if sighting != Verified {
          var marked := seen;
          if sighting == Unreachable {
            TickGood(seen);
            ApplySound(Tick(seen).st, R.GoOffline(mac));
            marked := Tick(seen).(st := R.Apply(Tick(seen).st, R.GoOffline(mac)));
          }
          TickGood(marked);
          TickAccounted(marked, from, mac, {});
        }
      }
    }
  }

  // ----- Readback -----

  /** A reply by mac at ip with that channel was recorded at `from` or later. */
  predicate Confirmed(h: seq<R.Event>, from: nat, mac: string, ip: string, channel: int) {
    exists i | from <= i < |h| :: h[i] == R.Observed(mac, ip, Some(channel))
  }

  lemma ConfirmedEarlier(h: seq<R.Event>, from: nat, earlier: nat, mac: string, ip: string, channel: int)
    requires earlier <= from && Confirmed(h, from, mac, ip, channel)
    ensures Confirmed(h, earlier, mac, ip, channel)
  {
  }

  /** Readback keeps the registry sound, asks at most `attempts` times, sends
      nothing, and answers the requested channel only when such a reply by mac
      at ip was recorded during it. */
  ghost predicate ReadBackSound(w: World, w': World, answer: Option<int>, mac: string, ip: string, requested: int,
      attempts: nat) {
    && Good(w') && w.st.history <= w'.st.history
    && w'.sends == w.sends && w.asked <= w'.asked <= w.asked + attempts
    && (answer == Some(requested) ==> Confirmed(w'.st.history, |w.st.history|, mac, ip, requested))
  }

  /** One read more in front. */
  lemma ReadBackPrepend(w: World, x: World, w': World, answer: Option<int>, mac: string, ip: string, requested: int,
      attempts: nat)
    requires w.st.history <= x.st.history && x.sends == w.sends && x.asked == w.asked + 1 && attempts > 0
    requires ReadBackSound(x, w', answer, mac, ip, requested, attempts - 1)
    ensures ReadBackSound(w, w', answer, mac, ip, requested, attempts)
  {
    if answer == Some(requested) {
      ConfirmedEarlier(w'.st.history, |x.st.history|, |w.st.history|, mac, ip, requested);
    }
  }

  lemma {:induction false} ReadBackMeaning(w: World, mac: string, ip: string, requested: int, attempts: nat,
      first: bool, reported: Option<int>)
    requires Good(w) && ip != "" && mac != "" && reported != Some(requested)
    ensures var (w', answer) := ReadBack(w, mac, ip, requested, attempts, first, reported);
            ReadBackSound(w, w', answer, mac, ip, requested, attempts)
    decreases attempts, 0
  {
    if attempts > 0 {
      var m := Head(w.script);
      TickGood(w);
      if first || !m.cancelled {
        var asked := Tick(w).(asked := w.asked + 1);
        if m.reply == None {
          ReadOn(w, asked, mac, ip, requested, attempts, reported);
        } else {
          ReadBackHeard(w, asked, mac, ip, m.reply.value, m.now, requested, attempts);
        }
      }
    }
  }

  /** One answered read, and what follows if it was fruitless. */
  lemma {:induction false} ReadBackHeard(w: World, asked: World, mac: string, ip: string, info: DeviceInfo, now: int,
                                         requested: int, attempts: nat)
    requires Good(asked) && w.st.history <= asked.st.history && asked.sends == w.sends && asked.asked == w.asked + 1
    requires ip != "" && mac != "" && attempts > 0
    ensures var recorded, channel := Record(Tick(asked), ip, info, now), Some(info.channelID);
            var (w', answer) := ReadBack(recorded, mac, ip, requested, attempts - 1, false, channel);
            if Normalize(info.lanMac) != mac then ReadBackSound(w, recorded, None, mac, ip, requested, attempts)
            else if info.channelID == requested
            then ReadBackSound(w, recorded, Some(requested), mac, ip, requested, attempts)
            else ReadBackSound(w, w', answer, mac, ip, requested, attempts)
    decreases attempts - 1, 2
  {
    ReadBackAnswered(w, asked, mac, ip, info, now, requested, attempts);
    if Normalize(info.lanMac) == mac && info.channelID != requested {
      ReadOn(w, Record(Tick(asked), ip, info, now), mac, ip, requested, attempts, Some(info.channelID));
    }
  }

  /** The rest of the loop, after one fruitless read. */
  lemma {:induction false} ReadOn(w: World, x: World, mac: string, ip: string, requested: int, attempts: nat,
      reported: Option<int>)
    requires Good(x) && ip != "" && mac != "" && reported != Some(requested) && attempts > 0
    requires w.st.history <= x.st.history && x.sends == w.sends && x.asked == w.asked + 1
    ensures var (w', answer) := ReadBack(x, mac, ip, requested, attempts - 1, false, reported);
            ReadBackSound(w, w', answer, mac, ip, requested, attempts)
    decreases attempts - 1, 1
  {
    ReadBackMeaning(x, mac, ip, requested, attempts - 1, false, reported);
    var (done, answer) := ReadBack(x, mac, ip, requested, attempts - 1, false, reported);
    ReadBackPrepend(w, x, done, answer, mac, ip, requested, attempts);
  }

  lemma ReadBackAnswered(w: World, asked: World, mac: string, ip: string, info: DeviceInfo, now: int, requested: int,
      attempts: nat)
    requires Good(asked) && w.st.history <= asked.st.history && asked.sends == w.sends && asked.asked == w.asked + 1
    requires ip != "" && mac != "" && attempts > 0
    ensures var recorded := Record(Tick(asked), ip, info, now);
            && Good(recorded) && w.st.history <= recorded.st.history && recorded.sends == w.sends &&
                recorded.asked == w.asked + 1
            && ReadBackSound(w, recorded, None, mac, ip, requested, attempts)
            && (Normalize(info.lanMac) == mac && info.channelID == requested ==>
                  ReadBackSound(w, recorded, Some(requested), mac, ip, requested, attempts))
  {
    TickGood(asked);
    RecordGood(Tick(asked), ip, info, now);
    var recorded := Record(Tick(asked), ip, info, now);
    if Normalize(info.lanMac) == mac && info.channelID == requested {
      RecordConfirms(Tick(asked), ip, info, now);
      ConfirmedEarlier(recorded.st.history, |Tick(asked).st.history|, |w.st.history|, mac, ip, requested);
    }
  }

  lemma RecordConfirms(w: World, ip: string, info: DeviceInfo, now: int)
    requires Normalize(info.lanMac) != ""
    ensures Confirmed(Record(w, ip, info, now).st.history, |w.st.history|, Normalize(info.lanMac), ip, info.channelID)
  {
    var h := Record(w, ip, info, now).st.history;
    assert h[|w.st.history|] == R.Observed(Normalize(info.lanMac), ip, Some(info.channelID));
  }

  // ----- The whole call -----

  lemma ObserveAtSendsNothing(w: World, ip: string, mac: string)
    requires Good(w) && ip != ""
    ensures Good(ObserveAt(w, ip, mac).0) && ObserveAt(w, ip, mac).0.sends == w.sends
    ensures w.st.history <= ObserveAt(w, ip, mac).0.st.history
  {
    var m := Head(w.script);
    var asked := Tick(w).(asked := w.asked + 1);
    TickGood(w);
    if m.reply.Some? {
      TickGood(asked);
      RecordGood(Tick(asked), ip, m.reply.value, m.now);
    }
  }

  lemma VerifiedIPSendsNothing(w: World, mac: string)
    requires Good(w)
    ensures var (w', found) := VerifiedIP(w, mac);
            && Good(w') && w.st.history <= w'.st.history && w'.sends == w.sends
            && (found.Some? ==> found.value != "" && mac != "")
  {
    if mac in w.st.reg {
      var ip := w.st.reg[mac].ip;
      if ip == "" {
        TickGood(w);
      } else {
        ObserveAtSendsNothing(w, ip, mac);
        var (seen, sighting) := ObserveAt(w, ip, mac);
        TickGood(seen);
        ApplySound(Tick(seen).st, R.GoOffline(mac));
        TickGood(if sighting == Unreachable then Tick(seen).(st := R.Apply(Tick(seen).st, R.GoOffline(mac))) else seen);
      }
    }
  }

  /** In every run a call sends at most once, the requested channel and nothing
      else; it leaves the registry sound, so a requested value never enters it
      except as an observed one; and it never erases history. */
  lemma AtMostOneSend(w: World, mac: string, requested: int, attempts: nat)
    requires Good(w)
    ensures var (w', out) := ChangeChannel(w, mac, requested, attempts);
            && Good(w') && w.st.history <= w'.st.history
            && (w'.sends == w.sends ||
                (|w'.sends| == |w.sends| + 1 && w'.sends[..|w.sends|] == w.sends &&
                 var s := w'.sends[|w.sends|];
                 s.mac == mac && s.channel == requested && s.began == |w.st.history| &&
                     s.began <= s.issued <= |w'.st.history| && s.ip == out.ip))
  {
    VerifiedIPSendsNothing(w, mac);
    var (located, found) := VerifiedIP(w, mac);
    if found.Some? {
      TickGood(located);
      var ready := Tick(located);
      if mac in ready.st.reg && WritableRole(ready.st.reg[mac].role) {
        TickGood(ready);
        ReadBackMeaning(WriteOnce(ready, mac, found.value, requested, |w.st.history|), mac, found.value, requested,
            attempts, true, None);
      }
    }
  }

  /** Every send of the call was preceded, since the call began, by a recorded
      observation of that MAC at that address. */
  predicate SendsJustified(w: World, w': World) {
    forall k | |w.sends| <= k < |w'.sends| ::
      var s := w'.sends[k];
      s.issued <= |w'.st.history| && Justified(w'.st.history[..s.issued], s.began, s.mac, s.ip)
  }

  /** Write safety over every run, unless the device is shown online and answers
      its verification read with an unusable MAC: however the scan went, whatever
      the others did, nothing is sent to an address not just proven to be its. */
  lemma WriteSafety(w: World, mac: string, requested: int, attempts: nat)
    requires Good(w) && !Misled(w.st, mac, Head(w.script).reply)
    ensures SendsJustified(w, ChangeChannel(w, mac, requested, attempts).0)
  {
    VerifiedIPJustified(w, mac);
    VerifiedIPSendsNothing(w, mac);
    var (located, found) := VerifiedIP(w, mac);
    if found.Some? {
      var ip, from := found.value, |w.st.history|;
      TickGood(located);
      var ready := Tick(located);
      JustifiedGrows(located.st.history, ready.st.history, from, mac, ip);
      if mac in ready.st.reg && WritableRole(ready.st.reg[mac].role) {
        TickGood(ready);
        var written := WriteOnce(ready, mac, ip, requested, from);
        ReadBackMeaning(written, mac, ip, requested, attempts, true, None);
        var done := ReadBack(written, mac, ip, requested, attempts, true, None).0;
        assert done.st.history[..|ready.st.history|] == ready.st.history;
      }
    }
  }

  // ----- The hypothesis is needed, and is the whole condition -----

  /** A device known, online and writable, whose verification read is answered
      with an unusable MAC while nothing else happens, is written to unverified. */
  lemma MalformedReplyGoesUnverified(st: R.State, bad: Moment, mac: string, requested: int, attempts: nat)
    requires Sound(st) && mac in st.reg && st.reg[mac].online && WritableRole(st.reg[mac].role)
    requires bad.others == [] && Malformed(bad.reply)
    ensures var w := World(st, [bad], [], 0);
            Good(w) && !SendsJustified(w, ChangeChannel(w, mac, requested, attempts).0)
  {
    var w := World(st, [bad], [], 0);
    assert Good(w);
    var ip := st.reg[mac].ip;
    var (seen, sighting) := ObserveAt(w, ip, mac);
    assert seen.st == st && seen.script == [] && sighting == OtherDevice;
    var located := VerifiedIP(w, mac).0;
    assert VerifiedIP(w, mac) == (located, Some(ip)) && located.st == st && located.script == [];
    assert Tick(located).st == st;
    LocatedIsSent(w, located, mac, ip, requested, attempts);
    assert !Justified(st.history, |st.history|, mac, ip);
    assert ChangeChannel(w, mac, requested, attempts).0.sends[0] ==
        Send(mac, ip, requested, |st.history|, |st.history|, 0);
  }

  const MOVED_TO := "192.0.2.1"

  /** An address other than ip. */
  function Elsewhere(ip: string): (other: string)
    ensures other != ip && other != ""
  {
    if ip == MOVED_TO then "192.0.2.2" else MOVED_TO
  }

  function TransmitterInfo(mac: string): DeviceInfo {
    DeviceInfo("", "proavtx", "", "", mac, 0)
  }

  lemma ClassifiedTransmitter(mac: string)
    ensures Classify(TransmitterInfo(mac)) == Transmitter
  {
    var product, model := LowerAscii("proavtx"), LowerAscii("");
    assert product == "proavtx" && model == "";
    assert "proavtx" <= product[0..];
    forall i | 0 <= i <= |product| ensures !("proavrx" <= product[i..]) {
      assert i == 0 ==> product[5] == 't' && "proavrx"[5] == 'r';
    }
    assert forall i | 0 <= i <= |model| :: |model[i..]| == 0;
  }

  /** The environment: the malformed answer, silence, and, just before the write,
      the device is observed at another address as a transmitter. */
  function Moving(bad: Option<DeviceInfo>, mac: string, ip: string): seq<Moment> {
    [SILENCE.(reply := bad), SILENCE, SILENCE, SILENCE.(others := [R.Observe(Elsewhere(ip), TransmitterInfo(mac), 0)])]
  }

  lemma MovingSeemly(bad: Option<DeviceInfo>, mac: string, ip: string)
    ensures SeemlyScript(Moving(bad, mac, ip))
  {
  }

  /** Before that moment nothing has happened: the old address is believed. */
  lemma MovingLocates(st: R.State, bad: Option<DeviceInfo>, mac: string)
    requires Sound(st) && IsMac(mac) && Misled(st, mac, bad)
    ensures var script := Moving(bad, mac, st.reg[mac].ip);
            VerifiedIP(World(st, script, [], 0), mac) == (World(st, script[3..], [], 1), Some(st.reg[mac].ip))
  {
    var ip := st.reg[mac].ip;
    var script := Moving(bad, mac, ip);
    var w := World(st, script, [], 0);
    assert Tick(w) == World(st, script[1..], [], 0);
    var asked := World(st, script[1..], [], 1);
    assert script[1..][0] == SILENCE && script[1..][1..] == script[2..];
    assert Tick(asked) == World(st, script[2..], [], 1);
    assert ObserveAt(w, ip, mac) == (World(st, script[2..], [], 1), OtherDevice);
    assert script[2..][0] == SILENCE && script[2..][1..] == script[3..];
  }

  lemma MovingArrives(st: R.State, bad: Option<DeviceInfo>, mac: string)
    requires Sound(st) && IsMac(mac) && Misled(st, mac, bad)
    ensures var ip := st.reg[mac].ip;
            var ready := Tick(World(st, Moving(bad, mac, ip)[3..], [], 1));
            && mac in ready.st.reg && WritableRole(ready.st.reg[mac].role) && ready.script == [] && ready.sends == []
            && ready.st.history == st.history + [R.ObservedEvent(Elsewhere(ip), TransmitterInfo(mac))]
  {
    var ip := st.reg[mac].ip;
    var move := R.Observe(Elsewhere(ip), TransmitterInfo(mac), 0);
    var last := Moving(bad, mac, ip)[3..];
    assert last[0].others == [move] && last[1..] == [];
    assert [move][1..] == [];
    assert R.Run(st, [move]) == R.Apply(st, move);
    ClassifiedTransmitter(mac);
  }

  /** Any device shown online can be written to unverified after a malformed
      answer, whatever its role: it may be found elsewhere just before the write,
      which still goes to the old address. */
  lemma MisledGoesUnverified(st: R.State, bad: Option<DeviceInfo>, mac: string, requested: int, attempts: nat)
    requires Sound(st) && IsMac(mac) && Misled(st, mac, bad)
    ensures var w := World(st, Moving(bad, mac, st.reg[mac].ip), [], 0);
            Good(w) && !SendsJustified(w, ChangeChannel(w, mac, requested, attempts).0)
  {
    var ip := st.reg[mac].ip;
    var w := World(st, Moving(bad, mac, ip), [], 0);
    var located := World(st, Moving(bad, mac, ip)[3..], [], 1);
    MovingSeemly(bad, mac, ip);
    MovingLocates(st, bad, mac);
    MovingArrives(st, bad, mac);
    LocatedIsSent(w, located, mac, ip, requested, attempts);
    MovedIsUnjustified(st.history, Tick(located).st.history, mac, ip);
    assert ChangeChannel(w, mac, requested, attempts).0.sends[0] ==
        Send(mac, ip, requested, |st.history|, |st.history| + 1, 0);
  }

  lemma MovedIsUnjustified(h: seq<R.Event>, g: seq<R.Event>, mac: string, ip: string)
    requires g == h + [R.ObservedEvent(Elsewhere(ip), TransmitterInfo(mac))]
    ensures !Justified(g, |h|, mac, ip)
  {
  }

  /** Once an address is believed and the role can be written, one request goes
      there, and it records when it was issued. */
  lemma LocatedIsSent(w: World, located: World, mac: string, ip: string, requested: int, attempts: nat)
    requires Good(w) && VerifiedIP(w, mac) == (located, Some(ip))
    requires mac in Tick(located).st.reg && WritableRole(Tick(located).st.reg[mac].role)
    ensures var w', issued := ChangeChannel(w, mac, requested, attempts).0, |Tick(located).st.history|;
            && w'.sends == w.sends + [Send(mac, ip, requested, |w.st.history|, issued, |Tick(located).script|)]
            && issued <= |w'.st.history| && w'.st.history[..issued] == Tick(located).st.history
  {
    VerifiedIPSendsNothing(w, mac);
    TickGood(located);
    var ready := Tick(located);
    TickGood(ready);
    var written := WriteOnce(ready, mac, ip, requested, |w.st.history|);
    ReadBackMeaning(written, mac, ip, requested, attempts, true, None);
  }

  /** A verification answer is safe against every schedule exactly when it is
      well-formed or the device is not shown online when the call begins. */
  lemma SafeExactlyWhenNotMisled(st: R.State, reply: Option<DeviceInfo>, mac: string, requested: int, attempts: nat)
    requires Sound(st) && IsMac(mac)
    ensures (forall script: seq<Moment> | script != [] && script[0].reply == reply && SeemlyScript(script) ::
               SendsJustified(World(st, script, [], 0),
                   ChangeChannel(World(st, script, [], 0), mac, requested, attempts).0))
            <==> !Misled(st, mac, reply)
  {
    if Misled(st, mac, reply) {
      var script := Moving(reply, mac, st.reg[mac].ip);
      MisledGoesUnverified(st, reply, mac, requested, attempts);
      assert script[0].reply == reply;
    } else {
      forall script: seq<Moment> | script != [] && script[0].reply == reply && SeemlyScript(script)
        ensures SendsJustified(World(st, script, [], 0),
                ChangeChannel(World(st, script, [], 0), mac, requested, attempts).0)
      {
        WriteSafety(World(st, script, [], 0), mac, requested, attempts);
      }
    }
  }

  // ----- A matched outcome is real -----

  /** Matched means: one write went out and was not rejected, and after it,
      within the allowed reads, a reply by this MAC at this address with the
      requested channel was recorded. */
  lemma MatchedIsReal(w: World, mac: string, requested: int, attempts: nat)
    requires Good(w) && ChangeChannel(w, mac, requested, attempts).1.status == Matched
    ensures var (w', out) := ChangeChannel(w, mac, requested, attempts);
            && out.write.Some? && out.write.value != WriteRejected && out.reported == Some(requested)
            && |w'.sends| == |w.sends| + 1 && w'.asked <= w.asked + 1 + attempts
            && var s := w'.sends[|w.sends|];
               s.ip == out.ip && Confirmed(w'.st.history, s.issued, mac, out.ip, requested)
  {
    VerifiedIPSendsNothing(w, mac);
    var (located, found) := VerifiedIP(w, mac);
    var ip := found.value;
    TickGood(located);
    var ready := Tick(located);
    TickGood(ready);
    var written := WriteOnce(ready, mac, ip, requested, |w.st.history|);
    ReadBackMeaning(written, mac, ip, requested, attempts, true, None);
    var (done, _) := ReadBack(written, mac, ip, requested, attempts, true, None);
    ConfirmedEarlier(done.st.history, |written.st.history|, |ready.st.history|, mac, ip, requested);
  }
}

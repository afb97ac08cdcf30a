/** What a channel change answers (internal/controller/write.go): the outcome in
    terms of what was sent and what the environment said, and the writes that
    succeed. */
module WriteOutcome {
  import opened Text
  import opened Model
  import opened Mac
  import opened WriteProtocol
  import R = Registry

  // ----- Positions in a script -----

  /** The k-th moment; nothing more happens after the end. */
  function At(script: seq<Moment>, k: nat): Moment {
    if k < |script| then script[k] else SILENCE
  }

  function Drop(script: seq<Moment>, k: nat): seq<Moment> {
    if k <= |script| then script[k..] else []
  }

  lemma DropRest(script: seq<Moment>, k: nat)
    ensures Rest(Drop(script, k)) == Drop(script, k + 1) && Head(Drop(script, k)) == At(script, k)
  {
  }

  /** t is what is left of s after some moments. */
  predicate Later(s: seq<Moment>, t: seq<Moment>) {
    |t| <= |s| && t == s[|s| - |t|..]
  }

  lemma LaterRest(s: seq<Moment>, t: seq<Moment>)
    requires Later(s, t)
    ensures Later(s, Rest(t)) && Head(t) == At(s, |s| - |t|)
  {
  }

  lemma VerifiedLater(w: World, mac: string)
    ensures Later(w.script, VerifiedIP(w, mac).0.script)
  {
    var s := w.script;
    assert Later(s, s);
    LaterRest(s, s);
    LaterRest(s, Rest(s));
    LaterRest(s, Rest(Rest(s)));
  }

  // ----- The outcome, from what was sent and what was answered -----

  /** The answer of the environment to the request. */
  function Answer(w: World, s: Send): WriteStatus {
    if s.left <= |w.script| then At(w.script, |w.script| - s.left).ack else WriteAmbiguous
  }

  /** The request that went out during the call, if one did. */
  function Sent(w: World, w': World): Option<Send> {
    if |w'.sends| > |w.sends| then Some(w'.sends[|w.sends|]) else None
  }

  predicate Rejected(w: World, w': World) {
    Sent(w, w').Some? && Answer(w, Sent(w, w').value) == WriteRejected
  }

  lemma UnsentOutcome(w: World, mac: string, requested: int, attempts: nat)
    requires Good(w)
    requires var (located, found) := VerifiedIP(w, mac);
             found == None || mac !in Tick(located).st.reg || !WritableRole(Tick(located).st.reg[mac].role)
    ensures var (w', out) := ChangeChannel(w, mac, requested, attempts);
            && Sent(w, w') == None && out.status == Failed && out.write == None
            && out.reason == (if VerifiedIP(w, mac).1 == None then DeviceNotLocated else UnknownRole)
            && (out.reason == DeviceNotLocated <==> out.ip == "")
  {
    VerifiedIPSendsNothing(w, mac);
  }

  lemma SentOutcome(w: World, located: World, mac: string, ip: string, requested: int, attempts: nat)
    requires Good(w) && VerifiedIP(w, mac) == (located, Some(ip))
    requires mac in Tick(located).st.reg && WritableRole(Tick(located).st.reg[mac].role)
    ensures var (w', out) := ChangeChannel(w, mac, requested, attempts);
            var ack := Head(Tick(located).script).ack;
            && Sent(w, w').Some? && Answer(w, Sent(w, w').value) == ack && out.write == Some(ack)
            && (out.status == Failed <==> ack == WriteRejected)
            && (out.status == Matched <==> ack != WriteRejected && out.reported == Some(requested))
            && out.reason == (if ack == WriteRejected then WriteWasRejected else NoReason)
  {
    AnswerIsAck(w, located, mac, ip, requested, attempts);
    SentDecides(w, located, mac, ip, requested, attempts);
  }

  lemma SentIs(w: World, w': World, s: Send)
    requires w'.sends == w.sends + [s]
    ensures Sent(w, w') == Some(s)
  {
  }

  lemma AnswerIsAck(w: World, located: World, mac: string, ip: string, requested: int, attempts: nat)
    requires Good(w) && VerifiedIP(w, mac) == (located, Some(ip))
    requires mac in Tick(located).st.reg && WritableRole(Tick(located).st.reg[mac].role)
    ensures var w' := ChangeChannel(w, mac, requested, attempts).0;
            Sent(w, w').Some? && Answer(w, Sent(w, w').value) == Head(Tick(located).script).ack
  {
    LocatedIsSent(w, located, mac, ip, requested, attempts);
    var began, ready := |w.st.history|, Tick(located);
    var s := Send(mac, ip, requested, began, |ready.st.history|, |ready.script|);
    SentIs(w, ChangeChannel(w, mac, requested, attempts).0, s);
    LeftIsLater(w, mac);
    AnswerAt(w, ready.script, s);
  }

  lemma AnswerAt(w: World, left: seq<Moment>, s: Send)
    requires Later(w.script, left) && s.left == |left|
    ensures Answer(w, s) == Head(left).ack
  {
    LaterRest(w.script, left);
  }

  lemma LeftIsLater(w: World, mac: string)
    ensures Later(w.script, Rest(VerifiedIP(w, mac).0.script))
  {
    VerifiedLater(w, mac);
    LaterRest(w.script, VerifiedIP(w, mac).0.script);
  }

  lemma SentDecides(w: World, located: World, mac: string, ip: string, requested: int, attempts: nat)
    requires VerifiedIP(w, mac) == (located, Some(ip))
    requires mac in Tick(located).st.reg && WritableRole(Tick(located).st.reg[mac].role)
    ensures var out, ack := ChangeChannel(w, mac, requested, attempts).1, Head(Tick(located).script).ack;
            && out.write == Some(ack)
            && (out.status == Failed <==> ack == WriteRejected)
            && (out.status == Matched <==> ack != WriteRejected && out.reported == Some(requested))
            && out.reason == (if ack == WriteRejected then WriteWasRejected else NoReason)
  {
  }

  /** The status, the reason and the write status of every call, from what was
      sent, what the environment answered to it, and what was read back. */
  lemma OutcomeIsExact(w: World, mac: string, requested: int, attempts: nat)
    requires Good(w)
    ensures var (w', out) := ChangeChannel(w, mac, requested, attempts);
            && out.mac == mac && out.requested == requested
            && (out.status == Matched <==>
                 Sent(w, w').Some? && !Rejected(w, w') && out.reported == Some(requested))
            && (out.status == Failed <==> Sent(w, w') == None || Rejected(w, w'))
            && out.write == (if Sent(w, w').Some? then Some(Answer(w, Sent(w, w').value)) else None)
            && (out.reason == NoReason <==> out.status != Failed)
            && (out.reason == WriteWasRejected <==> Rejected(w, w'))
            && (out.reason == DeviceNotLocated <==> out.ip == "")
  {
    VerifiedIPSendsNothing(w, mac);
    var (located, found) := VerifiedIP(w, mac);
    if found == None || mac !in Tick(located).st.reg || !WritableRole(Tick(located).st.reg[mac].role) {
      UnsentOutcome(w, mac, requested, attempts);
    } else {
      SentOutcome(w, located, mac, found.value, requested, attempts);
    }
    OutcomeNames(w, mac, requested, attempts);
  }

  lemma OutcomeNames(w: World, mac: string, requested: int, attempts: nat)
    ensures var out := ChangeChannel(w, mac, requested, attempts).1;
            && out.mac == mac && out.requested == requested
            && (VerifiedIP(w, mac).1.Some? ==> out.ip == VerifiedIP(w, mac).1.value)
  {
  }

  // ----- Readback, from the script alone -----

  /** Within `attempts` reads one by mac carries the requested channel, and before
      it came only silence and replies by mac with other channels. A silent read
      takes one moment of the script, an answered one two. */
  predicate Confirms(script: seq<Moment>, mac: string, requested: int, attempts: nat, first: bool)
    decreases attempts
  {
    attempts > 0 && (first || !Head(script).cancelled) &&
    match Head(script).reply
    case None => Confirms(Rest(script), mac, requested, attempts - 1, false)
    case Some(info) =>
      Normalize(info.lanMac) == mac &&
      (info.channelID == requested || Confirms(Rest(Rest(script)), mac, requested, attempts - 1, false))
  }

  /** What the readback reports, from the script alone. */
  function Reading(script: seq<Moment>, mac: string, requested: int, attempts: nat, first: bool,
                   reported: Option<int>): Option<int>
    decreases attempts
  {
    if attempts == 0 || (!first && Head(script).cancelled) then reported
    else match Head(script).reply
      case None => Reading(Rest(script), mac, requested, attempts - 1, false, reported)
      case Some(info) =>
        if Normalize(info.lanMac) != mac then None
        else if info.channelID == requested then Some(requested)
        else Reading(Rest(Rest(script)), mac, requested, attempts - 1, false, Some(info.channelID))
  }

  lemma {:induction false} ReadBackReads(w: World, mac: string, ip: string, requested: int, attempts: nat, first: bool,
                                         reported: Option<int>)
    ensures ReadBack(w, mac, ip, requested, attempts, first, reported).1 ==
            Reading(w.script, mac, requested, attempts, first, reported)
    decreases attempts, 0
  {
    if attempts > 0 && (first || !Head(w.script).cancelled) {
      var m := Head(w.script);
      var asked := Tick(w).(asked := w.asked + 1);
      if m.reply == None {
        ReadBackReads(asked, mac, ip, requested, attempts - 1, false, reported);
      } else {
        ReadBackReadsHeard(asked, mac, ip, m.reply.value, m.now, requested, attempts);
      }
    }
  }

  lemma {:induction false} ReadBackReadsHeard(asked: World, mac: string, ip: string, info: DeviceInfo, now: int,
                                              requested: int, attempts: nat)
    requires attempts > 0
    ensures var recorded := Record(Tick(asked), ip, info, now);
            ReadBack(recorded, mac, ip, requested, attempts - 1, false, Some(info.channelID)).1 ==
            Reading(Rest(asked.script), mac, requested, attempts - 1, false, Some(info.channelID))
    decreases attempts - 1, 1
  {
    var recorded := Record(Tick(asked), ip, info, now);
    assert recorded.script == Rest(asked.script);
    ReadBackReads(recorded, mac, ip, requested, attempts - 1, false, Some(info.channelID));
  }

  lemma {:induction false} ReadingConfirms(script: seq<Moment>, mac: string, requested: int, attempts: nat, first: bool,
                                           reported: Option<int>)
    requires reported != Some(requested)
    ensures Reading(script, mac, requested, attempts, first, reported) == Some(requested) <==>
            Confirms(script, mac, requested, attempts, first)
    decreases attempts
  {
    if attempts > 0 && (first || !Head(script).cancelled) {
      var reply := Head(script).reply;
      if reply == None {
        ReadingConfirms(Rest(script), mac, requested, attempts - 1, false, reported);
      } else if Normalize(reply.value.lanMac) == mac && reply.value.channelID != requested {
        ReadingConfirms(Rest(Rest(script)), mac, requested, attempts - 1, false, Some(reply.value.channelID));
      }
    }
  }

  /** The readback reports the requested channel exactly when the script has it. */
  lemma ReadBackExact(w: World, mac: string, ip: string, requested: int, attempts: nat, first: bool,
                      reported: Option<int>)
    requires reported != Some(requested)
    ensures ReadBack(w, mac, ip, requested, attempts, first, reported).1 == Some(requested) <==>
            Confirms(w.script, mac, requested, attempts, first)
  {
    ReadBackReads(w, mac, ip, requested, attempts, first, reported);
    ReadingConfirms(w.script, mac, requested, attempts, first, reported);
  }

  // ----- Writes that succeed -----

  /** None of these operations makes the device unwritable. */
  predicate Gentle(ops: seq<R.Op>, mac: string) {
    forall i | 0 <= i < |ops| ::
      && !ops[i].Load?
      && (ops[i].Observe? && Normalize(ops[i].info.lanMac) == mac ==> WritableRole(Classify(ops[i].info)))
  }

  lemma GentleStep(st: R.State, op: R.Op, mac: string)
    requires Gentle([op], mac) && mac in st.reg && WritableRole(st.reg[mac].role)
    ensures mac in R.Apply(st, op).reg && WritableRole(R.Apply(st, op).reg[mac].role)
  {
    assert [op][0] == op;
  }

  lemma {:induction false} StaysWritable(st: R.State, ops: seq<R.Op>, mac: string)
    requires Gentle(ops, mac) && mac in st.reg && WritableRole(st.reg[mac].role)
    ensures mac in R.Run(st, ops).reg && WritableRole(R.Run(st, ops).reg[mac].role)
    decreases |ops|
  {
    if ops != [] {
      assert Gentle([ops[0]], mac);
      GentleStep(st, ops[0], mac);
      assert Gentle(ops[1..], mac) by {
        assert forall i | 0 <= i < |ops| - 1 :: ops[1..][i] == ops[i + 1];
      }
      StaysWritable(R.Apply(st, ops[0]), ops[1..], mac);
    }
  }

  /** Once the address is located and the role can be written: one request goes
      there, and the call matches exactly when the answer was not a rejection and
      the reads after it confirm. */
  lemma LocatedMatchesIff(w: World, located: World, mac: string, ip: string, requested: int, attempts: nat)
    requires Good(w) && VerifiedIP(w, mac) == (located, Some(ip))
    requires mac in Tick(located).st.reg && WritableRole(Tick(located).st.reg[mac].role)
    ensures var (w', out) := ChangeChannel(w, mac, requested, attempts);
            var rest := Rest(located.script);
            && Sent(w, w').Some? && |w'.sends| == |w.sends| + 1
            && Sent(w, w').value.mac == mac && Sent(w, w').value.ip == ip && Sent(w, w').value.channel == requested
            && (out.status == Matched <==>
                 Head(rest).ack != WriteRejected && Confirms(Rest(rest), mac, requested, attempts, true))
  {
    LocatedIsSent(w, located, mac, ip, requested, attempts);
    SentOutcome(w, located, mac, ip, requested, attempts);
    var written := WriteOnce(Tick(located), mac, ip, requested, |w.st.history|);
    ReadBackExact(written, mac, ip, requested, attempts, true, None);
    ReportedIsReadBack(w, located, mac, ip, requested, attempts);
  }

  lemma ReportedIsReadBack(w: World, located: World, mac: string, ip: string, requested: int, attempts: nat)
    requires VerifiedIP(w, mac) == (located, Some(ip))
    requires mac in Tick(located).st.reg && WritableRole(Tick(located).st.reg[mac].role)
    ensures ChangeChannel(w, mac, requested, attempts).1.reported ==
            ReadBack(WriteOnce(Tick(located), mac, ip, requested, |w.st.history|), mac, ip, requested, attempts,
              true, None).1
    ensures ChangeChannel(w, mac, requested, attempts).0 ==
            ReadBack(WriteOnce(Tick(located), mac, ip, requested, |w.st.history|), mac, ip, requested, attempts,
              true, None).0
  {
  }

  /** The device's own answer at its address: moments 0 and 1 are the verification
      read, 2 the lookup, 3 the write, the rest the readback. */
  lemma VerifiedAtHome(w: World, mac: string)
    requires Good(w) && mac in w.st.reg && w.st.reg[mac].ip != ""
    requires var m := At(w.script, 0); m.reply.Some? && Normalize(m.reply.value.lanMac) == mac
    requires WritableRole(Classify(At(w.script, 0).reply.value)) && Gentle(At(w.script, 2).others, mac)
    ensures var (located, found) := VerifiedIP(w, mac);
            && found == Some(w.st.reg[mac].ip) && located.script == Drop(w.script, 2)
            && mac in Tick(located).st.reg && WritableRole(Tick(located).st.reg[mac].role)
  {
    var (located, _) := VerifiedIP(w, mac);
    DropRest(w.script, 0);
    DropRest(w.script, 1);
    DropRest(w.script, 2);
    assert Drop(w.script, 0) == w.script;
    var m := At(w.script, 0);
    var before := Tick(Tick(w).(asked := w.asked + 1));
    assert located == Record(before, w.st.reg[mac].ip, m.reply.value, m.now);
    assert located.st.reg[mac].role == Classify(m.reply.value);
    StaysWritable(located.st, At(w.script, 2).others, mac);
  }

  /** A known device that answers at its address in a writable role is sent the
      request there, exactly once, and the call matches if and only if the write
      is not rejected and the readback confirms it, whatever others do meanwhile. */
  lemma AnsweringDeviceIsWritten(w: World, mac: string, requested: int, attempts: nat)
    requires Good(w) && mac in w.st.reg && w.st.reg[mac].ip != ""
    requires var m := At(w.script, 0); m.reply.Some? && Normalize(m.reply.value.lanMac) == mac
    requires WritableRole(Classify(At(w.script, 0).reply.value)) && Gentle(At(w.script, 2).others, mac)
    ensures var (w', out) := ChangeChannel(w, mac, requested, attempts);
            && |w'.sends| == |w.sends| + 1
            && (out.status == Matched <==>
                 At(w.script, 3).ack != WriteRejected && Confirms(Drop(w.script, 4), mac, requested, attempts, true))
            && var s := w'.sends[|w.sends|];
               s.mac == mac && s.ip == w.st.reg[mac].ip && s.channel == requested
  {
    VerifiedAtHome(w, mac);
    var located := VerifiedIP(w, mac).0;
    LocatedMatchesIff(w, located, mac, w.st.reg[mac].ip, requested, attempts);
    DropRest(w.script, 2);
    DropRest(w.script, 3);
  }

  /** Nothing at the recorded address verifies the device: there is no address, or
      nobody answers there, or somebody else does. */
  predicate Unverified(w: World, mac: string) {
    && mac in w.st.reg
    && (w.st.reg[mac].ip != "" && At(w.script, 0).reply.Some? ==> Normalize(At(w.script, 0).reply.value.lanMac) != mac)
  }

  /** The moment of the scan: the first, or after the two of the verification. */
  function ScanMoment(w: World, mac: string): nat
    requires mac in w.st.reg
  {
    if w.st.reg[mac].ip == "" then 0 else 2
  }

  /** Then a scan runs, from some state st on, and the registry decides. */
  lemma UnverifiedThenScan(w: World, mac: string) returns (st: R.State)
    requires Unverified(w, mac)
    ensures var k := ScanMoment(w, mac);
            var (located, found) := VerifiedIP(w, mac);
            var reg := R.Run(st, At(w.script, k).others).reg;
            && located.st == R.Run(st, At(w.script, k).others) && located.script == Drop(w.script, k + 1)
            && found == if mac in reg && reg[mac].online then Some(reg[mac].ip) else None
  {
    DropRest(w.script, 0);
    DropRest(w.script, 1);
    DropRest(w.script, 2);
    assert Drop(w.script, 0) == w.script;
    var ip := w.st.reg[mac].ip;
    var m := At(w.script, 0);
    var asked := Tick(w).(asked := w.asked + 1);
    if ip == "" {
      st := w.st;
    } else if m.reply == None {
      st := R.Apply(Tick(asked).st, R.GoOffline(mac));
    } else {
      st := Record(Tick(asked), ip, m.reply.value, m.now).st;
    }
  }

  lemma ObservedLast(st: R.State, before: seq<R.Op>, ip: string, info: DeviceInfo, now: int)
    requires Normalize(info.lanMac) != ""
    ensures var reg, mac := R.Run(st, before + [R.Observe(ip, info, now)]).reg, Normalize(info.lanMac);
            mac in reg && reg[mac].online && reg[mac].ip == ip && reg[mac].role == Classify(info)
  {
    RunLast(st, before, R.Observe(ip, info, now));
  }

  /** A device not verified at its address that the scan finds. */
  lemma FoundElsewhere(w: World, mac: string, ip: string, info: DeviceInfo, now: int, before: seq<R.Op>)
    requires Unverified(w, mac) && Normalize(info.lanMac) == mac && mac != "" && WritableRole(Classify(info))
    requires At(w.script, ScanMoment(w, mac)).others == before + [R.Observe(ip, info, now)]
    requires Gentle(At(w.script, ScanMoment(w, mac) + 1).others, mac)
    ensures var (located, found) := VerifiedIP(w, mac);
            && found == Some(ip) && located.script == Drop(w.script, ScanMoment(w, mac) + 1)
            && mac in Tick(located).st.reg && WritableRole(Tick(located).st.reg[mac].role)
  {
    var k := ScanMoment(w, mac);
    var st := UnverifiedThenScan(w, mac);
    ObservedLast(st, before, ip, info, now);
    DropRest(w.script, k + 1);
    StaysWritable(R.Run(st, At(w.script, k).others), At(w.script, k + 1).others, mac);
  }

  lemma {:induction false} RunLast(st: R.State, ops: seq<R.Op>, op: R.Op)
    ensures R.Run(st, ops + [op]) == R.Apply(R.Run(st, ops), op)
    decreases |ops|
  {
    if ops == [] {
      assert ops + [op] == [op] && [op][1..] == [];
    } else {
      assert (ops + [op])[0] == ops[0] && (ops + [op])[1..] == ops[1..] + [op];
      RunLast(R.Apply(st, ops[0]), ops[1..], op);
    }
  }

  /** A device that has moved, gone quiet, been replaced at its address or never had
      one is written to where the scan finds it, once, and the call matches exactly
      when the write is not rejected and the readback confirms it. */
  lemma MovedDeviceIsWritten(w: World, mac: string, ip: string, info: DeviceInfo, now: int, before: seq<R.Op>,
                             requested: int, attempts: nat)
    requires Good(w) && Unverified(w, mac) && Normalize(info.lanMac) == mac && mac != "" && WritableRole(Classify(info))
    requires At(w.script, ScanMoment(w, mac)).others == before + [R.Observe(ip, info, now)]
    requires Gentle(At(w.script, ScanMoment(w, mac) + 1).others, mac)
    ensures var k := ScanMoment(w, mac);
            var (w', out) := ChangeChannel(w, mac, requested, attempts);
            && |w'.sends| == |w.sends| + 1
            && (out.status == Matched <==>
                 && At(w.script, k + 2).ack != WriteRejected
                 && Confirms(Drop(w.script, k + 3), mac, requested, attempts, true))
            && var s := w'.sends[|w.sends|];
               s.mac == mac && s.ip == ip && s.channel == requested
  {
    var k := ScanMoment(w, mac);
    FoundElsewhere(w, mac, ip, info, now, before);
    LocatedMatchesIff(w, VerifiedIP(w, mac).0, mac, ip, requested, attempts);
    DropRest(w.script, k + 1);
    DropRest(w.script, k + 2);
  }

  // ----- Which reading is reported -----

  /** The replies the readback gets to hear: at most one per attempt, up to the first
      by somebody else, the first with the requested channel, or a cancellation. */
  function Heard(script: seq<Moment>, mac: string, requested: int, attempts: nat, first: bool): seq<DeviceInfo>
    decreases attempts
  {
    if attempts == 0 || (!first && Head(script).cancelled) then []
    else match Head(script).reply
      case None => Heard(Rest(script), mac, requested, attempts - 1, false)
      case Some(info) =>
        [info] + if Normalize(info.lanMac) != mac || info.channelID == requested then []
                 else Heard(Rest(Rest(script)), mac, requested, attempts - 1, false)
  }

  /** What the last reply says: the device's channel, or nothing if it is somebody
      else's; without any reply, what was known before. */
  function LastSays(heard: seq<DeviceInfo>, mac: string, before: Option<int>): Option<int> {
    if heard == [] then before
    else
      var last := heard[|heard| - 1];
      if Normalize(last.lanMac) == mac then Some(last.channelID) else None
  }

  lemma LastSaysCons(info: DeviceInfo, rest: seq<DeviceInfo>, mac: string, before: Option<int>)
    requires Normalize(info.lanMac) == mac
    ensures LastSays([info] + rest, mac, before) == LastSays(rest, mac, Some(info.channelID))
  {
  }

  lemma {:induction false} ReadingIsLast(script: seq<Moment>, mac: string, requested: int, attempts: nat, first: bool,
                                         reported: Option<int>)
    ensures Reading(script, mac, requested, attempts, first, reported) ==
            LastSays(Heard(script, mac, requested, attempts, first), mac, reported)
    decreases attempts
  {
    if attempts > 0 && (first || !Head(script).cancelled) {
      var reply := Head(script).reply;
      if reply == None {
        ReadingIsLast(Rest(script), mac, requested, attempts - 1, false, reported);
      } else if Normalize(reply.value.lanMac) == mac && reply.value.channelID != requested {
        ReadingIsLast(Rest(Rest(script)), mac, requested, attempts - 1, false, Some(reply.value.channelID));
        LastSaysCons(reply.value, Heard(Rest(Rest(script)), mac, requested, attempts - 1, false), mac, reported);
      }
    }
  }

  /** The last reply heard decides what the readback reports. */
  lemma LastReplyIsReported(w: World, mac: string, ip: string, requested: int, attempts: nat, first: bool,
                            reported: Option<int>)
    ensures ReadBack(w, mac, ip, requested, attempts, first, reported).1 ==
            LastSays(Heard(w.script, mac, requested, attempts, first), mac, reported)
  {
    ReadBackReads(w, mac, ip, requested, attempts, first, reported);
    ReadingIsLast(w.script, mac, requested, attempts, first, reported);
  }

  // ----- What is reported was read -----

  lemma ConfirmedGrows(h: seq<R.Event>, g: seq<R.Event>, from: nat, earlier: nat, mac: string, ip: string, c: int)
    requires h <= g && earlier <= from && Confirmed(h, from, mac, ip, c)
    ensures Confirmed(g, earlier, mac, ip, c)
  {
    var i :| from <= i < |h| && h[i] == R.Observed(mac, ip, Some(c));
    assert g[i] == h[i];
  }

  lemma {:induction false} ReadBackReports(w: World, mac: string, ip: string, requested: int, attempts: nat,
      first: bool,
                                           reported: Option<int>, c: int)
    requires Good(w) && ip != "" && mac != "" && reported != Some(c)
    requires ReadBack(w, mac, ip, requested, attempts, first, reported).1 == Some(c)
    ensures Confirmed(ReadBack(w, mac, ip, requested, attempts, first, reported).0.st.history, |w.st.history|, mac,
            ip, c)
    ensures w.st.history <= ReadBack(w, mac, ip, requested, attempts, first, reported).0.st.history
    decreases attempts, 0
  {
    var m := Head(w.script);
    TickGood(w);
    var asked := Tick(w).(asked := w.asked + 1);
    if m.reply == None {
      ReadBackReports(asked, mac, ip, requested, attempts - 1, false, reported, c);
      var done := ReadBack(asked, mac, ip, requested, attempts - 1, false, reported).0;
      ConfirmedGrows(done.st.history, done.st.history, |asked.st.history|, |w.st.history|, mac, ip, c);
    } else {
      HeardReports(w, asked, mac, ip, m.reply.value, m.now, requested, attempts, c);
    }
  }

  lemma {:induction false} HeardReports(w: World, asked: World, mac: string, ip: string, info: DeviceInfo, now: int,
                                        requested: int, attempts: nat, c: int)
    requires Good(asked) && w.st.history <= asked.st.history && ip != "" && mac != "" && attempts > 0
    requires Normalize(info.lanMac) == mac
    requires var recorded := Record(Tick(asked), ip, info, now);
             if info.channelID == requested then c == requested
             else ReadBack(recorded, mac, ip, requested, attempts - 1, false, Some(info.channelID)).1 == Some(c)
    ensures var recorded := Record(Tick(asked), ip, info, now);
            var done := if info.channelID == requested then recorded
                        else ReadBack(recorded, mac, ip, requested, attempts - 1, false, Some(info.channelID)).0;
            w.st.history <= done.st.history && Confirmed(done.st.history, |w.st.history|, mac, ip, c)
    decreases attempts - 1, 2
  {
    HeardConfirms(w, asked, mac, ip, info, now);
    if info.channelID != requested {
      HeardReadsOn(w, Record(Tick(asked), ip, info, now), mac, ip, info.channelID, requested, attempts, c);
    }
  }

  /** One answered read by mac confirms its own channel. */
  lemma HeardConfirms(w: World, asked: World, mac: string, ip: string, info: DeviceInfo, now: int)
    requires Good(asked) && w.st.history <= asked.st.history && ip != "" && mac != "" && Normalize(info.lanMac) == mac
    ensures var recorded := Record(Tick(asked), ip, info, now);
            && Good(recorded) && w.st.history <= recorded.st.history
            && Confirmed(recorded.st.history, |w.st.history|, mac, ip, info.channelID)
  {
    TickGood(asked);
    var before := Tick(asked);
    RecordGood(before, ip, info, now);
    RecordConfirms(before, ip, info, now);
    var h := Record(before, ip, info, now).st.history;
    ConfirmedGrows(h, h, |before.st.history|, |w.st.history|, mac, ip, info.channelID);
  }

  lemma ReadBackGrows(w: World, mac: string, ip: string, requested: int, attempts: nat, channel: int)
    requires Good(w) && ip != "" && mac != "" && channel != requested
    ensures w.st.history <= ReadBack(w, mac, ip, requested, attempts, false, Some(channel)).0.st.history
  {
    ReadBackMeaning(w, mac, ip, requested, attempts, false, Some(channel));
  }

  lemma {:induction false} HeardReadsOn(w: World, recorded: World, mac: string, ip: string, channel: int,
                                        requested: int, attempts: nat, c: int)
    requires Good(recorded) && w.st.history <= recorded.st.history && ip != "" && mac != "" && attempts > 0
    requires Confirmed(recorded.st.history, |w.st.history|, mac, ip, channel) && channel != requested
    requires ReadBack(recorded, mac, ip, requested, attempts - 1, false, Some(channel)).1 == Some(c)
    ensures var done := ReadBack(recorded, mac, ip, requested, attempts - 1, false, Some(channel)).0;
            w.st.history <= done.st.history && Confirmed(done.st.history, |w.st.history|, mac, ip, c)
    decreases attempts - 1, 1
  {
    if c == channel {
      ReadBackGrows(recorded, mac, ip, requested, attempts - 1, c);
    } else {
      ReadBackReports(recorded, mac, ip, requested, attempts - 1, false, Some(channel), c);
    }
    StillConfirmed(
      w.st.history, recorded.st.history,
      ReadBack(recorded, mac, ip, requested, attempts - 1, false, Some(channel)).0.st.history, mac, ip, channel, c);
  }

  lemma StillConfirmed(f: seq<R.Event>, g: seq<R.Event>, h: seq<R.Event>, mac: string, ip: string, channel: int, c: int)
    requires f <= g <= h && Confirmed(g, |f|, mac, ip, channel) && (c != channel ==> Confirmed(h, |g|, mac, ip, c))
    ensures f <= h && Confirmed(h, |f|, mac, ip, c)
  {
    if c == channel {
      ConfirmedGrows(g, h, |f|, |f|, mac, ip, c);
    } else {
      ConfirmedGrows(h, h, |g|, |f|, mac, ip, c);
    }
  }

  /** A channel reported after a write was read, and recorded, after that write
      from that device at that address; whether it is the requested one or not. */
  lemma ReportedWasRead(w: World, mac: string, requested: int, attempts: nat, c: int)
    requires Good(w)
    requires var (w', out) := ChangeChannel(w, mac, requested, attempts);
             out.write.Some? && out.reported == Some(c)
    ensures var (w', out) := ChangeChannel(w, mac, requested, attempts);
            Sent(w, w').Some? && Confirmed(w'.st.history, Sent(w, w').value.issued, mac, out.ip, c)
  {
    var (located, found) := VerifiedIP(w, mac);
    WrittenMeansLocated(w, mac, requested, attempts);
    LocatedIsSent(w, located, mac, found.value, requested, attempts);
    LocatedReports(w, located, mac, found.value, requested, attempts, c);
    OutcomeNames(w, mac, requested, attempts);
  }

  lemma WrittenMeansLocated(w: World, mac: string, requested: int, attempts: nat)
    requires ChangeChannel(w, mac, requested, attempts).1.write.Some?
    ensures var (located, found) := VerifiedIP(w, mac);
            found.Some? && mac in Tick(located).st.reg && WritableRole(Tick(located).st.reg[mac].role)
  {
  }

  lemma LocatedReports(w: World, located: World, mac: string, ip: string, requested: int, attempts: nat, c: int)
    requires Good(w) && VerifiedIP(w, mac) == (located, Some(ip))
    requires mac in Tick(located).st.reg && WritableRole(Tick(located).st.reg[mac].role)
    requires ChangeChannel(w, mac, requested, attempts).1.reported == Some(c)
    ensures var h := ChangeChannel(w, mac, requested, attempts).0.st.history;
            Confirmed(h, |Tick(located).st.history|, mac, ip, c)
  {
    VerifiedIPSendsNothing(w, mac);
    ReportedIsReadBack(w, located, mac, ip, requested, attempts);
    TickGood(located);
    var ready := Tick(located);
    TickGood(ready);
    var written := WriteOnce(ready, mac, ip, requested, |w.st.history|);
    ReadBackReports(written, mac, ip, requested, attempts, true, None, c);
    var h := ReadBack(written, mac, ip, requested, attempts, true, None).0.st.history;
    ConfirmedGrows(h, h, |written.st.history|, |ready.st.history|, mac, ip, c);
  }

  /** A call that could not locate the device leaves it shown offline or unknown. */
  lemma UnlocatedMeansOffline(w: World, mac: string, requested: int, attempts: nat)
    requires Good(w) && ChangeChannel(w, mac, requested, attempts).1.reason == DeviceNotLocated
    ensures var w' := ChangeChannel(w, mac, requested, attempts).0;
            mac !in w'.st.reg || !w'.st.reg[mac].online
  {
    OutcomeIsExact(w, mac, requested, attempts);
    OutcomeNames(w, mac, requested, attempts);
    VerifiedIPSendsNothing(w, mac);
    UnlocatedStops(w, mac, requested, attempts);
  }

  lemma UnlocatedStops(w: World, mac: string, requested: int, attempts: nat)
    requires VerifiedIP(w, mac).1 == None
    ensures ChangeChannel(w, mac, requested, attempts).0 == VerifiedIP(w, mac).0
    ensures var st := VerifiedIP(w, mac).0.st; mac !in st.reg || !st.reg[mac].online
  {
  }
}

/** The single-flight gate of RunDiscovery (internal/controller/discovery.go) as
    a labelled transition system. Every label is one atomic stretch of one
    call: what it does under the lock, or the step between two such stretches.
    Any number of calls run at once and any enabled label may come next. */
module SingleFlight {
  import opened Text

  /** A done channel is the number of the scan it belongs to. */
  type Channel = nat

  /** Where one call stands. since and until are positions in the scan log. */
  datatype Call =
    | Arrived
    | Waiting(ch: Channel, since: nat)
    | Scanning(ch: Channel)
    | Scanned(ch: Channel)
    | Closing(ch: Channel)
    | Joined(ch: Channel, since: nat, until: nat)
    | GaveUp
    | Refused
    | Led(ch: Channel)
  {
    predicate Busy() { Scanning? || Scanned? }
    /** The call has made a channel it still has to close. */
    predicate Owns() { Busy() || Closing? }
    predicate Returned() { Joined? || GaveUp? || Refused? || Led? }
    /** How many of its own steps an owner is from having closed its channel. */
    function StepsLeft(): nat {
      match this case Scanning(_) => 3 case Scanned(_) => 2 case Closing(_) => 1 case _ => 0
    }
  }

  datatype Event = Began(ch: Channel) | Ended(ch: Channel)

  /** gate is discoveryDone; made records which call made each channel; closings
      lists the close operations in the order they happen. */
  datatype State = State(gate: Option<Channel>, calls: seq<Call>, made: seq<nat>, closings: seq<Channel>,
      log: seq<Event>, stopping: bool)

  const INITIAL := State(None, [], [], [], [], false)

  datatype Label =
    | Arrive            // a new caller
    | Enter(i: nat)     // the first critical section: join, refuse or open the gate
    | EndScan(i: nat)   // scan returns, complete or cut short
    | Clear(i: nat)     // the second critical section
    | Close(i: nat)     // close(done)
    | Wake(i: nat)      // waitFor sees the channel closed
    | GiveUp(i: nat)    // waitFor sees the caller's context end
    | Stop              // the controller's lifetime ends

  predicate Enabled(s: State, l: Label) {
    match l
    case Arrive => true
    case Stop => true
    case Enter(i) => i < |s.calls| && s.calls[i].Arrived?
    case EndScan(i) => i < |s.calls| && s.calls[i].Scanning?
    case Clear(i) => i < |s.calls| && s.calls[i].Scanned?
    case Close(i) => i < |s.calls| && s.calls[i].Closing?
    case Wake(i) => i < |s.calls| && s.calls[i].Waiting? && s.calls[i].ch in s.closings
    case GiveUp(i) => i < |s.calls| && s.calls[i].Waiting?
  }

  function Step(s: State, l: Label): State
    requires Enabled(s, l)
  {
    match l
    case Arrive => s.(calls := s.calls + [Arrived])
    case Stop => s.(stopping := true)
    case Enter(i) =>
      if s.gate.Some? then s.(calls := s.calls[i := Waiting(s.gate.value, |s.log|)])
      else if s.stopping then s.(calls := s.calls[i := Refused])
      else
        var ch := |s.made|;
        s.(gate := Some(ch), calls := s.calls[i := Scanning(ch)], made := s.made + [i], log := s.log + [Began(ch)])
    case EndScan(i) => s.(calls := s.calls[i := Scanned(s.calls[i].ch)], log := s.log + [Ended(s.calls[i].ch)])
    case Clear(i) => s.(calls := s.calls[i := Closing(s.calls[i].ch)], gate := None)
    case Close(i) => s.(calls := s.calls[i := Led(s.calls[i].ch)], closings := s.closings + [s.calls[i].ch])
    case Wake(i) => s.(calls := s.calls[i := Joined(s.calls[i].ch, s.calls[i].since, |s.log|)])
    case GiveUp(i) => s.(calls := s.calls[i := GaveUp])
  }

  predicate Runs(s: State, labels: seq<Label>)
    decreases |labels|
  {
    labels != [] ==> Enabled(s, labels[0]) && Runs(Step(s, labels[0]), labels[1..])
  }

  function After(s: State, labels: seq<Label>): State
    requires Runs(s, labels)
    decreases |labels|
  {
    if labels == [] then s else After(Step(s, labels[0]), labels[1..])
  }

  // ----- The invariant -----

  predicate Holds(c: Call, ch: Channel, closed: bool) {
    (if closed then c.Led? else c.Owns()) && c.ch == ch
  }

  /** A channel has one maker, who owns it until it closes it. */
  ghost predicate Ownership(s: State) {
    MakersRight(s) && (forall i | 0 <= i < |s.calls| :: CallRight(s, i)) && ClosingsRight(s)
  }

  ghost predicate MakersRight(s: State) {
    forall ch | 0 <= ch < |s.made| :: s.made[ch] < |s.calls| && Holds(s.calls[s.made[ch]], ch, ch in s.closings)
  }

  predicate CallRight(s: State, i: nat)
    requires i < |s.calls|
  {
    s.calls[i].Owns() || s.calls[i].Led? ==> s.calls[i].ch < |s.made| && s.made[s.calls[i].ch] == i
  }

  ghost predicate ClosingsRight(s: State) {
    && (forall ch | ch in s.closings :: ch < |s.made|)
    && (forall x, y | 0 <= x < y < |s.closings| :: s.closings[x] != s.closings[y])
  }

  /** The gate holds the newest channel exactly while its maker is busy. */
  ghost predicate GateRight(s: State) {
    && (forall i | 0 <= i < |s.calls| && s.calls[i].Busy() :: s.gate == Some(s.calls[i].ch))
    && (s.gate.Some? ==>
          && |s.made| > 0 && s.gate.value == |s.made| - 1
          && s.made[s.gate.value] < |s.calls| && s.calls[s.made[s.gate.value]].Busy())
  }

  /** Scans begin and end by turns: 0 begins, 0 ends, 1 begins, ... */
  ghost predicate Alternating(log: seq<Event>) {
    forall k | 0 <= k < |log| :: log[k] == if k % 2 == 0 then Began(k / 2) else Ended(k / 2)
  }

  predicate Midway(s: State) {
    s.gate.Some? && s.gate.value < |s.made| && s.made[s.gate.value] < |s.calls| &&
        s.calls[s.made[s.gate.value]].Scanning?
  }

  ghost predicate LogRight(s: State) {
    Alternating(s.log) && |s.log| == 2 * |s.made| - if Midway(s) then 1 else 0
  }

  /** A joiner arrived while its scan was under way, or after it had ended and
      before the gate was cleared; it left after the scan had ended. */
  ghost predicate JoinersRight(s: State) {
    forall i | 0 <= i < |s.calls| && (s.calls[i].Waiting? || s.calls[i].Joined?) ::
      var c := s.calls[i];
      && c.ch < |s.made| && 2 * c.ch + 1 <= c.since <= 2 * c.ch + 2 && c.since <= |s.log|
      && (c.Joined? ==> c.ch in s.closings && 2 * c.ch + 2 <= c.until <= |s.log|)
  }

  ghost predicate Inv(s: State) {
    Ownership(s) && GateRight(s) && LogRight(s) && JoinersRight(s)
  }

  lemma OwnersKnown(s: State)
    requires Ownership(s)
    ensures forall i | 0 <= i < |s.calls| && (s.calls[i].Owns() || s.calls[i].Led?) ::
            s.calls[i].ch < |s.made| && s.made[s.calls[i].ch] == i
  {
    forall i | 0 <= i < |s.calls| && (s.calls[i].Owns() || s.calls[i].Led?)
      ensures s.calls[i].ch < |s.made| && s.made[s.calls[i].ch] == i
    {
      assert CallRight(s, i);
    }
  }

  lemma StepKeepsMakers(s: State, l: Label)
    requires Ownership(s) && Enabled(s, l)
    ensures MakersRight(Step(s, l))
  {
    var s' := Step(s, l);
    if l.Close? {
      assert CallRight(s, l.i);
      assert forall c :: c in s'.closings <==> c in s.closings || c == s.calls[l.i].ch;
    }
    forall ch | 0 <= ch < |s'.made|
      ensures s'.made[ch] < |s'.calls| && Holds(s'.calls[s'.made[ch]], ch, ch in s'.closings)
    {
      if ch < |s.made| {
        assert Holds(s.calls[s.made[ch]], ch, ch in s.closings);
      } else {
        assert ch !in s.closings;
      }
    }
  }

  lemma StepKeepsCalls(s: State, l: Label)
    requires Ownership(s) && Enabled(s, l)
    ensures forall i | 0 <= i < |Step(s, l).calls| :: CallRight(Step(s, l), i)
  {
    var s' := Step(s, l);
    forall i | 0 <= i < |s'.calls| ensures CallRight(s', i) {
      assert i < |s.calls| ==> CallRight(s, i);
    }
  }

  lemma StepKeepsClosings(s: State, l: Label)
    requires Ownership(s) && Enabled(s, l)
    ensures ClosingsRight(Step(s, l))
  {
    if l.Close? {
      var ch := s.calls[l.i].ch;
      assert CallRight(s, l.i);
      assert Holds(s.calls[s.made[ch]], ch, ch in s.closings);
    }
  }

  lemma StepKeepsOwnership(s: State, l: Label)
    requires Ownership(s) && Enabled(s, l)
    ensures Ownership(Step(s, l))
  {
    StepKeepsMakers(s, l);
    StepKeepsCalls(s, l);
    StepKeepsClosings(s, l);
  }

  lemma StepKeepsGate(s: State, l: Label)
    requires Ownership(s) && GateRight(s) && Enabled(s, l)
    ensures GateRight(Step(s, l))
  {
    OwnersKnown(s);
  }

  lemma StepKeepsLog(s: State, l: Label)
    requires Ownership(s) && GateRight(s) && LogRight(s) && Enabled(s, l)
    ensures LogRight(Step(s, l))
  {
    OwnersKnown(s);
  }

  lemma StepKeepsJoiners(s: State, l: Label)
    requires Inv(s) && Enabled(s, l)
    ensures JoinersRight(Step(s, l))
  {
    var s' := Step(s, l);
    assert forall ch | ch in s.closings :: ch in s'.closings;
    if l.Wake? {
      assert Holds(s.calls[s.made[s.calls[l.i].ch]], s.calls[l.i].ch, true);
    }
  }

  lemma StepKeepsInv(s: State, l: Label)
    requires Inv(s) && Enabled(s, l)
    ensures Inv(Step(s, l))
  {
    StepKeepsOwnership(s, l);
    StepKeepsGate(s, l);
    StepKeepsLog(s, l);
    StepKeepsJoiners(s, l);
  }

  lemma {:induction false} RunKeepsInv(s: State, labels: seq<Label>)
    requires Inv(s) && Runs(s, labels)
    ensures Inv(After(s, labels))
    decreases |labels|
  {
    if labels != [] {
      StepKeepsInv(s, labels[0]);
      RunKeepsInv(Step(s, labels[0]), labels[1..]);
    }
  }

  // ----- Safety of every run -----

  /** In every reachable state: scans never overlap, in the state and in the
      history; the gate is set exactly while a call is busy; no channel is
      closed twice; and whoever returned from a wait did so after its scan. */
  lemma SingleFlightAlways(labels: seq<Label>)
    requires Runs(INITIAL, labels)
    ensures var s := After(INITIAL, labels);
            && (forall i, j | 0 <= i < |s.calls| && 0 <= j < |s.calls| && s.calls[i].Busy() && s.calls[j].Busy() ::
                 i == j)
            && (s.gate.Some? <==> exists i | 0 <= i < |s.calls| :: s.calls[i].Busy())
            && Alternating(s.log)
            && (forall x, y | 0 <= x < y < |s.closings| :: s.closings[x] != s.closings[y])
            && (forall i | 0 <= i < |s.calls| && s.calls[i].Joined? ::
                 s.calls[i].until <= |s.log| && Ended(s.calls[i].ch) in s.log[..s.calls[i].until])
  {
    RunKeepsInv(INITIAL, labels);
    var s := After(INITIAL, labels);
    OwnersKnown(s);
    forall i | 0 <= i < |s.calls| && s.calls[i].Joined?
      ensures s.calls[i].until <= |s.log| && Ended(s.calls[i].ch) in s.log[..s.calls[i].until]
    {
      assert s.log[..s.calls[i].until][2 * s.calls[i].ch + 1] == Ended(s.calls[i].ch);
    }
  }

  // ----- Nobody waits for ever -----

  /** Call o alone has the channel to close, and can move towards it. */
  predicate SoleOwner(s: State, o: nat, ch: Channel)
    requires o < |s.calls|
  {
    && s.calls[o].Owns() && s.calls[o].ch == ch
    && (forall i | 0 <= i < |s.calls| && s.calls[i].Owns() && s.calls[i].ch == ch :: i == o)
    && (Enabled(s, EndScan(o)) || Enabled(s, Clear(o)) || Enabled(s, Close(o)))
  }

  /** In every reachable state a waiter's channel is closed, or exactly one call
      owns it and that call's next step is enabled. */
  lemma WaiterIsServed(labels: seq<Label>, w: nat)
    requires Runs(INITIAL, labels)
    requires w < |After(INITIAL, labels).calls| && After(INITIAL, labels).calls[w].Waiting?
    ensures var s := After(INITIAL, labels);
            var ch := s.calls[w].ch;
            || (ch in s.closings && Enabled(s, Wake(w)) && forall i | 0 <= i < |s.calls| && s.calls[i].Owns() ::
                 s.calls[i].ch != ch)
            || (ch !in s.closings && exists o :: 0 <= o < |s.calls| && SoleOwner(s, o, ch))
  {
    RunKeepsInv(INITIAL, labels);
    var s := After(INITIAL, labels);
    OwnersKnown(s);
    var o := s.made[s.calls[w].ch];
    assert Holds(s.calls[o], s.calls[w].ch, s.calls[w].ch in s.closings);
    if s.calls[w].ch !in s.closings {
      assert SoleOwner(s, o, s.calls[w].ch);
    }
  }

  /** The label is a step of call o. */
  predicate Moves(l: Label, o: nat) {
    !l.Arrive? && !l.Stop? && l.i == o
  }

  /** How often call o moves in a run. */
  function MovesOf(labels: seq<Label>, o: nat): nat
    decreases |labels|
  {
    if labels == [] then 0 else (if Moves(labels[0], o) then 1 else 0) + MovesOf(labels[1..], o)
  }

  /** Others neither help nor hinder an owner: its own moves, and only they, take
      it one step nearer to closing its channel. */
  lemma OwnerAdvances(s: State, l: Label, o: nat)
    requires o < |s.calls| && s.calls[o].Owns() && Enabled(s, l)
    ensures var c := Step(s, l).calls[o];
            && (!Moves(l, o) ==> c == s.calls[o])
            && (Moves(l, o) ==> c.StepsLeft() == s.calls[o].StepsLeft() - 1)
            && (if c.Owns() then c.ch == s.calls[o].ch else s.calls[o].ch in Step(s, l).closings)
    ensures forall ch | ch in s.closings :: ch in Step(s, l).closings
  {
  }

  lemma {:induction false} ClosedStaysClosed(s: State, labels: seq<Label>, ch: Channel)
    requires Runs(s, labels) && ch in s.closings
    ensures ch in After(s, labels).closings
    decreases |labels|
  {
    if labels != [] {
      ClosedStaysClosed(Step(s, labels[0]), labels[1..], ch);
    }
  }

  /** Whatever else happens in a run, once the owner has taken its at most three
      remaining steps the channel is closed, and every waiter on it may return. */
  lemma {:induction false} OwnerCloses(s: State, labels: seq<Label>, o: nat)
    requires Runs(s, labels) && o < |s.calls| && s.calls[o].Owns()
    requires MovesOf(labels, o) >= s.calls[o].StepsLeft()
    ensures s.calls[o].ch in After(s, labels).closings
    decreases |labels|
  {
    OwnerAdvances(s, labels[0], o);
    var s' := Step(s, labels[0]);
    if s'.calls[o].Owns() {
      OwnerCloses(s', labels[1..], o);
    } else {
      ClosedStaysClosed(s', labels[1..], s.calls[o].ch);
    }
  }

  // ----- What a caller gets -----

  /** In every reachable state an arriving caller joins if a scan is under way or
      just over, even while stopping; otherwise it is refused if the controller is
      stopping, and scans itself if not. */
  lemma EnterMeaning(labels: seq<Label>, i: nat)
    requires Runs(INITIAL, labels) && Enabled(After(INITIAL, labels), Enter(i))
    ensures var s := After(INITIAL, labels);
            var c := Step(s, Enter(i)).calls[i];
            var busy := exists j | 0 <= j < |s.calls| :: s.calls[j].Busy();
            && (c.Waiting? <==> busy)
            && (c.Refused? <==> !busy && s.stopping)
            && (c.Scanning? <==> !busy && !s.stopping)
            && (c.Waiting? ==> exists j | 0 <= j < |s.calls| :: s.calls[j].Busy() && s.calls[j].ch == c.ch)
  {
    SingleFlightAlways(labels);
    RunKeepsInv(INITIAL, labels);
    var s := After(INITIAL, labels);
    if s.gate.Some? {
      assert s.calls[s.made[s.gate.value]].Busy();
    }
  }

  // ----- Stopping -----

  /** Once the controller is stopping no run starts another scan. */
  lemma {:induction false} NoScanAfterStop(s: State, labels: seq<Label>)
    requires Runs(s, labels) && s.stopping
    ensures After(s, labels).made == s.made
    decreases |labels|
  {
    if labels != [] {
      NoScanAfterStop(Step(s, labels[0]), labels[1..]);
    }
  }

  // ----- The two windows -----

  /** Whether a joiner saw any of the scan it joined: exactly when that scan had
      not yet ended on its arrival. A caller that comes after the end and before
      the gate is cleared joins too, and returns although no scan ran meanwhile. */
  lemma JoinedScanOverlaps(labels: seq<Label>, w: nat)
    requires Runs(INITIAL, labels)
    requires w < |After(INITIAL, labels).calls| && After(INITIAL, labels).calls[w].Joined?
    ensures var s := After(INITIAL, labels);
            var c := s.calls[w];
            && c.since <= c.until <= |s.log|
            && (Ended(c.ch) in s.log[c.since..c.until] <==> Ended(c.ch) !in s.log[..c.since])
            && (Ended(c.ch) in s.log[c.since..c.until] <==> c.since % 2 == 1)
  {
    RunKeepsInv(INITIAL, labels);
    var s := After(INITIAL, labels);
    var c := s.calls[w];
    EndedWhere(s.log, c.ch, c.since, c.until);
  }

  /** Where in an alternating log a scan ended. */
  lemma EndedWhere(log: seq<Event>, ch: Channel, since: nat, until: nat)
    requires Alternating(log) && 2 * ch + 1 <= since <= 2 * ch + 2 <= until <= |log|
    ensures Ended(ch) in log[since..until] <==> since == 2 * ch + 1
    ensures Ended(ch) in log[..since] <==> since == 2 * ch + 2
  {
    var k := 2 * ch + 1;
    assert log[k] == Ended(ch);
    assert forall j | 0 <= j < |log| && log[j] == Ended(ch) :: j == k;
    if since == k {
      assert log[since..until][0] == Ended(ch);
    } else {
      assert log[..since][k] == Ended(ch);
    }
  }

  lemma RunCons(s: State, l: Label, rest: seq<Label>)
    requires Enabled(s, l) && Runs(Step(s, l), rest)
    ensures Runs(s, [l] + rest) && After(s, [l] + rest) == After(Step(s, l), rest)
  {
    assert ([l] + rest)[1..] == rest;
  }

  /** A scan is under way and somebody has joined it. */
  const JOINED := State(Some(0), [Scanning(0), Waiting(0, 1)], [0], [], [Began(0)], false)

  lemma JoinedIsReached(rest: seq<Label>)
    requires Runs(JOINED, rest)
    ensures exists labels :: Runs(INITIAL, labels) && After(INITIAL, labels) == After(JOINED, rest)
  {
    var s1 := State(None, [Arrived], [], [], [], false);
    var s2 := JOINED.(calls := [Scanning(0)]);
    var s3 := JOINED.(calls := [Scanning(0), Arrived]);
    assert Step(INITIAL, Arrive) == s1 && Step(s1, Enter(0)) == s2 && Step(s2, Arrive) == s3;
    assert Step(s3, Enter(1)) == JOINED;
    RunCons(s3, Enter(1), rest);
    var r := [Enter(1)] + rest;
    RunCons(s2, Arrive, r);
    r := [Arrive] + r;
    RunCons(s1, Enter(0), r);
    RunCons(INITIAL, Arrive, [Enter(0)] + r);
  }

  lemma NextScanStarts() returns (rest: seq<Label>)
    ensures Runs(JOINED, rest) && After(JOINED, rest).calls == [Closing(0), Waiting(0, 1), Scanning(1)]
  {
    var s5 := JOINED.(calls := [Scanned(0), Waiting(0, 1)], log := [Began(0), Ended(0)]);
    var s6 := s5.(calls := [Closing(0), Waiting(0, 1)], gate := None);
    var s7 := s6.(calls := [Closing(0), Waiting(0, 1), Arrived]);
    assert Step(JOINED, EndScan(0)) == s5 && Step(s5, Clear(0)) == s6 && Step(s6, Arrive) == s7;
    RunCons(s7, Enter(2), []);
    rest := [Enter(2)] + [];
    RunCons(s6, Arrive, rest);
    rest := [Arrive] + rest;
    RunCons(s5, Clear(0), rest);
    rest := [Clear(0)] + rest;
    RunCons(JOINED, EndScan(0), rest);
    rest := [EndScan(0)] + rest;
  }

  /** A second scan can be running while the first one's waiter still waits: the
      gate is clear, the first channel is not yet closed. */
  lemma SecondScanInTheWindow()
    ensures exists labels ::
              Runs(INITIAL, labels) && After(INITIAL, labels).calls == [Closing(0), Waiting(0, 1), Scanning(1)]
  {
    var rest := NextScanStarts();
    JoinedIsReached(rest);
  }

  /** The state in which a scan has ended and its gate is still set. */
  const ENDED := State(Some(0), [Scanned(0)], [0], [], [Began(0), Ended(0)], false)

  lemma EndedIsReached(rest: seq<Label>)
    requires Runs(ENDED, rest)
    ensures exists labels :: Runs(INITIAL, labels) && After(INITIAL, labels) == After(ENDED, rest)
  {
    var s1 := State(None, [Arrived], [], [], [], false);
    var s2 := State(Some(0), [Scanning(0)], [0], [], [Began(0)], false);
    assert Step(INITIAL, Arrive) == s1 && Step(s1, Enter(0)) == s2 && Step(s2, EndScan(0)) == ENDED;
    RunCons(s2, EndScan(0), rest);
    RunCons(s1, Enter(0), [EndScan(0)] + rest);
    RunCons(INITIAL, Arrive, [Enter(0)] + ([EndScan(0)] + rest));
  }

  lemma LateCallerReturns() returns (rest: seq<Label>)
    ensures Runs(ENDED, rest) && After(ENDED, rest).calls == [Led(0), Joined(0, 2, 2)]
  {
    var s4 := ENDED.(calls := [Scanned(0), Arrived]);
    var s5 := ENDED.(calls := [Scanned(0), Waiting(0, 2)]);
    var s6 := s5.(calls := [Closing(0), Waiting(0, 2)], gate := None);
    var s7 := s6.(calls := [Led(0), Waiting(0, 2)], closings := [0]);
    assert Step(ENDED, Arrive) == s4 && Step(s4, Enter(1)) == s5;
    assert Step(s5, Clear(0)) == s6 && Step(s6, Close(0)) == s7;
    RunCons(s7, Wake(1), []);
    rest := [Wake(1)] + [];
    RunCons(s6, Close(0), rest);
    rest := [Close(0)] + rest;
    RunCons(s5, Clear(0), rest);
    rest := [Clear(0)] + rest;
    RunCons(s4, Enter(1), rest);
    rest := [Enter(1)] + rest;
    RunCons(ENDED, Arrive, rest);
    rest := [Arrive] + rest;
  }

  /** A caller can come after the scan has ended and before the gate is cleared:
      it joins, and returns although no scan ran during its call. */
  lemma JoinsAfterTheEnd()
    ensures exists labels :: Runs(INITIAL, labels) && After(INITIAL, labels).calls == [Led(0), Joined(0, 2, 2)]
  {
    var rest := LateCallerReturns();
    EndedIsReached(rest);
  }
}

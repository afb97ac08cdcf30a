/** Accepting channel commands (ChangeChannel and ChangeSource in
    internal/controller/write.go) and what accepted commands lead to. */
module Admission {
  import opened Text
  import opened Model
  import opened Mac
  import R = Registry
  import S = Sources
  import Q = Queue
  import W = WriteProtocol

  datatype Reason = ShuttingDown | InvalidChannel | UnknownDevice | UnknownRole | UnknownSource

  /** A refusal, or a place in the queue of a device. */
  datatype Ticket = Rejected(reason: Reason) | Accepted(key: string, channel: int)

  function ChangeChannel(stopping: bool, reg: R.Inventory, raw: string, channel: int): Ticket {
    var mac := Normalize(raw);
    if stopping then Rejected(ShuttingDown)
    else if !ValidChannel(channel) then Rejected(InvalidChannel)
    else if mac !in reg then Rejected(UnknownDevice)
    else if !W.WritableRole(reg[mac].role) then Rejected(UnknownRole)
    else Accepted(reg[mac].mac, channel)
  }

  /** The registry is read three times: for the device, for the source table and
      again by ChangeChannel; it may differ each time. */
  function ChangeSource(stopping: bool, reg: R.Inventory, table: S.Table, later: R.Inventory, raw: string,
      caption: string): Ticket {
    var mac := Normalize(raw);
    if mac !in reg then Rejected(UnknownDevice)
    else if reg[mac].role != Receiver then Rejected(UnknownRole)
    else
      var source := S.ByLabel(table, caption);
      if source == None then Rejected(UnknownSource)
      else ChangeChannel(stopping, later, reg[mac].mac, source.value.channel)
  }

  /** A ticket names the device the caller meant, under its canonical MAC, and a
      channel the protocol can carry. */
  lemma AcceptedIsSendable(stopping: bool, reg: R.Inventory, raw: string, channel: int)
    requires R.WellKeyed(reg)
    ensures var t := ChangeChannel(stopping, reg, raw, channel);
            && (t.Accepted? <==>
                 !stopping && 0 <= channel <= 255 && Normalize(raw) in reg && reg[Normalize(raw)].role != Unknown)
            && (t.Accepted? ==> IsMac(t.key) && t.key == Normalize(raw) && t.channel == channel)
            && (forall raw' | Normalize(raw') == Normalize(raw) :: ChangeChannel(stopping, reg, raw', channel) == t)
  {
    NormalizeIdempotent(raw);
  }

  /** Why a channel command is refused: the first of these that applies. */
  lemma ChannelRefusals(stopping: bool, reg: R.Inventory, raw: string, channel: int)
    requires R.WellKeyed(reg)
    ensures var m, t := Normalize(raw), ChangeChannel(stopping, reg, raw, channel);
            var inRange := 0 <= channel <= 255;
            && (t == Rejected(ShuttingDown) <==> stopping)
            && (t == Rejected(InvalidChannel) <==> !stopping && !inRange)
            && (t == Rejected(UnknownDevice) <==> !stopping && inRange && m !in reg)
            && (t == Rejected(UnknownRole) <==> !stopping && inRange && m in reg && reg[m].role == Unknown)
            && t != Rejected(UnknownSource)
  {
  }

  /** The k-th entry of the table is the first with that label. */
  predicate FirstWith(table: S.Table, caption: string, k: nat) {
    k < |table| && table[k].caption == caption && forall j | 0 <= j < k :: table[j].caption != caption
  }

  lemma {:induction false} FirstWithIsFound(table: S.Table, caption: string, k: nat)
    requires FirstWith(table, caption, k)
    ensures S.ByLabel(table, caption) == Some(table[k])
  {
    if k > 0 {
      assert forall j | 0 <= j < k - 1 :: table[1..][j] == table[j + 1];
      FirstWithIsFound(table[1..], caption, k - 1);
    }
  }

  lemma {:induction false} SomeFirst(table: S.Table, caption: string) returns (k: nat)
    requires exists i | 0 <= i < |table| :: table[i].caption == caption
    ensures FirstWith(table, caption, k)
  {
    if table[0].caption == caption {
      k := 0;
    } else {
      assert forall i | 0 <= i < |table| - 1 :: table[1..][i] == table[i + 1];
      var i :| 0 <= i < |table| && table[i].caption == caption;
      assert table[1..][i - 1].caption == caption;
      k := SomeFirst(table[1..], caption);
      k := k + 1;
    }
  }

  /** A receiver asked for a label the table has: the first entry with that label
      decides the channel, and the device is looked up again. */
  lemma ListedSourceVerdict(stopping: bool, reg: R.Inventory, table: S.Table, later: R.Inventory, raw: string,
                            caption: string, k: nat)
    requires R.WellKeyed(reg) && R.WellKeyed(later) && FirstWith(table, caption, k)
    requires Normalize(raw) in reg && reg[Normalize(raw)].role == Receiver
    ensures var m, c := Normalize(raw), table[k].channel;
            var t := ChangeSource(stopping, reg, table, later, raw, caption);
            && (t == Accepted(m, c) <==>
                 !stopping && 0 <= c <= 255 && m in later && later[m].role != Unknown)
            && (t.Accepted? ==> t == Accepted(m, c) && IsMac(m))
            && (t == Rejected(ShuttingDown) <==> stopping)
            && (t == Rejected(InvalidChannel) <==> !stopping && !(0 <= c <= 255))
            && (t == Rejected(UnknownDevice) <==> !stopping && 0 <= c <= 255 && m !in later)
            && (t == Rejected(UnknownRole) <==> !stopping && 0 <= c <= 255 && m in later && later[m].role == Unknown)
  {
    FirstWithIsFound(table, caption, k);
    NormalizeIdempotent(raw);
  }

  /** Refusals that need no second look. */
  lemma SourceRefusals(stopping: bool, reg: R.Inventory, table: S.Table, later: R.Inventory, raw: string,
      caption: string)
    ensures var m, t := Normalize(raw), ChangeSource(stopping, reg, table, later, raw, caption);
            && (m !in reg ==> t == Rejected(UnknownDevice))
            && (m in reg && reg[m].role != Receiver ==> t == Rejected(UnknownRole))
            && (m in reg && reg[m].role == Receiver && (forall i | 0 <= i < |table| :: table[i].caption != caption) ==>
                  t == Rejected(UnknownSource))
  {
    S.ByLabelMeaning(table, caption);
  }

  /** When a source command is accepted, exactly: the controller is running, the
      device is a known receiver, some entry has the label and the first that has
      it is on a channel in range, and the device is still known with a role. It is
      then queued under its canonical MAC for that entry's channel. */
  lemma SourceAcceptedExactly(stopping: bool, reg: R.Inventory, table: S.Table, later: R.Inventory, raw: string,
                              caption: string)
    requires R.WellKeyed(reg) && R.WellKeyed(later)
    ensures var m, t := Normalize(raw), ChangeSource(stopping, reg, table, later, raw, caption);
            && (t.Accepted? <==>
                 && !stopping && m in reg && reg[m].role == Receiver && m in later && later[m].role != Unknown
                 && exists k: nat :: FirstWith(table, caption, k) && 0 <= table[k].channel <= 255)
            && (t.Accepted? ==>
                  IsMac(m) && t.key == m && forall k: nat | FirstWith(table, caption, k) ::
                      t.channel == table[k].channel)
  {
    var m, t := Normalize(raw), ChangeSource(stopping, reg, table, later, raw, caption);
    SourceRefusals(stopping, reg, table, later, raw, caption);
    if m in reg && reg[m].role == Receiver && exists i | 0 <= i < |table| :: table[i].caption == caption {
      var k := SomeFirst(table, caption);
      ListedSourceVerdict(stopping, reg, table, later, raw, caption, k);
      assert forall j: nat | FirstWith(table, caption, j) :: j == k;
    }
  }

  /** What a receiver shows can be asked for: with unambiguous labels, naming the
      label shown for a carried channel is accepted for exactly that channel. */
  lemma ShownSourceIsAccepted(reg: R.Inventory, raw: string, channel: int)
    requires R.WellKeyed(reg) && S.Unambiguous(S.CatalogueOf(reg))
    requires Normalize(raw) in reg && reg[Normalize(raw)].role == Receiver
    requires exists m | m in S.CatalogueOf(reg) :: S.CatalogueOf(reg)[m].channel == channel
    ensures var table := S.TableNow(reg);
            var t := ChangeSource(false, reg, table, reg, raw, S.ForChannel(table, Some(channel)));
            t == if ValidChannel(channel) then Accepted(Normalize(raw), channel) else Rejected(InvalidChannel)
  {
    S.ShownSourceSelectsItsChannel(S.CatalogueOf(reg), channel);
    NormalizeIdempotent(raw);
  }

  /** A label that no transmitter carries is refused, before anything is queued. */
  lemma UnlistedSourceIsRefused(stopping: bool, reg: R.Inventory, later: R.Inventory, raw: string, caption: string)
    ensures var cat := S.CatalogueOf(reg);
            (forall m | m in cat :: S.Label(cat, m) != caption) ==>
              ChangeSource(stopping, reg, S.TableNow(reg), later, raw, caption).Rejected?
  {
    var cat := S.CatalogueOf(reg);
    S.TableEntries(cat);
    S.ByLabelMeaning(S.TableOf(cat), caption);
  }

  // ----- Commands, jobs and everything else together -----

  datatype Whole = Whole(st: R.State, queue: Q.State)

  const START := Whole(R.State(map[], []), Q.INITIAL)

  /** One step of the controller. A job's function begins with the environment it
      is going to meet: a script of answers and of what others do meanwhile. That
      script is arbitrary, so it may be the one that comes to pass. */
  datatype Move =
    | Ask(stopping: bool, raw: string, channel: int)
    | AskSource(stopping: bool, reg: R.Inventory, table: S.Table, raw: string, caption: string)
    | Begin(i: nat, script: seq<W.Moment>, attempts: nat)
    | Work(l: Q.Label)    // any other step of a queued job
    | Other(op: R.Op)     // a registry step of a scan, a poll, a rename or a job
    | Sweep               // publishing

  function Writes(sends: seq<W.Send>): (r: seq<Q.Write>)
    ensures |r| == |sends| && forall k | 0 <= k < |r| :: r[k] == Q.Write(sends[k].mac, sends[k].channel)
  {
    seq(|sends|, k requires 0 <= k < |sends| => Q.Write(sends[k].mac, sends[k].channel))
  }

  /** What changeChannel sends for the job in that environment. */
  ghost function Body(st: R.State, job: Q.Job, script: seq<W.Moment>, attempts: nat): seq<Q.Write> {
    Writes(W.ChangeChannel(W.World(st, script, [], 0), job.key, job.channel, attempts).0.sends)
  }

  function TicketFor(w: Whole, m: Move): Ticket
    requires m.Ask? || m.AskSource?
  {
    match m
    case Ask(stopping, raw, channel) => ChangeChannel(stopping, w.st.reg, raw, channel)
    case AskSource(stopping, reg, table, raw, caption) => ChangeSource(stopping, reg, table, w.st.reg, raw, caption)
  }

  /** What the move does to the queue, if anything. */
  ghost function LabelOf(w: Whole, m: Move): Option<Q.Label> {
    match m
    case Begin(i, script, attempts) =>
      if i < |w.queue.jobs| then Some(Q.Begin(i, Body(w.st, w.queue.jobs[i], script, attempts))) else None
    case Work(l) => Some(l)
    case Other(_) => None
    case Sweep => None
    case _ => var t := TicketFor(w, m); if t.Accepted? then Some(Q.Enqueue(t.key, t.channel)) else None
  }

  ghost predicate Enabled(w: Whole, m: Move) {
    && (m.Begin? ==> m.i < |w.queue.jobs| && W.SeemlyScript(m.script))
    && (m.Work? ==> !m.l.Enqueue? && !m.l.Begin?)
    && (m.Other? ==> W.Seemly(m.op))
    && (LabelOf(w, m).Some? ==> Q.Enabled(w.queue, LabelOf(w, m).value))
  }

  ghost function Step(w: Whole, m: Move): Whole
    requires Enabled(w, m)
  {
    var l := LabelOf(w, m);
    Whole(if m.Other? then R.Apply(w.st, m.op) else w.st, if l.Some? then Q.Step(w.queue, l.value) else w.queue)
  }

  ghost predicate Runs(w: Whole, moves: seq<Move>)
    decreases |moves|
  {
    moves != [] ==> Enabled(w, moves[0]) && Runs(Step(w, moves[0]), moves[1..])
  }

  ghost function After(w: Whole, moves: seq<Move>): Whole
    requires Runs(w, moves)
    decreases |moves|
  {
    if moves == [] then w else After(Step(w, moves[0]), moves[1..])
  }

  /** The channels accepted for a device, from the commands alone. */
  ghost function Granted(w: Whole, moves: seq<Move>, mac: string): seq<int>
    requires Runs(w, moves)
    decreases |moves|
  {
    if moves == [] then [] else Grant(w, moves[0], mac) + Granted(Step(w, moves[0]), moves[1..], mac)
  }

  function Grant(w: Whole, m: Move, mac: string): seq<int> {
    if m.Ask? || m.AskSource? then
      var t := TicketFor(w, m); if t.Accepted? && t.key == mac then [t.channel] else []
    else []
  }

  // ----- The body of a job -----

  /** At most one more send than before, of this channel to this device. */
  predicate OneMore(before: seq<W.Send>, after: seq<W.Send>, mac: string, channel: int) {
    after == before || (|after| == |before| + 1 && after[|before|].mac == mac && after[|before|].channel == channel)
  }

  lemma CallSendsOneMore(w: W.World, mac: string, channel: int, attempts: nat)
    requires W.Good(w)
    ensures OneMore(w.sends, W.ChangeChannel(w, mac, channel, attempts).0.sends, mac, channel)
  {
    W.AtMostOneSend(w, mac, channel, attempts);
  }

  lemma OneMoreIsOwn(sends: seq<W.Send>, job: Q.Job)
    requires OneMore([], sends, job.key, job.channel)
    ensures Q.Own(job, Writes(sends))
  {
  }

  /** Against every environment changeChannel sends nothing, or once, its own
      channel to its own device: what the queue's functions are asked to be. */
  lemma BodyIsOwn(st: R.State, job: Q.Job, script: seq<W.Moment>, attempts: nat)
    requires W.Sound(st) && W.SeemlyScript(script)
    ensures Q.Own(job, Body(st, job, script, attempts))
  {
    var w := W.World(st, script, [], 0);
    CallSendsOneMore(w, job.key, job.channel, attempts);
    OneMoreIsOwn(W.ChangeChannel(w, job.key, job.channel, attempts).0.sends, job);
  }

  // ----- Every run -----

  ghost predicate Inv(w: Whole) {
    W.Sound(w.st) && Q.Inv(w.queue) && Q.LogRight(w.queue) && Q.SendsRight(w.queue)
  }

  lemma MoveKeepsQueue(w: Whole, m: Move)
    requires Inv(w) && Enabled(w, m)
    ensures var q := Step(w, m).queue; Q.Inv(q) && Q.LogRight(q) && Q.SendsRight(q)
  {
    var l := LabelOf(w, m);
    if l.Some? {
      if m.Begin? {
        BodyIsOwn(w.st, w.queue.jobs[m.i], m.script, m.attempts);
      }
      Q.StepKeepsAll(w.queue, l.value);
    }
  }

  lemma MoveKeepsInv(w: Whole, m: Move)
    requires Inv(w) && Enabled(w, m)
    ensures Inv(Step(w, m))
  {
    MoveKeepsQueue(w, m);
    if m.Other? {
      W.ApplySound(w.st, m.op);
    }
  }

  lemma {:induction false} RunKeepsInv(w: Whole, moves: seq<Move>)
    requires Inv(w) && Runs(w, moves)
    ensures Inv(After(w, moves))
    decreases |moves|
  {
    if moves != [] {
      MoveKeepsInv(w, moves[0]);
      RunKeepsInv(Step(w, moves[0]), moves[1..]);
    }
  }

  lemma {:induction false} AcceptedPrefix(jobs: seq<Q.Job>, more: seq<Q.Job>, mac: string, n: nat)
    requires n <= |jobs| <= |more|
    requires forall i | 0 <= i < n :: more[i].key == jobs[i].key && more[i].channel == jobs[i].channel
    ensures Q.AcceptedFor(jobs, mac, n) == Q.AcceptedFor(more, mac, n)
  {
    if n > 0 {
      AcceptedPrefix(jobs, more, mac, n - 1);
    }
  }

  /** One step of the queue adds a job for an Enqueue and changes no other job's
      key or channel. */
  lemma StepAccepts(s: Q.State, l: Q.Label, mac: string)
    requires Q.Enabled(s, l)
    ensures var s' := Q.Step(s, l);
            Q.AcceptedFor(s'.jobs, mac, |s'.jobs|) ==
            Q.AcceptedFor(s.jobs, mac, |s.jobs|) + if l.Enqueue? && l.key == mac then [l.channel] else []
  {
    AcceptedPrefix(s.jobs, Q.Step(s, l).jobs, mac, |s.jobs|);
  }

  /** The requests of a device in the queue, oldest first, finished or not. */
  function Held(q: Q.State, mac: string): seq<int> {
    Q.AcceptedFor(q.jobs, mac, |q.jobs|)
  }

  lemma Associate(a: seq<int>, b: seq<int>, c: seq<int>)
    ensures a + b + c == a + (b + c)
  {
  }

  lemma MoveAccepts(w: Whole, m: Move, mac: string)
    requires Enabled(w, m)
    ensures Held(Step(w, m).queue, mac) == Held(w.queue, mac) + Grant(w, m, mac)
  {
    var l := LabelOf(w, m);
    if l.Some? {
      StepAccepts(w.queue, l.value, mac);
    }
  }

  /** The queue holds exactly the granted commands of each device, in order. */
  lemma {:induction false} QueueHoldsGranted(w: Whole, moves: seq<Move>, mac: string)
    requires Runs(w, moves)
    ensures Held(After(w, moves).queue, mac) == Held(w.queue, mac) + Granted(w, moves, mac)
    decreases |moves|
  {
    if moves != [] {
      var w' := Step(w, moves[0]);
      MoveAccepts(w, moves[0], mac);
      QueueHoldsGranted(w', moves[1..], mac);
      Associate(Held(w.queue, mac), Grant(w, moves[0], mac), Granted(w', moves[1..], mac));
    }
  }

  lemma QueueRight(moves: seq<Move>)
    requires Runs(START, moves)
    ensures Q.SendsRight(After(START, moves).queue) && Q.Valid(After(START, moves).queue)
  {
    RunKeepsInv(START, moves);
  }

  /** End to end, over every run of commands, jobs, scans, polls, renames and
      sweeps from the start: what a device is sent is a subsequence of the commands
      granted for it, in the order they were granted, at most once for each, with
      every value in range. */
  lemma SendsFollowCommands(moves: seq<Move>, mac: string)
    requires Runs(START, moves)
    ensures var log := After(START, moves).queue.log;
            && Q.AtMostOnce(log)
            && Q.Subsequence(Q.SentTo(log, mac), Granted(START, moves, mac))
            && forall c | c in Q.SentTo(log, mac) :: 0 <= c <= 255
  {
    QueueRight(moves);
    Q.SendsAreAccepted(After(START, moves).queue, mac);
    QueueHoldsGranted(START, moves, mac);
    assert Held(START.queue, mac) == [];
    assert Held(After(START, moves).queue, mac) == Granted(START, moves, mac);
  }

  /** Scans, polls, renames and sweeps, however many, send nothing. */
  lemma {:induction false} OthersSendNothing(w: Whole, moves: seq<Move>)
    requires Runs(w, moves) && forall k | 0 <= k < |moves| :: moves[k].Other? || moves[k].Sweep?
    ensures After(w, moves).queue == w.queue
    decreases |moves|
  {
    if moves != [] {
      OthersSendNothing(Step(w, moves[0]), moves[1..]);
    }
  }
}

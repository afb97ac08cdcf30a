/** The keyed queue (internal/controller/queue.go) with the channel writes that
    run on it, as a labelled transition system. A job's done channel is its
    number. Every label is one atomic stretch of one goroutine, and any enabled
    label may come next. What a job's function sends is up to the function: the
    queue takes any list of writes. */
module Queue {
  import opened Text
  import opened Model

  /** The goroutine of a job: waiting for the previous done channel, in fn, back
      from fn, done closed, past the tail clean-up, past wg.Done. */
  datatype Phase = Waiting | Running | Finished | Closed | Unlinked | Gone

  /** One SetChannel request. */
  datatype Write = Write(mac: string, channel: int)

  /** pending is what the running function has yet to send. */
  datatype Job = Job(key: string, channel: int, prev: Option<nat>, phase: Phase, pending: seq<Write>) {
    /** The job's done channel is closed. */
    predicate Over() { phase == Closed || phase == Unlinked || phase == Gone }
    predicate Started() { phase != Waiting }
    /** The steps the queue still takes the job through. */
    function Left(): nat {
      match phase
      case Waiting => 5
      case Running => 4
      case Finished => 3
      case Closed => 2
      case Unlinked => 1
      case Gone => 0
    }
  }

  datatype Event = Began(i: nat) | Sent(i: nat, write: Write) | Ended(i: nat)

  datatype State = State(jobs: seq<Job>, tails: map<string, nat>, wg: nat, log: seq<Event>)

  const INITIAL := State([], map[], 0, [])

  datatype Label =
    | Enqueue(key: string, channel: int)
    | Begin(i: nat, body: seq<Write>)  // <-prev, or there was none; fn may send these
    | Send(i: nat)                     // SetChannel, inside fn
    | End(i: nat)                      // fn returns
    | Close(i: nat)                    // close(done)
    | Unlink(i: nat)                   // delete the tail if it is still this job's
    | Leave(i: nat)                    // wg.Done

  predicate Enabled(s: State, l: Label) {
    match l
    case Enqueue(_, channel) => ValidChannel(channel)
    case Begin(i, _) => i < |s.jobs| && s.jobs[i].phase == Waiting && Ready(s.jobs, i)
    case Send(i) => i < |s.jobs| && s.jobs[i].phase == Running && s.jobs[i].pending != []
    case End(i) => i < |s.jobs| && s.jobs[i].phase == Running
    case Close(i) => i < |s.jobs| && s.jobs[i].phase == Finished
    case Unlink(i) => i < |s.jobs| && s.jobs[i].phase == Closed
    case Leave(i) => i < |s.jobs| && s.jobs[i].phase == Unlinked && s.wg > 0
  }

  predicate Ready(jobs: seq<Job>, i: nat)
    requires i < |jobs|
  {
    jobs[i].prev.Some? ==> jobs[i].prev.value < |jobs| && jobs[jobs[i].prev.value].Over()
  }

  function Moved(s: State, i: nat, phase: Phase): State
    requires i < |s.jobs|
  {
    s.(jobs := s.jobs[i := s.jobs[i].(phase := phase)])
  }

  function Step(s: State, l: Label): State
    requires Enabled(s, l)
  {
    match l
    case Enqueue(key, channel) =>
      var prev := if key in s.tails then Some(s.tails[key]) else None;
      s.(jobs := s.jobs + [Job(key, channel, prev, Waiting, [])], tails := s.tails[key := |s.jobs|], wg := s.wg + 1)
    case Begin(i, body) =>
      s.(jobs := s.jobs[i := s.jobs[i].(phase := Running, pending := body)], log := s.log + [Began(i)])
    case Send(i) =>
      var pending := s.jobs[i].pending;
      s.(jobs := s.jobs[i := s.jobs[i].(pending := pending[1..])], log := s.log + [Sent(i, pending[0])])
    case End(i) => Moved(s, i, Finished).(log := s.log + [Ended(i)])
    case Close(i) => Moved(s, i, Closed)
    case Unlink(i) =>
      var key := s.jobs[i].key;
      Moved(s, i, Unlinked).(tails := if key in s.tails && s.tails[key] == i then s.tails - {key} else s.tails)
    case Leave(i) => Moved(s, i, Gone).(wg := s.wg - 1)
  }

  predicate Runs(s: State, labels: seq<Label>)
    decreases |labels|
  {
    labels != [] ==> Enabled(s, labels[0]) && Runs(Step(s, labels[0]), labels[1..])
  }

  function After(s: State, labels: seq<Label>): State
    requires Runs(s, labels)
    decreases |labels|
  {
    if labels == [] then s else After(Step(s, labels[0]), labels[1..])
  }

  // ----- The invariant -----

  /** A job was linked to the job of its key just before it, or found no tail and
      then every earlier job of its key is over. */
  predicate Linked(jobs: seq<Job>, i: nat)
    requires i < |jobs|
  {
    match jobs[i].prev
    case Some(p) => p < i && jobs[p].key == jobs[i].key && forall j | p < j < i :: jobs[j].key != jobs[i].key
    case None => forall j | 0 <= j < i && jobs[j].key == jobs[i].key :: jobs[j].Over()
  }

  predicate Chained(jobs: seq<Job>) {
    forall i | 0 <= i < |jobs| :: Linked(jobs, i)
  }

  /** A job has started only if every earlier job of its key is over. */
  predicate InOrder(jobs: seq<Job>) {
    forall i, j | 0 <= j < i < |jobs| && jobs[j].key == jobs[i].key && jobs[i].Started() :: jobs[j].Over()
  }

  predicate IsTail(jobs: seq<Job>, key: string, t: nat) {
    && t < |jobs| && jobs[t].key == key && jobs[t].phase != Unlinked && jobs[t].phase != Gone
    && forall i | t < i < |jobs| :: jobs[i].key != key
  }

  /** A tail is the last job of its key, not yet cleaned up; a key without a tail
      has only jobs that are over. */
  predicate TailsRight(jobs: seq<Job>, tails: map<string, nat>) {
    && (forall k | k in tails :: IsTail(jobs, k, tails[k]))
    && (forall i | 0 <= i < |jobs| && jobs[i].key !in tails :: jobs[i].Over())
  }

  /** How many goroutines are still counted by the wait group. */
  function Live(jobs: seq<Job>): nat
    decreases |jobs|
  {
    if jobs == [] then 0 else Live(jobs[..|jobs| - 1]) + if jobs[|jobs| - 1].phase == Gone then 0 else 1
  }

  ghost predicate Inv(s: State) {
    Chained(s.jobs) && InOrder(s.jobs) && TailsRight(s.jobs, s.tails) && s.wg == Live(s.jobs)
  }

  lemma StepKeepsChain(s: State, l: Label)
    requires Chained(s.jobs) && TailsRight(s.jobs, s.tails) && Enabled(s, l)
    ensures Chained(Step(s, l).jobs)
  {
    var jobs' := Step(s, l).jobs;
    forall i | 0 <= i < |jobs'| ensures Linked(jobs', i) {
      if i < |s.jobs| {
        assert Linked(s.jobs, i);
        assert forall j | 0 <= j <= i :: jobs'[j].key == s.jobs[j].key && (s.jobs[j].Over() ==> jobs'[j].Over());
      }
    }
  }

  lemma StepKeepsOrder(s: State, l: Label)
    requires Chained(s.jobs) && InOrder(s.jobs) && Enabled(s, l)
    ensures InOrder(Step(s, l).jobs)
  {
    var jobs' := Step(s, l).jobs;
    assert forall j | 0 <= j < |s.jobs| :: jobs'[j].key == s.jobs[j].key && (s.jobs[j].Over() ==> jobs'[j].Over());
    if l.Begin? {
      assert Linked(s.jobs, l.i);
    }
  }

  lemma TailsStay(s: State, l: Label, k: string)
    requires TailsRight(s.jobs, s.tails) && Enabled(s, l) && k in Step(s, l).tails
    ensures IsTail(Step(s, l).jobs, k, Step(s, l).tails[k])
  {
    if !(l.Enqueue? && l.key == k) {
      assert IsTail(s.jobs, k, s.tails[k]);
    }
  }

  lemma TaillessIsOver(s: State, l: Label, i: nat)
    requires InOrder(s.jobs) && TailsRight(s.jobs, s.tails) && Enabled(s, l)
    requires i < |Step(s, l).jobs| && Step(s, l).jobs[i].key !in Step(s, l).tails
    ensures Step(s, l).jobs[i].Over()
  {
    if s.jobs[i].key in s.tails {
      assert IsTail(s.jobs, s.jobs[i].key, l.i);
    }
  }

  lemma StepKeepsTails(s: State, l: Label)
    requires InOrder(s.jobs) && TailsRight(s.jobs, s.tails) && Enabled(s, l)
    ensures TailsRight(Step(s, l).jobs, Step(s, l).tails)
  {
    var s' := Step(s, l);
    forall k | k in s'.tails ensures IsTail(s'.jobs, k, s'.tails[k]) {
      TailsStay(s, l, k);
    }
    forall i | 0 <= i < |s'.jobs| && s'.jobs[i].key !in s'.tails ensures s'.jobs[i].Over() {
      TaillessIsOver(s, l, i);
    }
  }

  lemma {:induction false} LiveUpdate(jobs: seq<Job>, i: nat, job: Job)
    requires i < |jobs|
    ensures Live(jobs[i := job]) == Live(jobs) +
            (if job.phase == Gone then 0 else 1) - (if jobs[i].phase == Gone then 0 else 1)
    decreases |jobs|
  {
    var n := |jobs| - 1;
    if i == n {
      assert jobs[i := job][..n] == jobs[..n];
    } else {
      assert jobs[i := job][..n] == jobs[..n][i := job];
      LiveUpdate(jobs[..n], i, job);
    }
  }

  lemma StepKeepsLive(s: State, l: Label)
    requires s.wg == Live(s.jobs) && Enabled(s, l)
    ensures Step(s, l).wg == Live(Step(s, l).jobs)
  {
    if l.Enqueue? {
      assert Step(s, l).jobs[..|s.jobs|] == s.jobs;
    } else {
      var job := StepChangesOne(s, l);
      LiveUpdate(s.jobs, l.i, job);
    }
  }

  /** A step of a job changes that job only; the last one leaves the wait group. */
  lemma StepChangesOne(s: State, l: Label) returns (job: Job)
    requires Enabled(s, l) && !l.Enqueue?
    ensures Step(s, l).jobs == s.jobs[l.i := job] && s.jobs[l.i].phase != Gone
    ensures job.phase == Gone <==> l.Leave?
    ensures Step(s, l).wg == if l.Leave? then s.wg - 1 else s.wg
  {
    job := Step(s, l).jobs[l.i];
  }

  lemma StepKeepsInv(s: State, l: Label)
    requires Inv(s) && Enabled(s, l)
    ensures Inv(Step(s, l))
  {
    StepKeepsChain(s, l);
    StepKeepsOrder(s, l);
    StepKeepsTails(s, l);
    StepKeepsLive(s, l);
  }

  // ----- The history -----

  /** Every job of the same key before job i has ended. */
  predicate Preceded(jobs: seq<Job>, log: seq<Event>, i: nat) {
    i < |jobs| && forall j | 0 <= j < i && jobs[j].key == jobs[i].key :: Ended(j) in log
  }

  predicate Within(log: seq<Event>, jobs: seq<Job>) {
    forall y | 0 <= y < |log| :: log[y].i < |jobs|
  }

  /** The log tells the phases. */
  predicate Logged(s: State) {
    && Within(s.log, s.jobs)
    && (forall y | 0 <= y < |s.log| :: s.jobs[s.log[y].i].Started())
    && (forall i | 0 <= i < |s.jobs| && (s.jobs[i].phase == Finished || s.jobs[i].Over()) :: Ended(i) in s.log)
  }

  /** A job begins only after every earlier job of its key has ended. */
  predicate Sequential(s: State) {
    forall y | 0 <= y < |s.log| && s.log[y].Began? :: Preceded(s.jobs, s.log[..y], s.log[y].i)
  }

  predicate Valid(s: State) {
    forall i | 0 <= i < |s.jobs| :: ValidChannel(s.jobs[i].channel)
  }

  predicate LogRight(s: State) {
    Logged(s) && Sequential(s) && Valid(s)
  }

  lemma StepKeepsLogged(s: State, l: Label)
    requires Logged(s) && Enabled(s, l)
    ensures Logged(Step(s, l))
  {
    var s' := Step(s, l);
    forall i | 0 <= i < |s'.jobs| && (s'.jobs[i].phase == Finished || s'.jobs[i].Over()) ensures Ended(i) in s'.log {
      assert Ended(i) in s.log || (l == End(i) && s'.log[|s.log|] == Ended(i));
    }
  }

  lemma StepKeepsSequential(s: State, l: Label)
    requires Chained(s.jobs) && InOrder(s.jobs) && Logged(s) && Sequential(s) && Enabled(s, l)
    ensures Sequential(Step(s, l))
  {
    StepKeepsOrder(s, l);
    var s' := Step(s, l);
    assert forall j | 0 <= j < |s.jobs| :: s'.jobs[j].key == s.jobs[j].key;
    forall y | 0 <= y < |s'.log| && s'.log[y].Began? ensures Preceded(s'.jobs, s'.log[..y], s'.log[y].i) {
      if y < |s.log| {
        assert s'.log[..y] == s.log[..y];
        assert Preceded(s.jobs, s.log[..y], s.log[y].i);
      } else {
        assert s'.log[..y] == s.log;
        assert forall j | 0 <= j < l.i && s.jobs[j].key == s.jobs[l.i].key ::
            s'.jobs[j].Over() && s'.jobs[j] == s.jobs[j];
      }
    }
  }

  lemma StepKeepsLog(s: State, l: Label)
    requires Inv(s) && LogRight(s) && Enabled(s, l)
    ensures LogRight(Step(s, l))
  {
    StepKeepsLogged(s, l);
    StepKeepsSequential(s, l);
  }

  lemma {:induction false} RunKeeps(s: State, labels: seq<Label>)
    requires Inv(s) && LogRight(s) && Runs(s, labels)
    ensures Inv(After(s, labels)) && LogRight(After(s, labels))
    decreases |labels|
  {
    if labels != [] {
      StepKeepsInv(s, labels[0]);
      StepKeepsLog(s, labels[0]);
      RunKeeps(Step(s, labels[0]), labels[1..]);
    }
  }

  // ----- Safety of every run -----

  /** Per key, jobs start in the order of enqueuing and never overlap, in every
      reachable state and in the history that led to it. */
  lemma FifoAlways(labels: seq<Label>)
    requires Runs(INITIAL, labels)
    ensures var s := After(INITIAL, labels);
            && (forall i, j | 0 <= j < i < |s.jobs| && s.jobs[j].key == s.jobs[i].key && s.jobs[i].Started() ::
                 s.jobs[j].Over())
            && (forall i, j | 0 <= i < |s.jobs| && 0 <= j < |s.jobs| && s.jobs[i].key == s.jobs[j].key
                  && s.jobs[i].phase == Running && s.jobs[j].phase == Running :: i == j)
            && (forall y | 0 <= y < |s.log| && s.log[y].Began? :: Preceded(s.jobs, s.log[..y], s.log[y].i))
  {
    RunKeeps(INITIAL, labels);
    OneAtATime(After(INITIAL, labels).jobs);
  }

  lemma OneAtATime(jobs: seq<Job>)
    requires InOrder(jobs)
    ensures forall i, j | 0 <= i < |jobs| && 0 <= j < |jobs| && jobs[i].key == jobs[j].key
              && jobs[i].phase == Running && jobs[j].phase == Running :: i == j
  {
  }

  /** No tail means nothing of that key is outstanding, although the deletion
      comes after the close; and when the wait group is at zero the map is empty. */
  lemma AbsentTailMeansIdle(labels: seq<Label>, key: string)
    requires Runs(INITIAL, labels)
    ensures var s := After(INITIAL, labels);
            && (key !in s.tails ==> forall i | 0 <= i < |s.jobs| && s.jobs[i].key == key :: s.jobs[i].Over())
            && (s.wg == 0 ==> s.tails == map[] && forall i | 0 <= i < |s.jobs| :: s.jobs[i].phase == Gone)
  {
    RunKeeps(INITIAL, labels);
    var s := After(INITIAL, labels);
    if s.wg == 0 {
      NoneLive(s.jobs);
      assert forall k :: k !in s.tails;
    }
  }

  lemma {:induction false} NoneLive(jobs: seq<Job>)
    requires Live(jobs) == 0
    ensures forall i | 0 <= i < |jobs| :: jobs[i].phase == Gone
    decreases |jobs|
  {
    if jobs != [] {
      NoneLive(jobs[..|jobs| - 1]);
      assert forall i | 0 <= i < |jobs| - 1 :: jobs[i] == jobs[..|jobs| - 1][i];
    }
  }

  // ----- Progress -----

  function KeyOf(s: State, l: Label): Option<string> {
    if l.Enqueue? then Some(l.key) else if l.i < |s.jobs| then Some(s.jobs[l.i].key) else None
  }

  /** A bound on the steps the jobs of a key can still take. */
  function Work(jobs: seq<Job>, key: string): nat
    decreases |jobs|
  {
    if jobs == [] then 0
    else Work(jobs[..|jobs| - 1], key) + if jobs[|jobs| - 1].key == key then jobs[|jobs| - 1].Left() else 0
  }

  lemma {:induction false} WorkUpdate(jobs: seq<Job>, i: nat, job: Job, key: string)
    requires i < |jobs| && jobs[i].key == job.key
    ensures Work(jobs[i := job], key) == Work(jobs, key) + if job.key == key then job.Left() - jobs[i].Left() else 0
    decreases |jobs|
  {
    var n := |jobs| - 1;
    if i == n {
      assert jobs[i := job][..n] == jobs[..n];
    } else {
      assert jobs[i := job][..n] == jobs[..n][i := job];
      WorkUpdate(jobs[..n], i, job, key);
    }
  }

  /** Among some outstanding jobs of the key, the first. */
  lemma {:induction false} FirstOutstanding(jobs: seq<Job>, key: string) returns (i: nat)
    requires Work(jobs, key) > 0
    ensures i < |jobs| && jobs[i].key == key && jobs[i].phase != Gone
    ensures forall j | 0 <= j < i && jobs[j].key == key :: jobs[j].phase == Gone
    decreases |jobs|
  {
    var n := |jobs| - 1;
    if Work(jobs[..n], key) > 0 {
      i := FirstOutstanding(jobs[..n], key);
    } else {
      i := n;
      NoWork(jobs[..n], key);
      assert forall j | 0 <= j < n :: jobs[j] == jobs[..n][j];
    }
  }

  lemma {:induction false} NoWork(jobs: seq<Job>, key: string)
    requires Work(jobs, key) == 0
    ensures forall i | 0 <= i < |jobs| && jobs[i].key == key :: jobs[i].phase == Gone
    decreases |jobs|
  {
    if jobs != [] {
      NoWork(jobs[..|jobs| - 1], key);
      assert forall i | 0 <= i < |jobs| - 1 :: jobs[i] == jobs[..|jobs| - 1][i];
    }
  }

  /** A key with an unfinished job has an enabled step of its own. */
  lemma KeyCanMove(s: State, key: string) returns (l: Label)
    requires Inv(s) && Work(s.jobs, key) > 0
    ensures Enabled(s, l) && !l.Enqueue? && !l.Send? && KeyOf(s, l) == Some(key)
  {
    var i := FirstOutstanding(s.jobs, key);
    assert Linked(s.jobs, i);
    LiveUpdate(s.jobs, i, s.jobs[i].(phase := Gone));
    l := match s.jobs[i].phase
         case Waiting => Begin(i, [])
         case Running => End(i)
         case Finished => Close(i)
         case Closed => Unlink(i)
         case _ => Leave(i);
  }

  /** Steps of other keys do not touch a key: neither its jobs nor its tail. */
  lemma OtherKeysDoNotMatter(s: State, l: Label, key: string)
    requires Inv(s) && Enabled(s, l) && KeyOf(s, l) != Some(key)
    ensures var s' := Step(s, l);
            && (forall i | 0 <= i < |s.jobs| && s.jobs[i].key == key :: s'.jobs[i] == s.jobs[i])
            && (key in s.tails <==> key in s'.tails) && (key in s.tails ==> s'.tails[key] == s.tails[key])
            && Work(s'.jobs, key) == Work(s.jobs, key)
  {
    var s' := Step(s, l);
    if l.Enqueue? {
      assert s'.jobs[..|s.jobs|] == s.jobs;
    } else {
      WorkUpdate(s.jobs, l.i, s'.jobs[l.i], key);
    }
  }

  /** So they never disable a step of it. */
  lemma OtherKeysDoNotDisable(s: State, l: Label, m: Label)
    requires Inv(s) && Enabled(s, l) && Enabled(s, m) && KeyOf(s, l) != KeyOf(s, m)
    ensures Enabled(Step(s, l), m)
  {
    if !m.Enqueue? {
      OtherJobStays(s, l, m.i);
      if m.Begin? {
        StaysReady(s, l, m.i);
      } else if m.Leave? {
        StepKeepsLive(s, l);
        LiveJobIsCounted(Step(s, l), m.i);
      }
    }
  }

  lemma OtherJobStays(s: State, l: Label, i: nat)
    requires Enabled(s, l) && i < |s.jobs| && KeyOf(s, l) != Some(s.jobs[i].key)
    ensures i < |Step(s, l).jobs| && Step(s, l).jobs[i] == s.jobs[i]
  {
  }

  /** A job that may begin may begin after any step. */
  lemma StaysReady(s: State, l: Label, i: nat)
    requires Enabled(s, l) && i < |s.jobs| && Ready(s.jobs, i)
    ensures Ready(Step(s, l).jobs, i)
  {
  }

  lemma LiveJobIsCounted(s: State, i: nat)
    requires s.wg == Live(s.jobs) && i < |s.jobs| && s.jobs[i].phase != Gone
    ensures s.wg > 0
  {
    LiveUpdate(s.jobs, i, s.jobs[i].(phase := Gone));
  }

  /** Each step of a key's own jobs uses up one unit of its work; what a function
      does in between uses none. */
  lemma OwnStepsUseWork(s: State, l: Label, key: string)
    requires Enabled(s, l) && !l.Enqueue? && KeyOf(s, l) == Some(key)
    ensures Work(Step(s, l).jobs, key) == Work(s.jobs, key) - if l.Send? then 0 else 1
  {
    WorkUpdate(s.jobs, l.i, Step(s, l).jobs[l.i], key);
  }

  /** How often the queue moves the jobs of a key in a run. */
  function MovesOf(s: State, labels: seq<Label>, key: string): nat
    requires Runs(s, labels)
    decreases |labels|
  {
    if labels == [] then 0
    else
      (if KeyOf(s, labels[0]) == Some(key) && !labels[0].Send? then 1 else 0) +
      MovesOf(Step(s, labels[0]), labels[1..], key)
  }

  predicate Enqueues(labels: seq<Label>, key: string) {
    exists k | 0 <= k < |labels| :: labels[k].Enqueue? && labels[k].key == key
  }

  /** However other keys are scheduled, a key that gets no new job drains: it can
      move while work is left, and each move uses up one unit of it. */
  lemma {:induction false} KeyDrains(s: State, labels: seq<Label>, key: string)
    requires Inv(s) && Runs(s, labels) && !Enqueues(labels, key)
    ensures MovesOf(s, labels, key) + Work(After(s, labels).jobs, key) == Work(s.jobs, key)
    ensures MovesOf(s, labels, key) == Work(s.jobs, key) ==>
              forall i | 0 <= i < |After(s, labels).jobs| && After(s, labels).jobs[i].key == key ::
                  After(s, labels).jobs[i].phase == Gone
    decreases |labels|
  {
    if labels != [] {
      var l := labels[0];
      StepKeepsInv(s, l);
      if KeyOf(s, l) == Some(key) {
        assert !l.Enqueue?;
        OwnStepsUseWork(s, l, key);
      } else {
        OtherKeysDoNotMatter(s, l, key);
      }
      assert forall k | 0 <= k < |labels| - 1 :: labels[1..][k] == labels[k + 1];
      KeyDrains(Step(s, l), labels[1..], key);
    }
    if Work(After(s, labels).jobs, key) == 0 {
      NoWork(After(s, labels).jobs, key);
    }
  }

  // ----- What reaches the device -----

  /** A function that sends nothing, or once, its own channel to its own device. */
  predicate Own(job: Job, body: seq<Write>) {
    |body| <= 1 && forall k | 0 <= k < |body| :: body[k] == Write(job.key, job.channel)
  }

  predicate OwnStep(s: State, l: Label)
    requires Enabled(s, l)
  {
    l.Begin? ==> Own(s.jobs[l.i], l.body)
  }

  /** Every function of the run is such a one. */
  predicate OwnRun(s: State, labels: seq<Label>)
    requires Runs(s, labels)
    decreases |labels|
  {
    labels != [] ==> OwnStep(s, labels[0]) && OwnRun(Step(s, labels[0]), labels[1..])
  }

  /** What was sent was the job's own, and leaves it nothing more to send. */
  predicate SendsOwn(s: State) {
    && Within(s.log, s.jobs)
    && (forall y | 0 <= y < |s.log| && s.log[y].Sent? :: Spent(s.jobs[s.log[y].i], s.log[y].write))
    && (forall i | 0 <= i < |s.jobs| :: Own(s.jobs[i], s.jobs[i].pending))
  }

  predicate Spent(job: Job, write: Write) {
    job.Started() && job.pending == [] && write == Write(job.key, job.channel)
  }

  /** Sends for one key come in the order of its jobs, one per job at most. */
  predicate SendsInOrder(s: State)
    requires Within(s.log, s.jobs)
  {
    forall x, y | 0 <= x < y < |s.log| && s.log[x].Sent? && s.log[y].Sent?
      && s.jobs[s.log[x].i].key == s.jobs[s.log[y].i].key :: s.log[x].i < s.log[y].i
  }

  lemma StepKeepsOwn(s: State, l: Label)
    requires SendsOwn(s) && Enabled(s, l) && OwnStep(s, l)
    ensures SendsOwn(Step(s, l))
  {
    var s' := Step(s, l);
    forall y | 0 <= y < |s'.log| && s'.log[y].Sent? ensures Spent(s'.jobs[s'.log[y].i], s'.log[y].write) {
      if y < |s.log| {
        assert Spent(s.jobs[s.log[y].i], s.log[y].write);
      } else {
        assert Own(s.jobs[l.i], s.jobs[l.i].pending);
      }
    }
    forall i | 0 <= i < |s'.jobs| ensures Own(s'.jobs[i], s'.jobs[i].pending) {
      assert i < |s.jobs| ==> Own(s.jobs[i], s.jobs[i].pending);
    }
  }

  lemma StepKeepsSendOrder(s: State, l: Label)
    requires InOrder(s.jobs) && SendsOwn(s) && SendsInOrder(s) && Enabled(s, l)
    ensures Within(Step(s, l).log, Step(s, l).jobs) && SendsInOrder(Step(s, l))
  {
    var s' := Step(s, l);
    assert forall j | 0 <= j < |s.jobs| :: s'.jobs[j].key == s.jobs[j].key;
    forall x, y | 0 <= x < y < |s'.log| && s'.log[x].Sent? && s'.log[y].Sent?
      && s'.jobs[s'.log[x].i].key == s'.jobs[s'.log[y].i].key
      ensures s'.log[x].i < s'.log[y].i
    {
      assert s'.log[x] == s.log[x];
      if y == |s.log| {
        assert Spent(s.jobs[s.log[x].i], s.log[x].write);
      }
    }
  }

  predicate SendsRight(s: State) {
    SendsOwn(s) && SendsInOrder(s)
  }

  /** Every step of such a run keeps all of it. */
  lemma StepKeepsAll(s: State, l: Label)
    requires Inv(s) && LogRight(s) && SendsRight(s) && Enabled(s, l) && OwnStep(s, l)
    ensures Inv(Step(s, l)) && LogRight(Step(s, l)) && SendsRight(Step(s, l))
  {
    StepKeepsInv(s, l);
    StepKeepsLog(s, l);
    StepKeepsOwn(s, l);
    StepKeepsSendOrder(s, l);
  }

  lemma {:induction false} RunKeepsAll(s: State, labels: seq<Label>)
    requires Inv(s) && LogRight(s) && SendsRight(s) && Runs(s, labels) && OwnRun(s, labels)
    ensures Inv(After(s, labels)) && LogRight(After(s, labels)) && SendsRight(After(s, labels))
    decreases |labels|
  {
    if labels != [] {
      StepKeepsAll(s, labels[0]);
      RunKeepsAll(Step(s, labels[0]), labels[1..]);
    }
  }

  /** The channels sent to a device, oldest first, by whichever job. */
  function SentTo(log: seq<Event>, mac: string): seq<int>
    decreases |log|
  {
    if log == [] then []
    else
      var e := log[|log| - 1];
      SentTo(log[..|log| - 1], mac) + if e.Sent? && e.write.mac == mac then [e.write.channel] else []
  }

  /** The channels accepted for a device by the first n jobs, oldest first. */
  function AcceptedFor(jobs: seq<Job>, key: string, n: nat): seq<int>
    requires n <= |jobs|
  {
    if n == 0 then []
    else AcceptedFor(jobs, key, n - 1) + if jobs[n - 1].key == key then [jobs[n - 1].channel] else []
  }

  /** a can be had from b by leaving elements out. */
  predicate Subsequence(a: seq<int>, b: seq<int>)
    decreases |b|
  {
    || a == []
    || (b != [] && Subsequence(a, b[..|b| - 1]))
    || (b != [] && a[|a| - 1] == b[|b| - 1] && Subsequence(a[..|a| - 1], b[..|b| - 1]))
  }

  lemma {:induction false} SubsequenceGrows(a: seq<int>, b: seq<int>, x: int)
    requires Subsequence(a, b)
    ensures Subsequence(a, b + [x]) && Subsequence(a + [x], b + [x])
  {
    assert (b + [x])[..|b|] == b && (a + [x])[..|a|] == a;
  }

  /** Every send is its job's own. */
  predicate Owned(log: seq<Event>, jobs: seq<Job>) {
    forall x | 0 <= x < |log| && log[x].Sent? ::
      log[x].i < |jobs| && log[x].write == Write(jobs[log[x].i].key, jobs[log[x].i].channel)
  }

  /** Every send to the device so far was for a job before the n-th. */
  predicate SentBefore(log: seq<Event>, mac: string, n: nat) {
    forall x | 0 <= x < |log| && log[x].Sent? && log[x].write.mac == mac :: log[x].i < n
  }

  predicate Increasing(log: seq<Event>, mac: string) {
    forall x, y | 0 <= x < y < |log| && log[x].Sent? && log[y].Sent? && log[x].write.mac == mac &&
        log[y].write.mac == mac ::
      log[x].i < log[y].i
  }

  /** The jobs xs are of this key, in rising order below n. */
  predicate Rising(jobs: seq<Job>, xs: seq<nat>, key: string, n: nat)
    decreases |xs|
  {
    xs != [] ==>
      var x := xs[|xs| - 1];
      x < n && x < |jobs| && jobs[x].key == key && Rising(jobs, xs[..|xs| - 1], key, x)
  }

  function Channels(jobs: seq<Job>, xs: seq<nat>, key: string, n: nat): seq<int>
    requires Rising(jobs, xs, key, n)
    decreases |xs|
  {
    if xs == [] then [] else
      var x := xs[|xs| - 1];
      Channels(jobs, xs[..|xs| - 1], key, x) + [jobs[x].channel]
  }

  lemma {:induction false} RisingIsSubsequence(jobs: seq<Job>, xs: seq<nat>, key: string, n: nat)
    requires n <= |jobs| && Rising(jobs, xs, key, n)
    ensures Subsequence(Channels(jobs, xs, key, n), AcceptedFor(jobs, key, n))
    decreases n
  {
    if xs != [] {
      var x := xs[|xs| - 1];
      var before, job := AcceptedFor(jobs, key, n - 1), jobs[n - 1];
      if x == n - 1 {
        RisingIsSubsequence(jobs, xs[..|xs| - 1], key, x);
        SubsequenceGrows(Channels(jobs, xs[..|xs| - 1], key, x), before, job.channel);
      } else {
        RisingIsSubsequence(jobs, xs, key, n - 1);
        if job.key == key {
          SubsequenceGrows(Channels(jobs, xs, key, n), before, job.channel);
        } else {
          assert AcceptedFor(jobs, key, n) == before;
        }
      }
    }
  }

  /** The jobs behind the sends to a device rise. */
  lemma {:induction false} SendsRise(jobs: seq<Job>, log: seq<Event>, mac: string, n: nat) returns (xs: seq<nat>)
    requires Owned(log, jobs) && Increasing(log, mac) && SentBefore(log, mac, n)
    ensures Rising(jobs, xs, mac, n) && Channels(jobs, xs, mac, n) == SentTo(log, mac)
    decreases |log|
  {
    if log == [] {
      xs := [];
    } else {
      var e, rest := log[|log| - 1], log[..|log| - 1];
      if e.Sent? && e.write.mac == mac {
        var front := SendsRise(jobs, rest, mac, e.i);
        xs := front + [e.i];
        assert xs[..|xs| - 1] == front;
      } else {
        xs := SendsRise(jobs, rest, mac, n);
      }
    }
  }

  lemma {:induction false} SentAreValid(jobs: seq<Job>, log: seq<Event>, mac: string)
    requires Owned(log, jobs) && forall i | 0 <= i < |jobs| :: ValidChannel(jobs[i].channel)
    ensures forall c | c in SentTo(log, mac) :: ValidChannel(c)
    decreases |log|
  {
    if log != [] {
      SentAreValid(jobs, log[..|log| - 1], mac);
    }
  }

  /** No job sends twice. */
  predicate AtMostOnce(log: seq<Event>) {
    forall x, y | 0 <= x < y < |log| && log[x].Sent? && log[y].Sent? :: log[x].i != log[y].i
  }

  lemma SendsAreOwned(s: State, mac: string)
    requires SendsRight(s)
    ensures AtMostOnce(s.log) && Owned(s.log, s.jobs) && Increasing(s.log, mac) && SentBefore(s.log, mac, |s.jobs|)
  {
    forall x | 0 <= x < |s.log| && s.log[x].Sent?
      ensures s.log[x].write == Write(s.jobs[s.log[x].i].key, s.jobs[s.log[x].i].channel)
    {
      assert Spent(s.jobs[s.log[x].i], s.log[x].write);
    }
  }

  /** What a device is sent, when sends are right, is a subsequence of what was
      accepted for it. */
  lemma SendsAreAccepted(s: State, mac: string)
    requires SendsRight(s) && Valid(s)
    ensures AtMostOnce(s.log) && Subsequence(SentTo(s.log, mac), AcceptedFor(s.jobs, mac, |s.jobs|))
    ensures forall c | c in SentTo(s.log, mac) :: 0 <= c <= 255
  {
    SendsAreOwned(s, mac);
    var xs := SendsRise(s.jobs, s.log, mac, |s.jobs|);
    RisingIsSubsequence(s.jobs, xs, mac, |s.jobs|);
    SentAreValid(s.jobs, s.log, mac);
  }

  /** In every run whose functions send at most their own request once, what a
      device is sent is a subsequence of what was accepted for it in order of
      acceptance, at most once per request, and every value is a channel number. */
  lemma SendsFollowRequests(labels: seq<Label>, mac: string)
    requires Runs(INITIAL, labels) && OwnRun(INITIAL, labels)
    ensures var s := After(INITIAL, labels);
            && AtMostOnce(s.log)
            && Subsequence(SentTo(s.log, mac), AcceptedFor(s.jobs, mac, |s.jobs|))
            && (forall c | c in SentTo(s.log, mac) :: 0 <= c <= 255)
  {
    RunKeepsAll(INITIAL, labels);
    SendsAreAccepted(After(INITIAL, labels), mac);
  }
}

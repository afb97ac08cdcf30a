/** The bounded worker pool (forEach in internal/controller/probe.go) as a
    labelled transition system: one producer, a fixed number of workers, an
    unbuffered channel between them and a context that may end at any moment.
    Items are their positions. */
module WorkerPool {
  datatype Producer = Checking | Offering | Closed | Returned

  /** A worker waits on the channel, holds a received item it has not yet
      decided about, is inside fn, or has left its loop. */
  datatype Worker = Idle | Holding(i: nat) | Calling(i: nat) | Exited

  /** What has become of an item. */
  datatype Fate = Unfed | Held(w: nat) | InCall(w: nat) | Called | Skipped

  datatype State = State(producer: Producer, fed: nat, workers: seq<Worker>, fates: seq<Fate>, started: seq<nat>,
      finished: seq<nat>, cancelled: bool)

  datatype Label =
    | Check            // the loop head: more items, and the context has not ended?
    | Handoff(w: nat)  // the channel operation, both sides at once
    | Decide(w: nat)   // the worker looks at the context
    | Finish(w: nat)   // fn returns
    | Exit(w: nat)     // the worker sees the channel closed
    | Return           // wg.Wait is satisfied
    | Cancel

  function Max(a: int, b: int): int { if a < b then b else a }
  function Min(a: int, b: int): int { if a < b then a else b }

  function Workers(limit: int, n: nat): nat {
    Max(1, Min(limit, n))
  }

  function Initial(limit: int, n: nat): State {
    State(Checking, 0, seq(Workers(limit, n), _ => Idle), seq(n, _ => Unfed), [], [], false)
  }

  predicate Enabled(s: State, l: Label) {
    match l
    case Check => s.producer == Checking
    case Handoff(w) => s.producer == Offering && s.fed < |s.fates| && w < |s.workers| && s.workers[w] == Idle
    case Decide(w) => w < |s.workers| && s.workers[w].Holding? && s.workers[w].i < |s.fates|
    case Finish(w) => w < |s.workers| && s.workers[w].Calling? && s.workers[w].i < |s.fates|
    case Exit(w) => w < |s.workers| && s.workers[w] == Idle && s.producer == Closed
    case Return => s.producer == Closed && forall w | 0 <= w < |s.workers| :: s.workers[w] == Exited
    case Cancel => !s.cancelled
  }

  function Step(s: State, l: Label): State
    requires Enabled(s, l)
  {
    match l
    case Check => s.(producer := if s.fed == |s.fates| || s.cancelled then Closed else Offering)
    case Handoff(w) =>
      s.(producer := Checking, fed := s.fed + 1, workers := s.workers[w := Holding(s.fed)],
          fates := s.fates[s.fed := Held(w)])
    case Decide(w) =>
      var i := s.workers[w].i;
      if s.cancelled then s.(workers := s.workers[w := Idle], fates := s.fates[i := Skipped])
      else s.(workers := s.workers[w := Calling(i)], fates := s.fates[i := InCall(w)], started := s.started + [i])
    case Finish(w) =>
      var i := s.workers[w].i;
      s.(workers := s.workers[w := Idle], fates := s.fates[i := Called], finished := s.finished + [i])
    case Exit(w) => s.(workers := s.workers[w := Exited])
    case Return => s.(producer := Returned)
    case Cancel => s.(cancelled := true)
  }

  predicate Runs(s: State, labels: seq<Label>)
    decreases |labels|
  {
    labels != [] ==> Enabled(s, labels[0]) && Runs(Step(s, labels[0]), labels[1..])
  }

  function After(s: State, labels: seq<Label>): State
    requires Runs(s, labels)
    decreases |labels|
  {
    if labels == [] then s else After(Step(s, labels[0]), labels[1..])
  }

  // ----- The invariant -----

  /** Fates and workers tell the same story. */
  predicate Matched(s: State) {
    && s.fed <= |s.fates|
    && (forall i | 0 <= i < |s.fates| :: FateRight(s, i))
    && (forall w | 0 <= w < |s.workers| :: WorkerRight(s, w))
  }

  predicate FateRight(s: State, i: nat)
    requires i < |s.fates|
  {
    match s.fates[i]
    case Unfed => s.fed <= i
    case Held(w) => i < s.fed && w < |s.workers| && s.workers[w] == Holding(i)
    case InCall(w) => i < s.fed && w < |s.workers| && s.workers[w] == Calling(i)
    case Called => i < s.fed
    case Skipped => i < s.fed && s.cancelled
  }

  predicate WorkerRight(s: State, w: nat)
    requires w < |s.workers|
  {
    match s.workers[w]
    case Idle => true
    case Holding(i) => i < |s.fates| && s.fates[i] == Held(w)
    case Calling(i) => i < |s.fates| && s.fates[i] == InCall(w)
    case Exited => s.producer == Closed || s.producer == Returned
  }

  predicate ProducerRight(s: State) {
    && (s.producer == Offering ==> s.fed < |s.fates|)
    && (s.producer == Closed || s.producer == Returned ==> s.cancelled || s.fed == |s.fates|)
    && (s.producer == Returned ==> forall w | 0 <= w < |s.workers| :: s.workers[w] == Exited)
    && |s.workers| > 0
  }

  predicate Distinct(xs: seq<nat>) {
    forall x, y | 0 <= x < y < |xs| :: xs[x] != xs[y]
  }

  /** The calls started and finished, by the fates, each once. */
  predicate CallsRight(s: State) {
    && Distinct(s.started) && Distinct(s.finished)
    && (forall i | i in s.started :: i < |s.fates|)
    && (forall i | i in s.finished :: i < |s.fates|)
    && (forall i | 0 <= i < |s.fates| ::
         && (i in s.started <==> s.fates[i].InCall? || s.fates[i].Called?)
         && (i in s.finished <==> s.fates[i].Called?))
  }

  predicate Inv(s: State) {
    Matched(s) && ProducerRight(s) && CallsRight(s)
  }

  lemma InitialInv(limit: int, n: nat)
    ensures Inv(Initial(limit, n))
  {
  }

  lemma StepKeepsMatched(s: State, l: Label)
    requires Matched(s) && ProducerRight(s) && Enabled(s, l)
    ensures Matched(Step(s, l)) && ProducerRight(Step(s, l))
  {
    var s' := Step(s, l);
    if l.Handoff? || l.Decide? || l.Finish? || l.Exit? {
      assert WorkerRight(s, l.w);
    }
    if l.Handoff? {
      assert FateRight(s, s.fed);
    }
    forall i | 0 <= i < |s'.fates| ensures FateRight(s', i) {
      assert FateRight(s, i);
    }
    forall w | 0 <= w < |s'.workers| ensures WorkerRight(s', w) {
      assert WorkerRight(s, w);
    }
  }

  lemma DistinctGrows(xs: seq<nat>, x: nat)
    requires Distinct(xs) && x !in xs
    ensures Distinct(xs + [x]) && forall i :: i in xs + [x] <==> i in xs || i == x
  {
  }

  lemma StepKeepsCalls(s: State, l: Label)
    requires Matched(s) && CallsRight(s) && Enabled(s, l)
    ensures CallsRight(Step(s, l))
  {
    if l.Decide? {
      assert WorkerRight(s, l.w);
      DistinctGrows(s.started, s.workers[l.w].i);
    } else if l.Finish? {
      assert WorkerRight(s, l.w);
      DistinctGrows(s.finished, s.workers[l.w].i);
    } else if l.Handoff? {
      assert FateRight(s, s.fed);
    }
  }

  lemma {:induction false} RunKeepsInv(s: State, labels: seq<Label>)
    requires Inv(s) && Runs(s, labels)
    ensures Inv(After(s, labels))
    ensures |After(s, labels).workers| == |s.workers| && |After(s, labels).fates| == |s.fates|
    decreases |labels|
  {
    if labels != [] {
      StepKeepsMatched(s, labels[0]);
      StepKeepsCalls(s, labels[0]);
      RunKeepsInv(Step(s, labels[0]), labels[1..]);
    }
  }

  // ----- Bounded concurrency -----

  /** The calls in progress: started and not finished. */
  function InFlight(s: State): set<nat> {
    set i | i in s.started && i !in s.finished
  }

  /** The items the first n workers are calling fn with. */
  function CalledBy(workers: seq<Worker>, n: nat): set<nat>
    requires n <= |workers|
  {
    if n == 0 then {} else CalledBy(workers, n - 1) + if workers[n - 1].Calling? then {workers[n - 1].i} else {}
  }

  lemma {:induction false} CalledByBound(workers: seq<Worker>, n: nat)
    requires n <= |workers|
    ensures |CalledBy(workers, n)| <= n
    ensures forall w | 0 <= w < n && workers[w].Calling? :: workers[w].i in CalledBy(workers, n)
  {
    if n > 0 {
      CalledByBound(workers, n - 1);
    }
  }

  lemma SubsetSize(a: set<nat>, b: set<nat>)
    requires a <= b
    ensures |a| <= |b|
  {
    if a != {} {
      var x :| x in a;
      SubsetSize(a - {x}, b - {x});
    }
  }

  /** In every run at most max(1, min(limit, n)) calls are in progress, and no
      item is started twice or finished without having been started. */
  lemma BoundedAlways(limit: int, n: nat, labels: seq<Label>)
    requires Runs(Initial(limit, n), labels)
    ensures var s := After(Initial(limit, n), labels);
            && |InFlight(s)| <= Workers(limit, n)
            && (|InFlight(s)| <= 1 || (|InFlight(s)| <= limit && |InFlight(s)| <= n))
            && Distinct(s.started) && Distinct(s.finished)
            && (forall i | i in s.started :: i < n)
            && (forall i | i in s.finished :: i in s.started)
  {
    InitialInv(limit, n);
    RunKeepsInv(Initial(limit, n), labels);
    var s := After(Initial(limit, n), labels);
    CalledByBound(s.workers, |s.workers|);
    forall i | i in InFlight(s) ensures i in CalledBy(s.workers, |s.workers|) {
      assert FateRight(s, i);
    }
    SubsetSize(InFlight(s), CalledBy(s.workers, |s.workers|));
  }

  /** As many workers as the limit and the items allow, and at least one. */
  lemma PoolSize(limit: int, n: nat)
    ensures var k := |Initial(limit, n).workers|;
            && k >= 1
            && (limit >= 1 && n >= 1 ==> k <= limit && k <= n && (k == limit || k == n))
            && (limit < 1 || n < 1 ==> k == 1)
  {
  }

  // ----- What has happened on return -----

  /** forEach returns only when every started call has finished; and if the
      context never ended, every item has been processed exactly once. */
  lemma ReturnedMeansDone(limit: int, n: nat, labels: seq<Label>)
    requires Runs(Initial(limit, n), labels)
    requires After(Initial(limit, n), labels).producer == Returned
    ensures var s := After(Initial(limit, n), labels);
            && InFlight(s) == {}
            && (!s.cancelled ==> Distinct(s.finished) && forall i: nat :: i in s.finished <==> i < n)
  {
    InitialInv(limit, n);
    RunKeepsInv(Initial(limit, n), labels);
    var s := After(Initial(limit, n), labels);
    forall i | 0 <= i < n ensures i in s.started ==> i in s.finished {
      assert FateRight(s, i);
    }
    if !s.cancelled {
      forall i: nat | i < n ensures i in s.finished {
        assert FateRight(s, i);
      }
    }
  }

  /** Once the context has ended no further call is started. */
  lemma {:induction false} NoCallAfterCancel(s: State, labels: seq<Label>)
    requires Runs(s, labels) && s.cancelled
    ensures After(s, labels).started == s.started
    decreases |labels|
  {
    if labels != [] {
      NoCallAfterCancel(Step(s, labels[0]), labels[1..]);
    }
  }

  /** Once the context has ended feeding stops: only an item already on offer can
      still be handed over. */
  lemma {:induction false} FeedingStops(s: State, labels: seq<Label>)
    requires Runs(s, labels) && s.cancelled
    ensures After(s, labels).fed <= s.fed + if s.producer == Offering then 1 else 0
    decreases |labels|
  {
    if labels != [] {
      FeedingStops(Step(s, labels[0]), labels[1..]);
    }
  }

  // ----- Which taken items run -----

  /** The item has been taken and its worker has looked at the context. */
  predicate Decided(f: Fate) {
    f.InCall? || f.Called? || f.Skipped?
  }

  lemma {:induction false} SplitRun(s: State, labels: seq<Label>, k: nat)
    requires k <= |labels| && Runs(s, labels)
    ensures Runs(s, labels[..k]) && Runs(After(s, labels[..k]), labels[k..])
    ensures After(After(s, labels[..k]), labels[k..]) == After(s, labels)
    decreases k
  {
    if k == 0 {
      assert labels[..0] == [] && labels[0..] == labels;
    } else {
      assert labels[..k][1..] == labels[1..][..k - 1] && labels[1..][k - 1..] == labels[k..];
      SplitRun(Step(s, labels[0]), labels[1..], k - 1);
    }
  }

  lemma {:induction false} CancelledIff(s: State, labels: seq<Label>)
    requires Runs(s, labels)
    ensures After(s, labels).cancelled <==> s.cancelled || Cancel in labels
    decreases |labels|
  {
    if labels != [] {
      CancelledIff(Step(s, labels[0]), labels[1..]);
      assert labels == [labels[0]] + labels[1..];
    }
  }

  /** A decision is final. */
  lemma DecisionStays(s: State, l: Label, i: nat)
    requires Matched(s) && Enabled(s, l) && i < |s.fates| && Decided(s.fates[i])
    ensures var f := Step(s, l).fates[i]; Decided(f) && (f.Skipped? <==> s.fates[i].Skipped?)
  {
    assert FateRight(s, i);
    if l.Handoff? || l.Decide? || l.Finish? || l.Exit? {
      assert WorkerRight(s, l.w);
    }
  }

  lemma {:induction false} DecisionIsFinal(s: State, labels: seq<Label>, i: nat)
    requires Inv(s) && Runs(s, labels) && i < |s.fates| && Decided(s.fates[i])
    ensures i < |After(s, labels).fates|
    ensures var f := After(s, labels).fates[i]; Decided(f) && (f.Skipped? <==> s.fates[i].Skipped?)
    decreases |labels|
  {
    if labels != [] {
      DecisionStays(s, labels[0], i);
      StepKeepsMatched(s, labels[0]);
      StepKeepsCalls(s, labels[0]);
      DecisionIsFinal(Step(s, labels[0]), labels[1..], i);
    }
  }

  /** At step k of the run worker w decides about item i. */
  predicate DecidesAt(s: State, labels: seq<Label>, k: nat, w: nat, i: nat)
    requires Runs(s, labels)
  {
    && k < |labels| && labels[k] == Decide(w)
    && Runs(s, labels[..k]) && w < |After(s, labels[..k]).workers| && After(s, labels[..k]).workers[w] == Holding(i)
  }

  /** A taken item runs if and only if the context had not ended when its worker
      looked: in every run, whichever step decided about it. */
  lemma TakenRunsIffInTime(limit: int, n: nat, labels: seq<Label>, k: nat, w: nat, i: nat)
    requires Runs(Initial(limit, n), labels) && DecidesAt(Initial(limit, n), labels, k, w, i)
    ensures var s := After(Initial(limit, n), labels);
            && i < n == |s.fates|
            && (i in s.started <==> Cancel !in labels[..k])
            && (s.fates[i].Skipped? <==> Cancel in labels[..k])
  {
    var s0 := Initial(limit, n);
    InitialInv(limit, n);
    SplitRun(s0, labels, k);
    RunKeepsInv(s0, labels[..k]);
    CancelledIff(s0, labels[..k]);
    var s := After(s0, labels[..k]);
    assert WorkerRight(s, w);
    assert labels[k..][0] == Decide(w);
    StepKeepsMatched(s, Decide(w));
    StepKeepsCalls(s, Decide(w));
    DecisionIsFinal(Step(s, Decide(w)), labels[k..][1..], i);
    RunKeepsInv(s0, labels);
  }

  /** And every item that was taken and is no longer held was decided about. */
  lemma {:induction false} DecidedSomewhere(s: State, labels: seq<Label>, i: nat) returns (k: nat, w: nat)
    requires Inv(s) && Runs(s, labels) && i < |s.fates| && !Decided(s.fates[i])
    requires i < |After(s, labels).fates| && Decided(After(s, labels).fates[i])
    ensures DecidesAt(s, labels, k, w, i)
    decreases |labels|
  {
    var l, s' := labels[0], Step(s, labels[0]);
    StepKeepsMatched(s, l);
    StepKeepsCalls(s, l);
    if Decided(s'.fates[i]) {
      k, w := 0, l.w;
      assert WorkerRight(s, w);
      assert labels[..0] == [];
    } else {
      k, w := DecidedSomewhere(s', labels[1..], i);
      k := k + 1;
      assert labels[..k][1..] == labels[1..][..k - 1];
    }
  }

  /** The comment on forEach, that taken items still run, holds of a run exactly
      when no worker looks at the context after it has ended. */
  lemma TakenItemsRunExactlyWhen(limit: int, n: nat, labels: seq<Label>)
    requires Runs(Initial(limit, n), labels)
    ensures var s := After(Initial(limit, n), labels);
            (forall i | 0 <= i < |s.fates| && Decided(s.fates[i]) :: i in s.started) <==>
            (forall k | 0 <= k < |labels| && labels[k].Decide? :: Cancel !in labels[..k])
  {
    var s0 := Initial(limit, n);
    InitialInv(limit, n);
    RunKeepsInv(s0, labels);
    var s := After(s0, labels);
    if forall k | 0 <= k < |labels| && labels[k].Decide? :: Cancel !in labels[..k] {
      forall i | 0 <= i < |s.fates| && Decided(s.fates[i]) ensures i in s.started {
        var k, w := DecidedSomewhere(s0, labels, i);
        TakenRunsIffInTime(limit, n, labels, k, w, i);
      }
    } else {
      var k :| 0 <= k < |labels| && labels[k].Decide? && Cancel in labels[..k];
      SplitRun(s0, labels, k);
      RunKeepsInv(s0, labels[..k]);
      var before := After(s0, labels[..k]);
      assert labels[k..][0] == labels[k];
      var w := labels[k].w;
      TakenRunsIffInTime(limit, n, labels, k, w, before.workers[w].i);
    }
  }

  /** A run in which a taken item does not run. */
  lemma TakenItemIsDropped()
    ensures var labels := [Check, Handoff(0), Cancel, Decide(0)];
            && Runs(Initial(1, 1), labels)
            && After(Initial(1, 1), labels).fates == [Skipped] && After(Initial(1, 1), labels).started == []
  {
    var labels := [Check, Handoff(0), Cancel, Decide(0)];
    var s0 := Initial(1, 1);
    var s1 := s0.(producer := Offering);
    var s2 := State(Checking, 1, [Holding(0)], [Held(0)], [], [], false);
    var s3 := s2.(cancelled := true);
    var s4 := State(Checking, 1, [Idle], [Skipped], [], [], true);
    assert Step(s0, Check) == s1 && Step(s1, Handoff(0)) == s2 && Step(s2, Cancel) == s3 && Step(s3, Decide(0)) == s4;
    assert labels[1..] == [Handoff(0), Cancel, Decide(0)] && labels[1..][1..] == [Cancel, Decide(0)];
    assert labels[1..][1..][1..] == [Decide(0)] && labels[1..][1..][1..][1..] == [];
    assert Runs(s3, [Decide(0)]) && After(s3, [Decide(0)]) == s4;
    assert Runs(s2, labels[1..][1..]) && After(s2, labels[1..][1..]) == s4;
    assert Runs(s1, labels[1..]) && After(s1, labels[1..]) == s4;
  }

  // ----- Progress -----

  /** Until it has returned, with or without cancellation, something other than
      cancellation can happen. */
  lemma NoDeadlock(s: State) returns (l: Label)
    requires Inv(s) && s.producer != Returned
    ensures Enabled(s, l) && l != Cancel
  {
    if s.producer == Checking {
      l := Check;
    } else if s.producer == Closed && forall w | 0 <= w < |s.workers| :: s.workers[w] == Exited {
      l := Return;
    } else {
      var w: nat := 0;
      if s.producer == Closed {
        w :| w < |s.workers| && s.workers[w] != Exited;
      }
      assert WorkerRight(s, w);
      l := match s.workers[w]
           case Idle => if s.producer == Offering then Handoff(w) else Exit(w)
           case Holding(_) => Decide(w)
           case _ => Finish(w);
    }
  }

  function WorkerLeft(worker: Worker): nat {
    match worker case Idle => 1 case Holding(_) => 3 case Calling(_) => 2 case Exited => 0
  }

  function WorkersLeft(workers: seq<Worker>): nat
    decreases |workers|
  {
    if workers == [] then 0 else WorkersLeft(workers[..|workers| - 1]) + WorkerLeft(workers[|workers| - 1])
  }

  function ProducerLeft(p: Producer): nat {
    match p case Checking => 3 case Offering => 2 case Closed => 1 case Returned => 0
  }

  /** A bound on the steps still to come. */
  function Left(s: State): int {
    5 * (|s.fates| - s.fed) + WorkersLeft(s.workers) + ProducerLeft(s.producer) + if s.cancelled then 0 else 1
  }

  lemma {:induction false} WorkersLeftUpdate(workers: seq<Worker>, w: nat, worker: Worker)
    requires w < |workers|
    ensures WorkersLeft(workers[w := worker]) == WorkersLeft(workers) + WorkerLeft(worker) - WorkerLeft(workers[w])
    decreases |workers|
  {
    var n := |workers| - 1;
    if w == n {
      assert workers[w := worker][..n] == workers[..n];
    } else {
      assert workers[w := worker][..n] == workers[..n][w := worker];
      WorkersLeftUpdate(workers[..n], w, worker);
    }
  }

  lemma StepUsesUp(s: State, l: Label)
    requires Enabled(s, l)
    ensures Left(Step(s, l)) < Left(s)
  {
    if l.Handoff? || l.Decide? || l.Finish? || l.Exit? {
      WorkersLeftUpdate(s.workers, l.w, Step(s, l).workers[l.w]);
    }
  }

  lemma {:induction false} AllIdle(k: nat)
    ensures WorkersLeft(seq(k, _ => Idle)) == k
  {
    if k > 0 {
      assert seq(k, _ => Idle)[..k - 1] == seq(k - 1, _ => Idle);
      AllIdle(k - 1);
    }
  }

  lemma {:induction false} RunUsesUp(s: State, labels: seq<Label>)
    requires Inv(s) && Runs(s, labels)
    ensures |labels| + Left(After(s, labels)) <= Left(s)
    decreases |labels|
  {
    if labels != [] {
      StepUsesUp(s, labels[0]);
      StepKeepsMatched(s, labels[0]);
      StepKeepsCalls(s, labels[0]);
      RunUsesUp(Step(s, labels[0]), labels[1..]);
    }
  }

  /** Every run is finite, and one that cannot go on except by being cancelled
      has returned: forEach terminates however it is scheduled. */
  lemma EveryRunEnds(limit: int, n: nat, labels: seq<Label>)
    requires Runs(Initial(limit, n), labels)
    ensures |labels| <= 5 * n + Workers(limit, n) + 4
    ensures (forall l | Enabled(After(Initial(limit, n), labels), l) :: l == Cancel) ==>
              After(Initial(limit, n), labels).producer == Returned
  {
    var s0 := Initial(limit, n);
    InitialInv(limit, n);
    RunKeepsInv(s0, labels);
    RunUsesUp(s0, labels);
    AllIdle(Workers(limit, n));
    var s := After(s0, labels);
    if s.producer != Returned {
      var l := NoDeadlock(s);
    }
  }
}

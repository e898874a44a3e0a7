// The streamed pack as a whole: what holds in every reachable state, that no
// state short of the end is stuck, and that every run ends.

module PackProgress {
  import opened Basics
  import opened PackModel
  import opened PackStream
  import opened PackSafety
  import opened PackFiles

  ghost predicate Inv(cfg: Config, s: State) {
    OrderOk(cfg, s) && BudgetOk(cfg, s) && WriterOk(cfg, s) && EntriesOk(cfg, s)
  }

  lemma InvInitial(cfg: Config)
    ensures Inv(cfg, Initial())
  {
    OrderInitial(cfg);
    BudgetInitial(cfg);
    WriterInitial(cfg);
    EntriesInitial(cfg);
  }

  lemma InvKept(cfg: Config, s: State, step: Step)
    requires Inv(cfg, s) && Enabled(cfg, s, step)
    ensures Inv(cfg, Apply(cfg, s, step))
  {
    hide OrderOk, BudgetOk, WriterOk, EntriesOk, Apply, Enabled;
    OrderKept(cfg, s, step);
    BudgetKept(cfg, s, step);
    WriterKept(cfg, s, step);
    EntriesKept(cfg, s, step);
  }

  // Every state of every run.
  lemma {:induction false} Reachable(cfg: Config, states: seq<State>, steps: seq<Step>, i: nat)
    requires Run(cfg, states, steps) && i < |states|
    ensures Inv(cfg, states[i])
  {
    hide Inv, Enabled, Apply;
    if i == 0 {
      InvInitial(cfg);
    } else {
      Reachable(cfg, states, steps, i - 1);
      assert Enabled(cfg, states[i - 1], steps[i - 1]) && states[i - 1 + 1] == Apply(cfg, states[i - 1], steps[i - 1]);
      InvKept(cfg, states[i - 1], steps[i - 1]);
    }
  }

  // ------------------------------------------------------ what a run guarantees

  // At any time in any run, every entry of the manifest: checkpoint order, the
  // recorded encodings decode each of its files to what was written last, and
  // nothing of that tensor is still queued.
  lemma ManifestFaithful(cfg: Config, states: seq<State>, steps: seq<Step>, n: nat, i: nat, key: Key)
    requires Run(cfg, states, steps) && n < |states|
    requires i < |states[n].manifest| && key.tensor == i && FullPlan(cfg, key) != []
    ensures var s := states[n];
      && s.manifest[i].tensor == i && key in s.manifest[i].recorded && key in s.disk.files
      && s.disk.files[key] == Stored(FullPlan(cfg, key)[|FullPlan(cfg, key)| - 1], s.manifest[i].recorded[key])
      && forall b :: 0 <= b < |Pending(s)| ==> TensorOf(Pending(s)[b]) > i
  {
    hide FullPlan, Submitted, Replay, Run;
    var s := states[n];
    Reachable(cfg, states, steps, n);
    assert Passed(s, i);
    assert EntryOk(cfg, s.disk, s.manifest[i]);
    BarrierMeansWritten(cfg, s, key);
  }

  // A finished run: every candidate is in the manifest, in checkpoint order;
  // the writer is idle and every reservation was given back exactly once.
  lemma FinishedComplete(cfg: Config, states: seq<State>, steps: seq<Step>, n: nat)
    requires Run(cfg, states, steps) && n < |states| && Final(states[n])
    ensures var s := states[n];
      && |s.manifest| == |cfg.tensors| && (forall i :: 0 <= i < |s.manifest| ==> s.manifest[i].tensor == i)
      && s.prefetch == [] && s.items == [] && Pending(s) == []
      && (cfg.budget.Some? ==> s.releases == Range(0, |cfg.tensors|) && s.outstanding == 0)
  {
    hide WriterOk, EntriesOk, Run;
    Reachable(cfg, states, steps, n);
    assert Taken(states[n]) == |states[n].manifest|;
  }

  // The packing loop leaves only when nothing is left to come: no candidate is
  // lost between the test of `done` and the test of the queue.
  lemma NoneLostAtExit(cfg: Config, states: seq<State>, steps: seq<Step>, n: nat)
    requires Run(cfg, states, steps) && n < |steps| && steps[n].TestEmpty? && states[n + 1].packer.Joining?
    ensures var s := states[n]; s.done && s.produced == |cfg.tensors| && s.handed == |cfg.tensors| && s.prefetch == []
  {
    hide WriterOk, EntriesOk, BudgetOk;
    Reachable(cfg, states, steps, n);
    assert Enabled(cfg, states[n], steps[n]) && states[n + 1] == Apply(cfg, states[n], steps[n]);
  }

  // A flush passes only when everything submitted so far, so every file of the
  // tensor being packed, is on disk.
  lemma FlushSeesAll(cfg: Config, states: seq<State>, steps: seq<Step>, n: nat)
    requires Run(cfg, states, steps) && n < |steps| && steps[n].PassFlush?
    ensures var s := states[n]; s.log == Submitted(cfg, s) && s.disk == Replay(cfg, Submitted(cfg, s))
  {
    hide OrderOk, BudgetOk, EntriesOk, Replay, Submitted, Apply;
    Reachable(cfg, states, steps, n);
    assert Enabled(cfg, states[n], steps[n]);
    assert states[n].log + [] == states[n].log;
  }

  // The budget in every state of every run: the bytes out are those of the
  // live reservations, at most the budget unless one non-empty reservation is
  // alone; the others were released once each, in order.
  lemma BudgetRespected(cfg: Config, states: seq<State>, steps: seq<Step>, n: nat)
    requires Run(cfg, states, steps) && n < |states| && cfg.budget.Some?
    ensures var s := states[n];
      && s.outstanding == SumBytes(cfg, ReleasedCount(s), Reserved(s))
      && (s.outstanding <= cfg.budget.value || exists t: nat :: Alone(cfg, ReleasedCount(s), Reserved(s), t))
      && (forall t: nat :: t in s.carrying <==> ReleasedCount(s) <= t < Reserved(s))
      && s.releases == Range(0, ReleasedCount(s))
  {
    hide OrderOk, WriterOk, EntriesOk, Run;
    Reachable(cfg, states, steps, n);
  }

  // What the waits are for, in every state of every run: a producer that is
  // ready is held up exactly when live reservations with bytes in them and the
  // next candidate together exceed the budget, and a thread with something to
  // hand on exactly when the queue before it is full.
  lemma WaitsOnlyWhenFull(cfg: Config, states: seq<State>, steps: seq<Step>, n: nat)
    requires Run(cfg, states, steps) && n < |states|
    ensures var s := states[n]; !s.done && !s.holding && s.produced < |cfg.tensors| ==>
      (!Enabled(cfg, s, Reserve) <==>
        var live := SumBytes(cfg, ReleasedCount(s), s.produced);
        cfg.budget.Some? && 0 < live && cfg.budget.value < live + cfg.tensors[s.produced].bytes)
    ensures var s := states[n]; s.holding ==> (!Enabled(cfg, s, Put) <==> |s.prefetch| == 4)
    ensures var s := states[n]; AtOp(cfg, s) && OpAt(cfg, s).Write? ==> (!Enabled(cfg, s, Submit) <==> |s.queue| == 128)
    ensures var s := states[n]; s.packer.Handing? ==> (!Enabled(cfg, s, HandOver) <==> |s.items| == 1)
  {
    hide OrderOk, BudgetOk, WriterOk, EntriesOk, Run;
    Reachable(cfg, states, steps, n);
    QueueBounds(cfg, states[n]);
    if !states[n].holding && cfg.budget.Some? {
      LiveBytes(cfg, states[n]);
    }
  }

  lemma QueueBounds(cfg: Config, s: State)
    requires OrderOk(cfg, s) && WriterOk(cfg, s)
    ensures |s.prefetch| <= 4 && |s.items| <= 1 && |s.queue| <= 128
  {
    hide ProducerOk, PackerOk, FinalizerOk, ManifestOrdered;
  }

  lemma LiveBytes(cfg: Config, s: State)
    requires BudgetOk(cfg, s) && !s.holding && cfg.budget.Some?
    ensures s.outstanding == SumBytes(cfg, ReleasedCount(s), s.produced)
  {
  }

  // ------------------------------------------------------------------- progress

  // A poll that finds nothing while the producer is still at work.
  predicate IdlePoll(s: State, step: Step) {
    step.GetTimeout? && !s.done
  }

  predicate Moves(cfg: Config, s: State, step: Step) {
    Enabled(cfg, s, step) && !IdlePoll(s, step)
  }

  ghost predicate CanMove(cfg: Config, s: State) {
    exists step :: Moves(cfg, s, step)
  }

  lemma WriterMoves(cfg: Config, s: State)
    requires Pending(s) != []
    ensures CanMove(cfg, s)
  {
    if s.running.Some? {
      assert Moves(cfg, s, RunTask);
    } else {
      assert Moves(cfg, s, TakeTask);
    }
  }

  lemma FinalizerMoves(cfg: Config, s: State)
    requires OrderOk(cfg, s) && WriterOk(cfg, s) && Pending(s) == []
    requires !s.finalizer.Stopped? && (!s.finalizer.Idle? || |s.items| > 0)
    ensures CanMove(cfg, s)
  {
    hide OrderOk, WriterOk, Pending, Admits;
    match s.finalizer
    case Idle => assert Moves(cfg, s, TakeItem);
    case Waiting(t) =>
      HandedBarrier(cfg, s, t);
      assert Moves(cfg, s, PassBarrier);
    case Releasing(_) => assert Moves(cfg, s, Release);
    case Appending(_, _) => assert Moves(cfg, s, Append);
    case ReleasingAgain(_) => assert Moves(cfg, s, ReleaseAgain);
    case Closing(_) => assert Moves(cfg, s, TaskDone);
  }

  // With the writer drained, the barrier of every handed-over tensor is set.
  lemma HandedBarrier(cfg: Config, s: State, t: nat)
    requires OrderOk(cfg, s) && WriterOk(cfg, s) && Pending(s) == [] && s.finalizer == Waiting(t)
    ensures t in s.barriers
  {
    hide PackerOk, PrefetchOk, Submitted, Replay;
    assert t < Taken(s) <= s.handed;
    SubmittedOrdered(cfg, s);
    assert s.log + [] == s.log;
  }

  // With the writer drained and the finalizer idle, the packing loop or the
  // producer can go on; nothing is reserved while the loop waits for a
  // candidate, so even one larger than the whole budget is admitted.
  lemma PackerMoves(cfg: Config, s: State)
    requires OrderOk(cfg, s) && BudgetOk(cfg, s) && Pending(s) == [] && s.items == [] && !Final(s)
    requires s.finalizer.Idle? || s.finalizer.Stopped?
    ensures CanMove(cfg, s)
  {
    hide OrderOk, BudgetOk, Hands, Range;
    match s.packer
    case TestingDone => assert Moves(cfg, s, TestDone);
    case TestingEmpty => assert Moves(cfg, s, TestEmpty);
    case Getting => GettingMoves(cfg, s);
    case Working(t, k) =>
      assert if AtOp(cfg, s) then if OpAt(cfg, s).Flush? then Moves(cfg, s, PassFlush) else Moves(cfg, s, Submit)
             else Moves(cfg, s, SubmitBarrier);
    case Handing(_) => assert Moves(cfg, s, HandOver);
    case Joining => DoneAtExit(cfg, s); assert Moves(cfg, s, JoinProducer);
    case Stopping => assert Moves(cfg, s, PutStop);
    case JoiningFinalizer => StopTaken(cfg, s); assert Moves(cfg, s, JoinFinalizer);
    case WaitingWriter => assert Moves(cfg, s, WaitWriter);
  }

  lemma DoneAtExit(cfg: Config, s: State)
    requires OrderOk(cfg, s) && s.packer.Joining?
    ensures s.done
  {
  }

  lemma StopTaken(cfg: Config, s: State)
    requires OrderOk(cfg, s) && s.packer.JoiningFinalizer? && s.items == []
    ensures s.finalizer.Stopped?
  {
    hide PackerOk, PrefetchOk;
    assert |s.items| == |Hands(Taken(s), s.handed)| + (if s.finalizer.Stopped? then 0 else 1);
  }

  lemma GettingMoves(cfg: Config, s: State)
    requires OrderOk(cfg, s) && BudgetOk(cfg, s) && s.packer.Getting? && s.items == []
    requires s.finalizer.Idle? || s.finalizer.Stopped?
    ensures CanMove(cfg, s)
  {
    if |s.prefetch| > 0 {
      assert Moves(cfg, s, Get);
    } else if s.done {
      assert Moves(cfg, s, GetTimeout);
    } else if s.holding {
      assert Moves(cfg, s, Put);
    } else if s.produced == |cfg.tensors| {
      assert Moves(cfg, s, SetDone);
    } else {
      NothingOut(cfg, s);
      assert Moves(cfg, s, Reserve);
    }
  }

  lemma NothingOut(cfg: Config, s: State)
    requires OrderOk(cfg, s) && BudgetOk(cfg, s) && s.packer.Getting? && s.items == [] && s.prefetch == [] && !s.holding
    requires s.finalizer.Idle? || s.finalizer.Stopped?
    ensures s.outstanding == 0
  {
    hide PackerOk;
    assert Taken(s) == s.handed == s.produced;
  }

  // Deadlock freedom.
  lemma NeverStuck(cfg: Config, s: State)
    requires Inv(cfg, s) && !Final(s)
    ensures CanMove(cfg, s)
  {
    hide OrderOk, WriterOk, BudgetOk, EntriesOk, CanMove;
    if Pending(s) != [] {
      WriterMoves(cfg, s);
    } else if !s.finalizer.Stopped? && (!s.finalizer.Idle? || |s.items| > 0) {
      FinalizerMoves(cfg, s);
    } else {
      StoppedHasNoItems(cfg, s);
      PackerMoves(cfg, s);
    }
  }

  lemma StoppedHasNoItems(cfg: Config, s: State)
    requires OrderOk(cfg, s) && (s.finalizer.Stopped? || |s.items| == 0)
    ensures s.items == []
  {
    hide PackerOk, PrefetchOk, ProducerOk;
  }

  // ----------------------------------------------------------------- termination

  // Steps still to come for one candidate: an operation takes one step here and
  // up to two in the writer; handing over takes one and the finalizer six.
  function CandidateWork(cfg: Config, t: nat): nat {
    3 * |Plan(cfg, t)| + 11
  }

  function WorkFrom(cfg: Config, t: nat, n: nat): nat
    decreases n - t
  {
    if t >= n then 0 else CandidateWork(cfg, t) + WorkFrom(cfg, t + 1, n)
  }

  function ProducerWork(cfg: Config, s: State): int {
    2 * (|cfg.tensors| - s.produced) + (if s.holding then -1 else 0) + (if s.done then 0 else 1)
  }

  function PackerWork(cfg: Config, s: State): int {
    WorkFrom(cfg, Got(s), |cfg.tensors|) +
    match s.packer
    case TestingDone => 12
    case TestingEmpty => 12
    case Getting => 12
    case Working(t, k) => 12 + 10 + 3 * (|Plan(cfg, t)| - k)
    case Handing(_) => 12 + 7
    case Joining => 11
    case Stopping => 10
    case JoiningFinalizer => 3
    case WaitingWriter => 2
    case Finished => 0
  }

  function FinalizerWork(s: State): nat {
    6 * |s.items| +
    match s.finalizer
    case Idle => 1
    case Waiting(_) => 6
    case Releasing(_) => 5
    case Appending(_, _) => 4
    case ReleasingAgain(_) => 3
    case Closing(_) => 2
    case Stopped => 0
  }

  function WriterWork(s: State): nat {
    2 * |s.queue| + (if s.running.Some? then 1 else 0)
  }

  function Work(cfg: Config, s: State): int {
    ProducerWork(cfg, s) + PackerWork(cfg, s) + FinalizerWork(s) + WriterWork(s)
  }

  // How far the packing loop is from acting on what it polls.
  function PollRank(s: State): nat {
    match s.packer
    case TestingDone => 3
    case TestingEmpty => 2
    case Getting => if |s.prefetch| == 0 && s.done then 4 else 1
    case _ => 0
  }

  function Measure(cfg: Config, s: State): int {
    8 * Work(cfg, s) + PollRank(s)
  }

  lemma MeasureNonNegative(cfg: Config, s: State)
    requires Inv(cfg, s)
    ensures Measure(cfg, s) >= 0
  {
    hide PrefetchOk, ItemsOk, FinalizerOk, ManifestOrdered, WriterOk, BudgetOk, EntriesOk;
    assert ProducerWork(cfg, s) >= 0;
    assert PackerWork(cfg, s) >= 0;
  }

  predicate PollStep(step: Step) {
    step.TestDone? || step.TestEmpty? || step.GetTimeout?
  }

  // Polls leave the work alone unless they end the loop.
  lemma PollsKeepWork(cfg: Config, s: State, step: Step)
    requires OrderOk(cfg, s) && Enabled(cfg, s, step) && PollStep(step)
    ensures Work(cfg, Apply(cfg, s, step)) <= Work(cfg, s)
    ensures !IdlePoll(s, step) ==> Measure(cfg, Apply(cfg, s, step)) < Measure(cfg, s)
    ensures IdlePoll(s, step) ==> Measure(cfg, Apply(cfg, s, step)) == Measure(cfg, s) + 2
  {
    hide OrderOk, WorkFrom;
  }

  lemma ProducerElsewhere(cfg: Config, s: State, s': State)
    requires s'.packer == s.packer && s'.handed == s.handed && s'.items == s.items && s'.finalizer == s.finalizer
    requires s'.queue == s.queue && s'.running == s.running
    ensures Work(cfg, s') - ProducerWork(cfg, s') == Work(cfg, s) - ProducerWork(cfg, s)
  {
    hide WorkFrom, ProducerWork;
  }

  lemma ProducerWorks(cfg: Config, s: State, step: Step)
    requires Enabled(cfg, s, step) && (step.Reserve? || step.Put? || step.SetDone?)
    ensures Work(cfg, Apply(cfg, s, step)) < Work(cfg, s)
  {
    hide Work;
    ProducerElsewhere(cfg, s, Apply(cfg, s, step));
  }

  lemma LoopWorks(cfg: Config, s: State, step: Step)
    requires OrderOk(cfg, s) && Enabled(cfg, s, step)
    requires step.Submit? || step.PassFlush? || step.SubmitBarrier? || step.HandOver?
    ensures Work(cfg, Apply(cfg, s, step)) < Work(cfg, s)
  {
    hide PrefetchOk, ItemsOk, FinalizerOk, ManifestOrdered, WorkFrom;
  }

  lemma GetWorks(cfg: Config, s: State)
    requires OrderOk(cfg, s) && Enabled(cfg, s, Get)
    ensures Work(cfg, Apply(cfg, s, Get)) < Work(cfg, s)
  {
    hide ItemsOk, FinalizerOk, ManifestOrdered;
    assert s.prefetch[0] == s.handed;
  }

  lemma ExitWorks(cfg: Config, s: State, step: Step)
    requires OrderOk(cfg, s) && Enabled(cfg, s, step)
    requires step.JoinProducer? || step.PutStop? || step.JoinFinalizer? || step.WaitWriter?
    ensures Work(cfg, Apply(cfg, s, step)) < Work(cfg, s)
  {
    hide OrderOk, WorkFrom;
  }

  // A step that leaves the producer and the packing loop where they are.
  ghost predicate Elsewhere(s: State, s': State) {
    s'.produced == s.produced && s'.holding == s.holding && s'.done == s.done && s'.packer == s.packer && s'.handed == s.handed
  }

  lemma ElsewhereWork(cfg: Config, s: State, s': State)
    requires Elsewhere(s, s') && FinalizerWork(s') + WriterWork(s') < FinalizerWork(s) + WriterWork(s)
    ensures Work(cfg, s') < Work(cfg, s)
  {
    hide WorkFrom, FinalizerWork, WriterWork;
  }

  lemma TakeItemWorks(cfg: Config, s: State)
    requires Enabled(cfg, s, TakeItem)
    ensures Work(cfg, Apply(cfg, s, TakeItem)) < Work(cfg, s)
  {
    hide Work;
    ElsewhereWork(cfg, s, Apply(cfg, s, TakeItem));
  }

  lemma FinalizerWorks(cfg: Config, s: State, step: Step)
    requires Enabled(cfg, s, step)
    requires step.PassBarrier? || step.Release? || step.Append? || step.ReleaseAgain? || step.TaskDone?
    ensures Work(cfg, Apply(cfg, s, step)) < Work(cfg, s)
  {
    hide Work, Released;
    if step.Release? || step.ReleaseAgain? {
      ReleasedFrame(cfg, s, s.finalizer.tensor);
    }
    ElsewhereWork(cfg, s, Apply(cfg, s, step));
  }

  lemma WriterWorks(cfg: Config, s: State, step: Step)
    requires Enabled(cfg, s, step) && (step.TakeTask? || step.RunTask?)
    ensures Work(cfg, Apply(cfg, s, step)) < Work(cfg, s)
  {
    hide Work, Execute;
    ElsewhereWork(cfg, s, Apply(cfg, s, step));
  }

  // Every step but an idle poll lowers the measure; an idle poll raises it by
  // two and leaves the work as it was.
  lemma StepsDescend(cfg: Config, s: State, step: Step)
    requires Inv(cfg, s) && Enabled(cfg, s, step)
    ensures !IdlePoll(s, step) ==> Measure(cfg, Apply(cfg, s, step)) < Measure(cfg, s)
    ensures IdlePoll(s, step) ==> Measure(cfg, Apply(cfg, s, step)) == Measure(cfg, s) + 2
  {
    hide OrderOk, WriterOk, BudgetOk, EntriesOk, Work, Apply, Enabled;
    match step
    case TestDone => PollsKeepWork(cfg, s, step);
    case TestEmpty => PollsKeepWork(cfg, s, step);
    case GetTimeout => PollsKeepWork(cfg, s, step);
    case Reserve => ProducerWorks(cfg, s, step);
    case Put => ProducerWorks(cfg, s, step);
    case SetDone => ProducerWorks(cfg, s, step);
    case Get => GetWorks(cfg, s);
    case Submit => LoopWorks(cfg, s, step);
    case PassFlush => LoopWorks(cfg, s, step);
    case SubmitBarrier => LoopWorks(cfg, s, step);
    case HandOver => LoopWorks(cfg, s, step);
    case JoinProducer => ExitWorks(cfg, s, step);
    case PutStop => ExitWorks(cfg, s, step);
    case JoinFinalizer => ExitWorks(cfg, s, step);
    case WaitWriter => ExitWorks(cfg, s, step);
    case TakeItem => TakeItemWorks(cfg, s);
    case PassBarrier => FinalizerWorks(cfg, s, step);
    case Release => FinalizerWorks(cfg, s, step);
    case Append => FinalizerWorks(cfg, s, step);
    case ReleaseAgain => FinalizerWorks(cfg, s, step);
    case TaskDone => FinalizerWorks(cfg, s, step);
    case TakeTask => WriterWorks(cfg, s, step);
    case RunTask => WriterWorks(cfg, s, step);
  }

  // While the packing loop polls for a candidate that is not there yet, some
  // other thread can take a step that lowers the work left.
  lemma PollsAreNeverAlone(cfg: Config, s: State)
    requires Inv(cfg, s) && Enabled(cfg, s, GetTimeout) && !s.done
    ensures exists step :: Enabled(cfg, s, step) && Apply(cfg, s, step).packer == s.packer && Work(cfg, Apply(cfg, s, step)) < Work(cfg, s)
  {
    hide Inv, Work, Execute;
    NeverStuck(cfg, s);
    var step :| Moves(cfg, s, step);
    assert Apply(cfg, s, step).packer == s.packer;
    StepsDescend(cfg, s, step);
    RankAlone(cfg, s, step);
  }

  lemma RankAlone(cfg: Config, s: State, step: Step)
    requires Enabled(cfg, s, step) && Apply(cfg, s, step).packer == s.packer && s.packer.Getting? && s.prefetch == [] && !s.done
    requires Measure(cfg, Apply(cfg, s, step)) < Measure(cfg, s)
    ensures Work(cfg, Apply(cfg, s, step)) < Work(cfg, s)
  {
    hide Work, Apply, Enabled;
  }

  function IdlePolls(states: seq<State>, steps: seq<Step>, n: nat): nat
    requires n <= |steps| < |states|
  {
    if n == 0 then 0 else IdlePolls(states, steps, n - 1) + (if IdlePoll(states[n - 1], steps[n - 1]) then 1 else 0)
  }

  // A run has at most Measure(Initial) steps, and three more for every poll
  // that found the producer still at work.
  lemma {:induction false} RunsAreBounded(cfg: Config, states: seq<State>, steps: seq<Step>, n: nat)
    requires Run(cfg, states, steps) && n <= |steps|
    ensures n + Measure(cfg, states[n]) <= Measure(cfg, Initial()) + 3 * IdlePolls(states, steps, n)
  {
    hide Inv, Enabled, Apply, Measure;
    if n > 0 {
      RunsAreBounded(cfg, states, steps, n - 1);
      Reachable(cfg, states, steps, n - 1);
      assert Enabled(cfg, states[n - 1], steps[n - 1]) && states[n - 1 + 1] == Apply(cfg, states[n - 1], steps[n - 1]);
      StepsDescend(cfg, states[n - 1], steps[n - 1]);
    }
  }

  // From every reachable state packing can be completed.
  lemma {:induction false} Completes(cfg: Config, s: State) returns (steps: seq<Step>, last: State)
    requires Inv(cfg, s)
    ensures Leads(cfg, s, steps, last) && Final(last) && Inv(cfg, last)
    decreases Measure(cfg, s)
  {
    hide Inv, Measure, Enabled, Apply;
    if Final(s) {
      steps, last := [], s;
    } else {
      NeverStuck(cfg, s);
      var step :| Moves(cfg, s, step);
      StepsDescend(cfg, s, step);
      MeasureNonNegative(cfg, s);
      InvKept(cfg, s, step);
      var rest;
      rest, last := Completes(cfg, Apply(cfg, s, step));
      steps := [step] + rest;
      assert steps[1..] == rest;
    }
  }

  ghost predicate Leads(cfg: Config, s: State, steps: seq<Step>, last: State)
    decreases |steps|
  {
    if |steps| == 0 then s == last
    else Enabled(cfg, s, steps[0]) && Leads(cfg, Apply(cfg, s, steps[0]), steps[1..], last)
  }
}

// The writer side of the streamed pack: everything submitted is executed or
// pending in one fixed order, and a manifest entry is written only when its
// tensor's files are final.

module PackFiles {
  import opened Basics
  import opened PackModel
  import opened PackStream
  import opened PackSafety

  // What the packing loop has submitted so far.
  ghost function Submitted(cfg: Config, s: State): seq<Task> {
    Prior(cfg, s.handed) + Current(cfg, s.packer)
  }

  ghost function Current(cfg: Config, packer: Packer): seq<Task> {
    match packer
    case Working(t, k) => if k <= |Plan(cfg, t)| then PlanTasks(cfg, t, k) else []
    case Handing(t) => PlanTasks(cfg, t, |Plan(cfg, t)|) + [Barrier(t)]
    case _ => []
  }

  ghost predicate WriterOk(cfg: Config, s: State) {
    && s.log + Pending(s) == Submitted(cfg, s)
    && s.disk == Replay(cfg, s.log)
    && (forall t: nat :: t in s.barriers <==> Barrier(t) in s.log)
    && |s.queue| <= WRITER_DEPTH
  }

  lemma WriterInitial(cfg: Config)
    ensures WriterOk(cfg, Initial())
  {
  }

  // The steps that submit, and the step that moves on to the next tensor.
  lemma WriterSubmit(cfg: Config, s: State)
    requires OrderOk(cfg, s) && WriterOk(cfg, s) && Enabled(cfg, s, Submit)
    ensures WriterOk(cfg, Apply(cfg, s, Submit))
  {
    hide OrderOk, Replay, Prior;
    var s' := Apply(cfg, s, Submit);
    var task := s'.queue[|s'.queue| - 1];
    assert Current(cfg, s'.packer) == Current(cfg, s.packer) + [task];
    assert s'.log + Pending(s') == s.log + Pending(s) + [task];
    assert Submitted(cfg, s') == Submitted(cfg, s) + [task];
  }

  lemma WriterFlush(cfg: Config, s: State)
    requires WriterOk(cfg, s) && Enabled(cfg, s, PassFlush)
    ensures WriterOk(cfg, Apply(cfg, s, PassFlush))
  {
    hide Replay, Prior;
    assert Current(cfg, Apply(cfg, s, PassFlush).packer) == Current(cfg, s.packer);
  }

  lemma WriterFence(cfg: Config, s: State)
    requires OrderOk(cfg, s) && WriterOk(cfg, s) && Enabled(cfg, s, SubmitBarrier)
    ensures WriterOk(cfg, Apply(cfg, s, SubmitBarrier))
  {
    hide Replay, Prior, PlanTasks;
    var s' := Apply(cfg, s, SubmitBarrier);
    var task := Barrier(s.packer.tensor);
    assert s.packer.next == |Plan(cfg, s.packer.tensor)|;
    assert Current(cfg, s'.packer) == Current(cfg, s.packer) + [task];
    assert s'.log + Pending(s') == s.log + Pending(s) + [task];
    assert Submitted(cfg, s') == Submitted(cfg, s) + [task];
  }

  lemma WriterHandOver(cfg: Config, s: State)
    requires OrderOk(cfg, s) && WriterOk(cfg, s) && Enabled(cfg, s, HandOver)
    ensures WriterOk(cfg, Apply(cfg, s, HandOver))
  {
    hide Replay, PlanTasks;
    var s' := Apply(cfg, s, HandOver);
    var t := s.handed;
    var all := PlanTasks(cfg, t, |Plan(cfg, t)|);
    assert s.packer.tensor == t;
    assert Prior(cfg, t) + (all + [Barrier(t)]) == Prior(cfg, t) + all + [Barrier(t)];
    assert Submitted(cfg, s') == Prior(cfg, t + 1);
  }

  lemma WriterGet(cfg: Config, s: State)
    requires WriterOk(cfg, s) && Enabled(cfg, s, Get)
    ensures WriterOk(cfg, Apply(cfg, s, Get))
  {
    hide Replay, Prior;
    assert Current(cfg, Apply(cfg, s, Get).packer) == [];
  }

  // Running a task moves it from the pending ones to the log.
  lemma RunStep(cfg: Config, s: State)
    requires Enabled(cfg, s, RunTask)
    ensures s.running.Some?
    ensures var s', task := Apply(cfg, s, RunTask), s.running.value;
      && s'.log == s.log + [task] && Pending(s) == [task] + Pending(s')
      && s'.disk == Execute(cfg, s.disk, task)
      && s'.handed == s.handed && s'.packer == s.packer && s'.queue == s.queue
      && s'.barriers == if task.Barrier? then s.barriers + {task.tensor} else s.barriers
  {
    hide Execute;
  }

  lemma WriterRun(cfg: Config, s: State)
    requires WriterOk(cfg, s) && Enabled(cfg, s, RunTask)
    ensures WriterOk(cfg, Apply(cfg, s, RunTask))
  {
    RunStep(cfg, s);
    hide Execute, Prior, Current, Apply, Enabled, Pending, Replay;
    var task := s.running.value;
    var s' := Apply(cfg, s, RunTask);
    ReplayNext(cfg, s.log, task);
    assert s'.log + Pending(s') == s.log + Pending(s);
    assert forall t: nat :: Barrier(t) in s'.log <==> Barrier(t) in s.log || Barrier(t) == task;
  }

  lemma WriterTake(cfg: Config, s: State)
    requires WriterOk(cfg, s) && Enabled(cfg, s, TakeTask)
    ensures WriterOk(cfg, Apply(cfg, s, TakeTask))
  {
    hide Replay, Prior;
    assert Pending(Apply(cfg, s, TakeTask)) == Pending(s);
  }

  // No step of another kind touches the writer or what it was given.
  ghost predicate LeavesWriter(cfg: Config, s: State, s': State) {
    && s'.log == s.log && s'.queue == s.queue && s'.running == s.running && s'.disk == s.disk && s'.barriers == s.barriers
    && s'.handed == s.handed && Current(cfg, s'.packer) == Current(cfg, s.packer)
  }

  predicate WritersStep(step: Step) {
    step.Submit? || step.PassFlush? || step.SubmitBarrier? || step.HandOver? || step.Get? || step.TakeTask? || step.RunTask?
  }

  lemma OtherSteps(cfg: Config, s: State, step: Step)
    requires Enabled(cfg, s, step) && !WritersStep(step)
    ensures LeavesWriter(cfg, s, Apply(cfg, s, step))
  {
    hide PlanTasks, Execute, Released, Admits;
    if step.Release? || step.ReleaseAgain? {
      ReleasedFrame(cfg, s, s.finalizer.tensor);
    }
  }

  lemma WriterSame(cfg: Config, s: State, step: Step)
    requires WriterOk(cfg, s) && Enabled(cfg, s, step) && !WritersStep(step)
    ensures WriterOk(cfg, Apply(cfg, s, step))
  {
    hide Replay, Prior, Apply, Current, Enabled;
    OtherSteps(cfg, s, step);
  }

  lemma WriterKept(cfg: Config, s: State, step: Step)
    requires OrderOk(cfg, s) && WriterOk(cfg, s) && Enabled(cfg, s, step)
    ensures WriterOk(cfg, Apply(cfg, s, step))
  {
    hide OrderOk, WriterOk, Apply;
    match step
    case Submit => WriterSubmit(cfg, s);
    case PassFlush => WriterFlush(cfg, s);
    case SubmitBarrier => WriterFence(cfg, s);
    case HandOver => WriterHandOver(cfg, s);
    case Get => WriterGet(cfg, s);
    case TakeTask => WriterTake(cfg, s);
    case RunTask => WriterRun(cfg, s);
    case _ => WriterSame(cfg, s, step);
  }

  // ------------------------------------------------------- what barriers promise

  lemma SubmittedOrdered(cfg: Config, s: State)
    requires OrderOk(cfg, s)
    ensures Ordered(Submitted(cfg, s))
    ensures forall t: nat :: t < s.handed || s.packer == Handing(t) ==> Barrier(t) in Submitted(cfg, s)
  {
    PriorOrdered(cfg, s.handed);
    match s.packer
    case Working(t, k) =>
      PlanTasksStores(cfg, t, k);
      OrderedAppend(Prior(cfg, t), PlanTasks(cfg, t, k), t);
    case Handing(t) =>
      var all := PlanTasks(cfg, t, |Plan(cfg, t)|);
      PlanTasksStores(cfg, t, |Plan(cfg, t)|);
      OrderedAppend(Prior(cfg, t), all, t);
      OrderedClose(Prior(cfg, t) + all, t);
      assert Prior(cfg, t) + (all + [Barrier(t)]) == Prior(cfg, t) + all + [Barrier(t)];
    case _ =>
      assert Submitted(cfg, s) == Prior(cfg, s.handed);
  }

  lemma SubmittedWrites(cfg: Config, s: State, key: Key)
    requires OrderOk(cfg, s) && key.tensor < s.handed
    ensures Writes(Submitted(cfg, s), key) == FullPlan(cfg, key)
  {
    hide FullPlan;
    WritesConcat(Prior(cfg, s.handed), Current(cfg, s.packer), key);
    PriorWrites(cfg, s.handed, key);
    CurrentElsewhere(cfg, s, key);
  }

  lemma CurrentElsewhere(cfg: Config, s: State, key: Key)
    requires OrderOk(cfg, s) && key.tensor < s.handed
    ensures Writes(Current(cfg, s.packer), key) == []
  {
    match s.packer
    case Working(t, k) => PlanTasksWrites(cfg, t, k, key);
    case Handing(t) =>
      PlanTasksWrites(cfg, t, |Plan(cfg, t)|, key);
      WritesNext(PlanTasks(cfg, t, |Plan(cfg, t)|), Barrier(t), key);
    case _ =>
  }

  // Once the barrier of a handed-over tensor has run, no task of that tensor is
  // pending, and each of its files is final: the last payload its plan wrote,
  // under the encoding the metadata records.
  lemma BarrierMeansWritten(cfg: Config, s: State, key: Key)
    requires OrderOk(cfg, s) && WriterOk(cfg, s)
    requires key.tensor in s.barriers && key.tensor < s.handed
    ensures forall b :: 0 <= b < |Pending(s)| ==> TensorOf(Pending(s)[b]) > key.tensor
    ensures FileOk(cfg, s.disk, key, FullPlan(cfg, key))
  {
    hide FileOk, OrderOk, FullPlan, Submitted, Replay, Ordered, Writes, TensorOf;
    SubmittedOrdered(cfg, s);
    NothingAfterBarrier(s.log, Pending(s), key.tensor);
    NoWritesOf(Pending(s), key);
    WritesConcat(s.log, Pending(s), key);
    SubmittedWrites(cfg, s, key);
    assert Writes(s.log, key) + [] == Writes(s.log, key);
    ReplayFile(cfg, s.log, key);
  }

  // ----------------------------------------------------------- manifest entries

  // The entry's encodings decode what the files of its tensor hold, and that
  // is what the plan wrote last.
  ghost predicate EntryOk(cfg: Config, disk: Disk, e: Entry) {
    forall key: Key {:trigger FullPlan(cfg, key)} :: key.tensor == e.tensor && FullPlan(cfg, key) != [] ==>
      && key in e.recorded && key in disk.files
      && disk.files[key] == Stored(FullPlan(cfg, key)[|FullPlan(cfg, key)| - 1], e.recorded[key])
  }

  // The finalizer's tensor, once past its barrier.
  ghost predicate Passed(s: State, t: nat) {
    s.finalizer == Releasing(t) || (s.finalizer.Appending? && s.finalizer.tensor == t) || t < |s.manifest|
  }

  ghost predicate EntriesOk(cfg: Config, s: State) {
    && (forall t: nat :: Passed(s, t) ==> t in s.barriers)
    && (s.finalizer.Appending? ==> EntryOk(cfg, s.disk, Entry(s.finalizer.tensor, s.finalizer.recorded)))
    && (forall i :: 0 <= i < |s.manifest| ==> EntryOk(cfg, s.disk, s.manifest[i]))
  }

  lemma EntriesInitial(cfg: Config)
    ensures EntriesOk(cfg, Initial())
  {
  }

  lemma FinalFiles(cfg: Config, s: State, t: nat)
    requires OrderOk(cfg, s) && WriterOk(cfg, s) && t in s.barriers && t < s.handed
    ensures EntryOk(cfg, s.disk, Entry(t, s.disk.recorded))
  {
    hide OrderOk, WriterOk, FullPlan;
    forall key: Key | key.tensor == t && FullPlan(cfg, key) != []
      ensures key in s.disk.recorded && key in s.disk.files
      ensures s.disk.files[key] == Stored(FullPlan(cfg, key)[|FullPlan(cfg, key)| - 1], s.disk.recorded[key])
    {
      BarrierMeansWritten(cfg, s, key);
    }
  }

  // Entries recorded so far survive the writes of later tensors.
  lemma EntrySurvives(cfg: Config, disk: Disk, task: Task, e: Entry)
    requires EntryOk(cfg, disk, e) && TensorOf(task) != e.tensor
    ensures EntryOk(cfg, Execute(cfg, disk, task), e)
  {
    hide FullPlan;
  }

  lemma EntriesRun(cfg: Config, s: State)
    requires OrderOk(cfg, s) && WriterOk(cfg, s) && EntriesOk(cfg, s) && Enabled(cfg, s, RunTask)
    ensures EntriesOk(cfg, Apply(cfg, s, RunTask))
  {
    hide Execute, EntryOk, WriterOk, PackerOk, PrefetchOk, ProducerOk;
    var task := s.running.value;
    assert Pending(s)[0] == task;
    forall e: Entry | Passed(s, e.tensor) && EntryOk(cfg, s.disk, e)
      ensures EntryOk(cfg, Execute(cfg, s.disk, task), e)
    {
      BarrierMeansWritten(cfg, s, Key(e.tensor, Codebook(0)));
      EntrySurvives(cfg, s.disk, task, e);
    }
    forall i | 0 <= i < |s.manifest|
      ensures EntryOk(cfg, Execute(cfg, s.disk, task), s.manifest[i])
    {
      assert Passed(s, s.manifest[i].tensor);
    }
  }

  lemma EntriesRelease(cfg: Config, s: State)
    requires OrderOk(cfg, s) && WriterOk(cfg, s) && EntriesOk(cfg, s) && Enabled(cfg, s, Release)
    ensures EntriesOk(cfg, Apply(cfg, s, Release))
  {
    hide EntryOk, WriterOk, PackerOk, PrefetchOk, ProducerOk, Released;
    var t := s.finalizer.tensor;
    assert Passed(s, t);
    FinalFiles(cfg, s, t);
    ReleasedFrame(cfg, s, t);
    var s' := Apply(cfg, s, Release);
    assert forall u: nat :: Passed(s', u) ==> Passed(s, u);
  }

  lemma EntriesAppend(cfg: Config, s: State)
    requires OrderOk(cfg, s) && EntriesOk(cfg, s) && Enabled(cfg, s, Append)
    ensures EntriesOk(cfg, Apply(cfg, s, Append))
  {
    hide EntryOk, PackerOk, PrefetchOk, ProducerOk, ItemsOk;
    var s' := Apply(cfg, s, Append);
    assert forall u: nat :: Passed(s', u) ==> Passed(s, u);
  }

  predicate EntriesStep(step: Step) {
    step.RunTask? || step.Release? || step.Append?
  }

  // Other steps leave disk, barriers and manifest alone, and let the finalizer
  // pass only a barrier that is set.
  lemma OtherEntries(cfg: Config, s: State, step: Step)
    requires Enabled(cfg, s, step) && !EntriesStep(step)
    ensures var s' := Apply(cfg, s, step);
      && s'.disk == s.disk && s'.manifest == s.manifest && s'.barriers == s.barriers
      && (s'.finalizer.Appending? ==> s'.finalizer == s.finalizer)
      && (s'.finalizer.Releasing? ==> s'.finalizer == s.finalizer || s'.finalizer.tensor in s.barriers)
  {
    hide Released, Admits;
    if step.ReleaseAgain? {
      ReleasedFrame(cfg, s, s.finalizer.tensor);
    }
  }

  lemma EntriesSame(cfg: Config, s: State, step: Step)
    requires EntriesOk(cfg, s) && Enabled(cfg, s, step) && !EntriesStep(step)
    ensures EntriesOk(cfg, Apply(cfg, s, step))
  {
    hide EntryOk, Apply, Enabled;
    OtherEntries(cfg, s, step);
  }

  lemma EntriesKept(cfg: Config, s: State, step: Step)
    requires OrderOk(cfg, s) && WriterOk(cfg, s) && EntriesOk(cfg, s) && Enabled(cfg, s, step)
    ensures EntriesOk(cfg, Apply(cfg, s, step))
  {
    hide OrderOk, WriterOk, EntriesOk, Apply;
    match step
    case RunTask => EntriesRun(cfg, s);
    case Release => EntriesRelease(cfg, s);
    case Append => EntriesAppend(cfg, s);
    case _ => EntriesSame(cfg, s, step);
  }
}

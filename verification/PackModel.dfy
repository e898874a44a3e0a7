// The streamed pack as interleaved steps of four threads: the producer
// (orka/pipeline/pack.py:139-349), the packing loop (pack.py:658-755, 794-796),
// the finalize worker (orka/pipeline/pack_pipeline.py:174-231) and the
// background writer (orka/_runtime/io.py), sharing a prefetch queue, a byte
// budget, a finalize queue and the writer's queue.
//
// Runs in which nothing raises. Everything a thread does between two shared
// operations belongs to the next step it takes.

module PackModel {
  import opened Basics

  const PREFETCH_DEPTH: nat := 4
  const FINALIZE_DEPTH: nat := 1
  const WRITER_DEPTH: nat := 128

  datatype Encoding = Raw | Zlib
  type Payload = seq<int>

  // The files of one tensor: a codebook and an index stream per stage.
  datatype Stream = Codebook(stage: nat) | Indices(stage: nat)
  datatype Key = Key(tensor: nat, stream: Stream)

  // What the packing loop does for one tensor: queue a write, or wait for the
  // writer to drain (before the scale refinement reads the files back).
  datatype Op = Write(stream: Stream, payload: Payload) | Flush

  // One candidate, in checkpoint order: the bytes it reserves and its plan.
  datatype Candidate = Candidate(bytes: nat, plan: seq<Op>)

  // `pick` is the size comparison that chooses raw or zlib for a fresh stream.
  datatype Config = Config(tensors: seq<Candidate>, budget: Option<nat>, pick: Payload -> Encoding)

  // --------------------------------------------------------------- the disk side

  datatype Task = Store(key: Key, payload: Payload) | Barrier(tensor: nat)

  // The bytes of a payload under one encoding: read back under that encoding
  // they are the payload again.
  datatype Stored = Stored(payload: Payload, encoding: Encoding)

  // The files, and the encodings recorded in the stage metadata.
  datatype Disk = Disk(files: map<Key, Stored>, recorded: map<Key, Encoding>)

  function Chosen(cfg: Config, disk: Disk, key: Key, payload: Payload): Encoding {
    if key in disk.recorded then disk.recorded[key]
    else if key.stream.Codebook? then Raw
    else cfg.pick(payload)
  }

  // _write_codebook and _write_stage_indices: a recorded encoding is forced.
  function Execute(cfg: Config, disk: Disk, task: Task): Disk {
    match task
    case Store(key, payload) =>
      var encoding := Chosen(cfg, disk, key, payload);
      Disk(disk.files[key := Stored(payload, encoding)], disk.recorded[key := encoding])
    case Barrier(_) => disk
  }

  function TensorOf(task: Task): nat {
    match task
    case Store(key, _) => key.tensor
    case Barrier(t) => t
  }

  // ------------------------------------------------------------------- the state

  // Where the packing loop stands. `Working(t, k)` is about to do operation k.
  datatype Packer =
    | TestingDone | TestingEmpty | Getting
    | Working(tensor: nat, next: nat) | Handing(tensor: nat)
    | Joining | Stopping | JoiningFinalizer | WaitingWriter | Finished

  datatype Finalizer =
    | Idle
    | Waiting(tensor: nat) | Releasing(tensor: nat) | Appending(tensor: nat, recorded: map<Key, Encoding>)
    | ReleasingAgain(tensor: nat) | Closing(tensor: nat)
    | Stopped

  datatype Item = Hand(tensor: nat) | Stop

  // A manifest entry: its tensor and the encodings its metadata showed.
  datatype Entry = Entry(tensor: nat, recorded: map<Key, Encoding>)

  datatype State = State(
    // producer
    produced: nat, holding: bool, done: bool,
    // budget: bytes out, candidates still carrying a reservation, releases made
    outstanding: nat, carrying: set<nat>, releases: seq<nat>,
    prefetch: seq<nat>,
    packer: Packer, handed: nat,
    items: seq<Item>, finalizer: Finalizer,
    queue: seq<Task>, running: Option<Task>, log: seq<Task>, disk: Disk, barriers: set<nat>,
    manifest: seq<Entry>)

  function Initial(): State {
    State(0, false, false, 0, {}, [], [], TestingDone, 0, [], Idle, [], None, [], Disk(map[], map[]), {}, [])
  }

  function Pending(s: State): seq<Task> {
    (if s.running.Some? then [s.running.value] else []) + s.queue
  }

  // ------------------------------------------------------------------- the steps

  datatype Step =
    | Reserve | Put | SetDone
    | TestDone | TestEmpty | Get | GetTimeout
    | Submit | PassFlush | SubmitBarrier | HandOver
    | JoinProducer | PutStop | JoinFinalizer | WaitWriter
    | TakeItem | PassBarrier | Release | Append | ReleaseAgain | TaskDone
    | TakeTask | RunTask

  function Plan(cfg: Config, t: nat): seq<Op> {
    if t < |cfg.tensors| then cfg.tensors[t].plan else []
  }

  function Bytes(cfg: Config, t: nat): nat {
    if t < |cfg.tensors| then cfg.tensors[t].bytes else 0
  }

  // The condition PrefetchBudget.reserve waits for.
  predicate Admits(cfg: Config, s: State, bytes: nat) {
    cfg.budget.Some? ==> !(s.outstanding > 0 && s.outstanding + bytes > cfg.budget.value)
  }

  predicate AtOp(cfg: Config, s: State) {
    s.packer.Working? && s.packer.next < |Plan(cfg, s.packer.tensor)|
  }

  function OpAt(cfg: Config, s: State): Op
    requires AtOp(cfg, s)
  {
    Plan(cfg, s.packer.tensor)[s.packer.next]
  }

  predicate Enabled(cfg: Config, s: State, step: Step) {
    match step
    case Reserve => !s.done && !s.holding && s.produced < |cfg.tensors| && Admits(cfg, s, Bytes(cfg, s.produced))
    case Put => s.holding && |s.prefetch| < PREFETCH_DEPTH
    case SetDone => !s.done && !s.holding && s.produced >= |cfg.tensors|
    case TestDone => s.packer.TestingDone?
    case TestEmpty => s.packer.TestingEmpty?
    case Get => s.packer.Getting? && |s.prefetch| > 0
    case GetTimeout => s.packer.Getting? && |s.prefetch| == 0
    case Submit => AtOp(cfg, s) && OpAt(cfg, s).Write? && |s.queue| < WRITER_DEPTH
    case PassFlush => AtOp(cfg, s) && OpAt(cfg, s).Flush? && Pending(s) == []
    case SubmitBarrier => s.packer.Working? && s.packer.next >= |Plan(cfg, s.packer.tensor)| && |s.queue| < WRITER_DEPTH
    case HandOver => s.packer.Handing? && |s.items| < FINALIZE_DEPTH
    case JoinProducer => s.packer.Joining? && s.done
    case PutStop => s.packer.Stopping? && |s.items| < FINALIZE_DEPTH
    case JoinFinalizer => s.packer.JoiningFinalizer? && s.items == [] && s.finalizer.Stopped?
    case WaitWriter => s.packer.WaitingWriter? && Pending(s) == []
    case TakeItem => s.finalizer.Idle? && |s.items| > 0
    case PassBarrier => s.finalizer.Waiting? && s.finalizer.tensor in s.barriers
    case Release => s.finalizer.Releasing?
    case Append => s.finalizer.Appending?
    case ReleaseAgain => s.finalizer.ReleasingAgain?
    case TaskDone => s.finalizer.Closing?
    case TakeTask => s.running.None? && |s.queue| > 0
    case RunTask => s.running.Some?
  }

  // PrefetchBudget.release, clamped at zero, by a candidate that still carries
  // its reservation; popping the reservation makes a second call do nothing.
  function Released(cfg: Config, s: State, t: nat): State {
    if t in s.carrying then
      var left := s.outstanding - Bytes(cfg, t);
      s.(outstanding := if left < 0 then 0 else left, carrying := s.carrying - {t}, releases := s.releases + [t])
    else s
  }

  function Apply(cfg: Config, s: State, step: Step): State
    requires Enabled(cfg, s, step)
  {
    match step
    case Reserve =>
      if cfg.budget.Some? then
        s.(holding := true, outstanding := s.outstanding + Bytes(cfg, s.produced), carrying := s.carrying + {s.produced})
      else s.(holding := true)
    case Put => s.(holding := false, prefetch := s.prefetch + [s.produced], produced := s.produced + 1)
    case SetDone => s.(done := true)
    case TestDone => s.(packer := if s.done then TestingEmpty else Getting)
    case TestEmpty => s.(packer := if |s.prefetch| > 0 then Getting else Joining)
    case Get => s.(packer := Working(s.prefetch[0], 0), prefetch := s.prefetch[1..])
    case GetTimeout => s.(packer := TestingDone)
    case Submit =>
      var task := Store(Key(s.packer.tensor, OpAt(cfg, s).stream), OpAt(cfg, s).payload);
      s.(queue := s.queue + [task], packer := Working(s.packer.tensor, s.packer.next + 1))
    case PassFlush => s.(packer := Working(s.packer.tensor, s.packer.next + 1))
    case SubmitBarrier => s.(queue := s.queue + [Barrier(s.packer.tensor)], packer := Handing(s.packer.tensor))
    case HandOver => s.(items := s.items + [Hand(s.packer.tensor)], handed := s.handed + 1, packer := TestingDone)
    case JoinProducer => s.(packer := Stopping)
    case PutStop => s.(items := s.items + [Stop], packer := JoiningFinalizer)
    case JoinFinalizer => s.(packer := WaitingWriter)
    case WaitWriter => s.(packer := Finished)
    case TakeItem =>
      s.(items := s.items[1..], finalizer := if s.items[0].Stop? then Stopped else Waiting(s.items[0].tensor))
    case PassBarrier => s.(finalizer := Releasing(s.finalizer.tensor))
    case Release =>
      Released(cfg, s, s.finalizer.tensor).(finalizer := Appending(s.finalizer.tensor, s.disk.recorded))
    case Append =>
      s.(manifest := s.manifest + [Entry(s.finalizer.tensor, s.finalizer.recorded)], finalizer := ReleasingAgain(s.finalizer.tensor))
    case ReleaseAgain => Released(cfg, s, s.finalizer.tensor).(finalizer := Closing(s.finalizer.tensor))
    case TaskDone => s.(finalizer := Idle)
    case TakeTask => s.(running := Some(s.queue[0]), queue := s.queue[1..])
    case RunTask =>
      var task := s.running.value;
      s.(running := None, log := s.log + [task], disk := Execute(cfg, s.disk, task),
         barriers := if task.Barrier? then s.barriers + {task.tensor} else s.barriers)
  }

  predicate Final(s: State) {
    s.packer.Finished?
  }

  // A run: each state follows from the one before by some enabled step.
  ghost predicate Run(cfg: Config, states: seq<State>, steps: seq<Step>) {
    && |states| == |steps| + 1
    && states[0] == Initial()
    && forall i :: 0 <= i < |steps| ==> Enabled(cfg, states[i], steps[i]) && states[i + 1] == Apply(cfg, states[i], steps[i])
  }

  // ---------------------------------------------------------------- small lists

  function Range(a: nat, b: nat): (r: seq<nat>)
    requires a <= b
    ensures |r| == b - a && forall i :: 0 <= i < |r| ==> r[i] == a + i
  {
    seq(b - a, i => a + i)
  }
}

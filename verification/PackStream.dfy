// What the writer has been asked to do, as one stream of tasks, and what the
// files hold after any prefix of it.

module PackStream {
  import opened Basics
  import opened PackModel

  // ----------------------------------------------------- the stream of tasks

  // The first k operations of tensor t, as writer tasks.
  function PlanTasks(cfg: Config, t: nat, k: nat): seq<Task>
    requires k <= |Plan(cfg, t)|
  {
    if k == 0 then []
    else
      var op := Plan(cfg, t)[k - 1];
      PlanTasks(cfg, t, k - 1) + (if op.Write? then [Store(Key(t, op.stream), op.payload)] else [])
  }

  // All tasks of the first h tensors, each closed by its barrier.
  function Prior(cfg: Config, h: nat): seq<Task> {
    if h == 0 then []
    else Prior(cfg, h - 1) + PlanTasks(cfg, h - 1, |Plan(cfg, h - 1)|) + [Barrier(h - 1)]
  }

  // ------------------------------------------------------- one file's payloads

  // The payloads written to one key, in order.
  function Writes(tasks: seq<Task>, key: Key): seq<Payload> {
    if |tasks| == 0 then []
    else
      var last := tasks[|tasks| - 1];
      Writes(tasks[..|tasks| - 1], key) + (if last.Store? && last.key == key then [last.payload] else [])
  }

  lemma WritesNext(tasks: seq<Task>, task: Task, key: Key)
    ensures Writes(tasks + [task], key) == Writes(tasks, key) + (if task.Store? && task.key == key then [task.payload] else [])
  {
    assert (tasks + [task])[..|tasks|] == tasks;
  }

  lemma {:induction false} WritesConcat(a: seq<Task>, b: seq<Task>, key: Key)
    ensures Writes(a + b, key) == Writes(a, key) + Writes(b, key)
  {
    if |b| == 0 {
      assert a + b == a;
    } else {
      var front, last := b[..|b| - 1], b[|b| - 1];
      WritesConcat(a, front, key);
      assert a + b == (a + front) + [last];
      WritesNext(a + front, last, key);
    }
  }

  // The payloads of one stream in the first k operations of a plan.
  function Planned(plan: seq<Op>, k: nat, stream: Stream): seq<Payload>
    requires k <= |plan|
  {
    if k == 0 then []
    else Planned(plan, k - 1, stream) + (if plan[k - 1].Write? && plan[k - 1].stream == stream then [plan[k - 1].payload] else [])
  }

  lemma {:induction false} PlanTasksWrites(cfg: Config, t: nat, k: nat, key: Key)
    requires k <= |Plan(cfg, t)|
    ensures Writes(PlanTasks(cfg, t, k), key) == if key.tensor == t then Planned(Plan(cfg, t), k, key.stream) else []
  {
    if k > 0 {
      PlanTasksWrites(cfg, t, k - 1, key);
      var op := Plan(cfg, t)[k - 1];
      if op.Write? {
        WritesNext(PlanTasks(cfg, t, k - 1), Store(Key(t, op.stream), op.payload), key);
      } else {
        assert PlanTasks(cfg, t, k) == PlanTasks(cfg, t, k - 1);
      }
    }
  }

  function FullPlan(cfg: Config, key: Key): seq<Payload> {
    Planned(Plan(cfg, key.tensor), |Plan(cfg, key.tensor)|, key.stream)
  }

  lemma {:induction false} PriorWrites(cfg: Config, h: nat, key: Key)
    ensures Writes(Prior(cfg, h), key) == if key.tensor < h then FullPlan(cfg, key) else []
  {
    if h > 0 {
      var all := PlanTasks(cfg, h - 1, |Plan(cfg, h - 1)|);
      PriorWrites(cfg, h - 1, key);
      WritesConcat(Prior(cfg, h - 1), all, key);
      PlanTasksWrites(cfg, h - 1, |Plan(cfg, h - 1)|, key);
      WritesNext(Prior(cfg, h - 1) + all, Barrier(h - 1), key);
    }
  }

  // ------------------------------------------------------- files after a log

  function Replay(cfg: Config, log: seq<Task>): Disk {
    if |log| == 0 then Disk(map[], map[])
    else Execute(cfg, Replay(cfg, log[..|log| - 1]), log[|log| - 1])
  }

  // The file of a key holds its last payload, under the encoding recorded for
  // it, which is the one its first payload picked.
  ghost predicate FileOk(cfg: Config, disk: Disk, key: Key, writes: seq<Payload>) {
    if writes == [] then key !in disk.files && key !in disk.recorded
    else
      && key in disk.files && key in disk.recorded
      && disk.recorded[key] == (if key.stream.Codebook? then Raw else cfg.pick(writes[0]))
      && disk.files[key] == Stored(writes[|writes| - 1], disk.recorded[key])
  }

  lemma {:induction false} ReplayFile(cfg: Config, log: seq<Task>, key: Key)
    ensures FileOk(cfg, Replay(cfg, log), key, Writes(log, key))
  {
    if |log| > 0 {
      ReplayFile(cfg, log[..|log| - 1], key);
    }
  }

  lemma ReplayNext(cfg: Config, log: seq<Task>, task: Task)
    ensures Replay(cfg, log + [task]) == Execute(cfg, Replay(cfg, log), task)
  {
    assert (log + [task])[..|log|] == log;
  }

  // ------------------------------------------------------------- order of tasks

  // Tensors in order, each tensor's barrier its last task.
  ghost predicate Ordered(tasks: seq<Task>) {
    forall a, b :: 0 <= a < b < |tasks| ==>
      TensorOf(tasks[a]) <= TensorOf(tasks[b]) && (tasks[a].Barrier? ==> TensorOf(tasks[a]) < TensorOf(tasks[b]))
  }

  ghost predicate AllBelow(tasks: seq<Task>, h: nat) {
    forall a :: 0 <= a < |tasks| ==> TensorOf(tasks[a]) < h
  }

  // Tasks of tensor t alone, none of them a barrier.
  ghost predicate AllStores(tasks: seq<Task>, t: nat) {
    forall a :: 0 <= a < |tasks| ==> tasks[a].Store? && TensorOf(tasks[a]) == t
  }

  lemma {:induction false} PlanTasksStores(cfg: Config, t: nat, k: nat)
    requires k <= |Plan(cfg, t)|
    ensures AllStores(PlanTasks(cfg, t, k), t)
  {
    if k > 0 {
      PlanTasksStores(cfg, t, k - 1);
    }
  }

  lemma OrderedAppend(tasks: seq<Task>, stores: seq<Task>, t: nat)
    requires Ordered(tasks) && AllBelow(tasks, t) && AllStores(stores, t)
    ensures Ordered(tasks + stores) && AllBelow(tasks + stores, t + 1)
  {
  }

  lemma OrderedClose(tasks: seq<Task>, t: nat)
    requires Ordered(tasks) && AllBelow(tasks, t + 1)
    requires forall a :: 0 <= a < |tasks| ==> tasks[a] != Barrier(t)
    ensures Ordered(tasks + [Barrier(t)]) && AllBelow(tasks + [Barrier(t)], t + 1)
  {
  }

  lemma {:induction false} PriorOrdered(cfg: Config, h: nat)
    ensures Ordered(Prior(cfg, h)) && AllBelow(Prior(cfg, h), h)
    ensures forall t: nat :: t < h ==> Barrier(t) in Prior(cfg, h)
  {
    if h > 0 {
      PriorOrdered(cfg, h - 1);
      var all := PlanTasks(cfg, h - 1, |Plan(cfg, h - 1)|);
      PlanTasksStores(cfg, h - 1, |Plan(cfg, h - 1)|);
      OrderedAppend(Prior(cfg, h - 1), all, h - 1);
      OrderedClose(Prior(cfg, h - 1) + all, h - 1);
    }
  }

  // In an ordered stream, once the barrier of t has run no task of t is left.
  lemma NothingAfterBarrier(log: seq<Task>, pending: seq<Task>, t: nat)
    requires Ordered(log + pending) && Barrier(t) in log
    ensures forall b :: 0 <= b < |pending| ==> TensorOf(pending[b]) > t
  {
    var all := log + pending;
    var a :| 0 <= a < |log| && log[a] == Barrier(t);
    forall b | 0 <= b < |pending|
      ensures TensorOf(pending[b]) > t
    {
      assert all[a] == log[a] && all[|log| + b] == pending[b];
    }
  }

  lemma {:induction false} NoWritesOf(tasks: seq<Task>, key: Key)
    requires forall b :: 0 <= b < |tasks| ==> TensorOf(tasks[b]) != key.tensor
    ensures Writes(tasks, key) == []
  {
    if |tasks| > 0 {
      NoWritesOf(tasks[..|tasks| - 1], key);
    }
  }
}

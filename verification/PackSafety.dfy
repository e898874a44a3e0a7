// What every reachable state of the streamed pack satisfies: order, budget, and
// what the files hold when a manifest entry is written.

module PackSafety {
  import opened Basics
  import opened PackModel
  import opened PackStream

  // ------------------------------------------------------------------ positions

  // Candidates taken off the prefetch queue.
  function Got(s: State): nat {
    s.handed + (if s.packer.Working? || s.packer.Handing? then 1 else 0)
  }

  // Candidates the finalize worker has taken.
  function Taken(s: State): nat {
    |s.manifest| + (if s.finalizer.Waiting? || s.finalizer.Releasing? || s.finalizer.Appending? then 1 else 0)
  }

  predicate StopPut(s: State) {
    s.packer.JoiningFinalizer? || s.packer.WaitingWriter? || s.packer.Finished?
  }

  function Hands(a: nat, b: nat): (r: seq<Item>)
    requires a <= b
    ensures |r| == b - a && forall i :: 0 <= i < |r| ==> r[i] == Hand(a + i)
  {
    seq(b - a, i requires 0 <= i < b - a => Hand(a + i))
  }

  ghost predicate ProducerOk(cfg: Config, s: State) {
    && s.produced <= |cfg.tensors|
    && (s.holding ==> s.produced < |cfg.tensors|)
    && (s.done ==> s.produced == |cfg.tensors| && !s.holding)
  }

  ghost predicate PrefetchOk(s: State) {
    Got(s) <= s.produced && s.prefetch == Range(Got(s), s.produced) && |s.prefetch| <= PREFETCH_DEPTH
  }

  ghost predicate PackerOk(cfg: Config, s: State) {
    match s.packer
    case TestingDone => true
    case TestingEmpty => s.done
    case Getting => true
    case Working(t, k) => t == s.handed && k <= |Plan(cfg, t)|
    case Handing(t) => t == s.handed
    case Joining => s.done && s.handed == |cfg.tensors|
    case Stopping => s.done && s.handed == |cfg.tensors|
    case JoiningFinalizer => s.done && s.handed == |cfg.tensors|
    case WaitingWriter => s.done && s.handed == |cfg.tensors| && s.finalizer.Stopped?
    case Finished => s.done && s.handed == |cfg.tensors| && s.finalizer.Stopped? && Pending(s) == []
  }

  ghost predicate ItemsOk(s: State) {
    && Taken(s) <= s.handed
    && |s.items| <= FINALIZE_DEPTH
    && s.items == Hands(Taken(s), s.handed) + (if StopPut(s) && !s.finalizer.Stopped? then [Stop] else [])
    && (s.finalizer.Stopped? ==> StopPut(s) && Taken(s) == s.handed)
  }

  ghost predicate FinalizerOk(s: State) {
    match s.finalizer
    case Idle => true
    case Waiting(t) => t == |s.manifest|
    case Releasing(t) => t == |s.manifest|
    case Appending(t, _) => t == |s.manifest|
    case ReleasingAgain(t) => t + 1 == |s.manifest|
    case Closing(t) => t + 1 == |s.manifest|
    case Stopped => true
  }

  // The manifest lists the candidates in checkpoint order.
  ghost predicate ManifestOrdered(s: State) {
    forall i :: 0 <= i < |s.manifest| ==> s.manifest[i].tensor == i
  }

  ghost predicate OrderOk(cfg: Config, s: State) {
    ProducerOk(cfg, s) && PrefetchOk(s) && PackerOk(cfg, s) && ItemsOk(s) && FinalizerOk(s) && ManifestOrdered(s)
  }

  lemma OrderInitial(cfg: Config)
    ensures OrderOk(cfg, Initial())
  {
  }

  lemma OrderProducer(cfg: Config, s: State, step: Step)
    requires OrderOk(cfg, s) && Enabled(cfg, s, step) && (step.Reserve? || step.Put? || step.SetDone?)
    ensures OrderOk(cfg, Apply(cfg, s, step))
  {
  }

  lemma OrderLoop(cfg: Config, s: State, step: Step)
    requires OrderOk(cfg, s) && Enabled(cfg, s, step)
    requires step.TestDone? || step.TestEmpty? || step.Get? || step.GetTimeout?
    ensures OrderOk(cfg, Apply(cfg, s, step))
  {
  }

  lemma OrderWork(cfg: Config, s: State, step: Step)
    requires OrderOk(cfg, s) && Enabled(cfg, s, step)
    requires step.Submit? || step.PassFlush? || step.SubmitBarrier? || step.HandOver?
    ensures OrderOk(cfg, Apply(cfg, s, step))
  {
  }

  lemma OrderExit(cfg: Config, s: State, step: Step)
    requires OrderOk(cfg, s) && Enabled(cfg, s, step)
    requires step.JoinProducer? || step.PutStop? || step.JoinFinalizer? || step.WaitWriter?
    ensures OrderOk(cfg, Apply(cfg, s, step))
  {
  }

  lemma OrderTake(cfg: Config, s: State)
    requires OrderOk(cfg, s) && Enabled(cfg, s, TakeItem)
    ensures OrderOk(cfg, Apply(cfg, s, TakeItem))
  {
  }

  lemma OrderFinalizer(cfg: Config, s: State, step: Step)
    requires OrderOk(cfg, s) && Enabled(cfg, s, step)
    requires step.PassBarrier? || step.TaskDone?
    ensures OrderOk(cfg, Apply(cfg, s, step))
  {
    hide Hands, Range;
  }

  lemma OrderAppend(cfg: Config, s: State)
    requires OrderOk(cfg, s) && Enabled(cfg, s, Append)
    ensures OrderOk(cfg, Apply(cfg, s, Append))
  {
    hide Hands, Range;
  }

  // A release touches the budget's fields and nothing else.
  lemma ReleasedFrame(cfg: Config, s: State, t: nat)
    ensures var r := Released(cfg, s, t);
      r == s.(outstanding := r.outstanding, carrying := r.carrying, releases := r.releases)
  {
  }

  lemma OrderRelease(cfg: Config, s: State, step: Step)
    requires OrderOk(cfg, s) && Enabled(cfg, s, step) && (step.Release? || step.ReleaseAgain?)
    ensures OrderOk(cfg, Apply(cfg, s, step))
  {
    hide Released, Hands, Range;
    ReleasedFrame(cfg, s, s.finalizer.tensor);
  }

  lemma OrderWriter(cfg: Config, s: State, step: Step)
    requires OrderOk(cfg, s) && Enabled(cfg, s, step) && (step.TakeTask? || step.RunTask?)
    ensures OrderOk(cfg, Apply(cfg, s, step))
  {
  }

  lemma OrderKept(cfg: Config, s: State, step: Step)
    requires OrderOk(cfg, s) && Enabled(cfg, s, step)
    ensures OrderOk(cfg, Apply(cfg, s, step))
  {
    hide OrderOk, Enabled, Apply;
    match step
    case Reserve => OrderProducer(cfg, s, step);
    case Put => OrderProducer(cfg, s, step);
    case SetDone => OrderProducer(cfg, s, step);
    case TestDone => OrderLoop(cfg, s, step);
    case TestEmpty => OrderLoop(cfg, s, step);
    case Get => OrderLoop(cfg, s, step);
    case GetTimeout => OrderLoop(cfg, s, step);
    case Submit => OrderWork(cfg, s, step);
    case PassFlush => OrderWork(cfg, s, step);
    case SubmitBarrier => OrderWork(cfg, s, step);
    case HandOver => OrderWork(cfg, s, step);
    case JoinProducer => OrderExit(cfg, s, step);
    case PutStop => OrderExit(cfg, s, step);
    case JoinFinalizer => OrderExit(cfg, s, step);
    case WaitWriter => OrderExit(cfg, s, step);
    case TakeItem => OrderTake(cfg, s);
    case PassBarrier => OrderFinalizer(cfg, s, step);
    case Release => OrderRelease(cfg, s, step);
    case Append => OrderAppend(cfg, s);
    case ReleaseAgain => OrderRelease(cfg, s, step);
    case TaskDone => OrderFinalizer(cfg, s, step);
    case TakeTask => OrderWriter(cfg, s, step);
    case RunTask => OrderWriter(cfg, s, step);
  }

  // ------------------------------------------------------------------ the budget

  // Reservations made, and reservations given back.
  function Reserved(s: State): nat {
    s.produced + (if s.holding then 1 else 0)
  }

  function ReleasedCount(s: State): nat {
    |s.manifest| + (if s.finalizer.Appending? then 1 else 0)
  }

  function SumBytes(cfg: Config, a: nat, b: nat): nat {
    if b <= a then 0 else SumBytes(cfg, a, b - 1) + Bytes(cfg, b - 1)
  }

  lemma {:induction false} SumBytesFirst(cfg: Config, a: nat, b: nat)
    requires a < b
    ensures SumBytes(cfg, a, b) == Bytes(cfg, a) + SumBytes(cfg, a + 1, b)
  {
    if a + 1 < b {
      SumBytesFirst(cfg, a, b - 1);
    }
  }

  lemma {:induction false} SumBytesEach(cfg: Config, a: nat, b: nat, t: nat)
    requires a <= t < b
    ensures Bytes(cfg, t) <= SumBytes(cfg, a, b)
  {
    if t < b - 1 {
      SumBytesEach(cfg, a, b - 1, t);
    }
  }

  lemma {:induction false} SumBytesZero(cfg: Config, a: nat, b: nat)
    requires forall t: nat :: a <= t < b ==> Bytes(cfg, t) == 0
    ensures SumBytes(cfg, a, b) == 0
  {
    if a < b {
      SumBytesZero(cfg, a, b - 1);
      assert Bytes(cfg, b - 1) == 0;
    }
  }

  // At most one live reservation, t, is non-empty.
  ghost predicate Alone(cfg: Config, a: nat, b: nat, t: nat) {
    a <= t < b && forall u: nat :: a <= u < b && u != t ==> Bytes(cfg, u) == 0
  }

  ghost predicate SomeAlone(cfg: Config, a: nat, b: nat) {
    exists t: nat :: Alone(cfg, a, b, t)
  }

  // The bytes out are those of the live reservations, at most the budget
  // unless one non-empty reservation is alone, and each reservation that is no
  // longer live was released exactly once, in order.
  ghost predicate Accounts(cfg: Config, a: nat, b: nat, outstanding: nat, carrying: set<nat>, releases: seq<nat>) {
    if cfg.budget.None? then outstanding == 0 && carrying == {} && releases == []
    else
      && (forall t: nat :: t in carrying <==> a <= t < b)
      && releases == Range(0, a)
      && outstanding == SumBytes(cfg, a, b)
      && (outstanding <= cfg.budget.value || SomeAlone(cfg, a, b))
  }

  ghost predicate BudgetOk(cfg: Config, s: State) {
    Accounts(cfg, ReleasedCount(s), Reserved(s), s.outstanding, s.carrying, s.releases)
  }

  lemma BudgetInitial(cfg: Config)
    ensures BudgetOk(cfg, Initial())
  {
  }

  lemma ReserveBounded(cfg: Config, a: nat, b: nat, budget: nat)
    requires a <= b && (SumBytes(cfg, a, b) == 0 || SumBytes(cfg, a, b) + Bytes(cfg, b) <= budget)
    ensures SumBytes(cfg, a, b + 1) > budget ==> Alone(cfg, a, b + 1, b)
  {
    forall u: nat | a <= u < b
      ensures Bytes(cfg, u) <= SumBytes(cfg, a, b)
    {
      SumBytesEach(cfg, a, b, u);
    }
  }

  lemma BudgetReserve(cfg: Config, s: State)
    requires OrderOk(cfg, s) && BudgetOk(cfg, s) && Enabled(cfg, s, Reserve)
    ensures BudgetOk(cfg, Apply(cfg, s, Reserve))
  {
    if cfg.budget.Some? {
      var s' := Apply(cfg, s, Reserve);
      ReserveBounded(cfg, ReleasedCount(s), Reserved(s), cfg.budget.value);
      assert s'.outstanding > cfg.budget.value ==> Alone(cfg, ReleasedCount(s'), Reserved(s'), Reserved(s));
    }
  }

  lemma ReleaseBounded(cfg: Config, a: nat, b: nat, budget: nat)
    requires a < b && (SumBytes(cfg, a, b) <= budget || SomeAlone(cfg, a, b))
    ensures SumBytes(cfg, a + 1, b) <= budget || SomeAlone(cfg, a + 1, b)
  {
    SumBytesFirst(cfg, a, b);
    if SumBytes(cfg, a + 1, b) > budget {
      var t: nat :| Alone(cfg, a, b, t);
      if t == a {
        SumBytesZero(cfg, a + 1, b);
      } else {
        assert Alone(cfg, a + 1, b, t);
      }
    }
  }

  lemma ReleaseAccounts(cfg: Config, a: nat, b: nat, outstanding: nat, carrying: set<nat>, releases: seq<nat>)
    requires cfg.budget.Some? && a < b && Accounts(cfg, a, b, outstanding, carrying, releases)
    ensures a in carrying && outstanding >= Bytes(cfg, a)
    ensures Accounts(cfg, a + 1, b, outstanding - Bytes(cfg, a), carrying - {a}, releases + [a])
  {
    SumBytesFirst(cfg, a, b);
    ReleaseBounded(cfg, a, b, cfg.budget.value);
  }

  // The first release call gives the bytes back, never clamped at zero.
  lemma BudgetRelease(cfg: Config, s: State)
    requires OrderOk(cfg, s) && BudgetOk(cfg, s) && Enabled(cfg, s, Release)
    ensures BudgetOk(cfg, Apply(cfg, s, Release))
    ensures cfg.budget.Some? ==> Apply(cfg, s, Release).outstanding == s.outstanding - Bytes(cfg, s.finalizer.tensor)
  {
    if cfg.budget.Some? {
      hide Accounts, PackerOk, Hands, Range;
      ReleaseAccounts(cfg, ReleasedCount(s), Reserved(s), s.outstanding, s.carrying, s.releases);
    }
  }

  // The second release call, in the worker, changes nothing.
  lemma BudgetReleaseAgain(cfg: Config, s: State)
    requires OrderOk(cfg, s) && BudgetOk(cfg, s) && Enabled(cfg, s, ReleaseAgain)
    ensures BudgetOk(cfg, Apply(cfg, s, ReleaseAgain))
    ensures Apply(cfg, s, ReleaseAgain) == s.(finalizer := Closing(s.finalizer.tensor))
  {
  }

  lemma BudgetSame(cfg: Config, s: State, step: Step)
    requires BudgetOk(cfg, s) && Enabled(cfg, s, step)
    requires !step.Reserve? && !step.Release? && !step.ReleaseAgain?
    ensures BudgetOk(cfg, Apply(cfg, s, step))
  {
    hide Accounts, Execute;
    var s' := Apply(cfg, s, step);
    assert Reserved(s') == Reserved(s) && ReleasedCount(s') == ReleasedCount(s);
  }

  lemma BudgetKept(cfg: Config, s: State, step: Step)
    requires OrderOk(cfg, s) && BudgetOk(cfg, s) && Enabled(cfg, s, step)
    ensures BudgetOk(cfg, Apply(cfg, s, step))
  {
    hide BudgetOk, Apply;
    match step
    case Reserve => BudgetReserve(cfg, s);
    case Release => BudgetRelease(cfg, s);
    case ReleaseAgain => BudgetReleaseAgain(cfg, s);
    case _ => BudgetSame(cfg, s, step);
  }
}

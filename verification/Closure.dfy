/**
 analyzeMethods and its worker tasks as a transition system. A worker's run is
 unlocked and its locked sections are atomic, so every interleaving of the
 driver and up to sixteen tasks is a sequence of these steps.
 */
module Closure {
  import opened Collections
  import opened SharedStates
  import opened Ledger

  const SLOTS: nat := 16

  /** One entry of the Futures vector; all but `Invalid` are valid futures. */
  datatype Slot<M, S> =
    | Invalid
    | Queued                              // the task has not looked at the maps yet
    | Running(m: M, s: S, next: nat)      // runs `next`, `next + 1`, ... are still to publish
    | Ready

  /** Where the driver's loop is. The loop condition reads the futures first and
      the Incomplete map second. */
  datatype Driver = Testing | SawAllInvalid | Working | Spawned | Exited

  datatype System<M(==), S> = System(
    shared: Shared<M, S>,
    slots: seq<Slot<M, S>>,
    driver: Driver,
    runsDone: nat
  )

  datatype Action<M> =
    | TestFutures
    | TestIncomplete
    | Clear(i: nat)            // checkFutures drops a ready future
    | Spawn(i: nat)            // getFutureAvailable found slot i
    | EndBody
    | FindNothing(i: nat)
    | EraseEmptyEntry(i: nat, m: M)
    | Take(i: nat, m: M)
    | RunAndPublish(i: nat)

  ghost predicate AllInvalid<M(!new), S(!new)>(slots: seq<Slot<M, S>>) {
    forall i :: 0 <= i < |slots| ==> slots[i].Invalid?
  }

  ghost predicate DriverStep<M(!new), S(!new)>(x: System<M, S>, a: Action<M>, y: System<M, S>) {
    match a
    case TestFutures =>
      && x.driver.Testing?
      && y == x.(driver := if AllInvalid(x.slots) then SawAllInvalid else Working)
    case TestIncomplete =>
      && x.driver.SawAllInvalid?
      && y == x.(driver := if x.shared.incomplete == map[] then Exited else Working)
    case Clear(i) =>
      && (x.driver.Working? || x.driver.Spawned?)
      && i < |x.slots| && x.slots[i].Ready?
      && y == x.(slots := x.slots[i := Invalid])
    case Spawn(i) =>
      && x.driver.Working?
      && i < |x.slots| && x.slots[i].Invalid?
      && (forall j :: 0 <= j < i ==> !x.slots[j].Invalid?)
      && y == x.(slots := x.slots[i := Queued], driver := Spawned)
    case EndBody =>
      && x.driver.Spawned?
      && y == x.(driver := Testing)
    case _ => false
  }

  ghost predicate WorkerStep<M(!new), S(!new)>(
      prog: Program<M, S>, x: System<M, S>, a: Action<M>, y: System<M, S>)
  {
    match a
    case FindNothing(i) =>
      && i < |x.slots| && x.slots[i].Queued?
      && x.shared.incomplete == map[]
      && y == x.(slots := x.slots[i := Ready])
    case EraseEmptyEntry(i, m) =>
      && i < |x.slots| && x.slots[i].Queued?
      && m in x.shared.incomplete && x.shared.incomplete[m] == []
      && y == x.(slots := x.slots[i := Ready], shared := EraseFrom(m, x.shared))
    case Take(i, m) =>
      && i < |x.slots| && x.slots[i].Queued?
      && m in x.shared.incomplete && x.shared.incomplete[m] != []
      && var w := x.shared.incomplete[m];
         y == x.(slots := x.slots[i := Running(m, w[|w| - 1], 0)], shared := TakeFrom(m, x.shared))
    case RunAndPublish(i) =>
      && i < |x.slots| && x.slots[i].Running?
      && var Running(m, s, k) := x.slots[i];
         && y.slots == x.slots[i := if k + 1 < prog.runs(m) then Running(m, s, k + 1) else Ready]
         && y.driver == x.driver
         && y.runsDone == x.runsDone + 1
         && (if prog.dom.isBottom(prog.result(m, k, s)) then y.shared == x.shared
             else Publishes(prog, prog.final(m, prog.result(m, k, s)), x.shared, y.shared))
    case _ => false
  }

  ghost predicate StepBy<M(!new), S(!new)>(
      prog: Program<M, S>, x: System<M, S>, a: Action<M>, y: System<M, S>)
  {
    DriverStep(x, a, y) || WorkerStep(prog, x, a, y)
  }

  ghost predicate Init<M(!new), S(!new)>(prog: Program<M, S>, x: System<M, S>) {
    && Seeded(prog, x.shared)
    && |x.slots| == SLOTS && AllInvalid(x.slots)
    && x.driver.Testing?
    && x.runsDone == 0
  }

  /** Any interleaving: a sequence of systems, one step apart. */
  ghost predicate IsTrace<M(!new), S(!new)>(prog: Program<M, S>, xs: seq<System<M, S>>) {
    && xs != []
    && Init(prog, xs[0])
    && forall i :: 0 <= i < |xs| - 1 ==> Linked(prog, xs[i], xs[i + 1])
  }

  ghost predicate Linked<M(!new), S(!new)>(prog: Program<M, S>, x: System<M, S>, y: System<M, S>) {
    exists a :: StepBy(prog, x, a, y)
  }

  // ---- the invariant ----

  /** Some in-flight worker still has to publish run `r` of `m` from `s`. */
  ghost predicate InFlight<M(!new), S(!new)>(slots: seq<Slot<M, S>>, m: M, r: nat, s: S) {
    exists i :: 0 <= i < |slots| && Owes(slots[i], m, r, s)
  }

  ghost predicate Owes<M(!new), S(!new)>(slot: Slot<M, S>, m: M, r: nat, s: S) {
    slot.Running? && slot.m == m && slot.s == s && slot.next <= r
  }

  /** Run `r` of `m` from `s` is bottom, or `n` knows what it offers. */
  ghost predicate Delivered<M(!new), S(!new)>(
      prog: Program<M, S>, sh: Shared<M, S>, m: M, r: nat, s: S, n: M)
  {
    prog.dom.isBottom(prog.result(m, r, s)) || Known(prog.dom, sh, n, prog.Offer(m, r, s, n))
  }

  /** Every run of every state in Complete is delivered everywhere or in flight. */
  ghost predicate Published<M(!new), S(!new)>(prog: Program<M, S>, x: System<M, S>) {
    forall m, s, r: nat, n ::
      m in prog.methods && n in prog.methods && s in At(x.shared.complete, m) && r < prog.runs(m) ==>
        InFlight(x.slots, m, r, s) || Delivered(prog, x.shared, m, r, s, n)
  }

  ghost predicate SlotsOk<M(!new), S(!new)>(prog: Program<M, S>, x: System<M, S>) {
    && |x.slots| == SLOTS
    && (forall i :: 0 <= i < |x.slots| && x.slots[i].Running? ==>
          x.slots[i].m in prog.methods && x.slots[i].next < prog.runs(x.slots[i].m))
    && (x.driver.SawAllInvalid? || x.driver.Exited? ==> AllInvalid(x.slots))
    && (x.driver.Exited? ==> x.shared.incomplete == map[])
  }

  ghost predicate SeedsPushed<M(!new), S(!new)>(prog: Program<M, S>, sh: Shared<M, S>) {
    forall m :: m in prog.methods ==> (m, prog.seed(m)) in sh.pushed
  }

  ghost function Left<M(!new), S(!new)>(prog: Program<M, S>, slot: Slot<M, S>): int {
    if slot.Running? then prog.runs(slot.m) - slot.next else 0
  }

  ghost function AllLeft<M(!new), S(!new)>(prog: Program<M, S>, slots: seq<Slot<M, S>>): int {
    if slots == [] then 0 else Left(prog, slots[0]) + AllLeft(prog, slots[1..])
  }

  ghost function RunsOf<M(!new), S(!new)>(prog: Program<M, S>, taken: seq<(M, S)>): nat {
    if taken == [] then 0
    else RunsOf(prog, taken[..|taken| - 1]) + prog.runs(taken[|taken| - 1].0)
  }

  /** Runs done and runs still owed are exactly the runs of the taken states. */
  ghost predicate Counted<M(!new), S(!new)>(prog: Program<M, S>, x: System<M, S>) {
    x.runsDone + AllLeft(prog, x.slots) == RunsOf(prog, x.shared.taken)
  }

  ghost predicate Inv<M(!new), S(!new)>(prog: Program<M, S>, x: System<M, S>) {
    && Kept(prog, x.shared)
    && SlotsOk(prog, x)
    && SeedsPushed(prog, x.shared)
    && Published(prog, x)
    && Counted(prog, x)
  }

  // ---- each step keeps it ----

  lemma {:induction false} AllLeftUpdate<M(!new), S(!new)>(
      prog: Program<M, S>, slots: seq<Slot<M, S>>, i: nat, v: Slot<M, S>)
    requires i < |slots|
    ensures AllLeft(prog, slots[i := v]) == AllLeft(prog, slots) - Left(prog, slots[i]) + Left(prog, v)
  {
    var u := slots[i := v];
    if i == 0 {
      assert u[1..] == slots[1..];
    } else {
      AllLeftUpdate(prog, slots[1..], i - 1, v);
      assert u[1..] == slots[1..][i - 1 := v];
    }
  }

  /** A step that changes one slot which owed nothing, and only adds to what is known. */
  lemma PublishedCarriesOver<M(!new), S(!new)>(
      prog: Program<M, S>, x: System<M, S>, y: System<M, S>, i: nat, v: Slot<M, S>)
    requires Published(prog, x) && Grows(prog.dom, x.shared, y.shared)
    requires i < |x.slots| && !x.slots[i].Running? && y.slots == x.slots[i := v]
    requires forall m, s :: s in At(y.shared.complete, m) ==>
               s in At(x.shared.complete, m) || v == Running(m, s, 0)
    ensures Published(prog, y)
  {
    forall m, s, r: nat, n | m in prog.methods && n in prog.methods && s in At(y.shared.complete, m) && r < prog.runs(m)
      ensures InFlight(y.slots, m, r, s) || Delivered(prog, y.shared, m, r, s, n)
    {
      if v == Running(m, s, 0) {
        assert Owes(y.slots[i], m, r, s);
      } else if InFlight(x.slots, m, r, s) {
        var j :| 0 <= j < |x.slots| && Owes(x.slots[j], m, r, s);
        assert Owes(y.slots[j], m, r, s);
      } else {
        assert Delivered(prog, x.shared, m, r, s, n);
      }
    }
  }

  lemma DriverKeeps<M(!new), S(!new)>(
      prog: Program<M, S>, x: System<M, S>, a: Action<M>, y: System<M, S>)
    requires prog.Valid() && Inv(prog, x) && DriverStep(x, a, y)
    ensures Inv(prog, y)
  {
    match a
    case Clear(i) =>
      AllLeftUpdate(prog, x.slots, i, Invalid);
      PublishedCarriesOver(prog, x, y, i, Invalid);
    case Spawn(i) =>
      AllLeftUpdate(prog, x.slots, i, Queued);
      PublishedCarriesOver(prog, x, y, i, Queued);
    case TestFutures =>
    case TestIncomplete =>
    case EndBody =>
    case _ =>
  }

  /** While some future is valid, the driver is not past its first test. */
  lemma WorkerMeansBusy<M(!new), S(!new)>(prog: Program<M, S>, x: System<M, S>, i: nat)
    requires SlotsOk(prog, x) && i < |x.slots| && !x.slots[i].Invalid?
    ensures !x.driver.SawAllInvalid? && !x.driver.Exited?
  {
  }

  lemma IdleKeeps<M(!new), S(!new)>(
      prog: Program<M, S>, x: System<M, S>, i: nat, a: Action<M>, y: System<M, S>)
    requires prog.Valid() && Inv(prog, x) && WorkerStep(prog, x, a, y)
    requires a == FindNothing(i) || (a.EraseEmptyEntry? && a.i == i)
    ensures Inv(prog, y)
  {
    WorkerMeansBusy(prog, x, i);
    if a.EraseEmptyEntry? {
      EraseKeeps(prog, a.m, x.shared);
    }
    AllLeftUpdate(prog, x.slots, i, Ready);
    PublishedCarriesOver(prog, x, y, i, Ready);
  }

  lemma TakeKeepsPublished<M(!new), S(!new)>(
      prog: Program<M, S>, x: System<M, S>, i: nat, m: M, y: System<M, S>)
    requires prog.Valid() && Kept(prog, x.shared) && Published(prog, x)
    requires WorkerStep(prog, x, Take(i, m), y)
    ensures Published(prog, y) && Kept(prog, y.shared) && x.shared.pushed <= y.shared.pushed
  {
    TakeKeeps(prog, m, x.shared);
    PublishedCarriesOver(prog, x, y, i, y.slots[i]);
  }

  /** Slot `i` changes hands while some future is valid. */
  lemma SlotsStayOk<M(!new), S(!new)>(
      prog: Program<M, S>, x: System<M, S>, i: nat, v: Slot<M, S>, y: System<M, S>)
    requires SlotsOk(prog, x) && i < |x.slots| && !x.slots[i].Invalid?
    requires y.slots == x.slots[i := v] && y.driver == x.driver
    requires v.Running? ==> v.m in prog.methods && v.next < prog.runs(v.m)
    ensures SlotsOk(prog, y)
  {
    WorkerMeansBusy(prog, x, i);
  }

  /** One slot's debt moves between runs done, runs left and runs taken on. */
  lemma CountMoves<M(!new), S(!new)>(
      prog: Program<M, S>, x: System<M, S>, i: nat, v: Slot<M, S>, y: System<M, S>)
    requires Counted(prog, x) && i < |x.slots| && y.slots == x.slots[i := v]
    requires y.runsDone + Left(prog, v) - RunsOf(prog, y.shared.taken)
          == x.runsDone + Left(prog, x.slots[i]) - RunsOf(prog, x.shared.taken)
    ensures Counted(prog, y)
  {
    AllLeftUpdate(prog, x.slots, i, v);
  }

  lemma TakeKeepsSlots<M(!new), S(!new)>(
      prog: Program<M, S>, x: System<M, S>, i: nat, m: M, y: System<M, S>)
    requires prog.Valid() && Kept(prog, x.shared) && SlotsOk(prog, x) && WorkerStep(prog, x, Take(i, m), y)
    ensures SlotsOk(prog, y)
  {
    assert m in prog.methods;
    SlotsStayOk(prog, x, i, y.slots[i], y);
  }

  lemma TakeKeepsCount<M(!new), S(!new)>(
      prog: Program<M, S>, x: System<M, S>, i: nat, m: M, y: System<M, S>)
    requires Counted(prog, x) && WorkerStep(prog, x, Take(i, m), y)
    ensures Counted(prog, y)
  {
    assert y.shared.taken[..|x.shared.taken|] == x.shared.taken;
    CountMoves(prog, x, i, y.slots[i], y);
  }

  lemma TakeStepKeeps<M(!new), S(!new)>(
      prog: Program<M, S>, x: System<M, S>, i: nat, m: M, y: System<M, S>)
    requires prog.Valid() && Inv(prog, x) && WorkerStep(prog, x, Take(i, m), y)
    ensures Inv(prog, y)
  {
    TakeKeepsPublished(prog, x, i, m, y);
    TakeKeepsSlots(prog, x, i, m, y);
    TakeKeepsCount(prog, x, i, m, y);
  }

  /** What one RunAndPublish does to the maps. */
  lemma RunGrows<M(!new), S(!new)>(
      prog: Program<M, S>, x: System<M, S>, i: nat, y: System<M, S>)
    requires prog.Valid() && Kept(prog, x.shared) && WorkerStep(prog, x, RunAndPublish(i), y)
    ensures Kept(prog, y.shared) && Grows(prog.dom, x.shared, y.shared)
    ensures y.shared.taken == x.shared.taken
    ensures forall n :: At(y.shared.complete, n) == At(x.shared.complete, n)
    ensures var Running(m, s, k) := x.slots[i];
            forall n :: n in prog.methods ==> Delivered(prog, y.shared, m, k, s, n)
  {
    var Running(m, s, k) := x.slots[i];
    if !prog.dom.isBottom(prog.result(m, k, s)) {
      PublishKeeps(prog, prog.final(m, prog.result(m, k, s)), x.shared, y.shared);
    }
  }

  /** Slot `i` published its next run; every other debt is the same. */
  lemma DebtMoves<M(!new), S(!new)>(
      prog: Program<M, S>, x: System<M, S>, i: nat, y: System<M, S>, m: M, r: nat, s: S)
    requires WorkerStep(prog, x, RunAndPublish(i), y) && r < prog.runs(m) && InFlight(x.slots, m, r, s)
    ensures InFlight(y.slots, m, r, s) || x.slots[i] == Running(m, s, r)
  {
    var j :| 0 <= j < |x.slots| && Owes(x.slots[j], m, r, s);
    if j != i || x.slots[i].next < r {
      assert Owes(y.slots[j], m, r, s);
    }
  }

  lemma RunKeepsPublished<M(!new), S(!new)>(
      prog: Program<M, S>, x: System<M, S>, i: nat, y: System<M, S>)
    requires Published(prog, x) && WorkerStep(prog, x, RunAndPublish(i), y)
    requires Grows(prog.dom, x.shared, y.shared)
    requires forall m :: At(y.shared.complete, m) == At(x.shared.complete, m)
    requires var Running(m, s, k) := x.slots[i];
             forall n :: n in prog.methods ==> Delivered(prog, y.shared, m, k, s, n)
    ensures Published(prog, y)
  {
    forall m, s, r: nat, n |
      m in prog.methods && n in prog.methods && s in At(y.shared.complete, m) && r < prog.runs(m)
      ensures InFlight(y.slots, m, r, s) || Delivered(prog, y.shared, m, r, s, n)
    {
      if InFlight(x.slots, m, r, s) {
        DebtMoves(prog, x, i, y, m, r, s);
      } else {
        assert Delivered(prog, x.shared, m, r, s, n);
      }
    }
  }

  lemma RunKeeps<M(!new), S(!new)>(
      prog: Program<M, S>, x: System<M, S>, i: nat, y: System<M, S>)
    requires prog.Valid() && Inv(prog, x) && WorkerStep(prog, x, RunAndPublish(i), y)
    ensures Inv(prog, y)
  {
    RunGrows(prog, x, i, y);
    RunKeepsPublished(prog, x, i, y);
    SlotsStayOk(prog, x, i, y.slots[i], y);
    CountMoves(prog, x, i, y.slots[i], y);
  }

  lemma StepKeeps<M(!new), S(!new)>(
      prog: Program<M, S>, x: System<M, S>, a: Action<M>, y: System<M, S>)
    requires prog.Valid() && Inv(prog, x) && StepBy(prog, x, a, y)
    ensures Inv(prog, y)
  {
    if DriverStep(x, a, y) {
      DriverKeeps(prog, x, a, y);
    } else if a.RunAndPublish? {
      RunKeeps(prog, x, a.i, y);
    } else if a.Take? {
      TakeStepKeeps(prog, x, a.i, a.m, y);
    } else {
      IdleKeeps(prog, x, a.i, a, y);
    }
  }

  lemma {:induction false} NothingLeft<M(!new), S(!new)>(prog: Program<M, S>, slots: seq<Slot<M, S>>)
    requires AllInvalid(slots)
    ensures AllLeft(prog, slots) == 0
  {
    if slots != [] {
      NothingLeft(prog, slots[1..]);
    }
  }

  lemma InitHasInv<M(!new), S(!new)>(prog: Program<M, S>, x: System<M, S>)
    requires prog.Valid() && Init(prog, x)
    ensures Inv(prog, x)
  {
    SeededKeeps(prog, x.shared);
    NothingLeft(prog, x.slots);
  }

  /** The invariant holds in every interleaving. */
  lemma {:induction false} TraceHasInv<M(!new), S(!new)>(prog: Program<M, S>, xs: seq<System<M, S>>)
    requires prog.Valid() && IsTrace(prog, xs)
    ensures Inv(prog, xs[|xs| - 1])
  {
    if |xs| == 1 {
      InitHasInv(prog, xs[0]);
    } else {
      var n := |xs| - 2;
      TraceHasInv(prog, xs[..n + 1]);
      assert Linked(prog, xs[n], xs[n + 1]);
      var a :| StepBy(prog, xs[n], a, xs[n + 1]);
      StepKeeps(prog, xs[n], a, xs[n + 1]);
    }
  }

  // ---- what it says ----

  /** A run of a completed state is published everywhere unless its worker is
      still under way. */
  lemma RunsArePublished<M(!new), S(!new)>(
      prog: Program<M, S>, xs: seq<System<M, S>>, m: M, s: S, r: nat, n: M)
    requires prog.Valid() && IsTrace(prog, xs)
    requires m in prog.methods && n in prog.methods && r < prog.runs(m)
    requires s in At(xs[|xs| - 1].shared.complete, m)
    ensures var x := xs[|xs| - 1];
            InFlight(x.slots, m, r, s) || Delivered(prog, x.shared, m, r, s, n)
  {
    TraceHasInv(prog, xs);
  }

  /** When the driver leaves its loop, no worker is in flight, nothing is
      pending, and Complete is closed under running every method. */
  ghost predicate Closed<M(!new), S(!new)>(prog: Program<M, S>, complete: map<M, seq<S>>) {
    && (forall m :: m in prog.methods ==> prog.seed(m) in At(complete, m))
    && (forall m, s, r: nat, n ::
          m in prog.methods && n in prog.methods && s in At(complete, m) && r < prog.runs(m) ==>
            || prog.dom.isBottom(prog.result(m, r, s))
            || Subsumed(prog.dom, prog.Offer(m, r, s, n), At(complete, n)))
  }

  lemma ExitIsQuiescent<M(!new), S(!new)>(prog: Program<M, S>, xs: seq<System<M, S>>)
    requires prog.Valid() && IsTrace(prog, xs) && xs[|xs| - 1].driver.Exited?
    ensures AllInvalid(xs[|xs| - 1].slots) && xs[|xs| - 1].shared.incomplete == map[]
    ensures Closed(prog, xs[|xs| - 1].shared.complete)
  {
    var x := xs[|xs| - 1];
    TraceHasInv(prog, xs);
    forall m | m in prog.methods
      ensures prog.seed(m) in At(x.shared.complete, m)
    {
      assert (m, prog.seed(m)) in x.shared.pushed;
    }
    forall m, s, r: nat, n | m in prog.methods && n in prog.methods && s in At(x.shared.complete, m) && r < prog.runs(m)
      ensures prog.dom.isBottom(prog.result(m, r, s))
           || Subsumed(prog.dom, prog.Offer(m, r, s, n), At(x.shared.complete, n))
    {
      assert !InFlight(x.slots, m, r, s);
      assert Delivered(prog, x.shared, m, r, s, n);
    }
  }

  lemma NoWorkerToStep<M(!new), S(!new)>(
      prog: Program<M, S>, x: System<M, S>, a: Action<M>, y: System<M, S>)
    requires SlotsOk(prog, x) && x.driver.SawAllInvalid? && StepBy(prog, x, a, y)
    ensures a.TestIncomplete? && y.shared == x.shared
  {
    if WorkerStep(prog, x, a, y) {
      WorkerMeansBusy(prog, x, a.i);
    }
  }

  /** Once the driver has seen all futures invalid, no task can act before it
      reads the Incomplete map. */
  lemma OnlyDriverMovesAfterTest<M(!new), S(!new)>(
      prog: Program<M, S>, xs: seq<System<M, S>>, a: Action<M>, y: System<M, S>)
    requires prog.Valid() && IsTrace(prog, xs) && xs[|xs| - 1].driver.SawAllInvalid?
    requires StepBy(prog, xs[|xs| - 1], a, y)
    ensures a.TestIncomplete? && y.shared == xs[|xs| - 1].shared
  {
    TraceHasInv(prog, xs);
    NoWorkerToStep(prog, xs[|xs| - 1], a, y);
  }

  // ---- the bound ----

  /** In every interleaving, a state pushed later for a method is never more
      specific than one pushed earlier. */
  lemma HistoryNeverBelow<M(!new), S(!new)>(
      prog: Program<M, S>, xs: seq<System<M, S>>, i: nat, j: nat)
    requires prog.Valid() && IsTrace(prog, xs)
    requires var h := xs[|xs| - 1].shared.pushed; i < j < |h| && h[i].0 == h[j].0
    ensures var h := xs[|xs| - 1].shared.pushed; !prog.dom.leq(h[j].1, h[i].1)
  {
    TraceHasInv(prog, xs);
  }

  lemma {:induction false} RunsAreAtMostTwo<M(!new), S(!new)>(prog: Program<M, S>, taken: seq<(M, S)>)
    requires prog.Valid() && forall t :: t in taken ==> t.0 in prog.methods
    ensures RunsOf(prog, taken) <= 2 * |taken|
  {
    if taken != [] {
      var n := |taken| - 1;
      assert taken[n] in taken;
      RunsAreAtMostTwo(prog, taken[..n]);
    }
  }

  /** How many workers have a run to finish. */
  ghost function InProgress<M(!new), S(!new)>(slots: seq<Slot<M, S>>): nat {
    if slots == [] then 0 else (if slots[0].Running? then 1 else 0) + InProgress(slots[1..])
  }

  lemma {:induction false} RunningIsLeft<M(!new), S(!new)>(prog: Program<M, S>, slots: seq<Slot<M, S>>)
    requires forall i :: 0 <= i < |slots| && slots[i].Running? ==> slots[i].next < prog.runs(slots[i].m)
    ensures InProgress(slots) <= AllLeft(prog, slots)
  {
    if slots != [] {
      RunningIsLeft(prog, slots[1..]);
    }
  }

  ghost function Pairs<M(!new), S(!new)>(ms: set<M>, ss: set<S>): set<(M, S)> {
    set m, s | m in ms && s in ss :: (m, s)
  }

  lemma {:induction false} PairsWith<M(!new), S(!new)>(m: M, ss: set<S>)
    ensures |Pairs({m}, ss)| == |ss|
  {
    if ss != {} {
      var s :| s in ss;
      PairsWith(m, ss - {s});
      assert Pairs({m}, ss) == Pairs({m}, ss - {s}) + {(m, s)};
    } else {
      assert Pairs({m}, ss) == {};
    }
  }

  lemma PairsSplit<M(!new), S(!new)>(ms: set<M>, m: M, ss: set<S>)
    requires m in ms
    ensures Pairs(ms, ss) == Pairs(ms - {m}, ss) + Pairs({m}, ss)
    ensures Pairs(ms - {m}, ss) !! Pairs({m}, ss)
  {
  }

  lemma {:induction false} CountPairs<M(!new), S(!new)>(ms: set<M>, ss: set<S>)
    ensures |Pairs(ms, ss)| == |ms| * |ss|
    decreases |ms|
  {
    if ms != {} {
      var m :| m in ms;
      PairsSplit(ms, m, ss);
      PairsWith(m, ss);
      CountPairs(ms - {m}, ss);
      assert |ms - {m}| == |ms| - 1;
      OneLess(|ms|, |ss|);
    } else {
      assert Pairs(ms, ss) == {};
    }
  }

  lemma OneLess(n: nat, k: nat)
    requires n > 0
    ensures (n - 1) * k + k == n * k
  {
  }

  /** Over finitely many states, the runs of a class, finished or in progress,
      number at most 2 * |methods| * |states|, however many idle tasks are
      spawned. */
  lemma RunsAreBounded<M(!new), S(!new)>(
      prog: Program<M, S>, xs: seq<System<M, S>>, states: set<S>)
    requires prog.Valid() && IsTrace(prog, xs)
    requires forall m, s :: (m, s) in xs[|xs| - 1].shared.taken ==> s in states
    ensures xs[|xs| - 1].runsDone + InProgress(xs[|xs| - 1].slots) <= 2 * (|prog.methods| * |states|)
  {
    var x := xs[|xs| - 1];
    TraceHasInv(prog, xs);
    forall t | t in x.shared.taken
      ensures t in Pairs(prog.methods, states)
    {
      var (m, s) := t;
      assert (m, s) in x.shared.taken;
      assert s in At(x.shared.complete, m);
    }
    NoDupWithin(x.shared.taken, Pairs(prog.methods, states));
    CountPairs(prog.methods, states);
    RunsAreAtMostTwo(prog, x.shared.taken);
    RunningIsLeft(prog, x.slots);
  }
}

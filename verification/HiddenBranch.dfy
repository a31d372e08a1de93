/**
 The condition on paths in PathSoundness is exact: a conditional branch whose
 two sides meet loses its false side, because getCurrentState refines both
 edges as if the condition were true.

 The domain `MARKS` remembers whether a path took such a side. On every graph,
 its analysis covers a path exactly when the path is not lost.
 */
module HiddenBranch {
  import opened Collections
  import opened Wrappers
  import opened AbstractDomain
  import opened ControlFlow
  import opened SolverSpec
  import opened Fixpoint
  import opened Solver
  import opened PathSoundness

  /** Nothing arrives; only paths that hide no side; only others; both kinds. */
  datatype Mark = Dead | Clean | Marked | Mixed

  const MARKS: Domain<Mark> := Domain(
    (x: Mark, y: Mark) => x == Dead || y == Mixed || x == y,
    (x: Mark, y: Mark) => x == y,
    (x: Mark) => x == Dead,
    Dead,
    (x: Mark, y: Mark) => if x == Dead || x == y then y else if y == Dead then x else Mixed,
    (x: Mark) => Dead)

  /** Only the false side of a branch whose sides meet changes the mark. */
  function Marking(g: Cfg, ignored: Option<Edge>): Problem<Mark> {
    Problem(g, MARKS, Clean, ignored,
            (b, i, s) => s,
            (b, i, l, s) => s,
            (b: Block, v, s) => if s != Dead && !v && BothSidesMeet(g, b) then Marked else s,
            true,
            (b, s) => s)
  }

  lemma MarkingIsValid(g: Cfg, ignored: Option<Edge>)
    requires g.WellFormed()
    ensures Marking(g, ignored).Valid()
  {
  }

  // ---- the solver never marks a state ----

  ghost predicate Unmarked(s: Mark) {
    s == Dead || s == Clean
  }

  ghost predicate AllUnmarked(f: Flow<Mark>) {
    && (forall e :: e in f.states ==> Unmarked(f.states[e]))
    && (forall b :: b in f.exits ==> Unmarked(f.exits[b]))
  }

  lemma {:induction false} MergeIsUnmarked(
      p: Problem<Mark>, f: Flow<Mark>, b: Block, i: nat, acc: Option<Mark>)
    requires p == Marking(p.g, p.ignored) && p.g.WellFormed() && p.g.Has(b) && i <= |p.g.preds[b]|
    requires AllUnmarked(f) && (acc.Some? ==> acc.value == Clean)
    ensures var r := p.MergeFrom(f.states, b, i, acc); r.Some? ==> r.value == Clean
    decreases |p.g.preds[b]| - i
  {
    if i < |p.g.preds[b]| {
      var s := p.PredOrInitial(f.states, Edge(p.g.preds[b][i], b));
      assert Unmarked(s);
      MergeIsUnmarked(p, f, b, i + 1, acc);
      MergeIsUnmarked(p, f, b, i + 1, Some(Clean));
    }
  }

  /** Instructions keep a mark, unless a landing pad makes the state bottom. */
  lemma {:induction false} ExecKeepsMark(p: Problem<Mark>, b: Block, n: nat, live: set<Block>, s: Mark)
    requires p == Marking(p.g, p.ignored) && p.g.Has(b) && n <= |p.g.Insts(b)|
    ensures p.Exec(b, n, live, s) in {s, Dead}
  {
    if n > 0 {
      ExecKeepsMark(p, b, n - 1, live, s);
    }
  }

  lemma {:induction false} AfterKeepsMark(
      p: Problem<Mark>, path: Path, from: set<Block>, s: Mark, n: nat)
    requires p == Marking(p.g, p.ignored) && p.g.Has(End(p.g, path)) && n <= |p.g.Insts(End(p.g, path))|
    requires LandingPad !in p.g.Insts(End(p.g, path))
    ensures After(p, Own(p), path, from, s, n) == s
  {
    if n > 0 {
      assert p.g.Insts(End(p.g, path))[n - 1] in p.g.Insts(End(p.g, path));
      AfterKeepsMark(p, path, from, s, n - 1);
    }
  }

  /** When the sides meet, the target sent to is the true side's. */
  lemma SentKeepsMark(p: Problem<Mark>, b: Block, i: nat, s: Mark)
    requires p == Marking(p.g, p.ignored) && p.g.Has(b) && i < |p.g.Succs(b)|
    ensures p.Sent(b, p.g.Succs(b)[i], s) == s
  {
    if p.g.Term(b).Branch? {
      var v := p.g.Term(b).onTrue == p.g.Succs(b)[i];
      assert v || !BothSidesMeet(p.g, b);
    }
  }

  lemma {:induction false} SendIsUnmarked(p: Problem<Mark>, b: Block, s: Mark, i: nat, f: Flow<Mark>)
    requires p == Marking(p.g, p.ignored) && p.g.WellFormed() && p.g.Has(b) && i <= |p.g.Succs(b)|
    requires AllUnmarked(f) && Unmarked(s)
    ensures AllUnmarked(p.Send(b, s, i, f))
    decreases |p.g.Succs(b)| - i
  {
    if i < |p.g.Succs(b)| {
      SentKeepsMark(p, b, i, s);
      SendIsUnmarked(p, b, s, i + 1, p.SendTo(b, s, i, f));
    }
  }

  lemma NextIsUnmarked(p: Problem<Mark>, r: Progress<Mark>)
    requires p == Marking(p.g, p.ignored) && p.g.WellFormed()
    requires Queue(p, r.flow) && r.flow.worklist != [] && AllUnmarked(r.flow)
    ensures AllUnmarked(Next(p, r).flow)
  {
    var k := p.Chosen(r.flow);
    var b := r.flow.worklist[k];
    assert b in r.flow.worklist;
    MergeIsUnmarked(p, r.flow, b, 0, None);
    ExecKeepsMark(p, b, |p.g.Insts(b)|, p.Live(r.flow.states, b), p.Input(r.flow.states, b));
    var rest := r.flow.(worklist := Rotated(r.flow.worklist, k));
    SendIsUnmarked(p, b, p.Output(r.flow.states, b), 0, rest);
  }

  lemma {:induction false} RunIsUnmarked(p: Problem<Mark>, rs: seq<Progress<Mark>>)
    requires p == Marking(p.g, p.ignored) && IsRun(p, rs)
    ensures AllUnmarked(Last(rs).flow)
  {
    if |rs| > 1 {
      ShorterRun(p, rs);
      RunIsUnmarked(p, rs[..|rs| - 1]);
      NextIsUnmarked(p, Last(rs[..|rs| - 1]));
    }
  }

  lemma {:induction false} ResultIsUnmarked(p: Problem<Mark>, f: Flow<Mark>, order: seq<Block>)
    requires p == Marking(p.g, p.ignored) && AllUnmarked(f) && forall b :: b in order ==> b in f.exits
    ensures Unmarked(MergeExits(p, f.exits, order))
  {
    if order != [] {
      ResultIsUnmarked(p, f, order[..|order| - 1]);
    }
  }

  // ---- a path that hides a side is marked ----

  lemma {:induction false} PathIsMarked(p: Problem<Mark>, path: Path)
    requires p == Marking(p.g, p.ignored) && p.g.WellFormed() && On(p, path) && NoPads(p.g, path)
    ensures StateAtEnd(p, Own(p), path) == if Hidden(p.g, path) then Marked else Clean
  {
    EndExists(p, path);
    var b := End(p.g, path);
    match path {
      case AtEntry =>
        AfterKeepsMark(p, path, {}, p.initial, |p.g.Insts(b)|);
      case Step(prefix, i) =>
        PathIsMarked(p, prefix);
        AfterKeepsMark(p, path, {End(p.g, prefix)}, StateOnEdge(p, Own(p), path), |p.g.Insts(b)|);
    }
  }

  lemma EdgeIsMarked(p: Problem<Mark>, path: Path)
    requires p == Marking(p.g, p.ignored) && p.g.WellFormed() && On(p, path) && path.Step?
    requires Hidden(p.g, path) && NoPads(p.g, path.prefix)
    ensures StateOnEdge(p, Own(p), path) == Marked
  {
    PathIsMarked(p, path.prefix);
  }

  /** The state on a path's last edge is covered exactly when the path hides no
      side, or a landing pad stops it before. */
  lemma EdgeCoveredIffNotHidden(g: Cfg, ignored: Option<Edge>, rs: seq<Progress<Mark>>, path: Path)
    requires IsRun(Marking(g, ignored), rs) && Last(rs).flow.worklist == []
    requires On(Marking(g, ignored), path) && path.Step?
    ensures var p := Marking(g, ignored);
            var e := Edge(End(g, path.prefix), End(g, path));
            && p.Valid()
            && e in Last(rs).flow.states
            && (p.dom.leq(StateOnEdge(p, Own(p), path), Last(rs).flow.states[e])
                <==> !(Hidden(g, path) && NoPads(g, path.prefix)))
  {
    var p := Marking(g, ignored);
    var r := Last(rs);
    MarkingIsValid(g, ignored);
    RunHasInv(p, rs);
    RunIsUnmarked(p, rs);
    OwnIsBelow(p, r.flow.states);
    PathIsDone(p, r.flow, r.Done(), path);
    if Hidden(g, path) && NoPads(g, path.prefix) {
      EdgeIsMarked(p, path);
    } else {
      EdgeCoversPath(p, r.flow, r.Done(), Own(p), path);
    }
  }

  /** What a complete path returns is covered by the result exactly when the path
      is not lost. */
  lemma CoveredIffNotLost(
      g: Cfg, ignored: Option<Edge>, rs: seq<Progress<Mark>>, order: seq<Block>, path: Path)
    requires IsRun(Marking(g, ignored), rs) && Last(rs).flow.worklist == []
    requires Collected(Marking(g, ignored), Last(rs).flow.exits, {}, order)
    requires Complete(Marking(g, ignored), path)
    ensures var p := Marking(g, ignored);
            && p.Valid()
            && (forall b :: b in order ==> b in Last(rs).flow.exits)
            && (CoveredBy(p, Own(p), path, MergeExits(p, Last(rs).flow.exits, order))
                <==> !Lost(g, path))
  {
    var p := Marking(g, ignored);
    var r := Last(rs);
    MarkingIsValid(g, ignored);
    RunHasInv(p, rs);
    assert forall b :: b in order ==> ReturnsFrom(p, r.flow.exits, b);
    if Lost(g, path) {
      PathIsMarked(p, path);
      RunIsUnmarked(p, rs);
      ResultIsUnmarked(p, r.flow, order);
    } else {
      OwnIsBelow(p, r.flow.states);
      ResultCoversPath(p, r.flow, order, Own(p), path);
    }
  }

  // ---- a concrete function ----

  /** An entry block that branches to block 1 either way; block 1 returns. */
  const MEETING: Cfg := Cfg(
    [BasicBlock([], Branch(1, 1)), BasicBlock([], Return)],
    [[], [ENTRY, ENTRY]])

  /** Both lists of edge uses agree. */
  lemma MeetingCounts(b: Block, p: Block)
    requires MEETING.Has(b) && MEETING.Has(p)
    ensures multiset(MEETING.preds[b])[p] == multiset(MEETING.Succs(p))[b]
  {
    assert MEETING.preds[b] == if b == 1 then [0, 0] else [];
    assert MEETING.Succs(p) == if p == 0 then [1, 1] else [];
  }

  lemma MeetingBlock(b: Block)
    requires MEETING.Has(b)
    ensures forall t :: t in MEETING.Succs(b) || t in MEETING.preds[b] ==> MEETING.Has(t)
    ensures !MEETING.Term(b).Multi? && MEETING.Insts(b) == []
  {
    assert MEETING.preds[b] == if b == 1 then [0, 0] else [];
    assert MEETING.Succs(b) == if b == 0 then [1, 1] else [];
  }

  lemma MeetingIsWellFormed()
    ensures MEETING.WellFormed()
  {
    forall b: Block | MEETING.Has(b)
      ensures forall t :: t in MEETING.Succs(b) || t in MEETING.preds[b] ==> MEETING.Has(t)
      ensures !MEETING.Term(b).Multi? && MEETING.Insts(b) == []
    {
      MeetingBlock(b);
    }
    forall b: Block, p: Block | MEETING.Has(b) && MEETING.Has(p)
      ensures multiset(MEETING.preds[b])[p] == multiset(MEETING.Succs(p))[b]
    {
      MeetingCounts(b, p);
    }
  }

  lemma OnlyOne(w: seq<Block>, x: Block)
    requires NoDup(w) && forall y :: y in w <==> y == x
    ensures w == [x]
  {
    assert x in w;
    var first, last := w[0], w[|w| - 1];
    assert first in w && last in w;
  }

  /** Block 0 queues block 1, once; block 1 queues nothing. */
  lemma MeetingFinish<S(!new)>(p: Problem<S>, s: S, f: Flow<S>)
    requires p.g == MEETING && f.worklist == []
    ensures MEETING.WellFormed() && p.Finish(0, s, f.(states := map[])).worklist == [1]
    ensures p.Finish(1, s, f).worklist == []
  {
    MeetingIsWellFormed();
    assert p.g.Succs(1) == [] && p.g.Succs(0) == [1, 1] && p.g.Succs(0)[0] == 1;
    var r := p.Finish(0, s, f.(states := map[]));
    FinishWakes(p, 0, s, f.(states := map[]));
    assert forall x :: x in r.worklist <==> x == 1;
    OnlyOne(r.worklist, 1);
  }

  lemma MeetingRounds<S(!new)>(p: Problem<S>, r: Progress<S>)
    requires p.g == MEETING && MEETING.WellFormed()
    requires r == Begin(p) || r.flow.worklist == [1]
    ensures Queue(p, r.flow)
    ensures Next(p, r).flow.worklist == if r == Begin(p) then [1] else []
  {
    var f := r.flow;
    assert p.Chosen(f) == 0 && Rotated(f.worklist, 0) == [];
    MeetingFinish(p, p.Output(f.states, Picked(p, r)), f.(worklist := []));
  }

  /** The solver's run on it, in any domain: two rounds, then the worklist is empty. */
  ghost function MeetingRun<S(!new)>(p: Problem<S>): (rs: seq<Progress<S>>)
    requires p.g == MEETING
    ensures IsRun(p, rs) && Last(rs).flow.worklist == []
  {
    MeetingIsWellFormed();
    var q0 := Begin(p);
    MeetingRounds(p, q0);
    var q1 := Next(p, q0);
    MeetingRounds(p, q1);
    [q0, q1, Next(p, q1)]
  }

  /** The path through its false side is complete and lost. */
  lemma MeetingLosesFalseSide<S(!new)>(p: Problem<S>)
    requires p.g == MEETING && p.ignored == None
    ensures MEETING.WellFormed() && Complete(p, Step(AtEntry, 1)) && Lost(MEETING, Step(AtEntry, 1))
  {
    MeetingIsWellFormed();
    assert On(p, AtEntry) && End(p.g, Step(AtEntry, 1)) == 1;
    assert NoPads(MEETING, AtEntry);
  }

  /** The solver stops on it, and its result misses the false side. */
  lemma HiddenSideExample(order: seq<Block>)
    requires Collected(Marking(MEETING, None), Last(MeetingRun(Marking(MEETING, None))).flow.exits, {}, order)
    ensures var p := Marking(MEETING, None);
            var f := Last(MeetingRun(p)).flow;
            && p.Valid() && IsRun(p, MeetingRun(p)) && f.worklist == []
            && (forall b :: b in order ==> b in f.exits)
            && Complete(p, Step(AtEntry, 1))
            && !CoveredBy(p, Own(p), Step(AtEntry, 1), MergeExits(p, f.exits, order))
  {
    var p := Marking(MEETING, None);
    MeetingLosesFalseSide(p);
    CoveredIffNotLost(MEETING, None, MeetingRun(p), order, Step(AtEntry, 1));
  }
}

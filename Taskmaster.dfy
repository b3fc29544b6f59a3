/** The dependency scheduler (src/engine/SCons/Taskmaster.py).

    The Taskmaster walks the node graph depth first with an explicit stack of
    candidates, marks the nodes on the current path `Stack`, raises on a
    child that is already on the path, defers a node while derived children
    are unvisited, parks a node that depends on executing or pending work in
    `pending`, and hands every other node out as a Task. Node states live on
    the Node objects in the source; here the scheduler holds them in a map,
    since only the scheduler and its tasks write them. */
module Taskmaster {
  import opened Util

  type NodeId = nat

  /** A signature; Python None is the default Calc's build signature. */
  type Sig = Option<int>

  /** SCons.Node's states; `NoState` is Python None. */
  datatype State = NoState | Stack | Pending | Executing | Executed | UpToDate | Failed

  /** What the scheduler needs of the node graph, as abstract functions:
      Node.children/get_parents, whether a node has a builder,
      builder.targets(node) (None when the builder has no `targets`),
      Node.depends_on, str(node), and whether Node.build() succeeds.
      `nodes` is a finite universe closed under children and parents. */
  datatype Graph = Graph(
    nodes: set<NodeId>,
    name: NodeId -> string,
    children: NodeId -> seq<NodeId>,
    parents: NodeId -> seq<NodeId>,
    hasBuilder: NodeId -> bool,
    builderTargets: NodeId -> Option<seq<NodeId>>,
    dependsOn: NodeId -> NodeId -> bool,
    buildSucceeds: NodeId -> bool)

  /** The signature calculator: bsig, current, and csig (which the default
      Calc lacks, so it is always given). */
  datatype Calc = Calc(
    bsig: NodeId -> Sig,
    current: (NodeId, Sig) -> bool,
    csig: NodeId -> Sig)

  /** The default Calc: no build signature, never current. */
  function DefaultCalc(csig: NodeId -> Sig): (c: Calc)
    ensures forall n :: c.bsig(n) == None && !c.current(n, c.bsig(n))
  {
    Calc(_ => None, (_, _) => false, csig)
  }

  predicate WellFormed(g: Graph)
  {
    (forall n, c :: n in g.nodes && c in g.children(n) ==> c in g.nodes) &&
    (forall n, p :: n in g.nodes && p in g.parents(n) ==> p in g.nodes) &&
    (forall n :: n in g.nodes && g.builderTargets(n).Some? ==> n in g.builderTargets(n).value) &&
    (forall n, t :: n in g.nodes && g.builderTargets(n).Some? && t in g.builderTargets(n).value ==> t in g.nodes)
  }

  /** The target group handed to a Task: builder.targets(node), or [node]. */
  function Group(g: Graph, n: NodeId): (r: seq<NodeId>)
    ensures g.builderTargets(n).None? ==> r == [n]
    ensures WellFormed(g) && n in g.nodes ==> n in r && forall t :: t in r ==> t in g.nodes
  {
    match g.builderTargets(n)
    case Some(ts) => ts
    case None => [n]
  }

  /** node.depends_on(nodes). */
  predicate DependsOn(g: Graph, n: NodeId, ns: seq<NodeId>)
  {
    exists m :: m in ns && g.dependsOn(n)(m)
  }

  function StateIn(states: map<NodeId, State>, n: NodeId): State
  {
    if n in states then states[n] else NoState
  }

  // ---------------------------------------------------------------------
  // The scheduler's state as a value

  datatype Sched = Sched(
    candidates: seq<NodeId>,
    executing: seq<NodeId>,
    pending: seq<NodeId>,
    ready: Option<NodeId>,
    states: map<NodeId, State>,
    csigs: map<NodeId, Sig>)

  /** Outcome of a walk: the state reached, and the cycle message when the
      walk raised a UserError. */
  datatype Walk = Walk(s: Sched, cycle: Option<string>)

  predicate SchedIn(g: Graph, s: Sched)
  {
    (forall n :: n in s.candidates ==> n in g.nodes) &&
    (forall n :: n in s.executing ==> n in g.nodes) &&
    (forall n :: n in s.pending ==> n in g.nodes) &&
    (s.ready.Some? ==> s.ready.value in g.nodes)
  }

  /** Every node in `pending` has state pending. */
  predicate PendingMarked(s: Sched)
  {
    forall n :: n in s.pending ==> StateIn(s.states, n) == Pending
  }

  /** A node is in state `Stack` only while it is on the candidate stack or
      is the ready node. */
  predicate StackTracked(g: Graph, s: Sched)
  {
    forall n :: n in g.nodes && StateIn(s.states, n) == Stack ==>
      n in s.candidates || s.ready == Some(n)
  }

  /** The ready node passed every test of the walk: it is on the path, no
      child is on the path, no derived child is unvisited, it depends on
      nothing executing or pending, and its source children have their csig. */
  predicate ReadyChecked(g: Graph, calculator: Calc, s: Sched, r: NodeId)
  {
    StateIn(s.states, r) == Stack &&
    (forall c :: c in g.children(r) ==> StateIn(s.states, c) != Stack) &&
    (forall c :: c in g.children(r) && g.hasBuilder(c) ==> StateIn(s.states, c) != NoState) &&
    !DependsOn(g, r, s.executing) && !DependsOn(g, r, s.pending) &&
    (forall c :: c in g.children(r) && !g.hasBuilder(c) ==> c in s.csigs && s.csigs[c] == calculator.csig(c))
  }

  /** During a walk a node only moves from unvisited or on-the-path to
      on-the-path or pending; every other state is left alone. */
  predicate Advanced(a: State, b: State)
  {
    a == b || ((a == NoState || a == Stack) && (b == Stack || b == Pending))
  }

  ghost predicate StatesAdvance(before: map<NodeId, State>, after: map<NodeId, State>)
  {
    forall n :: Advanced(StateIn(before, n), StateIn(after, n))
  }

  lemma AdvanceOne(states: map<NodeId, State>, n: NodeId, st: State)
    requires Advanced(StateIn(states, n), st)
    ensures StatesAdvance(states, states[n := st])
  {
    forall m ensures Advanced(StateIn(states, m), StateIn(states[n := st], m)) {
      if m != n {
        assert StateIn(states[n := st], m) == StateIn(states, m);
      }
    }
  }

  lemma AdvanceTransitive(a: map<NodeId, State>, b: map<NodeId, State>, c: map<NodeId, State>)
    requires StatesAdvance(a, b) && StatesAdvance(b, c)
    ensures StatesAdvance(a, c)
  {
    forall n ensures Advanced(StateIn(a, n), StateIn(c, n)) {
      assert Advanced(StateIn(a, n), StateIn(b, n));
      assert Advanced(StateIn(b, n), StateIn(c, n));
    }
  }

  function StackedIn(states: map<NodeId, State>, ns: seq<NodeId>): (r: seq<NodeId>)
    ensures forall x :: x in r <==> x in ns && StateIn(states, x) == Stack
  {
    if ns == [] then []
    else if StateIn(states, ns[0]) == Stack then [ns[0]] + StackedIn(states, ns[1..])
    else StackedIn(states, ns[1..])
  }

  /** The derived children that have not been visited. */
  function Unvisited(g: Graph, states: map<NodeId, State>, ns: seq<NodeId>): (r: seq<NodeId>)
    ensures forall x :: x in r <==> x in ns && g.hasBuilder(x) && StateIn(states, x) == NoState
  {
    if ns == [] then []
    else if g.hasBuilder(ns[0]) && StateIn(states, ns[0]) == NoState then [ns[0]] + Unvisited(g, states, ns[1..])
    else Unvisited(g, states, ns[1..])
  }

  function Names(g: Graph, ns: seq<NodeId>): (r: seq<string>)
    ensures |r| == |ns| && forall i :: 0 <= i < |ns| ==> r[i] == g.name(ns[i])
  {
    if ns == [] then [] else [g.name(ns[0])] + Names(g, ns[1..])
  }

  /** The UserError text for a cycle: the path nodes and the cyclic children,
      reversed, joined with " -> ". */
  function CycleDescription(g: Graph, ns: seq<NodeId>): string
  {
    "Dependency cycle: " + Join(Names(g, Reverse(ns)), " -> ")
  }

  /** The csig of every non-derived child is computed and cached, child by
      child. */
  function SetSourceSigs(g: Graph, calculator: Calc, csigs: map<NodeId, Sig>, ns: seq<NodeId>): (r: map<NodeId, Sig>)
    ensures forall c :: c in ns && !g.hasBuilder(c) ==> c in r && r[c] == calculator.csig(c)
    ensures forall c :: !(c in ns && !g.hasBuilder(c)) ==> (c in r <==> c in csigs) && (c in csigs ==> r[c] == csigs[c])
    decreases |ns|
  {
    if ns == [] then csigs
    else SetSourceSigs(g, calculator, if g.hasBuilder(ns[0]) then csigs else csigs[ns[0] := calculator.csig(ns[0])], ns[1..])
  }

  ghost function NoStateSet(g: Graph, states: map<NodeId, State>): set<NodeId>
  {
    set n | n in g.nodes && StateIn(states, n) == NoState
  }

  function TopVisited(s: Sched): nat
  {
    if s.candidates != [] && StateIn(s.states, s.candidates[|s.candidates| - 1]) != NoState then 1 else 0
  }

  /** Visiting a node removes it from the unvisited set, or leaves the set
      alone when it was already visited. */
  lemma NoStateVisit(g: Graph, states: map<NodeId, State>, n: NodeId, st: State)
    requires n in g.nodes && st != NoState
    ensures StateIn(states, n) == NoState ==> NoStateSet(g, states[n := st]) < NoStateSet(g, states)
    ensures StateIn(states, n) != NoState ==> NoStateSet(g, states[n := st]) == NoStateSet(g, states)
  {
    if StateIn(states, n) == NoState {
      assert n in NoStateSet(g, states) && n !in NoStateSet(g, states[n := st]);
    }
  }

  /** One pass of the `while self.candidates` loop: it stops with a walk
      outcome or goes on from a smaller state. */
  datatype Step = Done(w: Walk) | Next(s: Sched)

  /** a is below b in the walk's termination order: fewer unvisited nodes,
      or as many and the top of the stack visited no more, or both equal and
      a shorter stack. */
  ghost predicate Below(g: Graph, a: Sched, b: Sched)
  {
    NoStateSet(g, a.states) < NoStateSet(g, b.states) ||
    (NoStateSet(g, a.states) == NoStateSet(g, b.states) &&
     (TopVisited(a) < TopVisited(b) || (TopVisited(a) == TopVisited(b) && |a.candidates| < |b.candidates|)))
  }

  /** The body of the loop in _find_next_ready_node for the node on top of
      the candidate stack: a node visited before is popped, any other is put
      on the path and examined. */
  function ExploreStep(g: Graph, calculator: Calc, s: Sched): (r: Step)
    requires WellFormed(g) && SchedIn(g, s) && s.ready.None?
    ensures r.Next? ==> SchedIn(g, r.s) && r.s.ready.None? && Below(g, r.s, s)
    ensures r.Done? ==> SchedIn(g, r.w.s)
  {
    if s.candidates == [] then Done(Walk(s, None))
    else
      var node := s.candidates[|s.candidates| - 1];
      var rest := s.candidates[..|s.candidates| - 1];
      assert s.candidates == rest + [node];
      var st := StateIn(s.states, node);
      if st != NoState && st != Stack then
        Next(s.(candidates := rest))
      else
        NoStateVisit(g, s.states, node, Stack);
        VisitNode(g, calculator, s.(states := s.states[node := Stack]))
  }

  /** The top node, now on the path: a child already on the path raises the
      cycle error; otherwise the csigs of the source children are cached and
      the walk goes on. */
  function VisitNode(g: Graph, calculator: Calc, t: Sched): (r: Step)
    requires WellFormed(g) && SchedIn(g, t) && t.ready.None? && t.candidates != []
    requires StateIn(t.states, t.candidates[|t.candidates| - 1]) == Stack
    ensures r.Next? ==> SchedIn(g, r.s) && r.s.ready.None? && Below(g, r.s, t)
    ensures r.Done? ==> SchedIn(g, r.w.s)
  {
    var children := g.children(t.candidates[|t.candidates| - 1]);
    var cycle := StackedIn(t.states, children);
    if cycle != [] then
      Done(Walk(t, Some(CycleDescription(g, StackedIn(t.states, t.candidates) + cycle))))
    else
      AfterChildren(g, calculator, t.(csigs := SetSourceSigs(g, calculator, t.csigs, children)))
  }

  /** The top node is on the path: its unvisited derived children are
      pushed; failing that it is parked in pending when it depends on
      executing or pending work, and made ready otherwise. */
  function AfterChildren(g: Graph, calculator: Calc, t: Sched): (r: Step)
    requires WellFormed(g) && SchedIn(g, t) && t.ready.None? && t.candidates != []
    requires StateIn(t.states, t.candidates[|t.candidates| - 1]) == Stack
    ensures r.Next? ==> SchedIn(g, r.s) && r.s.ready.None? && Below(g, r.s, t)
    ensures r.Done? ==> SchedIn(g, r.w.s)
  {
    var node := t.candidates[|t.candidates| - 1];
    var rest := t.candidates[..|t.candidates| - 1];
    assert t.candidates == rest + [node];
    var derived := Unvisited(g, t.states, g.children(node));
    if derived != [] then
      assert Reverse(derived)[|derived| - 1] == derived[0];
      assert derived[0] in derived;
      Next(t.(candidates := t.candidates + Reverse(derived)))
    else if DependsOn(g, node, t.executing) || DependsOn(g, node, t.pending) then
      NoStateVisit(g, t.states, node, Pending);
      Next(t.(states := t.states[node := Pending], pending := t.pending + [node], candidates := rest))
    else
      Done(Walk(t.(candidates := rest, ready := Some(node)), None))
  }

  /** The two outcomes of VisitNode: the cycle error, or the rest of the
      pass with the source csigs cached. */
  lemma VisitNodeCases(g: Graph, calculator: Calc, t: Sched, children: seq<NodeId>, cycle: seq<NodeId>)
    requires WellFormed(g) && SchedIn(g, t) && t.ready.None? && t.candidates != []
    requires StateIn(t.states, t.candidates[|t.candidates| - 1]) == Stack
    requires children == g.children(t.candidates[|t.candidates| - 1]) && cycle == StackedIn(t.states, children)
    ensures cycle != [] ==>
      VisitNode(g, calculator, t) == Done(Walk(t, Some(CycleDescription(g, StackedIn(t.states, t.candidates) + cycle))))
    ensures cycle == [] ==>
      VisitNode(g, calculator, t) == AfterChildren(g, calculator, t.(csigs := SetSourceSigs(g, calculator, t.csigs, children)))
  {
  }

  /** The two outcomes of ExploreStep on a non-empty stack. */
  lemma ExploreStepCases(g: Graph, calculator: Calc, s: Sched, node: NodeId, st: State)
    requires WellFormed(g) && SchedIn(g, s) && s.ready.None? && s.candidates != []
    requires node == s.candidates[|s.candidates| - 1] && st == StateIn(s.states, node)
    ensures st != NoState && st != Stack ==>
      ExploreStep(g, calculator, s) == Next(s.(candidates := s.candidates[..|s.candidates| - 1]))
    ensures (st == NoState || st == Stack) ==>
      StateIn(s.states[node := Stack], node) == Stack &&
      SchedIn(g, s.(states := s.states[node := Stack])) &&
      ExploreStep(g, calculator, s) == VisitNode(g, calculator, s.(states := s.states[node := Stack]))
  {
  }

  /** The three outcomes of AfterChildren, one per branch. */
  lemma AfterChildrenCases(g: Graph, calculator: Calc, t: Sched, node: NodeId, rest: seq<NodeId>, derived: seq<NodeId>)
    requires WellFormed(g) && SchedIn(g, t) && t.ready.None? && t.candidates != []
    requires StateIn(t.states, t.candidates[|t.candidates| - 1]) == Stack
    requires node == t.candidates[|t.candidates| - 1] && rest == t.candidates[..|t.candidates| - 1]
    requires derived == Unvisited(g, t.states, g.children(node))
    ensures derived != [] ==> AfterChildren(g, calculator, t) == Next(t.(candidates := t.candidates + Reverse(derived)))
    ensures derived == [] && (DependsOn(g, node, t.executing) || DependsOn(g, node, t.pending)) ==>
      AfterChildren(g, calculator, t) == Next(t.(states := t.states[node := Pending], pending := t.pending + [node], candidates := rest))
    ensures derived == [] && !DependsOn(g, node, t.executing) && !DependsOn(g, node, t.pending) ==>
      AfterChildren(g, calculator, t) == Done(Walk(t.(candidates := rest, ready := Some(node)), None))
  {
  }

  /** The state a step leaves behind. */
  function After(r: Step): Sched
  {
    if r.Next? then r.s else r.w.s
  }

  /** The `while self.candidates` loop of _find_next_ready_node, entered
      with no ready node. */
  function Explore(g: Graph, calculator: Calc, s: Sched): (w: Walk)
    requires WellFormed(g) && SchedIn(g, s) && s.ready.None?
    ensures SchedIn(g, w.s)
    decreases NoStateSet(g, s.states), TopVisited(s), |s.candidates|
  {
    match ExploreStep(g, calculator, s)
    case Done(w) => w
    case Next(n) => Explore(g, calculator, n)
  }

  /** _find_next_ready_node: nothing to do while a node is ready. */
  function FindReady(g: Graph, calculator: Calc, s: Sched): Walk
    requires WellFormed(g) && SchedIn(g, s)
  {
    if s.ready.Some? then Walk(s, None) else Explore(g, calculator, s)
  }

  /** Explore unfolded once. */
  lemma ExploreNext(g: Graph, calculator: Calc, s: Sched)
    requires WellFormed(g) && SchedIn(g, s) && s.ready.None? && ExploreStep(g, calculator, s).Next?
    ensures Explore(g, calculator, s) == Explore(g, calculator, ExploreStep(g, calculator, s).s)
  {
  }

  lemma ExploreDone(g: Graph, calculator: Calc, s: Sched)
    requires WellFormed(g) && SchedIn(g, s) && s.ready.None? && ExploreStep(g, calculator, s).Done?
    ensures Explore(g, calculator, s) == ExploreStep(g, calculator, s).w
  {
  }

  /** A pass past the cycle check ends only with a ready node that passed
      every test, and never touches the executing list. */
  lemma AfterChildrenOutcome(g: Graph, calculator: Calc, t: Sched)
    requires WellFormed(g) && SchedIn(g, t) && t.ready.None? && t.candidates != []
    requires StateIn(t.states, t.candidates[|t.candidates| - 1]) == Stack
    requires forall c :: c in g.children(t.candidates[|t.candidates| - 1]) ==> StateIn(t.states, c) != Stack
    requires forall c :: c in g.children(t.candidates[|t.candidates| - 1]) && !g.hasBuilder(c) ==>
      c in t.csigs && t.csigs[c] == calculator.csig(c)
    ensures AfterChildren(g, calculator, t).Next? ==> AfterChildren(g, calculator, t).s.executing == t.executing
    ensures AfterChildren(g, calculator, t).Done? ==> Ends(g, calculator, t, AfterChildren(g, calculator, t).w)
  {
  }

  lemma VisitNodeOutcome(g: Graph, calculator: Calc, t: Sched)
    requires WellFormed(g) && SchedIn(g, t) && t.ready.None? && t.candidates != []
    requires StateIn(t.states, t.candidates[|t.candidates| - 1]) == Stack
    ensures VisitNode(g, calculator, t).Next? ==> VisitNode(g, calculator, t).s.executing == t.executing
    ensures VisitNode(g, calculator, t).Done? ==> Ends(g, calculator, t, VisitNode(g, calculator, t).w)
  {
    var children := g.children(t.candidates[|t.candidates| - 1]);
    var cycle := StackedIn(t.states, children);
    if cycle != [] {
      assert cycle[0] in cycle;
    } else {
      AfterChildrenOutcome(g, calculator, t.(csigs := SetSourceSigs(g, calculator, t.csigs, children)));
    }
  }

  /** One pass ends the walk only with a ready node that passed every test,
      a cycle at the top of the stack, or an empty stack; it never touches
      the executing list. */
  lemma StepOutcome(g: Graph, calculator: Calc, s: Sched)
    requires WellFormed(g) && SchedIn(g, s) && s.ready.None?
    ensures ExploreStep(g, calculator, s).Next? ==> ExploreStep(g, calculator, s).s.executing == s.executing
    ensures ExploreStep(g, calculator, s).Done? ==> Ends(g, calculator, s, ExploreStep(g, calculator, s).w)
  {
    if s.candidates != [] {
      var node := s.candidates[|s.candidates| - 1];
      var st := StateIn(s.states, node);
      if st == NoState || st == Stack {
        VisitNodeOutcome(g, calculator, s.(states := s.states[node := Stack]));
      }
    }
  }

  /** The ways a walk from s may end. */
  predicate Ends(g: Graph, calculator: Calc, s: Sched, w: Walk)
  {
    w.s.executing == s.executing &&
    (w.cycle.Some? || w.s.ready.Some? || w.s.candidates == []) &&
    (w.s.ready.Some? ==> w.cycle.None? && ReadyChecked(g, calculator, w.s, w.s.ready.value)) &&
    (w.cycle.Some? ==> (w.s.ready.None? && w.s.candidates != [] &&
      var top := w.s.candidates[|w.s.candidates| - 1];
      StateIn(w.s.states, top) == Stack &&
      (exists c :: c in g.children(top) && StateIn(w.s.states, c) == Stack) &&
      w.cycle.value == CycleDescription(g, StackedIn(w.s.states, w.s.candidates) + StackedIn(w.s.states, g.children(top)))))
  }

  /** How the walk ends: with a ready node that passed every test, with a
      cycle raised at the top of the stack, or with no candidates left; the
      executing list is never touched. */
  lemma {:induction false} ExploreOutcome(g: Graph, calculator: Calc, s: Sched)
    requires WellFormed(g) && SchedIn(g, s) && s.ready.None?
    ensures Ends(g, calculator, s, Explore(g, calculator, s))
    decreases NoStateSet(g, s.states), TopVisited(s), |s.candidates|
  {
    StepOutcome(g, calculator, s);
    match ExploreStep(g, calculator, s)
    case Done(w) =>
    case Next(n) => ExploreOutcome(g, calculator, n);
  }

  /** `pending` grows from s to t, every node it gains is in state pending
      and waits on executing or pending work, and other nodes only advance
      from unvisited or on-the-path to on-the-path or pending. */
  ghost predicate PendingGrows(g: Graph, s: Sched, t: Sched)
  {
    StatesAdvance(s.states, t.states) &&
    s.pending <= t.pending &&
    (PendingMarked(s) ==> PendingMarked(t)) &&
    forall i :: |s.pending| <= i < |t.pending| ==>
      StateIn(t.states, t.pending[i]) == Pending &&
      (DependsOn(g, t.pending[i], s.executing) || DependsOn(g, t.pending[i], t.pending))
  }

  lemma PendingGrowsSame(g: Graph, s: Sched, t: Sched)
    requires t.states == s.states && t.pending == s.pending
    ensures PendingGrows(g, s, t)
  {
  }

  lemma AfterChildrenPending(g: Graph, calculator: Calc, t: Sched)
    requires WellFormed(g) && SchedIn(g, t) && t.ready.None? && t.candidates != []
    requires StateIn(t.states, t.candidates[|t.candidates| - 1]) == Stack
    ensures PendingGrows(g, t, After(AfterChildren(g, calculator, t)))
  {
    var node := t.candidates[|t.candidates| - 1];
    var r := After(AfterChildren(g, calculator, t));
    if Unvisited(g, t.states, g.children(node)) == [] && (DependsOn(g, node, t.executing) || DependsOn(g, node, t.pending)) {
      AdvanceOne(t.states, node, Pending);
      assert r.pending == t.pending + [node] && r.states == t.states[node := Pending];
      assert PendingMarked(t) ==> node !in t.pending;
      if !DependsOn(g, node, t.executing) {
        var m :| m in t.pending && g.dependsOn(node)(m);
        assert m in r.pending;
      }
    } else {
      PendingGrowsSame(g, t, r);
    }
  }

  lemma VisitNodePending(g: Graph, calculator: Calc, t: Sched)
    requires WellFormed(g) && SchedIn(g, t) && t.ready.None? && t.candidates != []
    requires StateIn(t.states, t.candidates[|t.candidates| - 1]) == Stack
    ensures PendingGrows(g, t, After(VisitNode(g, calculator, t)))
  {
    var children := g.children(t.candidates[|t.candidates| - 1]);
    if StackedIn(t.states, children) != [] {
      PendingGrowsSame(g, t, t);
    } else {
      AfterChildrenPending(g, calculator, t.(csigs := SetSourceSigs(g, calculator, t.csigs, children)));
    }
  }

  lemma StepPending(g: Graph, calculator: Calc, s: Sched)
    requires WellFormed(g) && SchedIn(g, s) && s.ready.None?
    ensures PendingGrows(g, s, After(ExploreStep(g, calculator, s)))
  {
    if s.candidates == [] {
      PendingGrowsSame(g, s, s);
      return;
    }
    var node := s.candidates[|s.candidates| - 1];
    var st := StateIn(s.states, node);
    if st != NoState && st != Stack {
      PendingGrowsSame(g, s, s.(candidates := s.candidates[..|s.candidates| - 1]));
      return;
    }
    var t := s.(states := s.states[node := Stack]);
    AdvanceOne(s.states, node, Stack);
    assert PendingMarked(s) ==> node !in s.pending;
    assert PendingGrows(g, s, t);
    VisitNodePending(g, calculator, t);
    StepOutcome(g, calculator, s);
    PendingGrowsTransitive(g, s, t, After(VisitNode(g, calculator, t)));
  }

  lemma PendingGrowsTransitive(g: Graph, a: Sched, b: Sched, c: Sched)
    requires PendingGrows(g, a, b) && PendingGrows(g, b, c) && b.executing == a.executing
    ensures PendingGrows(g, a, c)
  {
    AdvanceTransitive(a.states, b.states, c.states);
    forall i | |a.pending| <= i < |c.pending|
      ensures StateIn(c.states, c.pending[i]) == Pending
      ensures DependsOn(g, c.pending[i], a.executing) || DependsOn(g, c.pending[i], c.pending)
    {
      if i < |b.pending| {
        assert c.pending[i] == b.pending[i];
        assert Advanced(StateIn(b.states, b.pending[i]), StateIn(c.states, b.pending[i]));
        if !DependsOn(g, b.pending[i], a.executing) {
          var m :| m in b.pending && g.dependsOn(b.pending[i])(m);
          assert m in c.pending;
        }
      }
    }
  }

  /** During the walk nodes only advance from unvisited or on-the-path to
      on-the-path or pending; `pending` only grows, and every node it gains
      is in state pending and waits on executing or pending work; a
      consistent pending list stays consistent. */
  lemma {:induction false} ExplorePending(g: Graph, calculator: Calc, s: Sched)
    requires WellFormed(g) && SchedIn(g, s) && s.ready.None?
    ensures PendingGrows(g, s, Explore(g, calculator, s).s)
    decreases NoStateSet(g, s.states), TopVisited(s), |s.candidates|
  {
    StepPending(g, calculator, s);
    match ExploreStep(g, calculator, s)
    case Done(w) =>
    case Next(n) =>
      StepOutcome(g, calculator, s);
      ExplorePending(g, calculator, n);
      PendingGrowsTransitive(g, s, n, Explore(g, calculator, n).s);
  }

  /** n is among the nodes parked since s. */
  predicate ParkedSince(s: Sched, t: Sched, n: NodeId)
  {
    |s.pending| <= |t.pending| && n in t.pending[|s.pending|..]
  }

  /** What a walk from s has parked by t: a node that was unvisited at the
      start and is now pending was parked by the walk, and so was every
      derived child, unvisited at the start, of a node the walk parked. */
  ghost predicate Parked(g: Graph, s: Sched, t: Sched)
  {
    StatesAdvance(s.states, t.states) && s.pending <= t.pending &&
    (forall n :: StateIn(s.states, n) == NoState && StateIn(t.states, n) == Pending ==> ParkedSince(s, t, n)) &&
    (forall i, c | |s.pending| <= i < |t.pending| && c in g.children(t.pending[i]) && g.hasBuilder(c) &&
                   StateIn(s.states, c) == NoState :: ParkedSince(s, t, c))
  }

  /** Appending to pending keeps what was parked. */
  lemma ParkedSinceGrows(s: Sched, t: Sched, u: Sched, n: NodeId)
    requires ParkedSince(s, t, n) && t.pending <= u.pending
    ensures ParkedSince(s, u, n)
  {
    var i :| |s.pending| <= i < |t.pending| && t.pending[i] == n;
    assert u.pending[i] == n;
    assert u.pending[|s.pending|..][i - |s.pending|] == n;
  }

  /** A step that leaves states and pending alone keeps Parked. */
  lemma ParkedKeep(g: Graph, s: Sched, t: Sched, u: Sched)
    requires Parked(g, s, t) && u.states == t.states && u.pending == t.pending
    ensures Parked(g, s, u)
  {
  }

  /** Putting a node on the path keeps Parked. */
  lemma ParkedPush(g: Graph, s: Sched, t: Sched, node: NodeId)
    requires Parked(g, s, t)
    requires StateIn(t.states, node) == NoState || StateIn(t.states, node) == Stack
    ensures Parked(g, s, t.(states := t.states[node := Stack]))
  {
    var u := t.(states := t.states[node := Stack]);
    AdvanceOne(t.states, node, Stack);
    AdvanceTransitive(s.states, t.states, u.states);
    assert forall n :: n != node ==> StateIn(u.states, n) == StateIn(t.states, n);
  }

  /** Parking a node on the path none of whose derived children is
      unvisited or on the path keeps Parked. */
  lemma ParkedPark(g: Graph, s: Sched, t: Sched, node: NodeId, rest: seq<NodeId>)
    requires Parked(g, s, t) && StateIn(t.states, node) == Stack
    requires forall c :: c in g.children(node) && g.hasBuilder(c) ==>
      StateIn(t.states, c) != NoState && StateIn(t.states, c) != Stack
    ensures Parked(g, s, t.(states := t.states[node := Pending], pending := t.pending + [node], candidates := rest))
  {
    var u := t.(states := t.states[node := Pending], pending := t.pending + [node], candidates := rest);
    AdvanceOne(t.states, node, Pending);
    AdvanceTransitive(s.states, t.states, u.states);
    assert ParkedSince(s, u, node) by {
      assert u.pending[|t.pending|] == node;
      assert u.pending[|s.pending|..][|t.pending| - |s.pending|] == node;
    }
    forall n | StateIn(s.states, n) == NoState && StateIn(u.states, n) == Pending
      ensures ParkedSince(s, u, n)
    {
      if n != node {
        ParkedSinceGrows(s, t, u, n);
      }
    }
    forall i, c | |s.pending| <= i < |u.pending| && c in g.children(u.pending[i]) && g.hasBuilder(c) &&
                  StateIn(s.states, c) == NoState
      ensures ParkedSince(s, u, c)
    {
      if i < |t.pending| {
        assert u.pending[i] == t.pending[i];
      } else {
        assert u.pending[i] == node;
        assert Advanced(StateIn(s.states, c), StateIn(t.states, c));
      }
      ParkedSinceGrows(s, t, u, c);
    }
  }

  /** The last pass of a branch keeps Parked: the node it parks has no
      derived child left unvisited or on the path. */
  lemma AfterChildrenParked(g: Graph, calculator: Calc, s: Sched, t: Sched)
    requires WellFormed(g) && SchedIn(g, t) && t.ready.None? && t.candidates != []
    requires StateIn(t.states, t.candidates[|t.candidates| - 1]) == Stack
    requires forall c :: c in g.children(t.candidates[|t.candidates| - 1]) ==> StateIn(t.states, c) != Stack
    requires Parked(g, s, t)
    ensures Parked(g, s, After(AfterChildren(g, calculator, t)))
  {
    var node := t.candidates[|t.candidates| - 1];
    var rest := t.candidates[..|t.candidates| - 1];
    var derived := Unvisited(g, t.states, g.children(node));
    AfterChildrenCases(g, calculator, t, node, rest, derived);
    if derived != [] {
      ParkedKeep(g, s, t, t.(candidates := t.candidates + Reverse(derived)));
    } else if DependsOn(g, node, t.executing) || DependsOn(g, node, t.pending) {
      ParkedPark(g, s, t, node, rest);
    } else {
      ParkedKeep(g, s, t, t.(candidates := rest, ready := Some(node)));
    }
  }

  lemma VisitNodeParked(g: Graph, calculator: Calc, s: Sched, t: Sched)
    requires WellFormed(g) && SchedIn(g, t) && t.ready.None? && t.candidates != []
    requires StateIn(t.states, t.candidates[|t.candidates| - 1]) == Stack
    requires Parked(g, s, t)
    ensures Parked(g, s, After(VisitNode(g, calculator, t)))
  {
    var children := g.children(t.candidates[|t.candidates| - 1]);
    var cycle := StackedIn(t.states, children);
    VisitNodeCases(g, calculator, t, children, cycle);
    if cycle == [] {
      var u := t.(csigs := SetSourceSigs(g, calculator, t.csigs, children));
      ParkedKeep(g, s, t, u);
      AfterChildrenParked(g, calculator, s, u);
    }
  }

  lemma StepParked(g: Graph, calculator: Calc, s: Sched, t: Sched)
    requires WellFormed(g) && SchedIn(g, t) && t.ready.None?
    requires Parked(g, s, t)
    ensures Parked(g, s, After(ExploreStep(g, calculator, t)))
  {
    if t.candidates != [] {
      var node := t.candidates[|t.candidates| - 1];
      var st := StateIn(t.states, node);
      ExploreStepCases(g, calculator, t, node, st);
      if st == NoState || st == Stack {
        ParkedPush(g, s, t, node);
        VisitNodeParked(g, calculator, s, t.(states := t.states[node := Stack]));
      } else {
        ParkedKeep(g, s, t, t.(candidates := t.candidates[..|t.candidates| - 1]));
      }
    }
  }

  /** The whole walk keeps Parked. */
  lemma {:induction false} ExploreParked(g: Graph, calculator: Calc, s: Sched, t: Sched)
    requires WellFormed(g) && SchedIn(g, t) && t.ready.None?
    requires Parked(g, s, t)
    ensures Parked(g, s, Explore(g, calculator, t).s)
    decreases NoStateSet(g, t.states), TopVisited(t), |t.candidates|
  {
    StepParked(g, calculator, s, t);
    match ExploreStep(g, calculator, t)
    case Done(w) =>
    case Next(n) => ExploreParked(g, calculator, s, n);
  }

  /** Along a path of derived nodes unvisited at the start, once a node is
      parked so is every later one. */
  lemma {:induction false} PathParked(g: Graph, s: Sched, t: Sched, p: seq<NodeId>, j: nat)
    requires Parked(g, s, t) && 1 <= j < |p|
    requires forall i :: 0 <= i < |p| - 1 ==> p[i + 1] in g.children(p[i])
    requires forall i :: 0 <= i < |p| ==> g.hasBuilder(p[i]) && StateIn(s.states, p[i]) == NoState
    requires ParkedSince(s, t, p[1])
    ensures ParkedSince(s, t, p[j])
    decreases j
  {
    if j > 1 {
      PathParked(g, s, t, p, j - 1);
      var i :| |s.pending| <= i < |t.pending| && t.pending[i] == p[j - 1];
      assert p[j] in g.children(t.pending[i]);
    }
  }

  /** The walk never hands out a node that lies on a cycle of derived nodes
      it found unvisited: the cycle's next node would have to be parked, and
      each parked node's next one before it, back round to the ready node. */
  lemma ReadyNotOnCycle(g: Graph, calculator: Calc, s: Sched, p: seq<NodeId>)
    requires WellFormed(g) && SchedIn(g, s) && s.ready.None?
    requires |p| >= 2 && p[0] == p[|p| - 1]
    requires forall i :: 0 <= i < |p| - 1 ==> p[i + 1] in g.children(p[i])
    requires forall i :: 0 <= i < |p| ==> g.hasBuilder(p[i]) && StateIn(s.states, p[i]) == NoState
    ensures Explore(g, calculator, s).s.ready != Some(p[0])
  {
    var t := Explore(g, calculator, s).s;
    ExploreOutcome(g, calculator, s);
    ExplorePending(g, calculator, s);
    assert Parked(g, s, s);
    ExploreParked(g, calculator, s, s);
    if t.ready == Some(p[0]) {
      assert ReadyChecked(g, calculator, t, p[0]);
      assert p[1] in g.children(p[0]);
      assert Advanced(StateIn(s.states, p[1]), StateIn(t.states, p[1]));
      assert StateIn(t.states, p[1]) == Pending;
      PathParked(g, s, t, p, |p| - 1);
      assert false;
    }
  }

  lemma AfterChildrenTracksStack(g: Graph, calculator: Calc, t: Sched)
    requires WellFormed(g) && SchedIn(g, t) && t.ready.None? && t.candidates != []
    requires StateIn(t.states, t.candidates[|t.candidates| - 1]) == Stack
    requires StackTracked(g, t)
    ensures StackTracked(g, After(AfterChildren(g, calculator, t)))
  {
    var node := t.candidates[|t.candidates| - 1];
    assert t.candidates == t.candidates[..|t.candidates| - 1] + [node];
  }

  lemma StepTracksStack(g: Graph, calculator: Calc, s: Sched)
    requires WellFormed(g) && SchedIn(g, s) && s.ready.None?
    requires StackTracked(g, s)
    ensures StackTracked(g, After(ExploreStep(g, calculator, s)))
  {
    if s.candidates != [] {
      var node := s.candidates[|s.candidates| - 1];
      var rest := s.candidates[..|s.candidates| - 1];
      assert s.candidates == rest + [node];
      var st := StateIn(s.states, node);
      if st == NoState || st == Stack {
        var t := s.(states := s.states[node := Stack]);
        var children := g.children(node);
        if StackedIn(t.states, children) == [] {
          AfterChildrenTracksStack(g, calculator, t.(csigs := SetSourceSigs(g, calculator, t.csigs, children)));
        }
      }
    }
  }

  /** Only nodes on the candidate stack, or the ready node, are in state
      `Stack` after the walk when that held before it. */
  lemma {:induction false} ExploreTracksStack(g: Graph, calculator: Calc, s: Sched)
    requires WellFormed(g) && SchedIn(g, s) && s.ready.None?
    requires StackTracked(g, s)
    ensures StackTracked(g, Explore(g, calculator, s).s)
    decreases NoStateSet(g, s.states), TopVisited(s), |s.candidates|
  {
    StepTracksStack(g, calculator, s);
    match ExploreStep(g, calculator, s)
    case Done(w) =>
    case Next(n) => ExploreTracksStack(g, calculator, n);
  }

  /** Task.make_ready's decision for the whole group: executing when some
      target is not current, up_to_date otherwise. */
  function ReadyState(calculator: Calc, ts: seq<NodeId>): (st: State)
    ensures st == Executing <==> exists t :: t in ts && !calculator.current(t, calculator.bsig(t))
    ensures st == UpToDate <==> forall t :: t in ts ==> calculator.current(t, calculator.bsig(t))
  {
    if exists t :: t in ts && !calculator.current(t, calculator.bsig(t)) then Executing else UpToDate
  }

  /** With the default Calc every group is built. */
  lemma DefaultCalcAlwaysBuilds(csig: NodeId -> Sig, ts: seq<NodeId>)
    requires ts != []
    ensures ReadyState(DefaultCalc(csig), ts) == Executing
  {
    assert ts[0] in ts;
  }

  /** Every node of ns set to st, one after the other. */
  function SetAll(states: map<NodeId, State>, ns: seq<NodeId>, st: State): (r: map<NodeId, State>)
    ensures forall n :: StateIn(r, n) == if n in ns then st else StateIn(states, n)
    decreases |ns|
  {
    if ns == [] then states else SetAll(states[ns[0] := st], ns[1..], st)
  }

  lemma {:induction false} SetAllKeys(states: map<NodeId, State>, ns: seq<NodeId>, st: State)
    ensures SetAll(states, ns, st).Keys == states.Keys + set n | n in ns
    decreases |ns|
  {
    if ns != [] {
      SetAllKeys(states[ns[0] := st], ns[1..], st);
      assert (set n | n in ns) == {ns[0]} + set n | n in ns[1..];
    }
  }

  /** The pending nodes still in state pending reset to None, one after the
      other. */
  function ResetPending(states: map<NodeId, State>, ns: seq<NodeId>): (r: map<NodeId, State>)
    ensures forall n :: StateIn(r, n) == if n in ns && StateIn(states, n) == Pending then NoState else StateIn(states, n)
    decreases |ns|
  {
    if ns == [] then states
    else ResetPending(if StateIn(states, ns[0]) == Pending then states[ns[0] := NoState] else states, ns[1..])
  }

  /** Taskmaster.executed as written: drop the node from `executing`, reset
      every pending node to None and move `pending`, reversed, onto the
      candidates. */
  function Release(s: Sched, node: NodeId): (r: Sched)
    requires node in s.executing
    ensures r.pending == [] && PendingMarked(r)
    ensures multiset(r.executing) == multiset(s.executing) - multiset{node}
    ensures r.candidates == s.candidates + Reverse(s.pending)
    ensures forall n :: StateIn(r.states, n) == if n in s.pending then NoState else StateIn(s.states, n)
    ensures r.ready == s.ready && r.csigs == s.csigs
  {
    s.(executing := RemoveFirst(s.executing, node),
       states := SetAll(s.states, s.pending, NoState),
       candidates := s.candidates + Reverse(s.pending),
       pending := [])
  }

  /** Taskmaster.executed corrected: a pending node that fail_continue has
      marked failed keeps its state; only nodes still pending are reset. */
  function ReleaseKeepingFailures(s: Sched, node: NodeId): (r: Sched)
    requires node in s.executing
    ensures r.pending == [] && PendingMarked(r)
    ensures multiset(r.executing) == multiset(s.executing) - multiset{node}
    ensures r.candidates == s.candidates + Reverse(s.pending)
    ensures forall n :: StateIn(r.states, n) == (if n in s.pending && StateIn(s.states, n) == Pending then NoState else StateIn(s.states, n))
    ensures r.ready == s.ready && r.csigs == s.csigs
  {
    s.(executing := RemoveFirst(s.executing, node),
       states := ResetPending(s.states, s.pending),
       candidates := s.candidates + Reverse(s.pending),
       pending := [])
  }

  /** The scheduler state after fail_continue's walk over the parents:
      every node reachable upwards from the roots is failed, and nothing
      else changes. */
  ghost function MarkFailed(g: Graph, roots: seq<NodeId>, s: Sched): (r: Sched)
    ensures forall n :: StateIn(r.states, n) == if n in g.nodes && Upward(g, roots, n) then Failed else StateIn(s.states, n)
    ensures r == s.(states := r.states)
  {
    var up := set n | n in g.nodes && Upward(g, roots, n);
    s.(states := map n | n in s.states.Keys + up :: if n in up then Failed else s.states[n])
  }

  /** Setting the nodes of the upward closure to failed is MarkFailed. */
  lemma MarkFailedAs(g: Graph, roots: seq<NodeId>, s: Sched, order: seq<NodeId>)
    requires forall n :: n in order <==> n in g.nodes && Upward(g, roots, n)
    requires SetAll(s.states, order, Failed).Keys == s.states.Keys + set n | n in order
    ensures MarkFailed(g, roots, s) == s.(states := SetAll(s.states, order, Failed))
  {
    var a := MarkFailed(g, roots, s).states;
    var b := SetAll(s.states, order, Failed);
    assert a.Keys == b.Keys;
    assert forall n :: n in a ==> a[n] == StateIn(a, n) == StateIn(b, n) == b[n];
  }

  /** fail_continue as written: after the release every node that was
      pending is unvisited again, failed parents included; the other
      nodes reachable upwards from the targets are failed; every other
      node keeps its state, and the pending list is empty and consistent. */
  lemma FailContinueStates(g: Graph, roots: seq<NodeId>, s: Sched, node: NodeId)
    requires node in s.executing
    ensures var r := Release(MarkFailed(g, roots, s), node);
      (forall n :: StateIn(r.states, n) == if n in s.pending then NoState
                                           else if n in g.nodes && Upward(g, roots, n) then Failed
                                           else StateIn(s.states, n))
      && r.pending == [] && PendingMarked(r)
      && r.candidates == s.candidates + Reverse(s.pending)
      && multiset(r.executing) == multiset(s.executing) - multiset{node}
  {
  }

  /** The corrected fail_continue: every node reachable upwards from the
      targets stays failed through the release; only pending nodes still
      pending are reset. */
  lemma FailContinueKeepingStates(g: Graph, roots: seq<NodeId>, s: Sched, node: NodeId)
    requires node in s.executing
    ensures var r := ReleaseKeepingFailures(MarkFailed(g, roots, s), node);
      (forall n :: StateIn(r.states, n) == if n in g.nodes && Upward(g, roots, n) then Failed
                                           else if n in s.pending && StateIn(s.states, n) == Pending then NoState
                                           else StateIn(s.states, n))
      && r.pending == [] && PendingMarked(r)
  {
  }

  /** Under the corrected release a failed node stays failed through any
      walk and is never handed out. */
  lemma FailedStaysFailed(g: Graph, calculator: Calc, s: Sched, node: NodeId, n: NodeId)
    requires WellFormed(g) && SchedIn(g, s) && node in s.executing && s.ready.None?
    requires StateIn(s.states, n) == Failed
    ensures StateIn(ReleaseKeepingFailures(s, node).states, n) == Failed
    ensures var r := ReleaseKeepingFailures(s, node);
      SchedIn(g, r) &&
      StateIn(Explore(g, calculator, r).s.states, n) == Failed &&
      Explore(g, calculator, r).s.ready != Some(n)
  {
    var r := ReleaseKeepingFailures(s, node);
    ReleaseKeepingSchedIn(g, s, node);
    ExploreOutcome(g, calculator, r);
    ExplorePending(g, calculator, r);
  }

  /** The corrected release keeps every scheduled node in the graph. */
  lemma ReleaseKeepingSchedIn(g: Graph, s: Sched, node: NodeId)
    requires SchedIn(g, s) && node in s.executing
    ensures SchedIn(g, ReleaseKeepingFailures(s, node))
  {
    var r := ReleaseKeepingFailures(s, node);
    ReverseMembers(s.pending);
    assert forall x :: x in r.executing ==> x in s.executing by {
      forall x | x in r.executing ensures x in s.executing {
        assert x in multiset(r.executing);
      }
    }
  }

  // ---------------------------------------------------------------------
  // A parent failed by fail_continue is rescheduled by executed()

  /** P depends on A and B, which both build at once; P waits in pending. */
  function ParallelGraph(): Graph
  {
    Graph(
      {0, 1, 2},
      n => if n == 0 then "P" else if n == 1 then "A" else "B",
      n => if n == 0 then [1, 2] else [],
      n => if n == 0 then [] else [0],
      _ => true,
      _ => None,
      n => m => n == 0 && (m == 1 || m == 2),
      _ => true)
  }

  /** A and B are executing, A has failed under fail_continue, which marked
      its parent P failed too, and P still sits in pending. */
  function ParallelStart(): Sched
  {
    Sched([], [1, 2], [0], None, map[0 := Failed, 1 := Failed, 2 := Executing], map[])
  }

  /** As written: executed(A) resets P to None, and once B is done the walk
      hands P out as ready although its child A failed. */
  lemma ExecutedRevivesFailedParent(calculator: Calc)
    ensures var g := ParallelGraph();
      var s1 := Release(ParallelStart(), 1);
      StateIn(ParallelStart().states, 0) == Failed && StateIn(s1.states, 0) == NoState &&
      WellFormed(g) && SchedIn(g, s1) && s1.ready.None? &&
      var w1 := Explore(g, calculator, s1);
      w1.cycle.None? && w1.s.ready.None? && w1.s.pending == [0] && 2 in w1.s.executing &&
      var s2 := Release(w1.s.(states := w1.s.states[2 := Executed]), 2);
      SchedIn(g, s2) && s2.ready.None? &&
      Explore(g, calculator, s2).s.ready == Some(0)
  {
    ParallelWellFormed();
    var s1 := Release(ParallelStart(), 1);
    ReleaseA();
    FirstWalkParks(calculator, s1);
    var w1 := Explore(ParallelGraph(), calculator, s1);
    var s2 := Release(w1.s.(states := w1.s.states[2 := Executed]), 2);
    ReleaseB(w1.s);
    SecondWalkReady(calculator, s2);
  }

  lemma ParallelWellFormed()
    ensures WellFormed(ParallelGraph()) && ParallelGraph().children(0) == [1, 2]
  {
  }

  /** executed(A) resets P to None and puts it back on the stack. */
  lemma ReleaseA()
    ensures var s1 := Release(ParallelStart(), 1);
      s1.executing == [2] && s1.pending == [] && s1.candidates == [0] && s1.ready.None? &&
      StateIn(s1.states, 0) == NoState && StateIn(s1.states, 1) == Failed && StateIn(s1.states, 2) == Executing
  {
  }

  /** executed(B) resets P to None and puts it back on the stack. */
  lemma ReleaseB(w: Sched)
    requires w.pending == [0] && w.executing == [2] && w.candidates == [] && w.ready.None?
    requires StateIn(w.states, 1) == Failed
    ensures var s2 := Release(w.(states := w.states[2 := Executed]), 2);
      s2.executing == [] && s2.pending == [] && s2.candidates == [0] && s2.ready.None? &&
      StateIn(s2.states, 0) == NoState && StateIn(s2.states, 1) == Failed && StateIn(s2.states, 2) == Executed
  {
  }

  /** P finds no unvisited child and parks behind B; the walk ends there. */
  lemma FirstWalkParks(calculator: Calc, s1: Sched)
    requires s1.executing == [2] && s1.pending == [] && s1.candidates == [0] && s1.ready.None?
    requires StateIn(s1.states, 0) == NoState && StateIn(s1.states, 1) == Failed && StateIn(s1.states, 2) == Executing
    ensures var g := ParallelGraph();
      WellFormed(g) && SchedIn(g, s1) &&
      var w1 := Explore(g, calculator, s1);
      w1.cycle.None? && w1.s.ready.None? && w1.s.pending == [0] && w1.s.executing == [2] &&
      w1.s.candidates == [] && StateIn(w1.s.states, 1) == Failed
  {
    var g := ParallelGraph();
    ParallelWellFormed();
    ParkStep(calculator, s1);
    var b := ExploreStep(g, calculator, s1).s;
    assert Explore(g, calculator, s1) == Explore(g, calculator, b);
    assert ExploreStep(g, calculator, b) == Done(Walk(b, None));
  }

  /** The first pass of that walk: P parks in pending. */
  lemma ParkStep(calculator: Calc, s1: Sched)
    requires s1.executing == [2] && s1.pending == [] && s1.candidates == [0] && s1.ready.None?
    requires StateIn(s1.states, 0) == NoState && StateIn(s1.states, 1) == Failed && StateIn(s1.states, 2) == Executing
    ensures var g := ParallelGraph();
      WellFormed(g) && SchedIn(g, s1) &&
      var r := ExploreStep(g, calculator, s1);
      r.Next? && r.s.ready.None? && r.s.pending == [0] && r.s.executing == [2] &&
      r.s.candidates == [] && StateIn(r.s.states, 1) == Failed
  {
    var g := ParallelGraph();
    ParallelWellFormed();
    var t1 := s1.(states := s1.states[0 := Stack]);
    NoneStacked(t1.states, [1, 2]);
    assert ExploreStep(g, calculator, s1) == VisitNode(g, calculator, t1);
    var u1 := t1.(csigs := SetSourceSigs(g, calculator, t1.csigs, [1, 2]));
    assert VisitNode(g, calculator, t1) == AfterChildren(g, calculator, u1);
    ParkAfterChildren(calculator, u1);
  }

  lemma ParkAfterChildren(calculator: Calc, u: Sched)
    requires u.executing == [2] && u.pending == [] && u.candidates == [0] && u.ready.None?
    requires StateIn(u.states, 0) == Stack && StateIn(u.states, 1) == Failed && StateIn(u.states, 2) == Executing
    ensures var g := ParallelGraph();
      WellFormed(g) && SchedIn(g, u) &&
      var r := AfterChildren(g, calculator, u);
      r.Next? && r.s.ready.None? && r.s.pending == [0] && r.s.executing == [2] &&
      r.s.candidates == [] && StateIn(r.s.states, 1) == Failed
  {
    var g := ParallelGraph();
    ParallelWellFormed();
    NoneUnvisited(g, u.states, [1, 2]);
    assert DependsOn(g, 0, u.executing) by { assert 2 in u.executing && g.dependsOn(0)(2); }
  }

  /** With B done and nothing pending, the walk makes P ready. */
  lemma SecondWalkReady(calculator: Calc, s2: Sched)
    requires s2.executing == [] && s2.pending == [] && s2.candidates == [0] && s2.ready.None?
    requires StateIn(s2.states, 0) == NoState && StateIn(s2.states, 1) == Failed && StateIn(s2.states, 2) == Executed
    ensures var g := ParallelGraph();
      WellFormed(g) && SchedIn(g, s2) && Explore(g, calculator, s2).s.ready == Some(0)
  {
    var g := ParallelGraph();
    ParallelWellFormed();
    var t2 := s2.(states := s2.states[0 := Stack]);
    NoneStacked(t2.states, [1, 2]);
    assert ExploreStep(g, calculator, s2) == VisitNode(g, calculator, t2);
    var u2 := t2.(csigs := SetSourceSigs(g, calculator, t2.csigs, [1, 2]));
    assert VisitNode(g, calculator, t2) == AfterChildren(g, calculator, u2);
    NoneUnvisited(g, u2.states, [1, 2]);
    assert !DependsOn(g, 0, u2.executing) && !DependsOn(g, 0, u2.pending);
    assert AfterChildren(g, calculator, u2) == Done(Walk(u2.(candidates := [], ready := Some(0)), None));
  }

  lemma NoneStacked(states: map<NodeId, State>, ns: seq<NodeId>)
    requires forall n :: n in ns ==> StateIn(states, n) != Stack
    ensures StackedIn(states, ns) == []
  {
  }

  lemma AllStacked(states: map<NodeId, State>, ns: seq<NodeId>)
    requires forall n :: n in ns ==> StateIn(states, n) == Stack
    ensures StackedIn(states, ns) == ns
  {
  }

  lemma NoneUnvisited(g: Graph, states: map<NodeId, State>, ns: seq<NodeId>)
    requires forall n :: n in ns ==> StateIn(states, n) != NoState
    ensures Unvisited(g, states, ns) == []
  {
  }

  // ---------------------------------------------------------------------
  // A dependency cycle is reported, not built

  /** A depends on B, B on C and C on A; all three are derived. */
  function CycleGraph(): Graph
  {
    Graph(
      {0, 1, 2},
      n => if n == 0 then "A" else if n == 1 then "B" else "C",
      n => if n == 0 then [1] else if n == 1 then [2] else [0],
      n => if n == 0 then [2] else if n == 1 then [0] else [1],
      _ => true,
      _ => None,
      _ => _ => false,
      _ => true)
  }

  /** The state the constructor leaves for the single target A with no
      node visited yet. */
  function CycleStart(): Sched
  {
    Sched(Reverse([0]), [], [], None, map[], map[])
  }

  /** "Dependency cycle: A -> C -> B -> A" */
  const CycleMessage := "Dependency cycle: " + CyclePath
  const CyclePath := "A -> C -> B -> A"

  /** The first walk from A pushes B and C and then finds A on the path:
      it raises the cycle error naming the three nodes and hands out
      nothing. */
  lemma CycleReported(calculator: Calc)
    ensures var g := CycleGraph();
      WellFormed(g) && SchedIn(g, CycleStart()) &&
      var w := FindReady(g, calculator, CycleStart());
      w.cycle == Some(CycleMessage) && w.s.ready.None?
  {
    var g := CycleGraph();
    var s0 := CycleStart();
    CycleWellFormed();
    assert s0.candidates == [0];
    CycleDescend(calculator, s0, 0);
    ExploreNext(g, calculator, s0);
    CycleFromB(calculator, ExploreStep(g, calculator, s0).s);
  }

  /** The rest of that walk, with A on the path and B on top. */
  lemma CycleFromB(calculator: Calc, s1: Sched)
    requires SchedIn(CycleGraph(), s1) && s1.ready.None? && s1.executing == [] && s1.pending == []
    requires s1.candidates == [0, 1] && s1.states == map[0 := Stack]
    ensures var g := CycleGraph();
      WellFormed(g) &&
      var w := Explore(g, calculator, s1);
      w.cycle == Some(CycleMessage) && w.s.ready.None?
  {
    var g := CycleGraph();
    CycleWellFormed();
    CycleDescend(calculator, s1, 1);
    var s2 := ExploreStep(g, calculator, s1).s;
    ExploreNext(g, calculator, s1);
    assert s2.candidates == [0, 1, 2];
    CycleCloses(calculator, s2);
    ExploreDone(g, calculator, s2);
  }

  /** One pass below A or B: the node goes on the path and its unvisited
      child on the stack. */
  lemma CycleDescend(calculator: Calc, t: Sched, n: NodeId)
    requires n == 0 || n == 1
    requires SchedIn(CycleGraph(), t) && t.ready.None? && t.candidates != [] && t.candidates[|t.candidates| - 1] == n
    requires t.executing == [] && t.pending == []
    requires StateIn(t.states, n) == NoState && StateIn(t.states, n + 1) == NoState
    ensures var g := CycleGraph();
      WellFormed(g) &&
      var r := ExploreStep(g, calculator, t);
      r.Next? && SchedIn(g, r.s) && r.s.ready.None? && r.s.executing == [] && r.s.pending == [] &&
      r.s.states == t.states[n := Stack] && r.s.candidates == t.candidates + [n + 1]
  {
    var g := CycleGraph();
    CycleWellFormed();
    var u := t.(states := t.states[n := Stack]);
    ExploreStepCases(g, calculator, t, n, NoState);
    CycleVisit(calculator, u, n);
  }

  /** VisitNode below A or B: no child is on the path, and the single
      child, unvisited, is pushed. */
  lemma CycleVisit(calculator: Calc, u: Sched, n: NodeId)
    requires n == 0 || n == 1
    requires SchedIn(CycleGraph(), u) && u.ready.None? && u.candidates != [] && u.candidates[|u.candidates| - 1] == n
    requires StateIn(u.states, n) == Stack && StateIn(u.states, n + 1) == NoState
    ensures var g := CycleGraph();
      WellFormed(g) &&
      VisitNode(g, calculator, u) == Next(u.(csigs := SetSourceSigs(g, calculator, u.csigs, [n + 1]), candidates := u.candidates + [n + 1]))
  {
    var g := CycleGraph();
    CycleWellFormed();
    assert g.children(n) == [n + 1];
    NoneStacked(u.states, [n + 1]);
    VisitNodeCases(g, calculator, u, [n + 1], []);
    var v := u.(csigs := SetSourceSigs(g, calculator, u.csigs, [n + 1]));
    assert Unvisited(g, v.states, [n + 1]) == [n + 1];
    assert Reverse([n + 1]) == [n + 1];
    AfterChildrenCases(g, calculator, v, n, v.candidates[..|v.candidates| - 1], [n + 1]);
  }

  lemma CycleWellFormed()
    ensures WellFormed(CycleGraph())
  {
  }

  /** The pass at C: its child A is on the path, so the walk raises the
      cycle error naming the path and A again, last node first. */
  lemma CycleCloses(calculator: Calc, t: Sched)
    requires t.ready.None? && t.candidates == [0, 1, 2] && t.executing == [] && t.pending == []
    requires StateIn(t.states, 0) == Stack && StateIn(t.states, 1) == Stack && StateIn(t.states, 2) == NoState
    ensures var g := CycleGraph();
      WellFormed(g) && SchedIn(g, t) &&
      var r := ExploreStep(g, calculator, t);
      r.Done? && r.w.cycle == Some(CycleMessage) && r.w.s.ready.None?
  {
    var g := CycleGraph();
    CycleWellFormed();
    var u := t.(states := t.states[2 := Stack]);
    ExploreStepCases(g, calculator, t, 2, NoState);
    assert StackedIn(u.states, [0]) == [0];
    AllStacked(u.states, [0, 1, 2]);
    VisitNodeCases(g, calculator, u, [0], [0]);
    CycleNames();
  }

  lemma CycleNames()
    ensures CycleDescription(CycleGraph(), [0, 1, 2] + [0]) == CycleMessage
  {
    var g := CycleGraph();
    CycleReverse();
    CycleNameList();
    assert Names(g, Reverse([0, 1, 2] + [0])) == ["A", "C", "B", "A"];
    CycleJoin();
  }

  lemma CycleReverse()
    ensures Reverse([0, 1, 2] + [0]) == [0, 2, 1, 0]
  {
    assert [0, 1, 2] + [0] == [0, 1, 2, 0];
  }

  lemma CycleNameList()
    ensures Names(CycleGraph(), [0, 2, 1, 0]) == ["A", "C", "B", "A"]
  {
  }

  lemma CycleJoin()
    ensures Join(["A", "C", "B", "A"], " -> ") == CyclePath
  {
    assert ["A", "C", "B", "A"][1..] == ["C", "B", "A"];
    assert ["C", "B", "A"][1..] == ["B", "A"];
    assert ["B", "A"][1..] == ["A"];
  }

  // ---------------------------------------------------------------------
  // fail_continue's walk over parents

  /** p climbs from p[0] through get_parents. */
  ghost predicate ParentPath(g: Graph, p: seq<NodeId>)
  {
    |p| > 0 && forall i :: 0 <= i < |p| - 1 ==> p[i + 1] in g.parents(p[i])
  }

  /** n is one of roots or a transitive parent of one. */
  ghost predicate Upward(g: Graph, roots: seq<NodeId>, n: NodeId)
  {
    exists p :: ParentPath(g, p) && p[0] in roots && p[|p| - 1] == n
  }

  lemma ExtendPath(g: Graph, p: seq<NodeId>, q: NodeId)
    requires ParentPath(g, p) && q in g.parents(p[|p| - 1])
    ensures ParentPath(g, p + [q])
  {
    var r := p + [q];
    forall i | 0 <= i < |r| - 1 ensures r[i + 1] in g.parents(r[i]) {
      if i < |p| - 1 {
        assert r[i] == p[i] && r[i + 1] == p[i + 1];
      }
    }
  }

  lemma {:induction false} ClosedSetHoldsPath(g: Graph, roots: seq<NodeId>, S: set<NodeId>, p: seq<NodeId>)
    requires forall r :: r in roots ==> r in S
    requires forall v, q :: v in S && q in g.parents(v) ==> q in S
    requires ParentPath(g, p) && p[0] in roots
    ensures p[|p| - 1] in S
    decreases |p|
  {
    if |p| > 1 {
      var q := p[..|p| - 1];
      assert ParentPath(g, q);
      ClosedSetHoldsPath(g, roots, S, q);
      assert p[|p| - 1] in g.parents(q[|q| - 1]);
    }
  }

  /** The walk over parents so far: `visited` and `work` hold only nodes
      reachable upwards from roots, every root has been reached, and every
      parent of a visited node is visited or still to do. */
  ghost predicate WalkInv(g: Graph, roots: seq<NodeId>, visited: set<NodeId>, work: seq<NodeId>)
  {
    visited <= g.nodes && (forall v :: v in work ==> v in g.nodes) &&
    (forall v :: v in visited ==> Upward(g, roots, v)) &&
    (forall v :: v in work ==> Upward(g, roots, v)) &&
    (set t | t in roots) <= visited + (set v | v in work) &&
    (forall v, q :: v in visited && q in g.parents(v) ==> q in visited || q in work)
  }

  lemma WalkStart(g: Graph, roots: seq<NodeId>)
    requires forall r :: r in roots ==> r in g.nodes
    ensures WalkInv(g, roots, {}, roots)
  {
    forall t | t in roots ensures Upward(g, roots, t) {
      assert ParentPath(g, [t]);
    }
  }

  lemma WalkSkip(g: Graph, roots: seq<NodeId>, visited: set<NodeId>, work: seq<NodeId>)
    requires WalkInv(g, roots, visited, work) && work != [] && work[0] in visited
    ensures WalkInv(g, roots, visited, work[1..])
  {
    assert work == [work[0]] + work[1..];
  }

  lemma WalkVisit(g: Graph, roots: seq<NodeId>, visited: set<NodeId>, work: seq<NodeId>)
    requires WellFormed(g) && WalkInv(g, roots, visited, work) && work != [] && work[0] !in visited
    ensures WalkInv(g, roots, visited + {work[0]}, work[1..] + g.parents(work[0]))
  {
    var n := work[0];
    assert work == [n] + work[1..];
    ParentsUpward(g, roots, n);
  }

  /** The parents of a node reached upwards are reached upwards. */
  lemma ParentsUpward(g: Graph, roots: seq<NodeId>, n: NodeId)
    requires Upward(g, roots, n)
    ensures forall q :: q in g.parents(n) ==> Upward(g, roots, q)
  {
    var pn :| ParentPath(g, pn) && pn[0] in roots && pn[|pn| - 1] == n;
    forall q | q in g.parents(n) ensures Upward(g, roots, q) {
      ExtendPath(g, pn, q);
      assert (pn + [q])[0] == pn[0];
    }
  }

  lemma WalkEnd(g: Graph, roots: seq<NodeId>, visited: set<NodeId>)
    requires WalkInv(g, roots, visited, [])
    ensures forall n :: n in visited <==> n in g.nodes && Upward(g, roots, n)
  {
    forall n | n in g.nodes && Upward(g, roots, n) ensures n in visited {
      var p :| ParentPath(g, p) && p[0] in roots && p[|p| - 1] == n;
      ClosedSetHoldsPath(g, roots, visited, p);
    }
  }

  /** The nodes the Walker over get_parents visits from roots, in the order
      it reaches them. */
  method UpwardClosure(g: Graph, roots: seq<NodeId>) returns (order: seq<NodeId>)
    requires WellFormed(g) && forall r :: r in roots ==> r in g.nodes
    ensures forall n :: n in order <==> n in g.nodes && Upward(g, roots, n)
  {
    var visited: set<NodeId> := {};
    var work: seq<NodeId> := roots;
    order := [];
    WalkStart(g, roots);
    while work != []
      invariant WalkInv(g, roots, visited, work)
      invariant forall v :: v in order <==> v in visited
      decreases g.nodes - visited, |work|
    {
      var n := work[0];
      if n in visited {
        WalkSkip(g, roots, visited, work);
        work := work[1..];
      } else {
        WalkVisit(g, roots, visited, work);
        visited := visited + {n};
        order := order + [n];
        work := work[1..] + g.parents(n);
      }
    }
    WalkEnd(g, roots, visited);
  }

  // ---------------------------------------------------------------------
  // The Taskmaster object

  class Taskmaster {
    const graph: Graph
    const calculator: Calc
    const targets: seq<NodeId>
    var candidates: seq<NodeId>
    var executing: seq<NodeId>
    var pending: seq<NodeId>
    var ready: Option<NodeId>
    /** Node states, bsig and csig caches (fields of the Node objects). */
    var states: map<NodeId, State>
    var bsigs: map<NodeId, Sig>
    var csigs: map<NodeId, Sig>
    /** Nodes whose prepare()/build() ran, in order. */
    var built: seq<NodeId>
    /** Nodes whose store_sigs()/built() ran, in order. */
    var stored: seq<NodeId>
    /** Set once stop() has cleared the candidates. */
    ghost var stopped: bool

    function Snap(): Sched
      reads this
    {
      Sched(candidates, executing, pending, ready, states, csigs)
    }

    function StateOf(n: NodeId): State
      reads this
    {
      StateIn(states, n)
    }

    ghost predicate Valid()
      reads this
    {
      WellFormed(graph) && SchedIn(graph, Snap()) &&
      (forall t :: t in targets ==> t in graph.nodes) &&
      (stopped || StackTracked(graph, Snap()))
    }

    /** Taskmaster(targets, tasker, calculator): the first target is examined first. */
    constructor (targets: seq<NodeId>, graph: Graph, calculator: Calc, states: map<NodeId, State>)
      requires WellFormed(graph) && forall t :: t in targets ==> t in graph.nodes
      requires forall n :: n in graph.nodes ==> StateIn(states, n) != Stack
      ensures Valid()
      ensures this.targets == targets && this.graph == graph && this.calculator == calculator
      ensures candidates == Reverse(targets) && executing == [] && pending == [] && ready == None
      ensures targets != [] ==> candidates[|candidates| - 1] == targets[0]
      ensures this.states == states && bsigs == map[] && csigs == map[] && built == [] && stored == []
    {
      this.targets := targets;
      this.graph := graph;
      this.calculator := calculator;
      candidates := Reverse(targets);
      executing := [];
      pending := [];
      ready := None;
      this.states := states;
      bsigs := map[];
      csigs := map[];
      built := [];
      stored := [];
      stopped := false;
      ReverseMembers(targets);
    }

    /** _find_next_ready_node. Returns the cycle message when it raises. */
    method FindNextReadyNode() returns (err: Option<string>)
      requires Valid()
      modifies this
      ensures Valid()
      ensures Snap() == FindReady(graph, calculator, old(Snap())).s
      ensures err == FindReady(graph, calculator, old(Snap())).cycle
      ensures PendingMarked(old(Snap())) ==> PendingMarked(Snap())
      ensures bsigs == old(bsigs) && built == old(built) && stored == old(stored) && stopped == old(stopped)
    {
      if ready.Some? {
        return None;
      }
      ghost var start := Snap();
      ExplorePending(graph, calculator, start);
      if !stopped {
        ExploreTracksStack(graph, calculator, start);
      }
      while candidates != []
        invariant WellFormed(graph) && SchedIn(graph, Snap()) && ready.None?
        invariant Explore(graph, calculator, Snap()) == Explore(graph, calculator, start)
        invariant bsigs == old(bsigs) && built == old(built) && stored == old(stored) && stopped == old(stopped)
        decreases NoStateSet(graph, states), TopVisited(Snap()), |candidates|
      {
        var done;
        done, err := VisitTop();
        if done {
          return;
        }
      }
      err := None;
    }

    /** One pass of the loop in _find_next_ready_node over the node on top
        of the candidate stack. */
    method VisitTop() returns (done: bool, err: Option<string>)
      requires WellFormed(graph) && SchedIn(graph, Snap()) && ready.None? && candidates != []
      modifies this
      ensures var r := ExploreStep(graph, calculator, old(Snap()));
        (done <==> r.Done?) &&
        (r.Done? ==> Snap() == r.w.s && err == r.w.cycle) &&
        (r.Next? ==> Snap() == r.s)
      ensures bsigs == old(bsigs) && built == old(built) && stored == old(stored) && stopped == old(stopped)
    {
      ghost var s0 := Snap();
      var node := candidates[|candidates| - 1];
      var st := StateOf(node);
      ExploreStepCases(graph, calculator, s0, node, st);
      done := false;
      err := None;
      if st != NoState && st != Stack {
        candidates := candidates[..|candidates| - 1];
        return;
      }
      states := states[node := Stack];
      assert Snap() == s0.(states := s0.states[node := Stack]);
      done, err := VisitPath(node);
    }

    /** The pass once the top node is on the path: raise on a child on the
        path, or cache the csigs and go on. */
    method VisitPath(node: NodeId) returns (done: bool, err: Option<string>)
      requires WellFormed(graph) && SchedIn(graph, Snap()) && ready.None? && candidates != []
      requires node == candidates[|candidates| - 1] && StateOf(node) == Stack
      modifies this
      ensures var r := VisitNode(graph, calculator, old(Snap()));
        (done <==> r.Done?) &&
        (r.Done? ==> Snap() == r.w.s && err == r.w.cycle) &&
        (r.Next? ==> Snap() == r.s)
      ensures bsigs == old(bsigs) && built == old(built) && stored == old(stored) && stopped == old(stopped)
    {
      ghost var t := Snap();
      var children := graph.children(node);
      var cycle := StackedIn(states, children);
      VisitNodeCases(graph, calculator, t, children, cycle);
      if cycle != [] {
        err := Some(CycleDescription(graph, StackedIn(states, candidates) + cycle));
        done := true;
        return;
      }
      CacheSourceSigs(children);
      VisitChildren(node, children);
      done := ready.Some?;
      err := None;
    }

    /** The rest of the pass once the top node is on the path and its
        source children's csigs are cached: push the unvisited derived
        children, park the node in pending, or make it ready. */
    method VisitChildren(node: NodeId, children: seq<NodeId>)
      requires WellFormed(graph) && SchedIn(graph, Snap()) && ready.None? && candidates != []
      requires node == candidates[|candidates| - 1] && children == graph.children(node)
      requires StateOf(node) == Stack
      modifies this
      ensures var r := AfterChildren(graph, calculator, old(Snap()));
        (r.Done? ==> Snap() == r.w.s && r.w.cycle.None? && ready.Some?) &&
        (r.Next? ==> Snap() == r.s && ready.None?)
      ensures bsigs == old(bsigs) && built == old(built) && stored == old(stored) && stopped == old(stopped)
    {
      ghost var t := Snap();
      var derived := Unvisited(graph, states, children);
      var rest := candidates[..|candidates| - 1];
      AfterChildrenCases(graph, calculator, t, node, rest, derived);
      if derived != [] {
        candidates := candidates + Reverse(derived);
        return;
      }
      if DependsOn(graph, node, executing) || DependsOn(graph, node, pending) {
        pending := pending + [node];
        states := states[node := Pending];
        candidates := rest;
      } else {
        candidates := rest;
        ready := Some(node);
      }
    }

    /** The csig of every non-derived child is computed and cached. */
    method CacheSourceSigs(children: seq<NodeId>)
      modifies this
      ensures csigs == SetSourceSigs(graph, calculator, old(csigs), children)
      ensures Snap() == old(Snap()).(csigs := csigs)
      ensures bsigs == old(bsigs) && built == old(built) && stored == old(stored) && stopped == old(stopped)
    {
      for k := 0 to |children|
        invariant SetSourceSigs(graph, calculator, csigs, children[k..]) == SetSourceSigs(graph, calculator, old(csigs), children)
        invariant Snap() == old(Snap()).(csigs := csigs)
        invariant bsigs == old(bsigs) && built == old(built) && stored == old(stored) && stopped == old(stopped)
      {
        var child := children[k];
        assert children[k..][1..] == children[k + 1..];
        if !graph.hasBuilder(child) {
          csigs := csigs[child := calculator.csig(child)];
        }
      }
    }

    /** next_task: None when nothing is ready; otherwise the ready node joins
        `executing`, its group is made ready as one, and `ready` is cleared. */
    method NextTask() returns (task: Task?, err: Option<string>)
      requires Valid()
      modifies this
      ensures Valid() && ready.None?
      ensures var w := FindReady(graph, calculator, old(Snap()));
        err == w.cycle &&
        (task == null <==> w.cycle.Some? || w.s.ready.None?) &&
        (task == null ==> Snap() == w.s) &&
        (task != null ==>
           fresh(task) && task.tm == this && Some(task.node) == w.s.ready &&
           task.targets == Group(graph, task.node) && task.top == (task.node in targets) &&
           Snap() == w.s.(executing := w.s.executing + [task.node], ready := None,
                          states := SetAll(w.s.states, task.targets, ReadyState(calculator, task.targets))) &&
           (forall t :: t in task.targets ==> t in bsigs && bsigs[t] == calculator.bsig(t)))
      ensures PendingMarked(old(Snap())) ==>
        forall n :: n in pending && (task == null || n !in task.targets) ==> StateOf(n) == Pending
      ensures built == old(built) && stored == old(stored)
    {
      if ready.None? {
        ExploreOutcome(graph, calculator, Snap());
      }
      err := FindNextReadyNode();
      if err.Some? || ready.None? {
        return null, err;
      }
      task := StartTask();
    }

    /** The second half of next_task: the ready node joins `executing`, its
        group becomes one Task that is made ready, and `ready` is cleared. */
    method StartTask() returns (task: Task)
      requires Valid() && ready.Some?
      modifies this
      ensures Valid() && ready.None?
      ensures fresh(task) && task.tm == this && Some(task.node) == old(ready)
      ensures task.targets == Group(graph, task.node) && task.top == (task.node in targets)
      ensures Snap() == old(Snap()).(executing := old(executing) + [task.node], ready := None,
                                      states := SetAll(old(states), task.targets, ReadyState(calculator, task.targets)))
      ensures forall t :: t in task.targets ==> t in bsigs && bsigs[t] == calculator.bsig(t)
      ensures built == old(built) && stored == old(stored)
    {
      var node := ready.value;
      executing := executing + [node];
      var tlist := Group(graph, node);
      task := new Task(this, tlist, node in targets, node);
      task.MakeReady();
      ready := None;
    }

    /** is_blocked: runs the walk, then reports no ready node while some
        node is pending. */
    method IsBlocked() returns (blocked: bool, err: Option<string>)
      requires Valid()
      modifies this
      ensures Valid()
      ensures Snap() == FindReady(graph, calculator, old(Snap())).s
      ensures err == FindReady(graph, calculator, old(Snap())).cycle
      ensures err.None? ==> (blocked <==> ready.None? && pending != [])
      ensures PendingMarked(old(Snap())) ==> PendingMarked(Snap())
    {
      err := FindNextReadyNode();
      blocked := ready.None? && pending != [];
    }

    /** stop: no further candidates, ready node or pending nodes. */
    method Stop()
      requires Valid()
      modifies this
      ensures Valid() && stopped
      ensures candidates == [] && ready.None? && pending == [] && PendingMarked(Snap())
      ensures executing == old(executing) && states == old(states) && csigs == old(csigs)
      ensures bsigs == old(bsigs) && built == old(built) && stored == old(stored)
    {
      candidates := [];
      ready := None;
      pending := [];
      stopped := true;
    }

    /** executed(node): returns false for the ValueError of a node that is
        not executing; otherwise the state becomes Release(old state, node). */
    method Executed(node: NodeId) returns (ok: bool)
      requires Valid()
      modifies this
      ensures Valid()
      ensures ok == (node in old(executing))
      ensures ok ==> Snap() == Release(old(Snap()), node) && PendingMarked(Snap())
      ensures !ok ==> Snap() == old(Snap())
      ensures bsigs == old(bsigs) && built == old(built) && stored == old(stored) && stopped == old(stopped)
    {
      if node !in executing {
        return false;
      }
      ghost var before := Snap();
      executing := RemoveFirst(executing, node);
      ClearPending();
      candidates := candidates + Reverse(pending);
      pending := [];
      ok := true;
      ReleaseValid(before, node);
    }

    /** executed(node) with the fail_continue correction: failed pending
        nodes keep their state. */
    method ExecutedKeepingFailures(node: NodeId) returns (ok: bool)
      requires Valid()
      modifies this
      ensures Valid()
      ensures ok == (node in old(executing))
      ensures ok ==> Snap() == ReleaseKeepingFailures(old(Snap()), node) && PendingMarked(Snap())
      ensures !ok ==> Snap() == old(Snap())
      ensures forall n :: old(StateOf(n)) == Failed ==> StateOf(n) == Failed
      ensures bsigs == old(bsigs) && built == old(built) && stored == old(stored) && stopped == old(stopped)
    {
      if node !in executing {
        return false;
      }
      ghost var before := Snap();
      executing := RemoveFirst(executing, node);
      ResetStillPending();
      candidates := candidates + Reverse(pending);
      pending := [];
      ok := true;
      ReleaseKeepingValid(before, node);
    }

    /** The loop of executed() over `pending`: every pending node's state
        goes back to None. */
    method ClearPending()
      modifies this
      ensures states == SetAll(old(states), pending, NoState)
      ensures Snap() == old(Snap()).(states := states)
      ensures bsigs == old(bsigs) && built == old(built) && stored == old(stored) && stopped == old(stopped)
    {
      var ps := pending;
      for k := 0 to |ps|
        invariant SetAll(states, ps[k..], NoState) == SetAll(old(states), ps, NoState)
        invariant Snap() == old(Snap()).(states := states)
        invariant bsigs == old(bsigs) && built == old(built) && stored == old(stored) && stopped == old(stopped)
      {
        assert ps[k..][1..] == ps[k + 1..];
        states := states[ps[k] := NoState];
      }
    }

    /** The corrected loop: only pending nodes whose state is still pending
        go back to None. */
    method ResetStillPending()
      modifies this
      ensures states == ResetPending(old(states), pending)
      ensures Snap() == old(Snap()).(states := states)
      ensures bsigs == old(bsigs) && built == old(built) && stored == old(stored) && stopped == old(stopped)
    {
      var ps := pending;
      for k := 0 to |ps|
        invariant ResetPending(states, ps[k..]) == ResetPending(old(states), ps)
        invariant Snap() == old(Snap()).(states := states)
        invariant bsigs == old(bsigs) && built == old(built) && stored == old(stored) && stopped == old(stopped)
      {
        assert ps[k..][1..] == ps[k + 1..];
        if StateOf(ps[k]) == Pending {
          states := states[ps[k] := NoState];
        }
      }
    }

    lemma ReleaseValid(s: Sched, node: NodeId)
      requires WellFormed(graph) && SchedIn(graph, s) && node in s.executing
      ensures SchedIn(graph, Release(s, node))
      ensures StackTracked(graph, s) ==> StackTracked(graph, Release(s, node))
    {
      var r := Release(s, node);
      ReverseMembers(s.pending);
      assert forall x :: x in r.executing ==> x in s.executing by {
        forall x | x in r.executing ensures x in s.executing {
          assert x in multiset(r.executing);
        }
      }
    }

    lemma ReleaseKeepingValid(s: Sched, node: NodeId)
      requires WellFormed(graph) && SchedIn(graph, s) && node in s.executing
      ensures SchedIn(graph, ReleaseKeepingFailures(s, node))
      ensures StackTracked(graph, s) ==> StackTracked(graph, ReleaseKeepingFailures(s, node))
    {
      var r := ReleaseKeepingFailures(s, node);
      ReverseMembers(s.pending);
      assert forall x :: x in r.executing ==> x in s.executing by {
        forall x | x in r.executing ensures x in s.executing {
          assert x in multiset(r.executing);
        }
      }
    }
  }

  /** One unit of work: a target group built by one builder call. */
  class Task {
    const tm: Taskmaster
    const targets: seq<NodeId>
    const top: bool
    const node: NodeId

    constructor (tm: Taskmaster, targets: seq<NodeId>, top: bool, node: NodeId)
      ensures this.tm == tm && this.targets == targets && this.top == top && this.node == node
    {
      this.tm := tm;
      this.targets := targets;
      this.top := top;
      this.node := node;
    }

    ghost predicate Valid()
      reads this, tm
    {
      tm.Valid() && |targets| > 0 && forall t :: t in targets ==> t in tm.graph.nodes
    }

    /** get_target. */
    function GetTarget(): (n: NodeId)
      reads this
      ensures n == node
    {
      node
    }

    /** set_tstates: every target gets the same state. */
    method SetTstates(st: State)
      requires tm.Valid() && st != Stack
      modifies tm
      ensures tm.Valid()
      ensures tm.Snap() == old(tm.Snap()).(states := SetAll(old(tm.states), targets, st))
      ensures tm.bsigs == old(tm.bsigs) && tm.built == old(tm.built) && tm.stored == old(tm.stored)
      ensures tm.stopped == old(tm.stopped)
    {
      for k := 0 to |targets|
        invariant SetAll(tm.states, targets[k..], st) == SetAll(old(tm.states), targets, st)
        invariant tm.Snap() == old(tm.Snap()).(states := tm.states)
        invariant tm.bsigs == old(tm.bsigs) && tm.built == old(tm.built) && tm.stored == old(tm.stored)
        invariant tm.stopped == old(tm.stopped)
      {
        assert targets[k..][1..] == targets[k + 1..];
        tm.states := tm.states[targets[k] := st];
      }
    }

    /** make_ready: stores each target's bsig; the group becomes executing
        if any target is not current, up_to_date otherwise. */
    method MakeReady()
      requires tm.Valid()
      modifies tm
      ensures tm.Valid()
      ensures tm.Snap() == old(tm.Snap()).(states := SetAll(old(tm.states), targets, ReadyState(tm.calculator, targets)))
      ensures forall t :: t in targets ==> t in tm.bsigs && tm.bsigs[t] == tm.calculator.bsig(t)
      ensures forall n :: n in old(tm.bsigs) && n !in targets ==> n in tm.bsigs && tm.bsigs[n] == old(tm.bsigs)[n]
      ensures tm.built == old(tm.built) && tm.stored == old(tm.stored) && tm.stopped == old(tm.stopped)
    {
      var st := UpToDate;
      for k := 0 to |targets|
        invariant tm.Snap() == old(tm.Snap())
        invariant st == ReadyState(tm.calculator, targets[..k])
        invariant forall t :: t in targets[..k] ==> t in tm.bsigs && tm.bsigs[t] == tm.calculator.bsig(t)
        invariant forall n :: n in old(tm.bsigs) && n !in targets ==> n in tm.bsigs && tm.bsigs[n] == old(tm.bsigs)[n]
        invariant tm.built == old(tm.built) && tm.stored == old(tm.stored) && tm.stopped == old(tm.stopped)
      {
        var t := targets[k];
        var bsig := tm.calculator.bsig(t);
        tm.bsigs := tm.bsigs[t := bsig];
        if !tm.calculator.current(t, bsig) {
          st := Executing;
        }
        assert targets[..k + 1] == targets[..k] + [t];
      }
      assert targets[..|targets|] == targets;
      SetTstates(st);
    }

    /** execute: build the first target unless it is up to date; false when
        build() raises. */
    method Execute() returns (ok: bool)
      requires Valid()
      modifies tm
      ensures Valid()
      ensures tm.Snap() == old(tm.Snap()) && tm.bsigs == old(tm.bsigs) && tm.stored == old(tm.stored)
      ensures tm.built == old(tm.built) + (if old(tm.StateOf(targets[0])) != UpToDate then [targets[0]] else [])
      ensures ok == (old(tm.StateOf(targets[0])) == UpToDate || tm.graph.buildSucceeds(targets[0]))
    {
      ok := true;
      if tm.StateOf(targets[0]) != UpToDate {
        tm.built := tm.built + [targets[0]];
        ok := tm.graph.buildSucceeds(targets[0]);
      }
    }

    /** executed: when the group is executing it becomes executed and its
        signatures are stored; then the Taskmaster releases the node (false
        for its ValueError). */
    method Executed() returns (ok: bool)
      requires Valid()
      modifies tm
      ensures tm.Valid()
      ensures var building := old(tm.StateOf(targets[0])) == Executing;
        var s1 := if building then old(tm.Snap()).(states := SetAll(old(tm.states), targets, State.Executed)) else old(tm.Snap());
        (ok <==> node in old(tm.executing)) &&
        (ok ==> tm.Snap() == Release(s1, node) && PendingMarked(tm.Snap())) &&
        (!ok ==> tm.Snap() == s1) &&
        tm.stored == old(tm.stored) + (if building then targets else [])
      ensures tm.bsigs == old(tm.bsigs) && tm.built == old(tm.built)
    {
      if tm.StateOf(targets[0]) == Executing {
        SetTstates(State.Executed);
        tm.stored := tm.stored + targets;
      }
      ok := tm.Executed(node);
    }

    /** fail_stop: the whole group fails and the build stops. */
    method FailStop()
      requires Valid()
      modifies tm
      ensures tm.Valid() && tm.stopped
      ensures tm.Snap() == old(tm.Snap()).(states := SetAll(old(tm.states), targets, State.Failed),
                                            candidates := [], pending := [], ready := None)
      ensures PendingMarked(tm.Snap())
      ensures tm.bsigs == old(tm.bsigs) && tm.built == old(tm.built) && tm.stored == old(tm.stored)
    {
      SetTstates(State.Failed);
      tm.Stop();
    }

    /** failed: the default policy is fail_stop. */
    method Failed()
      requires Valid()
      modifies tm
      ensures tm.Valid() && tm.stopped
      ensures tm.Snap() == old(tm.Snap()).(states := SetAll(old(tm.states), targets, State.Failed),
                                            candidates := [], pending := [], ready := None)
      ensures PendingMarked(tm.Snap())
      ensures tm.bsigs == old(tm.bsigs) && tm.built == old(tm.built) && tm.stored == old(tm.stored)
    {
      FailStop();
    }

    /** fail_continue: the targets and every transitive parent fail, then the
        node is released; as written the release resets every pending node
        to None, failed parents included (FailContinueStates). */
    method FailContinue() returns (ok: bool)
      requires Valid()
      modifies tm
      ensures tm.Valid()
      ensures ok == (node in old(tm.executing))
      ensures ok ==> tm.Snap() == Release(MarkFailed(tm.graph, targets, old(tm.Snap())), node)
      ensures !ok ==> tm.Snap() == MarkFailed(tm.graph, targets, old(tm.Snap()))
      ensures tm.stopped == old(tm.stopped)
      ensures tm.bsigs == old(tm.bsigs) && tm.built == old(tm.built) && tm.stored == old(tm.stored)
    {
      MarkUpwardFailed();
      ok := tm.Executed(node);
    }

    /** fail_continue with the corrected release: the targets and every
        transitive parent fail, and those failures survive the release. */
    method FailContinueKeepingFailures() returns (ok: bool)
      requires Valid()
      modifies tm
      ensures tm.Valid()
      ensures ok == (node in old(tm.executing))
      ensures ok ==> tm.Snap() == ReleaseKeepingFailures(MarkFailed(tm.graph, targets, old(tm.Snap())), node)
      ensures !ok ==> tm.Snap() == MarkFailed(tm.graph, targets, old(tm.Snap()))
      ensures forall n :: n in tm.graph.nodes && Upward(tm.graph, targets, n) ==> tm.StateOf(n) == State.Failed
      ensures tm.stopped == old(tm.stopped)
      ensures tm.bsigs == old(tm.bsigs) && tm.built == old(tm.built) && tm.stored == old(tm.stored)
    {
      MarkUpwardFailed();
      ok := tm.ExecutedKeepingFailures(node);
    }

    /** The Walker over get_parents with eval_func set_state(failed): every
        node reachable upwards from a target becomes failed; nothing else
        changes. */
    method MarkUpwardFailed()
      requires Valid()
      modifies tm
      ensures Valid()
      ensures tm.Snap() == MarkFailed(tm.graph, targets, old(tm.Snap()))
      ensures tm.bsigs == old(tm.bsigs) && tm.built == old(tm.built) && tm.stored == old(tm.stored)
      ensures tm.stopped == old(tm.stopped)
    {
      var order := UpwardClosure(tm.graph, targets);
      SetAllKeys(tm.states, order, State.Failed);
      MarkFailedAs(tm.graph, targets, tm.Snap(), order);
      tm.states := SetAll(tm.states, order, State.Failed);
    }
  }
}

/** internal/flow/dag.go: the three-colour depth-first search that validates a flow's graph. */
module Dag {
  import opened Wrappers
  import opened FlowTypes

  // ---------------------------------------------------------------- graphs

  /** Each step name with the names it depends on. */
  type Graph<T> = map<T, seq<T>>

  predicate Edge<T(==)>(g: Graph<T>, a: T, b: T) {
    a in g && b in g[a]
  }

  ghost predicate Walk<T(!new)>(g: Graph<T>, p: seq<T>) {
    forall i, j :: 0 <= i && j == i + 1 && j < |p| ==> Edge(g, p[i], p[j])
  }

  ghost predicate WalkFromTo<T(!new)>(g: Graph<T>, p: seq<T>, a: T, b: T) {
    |p| >= 2 && p[0] == a && p[|p| - 1] == b && Walk(g, p)
  }

  /** b is a transitive dependency of a. */
  ghost predicate Reaches<T(!new)>(g: Graph<T>, a: T, b: T) {
    exists p :: WalkFromTo(g, p, a, b)
  }

  ghost predicate Acyclic<T(!new)>(g: Graph<T>) {
    forall a :: !Reaches(g, a, a)
  }

  ghost predicate Closed<T(!new)>(g: Graph<T>) {
    forall a, k :: a in g && 0 <= k < |g[a]| ==> g[a][k] in g
  }

  ghost predicate NoDuplicates<T(!new)>(s: seq<T>) {
    forall i, j :: 0 <= i < j < |s| ==> s[i] != s[j]
  }

  /** Every listed name comes after all of its dependencies. */
  ghost predicate DepsFirst<T(!new)>(g: Graph<T>, order: seq<T>) {
    && NoDuplicates(order)
    && (forall k :: 0 <= k < |order| ==> order[k] in g)
    && forall k, d :: 0 <= k < |order| && Edge(g, order[k], d) ==> d in order[..k]
  }

  ghost predicate Topological<T(!new)>(g: Graph<T>, order: seq<T>) {
    DepsFirst(g, order) && forall x :: x in g ==> x in order
  }

  function IndexIn<T(==)>(s: seq<T>, x: T): (k: nat)
    requires x in s
    ensures k < |s| && s[k] == x
  {
    if s[0] == x then 0 else 1 + IndexIn(s[1..], x)
  }

  lemma WalkSuffix<T(!new)>(g: Graph<T>, p: seq<T>, n: nat)
    requires Walk(g, p) && n <= |p|
    ensures Walk(g, p[n..])
  {
    var q := p[n..];
    forall k, k' | 0 <= k && k' == k + 1 && k' < |q|
      ensures Edge(g, q[k], q[k'])
    {
      assert Edge(g, p[n + k], p[n + k + 1]);
    }
  }

  lemma WalkPrefix<T(!new)>(g: Graph<T>, p: seq<T>, n: nat)
    requires Walk(g, p) && n <= |p|
    ensures Walk(g, p[..n])
  {
    var q := p[..n];
    forall k, k' | 0 <= k && k' == k + 1 && k' < |q|
      ensures Edge(g, q[k], q[k'])
    {
      assert Edge(g, p[k], p[k + 1]);
    }
  }

  lemma WalkSnoc<T(!new)>(g: Graph<T>, p: seq<T>, x: T)
    requires Walk(g, p) && (p == [] || Edge(g, p[|p| - 1], x))
    ensures Walk(g, p + [x])
  {
    var q := p + [x];
    forall k, k' | 0 <= k && k' == k + 1 && k' < |q|
      ensures Edge(g, q[k], q[k'])
    {
      if k < |p| - 1 {
        assert Edge(g, p[k], p[k + 1]);
      }
    }
  }

  lemma EdgeReaches<T(!new)>(g: Graph<T>, a: T, b: T)
    requires Edge(g, a, b)
    ensures Reaches(g, a, b)
  {
    assert WalkFromTo(g, [a, b], a, b);
  }

  lemma ReachesTrans<T(!new)>(g: Graph<T>, a: T, b: T, c: T)
    requires Reaches(g, a, b) && Reaches(g, b, c)
    ensures Reaches(g, a, c)
  {
    var p :| WalkFromTo(g, p, a, b);
    var q :| WalkFromTo(g, q, b, c);
    var r := p + q[1..];
    forall k, k' | 0 <= k && k' == k + 1 && k' < |r|
      ensures Edge(g, r[k], r[k'])
    {
      if k < |p| - 1 {
        assert Edge(g, p[k], p[k + 1]);
      } else {
        assert Edge(g, q[k - |p| + 1], q[k - |p| + 2]);
      }
    }
    assert WalkFromTo(g, r, a, c);
  }

  /** Along a walk the position in a dependencies-first list only goes down. */
  lemma {:induction false} WalkDescends<T(!new)>(g: Graph<T>, order: seq<T>, p: seq<T>)
    requires DepsFirst(g, order)
    requires |p| >= 2 && Walk(g, p) && p[0] in order
    ensures p[|p| - 1] in order
    ensures IndexIn(order, p[|p| - 1]) < IndexIn(order, p[0])
    decreases |p|
  {
    var k := IndexIn(order, p[0]);
    assert Edge(g, order[k], p[1]);
    assert p[1] in order[..k];
    var m :| 0 <= m < k && order[m] == p[1];
    assert IndexIn(order, p[1]) == m;
    if |p| > 2 {
      WalkSuffix(g, p, 1);
      WalkDescends(g, order, p[1..]);
    }
  }

  /** A topological order rules every cycle out. */
  lemma TopologicalImpliesAcyclic<T(!new)>(g: Graph<T>, order: seq<T>)
    requires Topological(g, order)
    ensures Acyclic(g)
  {
    forall a
      ensures !Reaches(g, a, a)
    {
      if Reaches(g, a, a) {
        var p :| WalkFromTo(g, p, a, a);
        assert Edge(g, p[0], p[1]);
        WalkDescends(g, order, p);
        assert false;
      }
    }
  }

  /** Following dependencies outside `order` must stop, or it would close a cycle. */
  lemma {:induction false} FindNext<T(!new)>(g: Graph<T>, order: seq<T>, p: seq<T>) returns (x: T)
    requires Closed(g) && Acyclic(g)
    requires |p| >= 1 && Walk(g, p) && NoDuplicates(p)
    requires forall k :: 0 <= k < |p| ==> p[k] in g && p[k] !in order
    ensures x in g && x !in order
    ensures forall d :: Edge(g, x, d) ==> d in order
    decreases g.Keys - (set y | y in p)
  {
    var last := p[|p| - 1];
    if forall d :: Edge(g, last, d) ==> d in order {
      x := last;
    } else {
      var d :| Edge(g, last, d) && d !in order;
      if d in p {
        var k :| 0 <= k < |p| && p[k] == d;
        WalkSuffix(g, p, k);
        WalkSnoc(g, p[k..], d);
        assert WalkFromTo(g, p[k..] + [d], d, d);
        assert Reaches(g, d, d);
      } else {
        var q := p + [d];
        WalkSnoc(g, p, d);
        var rest := g.Keys - (set y | y in q);
        assert rest < g.Keys - (set y | y in p) by {
          assert d in g.Keys - (set y | y in p) && d !in rest by { assert q[|p|] == d; }
          assert forall m :: 0 <= m < |p| ==> q[m] == p[m];
        }
        x := FindNext(g, order, q);
      }
    }
  }

  lemma {:induction false} CompleteOrder<T(!new)>(g: Graph<T>, order: seq<T>) returns (full: seq<T>)
    requires Closed(g) && Acyclic(g) && DepsFirst(g, order)
    ensures Topological(g, full)
    decreases g.Keys - (set y | y in order)
  {
    if forall x :: x in g ==> x in order {
      full := order;
    } else {
      var x0 :| x0 in g && x0 !in order;
      var x := FindNext(g, order, [x0]);
      var longer := order + [x];
      var rest := g.Keys - (set y | y in longer);
      assert DepsFirst(g, longer) by {
        forall k, d | 0 <= k < |longer| && Edge(g, longer[k], d)
          ensures d in longer[..k]
        {
          if k < |order| {
            assert longer[..k] == order[..k];
            assert Edge(g, order[k], d);
          } else {
            assert longer[..k] == order;
          }
        }
      }
      assert rest < g.Keys - (set y | y in order) by {
        assert x in g.Keys - (set y | y in order) && x !in rest by { assert longer[|order|] == x; }
        assert forall m :: 0 <= m < |order| ==> longer[m] == order[m];
      }
      full := CompleteOrder(g, longer);
    }
  }

  /** An acyclic graph without dangling names has a topological order, and only an acyclic one has. */
  lemma AcyclicHasOrder<T(!new)>(g: Graph<T>) returns (order: seq<T>)
    requires Closed(g) && Acyclic(g)
    ensures Topological(g, order)
  {
    order := CompleteOrder(g, []);
  }

  // ------------------------------------------------------ the flow's graph

  /** The adjacency map; a name listed twice keeps its last entry. */
  function Adjacency(steps: seq<Step>): (g: Graph<string>)
    ensures forall x :: x in g <==> exists i :: 0 <= i < |steps| && steps[i].name == x
    ensures forall x :: x in g ==> exists i :: 0 <= i < |steps| && steps[i].name == x && steps[i].dependsOn == g[x]
  {
    if |steps| == 0 then map[]
    else
      var last := steps[|steps| - 1];
      Adjacency(steps[..|steps| - 1])[last.name := last.dependsOn]
  }

  function Names(steps: seq<Step>): set<string> {
    set i | 0 <= i < |steps| :: steps[i].name
  }

  /** With unique names the adjacency map holds exactly each step's own list. */
  lemma AdjacencyAt(steps: seq<Step>, i: nat)
    requires UniqueNames(steps) && i < |steps|
    ensures steps[i].name in Adjacency(steps)
    ensures Adjacency(steps)[steps[i].name] == steps[i].dependsOn
  {
    var g := Adjacency(steps);
    var j :| 0 <= j < |steps| && steps[j].name == steps[i].name && steps[j].dependsOn == g[steps[i].name];
    assert i == j;
  }

  ghost predicate KnownIn(steps: seq<Step>, names: set<string>) {
    forall i, k :: 0 <= i < |steps| && 0 <= k < |steps[i].dependsOn| ==> steps[i].dependsOn[k] in names
  }

  ghost predicate DepsKnown(steps: seq<Step>) {
    KnownIn(steps, Adjacency(steps).Keys)
  }

  lemma KnownIsClosed(steps: seq<Step>)
    requires DepsKnown(steps)
    ensures Closed(Adjacency(steps))
  {
    var g := Adjacency(steps);
    forall a, k | a in g && 0 <= k < |g[a]|
      ensures g[a][k] in g
    {
      var i :| 0 <= i < |steps| && steps[i].name == a && steps[i].dependsOn == g[a];
    }
  }

  /** The flow's graph is one the operator runs: known dependencies, no cycle. */
  ghost predicate ValidGraph(steps: seq<Step>) {
    DepsKnown(steps) && Acyclic(Adjacency(steps))
  }

  // ---------------------------------------------------- the search itself

  datatype Color = White | Gray | Black

  datatype DagError<T> =
    | UnknownDependency(step: T, dep: T)
    | CycleDetected(step: T, dep: T)

  /** The error names an edge whose target leads back to its source. */
  ghost predicate ClosesCycle<T(!new)>(g: Graph<T>, err: DagError<T>) {
    && err.CycleDetected?
    && Edge(g, err.step, err.dep)
    && (err.step == err.dep || Reaches(g, err.dep, err.step))
  }

  /** The names that carry colour c. */
  ghost function Coloured<T(!new)>(color: map<T, Color>, c: Color): set<T> {
    set x | x in color && color[x] == c
  }

  ghost function Elements<T(!new)>(s: seq<T>): set<T> {
    if s == [] then {} else Elements(s[..|s| - 1]) + {s[|s| - 1]}
  }

  lemma Recoloured<T(!new)>(color: map<T, Color>, x: T, c: Color, d: Color)
    ensures Coloured(color[x := c], d) == if d == c then Coloured(color, d) + {x} else Coloured(color, d) - {x}
  {
  }

  /** Finishing numbers: every numbered name has numbered dependencies, all with smaller numbers. */
  ghost predicate Numbered<T(!new)>(g: Graph<T>, number: map<T, nat>) {
    forall x, k :: x in number && x in g && 0 <= k < |g[x]| ==>
                     g[x][k] in number && number[g[x][k]] < number[x]
  }

  lemma {:induction false} ElementsMember<T(!new)>(s: seq<T>, x: T)
    ensures x in Elements(s) <==> x in s
  {
    if s != [] {
      ElementsMember(s[..|s| - 1], x);
      assert s == s[..|s| - 1] + [s[|s| - 1]];
    }
  }

  /** Finishing numbers fall along every walk. */
  lemma {:induction false} NumbersFall<T(!new)>(g: Graph<T>, number: map<T, nat>, p: seq<T>)
    requires Numbered(g, number) && |p| >= 2 && Walk(g, p) && p[0] in number
    ensures p[|p| - 1] in number && number[p[|p| - 1]] < number[p[0]]
    decreases |p|
  {
    assert Edge(g, p[0], p[1]);
    var k :| 0 <= k < |g[p[0]]| && g[p[0]][k] == p[1];
    if |p| > 2 {
      WalkSuffix(g, p, 1);
      NumbersFall(g, number, p[1..]);
    }
  }

  /** A finished search has numbered every step, so no step reaches itself. */
  lemma NumberedIsAcyclic<T(!new)>(g: Graph<T>, number: map<T, nat>)
    requires Numbered(g, number) && g.Keys <= number.Keys
    ensures Acyclic(g)
  {
    forall a
      ensures !Reaches(g, a, a)
    {
      if Reaches(g, a, a) {
        var p :| WalkFromTo(g, p, a, a);
        assert Edge(g, p[0], p[1]);
        NumbersFall(g, number, p);
        assert false;
      }
    }
  }

  /** The search state that the recursive closure captures: colours, plus the ghost grey path and finishing numbers. */
  class Walker<T(==,!new)> {
    const adj: Graph<T>
    var color: map<T, Color>
    ghost var stack: seq<T>
    ghost var number: map<T, nat>
    ghost var clock: nat

    constructor (adj: Graph<T>)
      ensures this.adj == adj && color == map[] && stack == []
      ensures Valid()
    {
      this.adj := adj;
      color := map[];
      stack := [];
      number := map[];
      clock := 0;
    }

    function ColorOf(x: T): Color
      reads this
    {
      if x in color then color[x] else White
    }

    /** Grey steps form the walk from the root of the search; black steps are numbered after their dependencies. */
    ghost predicate Valid()
      reads this
    {
      && color.Keys <= adj.Keys
      && Coloured(color, White) == {}
      && Coloured(color, Gray) == Elements(stack)
      && Coloured(color, Black) == number.Keys
      && Walk(adj, stack)
      && Numbered(adj, number)
      && forall x :: x in number ==> number[x] < clock
    }

    /** Colours a white step grey: the grey path grows by it. */
    method Enter(name: T)
      requires Valid() && name in adj && ColorOf(name) == White
      requires stack == [] || Edge(adj, stack[|stack| - 1], name)
      modifies this
      ensures Valid() && stack == old(stack) + [name]
      ensures color == old(color)[name := Gray] && name !in old(color)
    {
      assert name !in Coloured(color, White);
      WalkSnoc(adj, stack, name);
      ghost var before := color;
      color := color[name := Gray];
      stack := stack + [name];
      assert stack[..|stack| - 1] == old(stack);
      Recoloured(before, name, Gray, White);
      Recoloured(before, name, Gray, Gray);
      Recoloured(before, name, Gray, Black);
    }

    /** Colours the last grey step black once all its dependencies are. */
    method Leave(name: T, ghost seen: set<T>)
      requires Valid() && stack != [] && stack[|stack| - 1] == name && name in adj
      requires name !in Elements(stack[..|stack| - 1])
      requires seen <= Coloured(color, Black)
      requires forall k :: 0 <= k < |adj[name]| ==> adj[name][k] in seen
      modifies this
      ensures Valid() && stack == old(stack[..|stack| - 1])
      ensures color == old(color)[name := Black]
    {
      ghost var before := color;
      assert name in Coloured(before, Gray) && name !in Coloured(before, Black);
      WalkPrefix(adj, stack, |stack| - 1);
      color := color[name := Black];
      stack := stack[..|stack| - 1];
      number := number[name := clock];
      clock := clock + 1;
      Recoloured(before, name, Black, White);
      Recoloured(before, name, Black, Gray);
      Recoloured(before, name, Black, Black);
    }

    /** Looks at one dependency of the step being searched, searching it too if it is white. */
    method Follow(name: T, dep: T) returns (err: Option<DagError<T>>)
      requires Closed(adj) && Valid() && Edge(adj, name, dep)
      requires stack != [] && stack[|stack| - 1] == name
      modifies this
      ensures err.None? ==> Valid() && stack == old(stack) && dep in Coloured(color, Black)
      ensures err.None? ==> old(color.Keys) <= color.Keys
      ensures err.None? ==> old(Coloured(color, Black)) <= Coloured(color, Black)
      ensures err.Some? ==> ClosesCycle(adj, err.value)
      decreases adj.Keys - color.Keys, 1
    {
      if ColorOf(dep) == Gray {
        assert dep in Coloured(color, Gray);
        ElementsMember(stack, dep);
        GrayCloses(adj, stack, dep);
        err := Some(CycleDetected(name, dep));
      } else if ColorOf(dep) == White {
        err := Visit(dep);
      } else {
        assert dep in Coloured(color, Black);
        err := None;
      }
    }

    /** Visits one white step; an error names an edge that closes a real cycle. */
    method Visit(name: T) returns (err: Option<DagError<T>>)
      requires Closed(adj) && Valid()
      requires name in adj && ColorOf(name) == White
      requires stack == [] || Edge(adj, stack[|stack| - 1], name)
      modifies this
      ensures err.None? ==> Valid() && stack == old(stack) && name in Coloured(color, Black)
      ensures err.None? ==> old(color.Keys) <= color.Keys
      ensures err.None? ==> old(Coloured(color, Black)) <= Coloured(color, Black)
      ensures err.Some? ==> ClosesCycle(adj, err.value)
      decreases adj.Keys - color.Keys, 0
    {
      ghost var keys := color.Keys;
      ghost var black := Coloured(color, Black);
      ghost var path := stack;
      Recoloured(color, name, Gray, Black);
      Enter(name);
      var deps := adj[name];
      ghost var seen: set<T> := {};
      var i := 0;
      while i < |deps|
        invariant 0 <= i <= |deps|
        invariant Valid() && stack == path + [name]
        invariant keys + {name} <= color.Keys
        invariant black <= Coloured(color, Black)
        invariant seen <= Coloured(color, Black)
        invariant forall k :: 0 <= k < i ==> deps[k] in seen
      {
        FewerLeft(adj.Keys, keys, name, color.Keys);
        err := Follow(name, deps[i]);
        if err.Some? {
          return;
        }
        seen := seen + {deps[i]};
        i := i + 1;
      }
      assert stack[..|stack| - 1] == path;
      Recoloured(color, name, Black, Black);
      Leave(name, seen);
      err := None;
    }
  }

  lemma FewerLeft<T(!new)>(all: set<T>, keys: set<T>, name: T, now: set<T>)
    requires name in all && name !in keys && keys + {name} <= now
    ensures all - now < all - keys
  {
    assert name in all - keys && name !in all - now;
  }

  /** A grey dependency of the last grey step lies on the grey path, which leads from it back to that step. */
  lemma GrayCloses<T(!new)>(g: Graph<T>, stack: seq<T>, dep: T)
    requires Walk(g, stack) && stack != [] && dep in stack
    ensures stack[|stack| - 1] == dep || Reaches(g, dep, stack[|stack| - 1])
  {
    var k :| 0 <= k < |stack| && stack[k] == dep;
    WalkSuffix(g, stack, k);
    if k < |stack| - 1 {
      assert WalkFromTo(g, stack[k..], dep, stack[|stack| - 1]);
    }
  }

  /** An edge into a step that leads back to where the edge starts is a cycle. */
  lemma EdgeClosesCycle<T(!new)>(g: Graph<T>, a: T, b: T)
    requires Edge(g, a, b) && (a == b || Reaches(g, b, a))
    ensures !Acyclic(g)
  {
    EdgeReaches(g, a, b);
    if a != b {
      ReachesTrans(g, a, b, a);
    }
  }

  /** The first pass of ValidateDAG: every dependency names a known step. */
  method CheckKnown(steps: seq<Step>, stepNames: set<string>) returns (err: Option<DagError<string>>)
    ensures err.None? <==> KnownIn(steps, stepNames)
    ensures err.Some? ==>
              && err.value.UnknownDependency?
              && err.value.dep !in stepNames
              && exists i :: 0 <= i < |steps| && steps[i].name == err.value.step && err.value.dep in steps[i].dependsOn
  {
    for i := 0 to |steps|
      invariant forall m, k :: 0 <= m < i && 0 <= k < |steps[m].dependsOn| ==> steps[m].dependsOn[k] in stepNames
    {
      var deps := steps[i].dependsOn;
      for j := 0 to |deps|
        invariant forall k :: 0 <= k < j ==> deps[k] in stepNames
      {
        if deps[j] !in stepNames {
          assert deps[j] in steps[i].dependsOn;
          return Some(UnknownDependency(steps[i].name, deps[j]));
        }
      }
    }
    err := None;
  }

  /** The second pass: a search from every step that is still white. */
  method CheckAcyclic(steps: seq<Step>, adj: Graph<string>) returns (err: Option<DagError<string>>)
    requires Closed(adj) && adj.Keys == Names(steps)
    ensures err.None? <==> Acyclic(adj)
    ensures err.Some? ==> ClosesCycle(adj, err.value)
  {
    var w := new Walker(adj);
    for i := 0 to |steps|
      invariant w.Valid() && w.stack == [] && w.adj == adj
      invariant forall k :: 0 <= k < i ==> steps[k].name in Coloured(w.color, Black)
    {
      if w.ColorOf(steps[i].name) == White {
        err := w.Visit(steps[i].name);
        if err.Some? {
          EdgeClosesCycle(adj, err.value.step, err.value.dep);
          return;
        }
      }
      assert steps[i].name !in Coloured(w.color, Gray);
    }
    assert adj.Keys <= w.number.Keys;
    NumberedIsAcyclic(adj, w.number);
    err := None;
  }

  /** The names of the steps, and the graph of their dependencies. */
  method BuildGraph(steps: seq<Step>) returns (stepNames: set<string>, adj: Graph<string>)
    ensures adj == Adjacency(steps) && stepNames == adj.Keys
  {
    stepNames, adj := {}, map[];
    for i := 0 to |steps|
      invariant adj == Adjacency(steps[..i]) && stepNames == adj.Keys
    {
      assert steps[..i + 1][..i] == steps[..i];
      stepNames := stepNames + {steps[i].name};
      adj := adj[steps[i].name := steps[i].dependsOn];
    }
    assert steps[..|steps|] == steps;
  }

  /** Accepts exactly the flows whose dependencies are known and acyclic, and any error it returns is real. */
  method ValidateDAG(spec: FlowSpec) returns (err: Option<DagError<string>>)
    ensures err.None? <==> ValidGraph(spec.steps)
    ensures err.Some? && err.value.UnknownDependency? ==>
              && err.value.dep !in Adjacency(spec.steps)
              && exists i :: 0 <= i < |spec.steps| && spec.steps[i].name == err.value.step
                  && err.value.dep in spec.steps[i].dependsOn
    ensures err.Some? && err.value.CycleDetected? ==>
              DepsKnown(spec.steps) && ClosesCycle(Adjacency(spec.steps), err.value)
  {
    var stepNames, adj := BuildGraph(spec.steps);
    err := CheckKnown(spec.steps, stepNames);
    if err.None? {
      KnownIsClosed(spec.steps);
      err := CheckAcyclic(spec.steps, adj);
    }
  }

  // -------------------------------------------------- ranks for the engine

  /** Each step's rank is above the rank of every step it depends on. */
  ghost predicate Ranked(spec: FlowSpec, rank: seq<nat>) {
    && |rank| == |spec.steps|
    && forall i, j :: 0 <= i < |rank| && 0 <= j < |rank| && DependsOn(spec, i, j) ==> rank[j] < rank[i]
  }

  /** A flow accepted by ValidateDAG can be ranked. */
  lemma RankExists(spec: FlowSpec) returns (rank: seq<nat>)
    requires UniqueNames(spec.steps) && ValidGraph(spec.steps)
    ensures Ranked(spec, rank)
  {
    var g := Adjacency(spec.steps);
    KnownIsClosed(spec.steps);
    var order := AcyclicHasOrder(g);
    rank := seq(|spec.steps|, i requires 0 <= i < |spec.steps| => IndexIn(order, spec.steps[i].name));
    forall i, j | 0 <= i < |rank| && 0 <= j < |rank| && DependsOn(spec, i, j)
      ensures rank[j] < rank[i]
    {
      AdjacencyAt(spec.steps, i);
      var a, b := spec.steps[i].name, spec.steps[j].name;
      assert Edge(g, a, b);
      assert Walk(g, [a, b]);
      WalkDescends(g, order, [a, b]);
    }
  }

  /** Ranks fall along every walk, so a transitive dependency always ranks lower. */
  lemma {:induction false} RankFalls(spec: FlowSpec, rank: seq<nat>, p: seq<string>, i: nat, j: nat)
    requires UniqueNames(spec.steps) && DepsKnown(spec.steps) && Ranked(spec, rank)
    requires i < |rank| && j < |rank|
    requires WalkFromTo(Adjacency(spec.steps), p, spec.steps[i].name, spec.steps[j].name)
    ensures rank[j] < rank[i]
    decreases |p|
  {
    var g := Adjacency(spec.steps);
    assert Edge(g, p[0], p[1]);
    AdjacencyAt(spec.steps, i);
    KnownIsClosed(spec.steps);
    var k :| 0 <= k < |spec.steps| && spec.steps[k].name == p[1];
    assert DependsOn(spec, i, k);
    if |p| == 2 {
      assert k == j;
    } else {
      WalkSuffix(g, p, 1);
      RankFalls(spec, rank, p[1..], k, j);
    }
  }
}

/** The topological ordering of packages and the reduction to a circular
    dependency: ros2_ws/install/_local_setup_util_sh.py. */
module Packages {

  type Name = string

  /** A mapping from package name to the set of its run-time dependencies. */
  type Graph = map<Name, set<Name>>

  /** Every dependency is itself a package, as the caller arranges. */
  ghost predicate Closed(g: Graph) { forall n :: n in g ==> g[n] <= g.Keys }

  // ----- Alphabetical order -----

  predicate Le(a: Name, b: Name) {
    a == [] || (b != [] && (a[0] < b[0] || (a[0] == b[0] && Le(a[1..], b[1..]))))
  }

  lemma {:induction false} LeTotal(a: Name, b: Name)
    ensures Le(a, b) || Le(b, a)
  {
    if a != [] && b != [] { LeTotal(a[1..], b[1..]); }
  }

  lemma {:induction false} LeTransitive(a: Name, b: Name, c: Name)
    requires Le(a, b) && Le(b, c)
    ensures Le(a, c)
  {
    if a != [] && a[0] == b[0] == c[0] { LeTransitive(a[1..], b[1..], c[1..]); }
  }

  lemma {:induction false} LeAntisymmetric(a: Name, b: Name)
    requires Le(a, b) && Le(b, a)
    ensures a == b
  {
    if a != [] {
      LeAntisymmetric(a[1..], b[1..]);
      assert a == [a[0]] + a[1..] && b == [b[0]] + b[1..];
    }
  }

  // ----- Topological orders -----

  function Elements(s: seq<Name>): set<Name> { set n | n in s }

  ghost predicate Distinct(s: seq<Name>) { forall i, j :: 0 <= i < j < |s| ==> s[i] != s[j] }

  /** Each name is a package all of whose dependencies stand before it. */
  ghost predicate DependenciesFirst(g: Graph, s: seq<Name>) {
    forall i :: 0 <= i < |s| ==> s[i] in g && g[s[i]] <= Elements(s[..i])
  }

  ghost predicate TopologicalOrder(g: Graph, s: seq<Name>) {
    Distinct(s) && Elements(s) == g.Keys && DependenciesFirst(g, s)
  }

  /** Name by name, the first difference is alphabetical. */
  ghost predicate Precedes(s: seq<Name>, t: seq<Name>) {
    exists i :: 0 <= i < |s| && i < |t| && s[..i] == t[..i] && s[i] != t[i] && Le(s[i], t[i])
  }

  /** The topological order that comes before all others. */
  ghost predicate LeastOrder(g: Graph, s: seq<Name>) {
    TopologicalOrder(g, s) && forall t :: TopologicalOrder(g, t) ==> t == s || Precedes(s, t)
  }

  /** n can come next, once the names in done stand before it. */
  predicate Ready(g: Graph, done: set<Name>, n: Name) { n in g && n !in done && g[n] <= done }

  ghost predicate LeastReady(g: Graph, done: set<Name>, n: Name) {
    Ready(g, done, n) && forall m :: Ready(g, done, m) ==> Le(n, m)
  }

  ghost predicate Greedy(g: Graph, s: seq<Name>) {
    forall i :: 0 <= i < |s| ==> LeastReady(g, Elements(s[..i]), s[i])
  }

  lemma GreedyExtend(g: Graph, s: seq<Name>, n: Name)
    requires Greedy(g, s) && LeastReady(g, Elements(s), n)
    ensures Greedy(g, s + [n]) && Elements(s + [n]) == Elements(s) + {n}
  {
    forall i | 0 <= i <= |s| ensures LeastReady(g, Elements((s + [n])[..i]), (s + [n])[i]) {
      assert (s + [n])[..i] == s[..i];
      assert s[..|s|] == s;
    }
  }

  lemma GreedyIsOrder(g: Graph, s: seq<Name>)
    requires Greedy(g, s)
    ensures Distinct(s) && DependenciesFirst(g, s)
  {
    forall i, j | 0 <= i < j < |s| ensures s[i] != s[j] {
      assert s[i] in s[..j];
    }
  }

  /** Where two sequences of the same names first differ. */
  lemma {:induction false} FirstDifference(s: seq<Name>, t: seq<Name>) returns (i: nat)
    requires s != t && Distinct(s) && Distinct(t) && Elements(s) == Elements(t)
    ensures i < |s| && i < |t| && s[..i] == t[..i] && s[i] != t[i]
  {
    DistinctFits(s, Elements(t));
    DistinctFits(t, Elements(s));
    ElementsCount(s);
    ElementsCount(t);
    assert s[..|s|] == s && t[..|t|] == t;
    i := 0;
    while i < |s| && i < |t| && s[i] == t[i]
      invariant i <= |s| && i <= |t| && s[..i] == t[..i]
    {
      i := i + 1;
    }
  }

  lemma {:induction false} ElementsCount(s: seq<Name>)
    ensures |Elements(s)| <= |s|
  {
    if s != [] {
      var n := |s| - 1;
      assert s == s[..n] + [s[n]];
      assert Elements(s) == Elements(s[..n]) + {s[n]};
      ElementsCount(s[..n]);
    }
  }

  /** Choosing the least ready name each time gives the least order of all. */
  lemma GreedyIsLeast(g: Graph, s: seq<Name>)
    requires Greedy(g, s) && Elements(s) == g.Keys
    ensures LeastOrder(g, s)
  {
    GreedyIsOrder(g, s);
    forall t | TopologicalOrder(g, t) && t != s ensures Precedes(s, t) {
      var i := FirstDifference(s, t);
      assert t[i] !in t[..i];
      assert LeastReady(g, Elements(s[..i]), s[i]) && Ready(g, Elements(s[..i]), t[i]);
    }
  }

  // ----- When there is no order -----

  /** No package outside done is ready. */
  ghost predicate Stuck(g: Graph, done: set<Name>) { forall n :: !Ready(g, done, n) }

  lemma {:induction false} StuckHasNoOrder(g: Graph, done: set<Name>, t: seq<Name>)
    requires Stuck(g, done) && done < g.Keys
    ensures !TopologicalOrder(g, t)
  {
    if TopologicalOrder(g, t) {
      var i := 0;
      while i < |t|
        invariant i <= |t| && Elements(t[..i]) <= done
      {
        assert !Ready(g, done, t[i]) && g[t[i]] <= Elements(t[..i]);
        assert t[..i + 1] == t[..i] + [t[i]];
        i := i + 1;
      }
    }
  }

  /** Each package of a cycle depends on the next, the last on the first. */
  ghost predicate Cycle(g: Graph, c: seq<Name>) {
    && c != [] && Path(g, c) && c[0] in g[c[|c| - 1]]
  }

  ghost predicate Path(g: Graph, c: seq<Name>) {
    && (forall i :: 0 <= i < |c| ==> c[i] in g)
    && (forall i :: 0 <= i < |c| - 1 ==> c[i + 1] in g[c[i]])
  }

  ghost predicate HasCycle(g: Graph) { exists c :: Cycle(g, c) }

  /** In a set every member of which depends on another, a walk must return. */
  lemma {:induction false} WalkCloses(g: Graph, u: set<Name>, c: seq<Name>)
    requires u <= g.Keys && forall n :: n in u ==> g[n] * u != {}
    requires c != [] && Path(g, c) && Distinct(c) && Elements(c) <= u
    ensures HasCycle(g)
    decreases |u| - |c|
  {
    DistinctFits(c, u);
    var last := c[|c| - 1];
    assert last in Elements(c);
    var n :| n in g[last] * u;
    if n in c {
      var k :| 0 <= k < |c| && c[k] == n;
      assert Cycle(g, c[k..]);
    } else {
      assert Elements(c + [n]) == Elements(c) + {n};
      DistinctFits(c + [n], u);
      WalkCloses(g, u, c + [n]);
    }
  }

  lemma {:induction false} DistinctFits(c: seq<Name>, u: set<Name>)
    requires Distinct(c) && Elements(c) <= u
    ensures |c| <= |u|
  {
    if c != [] {
      var n := |c| - 1;
      assert c[n] in Elements(c);
      assert Elements(c[..n]) <= u - {c[n]};
      DistinctFits(c[..n], u - {c[n]});
    }
  }

  lemma StuckHasCycle(g: Graph, done: set<Name>)
    requires Closed(g) && Stuck(g, done) && done < g.Keys
    ensures HasCycle(g)
  {
    var u := g.Keys - done;
    forall n | n in u ensures g[n] * u != {} {
      assert !Ready(g, done, n);
      var m :| m in g[n] && m !in done;
      assert m in g[n] * u;
    }
    var n :| n in u;
    assert Elements([n]) <= u;
    WalkCloses(g, u, [n]);
  }

  /** Along a path the positions in an order fall. */
  lemma {:induction false} PositionsFall(g: Graph, t: seq<Name>, c: seq<Name>, p: nat) returns (q: nat)
    requires DependenciesFirst(g, t) && c != [] && Path(g, c)
    requires p < |t| && t[p] == c[0]
    ensures q <= p && t[q] == c[|c| - 1]
    decreases |c|
  {
    if |c| == 1 {
      q := p;
    } else {
      assert c[1] in g[c[0]];
      q := PositionBefore(g, t, p, c[1]);
      var d := c[1..];
      assert forall i :: 0 <= i < |d| - 1 ==> d[i + 1] in g[d[i]] by {
        forall i | 0 <= i < |d| - 1 ensures d[i + 1] in g[d[i]] { assert c[i + 1 + 1] in g[c[i + 1]]; }
      }
      q := PositionsFall(g, t, c[1..], q);
    }
  }

  lemma PositionBefore(g: Graph, t: seq<Name>, p: nat, n: Name) returns (q: nat)
    requires DependenciesFirst(g, t) && p < |t| && n in g[t[p]]
    ensures q < p && t[q] == n
  {
    assert n in Elements(t[..p]);
    q :| 0 <= q < p && t[..p][q] == n;
  }

  lemma CycleHasNoOrder(g: Graph, c: seq<Name>, t: seq<Name>)
    requires Cycle(g, c)
    ensures !TopologicalOrder(g, t)
  {
    if TopologicalOrder(g, t) {
      assert c[0] in Elements(t);
      var p :| 0 <= p < |t| && t[p] == c[0];
      var q := PositionsFall(g, t, c, p);
    }
  }

  // ----- The circular part -----

  function Without(g: Graph, done: set<Name>): Graph { map n | n in g :: g[n] - done }

  /** All that some package of g depends on. */
  function Depended(g: Graph): set<Name> { set n, d | n in g && d in g[n] :: d }

  function Restrict(g: Graph, s: set<Name>): Graph { map n | n in g && n in s :: g[n] }

  /** Some member of s depends on n. */
  ghost predicate Supported(g: Graph, s: set<Name>, n: Name) { exists m :: m in s && m in g && n in g[m] }

  /** Every member is depended on from within the set. */
  ghost predicate SelfSupporting(g: Graph, s: set<Name>) {
    s <= g.Keys && forall n {:trigger Supported(g, s, n)} :: n in s ==> Supported(g, s, n)
  }

  ghost predicate GreatestSelfSupporting(g: Graph, s: set<Name>) {
    SelfSupporting(g, s) && forall t :: SelfSupporting(g, t) ==> t <= s
  }

  /** Removing packages nothing depends on loses no self-supporting set. */
  lemma ReduceKeepsSupport(g: Graph, k: set<Name>, t: set<Name>)
    requires SelfSupporting(g, t) && t <= k
    ensures t <= Depended(Restrict(g, k))
  {
    forall n | n in t ensures n in Depended(Restrict(g, k)) {
      assert Supported(g, t, n);
      var m :| m in t && n in g[m];
      assert m in Restrict(g, k);
    }
  }

  lemma DependedShrinks(g: Graph, k: set<Name>, l: set<Name>)
    requires k <= l
    ensures Depended(Restrict(g, k)) <= Depended(Restrict(g, l))
  {
    forall d | d in Depended(Restrict(g, k)) ensures d in Depended(Restrict(g, l)) {
      var n :| n in Restrict(g, k) && d in g[n];
      assert n in Restrict(g, l);
    }
  }

  lemma FixpointIsGreatest(g: Graph, k: set<Name>)
    requires k <= g.Keys && k <= Depended(Restrict(g, k))
    requires forall t :: SelfSupporting(g, t) ==> t <= k
    ensures GreatestSelfSupporting(g, k)
  {
    forall n | n in k ensures Supported(g, k, n) {
      var m :| m in Restrict(g, k) && n in g[m];
    }
  }

  ghost predicate Knotted(g: Graph, s: set<Name>, n: Name) {
    n in g && g[n] * s != {} && Supported(g, s, n)
  }

  /** Every member depends on a member and is depended on by a member. */
  ghost predicate Entangled(g: Graph, s: set<Name>) {
    && s <= g.Keys
    && forall n {:trigger Knotted(g, s, n)} :: n in s ==> Knotted(g, s, n)
  }

  ghost predicate GreatestEntangled(g: Graph, s: set<Name>) {
    Entangled(g, s) && forall t :: Entangled(g, t) ==> t <= s
  }

  /** No entangled package is ever ready. */
  lemma {:induction false} EntangledNeverOrdered(g: Graph, t: set<Name>, s: seq<Name>)
    requires Entangled(g, t) && DependenciesFirst(g, s)
    ensures Elements(s) !! t
  {
    var i := 0;
    while i < |s|
      invariant i <= |s| && Elements(s[..i]) !! t
    {
      assert g[s[i]] <= Elements(s[..i]);
      assert s[i] in t ==> Knotted(g, t, s[i]);
      assert s[..i + 1] == s[..i] + [s[i]];
      i := i + 1;
    }
    assert s[..i] == s;
  }

  /** When the greedy order s is stuck, the greatest self-supporting set of what is
      left is the greatest entangled set of the whole closed graph; it is not empty. */
  lemma LeftoverIsEntangled(g: Graph, s: seq<Name>, c: set<Name>)
    requires Closed(g) && Greedy(g, s) && Stuck(g, Elements(s)) && Elements(s) < g.Keys
    requires GreatestSelfSupporting(Without(g, Elements(s)), c)
    ensures GreatestEntangled(g, c) && c != {}
  {
    var done := Elements(s);
    var left := Without(g, done);
    GreedyIsOrder(g, s);
    LeftoverDepends(g, done, c);
    forall t | Entangled(g, t) ensures t <= c {
      EntangledNeverOrdered(g, t, s);
      forall n | n in t ensures Supported(left, t, n) {
        assert Knotted(g, t, n);
        var m :| m in t && n in g[m];
        assert n in left[m];
      }
      assert SelfSupporting(left, t);
    }
    StuckHasCycle(g, done);
    var cycle :| Cycle(g, cycle);
    CycleIsEntangled(g, cycle);
    assert cycle[0] in Elements(cycle);
  }

  lemma LeftoverDepends(g: Graph, done: set<Name>, c: set<Name>)
    requires Closed(g) && Stuck(g, done)
    requires GreatestSelfSupporting(Without(g, done), c)
    ensures Entangled(g, c)
  {
    var left := Without(g, done);
    forall n | n in c ensures Knotted(g, c, n) {
      assert Supported(left, c, n);
      var m :| m in c && n in left[m];
      assert n in g[m];
      assert !Ready(g, done, n);
      var d :| d in g[n] && d !in done;
      assert d in left[n];
      StillSupported(left, c, n, d);
      assert d in g[n] * c;
    }
  }

  lemma StillSupported(g: Graph, c: set<Name>, n: Name, d: Name)
    requires SelfSupporting(g, c) && n in c && d in g && d in g[n]
    ensures SelfSupporting(g, c + {d})
  {
    forall k | k in c + {d} ensures Supported(g, c + {d}, k) {
      if k == d {
        assert n in c + {d};
      } else {
        assert Supported(g, c, k);
        var e :| e in c && k in g[e];
        assert e in c + {d};
      }
    }
  }

  lemma CycleIsEntangled(g: Graph, c: seq<Name>)
    requires Cycle(g, c)
    ensures Entangled(g, Elements(c))
  {
    var s := Elements(c);
    forall n | n in s ensures Knotted(g, s, n) {
      var i :| 0 <= i < |c| && c[i] == n;
      var after := if i + 1 < |c| then c[i + 1] else c[0];
      assert after in g[n] * s;
      var before := if i == 0 then c[|c| - 1] else c[i - 1];
      assert i > 0 ==> c[i - 1 + 1] in g[c[i - 1]];
      assert before in s && n in g[before];
    }
  }

  // ----- The algorithms -----

  /** Some listing of a set of names, as the keys of a dictionary are listed. */
  method Listed(s: set<Name>) returns (q: seq<Name>)
    ensures Distinct(q) && Elements(q) == s
  {
    q := [];
    var rest := s;
    while rest != {}
      invariant Distinct(q) && Elements(q) !! rest && Elements(q) + rest == s
      decreases |rest|
    {
      var n :| n in rest;
      assert n !in Elements(q);
      q := q + [n];
      rest := rest - {n};
    }
  }

  /** What sorting puts first. */
  method FirstSorted(q: seq<Name>) returns (m: Name)
    requires q != []
    ensures m in q && forall n :: n in q ==> Le(m, n)
  {
    m := q[0];
    LeTotal(m, m);
    var i := 1;
    while i < |q|
      invariant 1 <= i <= |q| && m in q && forall k :: 0 <= k < i ==> Le(m, q[k])
    {
      LeTotal(m, q[i]);
      if !Le(m, q[i]) {
        forall k | 0 <= k < i ensures Le(q[i], q[k]) { LeTransitive(q[i], m, q[k]); }
        m := q[i];
        LeTotal(m, m);
      }
      i := i + 1;
    }
  }

  datatype Outcome = Ordered(names: seq<Name>) | CircularDependency(between: set<Name>)

  class Workspace {
    var packages: Graph

    constructor (g: Graph)
      ensures packages == g
    {
      packages := g;
    }

    method WithoutDeps(toBeOrdered: seq<Name>) returns (q: seq<Name>)
      requires Elements(toBeOrdered) <= packages.Keys
      ensures Elements(q) == set n | n in toBeOrdered && packages[n] == {}
    {
      q := [];
      var i := 0;
      assert forall k :: 0 <= k < |toBeOrdered| ==> toBeOrdered[k] in Elements(toBeOrdered);
      while i < |toBeOrdered|
        invariant i <= |toBeOrdered|
        invariant forall n :: n in q <==> n in toBeOrdered[..i] && packages[n] == {}
      {
        if packages[toBeOrdered[i]] == {} { q := q + [toBeOrdered[i]]; }
        i := i + 1;
      }
      assert toBeOrdered[..i] == toBeOrdered;
    }

    /** Removes one name from every dependency set. */
    method RemoveDependency(name: Name)
      modifies this
      ensures packages == Without(old(packages), {name})
    {
      var q := Listed(packages.Keys);
      var i := 0;
      assert forall k :: 0 <= k < |q| ==> q[k] in Elements(q);
      while i < |q|
        invariant i <= |q| && packages.Keys == old(packages).Keys
        invariant forall n :: n in packages ==> packages[n] == if n in q[..i] then old(packages)[n] - {name} else old(packages)[n]
      {
        if name in packages[q[i]] {
          packages := packages[q[i] := packages[q[i]] - {name}];
        }
        i := i + 1;
      }
      assert forall n :: n in packages ==> n in Elements(q);
    }

    method AllDepended() returns (depended: set<Name>)
      ensures depended == Depended(packages)
    {
      depended := {};
      var q := Listed(packages.Keys);
      assert forall k :: 0 <= k < |q| ==> q[k] in Elements(q);
      var i := 0;
      while i < |q|
        invariant i <= |q|
        invariant forall d :: d in depended <==> exists k :: 0 <= k < i && d in packages[q[k]]
      {
        depended := depended + packages[q[i]];
        i := i + 1;
      }
      forall d | d in Depended(packages) ensures d in depended {
        var n :| n in packages && d in packages[n];
        assert n in Elements(q);
      }
    }

    method DeleteUndepended(depended: set<Name>)
      modifies this
      ensures packages == Restrict(old(packages), depended)
    {
      var q := Listed(packages.Keys);
      var i := 0;
      while i < |q|
        invariant i <= |q|
        invariant forall n :: n in packages <==> n in old(packages) && (n in q[..i] ==> n in depended)
        invariant forall n :: n in packages ==> packages[n] == old(packages)[n]
      {
        if q[i] !in depended { packages := packages - {q[i]}; }
        i := i + 1;
      }
      assert forall n :: n in old(packages) ==> n in Elements(q);
    }

    /** Terminates on every graph, and leaves the greatest self-supporting set. */
    method ReduceCycleSet()
      modifies this
      ensures GreatestSelfSupporting(old(packages), packages.Keys)
      ensures packages == Restrict(old(packages), packages.Keys)
    {
      ghost var g := packages;
      assert packages == Restrict(g, packages.Keys);
      var first, lastDepended := true, {};
      ghost var before := packages.Keys;
      while |packages| > 0
        invariant packages == Restrict(g, packages.Keys)
        invariant forall t :: SelfSupporting(g, t) ==> t <= packages.Keys
        invariant !first ==> packages.Keys <= before <= g.Keys && packages.Keys == before * lastDepended
        invariant !first ==> lastDepended == Depended(Restrict(g, before))
        decreases first, |lastDepended|
      {
        ghost var k := packages.Keys;
        var depended := AllDepended();
        forall t | SelfSupporting(g, t) ensures t <= depended { ReduceKeepsSupport(g, k, t); }
        DeleteUndepended(depended);
        assert packages == Restrict(g, packages.Keys) && packages.Keys == k * depended;
        if !first && lastDepended != {} {
          if lastDepended == depended {
            assert packages.Keys == k;
            FixpointIsGreatest(g, k);
            return;
          }
        }
        if !first {
          DependedShrinks(g, k, before);
          Smaller(depended, lastDepended);
        }
        first, lastDepended := false, depended;
        before := k;
      }
      FixpointIsGreatest(g, packages.Keys);
    }

    method OrderPackages() returns (r: Outcome)
      modifies this
      ensures r.Ordered? ==> LeastOrder(old(packages), r.names) && packages == map n | n in old(packages) :: {}
      ensures r.CircularDependency? ==> forall t :: !TopologicalOrder(old(packages), t)
      ensures Closed(old(packages)) ==> (r.CircularDependency? <==> HasCycle(old(packages)))
      ensures Closed(old(packages)) && r.CircularDependency? ==>
        GreatestEntangled(old(packages), r.between) && r.between != {}
      ensures r.CircularDependency? ==> packages.Keys == r.between
    {
      ghost var g := packages;
      var toBeOrdered := Listed(packages.Keys);
      var ordered: seq<Name> := [];
      WithoutNothing(g);
      while toBeOrdered != []
        invariant packages == Without(g, Elements(ordered)) && Greedy(g, ordered)
        invariant Distinct(toBeOrdered) && Elements(toBeOrdered) == g.Keys - Elements(ordered)
        invariant Elements(ordered) <= g.Keys
        decreases |toBeOrdered|
      {
        var free := WithoutDeps(toBeOrdered);
        FreeIsReady(g, Elements(ordered), toBeOrdered, free);
        if free == [] {
          assert toBeOrdered[0] in Elements(toBeOrdered);
          ReduceCycleSet();
          r := CircularDependency(packages.Keys);
          StuckOutcome(g, ordered, r.between);
          return;
        }
        var name := FirstSorted(free);
        assert name in Elements(free);
        assert LeastReady(g, Elements(ordered), name);
        GreedyExtend(g, ordered, name);
        toBeOrdered := Remove(toBeOrdered, name);
        ghost var done := ordered;
        ordered := ordered + [name];
        RemoveDependency(name);
        WithoutTwice(g, Elements(done), name);
      }
      r := Ordered(ordered);
      assert Elements(ordered) == g.Keys by { assert Elements(toBeOrdered) == {}; }
      DoneOutcome(g, ordered);
    }
  }

  lemma Smaller(a: set<Name>, b: set<Name>)
    requires a <= b && (a != b || b == {})
    ensures a == {} || |a| < |b|
  {
    if a != {} {
      var n :| n in b && n !in a;
      Cardinality(a, b - {n});
    }
  }

  lemma {:induction false} Cardinality(a: set<Name>, b: set<Name>)
    requires a <= b
    ensures |a| <= |b|
  {
    if a != {} {
      var n :| n in a;
      Cardinality(a - {n}, b - {n});
    }
  }

  lemma WithoutNothing(g: Graph)
    ensures Without(g, Elements([])) == g
  {
    forall n | n in g ensures g[n] - Elements([]) == g[n] { }
  }

  lemma WithoutTwice(g: Graph, done: set<Name>, n: Name)
    ensures Without(Without(g, done), {n}) == Without(g, done + {n})
  {
    forall k | k in g ensures g[k] - done - {n} == g[k] - (done + {n}) { }
  }

  lemma FreeIsReady(g: Graph, done: set<Name>, left: seq<Name>, free: seq<Name>)
    requires Elements(left) == g.Keys - done
    requires Elements(free) == set n | n in left && n in g && Without(g, done)[n] == {}
    ensures forall n :: n in free <==> Ready(g, done, n)
  {
    forall n ensures n in free <==> Ready(g, done, n) {
      assert n in free <==> n in Elements(free);
      assert n in left <==> n in Elements(left);
      if n in left && g[n] - done == {} {
        forall d | d in g[n] ensures d in done { assert d !in g[n] - done; }
      }
    }
  }

  lemma StuckOutcome(g: Graph, ordered: seq<Name>, c: set<Name>)
    requires Greedy(g, ordered) && Stuck(g, Elements(ordered)) && Elements(ordered) < g.Keys
    requires GreatestSelfSupporting(Without(g, Elements(ordered)), c)
    ensures forall t :: !TopologicalOrder(g, t)
    ensures Closed(g) ==> HasCycle(g) && GreatestEntangled(g, c) && c != {}
  {
    forall t ensures !TopologicalOrder(g, t) { StuckHasNoOrder(g, Elements(ordered), t); }
    if Closed(g) {
      LeftoverIsEntangled(g, ordered, c);
      StuckHasCycle(g, Elements(ordered));
    }
  }

  lemma DoneOutcome(g: Graph, ordered: seq<Name>)
    requires Greedy(g, ordered) && Elements(ordered) == g.Keys
    ensures LeastOrder(g, ordered) && !HasCycle(g)
    ensures Without(g, Elements(ordered)) == map n | n in g :: {}
  {
    GreedyIsLeast(g, ordered);
    if HasCycle(g) {
      var c :| Cycle(g, c);
      CycleHasNoOrder(g, c, ordered);
    }
    forall n | n in g ensures g[n] - Elements(ordered) == {} {
      assert n in Elements(ordered);
      var i :| 0 <= i < |ordered| && ordered[i] == n;
      assert Elements(ordered[..i]) <= Elements(ordered);
    }
  }

  /** Removes the first occurrence. */
  method Remove(q: seq<Name>, name: Name) returns (r: seq<Name>)
    requires name in q && Distinct(q)
    ensures Distinct(r) && Elements(r) == Elements(q) - {name} && |r| == |q| - 1
  {
    var i := 0;
    while q[i] != name
      invariant i < |q| && name !in q[..i]
      decreases |q| - i
    {
      i := i + 1;
    }
    r := q[..i] + q[i + 1..];
    forall n ensures n in r <==> n in q && n != name {
      if n in q && n != name {
        var k :| 0 <= k < |q| && q[k] == n;
        if k < i { assert r[k] == n; } else { assert r[k - 1] == n; }
      }
    }
  }
}

/** Flattening a definition: its text followed by one section for everything it
    depends on, over a dependency graph that may have cycles. */
module Flatten {
  import opened Wrappers
  import opened Sequences
  import opened DefinitionNames
  import opened Definitions
  import opened TextSplit

  // ------------------------------------------------------- dependency graph

  function DepsOf(env: Env, id: Id): seq<string> {
    match Fresh(env, id) case Found(spec) => spec.deps case _ => []
  }

  predicate Edge(env: Env, a: Id, b: Id) { b.format == a.format && b.name in DepsOf(env, a) }

  predicate IsPath(env: Env, p: seq<Id>) { forall i | 0 <= i < |p| - 1 :: Edge(env, p[i], p[i + 1]) }

  ghost predicate PathFromTo(env: Env, p: seq<Id>, a: Id, b: Id) {
    |p| >= 2 && p[0] == a && p[|p| - 1] == b && IsPath(env, p)
  }

  /** `b` is reached from `a` by one or more dependency edges. */
  ghost predicate Reaches(env: Env, a: Id, b: Id) { exists p :: PathFromTo(env, p, a, b) }

  lemma {:induction false} ReachesEdge(env: Env, a: Id, b: Id)
    requires Edge(env, a, b)
    ensures Reaches(env, a, b)
  {
    assert PathFromTo(env, [a, b], a, b);
  }

  lemma {:induction false} ReachesBefore(env: Env, a: Id, b: Id, c: Id)
    requires Edge(env, a, b) && Reaches(env, b, c)
    ensures Reaches(env, a, c)
  {
    var p :| PathFromTo(env, p, b, c);
    var q := [a] + p;
    forall i | 0 <= i < |q| - 1 ensures Edge(env, q[i], q[i + 1]) {
      if i > 0 { assert q[i] == p[i - 1] && q[i + 1] == p[i]; }
    }
    assert PathFromTo(env, q, a, c);
  }

  /** A set that holds the dependencies of `a` and of all its own members holds
      everything `a` reaches. */
  lemma {:induction false} ReachesWithin(env: Env, s: set<Id>, p: seq<Id>, a: Id, b: Id)
    requires PathFromTo(env, p, a, b)
    requires forall x | Edge(env, a, x) :: x in s
    requires forall x, y | x in s && Edge(env, x, y) :: y in s
    ensures b in s
    decreases |p|
  {
    assert Edge(env, p[0], p[1]);
    if |p| > 2 {
      var q := p[1..];
      forall i | 0 <= i < |q| - 1 ensures Edge(env, q[i], q[i + 1]) { assert Edge(env, p[i + 1], p[i + 2]); }
      ReachesWithin(env, s, q, p[1], b);
    }
  }

  /** A finite set of ids that is closed under dependencies: the graph is finite. */
  ghost predicate Closed(env: Env, universe: set<Id>) {
    forall a, b | a in universe && Edge(env, a, b) :: b in universe
  }

  /** With finitely many definitions installed there is such a set around any roots. */
  lemma {:induction false} FiniteEnvironment(env: Env, loadable: set<Id>, roots: set<Id>) returns (universe: set<Id>)
    requires forall id :: Fresh(env, id).Found? ==> id in loadable
    ensures roots <= universe && Closed(env, universe)
  {
    var sources := loadable + roots;
    var targets := set x, d | x in sources && d in DepsOf(env, x) :: Id(x.format, d);
    universe := sources + targets;
    forall x, y | x in universe && Edge(env, x, y) ensures y in universe {
      assert Fresh(env, x).Found?;
      assert x in sources && y.name in DepsOf(env, x) && y == Id(x.format, y.name);
    }
  }

  // -------------------------------------------------------------- the visit

  /** The order of the sections, or the exception; `seen` is what `seen_deps` holds when
      the visit ends, one way or the other. */
  datatype Visited = Done(order: seq<Id>, seen: set<Id>) | Failed(err: Loaded, seen: set<Id>)

  lemma {:induction false} Smaller(universe: set<Id>, seen: set<Id>, more: set<Id>, x: Id)
    requires x in universe && x !in seen && seen + {x} <= more
    ensures |universe - more| < |universe - seen|
  {
    var rest := (universe - seen) - {x};
    assert universe - more <= rest;
    CardinalityMonotone(universe - more, rest);
  }

  lemma {:induction false} CardinalityMonotone(a: set<Id>, b: set<Id>)
    requires a <= b
    ensures |a| <= |b|
  {
    assert b == a + (b - a);
  }

  function Visit(env: Env, id: Id, seen: set<Id>, ghost universe: set<Id>): (r: Visited)
    requires id in universe && Closed(env, universe)
    ensures seen <= r.seen
    decreases |universe - seen|, 2, 0
  {
    match Fresh(env, id)
    case Found(spec) => VisitDeps(env, id, spec.deps, seen, universe)
    case err => Failed(err, seen)
  }

  function VisitDeps(env: Env, id: Id, deps: seq<string>, seen: set<Id>, ghost universe: set<Id>): (r: Visited)
    requires id in universe && Closed(env, universe) && (forall d | d in deps :: d in DepsOf(env, id))
    ensures seen <= r.seen
    decreases |universe - seen|, 1, |deps|
  {
    if deps == [] then Done([], seen)
    else
      var dep := Id(id.format, deps[0]);
      assert deps[0] in deps && Edge(env, id, dep);
      if dep in seen then VisitDeps(env, id, deps[1..], seen, universe)
      else
        Smaller(universe, seen, seen + {dep}, dep);
        var r := Visit(env, dep, seen + {dep}, universe);
        if r.Failed? then r
        else
          Smaller(universe, seen, r.seen, dep);
          var rest := VisitDeps(env, id, deps[1..], r.seen, universe);
          if rest.Failed? then rest else Done([dep] + r.order + rest.order, rest.seen)
  }

  // ------------------------------------------------------------ the full walk

  /** The same walk to the end: a definition that cannot be loaded has no dependencies. */
  datatype Walked = Walked(order: seq<Id>, seen: set<Id>)

  function Walk(env: Env, id: Id, seen: set<Id>, ghost universe: set<Id>): (w: Walked)
    requires id in universe && Closed(env, universe)
    ensures seen <= w.seen
    decreases |universe - seen|, 2, 0
  {
    WalkDeps(env, id, DepsOf(env, id), seen, universe)
  }

  function WalkDeps(env: Env, id: Id, deps: seq<string>, seen: set<Id>, ghost universe: set<Id>): (w: Walked)
    requires id in universe && Closed(env, universe) && (forall d | d in deps :: d in DepsOf(env, id))
    ensures seen <= w.seen
    decreases |universe - seen|, 1, |deps|
  {
    if deps == [] then Walked([], seen)
    else
      var dep := Id(id.format, deps[0]);
      assert deps[0] in deps && Edge(env, id, dep);
      if dep in seen then WalkDeps(env, id, deps[1..], seen, universe)
      else
        Smaller(universe, seen, seen + {dep}, dep);
        var w := Walk(env, dep, seen + {dep}, universe);
        Smaller(universe, seen, w.seen, dep);
        var rest := WalkDeps(env, id, deps[1..], w.seen, universe);
        Walked([dep] + w.order + rest.order, rest.seen)
  }

  lemma {:induction false} DistinctAppend(a: seq<Id>, b: seq<Id>)
    requires Distinct(a) && Distinct(b) && Elements(a) !! Elements(b)
    ensures Distinct(a + b) && Elements(a + b) == Elements(a) + Elements(b)
  {
    forall i, j | 0 <= i < j < |a + b| ensures (a + b)[i] != (a + b)[j] {
      if i < |a| <= j { assert a[i] in Elements(a) && b[j - |a|] in Elements(b); }
    }
  }

  /** Every id is listed once, and the seen set grows by exactly the listed ids. */
  ghost predicate Lists(seen: set<Id>, w: Walked) {
    Distinct(w.order) && Elements(w.order) !! seen && w.seen == seen + Elements(w.order)
  }

  lemma {:induction false} WalkLists(env: Env, id: Id, seen: set<Id>, universe: set<Id>)
    requires id in universe && Closed(env, universe)
    ensures Lists(seen, Walk(env, id, seen, universe))
    decreases |universe - seen|, 2, 0
  {
    WalkDepsLists(env, id, DepsOf(env, id), seen, universe);
  }

  lemma {:induction false} WalkDepsLists(env: Env, id: Id, deps: seq<string>, seen: set<Id>, universe: set<Id>)
    requires id in universe && Closed(env, universe) && (forall d | d in deps :: d in DepsOf(env, id))
    ensures Lists(seen, WalkDeps(env, id, deps, seen, universe))
    decreases |universe - seen|, 1, |deps|
  {
    if deps != [] {
      var dep := Id(id.format, deps[0]);
      assert deps[0] in deps && Edge(env, id, dep);
      if dep in seen {
        WalkDepsLists(env, id, deps[1..], seen, universe);
      } else {
        Smaller(universe, seen, seen + {dep}, dep);
        WalkLists(env, dep, seen + {dep}, universe);
        var w := Walk(env, dep, seen + {dep}, universe);
        Smaller(universe, seen, w.seen, dep);
        WalkDepsLists(env, id, deps[1..], w.seen, universe);
        ListsOneMore(seen, dep, w, WalkDeps(env, id, deps[1..], w.seen, universe));
      }
    }
  }

  lemma {:induction false} ListsOneMore(seen: set<Id>, dep: Id, w: Walked, rest: Walked)
    requires dep !in seen && Lists(seen + {dep}, w) && Lists(w.seen, rest)
    ensures Lists(seen, Walked([dep] + w.order + rest.order, rest.seen))
  {
    assert Elements([dep]) == {dep};
    DistinctAppend([dep], w.order);
    DistinctAppend([dep] + w.order, rest.order);
  }

  ghost predicate Settled(env: Env, x: Id, seen: set<Id>) { forall y | Edge(env, x, y) :: y in seen }

  /** Everything listed is reached from `id` and has all its dependencies seen. */
  ghost predicate Explores(env: Env, id: Id, w: Walked) {
    forall x | x in w.order :: Settled(env, x, w.seen) && Reaches(env, id, x)
  }

  lemma {:induction false} WalkExplores(env: Env, id: Id, seen: set<Id>, universe: set<Id>)
    requires id in universe && Closed(env, universe)
    ensures var w := Walk(env, id, seen, universe); Explores(env, id, w) && Settled(env, id, w.seen)
    decreases |universe - seen|, 2, 0
  {
    WalkDepsExplores(env, id, DepsOf(env, id), seen, universe);
  }

  lemma {:induction false} WalkDepsExplores(env: Env, id: Id, deps: seq<string>, seen: set<Id>, universe: set<Id>)
    requires id in universe && Closed(env, universe) && (forall d | d in deps :: d in DepsOf(env, id))
    ensures var w := WalkDeps(env, id, deps, seen, universe);
            Explores(env, id, w) && forall d | d in deps :: Id(id.format, d) in w.seen
    decreases |universe - seen|, 1, |deps|
  {
    if deps != [] {
      var dep := Id(id.format, deps[0]);
      assert deps[0] in deps && Edge(env, id, dep);
      if dep in seen {
        WalkDepsExplores(env, id, deps[1..], seen, universe);
      } else {
        Smaller(universe, seen, seen + {dep}, dep);
        WalkExplores(env, dep, seen + {dep}, universe);
        var w := Walk(env, dep, seen + {dep}, universe);
        Smaller(universe, seen, w.seen, dep);
        WalkDepsExplores(env, id, deps[1..], w.seen, universe);
        ExploresOneMore(env, id, dep, w, WalkDeps(env, id, deps[1..], w.seen, universe));
      }
    }
  }

  lemma {:induction false} ExploresOneMore(env: Env, id: Id, dep: Id, w: Walked, rest: Walked)
    requires Edge(env, id, dep) && Explores(env, dep, w) && Settled(env, dep, w.seen)
    requires Explores(env, id, rest) && w.seen <= rest.seen
    ensures Explores(env, id, Walked([dep] + w.order + rest.order, rest.seen))
  {
    forall x | x in [dep] + w.order + rest.order ensures Settled(env, x, rest.seen) && Reaches(env, id, x) {
      if x == dep { ReachesEdge(env, id, dep); }
      else if x in w.order { ReachesBefore(env, id, dep, x); }
    }
  }

  /** What is reached, in the order of the walk. */
  ghost predicate ListsReached(env: Env, root: Id, order: seq<Id>) {
    Distinct(order) && forall x :: x in order <==> Reaches(env, root, x)
  }

  /** On every finite dependency graph, cyclic ones included, the walk lists every id
      reached by one or more edges, and no other, exactly once. */
  lemma {:induction false} WalkReaches(env: Env, root: Id, universe: set<Id>)
    requires root in universe && Closed(env, universe)
    ensures ListsReached(env, root, Walk(env, root, {}, universe).order)
  {
    var w := Walk(env, root, {}, universe);
    WalkLists(env, root, {}, universe);
    WalkExplores(env, root, {}, universe);
    forall x | Reaches(env, root, x) ensures x in w.order {
      var p :| PathFromTo(env, p, root, x);
      ReachesWithin(env, Elements(w.order), p, root, x);
    }
  }

  // --------------------------------------------------- what a visit delivers

  /** The error of the first definition in the list that cannot be loaded. */
  function FirstError(env: Env, ids: seq<Id>): Option<Loaded> {
    if ids == [] then None
    else if Fresh(env, ids[0]).Found? then FirstError(env, ids[1..])
    else Some(Fresh(env, ids[0]))
  }

  lemma {:induction false} FirstErrorAppend(env: Env, a: seq<Id>, b: seq<Id>)
    ensures FirstError(env, a + b) == if FirstError(env, a).Some? then FirstError(env, a) else FirstError(env, b)
  {
    if a == [] {
      assert a + b == b;
    } else {
      FirstErrorAppend(env, a[1..], b);
      assert (a + b)[1..] == a[1..] + b;
    }
  }

  lemma {:induction false} NoError(env: Env, ids: seq<Id>)
    ensures FirstError(env, ids).None? <==> forall x | x in ids :: Fresh(env, x).Found?
  {
    if ids != [] { NoError(env, ids[1..]); }
  }

  /** A visit loads what the walk lists, in that order, up to the first error. */
  ghost predicate Follows(env: Env, ids: seq<Id>, r: Visited, w: Walked) {
    match r
    case Done(order, seen) => FirstError(env, ids).None? && order == w.order && seen == w.seen
    case Failed(err, _) => FirstError(env, ids) == Some(err)
  }

  lemma {:induction false} VisitFollows(env: Env, id: Id, seen: set<Id>, universe: set<Id>)
    requires id in universe && Closed(env, universe)
    ensures var w := Walk(env, id, seen, universe); Follows(env, [id] + w.order, Visit(env, id, seen, universe), w)
    decreases |universe - seen|, 2, 0
  {
    var w := Walk(env, id, seen, universe);
    assert ([id] + w.order)[1..] == w.order;
    match Fresh(env, id)
    case Found(spec) => VisitDepsFollows(env, id, spec.deps, seen, universe);
    case _ =>
  }

  lemma {:induction false} VisitDepsFollows(env: Env, id: Id, deps: seq<string>, seen: set<Id>, universe: set<Id>)
    requires id in universe && Closed(env, universe) && (forall d | d in deps :: d in DepsOf(env, id))
    ensures var w := WalkDeps(env, id, deps, seen, universe);
            Follows(env, w.order, VisitDeps(env, id, deps, seen, universe), w)
    decreases |universe - seen|, 1, |deps|
  {
    if deps != [] {
      var dep := Id(id.format, deps[0]);
      assert deps[0] in deps && Edge(env, id, dep);
      if dep in seen {
        VisitDepsFollows(env, id, deps[1..], seen, universe);
      } else {
        Smaller(universe, seen, seen + {dep}, dep);
        VisitFollows(env, dep, seen + {dep}, universe);
        var w := Walk(env, dep, seen + {dep}, universe);
        Smaller(universe, seen, w.seen, dep);
        VisitDepsFollows(env, id, deps[1..], w.seen, universe);
        FirstErrorAppend(env, [dep] + w.order, WalkDeps(env, id, deps[1..], w.seen, universe).order);
      }
    }
  }

  /** The main theorem.  On every finite dependency graph a visit that starts with nothing
      seen succeeds exactly when the root and everything it reaches can be loaded, and then
      lists exactly what the root reaches; otherwise its exception is that of the first
      definition on the walk, root included, that cannot be loaded. */
  lemma {:induction false} VisitReaches(env: Env, root: Id, universe: set<Id>)
    requires root in universe && Closed(env, universe)
    ensures var r, order := Visit(env, root, {}, universe), Walk(env, root, {}, universe).order;
            && ListsReached(env, root, order)
            && (r.Done? <==> forall x | x == root || Reaches(env, root, x) :: Fresh(env, x).Found?)
            && (r.Done? ==> r.order == order)
            && (r.Failed? ==> FirstError(env, [root] + order) == Some(r.err))
  {
    var order := Walk(env, root, {}, universe).order;
    WalkReaches(env, root, universe);
    VisitFollows(env, root, {}, universe);
    NoError(env, [root] + order);
  }

  // ------------------------------------------------- passes of other formats

  lemma {:induction false} VisitFormat(env: Env, id: Id, seen: set<Id>, universe: set<Id>)
    requires id in universe && Closed(env, universe)
    ensures forall x | x in Visit(env, id, seen, universe).seen - seen :: x.format == id.format
    decreases |universe - seen|, 2, 0
  {
    match Fresh(env, id)
    case Found(spec) => VisitDepsFormat(env, id, spec.deps, seen, universe);
    case _ =>
  }

  lemma {:induction false} VisitDepsFormat(env: Env, id: Id, deps: seq<string>, seen: set<Id>, universe: set<Id>)
    requires id in universe && Closed(env, universe) && (forall d | d in deps :: d in DepsOf(env, id))
    ensures forall x | x in VisitDeps(env, id, deps, seen, universe).seen - seen :: x.format == id.format
    decreases |universe - seen|, 1, |deps|
  {
    if deps != [] {
      var dep := Id(id.format, deps[0]);
      assert deps[0] in deps && Edge(env, id, dep);
      if dep in seen {
        VisitDepsFormat(env, id, deps[1..], seen, universe);
      } else {
        Smaller(universe, seen, seen + {dep}, dep);
        VisitFormat(env, dep, seen + {dep}, universe);
        var r := Visit(env, dep, seen + {dep}, universe);
        if r.Done? {
          Smaller(universe, seen, r.seen, dep);
          VisitDepsFormat(env, id, deps[1..], r.seen, universe);
        }
      }
    }
  }

  function WithSeen(r: Visited, more: set<Id>): Visited { r.(seen := r.seen + more) }

  /** What a pass of another format left in the seen set changes nothing. */
  lemma {:induction false} VisitIgnores(env: Env, id: Id, seen: set<Id>, other: set<Id>, universe: set<Id>)
    requires id in universe && Closed(env, universe) && (forall x | x in other :: x.format != id.format)
    ensures Visit(env, id, seen + other, universe) == WithSeen(Visit(env, id, seen, universe), other)
    decreases |universe - seen|, 2, 0
  {
    match Fresh(env, id)
    case Found(spec) => VisitDepsIgnores(env, id, spec.deps, seen, other, universe);
    case _ =>
  }

  lemma {:induction false} VisitDepsIgnores(env: Env, id: Id, deps: seq<string>, seen: set<Id>, other: set<Id>, universe: set<Id>)
    requires id in universe && Closed(env, universe) && (forall d | d in deps :: d in DepsOf(env, id))
    requires forall x | x in other :: x.format != id.format
    ensures VisitDeps(env, id, deps, seen + other, universe) == WithSeen(VisitDeps(env, id, deps, seen, universe), other)
    decreases |universe - seen|, 1, |deps|
  {
    if deps != [] {
      var dep := Id(id.format, deps[0]);
      assert deps[0] in deps && Edge(env, id, dep);
      if dep in seen {
        VisitDepsIgnores(env, id, deps[1..], seen, other, universe);
      } else {
        Smaller(universe, seen, seen + {dep}, dep);
        VisitIgnores(env, dep, seen + {dep}, other, universe);
        assert seen + {dep} + other == seen + other + {dep};
        var r := Visit(env, dep, seen + {dep}, universe);
        if r.Done? {
          Smaller(universe, seen, r.seen, dep);
          VisitDepsIgnores(env, id, deps[1..], r.seen, other, universe);
        }
      }
    }
  }

  // ------------------------------------------------------------------ texts

  /** Eighty equals signs, then the kind and the name on a line of their own. */
  function Delimiter(id: Id): string {
    seq(80, _ => '=') + "\n" + (if id.format == IDL then "IDL: " else "MSG: ") + id.name + "\n"
  }

  lemma {:induction false} Assoc(a: string, b: string, c: string)
    ensures a + b + c == a + (b + c)
  {
  }

  /** Two lines: eighty equals signs, and the kind and the name. */
  lemma {:induction false} DelimiterLines(id: Id)
    requires '\n' !in id.name
    ensures var lines := Split(Delimiter(id), "\n");
            && |lines| == 3 && lines[1] == (if id.format == IDL then "IDL: " else "MSG: ") + id.name && lines[2] == ""
            && |lines[0]| == 80 && forall i | 0 <= i < 80 :: lines[0][i] == '='
  {
    var rule := seq(80, _ => '=');
    var title := (if id.format == IDL then "IDL: " else "MSG: ") + id.name;
    assert '\n' !in rule && '\n' !in title;
    TerminatedLines([rule, title]);
    TwoLines(rule, title);
    Assoc(rule + "\n", title, "\n");
    Assoc(rule + "\n", if id.format == IDL then "IDL: " else "MSG: ", id.name);
  }

  lemma {:induction false} TwoLines(a: string, b: string)
    ensures Terminated([a, b]) == a + "\n" + (b + "\n")
  {
    TerminatedStep([], a);
    TerminatedStep([a], b);
    assert [] + [a] == [a] && [a] + [b] == [a, b] && "" + (a + "\n") == a + "\n";
  }

  function TextOf(env: Env, id: Id): string {
    match Fresh(env, id) case Found(spec) => spec.text case _ => ""
  }

  function Section(env: Env, id: Id): string { "\n" + Delimiter(id) + TextOf(env, id) }

  /** One section for each id, in order. */
  function Sections(env: Env, order: seq<Id>): string
    decreases |order|
  {
    if order == [] then ""
    else Sections(env, order[..|order| - 1]) + Section(env, order[|order| - 1])
  }

  lemma {:induction false} SectionsAppend(env: Env, a: seq<Id>, b: seq<Id>)
    ensures Sections(env, a + b) == Sections(env, a) + Sections(env, b)
    decreases |b|
  {
    if b == [] {
      assert a + b == a;
    } else {
      var last := |b| - 1;
      SectionsAppend(env, a, b[..last]);
      assert (a + b)[..|a + b| - 1] == a + b[..last];
      Assoc(Sections(env, a), Sections(env, b[..last]), Section(env, b[last]));
    }
  }

  /** A text or the exception that prevented it. */
  type Result<+T> = Wrappers.Result<T, Loaded>

  function Rendered(env: Env, id: Id, r: Visited): Result<string> {
    match r
    case Done(order, _) => Ok(TextOf(env, id) + Sections(env, order))
    case Failed(err, _) => Err(err)
  }

  function Prepend(order: seq<Id>, r: Visited): Visited {
    if r.Done? then r.(order := order + r.order) else r
  }

  method Load(cache: MessageDefinitionCache, id: Id) returns (loaded: Loaded)
    requires cache.Valid()
    modifies cache
    ensures cache.Valid() && Extends(old(cache.specs), cache.specs) && loaded == Fresh(cache.env, id)
  {
    if IsServiceFormat(id.format) { loaded := cache.LoadServiceSpec(id); }
    else { loaded := cache.LoadMessageSpec(id); }
  }

  /** `append_recursive`, with the spec cache and the shared seen set. */
  method AppendRecursive(cache: MessageDefinitionCache, id: Id, seen: set<Id>, ghost universe: set<Id>)
    returns (r: Result<string>, seen': set<Id>)
    requires cache.Valid() && id in universe && Closed(cache.env, universe)
    modifies cache
    ensures cache.Valid() && Extends(old(cache.specs), cache.specs)
    ensures var v := Visit(cache.env, id, seen, universe); r == Rendered(cache.env, id, v) && seen' == v.seen
    decreases |universe - seen|
  {
    var loaded := Load(cache, id);
    if !loaded.Found? { return Err(loaded), seen; }
    var spec := loaded.spec;
    var text := spec.text;
    seen' := seen;
    ghost var order: seq<Id> := [];
    for i := 0 to |spec.deps|
      invariant cache.Valid() && Extends(old(cache.specs), cache.specs)
      invariant seen <= seen' && text == TextOf(cache.env, id) + Sections(cache.env, order)
      invariant Visit(cache.env, id, seen, universe) ==
                Prepend(order, VisitDeps(cache.env, id, spec.deps[i..], seen', universe))
    {
      var dep := Id(id.format, spec.deps[i]);
      assert spec.deps[i..][0] == spec.deps[i] && spec.deps[i..][1..] == spec.deps[i + 1..];
      assert Edge(cache.env, id, dep);
      if dep !in seen' {
        ghost var before := seen';
        ghost var v := Visit(cache.env, dep, before + {dep}, universe);
        Smaller(universe, seen, before + {dep}, dep);
        VisitDepsStep(cache.env, id, spec.deps[i..], before, universe, order);
        var inner: Result<string>;
        inner, seen' := AppendRecursive(cache, dep, seen' + {dep}, universe);
        if inner.Err? { return Err(inner.error), seen'; }
        TextGrows(cache.env, id, order, dep, v.order);
        text := text + "\n" + Delimiter(dep) + inner.value;
        order := order + ([dep] + v.order);
      }
    }
    assert order + [] == order;
    return Ok(text), seen';
  }

  lemma {:induction false} VisitDepsStep(env: Env, id: Id, deps: seq<string>, seen: set<Id>, universe: set<Id>, order: seq<Id>)
    requires id in universe && Closed(env, universe) && (forall d | d in deps :: d in DepsOf(env, id))
    requires deps != [] && Id(id.format, deps[0]) in universe - seen
    ensures var dep := Id(id.format, deps[0]);
            var v := Visit(env, dep, seen + {dep}, universe);
            Prepend(order, VisitDeps(env, id, deps, seen, universe)) ==
            if v.Done? then Prepend(order + ([dep] + v.order), VisitDeps(env, id, deps[1..], v.seen, universe)) else v
  {
    var dep := Id(id.format, deps[0]);
    var v := Visit(env, dep, seen + {dep}, universe);
    if v.Done? {
      var rest := VisitDeps(env, id, deps[1..], v.seen, universe);
      if rest.Done? { assert order + ([dep] + v.order + rest.order) == order + ([dep] + v.order) + rest.order; }
    }
  }

  lemma {:induction false} TextGrows(env: Env, id: Id, order: seq<Id>, dep: Id, inner: seq<Id>)
    ensures TextOf(env, id) + Sections(env, order) + "\n" + Delimiter(dep) + (TextOf(env, dep) + Sections(env, inner)) ==
            TextOf(env, id) + Sections(env, order + ([dep] + inner))
  {
    AppendSection(TextOf(env, id), Sections(env, order), Delimiter(dep), TextOf(env, dep), Sections(env, inner));
    AddSection(env, order, dep, inner);
  }

  lemma {:induction false} AddSection(env: Env, order: seq<Id>, dep: Id, inner: seq<Id>)
    ensures Sections(env, order + ([dep] + inner)) == Sections(env, order) + (Section(env, dep) + Sections(env, inner))
  {
    SectionsAppend(env, order, [dep] + inner);
    SectionsAppend(env, [dep], inner);
    assert [dep][..0] == [];
    OneSection(env, dep);
  }

  lemma {:induction false} OneSection(env: Env, dep: Id)
    ensures Sections(env, [dep]) == Section(env, dep)
  {
    assert [dep][..0] == [];
    var s := Section(env, dep);
    assert "" + s == s;
  }

  /** The strings as the loop appends them. */
  lemma {:induction false} AppendSection(text: string, sections: string, delimiter: string, own: string, inner: string)
    ensures text + sections + "\n" + delimiter + (own + inner) == text + (sections + ("\n" + delimiter + own + inner))
  {
  }

  // ------------------------------------------------------------- full texts

  datatype FullText = FullText(format: Format, text: string)

  /** The message definition, or the IDL definition when some message definition is
      missing, each flattened with nothing seen. */
  function FullMessage(env: Env, name: string, ghost universe: set<Id>): Result<FullText>
    requires Id(MSG, name) in universe && Id(IDL, name) in universe && Closed(env, universe)
  {
    match Rendered(env, Id(MSG, name), Visit(env, Id(MSG, name), {}, universe))
    case Ok(text) => Ok(FullText(MSG, text))
    case Err(err) =>
      if err != NotFound then Err(err)
      else
        match Rendered(env, Id(IDL, name), Visit(env, Id(IDL, name), {}, universe))
        case Ok(text) => Ok(FullText(IDL, Delimiter(Id(IDL, name)) + text))
        case Err(err) => Err(err)
  }

  /** `get_full_msg_text`: neither the history of the cache nor the seen set left over by a
      failed first pass shows in the result. */
  method GetFullMsgText(cache: MessageDefinitionCache, name: string, ghost universe: set<Id>) returns (r: Result<FullText>)
    requires cache.Valid() && Id(MSG, name) in universe && Id(IDL, name) in universe && Closed(cache.env, universe)
    modifies cache
    ensures cache.Valid() && r == FullMessage(cache.env, name, universe)
  {
    var first, seen := AppendRecursive(cache, Id(MSG, name), {}, universe);
    if first.Ok? { return Ok(FullText(MSG, first.value)); }
    if first.error != NotFound { return Err(first.error); }
    VisitFormat(cache.env, Id(MSG, name), {}, universe);
    VisitIgnores(cache.env, Id(IDL, name), {}, seen, universe);
    assert {} + seen == seen;
    var second, _ := AppendRecursive(cache, Id(IDL, name), seen, universe);
    if second.Err? { return Err(second.error); }
    return Ok(FullText(IDL, Delimiter(Id(IDL, name)) + second.value));
  }

  /** Request and response; a missing definition leaves the texts not yet built empty. */
  function FullService(env: Env, name: string, ghost universe: set<Id>): Result<(string, string)>
    requires Id(SRV_REQ, name) in universe && Id(SRV_RESP, name) in universe && Closed(env, universe)
  {
    match Rendered(env, Id(SRV_REQ, name), Visit(env, Id(SRV_REQ, name), {}, universe))
    case Err(err) => if err == NotFound then Ok(("", "")) else Err(err)
    case Ok(request) =>
      match Rendered(env, Id(SRV_RESP, name), Visit(env, Id(SRV_RESP, name), {}, universe))
      case Err(err) => if err == NotFound then Ok((request, "")) else Err(err)
      case Ok(response) => Ok((request, response))
  }

  /** `get_full_srv_text`: the response does not notice what the request has seen. */
  method GetFullSrvText(cache: MessageDefinitionCache, name: string, ghost universe: set<Id>)
    returns (r: Result<(string, string)>)
    requires cache.Valid() && Id(SRV_REQ, name) in universe && Id(SRV_RESP, name) in universe && Closed(cache.env, universe)
    modifies cache
    ensures cache.Valid() && r == FullService(cache.env, name, universe)
  {
    var request, response := "", "";
    var first, seen := AppendRecursive(cache, Id(SRV_REQ, name), {}, universe);
    if first.Err? {
      if first.error == NotFound { return Ok((request, response)); }
      return Err(first.error);
    }
    request := first.value;
    VisitFormat(cache.env, Id(SRV_REQ, name), {}, universe);
    VisitIgnores(cache.env, Id(SRV_RESP, name), {}, seen, universe);
    assert {} + seen == seen;
    var second, _ := AppendRecursive(cache, Id(SRV_RESP, name), seen, universe);
    if second.Err? {
      if second.error == NotFound { return Ok((request, response)); }
      return Err(second.error);
    }
    response := second.value;
    return Ok((request, response));
  }

  /** A definition's own text and one section for each of the others. */
  function Flattened(env: Env, root: Id, order: seq<Id>): string { TextOf(env, root) + Sections(env, order) }

  lemma {:induction false} RenderedFlattened(env: Env, root: Id, universe: set<Id>) returns (order: seq<Id>)
    requires root in universe && Closed(env, universe)
    ensures ListsReached(env, root, order)
    ensures Rendered(env, root, Visit(env, root, {}, universe)) ==
            match FirstError(env, [root] + order) case None => Ok(Flattened(env, root, order)) case Some(err) => Err(err)
  {
    order := Walk(env, root, {}, universe).order;
    VisitReaches(env, root, universe);
    NoError(env, [root] + order);
  }

  /** What a message definition flattens to, for every outcome: its own text and one section
      for each definition it reaches, no more and none twice, the root having a section of
      its own exactly when it lies on a cycle.  The IDL text takes its place exactly when the
      first message definition on the walk that cannot be loaded is not found; any other
      failure, and any failure of the IDL definitions, is the exception thrown. */
  lemma {:induction false} FullMessageSections(env: Env, name: string, universe: set<Id>)
    returns (msgs: seq<Id>, idls: seq<Id>)
    requires Id(MSG, name) in universe && Id(IDL, name) in universe && Closed(env, universe)
    ensures var msg, idl := Id(MSG, name), Id(IDL, name);
            && ListsReached(env, msg, msgs) && ListsReached(env, idl, idls)
            && FullMessage(env, name, universe) ==
               match FirstError(env, [msg] + msgs)
               case None => Ok(FullText(MSG, Flattened(env, msg, msgs)))
               case Some(err) =>
                 if err != NotFound then Err(err)
                 else match FirstError(env, [idl] + idls)
                      case None => Ok(FullText(IDL, Delimiter(idl) + Flattened(env, idl, idls)))
                      case Some(err) => Err(err)
  {
    msgs := RenderedFlattened(env, Id(MSG, name), universe);
    idls := RenderedFlattened(env, Id(IDL, name), universe);
  }

  /** Likewise for services.  A definition that is not found leaves the text it belongs to,
      and the response after the request, empty; any other failure is thrown. */
  lemma {:induction false} FullServiceSections(env: Env, name: string, universe: set<Id>)
    returns (reqs: seq<Id>, resps: seq<Id>)
    requires Id(SRV_REQ, name) in universe && Id(SRV_RESP, name) in universe && Closed(env, universe)
    ensures var req, resp := Id(SRV_REQ, name), Id(SRV_RESP, name);
            && ListsReached(env, req, reqs) && ListsReached(env, resp, resps)
            && FullService(env, name, universe) ==
               match FirstError(env, [req] + reqs)
               case Some(err) => if err == NotFound then Ok(("", "")) else Err(err)
               case None =>
                 match FirstError(env, [resp] + resps)
                 case Some(err) => if err == NotFound then Ok((Flattened(env, req, reqs), "")) else Err(err)
                 case None => Ok((Flattened(env, req, reqs), Flattened(env, resp, resps)))
  {
    reqs := RenderedFlattened(env, Id(SRV_REQ, name), universe);
    resps := RenderedFlattened(env, Id(SRV_RESP, name), universe);
  }

  /** What the two texts of a service hold, from its file on: the request begins with the lines
      before the first separator, the response with the other lines, each followed by the
      sections of what it reaches. */
  lemma {:induction false} ServiceTexts(env: Env, package: string, typeName: string, text: string, universe: set<Id>)
    returns (reqs: seq<Id>, resps: seq<Id>)
    requires IsWord(package) && IsWord(typeName) && env.files(package, typeName + ".srv") == Contents(text)
    requires var lines := Split(Normal(text), "\n"); |lines| > 1 || lines[0] == "---"
    requires var name := package + "/srv/" + typeName;
             Id(SRV_REQ, name) in universe && Id(SRV_RESP, name) in universe && Closed(env, universe)
    ensures var name, lines := package + "/srv/" + typeName, Split(Normal(text), "\n");
            var req, resp := Id(SRV_REQ, name), Id(SRV_RESP, name);
            && ListsReached(env, req, reqs) && ListsReached(env, resp, resps)
            && FullService(env, name, universe) ==
               match FirstError(env, reqs)
               case Some(err) => if err == NotFound then Ok(("", "")) else Err(err)
               case None =>
                 var request := Terminated(Request(lines)) + Sections(env, reqs);
                 match FirstError(env, resps)
                 case Some(err) => if err == NotFound then Ok((request, "")) else Err(err)
                 case None => Ok((request, Terminated(Response(lines)) + Sections(env, resps)))
  {
    var name := package + "/srv/" + typeName;
    reqs, resps := FullServiceSections(env, name, universe);
    ServiceLoads(env, package, typeName, text);
    assert ([Id(SRV_REQ, name)] + reqs)[1..] == reqs && ([Id(SRV_RESP, name)] + resps)[1..] == resps;
  }

  /** A service that depends on a message by its full name has no text: the loader of
      services refuses every subfolder but `srv`, and the exception is thrown unless some
      definition on the way is not found at all. */
  lemma {:induction false} MessageDependencyThrows(env: Env, name: string, universe: set<Id>, dep: Id)
    requires Id(SRV_REQ, name) in universe && Id(SRV_RESP, name) in universe && Closed(env, universe)
    requires Reaches(env, Id(SRV_REQ, name), dep) && Parse(dep.name).Some? && Parse(dep.name).value.subfolder == "msg"
    requires forall x | x == Id(SRV_REQ, name) || Reaches(env, Id(SRV_REQ, name), x) :: Fresh(env, x) != NotFound
    ensures FullService(env, name, universe) == Err(Invalid)
  {
    var root := Id(SRV_REQ, name);
    var reqs, _ := FullServiceSections(env, name, universe);
    SameFormat(env, root, dep);
    NoError(env, [root] + reqs);
    assert dep in [root] + reqs;
    ErrorOf(env, [root] + reqs);
  }

  lemma {:induction false} ErrorOf(env: Env, ids: seq<Id>)
    requires FirstError(env, ids).Some?
    ensures exists x | x in ids :: !Fresh(env, x).Found? && FirstError(env, ids) == Some(Fresh(env, x))
  {
    if Fresh(env, ids[0]).Found? { ErrorOf(env, ids[1..]); }
  }

  lemma {:induction false} SameFormat(env: Env, a: Id, b: Id)
    requires Reaches(env, a, b)
    ensures b.format == a.format
  {
    var p :| PathFromTo(env, p, a, b);
    PathFormat(env, p, |p| - 1);
  }

  lemma {:induction false} PathFormat(env: Env, p: seq<Id>, i: nat)
    requires IsPath(env, p) && i < |p|
    ensures p[i].format == p[0].format
  {
    if i > 0 {
      PathFormat(env, p, i - 1);
      assert Edge(env, p[i - 1], p[i]);
    }
  }
}

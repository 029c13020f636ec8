/**
  The surface renderer of the web client: a depth-limited walk of a component graph that
  shares one set of visited ids, and the table of revisions that decides which updates of a
  surface are shown. A component is reduced to its id, its kind and its child ids.
*/
module SurfaceRenderer {
  import opened Sets
  import opened Whitespace
  import opened Wrappers

  type Id = string

  const MAX_DEPTH := 16
  const MAX_CHILDREN := 128
  const MAX_COMPONENTS := 256
  const MAX_ID_LENGTH := 128

  const FALLBACK_KINDS: set<string> := {
    "Text", "Markdown", "Heading", "Badge", "Status", "Metric", "Progress",
    "List", "Table", "Tree", "Code", "Diff", "Log", "Alert", "Tabs",
    "Input", "Select", "Toggle", "Button", "ButtonGroup", "Artifact", "Timeline"
  }

  datatype Component = Component(id: Id, kind: string, children: seq<Id>)

  datatype Tree = Node(id: Id, kids: seq<Tree>)

  datatype Graph = Graph(byId: map<Id, Component>, allowed: set<string>)
  {
    predicate Shows(id: Id) {
      id in byId && byId[id].kind in allowed
    }

    function Children(id: Id): seq<Id>
      requires id in byId
    {
      var all := byId[id].children;
      if |all| <= MAX_CHILDREN then all else all[..MAX_CHILDREN]
    }
  }

  // ---- the walk, as a function of the visited set ----

  /** What is drawn for `id`, and the visited set afterwards. */
  function One(g: Graph, id: Id, depth: nat, seen: set<Id>): (Option<Tree>, set<Id>)
    requires depth <= MAX_DEPTH + 1
    decreases MAX_DEPTH + 1 - depth, 0
  {
    if id !in g.byId || depth > MAX_DEPTH || id in seen then (None, seen)
    else if !g.Shows(id) then (None, seen + {id})
    else
      var (kids, after) := Many(g, g.Children(id), depth + 1, seen + {id});
      (Some(Node(id, kids)), after)
  }

  function Many(g: Graph, ids: seq<Id>, depth: nat, seen: set<Id>): (seq<Tree>, set<Id>)
    requires depth <= MAX_DEPTH + 1
    decreases MAX_DEPTH + 1 - depth, |ids| + 1
  {
    if ids == [] then ([], seen)
    else
      var (front, mid) := Many(g, ids[..|ids| - 1], depth, seen);
      var (last, after) := One(g, ids[|ids| - 1], depth, mid);
      (if last.Some? then front + [last.value] else front, after)
  }

  class Walk {
    const g: Graph
    var visited: set<Id>

    constructor (graph: Graph)
      ensures g == graph && visited == {}
    {
      g, visited := graph, {};
    }

    method RenderComponent(id: Id, depth: nat) returns (out: Option<Tree>)
      requires depth <= MAX_DEPTH + 1
      modifies this
      ensures (out, visited) == One(g, id, depth, old(visited))
      decreases MAX_DEPTH + 1 - depth
    {
      if id !in g.byId || depth > MAX_DEPTH { return None; }
      if id in visited { return None; }
      visited := visited + {id};
      if g.byId[id].kind !in g.allowed { return None; }
      var children, kids := g.Children(id), [];
      ghost var marked := visited;
      for i := 0 to |children|
        invariant (kids, visited) == Many(g, children[..i], depth + 1, marked)
      {
        assert children[..i + 1][..i] == children[..i];
        var rendered := RenderComponent(children[i], depth + 1);
        if rendered.Some? { kids := kids + [rendered.value]; }
      }
      assert children[..|children|] == children;
      return Some(Node(id, kids));
    }
  }

  // ---- trees ----

  ghost function Ids(t: Tree): set<Id> {
    {t.id} + IdsOf(t.kids)
  }

  ghost function IdsOf(ts: seq<Tree>): set<Id> {
    if ts == [] then {} else IdsOf(ts[..|ts| - 1]) + Ids(ts[|ts| - 1])
  }

  /** No id occurs twice in the tree. */
  ghost predicate Distinct(t: Tree) {
    t.id !in IdsOf(t.kids) && DistinctOf(t.kids)
  }

  ghost predicate DistinctOf(ts: seq<Tree>) {
    ts == [] || (DistinctOf(ts[..|ts| - 1]) && Distinct(ts[|ts| - 1]) && IdsOf(ts[..|ts| - 1]) !! Ids(ts[|ts| - 1]))
  }

  ghost function Height(t: Tree): nat {
    1 + HeightOf(t.kids)
  }

  ghost function HeightOf(ts: seq<Tree>): nat {
    if ts == [] then 0
    else
      var front, last := HeightOf(ts[..|ts| - 1]), Height(ts[|ts| - 1]);
      if front < last then last else front
  }

  ghost function Roots(ts: seq<Tree>): seq<Id> {
    if ts == [] then [] else Roots(ts[..|ts| - 1]) + [ts[|ts| - 1].id]
  }

  ghost predicate Subsequence(a: seq<Id>, b: seq<Id>) {
    if a == [] then true
    else if b == [] then false
    else
      || (a[|a| - 1] == b[|b| - 1] && Subsequence(a[..|a| - 1], b[..|b| - 1]))
      || Subsequence(a, b[..|b| - 1])
  }

  /** Every node is an allowed component and its kids are some of its declared children, in order. */
  ghost predicate Declared(g: Graph, t: Tree) {
    g.Shows(t.id) && Subsequence(Roots(t.kids), g.Children(t.id)) && DeclaredOf(g, t.kids)
  }

  ghost predicate DeclaredOf(g: Graph, ts: seq<Tree>) {
    ts == [] || (DeclaredOf(g, ts[..|ts| - 1]) && Declared(g, ts[|ts| - 1]))
  }

  // ---- any graph is drawn as a bounded tree of distinct, declared components ----

  ghost predicate Sound(g: Graph, t: Tree, depth: nat, seen: set<Id>, after: set<Id>) {
    Declared(g, t) && Distinct(t) && Height(t) + depth <= MAX_DEPTH + 1 && Ids(t) !! seen && Ids(t) <= after
  }

  ghost predicate SoundOf(g: Graph, ts: seq<Tree>, depth: nat, seen: set<Id>, after: set<Id>) {
    && DeclaredOf(g, ts) && DistinctOf(ts) && HeightOf(ts) + depth <= MAX_DEPTH + 1
    && IdsOf(ts) !! seen && IdsOf(ts) <= after
  }

  lemma {:induction false} OneIsSound(g: Graph, id: Id, depth: nat, seen: set<Id>)
    requires depth <= MAX_DEPTH + 1
    ensures var (out, after) := One(g, id, depth, seen);
            seen <= after && (out.Some? ==> out.value.id == id && Sound(g, out.value, depth, seen, after))
    decreases MAX_DEPTH + 1 - depth, 0
  {
    if g.Shows(id) && depth <= MAX_DEPTH && id !in seen {
      ManyAreSound(g, g.Children(id), depth + 1, seen + {id});
    }
  }

  lemma {:induction false} ManyAreSound(g: Graph, ids: seq<Id>, depth: nat, seen: set<Id>)
    requires depth <= MAX_DEPTH + 1
    ensures var (out, after) := Many(g, ids, depth, seen);
            seen <= after && SoundOf(g, out, depth, seen, after) && Subsequence(Roots(out), ids)
    decreases MAX_DEPTH + 1 - depth, |ids| + 1
  {
    if ids != [] {
      var front, last := ids[..|ids| - 1], ids[|ids| - 1];
      var (shown, mid) := Many(g, front, depth, seen);
      ManyAreSound(g, front, depth, seen);
      OneIsSound(g, last, depth, mid);
      var (out, after) := One(g, last, depth, mid);
      if out.Some? {
        Appended(shown, out.value);
      }
    }
  }

  lemma Appended(ts: seq<Tree>, t: Tree)
    ensures IdsOf(ts + [t]) == IdsOf(ts) + Ids(t)
    ensures Roots(ts + [t]) == Roots(ts) + [t.id]
    ensures DistinctOf(ts + [t]) <==> DistinctOf(ts) && Distinct(t) && IdsOf(ts) !! Ids(t)
    ensures HeightOf(ts + [t]) == if HeightOf(ts) < Height(t) then Height(t) else HeightOf(ts)
  {
    assert (ts + [t])[..|ts|] == ts;
  }

  // ---- a tree within the limits is drawn whole ----

  /** The graph below `t.id` is the tree `t`, all of whose components are allowed. */
  ghost predicate Represents(g: Graph, t: Tree) {
    && g.Shows(t.id)
    && g.byId[t.id].children == Roots(t.kids)
    && |t.kids| <= MAX_CHILDREN
    && RepresentsOf(g, t.kids)
  }

  ghost predicate RepresentsOf(g: Graph, ts: seq<Tree>) {
    ts == [] || (RepresentsOf(g, ts[..|ts| - 1]) && Represents(g, ts[|ts| - 1]))
  }

  lemma {:induction false} RootsSize(ts: seq<Tree>)
    ensures |Roots(ts)| == |ts|
  {
    if ts != [] { RootsSize(ts[..|ts| - 1]); }
  }

  lemma {:induction false} TreeIsShown(g: Graph, t: Tree, depth: nat, seen: set<Id>)
    requires Represents(g, t) && Distinct(t) && Ids(t) !! seen && depth + Height(t) <= MAX_DEPTH + 1
    ensures One(g, t.id, depth, seen) == (Some(t), seen + Ids(t))
  {
    RootsSize(t.kids);
    ForestIsShown(g, t.kids, depth + 1, seen + {t.id});
    assert (seen + {t.id}) + IdsOf(t.kids) == seen + Ids(t);
  }

  lemma {:induction false} ForestIsShown(g: Graph, ts: seq<Tree>, depth: nat, seen: set<Id>)
    requires RepresentsOf(g, ts) && DistinctOf(ts) && IdsOf(ts) !! seen && depth + HeightOf(ts) <= MAX_DEPTH + 1
    ensures Many(g, Roots(ts), depth, seen) == (ts, seen + IdsOf(ts))
  {
    if ts == [] {
      assert seen + {} == seen;
    } else {
      var front, last := ts[..|ts| - 1], ts[|ts| - 1];
      ForestIsShown(g, front, depth, seen);
      TreeIsShown(g, last, depth, seen + IdsOf(front));
      assert Roots(ts)[..|Roots(ts)| - 1] == Roots(front);
      assert ts == front + [last];
      assert (seen + IdsOf(front)) + Ids(last) == seen + IdsOf(ts);
    }
  }

  // ---- with at most sixteen components, all that can be reached is drawn ----

  /** Everything newly marked from which the walk goes on has its components marked too. */
  ghost predicate ClosedBetween(g: Graph, seen: set<Id>, after: set<Id>) {
    forall x, c :: x in after && x !in seen && g.Shows(x) && c in g.Children(x) && c in g.byId ==> c in after
  }

  ghost predicate Roomy(g: Graph, depth: nat, seen: set<Id>) {
    |g.byId| <= MAX_DEPTH && seen <= g.byId.Keys && depth <= |seen| + 1 <= MAX_DEPTH + 1
  }

  lemma MarkKeepsRoom(g: Graph, id: Id, depth: nat, seen: set<Id>)
    requires Roomy(g, depth, seen) && id in g.byId && id !in seen
    ensures depth <= MAX_DEPTH && Roomy(g, depth + 1, seen + {id})
  {
    SubsetSize(seen + {id}, g.byId.Keys);
  }

  /** What is drawn is what was newly marked and is allowed. */
  ghost predicate DrawsNew(g: Graph, drawn: set<Id>, seen: set<Id>, after: set<Id>) {
    forall x :: x in drawn <==> x in after && x !in seen && g.Shows(x)
  }

  lemma {:induction false} OneIsClosed(g: Graph, id: Id, depth: nat, seen: set<Id>)
    requires Roomy(g, depth, seen)
    ensures var (out, after) := One(g, id, depth, seen);
            && seen <= after <= g.byId.Keys && (id in g.byId ==> id in after) && ClosedBetween(g, seen, after)
            && DrawsNew(g, if out.Some? then Ids(out.value) else {}, seen, after)
    decreases MAX_DEPTH + 1 - depth, 0
  {
    if id in g.byId && id !in seen {
      MarkKeepsRoom(g, id, depth, seen);
      if g.Shows(id) {
        ManyAreClosed(g, g.Children(id), depth + 1, seen + {id});
      }
    }
  }

  lemma {:induction false} ManyAreClosed(g: Graph, ids: seq<Id>, depth: nat, seen: set<Id>)
    requires Roomy(g, depth, seen)
    ensures var (out, after) := Many(g, ids, depth, seen);
            && seen <= after <= g.byId.Keys && (forall c :: c in ids && c in g.byId ==> c in after)
            && ClosedBetween(g, seen, after) && DrawsNew(g, IdsOf(out), seen, after)
    decreases MAX_DEPTH + 1 - depth, |ids| + 1
  {
    if ids != [] {
      var front, last := ids[..|ids| - 1], ids[|ids| - 1];
      assert ids == front + [last];
      ManyAreClosed(g, front, depth, seen);
      var (shown, mid) := Many(g, front, depth, seen);
      SubsetSize(seen, mid);
      SubsetSize(mid, g.byId.Keys);
      OneIsClosed(g, last, depth, mid);
      var (out, _) := One(g, last, depth, mid);
      if out.Some? { Appended(shown, out.value); }
    }
  }

  /** A path from `path[0]` whose every step is to a declared child of an allowed component. */
  ghost predicate Path(g: Graph, path: seq<Id>) {
    && path != []
    && (forall i :: 0 <= i < |path| ==> g.Shows(path[i]))
    && (forall i :: 0 <= i < |path| - 1 ==> path[i + 1] in g.Children(path[i]))
  }

  ghost predicate Reachable(g: Graph, root: Id, x: Id) {
    exists path :: Path(g, path) && path[0] == root && path[|path| - 1] == x
  }

  lemma {:induction false} PathStaysInside(g: Graph, path: seq<Id>, after: set<Id>)
    requires Path(g, path) && path[0] in after && ClosedBetween(g, {}, after)
    ensures path[|path| - 1] in after
  {
    if |path| > 1 {
      var front := path[..|path| - 1];
      PathStaysInside(g, front, after);
      assert path[|front| - 1 + 1] in g.Children(path[|front| - 1]);
    }
  }

  lemma ReachableChild(g: Graph, root: Id, x: Id, c: Id)
    requires Reachable(g, root, x) && g.Shows(c) && c in g.Children(x)
    ensures Reachable(g, root, c)
  {
    var path :| Path(g, path) && path[0] == root && path[|path| - 1] == x;
    var longer := path + [c];
    assert Path(g, longer);
    assert longer[0] == root && longer[|longer| - 1] == c;
  }

  lemma {:induction false} SubsequenceMembers(a: seq<Id>, b: seq<Id>)
    requires Subsequence(a, b)
    ensures forall x :: x in a ==> x in b
  {
    if a != [] {
      assert a == a[..|a| - 1] + [a[|a| - 1]];
      if a[|a| - 1] == b[|b| - 1] && Subsequence(a[..|a| - 1], b[..|b| - 1]) {
        SubsequenceMembers(a[..|a| - 1], b[..|b| - 1]);
      } else {
        SubsequenceMembers(a, b[..|b| - 1]);
      }
    }
  }

  /** Whatever is drawn below a reachable component is reachable. */
  lemma {:induction false} DrawnIsReachable(g: Graph, root: Id, t: Tree)
    requires Declared(g, t) && Reachable(g, root, t.id)
    ensures forall x :: x in Ids(t) ==> Reachable(g, root, x)
    decreases t
  {
    SubsequenceMembers(Roots(t.kids), g.Children(t.id));
    DrawnAreReachable(g, root, t.id, t.kids);
  }

  lemma {:induction false} DrawnAreReachable(g: Graph, root: Id, parent: Id, ts: seq<Tree>)
    requires DeclaredOf(g, ts) && Reachable(g, root, parent) && parent in g.byId
    requires forall x :: x in Roots(ts) ==> x in g.Children(parent)
    ensures forall x :: x in IdsOf(ts) ==> Reachable(g, root, x)
    decreases ts
  {
    if ts != [] {
      var last := ts[|ts| - 1];
      assert last.id in Roots(ts);
      ReachableChild(g, root, parent, last.id);
      DrawnIsReachable(g, root, last);
      DrawnAreReachable(g, root, parent, ts[..|ts| - 1]);
    }
  }

  /** What is drawn is exactly what can be reached from the root through allowed components. */
  ghost predicate DrawsTheReachable(g: Graph, root: Id) {
    var (out, _) := One(g, root, 1, {});
    out.Some? && forall x :: x in Ids(out.value) <==> Reachable(g, root, x)
  }

  /** With at most sixteen components the depth limit never bites, cycles or not. */
  lemma DrawsExactlyTheReachable(g: Graph, root: Id)
    requires g.Shows(root) && |g.byId| <= MAX_DEPTH
    ensures DrawsTheReachable(g, root)
  {
    OneIsClosed(g, root, 1, {});
    OneIsSound(g, root, 1, {});
    var (out, after) := One(g, root, 1, {});
    assert Path(g, [root]);
    assert Reachable(g, root, root) by { assert [root][0] == root && [root][|[root]| - 1] == root; }
    DrawnIsReachable(g, root, out.value);
    forall x | Reachable(g, root, x) ensures x in Ids(out.value) {
      var path :| Path(g, path) && path[0] == root && path[|path| - 1] == x;
      PathStaysInside(g, path, after);
    }
  }

  // ---- with more than sixteen, a reachable component can be left out ----

  /** The `k`th id of the example, short enough to be used for the first 256. */
  function Nth(k: nat): Id {
    if k <= MAX_ID_LENGTH then seq(k, _ => 'a') else seq(k - MAX_ID_LENGTH, _ => 'b')
  }

  lemma NthIsInjective(i: nat, j: nat)
    requires i > 0 && j > 0 && Nth(i) == Nth(j)
    ensures i == j
  {
    assert Nth(i)[0] == Nth(j)[0] && |Nth(i)| == |Nth(j)|;
  }

  /** A chain of seventeen whose first component also lists the sixteenth as a child. */
  ghost predicate Lasso(g: Graph) {
    && (forall k: nat :: 1 <= k <= 17 ==> g.Shows(Nth(k)))
    && g.Children(Nth(1)) == [Nth(2), Nth(16)]
    && (forall k: nat :: 2 <= k <= 16 ==> g.Children(Nth(k)) == [Nth(k + 1)])
  }

  lemma ManyOfOne(g: Graph, id: Id, depth: nat, seen: set<Id>)
    requires depth <= MAX_DEPTH + 1
    ensures Many(g, [id], depth, seen).1 == One(g, id, depth, seen).1
  {
    assert [id][..0] == [];
    assert Many(g, [], depth, seen) == ([], seen);
  }

  lemma {:induction false} ChainStopsShort(g: Graph, k: nat, seen: set<Id>)
    requires Lasso(g) && 2 <= k <= 16 && Nth(17) !in seen
    requires forall j: nat :: k <= j <= 16 ==> Nth(j) !in seen
    ensures Nth(17) !in One(g, Nth(k), k, seen).1 && Nth(16) in One(g, Nth(k), k, seen).1
    decreases 16 - k
  {
    var marked := seen + {Nth(k)};
    assert g.Shows(Nth(k)) && g.Children(Nth(k)) == [Nth(k + 1)];
    ManyOfOne(g, Nth(k + 1), k + 1, marked);
    assert Nth(17) != Nth(k) by { if Nth(17) == Nth(k) { NthIsInjective(17, k); } }
    if k < 16 {
      forall j: nat | k + 1 <= j <= 16 ensures Nth(j) !in marked {
        if Nth(j) == Nth(k) { NthIsInjective(j, k); }
      }
      ChainStopsShort(g, k + 1, marked);
    }
  }

  /** The last component is two steps from the root and yet it is not drawn. */
  lemma DeepFirstVisitHidesAChild(g: Graph)
    requires Lasso(g)
    ensures Reachable(g, Nth(1), Nth(17))
    ensures var (out, _) := One(g, Nth(1), 1, {}); out.Some? && Nth(17) !in Ids(out.value)
    ensures !DrawsTheReachable(g, Nth(1))
  {
    var path := [Nth(1), Nth(16), Nth(17)];
    assert g.Children(Nth(16)) == [Nth(16 + 1)];
    assert Path(g, path) && path[0] == Nth(1) && path[|path| - 1] == Nth(17);
    forall j: nat | 2 <= j <= 17 ensures Nth(j) !in {Nth(1)} {
      if Nth(j) == Nth(1) { NthIsInjective(j, 1); }
    }
    ChainStopsShort(g, 2, {Nth(1)});
    ManyOfOne(g, Nth(2), 2, {Nth(1)});
    assert [Nth(2), Nth(16)][..1] == [Nth(2)];
    var mid := Many(g, [Nth(2)], 2, {Nth(1)}).1;
    assert One(g, Nth(16), 2, mid).1 == mid;
    assert Many(g, g.Children(Nth(1)), 2, {Nth(1)}).1 == mid;
    assert {} + {Nth(1)} == {Nth(1)};
    OneIsSound(g, Nth(1), 1, {});
  }

  function LassoKids(k: nat): seq<Id> {
    if k == 1 then [Nth(2), Nth(16)] else if 2 <= k <= 16 then [Nth(k + 1)] else []
  }

  /** The chain of seventeen, and beyond it components with no links at all. */
  function Chain(n: nat): map<Id, Component> {
    if n == 0 then map[] else Chain(n - 1)[Nth(n) := Component(Nth(n), "Text", LassoKids(n))]
  }

  lemma {:induction false} NotInChain(n: nat, k: nat)
    requires k > n
    ensures Nth(k) !in Chain(n)
  {
    if n > 0 {
      NotInChain(n - 1, k);
      if Nth(n) == Nth(k) { NthIsInjective(n, k); }
    }
  }

  lemma {:induction false} ChainSize(n: nat)
    ensures |Chain(n)| == n
  {
    if n > 0 {
      ChainSize(n - 1);
      NotInChain(n - 1, n);
      NewKeySize(Chain(n - 1), Nth(n), Component(Nth(n), "Text", LassoKids(n)));
    }
  }

  lemma {:induction false} ChainHas(n: nat, k: nat)
    requires 1 <= k <= n
    ensures Nth(k) in Chain(n) && Chain(n)[Nth(k)] == Component(Nth(k), "Text", LassoKids(k))
  {
    if k < n {
      ChainHas(n - 1, k);
      if Nth(n) == Nth(k) { NthIsInjective(n, k); }
    }
  }

  ghost function ChainGraph(n: nat): Graph {
    Graph(Chain(n), {"Text"})
  }

  lemma ChainAt(n: nat, k: nat)
    requires 1 <= k <= n
    ensures ChainGraph(n).Shows(Nth(k)) && ChainGraph(n).Children(Nth(k)) == LassoKids(k)
  {
    ChainHas(n, k);
  }

  lemma ChainIsLasso(n: nat)
    requires n > MAX_DEPTH
    ensures Lasso(ChainGraph(n))
  {
    var g := ChainGraph(n);
    forall k: nat | 1 <= k <= 17 ensures g.Shows(Nth(k)) && g.Children(Nth(k)) == LassoKids(k) {
      ChainAt(n, k);
    }
  }

  ghost predicate AlwaysDrawsTheReachable(n: nat) {
    forall g: Graph, root: Id :: |g.byId| == n && g.Shows(root) ==> DrawsTheReachable(g, root)
  }

  /**
    Every graph of `n` components with an allowed root is drawn as far as it can be reached
    if and only if `n` is at most sixteen.
  */
  lemma SixteenIsTheLimit(n: nat)
    ensures AlwaysDrawsTheReachable(n) <==> n <= MAX_DEPTH
  {
    if n <= MAX_DEPTH {
      forall g: Graph, root: Id | |g.byId| == n && g.Shows(root) ensures DrawsTheReachable(g, root) {
        DrawsExactlyTheReachable(g, root);
      }
    } else {
      var g := ChainGraph(n);
      ChainSize(n);
      ChainIsLasso(n);
      DeepFirstVisitHidesAChild(g);
      assert |g.byId| == n && g.Shows(Nth(1)) && !DrawsTheReachable(g, Nth(1));
    }
  }

  // ---- the components of a surface ----

  predicate Usable(item: Option<Component>) {
    item.Some? && item.value.id != "" && |item.value.id| <= MAX_ID_LENGTH
  }

  function ById(items: seq<Option<Component>>): map<Id, Component> {
    if items == [] then map[]
    else
      var table, last := ById(items[..|items| - 1]), items[|items| - 1];
      if Usable(last) then table[last.value.id := last.value] else table
  }

  /** `items[i]` is the last usable item with its id. */
  ghost predicate LastOfItsId(items: seq<Option<Component>>, i: nat)
    requires i < |items|
  {
    && Usable(items[i])
    && forall j :: i < j < |items| && Usable(items[j]) ==> items[j].value.id != items[i].value.id
  }

  lemma LastInFront(items: seq<Option<Component>>, i: nat)
    requires i < |items| - 1 && Usable(items[i])
    ensures var n := |items| - 1;
            LastOfItsId(items, i)
            <==> LastOfItsId(items[..n], i) && !(Usable(items[n]) && items[n].value.id == items[i].value.id)
  {
  }

  /** `items[i]` is where the table has `c` under `id` from. */
  ghost predicate Holds(items: seq<Option<Component>>, i: nat, id: Id, c: Component)
    requires i < |items|
  {
    LastOfItsId(items, i) && items[i] == Some(c) && c.id == id
  }

  lemma {:induction false} ByIdKeepsTheLast(items: seq<Option<Component>>, id: Id, c: Component)
    ensures id in ById(items) && ById(items)[id] == c <==> exists i: nat :: i < |items| && Holds(items, i, id, c)
  {
    if items != [] {
      var n, front := |items| - 1, items[..|items| - 1];
      ByIdKeepsTheLast(front, id, c);
      if Usable(items[n]) && items[n].value.id == id {
        if items[n].value == c { assert Holds(items, n, id, c); }
        forall i: nat | i < n ensures !Holds(items, i, id, c) {
          if Usable(items[i]) { LastInFront(items, i); }
        }
      } else {
        forall i: nat | i < n ensures Holds(items, i, id, c) <==> Holds(front, i, id, c) {
          if Usable(items[i]) { LastInFront(items, i); }
        }
      }
    }
  }

  // ---- surfaces and their revisions ----

  /** `components` is absent when the field is no array; `revision` may be negative or fractional. */
  datatype Surface = Surface(id: string, revision: real, components: Option<seq<Option<Component>>>, root: Id)

  datatype Card = Card(id: string, revision: real, tree: Tree)

  function AllowedKinds(capabilities: set<string>): set<string> {
    if capabilities != {} then capabilities else FALLBACK_KINDS
  }

  /** The id a surface goes by: its own, without the white space around it. */
  function Key(s: Surface): string {
    Strip(Script, s.id)
  }

  /** Surfaces whose ids differ only in outer white space are one surface. */
  lemma PaddedIdIsTheSame(s: Surface, before: string, after: string, revisions: map<string, real>, kinds: set<string>)
    requires AllSpace(Script, before) && AllSpace(Script, after)
    ensures var padded := s.(id := before + s.id + after);
            && Key(padded) == Key(s)
            && (Accepts(revisions, padded, kinds) <==> Accepts(revisions, s, kinds))
            && (Drawing(s, kinds).Some? ==>
                  Drawing(padded, kinds) == Drawing(s, kinds) && Stored(padded) == Stored(s))
  {
    StripOfPadded(Script, before, s.id, after);
  }

  predicate WellFormed(s: Surface) {
    Key(s) != "" && |Key(s)| <= MAX_ID_LENGTH && s.components.Some? && |s.components.value| <= MAX_COMPONENTS
  }

  /** The tree a surface draws, if its shape allows it to be drawn at all. */
  function Drawing(s: Surface, capabilities: set<string>): Option<Tree> {
    if !WellFormed(s) then None
    else One(Graph(ById(s.components.value), AllowedKinds(capabilities)), s.root, 1, {}).0
  }

  function Revision(s: Surface): real {
    if s.revision < 0.0 then 0.0 else s.revision
  }

  function Stored(s: Surface): real {
    if Revision(s) == 0.0 then 1.0 else Revision(s)
  }

  function Previous(revisions: map<string, real>, id: string): real {
    if id in revisions then revisions[id] else 0.0
  }

  predicate Accepts(revisions: map<string, real>, s: Surface, capabilities: set<string>) {
    Drawing(s, capabilities).Some? && (Revision(s) == 0.0 || Previous(revisions, Key(s)) < Revision(s))
  }

  function Without(cards: seq<Card>, id: string): seq<Card> {
    if cards == [] then []
    else if cards[0].id == id then cards[1..]
    else [cards[0]] + Without(cards[1..], id)
  }

  function Placed(cards: seq<Card>, card: Card, prepend: bool): seq<Card> {
    var rest := Without(cards, card.id);
    if prepend then [card] + rest else rest + [card]
  }

  class Renderer {
    var capabilities: set<string>
    var revisions: map<string, real>
    var cards: seq<Card>

    constructor ()
      ensures capabilities == {} && revisions == map[] && cards == []
    {
      capabilities, revisions, cards := {}, map[], [];
    }

    method SetCapabilities(kinds: seq<string>)
      modifies this`capabilities
      ensures capabilities == set k | k in kinds
    {
      capabilities := set k | k in kinds;
    }

    method Reset()
      modifies this`revisions
      ensures revisions == map[]
    {
      revisions := map[];
    }

    method Table(items: seq<Option<Component>>) returns (table: map<Id, Component>)
      ensures table == ById(items)
    {
      table := map[];
      for i := 0 to |items|
        invariant table == ById(items[..i])
      {
        assert items[..i + 1][..i] == items[..i];
        if Usable(items[i]) { table := table[items[i].value.id := items[i].value]; }
      }
      assert items[..|items|] == items;
    }

    method Render(s: Surface, prepend: bool) returns (shown: bool)
      modifies this
      ensures capabilities == old(capabilities)
      ensures shown == Accepts(old(revisions), s, capabilities)
      ensures !shown ==> revisions == old(revisions) && cards == old(cards)
      ensures shown ==> revisions == old(revisions)[Key(s) := Stored(s)]
      ensures shown ==> cards == Placed(old(cards), Card(Key(s), Stored(s), Drawing(s, capabilities).value), prepend)
    {
      var id, revision := Key(s), Revision(s);
      if !WellFormed(s) { return false; }
      if revision != 0.0 && Previous(revisions, id) >= revision { return false; }
      var byId := Table(s.components.value);
      if s.root !in byId { return false; }
      var walk := new Walk(Graph(byId, AllowedKinds(capabilities)));
      var rendered := walk.RenderComponent(s.root, 1);
      if rendered.None? { return false; }
      cards := Placed(cards, Card(id, Stored(s), rendered.value), prepend);
      revisions := revisions[id := Stored(s)];
      return true;
    }
  }

  // ---- runs ----

  datatype Event = Draw(s: Surface, capabilities: set<string>, prepend: bool) | Clear

  function RevisionsAfter(h: seq<Event>): map<string, real> {
    if h == [] then map[]
    else
      var before := RevisionsAfter(h[..|h| - 1]);
      match h[|h| - 1]
      case Clear => map[]
      case Draw(s, capabilities, _) => if Accepts(before, s, capabilities) then before[Key(s) := Stored(s)] else before
  }

  predicate Drawn(h: seq<Event>, i: nat)
    requires i < |h|
  {
    h[i].Draw? && Accepts(RevisionsAfter(h[..i]), h[i].s, h[i].capabilities)
  }

  /** Surface `id` is drawn at step `i` of the run. */
  predicate DrawnFor(h: seq<Event>, i: nat, id: string)
    requires i < |h|
  {
    Drawn(h, i) && Key(h[i].s) == id
  }

  /** Nothing from step `i` on, up to `k`, draws the surface or clears. */
  ghost predicate Untouched(h: seq<Event>, i: nat, k: nat, id: string)
    requires i <= k <= |h|
  {
    forall j: nat :: i <= j < k ==> h[j] != Clear && !DrawnFor(h, j, id)
  }

  /** Step `i` draws the surface `id` and nothing later up to `k` draws it again or clears. */
  ghost predicate Latest(h: seq<Event>, i: nat, k: nat, id: string)
    requires i < k <= |h|
  {
    DrawnFor(h, i, id) && Untouched(h, i + 1, k, id)
  }

  /** One more event changes what is stored for a surface when it draws it, or clears everything. */
  lemma AfterOneMore(h: seq<Event>, k: nat, id: string)
    requires 0 < k <= |h|
    ensures DrawnFor(h, k - 1, id) ==> Previous(RevisionsAfter(h[..k]), id) == Stored(h[k - 1].s)
    ensures h[k - 1] != Clear && !DrawnFor(h, k - 1, id)
        ==> Previous(RevisionsAfter(h[..k]), id) == Previous(RevisionsAfter(h[..k - 1]), id)
  {
    assert h[..k][..k - 1] == h[..k - 1];
  }

  lemma {:induction false} StoredStays(h: seq<Event>, i: nat, k: nat, id: string)
    requires i <= k <= |h| && Untouched(h, i, k, id)
    ensures Previous(RevisionsAfter(h[..k]), id) == Previous(RevisionsAfter(h[..i]), id)
  {
    if i < k {
      StoredStays(h, i, k - 1, id);
      AfterOneMore(h, k, id);
    }
  }

  lemma StoredIsLatest(h: seq<Event>, i: nat, k: nat, id: string)
    requires i < k <= |h| && Latest(h, i, k, id)
    ensures Previous(RevisionsAfter(h[..k]), id) == Stored(h[i].s)
  {
    StoredStays(h, i + 1, k, id);
    AfterOneMore(h, i + 1, id);
  }

  /**
    Of two consecutive draws of a surface the second has the larger revision exactly when
    its own revision is positive: revision zero is always let through.
  */
  lemma NextIsNewerWhen(h: seq<Event>, i: nat, j: nat, id: string)
    requires i < j < |h| && Latest(h, i, j, id) && DrawnFor(h, j, id)
    ensures Revision(h[i].s) < Revision(h[j].s) <==> h[j].s.revision > 0.0
  {
    StoredIsLatest(h, i, j, id);
  }

  /** With positive revisions, the revisions drawn of one surface strictly increase. */
  lemma {:induction false} PositiveRevisionsIncrease(h: seq<Event>, i: nat, j: nat, id: string)
    requires i < j < |h| && DrawnFor(h, i, id) && DrawnFor(h, j, id)
    requires forall k: nat :: i < k <= j ==> h[k] != Clear && (DrawnFor(h, k, id) ==> h[k].s.revision > 0.0)
    ensures h[i].s.revision < h[j].s.revision
    decreases j - i
  {
    if Latest(h, i, j, id) {
      NextIsNewerWhen(h, i, j, id);
    } else {
      var k: nat :| i < k < j && DrawnFor(h, k, id);
      PositiveRevisionsIncrease(h, i, k, id);
      PositiveRevisionsIncrease(h, k, j, id);
    }
  }

  function Simple(revision: real): Surface {
    Surface("panel", revision, Some([Some(Component("root", "Text", []))]), "root")
  }

  /** A draw of revision zero in between lets a stale revision replace a newer one. */
  lemma RevisionZeroForgets()
    ensures var h := [Draw(Simple(5.0), {}, false), Draw(Simple(0.0), {}, false), Draw(Simple(2.0), {}, false)];
            Drawn(h, 0) && Drawn(h, 1) && Drawn(h, 2)
  {
    var h := [Draw(Simple(5.0), {}, false), Draw(Simple(0.0), {}, false), Draw(Simple(2.0), {}, false)];
    assert h[..0] == [] && h[..1][..0] == [] && h[..2][..1] == h[..1];
    assert RevisionsAfter([]) == map[];
    assert RevisionsAfter(h[..1]) == map["panel" := 5.0];
    assert RevisionsAfter(h[..2]) == map["panel" := 1.0];
  }

  // ---- the cards on screen ----

  function CardsAfter(h: seq<Event>): seq<Card> {
    if h == [] then []
    else
      var n := |h| - 1;
      var before := CardsAfter(h[..n]);
      if Drawn(h, n) then
        Placed(before, Card(Key(h[n].s), Stored(h[n].s), Drawing(h[n].s, h[n].capabilities).value), h[n].prepend)
      else before
  }

  ghost predicate OnePerSurface(cards: seq<Card>) {
    forall i, j :: 0 <= i < j < |cards| ==> cards[i].id != cards[j].id
  }

  lemma TailIsUnique(cards: seq<Card>)
    requires OnePerSurface(cards) && cards != []
    ensures OnePerSurface(cards[1..]) && forall c :: c in cards[1..] ==> c.id != cards[0].id
  {
    forall c | c in cards[1..] ensures c.id != cards[0].id {
      var k :| 0 <= k < |cards| - 1 && cards[1..][k] == c;
      assert cards[k + 1] == c;
    }
  }

  lemma HeadJoins(head: Card, tail: seq<Card>)
    requires OnePerSurface(tail) && forall c :: c in tail ==> c.id != head.id
    ensures OnePerSurface([head] + tail)
  {
    forall k | 0 <= k < |tail| ensures tail[k].id != head.id {
      assert tail[k] in tail;
    }
  }

  lemma {:induction false} WithoutFacts(cards: seq<Card>, id: string)
    requires OnePerSurface(cards)
    ensures OnePerSurface(Without(cards, id))
    ensures forall c :: c in Without(cards, id) <==> c in cards && c.id != id
  {
    if cards != [] {
      var tail := cards[1..];
      assert cards == [cards[0]] + tail;
      TailIsUnique(cards);
      if cards[0].id != id {
        WithoutFacts(tail, id);
        HeadJoins(cards[0], Without(tail, id));
      }
    }
  }

  lemma PlacedFacts(cards: seq<Card>, card: Card, prepend: bool)
    requires OnePerSurface(cards)
    ensures OnePerSurface(Placed(cards, card, prepend))
    ensures forall c :: c in Placed(cards, card, prepend) <==> c == card || (c in cards && c.id != card.id)
  {
    var rest := Without(cards, card.id);
    WithoutFacts(cards, card.id);
    assert forall k :: 0 <= k < |rest| ==> rest[k] in rest;
  }

  /** Step `i` is the last of the run to draw its surface. */
  ghost predicate LastDraw(h: seq<Event>, i: nat)
    requires i < |h|
  {
    Drawn(h, i) && forall j: nat :: i < j < |h| ==> !DrawnFor(h, j, Key(h[i].s))
  }

  function CardOf(h: seq<Event>, i: nat): Card
    requires i < |h| && Drawn(h, i)
  {
    Card(Key(h[i].s), Stored(h[i].s), Drawing(h[i].s, h[i].capabilities).value)
  }

  lemma DrawnPrefix(h: seq<Event>, i: nat)
    requires i < |h| - 1
    ensures Drawn(h, i) <==> Drawn(h[..|h| - 1], i)
  {
    assert h[..|h| - 1][..i] == h[..i];
  }

  lemma LastDrawStep(h: seq<Event>, i: nat)
    requires i < |h| - 1
    ensures LastDraw(h, i) <==> LastDraw(h[..|h| - 1], i) && !DrawnFor(h, |h| - 1, Key(h[i].s))
  {
    var front := h[..|h| - 1];
    DrawnPrefix(h, i);
    if Drawn(h, i) {
      forall j: nat | i < j < |h| - 1 ensures DrawnFor(h, j, Key(h[i].s)) <==> DrawnFor(front, j, Key(front[i].s)) {
        DrawnPrefix(h, j);
      }
    }
  }

  /** Step `i` is the last to draw its surface, and drew `c`. */
  ghost predicate DrawnAs(h: seq<Event>, i: nat, c: Card)
    requires i < |h|
  {
    LastDraw(h, i) && CardOf(h, i) == c
  }

  /** `c` is what the run drew last of its surface. */
  ghost predicate DrawnLast(h: seq<Event>, c: Card) {
    exists i: nat :: i < |h| && DrawnAs(h, i, c)
  }

  lemma DrawnAsStep(h: seq<Event>, i: nat, c: Card)
    requires i < |h| - 1
    ensures DrawnAs(h, i, c) <==> DrawnAs(h[..|h| - 1], i, c) && !DrawnFor(h, |h| - 1, c.id)
  {
    LastDrawStep(h, i);
    DrawnPrefix(h, i);
  }

  lemma DrawnAsNow(h: seq<Event>, c: Card)
    requires h != []
    ensures DrawnAs(h, |h| - 1, c) <==> Drawn(h, |h| - 1) && CardOf(h, |h| - 1) == c
  {
  }

  lemma DrawnLastStep(h: seq<Event>, c: Card)
    requires h != []
    ensures var n := |h| - 1;
            DrawnLast(h, c)
            <==> (Drawn(h, n) && c == CardOf(h, n)) || (DrawnLast(h[..n], c) && !DrawnFor(h, n, c.id))
  {
    DrawnAsNow(h, c);
    DrawnLastSplit(h, c);
  }

  lemma DrawnLastSplit(h: seq<Event>, c: Card)
    requires h != []
    ensures var n := |h| - 1;
            DrawnLast(h, c) <==> DrawnAs(h, n, c) || (DrawnLast(h[..n], c) && !DrawnFor(h, n, c.id))
  {
    var n := |h| - 1;
    if DrawnLast(h, c) {
      var i: nat :| i < |h| && DrawnAs(h, i, c);
      if i < n { DrawnAsStep(h, i, c); }
    }
    if DrawnLast(h[..n], c) && !DrawnFor(h, n, c.id) {
      var i: nat :| i < n && DrawnAs(h[..n], i, c);
      DrawnAsStep(h, i, c);
    }
  }

  /** There is one card for each surface drawn, and it shows what was drawn of it last. */
  lemma {:induction false} CardsShowTheLastDraw(h: seq<Event>)
    ensures OnePerSurface(CardsAfter(h))
    ensures forall c :: c in CardsAfter(h) <==> DrawnLast(h, c)
  {
    if h != [] {
      var n := |h| - 1;
      CardsShowTheLastDraw(h[..n]);
      if Drawn(h, n) { PlacedFacts(CardsAfter(h[..n]), CardOf(h, n), h[n].prepend); }
      forall c ensures c in CardsAfter(h) <==> DrawnLast(h, c) { DrawnLastStep(h, c); }
    }
  }

  // ---- what it takes to be drawn ----

  /** A kind may be drawn: one of those announced, or of the built-in ones while none is announced. */
  ghost predicate Announced(capabilities: set<string>, kind: string) {
    (capabilities != {} && kind in capabilities) || (capabilities == {} && kind in FALLBACK_KINDS)
  }

  /** The last usable component with the id is of a kind that may be drawn. */
  ghost predicate MayShow(items: seq<Option<Component>>, id: Id, capabilities: set<string>) {
    exists i: nat, c :: i < |items| && Holds(items, i, id, c) && Announced(capabilities, c.kind)
  }

  ghost predicate Drawable(s: Surface, capabilities: set<string>) {
    && s.components.Some? && |s.components.value| <= 256
    && 0 < |Strip(Script, s.id)| <= 128
    && MayShow(s.components.value, s.root, capabilities)
  }

  lemma ShowsExactly(items: seq<Option<Component>>, id: Id, capabilities: set<string>)
    ensures Graph(ById(items), AllowedKinds(capabilities)).Shows(id) <==> MayShow(items, id, capabilities)
  {
    var table := ById(items);
    if id in table { ByIdKeepsTheLast(items, id, table[id]); }
    if i: nat, c :| i < |items| && Holds(items, i, id, c) && Announced(capabilities, c.kind) {
      ByIdKeepsTheLast(items, id, c);
    }
  }

  lemma {:induction false} DeclaredIdsShow(g: Graph, t: Tree, x: Id)
    requires Declared(g, t) && x in Ids(t)
    ensures g.Shows(x)
  {
    if x != t.id { DeclaredIdsOfShow(g, t.kids, x); }
  }

  lemma {:induction false} DeclaredIdsOfShow(g: Graph, ts: seq<Tree>, x: Id)
    requires DeclaredOf(g, ts) && x in IdsOf(ts)
    ensures g.Shows(x)
  {
    var front, last := ts[..|ts| - 1], ts[|ts| - 1];
    if x in IdsOf(front) { DeclaredIdsOfShow(g, front, x); } else { DeclaredIdsShow(g, last, x); }
  }

  /**
    A surface can be drawn exactly when its limits are met and its root may be shown, and then
    only components of announced kinds are drawn: the announced kinds replace the built-in ones.
  */
  lemma DrawingExactlyWhen(s: Surface, capabilities: set<string>)
    ensures Drawing(s, capabilities).Some? <==> Drawable(s, capabilities)
    ensures Drawing(s, capabilities).Some? ==>
              forall x :: x in Ids(Drawing(s, capabilities).value) ==> MayShow(s.components.value, x, capabilities)
  {
    if WellFormed(s) {
      var items := s.components.value;
      var g := Graph(ById(items), AllowedKinds(capabilities));
      ShowsExactly(items, s.root, capabilities);
      OneIsSound(g, s.root, 1, {});
      var drawing := Drawing(s, capabilities);
      if drawing.Some? {
        forall x | x in Ids(drawing.value) ensures MayShow(items, x, capabilities) {
          DeclaredIdsShow(g, drawing.value, x);
          ShowsExactly(items, x, capabilities);
        }
      }
    }
  }

  /** A revision is stored only for a surface drawn since the renderer was last cleared. */
  lemma {:induction false} StoredWasDrawn(h: seq<Event>, k: nat, id: string)
    requires k <= |h|
    ensures Previous(RevisionsAfter(h[..k]), id) != 0.0 ==> exists i: nat :: i < k && Latest(h, i, k, id)
  {
    if k > 0 {
      assert h[..k][..k - 1] == h[..k - 1];
      AfterOneMore(h, k, id);
      if DrawnFor(h, k - 1, id) {
        assert Latest(h, k - 1, k, id);
      } else if h[k - 1] != Clear {
        var n := k - 1;
        StoredWasDrawn(h, n, id);
        if i: nat :| i < n && Latest(h, i, n, id) { assert Latest(h, i, k, id); }
      }
    }
  }

  lemma LatestIsUnique(h: seq<Event>, i: nat, j: nat, k: nat, id: string)
    requires i < k <= |h| && j < k && Latest(h, i, k, id) && Latest(h, j, k, id)
    ensures i == j
  {
  }

  /** Draw `i` of a surface showed a revision below `revision`; one that named none counts as the first. */
  ghost predicate Older(h: seq<Event>, i: nat, revision: real)
    requires i < |h| && h[i].Draw?
  {
    (if h[i].s.revision > 0.0 then h[i].s.revision else 1.0) < revision
  }

  /**
    Whether a surface is drawn, from the history alone: it can be drawn, and it has no positive
    revision or one above that of its latest draw since the renderer was last cleared.
  */
  lemma DrawnExactlyWhen(h: seq<Event>, k: nat)
    requires k < |h| && h[k].Draw?
    ensures Drawn(h, k)
        <==> && Drawable(h[k].s, h[k].capabilities)
             && (h[k].s.revision <= 0.0
                 || forall i: nat :: i < k && Latest(h, i, k, Key(h[k].s)) ==> Older(h, i, h[k].s.revision))
  {
    var s := h[k].s;
    DrawingExactlyWhen(s, h[k].capabilities);
    if i: nat :| i < k && Latest(h, i, k, Key(s)) {
      StoredIsLatest(h, i, k, Key(s));
      forall j: nat | j < k && Latest(h, j, k, Key(s)) ensures j == i {
        LatestIsUnique(h, i, j, k, Key(s));
      }
    } else {
      StoredWasDrawn(h, k, Key(s));
    }
  }

  // ---- where the cards stand ----

  /** Card `c` stands above card `d`. */
  ghost predicate Above(cards: seq<Card>, c: Card, d: Card) {
    exists i, j :: 0 <= i < j < |cards| && cards[i] == c && cards[j] == d
  }

  lemma AboveInCons(head: Card, tail: seq<Card>, c: Card, d: Card)
    ensures Above([head] + tail, c, d) <==> (c == head && d in tail) || Above(tail, c, d)
  {
    var cards := [head] + tail;
    if i, j :| 0 <= i < j < |cards| && cards[i] == c && cards[j] == d {
      assert cards[j] == tail[j - 1];
      if i > 0 { assert cards[i] == tail[i - 1]; }
    }
    if c == head && d in tail {
      var j :| 0 <= j < |tail| && tail[j] == d;
      assert cards[0] == c && cards[j + 1] == d;
    }
    if i, j :| 0 <= i < j < |tail| && tail[i] == c && tail[j] == d {
      assert cards[i + 1] == c && cards[j + 1] == d;
    }
  }

  lemma AboveInSnoc(front: seq<Card>, last: Card, c: Card, d: Card)
    ensures Above(front + [last], c, d) <==> (d == last && c in front) || Above(front, c, d)
  {
    var cards := front + [last];
    if i, j :| 0 <= i < j < |cards| && cards[i] == c && cards[j] == d {
      assert cards[i] == front[i];
      if j < |front| { assert cards[j] == front[j]; }
    }
    if d == last && c in front {
      var i :| 0 <= i < |front| && front[i] == c;
      assert cards[i] == c && cards[|front|] == d;
    }
    if i, j :| 0 <= i < j < |front| && front[i] == c && front[j] == d {
      assert cards[i] == c && cards[j] == d;
    }
  }

  lemma {:induction false} WithoutKeepsOrder(cards: seq<Card>, id: string, c: Card, d: Card)
    requires OnePerSurface(cards) && c.id != id && d.id != id
    ensures Above(Without(cards, id), c, d) <==> Above(cards, c, d)
  {
    if cards != [] {
      var tail := cards[1..];
      assert cards == [cards[0]] + tail;
      TailIsUnique(cards);
      AboveInCons(cards[0], tail, c, d);
      if cards[0].id != id {
        WithoutKeepsOrder(tail, id, c, d);
        WithoutFacts(tail, id);
        AboveInCons(cards[0], Without(tail, id), c, d);
      }
    }
  }

  lemma PlacedKeepsOrder(cards: seq<Card>, card: Card, prepend: bool, c: Card, d: Card)
    requires OnePerSurface(cards) && c.id != card.id && d.id != card.id
    ensures Above(Placed(cards, card, prepend), c, d) <==> Above(cards, c, d)
  {
    var rest := Without(cards, card.id);
    WithoutKeepsOrder(cards, card.id, c, d);
    AboveInCons(card, rest, c, d);
    AboveInSnoc(rest, card, c, d);
  }

  lemma NotAboveUnlessIn(cards: seq<Card>, c: Card, d: Card)
    ensures Above(cards, c, d) ==> c in cards && d in cards
  {
  }

  lemma PlacedStands(cards: seq<Card>, card: Card, prepend: bool, c: Card)
    requires OnePerSurface(cards) && c in cards && c.id != card.id
    ensures Above(Placed(cards, card, prepend), card, c) <==> prepend
    ensures Above(Placed(cards, card, prepend), c, card) <==> !prepend
  {
    var rest := Without(cards, card.id);
    WithoutFacts(cards, card.id);
    AboveInCons(card, rest, card, c);
    AboveInCons(card, rest, c, card);
    AboveInSnoc(rest, card, card, c);
    AboveInSnoc(rest, card, c, card);
    NotAboveUnlessIn(rest, card, c);
    NotAboveUnlessIn(rest, c, card);
  }

  /**
    Of two cards on screen the one drawn later stands above the other exactly when it was drawn
    to be prepended; drawing other surfaces moves neither.
  */
  lemma {:induction false} CardsStandAsDrawn(h: seq<Event>, i: nat, j: nat, c: Card, d: Card)
    requires i < j < |h| && DrawnAs(h, i, c) && DrawnAs(h, j, d)
    ensures Above(CardsAfter(h), d, c) <==> h[j].prepend
    ensures Above(CardsAfter(h), c, d) <==> !h[j].prepend
  {
    var n := |h| - 1;
    var front := h[..n];
    CardsShowTheLastDraw(front);
    DrawnAsStep(h, i, c);
    assert DrawnFor(h, j, d.id) && !DrawnFor(h, j, c.id);
    if j == n {
      assert DrawnLast(front, c);
      PlacedStands(CardsAfter(front), d, h[n].prepend, c);
    } else {
      DrawnAsStep(h, j, d);
      CardsStandAsDrawn(front, i, j, c, d);
      if Drawn(h, n) {
        PlacedKeepsOrder(CardsAfter(front), CardOf(h, n), h[n].prepend, c, d);
        PlacedKeepsOrder(CardsAfter(front), CardOf(h, n), h[n].prepend, d, c);
      }
    }
  }
}

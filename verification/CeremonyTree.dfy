/** The client-side hierarchy assembled from an unordered ceremony listing. */
module CeremonyTree {
  import opened Base
  import opened Ordering
  import opened CeremonyLineage

  datatype Node = Node(instance: Instance, children: seq<Node>)

  datatype TreeError =
    | EmptyId
    | RepeatedId(id: string)
    | CycleAt(id: string)
    | MissingNode(id: string)
    | DetachedCycle

  // ----------------------------------------------------------------- forests

  function NodeIds(nodes: seq<Node>): seq<string> {
    seq(|nodes|, i requires 0 <= i < |nodes| => nodes[i].instance.id)
  }

  ghost predicate IsTree(m: Index, node: Node) {
    && node.instance.id in m
    && m[node.instance.id] == node.instance
    && IsSiblings(m, node.instance.id, NodeIds(node.children))
    && forall i :: 0 <= i < |node.children| ==> IsTree(m, node.children[i])
  }

  ghost predicate IsForest(m: Index, roots: seq<Node>) {
    && IsRoots(m, NodeIds(roots))
    && forall i :: 0 <= i < |roots| ==> IsTree(m, roots[i])
  }

  /** Depth-first listing of a tree and of a forest. */
  function Preorder(node: Node): (s: seq<Instance>)
    decreases node, 1
  {
    [node.instance] + PreorderAll(node.children)
  }

  function PreorderAll(nodes: seq<Node>): (s: seq<Instance>)
    decreases nodes, 0
  {
    if nodes == [] then [] else Preorder(nodes[0]) + PreorderAll(nodes[1..])
  }

  /** A tree is determined by its root id, a forest by the listing. */
  lemma {:induction false} TreeIsUnique(m: Index, a: Node, b: Node)
    requires IsTree(m, a) && IsTree(m, b) && a.instance.id == b.instance.id
    ensures a == b
    decreases a
  {
    assert NodeIds(a.children) == NodeIds(b.children) by {
      SiblingOrderIsTotal(m);
      SortedByElements(SiblingOrder(m), NodeIds(a.children), NodeIds(b.children));
    }
    assert |NodeIds(a.children)| == |a.children| && |NodeIds(b.children)| == |b.children|;
    forall i | 0 <= i < |a.children| ensures a.children[i] == b.children[i] {
      assert NodeIds(a.children)[i] == NodeIds(b.children)[i];
      TreeIsUnique(m, a.children[i], b.children[i]);
    }
  }

  lemma {:induction false} RootsAreUnique(m: Index, s: seq<string>, t: seq<string>)
    requires IsRoots(m, s) && IsRoots(m, t)
    ensures s == t
  {
    SortedStringsByElements(s, t);
  }

  lemma {:induction false} ForestIsUnique(m: Index, a: seq<Node>, b: seq<Node>)
    requires IsForest(m, a) && IsForest(m, b)
    ensures a == b
  {
    RootsAreUnique(m, NodeIds(a), NodeIds(b));
    assert |NodeIds(a)| == |a| && |NodeIds(b)| == |b|;
    forall i | 0 <= i < |a| ensures a[i] == b[i] {
      assert NodeIds(a)[i] == NodeIds(b)[i];
      TreeIsUnique(m, a[i], b[i]);
    }
  }

  // -------------------------------------------------- what a forest contains

  ghost function TreeIds(node: Node): set<string> {
    set x | x in Preorder(node) :: x.id
  }

  ghost function ForestIds(nodes: seq<Node>): set<string> {
    set x | x in PreorderAll(nodes) :: x.id
  }

  lemma {:induction false} PreorderAllAt(nodes: seq<Node>, x: Instance)
    ensures x in PreorderAll(nodes) <==> exists i :: 0 <= i < |nodes| && x in Preorder(nodes[i])
  {
    if nodes != [] {
      PreorderAllAt(nodes[1..], x);
      if i :| 0 <= i < |nodes| && x in Preorder(nodes[i]) {
        assert i > 0 ==> nodes[1..][i - 1] == nodes[i];
      }
    }
  }

  lemma {:induction false} ForestIdsAt(nodes: seq<Node>, id: string)
    ensures id in ForestIds(nodes) <==> exists i :: 0 <= i < |nodes| && id in TreeIds(nodes[i])
  {
    if id in ForestIds(nodes) {
      var x :| x in PreorderAll(nodes) && x.id == id;
      PreorderAllAt(nodes, x);
    }
    if i :| 0 <= i < |nodes| && id in TreeIds(nodes[i]) {
      var x :| x in Preorder(nodes[i]) && x.id == id;
      PreorderAllAt(nodes, x);
    }
  }

  lemma {:induction false} TreeIdsAt(node: Node, id: string)
    ensures id in TreeIds(node) <==> id == node.instance.id || id in ForestIds(node.children)
  {
  }

  lemma {:induction false} ForestIdsAppend(nodes: seq<Node>, last: Node)
    ensures ForestIds(nodes + [last]) == ForestIds(nodes) + TreeIds(last)
  {
    forall id ensures id in ForestIds(nodes + [last]) <==> id in ForestIds(nodes) + TreeIds(last) {
      ForestIdsAt(nodes, id);
      ForestIdsAt(nodes + [last], id);
      if id in ForestIds(nodes) {
        var i :| 0 <= i < |nodes| && id in TreeIds(nodes[i]);
        assert (nodes + [last])[i] == nodes[i];
      }
      if id in TreeIds(last) {
        assert (nodes + [last])[|nodes|] == last;
      }
    }
  }

  /** Every node of a tree is an instance of the listing. */
  lemma {:induction false} TreeHoldsInstances(m: Index, node: Node, x: Instance)
    requires IsTree(m, node) && x in Preorder(node)
    ensures x.id in m && m[x.id] == x
    decreases node
  {
    if x != node.instance {
      PreorderAllAt(node.children, x);
      var i :| 0 <= i < |node.children| && x in Preorder(node.children[i]);
      TreeHoldsInstances(m, node.children[i], x);
    }
  }

  /** A tree holds only ids whose trail passes through its root. */
  lemma {:induction false} TreeIdsBelow(m: Index, node: Node, id: string)
    requires IsTree(m, node) && Rooted(m, node.instance.id) && id in TreeIds(node)
    ensures Rooted(m, id) && node.instance.id in Trail(m, id)
    ensures id != node.instance.id ==> |Trail(m, node.instance.id)| < |Trail(m, id)|
    decreases node
  {
    TreeIdsAt(node, id);
    if id != node.instance.id {
      ForestIdsAt(node.children, id);
      var i :| 0 <= i < |node.children| && id in TreeIds(node.children[i]);
      var child := node.children[i];
      assert NodeIds(node.children)[i] == child.instance.id;
      TrailStep(m, child.instance.id);
      TreeIdsBelow(m, child, id);
      var j :| 0 <= j < |Trail(m, id)| && Trail(m, id)[j] == child.instance.id;
      TrailPrefix(m, id, j);
      assert Trail(m, id)[j - 1] == Trail(m, child.instance.id)[j - 1] == node.instance.id;
    }
  }

  /** A tree is closed under the lineage: the children of its members are members. */
  lemma {:induction false} TreeIdsClosed(m: Index, node: Node, id: string)
    requires IsTree(m, node) && id in m && Parent(m, id).Some? && Parent(m, id).value in TreeIds(node)
    ensures id in TreeIds(node)
    decreases node
  {
    var p := Parent(m, id).value;
    TreeIdsAt(node, p);
    TreeIdsAt(node, id);
    ForestIdsAt(node.children, id);
    if p == node.instance.id {
      var i :| 0 <= i < |NodeIds(node.children)| && NodeIds(node.children)[i] == id;
      TreeIdsAt(node.children[i], id);
    } else {
      ForestIdsAt(node.children, p);
      var i :| 0 <= i < |node.children| && p in TreeIds(node.children[i]);
      TreeIdsClosed(m, node.children[i], id);
    }
  }

  /** A forest holds exactly the ids that reach a root. */
  lemma {:induction false} ForestHoldsRooted(m: Index, roots: seq<Node>, id: string)
    requires IsForest(m, roots) && Rooted(m, id)
    ensures id in ForestIds(roots)
    decreases |Trail(m, id)|
  {
    var k: nat :| RootedIn(m, id, k);
    TrailStep(m, id);
    ForestIdsAt(roots, id);
    match Parent(m, id)
    case None =>
      var i :| 0 <= i < |NodeIds(roots)| && NodeIds(roots)[i] == id;
      TreeIdsAt(roots[i], id);
    case Some(p) =>
      ForestHoldsRooted(m, roots, p);
      ForestIdsAt(roots, p);
      var i :| 0 <= i < |roots| && p in TreeIds(roots[i]);
      TreeIdsClosed(m, roots[i], id);
  }

  lemma {:induction false} ForestIdsAreRooted(m: Index, roots: seq<Node>, id: string)
    requires IsForest(m, roots) && id in ForestIds(roots)
    ensures Rooted(m, id)
  {
    ForestIdsAt(roots, id);
    var i :| 0 <= i < |roots| && id in TreeIds(roots[i]);
    assert NodeIds(roots)[i] == roots[i].instance.id;
    TrailStep(m, roots[i].instance.id);
    TreeIdsBelow(m, roots[i], id);
  }

  // -------------------------------------------- each instance appears once

  ghost predicate SameDepth(m: Index, nodes: seq<Node>, depth: nat) {
    && Distinct(NodeIds(nodes))
    && forall i :: 0 <= i < |nodes| ==>
         && IsTree(m, nodes[i])
         && Rooted(m, nodes[i].instance.id)
         && |Trail(m, nodes[i].instance.id)| == depth
  }

  lemma {:induction false} ChildrenShareDepth(m: Index, node: Node)
    requires IsTree(m, node) && Rooted(m, node.instance.id)
    ensures SameDepth(m, node.children, |Trail(m, node.instance.id)| + 1)
  {
    forall i | 0 <= i < |node.children|
      ensures Rooted(m, node.children[i].instance.id)
      ensures |Trail(m, node.children[i].instance.id)| == |Trail(m, node.instance.id)| + 1
    {
      assert NodeIds(node.children)[i] == node.children[i].instance.id;
      TrailStep(m, node.children[i].instance.id);
    }
  }

  lemma {:induction false} RootsShareDepth(m: Index, roots: seq<Node>)
    requires IsForest(m, roots)
    ensures SameDepth(m, roots, 1)
  {
    forall i | 0 <= i < |roots|
      ensures Rooted(m, roots[i].instance.id) && |Trail(m, roots[i].instance.id)| == 1
    {
      assert NodeIds(roots)[i] == roots[i].instance.id;
      TrailStep(m, roots[i].instance.id);
    }
  }

  /** Trees hanging at the same depth are disjoint. */
  lemma {:induction false} SiblingTreesDisjoint(m: Index, nodes: seq<Node>, depth: nat, i: nat, j: nat, id: string)
    requires SameDepth(m, nodes, depth) && i < |nodes| && j < |nodes|
    requires id in TreeIds(nodes[i]) && id in TreeIds(nodes[j])
    ensures i == j
  {
    TreeIdsBelow(m, nodes[i], id);
    TreeIdsBelow(m, nodes[j], id);
    SameDepthOnTrail(m, id, nodes[i].instance.id, nodes[j].instance.id);
    assert NodeIds(nodes)[i] == NodeIds(nodes)[j];
  }

  lemma {:induction false} TreeIsDistinct(m: Index, node: Node)
    requires IsTree(m, node) && Rooted(m, node.instance.id)
    ensures Distinct(Ids(Preorder(node)))
    decreases node, 1
  {
    ChildrenShareDepth(m, node);
    ForestIsDistinct(m, node.children, |Trail(m, node.instance.id)| + 1);
    RootIsNotBelow(m, node);
    assert Ids([node.instance]) == [node.instance.id];
    DistinctIdsConcat([node.instance], PreorderAll(node.children));
  }

  lemma {:induction false} RootIsNotBelow(m: Index, node: Node)
    requires IsTree(m, node) && Rooted(m, node.instance.id)
    requires SameDepth(m, node.children, |Trail(m, node.instance.id)| + 1)
    ensures forall y :: y in PreorderAll(node.children) ==> y.id != node.instance.id
  {
    forall y | y in PreorderAll(node.children) ensures y.id != node.instance.id {
      PreorderAllAt(node.children, y);
      var i :| 0 <= i < |node.children| && y in Preorder(node.children[i]);
      assert y.id in TreeIds(node.children[i]);
      TreeIdsBelow(m, node.children[i], y.id);
    }
  }

  lemma {:induction false} ForestIsDistinct(m: Index, nodes: seq<Node>, depth: nat)
    requires SameDepth(m, nodes, depth)
    ensures Distinct(Ids(PreorderAll(nodes)))
    decreases nodes, 0
  {
    if nodes != [] {
      var head, rest := nodes[0], nodes[1..];
      assert NodeIds(rest) == NodeIds(nodes)[1..];
      TreeIsDistinct(m, head);
      ForestIsDistinct(m, rest, depth);
      FirstTreeApart(m, nodes, depth);
      DistinctIdsConcat(Preorder(head), PreorderAll(rest));
    }
  }

  /** The first tree shares no id with the others. */
  lemma {:induction false} FirstTreeApart(m: Index, nodes: seq<Node>, depth: nat)
    requires SameDepth(m, nodes, depth) && nodes != []
    ensures forall x, y :: x in Preorder(nodes[0]) && y in PreorderAll(nodes[1..]) ==> x.id != y.id
  {
    forall x, y | x in Preorder(nodes[0]) && y in PreorderAll(nodes[1..]) ensures x.id != y.id {
      PreorderAllAt(nodes[1..], y);
      var i :| 0 <= i < |nodes[1..]| && y in Preorder(nodes[1..][i]);
      assert x.id in TreeIds(nodes[0]) && y.id in TreeIds(nodes[i + 1]);
      if x.id == y.id {
        SiblingTreesDisjoint(m, nodes, depth, 0, i + 1, x.id);
      }
    }
  }

  lemma {:induction false} DistinctIdsConcat(s: seq<Instance>, t: seq<Instance>)
    requires Distinct(Ids(s)) && Distinct(Ids(t))
    requires forall x, y :: x in s && y in t ==> x.id != y.id
    ensures Distinct(Ids(s + t))
  {
    assert Ids(s + t) == Ids(s) + Ids(t);
    forall i, j | 0 <= i < |s| && 0 <= j < |t| ensures Ids(s)[i] != Ids(t)[j] {
      assert s[i] in s && t[j] in t;
    }
  }

  /** Depth first, a forest lists every instance of the listing exactly once. */
  lemma {:induction false} ForestConservesInstances(instances: seq<Instance>, roots: seq<Node>)
    requires Clean(Ids(instances)) && Acyclic(Indexed(instances)) && IsForest(Indexed(instances), roots)
    ensures multiset(PreorderAll(roots)) == multiset(instances)
  {
    var m := Indexed(instances);
    var listed := PreorderAll(roots);
    RootsShareDepth(m, roots);
    ForestIsDistinct(m, roots, 1);
    DistinctIds(listed);
    DistinctIds(instances);
    forall x ensures x in listed <==> x in instances {
      if x in listed {
        PreorderAllAt(roots, x);
        var i :| 0 <= i < |roots| && x in Preorder(roots[i]);
        TreeHoldsInstances(m, roots[i], x);
      }
      if x in instances {
        IndexedHolds(instances, x);
        AcyclicIffRooted(m);
        ForestHoldsRooted(m, roots, x.id);
        var y :| y in listed && y.id == x.id;
        PreorderAllAt(roots, y);
        var i :| 0 <= i < |roots| && y in Preorder(roots[i]);
        TreeHoldsInstances(m, roots[i], y);
      }
    }
    SameElements(listed, instances);
  }

  lemma {:induction false} DistinctIds(s: seq<Instance>)
    requires Distinct(Ids(s))
    ensures Distinct(s)
  {
    forall i, j | 0 <= i < j < |s| ensures s[i] != s[j] {
      assert Ids(s)[i] != Ids(s)[j];
    }
  }

  // ------------------------------------------------------------ construction

  function KidsOf(children: map<string, seq<string>>, p: string): seq<string> {
    if p in children then children[p] else []
  }

  /** The child lists the builder recurses over: absent means no child in the listing. */
  ghost predicate IsChildIndex(m: Index, children: map<string, seq<string>>) {
    && children.Keys <= m.Keys
    && forall p :: p in m ==> IsSiblings(m, p, KidsOf(children, p))
  }

  /** The ids on the trail above `id`, which the recursion holds in `visiting`. */
  ghost function Above(m: Index, id: string): set<string>
    requires Rooted(m, id)
  {
    Elements(Trail(m, id)[..|Trail(m, id)| - 1])
  }

  /** The recursion has come down to `id` from a root. */
  ghost predicate Descends(m: Index, id: string, visiting: set<string>) {
    Rooted(m, id) && visiting == Above(m, id)
  }

  ghost function Elements(s: seq<string>): set<string> {
    set x | x in s
  }

  /**
   * Depth-first construction below `id`. A result is a tree over the listing whose ids are added to
   * `built`; when `visiting` holds exactly the ancestors of a rooted id, the in-recursion cycle check
   * never fires. `calls` are the ids the method was called with, itself first.
   */
  method BuildNode(id: string, byId: Index, children: map<string, seq<string>>,
                   visiting: set<string>, built: set<string>)
    returns (r: Result<Node, TreeError>, visiting': set<string>, built': set<string>, ghost calls: seq<string>)
    requires IsChildIndex(byId, children)
    ensures r.Ok? ==> id in byId && id !in visiting
    ensures r.Ok? ==> IsTree(byId, r.value) && r.value.instance.id == id
    ensures r.Ok? ==> visiting' == visiting && built' == built + TreeIds(r.value)
    ensures r.Ok? ==> calls == Ids(Preorder(r.value))
    ensures Descends(byId, id, visiting) ==> r.Ok?
    decreases byId.Keys - visiting
  {
    if id in visiting {
      NotAboveItself(byId, id, visiting);
      return Err(CycleAt(id)), visiting, built, [id];
    }
    visiting', built', calls := visiting + {id}, built, [id];
    var kids := KidsOf(children, id);
    var nested: seq<Node> := [];
    for i := 0 to |kids|
      invariant visiting' == visiting + {id}
      invariant Assembling(byId, kids[..i], nested, built, built', [id], calls)
    {
      AboveChild(byId, children, id, i, visiting);
      var child;
      ghost var below;
      child, visiting', built', below := BuildNode(kids[i], byId, children, visiting', built');
      if child.Err? {
        return child, visiting', built', calls + below;
      }
      AssembleNext(byId, kids, nested, child.value, i, built, calls, [id]);
      calls, nested := calls + below, nested + [child.value];
    }
    visiting' := visiting' - {id};
    built' := built' + {id};
    if id !in byId {
      return Err(MissingNode(id)), visiting', built', calls;
    }
    r := Ok(Node(byId[id], nested));
    AssembleTree(byId, children, id, nested);
    assert calls == Ids(Preorder(r.value)) by {
      IdsOfTree(r.value);
    }
  }

  lemma {:induction false} IdsConcat(s: seq<Instance>, t: seq<Instance>)
    ensures Ids(s + t) == Ids(s) + Ids(t)
  {
  }

  lemma {:induction false} IdsOfTree(node: Node)
    ensures Ids(Preorder(node)) == [node.instance.id] + Ids(PreorderAll(node.children))
  {
    IdsConcat([node.instance], PreorderAll(node.children));
    assert Ids([node.instance]) == [node.instance.id];
  }

  lemma {:induction false} PreorderAppend(nodes: seq<Node>, last: Node)
    ensures PreorderAll(nodes + [last]) == PreorderAll(nodes) + Preorder(last)
  {
    if nodes == [] {
      assert nodes + [last] == [last] && [last][1..] == [];
    } else {
      PreorderAppend(nodes[1..], last);
      assert (nodes + [last])[1..] == nodes[1..] + [last];
    }
  }

  lemma {:induction false} CallsNext(calls: seq<string>, before: seq<string>, nodes: seq<Node>, last: Node)
    requires calls == before + Ids(PreorderAll(nodes))
    ensures calls + Ids(Preorder(last)) == before + Ids(PreorderAll(nodes + [last]))
  {
    PreorderAppend(nodes, last);
    IdsConcat(PreorderAll(nodes), Preorder(last));
  }

  ghost predicate Assembled(m: Index, ids: seq<string>, nodes: seq<Node>) {
    NodeIds(nodes) == ids && forall j :: 0 <= j < |nodes| ==> IsTree(m, nodes[j])
  }

  /** The trees for `ids` so far, with what they add to `built` and to the calls. */
  ghost predicate Assembling(m: Index, ids: seq<string>, nodes: seq<Node>, built: set<string>, built': set<string>,
                             before: seq<string>, calls: seq<string>) {
    && Assembled(m, ids, nodes)
    && built' == built + ForestIds(nodes)
    && calls == before + Ids(PreorderAll(nodes))
  }

  lemma {:induction false} AssembleNext(m: Index, kids: seq<string>, nested: seq<Node>, child: Node, i: nat,
                                        built: set<string>, calls: seq<string>, before: seq<string>)
    requires i < |kids| && Assembled(m, kids[..i], nested) && calls == before + Ids(PreorderAll(nested))
    requires IsTree(m, child) && child.instance.id == kids[i]
    ensures Assembling(m, kids[..i + 1], nested + [child], built, built + ForestIds(nested) + TreeIds(child),
                       before, calls + Ids(Preorder(child)))
  {
    ForestIdsAppend(nested, child);
    CallsNext(calls, before, nested, child);
    NodeIdsAppend(nested, child);
    assert kids[..i + 1] == kids[..i] + [kids[i]];
  }

  lemma {:induction false} NodeIdsAppend(nodes: seq<Node>, last: Node)
    ensures NodeIds(nodes + [last]) == NodeIds(nodes) + [last.instance.id]
  {
  }

  lemma {:induction false} AssembleTree(m: Index, children: map<string, seq<string>>, id: string, nested: seq<Node>)
    requires IsChildIndex(m, children) && id in m
    requires Assembled(m, KidsOf(children, id)[..|KidsOf(children, id)|], nested)
    ensures IsTree(m, Node(m[id], nested))
    ensures TreeIds(Node(m[id], nested)) == ForestIds(nested) + {id}
  {
    var kids := KidsOf(children, id);
    assert kids[..|kids|] == kids;
    forall x ensures x in TreeIds(Node(m[id], nested)) <==> x in ForestIds(nested) + {id} {
      TreeIdsAt(Node(m[id], nested), x);
    }
  }

  lemma {:induction false} NotAboveItself(m: Index, id: string, visiting: set<string>)
    ensures Descends(m, id, visiting) ==> id !in visiting
  {
    if Rooted(m, id) {
      TrailIsDistinct(m, id);
    }
  }

  lemma {:induction false} AboveChild(m: Index, children: map<string, seq<string>>, id: string, i: nat,
                                      visiting: set<string>)
    requires IsChildIndex(m, children) && id in children && i < |children[id]|
    ensures id in m
    ensures Descends(m, id, visiting) ==> Descends(m, children[id][i], visiting + {id})
  {
    var child := children[id][i];
    assert child in KidsOf(children, id);
    if Rooted(m, id) {
      AboveBelow(m, id, child);
    }
  }

  lemma {:induction false} AboveBelow(m: Index, id: string, child: string)
    requires child in m && Parent(m, child) == Some(id) && Rooted(m, id)
    ensures Rooted(m, child) && Above(m, child) == Above(m, id) + {id}
  {
    TrailStep(m, child);
    ElementsOfFront(Trail(m, id), child);
  }

  lemma {:induction false} ElementsOfFront(t: seq<string>, x: string)
    requires t != []
    ensures Elements((t + [x])[..|t + [x]| - 1]) == Elements(t[..|t| - 1]) + {t[|t| - 1]}
  {
  }

  /** The children of `p` among `ids`, each once. */
  ghost predicate CollectsChildren(m: Index, ids: seq<string>, p: string, kids: seq<string>) {
    && Distinct(kids)
    && forall x :: x in kids <==> x in ids && x in m && Parent(m, x) == Some(p)
  }

  ghost predicate Grouped(m: Index, ids: seq<string>, children: map<string, seq<string>>) {
    children.Keys <= m.Keys && forall p :: CollectsChildren(m, ids, p, KidsOf(children, p))
  }

  function AddToGroup(m: Index, children: map<string, seq<string>>, id: string): map<string, seq<string>>
    requires id in m
  {
    match Parent(m, id)
    case None => children
    case Some(p) => children[p := KidsOf(children, p) + [id]]
  }

  lemma {:induction false} GroupNext(m: Index, ids: seq<string>, children: map<string, seq<string>>, id: string)
    requires Grouped(m, ids, children) && id in m && id !in ids
    ensures Grouped(m, ids + [id], AddToGroup(m, children, id))
  {
    var children' := AddToGroup(m, children, id);
    forall p ensures CollectsChildren(m, ids + [id], p, KidsOf(children', p)) {
      assert CollectsChildren(m, ids, p, KidsOf(children, p));
      assert KidsOf(children', p) == KidsOf(children, p) + if Parent(m, id) == Some(p) then [id] else [];
    }
  }

  /** Groups the listing by parent in id order, then sorts every group by position and id. */
  method GroupChildren(m: Index, ids: seq<string>) returns (children: map<string, seq<string>>)
    requires Distinct(ids) && forall id :: id in ids <==> id in m
    ensures IsChildIndex(m, children)
  {
    var grouped: map<string, seq<string>> := map[];
    for i := 0 to |ids|
      invariant Grouped(m, ids[..i], grouped)
    {
      assert ids[i] in m && ids[..i + 1] == ids[..i] + [ids[i]];
      GroupNext(m, ids[..i], grouped, ids[i]);
      grouped := AddToGroup(m, grouped, ids[i]);
    }
    children := map p | p in grouped :: Sort(SiblingOrder(m), grouped[p]);
    assert ids[..|ids|] == ids;
    forall p | p in m ensures IsSiblings(m, p, KidsOf(children, p)) {
      SortedSiblings(m, ids, p, KidsOf(grouped, p));
      assert KidsOf(children, p) == Sort(SiblingOrder(m), KidsOf(grouped, p));
    }
  }

  lemma {:induction false} SortedSiblings(m: Index, ids: seq<string>, p: string, kids: seq<string>)
    requires CollectsChildren(m, ids, p, kids) && forall id :: id in ids <==> id in m
    ensures IsSiblings(m, p, Sort(SiblingOrder(m), kids))
  {
    SiblingOrderIsTotal(m);
    SortSorts(SiblingOrder(m), kids);
    DistinctByMultiset(kids);
    DistinctByMultiset(Sort(SiblingOrder(m), kids));
  }

  lemma {:induction false} SortedAppend(ids: seq<string>, s: seq<string>, i: nat)
    requires SortedBy(StringLe, ids) && i < |ids| && SortedBy(StringLe, s)
    requires forall x :: x in s ==> x in ids[..i]
    ensures SortedBy(StringLe, s + [ids[i]])
  {
    forall k | 0 <= k < |s| ensures StringLe(s[k], ids[i]) {
      assert s[k] in ids[..i];
    }
  }

  /** The ids without a parent in the listing, in id order. */
  method SelectRoots(m: Index, ids: seq<string>) returns (roots: seq<string>)
    requires SortedBy(StringLe, ids) && Distinct(ids) && forall id :: id in ids <==> id in m
    ensures IsRoots(m, roots)
  {
    roots := [];
    for i := 0 to |ids|
      invariant SortedBy(StringLe, roots) && Distinct(roots)
      invariant forall x :: x in roots <==> x in ids[..i] && Parent(m, x) == None
    {
      assert ids[..i + 1] == ids[..i] + [ids[i]];
      if Parent(m, ids[i]).None? {
        SortedAppend(ids, roots, i);
        roots := roots + [ids[i]];
      }
    }
    assert ids[..|ids|] == ids;
  }

  /**
   * `CeremonyTree::from_instances`. It succeeds exactly on listings whose ids are present, distinct
   * and free of cycles; the result is the one forest such a listing determines. `calls` are the ids
   * `BuildNode` was called with: on every clean listing, cyclic ones included, each id whose ancestry
   * ends at a root once, and no other.
   */
  method FromInstances(instances: seq<Instance>) returns (r: Result<seq<Node>, TreeError>, ghost calls: seq<string>)
    ensures r.Ok? <==> Clean(Ids(instances)) && Acyclic(Indexed(instances))
    ensures r.Ok? ==> IsForest(Indexed(instances), r.value)
    ensures r.Ok? ==> multiset(PreorderAll(r.value)) == multiset(instances)
    ensures r.Err? ==> r.error.EmptyId? || r.error.RepeatedId? || r.error.DetachedCycle?
    ensures r == Err(EmptyId) ==> exists i :: 0 <= i < |instances| && StopsAt(instances, i) && instances[i].id == ""
    ensures r.Err? && r.error.RepeatedId? ==>
              exists i :: 0 <= i < |instances| && StopsAt(instances, i) && instances[i].id == r.error.id != ""
    ensures r == Err(DetachedCycle) <==> Clean(Ids(instances)) && !Acyclic(Indexed(instances))
    ensures Clean(Ids(instances)) ==> Distinct(calls) && forall id :: id in calls <==> Rooted(Indexed(instances), id)
    ensures !Clean(Ids(instances)) ==> calls == []
  {
    var indexed := IndexListing(instances);
    if indexed.Err? {
      return Err(indexed.error), [];
    }
    var byId := indexed.value;
    var ids := Sort(StringLe, Ids(instances));
    SortedIds(instances, ids);
    var children := GroupChildren(byId, ids);
    var rootIds := SelectRoots(byId, ids);
    var roots, built;
    roots, built, calls := BuildForest(byId, children, rootIds);
    if |built| != |byId| {
      return Err(DetachedCycle), calls;
    }
    r := Ok(roots);
    ForestConservesInstances(instances, roots);
  }

  /** The first loop: the listing by id, or the first entry that is empty or repeated. */
  method IndexListing(instances: seq<Instance>) returns (r: Result<Index, TreeError>)
    ensures r.Ok? <==> Clean(Ids(instances))
    ensures r.Ok? ==> r.value == Indexed(instances)
    ensures r.Err? ==> r.error.EmptyId? || r.error.RepeatedId?
    ensures r == Err(EmptyId) ==> exists i :: 0 <= i < |instances| && StopsAt(instances, i) && instances[i].id == ""
    ensures r.Err? && r.error.RepeatedId? ==>
              exists i :: 0 <= i < |instances| && StopsAt(instances, i) && instances[i].id == r.error.id != ""
  {
    var byId: Index := map[];
    for i := 0 to |instances|
      invariant Clean(Ids(instances[..i])) && byId == Indexed(instances[..i])
    {
      var id := instances[i].id;
      IdsExtend(instances, i);
      if id == "" {
        return Err(EmptyId);
      }
      if id in byId {
        return Err(RepeatedId(id));
      }
      byId := byId[id := instances[i]];
    }
    assert instances[..|instances|] == instances;
    r := Ok(byId);
  }

  /** The last loop: one tree for every root. */
  method BuildForest(byId: Index, children: map<string, seq<string>>, rootIds: seq<string>)
    returns (roots: seq<Node>, built: set<string>, ghost calls: seq<string>)
    requires IsChildIndex(byId, children) && IsRoots(byId, rootIds)
    ensures IsForest(byId, roots)
    ensures |built| == |byId| <==> Acyclic(byId)
    ensures Distinct(calls) && forall id :: id in calls <==> Rooted(byId, id)
  {
    var visiting: set<string> := {};
    roots, built, calls := [], {}, [];
    for i := 0 to |rootIds|
      invariant visiting == {} && Assembling(byId, rootIds[..i], roots, {}, built, [], calls)
    {
      AboveRoot(byId, rootIds, i);
      var node;
      ghost var below;
      node, visiting, built, below := BuildNode(rootIds[i], byId, children, visiting, built);
      assert node.Ok?;
      AssembleNext(byId, rootIds, roots, node.value, i, {}, calls, []);
      calls, roots := calls + below, roots + [node.value];
    }
    ForestDone(byId, rootIds, roots, built, calls);
  }

  lemma {:induction false} ForestDone(m: Index, rootIds: seq<string>, roots: seq<Node>, built: set<string>,
                                      calls: seq<string>)
    requires IsRoots(m, rootIds) && Assembling(m, rootIds[..|rootIds|], roots, {}, built, [], calls)
    ensures IsForest(m, roots) && (|built| == |m| <==> Acyclic(m))
    ensures Distinct(calls) && forall id :: id in calls <==> Rooted(m, id)
  {
    assert rootIds[..|rootIds|] == rootIds;
    CountDecides(m, roots, built);
    CallsAreTheRooted(m, roots, calls);
  }

  /** The listing is clean up to `i` and the entry there is empty or a repetition. */
  ghost predicate StopsAt(instances: seq<Instance>, i: nat)
    requires i < |instances|
  {
    && Clean(Ids(instances[..i]))
    && (instances[i].id == "" || instances[i].id in Ids(instances[..i]))
  }

  lemma {:induction false} IdsExtend(instances: seq<Instance>, i: nat)
    requires i < |instances| && Clean(Ids(instances[..i]))
    ensures Clean(Ids(instances[..i + 1])) <==> !StopsAt(instances, i)
    ensures StopsAt(instances, i) ==> !Clean(Ids(instances))
    ensures Indexed(instances[..i + 1]) == Indexed(instances[..i])[instances[i].id := instances[i]]
  {
    var ids := Ids(instances[..i]);
    assert instances[..i + 1] == instances[..i] + [instances[i]];
    assert Ids(instances[..i + 1]) == ids + [instances[i].id];
    if instances[i].id in ids {
      var j :| 0 <= j < |ids| && ids[j] == instances[i].id;
      assert Ids(instances[..i + 1])[j] == Ids(instances[..i + 1])[i];
      assert Ids(instances)[j] == Ids(instances)[i];
    }
    assert Ids(instances)[i] == instances[i].id;
  }

  lemma {:induction false} SortedIds(instances: seq<Instance>, ids: seq<string>)
    requires Distinct(Ids(instances)) && ids == Sort(StringLe, Ids(instances))
    ensures SortedBy(StringLe, ids) && Distinct(ids)
    ensures forall id :: id in ids <==> id in Indexed(instances)
  {
    StringLeIsTotal();
    SortSorts(StringLe, Ids(instances));
    DistinctByMultiset(ids);
    DistinctByMultiset(Ids(instances));
  }

  lemma {:induction false} AboveRoot(m: Index, rootIds: seq<string>, i: nat)
    requires IsRoots(m, rootIds) && i < |rootIds|
    ensures Descends(m, rootIds[i], {})
  {
    assert rootIds[i] in rootIds;
    TrailStep(m, rootIds[i]);
  }

  lemma {:induction false} ForestIdsAreTheRooted(m: Index, roots: seq<Node>)
    requires IsForest(m, roots)
    ensures ForestIds(roots) == set id | id in m && Rooted(m, id)
  {
    forall id ensures id in ForestIds(roots) <==> id in m && Rooted(m, id) {
      if id in ForestIds(roots) {
        ForestIdsAreRooted(m, roots, id);
        var k: nat :| RootedIn(m, id, k);
      }
      if Rooted(m, id) {
        ForestHoldsRooted(m, roots, id);
      }
    }
  }

  /** Listed depth first, a forest names each id whose ancestry ends at a root once, and no other. */
  lemma {:induction false} CallsAreTheRooted(m: Index, roots: seq<Node>, calls: seq<string>)
    requires IsForest(m, roots) && calls == Ids(PreorderAll(roots))
    ensures Distinct(calls) && forall id :: id in calls <==> Rooted(m, id)
  {
    RootsShareDepth(m, roots);
    ForestIsDistinct(m, roots, 1);
    forall id ensures id in calls <==> Rooted(m, id) {
      IdsHold(PreorderAll(roots), id);
      if id in calls {
        ForestIdsAreRooted(m, roots, id);
      }
      if Rooted(m, id) {
        ForestHoldsRooted(m, roots, id);
      }
    }
  }

  lemma {:induction false} IdsHold(s: seq<Instance>, id: string)
    ensures id in Ids(s) <==> exists x :: x in s && x.id == id
  {
    if id in Ids(s) {
      var i :| 0 <= i < |s| && Ids(s)[i] == id;
      assert s[i] in s;
    }
    if x :| x in s && x.id == id {
      var i :| 0 <= i < |s| && s[i] == x;
      assert Ids(s)[i] == id;
    }
  }

  /** The final count: every id was built exactly when there is no cycle. */
  lemma {:induction false} CountDecides(m: Index, roots: seq<Node>, built: set<string>)
    requires IsForest(m, roots) && built == ForestIds(roots)
    ensures |built| == |m| <==> Acyclic(m)
  {
    ForestIdsAreTheRooted(m, roots);
    AcyclicIffRooted(m);
    SubsetCount(built, m.Keys);
    assert |m| == |m.Keys|;
    assert built == m.Keys <==> forall id :: id in m ==> Rooted(m, id);
  }

  /** The order of the listing does not matter: permutations build the same forest. */
  lemma {:induction false} PermutationBuildsSameForest(a: seq<Instance>, b: seq<Instance>, roots: seq<Node>,
                                                       roots': seq<Node>)
    requires multiset(a) == multiset(b)
    requires Clean(Ids(a)) && IsForest(Indexed(a), roots) && IsForest(Indexed(b), roots')
    ensures Clean(Ids(b)) && (Acyclic(Indexed(a)) <==> Acyclic(Indexed(b)))
    ensures roots == roots'
  {
    PermutedListing(a, b);
    ForestIsUnique(Indexed(a), roots, roots');
  }

  lemma {:induction false} PermutedIsClean(a: seq<Instance>, b: seq<Instance>)
    requires multiset(a) == multiset(b) && Clean(Ids(a))
    ensures Clean(Ids(b))
  {
    DistinctIds(a);
    DistinctByMultiset(a);
    DistinctByMultiset(b);
    forall i | 0 <= i < |b| ensures Ids(b)[i] in Indexed(a) && Indexed(a)[Ids(b)[i]] == b[i] && Ids(b)[i] != "" {
      assert b[i] in multiset(a);
      IndexedHolds(a, b[i]);
    }
  }

  lemma {:induction false} PermutedListing(a: seq<Instance>, b: seq<Instance>)
    requires multiset(a) == multiset(b) && Clean(Ids(a))
    ensures Clean(Ids(b)) && Indexed(a) == Indexed(b)
  {
    PermutedIsClean(a, b);
    forall id ensures id in Indexed(a) <==> id in Indexed(b) {
      IndexTransfers(a, b, id);
      IndexTransfers(b, a, id);
    }
    forall id | id in Indexed(a) ensures Indexed(a)[id] == Indexed(b)[id] {
      IndexTransfers(a, b, id);
    }
  }

  lemma {:induction false} IndexTransfers(a: seq<Instance>, b: seq<Instance>, id: string)
    requires multiset(a) == multiset(b) && Clean(Ids(b))
    ensures id in Indexed(a) ==> id in Indexed(b) && Indexed(a)[id] == Indexed(b)[id]
  {
    if id in Indexed(a) {
      assert Indexed(a)[id] in multiset(b);
      IndexedHolds(b, Indexed(a)[id]);
    }
  }
}

/** Ceremony listings, the parent relation they carry and the order of siblings. */
module CeremonyLineage {
  import opened Base
  import opened Ordering

  datatype Lineage = Lineage(parentId: string, position: nat)

  datatype Instance = Instance(id: string, lineage: Option<Lineage>, childGroups: seq<seq<string>>)

  // ---------------------------------------------------------------- listings

  function Ids(instances: seq<Instance>): (ids: seq<string>) {
    seq(|instances|, i requires 0 <= i < |instances| => instances[i].id)
  }

  /** What a listing must satisfy before its lineage is looked at. */
  ghost predicate Clean(ids: seq<string>) {
    Distinct(ids) && "" !in ids
  }

  type Index = m: map<string, Instance> | forall id :: id in m ==> m[id].id == id

  function Indexed(instances: seq<Instance>): (m: Index)
    ensures forall id :: id in m <==> id in Ids(instances)
    ensures forall id :: id in m ==> m[id] in instances
  {
    if instances == [] then map[]
    else
      var last := instances[|instances| - 1];
      assert instances == instances[..|instances| - 1] + [last];
      assert Ids(instances) == Ids(instances[..|instances| - 1]) + [last.id];
      Indexed(instances[..|instances| - 1])[last.id := last]
  }

  lemma {:induction false} IndexedHolds(instances: seq<Instance>, x: Instance)
    requires Distinct(Ids(instances)) && x in instances
    ensures x.id in Indexed(instances) && Indexed(instances)[x.id] == x
  {
    var i :| 0 <= i < |instances| && instances[i] == x;
    assert Ids(instances)[i] == x.id;
    var y := Indexed(instances)[x.id];
    var j :| 0 <= j < |instances| && instances[j] == y;
    SameIdSamePlace(instances, i, j);
  }

  lemma {:induction false} SameIdSamePlace(instances: seq<Instance>, i: nat, j: nat)
    requires Distinct(Ids(instances)) && i < |instances| && j < |instances| && instances[i].id == instances[j].id
    ensures i == j
  {
    assert Ids(instances)[i] == Ids(instances)[j];
  }

  // ----------------------------------------------------------------- lineage

  /** The parent of `id`, when the listing holds it. */
  function Parent(m: Index, id: string): Option<string>
    requires id in m
  {
    match m[id].lineage
    case Some(l) => if l.parentId != "" && l.parentId in m then Some(l.parentId) else None
    case None => None
  }

  /** The parent is the listed ceremony that the lineage names. */
  lemma {:induction false} ParentIs(m: Index, id: string, p: string)
    requires id in m
    ensures Parent(m, id) == Some(p) <==>
              p in m && p != "" && exists lineage :: m[id].lineage == Some(lineage) && lineage.parentId == p
  {
  }

  /** The ancestor `k` steps above `id`. */
  ghost function Up(m: Index, id: string, k: nat): (a: Option<string>)
    requires id in m
    ensures a.Some? ==> a.value in m
    decreases k
  {
    if k == 0 then Some(id)
    else
      match Parent(m, id)
      case None => None
      case Some(p) => Up(m, p, k - 1)
  }

  /** No ceremony is its own ancestor. */
  ghost predicate Acyclic(m: Index) {
    forall id, k: nat :: id in m && k > 0 ==> Up(m, id, k) != Some(id)
  }

  ghost predicate RootedIn(m: Index, id: string, k: nat)
    decreases k
  {
    id in m && (Parent(m, id).None? || (k > 0 && RootedIn(m, Parent(m, id).value, k - 1)))
  }

  ghost predicate Rooted(m: Index, id: string) {
    exists k: nat :: RootedIn(m, id, k)
  }

  ghost function TrailIn(m: Index, id: string, k: nat): (t: seq<string>)
    requires RootedIn(m, id, k)
    ensures t != [] && t[|t| - 1] == id
    decreases k
  {
    match Parent(m, id)
    case None => [id]
    case Some(p) => TrailIn(m, p, k - 1) + [id]
  }

  /** The ids from a root down to `id`. */
  ghost function Trail(m: Index, id: string): (t: seq<string>)
    requires Rooted(m, id)
    ensures t != [] && t[|t| - 1] == id
  {
    var k: nat :| RootedIn(m, id, k);
    TrailIn(m, id, k)
  }

  lemma {:induction false} TrailInUnique(m: Index, id: string, j: nat, k: nat)
    requires RootedIn(m, id, j) && RootedIn(m, id, k)
    ensures TrailIn(m, id, j) == TrailIn(m, id, k)
    decreases k
  {
    if Parent(m, id).Some? {
      TrailInUnique(m, Parent(m, id).value, j - 1, k - 1);
    }
  }

  lemma {:induction false} TrailStep(m: Index, id: string)
    requires id in m
    ensures Parent(m, id).None? ==> Rooted(m, id) && Trail(m, id) == [id]
    ensures Parent(m, id).Some? ==> (Rooted(m, id) <==> Rooted(m, Parent(m, id).value))
    ensures Parent(m, id).Some? && Rooted(m, id) ==> Trail(m, id) == Trail(m, Parent(m, id).value) + [id]
  {
    match Parent(m, id)
    case None =>
      assert RootedIn(m, id, 0);
    case Some(p) =>
      if Rooted(m, p) {
        var j: nat :| RootedIn(m, p, j);
        assert RootedIn(m, id, j + 1);
      }
      if Rooted(m, id) {
        var k: nat :| RootedIn(m, id, k);
        var k': nat :| RootedIn(m, id, k') && Trail(m, id) == TrailIn(m, id, k');
        assert RootedIn(m, p, k - 1);
        var j: nat :| RootedIn(m, p, j) && Trail(m, p) == TrailIn(m, p, j);
        TrailInUnique(m, p, j, k' - 1);
        assert TrailIn(m, id, k') == TrailIn(m, p, k' - 1) + [id];
      }
  }

  /** Position `i` of a trail holds an id whose own trail is the prefix ending there. */
  lemma {:induction false} TrailPrefix(m: Index, id: string, i: nat)
    requires Rooted(m, id) && i < |Trail(m, id)|
    ensures Rooted(m, Trail(m, id)[i]) && Trail(m, Trail(m, id)[i]) == Trail(m, id)[..i + 1]
    decreases |Trail(m, id)|
  {
    var k: nat :| RootedIn(m, id, k);
    TrailStep(m, id);
    if i + 1 == |Trail(m, id)| {
      assert Trail(m, id)[..i + 1] == Trail(m, id);
    } else {
      TrailPrefix(m, Parent(m, id).value, i);
    }
  }

  /** Ids with equally long trails that lie on one trail are the same id. */
  lemma {:induction false} SameDepthOnTrail(m: Index, x: string, a: string, b: string)
    requires Rooted(m, x) && a in Trail(m, x) && b in Trail(m, x)
    ensures Rooted(m, a) && Rooted(m, b)
    ensures |Trail(m, a)| == |Trail(m, b)| ==> a == b
  {
    var i :| 0 <= i < |Trail(m, x)| && Trail(m, x)[i] == a;
    var j :| 0 <= j < |Trail(m, x)| && Trail(m, x)[j] == b;
    TrailPrefix(m, x, i);
    TrailPrefix(m, x, j);
  }

  lemma {:induction false} TrailIsDistinct(m: Index, id: string)
    requires Rooted(m, id)
    ensures Distinct(Trail(m, id))
  {
    forall i, j | 0 <= i < j < |Trail(m, id)| ensures Trail(m, id)[i] != Trail(m, id)[j] {
      TrailPrefix(m, id, i);
      TrailPrefix(m, id, j);
    }
  }

  lemma {:induction false} RootedUp(m: Index, id: string, k: nat, n: nat)
    requires RootedIn(m, id, k) && Up(m, id, n).Some?
    ensures n <= k && RootedIn(m, Up(m, id, n).value, k - n)
    decreases k
  {
    if n > 0 {
      RootedUp(m, Parent(m, id).value, k - 1, n - 1);
    }
  }

  lemma {:induction false} RootedHasNoCycle(m: Index, id: string, k: nat, n: nat)
    requires RootedIn(m, id, k) && n > 0
    ensures Up(m, id, n) != Some(id)
    decreases k
  {
    if Up(m, id, n) == Some(id) {
      RootedUp(m, id, k, n);
      RootedHasNoCycle(m, id, k - n, n);
    }
  }

  lemma {:induction false} UpSplits(m: Index, id: string, i: nat, j: nat)
    requires id in m && Up(m, id, i).Some?
    ensures Up(m, id, i + j) == Up(m, Up(m, id, i).value, j)
    decreases i
  {
    if i > 0 {
      UpSplits(m, Parent(m, id).value, i - 1, j);
    }
  }

  lemma {:induction false} EndlessAscent(m: Index, id: string, k: nat)
    requires id in m && !Rooted(m, id)
    ensures Up(m, id, k).Some?
    decreases k
  {
    TrailStep(m, id);
    if k > 0 {
      EndlessAscent(m, Parent(m, id).value, k - 1);
    }
  }

  /** An id that reaches no root lies below a cycle. */
  lemma {:induction false} UnrootedFindsCycle(m: Index, id: string) returns (on: string, n: nat)
    requires id in m && !Rooted(m, id)
    ensures on in m && n > 0 && Up(m, on, n) == Some(on)
  {
    forall k: nat ensures Up(m, id, k).Some? { EndlessAscent(m, id, k); }
    var path := seq(|m| + 1, k requires 0 <= k => Up(m, id, k).value);
    var i, j := Pigeonhole(path, m.Keys);
    UpSplits(m, id, i, j - i);
    on, n := path[i], j - i;
  }

  /** In a finite listing, having no cycle and every ceremony reaching a root are the same. */
  lemma {:induction false} AcyclicIffRooted(m: Index)
    ensures Acyclic(m) <==> forall id :: id in m ==> Rooted(m, id)
  {
    if id :| id in m && !Rooted(m, id) {
      var on, n := UnrootedFindsCycle(m, id);
    } else {
      forall id, n: nat | id in m && n > 0 ensures Up(m, id, n) != Some(id) {
        var k: nat :| RootedIn(m, id, k);
        RootedHasNoCycle(m, id, k, n);
      }
    }
  }

  // ---------------------------------------------------------------- siblings

  function Position(m: Index, id: string): nat {
    if id in m && m[id].lineage.Some? then m[id].lineage.value.position else 0
  }

  predicate SiblingLe(m: Index, a: string, b: string) {
    Position(m, a) < Position(m, b) || (Position(m, a) == Position(m, b) && StringLe(a, b))
  }

  function SiblingOrder(m: Index): (string, string) -> bool {
    (a: string, b: string) => SiblingLe(m, a, b)
  }

  lemma {:induction false} SiblingOrderIsTotal(m: Index)
    ensures TotalPreorder(SiblingOrder(m))
    ensures forall s :: Separates(SiblingOrder(m), s)
  {
    var le := SiblingOrder(m);
    forall a, b ensures le(a, b) || le(b, a) {
      StringLeTotal(a, b);
    }
    forall a, b, c | le(a, b) && le(b, c) ensures le(a, c) {
      if StringLe(a, b) && StringLe(b, c) { StringLeTransitive(a, b, c); }
    }
    forall s ensures Separates(le, s) {
      forall a, b | a in s && b in s && le(a, b) && le(b, a) ensures a == b {
        StringLeTotal(a, b);
      }
    }
  }

  /** `s` lists exactly the children of `p` that the listing holds, by position and then by id. */
  ghost predicate IsSiblings(m: Index, p: string, s: seq<string>) {
    && SortedBy(SiblingOrder(m), s)
    && Distinct(s)
    && forall x :: x in s <==> x in m && Parent(m, x) == Some(p)
  }

  /** The positions that the lineages give decide between siblings; between equal positions, the ids. */
  lemma {:induction false} SiblingsAreInOrder(m: Index, p: string, s: seq<string>, i: nat, j: nat)
    requires IsSiblings(m, p, s) && i < j < |s|
    ensures m[s[i]].lineage.Some? && m[s[j]].lineage.Some?
    ensures var a, b := m[s[i]].lineage.value.position, m[s[j]].lineage.value.position;
            a < b || (a == b && StringLe(s[i], s[j]))
  {
    assert s[i] in s && s[j] in s;
    assert SiblingOrder(m)(s[i], s[j]);
  }

  ghost predicate IsRoots(m: Index, s: seq<string>) {
    && SortedBy(StringLe, s)
    && Distinct(s)
    && forall x :: x in s <==> x in m && Parent(m, x) == None
  }
}

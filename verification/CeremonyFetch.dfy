/** The bounded breadth-first fetch that feeds the hierarchy. */
module CeremonyFetch {
  import opened Base
  import opened CeremonyLineage
  import opened CeremonyTree

  datatype FetchError = NodeLimit | FetchFailed(id: string) | Listing(error: TreeError)

  /** What the server answers for an id. No id is asked for twice, so a function covers every server. */
  type Server = string -> Option<Instance>

  function Flatten(groups: seq<seq<string>>): seq<string> {
    if groups == [] then [] else groups[0] + Flatten(groups[1..])
  }

  /** Every child of every group, group by group. */
  lemma {:induction false} FlattenHolds(groups: seq<seq<string>>, id: string)
    ensures id in Flatten(groups) <==> exists i :: 0 <= i < |groups| && id in groups[i]
  {
    if groups != [] {
      FlattenHolds(groups[1..], id);
      if i :| 0 <= i < |groups| && id in groups[i] {
        assert i > 0 ==> id in groups[1..][i - 1];
      }
      if i :| 0 <= i < |groups[1..]| && id in groups[1..][i] {
        assert id in groups[i + 1];
      }
    }
  }

  /** The ids a fetched instance links to. */
  function Links(server: Server, id: string): seq<string> {
    match server(id)
    case None => []
    case Some(instance) => Flatten(instance.childGroups)
  }

  ghost predicate IsWalk(server: Server, root: string, walk: seq<string>) {
    && walk != [] && walk[0] == root
    && forall i :: 0 <= i < |walk| - 1 ==> walk[i + 1] in Links(server, walk[i])
  }

  ghost predicate WalkTo(server: Server, root: string, id: string, walk: seq<string>) {
    IsWalk(server, root, walk) && walk[|walk| - 1] == id
  }

  ghost predicate Reachable(server: Server, root: string, id: string) {
    exists walk :: WalkTo(server, root, id, walk)
  }

  ghost predicate EveryFetchSucceeds(server: Server, root: string) {
    forall id :: Reachable(server, root, id) ==> server(id).Some?
  }

  /** More than `limit` ids are reachable. */
  ghost predicate Exceeds(server: Server, root: string, limit: nat) {
    exists ids: set<string> :: |ids| > limit && AllReachable(server, root, ids)
  }

  ghost predicate AllReachable(server: Server, root: string, ids: set<string>) {
    forall id :: id in ids ==> Reachable(server, root, id)
  }

  lemma {:induction false} RootReachable(server: Server, root: string)
    ensures Reachable(server, root, root)
  {
    assert WalkTo(server, root, root, [root]);
  }

  lemma {:induction false} LinkReachable(server: Server, root: string, id: string, next: string)
    requires Reachable(server, root, id) && next in Links(server, id)
    ensures Reachable(server, root, next)
  {
    var walk :| WalkTo(server, root, id, walk);
    assert WalkTo(server, root, next, walk + [next]);
  }

  ghost predicate ClosedUnderLinks(server: Server, seen: set<string>) {
    forall at, next :: at in seen && next in Links(server, at) ==> next in seen
  }

  /** A set that holds the root and is closed under links holds everything reachable. */
  lemma {:induction false} ClosedHoldsWalk(server: Server, root: string, seen: set<string>, walk: seq<string>)
    requires root in seen
    requires ClosedUnderLinks(server, seen)
    requires IsWalk(server, root, walk)
    ensures walk[|walk| - 1] in seen
  {
    if |walk| > 1 {
      var front := walk[..|walk| - 1];
      ClosedHoldsWalk(server, root, seen, front);
    }
  }

  lemma {:induction false} ClosedHoldsReachable(server: Server, root: string, seen: set<string>, id: string)
    requires root in seen
    requires ClosedUnderLinks(server, seen)
    requires Reachable(server, root, id)
    ensures id in seen
  {
    var walk :| WalkTo(server, root, id, walk);
    ClosedHoldsWalk(server, root, seen, walk);
  }

  function Answers(server: Server, ids: seq<string>): seq<Instance>
    requires forall id :: id in ids ==> server(id).Some?
  {
    seq(|ids|, i requires 0 <= i < |ids| => server(ids[i]).value)
  }

  /** The ids in the order they are first mentioned. */
  ghost function FirstMentions(ids: seq<string>): seq<string> {
    if ids == [] then []
    else
      var front, last := FirstMentions(ids[..|ids| - 1]), ids[|ids| - 1];
      if last in front then front else front + [last]
  }

  lemma {:induction false} FirstMentionsHold(ids: seq<string>, id: string)
    ensures id in FirstMentions(ids) <==> id in ids
  {
    if ids != [] {
      FirstMentionsHold(ids[..|ids| - 1], id);
      assert ids == ids[..|ids| - 1] + [ids[|ids| - 1]];
    }
  }

  /** The root, and then the links of each fetched id in turn: the order in which a queue hands them out. */
  ghost function Mentions(server: Server, root: string, fetched: seq<string>): seq<string> {
    if fetched == [] then [root]
    else Mentions(server, root, fetched[..|fetched| - 1]) + Links(server, fetched[|fetched| - 1])
  }

  /** The queue has handed out the mentions up to `at`: their first occurrences are what was fetched. */
  ghost predicate InTurn(server: Server, root: string, fetched: seq<string>, pending: seq<string>, at: nat) {
    && at <= |Mentions(server, root, fetched)| && pending == Mentions(server, root, fetched)[at..]
    && FirstMentions(Mentions(server, root, fetched)[..at]) == fetched
  }

  lemma {:induction false} TurnSkips(server: Server, root: string, fetched: seq<string>, pending: seq<string>, at: nat)
    requires InTurn(server, root, fetched, pending, at) && pending != [] && pending[0] in fetched
    ensures InTurn(server, root, fetched, pending[1..], at + 1)
  {
    var all := Mentions(server, root, fetched);
    assert all[..at + 1][..at] == all[..at] && all[..at + 1][at] == pending[0];
  }

  lemma {:induction false} TurnFetches(server: Server, root: string, fetched: seq<string>, pending: seq<string>,
                                       at: nat)
    requires InTurn(server, root, fetched, pending, at) && pending != [] && pending[0] !in fetched
    ensures InTurn(server, root, fetched + [pending[0]], pending[1..] + Links(server, pending[0]), at + 1)
  {
    var all, more := Mentions(server, root, fetched), fetched + [pending[0]];
    assert more[..|more| - 1] == fetched;
    var all' := Mentions(server, root, more);
    assert all' == all + Links(server, pending[0]);
    assert all'[..at + 1][..at] == all[..at] && all'[..at + 1][at] == pending[0];
  }

  /** What was fetched begins the first mentions of all that was handed over. */
  ghost predicate BreadthFirst(server: Server, root: string, fetched: seq<string>) {
    fetched <= FirstMentions(Mentions(server, root, fetched))
  }

  lemma {:induction false} FirstMentionsGrow(ids: seq<string>, at: nat)
    requires at <= |ids|
    ensures FirstMentions(ids[..at]) <= FirstMentions(ids)
  {
    if at == |ids| {
      assert ids[..at] == ids;
    } else {
      FirstMentionsGrow(ids[..|ids| - 1], at);
      assert ids[..|ids| - 1][..at] == ids[..at];
    }
  }

  /** Everything linked from a fetched id, and the root, is fetched or still pending. */
  ghost predicate Frontier(server: Server, root: string, seen: set<string>, pending: seq<string>) {
    && (root in seen || root in pending)
    && (forall at, next :: at in seen && next in Links(server, at) ==> next in seen || next in pending)
    && (forall at :: at in seen ==> Reachable(server, root, at))
    && (forall at :: at in pending ==> Reachable(server, root, at))
  }

  lemma {:induction false} FrontierSkips(server: Server, root: string, seen: set<string>, pending: seq<string>)
    requires Frontier(server, root, seen, pending) && pending != [] && pending[0] in seen
    ensures Frontier(server, root, seen, pending[1..])
  {
  }

  lemma {:induction false} FrontierFetches(server: Server, root: string, seen: set<string>, pending: seq<string>)
    requires Frontier(server, root, seen, pending) && pending != []
    ensures Frontier(server, root, seen + {pending[0]}, pending[1..] + Links(server, pending[0]))
  {
    var id := pending[0];
    assert pending == [id] + pending[1..];
    forall next | next in Links(server, id) ensures Reachable(server, root, next) {
      LinkReachable(server, root, id, next);
    }
  }

  lemma {:induction false} FrontierDone(server: Server, root: string, seen: set<string>)
    requires Frontier(server, root, seen, [])
    ensures forall id :: id in seen <==> Reachable(server, root, id)
  {
    forall id | Reachable(server, root, id) ensures id in seen {
      ClosedHoldsReachable(server, root, seen, id);
    }
  }

  /** No more ids are reachable than a set holding all of them has. */
  lemma {:induction false} WithinLimit(server: Server, root: string, seen: set<string>, limit: nat)
    requires |seen| <= limit && forall id :: Reachable(server, root, id) ==> id in seen
    ensures !Exceeds(server, root, limit)
  {
    forall ids: set<string> | AllReachable(server, root, ids) ensures |ids| <= limit {
      SubsetCount(ids, seen);
    }
  }

  /** The bookkeeping of the loop: `fetched` lists `seen` in order, `instances` holds the answers. */
  ghost predicate Recorded(server: Server, seen: set<string>, fetched: seq<string>, instances: seq<Instance>) {
    && Distinct(fetched) && |fetched| == |seen|
    && (forall id :: id in seen <==> id in fetched)
    && (forall id :: id in fetched ==> server(id).Some?)
    && instances == Answers(server, fetched)
  }

  lemma {:induction false} RecordNext(server: Server, seen: set<string>, fetched: seq<string>, instances: seq<Instance>,
                                      id: string)
    requires Recorded(server, seen, fetched, instances) && id !in seen
    ensures Distinct(fetched + [id])
    ensures server(id).Some? ==> Recorded(server, seen + {id}, fetched + [id], instances + [server(id).value])
  {
  }

  /** The state of the loop. */
  ghost predicate Traversing(server: Server, root: string, maxNodes: nat, seen: set<string>, pending: seq<string>,
                             fetched: seq<string>, instances: seq<Instance>, at: nat) {
    && Frontier(server, root, seen, pending) && InTurn(server, root, fetched, pending, at)
    && |seen| <= maxNodes && Recorded(server, seen, fetched, instances)
  }

  lemma {:induction false} TraverseStarts(server: Server, root: string, maxNodes: nat)
    ensures Traversing(server, root, maxNodes, {}, [root], [], [], 0)
  {
    RootReachable(server, root);
    assert Mentions(server, root, []) == [root] && [root][..0] == [] && [root][0..] == [root];
  }

  lemma {:induction false} TraverseSkips(server: Server, root: string, maxNodes: nat, seen: set<string>,
                                         pending: seq<string>, fetched: seq<string>, instances: seq<Instance>, at: nat)
    requires Traversing(server, root, maxNodes, seen, pending, fetched, instances, at)
    requires pending != [] && pending[0] in seen
    ensures Traversing(server, root, maxNodes, seen, pending[1..], fetched, instances, at + 1)
  {
    FrontierSkips(server, root, seen, pending);
    TurnSkips(server, root, fetched, pending, at);
  }

  /** What can be said wherever the loop ends. */
  ghost predicate Fetched(server: Server, root: string, fetched: seq<string>) {
    && Distinct(fetched) && BreadthFirst(server, root, fetched)
    && forall id :: id in fetched ==> Reachable(server, root, id)
  }

  lemma {:induction false} TraverseFetches(server: Server, root: string, maxNodes: nat, seen: set<string>,
                                           pending: seq<string>, fetched: seq<string>, instances: seq<Instance>,
                                           at: nat)
    requires Traversing(server, root, maxNodes, seen, pending, fetched, instances, at)
    requires pending != [] && pending[0] !in seen
    ensures Fetched(server, root, fetched) && Fetched(server, root, fetched + [pending[0]])
    ensures |seen + {pending[0]}| == |seen| + 1
    ensures |fetched| == |seen| && Reachable(server, root, pending[0])
    ensures |seen| == maxNodes ==> Exceeds(server, root, maxNodes)
    ensures |seen| < maxNodes && server(pending[0]).Some? ==>
              Traversing(server, root, maxNodes, seen + {pending[0]},
                         pending[1..] + Flatten(server(pending[0]).value.childGroups),
                         fetched + [pending[0]], instances + [server(pending[0]).value], at + 1)
  {
    var id := pending[0];
    FrontierFetches(server, root, seen, pending);
    RecordNext(server, seen, fetched, instances, id);
    TurnFetches(server, root, fetched, pending, at);
    FirstMentionsGrow(Mentions(server, root, fetched), at);
    FirstMentionsGrow(Mentions(server, root, fetched + [id]), at + 1);
    assert |seen + {id}| == |seen| + 1 && AllReachable(server, root, seen + {id});
  }

  lemma {:induction false} TraverseDone(server: Server, root: string, maxNodes: nat, seen: set<string>,
                                        fetched: seq<string>, instances: seq<Instance>, at: nat)
    requires Traversing(server, root, maxNodes, seen, [], fetched, instances, at)
    ensures Fetched(server, root, fetched) && |fetched| <= maxNodes && !Exceeds(server, root, maxNodes)
    ensures FirstMentions(Mentions(server, root, fetched)) == fetched
    ensures forall id :: Reachable(server, root, id) <==> id in fetched
  {
    FrontierDone(server, root, seen);
    WithinLimit(server, root, seen, maxNodes);
    var all := Mentions(server, root, fetched);
    assert all[at..] == [] && all[..at] == all;
  }

  /**
   * The loop of `ceremony_tree`: ids breadth first, in the order they are mentioned, no id twice and never
   * more than `maxNodes` of them, the whole reachable set on success.
   */
  method Traverse(server: Server, root: string, maxNodes: nat)
    returns (r: Result<seq<Instance>, FetchError>, fetched: seq<string>)
    ensures Distinct(fetched) && |fetched| <= maxNodes
    ensures forall id :: id in fetched ==> Reachable(server, root, id)
    ensures BreadthFirst(server, root, fetched)
    ensures r.Ok? ==> FirstMentions(Mentions(server, root, fetched)) == fetched
    ensures r.Ok? ==> forall id :: Reachable(server, root, id) <==> id in fetched
    ensures r.Ok? ==> (forall id :: id in fetched ==> server(id).Some?) && r.value == Answers(server, fetched)
    ensures r.Err? ==> r.error == NodeLimit || (r.error.FetchFailed? && server(r.error.id) == None)
    ensures r.Err? && r.error.FetchFailed? ==>
              Reachable(server, root, r.error.id) && fetched != [] && fetched[|fetched| - 1] == r.error.id
    ensures r == Err(NodeLimit) ==> Exceeds(server, root, maxNodes) && |fetched| == maxNodes
    ensures EveryFetchSucceeds(server, root) ==> (r == Err(NodeLimit) <==> Exceeds(server, root, maxNodes))
  {
    var pending, seen, instances := [root], {}, [];
    fetched := [];
    ghost var at := 0;
    TraverseStarts(server, root, maxNodes);
    while pending != []
      invariant Traversing(server, root, maxNodes, seen, pending, fetched, instances, at)
      decreases maxNodes - |seen|, |pending|
    {
      var id := pending[0];
      if id in seen {
        TraverseSkips(server, root, maxNodes, seen, pending, fetched, instances, at);
        pending, at := pending[1..], at + 1;
        continue;
      }
      TraverseFetches(server, root, maxNodes, seen, pending, fetched, instances, at);
      seen, pending, at := seen + {id}, pending[1..], at + 1;
      if |seen| > maxNodes {
        return Err(NodeLimit), fetched;
      }
      fetched := fetched + [id];
      match server(id) {
        case None =>
          return Err(FetchFailed(id)), fetched;
        case Some(instance) =>
          pending := pending + Flatten(instance.childGroups);
          instances := instances + [instance];
      }
    }
    TraverseDone(server, root, maxNodes, seen, fetched, instances, at);
    r := Ok(instances);
  }

  // ------------------------------------------------------- what can be assembled

  /** The answers for the reachable ids carry ids of their own: none empty, no two alike. */
  ghost predicate OwnIds(server: Server, root: string) {
    && (forall a :: Reachable(server, root, a) ==> server(a).Some? && server(a).value.id != "")
    && (forall a, b :: Reachable(server, root, a) && Reachable(server, root, b) && a != b ==>
          AnswersDiffer(server, a, b))
  }

  ghost predicate AnswersDiffer(server: Server, a: string, b: string) {
    server(a).Some? && server(b).Some? ==> server(a).value.id != server(b).value.id
  }

  /** The answers for the reachable ids, by the ids they carry. */
  ghost predicate Indexes(server: Server, root: string, m: Index) {
    && (forall a :: Reachable(server, root, a) ==>
          server(a).Some? && server(a).value.id in m && m[server(a).value.id] == server(a).value)
    && (forall id :: id in m ==> Answered(server, root, id))
  }

  ghost predicate Answered(server: Server, root: string, id: string) {
    exists a :: Reachable(server, root, a) && server(a).Some? && server(a).value.id == id
  }

  /** The answers carry ids of their own, and no ceremony among them is its own ancestor. */
  ghost predicate Assembles(server: Server, root: string) {
    OwnIds(server, root) && exists m :: Indexes(server, root, m) && Acyclic(m)
  }

  /** What a completed traversal fetched: every reachable id once. */
  ghost predicate Enumerates(server: Server, root: string, fetched: seq<string>) {
    && Distinct(fetched)
    && (forall id :: id in fetched <==> Reachable(server, root, id))
    && (forall id :: id in fetched ==> server(id).Some?)
  }

  lemma {:induction false} CleanIffOwnIds(server: Server, root: string, fetched: seq<string>)
    requires Enumerates(server, root, fetched)
    ensures Clean(Ids(Answers(server, fetched))) <==> OwnIds(server, root)
  {
    var ids := Ids(Answers(server, fetched));
    if Clean(ids) {
      forall a | Reachable(server, root, a) ensures server(a).value.id != "" {
        var i :| 0 <= i < |fetched| && fetched[i] == a;
        assert ids[i] == server(a).value.id;
      }
      forall a, b | Reachable(server, root, a) && Reachable(server, root, b) && a != b
        ensures AnswersDiffer(server, a, b)
      {
        var i :| 0 <= i < |fetched| && fetched[i] == a;
        var j :| 0 <= j < |fetched| && fetched[j] == b;
        assert ids[i] == server(a).value.id && ids[j] == server(b).value.id;
      }
    }
    if OwnIds(server, root) {
      forall i, j | 0 <= i < j < |ids| ensures ids[i] != ids[j] {
        assert fetched[i] in fetched && fetched[j] in fetched;
        assert AnswersDiffer(server, fetched[i], fetched[j]);
      }
      forall i | 0 <= i < |ids| ensures ids[i] != "" {
        assert fetched[i] in fetched;
      }
    }
  }

  lemma {:induction false} ListingIndexes(server: Server, root: string, fetched: seq<string>)
    requires Enumerates(server, root, fetched) && Clean(Ids(Answers(server, fetched)))
    ensures Indexes(server, root, Indexed(Answers(server, fetched)))
  {
    var listing := Answers(server, fetched);
    forall a | Reachable(server, root, a)
      ensures server(a).value.id in Indexed(listing) && Indexed(listing)[server(a).value.id] == server(a).value
    {
      var i :| 0 <= i < |fetched| && fetched[i] == a;
      IndexedHolds(listing, listing[i]);
    }
    forall id | id in Indexed(listing) ensures Answered(server, root, id) {
      var i :| 0 <= i < |listing| && listing[i] == Indexed(listing)[id];
      assert fetched[i] in fetched;
    }
  }

  lemma {:induction false} IndexIsUnique(server: Server, root: string, m: Index, m': Index)
    requires Indexes(server, root, m) && Indexes(server, root, m')
    ensures m == m'
  {
    forall id | id in m ensures id in m' && m'[id] == m[id] {
      assert Answered(server, root, id);
    }
    forall id | id in m' ensures id in m {
      assert Answered(server, root, id);
    }
  }

  /** What assembly accepts, said of the server alone. */
  lemma {:induction false} AssemblesIff(server: Server, root: string, fetched: seq<string>)
    requires Enumerates(server, root, fetched)
    ensures var listing := Answers(server, fetched);
            && (Clean(Ids(listing)) <==> OwnIds(server, root))
            && (Clean(Ids(listing)) && Acyclic(Indexed(listing)) <==> Assembles(server, root))
            && (Assembles(server, root) ==> Indexes(server, root, Indexed(listing)))
  {
    CleanIffOwnIds(server, root, fetched);
    if OwnIds(server, root) {
      ListingIndexes(server, root, fetched);
      if m :| Indexes(server, root, m) && Acyclic(m) {
        IndexIsUnique(server, root, m, Indexed(Answers(server, fetched)));
      }
    }
  }

  // --------------------------------------------- links that agree with lineage

  /** Every reachable id is answered under its own name, and every link names its source as parent. */
  ghost predicate Agrees(server: Server, root: string) {
    && (forall id :: Reachable(server, root, id) ==> id != "" && server(id).Some? && server(id).value.id == id)
    && (forall id, next :: Reachable(server, root, id) && next in Links(server, id) ==> LineageNames(server, next, id))
  }

  ghost predicate LineageNames(server: Server, id: string, parent: string) {
    && server(id).Some?
    && server(id).value.lineage.Some?
    && server(id).value.lineage.value.parentId == parent
  }

  /** The lineage of the root points back into the reachable set. */
  ghost predicate RootHasReachableParent(server: Server, root: string) {
    exists parent :: parent != "" && Reachable(server, root, parent) && LineageNames(server, root, parent)
  }

  /** The listing a completed traversal hands over. */
  ghost predicate Complete(server: Server, root: string, fetched: seq<string>) {
    && Agrees(server, root)
    && Distinct(fetched)
    && forall id :: id in fetched <==> Reachable(server, root, id)
  }

  lemma {:induction false} CompleteIndex(server: Server, root: string, fetched: seq<string>)
    requires Complete(server, root, fetched)
    ensures var listing := Answers(server, fetched);
            && Ids(listing) == fetched && Clean(Ids(listing))
            && forall id :: id in fetched ==> id in Indexed(listing) && Indexed(listing)[id] == server(id).value
  {
    var listing := Answers(server, fetched);
    forall i | 0 <= i < |fetched| ensures listing[i].id == fetched[i] {
      assert fetched[i] in fetched;
    }
    assert Ids(listing) == fetched;
    forall id | id in fetched ensures id in Indexed(listing) && Indexed(listing)[id] == server(id).value {
      var i :| 0 <= i < |fetched| && fetched[i] == id;
      IndexedHolds(listing, listing[i]);
    }
  }

  /** Whatever is linked from a reachable id has that id as its parent in the listing. */
  lemma {:induction false} LinkedParent(server: Server, root: string, fetched: seq<string>, id: string, next: string)
    requires Complete(server, root, fetched)
    requires Reachable(server, root, id) && next in Links(server, id)
    ensures next in Indexed(Answers(server, fetched))
    ensures Parent(Indexed(Answers(server, fetched)), next) == Some(id)
  {
    CompleteIndex(server, root, fetched);
    LinkReachable(server, root, id, next);
    assert LineageNames(server, next, id);
  }

  /** Every reachable id other than the root has a parent in the listing. */
  lemma {:induction false} OthersHaveParents(server: Server, root: string, fetched: seq<string>, id: string)
    requires Complete(server, root, fetched) && Reachable(server, root, id) && id != root
    ensures id in Indexed(Answers(server, fetched)) && Parent(Indexed(Answers(server, fetched)), id).Some?
  {
    var walk :| WalkTo(server, root, id, walk);
    var front := walk[..|walk| - 1];
    assert WalkTo(server, root, front[|front| - 1], front);
    LinkedParent(server, root, fetched, front[|front| - 1], id);
  }

  lemma {:induction false} WalkIsRooted(server: Server, root: string, fetched: seq<string>, walk: seq<string>)
    requires Complete(server, root, fetched) && IsWalk(server, root, walk)
    requires root in Indexed(Answers(server, fetched)) && Parent(Indexed(Answers(server, fetched)), root).None?
    ensures RootedIn(Indexed(Answers(server, fetched)), walk[|walk| - 1], |walk|)
  {
    if |walk| > 1 {
      var front := walk[..|walk| - 1];
      var id := front[|front| - 1];
      WalkIsRooted(server, root, fetched, front);
      assert WalkTo(server, root, id, front);
      LinkedParent(server, root, fetched, id, walk[|walk| - 1]);
    }
  }

  lemma {:induction false} NeverRooted(m: Index, id: string, k: nat)
    requires forall x :: x in m ==> Parent(m, x).Some?
    ensures !RootedIn(m, id, k)
    decreases k
  {
    if id in m && k > 0 {
      NeverRooted(m, Parent(m, id).value, k - 1);
    }
  }

  lemma {:induction false} RootParent(server: Server, root: string, fetched: seq<string>)
    requires Complete(server, root, fetched)
    ensures root in Indexed(Answers(server, fetched))
    ensures Parent(Indexed(Answers(server, fetched)), root).Some? <==> RootHasReachableParent(server, root)
  {
    RootReachable(server, root);
    CompleteIndex(server, root, fetched);
    var m := Indexed(Answers(server, fetched));
    if Parent(m, root).Some? {
      var p := Parent(m, root).value;
      assert p != "" && Reachable(server, root, p) && LineageNames(server, root, p);
    }
  }

  /** A complete listing is free of cycles exactly when the root's own lineage does not lead back into it. */
  lemma {:induction false} CompleteIsAcyclic(server: Server, root: string, fetched: seq<string>)
    requires Complete(server, root, fetched)
    ensures Acyclic(Indexed(Answers(server, fetched))) <==> !RootHasReachableParent(server, root)
  {
    var m := Indexed(Answers(server, fetched));
    RootParent(server, root, fetched);
    CompleteIndex(server, root, fetched);
    AcyclicIffRooted(m);
    if RootHasReachableParent(server, root) {
      forall x | x in m ensures Parent(m, x).Some? {
        if x != root { OthersHaveParents(server, root, fetched, x); }
      }
      forall k: nat ensures !RootedIn(m, root, k) { NeverRooted(m, root, k); }
      assert !Rooted(m, root);
    } else {
      forall x | x in m ensures Rooted(m, x) {
        assert Reachable(server, root, x);
        var walk :| WalkTo(server, root, x, walk);
        WalkIsRooted(server, root, fetched, walk);
      }
    }
  }

  lemma {:induction false} CompleteHasOneRoot(server: Server, root: string, fetched: seq<string>, forest: seq<Node>)
    requires Complete(server, root, fetched) && !RootHasReachableParent(server, root)
    requires IsForest(Indexed(Answers(server, fetched)), forest)
    ensures |forest| == 1 && forest[0].instance.id == root
  {
    RootParent(server, root, fetched);
    CompleteIndex(server, root, fetched);
    forall id ensures id in NodeIds(forest) <==> id == root {
      if id in Indexed(Answers(server, fetched)) && id != root { OthersHaveParents(server, root, fetched, id); }
    }
    OnlyElement(NodeIds(forest), root);
    assert |NodeIds(forest)| == |forest|;
  }

  /** Its forest is then one tree, rooted at the requested id and holding the reachable set. */
  lemma {:induction false} CompleteIsOneTree(server: Server, root: string, fetched: seq<string>, forest: seq<Node>)
    requires Complete(server, root, fetched) && !RootHasReachableParent(server, root)
    requires IsForest(Indexed(Answers(server, fetched)), forest)
    ensures |forest| == 1 && forest[0].instance.id == root
    ensures forall id :: id in TreeIds(forest[0]) <==> Reachable(server, root, id)
  {
    var m := Indexed(Answers(server, fetched));
    CompleteHasOneRoot(server, root, fetched, forest);
    assert forall id :: id in m <==> Reachable(server, root, id) by { CompleteIndex(server, root, fetched); }
    assert ForestIds(forest) == m.Keys by {
      CompleteIsAcyclic(server, root, fetched);
      AcyclicIffRooted(m);
      ForestIdsAreTheRooted(m, forest);
    }
    forall id ensures id in TreeIds(forest[0]) <==> id in ForestIds(forest) {
      ForestIdsAt(forest, id);
    }
  }

  lemma {:induction false} OnlyElement(s: seq<string>, x: string)
    requires Distinct(s) && forall y :: y in s <==> y == x
    ensures s == [x]
  {
    DistinctCount(s);
    assert (set y | y in s) == {x};
  }

  /** `ceremony_tree`: traverse within the bound, then assemble. */
  method FetchTree(server: Server, root: string, maxNodes: nat)
    returns (r: Result<seq<Node>, FetchError>, fetched: seq<string>)
    ensures Distinct(fetched) && |fetched| <= maxNodes
    ensures forall id :: id in fetched ==> Reachable(server, root, id)
    ensures r == Err(NodeLimit) ==> Exceeds(server, root, maxNodes)
    ensures EveryFetchSucceeds(server, root) ==> (r == Err(NodeLimit) <==> Exceeds(server, root, maxNodes))
    ensures r.Ok? <==>
              EveryFetchSucceeds(server, root) && !Exceeds(server, root, maxNodes) && Assembles(server, root)
    ensures r.Ok? ==> exists m :: Indexes(server, root, m) && IsForest(m, r.value)
    ensures BreadthFirst(server, root, fetched)
    ensures r.Err? ==>
              match r.error
              case NodeLimit => |fetched| == maxNodes
              case FetchFailed(id) => server(id) == None && fetched != [] && fetched[|fetched| - 1] == id
              case Listing(e) =>
                && EveryFetchSucceeds(server, root) && !Exceeds(server, root, maxNodes)
                && !Assembles(server, root) && (e == DetachedCycle <==> OwnIds(server, root))
    ensures r.Ok? ==> multiset(PreorderAll(r.value)) == multiset(Answers(server, fetched))
    ensures Agrees(server, root) ==>
              (r.Ok? <==> !Exceeds(server, root, maxNodes) && !RootHasReachableParent(server, root))
    ensures Agrees(server, root) && r.Ok? ==>
              && |r.value| == 1 && r.value[0].instance.id == root
              && forall id :: id in TreeIds(r.value[0]) <==> Reachable(server, root, id)
  {
    var listing;
    listing, fetched := Traverse(server, root, maxNodes);
    if listing.Err? {
      return Err(listing.error), fetched;
    }
    var forest, _ := FromInstances(listing.value);
    AssemblesIff(server, root, fetched);
    if Agrees(server, root) {
      CompleteIndex(server, root, fetched);
      CompleteIsAcyclic(server, root, fetched);
      if forest.Ok? {
        CompleteIsOneTree(server, root, fetched, forest.value);
      }
    }
    r := match forest case Ok(nodes) => Ok(nodes) case Err(e) => Err(Listing(e));
  }
}

/** The offline council snapshot: validation of identities and the canonical order of its collections. */
module CouncilSnapshot {
  import opened Base
  import opened Ordering

  /** A council, agent, contract or deliberation: its identity and everything else. */
  datatype Item = Item(key: string, body: string)

  datatype Snapshot = Snapshot(
    schemaVersion: nat, provenance: string,
    councils: seq<Item>, agents: seq<Item>, contracts: seq<Item>, deliberations: seq<Item>,
    statistics: string)

  /** The per-element checks, which re-run constructors of the domain. */
  datatype Checks = Checks(
    council: Item -> bool, agent: Item -> bool, contract: Item -> bool, deliberation: Item -> bool,
    statistics: string -> bool)

  const MAX_ITEMS := 100_000

  function Keys(items: seq<Item>): seq<string> {
    seq(|items|, i requires 0 <= i < |items| => items[i].key)
  }

  /** `unique`: accepts exactly lists of at most 100,000 distinct keys. */
  method Unique(keys: seq<string>) returns (ok: bool)
    ensures ok <==> |keys| <= 100_000 && Distinct(keys)
  {
    var seen: set<string> := {};
    for i := 0 to |keys|
      invariant Distinct(keys[..i]) && |seen| == i <= MAX_ITEMS
      invariant forall x :: x in seen <==> x in keys[..i]
    {
      assert keys[..i + 1] == keys[..i] + [keys[i]];
      if |seen| >= MAX_ITEMS || keys[i] in seen {
        if keys[i] in seen {
          ghost var j :| 0 <= j < i && keys[..i][j] == keys[i];
          assert keys[j] == keys[i];
        }
        return false;
      }
      seen := seen + {keys[i]};
    }
    assert keys[..|keys|] == keys;
    return true;
  }

  ghost predicate UniqueItems(items: seq<Item>) {
    |items| <= 100_000 && Distinct(Keys(items))
  }

  ghost predicate AllPass(check: Item -> bool, items: seq<Item>) {
    forall i :: 0 <= i < |items| ==> check(items[i])
  }

  ghost predicate Valid(checks: Checks, s: Snapshot) {
    && s.schemaVersion == 1
    && UniqueItems(s.councils) && UniqueItems(s.agents) && UniqueItems(s.contracts) && UniqueItems(s.deliberations)
    && AllPass(checks.council, s.councils) && AllPass(checks.agent, s.agents)
    && AllPass(checks.contract, s.contracts) && AllPass(checks.deliberation, s.deliberations)
    && checks.statistics(s.statistics)
  }

  /** `validate`. */
  method Validate(checks: Checks, s: Snapshot) returns (ok: bool)
    ensures ok <==> Valid(checks, s)
  {
    if s.schemaVersion != 1 {
      return false;
    }
    ok := Unique(Keys(s.councils));
    if !ok { return false; }
    ok := Unique(Keys(s.agents));
    if !ok { return false; }
    ok := Unique(Keys(s.contracts));
    if !ok { return false; }
    ok := Unique(Keys(s.deliberations));
    if !ok { return false; }
    var councils := CheckAll(checks.council, s.councils);
    var agents := CheckAll(checks.agent, s.agents);
    var contracts := CheckAll(checks.contract, s.contracts);
    var deliberations := CheckAll(checks.deliberation, s.deliberations);
    return councils && agents && contracts && deliberations && checks.statistics(s.statistics);
  }

  method CheckAll(check: Item -> bool, items: seq<Item>) returns (ok: bool)
    ensures ok <==> AllPass(check, items)
  {
    for i := 0 to |items|
      invariant forall j :: 0 <= j < i ==> check(items[j])
    {
      if !check(items[i]) {
        return false;
      }
    }
    return true;
  }

  // ----------------------------------------------------------- canonical order

  predicate KeyLe(a: Item, b: Item) {
    StringLe(a.key, b.key)
  }

  function Canonical(s: Snapshot): Snapshot {
    s.(councils := Sort(KeyLe, s.councils), agents := Sort(KeyLe, s.agents),
       contracts := Sort(KeyLe, s.contracts), deliberations := Sort(KeyLe, s.deliberations))
  }

  /** The same collections up to the order of their items. */
  ghost predicate Reorders(s: Snapshot, t: Snapshot) {
    && s.schemaVersion == t.schemaVersion && s.provenance == t.provenance && s.statistics == t.statistics
    && multiset(s.councils) == multiset(t.councils) && multiset(s.agents) == multiset(t.agents)
    && multiset(s.contracts) == multiset(t.contracts) && multiset(s.deliberations) == multiset(t.deliberations)
  }

  lemma {:induction false} KeyLeIsTotal()
    ensures TotalPreorder(KeyLe)
  {
    forall a: Item, b: Item ensures KeyLe(a, b) || KeyLe(b, a) {
      StringLeTotal(a.key, b.key);
    }
    forall a: Item, b: Item, c: Item | KeyLe(a, b) && KeyLe(b, c) ensures KeyLe(a, c) {
      StringLeTransitive(a.key, b.key, c.key);
    }
  }

  lemma {:induction false} DistinctKeysSeparate(items: seq<Item>)
    requires Distinct(Keys(items))
    ensures Separates(KeyLe, items)
  {
    forall a, b | a in items && b in items && KeyLe(a, b) && KeyLe(b, a) ensures a == b {
      StringLeTotal(a.key, b.key);
      SameKeySameItem(items, a, b);
    }
  }

  /** Sorting a collection with distinct keys forgets its order and nothing else. */
  lemma {:induction false} SortForgetsOrder(items: seq<Item>, other: seq<Item>)
    requires Distinct(Keys(items))
    ensures Sort(KeyLe, items) == Sort(KeyLe, other) <==> multiset(items) == multiset(other)
  {
    if multiset(items) == multiset(other) {
      KeyLeIsTotal();
      SortSorts(KeyLe, items);
      SortSorts(KeyLe, other);
      DistinctKeysSeparate(items);
      SortedIsUnique(KeyLe, Sort(KeyLe, items), Sort(KeyLe, other));
    }
  }

  lemma {:induction false} SameKeySameItem(items: seq<Item>, a: Item, b: Item)
    requires Distinct(Keys(items)) && a in items && b in items && a.key == b.key
    ensures a == b
  {
    var i :| 0 <= i < |items| && items[i] == a;
    var j :| 0 <= j < |items| && items[j] == b;
    assert Keys(items)[i] == Keys(items)[j];
  }

  lemma {:induction false} DistinctItems(items: seq<Item>)
    requires Distinct(Keys(items))
    ensures Distinct(items)
  {
    forall i, j | 0 <= i < j < |items| ensures items[i] != items[j] {
      assert Keys(items)[i] != Keys(items)[j];
    }
  }

  /** Uniqueness and the element checks do not depend on the order. */
  lemma {:induction false} ValidityIgnoresOrder(check: Item -> bool, items: seq<Item>, other: seq<Item>)
    requires multiset(items) == multiset(other) && UniqueItems(items) && AllPass(check, items)
    ensures UniqueItems(other) && AllPass(check, other)
  {
    assert |multiset(items)| == |items| && |multiset(other)| == |other|;
    DistinctItems(items);
    DistinctByMultiset(items);
    DistinctByMultiset(other);
    forall i | 0 <= i < |other| ensures other[i] in items && check(other[i]) {
      assert other[i] in multiset(items);
    }
    forall i, j | 0 <= i < j < |other| ensures Keys(other)[i] != Keys(other)[j] {
      if other[i].key == other[j].key {
        SameKeySameItem(items, other[i], other[j]);
      }
    }
  }

  lemma {:induction false} ReorderingKeepsValidity(checks: Checks, s: Snapshot, t: Snapshot)
    requires Reorders(s, t) && Valid(checks, s)
    ensures Valid(checks, t)
  {
    ValidityIgnoresOrder(checks.council, s.councils, t.councils);
    ValidityIgnoresOrder(checks.agent, s.agents, t.agents);
    ValidityIgnoresOrder(checks.contract, s.contracts, t.contracts);
    ValidityIgnoresOrder(checks.deliberation, s.deliberations, t.deliberations);
  }

  /** `canonicalized` reorders, keeps validity both ways, and is idempotent. */
  lemma {:induction false} CanonicalReorders(checks: Checks, s: Snapshot)
    ensures Reorders(s, Canonical(s))
    ensures Valid(checks, s) <==> Valid(checks, Canonical(s))
    ensures Canonical(Canonical(s)) == Canonical(s)
  {
    if Valid(checks, s) { ReorderingKeepsValidity(checks, s, Canonical(s)); }
    if Valid(checks, Canonical(s)) { ReorderingKeepsValidity(checks, Canonical(s), s); }
    CanonicalIsFixed(s.councils);
    CanonicalIsFixed(s.agents);
    CanonicalIsFixed(s.contracts);
    CanonicalIsFixed(s.deliberations);
  }

  lemma {:induction false} CanonicalIsFixed(items: seq<Item>)
    ensures Sort(KeyLe, Sort(KeyLe, items)) == Sort(KeyLe, items)
  {
    KeyLeIsTotal();
    SortSorts(KeyLe, items);
    SortFixesSorted(KeyLe, Sort(KeyLe, items));
  }

  /** Canonical form: valid snapshots canonicalise to the same value exactly when they differ by reordering only. */
  lemma {:induction false} CanonicalForm(checks: Checks, s: Snapshot, t: Snapshot)
    requires Valid(checks, s) && Valid(checks, t)
    ensures Canonical(s) == Canonical(t) <==> Reorders(s, t)
  {
    SortForgetsOrder(s.councils, t.councils);
    SortForgetsOrder(s.agents, t.agents);
    SortForgetsOrder(s.contracts, t.contracts);
    SortForgetsOrder(s.deliberations, t.deliberations);
  }

  /** The items under one key, in their order. */
  function OfKey(key: string, items: seq<Item>): seq<Item> {
    if items == [] then []
    else if items[0].key == key then [items[0]] + OfKey(key, items[1..])
    else OfKey(key, items[1..])
  }

  ghost predicate SamePerKey(items: seq<Item>, other: seq<Item>) {
    forall key :: OfKey(key, items) == OfKey(key, other)
  }

  lemma {:induction false} KeyClass(x: Item, items: seq<Item>)
    ensures ClassOf(KeyLe, x, items) == OfKey(x.key, items)
  {
    if items != [] {
      KeyClass(x, items[1..]);
      StringLeTotal(x.key, items[0].key);
    }
  }

  lemma {:induction false} SortsAlikeIff(items: seq<Item>, other: seq<Item>)
    ensures Sort(KeyLe, items) == Sort(KeyLe, other) <==> SamePerKey(items, other)
  {
    KeyLeIsTotal();
    SortAgreesIff(KeyLe, items, other);
    if SameClasses(KeyLe, items, other) {
      forall key ensures OfKey(key, items) == OfKey(key, other) {
        var x := Item(key, "");
        assert ClassOf(KeyLe, x, items) == ClassOf(KeyLe, x, other);
        KeyClass(x, items);
        KeyClass(x, other);
      }
    }
    if SamePerKey(items, other) {
      forall x ensures ClassOf(KeyLe, x, items) == ClassOf(KeyLe, x, other) {
        KeyClass(x, items);
        KeyClass(x, other);
      }
    }
  }

  /**
   * On all snapshots, valid or not: the canonical forms agree exactly when the items under each key come
   * in the same order, because the sort is stable.
   */
  lemma {:induction false} CanonicalAgreesIff(s: Snapshot, t: Snapshot)
    ensures Canonical(s) == Canonical(t) <==>
              && s.schemaVersion == t.schemaVersion && s.provenance == t.provenance && s.statistics == t.statistics
              && SamePerKey(s.councils, t.councils) && SamePerKey(s.agents, t.agents)
              && SamePerKey(s.contracts, t.contracts) && SamePerKey(s.deliberations, t.deliberations)
  {
    SortsAlikeIff(s.councils, t.councils);
    SortsAlikeIff(s.agents, t.agents);
    SortsAlikeIff(s.contracts, t.contracts);
    SortsAlikeIff(s.deliberations, t.deliberations);
  }

  /** So validity is needed for a canonical form: two items under one key in two orders. */
  lemma {:induction false} RepeatedKeysKeepTheirOrder(a: Item, b: Item)
    requires a.key == b.key && a != b
    ensures multiset([a, b]) == multiset([b, a]) && Sort(KeyLe, [a, b]) != Sort(KeyLe, [b, a])
  {
    assert [a, b][1..] == [b] && [b, a][1..] == [a] && [a][1..] == [] && [b][1..] == [];
    assert OfKey(a.key, [a, b])[0] == a && OfKey(a.key, [b, a])[0] == b;
    SortsAlikeIff([a, b], [b, a]);
  }
}

/** Orders and stable sorting, as `BTreeMap`, `BTreeSet`, `sort` and `sort_by` use them. */
module Ordering {
  import opened Base

  /** Rust compares strings by their UTF-8 bytes, which is the order of their code points. */
  predicate StringLe(a: string, b: string) {
    a == [] || (b != [] && (a[0] < b[0] || (a[0] == b[0] && StringLe(a[1..], b[1..]))))
  }

  ghost predicate DiffersAt(a: string, b: string, k: int) {
    0 <= k < |a| && k < |b| && a[..k] == b[..k] && a[k] < b[k]
  }

  /** One is the beginning of the other, or the first character in which they differ decides. */
  lemma {:induction false} StringLeIs(a: string, b: string)
    ensures StringLe(a, b) <==> a <= b || exists k :: DiffersAt(a, b, k)
  {
    if a != [] && b != [] {
      var x, y := a[1..], b[1..];
      assert a == [a[0]] + x && b == [b[0]] + y;
      StringLeIs(x, y);
      if a[0] < b[0] {
        assert DiffersAt(a, b, 0);
      }
      if a[0] == b[0] {
        if k :| DiffersAt(x, y, k) {
          assert a[..k + 1] == [a[0]] + x[..k] && b[..k + 1] == [b[0]] + y[..k];
          assert DiffersAt(a, b, k + 1);
        }
      }
      if k :| DiffersAt(a, b, k) {
        if k > 0 {
          assert a[..k][0] == b[..k][0];
          assert x[..k - 1] == a[..k][1..] && y[..k - 1] == b[..k][1..];
          assert DiffersAt(x, y, k - 1);
        }
      }
    }
  }

  ghost predicate TotalPreorder<T(!new)>(le: (T, T) -> bool) {
    && (forall a, b :: le(a, b) || le(b, a))
    && (forall a, b, c :: le(a, b) && le(b, c) ==> le(a, c))
  }

  /** No two different members of `s` are equivalent under `le`. */
  ghost predicate Separates<T(!new)>(le: (T, T) -> bool, s: seq<T>) {
    forall a, b :: a in s && b in s && le(a, b) && le(b, a) ==> a == b
  }

  ghost predicate SortedBy<T(!new)>(le: (T, T) -> bool, s: seq<T>) {
    forall i, j :: 0 <= i < j < |s| ==> le(s[i], s[j])
  }

  lemma {:induction false} StringLeTotal(a: string, b: string)
    ensures StringLe(a, b) || StringLe(b, a)
    ensures StringLe(a, b) && StringLe(b, a) ==> a == b
  {
    if a != [] && b != [] {
      StringLeTotal(a[1..], b[1..]);
      assert a == [a[0]] + a[1..] && b == [b[0]] + b[1..];
    }
  }

  lemma {:induction false} StringLeTransitive(a: string, b: string, c: string)
    requires StringLe(a, b) && StringLe(b, c)
    ensures StringLe(a, c)
  {
    if a != [] && a[0] == b[0] && b[0] == c[0] {
      StringLeTransitive(a[1..], b[1..], c[1..]);
    }
  }

  lemma {:induction false} StringLeIsTotal()
    ensures TotalPreorder(StringLe)
  {
    forall a, b ensures StringLe(a, b) || StringLe(b, a) {
      StringLeTotal(a, b);
    }
    forall a, b, c | StringLe(a, b) && StringLe(b, c) ensures StringLe(a, c) {
      StringLeTransitive(a, b, c);
    }
  }

  lemma {:induction false} StringLeSeparates(s: seq<string>)
    ensures Separates(StringLe, s)
  {
    forall a, b | a in s && b in s && StringLe(a, b) && StringLe(b, a) ensures a == b {
      StringLeTotal(a, b);
    }
  }

  /** Puts `x` in front of the first element it does not exceed. */
  function Insert<T(!new)>(le: (T, T) -> bool, x: T, s: seq<T>): (r: seq<T>)
    ensures multiset(r) == multiset(s) + multiset{x}
  {
    if s == [] || le(x, s[0]) then [x] + s
    else
      assert s == [s[0]] + s[1..];
      [s[0]] + Insert(le, x, s[1..])
  }

  /** Stable sort: equivalent elements keep their relative order. */
  function Sort<T(!new)>(le: (T, T) -> bool, s: seq<T>): (r: seq<T>)
    ensures multiset(r) == multiset(s)
    ensures |r| == |s|
    ensures forall x :: x in r <==> x in s
  {
    var r :=
      if s == [] then []
      else
        assert s == [s[0]] + s[1..];
        Insert(le, s[0], Sort(le, s[1..]));
    assert |multiset(r)| == |r| && |multiset(s)| == |s|;
    assert forall x :: x in r <==> x in multiset(r);
    assert forall x :: x in s <==> x in multiset(s);
    r
  }

  lemma {:induction false} InsertKeepsSorted<T(!new)>(le: (T, T) -> bool, x: T, s: seq<T>)
    requires TotalPreorder(le) && SortedBy(le, s)
    ensures SortedBy(le, Insert(le, x, s))
  {
    if s != [] && !le(x, s[0]) {
      InsertKeepsSorted(le, x, s[1..]);
      var tail := Insert(le, x, s[1..]);
      forall y | y in tail ensures le(s[0], y) {
        assert y in multiset(tail);
      }
    }
  }

  lemma {:induction false} SortSorts<T(!new)>(le: (T, T) -> bool, s: seq<T>)
    requires TotalPreorder(le)
    ensures SortedBy(le, Sort(le, s))
  {
    if s != [] {
      SortSorts(le, s[1..]);
      InsertKeepsSorted(le, s[0], Sort(le, s[1..]));
    }
  }

  lemma {:induction false} SortedHeadIsLeast<T(!new)>(le: (T, T) -> bool, s: seq<T>, x: T)
    requires TotalPreorder(le) && SortedBy(le, s) && x in s
    ensures le(s[0], x)
  {
  }

  /** A sorted arrangement of given elements is unique when the order separates them. */
  lemma {:induction false} SortedIsUnique<T(!new)>(le: (T, T) -> bool, s: seq<T>, t: seq<T>)
    requires TotalPreorder(le) && SortedBy(le, s) && SortedBy(le, t)
    requires Separates(le, s)
    requires multiset(s) == multiset(t)
    ensures s == t
  {
    assert |multiset(s)| == |s| && |multiset(t)| == |t|;
    if s != [] {
      assert s[0] == t[0] by {
        assert s[0] in multiset(t) && t[0] in multiset(s);
        SortedHeadIsLeast(le, s, t[0]);
        SortedHeadIsLeast(le, t, s[0]);
      }
      assert s == [s[0]] + s[1..] && t == [s[0]] + t[1..];
      assert multiset(s[1..]) == multiset(s) - multiset{s[0]};
      assert multiset(t[1..]) == multiset(t) - multiset{s[0]};
      SortedIsUnique(le, s[1..], t[1..]);
    }
  }

  /** Sorting is idempotent: a sorted sequence is left alone. */
  lemma {:induction false} SortFixesSorted<T(!new)>(le: (T, T) -> bool, s: seq<T>)
    requires TotalPreorder(le) && SortedBy(le, s)
    ensures Sort(le, s) == s
  {
    if s != [] {
      SortFixesSorted(le, s[1..]);
      assert s == [s[0]] + s[1..];
      assert |s| > 1 ==> le(s[0], s[1]);
    }
  }

  /** A sequence sorted by a separating order and without repetition is determined by its elements. */
  lemma {:induction false} SortedByElements<T(!new)>(le: (T, T) -> bool, s: seq<T>, t: seq<T>)
    requires TotalPreorder(le) && SortedBy(le, s) && SortedBy(le, t)
    requires Separates(le, s)
    requires Distinct(s) && Distinct(t)
    requires forall x :: x in s <==> x in t
    ensures s == t
  {
    SameElements(s, t);
    SortedIsUnique(le, s, t);
  }

  lemma {:induction false} SortedStringsByElements(s: seq<string>, t: seq<string>)
    requires SortedBy(StringLe, s) && SortedBy(StringLe, t)
    requires Distinct(s) && Distinct(t)
    requires forall x :: x in s <==> x in t
    ensures s == t
  {
    StringLeIsTotal();
    StringLeSeparates(s);
    SortedByElements(StringLe, s, t);
  }

  // ---------------------------------------------------------------- stability

  predicate Equivalent<T(!new)>(le: (T, T) -> bool, x: T, y: T) {
    le(x, y) && le(y, x)
  }

  /** The members of `s` equivalent to `x`, in their order. */
  function ClassOf<T(!new)>(le: (T, T) -> bool, x: T, s: seq<T>): seq<T> {
    if s == [] then []
    else if Equivalent(le, x, s[0]) then [s[0]] + ClassOf(le, x, s[1..])
    else ClassOf(le, x, s[1..])
  }

  lemma {:induction false} InsertIsStable<T(!new)>(le: (T, T) -> bool, x: T, y: T, s: seq<T>)
    requires TotalPreorder(le)
    ensures ClassOf(le, x, Insert(le, y, s)) == ClassOf(le, x, [y] + s)
  {
    assert ([y] + s)[1..] == s;
    if s != [] && !le(y, s[0]) {
      InsertIsStable(le, x, y, s[1..]);
      assert ([y] + s[1..])[1..] == s[1..];
      assert Insert(le, y, s)[1..] == Insert(le, y, s[1..]);
    }
  }

  /** Stability: sorting keeps the order of equivalent members. */
  lemma {:induction false} SortIsStable<T(!new)>(le: (T, T) -> bool, x: T, s: seq<T>)
    requires TotalPreorder(le)
    ensures ClassOf(le, x, Sort(le, s)) == ClassOf(le, x, s)
  {
    if s != [] {
      SortIsStable(le, x, s[1..]);
      InsertIsStable(le, x, s[0], Sort(le, s[1..]));
      assert ([s[0]] + Sort(le, s[1..]))[1..] == Sort(le, s[1..]);
    }
  }

  lemma {:induction false} ClassHolds<T(!new)>(le: (T, T) -> bool, x: T, s: seq<T>, y: T)
    ensures y in ClassOf(le, x, s) <==> y in s && Equivalent(le, x, y)
  {
    if s != [] {
      ClassHolds(le, x, s[1..], y);
    }
  }

  ghost predicate SameClasses<T(!new)>(le: (T, T) -> bool, s: seq<T>, t: seq<T>) {
    forall x :: ClassOf(le, x, s) == ClassOf(le, x, t)
  }

  /** Equal classes start sorted sequences with the same element. */
  lemma {:induction false} SameFirst<T(!new)>(le: (T, T) -> bool, s: seq<T>, t: seq<T>)
    requires TotalPreorder(le) && SortedBy(le, s) && SortedBy(le, t) && SameClasses(le, s, t) && s != []
    ensures t != [] && s[0] == t[0]
  {
    assert Equivalent(le, s[0], s[0]);
    ClassHolds(le, s[0], s, s[0]);
    ClassHolds(le, s[0], t, s[0]);
    assert s[0] in t && Equivalent(le, t[0], t[0]);
    ClassHolds(le, t[0], t, t[0]);
    ClassHolds(le, t[0], s, t[0]);
    assert ClassOf(le, t[0], s) == ClassOf(le, t[0], t);
    SortedHeadIsLeast(le, s, t[0]);
    SortedHeadIsLeast(le, t, s[0]);
    assert ClassOf(le, s[0], s)[0] == s[0] && ClassOf(le, s[0], t)[0] == t[0];
  }

  /** A sorted sequence is determined by the orders within its classes. */
  lemma {:induction false} SortedByClasses<T(!new)>(le: (T, T) -> bool, s: seq<T>, t: seq<T>)
    requires TotalPreorder(le) && SortedBy(le, s) && SortedBy(le, t) && SameClasses(le, s, t)
    ensures s == t
  {
    if s == [] {
      if t != [] {
        SameFirst(le, t, s);
      }
    } else {
      SameFirst(le, s, t);
      forall x ensures ClassOf(le, x, s[1..]) == ClassOf(le, x, t[1..]) {
        assert ClassOf(le, x, s) == ClassOf(le, x, t);
        if Equivalent(le, x, s[0]) {
          assert ClassOf(le, x, s)[1..] == ClassOf(le, x, s[1..]) && ClassOf(le, x, t)[1..] == ClassOf(le, x, t[1..]);
        }
      }
      SortedByClasses(le, s[1..], t[1..]);
      assert s == [s[0]] + s[1..] && t == [t[0]] + t[1..];
    }
  }

  /** Two sequences sort to the same exactly when they order equivalent members alike. */
  lemma {:induction false} SortAgreesIff<T(!new)>(le: (T, T) -> bool, s: seq<T>, t: seq<T>)
    requires TotalPreorder(le)
    ensures Sort(le, s) == Sort(le, t) <==> SameClasses(le, s, t)
  {
    forall x ensures ClassOf(le, x, Sort(le, s)) == ClassOf(le, x, s)
        && ClassOf(le, x, Sort(le, t)) == ClassOf(le, x, t) {
      SortIsStable(le, x, s);
      SortIsStable(le, x, t);
    }
    if SameClasses(le, s, t) {
      SortSorts(le, s);
      SortSorts(le, t);
      SortedByClasses(le, Sort(le, s), Sort(le, t));
    }
  }
}

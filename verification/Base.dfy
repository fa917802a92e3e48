/** Types shared by every module: optional values, results and the `u64` range of the source. */
module Base {

  datatype Option<+T> = None | Some(value: T)

  datatype Result<+T, +E> = Ok(value: T) | Err(error: E)

  const U64_MAX := 0xFFFF_FFFF_FFFF_FFFF

  type u64 = x: int | 0 <= x <= U64_MAX

  type byte = x: int | 0 <= x < 256

  /** Rust's `u64::saturating_add(_, 1)`. */
  function SaturatingNext(x: u64): (r: u64)
    ensures x <= r <= x + 1 && (r == x ==> x == U64_MAX)
  {
    if x == U64_MAX then x else x + 1
  }

  /** Rust's `u64::saturating_sub(_, 1)`. */
  function SaturatingPrev(x: u64): (r: u64)
    ensures r <= x <= r + 1 && (r == x ==> x == 0)
  {
    if x == 0 then 0 else x - 1
  }

  ghost predicate Distinct<T(!new)>(s: seq<T>) {
    forall i, j :: 0 <= i < j < |s| ==> s[i] != s[j]
  }

  /** A sequence without repetition has as many elements as positions. */
  lemma {:induction false} DistinctCount<T(!new)>(s: seq<T>)
    requires Distinct(s)
    ensures |set x | x in s| == |s|
  {
    if s != [] {
      var front, last := s[..|s| - 1], s[|s| - 1];
      DistinctCount(front);
      assert s == front + [last];
      assert (set x | x in s) == (set x | x in front) + {last};
    }
  }

  lemma {:induction false} SubsetCount<T>(a: set<T>, b: set<T>)
    requires a <= b
    ensures |a| <= |b|
    ensures |a| == |b| ==> a == b
  {
    assert b == a + (b - a);
    assert |b| == |a| + |b - a|;
  }

  /** Pigeonhole: more positions than available values forces a repetition. */
  lemma {:induction false} Pigeonhole<T(!new)>(s: seq<T>, values: set<T>) returns (i: nat, j: nat)
    requires forall x :: x in s ==> x in values
    requires |s| > |values|
    ensures i < j < |s| && s[i] == s[j]
  {
    if Distinct(s) {
      DistinctCount(s);
      SubsetCount((set x | x in s), values);
      assert false;
    }
    i, j :| 0 <= i < j < |s| && s[i] == s[j];
  }

  /** No repetition, said of the multiset: it therefore carries over to every reordering. */
  lemma {:induction false} DistinctByMultiset<T(!new)>(s: seq<T>)
    ensures Distinct(s) <==> forall x :: multiset(s)[x] <= 1
  {
    if s != [] {
      var front, last := s[..|s| - 1], s[|s| - 1];
      assert s == front + [last];
      DistinctByMultiset(front);
      if Distinct(s) {
        assert last !in front;
        assert multiset(s) == multiset(front) + multiset{last};
      } else if !Distinct(front) {
        var x :| multiset(front)[x] > 1;
        assert multiset(s)[x] > 1;
      } else {
        forall i, j | 0 <= i < j < |front| ensures s[i] != s[j] {
          assert front[i] != front[j];
        }
        var i, j :| 0 <= i < j < |s| && s[i] == s[j];
        assert front[i] == last;
        assert multiset(s)[last] > 1;
      }
    }
  }

  lemma {:induction false} SameElements<T(!new)>(s: seq<T>, t: seq<T>)
    requires Distinct(s) && Distinct(t)
    requires forall x :: x in s <==> x in t
    ensures multiset(s) == multiset(t)
  {
    DistinctByMultiset(s);
    DistinctByMultiset(t);
    forall x ensures multiset(s)[x] == multiset(t)[x] {
      assert x in multiset(s) <==> x in s;
      assert x in multiset(t) <==> x in t;
    }
  }
}

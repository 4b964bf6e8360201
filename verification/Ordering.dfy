/** Sorting by a total order and removing adjacent duplicates, as the standard library does. */
module Ordering {
  ghost predicate TotalOrder<T(!new)>(leq: (T, T) -> bool) {
    && (forall a, b :: leq(a, b) || leq(b, a))
    && (forall a, b :: leq(a, b) && leq(b, a) ==> a == b)
    && (forall a, b, c :: leq(a, b) && leq(b, c) ==> leq(a, c))
  }

  ghost predicate Sorted<T>(s: seq<T>, leq: (T, T) -> bool) {
    forall i, j :: 0 <= i < j < |s| ==> leq(s[i], s[j])
  }

  function Insert<T>(x: T, s: seq<T>, leq: (T, T) -> bool): (r: seq<T>)
    ensures multiset(r) == multiset(s) + multiset{x}
  {
    if s == [] || leq(x, s[0]) then [x] + s
    else
      assert s == [s[0]] + s[1..];
      [s[0]] + Insert(x, s[1..], leq)
  }

  function Sort<T>(s: seq<T>, leq: (T, T) -> bool): (r: seq<T>)
    ensures multiset(r) == multiset(s)
  {
    if s == [] then []
    else
      assert s == [s[0]] + s[1..];
      Insert(s[0], Sort(s[1..], leq), leq)
  }

  lemma {:induction false} InsertSorted<T(!new)>(x: T, s: seq<T>, leq: (T, T) -> bool)
    requires TotalOrder(leq) && Sorted(s, leq)
    ensures Sorted(Insert(x, s, leq), leq)
  {
    if s != [] && !leq(x, s[0]) {
      var rest := Insert(x, s[1..], leq);
      InsertSorted(x, s[1..], leq);
      forall j | 0 <= j < |rest| ensures leq(s[0], rest[j]) {
        assert rest[j] in multiset(rest);
        assert rest[j] == x || rest[j] in s[1..];
      }
    }
  }

  lemma {:induction false} SortSorted<T(!new)>(s: seq<T>, leq: (T, T) -> bool)
    requires TotalOrder(leq)
    ensures Sorted(Sort(s, leq), leq)
  {
    if s != [] {
      SortSorted(s[1..], leq);
      InsertSorted(s[0], Sort(s[1..], leq), leq);
    }
  }

  lemma HeadIsLeast<T(!new)>(a: seq<T>, b: seq<T>, leq: (T, T) -> bool)
    requires TotalOrder(leq) && Sorted(a, leq) && Sorted(b, leq) && a != [] && b != []
    requires a[0] in b && b[0] in a
    ensures a[0] == b[0]
  {
  }

  /** A sorted sequence is determined by its elements and their multiplicities. */
  lemma {:induction false} SortedUnique<T(!new)>(a: seq<T>, b: seq<T>, leq: (T, T) -> bool)
    requires TotalOrder(leq) && Sorted(a, leq) && Sorted(b, leq) && multiset(a) == multiset(b)
    ensures a == b
    decreases |a|
  {
    if a == [] {
      assert |multiset(b)| == |b|;
    } else {
      assert a[0] in multiset(b);
      assert b != [] && b[0] in multiset(a);
      HeadIsLeast(a, b, leq);
      HeadAndTail(a);
      HeadAndTail(b);
      TailSorted(a, leq);
      TailSorted(b, leq);
      SortedUnique(a[1..], b[1..], leq);
    }
  }

  lemma HeadAndTail<T>(s: seq<T>)
    requires s != []
    ensures s == [s[0]] + s[1..] && multiset(s[1..]) == multiset(s) - multiset{s[0]}
  {
    assert s == [s[0]] + s[1..];
  }

  lemma TailSorted<T(!new)>(s: seq<T>, leq: (T, T) -> bool)
    requires Sorted(s, leq) && s != []
    ensures Sorted(s[1..], leq)
  {
  }

  // Keeps the first of each run of equal neighbours.
  function Dedup<T(==)>(s: seq<T>): seq<T>
    decreases |s|
  {
    if |s| <= 1 then s
    else if s[0] == s[1] then Dedup([s[0]] + s[2..])
    else [s[0]] + Dedup(s[1..])
  }

  predicate NoRepeats<T(==)>(s: seq<T>) {
    forall i, j :: 0 <= i < j < |s| ==> s[i] != s[j]
  }

  lemma {:induction false} DedupElements<T(!new)>(s: seq<T>)
    ensures forall x :: x in Dedup(s) <==> x in s
    ensures s != [] ==> Dedup(s) != [] && Dedup(s)[0] == s[0]
    decreases |s|
  {
    if |s| > 1 {
      if s[0] == s[1] {
        DedupElements([s[0]] + s[2..]);
        forall x ensures x in [s[0]] + s[2..] <==> x in s {
          if x in s {
            var i :| 0 <= i < |s| && s[i] == x;
            assert i >= 2 ==> s[2..][i - 2] == x;
          }
        }
      } else {
        DedupElements(s[1..]);
        assert s == [s[0]] + s[1..];
      }
    }
  }

  lemma {:induction false} DedupSorted<T(!new)>(s: seq<T>, leq: (T, T) -> bool)
    requires TotalOrder(leq) && Sorted(s, leq)
    ensures Sorted(Dedup(s), leq) && NoRepeats(Dedup(s))
    decreases |s|
  {
    if |s| > 1 {
      if s[0] == s[1] {
        DedupSorted([s[0]] + s[2..], leq);
      } else {
        var rest := Dedup(s[1..]);
        DedupSorted(s[1..], leq);
        DedupElements(s[1..]);
        forall j | 0 <= j < |rest| ensures leq(s[0], rest[j]) && s[0] != rest[j] {
          assert rest[j] in s[1..];
          var i :| 1 <= i < |s| && s[i] == rest[j];
          assert leq(s[0], s[1]) && (i > 1 ==> leq(s[1], s[i]));
        }
      }
    }
  }

  // The canonical form of a collection whose order and repetitions carry no meaning.
  function Canonical<T(==)>(s: seq<T>, leq: (T, T) -> bool): seq<T> {
    Dedup(Sort(s, leq))
  }

  // The first elements, all distinct, as a set.
  ghost predicate Seen<T(!new)>(s: seq<T>, i: nat, seen: set<T>) {
    && i <= |s| && |seen| == i && NoRepeats(s[..i])
    && forall x :: x in seen <==> x in s[..i]
  }

  lemma SeeOne<T(!new)>(s: seq<T>, i: nat, seen: set<T>)
    requires Seen(s, i, seen) && i < |s|
    ensures if s[i] in seen then !NoRepeats(s) else Seen(s, i + 1, seen + {s[i]})
  {
    if s[i] in seen {
      var j :| 0 <= j < i && s[..i][j] == s[i];
      assert s[j] == s[i];
    } else {
      assert s[..i + 1] == s[..i] + [s[i]];
    }
  }

  lemma NoRepeatsMultiset<T>(s: seq<T>, x: T)
    requires NoRepeats(s)
    ensures multiset(s)[x] == if x in s then 1 else 0
  {
    if s != [] {
      assert s == [s[0]] + s[1..];
      assert forall i, j :: 0 <= i < j < |s[1..]| ==> s[1..][i] == s[i + 1] && s[1..][j] == s[j + 1];
      assert s[0] !in s[1..];
      NoRepeatsMultiset(s[1..], x);
    }
  }

  lemma RepeatCounted<T>(s: seq<T>, i: nat, j: nat)
    requires i < j < |s| && s[i] == s[j]
    ensures multiset(s)[s[i]] >= 2
  {
    assert s == s[..j] + [s[j]] + s[j + 1..];
    assert s[..j][i] == s[i];
    assert s[i] in multiset(s[..j]);
  }

  lemma DistinctByCount<T(!new)>(s: seq<T>)
    requires forall x :: multiset(s)[x] <= 1
    ensures NoRepeats(s)
  {
    forall i, j | 0 <= i < j < |s| ensures s[i] != s[j] {
      if s[i] == s[j] {
        RepeatCounted(s, i, j);
      }
    }
  }

  // Collections without repetitions are the same multiset exactly when they hold the same elements.
  lemma DistinctSame<T(!new)>(a: seq<T>, b: seq<T>)
    requires NoRepeats(a) && NoRepeats(b)
    ensures multiset(a) == multiset(b) <==> forall x :: x in a <==> x in b
  {
    if forall x :: x in a <==> x in b {
      forall x ensures multiset(a)[x] == multiset(b)[x] {
        NoRepeatsMultiset(a, x);
        NoRepeatsMultiset(b, x);
      }
    } else {
      var x :| (x in a) != (x in b);
      assert (x in multiset(a)) != (x in multiset(b));
    }
  }

  /** Two collections sort alike exactly when they are permutations of each other. */
  lemma SortExactly<T(!new)>(a: seq<T>, b: seq<T>, leq: (T, T) -> bool)
    requires TotalOrder(leq)
    ensures Sort(a, leq) == Sort(b, leq) <==> multiset(a) == multiset(b)
  {
    if multiset(a) == multiset(b) {
      SortSorted(a, leq);
      SortSorted(b, leq);
      SortedUnique(Sort(a, leq), Sort(b, leq), leq);
    }
  }

  lemma SortElements<T(!new)>(s: seq<T>, leq: (T, T) -> bool)
    ensures forall x :: x in Sort(s, leq) <==> x in s
  {
    forall x ensures x in Sort(s, leq) <==> x in s {
      assert x in Sort(s, leq) <==> x in multiset(Sort(s, leq));
    }
  }

  lemma CanonicalElements<T(!new)>(s: seq<T>, leq: (T, T) -> bool)
    requires TotalOrder(leq)
    ensures NoRepeats(Canonical(s, leq)) && forall x :: x in Canonical(s, leq) <==> x in s
  {
    SortSorted(s, leq);
    SortElements(s, leq);
    DedupElements(Sort(s, leq));
    DedupSorted(Sort(s, leq), leq);
  }

  /** Two collections have the same canonical form exactly when they hold the same elements. */
  lemma CanonicalExactly<T(!new)>(a: seq<T>, b: seq<T>, leq: (T, T) -> bool)
    requires TotalOrder(leq)
    ensures Canonical(a, leq) == Canonical(b, leq) <==> (forall x :: x in a <==> x in b)
  {
    var ca, cb := Canonical(a, leq), Canonical(b, leq);
    CanonicalElements(a, leq);
    CanonicalElements(b, leq);
    if forall x :: x in a <==> x in b {
      SortSorted(a, leq);
      SortSorted(b, leq);
      DedupSorted(Sort(a, leq), leq);
      DedupSorted(Sort(b, leq), leq);
      DistinctSame(ca, cb);
      SortedUnique(ca, cb, leq);
    }
  }
}

/**
 The movements of the seeded wallet ledger and their stable sort by time (sort.SliceStable in
 cmd/seed/finance.go).  Sort is defined by merging; LedgerSort.SortIsStable and StableSortUnique show
 that it is the one arrangement a stable sort can produce.
 */
module LedgerSort {
  type Account = string
  type Time = int   // nanoseconds

  datatype Kind = Topup | EscrowHold | Fee | EscrowRelease | Refund | Withdrawal

  datatype Move = Move(account: Account, kind: Kind, available: int, held: int, at: Time)

  ghost predicate Sorted(s: seq<Move>) {
    forall i, j :: 0 <= i < j < |s| ==> s[i].at <= s[j].at
  }

  /** Left-biased merge: of two movements at the same instant the left one comes first. */
  function Merge(a: seq<Move>, b: seq<Move>): seq<Move>
    decreases |a| + |b|
  {
    if a == [] then b
    else if b == [] then a
    else if a[0].at <= b[0].at then [a[0]] + Merge(a[1..], b)
    else [b[0]] + Merge(a, b[1..])
  }

  function Sort(s: seq<Move>): seq<Move> {
    if s == [] then [] else Merge([s[0]], Sort(s[1..]))
  }

  /** The movements at one instant, in the order they are listed in. */
  function AtInstant(s: seq<Move>, t: Time): seq<Move> {
    if s == [] then []
    else (if s[0].at == t then [s[0]] else []) + AtInstant(s[1..], t)
  }

  /** What a stable sort promises: r is in time order and no two movements at one instant change
      places, none is lost and none is added. */
  ghost predicate IsStableSort(s: seq<Move>, r: seq<Move>) {
    Sorted(r) && forall t :: AtInstant(r, t) == AtInstant(s, t)
  }

  // ------------------------------------------------------------------------- the sort is stable

  lemma {:induction false} MergeMembers(a: seq<Move>, b: seq<Move>)
    ensures forall m :: m in Merge(a, b) <==> m in a || m in b
    decreases |a| + |b|
  {
    if a != [] && b != [] {
      if a[0].at <= b[0].at {
        MergeMembers(a[1..], b);
        assert forall m :: m in a <==> m == a[0] || m in a[1..];
      } else {
        MergeMembers(a, b[1..]);
        assert forall m :: m in b <==> m == b[0] || m in b[1..];
      }
    }
  }

  lemma SortedCons(m: Move, s: seq<Move>)
    requires Sorted(s) && forall x :: x in s ==> m.at <= x.at
    ensures Sorted([m] + s)
  {
    forall i, j | 0 <= i < j < |[m] + s| ensures ([m] + s)[i].at <= ([m] + s)[j].at {
      assert ([m] + s)[j] == s[j - 1] && s[j - 1] in s;
    }
  }

  lemma SortedTail(s: seq<Move>)
    requires Sorted(s) && s != []
    ensures Sorted(s[1..]) && forall x :: x in s ==> s[0].at <= x.at
  {
  }

  lemma {:induction false} MergeSorted(a: seq<Move>, b: seq<Move>)
    requires Sorted(a) && Sorted(b)
    ensures Sorted(Merge(a, b))
    decreases |a| + |b|
  {
    if a != [] && b != [] {
      SortedTail(a);
      SortedTail(b);
      if a[0].at <= b[0].at {
        MergeSorted(a[1..], b);
        MergeMembers(a[1..], b);
        SortedCons(a[0], Merge(a[1..], b));
      } else {
        MergeSorted(a, b[1..]);
        MergeMembers(a, b[1..]);
        SortedCons(b[0], Merge(a, b[1..]));
      }
    }
  }

  lemma AtInstantCons(m: Move, s: seq<Move>, t: Time)
    ensures AtInstant([m] + s, t) == (if m.at == t then [m] else []) + AtInstant(s, t)
  {
    assert ([m] + s)[1..] == s;
  }

  lemma {:induction false} NothingAt(s: seq<Move>, t: Time)
    requires forall m :: m in s ==> m.at != t
    ensures AtInstant(s, t) == []
  {
    if s != [] {
      NothingAt(s[1..], t);
    }
  }

  lemma {:induction false} MergeAtInstant(a: seq<Move>, b: seq<Move>, t: Time)
    requires Sorted(a)
    ensures AtInstant(Merge(a, b), t) == AtInstant(a, t) + AtInstant(b, t)
    decreases |a| + |b|
  {
    if a != [] && b != [] {
      SortedTail(a);
      if a[0].at <= b[0].at {
        MergeAtInstant(a[1..], b, t);
        AtInstantCons(a[0], Merge(a[1..], b), t);
      } else {
        MergeAtInstant(a, b[1..], t);
        AtInstantCons(b[0], Merge(a, b[1..]), t);
        if b[0].at == t {
          NothingAt(a, t);
        }
      }
    }
  }

  lemma {:induction false} SortIsStable(s: seq<Move>)
    ensures IsStableSort(s, Sort(s))
  {
    if s != [] {
      var rest := Sort(s[1..]);
      SortIsStable(s[1..]);
      MergeSorted([s[0]], rest);
      forall t ensures AtInstant(Sort(s), t) == AtInstant(s, t) {
        MergeAtInstant([s[0]], rest, t);
        AtInstantCons(s[0], [], t);
        assert [s[0]] + [] == [s[0]];
      }
    }
  }

  lemma {:induction false} FirstAt(s: seq<Move>, t: Time)
    requires AtInstant(s, t) != []
    ensures AtInstant(s, t)[0] in s && AtInstant(s, t)[0].at == t
  {
    if s[0].at != t {
      FirstAt(s[1..], t);
    }
  }

  /** Two stable sorts of one list are the same list. */
  lemma {:induction false} StableSortUnique(s: seq<Move>, p: seq<Move>, q: seq<Move>)
    requires IsStableSort(s, p) && IsStableSort(s, q)
    ensures p == q
  {
    SameInstants(p, q);
  }

  lemma {:induction false} SameInstants(p: seq<Move>, q: seq<Move>)
    requires Sorted(p) && Sorted(q) && forall t :: AtInstant(p, t) == AtInstant(q, t)
    ensures p == q
  {
    if p != [] {
      assert AtInstant(p, p[0].at) == AtInstant(q, p[0].at);
      assert q != [];
    }
    if q != [] {
      assert AtInstant(q, q[0].at) == AtInstant(p, q[0].at);
      assert p != [];
      SortedTail(p);
      SortedTail(q);
      assert AtInstant(p, p[0].at)[0] == p[0] && AtInstant(q, q[0].at)[0] == q[0];
      FirstAt(q, p[0].at);
      FirstAt(p, q[0].at);
      assert p[0].at == q[0].at && p[0] == q[0];
      forall t ensures AtInstant(p[1..], t) == AtInstant(q[1..], t) {
        assert AtInstant(p, t) == AtInstant(q, t);
        if t == p[0].at {
          assert AtInstant(p, t)[1..] == AtInstant(p[1..], t) && AtInstant(q, t)[1..] == AtInstant(q[1..], t);
        } else {
          assert AtInstant(p, t) == AtInstant(p[1..], t) && AtInstant(q, t) == AtInstant(q[1..], t);
        }
      }
      SameInstants(p[1..], q[1..]);
    }
  }

  // ------------------------------------------------------------- sorting a list put together

  lemma {:induction false} MergeAssociative(a: seq<Move>, b: seq<Move>, c: seq<Move>)
    ensures Merge(Merge(a, b), c) == Merge(a, Merge(b, c))
    decreases |a| + |b| + |c|
  {
    if a != [] && b != [] && c != [] {
      if a[0].at <= b[0].at {
        if a[0].at <= c[0].at {
          MergeAssociative(a[1..], b, c);
          assert ([a[0]] + Merge(a[1..], b))[1..] == Merge(a[1..], b);
        } else {
          MergeAssociative(a, b, c[1..]);
        }
      } else if b[0].at <= c[0].at {
        MergeAssociative(a, b[1..], c);
        assert ([b[0]] + Merge(a, b[1..]))[1..] == Merge(a, b[1..]);
        assert ([b[0]] + Merge(b[1..], c))[1..] == Merge(b[1..], c);
      } else {
        MergeAssociative(a, b, c[1..]);
        assert ([c[0]] + Merge(b, c[1..]))[1..] == Merge(b, c[1..]);
      }
    }
  }

  /** Sorting two lists laid end to end is merging their sorts. */
  lemma {:induction false} SortConcat(a: seq<Move>, b: seq<Move>)
    ensures Sort(a + b) == Merge(Sort(a), Sort(b))
  {
    if a == [] {
      assert a + b == b;
    } else {
      assert (a + b)[1..] == a[1..] + b;
      var first, rest := [a[0]], a[1..];
      SortConcat(rest, b);
      MergeAssociative(first, Sort(rest), Sort(b));
    }
  }

  lemma {:induction false} SortOfSorted(s: seq<Move>)
    requires Sorted(s)
    ensures Sort(s) == s
  {
    SortIsStable(s);
    SameInstants(s, Sort(s));
  }
}

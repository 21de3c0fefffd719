/** Python's `sorted(key=...)`: ordered, stable, and a permutation of its input. */
module StableSort {

  ghost predicate TotalPreorder<T(!new)>(leq: (T, T) -> bool) {
    && (forall x, y :: leq(x, y) || leq(y, x))
    && (forall x, y, z :: leq(x, y) && leq(y, z) ==> leq(x, z))
  }

  ghost predicate Ordered<T>(s: seq<T>, leq: (T, T) -> bool) {
    forall i, j | 0 <= i < j < |s| :: leq(s[i], s[j])
  }

  function Insert<T>(x: T, s: seq<T>, leq: (T, T) -> bool): seq<T> {
    if s == [] || leq(x, s[0]) then [x] + s else [s[0]] + Insert(x, s[1..], leq)
  }

  function Sort<T>(s: seq<T>, leq: (T, T) -> bool): seq<T> {
    if s == [] then [] else Insert(s[0], Sort(s[1..], leq), leq)
  }

  lemma {:induction false} InsertPermutes<T>(x: T, s: seq<T>, leq: (T, T) -> bool)
    ensures multiset(Insert(x, s, leq)) == multiset(s) + multiset{x}
  {
    if s != [] && !leq(x, s[0]) {
      InsertPermutes(x, s[1..], leq);
      assert s == [s[0]] + s[1..];
    }
  }

  lemma {:induction false} SortPermutes<T>(s: seq<T>, leq: (T, T) -> bool)
    ensures multiset(Sort(s, leq)) == multiset(s)
  {
    if s != [] {
      SortPermutes(s[1..], leq);
      InsertPermutes(s[0], Sort(s[1..], leq), leq);
      assert s == [s[0]] + s[1..];
    }
  }

  lemma {:induction false} InsertOrders<T(!new)>(x: T, s: seq<T>, leq: (T, T) -> bool)
    requires TotalPreorder(leq) && Ordered(s, leq)
    ensures Ordered(Insert(x, s, leq), leq)
  {
    if s != [] && !leq(x, s[0]) {
      var rest := Insert(x, s[1..], leq);
      InsertOrders(x, s[1..], leq);
      InsertPermutes(x, s[1..], leq);
      forall j | 0 <= j < |rest| ensures leq(s[0], rest[j]) {
        assert rest[j] in multiset(rest);
        assert rest[j] == x || rest[j] in s[1..];
      }
    }
  }

  lemma {:induction false} SortOrders<T(!new)>(s: seq<T>, leq: (T, T) -> bool)
    requires TotalPreorder(leq)
    ensures Ordered(Sort(s, leq), leq)
  {
    if s != [] {
      SortOrders(s[1..], leq);
      InsertOrders(s[0], Sort(s[1..], leq), leq);
    }
  }

  lemma SortKeepsMembers<T>(s: seq<T>, leq: (T, T) -> bool)
    ensures |Sort(s, leq)| == |s|
    ensures forall x :: x in Sort(s, leq) <==> x in s
  {
    SortPermutes(s, leq);
    assert |multiset(s)| == |multiset(Sort(s, leq))|;
    forall x ensures x in Sort(s, leq) <==> x in s {
      assert x in s <==> x in multiset(s);
      assert x in Sort(s, leq) <==> x in multiset(Sort(s, leq));
    }
  }

  /** Among the greatest elements, the one that comes last: what `sorted(...)[-1]` returns. */
  function Greatest<T>(s: seq<T>, leq: (T, T) -> bool): T
    requires s != []
  {
    if |s| == 1 then s[0]
    else
      var rest := Greatest(s[1..], leq);
      if leq(s[0], rest) then rest else s[0]
  }

  lemma {:induction false} InsertLast<T(!new)>(x: T, s: seq<T>, leq: (T, T) -> bool)
    requires TotalPreorder(leq) && Ordered(s, leq) && s != []
    ensures var r := Insert(x, s, leq);
      |r| == |s| + 1 && r[|s|] == if leq(x, s[|s| - 1]) then s[|s| - 1] else x
  {
    if !leq(x, s[0]) {
      if |s| == 1 {
        assert Insert(x, s[1..], leq) == [x];
      } else {
        InsertLast(x, s[1..], leq);
      }
    } else {
      assert leq(s[0], s[|s| - 1]);
    }
  }

  lemma {:induction false} SortLast<T(!new)>(s: seq<T>, leq: (T, T) -> bool)
    requires TotalPreorder(leq) && s != []
    ensures |Sort(s, leq)| == |s| && Sort(s, leq)[|s| - 1] == Greatest(s, leq)
  {
    var rest := Sort(s[1..], leq);
    if |s| == 1 {
      assert rest == [];
      assert Sort(s, leq) == Insert(s[0], [], leq) == [s[0]];
    } else {
      SortLast(s[1..], leq);
      assert Ordered(rest, leq) by { SortOrders(s[1..], leq); }
      InsertLast(s[0], rest, leq);
    }
  }

  lemma {:induction false} GreatestAppend<T(!new)>(s: seq<T>, x: T, leq: (T, T) -> bool)
    requires TotalPreorder(leq) && s != []
    ensures Greatest(s + [x], leq) == if leq(Greatest(s, leq), x) then x else Greatest(s, leq)
  {
    assert (s + [x])[1..] == s[1..] + [x];
    if |s| == 1 {
      assert s[1..] + [x] == [x];
    } else {
      GreatestAppend(s[1..], x, leq);
    }
  }
}

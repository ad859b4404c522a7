/** Filtering and sorting: what a database does with WHERE and ORDER BY. */
module Ordering {

  function Filter<T>(p: T -> bool, s: seq<T>): seq<T>
  {
    if s == [] then [] else (if p(s[0]) then [s[0]] else []) + Filter(p, s[1..])
  }

  lemma {:induction false} FilterKeeps<T>(p: T -> bool, s: seq<T>)
    ensures forall x :: x in Filter(p, s) <==> x in s && p(x)
    ensures |Filter(p, s)| <= |s|
  {
    if s != [] {
      FilterKeeps(p, s[1..]);
      assert s == [s[0]] + s[1..];
    }
  }

  lemma {:induction false} FilterMember<T>(p: T -> bool, s: seq<T>, x: T)
    ensures x in Filter(p, s) <==> x in s && p(x)
  {
    FilterKeeps(p, s);
  }

  lemma {:induction false} FilterNone<T>(p: T -> bool, s: seq<T>)
    requires forall i :: 0 <= i < |s| ==> !p(s[i])
    ensures Filter(p, s) == []
  {
    if s != [] {
      FilterNone(p, s[1..]);
    }
  }

  lemma {:induction false} FilterAppend<T>(p: T -> bool, s: seq<T>, t: seq<T>)
    ensures Filter(p, s + t) == Filter(p, s) + Filter(p, t)
  {
    if s == [] {
      assert s + t == t;
    } else {
      assert (s + t)[1..] == s[1..] + t;
      FilterAppend(p, s[1..], t);
      var head := if p(s[0]) then [s[0]] else [];
      var front, back := Filter(p, s[1..]), Filter(p, t);
      assert head + (front + back) == (head + front) + back;
    }
  }

  lemma {:induction false} FilterSnoc<T>(p: T -> bool, s: seq<T>, x: T)
    ensures Filter(p, s + [x]) == if p(x) then Filter(p, s) + [x] else Filter(p, s)
  {
    FilterAppend(p, s, [x]);
    assert [x][1..] == [];
  }

  /** Selecting twice is selecting once, if the second selection implies the first. */
  lemma {:induction false} FilterFilter<T>(p: T -> bool, q: T -> bool, s: seq<T>)
    requires forall x :: x in s && p(x) ==> q(x)
    ensures Filter(p, Filter(q, s)) == Filter(p, s)
  {
    if s != [] {
      assert s[0] in s && forall x :: x in s[1..] ==> x in s;
      FilterFilter(p, q, s[1..]);
      var head := if q(s[0]) then [s[0]] else [];
      FilterAppend(p, head, Filter(q, s[1..]));
      assert q(s[0]) ==> [s[0]][1..] == [];
    }
  }

  lemma {:induction false} FilterSame<T>(p: T -> bool, q: T -> bool, s: seq<T>)
    requires forall x :: x in s ==> p(x) == q(x)
    ensures Filter(p, s) == Filter(q, s)
  {
    if s != [] {
      assert s[0] in s && forall x :: x in s[1..] ==> x in s;
      FilterSame(p, q, s[1..]);
    }
  }

  predicate Distinct<T(==)>(s: seq<T>)
  {
    forall i, j :: 0 <= i < j < |s| ==> s[i] != s[j]
  }

  lemma {:induction false} FilterDistinct<T>(p: T -> bool, s: seq<T>)
    requires Distinct(s)
    ensures Distinct(Filter(p, s))
  {
    if s != [] {
      FilterDistinct(p, s[1..]);
      FilterKeeps(p, s[1..]);
    }
  }

  /** ORDER BY key_1, key_2, ...: earlier keys decide first; a descending term negates its key. */
  type Key<!T> = T -> real

  predicate Before<T>(keys: seq<Key<T>>, a: T, b: T)
  {
    keys != [] && (keys[0](a) < keys[0](b) || (keys[0](a) == keys[0](b) && Before(keys[1..], a, b)))
  }

  lemma {:induction false} BeforeIsStrict<T>(keys: seq<Key<T>>, a: T, b: T, c: T)
    ensures !Before(keys, a, a)
    ensures Before(keys, a, b) && Before(keys, b, c) ==> Before(keys, a, c)
    ensures Before(keys, a, b) ==> !Before(keys, b, a)
  {
    if keys != [] {
      BeforeIsStrict(keys[1..], a, b, c);
    }
  }

  /** The keys tell any two rows of `s` apart; in particular no row occurs twice. */
  ghost predicate Separates<T>(keys: seq<Key<T>>, s: seq<T>)
  {
    forall i, j :: 0 <= i < j < |s| ==> Before(keys, s[i], s[j]) || Before(keys, s[j], s[i])
  }

  /** Strictly ascending. */
  ghost predicate Ascending<T>(keys: seq<Key<T>>, s: seq<T>)
  {
    forall i, j :: 0 <= i < j < |s| ==> Before(keys, s[i], s[j])
  }

  function Insert<T>(keys: seq<Key<T>>, x: T, s: seq<T>): (r: seq<T>)
    ensures multiset(r) == multiset(s) + multiset{x}
  {
    if s == [] then [x]
    else if Before(keys, s[0], x) then
      assert s == [s[0]] + s[1..];
      [s[0]] + Insert(keys, x, s[1..])
    else [x] + s
  }

  function Sort<T>(keys: seq<Key<T>>, s: seq<T>): (r: seq<T>)
    ensures multiset(r) == multiset(s)
  {
    if s == [] then []
    else
      assert s == [s[0]] + s[1..];
      Insert(keys, s[0], Sort(keys, s[1..]))
  }

  lemma {:induction false} SortKeeps<T>(keys: seq<Key<T>>, s: seq<T>)
    ensures |Sort(keys, s)| == |s|
    ensures forall x :: x in Sort(keys, s) <==> x in s
  {
    assert |Sort(keys, s)| == |multiset(Sort(keys, s))| == |multiset(s)|;
    forall x
      ensures x in Sort(keys, s) <==> x in s
    {
      assert x in multiset(Sort(keys, s)) <==> x in multiset(s);
    }
  }

  lemma {:induction false} InsertAscending<T>(keys: seq<Key<T>>, x: T, s: seq<T>)
    requires Ascending(keys, s)
    requires forall y :: y in s ==> Before(keys, x, y) || Before(keys, y, x)
    ensures Ascending(keys, Insert(keys, x, s))
  {
    if s != [] {
      if Before(keys, s[0], x) {
        InsertAscending(keys, x, s[1..]);
        var r := Insert(keys, x, s[1..]);
        forall y | y in r
          ensures Before(keys, s[0], y)
        {
          assert y in multiset(r);
          assert y == x || y in s[1..];
        }
      } else {
        forall y | y in s
          ensures Before(keys, x, y)
        {
          BeforeIsStrict(keys, x, s[0], y);
        }
      }
    }
  }

  /** Rows that the keys tell apart come out in strictly ascending order. */
  lemma {:induction false} SortAscending<T>(keys: seq<Key<T>>, s: seq<T>)
    requires Separates(keys, s)
    ensures Ascending(keys, Sort(keys, s))
  {
    if s != [] {
      var rest := s[1..];
      var sorted := Sort(keys, rest);
      SortAscending(keys, rest);
      forall y | y in sorted
        ensures Before(keys, s[0], y) || Before(keys, y, s[0])
      {
        assert y in multiset(sorted) && y in multiset(rest);
        var i :| 0 <= i < |rest| && rest[i] == y;
        assert s[i + 1] == y;
      }
      InsertAscending(keys, s[0], sorted);
    }
  }

  lemma {:induction false} HeadNotInTail<T>(keys: seq<Key<T>>, s: seq<T>)
    requires s != [] && Ascending(keys, s)
    ensures s[0] !in s[1..]
    ensures forall x :: x in s[1..] <==> x in s && x != s[0]
  {
    BeforeIsStrict(keys, s[0], s[0], s[0]);
    assert forall i :: 0 <= i < |s| - 1 ==> s[1..][i] == s[i + 1];
    assert s == [s[0]] + s[1..];
  }

  /** Two strictly ascending lists with the same members are the same list. */
  lemma {:induction false} AscendingUnique<T>(keys: seq<Key<T>>, s: seq<T>, t: seq<T>)
    requires Ascending(keys, s) && Ascending(keys, t)
    requires forall x :: x in s <==> x in t
    ensures s == t
  {
    if s == [] {
      assert forall i :: 0 <= i < |t| ==> t[i] in s;
    } else {
      assert s[0] in t && t != [] && t[0] in s;
      BeforeIsStrict(keys, s[0], t[0], s[0]);
      assert s[0] == t[0];
      HeadNotInTail(keys, s);
      HeadNotInTail(keys, t);
      assert s == [s[0]] + s[1..] && t == [t[0]] + t[1..];
      AscendingUnique(keys, s[1..], t[1..]);
    }
  }

  lemma {:induction false} FilterSeparates<T>(keys: seq<Key<T>>, p: T -> bool, s: seq<T>)
    requires Separates(keys, s)
    ensures Separates(keys, Filter(p, s))
  {
    if s != [] {
      var rest := s[1..];
      var kept := Filter(p, rest);
      FilterSeparates(keys, p, rest);
      forall y | y in kept
        ensures Before(keys, s[0], y) || Before(keys, y, s[0])
      {
        FilterMember(p, rest, y);
        var i :| 0 <= i < |rest| && rest[i] == y;
        assert s[i + 1] == y;
      }
      assert forall j :: 0 <= j < |kept| ==> kept[j] in kept;
    }
  }

  /** WHERE then ORDER BY over distinguishable rows: ascending, and exactly the matching rows. */
  lemma {:induction false} SortedFilter<T>(keys: seq<Key<T>>, p: T -> bool, s: seq<T>)
    requires Separates(keys, s)
    ensures Ascending(keys, Sort(keys, Filter(p, s)))
    ensures forall x :: x in Sort(keys, Filter(p, s)) <==> x in s && p(x)
  {
    FilterSeparates(keys, p, s);
    SortAscending(keys, Filter(p, s));
    SortKeeps(keys, Filter(p, s));
    FilterKeeps(p, s);
  }

  /** Two ascending lists, the first entirely before the second, make one ascending list. */
  lemma {:induction false} AscendingConcat<T>(keys: seq<Key<T>>, s: seq<T>, t: seq<T>)
    requires Ascending(keys, s) && Ascending(keys, t)
    requires forall x, y :: x in s && y in t ==> Before(keys, x, y)
    ensures Ascending(keys, s + t)
  {
  }

  /** A total order of strings, by real ranks. */
  type Collation = string -> real

  ghost predicate Injective(rank: Collation)
  {
    forall a, b :: rank(a) == rank(b) ==> a == b
  }
}

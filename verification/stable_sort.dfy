/**
 * The stable sort the source gets from its runtime (Array.prototype.sort has
 * been stable since ECMAScript 2019). Every comparator in the source has the
 * shape `(a, b) => key(a) - key(b)`, so the sort is modelled as ordering by a
 * real-valued key, ascending; a descending order is the ascending order of the
 * negated key. Equal keys keep their incoming order.
 */
module StableSort {

  /** The keys never decrease along `s`. */
  ghost predicate SortedBy<T>(s: seq<T>, key: T -> real)
  {
    forall i, j :: 0 <= i < j < |s| ==> key(s[i]) <= key(s[j])
  }

  /**
   * Within every group of elements with equal `group` value, `key` never
   * decreases along `s`.
   */
  ghost predicate SortedWithinGroups<T>(s: seq<T>, group: T -> real, key: T -> real)
  {
    forall i, j :: 0 <= i < j < |s| && group(s[i]) == group(s[j]) ==> key(s[i]) <= key(s[j])
  }

  /** The elements of `s` whose key is `k`, in their order in `s`. */
  function WithKey<T>(s: seq<T>, key: T -> real, k: real): seq<T>
    decreases |s|
  {
    if s == [] then []
    else (if key(s[0]) == k then [s[0]] else []) + WithKey(s[1..], key, k)
  }

  /** Puts `x` in front of the first element whose key is not smaller than its own. */
  function Insert<T>(x: T, s: seq<T>, key: T -> real): (r: seq<T>)
    requires SortedBy(s, key)
    ensures SortedBy(r, key)
    ensures multiset(r) == multiset(s) + multiset{x}
    decreases |s|
  {
    if s == [] then [x]
    else if key(x) <= key(s[0]) then [x] + s
    else
      var rest := Insert(x, s[1..], key);
      assert s == [s[0]] + s[1..];
      HeadBelowRest(s, x, rest, key);
      [s[0]] + rest
  }

  /** The smallest key of a sorted sequence stays below everything after it, even with `x` added. */
  lemma HeadBelowRest<T>(s: seq<T>, x: T, rest: seq<T>, key: T -> real)
    requires SortedBy(s, key) && s != [] && key(s[0]) <= key(x)
    requires SortedBy(rest, key)
    requires multiset(rest) == multiset(s[1..]) + multiset{x}
    ensures SortedBy([s[0]] + rest, key)
  {
    var r := [s[0]] + rest;
    forall j | 0 <= j < |rest|
      ensures key(s[0]) <= key(rest[j])
    {
      assert rest[j] in multiset(rest);
      if rest[j] != x {
        assert rest[j] in multiset(s[1..]);
        var m :| 0 <= m < |s[1..]| && s[1..][m] == rest[j];
        assert s[m + 1] == rest[j];
      }
    }
    forall i, j | 0 <= i < j < |r|
      ensures key(r[i]) <= key(r[j])
    {
      assert r[j] == rest[j - 1];
      if i > 0 {
        assert r[i] == rest[i - 1];
      }
    }
  }

  /** Sorts `s` by `key`, ascending: insertion of each element into the sorted rest. */
  function SortBy<T>(s: seq<T>, key: T -> real): (r: seq<T>)
    ensures SortedBy(r, key)
    ensures multiset(r) == multiset(s)
    decreases |s|
  {
    if s == [] then []
    else
      assert s == [s[0]] + s[1..];
      Insert(s[0], SortBy(s[1..], key), key)
  }

  /** Sorting neither adds nor drops an element. */
  lemma SortByMembers<T>(s: seq<T>, key: T -> real)
    ensures forall x :: x in SortBy(s, key) <==> x in s
  {
    var r := SortBy(s, key);
    forall x
      ensures x in r <==> x in s
    {
      assert x in r <==> x in multiset(r);
      assert x in s <==> x in multiset(s);
    }
  }

  lemma WithKeyCons<T>(y: T, t: seq<T>, key: T -> real, k: real)
    ensures WithKey([y] + t, key, k) == (if key(y) == k then [y] else []) + WithKey(t, key, k)
  {
    assert ([y] + t)[0] == y;
    assert ([y] + t)[1..] == t;
  }

  lemma {:induction false} InsertWithKey<T>(x: T, s: seq<T>, key: T -> real, k: real)
    requires SortedBy(s, key)
    ensures WithKey(Insert(x, s, key), key, k) == (if key(x) == k then [x] else []) + WithKey(s, key, k)
    decreases |s|
  {
    if s == [] {
      WithKeyCons(x, s, key, k);
    } else if key(x) <= key(s[0]) {
      WithKeyCons(x, s, key, k);
    } else {
      var rest := Insert(x, s[1..], key);
      assert Insert(x, s, key) == [s[0]] + rest;
      InsertWithKey(x, s[1..], key, k);
      WithKeyCons(s[0], rest, key, k);
      WithKeyCons(s[0], s[1..], key, k);
      assert s == [s[0]] + s[1..];
    }
  }

  /**
   * Stability: for every key value, the elements carrying it appear in the
   * sorted sequence in exactly the order they had in the input.
   */
  lemma {:induction false} SortByStable<T>(s: seq<T>, key: T -> real, k: real)
    ensures WithKey(SortBy(s, key), key, k) == WithKey(s, key, k)
    decreases |s|
  {
    if s != [] {
      SortByStable(s[1..], key, k);
      InsertWithKey(s[0], SortBy(s[1..], key), key, k);
    }
  }

  lemma SortedTail<T>(s: seq<T>, group: T -> real, key: T -> real)
    requires s != []
    requires SortedBy(s, group)
    requires SortedWithinGroups(s, group, key)
    ensures SortedBy(s[1..], group)
    ensures SortedWithinGroups(s[1..], group, key)
  {
    var t := s[1..];
    forall i, j | 0 <= i < j < |t|
      ensures group(t[i]) <= group(t[j])
      ensures group(t[i]) == group(t[j]) ==> key(t[i]) <= key(t[j])
    {
      assert t[i] == s[i + 1] && t[j] == s[j + 1];
    }
  }

  /** Putting `h` in front keeps the within-group order when `h` is not above its group in `t`. */
  lemma ConsKeepsGroupOrder<T>(h: T, t: seq<T>, group: T -> real, key: T -> real)
    requires SortedWithinGroups(t, group, key)
    requires forall j :: 0 <= j < |t| && group(t[j]) == group(h) ==> key(h) <= key(t[j])
    ensures SortedWithinGroups([h] + t, group, key)
  {
    var r := [h] + t;
    forall i, j | 0 <= i < j < |r| && group(r[i]) == group(r[j])
      ensures key(r[i]) <= key(r[j])
    {
      assert r[j] == t[j - 1];
      if i > 0 {
        assert r[i] == t[i - 1];
      }
    }
  }

  lemma {:induction false} InsertKeepsGroupOrder<T>(x: T, s: seq<T>, group: T -> real, key: T -> real)
    requires SortedBy(s, group)
    requires SortedWithinGroups(s, group, key)
    requires forall y | y in s && group(y) == group(x) :: key(x) <= key(y)
    ensures SortedWithinGroups(Insert(x, s, group), group, key)
    decreases |s|
  {
    if s == [] {
    } else if group(x) <= group(s[0]) {
      assert Insert(x, s, group) == [x] + s;
      forall j | 0 <= j < |s| && group(s[j]) == group(x)
        ensures key(x) <= key(s[j])
      {
        assert s[j] in s;
      }
      ConsKeepsGroupOrder(x, s, group, key);
    } else {
      var t := s[1..];
      SortedTail(s, group, key);
      forall y | y in t && group(y) == group(x)
        ensures key(x) <= key(y)
      {
        assert y in s;
      }
      var rest := Insert(x, t, group);
      InsertKeepsGroupOrder(x, t, group, key);
      assert Insert(x, s, group) == [s[0]] + rest;
      forall j | 0 <= j < |rest| && group(rest[j]) == group(s[0])
        ensures key(s[0]) <= key(rest[j])
      {
        assert rest[j] in multiset(rest);
        assert rest[j] != x;
        assert rest[j] in multiset(t);
        var m :| 0 <= m < |t| && t[m] == rest[j];
        assert s[m + 1] == rest[j];
      }
      ConsKeepsGroupOrder(s[0], rest, group, key);
    }
  }

  /**
   * Sorting by `group` keeps, inside each group, whatever order by `key` the
   * input already had: the stable second sort of the source does not undo the
   * first one within a group.
   */
  lemma {:induction false} SortByKeepsGroupOrder<T>(s: seq<T>, group: T -> real, key: T -> real)
    requires SortedWithinGroups(s, group, key)
    ensures SortedWithinGroups(SortBy(s, group), group, key)
    decreases |s|
  {
    if s != [] {
      var rest := SortBy(s[1..], group);
      assert SortedWithinGroups(s[1..], group, key) by {
        forall i, j | 0 <= i < j < |s[1..]| && group(s[1..][i]) == group(s[1..][j])
          ensures key(s[1..][i]) <= key(s[1..][j])
        {
          assert s[1..][i] == s[i + 1] && s[1..][j] == s[j + 1];
        }
      }
      SortByKeepsGroupOrder(s[1..], group, key);
      forall y | y in rest && group(y) == group(s[0])
        ensures key(s[0]) <= key(y)
      {
        assert y in multiset(rest);
        assert y in multiset(s[1..]);
        var j :| 0 <= j < |s[1..]| && s[1..][j] == y;
        assert s[j + 1] == y;
      }
      InsertKeepsGroupOrder(s[0], rest, group, key);
    }
  }
}

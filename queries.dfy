/** The query semantics the controllers rely on from the database: a `where`
    filter over a table and an `ORDER BY key DESC`. */
module Queries {

  /** The rows of `s` that satisfy `p`, in table order. */
  function Filter<T(!new)>(s: seq<T>, p: T -> bool): (r: seq<T>)
    ensures |r| <= |s|
    ensures forall x :: x in r <==> x in s && p(x)
    ensures forall i :: 0 <= i < |r| ==> p(r[i])
  {
    if s == [] then []
    else if p(s[0]) then [s[0]] + Filter(s[1..], p)
    else Filter(s[1..], p)
  }

  /** Keys never increase from left to right. */
  predicate SortedDesc<T>(s: seq<T>, key: T -> int)
  {
    forall i, j :: 0 <= i < j < |s| ==> key(s[i]) >= key(s[j])
  }

  /** Puts `x` into a descending sequence in front of the first row whose key is not larger. */
  function Insert<T(!new)>(x: T, s: seq<T>, key: T -> int): (r: seq<T>)
    requires SortedDesc(s, key)
    ensures SortedDesc(r, key)
    ensures multiset(r) == multiset(s) + multiset{x}
  {
    if s == [] || key(x) >= key(s[0]) then [x] + s
    else
      var rest := Insert(x, s[1..], key);
      assert s == [s[0]] + s[1..];
      BelowHead(x, s, key, rest);
      [s[0]] + rest
  }

  /** Every row of a rearrangement of `s[1..]` plus a smaller `x` lies below `s[0]`. */
  lemma BelowHead<T(!new)>(x: T, s: seq<T>, key: T -> int, rest: seq<T>)
    requires SortedDesc(s, key) && s != [] && key(x) < key(s[0])
    requires multiset(rest) == multiset(s[1..]) + multiset{x}
    ensures forall y :: y in rest ==> key(y) <= key(s[0])
  {
    forall y | y in rest ensures key(y) <= key(s[0]) {
      assert y in multiset(rest);
      if y != x {
        var i :| 0 <= i < |s[1..]| && s[1..][i] == y;
        assert s[i + 1] == y;
      }
    }
  }

  /** An `ORDER BY key DESC` of `s`: a sorted permutation. */
  function SortDesc<T(!new)>(s: seq<T>, key: T -> int): (r: seq<T>)
    ensures SortedDesc(r, key)
    ensures multiset(r) == multiset(s)
    ensures |r| == |s|
  {
    if s == [] then []
    else
      assert s == [s[0]] + s[1..];
      Insert(s[0], SortDesc(s[1..], key), key)
  }

  /** Pairs every row with its id, which in these tables is its position plus one. */
  function Numbered<T>(s: seq<T>): (r: seq<(nat, T)>)
    ensures |r| == |s|
    ensures forall i :: 0 <= i < |s| ==> r[i] == (i + 1, s[i])
  {
    seq(|s|, i requires 0 <= i < |s| => (i + 1, s[i]))
  }

  /** The rows of `s` chosen by `p`, with their ids, newest key first. */
  function Select<T(!new)>(s: seq<T>, p: T -> bool, key: T -> int): (r: seq<(nat, T)>)
    ensures SortedDesc(r, (x: (nat, T)) => key(x.1))
    ensures forall id, x :: (id, x) in r <==> 1 <= id <= |s| && s[id - 1] == x && p(x)
    ensures forall i, j :: 0 <= i < j < |r| ==> r[i].0 != r[j].0
  {
    var all := Numbered(s);
    var chosen := Filter(all, (x: (nat, T)) => p(x.1));
    var sorted := SortDesc(chosen, (x: (nat, T)) => key(x.1));
    SameElements(sorted, chosen);
    NumberedIds(s);
    FilterNoDup(all, (x: (nat, T)) => p(x.1));
    SortDescNoDup(chosen, (x: (nat, T)) => key(x.1));
    IdsDistinct(sorted, s);
    sorted
  }

  lemma SameElements<T>(a: seq<T>, b: seq<T>)
    requires multiset(a) == multiset(b)
    ensures forall y :: y in a <==> y in b
  {
    forall y ensures y in a <==> y in b {
      assert y in a <==> y in multiset(a);
      assert y in b <==> y in multiset(b);
    }
  }

  lemma NumberedIds<T>(s: seq<T>)
    ensures forall id, x :: (id, x) in Numbered(s) <==> 1 <= id <= |s| && s[id - 1] == x
  {
    var all := Numbered(s);
    forall id, x ensures (id, x) in all <==> 1 <= id <= |s| && s[id - 1] == x {
      if (id, x) in all {
        var i :| 0 <= i < |all| && all[i] == (id, x);
      }
    }
  }

  /** Rows taken from the numbered table and never repeated carry distinct ids. */
  lemma IdsDistinct<T>(r: seq<(nat, T)>, s: seq<T>)
    requires NoDup(r)
    requires forall id, x :: (id, x) in r ==> 1 <= id <= |s| && s[id - 1] == x
    ensures forall i, j :: 0 <= i < j < |r| ==> r[i].0 != r[j].0
  {
    forall i, j | 0 <= i < j < |r| ensures r[i].0 != r[j].0 {
      assert (r[i].0, r[i].1) in r && (r[j].0, r[j].1) in r;
    }
  }

  /** No row occurs twice. */
  ghost predicate NoDup<T>(s: seq<T>)
  {
    forall i, j :: 0 <= i < j < |s| ==> s[i] != s[j]
  }

  lemma {:induction false} FilterNoDup<T(!new)>(s: seq<T>, p: T -> bool)
    requires NoDup(s)
    ensures NoDup(Filter(s, p))
  {
    if s != [] {
      assert NoDup(s[1..]) by {
        forall i, j | 0 <= i < j < |s[1..]| ensures s[1..][i] != s[1..][j] {
          assert s[1..][i] == s[i + 1] && s[1..][j] == s[j + 1];
        }
      }
      FilterNoDup(s[1..], p);
      assert s[0] !in s[1..];
    }
  }

  lemma {:induction false} InsertNoDup<T(!new)>(x: T, s: seq<T>, key: T -> int)
    requires SortedDesc(s, key) && NoDup(s) && x !in s
    ensures NoDup(Insert(x, s, key))
  {
    if s != [] && key(x) < key(s[0]) {
      assert s == [s[0]] + s[1..];
      assert NoDup(s[1..]) by {
        forall i, j | 0 <= i < j < |s[1..]| ensures s[1..][i] != s[1..][j] {
          assert s[1..][i] == s[i + 1] && s[1..][j] == s[j + 1];
        }
      }
      var rest := Insert(x, s[1..], key);
      InsertNoDup(x, s[1..], key);
      assert s[0] !in multiset(rest) by {
        assert s[0] !in s[1..];
        assert s[0] != x;
      }
    }
  }

  lemma {:induction false} SortDescNoDup<T(!new)>(s: seq<T>, key: T -> int)
    requires NoDup(s)
    ensures NoDup(SortDesc(s, key))
  {
    if s != [] {
      assert s == [s[0]] + s[1..];
      assert NoDup(s[1..]) by {
        forall i, j | 0 <= i < j < |s[1..]| ensures s[1..][i] != s[1..][j] {
          assert s[1..][i] == s[i + 1] && s[1..][j] == s[j + 1];
        }
      }
      SortDescNoDup(s[1..], key);
      var rest := SortDesc(s[1..], key);
      assert s[0] !in multiset(rest) by {
        assert s[0] !in s[1..];
      }
      InsertNoDup(s[0], rest, key);
    }
  }

  /** `LIMIT limit OFFSET offset` over an ordered result. */
  function Page<T>(s: seq<T>, offset: int, limit: int): (r: seq<T>)
    requires offset >= 0 && limit >= 1
    ensures |r| <= limit
    ensures offset >= |s| ==> r == []
    ensures offset < |s| ==> |r| == if offset + limit <= |s| then limit else |s| - offset
    ensures forall i :: 0 <= i < |r| ==> offset + i < |s| && r[i] == s[offset + i]
  {
    var from := if offset < |s| then offset else |s|;
    var to := if offset + limit < |s| then offset + limit else |s|;
    s[from..to]
  }
}

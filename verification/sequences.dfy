/** Sequence operations the routes are built from: a stable filter, a
    prefix of at most `n` elements, and a stable sort by a descending
    key. */
module Sequences {

  /** `xs.filter(keep)`: the elements that satisfy `keep`, in order. */
  function Sift<T>(xs: seq<T>, keep: T -> bool): (r: seq<T>)
    ensures |r| <= |xs|
    ensures forall i :: 0 <= i < |r| ==> r[i] in xs && keep(r[i])
    ensures forall i :: 0 <= i < |xs| && keep(xs[i]) ==> xs[i] in r
  {
    if xs == [] then []
    else (if keep(xs[0]) then [xs[0]] else []) + Sift(xs[1..], keep)
  }

  /** Sifting distributes over concatenation, so it keeps relative order. */
  lemma {:induction false} SiftAppend<T>(a: seq<T>, b: seq<T>, keep: T -> bool)
    ensures Sift(a + b, keep) == Sift(a, keep) + Sift(b, keep)
  {
    if a == [] {
      assert a + b == b;
    } else {
      assert (a + b)[0] == a[0];
      assert (a + b)[1..] == a[1..] + b;
      SiftAppend(a[1..], b, keep);
    }
  }

  /** A kept element occurs as often as in the input; others not at all. */
  lemma {:induction false} SiftCounts<T>(xs: seq<T>, keep: T -> bool, x: T)
    ensures multiset(Sift(xs, keep))[x] == (if keep(x) then multiset(xs)[x] else 0)
  {
    if xs != [] {
      var head := if keep(xs[0]) then [xs[0]] else [];
      SiftCounts(xs[1..], keep, x);
      assert multiset(Sift(xs, keep)) == multiset(head) + multiset(Sift(xs[1..], keep));
      assert multiset(xs) == multiset{xs[0]} + multiset(xs[1..]) by {
        assert xs == [xs[0]] + xs[1..];
      }
    }
  }

  /** Keeping everything is the identity. */
  lemma {:induction false} SiftAll<T>(xs: seq<T>, keep: T -> bool)
    requires forall x :: keep(x)
    ensures Sift(xs, keep) == xs
  {
    if xs != [] {
      SiftAll(xs[1..], keep);
      assert xs == [xs[0]] + xs[1..];
    }
  }

  /** Sifting by a weaker test first changes nothing. */
  lemma {:induction false} SiftNarrowing<T>(xs: seq<T>, weak: T -> bool, strong: T -> bool)
    requires forall x :: strong(x) ==> weak(x)
    ensures Sift(Sift(xs, weak), strong) == Sift(xs, strong)
  {
    if xs != [] {
      var head: seq<T> := if weak(xs[0]) then [xs[0]] else [];
      SiftAppend(head, Sift(xs[1..], weak), strong);
      SiftNarrowing(xs[1..], weak, strong);
    }
  }

  /** Tests that agree on every element sift alike. */
  lemma {:induction false} SiftSameTest<T>(xs: seq<T>, p: T -> bool, q: T -> bool)
    requires forall x :: x in xs ==> p(x) == q(x)
    ensures Sift(xs, p) == Sift(xs, q)
  {
    if xs != [] {
      SiftSameTest(xs[1..], p, q);
    }
  }

  /** A test that keeps nothing gives the empty sequence. */
  lemma {:induction false} SiftNone<T>(xs: seq<T>, keep: T -> bool)
    requires forall i :: 0 <= i < |xs| ==> !keep(xs[i])
    ensures Sift(xs, keep) == []
  {
    if xs != [] {
      SiftNone(xs[1..], keep);
    }
  }

  /** `xs.slice(0, n)`. */
  function Take<T>(xs: seq<T>, n: nat): (r: seq<T>)
    ensures |r| == if |xs| <= n then |xs| else n
    ensures r <= xs
  {
    if |xs| <= n then xs else xs[..n]
  }

  /** Sifting a prefix gives a prefix of the sifted whole. */
  lemma SiftPrefix<T>(xs: seq<T>, n: nat, keep: T -> bool)
    ensures Sift(Take(xs, n), keep) <= Sift(xs, keep)
  {
    if n < |xs| {
      assert xs == xs[..n] + xs[n..];
      SiftAppend(xs[..n], xs[n..], keep);
    }
  }

  /** Keys never increase along `xs`. */
  predicate Descending<T>(xs: seq<T>, key: T -> real) {
    forall i, j :: 0 <= i < j < |xs| ==> key(xs[i]) >= key(xs[j])
  }

  /** Places `x` after every element whose key is at least its own. */
  function Insert<T>(x: T, s: seq<T>, key: T -> real): (r: seq<T>)
    requires Descending(s, key)
    ensures Descending(r, key)
    ensures multiset(r) == multiset(s) + multiset{x}
    ensures |r| == |s| + 1
    ensures r[0] == x || (s != [] && r[0] == s[0])
  {
    if s == [] then [x]
    else if key(s[0]) >= key(x) then
      var rest := Insert(x, s[1..], key);
      ConsDescending(s[0], rest, key);
      assert s == [s[0]] + s[1..];
      [s[0]] + rest
    else
      ConsDescending(x, s, key);
      [x] + s
  }

  /** A head whose key is at least that of the first element keeps a
      descending sequence descending. */
  lemma ConsDescending<T>(a: T, rest: seq<T>, key: T -> real)
    requires Descending(rest, key)
    requires rest != [] ==> key(a) >= key(rest[0])
    ensures Descending([a] + rest, key)
  {
    var r := [a] + rest;
    forall i, j | 0 <= i < j < |r| ensures key(r[i]) >= key(r[j]) {
      assert r[j] == rest[j - 1];
      if i > 0 {
        assert r[i] == rest[i - 1];
      } else if j > 1 {
        assert key(rest[0]) >= key(rest[j - 1]);
      }
    }
  }

  /** `xs.sort((a, b) => key(b) - key(a))`: a stable sort by descending
      key (insertion sort, taking the elements in order). */
  function SortDesc<T>(xs: seq<T>, key: T -> real): (r: seq<T>)
    ensures Descending(r, key)
    ensures multiset(r) == multiset(xs)
    ensures |r| == |xs|
  {
    if xs == [] then []
    else
      SplitLast(xs);
      Insert(xs[|xs| - 1], SortDesc(xs[..|xs| - 1], key), key)
  }

  lemma SplitLast<T>(xs: seq<T>)
    requires xs != []
    ensures xs == xs[..|xs| - 1] + [xs[|xs| - 1]]
  {
  }

  /** The elements whose key is `k`. */
  function KeyIs<T>(key: T -> real, k: real): T -> bool {
    y => key(y) == k
  }

  /** Inserting `x` puts it after every element with the same key. */
  lemma {:induction false} InsertKeepsTies<T>(x: T, s: seq<T>, key: T -> real, k: real)
    requires Descending(s, key)
    ensures Sift(Insert(x, s, key), KeyIs(key, k)) == Sift(s, KeyIs(key, k)) + Sift([x], KeyIs(key, k))
  {
    if s == [] {
      assert Insert(x, s, key) == [x];
    } else if key(s[0]) >= key(x) {
      var eq := KeyIs(key, k);
      calc {
        Sift(Insert(x, s, key), eq);
        { assert Insert(x, s, key) == [s[0]] + Insert(x, s[1..], key);
          SiftAppend([s[0]], Insert(x, s[1..], key), eq); }
        Sift([s[0]], eq) + Sift(Insert(x, s[1..], key), eq);
        { InsertKeepsTies(x, s[1..], key, k); }
        Sift([s[0]], eq) + (Sift(s[1..], eq) + Sift([x], eq));
        { AppendAssociates(Sift([s[0]], eq), Sift(s[1..], eq), Sift([x], eq)); }
        (Sift([s[0]], eq) + Sift(s[1..], eq)) + Sift([x], eq);
        { assert s == [s[0]] + s[1..];
          SiftAppend([s[0]], s[1..], eq); }
        Sift(s, eq) + Sift([x], eq);
      }
    } else {
      assert Insert(x, s, key) == [x] + s;
      TiesAhead(x, s, key, k);
    }
  }

  lemma AppendAssociates<T>(a: seq<T>, b: seq<T>, c: seq<T>)
    ensures a + (b + c) == (a + b) + c
  {
  }

  /** When `x` goes in front, nothing in `s` shares its key. */
  lemma TiesAhead<T>(x: T, s: seq<T>, key: T -> real, k: real)
    requires Descending(s, key) && s != [] && key(s[0]) < key(x)
    ensures Sift([x] + s, KeyIs(key, k)) == Sift(s, KeyIs(key, k)) + Sift([x], KeyIs(key, k))
  {
    var eq := KeyIs(key, k);
    SiftAppend([x], s, eq);
    if key(x) == k {
      forall i | 0 <= i < |s| ensures !eq(s[i]) {
        assert key(s[0]) >= key(s[i]);
      }
      SiftNone(s, eq);
    } else {
      assert Sift([x], eq) == [];
    }
  }

  /** The sort is stable: elements with equal keys keep their order. */
  lemma {:induction false} SortIsStable<T>(xs: seq<T>, key: T -> real, k: real)
    ensures Sift(SortDesc(xs, key), KeyIs(key, k)) == Sift(xs, KeyIs(key, k))
  {
    if xs != [] {
      var eq := KeyIs(key, k);
      var init, last := xs[..|xs| - 1], xs[|xs| - 1];
      SplitLast(xs);
      var sorted := SortDesc(init, key);
      assert SortDesc(xs, key) == Insert(last, sorted, key);
      SortIsStable(init, key, k);
      InsertKeepsTies(last, sorted, key, k);
      assert Sift(SortDesc(xs, key), eq) == Sift(init, eq) + Sift([last], eq);
      SiftAppend(init, [last], eq);
    }
  }
}

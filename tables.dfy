/**
 * Column-level operations of pandas that the scripts apply to their tables:
 * `Series.unique()` and `DataFrame.drop_duplicates(subset=..., keep="first")`,
 * both of which keep the first element of each key in order of appearance,
 * list comprehensions with a condition, and the plot style of a column.
 */
module Tables {
  import opened Results

  /** How a method's column is drawn: a colour, a marker and a legend label. */
  datatype Style = Style(color: string, marker: string, legend: string)

  /**
   * A method and its solvated variant both have a style, with the same
   * colour and marker and different labels.
   */
  predicate SharesStyle<E>(plain: Result<Style, E>, solvated: Result<Style, E>) {
    && plain.Success? && solvated.Success?
    && plain.value.color == solvated.value.color
    && plain.value.marker == solvated.value.marker
    && plain.value.legend != solvated.value.legend
  }

  /** No key occurs twice. */
  predicate Distinct<K(==)>(ks: seq<K>) {
    forall i, j :: 0 <= i < j < |ks| ==> ks[i] != ks[j]
  }

  /** The key of every element, in order. */
  function Keys<T, K>(xs: seq<T>, key: T -> K): (ks: seq<K>)
    ensures |ks| == |xs|
    ensures forall i :: 0 <= i < |xs| ==> ks[i] == key(xs[i])
  {
    seq(|xs|, i requires 0 <= i < |xs| => key(xs[i]))
  }

  /** The position of the first occurrence of `k`. */
  function FirstIndex<K(==)>(ks: seq<K>, k: K): (i: nat)
    requires k in ks
    ensures i < |ks| && ks[i] == k
    ensures forall j :: 0 <= j < i ==> ks[j] != k
    decreases |ks|
  {
    if ks[0] == k then 0 else 1 + FirstIndex(ks[1..], k)
  }

  /** The elements whose key has not occurred before them, in their original order. */
  function KeepFirst<T, K(==,!new)>(xs: seq<T>, key: T -> K): (r: seq<T>)
    ensures |r| <= |xs|
    ensures Distinct(Keys(r, key))
    ensures forall k :: k in Keys(r, key) <==> k in Keys(xs, key)
    decreases |xs|
  {
    if xs == [] then []
    else
      var prefix, last := xs[..|xs| - 1], xs[|xs| - 1];
      var kept := KeepFirst(prefix, key);
      assert Keys(xs, key) == Keys(prefix, key) + [key(last)];
      if key(last) in Keys(prefix, key) then kept
      else
        assert Keys(kept + [last], key) == Keys(kept, key) + [key(last)];
        kept + [last]
  }

  /** Python's `list(s.unique())`: every distinct value once, in order of first appearance. */
  function UniqueInOrder<T(==,!new)>(xs: seq<T>): (r: seq<T>)
    ensures Distinct(r)
    ensures forall x :: x in r <==> x in xs
  {
    var r := KeepFirst(xs, Identity);
    IdentityKeys(r);
    IdentityKeys(xs);
    r
  }

  function Identity<T>(x: T): T {
    x
  }

  lemma IdentityKeys<T>(xs: seq<T>)
    ensures Keys(xs, Identity) == xs
  {
  }

  lemma {:induction false} FirstIndexPrefix<K>(ks: seq<K>, n: nat, k: K)
    requires n <= |ks| && k in ks[..n]
    ensures k in ks && FirstIndex(ks, k) == FirstIndex(ks[..n], k)
    decreases n
  {
    assert ks[..n][0] == ks[0];
    if ks[0] != k {
      assert ks[..n][1..] == ks[1..][..n - 1];
      FirstIndexPrefix(ks[1..], n - 1, k);
    }
  }

  /** Every element of `r` is the first element of `xs` with its key. */
  ghost predicate AreFirsts<T, K>(xs: seq<T>, key: T -> K, r: seq<T>) {
    forall i :: 0 <= i < |r| ==> key(r[i]) in Keys(xs, key) && r[i] == xs[FirstIndex(Keys(xs, key), key(r[i]))]
  }

  /** The elements of `r` appear in the order of their keys' first occurrences in `xs`. */
  ghost predicate InFirstOrder<T, K>(xs: seq<T>, key: T -> K, r: seq<T>) {
    forall i, j :: 0 <= i < j < |r| ==>
      key(r[i]) in Keys(xs, key) && key(r[j]) in Keys(xs, key)
      && FirstIndex(Keys(xs, key), key(r[i])) < FirstIndex(Keys(xs, key), key(r[j]))
  }

  /**
   * Every kept element is the first one of its key, and the kept elements
   * follow the order of their keys' first occurrences.
   */
  lemma {:induction false} KeepFirstAreFirsts<T, K(!new)>(xs: seq<T>, key: T -> K)
    ensures AreFirsts(xs, key, KeepFirst(xs, key))
    decreases |xs|
  {
    if xs != [] {
      var n := |xs| - 1;
      var prefix, last := xs[..n], xs[n];
      KeepFirstAreFirsts(prefix, key);
      var ks, pks := Keys(xs, key), Keys(prefix, key);
      assert pks == ks[..n];
      var kept := KeepFirst(prefix, key);
      forall i | 0 <= i < |kept|
        ensures key(kept[i]) in ks && kept[i] == xs[FirstIndex(ks, key(kept[i]))]
      {
        assert key(kept[i]) in pks && kept[i] == prefix[FirstIndex(pks, key(kept[i]))];
        FirstIndexPrefix(ks, n, key(kept[i]));
      }
      if key(last) !in pks {
        assert ks[n] == key(last);
        assert FirstIndex(ks, key(last)) == n;
        assert KeepFirst(xs, key) == kept + [last];
      }
    }
  }

  lemma {:induction false} KeepFirstInOrder<T, K(!new)>(xs: seq<T>, key: T -> K)
    ensures InFirstOrder(xs, key, KeepFirst(xs, key))
    decreases |xs|
  {
    if xs != [] {
      var n := |xs| - 1;
      var prefix, last := xs[..n], xs[n];
      KeepFirstInOrder(prefix, key);
      var ks, pks := Keys(xs, key), Keys(prefix, key);
      assert pks == ks[..n];
      var kept := KeepFirst(prefix, key);
      forall i | 0 <= i < |kept|
        ensures key(kept[i]) in ks && FirstIndex(ks, key(kept[i])) == FirstIndex(pks, key(kept[i])) < n
      {
        assert key(kept[i]) in Keys(kept, key);
        FirstIndexPrefix(ks, n, key(kept[i]));
      }
      if key(last) !in pks {
        assert ks[n] == key(last);
        assert FirstIndex(ks, key(last)) == n;
        assert KeepFirst(xs, key) == kept + [last];
      }
    }
  }

  /** When no key repeats, nothing is dropped. */
  lemma {:induction false} KeepFirstOfDistinct<T, K(!new)>(xs: seq<T>, key: T -> K)
    requires Distinct(Keys(xs, key))
    ensures KeepFirst(xs, key) == xs
    decreases |xs|
  {
    if xs != [] {
      var n := |xs| - 1;
      var ks := Keys(xs, key);
      assert Keys(xs[..n], key) == ks[..n];
      KeepFirstOfDistinct(xs[..n], key);
      assert key(xs[n]) !in ks[..n];
      assert xs[..n] + [xs[n]] == xs;
    }
  }

  /** `unique()` lists each value at its first occurrence, so it changes nothing when no value repeats. */
  lemma UniqueInOrderOrder<T(!new)>(xs: seq<T>)
    ensures var r := UniqueInOrder(xs);
            && (forall i, j :: 0 <= i < j < |r| ==> FirstIndex(xs, r[i]) < FirstIndex(xs, r[j]))
            && (Distinct(xs) ==> r == xs)
  {
    var r := UniqueInOrder(xs);
    KeepFirstInOrder(xs, Identity);
    IdentityKeys(xs);
    assert InFirstOrder(xs, Identity, r);
    forall i, j | 0 <= i < j < |r| ensures FirstIndex(xs, r[i]) < FirstIndex(xs, r[j]) {
      assert Identity(r[i]) == r[i] && Identity(r[j]) == r[j];
    }
    if Distinct(xs) {
      KeepFirstOfDistinct(xs, Identity);
    }
  }

  /** The elements satisfying `p`, in order (a list comprehension with a condition). */
  function Filter<T(==,!new)>(xs: seq<T>, p: T -> bool): (r: seq<T>)
    ensures |r| <= |xs|
    ensures forall x :: x in r <==> x in xs && p(x)
    decreases |xs|
  {
    if xs == [] then []
    else
      var rest := Filter(xs[1..], p);
      assert forall x :: x in xs <==> x == xs[0] || x in xs[1..];
      if p(xs[0]) then [xs[0]] + rest else rest
  }

  /** Nothing is kept when no element satisfies `p`. */
  lemma {:induction false} FilterNone<T(!new)>(xs: seq<T>, p: T -> bool)
    requires forall x :: x in xs ==> !p(x)
    ensures Filter(xs, p) == []
    decreases |xs|
  {
    if xs != [] {
      assert forall x :: x in xs[1..] ==> x in xs;
      FilterNone(xs[1..], p);
    }
  }

  /** Filtering commutes with concatenation: the kept elements stay in their relative order. */
  lemma {:induction false} FilterAppend<T(!new)>(xs: seq<T>, ys: seq<T>, p: T -> bool)
    ensures Filter(xs + ys, p) == Filter(xs, p) + Filter(ys, p)
    decreases |xs|
  {
    if xs == [] {
      assert xs + ys == ys;
    } else {
      assert (xs + ys)[1..] == xs[1..] + ys;
      FilterAppend(xs[1..], ys, p);
    }
  }

  /** A filtered list without repeats keeps having none. */
  lemma {:induction false} FilterDistinct<T(!new)>(xs: seq<T>, p: T -> bool)
    requires Distinct(xs)
    ensures Distinct(Filter(xs, p))
    decreases |xs|
  {
    if xs != [] {
      assert Distinct(xs[1..]) by {
        forall i, j | 0 <= i < j < |xs[1..]| ensures xs[1..][i] != xs[1..][j] {
          assert xs[1..][i] == xs[i + 1] && xs[1..][j] == xs[j + 1];
        }
      }
      FilterDistinct(xs[1..], p);
      assert xs[0] !in xs[1..];
    }
  }
}

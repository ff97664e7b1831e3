/** Sequence helpers shared by the parser and the viewer: concatenation of a
    list of lists, JavaScript's `Array.prototype.filter`, and the positions at
    which a predicate holds. */
module Lists {

  function Last<T>(s: seq<T>): T
    requires s != []
  {
    s[|s| - 1]
  }

  /** A non-empty sequence is its front followed by its last element. */
  lemma SplitLast<T>(s: seq<T>)
    requires s != []
    ensures s == s[..|s| - 1] + [s[|s| - 1]]
  {
  }

  /** All the inner sequences, one after another. */
  function Flatten<T>(xss: seq<seq<T>>): seq<T>
    decreases |xss|
  {
    if xss == [] then [] else Flatten(xss[..|xss| - 1]) + xss[|xss| - 1]
  }

  lemma FlattenSnoc<T>(xss: seq<seq<T>>, xs: seq<T>)
    ensures Flatten(xss + [xs]) == Flatten(xss) + xs
  {
    assert (xss + [xs])[..|xss|] == xss;
  }

  /** The last element of the concatenation is the last element of the last part. */
  lemma FlattenLast<T>(xss: seq<seq<T>>)
    requires xss != [] && Last(xss) != []
    ensures Flatten(xss) != [] && Last(Flatten(xss)) == Last(Last(xss))
  {
  }

  /** `s.filter(keep)`: the elements of `s` that satisfy `keep`, in order. */
  function Filter<T>(s: seq<T>, keep: T -> bool): (r: seq<T>)
    ensures |r| <= |s|
    ensures forall i :: 0 <= i < |r| ==> r[i] in s && keep(r[i])
    ensures forall i :: 0 <= i < |s| && keep(s[i]) ==> s[i] in r
    decreases |s|
  {
    if s == [] then []
    else (if keep(s[0]) then [s[0]] else []) + Filter(s[1..], keep)
  }

  /** Filtering a concatenation filters each part. */
  lemma {:induction false} FilterAppend<T>(a: seq<T>, b: seq<T>, keep: T -> bool)
    ensures Filter(a + b, keep) == Filter(a, keep) + Filter(b, keep)
    decreases |a|
  {
    if a == [] {
      assert a + b == b;
    } else {
      assert (a + b)[0] == a[0];
      assert (a + b)[1..] == a[1..] + b;
      FilterAppend(a[1..], b, keep);
    }
  }

  lemma FilterSnoc<T>(s: seq<T>, x: T, keep: T -> bool)
    ensures Filter(s + [x], keep) == Filter(s, keep) + (if keep(x) then [x] else [])
  {
    FilterAppend(s, [x], keep);
    assert [x][1..] == [];
  }

  /** A filter that every element passes changes nothing. */
  lemma {:induction false} FilterKeepsAll<T>(s: seq<T>, keep: T -> bool)
    requires forall i :: 0 <= i < |s| ==> keep(s[i])
    ensures Filter(s, keep) == s
    decreases |s|
  {
    if s != [] {
      assert keep(s[0]);
      FilterKeepsAll(s[1..], keep);
    }
  }

  /** A filter that no element passes leaves nothing. */
  lemma {:induction false} FilterDropsAll<T>(s: seq<T>, keep: T -> bool)
    requires forall i :: 0 <= i < |s| ==> !keep(s[i])
    ensures Filter(s, keep) == []
    decreases |s|
  {
    if s != [] {
      assert !keep(s[0]);
      FilterDropsAll(s[1..], keep);
    }
  }

  /** `s.map(f)`. */
  function Map<T, U>(s: seq<T>, f: T -> U): (r: seq<U>)
    ensures |r| == |s| && forall i :: 0 <= i < |s| ==> r[i] == f(s[i])
  {
    seq(|s|, i requires 0 <= i < |s| => f(s[i]))
  }

  lemma MapAppend<T, U>(a: seq<T>, b: seq<T>, f: T -> U)
    ensures Map(a + b, f) == Map(a, f) + Map(b, f)
  {
  }

  /** `s.map((x, i) => f(x, i))`: a map that also passes each position. */
  function MapIndexed<T, U>(s: seq<T>, f: (T, nat) -> U): (r: seq<U>)
    ensures |r| == |s| && forall i :: 0 <= i < |s| ==> r[i] == f(s[i], i)
  {
    seq(|s|, i requires 0 <= i < |s| => f(s[i], i))
  }

  lemma MapIndexedSnoc<T, U>(s: seq<T>, f: (T, nat) -> U, i: nat)
    requires i < |s|
    ensures MapIndexed(s[..i + 1], f) == MapIndexed(s[..i], f) + [f(s[i], i)]
  {
    var longer, shorter := MapIndexed(s[..i + 1], f), MapIndexed(s[..i], f);
    forall j | 0 <= j < i ensures longer[j] == shorter[j] {
      assert s[..i + 1][j] == s[..i][j];
    }
  }

  /** Filtering after a map is mapping after filtering, when the filter after
      the map asks of each image what the filter before it asks of the original. */
  lemma {:induction false} FilterMap<T, U>(s: seq<T>, f: T -> U, p: T -> bool, q: U -> bool)
    requires forall x :: q(f(x)) == p(x)
    ensures Filter(Map(s, f), q) == Map(Filter(s, p), f)
    decreases |s|
  {
    if s != [] {
      var t := Map(s, f);
      assert t[0] == f(s[0]) && t[1..] == Map(s[1..], f);
      assert q(f(s[0])) == p(s[0]);
      FilterHead(t, q);
      FilterHead(s, p);
      FilterMap(s[1..], f, p, q);
      MapAppend(if p(s[0]) then [s[0]] else [], Filter(s[1..], p), f);
    }
  }

  lemma FilterHead<T>(s: seq<T>, keep: T -> bool)
    requires s != []
    ensures Filter(s, keep) == (if keep(s[0]) then [s[0]] else []) + Filter(s[1..], keep)
  {
  }



  /** The indices `i` of `s` at which `p(s[i])` holds, in increasing order. */
  function Positions<T>(s: seq<T>, p: T -> bool): (r: seq<nat>)
    ensures forall k :: 0 <= k < |r| ==> r[k] < |s| && p(s[r[k]])
    ensures forall k, l :: 0 <= k < l < |r| ==> r[k] < r[l]
    decreases |s|
  {
    if s == [] then []
    else Positions(s[..|s| - 1], p) + (if p(s[|s| - 1]) then [|s| - 1] else [])
  }

  /** Extending the sequence by one element lists its index when `p` holds there. */
  lemma PositionsSnoc<T>(s: seq<T>, p: T -> bool, i: nat)
    requires i < |s|
    ensures Positions(s[..i + 1], p) == Positions(s[..i], p) + (if p(s[i]) then [i] else [])
  {
    assert s[..i + 1][..i] == s[..i];
  }

  /** Every index at which `p` holds is listed. */
  lemma {:induction false} PositionsComplete<T>(s: seq<T>, p: T -> bool, i: nat)
    requires i < |s| && p(s[i])
    ensures i in Positions(s, p)
    decreases |s|
  {
    if i < |s| - 1 {
      var init := s[..|s| - 1];
      assert init[i] == s[i];
      PositionsComplete(init, p, i);
    }
  }

  /** The k-th listed index is preceded by exactly k indices at which `p` holds. */
  lemma {:induction false} PositionsPrefix<T>(s: seq<T>, p: T -> bool, k: nat)
    requires k < |Positions(s, p)|
    ensures Positions(s[..Positions(s, p)[k]], p) == Positions(s, p)[..k]
    decreases |s|
  {
    var init := s[..|s| - 1];
    var before := Positions(init, p);
    if k < |before| {
      PositionsPrefix(init, p, k);
      assert init[..before[k]] == s[..before[k]];
    } else {
      assert init == s[..|s| - 1];
      assert Positions(s, p)[..k] == before;
    }
  }
}

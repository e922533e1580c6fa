/** Sequence combinators for the column-wise table operations of the forecast
    engine: a boolean mask selection (`df[mask]`), a column map and the
    concatenation of a list of tables (`pd.concat`). Every row keeps its
    relative position, so each operation is stated in terms of order. */
module Seqs {

  /** The rows of `s` that satisfy `p`, in their original order. */
  function Filter<T(!new)>(s: seq<T>, p: T -> bool): (r: seq<T>)
    ensures |r| <= |s|
    ensures forall i :: 0 <= i < |r| ==> p(r[i])
    ensures forall x :: x in r <==> x in s && p(x)
  {
    if s == [] then []
    else
      assert s == [s[0]] + s[1..];
      if p(s[0]) then [s[0]] + Filter(s[1..], p) else Filter(s[1..], p)
  }

  /** A selection keeps every copy of a row it admits: each admitted row
      occurs in the result as often as in the input, and no other row occurs. */
  lemma {:induction false} FilterMultiplicity<T(!new)>(s: seq<T>, p: T -> bool, x: T)
    ensures multiset(Filter(s, p))[x] == if p(x) then multiset(s)[x] else 0
  {
    if s != [] {
      FilterMultiplicity(s[1..], p, x);
      assert s == [s[0]] + s[1..];
    }
  }

  /** `f` applied to every row of `s`, position by position. */
  function Map<T, U>(s: seq<T>, f: T -> U): (r: seq<U>)
    ensures |r| == |s|
    ensures forall i :: 0 <= i < |s| ==> r[i] == f(s[i])
  {
    if s == [] then [] else [f(s[0])] + Map(s[1..], f)
  }

  /** The tables of `ss` one after the other. */
  function Concat<T(!new)>(ss: seq<seq<T>>): (r: seq<T>)
    ensures forall x :: x in r <==> exists k :: 0 <= k < |ss| && x in ss[k]
  {
    if ss == [] then []
    else
      var init := ss[..|ss| - 1];
      assert forall k :: 0 <= k < |init| ==> init[k] == ss[k];
      Concat(init) + ss[|ss| - 1]
  }

  lemma ConcatSnoc<T(!new)>(ss: seq<seq<T>>, t: seq<T>)
    ensures Concat(ss + [t]) == Concat(ss) + t
  {
    assert (ss + [t])[..|ss|] == ss;
  }

  /** Selecting from a concatenation selects from each part, keeping the parts in order. */
  lemma {:induction false} FilterConcat<T(!new)>(a: seq<T>, b: seq<T>, p: T -> bool)
    ensures Filter(a + b, p) == Filter(a, p) + Filter(b, p)
  {
    if a == [] {
      assert a + b == b;
    } else {
      assert (a + b)[0] == a[0];
      assert (a + b)[1..] == a[1..] + b;
      FilterConcat(a[1..], b, p);
    }
  }

  lemma {:induction false} MapConcat<T, U>(a: seq<T>, b: seq<T>, f: T -> U)
    ensures Map(a + b, f) == Map(a, f) + Map(b, f)
  {
    if a == [] {
      assert a + b == b;
    } else {
      assert (a + b)[1..] == a[1..] + b;
      MapConcat(a[1..], b, f);
    }
  }

  /** Two selections in a row are one selection by the conjunction. */
  lemma {:induction false} FilterFilter<T(!new)>(s: seq<T>, p: T -> bool, q: T -> bool, pq: T -> bool)
    requires forall x :: pq(x) == (p(x) && q(x))
    ensures Filter(Filter(s, p), q) == Filter(s, pq)
  {
    if s != [] {
      FilterFilter(s[1..], p, q, pq);
    }
  }

  /** Selecting by predicates that agree on every row gives the same rows. */
  lemma {:induction false} FilterAgree<T(!new)>(s: seq<T>, p: T -> bool, q: T -> bool)
    requires forall x :: x in s ==> p(x) == q(x)
    ensures Filter(s, p) == Filter(s, q)
  {
    if s != [] {
      assert forall x :: x in s[1..] ==> x in s;
      FilterAgree(s[1..], p, q);
    }
  }

  /** A selection that every row passes keeps the table unchanged. */
  lemma {:induction false} FilterAll<T(!new)>(s: seq<T>, p: T -> bool)
    requires forall x :: x in s ==> p(x)
    ensures Filter(s, p) == s
  {
    if s != [] {
      assert forall x :: x in s[1..] ==> x in s;
      FilterAll(s[1..], p);
      assert s == [s[0]] + s[1..];
    }
  }

  /** Selecting after a map equals mapping after the selection, when the map
      does not change what the selection looks at. */
  lemma {:induction false} FilterMap<T(!new), U(!new)>(s: seq<T>, f: T -> U, q: U -> bool, p: T -> bool)
    requires forall x :: q(f(x)) == p(x)
    ensures Filter(Map(s, f), q) == Map(Filter(s, p), f)
  {
    if s != [] {
      assert Map(s, f)[1..] == Map(s[1..], f);
      FilterMap(s[1..], f, q, p);
    }
  }

  lemma {:induction false} MapMap<T, U, V>(s: seq<T>, f: T -> U, g: U -> V, h: T -> V)
    requires forall x :: h(x) == g(f(x))
    ensures Map(Map(s, f), g) == Map(s, h)
  {
    if s != [] {
      assert Map(s, f)[1..] == Map(s[1..], f);
      MapMap(s[1..], f, g, h);
    }
  }

  // ----- Accumulating one table per processed item -----

  /** The tables a loop over `ms` appends, one `part(m)` for every item `m`
      that `skip` does not pass over, in the order of `ms`. */
  function Gather<M, T>(ms: seq<M>, skip: M -> bool, part: M -> seq<T>): (r: seq<seq<T>>)
    ensures |r| <= |ms|
    decreases |ms|
  {
    if ms == [] then []
    else
      var init := Gather(ms[..|ms| - 1], skip, part);
      var m := ms[|ms| - 1];
      if skip(m) then init else init + [part(m)]
  }

  /** One more item of the loop. */
  lemma GatherStep<M, T>(ms: seq<M>, i: nat, skip: M -> bool, part: M -> seq<T>)
    requires i < |ms|
    ensures Gather(ms[..i + 1], skip, part) ==
      Gather(ms[..i], skip, part) + (if skip(ms[i]) then [] else [part(ms[i])])
  {
    assert ms[..i + 1][..i] == ms[..i];
  }

  /** Nothing is gathered exactly when every item is skipped. */
  lemma {:induction false} GatherEmpty<M, T>(ms: seq<M>, skip: M -> bool, part: M -> seq<T>)
    ensures Gather(ms, skip, part) == [] <==> forall i :: 0 <= i < |ms| ==> skip(ms[i])
    decreases |ms|
  {
    if ms != [] {
      var init := ms[..|ms| - 1];
      GatherEmpty(init, skip, part);
      assert forall i :: 0 <= i < |init| ==> init[i] == ms[i];
    }
  }

  /** A row of the concatenated result belongs to the part of an item that was not skipped, and back. */
  lemma {:induction false} GatherMember<M, T(!new)>(ms: seq<M>, skip: M -> bool, part: M -> seq<T>, x: T)
    ensures x in Concat(Gather(ms, skip, part)) <==>
      exists i :: 0 <= i < |ms| && !skip(ms[i]) && x in part(ms[i])
    decreases |ms|
  {
    if ms != [] {
      var init := ms[..|ms| - 1];
      var m := ms[|ms| - 1];
      GatherMember(init, skip, part, x);
      assert forall i :: 0 <= i < |init| ==> init[i] == ms[i];
      if !skip(m) {
        ConcatSnoc(Gather(init, skip, part), part(m));
      }
    }
  }

  /** Gathering parts that are selections of other parts selects from the gathered whole. */
  lemma {:induction false} GatherFilter<M, T(!new)>(ms: seq<M>, skip: M -> bool, part: M -> seq<T>, whole: M -> seq<T>, q: T -> bool)
    requires forall i :: 0 <= i < |ms| ==> part(ms[i]) == Filter(whole(ms[i]), q)
    ensures |Gather(ms, skip, part)| == |Gather(ms, skip, whole)|
    ensures Concat(Gather(ms, skip, part)) == Filter(Concat(Gather(ms, skip, whole)), q)
    decreases |ms|
  {
    if ms != [] {
      var init := ms[..|ms| - 1];
      var m := ms[|ms| - 1];
      assert forall i :: 0 <= i < |init| ==> init[i] == ms[i];
      GatherFilter(init, skip, part, whole, q);
      if !skip(m) {
        ConcatSnoc(Gather(init, skip, part), part(m));
        ConcatSnoc(Gather(init, skip, whole), whole(m));
        FilterConcat(Concat(Gather(init, skip, whole)), whole(m), q);
      }
    }
  }

  /** When the items ascend and every row of a part carries its item's key,
      the gathered rows ascend by key. */
  lemma {:induction false} GatherOrdered<M, T(!new)>(ms: seq<M>, skip: M -> bool, part: M -> seq<T>, ord: M -> int, key: T -> int)
    requires forall i, j :: 0 <= i < j < |ms| ==> ord(ms[i]) < ord(ms[j])
    requires forall i, x :: 0 <= i < |ms| && x in part(ms[i]) ==> key(x) == ord(ms[i])
    ensures ms != [] ==> forall p :: 0 <= p < |Concat(Gather(ms, skip, part))| ==>
      key(Concat(Gather(ms, skip, part))[p]) <= ord(ms[|ms| - 1])
    ensures forall p, q :: 0 <= p < q < |Concat(Gather(ms, skip, part))| ==>
      key(Concat(Gather(ms, skip, part))[p]) <= key(Concat(Gather(ms, skip, part))[q])
    decreases |ms|
  {
    if ms != [] {
      var init := ms[..|ms| - 1];
      var m := ms[|ms| - 1];
      assert forall i :: 0 <= i < |init| ==> init[i] == ms[i];
      GatherOrdered(init, skip, part, ord, key);
      var before := Concat(Gather(init, skip, part));
      assert before != [] ==> init != [];
      assert init != [] ==> ord(init[|init| - 1]) < ord(m);
      forall p | 0 <= p < |before|
        ensures key(before[p]) < ord(m)
      {
        assert key(before[p]) <= ord(init[|init| - 1]);
      }
      if !skip(m) {
        var chunk := part(m);
        ConcatSnoc(Gather(init, skip, part), chunk);
        var rows := before + chunk;
        forall p | |before| <= p < |rows|
          ensures key(rows[p]) == ord(m)
        {
          assert rows[p] == chunk[p - |before|];
          assert rows[p] in part(ms[|ms| - 1]);
        }
        assert forall p :: 0 <= p < |before| ==> rows[p] == before[p];
      }
    }
  }

  /** A row is in a selection of a map exactly when some selected row maps to it. */
  lemma MapFilterMember<T(!new), U(!new)>(s: seq<T>, p: T -> bool, f: T -> U, y: U)
    ensures y in Map(Filter(s, p), f) <==> exists x :: x in s && p(x) && y == f(x)
  {
    var r := Filter(s, p);
    if y in Map(r, f) {
      var j :| 0 <= j < |r| && Map(r, f)[j] == y;
      assert r[j] in r;
    }
    if exists x :: x in s && p(x) && y == f(x) {
      var x :| x in s && p(x) && y == f(x);
      var j :| 0 <= j < |r| && r[j] == x;
      assert Map(r, f)[j] == y;
    }
  }
}

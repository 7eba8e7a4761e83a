/** Sequence and map combinators that several source loops share: the
    `for … { if … { continue } ; out = append(out, …) }` filter-map, the
    `m[key(v)] = v` index build, and Go's zero-valued map read. */
module Collections {
  import opened Wrappers

  /** The elements `f` accepts, mapped through `f`, in input order. */
  function FilterMap<A, B>(xs: seq<A>, f: A -> Option<B>): (r: seq<B>)
    ensures |r| <= |xs|
    ensures forall y :: y in r ==> exists i :: 0 <= i < |xs| && f(xs[i]) == Some(y)
    ensures forall i :: 0 <= i < |xs| && f(xs[i]).Some? ==> f(xs[i]).value in r
    decreases |xs|
  {
    if |xs| == 0 then []
    else
      var rest := FilterMap(xs[1..], f);
      assert forall i :: 1 <= i < |xs| ==> xs[i] == xs[1..][i - 1];
      match f(xs[0])
      case Some(y) => [y] + rest
      case None => rest
  }

  /** Filtering distributes over concatenation: the order of kept elements is the input order. */
  lemma {:induction false} FilterMapAppend<A, B>(a: seq<A>, b: seq<A>, f: A -> Option<B>)
    ensures FilterMap(a + b, f) == FilterMap(a, f) + FilterMap(b, f)
    decreases |a|
  {
    if |a| == 0 {
      assert a + b == b;
    } else {
      assert (a + b)[1..] == a[1..] + b;
      FilterMapAppend(a[1..], b, f);
    }
  }

  lemma FilterMapSingleton<A, B>(x: A, f: A -> Option<B>)
    ensures FilterMap([x], f) == if f(x).Some? then [f(x).value] else []
  {
    assert [x][1..] == [];
  }

  /** One more loop iteration: the new element is appended exactly when `f` accepts it. */
  lemma FilterMapSnoc<A, B>(xs: seq<A>, x: A, f: A -> Option<B>)
    ensures FilterMap(xs + [x], f) == FilterMap(xs, f) + (if f(x).Some? then [f(x).value] else [])
  {
    FilterMapAppend(xs, [x], f);
    FilterMapSingleton(x, f);
  }

  /** An element `f` rejects contributes nothing, and everything around it is kept in order. */
  lemma FilterMapSkipsRejected<A, B>(a: seq<A>, x: A, b: seq<A>, f: A -> Option<B>)
    requires f(x).None?
    ensures FilterMap(a + [x] + b, f) == FilterMap(a + b, f)
  {
    FilterMapAppend(a + [x], b, f);
    FilterMapAppend(a, [x], f);
    FilterMapAppend(a, b, f);
  }

  /** When `f` accepts every element, the result is the element-wise image, one per input. */
  lemma {:induction false} FilterMapKeepsAll<A, B>(xs: seq<A>, f: A -> Option<B>)
    requires forall i :: 0 <= i < |xs| ==> f(xs[i]).Some?
    ensures |FilterMap(xs, f)| == |xs|
    ensures forall i :: 0 <= i < |xs| ==> FilterMap(xs, f)[i] == f(xs[i]).value
    decreases |xs|
  {
    if |xs| > 0 {
      FilterMapKeepsAll(xs[1..], f);
    }
  }

  /** The map a loop `m[key(v)] = v` builds: later elements overwrite earlier ones. */
  function IndexLast<K(==), V>(xs: seq<V>, key: V -> K): (m: map<K, V>)
    ensures m.Keys == set i | 0 <= i < |xs| :: key(xs[i])
    ensures forall k :: k in m ==> key(m[k]) == k && m[k] in xs
    ensures forall i :: 0 <= i < |xs| && IsLastWithKey(xs, key, i) ==> m[key(xs[i])] == xs[i]
    decreases |xs|
  {
    if |xs| == 0 then map[]
    else
      var n := |xs| - 1;
      var m0 := IndexLast(xs[..n], key);
      IndexLastExtend(xs[..n], xs[n], key, m0);
      assert xs[..n] + [xs[n]] == xs;
      m0[key(xs[n]) := xs[n]]
  }

  /** The step of `IndexLast`: overwriting the key of one more element extends the index of a
      prefix to an index of the longer sequence. */
  lemma IndexLastExtend<K, V>(prev: seq<V>, x: V, key: V -> K, m0: map<K, V>)
    requires m0.Keys == set i | 0 <= i < |prev| :: key(prev[i])
    requires forall k :: k in m0 ==> key(m0[k]) == k && m0[k] in prev
    requires forall i :: 0 <= i < |prev| && IsLastWithKey(prev, key, i) ==> m0[key(prev[i])] == prev[i]
    ensures var xs, m := prev + [x], m0[key(x) := x];
      && m.Keys == (set i | 0 <= i < |xs| :: key(xs[i]))
      && (forall k :: k in m ==> key(m[k]) == k && m[k] in xs)
      && (forall i :: 0 <= i < |xs| && IsLastWithKey(xs, key, i) ==> m[key(xs[i])] == xs[i])
  {
    var xs, m := prev + [x], m0[key(x) := x];
    var n := |prev|;
    assert forall i :: 0 <= i < n ==> prev[i] == xs[i];
    assert xs[n] == x;
    var all, before := set i | 0 <= i < |xs| :: key(xs[i]), set i | 0 <= i < n :: key(prev[i]);
    forall k | k in all
      ensures k in before + {key(x)}
    {
      var i :| 0 <= i < |xs| && key(xs[i]) == k;
      if i < n {
        assert key(prev[i]) == k;
      }
    }
    assert all == before + {key(x)};
    forall i | 0 <= i < |xs| && IsLastWithKey(xs, key, i)
      ensures m[key(xs[i])] == xs[i]
    {
      if i < n {
        assert IsLastWithKey(prev, key, i);
        assert key(xs[i]) != key(xs[n]);
      }
    }
  }

  /** Appending an element overwrites (or adds) its key. */
  lemma IndexLastSnoc<K, V>(xs: seq<V>, x: V, key: V -> K)
    ensures IndexLast(xs + [x], key) == IndexLast(xs, key)[key(x) := x]
  {
    assert (xs + [x])[..|xs|] == xs;
  }

  /** No element after position `i` has the key of `xs[i]`. */
  predicate IsLastWithKey<K(==), V>(xs: seq<V>, key: V -> K, i: nat)
    requires i < |xs|
  {
    forall j :: i < j < |xs| ==> key(xs[j]) != key(xs[i])
  }

  /** Concatenation of a sequence of chunks. */
  function Flatten<T>(ss: seq<seq<T>>): seq<T>
  {
    if |ss| == 0 then [] else ss[0] + Flatten(ss[1..])
  }

  /** Go's `m[k]` on a `map[string]string`: the empty string when the key is absent. */
  function GetOrEmpty(m: map<string, string>, k: string): (v: string)
    ensures k !in m ==> v == ""
    ensures k in m ==> v == m[k]
  {
    if k in m then m[k] else ""
  }
}

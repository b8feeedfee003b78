/** Python dictionaries with text keys, as the functions use them:
    insertion-ordered association lists where assigning an existing key replaces its value in
    place and a new key goes to the end. */
module Dicts {
  import opened Wrappers

  /** The keys of an association list, in order. */
  function Keys<V>(d: seq<(string, V)>): (r: seq<string>)
    ensures |r| == |d|
    ensures forall i :: 0 <= i < |d| ==> r[i] == d[i].0
  {
    if |d| == 0 then [] else Keys(d[..|d| - 1]) + [d[|d| - 1].0]
  }

  /** No key occurs twice: what every Python dictionary satisfies. */
  predicate DistinctKeys<V>(d: seq<(string, V)>)
  {
    forall i, j :: 0 <= i < j < |d| ==> d[i].0 != d[j].0
  }

  /** The position of `k` among the keys, if present. */
  function Position<V>(d: seq<(string, V)>, k: string): (r: Option<nat>)
    ensures r.None? <==> forall i :: 0 <= i < |d| ==> d[i].0 != k
    ensures r.Some? ==> (r.value < |d| && d[r.value].0 == k
      && forall i :: 0 <= i < r.value ==> d[i].0 != k)
  {
    if |d| == 0 then None
    else if d[0].0 == k then Some(0)
    else match Position(d[1..], k)
      case None => None
      case Some(i) => Some(i + 1)
  }

  /** `d[k]`, with a missing key as None. */
  function Get<V>(d: seq<(string, V)>, k: string): Option<V>
  {
    match Position(d, k)
    case None => None
    case Some(i) => Some(d[i].1)
  }

  /** `d[k] = v`. */
  function Put<V>(d: seq<(string, V)>, k: string, v: V): (r: seq<(string, V)>)
    ensures Get(r, k) == Some(v)
    ensures forall k' :: k' != k ==> Get(r, k') == Get(d, k')
    ensures Get(d, k).Some? ==> Keys(r) == Keys(d)
    ensures Get(d, k).None? ==> Keys(r) == Keys(d) + [k]
    ensures DistinctKeys(d) ==> DistinctKeys(r)
  {
    match Position(d, k)
    case Some(i) =>
      var r := d[i := (k, v)];
      assert Keys(r) == Keys(d);
      PositionUnchanged(d, r, k);
      r
    case None =>
      var r := d + [(k, v)];
      PositionExtended(d, k, v);
      r
  }

  lemma PositionUnchanged<V>(d: seq<(string, V)>, r: seq<(string, V)>, k: string)
    requires |r| == |d| && forall i :: 0 <= i < |d| ==> r[i].0 == d[i].0
    requires forall i :: 0 <= i < |d| && d[i].0 != k ==> r[i] == d[i]
    ensures forall k' :: Position(r, k') == Position(d, k')
    ensures forall k' :: k' != k ==> Get(r, k') == Get(d, k')
  {
    forall k'
      ensures Position(r, k') == Position(d, k')
    {
      var pr := Position(r, k');
      var pd := Position(d, k');
      if pr.Some? && pd.Some? {
        assert !(pr.value < pd.value) && !(pd.value < pr.value);
      }
    }
  }

  /** The first index holding `k` is its position. */
  lemma PositionAt<V>(d: seq<(string, V)>, k: string, i: nat)
    requires i < |d| && d[i].0 == k
    requires forall j :: 0 <= j < i ==> d[j].0 != k
    ensures Position(d, k) == Some(i)
  {
    var p := Position(d, k);
    assert p.Some?;
    assert !(p.value < i) && !(i < p.value);
  }

  lemma PositionExtended<V>(d: seq<(string, V)>, k: string, v: V)
    requires forall i :: 0 <= i < |d| ==> d[i].0 != k
    ensures Position(d + [(k, v)], k) == Some(|d|)
    ensures forall k' :: k' != k ==> Position(d + [(k, v)], k') == Position(d, k')
  {
    var r := d + [(k, v)];
    PositionAt(r, k, |d|);
    forall k' | k' != k
      ensures Position(r, k') == Position(d, k')
    {
      match Position(d, k')
      case Some(i) =>
        PositionAt(r, k', i);
      case None =>
        assert forall j :: 0 <= j < |r| ==> r[j].0 != k';
    }
  }

  /** `for k, v in ps: d[k] = v`; also `d | ps` for a dictionary `ps`. */
  function PutAll<V>(d: seq<(string, V)>, ps: seq<(string, V)>): seq<(string, V)>
  {
    if |ps| == 0 then d
    else
      var last := ps[|ps| - 1];
      Put(PutAll(d, ps[..|ps| - 1]), last.0, last.1)
  }

  /** The value the last pair for `k` in `ps` carries. */
  function LastFor<V>(ps: seq<(string, V)>, k: string): Option<V>
  {
    if |ps| == 0 then None
    else if ps[|ps| - 1].0 == k then Some(ps[|ps| - 1].1)
    else LastFor(ps[..|ps| - 1], k)
  }

  /** After a run of assignments a key holds the value assigned to it last,
      or its old value when it was never assigned. */
  lemma {:induction false} PutAllGet<V>(d: seq<(string, V)>, ps: seq<(string, V)>, k: string)
    ensures Get(PutAll(d, ps), k) == (if LastFor(ps, k).Some? then LastFor(ps, k) else Get(d, k))
  {
    if |ps| > 0 {
      PutAllGet(d, ps[..|ps| - 1], k);
    }
  }

  /** Assignments never repeat a key. */
  lemma {:induction false} PutAllDistinct<V>(d: seq<(string, V)>, ps: seq<(string, V)>)
    requires DistinctKeys(d)
    ensures DistinctKeys(PutAll(d, ps))
  {
    if |ps| > 0 {
      PutAllDistinct(d, ps[..|ps| - 1]);
    }
  }

  /** A key absent from a list has no position in it. */
  lemma GetNone<V>(d: seq<(string, V)>, k: string)
    ensures Get(d, k).None? <==> k !in Keys(d)
  {
    if k in Keys(d) {
      var i :| 0 <= i < |Keys(d)| && Keys(d)[i] == k;
      assert d[i].0 == k;
    }
  }

  /** A new key is appended. */
  lemma PutNew<V>(d: seq<(string, V)>, k: string, v: V)
    requires forall i :: 0 <= i < |d| ==> d[i].0 != k
    ensures Put(d, k, v) == d + [(k, v)]
  {
    assert Position(d, k).None?;
  }

  /** `a | b` for dictionaries with no key in common is `a` followed by `b`. */
  lemma {:induction false} DisjointUnion<V>(a: seq<(string, V)>, b: seq<(string, V)>)
    requires DistinctKeys(a) && DistinctKeys(b)
    requires forall i, j :: 0 <= i < |a| && 0 <= j < |b| ==> a[i].0 != b[j].0
    ensures PutAll(a, b) == a + b
  {
    if |b| > 0 {
      var init := b[..|b| - 1];
      var last := b[|b| - 1];
      assert DistinctKeys(init) by {
        forall i, j | 0 <= i < j < |init| ensures init[i].0 != init[j].0 {
          assert init[i] == b[i] && init[j] == b[j];
        }
      }
      assert forall i, j :: 0 <= i < |a| && 0 <= j < |init| ==> a[i].0 != init[j].0 by {
        forall i, j | 0 <= i < |a| && 0 <= j < |init| ensures a[i].0 != init[j].0 {
          assert init[j] == b[j];
        }
      }
      DisjointUnion(a, init);
      assert PutAll(a, b) == Put(PutAll(a, init), last.0, last.1);
      LastKeyFresh(a, b, a + init);
      PutNew(a + init, last.0, last.1);
      SplitLast(a, b);
    }
  }

  lemma SplitLast<T>(a: seq<T>, b: seq<T>)
    requires |b| > 0
    ensures a + b == (a + b[..|b| - 1]) + [b[|b| - 1]]
  {
    assert b == b[..|b| - 1] + [b[|b| - 1]];
  }

  /** The last key of `b` occurs neither in `a` nor earlier in `b`. */
  lemma LastKeyFresh<V>(a: seq<(string, V)>, b: seq<(string, V)>, before: seq<(string, V)>)
    requires |b| > 0 && DistinctKeys(b) && before == a + b[..|b| - 1]
    requires forall i, j :: 0 <= i < |a| && 0 <= j < |b| ==> a[i].0 != b[j].0
    ensures forall j :: 0 <= j < |before| ==> before[j].0 != b[|b| - 1].0
  {
    forall j | 0 <= j < |before|
      ensures before[j].0 != b[|b| - 1].0
    {
      if j < |a| {
        assert before[j] == a[j];
      } else {
        assert before[j] == b[j - |a|];
      }
    }
  }

  /** Every key after a run of assignments was there before or was assigned. */
  lemma PutAllKeysFrom<V>(d: seq<(string, V)>, ps: seq<(string, V)>)
    ensures forall k :: k in Keys(PutAll(d, ps)) ==> k in Keys(d) || k in Keys(ps)
  {
    forall k | k in Keys(PutAll(d, ps))
      ensures k in Keys(d) || k in Keys(ps)
    {
      GetNone(PutAll(d, ps), k);
      PutAllGet(d, ps, k);
      if LastFor(ps, k).Some? {
        LastForIn(ps, k);
      } else {
        GetNone(d, k);
      }
    }
  }

  /** A key that was assigned is among the assigned keys. */
  lemma {:induction false} LastForIn<V>(ps: seq<(string, V)>, k: string)
    requires LastFor(ps, k).Some?
    ensures k in Keys(ps)
  {
    if ps[|ps| - 1].0 == k {
      assert Keys(ps)[|ps| - 1] == k;
    } else {
      var init := ps[..|ps| - 1];
      LastForIn(init, k);
      var i :| 0 <= i < |init| && Keys(init)[i] == k;
      assert Keys(ps)[i] == k;
    }
  }

  lemma KeysAppend<V>(a: seq<(string, V)>, b: seq<(string, V)>)
    ensures Keys(a + b) == Keys(a) + Keys(b)
  {
    assert |Keys(a + b)| == |Keys(a) + Keys(b)|;
    forall i | 0 <= i < |a + b|
      ensures Keys(a + b)[i] == (Keys(a) + Keys(b))[i]
    {
      if i >= |a| {
        assert (a + b)[i] == b[i - |a|];
      }
    }
  }
}

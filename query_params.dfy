/**
  `URLSearchParams` as the filter components use it: an ordered list of key/value pairs,
  copied from the current URL, edited with `set` and `delete`, and written back with
  `toString` into the target of `router.replace`.
 */
module QueryParams {
  import opened Wrappers

  datatype Pair = Pair(key: string, value: string)

  /** The pairs with key `k`, in order. */
  function Only(ps: seq<Pair>, k: string): (r: seq<Pair>)
    ensures |r| <= |ps|
    ensures forall i :: 0 <= i < |r| ==> r[i].key == k
  {
    if ps == [] then []
    else if ps[0].key == k then [ps[0]] + Only(ps[1..], k)
    else Only(ps[1..], k)
  }

  /** `params.delete(k)`: the pairs with any other key, in order. */
  function Deleted(ps: seq<Pair>, k: string): (r: seq<Pair>)
    ensures |r| <= |ps|
    ensures forall i :: 0 <= i < |r| ==> r[i].key != k
  {
    if ps == [] then []
    else if ps[0].key == k then Deleted(ps[1..], k)
    else [ps[0]] + Deleted(ps[1..], k)
  }

  /** `params.get(k)`: the value of the first pair with key `k`. */
  function Lookup(ps: seq<Pair>, k: string): Option<string> {
    var matching := Only(ps, k);
    if matching == [] then None else Some(matching[0].value)
  }

  /** The position of the first pair with key `k`. */
  function FirstIndex(ps: seq<Pair>, k: string): (r: Option<nat>)
    ensures r.Some? ==> r.value < |ps| && ps[r.value].key == k && forall j :: 0 <= j < r.value ==> ps[j].key != k
    ensures r.None? ==> forall j :: 0 <= j < |ps| ==> ps[j].key != k
  {
    if ps == [] then None
    else if ps[0].key == k then Some(0)
    else
      var rest := FirstIndex(ps[1..], k);
      assert forall j :: 1 <= j < |ps| ==> ps[j] == ps[1..][j - 1];
      if rest.Some? then Some(rest.value + 1) else None
  }

  /** `params.set(k, v)`: the first pair with key `k` takes the value and the other pairs with
      that key go; without such a pair, a new one is appended. */
  function SetSpec(ps: seq<Pair>, k: string, v: string): seq<Pair> {
    match FirstIndex(ps, k)
    case None => ps + [Pair(k, v)]
    case Some(i) => ps[..i] + [Pair(k, v)] + Deleted(ps[i + 1..], k)
  }

  /** One `key=value` entry; percent-encoding is not modelled. */
  function Entry(p: Pair): (r: string)
    ensures r != ""
  {
    p.key + "=" + p.value
  }

  /** `params.toString()`: the entries joined by "&". */
  function Serialize(ps: seq<Pair>): (r: string)
    ensures r == "" <==> ps == []
  {
    if ps == [] then ""
    else if |ps| == 1 then Entry(ps[0])
    else Entry(ps[0]) + "&" + Serialize(ps[1..])
  }

  /** The navigation target: `qs ? `${path}?${qs}` : path`. */
  function Target(path: string, ps: seq<Pair>): (r: string)
    ensures ps == [] ==> r == path
    ensures ps != [] ==> r == path + "?" + Serialize(ps) && |r| > |path|
  {
    var qs := Serialize(ps);
    if qs != "" then path + "?" + qs else path
  }

  lemma {:induction false} OnlyAppend(a: seq<Pair>, b: seq<Pair>, k: string)
    ensures Only(a + b, k) == Only(a, k) + Only(b, k)
  {
    if a != [] {
      OnlyAppend(a[1..], b, k);
      assert (a + b)[1..] == a[1..] + b;
    } else {
      assert a + b == b;
    }
  }

  lemma {:induction false} DeletedAppend(a: seq<Pair>, b: seq<Pair>, k: string)
    ensures Deleted(a + b, k) == Deleted(a, k) + Deleted(b, k)
  {
    if a != [] {
      DeletedAppend(a[1..], b, k);
      assert (a + b)[1..] == a[1..] + b;
    } else {
      assert a + b == b;
    }
  }

  /** Deleting one key leaves the pairs of every other key as they were. */
  lemma {:induction false} OnlyAfterDelete(ps: seq<Pair>, k: string, other: string)
    ensures Only(Deleted(ps, k), k) == []
    ensures other != k ==> Only(Deleted(ps, k), other) == Only(ps, other)
  {
    if ps != [] {
      OnlyAfterDelete(ps[1..], k, other);
      if ps[0].key != k {
        assert Deleted(ps, k) == [ps[0]] + Deleted(ps[1..], k);
        OnlyAppend([ps[0]], Deleted(ps[1..], k), k);
        OnlyAppend([ps[0]], Deleted(ps[1..], k), other);
      }
    }
  }

  lemma {:induction false} NoneOfKey(ps: seq<Pair>, k: string)
    requires forall j :: 0 <= j < |ps| ==> ps[j].key != k
    ensures Only(ps, k) == [] && Deleted(ps, k) == ps
  {
    if ps != [] {
      NoneOfKey(ps[1..], k);
    }
  }

  /** `set` of an absent key appends one pair. */
  lemma OnlyAfterAppend(ps: seq<Pair>, k: string, v: string, other: string)
    requires FirstIndex(ps, k).None?
    ensures Only(ps + [Pair(k, v)], k) == [Pair(k, v)]
    ensures other != k ==> Only(ps + [Pair(k, v)], other) == Only(ps, other)
  {
    var single := [Pair(k, v)];
    assert Only(single, k) == [Pair(k, v)];
    assert other != k ==> Only(single, other) == [];
    NoneOfKey(ps, k);
    OnlyAppend(ps, single, k);
    OnlyAppend(ps, single, other);
  }

  /** `set` of a present key keeps one pair of it: the new one. */
  lemma OnlyKeyAfterReplace(ps: seq<Pair>, k: string, v: string, i: nat)
    requires FirstIndex(ps, k) == Some(i)
    ensures Only(ps[..i] + [Pair(k, v)] + Deleted(ps[i + 1..], k), k) == [Pair(k, v)]
  {
    var single := [Pair(k, v)];
    assert Only(single, k) == single;
    var pre, rest := ps[..i], ps[i + 1..];
    NoneOfKey(pre, k);
    OnlyAfterDelete(rest, k, k);
    OnlyAppend(pre + single, Deleted(rest, k), k);
    OnlyAppend(pre, single, k);
  }

  /** A pair of another key does not show among `other`'s pairs. */
  lemma OnlySkips(ys: seq<Pair>, x: Pair, zs: seq<Pair>, other: string)
    requires x.key != other
    ensures Only(ys + [x] + zs, other) == Only(ys + zs, other)
  {
    assert Only([x], other) == [];
    OnlyAppend(ys + [x], zs, other);
    OnlyAppend(ys, [x], other);
    OnlyAppend(ys, zs, other);
    assert Only(ys, other) + [] == Only(ys, other);
  }

  /** Another key's pairs around the new pair and the pruned rest are those around the old pair. */
  lemma OnlyAroundNewPair(ps: seq<Pair>, k: string, v: string, other: string, i: nat)
    requires FirstIndex(ps, k) == Some(i) && other != k
    ensures Only(ps[..i] + [Pair(k, v)] + Deleted(ps[i + 1..], k), other) == Only(ps[..i] + ps[i + 1..], other)
  {
    var pre, rest := ps[..i], ps[i + 1..];
    OnlySkips(pre, Pair(k, v), Deleted(rest, k), other);
    OnlyAppend(pre, Deleted(rest, k), other);
    OnlyAfterDelete(rest, k, other);
    OnlyAppend(pre, rest, other);
  }

  /** Another key's pairs do not include the first pair of `k`. */
  lemma OnlyAroundOldPair(ps: seq<Pair>, k: string, other: string, i: nat)
    requires FirstIndex(ps, k) == Some(i) && other != k
    ensures Only(ps, other) == Only(ps[..i] + ps[i + 1..], other)
  {
    var pre, rest := ps[..i], ps[i + 1..];
    assert ps == pre + [ps[i]] + rest;
    OnlySkips(pre, ps[i], rest, other);
  }

  /** `set` of a present key leaves the pairs of every other key as they were. */
  lemma OnlyOtherAfterReplace(ps: seq<Pair>, k: string, v: string, other: string, i: nat)
    requires FirstIndex(ps, k) == Some(i) && other != k
    ensures Only(ps[..i] + [Pair(k, v)] + Deleted(ps[i + 1..], k), other) == Only(ps, other)
  {
    OnlyAroundNewPair(ps, k, v, other, i);
    OnlyAroundOldPair(ps, k, other, i);
  }

  /** After `set`, the key has exactly the one new pair, and every other key keeps its pairs. */
  lemma OnlyAfterSet(ps: seq<Pair>, k: string, v: string, other: string)
    ensures Only(SetSpec(ps, k, v), k) == [Pair(k, v)]
    ensures other != k ==> Only(SetSpec(ps, k, v), other) == Only(ps, other)
  {
    match FirstIndex(ps, k)
    case None => OnlyAfterAppend(ps, k, v, other);
    case Some(i) =>
      OnlyKeyAfterReplace(ps, k, v, i);
      if other != k {
        OnlyOtherAfterReplace(ps, k, v, other, i);
      }
  }


  /** `get` after `set` and `delete`, and on the other keys. */
  lemma LookupAfterEdits(ps: seq<Pair>, k: string, v: string, other: string)
    ensures Lookup(SetSpec(ps, k, v), k) == Some(v)
    ensures Lookup(Deleted(ps, k), k) == None
    ensures other != k ==> Lookup(SetSpec(ps, k, v), other) == Lookup(ps, other)
    ensures other != k ==> Lookup(Deleted(ps, k), other) == Lookup(ps, other)
  {
    OnlyAfterSet(ps, k, v, other);
    OnlyAfterDelete(ps, k, other);
  }

  /** Setting a key the pairs do not have, then deleting it, gives the pairs back. */
  lemma SetThenDelete(ps: seq<Pair>, k: string, v: string)
    requires Lookup(ps, k) == None
    ensures Deleted(SetSpec(ps, k, v), k) == ps
  {
    assert forall j :: 0 <= j < |ps| ==> ps[j].key != k by {
      if exists j :: 0 <= j < |ps| && ps[j].key == k {
        var i := FirstIndex(ps, k).value;
        OnlyMember(ps, k, i);
        assert false;
      }
    }
    NoneOfKey(ps, k);
    DeletedAppend(ps, [Pair(k, v)], k);
  }

  lemma {:induction false} OnlyMember(ps: seq<Pair>, k: string, i: nat)
    requires i < |ps| && ps[i].key == k
    ensures Only(ps, k) != []
  {
    if ps[0].key != k {
      OnlyMember(ps[1..], k, i - 1);
    }
  }

  /** A copy of the current URL's parameters being edited. */
  class SearchParams {
    var pairs: seq<Pair>

    /** `new URLSearchParams(searchParams.toString())`: a copy of the same pairs. */
    constructor (pairs: seq<Pair>)
      ensures this.pairs == pairs
    {
      this.pairs := pairs;
    }

    function Get(k: string): Option<string>
      reads this
    {
      Lookup(pairs, k)
    }

    method Set(k: string, v: string)
      modifies this
      ensures pairs == SetSpec(old(pairs), k, v)
    {
      pairs := SetSpec(pairs, k, v);
    }

    method Delete(k: string)
      modifies this
      ensures pairs == Deleted(old(pairs), k)
    {
      pairs := Deleted(pairs, k);
    }

    function ToString(): string
      reads this
    {
      Serialize(pairs)
    }
  }
}

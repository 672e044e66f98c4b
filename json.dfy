/**
 * JSON-like values as the source handles them: Python dicts are ordered key/value sequences
 * (insertion order is observable when they are iterated or serialised).
 */
module JsonModel {
  import opened Optional
  import Text
  import Seqs

  datatype Json =
    | Null
    | Bool(b: bool)
    | Int(i: int)
    | Str(s: string)
    | Arr(items: seq<Json>)
    | Obj(members: seq<Member>)

  datatype Member = Member(key: string, value: Json)

  /** The keys of a dict, in insertion order. */
  function Keys(ms: seq<Member>): (ks: seq<string>)
  {
    seq(|ms|, i requires 0 <= i < |ms| => ms[i].key)
  }

  lemma KeysAt(ms: seq<Member>, i: nat)
    requires i < |ms|
    ensures Keys(ms)[i] == ms[i].key
  {
  }

  lemma KeysCons(ms: seq<Member>)
    requires ms != []
    ensures Keys(ms) == [ms[0].key] + Keys(ms[1..])
  {
  }

  lemma KeysAppend(a: seq<Member>, b: seq<Member>)
    ensures Keys(a + b) == Keys(a) + Keys(b)
  {
  }

  /** A Python dict never holds a key twice. */
  predicate UniqueKeys(ms: seq<Member>)
  {
    Seqs.NoDup(Keys(ms))
  }

  /** `d.get(k)`: the value stored under `k`, if any. */
  function Lookup(ms: seq<Member>, k: string): (r: Option<Json>)
    ensures r.Some? <==> k in Keys(ms)
  {
    if ms == [] then None
    else
      KeysCons(ms);
      if ms[0].key == k then Some(ms[0].value) else Lookup(ms[1..], k)
  }

  /** In a dict without repeated keys, the member at index `i` is what its key looks up. */
  lemma {:induction false} LookupAt(ms: seq<Member>, i: nat)
    requires UniqueKeys(ms) && i < |ms|
    ensures Lookup(ms, ms[i].key) == Some(ms[i].value)
  {
    if i > 0 {
      UniqueTail(ms);
      KeysAt(ms, 0);
      KeysAt(ms, i);
      LookupAt(ms[1..], i - 1);
    }
  }

  /** `d[k] = v`: an existing key keeps its place, a new key goes last. */
  function Put(ms: seq<Member>, k: string, v: Json): seq<Member>
  {
    if ms == [] then [Member(k, v)]
    else if ms[0].key == k then [Member(k, v)] + ms[1..]
    else [ms[0]] + Put(ms[1..], k, v)
  }

  /** After `d[k] = v`, `k` holds `v` and every other key holds what it held. */
  lemma {:induction false} PutLookups(ms: seq<Member>, k: string, v: Json)
    ensures Lookup(Put(ms, k, v), k) == Some(v)
    ensures forall k' :: k' != k ==> Lookup(Put(ms, k, v), k') == Lookup(ms, k')
  {
    if ms != [] && ms[0].key != k {
      PutLookups(ms[1..], k, v);
      assert ([ms[0]] + Put(ms[1..], k, v))[1..] == Put(ms[1..], k, v);
    } else if ms != [] {
      assert ([Member(k, v)] + ms[1..])[1..] == ms[1..];
    }
  }

  /** `d[k] = v` keeps the key order, and appends `k` when it is new. */
  lemma {:induction false} PutKeys(ms: seq<Member>, k: string, v: Json)
    ensures k in Keys(ms) ==> Keys(Put(ms, k, v)) == Keys(ms)
    ensures k !in Keys(ms) ==> Keys(Put(ms, k, v)) == Keys(ms) + [k]
  {
    if ms != [] {
      KeysCons(ms);
      if ms[0].key == k {
        KeysCons([Member(k, v)] + ms[1..]);
        assert ([Member(k, v)] + ms[1..])[1..] == ms[1..];
      } else {
        var rest := Put(ms[1..], k, v);
        PutKeys(ms[1..], k, v);
        KeysCons([ms[0]] + rest);
        assert ([ms[0]] + rest)[1..] == rest;
      }
    }
  }

  /** `d[k] = v` adds no member besides `k: v`. */
  lemma {:induction false} PutMembers(ms: seq<Member>, k: string, v: Json)
    ensures forall m :: m in Put(ms, k, v) ==> m in ms || m == Member(k, v)
  {
    if ms != [] && ms[0].key != k {
      PutMembers(ms[1..], k, v);
    }
  }

  /** `d.pop(k, None)`: the removed value (if any) and the dict without that key. */
  function Remove(ms: seq<Member>, k: string): (r: (Option<Json>, seq<Member>))
  {
    if ms == [] then (None, [])
    else if ms[0].key == k then (Some(ms[0].value), ms[1..])
    else
      var rest := Remove(ms[1..], k);
      (rest.0, [ms[0]] + rest.1)
  }

  /** `d.pop(k, None)` returns what `k` held and leaves every other key as it was; an absent key leaves the dict unchanged. */
  lemma {:induction false} RemoveLookups(ms: seq<Member>, k: string)
    ensures Remove(ms, k).0 == Lookup(ms, k)
    ensures forall k' :: k' != k ==> Lookup(Remove(ms, k).1, k') == Lookup(ms, k')
    ensures k !in Keys(ms) ==> Remove(ms, k).1 == ms
  {
    if ms != [] {
      KeysCons(ms);
      if ms[0].key != k {
        var rest := Remove(ms[1..], k);
        RemoveLookups(ms[1..], k);
        assert ([ms[0]] + rest.1)[1..] == rest.1;
      }
    }
  }

  /** Popping a key from a dict leaves no trace of it, and no repeated keys. */
  lemma {:induction false} RemoveUnique(ms: seq<Member>, k: string)
    requires UniqueKeys(ms)
    ensures Lookup(Remove(ms, k).1, k) == None && UniqueKeys(Remove(ms, k).1)
  {
    if ms != [] {
      UniqueTail(ms);
      if ms[0].key != k {
        var rest := Remove(ms[1..], k).1;
        RemoveUnique(ms[1..], k);
        RemoveLookups(ms[1..], k);
        assert Lookup(rest, ms[0].key) == Lookup(ms[1..], ms[0].key);
        UniqueCons(ms[0], rest);
      }
    }
  }

  /** `d.update(other)`: every member of `other` is put, in order. */
  function UpdateWith(ms: seq<Member>, other: seq<Member>): seq<Member>
    decreases |other|
  {
    if other == [] then ms
    else UpdateWith(Put(ms, other[0].key, other[0].value), other[1..])
  }

  /** `d.update(other)` leaves the keys `other` lacks as they were. */
  lemma {:induction false} UpdateWithLookups(ms: seq<Member>, other: seq<Member>)
    ensures forall k :: k !in Keys(other) ==> Lookup(UpdateWith(ms, other), k) == Lookup(ms, k)
    decreases |other|
  {
    if other != [] {
      KeysCons(other);
      PutLookups(ms, other[0].key, other[0].value);
      UpdateWithLookups(Put(ms, other[0].key, other[0].value), other[1..]);
    }
  }

  /** `d.update(other)` holds only members of `d` and of `other`. */
  lemma {:induction false} UpdateWithMembers(ms: seq<Member>, other: seq<Member>)
    ensures forall m :: m in UpdateWith(ms, other) ==> m in ms || m in other
    decreases |other|
  {
    if other != [] {
      PutMembers(ms, other[0].key, other[0].value);
      UpdateWithMembers(Put(ms, other[0].key, other[0].value), other[1..]);
    }
  }

  /** After `d.update(other)` every key of `other` holds `other`'s value. */
  lemma {:induction false} UpdateWithOverrides(ms: seq<Member>, other: seq<Member>, k: string)
    requires UniqueKeys(other) && k in Keys(other)
    ensures Lookup(UpdateWith(ms, other), k) == Lookup(other, k)
    decreases |other|
  {
    UniqueTail(other);
    KeysCons(other);
    var next := Put(ms, other[0].key, other[0].value);
    if k in Keys(other[1..]) {
      UpdateWithOverrides(next, other[1..], k);
    } else {
      UpdateWithLookups(next, other[1..]);
      PutLookups(ms, other[0].key, other[0].value);
    }
  }

  /** Updating a dict keeps it free of repeated keys. */
  lemma {:induction false} UpdateWithUnique(ms: seq<Member>, other: seq<Member>)
    requires UniqueKeys(ms)
    ensures UniqueKeys(UpdateWith(ms, other))
    decreases |other|
  {
    if other != [] {
      PutUnique(ms, other[0].key, other[0].value);
      UpdateWithUnique(Put(ms, other[0].key, other[0].value), other[1..]);
    }
  }

  /** The tail of a dict without repeated keys has none either, and lacks the head's key. */
  lemma UniqueTail(ms: seq<Member>)
    requires UniqueKeys(ms) && ms != []
    ensures UniqueKeys(ms[1..]) && ms[0].key !in Keys(ms[1..])
  {
    var ks := Keys(ms);
    assert ks == [ms[0].key] + Keys(ms[1..]);
    forall i, j | 0 <= i < j < |ms| - 1 ensures Keys(ms[1..])[i] != Keys(ms[1..])[j] {
      assert ks[i + 1] != ks[j + 1];
    }
    forall i | 0 <= i < |ms| - 1 ensures Keys(ms[1..])[i] != ms[0].key {
      assert ks[0] != ks[i + 1];
    }
  }

  /** Adding a member in front of a dict that lacks its key keeps keys unique. */
  lemma UniqueCons(m: Member, ms: seq<Member>)
    requires UniqueKeys(ms) && m.key !in Keys(ms)
    ensures UniqueKeys([m] + ms)
  {
    assert ([m] + ms)[1..] == ms;
    var ks := Keys([m] + ms);
    assert ks == [m.key] + Keys(ms);
    forall i, j | 0 <= i < j < |ks| ensures ks[i] != ks[j] {
      if i > 0 {
        assert ks[i] == Keys(ms)[i - 1] && ks[j] == Keys(ms)[j - 1];
      } else {
        assert ks[j] in Keys(ms);
      }
    }
  }

  /** Putting keeps a dict free of repeated keys. */
  lemma PutUnique(ms: seq<Member>, k: string, v: Json)
    requires UniqueKeys(ms)
    ensures UniqueKeys(Put(ms, k, v))
  {
    PutKeys(ms, k, v);
    if k !in Keys(ms) {
      var ks := Keys(ms) + [k];
      forall i, j | 0 <= i < j < |ks| ensures ks[i] != ks[j] {
        if j == |ms| {
          assert ks[i] == Keys(ms)[i];
        }
      }
    }
  }

  /** Python truthiness of a JSON value. */
  predicate Truthy(j: Json)
  {
    match j
    case Null => false
    case Bool(b) => b
    case Int(i) => i != 0
    case Str(s) => s != ""
    case Arr(items) => items != []
    case Obj(members) => members != []
  }

  /** `d.get(k)` is truthy: the key is there and its value is truthy. */
  predicate Present(ms: seq<Member>, k: string)
  {
    var v := Lookup(ms, k);
    v.Some? && Truthy(v.value)
  }

  /** A value that is neither a list nor a dict. */
  predicate IsScalar(j: Json)
  {
    !j.Arr? && !j.Obj?
  }

  /** Every member of a dict holds a scalar. */
  predicate AllScalar(ms: seq<Member>)
  {
    forall i :: 0 <= i < |ms| ==> IsScalar(ms[i].value)
  }

  /** `str(v)` for a scalar, as an f-string renders it. */
  function PyStr(j: Json): string
    requires IsScalar(j)
  {
    match j
    case Null => "None"
    case Bool(b) => if b then "True" else "False"
    case Int(i) => Text.IntToString(i)
    case Str(s) => s
  }

  /** The value under `k` when `j` is a dict. */
  function Get(j: Json, k: string): Option<Json>
  {
    if j.Obj? then Lookup(j.members, k) else None
  }

  /** `isinstance(v, str)` and truthy. */
  predicate IsNonEmptyStr(j: Json)
  {
    j.Str? && j.s != ""
  }
}

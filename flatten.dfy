/**
 * Flattening a nested target record into dotted/indexed keys, and the `key = value` text
 * that the playbook rules are matched against.
 */
module Flatten {
  import opened JsonModel
  import Text

  /** `p` is a prefix of `s`. */
  predicate IsPrefix(p: string, s: string)
  {
    |p| <= |s| && s[..|p|] == p
  }

  /** Every member holds a scalar under a key that extends `parent`. */
  predicate Flat(ms: seq<Member>, parent: string)
  {
    AllScalar(ms) && forall i :: 0 <= i < |ms| ==> IsPrefix(parent, ms[i].key)
  }

  /** The key of list element `i` under `parent`: `parent[i]`. */
  function ItemKey(parent: string, i: nat): (k: string)
    ensures IsPrefix(parent, k)
  {
    assert (parent + "[" + Text.IntToString(i) + "]")[..|parent|] == parent;
    parent + "[" + Text.IntToString(i) + "]"
  }

  /** The key of dict member `key` under `parent`: `parent.key`, or plain `key` at the top. */
  function MemberKey(parent: string, key: string): (k: string)
    ensures IsPrefix(parent, k)
  {
    assert (parent + "." + key)[..|parent|] == parent;
    if parent != "" then parent + "." + key else key
  }

  /**
   * `_flatten(j, parent)`: lists and dicts are walked in order and each sub-result merged with
   * `dict.update`; any other value is a single entry under `parent`.
   */
  function FlattenAt(j: Json, parent: string): (r: seq<Member>)
    ensures UniqueKeys(r) && Flat(r, parent)
    decreases j, 1
  {
    match j
    case Arr(_) => FlattenItems(j, parent, 0, [])
    case Obj(_) => FlattenMembers(j, parent, 0, [])
    case _ => [Member(parent, j)]
  }

  /** The list loop of `_flatten` from element `i` on, with `acc` the entries so far. */
  function FlattenItems(j: Json, parent: string, i: nat, acc: seq<Member>): (r: seq<Member>)
    requires j.Arr? && i <= |j.items|
    requires UniqueKeys(acc) && Flat(acc, parent)
    ensures UniqueKeys(r) && Flat(r, parent)
    decreases j, 0, |j.items| - i
  {
    if i == |j.items| then acc
    else
      var k := ItemKey(parent, i);
      var sub := FlattenAt(j.items[i], k);
      UpdateWithUnique(acc, sub);
      PrefixTrans(parent, k, sub);
      FlatUpdate(acc, sub, parent);
      FlattenItems(j, parent, i + 1, UpdateWith(acc, sub))
  }

  /** The dict loop of `_flatten` from member `i` on, with `acc` the entries so far. */
  function FlattenMembers(j: Json, parent: string, i: nat, acc: seq<Member>): (r: seq<Member>)
    requires j.Obj? && i <= |j.members|
    requires UniqueKeys(acc) && Flat(acc, parent)
    ensures UniqueKeys(r) && Flat(r, parent)
    decreases j, 0, |j.members| - i
  {
    if i == |j.members| then acc
    else
      var k := MemberKey(parent, j.members[i].key);
      var sub := FlattenAt(j.members[i].value, k);
      UpdateWithUnique(acc, sub);
      PrefixTrans(parent, k, sub);
      FlatUpdate(acc, sub, parent);
      FlattenMembers(j, parent, i + 1, UpdateWith(acc, sub))
  }

  lemma FlatUpdate(acc: seq<Member>, sub: seq<Member>, parent: string)
    requires Flat(acc, parent) && Flat(sub, parent)
    ensures Flat(UpdateWith(acc, sub), parent)
  {
    var r := UpdateWith(acc, sub);
    UpdateWithMembers(acc, sub);
    forall i | 0 <= i < |r| ensures IsScalar(r[i].value) && IsPrefix(parent, r[i].key) {
      assert r[i] in r;
    }
  }

  lemma PrefixTrans(parent: string, k: string, ms: seq<Member>)
    requires IsPrefix(parent, k) && Flat(ms, k)
    ensures Flat(ms, parent)
  {
    forall i | 0 <= i < |ms| ensures IsPrefix(parent, ms[i].key) {
      assert ms[i].key[..|parent|] == ms[i].key[..|k|][..|parent|];
    }
  }

  /** `_flatten(j)` with its default empty parent key. */
  function Flatten(j: Json): seq<Member>
  {
    FlattenAt(j, "")
  }

  /** A scalar flattens to exactly one entry under its parent key. */
  lemma FlattenScalar(j: Json, parent: string)
    requires IsScalar(j)
    ensures FlattenAt(j, parent) == [Member(parent, j)]
  {
  }

  /** Empty lists and empty dicts contribute no entries. */
  lemma FlattenEmpty(parent: string)
    ensures FlattenAt(Arr([]), parent) == [] && FlattenAt(Obj([]), parent) == []
  {
  }

  /** A dict that is already flat (scalar values, distinct keys) flattens to itself. */
  lemma FlattenFlatDict(ms: seq<Member>)
    requires UniqueKeys(ms)
    requires AllScalar(ms)
    ensures Flatten(Obj(ms)) == ms
  {
    FlatDictFrom(Obj(ms), 0, []);
    assert ms[..0] == [] && ms[..|ms|] == ms;
  }

  lemma {:induction false} FlatDictFrom(j: Json, i: nat, acc: seq<Member>)
    requires j.Obj? && i <= |j.members| && UniqueKeys(j.members)
    requires AllScalar(j.members)
    requires acc == j.members[..i]
    ensures UniqueKeys(acc) && Flat(acc, "")
    ensures FlattenMembers(j, "", i, acc) == j.members
    decreases |j.members| - i
  {
    var ms := j.members;
    PrefixUnique(ms, i);
    assert Flat(acc, "");
    if i < |ms| {
      var m := ms[i];
      assert MemberKey("", m.key) == m.key;
      assert FlattenAt(m.value, m.key) == [Member(m.key, m.value)];
      NotInPrefix(ms, i);
      assert UpdateWith(acc, [m]) == acc + [m] by {
        assert Put(acc, m.key, m.value) == acc + [m] by {
          PutNew(acc, m.key, m.value);
        }
        assert [m][1..] == [];
      }
      assert ms[..i + 1] == acc + [m];
      FlatDictFrom(j, i + 1, acc + [m]);
    } else {
      assert acc == ms;
    }
  }

  /** Putting a key the dict lacks appends it. */
  lemma {:induction false} PutNew(ms: seq<Member>, k: string, v: Json)
    requires k !in Keys(ms)
    ensures Put(ms, k, v) == ms + [Member(k, v)]
  {
    if ms != [] {
      assert ms[0].key == Keys(ms)[0];
      assert Keys(ms) == [ms[0].key] + Keys(ms[1..]);
      PutNew(ms[1..], k, v);
      assert [ms[0]] + (ms[1..] + [Member(k, v)]) == ms + [Member(k, v)];
    }
  }

  lemma PrefixUnique(ms: seq<Member>, i: nat)
    requires i <= |ms| && UniqueKeys(ms)
    ensures UniqueKeys(ms[..i])
  {
    forall a, b | 0 <= a < b < i ensures Keys(ms[..i])[a] != Keys(ms[..i])[b] {
      KeysAt(ms[..i], a);
      KeysAt(ms[..i], b);
      KeysAt(ms, a);
      KeysAt(ms, b);
    }
  }

  lemma NotInPrefix(ms: seq<Member>, i: nat)
    requires i < |ms| && UniqueKeys(ms)
    ensures ms[i].key !in Keys(ms[..i])
  {
    if ms[i].key in Keys(ms[..i]) {
      var a :| 0 <= a < i && Keys(ms[..i])[a] == ms[i].key;
      KeysAt(ms[..i], a);
      KeysAt(ms, a);
      KeysAt(ms, i);
      assert false;
    }
  }

  /** One `key = value` line per entry, in order, each ending in a newline. */
  function Lines(ms: seq<Member>): string
    requires AllScalar(ms)
  {
    if ms == [] then ""
    else Line(ms[0]) + Lines(ms[1..])
  }

  lemma {:induction false} LinesAppend(ms: seq<Member>, m: Member)
    requires AllScalar(ms) && IsScalar(m.value)
    ensures AllScalar(ms + [m])
    ensures Lines(ms + [m]) == Lines(ms) + Line(m)
  {
    assert AllScalar(ms + [m]);
    if ms == [] {
      assert ms + [m] == [m];
    } else {
      var rest := ms[1..];
      assert (ms + [m])[1..] == rest + [m];
      assert AllScalar(rest);
      LinesAppend(rest, m);
      assert Lines(ms + [m]) == Line(ms[0]) + Lines(rest + [m]);
      assert Lines(ms) == Line(ms[0]) + Lines(rest);
    }
  }

  /** The `key = value` line of one entry. */
  function Line(m: Member): string
    requires IsScalar(m.value)
  {
    m.key + " = " + PyStr(m.value) + "\n"
  }

  /**
   * `_flatten_to_string(j)`: the flattened entries written as `key = value` lines, in
   * insertion order, with surrounding whitespace stripped.
   */
  method FlattenToString(j: Json) returns (s: string)
    ensures s == FlatString(j)
  {
    var flattened := Flatten(j);
    var result := "";
    var i := 0;
    while i < |flattened|
      invariant 0 <= i <= |flattened|
      invariant AllScalar(flattened[..i])
      invariant result == Lines(flattened[..i])
    {
      LinesAppend(flattened[..i], flattened[i]);
      assert flattened[..i + 1] == flattened[..i] + [flattened[i]];
      result := result + Line(flattened[i]);
      i := i + 1;
    }
    assert flattened[..i] == flattened;
    s := Text.Strip(result);
  }

  /** The text `_flatten_to_string(j)` produces. */
  function FlatString(j: Json): string
  {
    Text.Strip(Lines(Flatten(j)))
  }

  /** A one-entry target renders as its single stripped line. */
  lemma FlattenToStringSingle(k: string, v: Json)
    requires IsScalar(v)
    ensures Lines(Flatten(Obj([Member(k, v)]))) == k + " = " + PyStr(v) + "\n"
  {
    FlattenFlatDict([Member(k, v)]);
  }

  /** A dict inside a dict yields the dotted key `outer.inner`. */
  lemma FlattenNestedDictExample()
    ensures Flatten(Obj([Member("details", Obj([Member("os", Str("linux"))]))])) == [Member("details.os", Str("linux"))]
  {
    var leaf := [Member("details.os", Str("linux"))];
    var inner := Obj([Member("os", Str("linux"))]);
    assert MemberKey("details", "os") == "details.os";
    FlattenScalar(Str("linux"), "details.os");
    assert UpdateWith([], leaf) == leaf;
    assert FlattenAt(inner, "details") == leaf;
    var outer := Obj([Member("details", inner)]);
    assert MemberKey("", "details") == "details";
    assert FlattenMembers(outer, "", 1, leaf) == leaf;
  }

  /** A list inside a dict yields the indexed key `outer[0]`. */
  lemma FlattenNestedListExample()
    ensures Flatten(Obj([Member("ports", Arr([Int(22)]))])) == [Member("ports[0]", Int(22))]
  {
    var leaf := [Member("ports[0]", Int(22))];
    assert Text.IntToString(0) == "0";
    assert ItemKey("ports", 0) == "ports[0]";
    FlattenScalar(Int(22), "ports[0]");
    assert UpdateWith([], leaf) == leaf;
    assert FlattenAt(Arr([Int(22)]), "ports") == leaf;
    assert MemberKey("", "ports") == "ports";
  }
}

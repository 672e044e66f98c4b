/**
 * The MSRPC enumeration playbook: it asks `rpcclient` (anonymous login) about one target host and
 * records the answers in the target dict.
 *
 * What rpcclient prints for each `-c` subcommand against the host is the parameter `rpc`; whether
 * the binary is installed is the parameter `installed`.
 */
module Msrpc {
  import opened Optional
  import opened JsonModel
  import Text
  import Seqs
  import Exceptions
  import PyFormat

  /** What rpcclient prints for a subcommand (`getusername`, `queryuser 0x1f4`, ...) against the host. */
  type Rpc = string -> string

  const AccessDenied := "NT_STATUS_ACCESS_DENIED"

  const GetUsername := "getusername"
  const GetPasswordInfo := "getdompwinfo"
  const EnumUsers := "enumdomusers"
  const EnumGroups := "enumdomgroups"

  function QueryUser(rid: string): string { "queryuser " + rid }
  function QueryGroup(rid: string): string { "querygroup " + rid }
  function QueryGroupMembers(rid: string): string { "querygroupmem " + rid }

  /** The lines of a command's output, `output.split('\n')`. */
  function Lines(out: string): seq<string>
  {
    Text.Split(out, '\n')
  }

  // ---------------------------------------------------------------------------------------------
  // Key/value lines
  // ---------------------------------------------------------------------------------------------

  /** `line.partition(':')`: the text before the first colon and the text after it, both stripped. */
  function Field(line: string): (f: (string, string))
    ensures ':' !in line ==> f == (Text.Strip(line), "")
  {
    var p := Text.Partition(line, ':');
    (Text.Strip(p.0), Text.Strip(p.1))
  }

  /**
   * Whether a field is stored. The user and group queries keep fields with a value (`keepBlank`
   * false); the password query, as written, keeps those without one (`keepBlank` true).
   */
  predicate Kept(value: string, keepBlank: bool)
  {
    (value == "") == keepBlank
  }

  /** The dict built by the key/value loop, starting from `init`, over `lines` in order. */
  function Fields(init: seq<Member>, lines: seq<string>, keepBlank: bool): seq<Member>
  {
    if lines == [] then init
    else
      var d := Fields(init, lines[..|lines| - 1], keepBlank);
      var f := Field(lines[|lines| - 1]);
      if Kept(f.1, keepBlank) then Put(d, f.0, Str(f.1)) else d
  }

  /** Reference definition: the value of the last kept line whose name is `k`. */
  function LastValue(lines: seq<string>, k: string, keepBlank: bool): (r: Option<string>)
    ensures r.Some? ==> Kept(r.value, keepBlank)
  {
    if lines == [] then None
    else
      var f := Field(lines[|lines| - 1]);
      if f.0 == k && Kept(f.1, keepBlank) then Some(f.1) else LastValue(lines[..|lines| - 1], k, keepBlank)
  }

  /** A key of the built dict holds the value of its last kept line, and otherwise what `init` held. */
  lemma {:induction false} FieldsLookup(init: seq<Member>, lines: seq<string>, keepBlank: bool, k: string)
    ensures Lookup(Fields(init, lines, keepBlank), k) ==
      (if LastValue(lines, k, keepBlank).Some? then Some(Str(LastValue(lines, k, keepBlank).value)) else Lookup(init, k))
  {
    if lines != [] {
      var front := lines[..|lines| - 1];
      var d := Fields(init, front, keepBlank);
      var f := Field(lines[|lines| - 1]);
      var last := LastValue(front, k, keepBlank);
      assert Lookup(d, k) == (if last.Some? then Some(Str(last.value)) else Lookup(init, k)) by {
        FieldsLookup(init, front, keepBlank, k);
      }
      if Kept(f.1, keepBlank) {
        assert Lookup(Put(d, f.0, Str(f.1)), k) == (if k == f.0 then Some(Str(f.1)) else Lookup(d, k)) by {
          PutLookups(d, f.0, Str(f.1));
        }
      }
    }
  }

  /** The members of `init` keep their places in front: `group_rid` stays the first key. */
  lemma {:induction false} FieldsKeepInit(init: seq<Member>, lines: seq<string>, keepBlank: bool)
    ensures |Keys(init)| <= |Keys(Fields(init, lines, keepBlank))|
    ensures Keys(Fields(init, lines, keepBlank))[..|init|] == Keys(init)
  {
    if lines != [] {
      var front := lines[..|lines| - 1];
      FieldsKeepInit(init, front, keepBlank);
      var d := Fields(init, front, keepBlank);
      var f := Field(lines[|lines| - 1]);
      if Kept(f.1, keepBlank) {
        PutKeys(d, f.0, Str(f.1));
        if f.0 !in Keys(d) {
          assert (Keys(d) + [f.0])[..|init|] == Keys(d)[..|init|];
        }
      }
    }
  }

  /** Every member of a dict built from nothing is a kept string value. */
  lemma {:induction false} FieldsValues(lines: seq<string>, keepBlank: bool)
    ensures forall m :: m in Fields([], lines, keepBlank) ==> m.value.Str? && Kept(m.value.s, keepBlank)
  {
    if lines != [] {
      var front := lines[..|lines| - 1];
      FieldsValues(front, keepBlank);
      var f := Field(lines[|lines| - 1]);
      if Kept(f.1, keepBlank) {
        PutMembers(Fields([], front, keepBlank), f.0, Str(f.1));
      }
    }
  }

  /** The password requirements as the loop is meant to read them: every `name: value` line, so every kept value is filled. */
  function PasswordRequirements(out: string): (r: seq<Member>)
    ensures forall m :: m in r ==> m.value.Str? && m.value.s != ""
  {
    FieldsValues(Lines(out), false);
    Fields([], Lines(out), false)
  }

  /** The password requirements as written: the filter is inverted, so only lines without a value survive. */
  function PasswordRequirementsAsWritten(out: string): (r: seq<Member>)
    ensures forall m :: m in r ==> m.value == Str("")
  {
    FieldsValues(Lines(out), true);
    Fields([], Lines(out), true)
  }

  /**
   * A requirement line `name: value` (as `min_password_length: 7`) is dropped by the code as
   * written and kept by the intended filter.
   */
  lemma PasswordLineDropped(name: string, value: string)
    requires ':' !in name && '\n' !in name && '\n' !in value
    requires name == [] || (!Text.IsSpace(name[0]) && !Text.IsSpace(name[|name| - 1]))
    requires value != [] && !Text.IsSpace(value[0]) && !Text.IsSpace(value[|value| - 1])
    ensures PasswordRequirementsAsWritten(name + ": " + value) == []
    ensures PasswordRequirements(name + ": " + value) == [Member(name, Str(value))]
  {
    var line := name + ": " + value;
    assert '\n' !in line;
    Text.SplitNoSep(line, '\n');
    FieldOfLine(name, value);
    FieldsOne(line, true);
    FieldsOne(line, false);
  }

  /** A single line yields its field when kept, and nothing otherwise. */
  lemma FieldsOne(line: string, keepBlank: bool)
    ensures Fields([], [line], keepBlank) ==
      if Kept(Field(line).1, keepBlank) then [Member(Field(line).0, Str(Field(line).1))] else []
  {
    assert [line][..0] == [];
  }

  /** `partition` splits at the first separator: the one after a separator-free head. */
  lemma PartitionAt(a: string, sep: char, b: string)
    requires sep !in a
    ensures Text.Partition(a + [sep] + b, sep) == (a, b)
  {
    var s := a + [sep] + b;
    var r := Text.Partition(s, sep);
    assert s == r.0 + [sep] + r.1;
    assert forall i :: 0 <= i < |a| ==> s[i] == a[i] != sep;
    assert forall i :: 0 <= i < |r.0| ==> s[i] == r.0[i] != sep;
    assert s[|a|] == sep && s[|r.0|] == sep;
    assert |r.0| == |a|;
    assert r.0 == s[..|a|] == a;
    assert r.1 == s[|a| + 1..] == b;
  }

  /** The line `name: value` holds the field `name` with value `value`. */
  lemma FieldOfLine(name: string, value: string)
    requires ':' !in name
    requires name == [] || (!Text.IsSpace(name[0]) && !Text.IsSpace(name[|name| - 1]))
    requires value != [] && !Text.IsSpace(value[0]) && !Text.IsSpace(value[|value| - 1])
    ensures Field(name + ": " + value) == (name, value)
  {
    assert name + ": " + value == name + [':'] + (" " + value);
    PartitionAt(name, ':', " " + value);
    Text.StripKeeps(name);
    Text.StripKeeps(value);
    assert (" " + value)[1..] == value;
    assert Text.LStrip(" " + value) == Text.LStrip(value);
  }

  // ---------------------------------------------------------------------------------------------
  // RID captures
  // ---------------------------------------------------------------------------------------------

  /** `find(pat, from)` reports an occurrence with none between `from` and it. */
  lemma FindAt(s: string, pat: string, from: nat, k: nat)
    requires from <= k && Text.OccursAt(s, pat, k)
    requires forall j :: from <= j < k ==> !Text.OccursAt(s, pat, j)
    ensures Text.IndexOf(s, pat, from) == Some(k)
  {
  }

  /**
   * `re.search(open + r'(.*?)' + mid + r'(.*?)\]', line)`: the two captures of the leftmost match.
   * The lazy groups end at the first `mid` after the first `open`, then at the first `]`. When
   * that start fails, every later one fails too: the occurrences it could use are a subset.
   */
  function Bracketed(line: string, open: string, mid: string): (r: Option<(string, string)>)
  {
    match Text.IndexOf(line, open, 0)
    case None => None
    case Some(i) => BracketedFrom(line, i + |open|, mid)
  }

  /** The two lazy captures once the opening text ends at `start`. */
  function BracketedFrom(line: string, start: nat, mid: string): (r: Option<(string, string)>)
  {
    match Text.IndexOf(line, mid, start)
    case None => None
    case Some(p) =>
      match Text.IndexOf(line, "]", p + |mid|)
      case None => None
      case Some(q) => Some((line[start..p], line[p + |mid|..q]))
  }

  /** `find(pat, from)` stops at the first occurrence when no character before it starts `pat`. */
  lemma FindFirstChar(s: string, pat: string, from: nat, k: nat)
    requires pat != [] && from <= k && Text.OccursAt(s, pat, k)
    requires forall j :: from <= j < k ==> s[j] != pat[0]
    ensures Text.IndexOf(s, pat, from) == Some(k)
  {
    forall j | from <= j < k ensures !Text.OccursAt(s, pat, j) {
      if j + |pat| <= |s| {
        assert s[j..j + |pat|][0] == s[j];
      }
    }
    FindAt(s, pat, from, k);
  }

  /** A line of the form `open a mid b] rest` captures `a` and `b` when neither holds a `]`. */
  lemma BracketedRoundTrip(open: string, a: string, mid: string, b: string, rest: string)
    requires open != [] && mid != [] && mid[0] == ']'
    requires ']' !in a && ']' !in b
    ensures Bracketed(open + a + mid + b + "]" + rest, open, mid) == Some((a, b))
  {
    var line := open + a + mid + b + "]" + rest;
    var p := |open| + |a|;
    var q := p + |mid| + |b|;
    LineParts(open, a, mid, b, rest, line);
    FindAt(line, open, 0, 0);
    FindFirstChar(line, mid, |open|, p);
    FindFirstChar(line, "]", p + |mid|, q);
    BracketedAt(line, open, mid, p, q, a, b);
  }

  /** Where the pieces of `open a mid b] rest` sit, and that no `]` comes before the two marks. */
  lemma LineParts(open: string, a: string, mid: string, b: string, rest: string, line: string)
    requires line == open + a + mid + b + "]" + rest
    requires mid != [] && mid[0] == ']' && ']' !in a && ']' !in b
    ensures Text.OccursAt(line, open, 0)
    ensures Text.OccursAt(line, mid, |open| + |a|)
    ensures Text.OccursAt(line, "]", |open| + |a| + |mid| + |b|)
    ensures forall j :: |open| <= j < |open| + |a| ==> line[j] != mid[0]
    ensures forall j :: |open| + |a| + |mid| <= j < |open| + |a| + |mid| + |b| ==> line[j] != "]"[0]
    ensures line[|open|..|open| + |a|] == a
    ensures line[|open| + |a| + |mid|..|open| + |a| + |mid| + |b|] == b
  {
    var p := |open| + |a|;
    var q := p + |mid| + |b|;
    assert line[0..0 + |open|] == open;
    assert line[p..p + |mid|] == mid;
    assert line[q..q + 1] == "]";
    assert forall j :: |open| <= j < p ==> line[j] == a[j - |open|];
    assert forall j :: p + |mid| <= j < q ==> line[j] == b[j - p - |mid|];
  }

  /** The captures, once the three searches are known. */
  lemma BracketedAt(line: string, open: string, mid: string, p: nat, q: nat, a: string, b: string)
    requires Text.IndexOf(line, open, 0) == Some(0)
    requires Text.IndexOf(line, mid, |open|) == Some(p)
    requires Text.IndexOf(line, "]", p + |mid|) == Some(q)
    requires line[|open|..p] == a && line[p + |mid|..q] == b
    ensures Bracketed(line, open, mid) == Some((a, b))
  {
    assert Bracketed(line, open, mid) == BracketedFrom(line, |open|, mid);
    BracketedFromAt(line, |open|, mid, p, q);
  }

  lemma BracketedFromAt(line: string, start: nat, mid: string, p: nat, q: nat)
    requires Text.IndexOf(line, mid, start) == Some(p)
    requires Text.IndexOf(line, "]", p + |mid|) == Some(q)
    ensures BracketedFrom(line, start, mid) == Some((line[start..p], line[p + |mid|..q]))
  {
  }

  const RidMark := "] rid:["
  const UserMark := "user:["
  const GroupMark := "group:["
  const MemberMark := "rid:["
  const AttrMark := "] attr:["

  /** The `rid` capture of a line matching `open ... ] rid:[ ... ]`, stripped. */
  function RidOf(line: string, open: string): Option<string>
  {
    match Bracketed(line, open, RidMark)
    case None => None
    case Some(c) => Some(Text.Strip(c.1))
  }

  /** The values `f` finds in `lines`, in order; lines where it finds none are skipped. */
  function Collect(lines: seq<string>, f: string -> Option<string>): seq<string>
  {
    if lines == [] then []
    else
      var front := Collect(lines[..|lines| - 1], f);
      var r := f(lines[|lines| - 1]);
      if r.Some? then front + [r.value] else front
  }

  /** The stripped RIDs of the matching lines of a listing, in output order. */
  function Rids(lines: seq<string>, open: string): seq<string>
  {
    Collect(lines, line => RidOf(line, open))
  }

  /** What is collected from a concatenation is what is collected from the two parts, in order. */
  lemma {:induction false} CollectAppend(a: seq<string>, b: seq<string>, f: string -> Option<string>)
    ensures Collect(a + b, f) == Collect(a, f) + Collect(b, f)
  {
    if b != [] {
      var front := b[..|b| - 1];
      CollectAppend(a, front, f);
      assert (a + b)[..|a + b| - 1] == a + front;
      assert (a + b)[|a + b| - 1] == b[|b| - 1];
    } else {
      assert a + b == a;
    }
  }

  /** The RID list of a concatenation is the lists of the two parts, in order. */
  lemma RidsAppend(a: seq<string>, b: seq<string>, open: string)
    ensures Rids(a + b, open) == Rids(a, open) + Rids(b, open)
  {
    CollectAppend(a, b, line => RidOf(line, open));
  }

  /** A listing line `user:[name] rid:[rid]` contributes its stripped RID and nothing else. */
  lemma RidsOfLine(open: string, name: string, rid: string, rest: string)
    requires open != [] && ']' !in name && ']' !in rid
    ensures Rids([open + name + RidMark + rid + "]" + rest], open) == [Text.Strip(rid)]
  {
    var line := open + name + RidMark + rid + "]" + rest;
    BracketedRoundTrip(open, name, RidMark, rid, rest);
    assert RidOf(line, open) == Some(Text.Strip(rid));
    assert [line][..0] == [];
    assert Collect([line], l => RidOf(l, open)) == Collect([], l => RidOf(l, open)) + [Text.Strip(rid)];
  }

  // ---------------------------------------------------------------------------------------------
  // User and group queries
  // ---------------------------------------------------------------------------------------------

  /** `query_user_info(rid)` given what `queryuser rid` printed. */
  function UserInfo(rid: string, out: string): seq<Member>
  {
    if Text.Contains(out, AccessDenied) then [Member("user_rid", Str(rid)), Member("error-message", Str(out))]
    else Fields([], Lines(out), false)
  }

  /** `query_group_info(rid)` given what `querygroup rid` printed. */
  function GroupInfo(rid: string, out: string): seq<Member>
  {
    if Text.Contains(out, AccessDenied) then [Member("group_rid", Str(rid)), Member("error-message", Str(out))]
    else Fields([Member("group_rid", Str(rid))], Lines(out), false)
  }

  /** Without a denial a user's info holds, for each field name, the value of its last filled line. */
  lemma UserInfoFields(rid: string, out: string, k: string)
    requires !Text.Contains(out, AccessDenied)
    ensures Lookup(UserInfo(rid, out), k) ==
      (if LastValue(Lines(out), k, false).Some? then Some(Str(LastValue(Lines(out), k, false).value)) else None)
  {
    FieldsLookup([], Lines(out), false, k);
  }

  /** A group's info always starts with `group_rid`; it is `rid` unless a `group_rid:` line overrides it. */
  lemma GroupInfoStartsWithRid(rid: string, out: string)
    ensures Keys(GroupInfo(rid, out)) != [] && Keys(GroupInfo(rid, out))[0] == "group_rid"
    ensures LastValue(Lines(out), "group_rid", false).None? ==> Lookup(GroupInfo(rid, out), "group_rid") == Some(Str(rid))
  {
    var init := [Member("group_rid", Str(rid))];
    KeysAt(init, 0);
    if !Text.Contains(out, AccessDenied) {
      var d := Fields(init, Lines(out), false);
      assert GroupInfo(rid, out) == d;
      FieldsKeepInit(init, Lines(out), false);
      assert Keys(d)[0] == Keys(d)[..1][0] == Keys(init)[0];
      FieldsLookup(init, Lines(out), false, "group_rid");
    } else {
      KeysAt(GroupInfo(rid, out), 0);
    }
  }

  /** `info['data-source'] = 'msrpc'`. */
  function Tagged(info: seq<Member>): seq<Member>
  {
    Put(info, "data-source", Str("msrpc"))
  }

  /** The record kept for one RID: its `queryuser` answer, tagged with its source. */
  function User(rpc: Rpc, rid: string): Json
  {
    Obj(Tagged(UserInfo(rid, rpc(QueryUser(rid)))))
  }

  /** The user list built from the enumerated RIDs, in order, each tagged with its source. */
  function Users(rpc: Rpc, rids: seq<string>): (r: seq<Json>)
    ensures |r| == |rids|
  {
    if rids == [] then [] else Users(rpc, rids[..|rids| - 1]) + [User(rpc, rids[|rids| - 1])]
  }

  /** The i-th listed user is made from the i-th RID's `queryuser` answer. */
  lemma {:induction false} UsersAt(rpc: Rpc, rids: seq<string>, i: nat)
    requires i < |rids|
    ensures Users(rpc, rids)[i] == User(rpc, rids[i])
  {
    var front, rid := rids[..|rids| - 1], rids[|rids| - 1];
    assert Users(rpc, rids) == Users(rpc, front) + [User(rpc, rid)];
    if i < |front| {
      UsersAt(rpc, front, i);
      assert front[i] == rids[i];
    }
  }

  /** Each listed user is its `queryuser` answer with `data-source` set to `msrpc` and nothing else changed. */
  lemma UsersTagged(rpc: Rpc, rids: seq<string>, i: nat, k: string)
    requires i < |rids|
    ensures Get(Users(rpc, rids)[i], "data-source") == Some(Str("msrpc"))
    ensures k != "data-source" ==> Get(Users(rpc, rids)[i], k) == Lookup(UserInfo(rids[i], rpc(QueryUser(rids[i]))), k)
  {
    var info := UserInfo(rids[i], rpc(QueryUser(rids[i])));
    assert Users(rpc, rids)[i] == Obj(Tagged(info)) by {
      UsersAt(rpc, rids, i);
    }
    PutLookups(info, "data-source", Str("msrpc"));
  }

  // ---------------------------------------------------------------------------------------------
  // Group members
  // ---------------------------------------------------------------------------------------------

  /** The two parallel lists the group loop reads and extends: `user_rid_list` and `detailed_user_info`. */
  datatype Known = Known(rids: seq<string>, users: seq<Json>)

  predicate Parallel(k: Known)
  {
    |k.rids| == |k.users|
  }

  /**
   * `k2` extends `k`: every RID added was not listed before it, and its user is exactly its
   * `queryuser` answer (no `data-source`).
   */
  predicate Joined(k: Known, k2: Known, rpc: Rpc)
  {
    Parallel(k) && Parallel(k2) && |k.rids| <= |k2.rids|
    && k2.rids[..|k.rids|] == k.rids && k2.users[..|k.users|] == k.users
    && forall i :: |k.rids| <= i < |k2.rids| ==>
         k2.rids[i] !in k2.rids[..i] && k2.users[i] == Obj(UserInfo(k2.rids[i], rpc(QueryUser(k2.rids[i]))))
  }

  lemma JoinedRefl(k: Known, rpc: Rpc)
    requires Parallel(k)
    ensures Joined(k, k, rpc)
  {
    assert k.rids[..|k.rids|] == k.rids;
    assert k.users[..|k.users|] == k.users;
  }

  lemma JoinedTrans(a: Known, b: Known, c: Known, rpc: Rpc)
    requires Joined(a, b, rpc) && Joined(b, c, rpc)
    ensures Joined(a, c, rpc)
  {
    assert c.rids[..|a.rids|] == c.rids[..|b.rids|][..|a.rids|];
    assert c.users[..|a.users|] == c.users[..|b.users|][..|a.users|];
    forall i | |a.rids| <= i < |c.rids|
      ensures c.rids[i] !in c.rids[..i] && c.users[i] == Obj(UserInfo(c.rids[i], rpc(QueryUser(c.rids[i]))))
    {
      if i < |b.rids| {
        assert c.rids[i] == c.rids[..|b.rids|][i];
        assert c.users[i] == c.users[..|b.users|][i];
        assert c.rids[..i] == c.rids[..|b.rids|][..i];
      }
    }
  }

  /** The first user whose `user_rid` is `rid`: its `User Name`, or None. */
  function NameOf(users: seq<Json>, rid: string): Json
  {
    if users == [] then Null
    else if Get(users[0], "user_rid") == Some(Str(rid)) then Get(users[0], "User Name").GetOr(Null)
    else NameOf(users[1..], rid)
  }

  /** The member dict of the group loop. */
  function MemberEntry(rid: string, attr: string, name: Json): Json
  {
    Obj([Member("user_rid", Str(rid)), Member("attr", Str(attr)), Member("User Name", name)])
  }

  /** One `rid:[m] attr:[a]` line: a known member is looked up, an unknown one is queried and listed. */
  function MemberStep(k: Known, rpc: Rpc, m: string, attr: string): (Known, Json)
  {
    if m in k.rids then (k, MemberEntry(m, attr, NameOf(k.users, m)))
    else
      var info := UserInfo(m, rpc(QueryUser(m)));
      (Known(k.rids + [m], k.users + [Obj(info)]), MemberEntry(m, attr, Lookup(info, "User Name").GetOr(Null)))
  }

  /** A member line leaves its RID listed; a known RID changes nothing and an unknown one is queried once. */
  lemma MemberStepJoined(k: Known, rpc: Rpc, m: string, attr: string)
    requires Parallel(k)
    ensures Joined(k, MemberStep(k, rpc, m, attr).0, rpc)
    ensures m in MemberStep(k, rpc, m, attr).0.rids
    ensures m in k.rids ==> MemberStep(k, rpc, m, attr).0 == k
  {
    var k2 := MemberStep(k, rpc, m, attr).0;
    if m in k.rids {
      JoinedRefl(k, rpc);
    } else {
      assert k2.rids[..|k.rids|] == k.rids;
      assert k2.users[..|k.users|] == k.users;
    }
  }

  /** The member list of one group, built over the `querygroupmem` lines in order. */
  function Members(k: Known, rpc: Rpc, lines: seq<string>): (Known, seq<Json>)
  {
    if lines == [] then (k, [])
    else
      var r := Members(k, rpc, lines[..|lines| - 1]);
      match Bracketed(lines[|lines| - 1], MemberMark, AttrMark)
      case None => r
      case Some(c) =>
        var s := MemberStep(r.0, rpc, c.0, c.1);
        (s.0, r.1 + [s.1])
  }

  lemma {:induction false} MembersJoined(k: Known, rpc: Rpc, lines: seq<string>)
    requires Parallel(k)
    ensures Joined(k, Members(k, rpc, lines).0, rpc)
  {
    if lines == [] {
      JoinedRefl(k, rpc);
    } else {
      var front := lines[..|lines| - 1];
      MembersJoined(k, rpc, front);
      var r := Members(k, rpc, front);
      match Bracketed(lines[|lines| - 1], MemberMark, AttrMark)
      case None =>
      case Some(c) =>
        MemberStepJoined(r.0, rpc, c.0, c.1);
        JoinedTrans(k, r.0, MemberStep(r.0, rpc, c.0, c.1).0, rpc);
    }
  }

  /** A group's entry: its info, tagged, with `member-info` set to its member list. */
  function GroupEntry(rid: string, rpc: Rpc, members: seq<Json>): Json
  {
    Obj(Put(Tagged(GroupInfo(rid, rpc(QueryGroup(rid)))), "member-info", Arr(members)))
  }

  /** The group list, built over the group RIDs in order; members found in one group are known to the next. */
  function Groups(k: Known, rpc: Rpc, rids: seq<string>): (r: (Known, seq<Json>))
    ensures |r.1| == |rids|
  {
    Seqs.Scan(k, rids, GroupStepOf(rpc))
  }

  /** The group step as a function value, for `Groups`. */
  function GroupStepOf(rpc: Rpc): (Known, string) -> (Known, Json)
  {
    (k: Known, rid: string) => GroupStep(k, rpc, rid)
  }

  /** One more group: the loop's state after `rids[..j + 1]` from its state after `rids[..j]`. */
  lemma GroupsSnoc(k: Known, rpc: Rpc, rids: seq<string>, j: nat, mid: Known, groups: seq<Json>, after: Known, entry: Json)
    requires j < |rids| && (mid, groups) == Groups(k, rpc, rids[..j])
    requires (after, entry) == GroupStep(mid, rpc, rids[j])
    ensures (after, groups + [entry]) == Groups(k, rpc, rids[..j + 1])
  {
    Seqs.ScanSnoc(k, rids, GroupStepOf(rpc), j);
  }

  /** One group: its entry, and the known users after its member lines. */
  function GroupStep(k: Known, rpc: Rpc, rid: string): (Known, Json)
  {
    var m := Members(k, rpc, Lines(rpc(QueryGroupMembers(rid))));
    (m.0, GroupEntry(rid, rpc, m.1))
  }

  /** The group loop only appends: listed users stay as they were, and each new RID is queried once. */
  lemma {:induction false} GroupsJoined(k: Known, rpc: Rpc, rids: seq<string>)
    requires Parallel(k)
    ensures Joined(k, Groups(k, rpc, rids).0, rpc)
  {
    if rids == [] {
      JoinedRefl(k, rpc);
    } else {
      var front := rids[..|rids| - 1];
      GroupsJoined(k, rpc, front);
      var r := Groups(k, rpc, front);
      MembersJoined(r.0, rpc, Lines(rpc(QueryGroupMembers(rids[|rids| - 1]))));
      JoinedTrans(k, r.0, Groups(k, rpc, rids).0, rpc);
    }
  }

  /** A group entry is its info with `data-source` and `member-info` set. */
  lemma EntryLookups(info: seq<Member>, members: seq<Json>, k: string)
    ensures Lookup(Put(Tagged(info), "member-info", Arr(members)), "data-source") == Some(Str("msrpc"))
    ensures Lookup(Put(Tagged(info), "member-info", Arr(members)), "member-info") == Some(Arr(members))
    ensures k != "data-source" && k != "member-info" ==> Lookup(Put(Tagged(info), "member-info", Arr(members)), k) == Lookup(info, k)
  {
    PutLookups(info, "data-source", Str("msrpc"));
    PutLookups(Tagged(info), "member-info", Arr(members));
  }

  /**
   * Group entry `i` is the `querygroup` answer for the i-th group RID, with `data-source: msrpc`
   * and a member list.
   */
  lemma {:induction false} GroupsTagged(k: Known, rpc: Rpc, rids: seq<string>, i: nat, key: string)
    requires i < |rids|
    ensures Groups(k, rpc, rids).1[i].Obj?
    ensures Get(Groups(k, rpc, rids).1[i], "data-source") == Some(Str("msrpc"))
    ensures Get(Groups(k, rpc, rids).1[i], "member-info").Some? && Get(Groups(k, rpc, rids).1[i], "member-info").value.Arr?
    ensures key != "data-source" && key != "member-info" ==>
      Get(Groups(k, rpc, rids).1[i], key) == Lookup(GroupInfo(rids[i], rpc(QueryGroup(rids[i]))), key)
  {
    GroupsAt(k, rpc, rids, i);
    GroupStepEntry(Groups(k, rpc, rids[..i]).0, rpc, rids[i], key);
  }

  /** Entry `i` is made by the i-th group step, from the users known after the groups before it. */
  lemma GroupsAt(k: Known, rpc: Rpc, rids: seq<string>, i: nat)
    requires i < |rids|
    ensures Groups(k, rpc, rids).1[i] == GroupStep(Groups(k, rpc, rids[..i]).0, rpc, rids[i]).1
  {
    Seqs.ScanAt(k, rids, GroupStepOf(rpc), i);
  }

  /** Group entries carry `data-source: msrpc`, a member list, and their `querygroup` fields. */
  lemma GroupStepEntry(k: Known, rpc: Rpc, rid: string, key: string)
    ensures GroupStep(k, rpc, rid).1.Obj?
    ensures Get(GroupStep(k, rpc, rid).1, "data-source") == Some(Str("msrpc"))
    ensures Get(GroupStep(k, rpc, rid).1, "member-info").Some? && Get(GroupStep(k, rpc, rid).1, "member-info").value.Arr?
    ensures key != "data-source" && key != "member-info" ==>
      Get(GroupStep(k, rpc, rid).1, key) == Lookup(GroupInfo(rid, rpc(QueryGroup(rid))), key)
  {
    var m := Members(k, rpc, Lines(rpc(QueryGroupMembers(rid))));
    EntryLookups(GroupInfo(rid, rpc(QueryGroup(rid))), m.1, key);
  }

  // ---------------------------------------------------------------------------------------------
  // The playbook
  // ---------------------------------------------------------------------------------------------

  /** How a run ends: one of the returned strings, or an exception out of a malformed target. */
  datatype Outcome =
    | NotInstalled
    | NoTargetHost
    | Denied
    | Completed
    | Raised(error: Exceptions.PyError)

  /** The outcome and the target dict afterwards (changes made before an exception are kept). */
  datatype Enumerated = Enumerated(outcome: Outcome, target: Json)

  /** `d.setdefault(k, default)`: the dict afterwards and the value now under `k`. */
  function SetDefault(ms: seq<Member>, k: string, default: Json): (r: (seq<Member>, Json))
    ensures Lookup(r.0, k) == Some(r.1)
    ensures k in Keys(ms) ==> r.0 == ms
    ensures k !in Keys(ms) ==> r.1 == default && forall k' :: k' != k ==> Lookup(r.0, k') == Lookup(ms, k')
  {
    if k in Keys(ms) then (ms, Lookup(ms, k).value)
    else
      PutLookups(ms, k, default);
      (Put(ms, k, default), default)
  }

  /** What a completed run gathers: the password requirements, the users and the groups. */
  datatype Gathered = Gathered(passwords: seq<Member>, users: seq<Json>, groups: seq<Json>)

  /** The password, user and group sections; `keepBlank` selects the password filter (false: as intended). */
  function Gather(rpc: Rpc, keepBlank: bool): Gathered
  {
    var rids := Rids(Lines(rpc(EnumUsers)), UserMark);
    var groups := Groups(Known(rids, Users(rpc, rids)), rpc, Rids(Lines(rpc(EnumGroups)), GroupMark));
    // `user-info` is the same list object the group loop goes on appending to, so it ends up
    // holding the users the group loop added as well.
    Gathered(Fields([], Lines(rpc(GetPasswordInfo)), keepBlank), groups.0.users, groups.1)
  }

  /** The three entries a completed run writes into `details`, in order. */
  function Fill(details: seq<Member>, g: Gathered): seq<Member>
  {
    Put(Put(Put(details, "password-requirements", Obj(g.passwords)), "user-info", Arr(g.users)), "group-info", Arr(g.groups))
  }

  /** After the run, `details` holds the three sections and every other entry it held before. */
  lemma FillLookups(details: seq<Member>, g: Gathered, k: string)
    ensures Lookup(Fill(details, g), "password-requirements") == Some(Obj(g.passwords))
    ensures Lookup(Fill(details, g), "user-info") == Some(Arr(g.users))
    ensures Lookup(Fill(details, g), "group-info") == Some(Arr(g.groups))
    ensures k != "password-requirements" && k != "user-info" && k != "group-info" ==> Lookup(Fill(details, g), k) == Lookup(details, k)
  {
    var d1 := Put(details, "password-requirements", Obj(g.passwords));
    var d2 := Put(d1, "user-info", Arr(g.users));
    PutLookups(details, "password-requirements", Obj(g.passwords));
    PutLookups(d1, "user-info", Arr(g.users));
    PutLookups(d2, "group-info", Arr(g.groups));
  }

  /**
   * From the `getusername` probe on, for a host that passed the checks: `denied` is whether the
   * probe was refused, `g` what the enumeration gathers.
   */
  function Probe(ms: seq<Member>, denied: bool, g: Gathered): Enumerated
  {
    var d := SetDefault(ms, "details", Obj([]));
    if denied then
      if d.1.Obj? then Enumerated(Denied, Obj(Put(d.0, "details", Obj(Put(d.1.members, "anonymous-smb", Bool(false))))))
      else Enumerated(Raised(Exceptions.TypeError), Obj(d.0))
    else
      var v := SetDefault(d.0, "vulnerabilities", Arr([]));
      if !v.1.Arr? then Enumerated(Raised(Exceptions.AttributeError), Obj(v.0))
      else
        var flagged := Put(v.0, "vulnerabilities", Arr(v.1.items + [Str("anonymous-smb")]));
        if d.1.Obj? then Enumerated(Completed, Obj(Put(flagged, "details", Obj(Fill(d.1.members, g)))))
        else Enumerated(Raised(Exceptions.TypeError), Obj(flagged))
  }

  /** The `target_host` entry of a target (`None` when absent). */
  function HostOf(target: Json): Json
  {
    Get(target, "target_host").GetOr(Null)
  }

  /**
   * Python's `repr`, with every text quoted by `'`. Python quotes with `"` when the text holds a
   * `'`, and escapes some characters; neither adds, drops or separates a `%`.
   */
  function Repr(v: Json): string
    decreases v, 1
  {
    match v
    case Null => "None"
    case Bool(b) => if b then "True" else "False"
    case Int(i) => Text.IntToString(i)
    case Str(s) => "'" + s + "'"
    case Arr(_) => "[" + ReprItems(v, 0) + "]"
    case Obj(_) => "{" + ReprMembers(v, 0) + "}"
  }

  /** The items of a list from `i` on, separated by `, `. */
  function ReprItems(v: Json, i: nat): string
    requires v.Arr? && i <= |v.items|
    decreases v, 0, |v.items| - i
  {
    if i == |v.items| then ""
    else (if i > 0 then ", " else "") + Repr(v.items[i]) + ReprItems(v, i + 1)
  }

  /** The members of a dict from `i` on, as `'key': value` separated by `, `. */
  function ReprMembers(v: Json, i: nat): string
    requires v.Obj? && i <= |v.members|
    decreases v, 0, |v.members| - i
  {
    if i == |v.members| then ""
    else (if i > 0 then ", " else "") + "'" + v.members[i].key + "': " + Repr(v.members[i].value) + ReprMembers(v, i + 1)
  }

  /** How the f-string renders `target_host`: `str()`, which is the text itself or the `repr` of anything else. */
  function HostText(host: Json): string
  {
    if host.Str? then host.s else Repr(host)
  }

  const CommandHead := "rpcclient -U \"\" -N "
  const CommandTail := " -c '%s' "

  /**
   * `rpcclient_cmd_format % subcommand`, where the format is `CommandHead + host + CommandTail`:
   * the exception it raises, if any. The host's own text is part of the format, so a `%` in it
   * starts a conversion specifier. The outcome is the same for every subcommand the playbook sends.
   */
  function CommandError(host: string): Option<Exceptions.PyError>
  {
    PyFormat.Format(CommandHead + host + CommandTail, 1)
  }

  /** The only `%` of the tail is the one of its `%s`. */
  lemma TailPercent()
    ensures |CommandTail| == 9 && CommandTail[5] == '%' && CommandTail[6] == 's'
    ensures forall i :: 0 <= i < |CommandTail| && i != 5 ==> CommandTail[i] != '%'
  {
  }

  /** The tail's `%s` takes the argument when it is still unused. */
  lemma TailTakesArgument()
    ensures PyFormat.Format(CommandTail, 1) == None
  {
    TailPercent();
    PyFormat.SingleText(CommandTail, 5, 1);
  }

  /** From anywhere before its `%s`, the tail needs the argument. */
  lemma TailNeedsArgument(k: nat)
    requires k <= 5
    ensures PyFormat.Format(CommandTail[k..], 0) == Some(Exceptions.TypeError)
  {
    TailPercent();
    var t := CommandTail[k..];
    assert forall i :: 0 <= i < |t| && i != 5 - k ==> t[i] != '%' by {
      forall i | 0 <= i < |t| && i != 5 - k ensures t[i] != '%' {
        assert t[i] == CommandTail[k + i];
      }
    }
    PyFormat.SingleText(t, 5 - k, 0);
  }

  /** After a lone `%` has taken the argument or failed, the tail's `%s` finds no argument left. */
  lemma {:induction false} LoneFails(h: string)
    requires !PyFormat.Paired(h)
    ensures PyFormat.Format(h + CommandTail, 1).Some?
    decreases |h|
  {
    var s := h + CommandTail;
    if h[0] != '%' {
      assert s[1..] == h[1..] + CommandTail;
      LoneFails(h[1..]);
    } else if |h| >= 2 && h[1] == '%' {
      assert s[1] == '%' && s[2..] == h[2..] + CommandTail;
      LoneFails(h[2..]);
    } else {
      LoneSpecifier(h);
    }
  }

  /** A `%` not followed by another: its specifier cannot reach past the `c` of ` -c`. */
  lemma LoneSpecifier(h: string)
    requires h != [] && h[0] == '%' && (|h| == 1 || h[1] != '%')
    ensures PyFormat.Format(h + CommandTail, 1).Some?
  {
    assert CommandTail[0] == ' ' && CommandTail[2] == 'c' && CommandTail[3] == ' ';
    TailNeedsArgument(3);
    PyFormat.LetterNotSkipped(CommandTail[2]);
    PyFormat.LoneBefore(h, CommandTail, 2);
  }

  /**
   * The command line can be built exactly when every `%` of the host's text is one half of a
   * `%%`; otherwise the formatting raises before anything is run.
   */
  lemma HostFormatsIff(host: string)
    ensures CommandError(host).None? <==> PyFormat.Paired(host)
  {
    assert forall i :: 0 <= i < |CommandHead| ==> CommandHead[i] != '%';
    assert CommandHead + host + CommandTail == CommandHead + (host + CommandTail);
    PyFormat.NoPercent(CommandHead, host + CommandTail, 1);
    if PyFormat.Paired(host) {
      PyFormat.PairedSkips(host, CommandTail, 1);
      TailTakesArgument();
    } else {
      LoneFails(host);
    }
  }

  /** The command line for a host `before + rest` where `before` holds no `%`. */
  lemma SkipHostHead(before: string, rest: string)
    requires forall i :: 0 <= i < |before| ==> before[i] != '%'
    ensures CommandError(before + rest) == PyFormat.Format(rest + CommandTail, 1)
  {
    HeadPercentFree();
    PercentFreeAppend(CommandHead, before);
    Seqs.AppendAssoc(CommandHead, before, rest);
    Seqs.AppendAssoc(CommandHead + before, rest, CommandTail);
    PyFormat.NoPercent(CommandHead + before, rest + CommandTail, 1);
  }

  /** The head of the command line holds no `%`. */
  lemma HeadPercentFree()
    ensures forall i :: 0 <= i < |CommandHead| ==> CommandHead[i] != '%'
  {
  }

  /** Two texts without `%` make one. */
  lemma PercentFreeAppend(a: string, b: string)
    requires forall i :: 0 <= i < |a| ==> a[i] != '%'
    requires forall i :: 0 <= i < |b| ==> b[i] != '%'
    ensures forall i :: 0 <= i < |a + b| ==> (a + b)[i] != '%'
  {
  }

  /**
   * A lone `%` followed by a conversion that needs a number makes the formatting raise a
   * TypeError: an IPv6 address with a zone id, `fe80::1%eth0`, is one.
   */
  lemma NumberConversionRaises(before: string, c: char, after: string)
    requires forall i :: 0 <= i < |before| ==> before[i] != '%'
    requires c in PyFormat.NumberConversions
    ensures CommandError(before + "%" + [c] + after) == Some(Exceptions.TypeError)
  {
    PyFormat.NumberNotSkipped(c);
    LoneConversion(before, c, after);
  }

  /**
   * A lone `%` followed by a character that is neither part of a specifier nor a conversion
   * (`x%w`) makes the formatting raise a ValueError.
   */
  lemma UnknownConversionRaises(before: string, c: char, after: string)
    requires forall i :: 0 <= i < |before| ==> before[i] != '%'
    requires c !in PyFormat.Skipped && c !in PyFormat.TextConversions && c !in PyFormat.NumberConversions
    requires c != '(' && c != '*' && c != '%'
    ensures CommandError(before + "%" + [c] + after) == Some(Exceptions.ValueError)
  {
    LoneConversion(before, c, after);
  }

  /**
   * A host whose first `%` starts a width past PY_SSIZE_T_MAX makes the formatting raise
   * ValueError ("width too big") before the argument is taken.
   */
  lemma WidthTooBigRaises(before: string, ds: string, after: string)
    requires forall i :: 0 <= i < |before| ==> before[i] != '%'
    requires ds != [] && ds[0] != '0' && forall k :: 0 <= k < |ds| ==> ds[k] in PyFormat.Digits
    requires after != [] ==> after[0] !in PyFormat.Digits
    requires PyFormat.Value(ds) > PyFormat.WidthMax
    ensures CommandError(before + "%" + ds + after) == Some(Exceptions.ValueError)
  {
    assert CommandTail[0] == ' ';
    PyFormat.SpaceNotDigit();
    PyFormat.WidthRaisesBefore(ds, after, CommandTail);
    Seqs.AppendAssoc(before, "%", ds);
    Seqs.AppendAssoc(before, "%" + ds, after);
    SkipHostHead(before, "%" + ds + after);
  }

  /**
   * A host whose first `%` starts a precision past INT_MAX makes the formatting raise
   * ValueError ("precision too big") before the argument is taken.
   */
  lemma PrecisionTooBigRaises(before: string, ds: string, after: string)
    requires forall i :: 0 <= i < |before| ==> before[i] != '%'
    requires ds != [] && forall k :: 0 <= k < |ds| ==> ds[k] in PyFormat.Digits
    requires after != [] ==> after[0] !in PyFormat.Digits
    requires PyFormat.Value(ds) > PyFormat.PrecisionMax
    ensures CommandError(before + "%." + ds + after) == Some(Exceptions.ValueError)
  {
    assert CommandTail[0] == ' ';
    PyFormat.SpaceNotDigit();
    PyFormat.PrecisionRaisesBefore(ds, after, CommandTail);
    Seqs.AppendAssoc(before, "%.", ds);
    Seqs.AppendAssoc(before, "%." + ds, after);
    SkipHostHead(before, "%." + ds + after);
  }

  /** `x%99999999999999999999s` makes the formatting raise ValueError: the width is too big. */
  lemma WideExample()
    ensures CommandError("x%" + "99999999999999999999" + "s") == Some(Exceptions.ValueError)
  {
    var wide := "99999999999999999999";
    PyFormat.WideNines();
    assert 's' !in PyFormat.Digits;
    assert "x%" == "x" + "%";
    WidthTooBigRaises("x", wide, "s");
  }

  /** `x%.9999999999s` makes the formatting raise ValueError: the precision is too big. */
  lemma PreciseExample()
    ensures CommandError("x%." + "9999999999" + "s") == Some(Exceptions.ValueError)
  {
    var precise := "9999999999";
    PyFormat.PreciseNines();
    assert 's' !in PyFormat.Digits;
    assert "x%." == "x" + "%.";
    PrecisionTooBigRaises("x", precise, "s");
  }

  /** The host's own `%` and `c` are read as a bare conversion, applied to the unused argument. */
  lemma LoneConversion(before: string, c: char, after: string)
    requires forall i :: 0 <= i < |before| ==> before[i] != '%'
    requires c !in PyFormat.Skipped && c !in PyFormat.TextConversions && c != '(' && c != '*' && c != '%'
    ensures CommandError(before + "%" + [c] + after)
      == Some(if c in PyFormat.NumberConversions then Exceptions.TypeError else Exceptions.ValueError)
  {
    var h := ("%" + [c]) + after;
    assert before + "%" + [c] + after == before + h;
    SkipHostHead(before, h);
    assert h + CommandTail == ("%" + [c]) + (after + CommandTail);
    PyFormat.RejectedConversion(c, after + CommandTail);
  }

  /**
   * A host holding `%s` after text without `%` takes the only argument, so the command's own
   * `%s` raises a TypeError (`a%s`).
   */
  lemma SecondSpecifierRaises(before: string, after: string)
    requires forall i :: 0 <= i < |before| ==> before[i] != '%'
    requires forall i :: 0 <= i < |after| ==> after[i] != '%'
    ensures CommandError(before + "%s" + after) == Some(Exceptions.TypeError)
  {
    var h := "%s" + after;
    assert before + "%s" + after == before + h;
    SkipHostHead(before, h);
    PyFormat.TextBefore(after, CommandTail);
    TailNeedsArgument(0);
    assert CommandTail[0..] == CommandTail;
  }

  /** A literal percent written as `%%` in the host is built into the command line. */
  lemma DoubledPercentFormats()
    ensures CommandError("a%%b").None?
  {
    HostFormatsIff("a%%b");
  }

  /** `run(target)`; `keepBlank` selects the password filter (false: as intended). */
  function Enumerate(installed: bool, target: Json, rpc: Rpc, keepBlank: bool): Enumerated
    requires target.Obj?
  {
    if !installed then Enumerated(NotInstalled, target)
    else if !Truthy(Get(target, "target_host").GetOr(Null)) then Enumerated(NoTargetHost, target)
    else if CommandError(HostText(HostOf(target))).Some? then Enumerated(Raised(CommandError(HostText(HostOf(target))).value), target)
    else Probe(target.members, Text.Contains(rpc(GetUsername), AccessDenied), Gather(rpc, keepBlank))
  }

  const Failed := "!!!  MSRPC enumeration failed"
  const Succeeded := "$$$  MSRPC enumeration completed on "

  /**
   * The returned string. `shown` is how the f-string renders the target dict (for a missing host)
   * or the host. An exception returns nothing.
   */
  function Message(o: Outcome, shown: string): (r: Option<string>)
    ensures r.Some? <==> !o.Raised?
    ensures r.Some? && !o.Completed? ==> Failed <= r.value
    ensures o.Completed? ==> r == Some(Succeeded + shown)
  {
    match o
    case NotInstalled => Some(Failed + ", RPCClient not installed")
    case NoTargetHost => Some(Failed + ", no target_host specified: " + shown)
    case Denied => Some(Failed + ", permission denied on " + shown)
    case Completed => Some(Succeeded + shown)
    case Raised(_) => None
  }

  /** A missing rpcclient or a falsy `target_host` returns before the target is touched. */
  lemma EarlyFailureUntouched(installed: bool, target: Json, rpc: Rpc, keepBlank: bool)
    requires target.Obj?
    requires !installed || !Truthy(Get(target, "target_host").GetOr(Null))
    ensures Enumerate(installed, target, rpc, keepBlank).target == target
    ensures Enumerate(installed, target, rpc, keepBlank).outcome == if installed then NoTargetHost else NotInstalled
  {
  }

  /**
   * A host whose text holds a lone `%` (an IPv6 zone id such as `fe80::1%eth0`) makes building
   * the first command line raise, before `details` is created: the target is left as it was,
   * as written and corrected alike.
   */
  lemma UnformattableHostUntouched(target: Json, rpc: Rpc, keepBlank: bool)
    requires target.Obj? && Truthy(HostOf(target))
    requires !PyFormat.Paired(HostText(HostOf(target)))
    ensures CommandError(HostText(HostOf(target))).Some?
    ensures Enumerate(true, target, rpc, keepBlank) == Enumerated(Raised(CommandError(HostText(HostOf(target))).value), target)
    ensures EnumerateAsWritten(true, target) == Enumerated(Raised(CommandError(HostText(HostOf(target))).value), target)
  {
    HostFormatsIff(HostText(HostOf(target)));
  }

  /** `details` (if any) is a dict and `vulnerabilities` (if any) is a list. */
  predicate WellShaped(target: Json)
    requires target.Obj?
  {
    (Get(target, "details").Some? ==> Get(target, "details").value.Obj?)
    && (Get(target, "vulnerabilities").Some? ==> Get(target, "vulnerabilities").value.Arr?)
  }

  /** The items of a target's vulnerability list (none when absent). */
  function Vulnerabilities(target: Json): seq<Json>
    requires target.Obj?
  {
    var v := Get(target, "vulnerabilities");
    if v.Some? && v.value.Arr? then v.value.items else []
  }

  /** The `details` dict of a target (empty when absent). */
  function DetailsOf(target: Json): seq<Member>
    requires target.Obj?
  {
    var d := Get(target, "details");
    if d.Some? && d.value.Obj? then d.value.members else []
  }

  /**
   * A refused probe marks `anonymous-smb: False` in the details and leaves the vulnerability list
   * and every other entry of the target as it was.
   */
  lemma ProbeDenied(target: Json, g: Gathered, k: string)
    requires target.Obj? && WellShaped(target)
    ensures Probe(target.members, true, g).outcome == Denied
    ensures Probe(target.members, true, g).target.Obj?
    ensures Get(Probe(target.members, true, g).target, "vulnerabilities") == Get(target, "vulnerabilities")
    ensures Lookup(DetailsOf(Probe(target.members, true, g).target), "anonymous-smb") == Some(Bool(false))
    ensures k != "anonymous-smb" ==> Lookup(DetailsOf(Probe(target.members, true, g).target), k) == Lookup(DetailsOf(target), k)
    ensures k != "details" ==> Get(Probe(target.members, true, g).target, k) == Get(target, k)
  {
    var ms := target.members;
    var d := SetDefault(ms, "details", Obj([]));
    var details := Put(d.1.members, "anonymous-smb", Bool(false));
    PutLookups(d.0, "details", Obj(details));
    PutLookups(d.1.members, "anonymous-smb", Bool(false));
  }

  /**
   * An accepted probe appends `anonymous-smb` to the vulnerability list and fills the details;
   * every other entry of the target stays as it was.
   */
  lemma ProbeAccepted(target: Json, g: Gathered, k: string)
    requires target.Obj? && WellShaped(target)
    ensures Probe(target.members, false, g).outcome == Completed
    ensures Probe(target.members, false, g).target.Obj?
    ensures Vulnerabilities(Probe(target.members, false, g).target) == Vulnerabilities(target) + [Str("anonymous-smb")]
    ensures DetailsOf(Probe(target.members, false, g).target) == Fill(DetailsOf(target), g)
    ensures k != "details" && k != "vulnerabilities" ==> Get(Probe(target.members, false, g).target, k) == Get(target, k)
  {
    var ms := target.members;
    var d := SetDefault(ms, "details", Obj([]));
    assert d.1.Obj? && d.1.members == DetailsOf(target) by {
      if "details" in Keys(ms) {
        assert Get(target, "details") == Some(d.1);
      }
    }
    var v := SetDefault(d.0, "vulnerabilities", Arr([]));
    assert v.1.Arr? && v.1.items == Vulnerabilities(target) by {
      assert Lookup(d.0, "vulnerabilities") == Get(target, "vulnerabilities");
    }
    var added := Arr(v.1.items + [Str("anonymous-smb")]);
    var flagged := Put(v.0, "vulnerabilities", added);
    var out := Put(flagged, "details", Obj(Fill(d.1.members, g)));
    assert Probe(ms, false, g) == Enumerated(Completed, Obj(out));
    assert forall k' :: k' != "vulnerabilities" ==> Lookup(flagged, k') == Lookup(v.0, k') by {
      PutLookups(v.0, "vulnerabilities", added);
    }
    assert Lookup(flagged, "vulnerabilities") == Some(added) by {
      PutLookups(v.0, "vulnerabilities", added);
    }
    PutLookups(flagged, "details", Obj(Fill(d.1.members, g)));
  }

  /**
   * A host that refuses the anonymous login is marked `anonymous-smb: False` and is not listed as
   * vulnerable; nothing else in the target changes.
   */
  lemma DeniedHostNotFlagged(target: Json, rpc: Rpc, k: string)
    requires target.Obj? && WellShaped(target) && Truthy(Get(target, "target_host").GetOr(Null))
    requires PyFormat.Paired(HostText(HostOf(target)))
    requires Text.Contains(rpc(GetUsername), AccessDenied)
    ensures Enumerate(true, target, rpc, false).outcome == Denied
    ensures Enumerate(true, target, rpc, false).target.Obj?
    ensures Get(Enumerate(true, target, rpc, false).target, "vulnerabilities") == Get(target, "vulnerabilities")
    ensures Lookup(DetailsOf(Enumerate(true, target, rpc, false).target), "anonymous-smb") == Some(Bool(false))
    ensures k != "details" ==> Get(Enumerate(true, target, rpc, false).target, k) == Get(target, k)
  {
    var g := Gather(rpc, false);
    HostFormatsIff(HostText(HostOf(target)));
    assert Enumerate(true, target, rpc, false) == Probe(target.members, true, g);
    ProbeDenied(target, g, k);
  }

  /**
   * A host that lets the anonymous login through gains `anonymous-smb` at the end of its
   * vulnerability list, and its details gain the password requirements, the users (including
   * group members found later) and the groups.
   */
  lemma CompletedFlagsHost(target: Json, rpc: Rpc, k: string)
    requires target.Obj? && WellShaped(target) && Truthy(Get(target, "target_host").GetOr(Null))
    requires PyFormat.Paired(HostText(HostOf(target)))
    requires !Text.Contains(rpc(GetUsername), AccessDenied)
    ensures Enumerate(true, target, rpc, false).outcome == Completed
    ensures Enumerate(true, target, rpc, false).target.Obj?
    ensures Vulnerabilities(Enumerate(true, target, rpc, false).target) == Vulnerabilities(target) + [Str("anonymous-smb")]
    ensures Lookup(DetailsOf(Enumerate(true, target, rpc, false).target), "password-requirements") == Some(Obj(PasswordRequirements(rpc(GetPasswordInfo))))
    ensures Lookup(DetailsOf(Enumerate(true, target, rpc, false).target), "user-info") == Some(Arr(Gather(rpc, false).users))
    ensures Lookup(DetailsOf(Enumerate(true, target, rpc, false).target), "group-info") == Some(Arr(Gather(rpc, false).groups))
    ensures k != "details" && k != "vulnerabilities" ==> Get(Enumerate(true, target, rpc, false).target, k) == Get(target, k)
  {
    var g := Gather(rpc, false);
    HostFormatsIff(HostText(HostOf(target)));
    assert Enumerate(true, target, rpc, false) == Probe(target.members, false, g);
    ProbeAccepted(target, g, k);
    FillLookups(DetailsOf(target), g, k);
  }

  /**
   * The users a completed run lists: first every enumerated user, tagged `data-source: msrpc`, in
   * listing order; then each group member that was not listed, once, as its `queryuser` answer.
   */
  lemma GatheredUsers(rpc: Rpc, keepBlank: bool)
    ensures var rids := Rids(Lines(rpc(EnumUsers)), UserMark);
      var known := Groups(Known(rids, Users(rpc, rids)), rpc, Rids(Lines(rpc(EnumGroups)), GroupMark)).0;
      Joined(Known(rids, Users(rpc, rids)), known, rpc) && Gather(rpc, keepBlank).users == known.users
  {
    var rids := Rids(Lines(rpc(EnumUsers)), UserMark);
    GroupsJoined(Known(rids, Users(rpc, rids)), rpc, Rids(Lines(rpc(EnumGroups)), GroupMark));
  }

  // ---------------------------------------------------------------------------------------------
  // As written: `SystemCommand.run()` is a generator that is never iterated
  // ---------------------------------------------------------------------------------------------

  /**
   * `command_output` after `cmd.run()` as the playbook calls it: the call only creates the
   * generator, so no command runs and the output keeps its initial empty value.
   */
  function Unread(subcommand: string): string
  {
    ""
  }

  /**
   * The playbook as written: no rpcclient output is read, and the inverted password filter
   * applies. A host is never found to deny anonymous access.
   */
  function EnumerateAsWritten(installed: bool, target: Json): (r: Enumerated)
    requires target.Obj?
    ensures r.outcome != Denied
  {
    UnreadNotDenied();
    Enumerate(installed, target, Unread, true)
  }

  /** The empty output does not hold the access-denied marker. */
  lemma UnreadNotDenied()
    ensures !Text.Contains(Unread(GetUsername), AccessDenied)
  {
    Text.MissingCharNoOccurrence("", AccessDenied, 0);
  }

  /** Empty output has one empty line, which holds no RID. */
  lemma NoRids(open: string)
    requires open != []
    ensures Rids(Lines(""), open) == []
  {
    assert Lines("") == [""];
    assert Text.IndexOf("", open, 0).None?;
    assert [""][..0] == [];
    assert RidOf("", open).None?;
  }

  /** Without output the enumeration gathers one empty password entry, no users and no groups. */
  lemma UnreadGathers()
    ensures Gather(Unread, true) == Gathered([Member("", Str(""))], [], [])
  {
    assert Lines("") == [""];
    assert Text.Partition("", ':') == ("", "");
    assert Field("") == ("", "");
    assert [""][..0] == [];
    assert Fields([], [""], true) == [Member("", Str(""))];
    NoRids(UserMark);
    NoRids(GroupMark);
    assert Users(Unread, []) == [];
  }

  /**
   * As written, every host with a target_host is reported `anonymous-smb` vulnerable, whatever
   * rpcclient would print, and its details hold no users, no groups and one empty password entry.
   */
  lemma AsWrittenFlagsEveryHost(target: Json)
    requires target.Obj? && WellShaped(target) && Truthy(Get(target, "target_host").GetOr(Null))
    requires PyFormat.Paired(HostText(HostOf(target)))
    ensures EnumerateAsWritten(true, target).outcome == Completed
    ensures EnumerateAsWritten(true, target).target.Obj?
    ensures Vulnerabilities(EnumerateAsWritten(true, target).target) == Vulnerabilities(target) + [Str("anonymous-smb")]
    ensures Lookup(DetailsOf(EnumerateAsWritten(true, target).target), "password-requirements") == Some(Obj([Member("", Str(""))]))
    ensures Lookup(DetailsOf(EnumerateAsWritten(true, target).target), "user-info") == Some(Arr([]))
    ensures Lookup(DetailsOf(EnumerateAsWritten(true, target).target), "group-info") == Some(Arr([]))
  {
    var g := Gathered([Member("", Str(""))], [], []);
    UnreadGathers();
    Text.MissingCharNoOccurrence("", AccessDenied, 0);
    HostFormatsIff(HostText(HostOf(target)));
    assert EnumerateAsWritten(true, target) == Probe(target.members, false, g);
    ProbeAccepted(target, g, "");
    FillLookups(DetailsOf(target), g, "");
  }

  // ---------------------------------------------------------------------------------------------
  // The imperative code
  // ---------------------------------------------------------------------------------------------

  /** The key/value loop over a command's output. */
  method ReadFields(init: seq<Member>, out: string, keepBlank: bool) returns (d: seq<Member>)
    ensures d == Fields(init, Lines(out), keepBlank)
  {
    var lines := Lines(out);
    d := init;
    var i := 0;
    while i < |lines|
      invariant i <= |lines|
      invariant d == Fields(init, lines[..i], keepBlank)
    {
      assert lines[..i + 1][..i] == lines[..i];
      var f := Field(lines[i]);
      if Kept(f.1, keepBlank) {
        d := Put(d, f.0, Str(f.1));
      }
      i := i + 1;
    }
    assert lines[..|lines|] == lines;
  }

  /** `query_user_info(rid)`. */
  method QueryUserInfo(rid: string, rpc: Rpc) returns (info: seq<Member>)
    ensures info == UserInfo(rid, rpc(QueryUser(rid)))
  {
    var out := rpc(QueryUser(rid));
    if Text.Contains(out, AccessDenied) {
      return [Member("user_rid", Str(rid)), Member("error-message", Str(out))];
    }
    info := ReadFields([], out, false);
  }

  /** `query_group_info(rid)`. */
  method QueryGroupInfo(rid: string, rpc: Rpc) returns (info: seq<Member>)
    ensures info == GroupInfo(rid, rpc(QueryGroup(rid)))
  {
    var out := rpc(QueryGroup(rid));
    if Text.Contains(out, AccessDenied) {
      return [Member("group_rid", Str(rid)), Member("error-message", Str(out))];
    }
    info := ReadFields([Member("group_rid", Str(rid))], out, false);
  }

  /** The RID loop over an `enumdomusers` / `enumdomgroups` listing. */
  method ReadRids(out: string, open: string) returns (rids: seq<string>)
    ensures rids == Rids(Lines(out), open)
  {
    var lines := Lines(out);
    rids := [];
    var i := 0;
    while i < |lines|
      invariant i <= |lines|
      invariant rids == Rids(lines[..i], open)
    {
      assert lines[..i + 1][..i] == lines[..i];
      var rid := RidOf(lines[i], open);
      if rid.Some? {
        rids := rids + [rid.value];
      }
      i := i + 1;
    }
    assert lines[..|lines|] == lines;
  }

  /** The scan over `detailed_user_info` for a known member's name, stopping at the first match. */
  method FindName(users: seq<Json>, rid: string) returns (name: Json)
    ensures name == NameOf(users, rid)
  {
    name := Null;
    var i := 0;
    while i < |users|
      invariant i <= |users|
      invariant NameOf(users, rid) == NameOf(users[i..], rid)
    {
      assert users[i..][1..] == users[i + 1..];
      if Get(users[i], "user_rid") == Some(Str(rid)) {
        name := Get(users[i], "User Name").GetOr(Null);
        return;
      }
      i := i + 1;
    }
  }

  /** The member loop of one group; `rids` and `users` are extended in place. */
  method ReadMembers(rids0: seq<string>, users0: seq<Json>, rpc: Rpc, rid: string)
    returns (rids: seq<string>, users: seq<Json>, members: seq<Json>)
    ensures (Known(rids, users), members) == Members(Known(rids0, users0), rpc, Lines(rpc(QueryGroupMembers(rid))))
  {
    var lines := Lines(rpc(QueryGroupMembers(rid)));
    rids, users, members := rids0, users0, [];
    var i := 0;
    while i < |lines|
      invariant i <= |lines|
      invariant (Known(rids, users), members) == Members(Known(rids0, users0), rpc, lines[..i])
    {
      assert lines[..i + 1][..i] == lines[..i];
      var matches := Bracketed(lines[i], MemberMark, AttrMark);
      if matches.Some? {
        var m, attr := matches.value.0, matches.value.1;
        var name;
        if m in rids {
          name := FindName(users, m);
        } else {
          var info := QueryUserInfo(m, rpc);
          rids := rids + [m];
          users := users + [Obj(info)];
          name := Lookup(info, "User Name").GetOr(Null);
        }
        members := members + [MemberEntry(m, attr, name)];
      }
      i := i + 1;
    }
    assert lines[..|lines|] == lines;
  }

  /** The user loop: each listed RID queried, tagged and appended, in order. */
  method QueryUsers(rpc: Rpc, rids: seq<string>) returns (users: seq<Json>)
    ensures users == Users(rpc, rids)
  {
    users := [];
    var i := 0;
    while i < |rids|
      invariant i <= |rids|
      invariant users == Users(rpc, rids[..i])
    {
      assert rids[..i + 1][..i] == rids[..i];
      var info := QueryUserInfo(rids[i], rpc);
      users := users + [Obj(Tagged(info))];
      i := i + 1;
    }
    assert rids[..|rids|] == rids;
  }

  /** One pass of the group loop: the group's info, then its members. */
  method EnumerateGroup(known: Known, rpc: Rpc, rid: string) returns (after: Known, entry: Json)
    ensures (after, entry) == GroupStep(known, rpc, rid)
  {
    var info := QueryGroupInfo(rid, rpc);
    var rids, users, members := ReadMembers(known.rids, known.users, rpc, rid);
    after, entry := Known(rids, users), Obj(Put(Tagged(info), "member-info", Arr(members)));
  }

  /** The group loop: `known` is extended in place as unknown members turn up. */
  method QueryGroups(known: Known, rpc: Rpc, groupRids: seq<string>) returns (after: Known, groups: seq<Json>)
    ensures (after, groups) == Groups(known, rpc, groupRids)
  {
    var rids, users := known.rids, known.users;
    groups := [];
    var j := 0;
    while j < |groupRids|
      invariant j <= |groupRids|
      invariant (Known(rids, users), groups) == Groups(known, rpc, groupRids[..j])
    {
      var known2, entry := EnumerateGroup(Known(rids, users), rpc, groupRids[j]);
      GroupsSnoc(known, rpc, groupRids, j, Known(rids, users), groups, known2, entry);
      rids, users, groups := known2.rids, known2.users, groups + [entry];
      j := j + 1;
    }
    assert groupRids[..|groupRids|] == groupRids;
    after := Known(rids, users);
  }

  /** The password, user and group sections of a run that got past the probe. */
  method Gathering(rpc: Rpc) returns (g: Gathered)
    ensures g == Gather(rpc, false)
  {
    var passwords := ReadFields([], rpc(GetPasswordInfo), false);
    var userRids := ReadRids(rpc(EnumUsers), UserMark);
    var users := QueryUsers(rpc, userRids);
    var groupRids := ReadRids(rpc(EnumGroups), GroupMark);
    var known, groups := QueryGroups(Known(userRids, users), rpc, groupRids);
    g := Gathered(passwords, known.users, groups);
  }

  /** `run(target)`: the target dict afterwards and how the run ended. */
  method Run(installed: bool, target: Json, rpc: Rpc) returns (outcome: Outcome, updated: Json)
    requires target.Obj?
    ensures Enumerated(outcome, updated) == Enumerate(installed, target, rpc, false)
  {
    updated := target;
    if !installed {
      return NotInstalled, updated;
    }
    var host := Get(target, "target_host").GetOr(Null);
    if !Truthy(host) {
      return NoTargetHost, updated;
    }
    var formatError := CommandError(HostText(host));
    if formatError.Some? {
      return Raised(formatError.value), updated;
    }
    var d := SetDefault(target.members, "details", Obj([]));
    var ms, details := d.0, d.1;
    if Text.Contains(rpc(GetUsername), AccessDenied) {
      if !details.Obj? {
        return Raised(Exceptions.TypeError), Obj(ms);
      }
      return Denied, Obj(Put(ms, "details", Obj(Put(details.members, "anonymous-smb", Bool(false)))));
    }
    var v := SetDefault(ms, "vulnerabilities", Arr([]));
    ms := v.0;
    if !v.1.Arr? {
      return Raised(Exceptions.AttributeError), Obj(ms);
    }
    ms := Put(ms, "vulnerabilities", Arr(v.1.items + [Str("anonymous-smb")]));
    if !details.Obj? {
      return Raised(Exceptions.TypeError), Obj(ms);
    }
    var g := Gathering(rpc);
    outcome, updated := Completed, Obj(Put(ms, "details", Obj(Fill(details.members, g))));
  }
}

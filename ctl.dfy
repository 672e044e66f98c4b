/**
 * The operator's command-line client (`radar-ctl`): distributing one command template over a
 * list of targets, running a playbook by hand, listing databases, collections and missions,
 * writing the mission's command log as a document, and routing a sub-command to its handler.
 */
module RadarCtl {
  import opened Optional
  import opened JsonModel
  import Text
  import Seqs
  import Constants
  import MapNetworkTargets
  import Automation
  import Exceptions

  // ---------------------------------------------------------------------------------------------
  // The distribution syntax `<targets> into <command holding {}>`

  /** The keyword between the targets and the command, each letter in either case. */
  predicate IntoWord(w: string)
  {
    |w| == 4 && (w[0] == 'i' || w[0] == 'I') && (w[1] == 'n' || w[1] == 'N')
    && (w[2] == 't' || w[2] == 'T') && (w[3] == 'o' || w[3] == 'O')
  }

  /**
   * The syntax pattern can end its target group at `k` in the line `s`: at least one character
   * of targets, a space, the keyword, a space, then a command that holds `{}`.
   */
  predicate SplitsAt(s: string, k: int)
  {
    1 <= k && k + 6 <= |s| && s[k] == ' ' && IntoWord(s[k + 1..k + 5]) && s[k + 5] == ' '
    && Text.Contains(s[k + 6..], "{}")
  }

  /** The last place at or before `k` where the target group can end: the greedy group takes as much as it can. */
  function LastSplit(s: string, k: nat): (r: Option<nat>)
    ensures r.Some? ==> r.value <= k && SplitsAt(s, r.value)
    ensures r.Some? ==> forall j :: r.value < j <= k ==> !SplitsAt(s, j)
    ensures r.None? ==> forall j :: j <= k ==> !SplitsAt(s, j)
  {
    if k == 0 then None else if SplitsAt(s, k) then Some(k) else LastSplit(s, k - 1)
  }

  /** The text the pattern's `$` can end at: without one final line break. */
  function LineOf(s: string): string
  {
    if |s| > 0 && s[|s| - 1] == '\n' then s[..|s| - 1] else s
  }

  /** The two named groups of the syntax pattern. */
  datatype Parsed = Parsed(targets: string, command: string)

  /**
   * `re.search` of the syntax pattern: the groups of the match, or `None` when the text does
   * not fit. `.` matches no line break, and the target group is the longest that still leaves
   * a keyword and a command holding `{}` after it.
   */
  function ParseSyntax(s: string): (r: Option<Parsed>)
    ensures r.None? <==> '\n' in LineOf(s) || forall k :: !SplitsAt(LineOf(s), k)
    ensures r.Some? ==>
      var line, n := LineOf(s), |r.value.targets|;
      '\n' !in line && SplitsAt(line, n) && r.value.targets == line[..n] && r.value.command == line[n + 6..]
      && forall j :: n < j ==> !SplitsAt(line, j)
  {
    var line := LineOf(s);
    if '\n' in line then None
    else
      match LastSplit(line, |line|)
      case None => None
      case Some(k) => Some(Parsed(line[..k], line[k + 6..]))
  }

  /** The keyword starts at `j` in `c`. */
  predicate KeywordAt(c: string, j: int)
  {
    0 <= j && j + 4 <= |c| && IntoWord(c[j..j + 4])
  }

  /** After the keyword that follows the targets, the joined text has no other place to split. */
  lemma NoLaterSplit(targets: string, word: string, command: string)
    requires IntoWord(word) && forall j :: !KeywordAt(command, j)
    ensures forall j :: |targets| < j ==> !SplitsAt(targets + " " + word + " " + command, j)
  {
    var s := targets + " " + word + " " + command;
    var n := |targets|;
    forall j | n < j
      ensures !SplitsAt(s, j)
    {
      if j + 6 <= |s| {
        assert s[j + 1..j + 5][0] == s[j + 1];
        if j + 1 < n + 6 {
          assert s[j + 1] == (" " + word + " ")[j + 1 - n];
        } else {
          assert s[j + 1..j + 5] == command[j - n - 5..j - n - 1];
          assert !KeywordAt(command, j - n - 5);
        }
      }
    }
  }

  /** Targets, keyword and a command without a keyword of its own come back as the two groups. */
  lemma ParseJoined(targets: string, word: string, command: string)
    requires targets != "" && '\n' !in targets && '\n' !in command
    requires IntoWord(word) && Text.Contains(command, "{}") && forall j :: !KeywordAt(command, j)
    ensures ParseSyntax(targets + " " + word + " " + command) == Some(Parsed(targets, command))
  {
    var s := targets + " " + word + " " + command;
    var n := |targets|;
    JoinedParts(targets, word, command, s);
    assert LineOf(s) == s by {
      var idx := Text.IndexOf(command, "{}", 0).value;
      assert command[idx] == '{';
    }
    assert SplitsAt(s, n);
    NoLaterSplit(targets, word, command);
    var r := ParseSyntax(s);
    assert |r.value.targets| == n;
  }

  /** Where the targets, the keyword and the command sit in the joined text, which holds no line break. */
  lemma JoinedParts(targets: string, word: string, command: string, s: string)
    requires s == targets + " " + word + " " + command
    requires '\n' !in targets && '\n' !in command && IntoWord(word)
    ensures s[..|targets|] == targets && s[|targets| + 6..] == command
    ensures s[|targets|] == ' ' && s[|targets| + 1..|targets| + 5] == word && s[|targets| + 5] == ' '
    ensures command != [] ==> s[|s| - 1] == command[|command| - 1]
    ensures '\n' !in s
  {
    var n := |targets|;
    forall i | 0 <= i < |s| ensures s[i] != '\n' {
      if n <= i < n + 6 {
        assert s[i] == (" " + word + " ")[i - n];
      } else if n + 6 <= i {
        assert s[i] == command[i - n - 6];
      }
    }
  }

  /** A text without the keyword's first letter does not fit the syntax. */
  lemma KeywordNeeded(s: string)
    requires 'i' !in s && 'I' !in s
    ensures ParseSyntax(s).None?
  {
    var line := LineOf(s);
    assert line == s[..|line|];
    forall k | 1 <= k
      ensures !SplitsAt(line, k)
    {
      if k + 6 <= |line| {
        assert line[k + 1..k + 5][0] == line[k + 1] == s[k + 1];
      }
    }
  }

  /** A matched command holds `{}`, so stripping cannot leave it blank. */
  lemma ParsedCommandNotBlank(s: string)
    requires ParseSyntax(s).Some?
    ensures ParseSyntax(s).value.targets != ""
    ensures Text.Strip(ParseSyntax(s).value.command) != ""
  {
    var r := ParseSyntax(s).value;
    assert Text.Contains(r.command, "{}") && |r.targets| >= 1 by {
      var line := LineOf(s);
      assert SplitsAt(line, |r.targets|) && r.command == line[|r.targets| + 6..];
    }
    BraceNotBlank(r.command);
  }

  /** A text holding `{}` is not blank once stripped. */
  lemma BraceNotBlank(c: string)
    requires Text.Contains(c, "{}")
    ensures Text.Strip(c) != ""
  {
    var idx := Text.IndexOf(c, "{}", 0).value;
    assert c[idx] == '{';
    StripKeepsNonSpace(c, idx);
  }

  /** Stripping keeps every character that is not whitespace. */
  lemma StripKeepsNonSpace(s: string, i: nat)
    requires i < |s| && !Text.IsSpace(s[i])
    ensures Text.Strip(s) != ""
  {
    var l := Text.LStrip(s);
    assert i >= |s| - |l|;
    assert l[0] == s[|s| - |l|];
    assert !Text.IsSpace(l[0]);
  }

  // ---------------------------------------------------------------------------------------------
  // The target list

  /** A piece that `strip()` leaves alone and that is not empty. */
  predicate Trimmed(t: string)
  {
    t != "" && !Text.IsSpace(t[0]) && !Text.IsSpace(t[|t| - 1])
  }

  /** What `strip()` leaves is left alone by a second `strip()`. */
  lemma StripTrimmed(s: string)
    ensures Text.Strip(s) != "" ==> Trimmed(Text.Strip(s))
    ensures forall c :: c in Text.Strip(s) ==> c in s
  {
    var l := Text.LStrip(s);
    var r := Text.Strip(s);
    if r != "" {
      assert r[0] == l[0];
    }
    assert forall c :: c in r ==> c in l;
  }

  /** One piece stripped; an empty result is dropped. */
  function KeepPiece(p: string): seq<string>
  {
    var t := Text.Strip(p);
    if t != "" then [t] else []
  }

  /** The kept pieces need no more stripping. */
  lemma {:induction false} KeptTrimmedAll(pieces: seq<string>)
    ensures forall x :: x in Seqs.FlatMap(pieces, KeepPiece) ==> Trimmed(x)
  {
    if pieces != [] {
      KeptTrimmedAll(pieces[..|pieces| - 1]);
      StripTrimmed(pieces[|pieces| - 1]);
    }
  }

  /** The kept pieces hold no character that every piece lacked. */
  lemma {:induction false} KeptLacks(pieces: seq<string>, c: char)
    requires forall i :: 0 <= i < |pieces| ==> c !in pieces[i]
    ensures forall x :: x in Seqs.FlatMap(pieces, KeepPiece) ==> c !in x
  {
    if pieces != [] {
      var front := pieces[..|pieces| - 1];
      assert forall i :: 0 <= i < |front| ==> front[i] == pieces[i];
      KeptLacks(front, c);
      StripTrimmed(pieces[|pieces| - 1]);
    }
  }

  /** The targets of the target group: its comma-separated pieces, stripped, empty ones dropped, in order. */
  function TargetList(group: string): (r: seq<string>)
    ensures forall i :: 0 <= i < |r| ==> Trimmed(r[i]) && ',' !in r[i]
  {
    KeptTrimmedAll(Text.Split(group, ','));
    KeptLacks(Text.Split(group, ','), ',');
    Seqs.FlatMap(Text.Split(group, ','), KeepPiece)
  }

  /** The loop that strips the comma-separated pieces and keeps the non-empty ones. */
  method SplitTargets(group: string) returns (targets: seq<string>)
    ensures targets == TargetList(group)
  {
    targets := KeepStripped(Text.Split(group, ','));
  }

  /** The loop itself, over the pieces. */
  method KeepStripped(pieces: seq<string>) returns (targets: seq<string>)
    ensures targets == Seqs.FlatMap(pieces, KeepPiece)
  {
    targets := [];
    var i := 0;
    while i < |pieces|
      invariant i <= |pieces|
      invariant targets == Seqs.FlatMap(pieces[..i], KeepPiece)
    {
      var t := Text.Strip(pieces[i]);
      if t != "" {
        targets := targets + [t];
      }
      Seqs.FlatMapStep(pieces, i, KeepPiece);
      i := i + 1;
    }
    assert pieces[..|pieces|] == pieces;
  }

  /** Pieces that need no stripping are all kept, in order. */
  lemma {:induction false} KeptTrimmed(ts: seq<string>)
    requires forall i :: 0 <= i < |ts| ==> Trimmed(ts[i])
    ensures Seqs.FlatMap(ts, KeepPiece) == ts
  {
    if ts != [] {
      KeptTrimmed(ts[..|ts| - 1]);
      Text.StripKeeps(ts[|ts| - 1]);
      assert ts[..|ts| - 1] + [ts[|ts| - 1]] == ts;
    }
  }

  /** Each piece is kept or dropped on its own: a blank piece anywhere drops out, the rest keep their order. */
  lemma BlankDropped(a: seq<string>, p: string, b: seq<string>)
    requires Text.Strip(p) == ""
    ensures Seqs.FlatMap(a + [p] + b, KeepPiece) == Seqs.FlatMap(a + b, KeepPiece)
  {
    assert KeepPiece(p) == [];
    assert Seqs.FlatMap(a + [p], KeepPiece) == Seqs.FlatMap(a, KeepPiece) by {
      assert (a + [p])[..|a|] == a;
    }
    Seqs.FlatMapAppend(a + [p], b, KeepPiece);
    Seqs.FlatMapAppend(a, b, KeepPiece);
  }

  /** Joining clean targets with commas and reading them back gives the same targets. */
  lemma TargetListJoin(ts: seq<string>)
    requires ts != []
    requires forall i :: 0 <= i < |ts| ==> Trimmed(ts[i]) && ',' !in ts[i]
    ensures TargetList(Text.Join(ts, ',')) == ts
  {
    assert Text.Split(Text.Join(ts, ','), ',') == ts by {
      Text.JoinSplit(ts, ',');
    }
    assert Seqs.FlatMap(ts, KeepPiece) == ts by {
      KeptTrimmed(ts);
    }
  }

  // ---------------------------------------------------------------------------------------------
  // Target shapes: IP address, IP range, CIDR network, anything else

  /** One to three decimal digits. */
  predicate Octet(p: string)
  {
    1 <= |p| <= 3 && forall i :: 0 <= i < |p| ==> Text.IsDigit(p[i])
  }

  /** The address pattern: four dot-separated groups of one to three digits. */
  predicate IsAddress(t: string)
  {
    var parts := Text.Split(t, '.');
    |parts| == 4 && forall i :: 0 <= i < 4 ==> Octet(parts[i])
  }

  /** `s` without its trailing spaces (spaces only, as the pattern's ` *`). */
  function DropTrailingBlanks(s: string): string
  {
    if |s| > 0 && s[|s| - 1] == ' ' then DropTrailingBlanks(s[..|s| - 1]) else s
  }

  /** `s` without its leading spaces. */
  function DropLeadingBlanks(s: string): (r: string)
    ensures |r| <= |s| && r == s[|s| - |r|..]
  {
    if |s| > 0 && s[0] == ' ' then DropLeadingBlanks(s[1..]) else s
  }

  /** The range pattern: an address, spaces, one dash, spaces, an address. */
  predicate IsRange(t: string)
  {
    var parts := Text.Split(t, '-');
    |parts| == 2 && IsAddress(DropTrailingBlanks(parts[0])) && IsAddress(DropLeadingBlanks(parts[1]))
  }

  /** The CIDR pattern: an address, a slash, one or two digits. */
  predicate IsNetwork(t: string)
  {
    var parts := Text.Split(t, '/');
    |parts| == 2 && IsAddress(parts[0]) && 1 <= |parts[1]| <= 2
    && forall i :: 0 <= i < |parts[1]| ==> Text.IsDigit(parts[1][i])
  }

  /** The three patterns, tried in this order. */
  const Shapes := MapNetworkTargets.Patterns(IsAddress, IsRange, IsNetwork)

  /** Joining pieces of digits leaves only digits and separators. */
  lemma {:induction false} JoinDigits(parts: seq<string>, sep: char)
    requires forall i, j :: 0 <= i < |parts| && 0 <= j < |parts[i]| ==> Text.IsDigit(parts[i][j])
    ensures forall k :: 0 <= k < |Text.Join(parts, sep)| ==> Text.IsDigit(Text.Join(parts, sep)[k]) || Text.Join(parts, sep)[k] == sep
  {
    if |parts| > 1 {
      JoinDigits(parts[1..], sep);
      var rest := Text.Join(parts[1..], sep);
      assert Text.Join(parts, sep) == parts[0] + [sep] + rest;
      assert forall k :: |parts[0]| < k < |Text.Join(parts, sep)| ==> Text.Join(parts, sep)[k] == rest[k - |parts[0]| - 1];
    }
  }

  /** An address is made of digits and dots only. */
  lemma AddressChars(t: string)
    requires IsAddress(t)
    ensures forall k :: 0 <= k < |t| ==> Text.IsDigit(t[k]) || t[k] == '.'
  {
    var parts := Text.Split(t, '.');
    Text.SplitJoin(t, '.');
    JoinDigits(parts, '.');
  }

  /** Text without the separator does not split. */
  lemma NoSplit(t: string, sep: char)
    requires forall k :: 0 <= k < |t| ==> Text.IsDigit(t[k]) || t[k] == '.' || t[k] == '/'
    requires sep != '.' && sep != '/' && !Text.IsDigit(sep)
    ensures |Text.Split(t, sep)| == 1
  {
    assert sep !in t;
    Text.SplitNoSep(t, sep);
  }

  /** At most one pattern matches a target, so the order they are tried in decides nothing. */
  lemma ShapesExclusive(t: string)
    ensures IsAddress(t) ==> !IsRange(t) && !IsNetwork(t)
    ensures IsRange(t) ==> !IsNetwork(t)
  {
    if IsAddress(t) {
      AddressChars(t);
      NoSplit(t, '-');
      assert '/' !in t;
      Text.SplitNoSep(t, '/');
    }
    if IsNetwork(t) {
      var parts := Text.Split(t, '/');
      Text.SplitJoin(t, '/');
      AddressChars(parts[0]);
      assert t == parts[0] + ['/'] + parts[1];
      assert forall k :: |parts[0]| < k < |t| ==> t[k] == parts[1][k - |parts[0]| - 1];
      NoSplit(t, '-');
    }
  }

  /** Each target is an address, a range, a network or a host name exactly when its own pattern matches. */
  lemma ClassifyShapes(t: string)
    ensures MapNetworkTargets.Classify(Shapes, t) == MapNetworkTargets.Address <==> IsAddress(t)
    ensures MapNetworkTargets.Classify(Shapes, t) == MapNetworkTargets.Range <==> IsRange(t)
    ensures MapNetworkTargets.Classify(Shapes, t) == MapNetworkTargets.Network <==> IsNetwork(t)
    ensures MapNetworkTargets.Classify(Shapes, t) == MapNetworkTargets.Hostname <==> !IsAddress(t) && !IsRange(t) && !IsNetwork(t)
  {
    MapNetworkTargets.ClassifyFirstMatch(Shapes, t);
    ShapesExclusive(t);
  }

  /** A range whose end is not a whole address (as `10.0.0.5-20`) is not a range here: it is taken as a host name. */
  lemma RelativeEndNotRange(start: string, end: string)
    requires '-' !in start && '-' !in end && '.' !in end
    ensures !IsRange(start + "-" + end)
  {
    Text.SplitAppendSep(start, '-', end);
    assert start + "-" + end == start + ['-'] + end;
    Text.SplitNoSep(start, '-');
    Text.SplitNoSep(end, '-');
    var e := DropLeadingBlanks(end);
    assert '.' !in e;
    Text.SplitNoSep(e, '.');
  }

  // ---------------------------------------------------------------------------------------------
  // Expansion into hosts

  /** The hosts one target stands for; a target the address library rejects is reported and stands for none. */
  function Expand(n: MapNetworkTargets.Netaddr, t: string): seq<string>
  {
    match MapNetworkTargets.Classify(Shapes, t)
    case Address => (var a := n.address(t); if a.Some? then [a.value] else [])
    case Range =>
      (var parts := Text.Split(t, '-');
       if |parts| < 2 then []
       else
         var hosts := n.range(Text.Strip(parts[0]), Text.Strip(parts[1]));
         if hosts.Some? then hosts.value else [])
    case Network => (var hosts := n.network(t); if hosts.Some? then hosts.value else [])
    case Hostname => [t]
  }

  /** The hosts of all targets, target by target, in order. */
  function Hosts(n: MapNetworkTargets.Netaddr, targets: seq<string>): seq<string>
  {
    Seqs.FlatMap(targets, t => Expand(n, t))
  }

  /** The loop that collects every target's hosts, skipping the ones the library rejects. */
  method ExpandTargets(n: MapNetworkTargets.Netaddr, targets: seq<string>) returns (all: seq<string>)
    ensures all == Hosts(n, targets)
  {
    all := [];
    var i := 0;
    while i < |targets|
      invariant i <= |targets|
      invariant all == Hosts(n, targets[..i])
    {
      all := all + Expand(n, targets[i]);
      assert targets[..i + 1][..i] == targets[..i];
      i := i + 1;
    }
    assert targets[..|targets|] == targets;
  }

  /** A rejected target drops out without stopping the ones after it. */
  lemma RejectedSkipped(n: MapNetworkTargets.Netaddr, a: seq<string>, bad: string, b: seq<string>)
    requires Expand(n, bad) == []
    ensures Hosts(n, a + [bad] + b) == Hosts(n, a + b)
  {
    Seqs.FlatMapAppend(a + [bad], b, t => Expand(n, t));
    Seqs.FlatMapAppend(a, [bad], t => Expand(n, t));
    Seqs.FlatMapAppend(a, b, t => Expand(n, t));
    assert Hosts(n, [bad]) == Hosts(n, []) + Expand(n, bad);
  }

  /** A target matching no address pattern is one host, taken as written. */
  lemma HostnameKept(n: MapNetworkTargets.Netaddr, t: string)
    requires !IsAddress(t) && !IsRange(t) && !IsNetwork(t)
    ensures Expand(n, t) == [t]
  {
    ClassifyShapes(t);
  }

  // ---------------------------------------------------------------------------------------------
  // Distribution

  /** Every `{}` of the command replaced by one host, one command per host. */
  function Substitute(command: string, hosts: seq<string>): (cs: seq<string>)
    ensures |cs| == |hosts|
  {
    seq(|hosts|, i requires 0 <= i < |hosts| => Text.ReplaceAll(command, "{}", hosts[i]))
  }

  /** A command holding one `{}` becomes, for each host, the command with that host in its place. */
  lemma SubstituteOnce(pre: string, post: string, hosts: seq<string>, i: nat)
    requires '{' !in pre && !Text.Contains(post, "{}") && i < |hosts|
    ensures Substitute(pre + "{}" + post, hosts)[i] == pre + hosts[i] + post
  {
    Text.ReplaceOnce(pre, "{}", post, hosts[i]);
  }

  /** How distributing a command ends. */
  datatype Distribution = Exit(code: int) | Crashed(error: Exceptions.PyError) | Sent(commands: seq<string>)

  /** The steps after the syntax matched, given the address library and the two answers to "Does this look correct?". */
  function DistributeParsed(p: Parsed, n: MapNetworkTargets.Netaddr, first: string, second: string): Distribution
  {
    var targets := TargetList(p.targets);
    var command := Text.Strip(p.command);
    if targets == [] || command == "" then Exit(1)
    else if !MapNetworkTargets.Confirmed(first) then Exit(2)
    else
      var all := Hosts(n, targets);
      if all == [] then Exit(1)
      else if !MapNetworkTargets.Confirmed(second) then Exit(2)
      else Sent(Substitute(command, all))
  }

  /** `distribute_command` as written: a text that does not fit the syntax fails on `.group` of `None`. */
  function DistributeAsWritten(s: string, n: MapNetworkTargets.Netaddr, first: string, second: string): (r: Distribution)
    ensures r.Crashed? <==> ParseSyntax(s).None?
    ensures !r.Crashed? ==> r == Distribute(s, n, first, second)
  {
    match ParseSyntax(s)
    case None => Crashed(Exceptions.AttributeError)
    case Some(p) => DistributeParsed(p, n, first, second)
  }

  /** `distribute_command` with a text that does not fit the syntax reported as missing targets: exit 1. */
  function Distribute(s: string, n: MapNetworkTargets.Netaddr, first: string, second: string): Distribution
  {
    match ParseSyntax(s)
    case None => Exit(1)
    case Some(p) => DistributeParsed(p, n, first, second)
  }

  /** The checks for missing groups can never fire on a match; a text that does not match crashes instead. */
  lemma MalformedCrashes(s: string, n: MapNetworkTargets.Netaddr, first: string, second: string)
    requires ParseSyntax(s).None?
    ensures DistributeAsWritten(s, n, first, second) == Crashed(Exceptions.AttributeError)
    ensures Distribute(s, n, first, second) == Exit(1)
  {
  }

  /** A command line without the keyword, as an operator might mistype it, crashes the client. */
  lemma MissingKeywordCrashes(n: MapNetworkTargets.Netaddr, first: string, second: string)
    ensures DistributeAsWritten("10.0.0.1 nmap {}", n, first, second) == Crashed(Exceptions.AttributeError)
  {
    KeywordNeeded("10.0.0.1 nmap {}");
  }

  /**
   * How distribution ends: exit 1 without targets or without hosts left after expansion, exit 2
   * when the operator declines, otherwise one command per host with `{}` replaced.
   */
  lemma DistributeOutcomes(s: string, n: MapNetworkTargets.Netaddr, first: string, second: string)
    requires ParseSyntax(s).Some?
    ensures var p := ParseSyntax(s).value; var targets := TargetList(p.targets);
      var d := Distribute(s, n, first, second);
      && (d == Exit(1) <==> targets == [] || (MapNetworkTargets.Confirmed(first) && Hosts(n, targets) == []))
      && (d == Exit(2) <==> targets != [] && (!MapNetworkTargets.Confirmed(first)
                                             || (Hosts(n, targets) != [] && !MapNetworkTargets.Confirmed(second))))
      && (d.Sent? <==> targets != [] && MapNetworkTargets.Confirmed(first) && MapNetworkTargets.Confirmed(second) && Hosts(n, targets) != [])
      && (d.Sent? ==> |d.commands| == |Hosts(n, targets)| >= 1)
      && (d.Sent? ==> forall i :: 0 <= i < |d.commands| ==>
                        d.commands[i] == Text.ReplaceAll(Text.Strip(p.command), "{}", Hosts(n, targets)[i]))
  {
    var p := ParseSyntax(s).value;
    assert Text.Strip(p.command) != "" by {
      ParsedCommandNotBlank(s);
    }
    DistributeParsedCodes(p, n, first, second);
    DistributeParsedCommands(p, n, first, second);
  }

  /** The exit codes, for the groups of a line that matched. */
  lemma DistributeParsedCodes(p: Parsed, n: MapNetworkTargets.Netaddr, first: string, second: string)
    requires Text.Strip(p.command) != ""
    ensures var targets := TargetList(p.targets);
      var d := DistributeParsed(p, n, first, second);
      && (d == Exit(1) <==> targets == [] || (MapNetworkTargets.Confirmed(first) && Hosts(n, targets) == []))
      && (d == Exit(2) <==> targets != [] && (!MapNetworkTargets.Confirmed(first)
                                             || (Hosts(n, targets) != [] && !MapNetworkTargets.Confirmed(second))))
      && (d.Sent? <==> targets != [] && MapNetworkTargets.Confirmed(first) && MapNetworkTargets.Confirmed(second) && Hosts(n, targets) != [])
  {
  }

  /** The commands sent, for the groups of a line that matched. */
  lemma DistributeParsedCommands(p: Parsed, n: MapNetworkTargets.Netaddr, first: string, second: string)
    ensures var targets := TargetList(p.targets);
      var d := DistributeParsed(p, n, first, second);
      && (d.Sent? ==> |d.commands| == |Hosts(n, targets)| >= 1)
      && (d.Sent? ==> forall i :: 0 <= i < |d.commands| ==>
                        d.commands[i] == Text.ReplaceAll(Text.Strip(p.command), "{}", Hosts(n, targets)[i]))
  {
    var d := DistributeParsed(p, n, first, second);
    if d.Sent? {
      var all := Hosts(n, TargetList(p.targets));
      assert all != [] && d == Sent(Substitute(Text.Strip(p.command), all));
    }
  }

  /** The steps of `distribute_command`: parse, split the targets, confirm, expand, confirm, substitute. */
  method DistributeCommand(s: string, n: MapNetworkTargets.Netaddr, first: string, second: string) returns (d: Distribution)
    ensures d == Distribute(s, n, first, second)
  {
    var parsed := ParseSyntax(s);
    if parsed.None? {
      return Exit(1);
    }
    var targets := SplitTargets(parsed.value.targets);
    var command := Text.Strip(parsed.value.command);
    if |targets| == 0 || command == "" {
      return Exit(1);
    }
    if !MapNetworkTargets.Confirmed(first) {
      return Exit(2);
    }
    var all := ExpandTargets(n, targets);
    if |all| == 0 {
      return Exit(1);
    }
    var commands := Substitute(command, all);
    if !MapNetworkTargets.Confirmed(second) {
      return Exit(2);
    }
    d := Sent(commands);
  }

  // ---------------------------------------------------------------------------------------------
  // Running a playbook by hand

  /** The details a manual run records. */
  const ManualDetails := Obj([Member("run_method", Str("manual"))])

  /** The key of the `i`-th extra argument, `arg{i}`. */
  function ArgKey(i: nat): string
  {
    "arg" + Text.NatToString(i)
  }

  /** The keys of the first `n` extra arguments, in order. */
  function ArgKeys(n: nat): seq<string>
  {
    if n == 0 then [] else ArgKeys(n - 1) + [ArgKey(n - 1)]
  }

  /** Different arguments get different keys, none of them a key of the base target. */
  lemma ArgKeyDistinct(i: nat, j: nat)
    ensures ArgKey(i) == ArgKey(j) ==> i == j
    ensures ArgKey(i) != "target_host" && ArgKey(i) != "details"
  {
    if ArgKey(i) == ArgKey(j) {
      assert ArgKey(i)[3..] == Text.NatToString(i);
      assert ArgKey(j)[3..] == Text.NatToString(j);
      Text.NatToStringValue(i);
      Text.NatToStringValue(j);
    }
    assert ArgKey(i)[0] == 'a';
  }

  /** The target of a manual run: the host, the manual run method, then each argument under `arg{i}`. */
  function ManualTarget(target: string, args: seq<string>): seq<Member>
  {
    if args == [] then [Member("target_host", Str(target)), Member("details", ManualDetails)]
    else Put(ManualTarget(target, args[..|args| - 1]), ArgKey(|args| - 1), Str(args[|args| - 1]))
  }

  /** The loop that stores the arguments one by one. */
  method BuildManualTarget(target: string, args: seq<string>) returns (t: seq<Member>)
    ensures t == ManualTarget(target, args)
  {
    t := [Member("target_host", Str(target)), Member("details", ManualDetails)];
    var i := 0;
    while i < |args|
      invariant i <= |args|
      invariant t == ManualTarget(target, args[..i])
    {
      t := Put(t, ArgKey(i), Str(args[i]));
      assert args[..i + 1][..i] == args[..i];
      i := i + 1;
    }
    assert args[..|args|] == args;
  }

  /** No argument overwrites another or the base members: the keys are the base keys, then `arg0`, `arg1`, ... */
  lemma {:induction false} ManualTargetKeys(target: string, args: seq<string>)
    ensures Keys(ManualTarget(target, args)) == ["target_host", "details"] + ArgKeys(|args|)
  {
    if args != [] {
      var k := |args| - 1;
      var prev := ManualTarget(target, args[..k]);
      ManualTargetKeys(target, args[..k]);
      ArgKeysLength(k);
      var ks := Keys(prev);
      ArgKeyDistinct(k, k);
      forall i | 0 <= i < |ks|
        ensures ks[i] != ArgKey(k)
      {
        if i >= 2 {
          ArgKeysAt(k, i - 2);
          ArgKeyDistinct(i - 2, k);
        }
      }
      PutKeys(prev, ArgKey(k), Str(args[k]));
    }
  }

  lemma {:induction false} ArgKeysAt(n: nat, i: nat)
    requires i < n
    ensures |ArgKeys(n)| == n && ArgKeys(n)[i] == ArgKey(i)
  {
    if i < n - 1 {
      ArgKeysAt(n - 1, i);
    } else {
      ArgKeysLength(n - 1);
    }
  }

  lemma {:induction false} ArgKeysLength(n: nat)
    ensures |ArgKeys(n)| == n
  {
    if n > 0 {
      ArgKeysLength(n - 1);
    }
  }

  /** The manual target holds the host, the manual run method and every argument under its own key. */
  lemma {:induction false} ManualTargetLookups(target: string, args: seq<string>)
    ensures var t := ManualTarget(target, args);
      && Lookup(t, "target_host") == Some(Str(target))
      && Lookup(t, "details") == Some(ManualDetails)
      && forall i :: 0 <= i < |args| ==> Lookup(t, ArgKey(i)) == Some(Str(args[i]))
  {
    if args == [] {
      BaseLookups(target);
    } else {
      var k := |args| - 1;
      ManualTargetLookups(target, args[..k]);
      ArgLookupStep(target, args);
    }
  }

  lemma BaseLookups(target: string)
    ensures var t := [Member("target_host", Str(target)), Member("details", ManualDetails)];
      Lookup(t, "target_host") == Some(Str(target)) && Lookup(t, "details") == Some(ManualDetails)
  {
    var t := [Member("target_host", Str(target)), Member("details", ManualDetails)];
    assert t[1..] == [Member("details", ManualDetails)];
  }

  /** Storing the last argument keeps what the earlier keys held. */
  lemma ArgLookupStep(target: string, args: seq<string>)
    requires args != []
    requires var t := ManualTarget(target, args[..|args| - 1]);
      && Lookup(t, "target_host") == Some(Str(target))
      && Lookup(t, "details") == Some(ManualDetails)
      && forall i :: 0 <= i < |args| - 1 ==> Lookup(t, ArgKey(i)) == Some(Str(args[..|args| - 1][i]))
    ensures var t := ManualTarget(target, args);
      && Lookup(t, "target_host") == Some(Str(target))
      && Lookup(t, "details") == Some(ManualDetails)
      && forall i :: 0 <= i < |args| ==> Lookup(t, ArgKey(i)) == Some(Str(args[i]))
  {
    var k := |args| - 1;
    var prev := ManualTarget(target, args[..k]);
    PutLookups(prev, ArgKey(k), Str(args[k]));
    ArgKeyDistinct(k, k);
    forall i | 0 <= i < k
      ensures Lookup(ManualTarget(target, args), ArgKey(i)) == Some(Str(args[i]))
    {
      ArgKeyDistinct(i, k);
      assert args[..k][i] == args[i];
    }
  }

  /** The module a playbook name is imported from. */
  function PlaybookModule(playbook: string): string
  {
    "radar.playbooks." + playbook
  }

  /** What a manual run leaves: the playbook's outcome, and the target as the playbook left it, sent to a collection. */
  datatype ManualRun = ManualRun(outcome: Automation.PlaybookOutcome, collection: string, sent: Json)

  /** Builds the manual target, runs the playbook on it and sends the target, whether or not the playbook raised. */
  method RunPlaybook(playbooks: Automation.PlaybookModules, playbook: string, target: string, args: seq<string>)
    returns (run: ManualRun)
    ensures run.outcome == playbooks(PlaybookModule(playbook), Obj(ManualTarget(target, args)))
    ensures run.collection == Constants.DefaultTargetCollection && run.sent == run.outcome.target
  {
    var manual := BuildManualTarget(target, args);
    var outcome := playbooks(PlaybookModule(playbook), Obj(manual));
    run := ManualRun(outcome, Constants.DefaultTargetCollection, outcome.target);
  }

  /** A playbook that raises before touching the target still has the whole manual target stored. */
  lemma FailedRunStillSent(playbooks: Automation.PlaybookModules, playbook: string, target: string, args: seq<string>,
                           run: ManualRun)
    requires run.outcome == playbooks(PlaybookModule(playbook), Obj(ManualTarget(target, args)))
    requires run.collection == Constants.DefaultTargetCollection && run.sent == run.outcome.target
    requires run.outcome.PlaybookRaised? && run.outcome.target == Obj(ManualTarget(target, args))
    ensures run.collection == "targets"
    ensures Get(run.sent, "target_host") == Some(Str(target)) && Get(run.sent, "details") == Some(ManualDetails)
    ensures forall i :: 0 <= i < |args| ==> Get(run.sent, ArgKey(i)) == Some(Str(args[i]))
  {
    ManualTargetLookups(target, args);
  }

  // ---------------------------------------------------------------------------------------------
  // Listings

  /** How a database is listed: `! ` before a protected one, `# ` before a restricted one, otherwise its bare name. */
  function DatabaseLabel(db: string): string
  {
    if db in Constants.ProtectedDatabases then "! " + db
    else if db in Constants.RestrictedDatabases then "# " + db
    else db
  }

  /** Each mark tells exactly which class a database is in. */
  lemma DatabaseLabelMarks(db: string)
    ensures DatabaseLabel(db) == "! " + db <==> db in Constants.ProtectedDatabases
    ensures DatabaseLabel(db) == "# " + db <==> db !in Constants.ProtectedDatabases && db in Constants.RestrictedDatabases
    ensures DatabaseLabel(db) == db <==> db !in Constants.ProtectedDatabases && db !in Constants.RestrictedDatabases
  {
    assert ("! " + db)[0] != ("# " + db)[0];
    assert |"! " + db| != |db| && |"# " + db| != |db|;
  }

  /** The lines for one database: its label, then each collection under `--- `. */
  function DatabaseBlock(db: string, collections: seq<string>): seq<string>
  {
    if collections == [] then [DatabaseLabel(db)]
    else DatabaseBlock(db, collections[..|collections| - 1]) + ["--- " + collections[|collections| - 1]]
  }

  /** Everything listed: each database's block, in the order of the structure. */
  function StructureLines(structure: seq<(string, seq<string>)>): seq<string>
  {
    Seqs.FlatMap(structure, (e: (string, seq<string>)) => DatabaseBlock(e.0, e.1))
  }

  /** A block is the label followed by one `--- ` line per collection, in order. */
  lemma {:induction false} DatabaseBlockLines(db: string, collections: seq<string>)
    ensures |DatabaseBlock(db, collections)| == |collections| + 1
    ensures DatabaseBlock(db, collections)[0] == DatabaseLabel(db)
    ensures forall i :: 0 <= i < |collections| ==> DatabaseBlock(db, collections)[i + 1] == "--- " + collections[i]
  {
    if collections != [] {
      var front := collections[..|collections| - 1];
      DatabaseBlockLines(db, front);
      assert forall i :: 0 <= i < |front| ==> front[i] == collections[i];
    }
  }

  /** The nested loops of `list_database_structure`, printing line by line. */
  method ListDatabaseStructure(structure: seq<(string, seq<string>)>) returns (lines: seq<string>)
    ensures lines == StructureLines(structure)
  {
    lines := [];
    var i := 0;
    while i < |structure|
      invariant i <= |structure|
      invariant lines == StructureLines(structure[..i])
    {
      var db := structure[i].0;
      var collections := structure[i].1;
      var block := [DatabaseLabel(db)];
      var j := 0;
      while j < |collections|
        invariant j <= |collections|
        invariant block == DatabaseBlock(db, collections[..j])
      {
        block := block + ["--- " + collections[j]];
        assert collections[..j + 1][..j] == collections[..j];
        j := j + 1;
      }
      assert collections[..|collections|] == collections;
      lines := lines + block;
      assert structure[..i + 1][..i] == structure[..i];
      i := i + 1;
    }
    assert structure[..|structure|] == structure;
  }

  /** `print(f"{prefix}{item}")` for each item: the collection list under `*  `, the mission list under `> `. */
  function Listing(prefix: string, items: seq<string>): (lines: seq<string>)
    ensures |lines| == |items|
  {
    seq(|items|, i requires 0 <= i < |items| => prefix + items[i])
  }

  /** The names read back from listed lines. */
  function Unlisted(prefix: string, lines: seq<string>): seq<string>
  {
    seq(|lines|, i requires 0 <= i < |lines| => if |prefix| <= |lines[i]| then lines[i][|prefix|..] else lines[i])
  }

  /** Every listed line is the prefix and the name, so the names can be read back. */
  lemma ListingRoundTrip(prefix: string, items: seq<string>)
    ensures Unlisted(prefix, Listing(prefix, items)) == items
  {
    forall i | 0 <= i < |items|
      ensures Unlisted(prefix, Listing(prefix, items))[i] == items[i]
    {
      assert (prefix + items[i])[|prefix|..] == items[i];
    }
  }

  /** `list_collections` and `list_missions`: the mission list comes under a heading. */
  function CollectionLines(collections: seq<string>): seq<string>
  {
    Listing("*  ", collections)
  }

  function MissionLines(missions: seq<string>): seq<string>
  {
    ["Available Missions w/ data"] + Listing("> ", missions)
  }

  // ---------------------------------------------------------------------------------------------
  // The command document

  /** `output.split("\n")[:-1]`, each line stripped: the lines written between the fences. */
  function OutputLines(output: string): (lines: seq<string>)
    ensures |lines| == Text.CountChar(output, '\n')
  {
    var parts := Text.Split(output, '\n');
    seq(|parts| - 1, i requires 0 <= i < |parts| - 1 => Text.Strip(parts[i]))
  }

  /** Output whose every line ends in a line break is documented line by line, each stripped. */
  lemma OutputOfLines(lines: seq<string>)
    requires forall i :: 0 <= i < |lines| ==> '\n' !in lines[i]
    ensures OutputLines(Text.Join(lines + [""], '\n')) == seq(|lines|, i requires 0 <= i < |lines| => Text.Strip(lines[i]))
  {
    var all := lines + [""];
    var parts := Text.Split(Text.Join(all, '\n'), '\n');
    assert parts == all by {
      assert forall i :: 0 <= i < |all| ==> '\n' !in all[i];
      Text.JoinSplit(all, '\n');
    }
    var r := OutputLines(Text.Join(all, '\n'));
    assert |r| == |lines|;
    forall i | 0 <= i < |lines| ensures r[i] == Text.Strip(lines[i]) {
      assert parts[i] == lines[i];
    }
  }

  /** A last line without a line break is not documented. */
  lemma UnterminatedLineLost(body: string, last: string)
    requires '\n' !in last
    ensures OutputLines(body + "\n" + last) == OutputLines(body + "\n")
  {
    Text.SplitAppendSep(body, '\n', last);
    Text.SplitAppendSep(body, '\n', "");
    Text.SplitNoSep(last, '\n');
    Text.SplitNoSep("", '\n');
    assert body + "\n" + last == body + ['\n'] + last;
    assert body + "\n" == body + ['\n'] + "";
  }

  /** Output without any line break leaves the fenced block empty. */
  lemma SingleLineLost(output: string)
    requires '\n' !in output
    ensures OutputLines(output) == []
  {
    Text.SplitNoSep(output, '\n');
  }

  /** How an f-string shows a field: `str()` of the value, `None` for a missing one; lists and dicts through `repr`. */
  function Shown(v: Option<Json>, repr: Json -> string): string
  {
    match v
    case None => "None"
    case Some(j) => if IsScalar(j) then PyStr(j) else repr(j)
  }

  /** What was written to the document, and the exception that stopped the writing, if any. */
  datatype Written = Written(text: string, error: Option<Exceptions.PyError>)

  /** Each documented line with its line break. */
  function Terminated(lines: seq<string>): string
  {
    Seqs.FlatMap(lines, (l: string) => l + "\n")
  }

  /** The metadata lines of a command record. */
  function Metadata(ms: seq<Member>, repr: Json -> string): string
  {
    "COMMAND $> " + Shown(Lookup(ms, "command"), repr) + "\n\n"
    + "Working Directory: " + Shown(Lookup(ms, "current_working_directory"), repr) + "\n\n"
    + "Executed on Host: " + Shown(Lookup(ms, "executed_on_host"), repr) + "\n\n"
    + "Executed on IP: " + Shown(Lookup(ms, "executed_on_ipaddr"), repr) + "\n\n"
  }

  /**
   * The section for command number `n`. `clock` renders a time stamp as local time, `None` where
   * the time library raises. A record that is not a dict fails on `.get`, an output that is not a
   * string fails on `.split`; what was written before stays written.
   */
  function Section(n: nat, item: Json, repr: Json -> string, clock: Option<Json> -> Option<string>): Written
  {
    var head := "## Command number " + Text.NatToString(n) + "\n\n";
    if !item.Obj? then Written(head, Some(Exceptions.AttributeError))
    else
      var ms := item.members;
      var meta := head + Metadata(ms, repr);
      var start := clock(Lookup(ms, "execution_time_start"));
      if start.None? then Written(meta, Some(Exceptions.TypeError))
      else
        var started := meta + "Command Started at: " + start.value + "\n\n";
        var end := clock(Lookup(ms, "execution_time_end"));
        if end.None? then Written(started, Some(Exceptions.TypeError))
        else
          var fenced := started + "Command Finished at: " + end.value + "\n\n"
            + "Command returned exit code: " + Shown(Lookup(ms, "command_return_code"), repr) + "\n\n"
            + "OUTPUT:\n" + "```\n";
          match Lookup(ms, "command_output")
          case Some(Str(output)) => Written(fenced + Terminated(OutputLines(output)) + "```\n" + "\n\n\n", None)
          case _ => Written(fenced, Some(Exceptions.AttributeError))
  }

  /** The document for the command records, numbered from 0; writing stops at the first exception. */
  function Document(items: seq<Json>, repr: Json -> string, clock: Option<Json> -> Option<string>): Written
  {
    if items == [] then Written("", None)
    else
      var front := Document(items[..|items| - 1], repr, clock);
      if front.error.Some? then front
      else
        var s := Section(|items| - 1, items[|items| - 1], repr, clock);
        Written(front.text + s.text, s.error)
  }

  /** Once a record has stopped the writing, later records add nothing. */
  lemma {:induction false} DocumentStops(a: seq<Json>, b: seq<Json>, repr: Json -> string, clock: Option<Json> -> Option<string>)
    requires Document(a, repr, clock).error.Some?
    ensures Document(a + b, repr, clock) == Document(a, repr, clock)
  {
    if b != [] {
      DocumentStops(a, b[..|b| - 1], repr, clock);
      assert (a + b)[..|a + b| - 1] == a + b[..|b| - 1];
    } else {
      assert a + b == a;
    }
  }

  /** Without an exception, the document is the sections of all records in order, the earlier text never rewritten. */
  lemma {:induction false} DocumentGrows(a: seq<Json>, b: seq<Json>, repr: Json -> string, clock: Option<Json> -> Option<string>)
    ensures |Document(a, repr, clock).text| <= |Document(a + b, repr, clock).text|
    ensures Document(a + b, repr, clock).text[..|Document(a, repr, clock).text|] == Document(a, repr, clock).text
  {
    if b != [] {
      DocumentGrows(a, b[..|b| - 1], repr, clock);
      assert (a + b)[..|a + b| - 1] == a + b[..|b| - 1];
    } else {
      assert a + b == a;
    }
  }

  /** The loop of `document_commands`, writing each record's section to the file in turn. */
  method DocumentCommands(items: seq<Json>, repr: Json -> string, clock: Option<Json> -> Option<string>)
    returns (written: Written)
    ensures written == Document(items, repr, clock)
  {
    var text := "";
    var i := 0;
    while i < |items|
      invariant i <= |items|
      invariant Document(items[..i], repr, clock) == Written(text, None)
    {
      var section := Section(i, items[i], repr, clock);
      text := text + section.text;
      assert items[..i + 1][..i] == items[..i];
      if section.error.Some? {
        DocumentStops(items[..i + 1], items[i + 1..], repr, clock);
        Seqs.TakeDrop(items, i + 1);
        return Written(text, section.error);
      }
      i := i + 1;
    }
    assert items[..|items|] == items;
    written := Written(text, None);
  }

  // ---------------------------------------------------------------------------------------------
  // Dispatch

  /** The parsed command line; each sub-command reads only its own arguments. */
  datatype Args = Args(
    command: string, distributed: string, playbook: string, target: string, playbookArgs: seq<string>,
    collection: string, database: Option<string>, mission: string, apiKey: string, superuser: bool,
    outputFilename: string)

  /** The handler a sub-command is routed to, with the arguments it is given. */
  datatype Action =
    | GetInfo
    | DistributeText(text: string)
    | ManualPlaybook(playbook: string, target: string, args: seq<string>)
    | ListCollections
    | ListDatabases
    | ReadData(collection: string, database: Option<string>)
    | ListMissions
    | JoinMission(mission: string)
    | CheckAuth
    | ModifyAuth(apiKey: string, superuser: bool, authorizing: bool)
    | WriteDocument(filename: string)
    | NoAction

  function Dispatch(args: Args): Action
  {
    match args.command
    case "info" => GetInfo
    case "distribute" => DistributeText(args.distributed)
    case "playbook" => ManualPlaybook(args.playbook, args.target, args.playbookArgs)
    case "collection-list" => ListCollections
    case "database-list" => ListDatabases
    case "get-data" => ReadData(args.collection, args.database)
    case "mission-list" => ListMissions
    case "mission-join" => JoinMission(args.mission)
    case "check-auth" => CheckAuth
    case "grant-auth" => ModifyAuth(args.apiKey, args.superuser, true)
    case "remove-auth" => ModifyAuth(args.apiKey, false, false)
    case "document-commands" => WriteDocument(args.outputFilename)
    case _ => NoAction
  }

  /** The sub-command an action answers to; `NoAction` answers to none. */
  function SubCommand(a: Action): string
  {
    match a
    case GetInfo => "info"
    case DistributeText(_) => "distribute"
    case ManualPlaybook(_, _, _) => "playbook"
    case ListCollections => "collection-list"
    case ListDatabases => "database-list"
    case ReadData(_, _) => "get-data"
    case ListMissions => "mission-list"
    case JoinMission(_) => "mission-join"
    case CheckAuth => "check-auth"
    case ModifyAuth(_, _, authorizing) => if authorizing then "grant-auth" else "remove-auth"
    case WriteDocument(_) => "document-commands"
    case NoAction => ""
  }

  /** Every known sub-command reaches the handler of that name; anything else does nothing. */
  lemma DispatchNames(args: Args)
    ensures Dispatch(args) != NoAction ==> SubCommand(Dispatch(args)) == args.command
    ensures Dispatch(args) == NoAction <==> args.command !in {"info", "distribute", "playbook", "collection-list",
      "database-list", "get-data", "mission-list", "mission-join", "check-auth", "grant-auth", "remove-auth",
      "document-commands"}
  {
  }

  /** Granting passes the superuser flag on; removing never makes a superuser and withdraws authorization. */
  lemma DispatchAuth(args: Args)
    ensures args.command == "grant-auth" ==> Dispatch(args) == ModifyAuth(args.apiKey, args.superuser, true)
    ensures args.command == "remove-auth" ==> Dispatch(args) == ModifyAuth(args.apiKey, false, false)
    ensures Dispatch(args).ModifyAuth? ==> args.command in {"grant-auth", "remove-auth"}
  {
  }
}

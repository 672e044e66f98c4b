/**
 * The map-network commander's first stage: the checks that end it before any work, and the
 * turning of its arguments into the list of hosts to scan.
 */
module MapNetworkTargets {
  import opened Optional
  import Text
  import Seqs

  /**
   * How the commander ends before doing any work: `Some(code)` is the exit code, `None` goes on.
   * `auth` is what the uplink answers when asked for the key's authorization (`None` for its
   * failure answer `False`).
   */
  function Precheck(args: seq<string>, auth: Option<string>): (r: Option<int>)
  {
    if args == [] then Some(1)
    else if auth.Some? && auth.value != "" && !Text.Contains(auth.value, "SU=True") then Some(3)
    else None
  }

  /** No arguments exits with 1; an authorization answer without the superuser flag exits with 3; nothing else stops it. */
  lemma PrecheckCodes(args: seq<string>, auth: Option<string>)
    ensures Precheck(args, auth) == Some(1) <==> args == []
    ensures Precheck(args, auth) == Some(3) <==> args != [] && auth.Some? && auth.value != "" && !Text.Contains(auth.value, "SU=True")
    ensures Precheck(args, auth).None? <==> args != [] && (auth.None? || auth.value == "" || Text.Contains(auth.value, "SU=True"))
  {
  }

  /** A failed or empty authorization answer does not stop the commander, whatever it lacks. */
  lemma UnknownAuthorizationGoesOn(args: seq<string>, auth: Option<string>)
    requires args != [] && (auth.None? || auth == Some(""))
    ensures Precheck(args, auth).None?
  {
  }

  /**
   * The operator's answer to "Does everything look correct? [Y/n]": stripped and lower-cased,
   * an empty answer or one starting with `y` goes on; anything else exits with 2.
   */
  predicate Confirmed(answer: string)
  {
    var v := Text.Strip(answer);
    v == [] || v[0] == 'y' || v[0] == 'Y'
  }

  /** What an argument is taken for; the first pattern it matches decides. */
  datatype Kind = Address | Range | Network | Hostname

  /** The address, range and CIDR patterns of the constants module (not part of this model), as tests on text. */
  datatype Patterns = Patterns(isAddress: string -> bool, isRange: string -> bool, isNetwork: string -> bool)

  function Classify(p: Patterns, t: string): (k: Kind)
  {
    if p.isAddress(t) then Address
    else if p.isRange(t) then Range
    else if p.isNetwork(t) then Network
    else Hostname
  }

  /** The first matching pattern wins; text matching none is a host name. */
  lemma ClassifyFirstMatch(p: Patterns, t: string)
    ensures Classify(p, t) == Address <==> p.isAddress(t)
    ensures Classify(p, t) == Range <==> !p.isAddress(t) && p.isRange(t)
    ensures Classify(p, t) == Network <==> !p.isAddress(t) && !p.isRange(t) && p.isNetwork(t)
    ensures Classify(p, t) == Hostname <==> !p.isAddress(t) && !p.isRange(t) && !p.isNetwork(t)
  {
  }

  /**
   * The address library: the text of a parsed address, the hosts of a range between two
   * addresses, the usable hosts of a network; `None` where the library raises.
   */
  datatype Netaddr = Netaddr(
    address: string -> Option<string>,
    range: (string, string) -> Option<seq<string>>,
    network: string -> Option<seq<string>>)

  /** `s.rsplit('.', n)[0]` when `s` holds at least `n` dots: the text before its `n`-th dot from the right. */
  function LeadingFields(s: string, n: nat): string
    requires n <= Text.CountChar(s, '.')
  {
    var parts := Text.Split(s, '.');
    Text.Join(parts[..|parts| - n], '.')
  }

  /** The end of a range written relative to its start (`10.0.0.5-20`) completed with the start's leading octets. */
  function RelativeRangeEnd(start: string, end: string): string
  {
    var d, e := Text.CountChar(start, '.'), Text.CountChar(end, '.');
    if d > e then LeadingFields(start, e + 1) + "." + end else end
  }

  /**
   * A relative end keeps its own fields and takes the leading fields of the start it lacks, so it
   * ends up with as many dots as the start; an end with as many dots as the start or more is kept.
   */
  lemma RelativeRangeEndFields(start: string, end: string)
    ensures var d, e := Text.CountChar(start, '.'), Text.CountChar(end, '.');
      var r := RelativeRangeEnd(start, end);
      (d > e ==> Text.Split(r, '.') == Text.Split(start, '.')[..d - e] + Text.Split(end, '.')
                 && Text.CountChar(r, '.') == d)
      && (d <= e ==> r == end)
  {
    var d, e := Text.CountChar(start, '.'), Text.CountChar(end, '.');
    if d > e {
      var parts := Text.Split(start, '.');
      var lead := parts[..d - e];
      var j := Text.Join(lead, '.');
      var r := RelativeRangeEnd(start, end);
      assert r == j + ['.'] + end by {
        assert lead == parts[..|parts| - (e + 1)];
        assert j + "." + end == j + ['.'] + end;
      }
      assert Text.Split(j, '.') == lead by {
        Text.JoinSplit(lead, '.');
      }
      assert Text.Split(r, '.') == lead + Text.Split(end, '.') by {
        Text.SplitAppendSep(j, '.', end);
      }
    }
  }

  /** A dotted quad's end octet written alone takes the quad's three leading octets. */
  lemma RelativeRangeEndOctets(a: string, b: string, c: string, x: string, y: string)
    requires '.' !in a && '.' !in b && '.' !in c && '.' !in x && '.' !in y
    ensures RelativeRangeEnd(a + "." + b + "." + c + "." + x, y) == a + "." + b + "." + c + "." + y
  {
    var start := a + "." + b + "." + c + "." + x;
    assert Text.Split(start, '.') == [a, b, c, x] by {
      QuadShape(a, b, c, x);
      Text.SplitNoSep(x, '.');
      Text.SplitNoSep(c, '.');
      Text.SplitAppendSep(c, '.', x);
      Text.SplitNoSep(b, '.');
      Text.SplitAppendSep(b, '.', c + ['.'] + x);
      Text.SplitNoSep(a, '.');
      Text.SplitAppendSep(a, '.', b + ['.'] + (c + ['.'] + x));
    }
    assert Text.CountChar(y, '.') == 0 by {
      Text.SplitNoSep(y, '.');
    }
    assert LeadingFields(start, 1) == a + "." + b + "." + c by {
      assert Text.Split(start, '.')[..3] == [a, b, c];
      assert [a, b, c][1..] == [b, c];
      assert [b, c][1..] == [c];
      assert Text.Join([b, c], '.') == b + ['.'] + c;
      assert Text.Join([a, b, c], '.') == a + ['.'] + (b + ['.'] + c);
      assert a + "." + b + "." + c == a + ['.'] + (b + ['.'] + c);
    }
  }

  lemma QuadShape(a: string, b: string, c: string, x: string)
    ensures a + "." + b + "." + c + "." + x == a + ['.'] + (b + ['.'] + (c + ['.'] + x))
  {
  }

  /** The relative end of the usage text's example range. */
  lemma RelativeRangeEndExample()
    ensures RelativeRangeEnd("10.0.0.5", "20") == "10.0.0.20"
  {
    RelativeRangeEndOctets("10", "0", "0", "5", "20");
    assert "10" + "." + "0" + "." + "0" + "." + "5" == "10.0.0.5";
    assert "10" + "." + "0" + "." + "0" + "." + "20" == "10.0.0.20";
  }

  /** The two ends of a range argument: the stripped pieces around its first two dashes, the end completed; `None` without a dash. */
  function RangeEnds(t: string): Option<(string, string)>
  {
    var parts := Text.Split(t, '-');
    if |parts| < 2 then None
    else
      var start := Text.Strip(parts[0]);
      Some((start, RelativeRangeEnd(start, Text.Strip(parts[1]))))
  }

  /** The hosts one argument stands for; an argument the library rejects stands for none. */
  function Expand(p: Patterns, n: Netaddr, t: string): seq<string>
  {
    match Classify(p, t)
    case Address => (var a := n.address(t); if a.Some? then [a.value] else [])
    case Range =>
      (var ends := RangeEnds(t);
       if ends.None? then []
       else var hosts := n.range(ends.value.0, ends.value.1); if hosts.Some? then hosts.value else [])
    case Network => (var hosts := n.network(t); if hosts.Some? then hosts.value else [])
    case Hostname => [t]
  }

  /** The hosts of all arguments, argument by argument, in order. */
  function AllTargets(p: Patterns, n: Netaddr, args: seq<string>): seq<string>
  {
    if args == [] then [] else Expand(p, n, args[0]) + AllTargets(p, n, args[1..])
  }

  /** Each argument contributes its hosts independently: a rejected one drops out without stopping the others. */
  lemma {:induction false} AllTargetsAppend(p: Patterns, n: Netaddr, a: seq<string>, b: seq<string>)
    ensures AllTargets(p, n, a + b) == AllTargets(p, n, a) + AllTargets(p, n, b)
  {
    if a == [] {
      assert a + b == b;
    } else {
      var c := a + b;
      assert c != [] && c[0] == a[0] && c[1..] == a[1..] + b;
      var e := Expand(p, n, a[0]);
      assert AllTargets(p, n, c) == e + AllTargets(p, n, c[1..]);
      AllTargetsAppend(p, n, a[1..], b);
      Seqs.AppendAssoc(e, AllTargets(p, n, a[1..]), AllTargets(p, n, b));
    }
  }

  /** Arguments matching no address pattern are scanned as given, in order. */
  lemma {:induction false} HostnamesKept(p: Patterns, n: Netaddr, args: seq<string>)
    requires forall i :: 0 <= i < |args| ==> Classify(p, args[i]) == Hostname
    ensures AllTargets(p, n, args) == args
  {
    if args != [] {
      HostnamesKept(p, n, args[1..]);
    }
  }

  /** The loop that collects the hosts of every argument. */
  method Tokenise(p: Patterns, n: Netaddr, args: seq<string>) returns (targets: seq<string>)
    ensures targets == AllTargets(p, n, args)
  {
    targets := [];
    var i := 0;
    while i < |args|
      invariant i <= |args|
      invariant targets + AllTargets(p, n, args[i..]) == AllTargets(p, n, args)
    {
      assert args[i..][1..] == args[i + 1..];
      Seqs.AppendAssoc(targets, Expand(p, n, args[i]), AllTargets(p, n, args[i + 1..]));
      targets := targets + Expand(p, n, args[i]);
      i := i + 1;
    }
    assert targets + [] == targets;
  }

  /**
   * How the commander ends once its arguments are classified: exit 2 when the operator does not
   * confirm them, exit 1 when no argument yields a host; `None` goes on to the scans.
   */
  function TargetsEnd(p: Patterns, n: Netaddr, args: seq<string>, answer: string): (r: Option<int>)
  {
    if !Confirmed(answer) then Some(2)
    else if AllTargets(p, n, args) == [] then Some(1)
    else None
  }

  /** A refusal exits with 2 before anything is expanded; an empty expansion exits with 1; nothing else stops it. */
  lemma TargetsEndCodes(p: Patterns, n: Netaddr, args: seq<string>, answer: string)
    ensures TargetsEnd(p, n, args, answer) == Some(2) <==> !Confirmed(answer)
    ensures TargetsEnd(p, n, args, answer) == Some(1) <==> Confirmed(answer) && AllTargets(p, n, args) == []
    ensures TargetsEnd(p, n, args, answer).None? <==> Confirmed(answer) && AllTargets(p, n, args) != []
  {
  }

  /** An argument taken for a host name is always scanned, so a confirmed run holding one never exits with 1. */
  lemma {:induction false} HostnameGoesOn(p: Patterns, n: Netaddr, args: seq<string>, i: nat, answer: string)
    requires i < |args| && Classify(p, args[i]) == Hostname && Confirmed(answer)
    ensures args[i] in AllTargets(p, n, args)
    ensures TargetsEnd(p, n, args, answer).None?
  {
    AllTargetsAppend(p, n, args[..i], args[i..]);
    assert args[..i] + args[i..] == args;
    assert args[i..][0] == args[i] && args[i..][1..] == args[i + 1..];
    assert AllTargets(p, n, args[i..]) == [args[i]] + AllTargets(p, n, args[i + 1..]);
  }

  /**
   * The commander's first stage, in source order: the argument and authorization checks, the
   * operator's confirmation, the expansion, and the empty-expansion check. `exit` is the exit
   * code when the commander stops; otherwise `targets` are the hosts the scans run on.
   */
  method Start(p: Patterns, n: Netaddr, args: seq<string>, auth: Option<string>, answer: string)
    returns (exit: Option<int>, targets: seq<string>)
    ensures exit == (if Precheck(args, auth).Some? then Precheck(args, auth) else TargetsEnd(p, n, args, answer))
    ensures exit.None? ==> targets == AllTargets(p, n, args) && targets != []
    ensures exit.Some? ==> exit.value in {1, 2, 3}
  {
    targets := [];
    exit := Precheck(args, auth);
    if exit.Some? {
      return;
    }
    if !Confirmed(answer) {
      return Some(2), [];
    }
    targets := Tokenise(p, n, args);
    if |targets| == 0 {
      exit := Some(1);
    }
  }
}

/**
 * The nmap parser: it reads the text nmap prints, line by line, into a list of target dicts
 * (`target_host`, `services`, `details`) and a metadata dict, then asks the host prioritiser for
 * each target's value and type and stamps the parse time.
 */
module NmapParser {
  import opened Optional
  import opened JsonModel
  import Text
  import Prioritizer
  import Exceptions
  import Commands
  import Automation

  // ---------------------------------------------------------------------------------------------
  // Data

  /** A target dict while it is being built: its host, its service dicts and its details dict. */
  datatype Target = Target(host: string, services: seq<Json>, details: seq<Member>)

  /** The target as the dict the parser returns, keys in insertion order. */
  function TargetJson(t: Target): (j: Json)
    ensures j.Obj? && Keys(j.members) == ["target_host", "services", "details"]
  {
    Obj([Member("target_host", Str(t.host)), Member("services", Arr(t.services)), Member("details", Obj(t.details))])
  }

  /**
   * The line loop's state: the target list, and the metadata entries besides `targets` (the
   * source's metadata dict holds the target list itself under `targets`, first).
   */
  datatype State = State(targets: seq<Target>, totals: seq<Member>)

  const Empty := State([], [])

  // ---------------------------------------------------------------------------------------------
  // Tokens

  /** The longest prefix of `s` whose characters all satisfy `p` (a greedy character-class run). */
  function Span(s: string, p: char -> bool): (r: string)
    ensures |r| <= |s| && r == s[..|r|]
    ensures forall i :: 0 <= i < |r| ==> p(r[i])
    ensures |r| == |s| || !p(s[|r|])
  {
    if s != [] && p(s[0]) then [s[0]] + Span(s[1..], p) else []
  }

  predicate IsLower(c: char) { 'a' <= c <= 'z' }

  predicate NonSpace(c: char) { !Text.IsSpace(c) }

  /** `[0-9.]`. */
  predicate IsNumChar(c: char) { Text.IsDigit(c) || c == '.' }

  predicate HasPrefix(s: string, pre: string)
  {
    |pre| <= |s| && s[..|pre|] == pre
  }

  /** The groups of a port line: port, protocol, state, service, version ("" for a group that is absent). */
  datatype PortInfo = PortInfo(port: string, protocol: string, state: string, service: string, version: string)

  /**
   * The port-line pattern: digits, `/`, lower-case letters, whitespace, then the state up to the
   * next whitespace, then optionally the service up to the next whitespace, then optionally the
   * version, which is everything after the whitespace that follows the service.
   */
  function PortFields(line: string): (r: Option<PortInfo>)
    ensures r.Some? ==> Prioritizer.Digits(r.value.port)
  {
    var port := Span(line, Text.IsDigit);
    if port == [] then None else AfterPort(port, line[|port|..])
  }

  /** `/` and the protocol letters after the port. */
  function AfterPort(port: string, r1: string): (r: Option<PortInfo>)
    ensures r.Some? ==> r.value.port == port
  {
    if r1 == [] || r1[0] != '/' then None
    else
      var protocol := Span(r1[1..], IsLower);
      AfterProtocol(port, protocol, r1[1 + |protocol|..])
  }

  /** The whitespace after the protocol, then the columns. */
  function AfterProtocol(port: string, protocol: string, r2: string): (r: Option<PortInfo>)
    ensures r.Some? ==> r.value.port == port
  {
    if protocol == [] || r2 == [] || !Text.IsSpace(r2[0]) then None
    else
      var c := Columns(Text.LStrip(r2));
      Some(PortInfo(port, protocol, c.0, c.1, c.2))
  }

  /** After the protocol's whitespace: the state word, then the service word, then the rest as the version. */
  function Columns(r3: string): (string, string, string)
  {
    var state := Span(r3, NonSpace);
    var r4 := Text.LStrip(r3[|state|..]);
    var service := Span(r4, NonSpace);
    (state, service, Text.LStrip(r4[|service|..]))
  }

  /** The service dict of a port line: `service` and `version` only when non-empty. */
  function ServiceJson(p: PortInfo): Json
  {
    Obj([Member("port", Str(p.port)), Member("protocol", Str(p.protocol)), Member("state", Str(p.state))]
        + (if p.service != "" then [Member("service", Str(p.service))] else [])
        + (if p.version != "" then [Member("version", Str(p.version))] else []))
  }

  /** The MAC line: the text after the first `:`, stripped, split once at a space; the vendor loses its brackets. */
  function MacFields(line: string): Option<(string, string)>
  {
    var parts := Text.SplitMax(line, ':', 1);
    if |parts| < 2 then None
    else
      var pair := Text.SplitMax(Text.Strip(parts[1]), ' ', 1);
      if |pair| < 2 then None else Some((pair[0], Text.Inner(pair[1])))
  }

  /** `[0-9.]+ ` followed by anything: what the duration group accepts. */
  predicate IsDuration(d: string)
  {
    var n := Span(d, IsNumChar);
    n != [] && |n| < |d| && d[|n|] == ' '
  }

  /** The lazy `.*?scanned in (...)$`: the text after the first `scanned in ` that a duration follows. */
  function Duration(s: string): (r: Option<string>)
    ensures r.Some? ==> IsDuration(r.value)
    decreases |s|
  {
    if HasPrefix(s, "scanned in ") && IsDuration(s[11..]) then Some(s[11..])
    else if s == [] then None
    else Duration(s[1..])
  }

  /** The summary line: total scanned, total online, and the duration text. */
  function DoneFields(line: string): Option<(string, string, string)>
  {
    if !HasPrefix(line, "Nmap done: ") then None
    else
      var r1 := line[11..];
      var scanned := Span(r1, Text.IsDigit);
      var r2 := r1[|scanned|..];
      if scanned == [] || !HasPrefix(r2, " IP address") then None
      else AfterAddress(scanned, r2[11..])
  }

  /** After `IP address`: an optional `es`, ` (`, the number online, then the duration. */
  function AfterAddress(scanned: string, r3: string): Option<(string, string, string)>
  {
    var r4 := if HasPrefix(r3, "es") then r3[2..] else r3;
    if !HasPrefix(r4, " (") then None
    else
      var r5 := r4[2..];
      var online := Span(r5, Text.IsDigit);
      if online == [] then None
      else
        match Duration(r5[|online|..])
        case None => None
        case Some(d) => Some((scanned, online, d))
  }

  // ---------------------------------------------------------------------------------------------
  // The line loop

  /** `target_list[len(target_list)-1]['details'][k] = v`. */
  function SetDetail(st: State, k: string, v: Json): (r: State)
    requires st.targets != []
    ensures |r.targets| == |st.targets| && r.totals == st.totals
  {
    var n := |st.targets| - 1;
    var t := st.targets[n];
    st.(targets := st.targets[..n] + [t.(details := Put(t.details, k, v))])
  }

  /** `target_list[len(target_list)-1]['services'].append(svc)`. */
  function AddService(st: State, svc: Json): (r: State)
    requires st.targets != []
    ensures |r.targets| == |st.targets| && r.totals == st.totals
  {
    var n := |st.targets| - 1;
    var t := st.targets[n];
    st.(targets := st.targets[..n] + [t.(services := t.services + [svc])])
  }

  /** Which branch of the chain a stripped line takes: the first whose key text occurs in it. */
  datatype LineKind = Blank | Report | HostIs | Port | Distance | Mac | Done | Other

  function Kind(line: string): LineKind
  {
    if line == "" then Blank
    else if Text.Contains(line, "scan report for") then Report
    else if Text.Contains(line, "Host is") then HostIs
    else if Text.Contains(line, "/tcp") || Text.Contains(line, "/udp") then Port
    else if Text.Contains(line, "Network Distance") then Distance
    else if Text.Contains(line, "MAC Address") then Mac
    else if Text.Contains(line, "Nmap done") then Done
    else Other
  }

  /** A report line: the fifth space-separated word starts a new target. */
  function ReportStep(st: State, line: string): State
  {
    var words := Text.Split(line, ' ');
    if |words| < 5 then st else st.(targets := st.targets + [Target(words[4], [], [])])
  }

  /** A `Host is` line: `status` is set before `latency`'s missing word can raise. */
  function HostStep(st: State, line: string): State
  {
    var words := Text.Split(line, ' ');
    if |words| < 3 || st.targets == [] then st
    else
      var st1 := SetDetail(st, "status", Str(words[2]));
      if |words| < 4 then st1 else SetDetail(st1, "latency", Str(Text.Inner(words[3])))
  }

  /** A port line that fits the pattern adds a service to the latest target. */
  function PortStep(st: State, line: string): State
  {
    match PortFields(line)
    case None => st
    case Some(p) => if st.targets == [] then st else AddService(st, ServiceJson(p))
  }

  /** A `Network Distance` line as written: the second word becomes `hop_distance`. */
  function DistanceStepAsWritten(st: State, line: string): (r: State)
    ensures LatestOnly(st, r) && r.totals == st.totals
  {
    var words := Text.Split(line, ' ');
    if |words| < 2 || st.targets == [] then st
    else
      SetDetailLatest(st, "hop_distance", Str(words[1]));
      SetDetail(st, "hop_distance", Str(words[1]))
  }

  /**
   * A `Network Distance` line as intended: the third word, the hop count, becomes `hop_distance`.
   * A line with fewer words fails on the index and is skipped like a line without a target.
   */
  function DistanceStep(st: State, line: string): (r: State)
    ensures LatestOnly(st, r) && r.totals == st.totals
  {
    var words := Text.Split(line, ' ');
    if |words| < 3 || st.targets == [] then st
    else
      SetDetailLatest(st, "hop_distance", Str(words[2]));
      SetDetail(st, "hop_distance", Str(words[2]))
  }

  /** A `MAC Address` line: address and vendor together, or neither. */
  function MacStep(st: State, line: string): State
  {
    match MacFields(line)
    case None => st
    case Some((mac, vendor)) =>
      if st.targets == [] then st
      else SetDetail(SetDetail(st, "mac_address", Str(mac)), "mac_address_vendor", Str(vendor))
  }

  /** An `Nmap done` line that fits the pattern sets the three totals in the metadata. */
  function DoneStep(st: State, line: string): (r: State)
    ensures r.targets == st.targets
  {
    match DoneFields(line)
    case None => st
    case Some((scanned, online, duration)) => st.(totals := SetTotals(st.totals, scanned, online, duration))
  }

  /**
   * One line of output: stripped, blank skipped, then the first branch of the chain whose key
   * text occurs. An index error (too few words, or no target yet) abandons the rest of the line.
   */
  function Step(st: State, raw: string): State
  {
    var line := Text.Strip(raw);
    match Kind(line)
    case Report => ReportStep(st, line)
    case HostIs => HostStep(st, line)
    case Port => PortStep(st, line)
    case Distance => DistanceStep(st, line)
    case Mac => MacStep(st, line)
    case Done => DoneStep(st, line)
    case _ => st
  }

  function SetTotals(ms: seq<Member>, scanned: string, online: string, duration: string): seq<Member>
  {
    Put(Put(Put(ms, "total_scanned", Str(scanned)), "total_online", Str(online)), "scan_duration", Str(duration))
  }

  /** The loop over all lines, in order. */
  function ParseLines(lines: seq<string>): State
  {
    if lines == [] then Empty else Step(ParseLines(lines[..|lines| - 1]), lines[|lines| - 1])
  }

  // ---------------------------------------------------------------------------------------------
  // After the loop

  /** The target after `details.update({"value": ..., "host_type": ...})`. */
  function Rate(t: Target, info: Prioritizer.Info): Target
  {
    t.(details := Put(Put(t.details, "value", Str(info.value)), "host_type", Str(info.hostType)))
  }

  /** The prioritiser loop, in list order; its first exception escapes the parser. */
  function RateAll(ts: seq<Target>): (r: Exceptions.Result<seq<Target>>)
    ensures r.Ok? ==> |r.value| == |ts|
  {
    if ts == [] then Exceptions.Ok([])
    else
      match RateAll(ts[..|ts| - 1])
      case Raise(e) => Exceptions.Raise(e)
      case Ok(done) =>
        match Prioritizer.InfoOf(TargetJson(ts[|ts| - 1]).members)
        case Raise(e) => Exceptions.Raise(e)
        case Ok(info) => Exceptions.Ok(done + [Rate(ts[|ts| - 1], info)])
  }

  /** The target after `details["scan_time"] = now`. */
  function Stamp(t: Target, now: int): Target
  {
    t.(details := Put(t.details, "scan_time", Int(now)))
  }

  function Finals(ts: seq<Target>, now: int): (r: seq<Json>)
    ensures |r| == |ts|
  {
    seq(|ts|, i requires 0 <= i < |ts| => TargetJson(Stamp(ts[i], now)))
  }

  /** The metadata dict and the target list the parser returns. */
  datatype Parsed = Parsed(metadata: seq<Member>, targets: seq<Json>)

  /** `run(command)` with `now` for the clock. */
  function Parse(output: string, now: int): (r: Exceptions.Result<Parsed>)
    ensures r.Ok? ==> |r.value.targets| == |ParseLines(Text.Split(output, '\n')).targets|
    ensures r.Ok? ==> |r.value.metadata| >= 1 && r.value.metadata[0] == Member("targets", Arr(r.value.targets))
  {
    var st := ParseLines(Text.Split(output, '\n'));
    match RateAll(st.targets)
    case Raise(e) => Exceptions.Raise(e)
    case Ok(ts) =>
      var finals := Finals(ts, now);
      Exceptions.Ok(Parsed([Member("targets", Arr(finals))] + st.totals, finals))
  }

  /** What the parser manager receives: a raised TypeError is its "bad signature" case, an AttributeError its "missing attribute". */
  function Outcome(c: Commands.Command, now: int): Option<Automation.ParserOutcome>
  {
    match Parse(c.output, now)
    case Ok(p) => Some(Automation.Parsed(Obj(p.metadata), p.targets))
    case Raise(TypeError) => Some(Automation.ParserRaised(Automation.BadSignature))
    case Raise(AttributeError) => Some(Automation.ParserRaised(Automation.MissingAttribute))
    case Raise(ValueError) => None
  }

  // ---------------------------------------------------------------------------------------------
  // The parser as the source runs it

  /** `run(command)`: the line loop, the prioritiser loop and the time stamp loop. */
  method Run(c: Commands.Command, now: int) returns (r: Exceptions.Result<Parsed>)
    ensures r == Parse(c.output, now)
  {
    var targets, totals := ReadLines(Text.Split(c.output, '\n'));
    var rated := RateTargets(targets);
    if rated.Raise? {
      return Exceptions.Raise(rated.error);
    }
    var finals := StampTargets(rated.value, now);
    r := Exceptions.Ok(Parsed([Member("targets", Arr(finals))] + totals, finals));
  }

  /** The line loop: each line updates the target list and the metadata in place. */
  method ReadLines(lines: seq<string>) returns (targets: seq<Target>, totals: seq<Member>)
    ensures State(targets, totals) == ParseLines(lines)
  {
    targets, totals := [], [];
    var i := 0;
    while i < |lines|
      invariant 0 <= i <= |lines|
      invariant State(targets, totals) == ParseLines(lines[..i])
    {
      assert lines[..i + 1][..i] == lines[..i];
      targets, totals := ParseLine(targets, totals, lines[i]);
      i := i + 1;
    }
    assert lines[..|lines|] == lines;
  }

  /** The prioritiser loop: the first exception leaves the parser. */
  method RateTargets(targets: seq<Target>) returns (r: Exceptions.Result<seq<Target>>)
    ensures r == RateAll(targets)
  {
    var rated: seq<Target> := [];
    var j := 0;
    while j < |targets|
      invariant 0 <= j <= |targets|
      invariant RateAll(targets[..j]) == Exceptions.Ok(rated)
    {
      assert targets[..j + 1][..j] == targets[..j];
      var info := Prioritizer.GetInfo(TargetJson(targets[j]).members);
      if info.Raise? {
        RateAllStops(targets, j + 1);
        return Exceptions.Raise(info.error);
      }
      rated := rated + [Rate(targets[j], info.value)];
      j := j + 1;
    }
    assert targets[..|targets|] == targets;
    r := Exceptions.Ok(rated);
  }

  /** The time stamp loop. */
  method StampTargets(rated: seq<Target>, now: int) returns (finals: seq<Json>)
    ensures finals == Finals(rated, now)
  {
    finals := [];
    var k := 0;
    while k < |rated|
      invariant 0 <= k <= |rated|
      invariant finals == Finals(rated[..k], now)
    {
      finals := finals + [TargetJson(Stamp(rated[k], now))];
      k := k + 1;
    }
    assert rated[..|rated|] == rated;
  }

  /** The body of the line loop: the `if`/`elif` chain on one line, updating the latest target in place. */
  method ParseLine(targets: seq<Target>, totals: seq<Member>, raw: string) returns (targets': seq<Target>, totals': seq<Member>)
    ensures State(targets', totals') == Step(State(targets, totals), raw)
  {
    targets', totals' := targets, totals;
    var line := Text.Strip(raw);
    var kind := Kind(line);
    if kind == Report {
      targets' := ParseReportLine(targets, totals, line);
    } else if kind == HostIs {
      targets' := ParseHostLine(targets, totals, line);
    } else if kind == Port {
      targets' := ParsePortLine(targets, totals, line);
    } else if kind == Distance {
      targets' := ParseDistanceLine(targets, totals, line);
    } else if kind == Mac {
      targets' := ParseMacLine(targets, totals, line);
    } else if kind == Done {
      totals' := ParseDoneLine(targets, totals, line);
    }
  }

  /** The `Nmap scan report for` branch: a new target named by the fifth word. */
  method ParseReportLine(targets: seq<Target>, totals: seq<Member>, line: string) returns (targets': seq<Target>)
    ensures State(targets', totals) == ReportStep(State(targets, totals), line)
  {
    targets' := targets;
    var words := Text.Split(line, ' ');
    if |words| >= 5 {
      targets' := targets + [Target(words[4], [], [])];
    }
  }

  /** A port line: its service appended to the latest target. */
  method ParsePortLine(targets: seq<Target>, totals: seq<Member>, line: string) returns (targets': seq<Target>)
    ensures State(targets', totals) == PortStep(State(targets, totals), line)
  {
    targets' := targets;
    var n := |targets| - 1;
    var p := PortFields(line);
    if p.Some? && targets != [] {
      targets' := targets[..n] + [targets[n].(services := targets[n].services + [ServiceJson(p.value)])];
    }
  }

  /** The `Network Distance` branch: the hop count set on the latest target. */
  method ParseDistanceLine(targets: seq<Target>, totals: seq<Member>, line: string) returns (targets': seq<Target>)
    ensures State(targets', totals) == DistanceStep(State(targets, totals), line)
  {
    targets' := targets;
    var n := |targets| - 1;
    var words := Text.Split(line, ' ');
    if |words| >= 3 && targets != [] {
      targets' := targets[..n] + [targets[n].(details := Put(targets[n].details, "hop_distance", Str(words[2])))];
    }
  }

  /** The `Nmap done` branch: the three totals. */
  method ParseDoneLine(targets: seq<Target>, totals: seq<Member>, line: string) returns (totals': seq<Member>)
    ensures State(targets, totals') == DoneStep(State(targets, totals), line)
  {
    totals' := totals;
    var f := DoneFields(line);
    if f.Some? {
      totals' := SetTotals(totals, f.value.0, f.value.1, f.value.2);
    }
  }

  /** The `Host is` branch: the status, then the latency, each set on the latest target. */
  method ParseHostLine(targets: seq<Target>, totals: seq<Member>, line: string) returns (targets': seq<Target>)
    ensures State(targets', totals) == HostStep(State(targets, totals), line)
  {
    targets' := targets;
    ghost var st := State(targets, totals);
    var n := |targets| - 1;
    var words := Text.Split(line, ' ');
    if |words| >= 3 && targets != [] {
      var t := targets[n].(details := Put(targets[n].details, "status", Str(words[2])));
      targets' := targets[..n] + [t];
      ghost var st1 := SetDetail(st, "status", Str(words[2]));
      assert State(targets', totals) == st1;
      if |words| >= 4 {
        assert targets'[..n] == targets[..n];
        targets' := targets[..n] + [t.(details := Put(t.details, "latency", Str(Text.Inner(words[3]))))];
        assert State(targets', totals) == SetDetail(st1, "latency", Str(Text.Inner(words[3])));
      }
    }
  }

  /** The `MAC Address` branch: the address, then the vendor, each set on the latest target. */
  method ParseMacLine(targets: seq<Target>, totals: seq<Member>, line: string) returns (targets': seq<Target>)
    ensures State(targets', totals) == MacStep(State(targets, totals), line)
  {
    targets' := targets;
    ghost var st := State(targets, totals);
    var n := |targets| - 1;
    var m := MacFields(line);
    if m.Some? && targets != [] {
      var t := targets[n].(details := Put(targets[n].details, "mac_address", Str(m.value.0)));
      targets' := targets[..n] + [t];
      ghost var st1 := SetDetail(st, "mac_address", Str(m.value.0));
      assert State(targets', totals) == st1;
      assert targets'[..n] == targets[..n];
      targets' := targets[..n] + [t.(details := Put(t.details, "mac_address_vendor", Str(m.value.1)))];
      assert State(targets', totals) == SetDetail(st1, "mac_address_vendor", Str(m.value.1));
    }
  }

  /** Once a prefix of the targets raises in the prioritiser, the whole loop raises the same error. */
  lemma {:induction false} RateAllStops(ts: seq<Target>, j: nat)
    requires j <= |ts| && RateAll(ts[..j]).Raise?
    ensures RateAll(ts) == RateAll(ts[..j])
  {
    if j < |ts| {
      assert ts[..|ts| - 1][..j] == ts[..j];
      RateAllStops(ts[..|ts| - 1], j);
    } else {
      assert ts[..j] == ts;
    }
  }

  // ---------------------------------------------------------------------------------------------
  // Tokenisation round trips

  /** A run of characters that satisfy `p`, followed by one that does not, spans exactly the run. */
  lemma {:induction false} SpanStops(a: string, b: string, p: char -> bool)
    requires forall i :: 0 <= i < |a| ==> p(a[i])
    requires b == [] || !p(b[0])
    ensures Span(a + b, p) == a
  {
    if a != [] {
      assert (a + b)[1..] == a[1..] + b;
      SpanStops(a[1..], b, p);
    }
  }

  /** `lstrip` of one space before text that does not start with whitespace. */
  lemma LStripSpace(x: string)
    requires x == [] || !Text.IsSpace(x[0])
    ensures Text.LStrip(" " + x) == x
  {
    assert (" " + x)[1..] == x;
  }

  /**
   * A port line as nmap prints it reads back into its groups: port, protocol, state, and the
   * service and version when they are there.
   */
  lemma PortFieldsRoundTrip(port: string, protocol: string, state: string, service: string, version: string)
    requires Prioritizer.Digits(port)
    requires protocol != [] && forall i :: 0 <= i < |protocol| ==> IsLower(protocol[i])
    requires state != [] && forall i :: 0 <= i < |state| ==> NonSpace(state[i])
    requires forall i :: 0 <= i < |service| ==> NonSpace(service[i])
    requires version == [] || (service != [] && !Text.IsSpace(version[0]))
    ensures var tail := if service == [] then "" else " " + service + (if version == [] then "" else " " + version);
      PortFields(port + "/" + protocol + " " + state + tail) == Some(PortInfo(port, protocol, state, service, version))
  {
    var tail := if service == [] then "" else " " + service + (if version == [] then "" else " " + version);
    var r3 := state + tail;
    assert port + "/" + protocol + " " + state + tail == port + "/" + protocol + " " + r3;
    PortHead(port, protocol, r3);
    ColumnsRoundTrip(state, service, version);
  }

  /** The port and protocol of a port line, and what follows the whitespace after them. */
  lemma PortHead(port: string, protocol: string, r3: string)
    requires Prioritizer.Digits(port)
    requires protocol != [] && forall i :: 0 <= i < |protocol| ==> IsLower(protocol[i])
    requires r3 == [] || !Text.IsSpace(r3[0])
    ensures var c := Columns(r3);
      PortFields(port + "/" + protocol + " " + r3) == Some(PortInfo(port, protocol, c.0, c.1, c.2))
  {
    var r1 := "/" + protocol + " " + r3;
    assert port + "/" + protocol + " " + r3 == port + r1;
    SpanStops(port, r1, Text.IsDigit);
    assert (port + r1)[|port|..] == r1;
    ProtocolHead(port, protocol, r3);
  }

  lemma ProtocolHead(port: string, protocol: string, r3: string)
    requires protocol != [] && forall i :: 0 <= i < |protocol| ==> IsLower(protocol[i])
    requires r3 == [] || !Text.IsSpace(r3[0])
    ensures var c := Columns(r3);
      AfterPort(port, "/" + protocol + " " + r3) == Some(PortInfo(port, protocol, c.0, c.1, c.2))
  {
    var r2 := " " + r3;
    assert "/" + protocol + " " + r3 == "/" + (protocol + r2);
    AfterSlash(port, protocol, r2);
    SpaceThenColumns(port, protocol, r3);
  }

  /** A slash, then lower-case protocol letters up to the first character that is not one. */
  lemma AfterSlash(port: string, protocol: string, r2: string)
    requires forall i :: 0 <= i < |protocol| ==> IsLower(protocol[i])
    requires r2 != [] && !IsLower(r2[0])
    ensures AfterPort(port, "/" + (protocol + r2)) == AfterProtocol(port, protocol, r2)
  {
    var r1 := "/" + (protocol + r2);
    assert r1[1..] == protocol + r2;
    SpanStops(protocol, r2, IsLower);
    assert r1[1 + |protocol|..] == r2;
  }

  lemma SpaceThenColumns(port: string, protocol: string, r3: string)
    requires protocol != [] && (r3 == [] || !Text.IsSpace(r3[0]))
    ensures var c := Columns(r3);
      AfterProtocol(port, protocol, " " + r3) == Some(PortInfo(port, protocol, c.0, c.1, c.2))
  {
    assert (" " + r3)[0] == ' ';
    LStripSpace(r3);
  }

  /** The state, service and version columns read back from nmap's single-space layout. */
  lemma ColumnsRoundTrip(state: string, service: string, version: string)
    requires state != [] && forall i :: 0 <= i < |state| ==> NonSpace(state[i])
    requires forall i :: 0 <= i < |service| ==> NonSpace(service[i])
    requires version == [] || (service != [] && !Text.IsSpace(version[0]))
    ensures var tail := if service == [] then "" else " " + service + (if version == [] then "" else " " + version);
      Columns(state + tail) == (state, service, version)
  {
    var vtail := if version == [] then "" else " " + version;
    var tail := if service == [] then "" else " " + service + vtail;
    SplitWord(state, tail);
    if service != [] {
      var r4 := service + vtail;
      assert tail == " " + r4;
      LStripSpace(r4);
      SplitWord(service, vtail);
      if version != [] {
        LStripSpace(version);
      }
    }
  }

  /** A word followed by text that does not start with a word character: the word, then that text. */
  lemma SplitWord(a: string, b: string)
    requires forall i :: 0 <= i < |a| ==> NonSpace(a[i])
    requires b == [] || !NonSpace(b[0])
    ensures Span(a + b, NonSpace) == a && (a + b)[|a|..] == b
  {
    SpanStops(a, b, NonSpace);
  }

  /** `rstrip` leaves text that ends in a non-space character alone. */
  lemma RStripKeeps(x: string)
    requires x != [] && !Text.IsSpace(x[|x| - 1])
    ensures Text.RStrip(x) == x
  {
  }

  /**
   * An nmap MAC line (`MAC Address: <mac> (<vendor>)`, or any other heading without a colon) reads back into
   * the address, colons and all, and the vendor without its brackets.
   */
  lemma MacFieldsRoundTrip(head: string, mac: string, vendor: string)
    requires ':' !in head
    requires mac != [] && ' ' !in mac && !Text.IsSpace(mac[0])
    ensures MacFields(head + ": " + mac + " (" + vendor + ")") == Some((mac, vendor))
  {
    var bracketed := "(" + vendor + ")";
    var stripped := mac + [' '] + bracketed;
    var rest := " " + stripped;
    assert head + ": " + mac + " (" + vendor + ")" == head + [':'] + rest;
    assert Text.SplitMax(head + [':'] + rest, ':', 1) == [head, rest] by {
      Text.SplitMaxFirst(head, ':', rest, 1);
      assert Text.SplitMax(rest, ':', 0) == [rest];
    }
    StripMac(stripped);
    assert Text.SplitMax(stripped, ' ', 1) == [mac, bracketed] by {
      Text.SplitMaxFirst(mac, ' ', bracketed, 1);
      assert Text.SplitMax(bracketed, ' ', 0) == [bracketed];
    }
    assert Text.Inner(bracketed) == vendor;
  }

  lemma StripMac(x: string)
    requires x != [] && !Text.IsSpace(x[0]) && x[|x| - 1] == ')'
    ensures Text.Strip(" " + x) == x
  {
    LStripSpace(x);
    RStripKeeps(x);
  }

  /**
   * The duration group is the text after the first `scanned in ` when nothing before it could
   * start one: the text before it holds no `c`.
   */
  lemma {:induction false} DurationAfter(mid: string, d: string)
    requires 'c' !in mid && IsDuration(d)
    ensures Duration(mid + "scanned in " + d) == Some(d)
  {
    var s := mid + "scanned in " + d;
    if mid == [] {
      assert s == "scanned in " + d && s[11..] == d;
    } else {
      assert s[1] != 'c';
      assert !HasPrefix(s, "scanned in ");
      assert s[1..] == mid[1..] + "scanned in " + d;
      DurationAfter(mid[1..], d);
    }
  }

  /**
   * An nmap summary line reads back into the number of addresses, the number online and the
   * duration text, for either plural of "address".
   */
  lemma DoneFieldsRoundTrip(scanned: string, plural: bool, online: string, mid: string, duration: string)
    requires Prioritizer.Digits(scanned) && Prioritizer.Digits(online)
    requires (mid == [] || !Text.IsDigit(mid[0])) && 'c' !in mid && IsDuration(duration)
    ensures var es := if plural then "es" else "";
      DoneFields("Nmap done: " + scanned + " IP address" + es + " (" + online + mid + "scanned in " + duration)
        == Some((scanned, online, duration))
  {
    var es := if plural then "es" else "";
    var r3 := es + " (" + online + mid + "scanned in " + duration;
    var r2 := " IP address" + r3;
    var r1 := scanned + r2;
    var line := "Nmap done: " + r1;
    DoneLineShape(scanned, es, online, mid, duration);
    assert DoneFields(line) == AfterAddress(scanned, r3) by {
      assert HasPrefix(line, "Nmap done: ") && line[11..] == r1 by {
        assert line[..11] == "Nmap done: ";
      }
      assert Span(r1, Text.IsDigit) == scanned && r1[|scanned|..] == r2 by {
        assert r2[0] == ' ';
        SpanStops(scanned, r2, Text.IsDigit);
      }
      assert HasPrefix(r2, " IP address") && r2[11..] == r3 by {
        assert r2[..11] == " IP address";
      }
      DoneFieldsAt(line, r1, scanned, r2, r3);
    }
    assert AfterAddress(scanned, r3) == Some((scanned, online, duration)) by {
      AddressRoundTrip(scanned, plural, online, mid, duration);
    }
  }

  lemma DoneLineShape(scanned: string, es: string, online: string, mid: string, duration: string)
    ensures "Nmap done: " + scanned + " IP address" + es + " (" + online + mid + "scanned in " + duration
      == "Nmap done: " + (scanned + (" IP address" + (es + " (" + online + mid + "scanned in " + duration)))
  {
  }

  /** Once the prefix, the address count and ` IP address` are read, the rest is `AfterAddress`. */
  lemma DoneFieldsAt(line: string, r1: string, scanned: string, r2: string, r3: string)
    requires HasPrefix(line, "Nmap done: ") && line[11..] == r1
    requires Span(r1, Text.IsDigit) == scanned && scanned != [] && r1[|scanned|..] == r2
    requires HasPrefix(r2, " IP address") && r2[11..] == r3
    ensures DoneFields(line) == AfterAddress(scanned, r3)
  {
  }

  lemma AddressRoundTrip(scanned: string, plural: bool, online: string, mid: string, duration: string)
    requires Prioritizer.Digits(online)
    requires (mid == [] || !Text.IsDigit(mid[0])) && 'c' !in mid && IsDuration(duration)
    ensures var es := if plural then "es" else "";
      AfterAddress(scanned, es + " (" + online + mid + "scanned in " + duration) == Some((scanned, online, duration))
  {
    var es := if plural then "es" else "";
    var after := mid + "scanned in " + duration;
    var r5 := online + after;
    var r4 := " (" + r5;
    assert es + " (" + online + mid + "scanned in " + duration == es + r4;
    if plural {
      assert HasPrefix(es + r4, "es") && (es + r4)[2..] == r4;
    } else {
      assert es + r4 == r4 && r4[0] == ' ' && !HasPrefix(r4, "es");
    }
    assert HasPrefix(r4, " (") && r4[2..] == r5;
    assert after[0] == (if mid == [] then 's' else mid[0]);
    SpanStops(online, after, Text.IsDigit);
    assert r5[|online|..] == after;
    DurationAfter(mid, duration);
  }

  /**
   * As written, `hop_distance` is the second space-separated word of the line, which in nmap's
   * `Network Distance: N hops` is the word `Distance:` itself, not the count.
   */
  lemma HopDistanceIsLabel(st: State, rest: string)
    requires st.targets != []
    ensures DistanceStepAsWritten(st, "Network Distance: " + rest) == SetDetail(st, "hop_distance", Str("Distance:"))
  {
    var words := Text.Split("Network Distance: " + rest, ' ');
    assert |words| >= 2 && words[1] == "Distance:" by {
      DistanceWords(rest);
    }
  }

  /** As intended, the line `Network Distance: N hops` stores the count `N`. */
  lemma HopDistanceIsCount(st: State, hops: string, rest: string)
    requires st.targets != [] && ' ' !in hops
    ensures DistanceStep(st, "Network Distance: " + hops + " " + rest) == SetDetail(st, "hop_distance", Str(hops))
  {
    var line := "Network Distance: " + hops + " " + rest;
    assert line == "Network Distance: " + (hops + [' '] + rest);
    DistanceWords(hops + [' '] + rest);
    Text.SplitAppendSep(hops, ' ', rest);
    Text.SplitNoSep(hops, ' ');
  }

  lemma DistanceWords(rest: string)
    ensures Text.Split("Network Distance: " + rest, ' ') == ["Network", "Distance:"] + Text.Split(rest, ' ')
  {
    assert "Network Distance: " + rest == "Network" + [' '] + "Distance:" + [' '] + rest;
    TwoWords("Network", "Distance:", rest);
  }

  /** Two words without spaces, each followed by one space, are the first two pieces of the split. */
  lemma TwoWords(a: string, b: string, rest: string)
    requires ' ' !in a && ' ' !in b
    ensures Text.Split(a + [' '] + b + [' '] + rest, ' ') == [a, b] + Text.Split(rest, ' ')
  {
    Text.SplitAppendSep(a + [' '] + b, ' ', rest);
    Text.SplitAppendSep(a, ' ', b);
    Text.SplitNoSep(a, ' ');
    Text.SplitNoSep(b, ' ');
  }

  // ---------------------------------------------------------------------------------------------
  // The shape of the target list

  /** The hosts of the targets, in order. */
  function Hosts(ts: seq<Target>): (r: seq<string>)
    ensures |r| == |ts| && forall i :: 0 <= i < |ts| ==> r[i] == ts[i].host
  {
    if ts == [] then [] else Hosts(ts[..|ts| - 1]) + [ts[|ts| - 1].host]
  }

  /** The host a line starts, when it is a report line with at least five words. */
  function ReportHost(raw: string): Option<string>
  {
    var line := Text.Strip(raw);
    var words := Text.Split(line, ' ');
    if Kind(line) == Report && |words| >= 5 then Some(words[4]) else None
  }

  /** The hosts of the report lines, in order: an independent account of the target list. */
  function ReportHosts(lines: seq<string>): seq<string>
  {
    if lines == [] then []
    else
      var h := ReportHost(lines[|lines| - 1]);
      ReportHosts(lines[..|lines| - 1]) + (if h.Some? then [h.value] else [])
  }

  /** `r` has the targets of `st`, except that the latest one may have other details or services. */
  predicate LatestOnly(st: State, r: State)
  {
    |r.targets| == |st.targets|
    && (st.targets != [] ==>
          var n := |st.targets| - 1;
          r.targets[..n] == st.targets[..n] && r.targets[n].host == st.targets[n].host)
  }

  lemma SetDetailLatest(st: State, k: string, v: Json)
    requires st.targets != []
    ensures LatestOnly(st, SetDetail(st, k, v))
  {
    var n := |st.targets| - 1;
    assert (st.targets[..n] + [st.targets[n].(details := Put(st.targets[n].details, k, v))])[..n] == st.targets[..n];
  }

  lemma AddServiceLatest(st: State, svc: Json)
    requires st.targets != []
    ensures LatestOnly(st, AddService(st, svc))
  {
    var n := |st.targets| - 1;
    assert (st.targets[..n] + [st.targets[n].(services := st.targets[n].services + [svc])])[..n] == st.targets[..n];
  }

  lemma LatestOnlyTrans(a: State, b: State, c: State)
    requires LatestOnly(a, b) && LatestOnly(b, c)
    ensures LatestOnly(a, c)
  {
  }

  /** Touching only the latest target keeps every host and every earlier target. */
  lemma LatestOnlyKeeps(st: State, r: State)
    requires LatestOnly(st, r)
    ensures Hosts(r.targets) == Hosts(st.targets)
    ensures forall i :: 0 <= i < |st.targets| - 1 ==> r.targets[i] == st.targets[i]
  {
    if st.targets != [] {
      var n := |st.targets| - 1;
      assert r.targets[..n] == st.targets[..n];
      assert forall i :: 0 <= i < n ==> r.targets[i] == r.targets[..n][i];
    }
  }

  /**
   * One line either starts a new, empty target (a report line with five words), or keeps the
   * targets except the latest one; only a summary line touches the metadata.
   */
  lemma StepShape(st: State, raw: string)
    ensures var r := Step(st, raw);
      (ReportHost(raw).Some? ==> r.targets == st.targets + [Target(ReportHost(raw).value, [], [])])
      && (ReportHost(raw).None? ==> LatestOnly(st, r))
      && (Kind(Text.Strip(raw)) != Done ==> r.totals == st.totals)
  {
    var line := Text.Strip(raw);
    match Kind(line)
    case Report => ReportShape(st, raw);
    case Done => DoneShape(st, raw);
    case _ => OtherShape(st, raw);
  }

  /** A report line starts a target when it has five words, and otherwise changes nothing. */
  lemma ReportShape(st: State, raw: string)
    requires Kind(Text.Strip(raw)) == Report
    ensures var r := Step(st, raw);
      (ReportHost(raw).Some? ==> r.targets == st.targets + [Target(ReportHost(raw).value, [], [])])
      && (ReportHost(raw).None? ==> r == st) && r.totals == st.totals
  {
  }

  /** A summary line changes the metadata only. */
  lemma DoneShape(st: State, raw: string)
    requires Kind(Text.Strip(raw)) == Done
    ensures ReportHost(raw).None? && Step(st, raw).targets == st.targets
  {
    assert Step(st, raw) == DoneStep(st, Text.Strip(raw));
  }

  /** Every other line touches the latest target at most. */
  lemma OtherShape(st: State, raw: string)
    requires Kind(Text.Strip(raw)) != Report && Kind(Text.Strip(raw)) != Done
    ensures ReportHost(raw).None? && LatestOnly(st, Step(st, raw)) && Step(st, raw).totals == st.totals
  {
    var line := Text.Strip(raw);
    var r := Step(st, raw);
    match Kind(line)
    case HostIs =>
      assert r == HostStep(st, line) by {
        HostStepLatest(st, line);
      }
      HostStepLatest(st, line);
    case Port =>
      assert r == PortStep(st, line);
      if PortFields(line).Some? && st.targets != [] {
        AddServiceLatest(st, ServiceJson(PortFields(line).value));
      }
    case Distance =>
      assert r == DistanceStep(st, line);
      var words := Text.Split(line, ' ');
      if |words| >= 3 && st.targets != [] {
        SetDetailLatest(st, "hop_distance", Str(words[2]));
      }
    case Mac =>
      assert r == MacStep(st, line);
      MacStepLatest(st, line);
    case _ =>
  }

  lemma HostStepLatest(st: State, line: string)
    ensures LatestOnly(st, HostStep(st, line)) && HostStep(st, line).totals == st.totals
  {
    var words := Text.Split(line, ' ');
    if |words| >= 3 && st.targets != [] {
      var st1 := SetDetail(st, "status", Str(words[2]));
      SetDetailLatest(st, "status", Str(words[2]));
      if |words| >= 4 {
        SetDetailLatest(st1, "latency", Str(Text.Inner(words[3])));
        LatestOnlyTrans(st, st1, SetDetail(st1, "latency", Str(Text.Inner(words[3]))));
      }
    }
  }

  lemma MacStepLatest(st: State, line: string)
    ensures LatestOnly(st, MacStep(st, line)) && MacStep(st, line).totals == st.totals
  {
    match MacFields(line)
    case None =>
    case Some((mac, vendor)) =>
      if st.targets != [] {
        SetMacLatest(st, mac, vendor);
      }
  }

  /** Setting the address and the vendor touches only the latest target. */
  lemma SetMacLatest(st: State, mac: string, vendor: string)
    requires st.targets != []
    ensures var r := SetDetail(SetDetail(st, "mac_address", Str(mac)), "mac_address_vendor", Str(vendor));
      LatestOnly(st, r) && r.totals == st.totals
  {
    var st1 := SetDetail(st, "mac_address", Str(mac));
    SetDetailLatest(st, "mac_address", Str(mac));
    SetDetailLatest(st1, "mac_address_vendor", Str(vendor));
    LatestOnlyTrans(st, st1, SetDetail(st1, "mac_address_vendor", Str(vendor)));
  }

  /** The target list holds one target per report line, with that line's host, in order. */
  lemma {:induction false} ParseLinesHosts(lines: seq<string>)
    ensures Hosts(ParseLines(lines).targets) == ReportHosts(lines)
  {
    if lines != [] {
      var init := lines[..|lines| - 1];
      var st := ParseLines(init);
      var r := ParseLines(lines);
      ParseLinesHosts(init);
      StepShape(st, lines[|lines| - 1]);
      var h := ReportHost(lines[|lines| - 1]);
      if h.Some? {
        assert r.targets[..|r.targets| - 1] == st.targets;
      } else {
        LatestOnlyKeeps(st, r);
      }
    }
  }

  /** A line that needs a target while there is none changes nothing (outside the summary line's totals). */
  lemma SkippedWithoutTarget(st: State, raw: string)
    requires st.targets == [] && ReportHost(raw).None?
    ensures Step(st, raw).targets == []
    ensures Kind(Text.Strip(raw)) != Done ==> Step(st, raw) == st
  {
    StepShape(st, raw);
  }

  /** A target is final once a later target exists: later lines only ever touch the latest one. */
  lemma {:induction false} ParseLinesFrozen(lines: seq<string>, k: nat, i: nat)
    requires k <= |lines| && i + 1 < |ParseLines(lines[..k]).targets|
    ensures i + 1 < |ParseLines(lines).targets|
    ensures ParseLines(lines).targets[i] == ParseLines(lines[..k]).targets[i]
  {
    if k < |lines| {
      var init := lines[..|lines| - 1];
      assert init[..k] == lines[..k];
      ParseLinesFrozen(init, k, i);
      var st := ParseLines(init);
      StepShape(st, lines[|lines| - 1]);
      if ReportHost(lines[|lines| - 1]).None? {
        LatestOnlyKeeps(st, ParseLines(lines));
      }
    } else {
      assert lines[..k] == lines;
    }
  }

  // ---------------------------------------------------------------------------------------------
  // The services the parser builds, and what the prioritiser makes of them

  /** A service dict with a digit-string port, and a non-empty string service name when it has one. */
  predicate GoodService(j: Json)
  {
    j.Obj?
    && (match Lookup(j.members, "port") case Some(Str(d)) => Prioritizer.Digits(d) case _ => false)
    && (match Lookup(j.members, "service") case None => true case Some(v) => v.Str? && v.s != "")
  }

  predicate Named(j: Json)
  {
    j.Obj? && Lookup(j.members, "service").Some?
  }

  predicate GoodTarget(t: Target)
  {
    forall k :: 0 <= k < |t.services| ==> GoodService(t.services[k])
  }

  predicate WellFormed(ts: seq<Target>)
  {
    forall i :: 0 <= i < |ts| ==> GoodTarget(ts[i])
  }

  /** The dict of a port line is well formed, and it names a service exactly when the line does. */
  lemma ServiceJsonGood(p: PortInfo)
    requires Prioritizer.Digits(p.port)
    ensures GoodService(ServiceJson(p))
    ensures Named(ServiceJson(p)) <==> p.service != ""
  {
    var ms := ServiceJson(p).members;
    var tail := ms[3..];
    assert ms[0] == Member("port", Str(p.port));
    assert Lookup(ms, "service") == Lookup(tail, "service") by {
      LookupSkip(ms, "service");
      LookupSkip(ms[1..], "service");
      assert ms[1..][1..] == ms[2..];
      LookupSkip(ms[2..], "service");
      assert ms[2..][1..] == tail;
    }
    if p.service != "" {
      assert tail[0] == Member("service", Str(p.service));
    } else if p.version != "" {
      assert tail == [Member("version", Str(p.version))];
    } else {
      assert tail == [];
    }
  }

  lemma LookupSkip(ms: seq<Member>, k: string)
    requires ms != [] && ms[0].key != k
    ensures Lookup(ms, k) == Lookup(ms[1..], k)
  {
  }

  /** Every service on every target came from a port line, so every one is well formed. */
  lemma {:induction false} ParseLinesWellFormed(lines: seq<string>)
    ensures WellFormed(ParseLines(lines).targets)
  {
    if lines != [] {
      var init := lines[..|lines| - 1];
      ParseLinesWellFormed(init);
      StepWellFormed(ParseLines(init), lines[|lines| - 1]);
    }
  }

  lemma StepWellFormed(st: State, raw: string)
    requires WellFormed(st.targets)
    ensures WellFormed(Step(st, raw).targets)
  {
    var line := Text.Strip(raw);
    match Kind(line)
    case HostIs => HostStepWellFormed(st, line);
    case Port => PortStepWellFormed(st, line);
    case Distance =>
      var words := Text.Split(line, ' ');
      if |words| >= 3 && st.targets != [] {
        SetDetailWellFormed(st, "hop_distance", Str(words[2]));
      }
    case Mac => MacStepWellFormed(st, line);
    case _ =>
  }

  lemma HostStepWellFormed(st: State, line: string)
    requires WellFormed(st.targets)
    ensures WellFormed(HostStep(st, line).targets)
  {
    var words := Text.Split(line, ' ');
    if |words| >= 3 && st.targets != [] {
      var st1 := SetDetail(st, "status", Str(words[2]));
      SetDetailWellFormed(st, "status", Str(words[2]));
      if |words| >= 4 {
        SetDetailWellFormed(st1, "latency", Str(Text.Inner(words[3])));
      }
    }
  }

  lemma PortStepWellFormed(st: State, line: string)
    requires WellFormed(st.targets)
    ensures WellFormed(PortStep(st, line).targets)
  {
    var p := PortFields(line);
    if p.Some? && st.targets != [] {
      ServiceJsonGood(p.value);
      AddServiceWellFormed(st, ServiceJson(p.value));
    }
  }

  lemma AddServiceWellFormed(st: State, svc: Json)
    requires st.targets != [] && WellFormed(st.targets) && GoodService(svc)
    ensures WellFormed(AddService(st, svc).targets)
  {
    var t := st.targets[|st.targets| - 1];
    assert GoodTarget(t);
    ReplaceLastWellFormed(st.targets, t.(services := t.services + [svc]));
  }

  lemma ReplaceLastWellFormed(ts: seq<Target>, t: Target)
    requires ts != [] && WellFormed(ts) && GoodTarget(t)
    ensures WellFormed(ts[..|ts| - 1] + [t])
  {
    var r := ts[..|ts| - 1] + [t];
    assert forall i :: 0 <= i < |ts| - 1 ==> r[i] == ts[i];
  }

  lemma MacStepWellFormed(st: State, line: string)
    requires WellFormed(st.targets)
    ensures WellFormed(MacStep(st, line).targets)
  {
    if MacFields(line).Some? && st.targets != [] {
      var (mac, vendor) := MacFields(line).value;
      SetDetailWellFormed(st, "mac_address", Str(mac));
      SetDetailWellFormed(SetDetail(st, "mac_address", Str(mac)), "mac_address_vendor", Str(vendor));
    }
  }

  lemma SetDetailWellFormed(st: State, k: string, v: Json)
    requires st.targets != [] && WellFormed(st.targets)
    ensures WellFormed(SetDetail(st, k, v).targets)
  {
    var t := st.targets[|st.targets| - 1];
    assert GoodTarget(t);
    ReplaceLastWellFormed(st.targets, t.(details := Put(t.details, k, v)));
  }

  /** A well-formed port reads as an integer. */
  lemma GoodPort(j: Json)
    requires GoodService(j)
    ensures Prioritizer.IntOf(Lookup(j.members, "port")).Ok?
  {
    var d := Lookup(j.members, "port").value.s;
    Text.StripKeeps(d);
  }

  /** With a known service name the host-type loop cannot raise; without one it can only raise a TypeError. */
  lemma {:induction false} TypesFromRaises(s: Prioritizer.Scan, table: seq<Prioritizer.HostType>, port: int, name: Option<Json>)
    requires Prioritizer.IsValue(s.value) && Prioritizer.KnownValues(table)
    ensures var r := Prioritizer.TypesFrom(s, table, port, name);
      (r.Raise? ==> r.error == Exceptions.TypeError) && (name.Some? && name.value.Str? ==> r.Ok?)
  {
    if table != [] {
      TypesFromRaises(s, table[..|table| - 1], port, name);
    }
  }

  /** On well-formed services the scan raises nothing but a TypeError, and nothing at all when every service is named. */
  lemma {:induction false} ServicesFromRaises(table: seq<Prioritizer.HostType>, items: seq<Json>)
    requires Prioritizer.KnownValues(table) && forall k :: 0 <= k < |items| ==> GoodService(items[k])
    ensures var r := Prioritizer.ServicesFrom(table, items);
      (r.Raise? ==> r.error == Exceptions.TypeError)
      && ((forall k :: 0 <= k < |items| ==> Named(items[k])) ==> r.Ok?)
  {
    if items != [] {
      var init := items[..|items| - 1];
      var last := items[|items| - 1];
      ServicesFromRaises(table, init);
      var r0 := Prioritizer.ServicesFrom(table, init);
      if r0.Ok? {
        GoodPort(last);
        var port := Prioritizer.IntOf(Lookup(last.members, "port")).value;
        TypesFromRaises(r0.value, table, port, Lookup(last.members, "service"));
      }
    }
  }

  /** The prioritiser on a parsed target: no services is generic, otherwise the scan of its services. */
  lemma InfoOfTarget(t: Target)
    ensures Prioritizer.KnownValues(Prioritizer.HostTypes)
    ensures Prioritizer.InfoOf(TargetJson(t).members)
      == if t.services == [] then Exceptions.Ok(Prioritizer.Info("unknown", "generic"))
         else Prioritizer.ScanInfo(Prioritizer.HostTypes, t.services)
  {
    Prioritizer.HostTypesKnown();
    assert Lookup(TargetJson(t).members, "services") == Some(Arr(t.services));
  }

  /** All services of all targets name a service. */
  predicate AllNamed(ts: seq<Target>)
  {
    forall i :: 0 <= i < |ts| ==> forall k :: 0 <= k < |ts[i].services| ==> Named(ts[i].services[k])
  }

  /** Rating well-formed targets raises nothing but a TypeError, and nothing when every service is named. */
  lemma {:induction false} RateAllRaises(ts: seq<Target>)
    requires WellFormed(ts)
    ensures RateAll(ts).Raise? ==> RateAll(ts).error == Exceptions.TypeError
    ensures AllNamed(ts) ==> RateAll(ts).Ok?
  {
    if ts != [] {
      var init := ts[..|ts| - 1];
      var t := ts[|ts| - 1];
      assert forall i :: 0 <= i < |init| ==> init[i] == ts[i];
      RateAllRaises(init);
      InfoOfTarget(t);
      if t.services != [] {
        assert GoodTarget(t);
        ServicesFromRaises(Prioritizer.HostTypes, t.services);
      }
    }
  }

  /** The parser raises nothing but a TypeError, which the parser manager reports as a bad signature. */
  lemma ParseRaisesOnlyTypeError(output: string, now: int)
    ensures Parse(output, now).Raise? ==> Parse(output, now).error == Exceptions.TypeError
  {
    var st := ParseLines(Text.Split(output, '\n'));
    ParseLinesWellFormed(Text.Split(output, '\n'));
    RateAllRaises(st.targets);
  }

  /** The manager always gets a result it handles: targets, or a bad-signature failure. */
  lemma OutcomeHandled(c: Commands.Command, now: int)
    ensures Outcome(c, now).Some?
    ensures Outcome(c, now).value.ParserRaised? ==> Outcome(c, now).value.error == Automation.BadSignature
  {
    ParseRaisesOnlyTypeError(c.output, now);
  }

  /** When every port line names its service, the parser always succeeds. */
  lemma NamedServicesParse(output: string, now: int)
    requires AllNamed(ParseLines(Text.Split(output, '\n')).targets)
    ensures Parse(output, now).Ok?
  {
    ParseLinesWellFormed(Text.Split(output, '\n'));
    RateAllRaises(ParseLines(Text.Split(output, '\n')).targets);
  }

  /**
   * A target whose first service came from a port line without a service column, on a port the
   * first host type (webserver) does not list, makes the prioritiser raise a TypeError: the
   * pattern search runs on a missing name.
   */
  lemma NamelessServiceRaises(t: Target, p: PortInfo)
    requires Prioritizer.Digits(p.port) && p.service == ""
    requires Text.DigitsValue(p.port) !in Prioritizer.HostTypes[0].ports
    requires t.services != [] && t.services[0] == ServiceJson(p)
    ensures Prioritizer.InfoOf(TargetJson(t).members) == Exceptions.Raise(Exceptions.TypeError)
  {
    InfoOfTarget(t);
    NamelessFirst(p);
    FirstServiceRaises(Prioritizer.HostTypes, t.services);
  }

  /** A first service that raises makes the whole scan raise the same. */
  lemma FirstServiceRaises(table: seq<Prioritizer.HostType>, items: seq<Json>)
    requires Prioritizer.KnownValues(table) && items != []
    requires Prioritizer.ServicesFrom(table, [items[0]]).Raise?
    ensures Prioritizer.ServicesFrom(table, items) == Prioritizer.ServicesFrom(table, [items[0]])
  {
    assert items[..1] == [items[0]];
    Prioritizer.ServicesRaised(table, items, 1);
  }

  lemma NamelessFirst(p: PortInfo)
    requires Prioritizer.Digits(p.port) && p.service == ""
    requires Text.DigitsValue(p.port) !in Prioritizer.HostTypes[0].ports
    ensures Prioritizer.KnownValues(Prioritizer.HostTypes)
    ensures Prioritizer.ServicesFrom(Prioritizer.HostTypes, [ServiceJson(p)]) == Exceptions.Raise(Exceptions.TypeError)
  {
    Prioritizer.HostTypesKnown();
    ServiceJsonGood(p);
    var svc := ServiceJson(p);
    var table := Prioritizer.HostTypes;
    var port := Text.DigitsValue(p.port);
    assert Prioritizer.IntOf(Lookup(svc.members, "port")) == Exceptions.Ok(port) by {
      assert Lookup(svc.members, "port") == Some(Str(p.port));
      Text.StripKeeps(p.port);
    }
    assert Prioritizer.TypesFrom(Prioritizer.Start, table[..1], port, None) == Exceptions.Raise(Exceptions.TypeError) by {
      assert table[..1][..0] == [];
      assert table[..1][0] == table[0];
    }
    Prioritizer.TypesRaised(Prioritizer.Start, table, port, None, 1);
    assert [svc][..0] == [];
  }

  // ---------------------------------------------------------------------------------------------
  // What the parser returns

  /** A summary line sets the three totals and nothing else. */
  lemma DoneSetsTotals(st: State, raw: string, scanned: string, online: string, duration: string)
    requires Kind(Text.Strip(raw)) == Done && DoneFields(Text.Strip(raw)) == Some((scanned, online, duration))
    ensures var r := Step(st, raw);
      r.targets == st.targets
      && Lookup(r.totals, "total_scanned") == Some(Str(scanned))
      && Lookup(r.totals, "total_online") == Some(Str(online))
      && Lookup(r.totals, "scan_duration") == Some(Str(duration))
      && forall k :: k != "total_scanned" && k != "total_online" && k != "scan_duration" ==> Lookup(r.totals, k) == Lookup(st.totals, k)
  {
    var t1 := Put(st.totals, "total_scanned", Str(scanned));
    var t2 := Put(t1, "total_online", Str(online));
    PutLookups(st.totals, "total_scanned", Str(scanned));
    PutLookups(t1, "total_online", Str(online));
    PutLookups(t2, "scan_duration", Str(duration));
  }

  /** Rating keeps the targets in order and gives each the prioritiser's verdict on it. */
  lemma {:induction false} RateAllAt(ts: seq<Target>, i: nat)
    requires RateAll(ts).Ok? && i < |ts|
    ensures Prioritizer.InfoOf(TargetJson(ts[i]).members).Ok?
    ensures RateAll(ts).value[i] == Rate(ts[i], Prioritizer.InfoOf(TargetJson(ts[i]).members).value)
  {
    var init := ts[..|ts| - 1];
    if i < |ts| - 1 {
      assert init[i] == ts[i];
      RateAllAt(init, i);
    }
  }

  /** The prioritiser's value is always a key of the value table. */
  lemma InfoValueKnown(target: seq<Member>)
    requires Prioritizer.InfoOf(target).Ok?
    ensures Prioritizer.IsValue(Prioritizer.InfoOf(target).value.value)
  {
    Prioritizer.HostTypesKnown();
  }

  /** The details of a returned target dict. */
  function DetailsOf(j: Json): seq<Member>
  {
    match Get(j, "details")
    case Some(Obj(d)) => d
    case _ => []
  }

  /** The metadata holds the returned target list under `targets`, first, then the summary totals. */
  lemma ParseMetadata(output: string, now: int)
    requires Parse(output, now).Ok?
    ensures var p := Parse(output, now).value;
      var st := ParseLines(Text.Split(output, '\n'));
      Keys(p.metadata)[0] == "targets" && Lookup(p.metadata, "targets") == Some(Arr(p.targets))
      && |p.targets| == |ReportHosts(Text.Split(output, '\n'))|
      && forall k :: k != "targets" ==> Lookup(p.metadata, k) == Lookup(st.totals, k)
  {
    var lines := Text.Split(output, '\n');
    ParseLinesHosts(lines);
  }

  /**
   * Each returned target is a parsed target (whose host `ParseLinesHosts` ties to its report
   * line) with the services parsed for it, and details that add the prioritiser's value and type
   * and the parse time to what the lines set.
   */
  lemma ParseTarget(output: string, now: int, i: nat)
    requires Parse(output, now).Ok? && i < |Parse(output, now).value.targets|
    ensures var parsed := ParseLines(Text.Split(output, '\n')).targets;
      var j := Parse(output, now).value.targets[i];
      var d := DetailsOf(j);
      var info := Prioritizer.InfoOf(TargetJson(parsed[i]).members);
      i < |parsed| && info.Ok? && Prioritizer.IsValue(info.value.value)
      && Get(j, "target_host") == Some(Str(parsed[i].host))
      && Get(j, "services") == Some(Arr(parsed[i].services))
      && Lookup(d, "value") == Some(Str(info.value.value))
      && Lookup(d, "host_type") == Some(Str(info.value.hostType))
      && Lookup(d, "scan_time") == Some(Int(now))
      && forall k :: k != "value" && k != "host_type" && k != "scan_time" ==> Lookup(d, k) == Lookup(parsed[i].details, k)
  {
    var parsed := ParseLines(Text.Split(output, '\n')).targets;
    RateAllAt(parsed, i);
    var info := Prioritizer.InfoOf(TargetJson(parsed[i]).members).value;
    InfoValueKnown(TargetJson(parsed[i]).members);
    assert Parse(output, now).value.targets[i] == TargetJson(Stamp(Rate(parsed[i], info), now));
    FinalTarget(parsed[i], info, now);
  }

  /** The dict of a rated, time-stamped target. */
  lemma FinalTarget(t: Target, info: Prioritizer.Info, now: int)
    ensures var j := TargetJson(Stamp(Rate(t, info), now));
      var d := DetailsOf(j);
      Get(j, "target_host") == Some(Str(t.host))
      && Get(j, "services") == Some(Arr(t.services))
      && Lookup(d, "value") == Some(Str(info.value))
      && Lookup(d, "host_type") == Some(Str(info.hostType))
      && Lookup(d, "scan_time") == Some(Int(now))
      && forall k :: k != "value" && k != "host_type" && k != "scan_time" ==> Lookup(d, k) == Lookup(t.details, k)
  {
    var d0 := t.details;
    var d1 := Put(d0, "value", Str(info.value));
    var d2 := Put(d1, "host_type", Str(info.hostType));
    var d3 := Put(d2, "scan_time", Int(now));
    PutLookups(d0, "value", Str(info.value));
    PutLookups(d1, "host_type", Str(info.hostType));
    PutLookups(d2, "scan_time", Int(now));
    TargetJsonGets(Stamp(Rate(t, info), now));
  }

  lemma TargetJsonGets(t: Target)
    ensures Get(TargetJson(t), "target_host") == Some(Str(t.host))
    ensures Get(TargetJson(t), "services") == Some(Arr(t.services))
    ensures DetailsOf(TargetJson(t)) == t.details
  {
    var ms := TargetJson(t).members;
    LookupSkip(ms, "services");
    assert ms[1..] == [Member("services", Arr(t.services)), Member("details", Obj(t.details))];
    LookupSkip(ms, "details");
    LookupSkip(ms[1..], "details");
    assert ms[1..][1..] == [Member("details", Obj(t.details))];
  }
}

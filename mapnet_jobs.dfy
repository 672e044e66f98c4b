/**
 * The map-network commander's bookkeeping for one scan phase: the jobs it hands out, and the
 * polling of the share collection that marks them done as their reports come back.
 */
module MapNetworkJobs {
  import opened Optional
  import opened JsonModel
  import Text
  import Seqs

  const DefaultScanTiming := 4
  const Placeholder := "TARGET"
  /** The quick host-discovery scan over the top 500 ports. */
  const FastScanCommand := "nmap " + Placeholder + " -T4 --top-ports 500"
  /** The all-ports TCP scan with service detection. */
  const IntenseTcpScanCommand := "nmap " + Placeholder + " -T4 -p 1-65535 -sV -Pn"
  /** The UDP scan of the top 500 UDP ports. */
  const UdpScanCommand := "nmap " + Placeholder + " -T4 --top-ports 500 -sU -sV -Pn"

  /** A template with every `TARGET` replaced by the target. */
  function CommandFor(template: string, target: string): string
  {
    Text.ReplaceAll(template, Placeholder, target)
  }

  /** A template that is `nmap` on the placeholder, followed by options that do not mention it, runs `nmap` on the target. */
  lemma NmapOnTarget(options: string, target: string)
    requires !Text.Contains(options, Placeholder)
    ensures CommandFor("nmap " + Placeholder + options, target) == "nmap " + target + options
  {
    Text.ReplaceOnce("nmap ", Placeholder, options, target);
  }

  /** Options without an `A` cannot hold the placeholder. */
  lemma NoPlaceholder(options: string)
    requires 'A' !in options
    ensures !Text.Contains(options, Placeholder)
  {
    Text.MissingCharNoOccurrence(options, Placeholder, 1);
  }

  /** Each template is an `nmap` call on the target with fixed options after it: */
  lemma FastScanCommandFor(target: string)
    ensures CommandFor(FastScanCommand, target) == "nmap " + target + " -T4 --top-ports 500"
  {
    NoPlaceholder(" -T4 --top-ports 500");
    NmapOnTarget(" -T4 --top-ports 500", target);
  }

  lemma IntenseTcpScanCommandFor(target: string)
    ensures CommandFor(IntenseTcpScanCommand, target) == "nmap " + target + " -T4 -p 1-65535 -sV -Pn"
  {
    NoPlaceholder(" -T4 -p 1-65535 -sV -Pn");
    NmapOnTarget(" -T4 -p 1-65535 -sV -Pn", target);
  }

  lemma UdpScanCommandFor(target: string)
    ensures CommandFor(UdpScanCommand, target) == "nmap " + target + " -T4 --top-ports 500 -sU -sV -Pn"
  {
    NoPlaceholder(" -T4 --top-ports 500 -sU -sV -Pn");
    NmapOnTarget(" -T4 --top-ports 500 -sU -sV -Pn", target);
  }

  /** The job handed out for the `num`-th target of a phase. */
  function Job(template: string, target: string, commander: string, num: int): Json
  {
    Obj([Member("command", Str(CommandFor(template, target))),
         Member("commander_source", Str(commander)),
         Member("job_number", Int(num)),
         Member("request_share", Bool(true))])
  }

  /** The jobs of a phase: one per target, in target order. */
  function Jobs(template: string, targets: seq<string>, commander: string): (jobs: seq<Json>)
  {
    seq(|targets|, i requires 0 <= i < |targets| => Job(template, targets[i], commander, i))
  }

  /**
   * The `i`-th job runs the template on the `i`-th target, carries job number `i` and the
   * commander's id, and asks for its report to be shared.
   */
  lemma JobsFields(template: string, targets: seq<string>, commander: string, i: nat)
    requires i < |targets|
    ensures var jobs := Jobs(template, targets, commander);
      |jobs| == |targets| && jobs[i].Obj?
      && Get(jobs[i], "command") == Some(Str(CommandFor(template, targets[i])))
      && Get(jobs[i], "commander_source") == Some(Str(commander))
      && Get(jobs[i], "job_number") == Some(Int(i))
      && Get(jobs[i], "request_share") == Some(Bool(true))
      && UniqueKeys(jobs[i].members)
  {
    var ms := Jobs(template, targets, commander)[i].members;
    assert Keys(ms) == ["command", "commander_source", "job_number", "request_share"];
    assert UniqueKeys(ms);
    LookupAt(ms, 0);
    LookupAt(ms, 1);
    LookupAt(ms, 2);
    LookupAt(ms, 3);
  }

  /** The loop that builds a phase's job list. */
  method BuildJobs(template: string, targets: seq<string>, commander: string) returns (jobs: seq<Json>)
    ensures jobs == Jobs(template, targets, commander)
  {
    jobs := [];
    var num := 0;
    while num < |targets|
      invariant num <= |targets|
      invariant jobs == Jobs(template, targets[..num], commander)
    {
      jobs := jobs + [Job(template, targets[num], commander, num)];
      num := num + 1;
    }
    assert targets[..num] == targets;
  }

  /** The job number a report carries, as Python's `==` compares it with an int: an int, or a bool as 0 or 1. */
  function ReportedNumber(report: Json): Option<int>
  {
    var n := Get(report, "job_number");
    if n.None? then None
    else match n.value
      case Int(i) => Some(i)
      case Bool(b) => Some(if b then 1 else 0)
      case _ => None
  }

  /** The uuid of the run a report describes (`None` prints as null in the query). */
  function PullUuid(report: Json): Json
  {
    var u := Get(report, "pull_command_uuid");
    if u.Some? then u.value else Null
  }

  /** `list.remove(x)`: the list without the first occurrence of `x`. */
  function RemoveFirst(s: seq<int>, x: int): seq<int>
  {
    if s == [] then [] else if s[0] == x then s[1..] else [s[0]] + RemoveFirst(s[1..], x)
  }

  /** The outstanding job numbers, and the uuids to fetch the results of. */
  datatype Marking = Marking(outstanding: seq<int>, toPull: seq<Json>)

  /** One report: a number still outstanding is struck off and its run's uuid kept; any other report is ignored. */
  function MarkOne(m: Marking, report: Json): Marking
  {
    var n := ReportedNumber(report);
    if n.None? || n.value !in m.outstanding then m
    else Marking(RemoveFirst(m.outstanding, n.value), m.toPull + [PullUuid(report)])
  }

  /** A batch of reports, in order. */
  function Mark(m: Marking, batch: seq<Json>): Marking
    decreases |batch|
  {
    if batch == [] then m else Mark(MarkOne(m, batch[0]), batch[1..])
  }

  /** The loop over a poll's reports. */
  method MarkCompleted(outstanding: seq<int>, batch: seq<Json>) returns (remaining: seq<int>, toPull: seq<Json>)
    ensures Marking(remaining, toPull) == Mark(Marking(outstanding, []), batch)
  {
    remaining, toPull := outstanding, [];
    var i := 0;
    while i < |batch|
      invariant i <= |batch|
      invariant Mark(Marking(remaining, toPull), batch[i..]) == Mark(Marking(outstanding, []), batch)
    {
      var n := ReportedNumber(batch[i]);
      assert batch[i..][1..] == batch[i + 1..];
      if n.Some? && n.value in remaining {
        remaining := RemoveFirst(remaining, n.value);
        toPull := toPull + [PullUuid(batch[i])];
      }
      i := i + 1;
    }
  }

  /** The job numbers a batch of reports names. */
  function Numbers(batch: seq<Json>): set<int>
  {
    if batch == [] then {}
    else
      var n := ReportedNumber(batch[0]);
      (if n.Some? then {n.value} else {}) + Numbers(batch[1..])
  }

  /** The numbers of `s` that are not in `done`, in order. */
  function Keep(s: seq<int>, done: set<int>): (r: seq<int>)
    ensures |r| <= |s|
  {
    if s == [] then [] else (if s[0] in done then [] else [s[0]]) + Keep(s[1..], done)
  }

  /** What is kept is what was there and is not done. */
  lemma {:induction false} KeepMembers(s: seq<int>, done: set<int>)
    ensures forall x :: x in Keep(s, done) <==> x in s && x !in done
  {
    if s != [] {
      KeepMembers(s[1..], done);
    }
  }

  lemma {:induction false} KeepNothing(s: seq<int>)
    ensures Keep(s, {}) == s
  {
    if s != [] {
      KeepNothing(s[1..]);
    }
  }

  lemma {:induction false} KeepAbsent(s: seq<int>, x: int, done: set<int>)
    requires x !in s
    ensures Keep(s, {x} + done) == Keep(s, done)
  {
    if s != [] {
      KeepAbsent(s[1..], x, done);
    }
  }

  lemma {:induction false} KeepTwice(s: seq<int>, a: set<int>, b: set<int>)
    ensures Keep(Keep(s, a), b) == Keep(s, a + b)
  {
    if s != [] {
      KeepTwice(s[1..], a, b);
      var k := Keep(s[1..], a);
      if s[0] !in a {
        assert Keep(s, a) == [s[0]] + k;
        assert ([s[0]] + k)[0] == s[0] && ([s[0]] + k)[1..] == k;
        assert Keep([s[0]] + k, b) == (if s[0] in b then [] else [s[0]]) + Keep(k, b);
      } else {
        assert Keep(s, a) == k;
      }
    }
  }

  /** In a list without repeats, removing the first occurrence removes them all. */
  lemma {:induction false} RemoveFirstKeep(s: seq<int>, x: int)
    requires Seqs.NoDup(s) && x in s
    ensures RemoveFirst(s, x) == Keep(s, {x})
    ensures |RemoveFirst(s, x)| == |s| - 1
  {
    assert forall j :: 1 <= j < |s| ==> s[j] != s[0];
    if s[0] == x {
      assert x !in s[1..];
      KeepAbsent(s[1..], x, {});
      assert {x} + {} == {x};
      KeepNothing(s[1..]);
    } else {
      assert Seqs.NoDup(s[1..]);
      assert x in s[1..];
      RemoveFirstKeep(s[1..], x);
    }
  }

  lemma {:induction false} KeepNoDup(s: seq<int>, done: set<int>)
    requires Seqs.NoDup(s)
    ensures Seqs.NoDup(Keep(s, done))
  {
    if s != [] {
      KeepNoDup(s[1..], done);
      KeepMembers(s[1..], done);
    }
  }

  /**
   * With no repeated numbers, a batch leaves outstanding exactly the numbers it did not report,
   * in their order, and keeps one uuid for every number it struck off.
   */
  lemma {:induction false} MarkKeeps(m: Marking, batch: seq<Json>)
    requires Seqs.NoDup(m.outstanding)
    ensures var r := Mark(m, batch);
      r.outstanding == Keep(m.outstanding, Numbers(batch))
      && |r.outstanding| + |r.toPull| == |m.outstanding| + |m.toPull|
      && r.toPull[..|m.toPull|] == m.toPull
    decreases |batch|
  {
    if batch == [] {
      KeepNothing(m.outstanding);
    } else {
      var n := ReportedNumber(batch[0]);
      var m1 := MarkOne(m, batch[0]);
      var rest := Numbers(batch[1..]);
      if n.None? {
        MarkKeeps(m1, batch[1..]);
        assert Numbers(batch) == rest;
      } else if n.value !in m.outstanding {
        MarkKeeps(m1, batch[1..]);
        KeepAbsent(m.outstanding, n.value, rest);
      } else {
        RemoveFirstKeep(m.outstanding, n.value);
        KeepNoDup(m.outstanding, {n.value});
        MarkKeeps(m1, batch[1..]);
        KeepTwice(m.outstanding, {n.value}, rest);
        var r := Mark(m1, batch[1..]);
        assert r.toPull[..|m1.toPull|] == m1.toPull;
        assert r.toPull[..|m.toPull|] == m1.toPull[..|m.toPull|];
      }
    }
  }

  /** What the poll loop records besides its results. */
  datatype Event =
    | Slept(seconds: int)
      /** The oldest outstanding job was not reported by a non-empty poll; the jobs still outstanding. */
    | MayBeStuck(job: int, remaining: seq<int>)
      /** The target collection was queried for the records of these runs. */
    | Queried(uuids: seq<Json>)

  /**
   * A phase's polling so far: the jobs outstanding, how many polls it has made, every report it
   * popped, the target records it fetched, and what it recorded.
   */
  datatype Phase = Phase(outstanding: seq<int>, used: nat, meta: seq<Json>, results: seq<Json>, events: seq<Event>)

  /** A phase of `count` jobs before its first poll. */
  function Start(count: nat): Phase
  {
    Phase(Seqs.Range(0, count), 0, [], [], [])
  }

  /**
   * One pass of the poll loop: sleep, pop the reports of finished jobs; a non-empty batch strikes
   * off its jobs, warns when the oldest outstanding job is still the oldest, and fetches the
   * target records of the runs it reported. `fetch` is the target collection's answer to a query.
   */
  function PollOnce(ph: Phase, batch: seq<Json>, interval: int, fetch: seq<Json> -> seq<Json>): Phase
    requires ph.outstanding != []
  {
    var slept := ph.events + [Slept(interval)];
    if batch == [] then Phase(ph.outstanding, ph.used + 1, ph.meta, ph.results, slept)
    else
      var oldest := ph.outstanding[0];
      var m := Mark(Marking(ph.outstanding, []), batch);
      Phase(m.outstanding, ph.used + 1, ph.meta + batch, ph.results + fetch(m.toPull),
            slept + Warning(oldest, m.outstanding) + [Queried(m.toPull)])
  }

  /** The warning printed when the job that was oldest before a poll is still the oldest after it. */
  function Warning(oldest: int, remaining: seq<int>): seq<Event>
  {
    if remaining != [] && remaining[0] == oldest then [MayBeStuck(oldest, remaining)] else []
  }

  /** The poll loop, run on the share collection's successive answers until no job is outstanding. */
  function PollFrom(ph: Phase, polls: seq<seq<Json>>, interval: int, fetch: seq<Json> -> seq<Json>): Phase
    decreases |polls|
  {
    if ph.outstanding == [] || polls == [] then ph
    else PollFrom(PollOnce(ph, polls[0], interval, fetch), polls[1..], interval, fetch)
  }

  /** The poll loop of one phase; `polls` are the successive answers of the share collection. */
  method PollJobs(count: nat, polls: seq<seq<Json>>, interval: int, fetch: seq<Json> -> seq<Json>) returns (ph: Phase)
    ensures ph == PollFrom(Start(count), polls, interval, fetch)
  {
    var outstanding := Seqs.Range(0, count);
    var meta, results, events := [], [], [];
    var i := 0;
    while |outstanding| > 0 && i < |polls|
      invariant i <= |polls|
      invariant PollFrom(Phase(outstanding, i, meta, results, events), polls[i..], interval, fetch)
             == PollFrom(Start(count), polls, interval, fetch)
      decreases |polls| - i
    {
      var batch := polls[i];
      ghost var before := Phase(outstanding, i, meta, results, events);
      assert polls[i..][0] == batch && polls[i..][1..] == polls[i + 1..];
      events := events + [Slept(interval)];
      if |batch| > 0 {
        meta := meta + batch;
        var oldest := outstanding[0];
        var toPull;
        outstanding, toPull := MarkCompleted(outstanding, batch);
        if |outstanding| > 0 && oldest == outstanding[0] {
          events := events + [MayBeStuck(oldest, outstanding)];
        }
        events := events + [Queried(toPull)];
        results := results + fetch(toPull);
      }
      i := i + 1;
      assert Phase(outstanding, i, meta, results, events) == PollOnce(before, batch, interval, fetch);
    }
    ph := Phase(outstanding, i, meta, results, events);
  }

  /** The numbers reported by a run of polls, together. */
  function Reported(polls: seq<seq<Json>>): set<int>
  {
    if polls == [] then {} else Numbers(polls[0]) + Reported(polls[1..])
  }

  lemma {:induction false} ReportedSnoc(polls: seq<seq<Json>>, batch: seq<Json>)
    ensures Reported(polls + [batch]) == Reported(polls) + Numbers(batch)
  {
    if polls == [] {
      assert polls + [batch] == [batch];
    } else {
      assert (polls + [batch])[1..] == polls[1..] + [batch];
      ReportedSnoc(polls[1..], batch);
    }
  }

  /** One pass leaves outstanding exactly the numbers its batch did not report. */
  lemma PollOnceKeeps(ph: Phase, batch: seq<Json>, interval: int, fetch: seq<Json> -> seq<Json>)
    requires ph.outstanding != [] && Seqs.NoDup(ph.outstanding)
    ensures PollOnce(ph, batch, interval, fetch).outstanding == Keep(ph.outstanding, Numbers(batch))
  {
    if batch == [] {
      KeepNothing(ph.outstanding);
    } else {
      MarkKeeps(Marking(ph.outstanding, []), batch);
    }
  }

  /** The poll loop ends only when no job is outstanding or the answers run out, one answer per pass. */
  lemma {:induction false} PollFromUsed(ph: Phase, polls: seq<seq<Json>>, interval: int, fetch: seq<Json> -> seq<Json>)
    ensures var r := PollFrom(ph, polls, interval, fetch);
      ph.used <= r.used <= ph.used + |polls|
      && (r.outstanding == [] || r.used == ph.used + |polls|)
    decreases |polls|
  {
    if ph.outstanding != [] && polls != [] {
      PollFromUsed(PollOnce(ph, polls[0], interval, fetch), polls[1..], interval, fetch);
    }
  }

  /** What is still outstanding is exactly the jobs no answer the loop used has reported, in their order. */
  lemma {:induction false} PollFromKeeps(ph: Phase, polls: seq<seq<Json>>, interval: int, fetch: seq<Json> -> seq<Json>)
    requires Seqs.NoDup(ph.outstanding)
    ensures var r := PollFrom(ph, polls, interval, fetch);
      ph.used <= r.used <= ph.used + |polls|
      && r.outstanding == Keep(ph.outstanding, Reported(polls[..r.used - ph.used]))
    decreases |polls|
  {
    if ph.outstanding == [] || polls == [] {
      assert polls[..0] == [];
      KeepNothing(ph.outstanding);
    } else {
      var next := PollOnce(ph, polls[0], interval, fetch);
      var r := PollFrom(next, polls[1..], interval, fetch);
      assert PollFrom(ph, polls, interval, fetch) == r && next.used == ph.used + 1 by {
        PollNext(ph, polls, interval, fetch);
      }
      assert next.outstanding == Keep(ph.outstanding, Numbers(polls[0])) && Seqs.NoDup(next.outstanding) by {
        PollOnceKeeps(ph, polls[0], interval, fetch);
        KeepNoDup(ph.outstanding, Numbers(polls[0]));
      }
      assert next.used <= r.used <= next.used + |polls| - 1
        && r.outstanding == Keep(next.outstanding, Reported(polls[1..][..r.used - next.used])) by {
        PollFromKeeps(next, polls[1..], interval, fetch);
      }
      KeepsStep(ph, next, r, polls);
    }
  }

  /** One step of `PollFromKeeps`, on the phases alone: the first poll's survivors, then what the rest keep of them. */
  lemma KeepsStep(ph: Phase, next: Phase, r: Phase, polls: seq<seq<Json>>)
    requires polls != [] && next.used == ph.used + 1 && next.used <= r.used <= next.used + |polls| - 1
    requires next.outstanding == Keep(ph.outstanding, Numbers(polls[0]))
    requires r.outstanding == Keep(next.outstanding, Reported(polls[1..][..r.used - next.used]))
    ensures r.outstanding == Keep(ph.outstanding, Reported(polls[..r.used - ph.used]))
  {
    ReportedStep(ph.outstanding, polls, r.used - next.used);
  }

  lemma ReportedStep(s: seq<int>, polls: seq<seq<Json>>, k: nat)
    requires k < |polls|
    ensures Keep(Keep(s, Numbers(polls[0])), Reported(polls[1..][..k])) == Keep(s, Reported(polls[..k + 1]))
  {
    KeepTwice(s, Numbers(polls[0]), Reported(polls[1..][..k]));
    assert polls[..k + 1] == [polls[0]] + polls[1..][..k];
    assert ([polls[0]] + polls[1..][..k])[1..] == polls[1..][..k];
  }

  lemma PollNext(ph: Phase, polls: seq<seq<Json>>, interval: int, fetch: seq<Json> -> seq<Json>)
    requires ph.outstanding != [] && polls != []
    ensures var next := PollOnce(ph, polls[0], interval, fetch);
      next.used == ph.used + 1 && PollFrom(ph, polls, interval, fetch) == PollFrom(next, polls[1..], interval, fetch)
  {
  }

  /**
   * A phase of `count` jobs whose polling ended with nothing outstanding has had every job number
   * 0..count-1 reported by some answer it used; while the answers last, it does not stop earlier.
   */
  lemma PhaseDoneOnlyWhenAllReported(count: nat, polls: seq<seq<Json>>, interval: int, fetch: seq<Json> -> seq<Json>)
    ensures var r := PollFrom(Start(count), polls, interval, fetch);
      r.used <= |polls|
      && (r.outstanding == [] ==> forall j :: 0 <= j < count ==> j in Reported(polls[..r.used]))
      && (r.outstanding != [] ==> r.used == |polls|)
  {
    var range := Seqs.Range(0, count);
    assert Seqs.NoDup(range);
    PollFromUsed(Start(count), polls, interval, fetch);
    PollFromKeeps(Start(count), polls, interval, fetch);
    var r := PollFrom(Start(count), polls, interval, fetch);
    forall j | 0 <= j < count && r.outstanding == [] ensures j in Reported(polls[..r.used]) {
      assert range[j] == j;
      KeepMembers(range, Reported(polls[..r.used]));
    }
  }

  /** The numbers kept from an ascending list stay ascending. */
  lemma {:induction false} KeepAscending(s: seq<int>, done: set<int>)
    requires Seqs.Ascending(s)
    ensures Seqs.Ascending(Keep(s, done))
  {
    if s != [] {
      KeepAscending(s[1..], done);
      var k := Keep(s[1..], done);
      if s[0] !in done {
        forall j | 0 <= j < |k| ensures s[0] < k[j] {
          assert k[j] in s[1..] by { KeepMembers(s[1..], done); }
          var i :| 0 <= i < |s[1..]| && s[1..][i] == k[j];
          assert s[0] < s[i + 1];
        }
        assert Keep(s, done) == [s[0]] + k;
      } else {
        assert Keep(s, done) == k;
      }
    }
  }

  /**
   * Outstanding job numbers are ascending, so the head is the oldest job: a poll warns that it
   * may be stuck exactly when its batch was non-empty, jobs remain, and the oldest was not reported.
   */
  lemma StuckWhenOldestUnreported(ph: Phase, batch: seq<Json>, interval: int, fetch: seq<Json> -> seq<Json>)
    requires ph.outstanding != [] && Seqs.Ascending(ph.outstanding)
    ensures var next := PollOnce(ph, batch, interval, fetch);
      Seqs.Ascending(next.outstanding) && |ph.events| < |next.events|
      && (MayBeStuck(ph.outstanding[0], next.outstanding) in next.events[|ph.events|..]
          <==> batch != [] && next.outstanding != [] && ph.outstanding[0] !in Numbers(batch))
  {
    var s := ph.outstanding;
    var next := PollOnce(ph, batch, interval, fetch);
    PollOnceKeeps(ph, batch, interval, fetch);
    KeepAscending(s, Numbers(batch));
    PollOnceEvents(ph, batch, interval, fetch);
    var w := Warning(s[0], next.outstanding);
    if batch != [] && next.outstanding != [] {
      var done := Numbers(batch);
      if s[0] in done {
        assert next.outstanding == Keep(s[1..], done);
        KeepMembers(s[1..], done);
        assert next.outstanding[0] in s[1..];
        assert w == [];
      } else {
        assert next.outstanding[0] == s[0];
        assert w == [MayBeStuck(s[0], next.outstanding)];
      }
    }
  }

  lemma PollOnceEvents(ph: Phase, batch: seq<Json>, interval: int, fetch: seq<Json> -> seq<Json>)
    requires ph.outstanding != []
    ensures var next := PollOnce(ph, batch, interval, fetch);
      |ph.events| < |next.events|
      && next.events[|ph.events|..] == [Slept(interval)]
           + (if batch == [] then [] else Warning(ph.outstanding[0], next.outstanding) + [Queried(Mark(Marking(ph.outstanding, []), batch).toPull)])
  {
  }
}

/**
 * The shape of the worker's poll loop, independent of what a job is: each turn takes one answer
 * from the server and either asks for another at once or ends the turn's draining; between
 * drains the loop sleeps for its watch interval.
 */
module Polling {
  import Seqs

  /**
   * What handling one answer asks for: stop draining, pull again at once, or nothing more at all,
   * because an exception nobody catches ended the worker's thread.
   */
  datatype Next = Stop | Again | Crash

  /** What handling one answer produced, what it asks for next, and the state after it. */
  datatype Turn<E, S> = Turn(out: seq<E>, next: Next, state: S)

  /** A draining of the server: what it produced, how many answers it used, whether it ended the thread, and the state after it. */
  datatype Drain<E, S> = Drain(out: seq<E>, used: nat, crashed: bool, state: S)

  /** Pull and handle answers while each handled answer asks for another; a server with no answers left answers nothing. */
  function Drained<P, E, S>(step: (P, S) -> Turn<E, S>, pulls: seq<P>, st: S): (r: Drain<E, S>)
    ensures r.used <= |pulls|
    ensures r.used == 0 <==> |pulls| == 0
    decreases |pulls|
  {
    if |pulls| == 0 then Drain([], 0, false, st)
    else
      var t := step(pulls[0], st);
      match t.next
      case Again =>
        var rest := Drained(step, pulls[1..], t.state);
        Drain(t.out + rest.out, rest.used + 1, rest.crashed, rest.state)
      case Stop => Drain(t.out, 1, false, t.state)
      case Crash => Drain(t.out, 1, true, t.state)
  }

  /** `used` answers already drained into `out`, followed by the drain `d`. */
  function Joined<E, S>(out: seq<E>, used: nat, d: Drain<E, S>): Drain<E, S>
  {
    Drain(out + d.out, used + d.used, d.crashed, d.state)
  }

  /** Draining answer by answer: the first answer joins what was drained before it. */
  lemma DrainFirst<P, E, S>(step: (P, S) -> Turn<E, S>, out: seq<E>, used: nat, pulls: seq<P>, st: S)
    requires |pulls| != 0
    ensures var t := step(pulls[0], st);
      Joined(out, used, Drained(step, pulls, st))
        == if t.next == Again then Joined(out + t.out, used + 1, Drained(step, pulls[1..], t.state))
           else Drain(out + t.out, used + 1, t.next == Crash, t.state)
  {
    var t := step(pulls[0], st);
    if t.next == Again {
      Seqs.AppendAssoc(out, t.out, Drained(step, pulls[1..], t.state).out);
    }
  }

  /** The state before the `i`-th answer, when every earlier one asked for another. */
  function StateAt<P, E, S>(step: (P, S) -> Turn<E, S>, pulls: seq<P>, st: S, i: nat): S
    requires i <= |pulls|
  {
    if i == 0 then st else StateAt(step, pulls[1..], step(pulls[0], st).state, i - 1)
  }

  /** The turn the `i`-th answer leads to, when every earlier one asked for another. */
  function TurnAt<P, E, S>(step: (P, S) -> Turn<E, S>, pulls: seq<P>, st: S, i: nat): Turn<E, S>
    requires i < |pulls|
  {
    step(pulls[i], StateAt(step, pulls, st, i))
  }

  lemma ShiftTurn<P, E, S>(step: (P, S) -> Turn<E, S>, pulls: seq<P>, st: S, i: nat)
    requires 0 < i < |pulls|
    ensures TurnAt(step, pulls, st, i) == TurnAt(step, pulls[1..], step(pulls[0], st).state, i - 1)
  {
    assert pulls[i] == pulls[1..][i - 1];
  }

  /**
   * Draining empties the server as far as it can: every answer used but the last asked for
   * another, it stops before the answers run out only on an answer that did not, and it ends
   * the thread exactly when the last answer used did.
   */
  lemma {:induction false} DrainStopsOnlyWhenAsked<P, E, S>(step: (P, S) -> Turn<E, S>, pulls: seq<P>, st: S)
    ensures var r := Drained(step, pulls, st);
      (forall i :: 0 <= i < r.used - 1 ==> TurnAt(step, pulls, st, i).next.Again?)
      && (0 < r.used < |pulls| ==> !TurnAt(step, pulls, st, r.used - 1).next.Again?)
      && (r.crashed <==> 0 < r.used && TurnAt(step, pulls, st, r.used - 1).next.Crash?)
    decreases |pulls|
  {
    if |pulls| != 0 {
      var t := step(pulls[0], st);
      assert TurnAt(step, pulls, st, 0) == t;
      if t.next.Again? {
        var r := Drained(step, pulls, st);
        var rest := Drained(step, pulls[1..], t.state);
        DrainStopsOnlyWhenAsked(step, pulls[1..], t.state);
        forall i | 0 <= i < r.used - 1 ensures TurnAt(step, pulls, st, i).next.Again? {
          if i > 0 {
            ShiftTurn(step, pulls, st, i);
          }
        }
        if 1 < r.used {
          ShiftTurn(step, pulls, st, r.used - 1);
        }
      }
    }
  }

  /**
   * A drain whose answers all ask for another uses them all and ends with the server empty,
   * however many there are.
   */
  lemma {:induction false} AllAgainDrainsAll<P, E, S>(step: (P, S) -> Turn<E, S>, pulls: seq<P>, st: S)
    requires forall i :: 0 <= i < |pulls| ==> TurnAt(step, pulls, st, i).next.Again?
    ensures var r := Drained(step, pulls, st);
      r.used == |pulls| && !r.crashed && r.state == StateAt(step, pulls, st, |pulls|)
    decreases |pulls|
  {
    if |pulls| != 0 {
      var t := step(pulls[0], st);
      assert TurnAt(step, pulls, st, 0) == t;
      forall i | 0 <= i < |pulls[1..]| ensures TurnAt(step, pulls[1..], t.state, i).next.Again? {
        ShiftTurn(step, pulls, st, i + 1);
      }
      AllAgainDrainsAll(step, pulls[1..], t.state);
    }
  }

  /**
   * `__run_loop_once` as written: a completed run calls `__run_loop_once` again instead of
   * looping, so each job that asks for another holds one more frame of the thread's stack.
   * `room` is how many nested calls the stack still has room for; entering one more raises a
   * RecursionError that nothing catches, before the server is asked again.
   */
  function DrainedAsWritten<P, E, S>(step: (P, S) -> Turn<E, S>, pulls: seq<P>, st: S, room: nat): (r: Drain<E, S>)
    ensures r.used <= |pulls|
    decreases |pulls|
  {
    if room == 0 then Drain([], 0, true, st)
    else if |pulls| == 0 then Drain([], 0, false, st)
    else
      var t := step(pulls[0], st);
      match t.next
      case Again =>
        var rest := DrainedAsWritten(step, pulls[1..], t.state, room - 1);
        Drain(t.out + rest.out, rest.used + 1, rest.crashed, rest.state)
      case Stop => Drain(t.out, 1, false, t.state)
      case Crash => Drain(t.out, 1, true, t.state)
  }

  /** While the stack has room for every nested call, the recursion drains exactly as the loop does. */
  lemma {:induction false} ShallowDrainAgrees<P, E, S>(step: (P, S) -> Turn<E, S>, pulls: seq<P>, st: S, room: nat)
    requires Drained(step, pulls, st).used < room
    ensures DrainedAsWritten(step, pulls, st, room) == Drained(step, pulls, st)
    decreases |pulls|
  {
    if |pulls| != 0 {
      var t := step(pulls[0], st);
      if t.next.Again? {
        ShallowDrainAgrees(step, pulls[1..], t.state, room - 1);
      }
    }
  }

  /**
   * `room` jobs in a row that each ask for another end the worker's thread as written, with
   * nothing of a later answer used, where the loop goes on draining: it uses more answers, or
   * ends with the server empty and the thread alive.
   */
  lemma {:induction false} DeepDrainCrashes<P, E, S>(step: (P, S) -> Turn<E, S>, pulls: seq<P>, st: S, room: nat)
    requires room <= |pulls|
    requires forall i :: 0 <= i < room ==> TurnAt(step, pulls, st, i).next.Again?
    ensures var r := DrainedAsWritten(step, pulls, st, room);
      r.crashed && r.used == room && r.state == StateAt(step, pulls, st, room)
    ensures room < |pulls| ==> Drained(step, pulls, st).used > room
    ensures room == |pulls| ==> !Drained(step, pulls, st).crashed
    decreases room
  {
    if room != 0 {
      var t := step(pulls[0], st);
      assert TurnAt(step, pulls, st, 0) == t;
      forall i | 0 <= i < room - 1 ensures TurnAt(step, pulls[1..], t.state, i).next.Again? {
        ShiftTurn(step, pulls, st, i + 1);
      }
      DeepDrainCrashes(step, pulls[1..], t.state, room - 1);
    } else if |pulls| == 0 {
      assert Drained(step, pulls, st) == Drain([], 0, false, st);
    }
  }

  /** What the loop does that can be observed: an output of a turn, or a sleep between drains. */
  datatype Effect<E> = Emitted(e: E) | Slept(seconds: nat)

  /** Outputs as effects, in order. */
  function Emit<E>(out: seq<E>): (r: seq<Effect<E>>)
    ensures |r| == |out| && forall i :: 0 <= i < |r| ==> r[i] == Emitted(out[i])
  {
    seq(|out|, i requires 0 <= i < |out| => Emitted(out[i]))
  }

  lemma EmitAppend<E>(a: seq<E>, b: seq<E>)
    ensures Emit(a + b) == Emit(a) + Emit(b)
  {
    assert forall i :: 0 <= i < |a + b| ==> Emit(a + b)[i] == (Emit(a) + Emit(b))[i];
  }

  /**
   * `rounds` turns of the endless loop: each drains the server, then sleeps for the interval; a
   * drain that ended the thread ends the loop there, without the sleep.
   */
  datatype Rounds<P, E, S> = Rounds(effects: seq<Effect<E>>, rest: seq<P>, crashed: bool, state: S)

  function Looped<P, E, S>(step: (P, S) -> Turn<E, S>, pulls: seq<P>, st: S, interval: nat, rounds: nat): Rounds<P, E, S>
    decreases rounds
  {
    if rounds == 0 then Rounds([], pulls, false, st)
    else
      var d := Drained(step, pulls, st);
      if d.crashed then Rounds(Emit(d.out), pulls[d.used..], true, d.state)
      else
        var next := Looped(step, pulls[d.used..], d.state, interval, rounds - 1);
        Rounds(Emit(d.out) + [Slept(interval)] + next.effects, next.rest, next.crashed, next.state)
  }

  /** What one round adds to the effects: the drain's syncs, then the sleep unless the thread ended. */
  function RoundEffects<E, S>(d: Drain<E, S>, interval: nat): seq<Effect<E>>
  {
    Emit(d.out) + if d.crashed then [] else [Slept(interval)]
  }

  /**
   * `goal` is what is left of a loop once the effects `done` have happened, with `pulls` unanswered
   * and the state `st`: the `left` rounds still to go, or nothing more when the thread has ended.
   */
  ghost predicate Ahead<P, E, S>(step: (P, S) -> Turn<E, S>, interval: nat, goal: Rounds<P, E, S>,
                                 done: seq<Effect<E>>, pulls: seq<P>, st: S, left: nat, crashed: bool)
  {
    if crashed then goal == Rounds(done, pulls, true, st)
    else var r := Looped(step, pulls, st, interval, left); goal == Rounds(done + r.effects, r.rest, r.crashed, r.state)
  }

  /** Before the first round, the whole loop is ahead. */
  lemma AheadStart<P, E, S>(step: (P, S) -> Turn<E, S>, pulls: seq<P>, st: S, interval: nat, rounds: nat)
    ensures Ahead(step, interval, Looped(step, pulls, st, interval, rounds), [], pulls, st, rounds, false)
  {
    assert [] + Looped(step, pulls, st, interval, rounds).effects == Looped(step, pulls, st, interval, rounds).effects;
  }

  /**
   * Looping round by round: one round's drain and sleep join what was done before it, and a
   * drain that ends the thread ends the loop.
   */
  lemma LoopRound<P, E, S>(step: (P, S) -> Turn<E, S>, interval: nat, goal: Rounds<P, E, S>,
                           done: seq<Effect<E>>, pulls: seq<P>, st: S, left: nat,
                           done': seq<Effect<E>>, pulls': seq<P>, st': S, left': nat, crashed': bool)
    requires left > 0 && Ahead(step, interval, goal, done, pulls, st, left, false)
    requires var d := Drained(step, pulls, st);
      done' == done + RoundEffects(d, interval) && pulls' == pulls[d.used..] && st' == d.state
      && left' == left - 1 && crashed' == d.crashed
    ensures Ahead(step, interval, goal, done', pulls', st', left', crashed')
  {
    var d := Drained(step, pulls, st);
    if d.crashed {
      assert RoundEffects(d, interval) == Emit(d.out);
    } else {
      var next := Looped(step, pulls[d.used..], d.state, interval, left - 1);
      Seqs.AppendAssoc(done, Emit(d.out) + [Slept(interval)], next.effects);
    }
  }

  /** When no round is left, or the thread has ended, what is done is the whole loop. */
  lemma AheadDone<P, E, S>(step: (P, S) -> Turn<E, S>, interval: nat, goal: Rounds<P, E, S>,
                           done: seq<Effect<E>>, pulls: seq<P>, st: S, left: nat, crashed: bool)
    requires crashed || left == 0
    requires Ahead(step, interval, goal, done, pulls, st, left, crashed)
    ensures goal == Rounds(done, pulls, crashed, st)
  {
    if !crashed {
      assert done + [] == done;
    }
  }

  /** How many sleeps a list of effects holds. */
  function Sleeps<E>(effects: seq<Effect<E>>): nat
  {
    if |effects| == 0 then 0 else (if effects[0].Slept? then 1 else 0) + Sleeps(effects[1..])
  }

  lemma {:induction false} SleepsAppend<E>(a: seq<Effect<E>>, b: seq<Effect<E>>)
    ensures Sleeps(a + b) == Sleeps(a) + Sleeps(b)
    decreases |a|
  {
    if |a| != 0 {
      assert (a + b)[0] == a[0];
      assert (a + b)[1..] == a[1..] + b;
      SleepsAppend(a[1..], b);
    } else {
      assert a + b == b;
    }
  }

  lemma {:induction false} EmitNoSleep<E>(out: seq<E>)
    ensures Sleeps(Emit(out)) == 0
    decreases |out|
  {
    if |out| != 0 {
      assert Emit(out)[1..] == Emit(out[1..]);
      EmitNoSleep(out[1..]);
    }
  }

  /** A round's effects hold one sleep more than the rounds after it. */
  lemma SleepsRound<E>(out: seq<E>, interval: nat, later: seq<Effect<E>>)
    ensures Sleeps(Emit(out) + [Slept(interval)] + later) == 1 + Sleeps(later)
  {
    SleepsAppend(Emit(out), [Slept(interval)]);
    SleepsAppend(Emit(out) + [Slept(interval)], later);
    EmitNoSleep(out);
    assert Sleeps<E>([Slept(interval)]) == 1;
  }

  /**
   * The loop sleeps exactly once per round while its thread lives, and a round that ends the
   * thread has no sleep and no round after it; what it leaves of the answers is a suffix of
   * them: answers are used in order and none is used twice.
   */
  lemma OneSleepPerRound<P, E, S>(step: (P, S) -> Turn<E, S>, pulls: seq<P>, st: S, interval: nat, rounds: nat)
    ensures var r := Looped(step, pulls, st, interval, rounds);
      (!r.crashed ==> Sleeps(r.effects) == rounds) && (r.crashed ==> Sleeps(r.effects) < rounds)
      && |r.rest| <= |pulls| && r.rest == pulls[|pulls| - |r.rest|..]
  {
    LoopedSleeps(step, pulls, st, interval, rounds);
    LoopedRest(step, pulls, st, interval, rounds);
  }

  lemma {:induction false} LoopedSleeps<P, E, S>(step: (P, S) -> Turn<E, S>, pulls: seq<P>, st: S, interval: nat, rounds: nat)
    ensures var r := Looped(step, pulls, st, interval, rounds);
      (!r.crashed ==> Sleeps(r.effects) == rounds) && (r.crashed ==> Sleeps(r.effects) < rounds)
    decreases rounds
  {
    if rounds > 0 {
      var d := Drained(step, pulls, st);
      if d.crashed {
        EmitNoSleep(d.out);
      } else {
        var next := Looped(step, pulls[d.used..], d.state, interval, rounds - 1);
        LoopedSleeps(step, pulls[d.used..], d.state, interval, rounds - 1);
        SleepsRound(d.out, interval, next.effects);
      }
    }
  }

  lemma {:induction false} LoopedRest<P, E, S>(step: (P, S) -> Turn<E, S>, pulls: seq<P>, st: S, interval: nat, rounds: nat)
    ensures var r := Looped(step, pulls, st, interval, rounds);
      |r.rest| <= |pulls| && r.rest == pulls[|pulls| - |r.rest|..]
    decreases rounds
  {
    if rounds > 0 {
      var d := Drained(step, pulls, st);
      var rest := pulls[d.used..];
      if !d.crashed {
        var next := Looped(step, rest, d.state, interval, rounds - 1);
        LoopedRest(step, rest, d.state, interval, rounds - 1);
        assert rest[|rest| - |next.rest|..] == pulls[|pulls| - |next.rest|..];
      }
    }
  }
}

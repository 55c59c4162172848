/**
 * `watch()`: the loop that receives fsnotify's events and errors and runs
 * scan passes. Every pass gets its own answers from the outside world,
 * numbered in the order the passes run.
 */
module Dispatch {

  import opened Directory
  import opened Pipeline

  /** fsnotify.Op, a set of bits. */
  type Op = bv32

  const OpCreate: Op := 1
  const OpWrite: Op := 2

  /** What the select statement receives, from either channel. */
  datatype Message =
    | Event(name: string, op: Op)   // from watcher.Events
    | EventsClosed                  // watcher.Events is closed
    | WatchError                    // from watcher.Errors
    | ErrorsClosed                  // watcher.Errors is closed

  /** How the loop ended: a channel closed, a pass ended the process, or it is still waiting. */
  datatype Stop = Closed | Fatal | Waiting

  /** Lines 81-86: a Write bit and a Create bit each cause one pass. */
  function Triggers(op: Op): (n: nat)
    ensures n <= 2
    ensures n == 0 <==> op & (OpCreate | OpWrite) == 0
    ensures n == 2 <==> op & OpCreate == OpCreate && op & OpWrite == OpWrite
  {
    (if op & OpWrite == OpWrite then 1 else 0) + (if op & OpCreate == OpCreate then 1 else 0)
  }

  /** Where the relay is after a run of the loop. */
  datatype Run = Run(dir: map<string, Kind>, effects: seq<Effect>, passes: nat, stop: Stop)

  /** `r`, preceded by the effects `fx`. */
  function After(fx: seq<Effect>, r: Run): Run {
    Run(r.dir, fx + r.effects, r.passes, r.stop)
  }

  lemma AfterAfter(a: seq<Effect>, b: seq<Effect>, r: Run)
    ensures After(a, After(b, r)) == After(a + b, r)
  {
    AppendAssoc(a, b, r.effects);
  }

  lemma AfterNothing(a: seq<Effect>, dir: map<string, Kind>, k: nat, stop: Stop)
    ensures After(a, Run(dir, [], k, stop)) == Run(dir, a, k, stop)
  {
    assert a + [] == a;
  }

  /** `m` passes in a row, numbered from `k`; a failed directory read ends the process. */
  ghost function Passes(c: Config, dir: map<string, Kind>, m: nat, inputs: nat -> PassInput, k: nat): Run
    decreases m
  {
    if m == 0 then Run(dir, [], k, Waiting)
    else
      var r := Pass(c, dir, inputs(k));
      if r.fatal then Run(r.dir, r.effects, k + 1, Fatal)
      else After(r.effects, Passes(c, r.dir, m - 1, inputs, k + 1))
  }

  /** The loop of `watch()` over the messages `msgs`, the next pass being number `k`. */
  ghost function WatchRun(c: Config, dir: map<string, Kind>, msgs: seq<Message>, inputs: nat -> PassInput, k: nat): Run
    decreases |msgs|
  {
    if msgs == [] then Run(dir, [], k, Waiting)
    else match msgs[0]
      case EventsClosed => Run(dir, [], k, Closed)
      case ErrorsClosed => Run(dir, [], k, Closed)
      case WatchError => WatchRun(c, dir, msgs[1..], inputs, k)
      case Event(_, op) =>
        var r := Passes(c, dir, Triggers(op), inputs, k);
        if r.stop == Fatal then r
        else After(r.effects, WatchRun(c, r.dir, msgs[1..], inputs, r.passes))
  }

  /** One pass: its result, numbered `k`. */
  lemma PassesOne(c: Config, dir: map<string, Kind>, inputs: nat -> PassInput, k: nat)
    ensures var r := Pass(c, dir, inputs(k));
      Passes(c, dir, 1, inputs, k) == Run(r.dir, r.effects, k + 1, if r.fatal then Fatal else Waiting)
  {
    var r := Pass(c, dir, inputs(k));
    assert r.effects + [] == r.effects;
  }

  /** `a + b` passes are `a` passes, then, unless one was fatal, `b` more. */
  lemma {:induction false} PassesSplit(c: Config, dir: map<string, Kind>, a: nat, b: nat, inputs: nat -> PassInput, k: nat)
    ensures Passes(c, dir, a + b, inputs, k) ==
      var r := Passes(c, dir, a, inputs, k);
      if r.stop == Fatal then r else After(r.effects, Passes(c, r.dir, b, inputs, r.passes))
    decreases a
  {
    if a == 0 {
      assert [] + Passes(c, dir, b, inputs, k).effects == Passes(c, dir, b, inputs, k).effects;
    } else {
      var p := Pass(c, dir, inputs(k));
      if !p.fatal {
        PassesSplit(c, p.dir, a - 1, b, inputs, k + 1);
        var r' := Passes(c, p.dir, a - 1, inputs, k + 1);
        AfterAfter(p.effects, r'.effects, Passes(c, r'.dir, b, inputs, r'.passes));
      }
    }
  }

  /** The loop from message `i` on: the step for message `i`, then the rest. */
  lemma WatchRunStep(c: Config, dir: map<string, Kind>, msgs: seq<Message>, i: int, inputs: nat -> PassInput, k: nat)
    requires 0 <= i < |msgs|
    ensures WatchRun(c, dir, msgs[i..], inputs, k) ==
      if msgs[i].EventsClosed? || msgs[i].ErrorsClosed? then Run(dir, [], k, Closed)
      else if msgs[i].WatchError? then WatchRun(c, dir, msgs[i + 1..], inputs, k)
      else
        var r := Passes(c, dir, Triggers(msgs[i].op), inputs, k);
        if r.stop == Fatal then r
        else After(r.effects, WatchRun(c, r.dir, msgs[i + 1..], inputs, r.passes))
  {
    assert msgs[i..][0] == msgs[i];
    assert msgs[i..][1..] == msgs[i + 1..];
  }
}

/**
 * What the `watch()` loop promises over a whole sequence of messages: how
 * many passes it runs, that errors and other events are only logged or
 * ignored, that the event's file name plays no part, and that nothing after
 * a closed channel or a failed directory read happens.
 */
module DispatchProperties {

  import opened Directory
  import opened Pipeline
  import opened Dispatch

  /** A message that closes one of the two channels. */
  predicate Closing(m: Message) {
    m.EventsClosed? || m.ErrorsClosed?
  }

  /** A message the loop only logs or drops. */
  predicate Inert(m: Message) {
    m.WatchError? || (m.Event? && Triggers(m.op) == 0)
  }

  /** The passes the events of `msgs` ask for, up to the first closed channel. */
  function Triggered(msgs: seq<Message>): nat {
    if msgs == [] || Closing(msgs[0]) then 0
    else (if msgs[0].Event? then Triggers(msgs[0].op) else 0) + Triggered(msgs[1..])
  }

  predicate Closes(msgs: seq<Message>) {
    exists i :: 0 <= i < |msgs| && Closing(msgs[i])
  }

  /** While every directory read succeeds, `m` passes run and the loop goes on. */
  lemma {:induction false} PassesWithoutFailure(c: Config, dir: map<string, Kind>, m: nat, inputs: nat -> PassInput, k: nat)
    requires forall p :: inputs(p).readOk
    ensures Passes(c, dir, m, inputs, k).passes == k + m
    ensures Passes(c, dir, m, inputs, k).stop == Waiting
    decreases m
  {
    if m > 0 {
      PassesWithoutFailure(c, Pass(c, dir, inputs(k)).dir, m - 1, inputs, k + 1);
    }
  }

  lemma TailShift(msgs: seq<Message>)
    requires msgs != []
    ensures Closes(msgs) <==> Closing(msgs[0]) || Closes(msgs[1..])
  {
    if Closes(msgs) && !Closing(msgs[0]) {
      var i :| 0 <= i < |msgs| && Closing(msgs[i]);
      assert msgs[1..][i - 1] == msgs[i];
    }
    if Closes(msgs[1..]) {
      var i :| 0 <= i < |msgs[1..]| && Closing(msgs[1..][i]);
      assert msgs[i + 1] == msgs[1..][i];
    }
  }

  /**
   * While every directory read succeeds, the loop runs exactly one pass per
   * Write bit and one per Create bit, up to the first closed channel, and it
   * ends exactly when a channel is closed.
   */
  lemma {:induction false} PassCount(c: Config, dir: map<string, Kind>, msgs: seq<Message>, inputs: nat -> PassInput, k: nat)
    requires forall p :: inputs(p).readOk
    ensures WatchRun(c, dir, msgs, inputs, k).passes == k + Triggered(msgs)
    ensures WatchRun(c, dir, msgs, inputs, k).stop == (if Closes(msgs) then Closed else Waiting)
    decreases |msgs|
  {
    if msgs != [] {
      TailShift(msgs);
      if !Closing(msgs[0]) {
        if msgs[0].Event? {
          var r := Passes(c, dir, Triggers(msgs[0].op), inputs, k);
          PassesWithoutFailure(c, dir, Triggers(msgs[0].op), inputs, k);
          PassCount(c, r.dir, msgs[1..], inputs, r.passes);
        } else {
          PassCount(c, dir, msgs[1..], inputs, k);
        }
      }
    }
  }

  /** What follows a message list that behaves alike from every state does not tell them apart. */
  lemma {:induction false} SameAfterPrefix(c: Config, dir: map<string, Kind>, pre: seq<Message>, s1: seq<Message>, s2: seq<Message>, inputs: nat -> PassInput, k: nat)
    requires forall d, j :: WatchRun(c, d, s1, inputs, j) == WatchRun(c, d, s2, inputs, j)
    ensures WatchRun(c, dir, pre + s1, inputs, k) == WatchRun(c, dir, pre + s2, inputs, k)
    decreases |pre|
  {
    if pre == [] {
      assert pre + s1 == s1 && pre + s2 == s2;
    } else {
      assert (pre + s1)[0] == pre[0] && (pre + s1)[1..] == pre[1..] + s1;
      assert (pre + s2)[0] == pre[0] && (pre + s2)[1..] == pre[1..] + s2;
      if pre[0].Event? {
        var r := Passes(c, dir, Triggers(pre[0].op), inputs, k);
        SameAfterPrefix(c, r.dir, pre[1..], s1, s2, inputs, r.passes);
      } else {
        SameAfterPrefix(c, dir, pre[1..], s1, s2, inputs, k);
      }
    }
  }

  /** Line 92 and lines 81-86: errors are only logged, events without Write or Create bits do nothing. */
  lemma InertIgnored(c: Config, dir: map<string, Kind>, pre: seq<Message>, m: Message, rest: seq<Message>, inputs: nat -> PassInput, k: nat)
    requires Inert(m)
    ensures WatchRun(c, dir, pre + [m] + rest, inputs, k) == WatchRun(c, dir, pre + rest, inputs, k)
  {
    forall d, j
      ensures WatchRun(c, d, [m] + rest, inputs, j) == WatchRun(c, d, rest, inputs, j)
    {
      assert ([m] + rest)[1..] == rest;
      if m.Event? {
        AfterNothing([], d, j, Waiting);
        assert After([], WatchRun(c, d, rest, inputs, j)) == WatchRun(c, d, rest, inputs, j);
      }
    }
    SameAfterPrefix(c, dir, pre, [m] + rest, rest, inputs, k);
    assert pre + [m] + rest == pre + ([m] + rest);
  }

  /** Every pass rescans the whole directory: which file an event names makes no difference. */
  lemma EventNameIrrelevant(c: Config, dir: map<string, Kind>, pre: seq<Message>, a: string, b: string, op: Op, rest: seq<Message>, inputs: nat -> PassInput, k: nat)
    ensures WatchRun(c, dir, pre + [Event(a, op)] + rest, inputs, k) == WatchRun(c, dir, pre + [Event(b, op)] + rest, inputs, k)
  {
    forall d, j
      ensures WatchRun(c, d, [Event(a, op)] + rest, inputs, j) == WatchRun(c, d, [Event(b, op)] + rest, inputs, j)
    {
      assert ([Event(a, op)] + rest)[1..] == rest && ([Event(b, op)] + rest)[1..] == rest;
    }
    SameAfterPrefix(c, dir, pre, [Event(a, op)] + rest, [Event(b, op)] + rest, inputs, k);
    assert pre + [Event(a, op)] + rest == pre + ([Event(a, op)] + rest);
    assert pre + [Event(b, op)] + rest == pre + ([Event(b, op)] + rest);
  }

  /** Lines 77-79 and 88-90: once a channel is closed the loop returns, whatever would come next. */
  lemma ClosedEndsLoop(c: Config, dir: map<string, Kind>, pre: seq<Message>, m: Message, rest: seq<Message>, inputs: nat -> PassInput, k: nat)
    requires Closing(m)
    ensures WatchRun(c, dir, pre + [m] + rest, inputs, k) == WatchRun(c, dir, pre + [m], inputs, k)
  {
    forall d, j
      ensures WatchRun(c, d, [m] + rest, inputs, j) == WatchRun(c, d, [m], inputs, j)
    {
    }
    SameAfterPrefix(c, dir, pre, [m] + rest, [m], inputs, k);
    assert pre + [m] + rest == pre + ([m] + rest);
  }

  /** Line 101: an event whose pass cannot read the directory ends the process before any effect. */
  lemma FailedReadEndsRun(c: Config, dir: map<string, Kind>, n: string, op: Op, rest: seq<Message>, inputs: nat -> PassInput, k: nat)
    requires Triggers(op) > 0 && !inputs(k).readOk
    ensures WatchRun(c, dir, [Event(n, op)] + rest, inputs, k) == Run(dir, [], k + 1, Fatal)
  {
    assert ([Event(n, op)] + rest)[0] == Event(n, op);
  }
}

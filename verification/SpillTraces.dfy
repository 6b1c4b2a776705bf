/** Runs of the spill pipeline with all their states, and what the history of a run says about the events
    that were given up. */
module SpillTraces {
  import opened Blocks
  import opened SpillMessage
  import opened SpillProtocol
  import opened SpillRuns

  // ---- runs with all their states ----

  ghost predicate StepAt(c: Config, trace: seq<State>, acts: seq<Action>, i: nat) {
    i < |acts| < |trace| && Enabled(trace[i], acts[i]) && trace[i + 1] == Step(c, trace[i], acts[i])
  }

  ghost predicate IsTrace(c: Config, trace: seq<State>, acts: seq<Action>) {
    |trace| == |acts| + 1 && trace[0] == Init(c) && forall i: nat | i < |acts| :: StepAt(c, trace, acts, i)
  }

  lemma TraceSnoc(c: Config, trace: seq<State>, acts: seq<Action>, a: Action, t: State)
    requires IsTrace(c, trace, acts) && Enabled(trace[|acts|], a) && t == Step(c, trace[|acts|], a)
    ensures IsTrace(c, trace + [t], acts + [a])
  {
    forall i: nat | i < |acts + [a]| ensures StepAt(c, trace + [t], acts + [a], i) {
      assert i < |acts| ==> StepAt(c, trace, acts, i);
    }
  }

  lemma {:induction false} RunsSnoc(c: Config, s: State, acts: seq<Action>, a: Action)
    requires Runs(c, s, acts) && Enabled(After(c, s, acts), a)
    ensures Runs(c, s, acts + [a]) && After(c, s, acts + [a]) == Step(c, After(c, s, acts), a)
    decreases |acts|
  {
    if acts == [] {
      assert acts + [a] == [a] && [a][1..] == [];
    } else {
      assert (acts + [a])[1..] == acts[1..] + [a];
      RunsSnoc(c, Step(c, s, acts[0]), acts[1..], a);
    }
  }

  lemma {:induction false} TraceRuns(c: Config, trace: seq<State>, acts: seq<Action>)
    requires IsTrace(c, trace, acts)
    ensures Runs(c, Init(c), acts) && After(c, Init(c), acts) == trace[|acts|]
    decreases |acts|
  {
    if acts != [] {
      var n := |acts| - 1;
      var before, states := acts[..n], trace[..n + 1];
      forall i: nat | i < n ensures StepAt(c, states, before, i) {
        assert StepAt(c, trace, acts, i);
      }
      TraceRuns(c, states, before);
      assert StepAt(c, trace, acts, n);
      RunsSnoc(c, Init(c), before, acts[n]);
      assert before + [acts[n]] == acts;
    }
  }

  lemma {:induction false} TraceInv(c: Config, trace: seq<State>, acts: seq<Action>, n: nat)
    requires IsTrace(c, trace, acts) && Persistent(c) && n <= |acts|
    ensures Inv(c, trace[n])
    decreases n
  {
    if n == 0 {
      InitInv(c);
    } else {
      TraceInv(c, trace, acts, n - 1);
      assert StepAt(c, trace, acts, n - 1);
      StepKeepsInv(c, trace[n - 1], acts[n - 1]);
    }
  }

  // ---- the history of one message ----

  /** The step of one message taken at a point of the run. */
  predicate Takes(acts: seq<Action>, i: nat, k: nat) { i < |acts| && acts[i].Act? && acts[i].m == k }

  /** Flushes of the message, among the first `n` actions, whose app existed and whose insert was to fail. */
  function FailedInserts(acts: seq<Action>, n: nat, k: nat): nat
    requires n <= |acts|
  {
    if n == 0 then 0 else FailedInserts(acts, n - 1, k) + if Takes(acts, n - 1, k) && FailsInsert(acts[n - 1].step) then 1 else 0
  }

  predicate FailsInsert(a: MsgStep) { a.Flush? && a.flush.appValid && a.flush.outcome.InsertFailed? }

  /** Why an event is given up: a selection that gets no answer, an app that is gone, an insert that fails with
      an error nobody retries, or three inserts that failed before. */
  predicate GivesUp(c: Config, a: MsgStep, failed: nat) {
    match a
    case Select(env) => !Answered(c, env)
    case Flush(env) =>
      || !env.appValid || failed >= 3
      || (env.outcome.InsertFailed? &&
          (env.outcome.error.ExceedRetryLimit? || env.outcome.error.PartialDataLost? || env.outcome.error.LocalDiskUnhealthy?
           || env.outcome.error.AppPurged? || env.outcome.error.AppNotFound?))
    case _ => false
  }

  predicate GivesUpAt(c: Config, acts: seq<Action>, i: nat, k: nat) {
    Takes(acts, i, k) && GivesUp(c, acts[i].step, FailedInserts(acts, i, k))
  }

  /** The message was given up, or its blocks were dropped, within the first `n` actions. */
  predicate GivenUp(c: Config, acts: seq<Action>, n: nat, k: nat) { exists i: nat | i < n :: GivesUpAt(c, acts, i, k) }

  predicate DropsAt(acts: seq<Action>, i: nat, k: nat) { Takes(acts, i, k) && acts[i].step.Drop? }

  predicate DropTaken(acts: seq<Action>, n: nat, k: nat) { exists i: nat | i < n :: DropsAt(acts, i, k) }

  /** What the phase of a message says about its history. */
  predicate Fits(m: Msg, failed: nat, givenUp: bool, taken: bool) {
    match m.phase
    case Dropping(_) => givenUp && !taken
    case Written(_) => !givenUp && !taken
    case Finishing(_) => givenUp == taken
    case Closing(_) => givenUp == taken
    case Done => givenUp == taken
    case Swallowed => givenUp == taken
    case _ => if Over(m.phase) then givenUp == taken else failed == m.retry && !givenUp && !taken
  }

  lemma AdvanceKeepsHistory(c: Config, m: Msg, a: MsgStep, failed: nat, givenUp: bool, taken: bool)
    requires Persistent(c) && MsgOk(c, m) && Can(m, a) && Fits(m, failed, givenUp, taken)
    ensures Fits(Advance(c, m, a), failed + (if FailsInsert(a) then 1 else 0), givenUp || GivesUp(c, a, failed), taken || a.Drop?)
  {
  }

  lemma HistoryNext(c: Config, acts: seq<Action>, n: nat, k: nat)
    requires n < |acts|
    ensures GivenUp(c, acts, n + 1, k) <==> GivenUp(c, acts, n, k) || GivesUpAt(c, acts, n, k)
    ensures DropTaken(acts, n + 1, k) <==> DropTaken(acts, n, k) || DropsAt(acts, n, k)
  {
    if GivesUpAt(c, acts, n, k) { assert GivenUp(c, acts, n + 1, k); }
    if DropsAt(acts, n, k) { assert DropTaken(acts, n + 1, k); }
  }

  /** A message that does not exist yet has no history. */
  ghost predicate HistoryFits(c: Config, s: State, acts: seq<Action>, n: nat, k: nat)
    requires n <= |acts|
  {
    if k < |s.msgs| then Fits(s.msgs[k], FailedInserts(acts, n, k), GivenUp(c, acts, n, k), DropTaken(acts, n, k))
    else FailedInserts(acts, n, k) == 0 && !GivenUp(c, acts, n, k) && !DropTaken(acts, n, k)
  }

  /** What a step does to one message. */
  lemma StepOnMessage(c: Config, s: State, a: Action, k: nat)
    requires Enabled(s, a)
    ensures var t := Step(c, s, a);
      && |s.msgs| <= |t.msgs|
      && (a.Act? && a.m == k ==> k < |s.msgs| && t.msgs[k] == Advance(c, s.msgs[k], a.step))
      && (k < |s.msgs| && !(a.Act? && a.m == k) ==> t.msgs[k] == s.msgs[k])
      && (k < |s.msgs| ==> t.msgs[k].uid == s.msgs[k].uid && t.msgs[k].blocks == s.msgs[k].blocks)
      && (|s.msgs| <= k < |t.msgs| ==> t.msgs[k].phase.Created? && t.msgs[k].retry == 0)
  {
    if a.Act? {
      ActMsgs(c, s, a.m, a.step);
    }
  }

  lemma StepKeepsHistory(c: Config, s: State, acts: seq<Action>, n: nat, k: nat)
    requires Persistent(c) && MessagesOk(c, s) && n < |acts| && Enabled(s, acts[n]) && HistoryFits(c, s, acts, n, k)
    ensures HistoryFits(c, Step(c, s, acts[n]), acts, n + 1, k)
  {
    StepOnMessage(c, s, acts[n], k);
    HistoryNext(c, acts, n, k);
    if Takes(acts, n, k) {
      AdvanceKeepsHistory(c, s.msgs[k], acts[n].step, FailedInserts(acts, n, k), GivenUp(c, acts, n, k), DropTaken(acts, n, k));
    }
  }

  lemma {:induction false} TraceHistory(c: Config, trace: seq<State>, acts: seq<Action>, n: nat, k: nat)
    requires IsTrace(c, trace, acts) && Persistent(c) && n <= |acts|
    ensures HistoryFits(c, trace[n], acts, n, k)
    decreases n
  {
    if n > 0 {
      TraceHistory(c, trace, acts, n - 1, k);
      TraceInv(c, trace, acts, n - 1);
      assert StepAt(c, trace, acts, n - 1);
      StepKeepsHistory(c, trace[n - 1], acts, n - 1, k);
    }
  }

  // ---- which blocks were dropped ----

  /** Some message whose drop was taken carried the block. */
  ghost predicate DroppedBy(s: State, acts: seq<Action>, n: nat, u: Uid, x: Block) {
    exists k: nat | k < |s.msgs| :: DropTaken(acts, n, k) && s.msgs[k].uid == u && x in Flatten(s.msgs[k].blocks)
  }

  lemma StepOnDropped(c: Config, s: State, a: Action, u: Uid, x: Block)
    requires Enabled(s, a)
    ensures (u, x) in Step(c, s, a).dropped
            <==> (u, x) in s.dropped || (a.Act? && a.step.Drop? && s.msgs[a.m].uid == u && x in Flatten(s.msgs[a.m].blocks))
  {
    if a.Act? && !a.step.Drop? {
      ActOnlyMessage(c, s, a.m, a.step);
    }
  }

  /** A message that does not exist yet was not dropped. */
  ghost predicate NoEarlyDrops(s: State, acts: seq<Action>, n: nat) {
    forall k: nat | DropTaken(acts, n, k) :: k < |s.msgs|
  }

  lemma StepKeepsDroppedBy(c: Config, s: State, acts: seq<Action>, n: nat, u: Uid, x: Block)
    requires n < |acts| && Enabled(s, acts[n]) && NoEarlyDrops(s, acts, n)
    requires (u, x) in s.dropped <==> DroppedBy(s, acts, n, u, x)
    ensures (u, x) in Step(c, s, acts[n]).dropped <==> DroppedBy(Step(c, s, acts[n]), acts, n + 1, u, x)
    ensures NoEarlyDrops(Step(c, s, acts[n]), acts, n + 1)
  {
    var t := Step(c, s, acts[n]);
    StepOnDropped(c, s, acts[n], u, x);
    forall k: nat
      ensures DropTaken(acts, n + 1, k) <==> DropTaken(acts, n, k) || DropsAt(acts, n, k)
      ensures |s.msgs| <= |t.msgs| && (Takes(acts, n, k) ==> k < |s.msgs|)
      ensures k < |s.msgs| ==> t.msgs[k].uid == s.msgs[k].uid && t.msgs[k].blocks == s.msgs[k].blocks
    {
      HistoryNext(c, acts, n, k);
      StepOnMessage(c, s, acts[n], k);
    }
    if (u, x) in t.dropped && !DroppedBy(s, acts, n, u, x) {
      assert DropsAt(acts, n, acts[n].m);
    }
    var next := n + 1;
    forall k: nat | DropTaken(acts, next, k) ensures k < |t.msgs| {
      assert DropTaken(acts, n, k) || DropsAt(acts, n, k);
    }
  }

  lemma {:induction false} TraceDropped(c: Config, trace: seq<State>, acts: seq<Action>, n: nat, u: Uid, x: Block)
    requires IsTrace(c, trace, acts) && n <= |acts|
    ensures (u, x) in trace[n].dropped <==> DroppedBy(trace[n], acts, n, u, x)
    ensures NoEarlyDrops(trace[n], acts, n)
    decreases n
  {
    if n > 0 {
      TraceDropped(c, trace, acts, n - 1, u, x);
      assert StepAt(c, trace, acts, n - 1);
      StepKeepsDroppedBy(c, trace[n - 1], acts, n - 1, u, x);
    }
  }

  /** In every run, a block is in `dropped` only because a message that carries it was given up: its selection got
      no answer, its app was gone at the flush, its insert failed with one of the five errors nobody retries, or
      three inserts had failed before. */
  lemma {:induction false} DroppedForAReason(c: Config, trace: seq<State>, acts: seq<Action>, u: Uid, x: Block) returns (k: nat, i: nat)
    requires IsTrace(c, trace, acts) && Persistent(c) && (u, x) in trace[|acts|].dropped
    ensures var s := trace[|acts|];
      k < |s.msgs| && s.msgs[k].uid == u && x in Flatten(s.msgs[k].blocks) && i < |acts| && GivesUpAt(c, acts, i, k)
  {
    var n := |acts|;
    TraceDropped(c, trace, acts, n, u, x);
    k :| k < |trace[n].msgs| && DropTaken(acts, n, k) && trace[n].msgs[k].uid == u && x in Flatten(trace[n].msgs[k].blocks);
    TraceHistory(c, trace, acts, n, k);
    assert GivenUp(c, acts, n, k);
    i :| i < n && GivesUpAt(c, acts, i, k);
  }

  /** And a message that was given up is dropped: it is about to be, or all its blocks are in `dropped`. */
  lemma {:induction false} GivenUpIsDropped(c: Config, trace: seq<State>, acts: seq<Action>, k: nat, i: nat, x: Block)
    requires IsTrace(c, trace, acts) && Persistent(c) && i < |acts| && GivesUpAt(c, acts, i, k)
    ensures var s := trace[|acts|];
      k < |s.msgs| && (s.msgs[k].phase.Dropping? || (x in Flatten(s.msgs[k].blocks) ==> (s.msgs[k].uid, x) in s.dropped))
  {
    var n := |acts|;
    var s := trace[n];
    TraceHistory(c, trace, acts, n, k);
    assert GivenUp(c, acts, n, k);
    if !s.msgs[k].phase.Dropping? {
      assert DropTaken(acts, n, k);
      TraceDropped(c, trace, acts, n, s.msgs[k].uid, x);
    }
  }
}

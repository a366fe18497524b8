/**
 * The staged start of expensive services as a whole: one pass of logic.py's `while` loop
 * (health sweep, diagnosis, admission) as a function of the three queues, and the
 * properties a pass keeps.
 */
module StagedStart {
  import opened Seqs
  import opened Shell
  import opened Env
  import opened Health
  import opened Sweep

  /** expensive_todo, expensive_inprogress and expensive_failed. */
  datatype Queues = Queues(todo: seq<ExpensiveEntry>, inprogress: seq<ExpensiveEntry>, failed: seq<ExpensiveEntry>)

  /**
   * No more than MaxInProgress services are in progress, and no service is queued twice or
   * both waiting and in progress.
   */
  ghost predicate WellQueued(q: Queues) {
    |q.inprogress| <= MaxInProgress && Distinct(q.todo) && Distinct(q.inprogress) && Disjoint(q.todo, q.inprogress)
  }

  /** The loop runs while something is waiting or in progress. */
  predicate Done(q: Queues) {
    q.todo == [] && q.inprogress == []
  }

  /** Services still in progress after the health sweep that starts at command n. */
  function Survivors(q: Queues, n: nat, answer: Oracle): seq<ExpensiveEntry> {
    Kept(q.inprogress, n, answer)
  }

  /** The diagnosis starts once every in-progress service was probed. */
  function DiagnosisStart(q: Queues, n: nat): nat {
    n + |q.inprogress|
  }

  /** The admission starts once the diagnosis has issued its commands. */
  function AdmissionStart(q: Queues, n: nat, answer: Oracle): nat {
    var m := DiagnosisStart(q, n);
    m + |DiagnoseCommands(Survivors(q, n, answer), m, answer)|
  }

  /** The admission of one pass. */
  function PassAdmission(q: Queues, n: nat, answer: Oracle): Admission {
    Admit(q.todo, Survivors(q, n, answer), AdmissionStart(q, n, answer), answer)
  }

  /** The queues after one pass of the loop started at command n. */
  function SweepOnce(q: Queues, n: nat, answer: Oracle): Queues {
    var kept := Survivors(q, n, answer);
    var a := PassAdmission(q, n, answer);
    Queues(a.todo, a.inprogress, q.failed + DiagnoseFailed(kept, DiagnosisStart(q, n), answer))
  }

  /** The commands one pass issues: the probes, the diagnosis, the admission. */
  function SweepCommands(q: Queues, n: nat, answer: Oracle): seq<Command> {
    var kept := Survivors(q, n, answer);
    ProbeCommandsOf(Checks(q.inprogress)) + DiagnoseCommands(kept, DiagnosisStart(q, n), answer) + PassAdmission(q, n, answer).cmds
  }

  /** The health sweep keeps a subsequence of in progress. */
  lemma SurvivorsWithin(q: Queues, n: nat, answer: Oracle)
    ensures var kept := Survivors(q, n, answer);
      |kept| <= |q.inprogress| && (forall d :: d in kept ==> d in q.inprogress) &&
      (Distinct(q.inprogress) ==> Distinct(kept))
  {
    var kept := Survivors(q, n, answer);
    KeptSubseq(q.inprogress, n, answer);
    SubseqLength(kept, q.inprogress);
    SubseqMembers(kept, q.inprogress);
    if Distinct(q.inprogress) {
      SubseqDistinct(kept, q.inprogress);
    }
  }

  /** One pass keeps the queues well formed. */
  lemma SweepKeepsWellQueued(q: Queues, n: nat, answer: Oracle)
    requires WellQueued(q)
    ensures WellQueued(SweepOnce(q, n, answer))
  {
    var kept := Survivors(q, n, answer);
    var m := AdmissionStart(q, n, answer);
    SurvivorsWithin(q, n, answer);
    assert Disjoint(q.todo, kept);
    AdmitKeepsDistinct(q.todo, kept, m, Walker(answer));
    AdmitShape(q.todo, kept, m, Walker(answer));
  }

  /**
   * A service the diagnosis gives up on is stopped, yet stays in progress: it is probed and
   * diagnosed again on the next pass.
   */
  lemma SweepKeepsFailed(q: Queues, n: nat, answer: Oracle)
    ensures var kept := Survivors(q, n, answer);
      var r := SweepOnce(q, n, answer);
      forall d :: d in DiagnoseFailed(kept, DiagnosisStart(q, n), answer) ==>
        d in r.failed && d in r.inprogress && ComposeStop(Name(d)) in SweepCommands(q, n, answer)
  {
    var kept := Survivors(q, n, answer);
    var m := DiagnosisStart(q, n);
    var failed := DiagnoseFailed(kept, m, answer);
    DiagnoseFailedSubseq(kept, m, answer);
    SubseqMembers(failed, kept);
    AdmitShape'(q.todo, kept, AdmissionStart(q, n, answer), Walker(answer));
    DiagnoseStopsFailed(kept, m, answer);
  }

  /** A well-queued service in progress that probes healthy is no longer in progress after the pass. */
  lemma SweepReleasesHealthy(q: Queues, n: nat, answer: Oracle)
    requires WellQueued(q)
    ensures forall i :: 0 <= i < |q.inprogress| && ProbeHealthy(q.inprogress[i].check, n + i, answer) ==>
      q.inprogress[i] !in SweepOnce(q, n, answer).inprogress
  {
    var kept := Survivors(q, n, answer);
    var a := PassAdmission(q, n, answer);
    KeptHealthyLeave(q.inprogress, n, answer);
    AdmitFifo(q.todo, kept, AdmissionStart(q, n, answer), Walker(answer));
    SubseqMembers(a.inprogress, kept + q.todo);
  }

  /** A service in progress that does not probe healthy is still in progress after the pass. */
  lemma SweepRetainsUnhealthy(q: Queues, n: nat, answer: Oracle)
    ensures forall i :: 0 <= i < |q.inprogress| && !ProbeHealthy(q.inprogress[i].check, n + i, answer) ==>
      q.inprogress[i] in SweepOnce(q, n, answer).inprogress
  {
    KeptUnhealthy(q.inprogress, n, answer);
    AdmitShape'(q.todo, Survivors(q, n, answer), AdmissionStart(q, n, answer), Walker(answer));
  }

  /**
   * A pass only pops from the front of todo, and leaves fewer than MaxInProgress in
   * progress only when todo is empty.
   */
  lemma SweepDrainsTodo(q: Queues, n: nat, answer: Oracle)
    requires |q.inprogress| <= MaxInProgress
    ensures var r := SweepOnce(q, n, answer);
      IsSuffix(r.todo, q.todo) && (r.todo == [] || |r.inprogress| == MaxInProgress)
  {
    SurvivorsWithin(q, n, answer);
    AdmitShape(q.todo, Survivors(q, n, answer), AdmissionStart(q, n, answer), Walker(answer));
  }

  // ---------------------------------------------------------------- the loop as a whole

  /** What one pass leaves: the queues and the commands it issued. */
  datatype Pass = Pass(after: Queues, cmds: seq<Command>)

  /** A pass of the loop as a function of the queues and of the command it starts at. */
  type Stepper = (Queues, nat) -> Pass

  /** The pass the runtime's answers give. */
  function Passes(answer: Oracle): Stepper {
    (q: Queues, n: nat) => Pass(SweepOnce(q, n, answer), SweepCommands(q, n, answer))
  }

  /**
   * The queues after the loop, started at command n: passes run while something is waiting
   * or in progress, here for at most `budget` passes.
   */
  function RunBy(q: Queues, n: nat, step: Stepper, budget: nat): Queues
    decreases budget
  {
    if Done(q) || budget == 0 then q
    else
      var p := step(q, n);
      RunBy(p.after, n + |p.cmds|, step, budget - 1)
  }

  /** The commands those passes issue, pass after pass. */
  function RunCommandsBy(q: Queues, n: nat, step: Stepper, budget: nat): seq<Command>
    decreases budget
  {
    if Done(q) || budget == 0 then []
    else
      var p := step(q, n);
      p.cmds + RunCommandsBy(p.after, n + |p.cmds|, step, budget - 1)
  }

  /** The queues after the loop whose passes are those the runtime's answers give. */
  function Run(q: Queues, n: nat, answer: Oracle, budget: nat): Queues {
    RunBy(q, n, Passes(answer), budget)
  }

  /** The commands that loop issues. */
  function RunCommands(q: Queues, n: nat, answer: Oracle, budget: nat): seq<Command> {
    RunCommandsBy(q, n, Passes(answer), budget)
  }

  /** Two steppers that make the same pass from every state. */
  ghost predicate SameSteps(step: Stepper, other: Stepper) {
    forall q: Queues, n: nat {:trigger other(q, n)} :: step(q, n) == other(q, n)
  }

  /** A stepper that does, pass for pass, what the loop does. */
  ghost predicate Agrees(step: Stepper, answer: Oracle) {
    SameSteps(step, Passes(answer))
  }

  /** Steppers that make the same passes run the same loop. */
  lemma {:induction false} RunBySame(q: Queues, n: nat, step: Stepper, other: Stepper, budget: nat)
    requires SameSteps(step, other)
    ensures RunBy(q, n, step, budget) == RunBy(q, n, other, budget)
    ensures RunCommandsBy(q, n, step, budget) == RunCommandsBy(q, n, other, budget)
    decreases budget
  {
    if !Done(q) && budget > 0 {
      var p := other(q, n);
      assert step(q, n) == p;
      RunBySame(p.after, n + |p.cmds|, step, other, budget - 1);
    }
  }

  /** Running an agreeing stepper is running the loop. */
  lemma RunByAgrees(q: Queues, n: nat, step: Stepper, answer: Oracle, budget: nat)
    requires Agrees(step, answer)
    ensures RunBy(q, n, step, budget) == Run(q, n, answer, budget)
    ensures RunCommandsBy(q, n, step, budget) == RunCommands(q, n, answer, budget)
  {
    RunBySame(q, n, step, Passes(answer), budget);
  }

  /** The remaining passes after one more pass: what is left to run and to issue. */
  lemma RunByAdvance(q: Queues, n: nat, step: Stepper, q': Queues, m: nat, pass: seq<Command>, left: nat,
                     total: Queues, c: seq<Command>, log: seq<Command>)
    requires !Done(q) && left > 0
    requires step(q, n) == Pass(q', pass) && m == n + |pass|
    requires RunBy(q, n, step, left) == total && c + RunCommandsBy(q, n, step, left) == log
    ensures RunBy(q', m, step, left - 1) == total && (c + pass) + RunCommandsBy(q', m, step, left - 1) == log
  {
    AppendAssoc(c, pass, RunCommandsBy(q', m, step, left - 1));
  }

  /** A finished loop, or an exhausted budget, runs no more passes. */
  lemma RunByStop(q: Queues, n: nat, step: Stepper, budget: nat)
    requires Done(q) || budget == 0
    ensures RunBy(q, n, step, budget) == q && RunCommandsBy(q, n, step, budget) == []
  {
  }

  /** `d` is held in one of the queues. */
  predicate Queued(d: ExpensiveEntry, q: Queues) {
    d in q.todo || d in q.inprogress || d in q.failed
  }

  /**
   * `cmds`, issued from command n on, hold an inspect of d's restart count that reported more
   * than RestartThreshold restarts, immediately followed by a stop of d.
   */
  ghost predicate GivenUpIn(d: ExpensiveEntry, cmds: seq<Command>, n: nat, answer: Oracle) {
    exists k :: 0 <= k < |cmds| - 1 &&
      cmds[k] == InspectRestartCount(Name(d)) && cmds[k + 1] == ComposeStop(Name(d)) &&
      RestartCount(Answer(answer, n + k, cmds[k]).output) > RestartThreshold
  }

  /** Later commands do not disturb a recorded give-up. */
  lemma GivenUpAppend(d: ExpensiveEntry, cmds: seq<Command>, more: seq<Command>, n: nat, answer: Oracle)
    requires GivenUpIn(d, cmds, n, answer)
    ensures GivenUpIn(d, cmds + more, n, answer)
  {
    var k :| 0 <= k < |cmds| - 1 && cmds[k] == InspectRestartCount(Name(d)) && cmds[k + 1] == ComposeStop(Name(d)) &&
      RestartCount(Answer(answer, n + k, cmds[k]).output) > RestartThreshold;
    assert (cmds + more)[k] == cmds[k] && (cmds + more)[k + 1] == cmds[k + 1];
  }

  /** Earlier commands move a recorded give-up back by their number. */
  lemma GivenUpPrepend(d: ExpensiveEntry, pre: seq<Command>, cmds: seq<Command>, n: nat, m: nat, answer: Oracle)
    requires m == n + |pre| && GivenUpIn(d, cmds, m, answer)
    ensures GivenUpIn(d, pre + cmds, n, answer)
  {
    var k :| 0 <= k < |cmds| - 1 && cmds[k] == InspectRestartCount(Name(d)) && cmds[k + 1] == ComposeStop(Name(d)) &&
      RestartCount(Answer(answer, m + k, cmds[k]).output) > RestartThreshold;
    assert (pre + cmds)[|pre| + k] == cmds[k] && (pre + cmds)[|pre| + k + 1] == cmds[k + 1];
  }

  /** Every service the diagnosis gives up on had an inspect over the threshold, then a stop. */
  lemma {:induction false} DiagnoseGivesUp(ds: seq<ExpensiveEntry>, n: nat, answer: Oracle)
    ensures forall d :: d in DiagnoseFailed(ds, n, answer) ==> GivenUpIn(d, DiagnoseCommands(ds, n, answer), n, answer)
    decreases |ds|
  {
    if ds != [] {
      var init, last, m := ds[..|ds| - 1], ds[|ds| - 1], LastStart(ds, n, answer);
      var pre := DiagnoseCommands(init, n, answer);
      DiagnoseSnoc(ds, n, answer);
      DiagnoseGivesUp(init, n, answer);
      forall d | d in DiagnoseFailed(ds, n, answer) ensures GivenUpIn(d, DiagnoseCommands(ds, n, answer), n, answer) {
        if d in DiagnoseFailed(init, n, answer) {
          GivenUpAppend(d, pre, DiagnosisCommands(last, m, answer), n, answer);
        } else {
          assert d == last && Abandoned(last, m, answer);
          var own := DiagnosisCommands(last, m, answer);
          assert own[1] == InspectRestartCount(Name(d)) && own[2] == ComposeStop(Name(d));
          assert GivenUpIn(d, own, m, answer) by {
            assert RestartCount(Answer(answer, m + 1, own[1]).output) > RestartThreshold;
          }
          GivenUpPrepend(d, pre, own, n, m, answer);
        }
      }
    }
  }

  /** A pass holds no service that was not held before it. */
  lemma SweepHolds(q: Queues, n: nat, answer: Oracle)
    ensures forall d :: Queued(d, SweepOnce(q, n, answer)) ==> Queued(d, q)
  {
    var kept := Survivors(q, n, answer);
    var m := DiagnosisStart(q, n);
    var a := PassAdmission(q, n, answer);
    SurvivorsWithin(q, n, answer);
    DiagnoseFailedSubseq(kept, m, answer);
    SubseqMembers(DiagnoseFailed(kept, m, answer), kept);
    AdmitFifo(q.todo, kept, AdmissionStart(q, n, answer), Walker(answer));
    SubseqMembers(a.inprogress, kept + q.todo);
    AdmitShape'(q.todo, kept, AdmissionStart(q, n, answer), Walker(answer));
    AdmitSuffix(q.todo, kept, AdmissionStart(q, n, answer), answer);
  }

  /** Admission leaves a suffix of todo. */
  lemma AdmitSuffix(todo: seq<ExpensiveEntry>, inprogress: seq<ExpensiveEntry>, n: nat, answer: Oracle)
    ensures forall d :: d in Admit(todo, inprogress, n, answer).todo ==> d in todo
  {
    AdmitTodoSuffix(todo, inprogress, n, Walker(answer));
    SuffixMembers(AdmitBy(todo, inprogress, n, Walker(answer)).todo, todo);
  }

  /** Admission pops from the front of todo, however many are in progress. */
  lemma {:induction false} AdmitTodoSuffix(todo: seq<ExpensiveEntry>, inprogress: seq<ExpensiveEntry>, n: nat, walk: Walk)
    ensures IsSuffix(AdmitBy(todo, inprogress, n, walk).todo, todo)
    decreases |todo|
  {
    if |inprogress| < MaxInProgress && todo != [] {
      AdmitByStep(todo, inprogress, n, walk);
      var d := todo[0];
      var k := walk(d.waitUntilHealthy, n);
      AdmitTodoSuffix(todo[1..], Pushed(inprogress, d, k == |d.waitUntilHealthy|), n + k + 1, walk);
      SuffixOfTail(AdmitBy(todo, inprogress, n, walk).todo, todo);
    } else {
      assert todo[|todo| - |todo|..] == todo;
    }
  }

  /** Every service a pass gives up on was stopped right after an inspect over the threshold. */
  lemma SweepGivesUp(q: Queues, n: nat, answer: Oracle)
    ensures forall d :: d in DiagnoseFailed(Survivors(q, n, answer), DiagnosisStart(q, n), answer) ==>
      GivenUpIn(d, SweepCommands(q, n, answer), n, answer)
  {
    var kept := Survivors(q, n, answer);
    var m := DiagnosisStart(q, n);
    var probes := ProbeCommandsOf(Checks(q.inprogress));
    var diagnosis := DiagnoseCommands(kept, m, answer);
    var admission := PassAdmission(q, n, answer).cmds;
    assert SweepCommands(q, n, answer) == probes + diagnosis + admission;
    DiagnoseGivesUp(kept, m, answer);
    forall d | d in DiagnoseFailed(kept, m, answer) ensures GivenUpIn(d, probes + diagnosis + admission, n, answer) {
      GivenUpPrepend(d, probes, diagnosis, n, m, answer);
      GivenUpAppend(d, probes + diagnosis, admission, n, answer);
    }
  }

  /**
   * Going from q at command n to `p`: failed only grows, every service held was held in q,
   * and every service newly failed was given up on in `p`'s commands.
   */
  ghost predicate Accounted(q: Queues, n: nat, p: Pass, answer: Oracle) {
    && IsPrefix(q.failed, p.after.failed)
    && (forall d :: Queued(d, p.after) ==> Queued(d, q))
    && (forall d :: d in p.after.failed && d !in q.failed ==> GivenUpIn(d, p.cmds, n, answer))
  }

  /** One pass accounts for what it does. */
  lemma SweepAccounted(q: Queues, n: nat, answer: Oracle)
    ensures Accounted(q, n, Passes(answer)(q, n), answer)
  {
    assert Passes(answer)(q, n) == Pass(SweepOnce(q, n, answer), SweepCommands(q, n, answer));
    PrefixOfAppend(q.failed, DiagnoseFailed(Survivors(q, n, answer), DiagnosisStart(q, n), answer));
    SweepHolds(q, n, answer);
    SweepGivesUp(q, n, answer);
  }

  /** Passes that account for what they do make a loop that does. */
  lemma {:induction false} RunByAccounted(q: Queues, n: nat, step: Stepper, answer: Oracle, budget: nat)
    requires forall q': Queues, n': nat :: Accounted(q', n', step(q', n'), answer)
    ensures Accounted(q, n, Pass(RunBy(q, n, step, budget), RunCommandsBy(q, n, step, budget)), answer)
    decreases budget
  {
    if !Done(q) && budget > 0 {
      var p := step(q, n);
      var m := n + |p.cmds|;
      var rest := RunCommandsBy(p.after, m, step, budget - 1);
      var r := RunBy(p.after, m, step, budget - 1);
      assert Accounted(q, n, p, answer);
      RunByAccounted(p.after, m, step, answer, budget - 1);
      PrefixChain(q.failed, p.after.failed, r.failed);
      forall d | d in r.failed && d !in q.failed ensures GivenUpIn(d, p.cmds + rest, n, answer) {
        if d in p.after.failed {
          GivenUpAppend(d, p.cmds, rest, n, answer);
        } else {
          GivenUpPrepend(d, p.cmds, rest, n, m, answer);
        }
      }
    } else {
      PrefixOfAppend(q.failed, []);
    }
  }

  /**
   * Over the whole loop: failed only grows, every service held was held at the start, and
   * every service that became failed was given up on in the loop's commands after an inspect
   * reported more than RestartThreshold restarts.
   */
  lemma RunFailedGivenUp(q: Queues, n: nat, answer: Oracle, budget: nat)
    ensures var r := Run(q, n, answer, budget);
      && IsPrefix(q.failed, r.failed)
      && (forall d :: Queued(d, r) ==> Queued(d, q))
      && (forall d :: d in r.failed && d !in q.failed ==> GivenUpIn(d, RunCommands(q, n, answer, budget), n, answer))
  {
    forall q': Queues, n': nat ensures Accounted(q', n', Passes(answer)(q', n'), answer) {
      SweepAccounted(q', n', answer);
    }
    RunByAccounted(q, n, Passes(answer), answer, budget);
  }

  /** Passes that keep the queues well formed keep them so over the loop. */
  lemma {:induction false} RunByKeepsWellQueued(q: Queues, n: nat, step: Stepper, budget: nat)
    requires WellQueued(q)
    requires forall q': Queues, n': nat :: WellQueued(q') ==> WellQueued(step(q', n').after)
    ensures WellQueued(RunBy(q, n, step, budget))
    decreases budget
  {
    if !Done(q) && budget > 0 {
      var p := step(q, n);
      RunByKeepsWellQueued(p.after, n + |p.cmds|, step, budget - 1);
    }
  }

  /** The loop keeps the queues well formed. */
  lemma RunKeepsWellQueued(q: Queues, n: nat, answer: Oracle, budget: nat)
    requires WellQueued(q)
    ensures WellQueued(Run(q, n, answer, budget))
  {
    forall q': Queues, n': nat | WellQueued(q') ensures WellQueued(Passes(answer)(q', n').after) {
      SweepKeepsWellQueued(q', n', answer);
    }
    RunByKeepsWellQueued(q, n, Passes(answer), budget);
  }

  /**
   * Starting from a todo queue alone, every service the staged start reports as failed was
   * queued, and was stopped right after an inspect reported more than RestartThreshold
   * restarts.
   */
  lemma StagedFailures(todo: seq<ExpensiveEntry>, n: nat, answer: Oracle, budget: nat)
    ensures var q := Queues(todo, [], []); var r := Run(q, n, answer, budget);
      forall d :: d in r.failed ==> d in todo && GivenUpIn(d, RunCommands(q, n, answer, budget), n, answer)
  {
    var q := Queues(todo, [], []);
    RunFailedGivenUp(q, n, answer, budget);
    forall d | Queued(d, q) ensures d in todo {}
  }
}

/**
 * The staged start of expensive services in logic.py as an object: three queues of
 * descriptors that the sweep phases update in place, driven by a runtime that answers every
 * command. Each phase is proved to leave exactly the state its specification function in
 * module Sweep describes.
 */
module Orchestration {
  import opened Seqs
  import opened Shell
  import opened Env
  import opened Health
  import opened Sweep
  import opened StagedStart

  /** One health probe: inspect the health status, or run the configured command. */
  method Probe(rt: Runtime, c: HealthCheck) returns (ok: bool)
    modifies rt
    ensures rt.issued == old(rt.issued) + [ProbeCommand(c)]
    ensures ok == ProbeHealthy(c, |old(rt.issued)|, rt.answer)
  {
    if c.healthcheckCmd == "docker" {
      var r := rt.Run(InspectHealth(c.composeService));
      ok := r.exitCode == 0 && CheckHealthyOutput(r.output);
    } else {
      var r := rt.Run(ExecHealthCheck(c.composeService, c.healthcheckCmd));
      ok := r.exitCode == 0;
    }
  }

  /**
   * Probes a wait list in order and stops at the first dependency that is not healthy; true
   * when all are (and when the list is empty).
   */
  method CheckDependencies(rt: Runtime, deps: seq<HealthCheck>) returns (ok: bool)
    modifies rt
    ensures var k := FirstUnhealthy(deps, |old(rt.issued)|, rt.answer);
      && ok == (k == |deps|)
      && rt.issued == old(rt.issued) + ProbeCommandsOf(if ok then deps else deps[..k + 1])
  {
    ghost var ans := rt.answer;
    ghost var n0 := |rt.issued|;
    ok := true;
    var i := 0;
    while i < |deps|
      invariant 0 <= i <= |deps| && ok
      invariant |rt.issued| == n0 + i
      invariant FirstUnhealthy(deps, n0, ans) == i + FirstUnhealthy(deps[i..], |rt.issued|, ans)
      invariant rt.issued == old(rt.issued) + ProbeCommandsOf(deps[..i])
      decreases |deps| - i
    {
      ghost var m := |rt.issued|;
      ok := Probe(rt, deps[i]);
      FirstUnhealthyAdvance(deps, i, m, |rt.issued|, ans);
      assert deps[..i + 1] == deps[..i] + [deps[i]];
      if !ok {
        break;
      }
      i := i + 1;
    }
    assert ok ==> deps[..i] == deps;
  }

  /** The health sweep's loop: probes every descriptor once and keeps the unhealthy ones. */
  method SweepHealth(rt: Runtime, ds: seq<ExpensiveEntry>) returns (kept: seq<ExpensiveEntry>)
    modifies rt
    ensures kept == Kept(ds, |old(rt.issued)|, rt.answer)
    ensures rt.issued == old(rt.issued) + ProbeCommandsOf(Checks(ds))
  {
    ghost var ans := rt.answer;
    ghost var n0 := |rt.issued|;
    kept := [];
    for i := 0 to |ds|
      invariant rt.issued == old(rt.issued) + ProbeCommandsOf(Checks(ds[..i]))
      invariant kept == Kept(ds[..i], n0, ans)
    {
      assert ds[..i + 1][..i] == ds[..i];
      ChecksAdvance(ds, i);
      var ok := Probe(rt, ds[i].check);
      if !ok {
        kept := kept + [ds[i]];
      }
    }
    assert ds[..|ds|] == ds;
  }

  /** Diagnoses one service: tail its log, read its restart count, stop it when over the threshold. */
  method DiagnoseOne(rt: Runtime, d: ExpensiveEntry) returns (abandoned: bool)
    modifies rt
    ensures abandoned == Abandoned(d, |old(rt.issued)|, rt.answer)
    ensures rt.issued == old(rt.issued) + DiagnosisCommands(d, |old(rt.issued)|, rt.answer)
  {
    var s := Name(d);
    var _ := rt.Run(TailLog(s));
    var r := rt.Run(InspectRestartCount(s));
    var rc := ParseRestartCount(r.output);
    abandoned := rc > RestartThreshold;
    if abandoned {
      var _ := rt.Run(ComposeStop(s));
    }
  }

  /** The diagnosis loop: returns the descriptors to add to the failed list. */
  method DiagnoseAll(rt: Runtime, ds: seq<ExpensiveEntry>) returns (failed: seq<ExpensiveEntry>)
    modifies rt
    ensures failed == DiagnoseFailed(ds, |old(rt.issued)|, rt.answer)
    ensures rt.issued == old(rt.issued) + DiagnoseCommands(ds, |old(rt.issued)|, rt.answer)
  {
    ghost var ans := rt.answer;
    ghost var log0 := rt.issued;
    ghost var n0 := |log0|;
    failed := [];
    for i := 0 to |ds|
      invariant rt.issued == log0 + DiagnoseCommands(ds[..i], n0, ans)
      invariant failed == DiagnoseFailed(ds[..i], n0, ans)
    {
      ghost var before := rt.issued;
      DiagnoseStep(ds, i, n0, |before|, ans);
      var abandoned := DiagnoseOne(rt, ds[i]);
      if abandoned {
        failed := failed + [ds[i]];
      }
      AppendAssoc(log0, DiagnoseCommands(ds[..i], n0, ans), DiagnosisCommands(ds[i], |before|, ans));
    }
    assert ds[..|ds|] == ds;
  }

  /**
   * Admission of one popped service: probe its wait list; when healthy, start it.
   */
  method AdmitOne(rt: Runtime, d: ExpensiveEntry) returns (ok: bool)
    modifies rt
    ensures var k := FirstUnhealthy(d.waitUntilHealthy, |old(rt.issued)|, rt.answer);
      && ok == (k == |d.waitUntilHealthy|)
      && rt.issued == old(rt.issued) + AdmissionCommands(d, k)
  {
    ok := CheckDependencies(rt, d.waitUntilHealthy);
    if ok {
      var _ := rt.Run(ComposeUp([Name(d)]));
    }
  }

  /** The admission loop over a todo queue and an in-progress list. */
  method AdmitAll(rt: Runtime, todo: seq<ExpensiveEntry>, inprogress: seq<ExpensiveEntry>)
    returns (todo': seq<ExpensiveEntry>, inprogress': seq<ExpensiveEntry>)
    requires |inprogress| <= MaxInProgress
    modifies rt
    ensures var a := Admit(todo, inprogress, |old(rt.issued)|, rt.answer);
      todo' == a.todo && inprogress' == a.inprogress && rt.issued == old(rt.issued) + a.cmds
  {
    ghost var ans := rt.answer;
    ghost var log0 := rt.issued;
    ghost var total := Admit(todo, inprogress, |log0|, ans);
    ghost var c := [];
    todo', inprogress' := todo, inprogress;
    while |inprogress'| < MaxInProgress && todo' != []
      invariant |inprogress'| <= MaxInProgress
      invariant rt.issued == log0 + c
      invariant Admit(todo', inprogress', |rt.issued|, ans).todo == total.todo
      invariant Admit(todo', inprogress', |rt.issued|, ans).inprogress == total.inprogress
      invariant c + Admit(todo', inprogress', |rt.issued|, ans).cmds == total.cmds
      decreases |todo'|
    {
      var d := todo'[0];
      ghost var before := rt.issued;
      ghost var k := FirstUnhealthy(d.waitUntilHealthy, |before|, ans);
      ghost var step := AdmissionCommands(d, k);
      ghost var popped := todo';
      ghost var admitted := inprogress';
      todo' := todo'[1..];
      var ok := AdmitOne(rt, d);
      if ok {
        inprogress' := inprogress' + [d];
      }
      AdmitAdvance(popped, admitted, |before|, |rt.issued|, ans);
      AppendAssoc(c, step, Admit(todo', inprogress', |rt.issued|, ans).cmds);
      AppendAssoc(log0, c, step);
      c := c + step;
    }
  }

  class Orchestrator {
    const rt: Runtime
    var todo: seq<ExpensiveEntry>
    var inprogress: seq<ExpensiveEntry>
    var failed: seq<ExpensiveEntry>

    ghost predicate Valid()
      reads this
    {
      WellQueued(Queues(todo, inprogress, failed))
    }

    constructor (rt: Runtime, todo: seq<ExpensiveEntry>)
      requires Distinct(todo)
      ensures Valid()
      ensures this.rt == rt && this.todo == todo && inprogress == [] && failed == []
    {
      this.rt := rt;
      this.todo := todo;
      inprogress := [];
      failed := [];
    }

    /** Removes from in progress every service that probes healthy. */
    method HealthSweep()
      modifies this, rt
      ensures inprogress == Kept(old(inprogress), |old(rt.issued)|, rt.answer)
      ensures rt.issued == old(rt.issued) + ProbeCommandsOf(Checks(old(inprogress)))
      ensures todo == old(todo) && failed == old(failed)
    {
      inprogress := SweepHealth(rt, inprogress);
    }

    /**
     * For each service still in progress: tail its log, read its restart count, and when
     * the count exceeds the threshold record it as failed and stop it.
     */
    method DiagnoseStuck()
      modifies this, rt
      ensures failed == old(failed) + DiagnoseFailed(old(inprogress), |old(rt.issued)|, rt.answer)
      ensures rt.issued == old(rt.issued) + DiagnoseCommands(old(inprogress), |old(rt.issued)|, rt.answer)
      ensures todo == old(todo) && inprogress == old(inprogress)
    {
      var newlyFailed := DiagnoseAll(rt, inprogress);
      failed := failed + newlyFailed;
    }

    /**
     * While fewer than MaxInProgress are in progress and todo is not empty: pop the head of
     * todo; when its wait list is healthy start it and append it to in
     * progress, otherwise drop it.
     */
    method AdmitFromTodo()
      requires |inprogress| <= MaxInProgress
      modifies this, rt
      ensures var a := Admit(old(todo), old(inprogress), |old(rt.issued)|, rt.answer);
        todo == a.todo && inprogress == a.inprogress && rt.issued == old(rt.issued) + a.cmds
      ensures failed == old(failed)
    {
      todo, inprogress := AdmitAll(rt, todo, inprogress);
    }

    /** One pass of the loop: health sweep, diagnosis, admission. */
    method Sweep()
      requires Valid()
      modifies this, rt
      ensures Valid()
      ensures var q, n := Queues(old(todo), old(inprogress), old(failed)), |old(rt.issued)|;
        && Queues(todo, inprogress, failed) == SweepOnce(q, n, rt.answer)
        && rt.issued == old(rt.issued) + SweepCommands(q, n, rt.answer)
    {
      ghost var q := Queues(todo, inprogress, failed);
      ghost var ans := rt.answer;
      ghost var log0 := rt.issued;
      ghost var n := |log0|;
      SweepKeepsWellQueued(q, n, ans);
      SurvivorsWithin(q, n, ans);
      HealthSweep();
      ghost var probes := ProbeCommandsOf(Checks(q.inprogress));
      assert |rt.issued| == DiagnosisStart(q, n);
      DiagnoseStuck();
      ghost var diagnosis := DiagnoseCommands(Survivors(q, n, ans), DiagnosisStart(q, n), ans);
      assert |rt.issued| == AdmissionStart(q, n, ans);
      AdmitFromTodo();
      AppendAssoc(log0, probes, diagnosis);
      AppendAssoc(log0, probes + diagnosis, PassAdmission(q, n, ans).cmds);
    }

    /** One pass of the loop, accounted against what the remaining passes run and issue. */
    method Advance(ghost step: Stepper, ghost left: nat, ghost total: Queues, ghost log: seq<Command>,
                   ghost c: seq<Command>) returns (ghost c': seq<Command>)
      requires Valid() && Agrees(step, rt.answer) && left > 0 && (todo != [] || inprogress != [])
      requires RunBy(Queues(todo, inprogress, failed), |rt.issued|, step, left) == total
      requires c + RunCommandsBy(Queues(todo, inprogress, failed), |rt.issued|, step, left) == log
      modifies this, rt
      ensures Valid() && |c| <= |c'| && c'[..|c|] == c && rt.issued == old(rt.issued) + c'[|c|..]
      ensures RunBy(Queues(todo, inprogress, failed), |rt.issued|, step, left - 1) == total
      ensures c' + RunCommandsBy(Queues(todo, inprogress, failed), |rt.issued|, step, left - 1) == log
    {
      ghost var q := Queues(todo, inprogress, failed);
      ghost var n := |rt.issued|;
      Sweep();
      ghost var pass := SweepCommands(q, n, rt.answer);
      assert Passes(rt.answer)(q, n) == Pass(Queues(todo, inprogress, failed), pass);
      RunByAdvance(q, n, step, Queues(todo, inprogress, failed), |rt.issued|, pass, left, total, c, log);
      c' := c + pass;
      assert c'[|c|..] == pass;
    }

    /**
     * The `while` loop: passes run while something is waiting or in progress, here for at
     * most `budget` passes. The queues and commands are those of the loop's specification.
     */
    method RunSweeps(budget: nat) returns (passes: nat)
      requires Valid()
      modifies this, rt
      ensures Valid()
      ensures passes <= budget && (Done(Queues(todo, inprogress, failed)) || passes == budget)
      ensures var q, n := Queues(old(todo), old(inprogress), old(failed)), |old(rt.issued)|;
        && Queues(todo, inprogress, failed) == Run(q, n, rt.answer, budget)
        && rt.issued == old(rt.issued) + RunCommands(q, n, rt.answer, budget)
    {
      assert Agrees(Passes(rt.answer), rt.answer);
      ghost var step: Stepper :| Agrees(step, rt.answer);
      ghost var q0, n0 := Queues(todo, inprogress, failed), |rt.issued|;
      ghost var total := RunBy(q0, n0, step, budget);
      ghost var log := RunCommandsBy(q0, n0, step, budget);
      ghost var c: seq<Command> := [];
      ghost var left := budget;
      passes := 0;
      while (todo != [] || inprogress != []) && passes < budget
        invariant Valid() && passes <= budget && left == budget - passes
        invariant rt.issued == old(rt.issued) + c
        invariant RunBy(Queues(todo, inprogress, failed), |rt.issued|, step, left) == total
        invariant c + RunCommandsBy(Queues(todo, inprogress, failed), |rt.issued|, step, left) == log
        decreases left
      {
        ghost var c0 := c;
        c := Advance(step, left, total, log, c);
        AppendAssoc(old(rt.issued), c0, c[|c0|..]);
        assert c == c0 + c[|c0|..];
        left := left - 1;
        passes := passes + 1;
      }
      RunByStop(Queues(todo, inprogress, failed), |rt.issued|, step, left);
      RunByAgrees(q0, n0, step, rt.answer, budget);
    }
  }
}

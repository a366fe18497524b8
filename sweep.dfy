/**
 * One sweep of the expensive-service loop of logic.py, as functions of the queues and of the
 * runtime's answers: the health sweep over in-progress services, the restart-count
 * diagnosis of those still unhealthy, and the FIFO admission from the todo queue.
 */
module Sweep {
  import opened Seqs
  import opened Shell
  import opened Env
  import opened Health

  /** At most this many expensive services are started but not yet healthy. */
  const MaxInProgress: nat := 3

  /** A container restarted more often than this is abandoned. */
  const RestartThreshold: nat := 9

  function Name(d: ExpensiveEntry): string {
    d.check.composeService
  }

  // ---------------------------------------------------------------- health sweep

  /** The probe commands of a list of checks, in order. */
  function ProbeCommandsOf(checks: seq<HealthCheck>): (r: seq<Command>)
    ensures |r| == |checks| && forall i :: 0 <= i < |checks| ==> r[i] == ProbeCommand(checks[i])
  {
    seq(|checks|, i requires 0 <= i < |checks| => ProbeCommand(checks[i]))
  }

  function Checks(ds: seq<ExpensiveEntry>): (r: seq<HealthCheck>)
    ensures |r| == |ds| && forall i :: 0 <= i < |ds| ==> r[i] == ds[i].check
  {
    seq(|ds|, i requires 0 <= i < |ds| => ds[i].check)
  }

  /**
   * The in-progress list after the health sweep: the i-th service is probed as command n + i
   * and kept exactly when that probe is not healthy.
   */
  function Kept(ds: seq<ExpensiveEntry>, n: nat, answer: Oracle): seq<ExpensiveEntry>
    decreases |ds|
  {
    if ds == [] then []
    else
      var last := ds[|ds| - 1];
      Kept(ds[..|ds| - 1], n, answer) + if ProbeHealthy(last.check, n + |ds| - 1, answer) then [] else [last]
  }

  lemma ChecksAdvance(ds: seq<ExpensiveEntry>, i: nat)
    requires i < |ds|
    ensures ProbeCommandsOf(Checks(ds[..i + 1])) == ProbeCommandsOf(Checks(ds[..i])) + [ProbeCommand(ds[i].check)]
  {
    assert Checks(ds[..i + 1]) == Checks(ds[..i]) + [ds[i].check];
  }

  /** The sweep keeps services in their original order. */
  lemma {:induction false} KeptSubseq(ds: seq<ExpensiveEntry>, n: nat, answer: Oracle)
    ensures IsSubseq(Kept(ds, n, answer), ds)
    decreases |ds|
  {
    if ds != [] {
      var init, last := ds[..|ds| - 1], ds[|ds| - 1];
      KeptSubseq(init, n, answer);
      assert init + [last] == ds;
      if ProbeHealthy(last.check, n + |ds| - 1, answer) {
        assert IsSubseq([], [last]);
        SubseqAppend(Kept(init, n, answer), init, [], [last]);
        assert Kept(ds, n, answer) == Kept(init, n, answer) + [];
      } else {
        SubseqOfSelf([last]);
        SubseqAppend(Kept(init, n, answer), init, [last], [last]);
      }
    }
  }

  /** Every service that probes unhealthy stays in progress. */
  lemma {:induction false} KeptUnhealthy(ds: seq<ExpensiveEntry>, n: nat, answer: Oracle)
    ensures forall i :: 0 <= i < |ds| && !ProbeHealthy(ds[i].check, n + i, answer) ==> ds[i] in Kept(ds, n, answer)
    decreases |ds|
  {
    if ds != [] {
      var init := ds[..|ds| - 1];
      KeptUnhealthy(init, n, answer);
      forall i | 0 <= i < |init| ensures ds[i] == init[i] {}
    }
  }

  /** Among distinct services, every one that probes healthy leaves the in-progress list. */
  lemma {:induction false} KeptHealthyLeave(ds: seq<ExpensiveEntry>, n: nat, answer: Oracle)
    requires Distinct(ds)
    ensures forall i :: 0 <= i < |ds| && ProbeHealthy(ds[i].check, n + i, answer) ==> ds[i] !in Kept(ds, n, answer)
    decreases |ds|
  {
    if ds != [] {
      var init, last := ds[..|ds| - 1], ds[|ds| - 1];
      DistinctInit(ds);
      KeptHealthyLeave(init, n, answer);
      KeptSubseq(init, n, answer);
      SubseqMembers(Kept(init, n, answer), init);
      forall i | 0 <= i < |init| ensures ds[i] == init[i] && ds[i] != last {}
    }
  }

  // ---------------------------------------------------------------- restart count

  predicate IsDigits(s: string) {
    |s| > 0 && forall i :: 0 <= i < |s| ==> '0' <= s[i] <= '9'
  }

  /** int(s) for a string of decimal digits. */
  function DecimalValue(s: string): nat
    requires forall i :: 0 <= i < |s| ==> '0' <= s[i] <= '9'
    decreases |s|
  {
    if s == [] then 0 else DecimalValue(s[..|s| - 1]) * 10 + (s[|s| - 1] as int - '0' as int)
  }

  /** `ln.isdigit() and int(ln) > 0` */
  predicate PositiveCount(ln: string) {
    IsDigits(ln) && DecimalValue(ln) > 0
  }

  /**
   * The restart count read from `docker inspect` output: the value of the last line that is
   * all digits and positive, or 0 when there is none.
   */
  function RestartCount(lines: seq<string>): nat {
    RestartCountUpTo(lines, |lines|)
  }

  /** The restart count read from the first i lines. */
  function RestartCountUpTo(lines: seq<string>, i: nat): nat
    requires i <= |lines|
  {
    if i == 0 then 0
    else if PositiveCount(lines[i - 1]) then DecimalValue(lines[i - 1])
    else RestartCountUpTo(lines, i - 1)
  }

  /**
   * The count read from the first i lines is 0 exactly when none of them is a positive
   * number, and otherwise is the value of one of them after which none is.
   */
  lemma {:induction false} RestartCountUpToIsLastPositive(lines: seq<string>, i: nat)
    requires i <= |lines|
    ensures var rc := RestartCountUpTo(lines, i);
      && (rc == 0 <==> forall j :: 0 <= j < i ==> !PositiveCount(lines[j]))
      && (rc > 0 ==> exists j :: 0 <= j < i && PositiveCount(lines[j]) && DecimalValue(lines[j]) == rc &&
                                forall k :: j < k < i ==> !PositiveCount(lines[k]))
  {
    if i > 0 && !PositiveCount(lines[i - 1]) {
      RestartCountUpToIsLastPositive(lines, i - 1);
    }
  }

  /** The whole output: 0 when no line is a positive number, else the last such line's value. */
  lemma RestartCountIsLastPositive(lines: seq<string>)
    ensures var rc := RestartCount(lines);
      && (rc == 0 <==> forall j :: 0 <= j < |lines| ==> !PositiveCount(lines[j]))
      && (rc > 0 ==> exists j :: 0 <= j < |lines| && PositiveCount(lines[j]) && DecimalValue(lines[j]) == rc &&
                                forall k :: j < k < |lines| ==> !PositiveCount(lines[k]))
  {
    RestartCountUpToIsLastPositive(lines, |lines|);
  }

  /** The parsing loop of logic.py over the inspect output. */
  method ParseRestartCount(lines: seq<string>) returns (rc: nat)
    ensures rc == RestartCount(lines)
  {
    rc := 0;
    for i := 0 to |lines|
      invariant rc == RestartCountUpTo(lines, i)
    {
      if IsDigits(lines[i]) && DecimalValue(lines[i]) > 0 {
        rc := DecimalValue(lines[i]);
      }
    }
  }

  // ---------------------------------------------------------------- diagnosis

  /** The restart count of `d` when its inspect is command n + 1 (after its log tail at n). */
  function ObservedCount(d: ExpensiveEntry, n: nat, answer: Oracle): nat {
    RestartCount(Answer(answer, n + 1, InspectRestartCount(Name(d))).output)
  }

  /** Whether the diagnosis starting at command n abandons `d`. */
  predicate Abandoned(d: ExpensiveEntry, n: nat, answer: Oracle) {
    ObservedCount(d, n, answer) > RestartThreshold
  }

  /** Commands issued for one service. */
  function DiagnosisCommands(d: ExpensiveEntry, n: nat, answer: Oracle): seq<Command> {
    var s := Name(d);
    if Abandoned(d, n, answer) then [TailLog(s), InspectRestartCount(s), ComposeStop(s)]
    else [TailLog(s), InspectRestartCount(s)]
  }

  /**
   * The commands of the diagnosis of the services in `ds`, from command n on: for each in
   * turn its log tail, its restart-count inspect and, when abandoned, its stop.
   */
  function DiagnoseCommands(ds: seq<ExpensiveEntry>, n: nat, answer: Oracle): seq<Command>
    decreases |ds|
  {
    if ds == [] then []
    else
      var init := DiagnoseCommands(ds[..|ds| - 1], n, answer);
      init + DiagnosisCommands(ds[|ds| - 1], n + |init|, answer)
  }

  /** Where the diagnosis of the last of `ds` starts. */
  function LastStart(ds: seq<ExpensiveEntry>, n: nat, answer: Oracle): nat
    requires ds != []
  {
    n + |DiagnoseCommands(ds[..|ds| - 1], n, answer)|
  }

  /** The services the diagnosis adds to the failed list, in order. */
  function DiagnoseFailed(ds: seq<ExpensiveEntry>, n: nat, answer: Oracle): seq<ExpensiveEntry>
    decreases |ds|
  {
    if ds == [] then []
    else
      var last := ds[|ds| - 1];
      DiagnoseFailed(ds[..|ds| - 1], n, answer) + if Abandoned(last, LastStart(ds, n, answer), answer) then [last] else []
  }

  /** The restart count read for each service. */
  function DiagnoseCounts(ds: seq<ExpensiveEntry>, n: nat, answer: Oracle): (r: seq<nat>)
    ensures |r| == |ds|
    decreases |ds|
  {
    if ds == [] then []
    else DiagnoseCounts(ds[..|ds| - 1], n, answer) + [ObservedCount(ds[|ds| - 1], LastStart(ds, n, answer), answer)]
  }

  /** The diagnosis of a non-empty list: that of all but the last service, then the last one's. */
  lemma DiagnoseSnoc(ds: seq<ExpensiveEntry>, n: nat, answer: Oracle)
    requires ds != []
    ensures var init, last, m := ds[..|ds| - 1], ds[|ds| - 1], LastStart(ds, n, answer);
      var c := ObservedCount(last, m, answer);
      && ds == init + [last]
      && m == n + |DiagnoseCommands(init, n, answer)|
      && DiagnoseCommands(ds, n, answer) == DiagnoseCommands(init, n, answer) + DiagnosisCommands(last, m, answer)
      && DiagnoseCounts(ds, n, answer) == DiagnoseCounts(init, n, answer) + [c]
      && DiagnoseFailed(ds, n, answer) == DiagnoseFailed(init, n, answer) + if c > RestartThreshold then [last] else []
  {
    SnocSplit(ds);
    DiagnoseCommandsSnoc(ds, n, answer);
    DiagnoseCountsSnoc(ds, n, answer);
    DiagnoseFailedSnoc(ds, n, answer);
  }

  /** A non-empty list is its init followed by its last element. */
  lemma SnocSplit(ds: seq<ExpensiveEntry>)
    requires ds != []
    ensures ds == ds[..|ds| - 1] + [ds[|ds| - 1]]
  {
  }

  lemma DiagnoseCommandsSnoc(ds: seq<ExpensiveEntry>, n: nat, answer: Oracle)
    requires ds != []
    ensures DiagnoseCommands(ds, n, answer) ==
      DiagnoseCommands(ds[..|ds| - 1], n, answer) + DiagnosisCommands(ds[|ds| - 1], LastStart(ds, n, answer), answer)
  {
  }

  lemma DiagnoseCountsSnoc(ds: seq<ExpensiveEntry>, n: nat, answer: Oracle)
    requires ds != []
    ensures DiagnoseCounts(ds, n, answer) ==
      DiagnoseCounts(ds[..|ds| - 1], n, answer) + [ObservedCount(ds[|ds| - 1], LastStart(ds, n, answer), answer)]
  {
  }

  lemma DiagnoseFailedSnoc(ds: seq<ExpensiveEntry>, n: nat, answer: Oracle)
    requires ds != []
    ensures DiagnoseFailed(ds, n, answer) == DiagnoseFailed(ds[..|ds| - 1], n, answer) +
      if Abandoned(ds[|ds| - 1], LastStart(ds, n, answer), answer) then [ds[|ds| - 1]] else []
  {
  }

  /** Two commands per service and one more per abandoned service. */
  lemma {:induction false} DiagnoseCommandsLength(ds: seq<ExpensiveEntry>, n: nat, answer: Oracle)
    ensures |DiagnoseCommands(ds, n, answer)| == 2 * |ds| + |DiagnoseFailed(ds, n, answer)|
    decreases |ds|
  {
    if ds != [] {
      var init, last, m := ds[..|ds| - 1], ds[|ds| - 1], LastStart(ds, n, answer);
      var out := Abandoned(last, m, answer);
      DiagnoseSnoc(ds, n, answer);
      DiagnoseCommandsLength(init, n, answer);
      assert |DiagnoseCommands(ds, n, answer)| == |DiagnoseCommands(init, n, answer)| + |DiagnosisCommands(last, m, answer)|;
      assert |DiagnosisCommands(last, m, answer)| == if out then 3 else 2;
      assert |DiagnoseFailed(ds, n, answer)| == |DiagnoseFailed(init, n, answer)| + if out then 1 else 0;
    }
  }

  /** The diagnosis commands of one more service, `d`, after those of `init`; its own start at m. */
  lemma DiagnoseCommandsAppend(init: seq<ExpensiveEntry>, d: ExpensiveEntry, n: nat, m: nat, answer: Oracle)
    requires m == n + |DiagnoseCommands(init, n, answer)|
    ensures DiagnoseCommands(init + [d], n, answer) == DiagnoseCommands(init, n, answer) + DiagnosisCommands(d, m, answer)
  {
    var s := init + [d];
    assert s[..|s| - 1] == init;
  }

  /** The services failed by the diagnosis of one more service, `d`, diagnosed from command m. */
  lemma DiagnoseFailedAppend(init: seq<ExpensiveEntry>, d: ExpensiveEntry, n: nat, m: nat, answer: Oracle)
    requires m == n + |DiagnoseCommands(init, n, answer)|
    ensures DiagnoseFailed(init + [d], n, answer) == DiagnoseFailed(init, n, answer) + if Abandoned(d, m, answer) then [d] else []
  {
    var s := init + [d];
    assert s[..|s| - 1] == init;
  }

  /** One step of a left-to-right walk over `ds` from command n; the i-th service starts at m. */
  lemma DiagnoseStep(ds: seq<ExpensiveEntry>, i: nat, n: nat, m: nat, answer: Oracle)
    requires i < |ds| && m == n + |DiagnoseCommands(ds[..i], n, answer)|
    ensures DiagnoseCommands(ds[..i + 1], n, answer) == DiagnoseCommands(ds[..i], n, answer) + DiagnosisCommands(ds[i], m, answer)
    ensures DiagnoseFailed(ds[..i + 1], n, answer) == DiagnoseFailed(ds[..i], n, answer) + if Abandoned(ds[i], m, answer) then [ds[i]] else []
  {
    assert ds[..i + 1] == ds[..i] + [ds[i]];
    DiagnoseCommandsAppend(ds[..i], ds[i], n, m, answer);
    DiagnoseFailedAppend(ds[..i], ds[i], n, m, answer);
  }

  /**
   * `c` is the restart count reported by an inspect of `d` that is one of `cmds`, the commands
   * issued from command n on.
   */
  ghost predicate ObservedIn(d: ExpensiveEntry, c: nat, n: nat, cmds: seq<Command>, answer: Oracle) {
    exists j :: n <= j < n + |cmds| && cmds[j - n] == InspectRestartCount(Name(d)) &&
      c == RestartCount(Answer(answer, j, InspectRestartCount(Name(d))).output)
  }

  /** Each recorded count is the one reported by the diagnosis's own inspect of that service. */
  lemma {:induction false} DiagnoseObserves(ds: seq<ExpensiveEntry>, n: nat, answer: Oracle)
    ensures var counts, cmds := DiagnoseCounts(ds, n, answer), DiagnoseCommands(ds, n, answer);
      forall i :: 0 <= i < |ds| ==> ObservedIn(ds[i], counts[i], n, cmds, answer)
    decreases |ds|
  {
    if ds != [] {
      var init, last, m := ds[..|ds| - 1], ds[|ds| - 1], LastStart(ds, n, answer);
      var counts, cmds := DiagnoseCounts(ds, n, answer), DiagnoseCommands(ds, n, answer);
      var pre := DiagnoseCommands(init, n, answer);
      DiagnoseSnoc(ds, n, answer);
      DiagnoseObserves(init, n, answer);
      forall i | 0 <= i < |ds| ensures ObservedIn(ds[i], counts[i], n, cmds, answer) {
        if i == |init| {
          assert cmds[m + 1 - n] == DiagnosisCommands(last, m, answer)[1];
          assert counts[i] == ObservedCount(last, m, answer);
        } else {
          assert ds[i] == init[i] && counts[i] == DiagnoseCounts(init, n, answer)[i];
          var j :| n <= j < n + |pre| && pre[j - n] == InspectRestartCount(Name(ds[i])) &&
            counts[i] == RestartCount(Answer(answer, j, InspectRestartCount(Name(ds[i]))).output);
          assert cmds[j - n] == pre[j - n];
        }
      }
    }
  }

  /** The failed list keeps the order of in progress. */
  lemma {:induction false} DiagnoseFailedSubseq(ds: seq<ExpensiveEntry>, n: nat, answer: Oracle)
    ensures IsSubseq(DiagnoseFailed(ds, n, answer), ds)
    decreases |ds|
  {
    if ds != [] {
      var init, last := ds[..|ds| - 1], ds[|ds| - 1];
      DiagnoseSnoc(ds, n, answer);
      DiagnoseFailedSubseq(init, n, answer);
      SubseqSnoc(DiagnoseFailed(init, n, answer), init, last, Abandoned(last, LastStart(ds, n, answer), answer));
    }
  }

  /** Extending both lists by the same element, or only the longer one, keeps a subsequence. */
  lemma SubseqSnoc(a: seq<ExpensiveEntry>, b: seq<ExpensiveEntry>, x: ExpensiveEntry, keep: bool)
    requires IsSubseq(a, b)
    ensures IsSubseq(a + if keep then [x] else [], b + [x])
  {
    if keep {
      SubseqOfSelf([x]);
      SubseqAppend(a, b, [x], [x]);
    } else {
      assert IsSubseq([], [x]);
      SubseqAppend(a, b, [], [x]);
      assert a + [] == a;
    }
  }

  /** Every failed service was stopped. */
  lemma {:induction false} DiagnoseStopsFailed(ds: seq<ExpensiveEntry>, n: nat, answer: Oracle)
    ensures forall d :: d in DiagnoseFailed(ds, n, answer) ==> ComposeStop(Name(d)) in DiagnoseCommands(ds, n, answer)
    decreases |ds|
  {
    if ds != [] {
      var last := ds[|ds| - 1];
      DiagnoseStopsFailed(ds[..|ds| - 1], n, answer);
      if Abandoned(last, LastStart(ds, n, answer), answer) {
        assert DiagnosisCommands(last, LastStart(ds, n, answer), answer)[2] == ComposeStop(Name(last));
      }
    }
  }

  /** Among distinct services, one is failed exactly when its recorded count exceeds the threshold. */
  lemma {:induction false} DiagnoseFailedExactly(ds: seq<ExpensiveEntry>, n: nat, answer: Oracle)
    requires Distinct(ds)
    ensures var counts := DiagnoseCounts(ds, n, answer);
      forall i :: 0 <= i < |ds| ==> (ds[i] in DiagnoseFailed(ds, n, answer) <==> counts[i] > RestartThreshold)
    decreases |ds|
  {
    if ds != [] {
      var init, last, m := ds[..|ds| - 1], ds[|ds| - 1], LastStart(ds, n, answer);
      var failed := DiagnoseFailed(init, n, answer);
      DiagnoseSnoc(ds, n, answer);
      DistinctInit(ds);
      DiagnoseFailedExactly(init, n, answer);
      DiagnoseFailedSubseq(init, n, answer);
      SubseqMembers(failed, init);
      ExactStep(init, last, DiagnoseCounts(init, n, answer), failed, ObservedCount(last, m, answer));
    }
  }

  /** The exactness of the failed list carries over to one more service, diagnosed last. */
  lemma ExactStep(init: seq<ExpensiveEntry>, last: ExpensiveEntry, counts: seq<nat>, failed: seq<ExpensiveEntry>, c: nat)
    requires last !in init && |counts| == |init|
    requires forall x :: x in failed ==> x in init
    requires forall i :: 0 <= i < |init| ==> (init[i] in failed <==> counts[i] > RestartThreshold)
    ensures var ds, counts', failed' := init + [last], counts + [c], failed + if c > RestartThreshold then [last] else [];
      forall i :: 0 <= i < |ds| ==> (ds[i] in failed' <==> counts'[i] > RestartThreshold)
  {
    var ds, counts', failed' := init + [last], counts + [c], failed + if c > RestartThreshold then [last] else [];
    forall i | 0 <= i < |ds| ensures ds[i] in failed' <==> counts'[i] > RestartThreshold {
      if i < |init| {
        assert ds[i] == init[i] && counts'[i] == counts[i] && ds[i] != last;
      }
    }
  }

  // ---------------------------------------------------------------- admission

  /**
   * How many of `deps`, probed in order from command n on, are healthy before the first
   * that is not: |deps| when all are.
   */
  function FirstUnhealthy(deps: seq<HealthCheck>, n: nat, answer: Oracle): (k: nat)
    ensures k <= |deps|
    decreases |deps|
  {
    if deps == [] then 0
    else if !ProbeHealthy(deps[0], n, answer) then 0
    else 1 + FirstUnhealthy(deps[1..], n + 1, answer)
  }

  /** The dependencies before position k probed healthy; the one at k, if any, did not. */
  lemma {:induction false} FirstUnhealthyMeans(deps: seq<HealthCheck>, n: nat, answer: Oracle)
    ensures var k := FirstUnhealthy(deps, n, answer);
      && (forall i :: 0 <= i < k ==> ProbeHealthy(deps[i], n + i, answer))
      && (k < |deps| ==> !ProbeHealthy(deps[k], n + k, answer))
    decreases |deps|
  {
    if deps != [] && ProbeHealthy(deps[0], n, answer) {
      FirstUnhealthyMeans(deps[1..], n + 1, answer);
      assert forall i :: 1 <= i < |deps| ==> deps[i] == deps[1..][i - 1];
    }
  }

  /** One probe of the dependency walk: the i-th dependency is probed at n, the next at m. */
  lemma FirstUnhealthyAdvance(deps: seq<HealthCheck>, i: nat, n: nat, m: nat, answer: Oracle)
    requires i < |deps| && m == n + 1
    ensures FirstUnhealthy(deps[i..], n, answer) ==
      if ProbeHealthy(deps[i], n, answer) then 1 + FirstUnhealthy(deps[i + 1..], m, answer) else 0
  {
    assert deps[i..][1..] == deps[i + 1..];
  }

  /** A wait list is satisfied when every dependency probes healthy (vacuously when empty). */
  predicate DependenciesHealthy(deps: seq<HealthCheck>, n: nat, answer: Oracle) {
    FirstUnhealthy(deps, n, answer) == |deps|
  }

  /**
   * A dependency walk: how many of a wait list, probed in order from command n on, come out
   * healthy before the first that does not.
   */
  type Walk = w: (seq<HealthCheck>, nat) -> nat | forall deps: seq<HealthCheck>, n: nat :: w(deps, n) <= |deps|
    witness (deps: seq<HealthCheck>, n: nat) => 0

  /** The walk the runtime's answers give. */
  function Walker(answer: Oracle): Walk {
    (deps: seq<HealthCheck>, n: nat) => FirstUnhealthy(deps, n, answer)
  }

  /** Queues and issued commands after admission. */
  datatype Admission = Admission(todo: seq<ExpensiveEntry>, inprogress: seq<ExpensiveEntry>, cmds: seq<Command>)

  /** The queues admission leaves behind. */
  datatype Admitted = Admitted(todo: seq<ExpensiveEntry>, inprogress: seq<ExpensiveEntry>)

  /** Commands issued for one popped service whose first k dependencies probed healthy. */
  function AdmissionCommands(d: ExpensiveEntry, k: nat): (r: seq<Command>)
    requires k <= |d.waitUntilHealthy|
    ensures |r| == k + 1
  {
    if k == |d.waitUntilHealthy| then ProbeCommandsOf(d.waitUntilHealthy) + [ComposeUp([Name(d)])]
    else ProbeCommandsOf(d.waitUntilHealthy[..k + 1])
  }

  /** The in-progress list a popped service leaves behind: with it appended when admitted. */
  function Pushed(inprogress: seq<ExpensiveEntry>, d: ExpensiveEntry, ok: bool): seq<ExpensiveEntry> {
    if ok then inprogress + [d] else inprogress
  }

  /**
   * Admission from command n on: while fewer than MaxInProgress are in progress and todo is
   * not empty, pop the head of todo and walk its wait list, stopping at the first unhealthy
   * dependency. All healthy: start it and append it to in progress. Otherwise it is dropped.
   */
  function AdmitBy(todo: seq<ExpensiveEntry>, inprogress: seq<ExpensiveEntry>, n: nat, walk: Walk): Admitted
    decreases |todo|
  {
    if |inprogress| >= MaxInProgress || todo == [] then Admitted(todo, inprogress)
    else
      var d := todo[0];
      var k := walk(d.waitUntilHealthy, n);
      AdmitBy(todo[1..], Pushed(inprogress, d, k == |d.waitUntilHealthy|), n + k + 1, walk)
  }

  /** The commands admission issues: for each popped service its probes, and `up` when admitted. */
  function AdmitLogBy(todo: seq<ExpensiveEntry>, inprogress: seq<ExpensiveEntry>, n: nat, walk: Walk): seq<Command>
    decreases |todo|
  {
    if |inprogress| >= MaxInProgress || todo == [] then []
    else
      var d := todo[0];
      var k := walk(d.waitUntilHealthy, n);
      AdmissionCommands(d, k) + AdmitLogBy(todo[1..], Pushed(inprogress, d, k == |d.waitUntilHealthy|), n + k + 1, walk)
  }

  /** Admission with the wait lists probed through the runtime. */
  function Admit(todo: seq<ExpensiveEntry>, inprogress: seq<ExpensiveEntry>, n: nat, answer: Oracle): Admission {
    var q := AdmitBy(todo, inprogress, n, Walker(answer));
    Admission(q.todo, q.inprogress, AdmitLogBy(todo, inprogress, n, Walker(answer)))
  }

  /** One step of admission: pop the head of todo, walk its wait list, start it or drop it. */
  lemma AdmitByStep(todo: seq<ExpensiveEntry>, inprogress: seq<ExpensiveEntry>, n: nat, walk: Walk)
    requires |inprogress| < MaxInProgress && todo != []
    ensures var d := todo[0];
      var k := walk(d.waitUntilHealthy, n);
      AdmitBy(todo, inprogress, n, walk) == AdmitBy(todo[1..], Pushed(inprogress, d, k == |d.waitUntilHealthy|), n + k + 1, walk)
  {
  }

  /** The commands of one step of admission: the walk's probes (and `up`), then the rest. */
  lemma AdmitLogStep(todo: seq<ExpensiveEntry>, inprogress: seq<ExpensiveEntry>, n: nat, walk: Walk)
    requires |inprogress| < MaxInProgress && todo != []
    ensures var d := todo[0];
      var k := walk(d.waitUntilHealthy, n);
      AdmitLogBy(todo, inprogress, n, walk) ==
        AdmissionCommands(d, k) + AdmitLogBy(todo[1..], Pushed(inprogress, d, k == |d.waitUntilHealthy|), n + k + 1, walk)
  {
  }

  /** The commands of one step of admission, the head's walk length k and the next start m named. */
  lemma AdmitLogStepAt(todo: seq<ExpensiveEntry>, inprogress: seq<ExpensiveEntry>, n: nat, m: nat, k: nat, walk: Walk)
    requires |inprogress| < MaxInProgress && todo != []
    requires k == walk(todo[0].waitUntilHealthy, n) && m == n + k + 1
    ensures AdmitLogBy(todo, inprogress, n, walk) ==
      AdmissionCommands(todo[0], k) + AdmitLogBy(todo[1..], Pushed(inprogress, todo[0], k == |todo[0].waitUntilHealthy|), m, walk)
  {
    AdmitLogStep(todo, inprogress, n, walk);
  }

  /** Admission stops when in progress is full or todo is empty. */
  lemma AdmitByStop(todo: seq<ExpensiveEntry>, inprogress: seq<ExpensiveEntry>, n: nat, walk: Walk)
    requires |inprogress| >= MaxInProgress || todo == []
    ensures AdmitBy(todo, inprogress, n, walk) == Admitted(todo, inprogress)
  {
  }

  /** Admission that stops at once issues nothing. */
  lemma AdmitLogStop(todo: seq<ExpensiveEntry>, inprogress: seq<ExpensiveEntry>, n: nat, walk: Walk)
    requires |inprogress| >= MaxInProgress || todo == []
    ensures AdmitLogBy(todo, inprogress, n, walk) == []
  {
  }

  /** One iteration of the admission loop; the next service is popped at command m. */
  lemma AdmitAdvance(todo: seq<ExpensiveEntry>, inprogress: seq<ExpensiveEntry>, n: nat, m: nat, answer: Oracle)
    requires |inprogress| < MaxInProgress && todo != []
    requires m == n + FirstUnhealthy(todo[0].waitUntilHealthy, n, answer) + 1
    ensures var d := todo[0];
      var k := FirstUnhealthy(d.waitUntilHealthy, n, answer);
      var a := Admit(todo, inprogress, n, answer);
      var rest := Admit(todo[1..], Pushed(inprogress, d, k == |d.waitUntilHealthy|), m, answer);
      a.todo == rest.todo && a.inprogress == rest.inprogress && a.cmds == AdmissionCommands(d, k) + rest.cmds
  {
    AdvanceQueues(todo, inprogress, n, m, answer);
    AdvanceLog(todo, inprogress, n, m, answer);
  }

  /** The queues after one iteration of the admission loop. */
  lemma AdvanceQueues(todo: seq<ExpensiveEntry>, inprogress: seq<ExpensiveEntry>, n: nat, m: nat, answer: Oracle)
    requires |inprogress| < MaxInProgress && todo != []
    requires m == n + FirstUnhealthy(todo[0].waitUntilHealthy, n, answer) + 1
    ensures var d := todo[0];
      var k := FirstUnhealthy(d.waitUntilHealthy, n, answer);
      AdmitBy(todo, inprogress, n, Walker(answer)) == AdmitBy(todo[1..], Pushed(inprogress, d, k == |d.waitUntilHealthy|), m, Walker(answer))
  {
    assert Walker(answer)(todo[0].waitUntilHealthy, n) == FirstUnhealthy(todo[0].waitUntilHealthy, n, answer);
    AdmitByStep(todo, inprogress, n, Walker(answer));
  }

  /** The commands of one iteration of the admission loop. */
  lemma AdvanceLog(todo: seq<ExpensiveEntry>, inprogress: seq<ExpensiveEntry>, n: nat, m: nat, answer: Oracle)
    requires |inprogress| < MaxInProgress && todo != []
    requires m == n + FirstUnhealthy(todo[0].waitUntilHealthy, n, answer) + 1
    ensures var d := todo[0];
      var k := FirstUnhealthy(d.waitUntilHealthy, n, answer);
      AdmitLogBy(todo, inprogress, n, Walker(answer)) ==
        AdmissionCommands(d, k) + AdmitLogBy(todo[1..], Pushed(inprogress, d, k == |d.waitUntilHealthy|), m, Walker(answer))
  {
    var k := FirstUnhealthy(todo[0].waitUntilHealthy, n, answer);
    assert Walker(answer)(todo[0].waitUntilHealthy, n) == k;
    AdmitLogStepAt(todo, inprogress, n, m, k, Walker(answer));
  }

  /**
   * Admission pops from the front of todo and never adds to it; never lets more than
   * MaxInProgress be in progress; stops only when todo is empty or in progress is full; and
   * only appends to in progress.
   */
  lemma {:induction false} AdmitShape(todo: seq<ExpensiveEntry>, inprogress: seq<ExpensiveEntry>, n: nat, walk: Walk)
    requires |inprogress| <= MaxInProgress
    ensures Shaped(todo, inprogress, AdmitBy(todo, inprogress, n, walk))
    decreases |todo|
  {
    if |inprogress| < MaxInProgress && todo != [] {
      AdmitByStep(todo, inprogress, n, walk);
      var d := todo[0];
      var k := walk(d.waitUntilHealthy, n);
      var ok := k == |d.waitUntilHealthy|;
      AdmitShape(todo[1..], Pushed(inprogress, d, ok), n + k + 1, walk);
      ShapeStep(todo, inprogress, ok, AdmitBy(todo[1..], Pushed(inprogress, d, ok), n + k + 1, walk));
    } else {
      AdmitByStop(todo, inprogress, n, walk);
      ShapeStop(todo, inprogress);
    }
  }

  /**
   * Admission from these queues popped from the front of todo, only appended to in progress,
   * kept at most MaxInProgress in progress, and stopped only on an empty todo or a full list.
   */
  ghost predicate Shaped(todo: seq<ExpensiveEntry>, inprogress: seq<ExpensiveEntry>, a: Admitted) {
    && IsSuffix(a.todo, todo)
    && IsPrefix(inprogress, a.inprogress) && |a.inprogress| <= MaxInProgress
    && (a.todo == [] || |a.inprogress| == MaxInProgress)
  }

  /** Popping the head of todo, and maybe admitting it, keeps todo a suffix and in progress a prefix. */
  lemma ShapeStep(todo: seq<ExpensiveEntry>, inprogress: seq<ExpensiveEntry>, ok: bool, a: Admitted)
    requires todo != [] && Shaped(todo[1..], Pushed(inprogress, todo[0], ok), a)
    ensures Shaped(todo, inprogress, a)
  {
    SuffixOfTail(a.todo, todo);
    if ok { PrefixOfExtended(inprogress, todo[0], a.inprogress); }
  }

  /** Admission that stops at once has the shape. */
  lemma ShapeStop(todo: seq<ExpensiveEntry>, inprogress: seq<ExpensiveEntry>)
    requires |inprogress| <= MaxInProgress && (|inprogress| >= MaxInProgress || todo == [])
    ensures Shaped(todo, inprogress, Admitted(todo, inprogress))
  {
    assert todo[|todo| - |todo|..] == todo && inprogress[..|inprogress|] == inprogress;
  }

  /** A subsequence of what is left after popping the head of todo is one of the queues before. */
  lemma FifoStep(r: seq<ExpensiveEntry>, inprogress: seq<ExpensiveEntry>, todo: seq<ExpensiveEntry>, ok: bool)
    requires todo != [] && IsSubseq(r, Pushed(inprogress, todo[0], ok) + todo[1..])
    ensures IsSubseq(r, inprogress + todo)
  {
    assert inprogress + todo == inprogress + [todo[0]] + todo[1..];
    if !ok {
      SubseqInsert(r, inprogress, todo[1..], todo[0]);
    }
  }

  /** A list is a subsequence of itself followed by more. */
  lemma SubseqOfPrefix(p: seq<ExpensiveEntry>, t: seq<ExpensiveEntry>)
    ensures IsSubseq(p, p + t)
  {
    SubseqOfSelf(p);
    SubseqPrefixDrop([], t, []);
    SubseqAppend(p, p, [], t);
    assert p + [] == p;
  }

  /** In-progress services after admission are the earlier ones and then some of todo, in order. */
  lemma {:induction false} AdmitFifo(todo: seq<ExpensiveEntry>, inprogress: seq<ExpensiveEntry>, n: nat, walk: Walk)
    ensures IsSubseq(AdmitBy(todo, inprogress, n, walk).inprogress, inprogress + todo)
    decreases |todo|
  {
    if |inprogress| < MaxInProgress && todo != [] {
      AdmitByStep(todo, inprogress, n, walk);
      var d := todo[0];
      var k := walk(d.waitUntilHealthy, n);
      var ok := k == |d.waitUntilHealthy|;
      var rest := AdmitBy(todo[1..], Pushed(inprogress, d, ok), n + k + 1, walk).inprogress;
      AdmitFifo(todo[1..], Pushed(inprogress, d, ok), n + k + 1, walk);
      FifoStep(rest, inprogress, todo, ok);
    } else {
      AdmitByStop(todo, inprogress, n, walk);
      SubseqOfPrefix(inprogress, todo);
    }
  }

  /**
   * `d` was popped at command p of an admission that began at command n and issued `cmds`:
   * its walk from p went through the whole wait list, and `cmds` holds, from p - n on, its
   * probes followed by its `up`.
   */
  ghost predicate StartedAt(d: ExpensiveEntry, p: nat, n: nat, cmds: seq<Command>, walk: Walk) {
    var m := |d.waitUntilHealthy|;
    n <= p && p - n + m + 1 <= |cmds| && walk(d.waitUntilHealthy, p) == m &&
    cmds[p - n .. p - n + m + 1] == AdmissionCommands(d, m)
  }

  /**
   * `d` was popped at command p and dropped: its walk from p stopped at a dependency, and
   * `cmds` holds, from p - n on, its probes up to and including that one.
   */
  ghost predicate DroppedAt(d: ExpensiveEntry, p: nat, n: nat, cmds: seq<Command>, walk: Walk) {
    var k := walk(d.waitUntilHealthy, p);
    n <= p && k < |d.waitUntilHealthy| && p - n + k + 1 <= |cmds| &&
    cmds[p - n .. p - n + k + 1] == AdmissionCommands(d, k)
  }

  /** The service popped first sits at the front of the commands. */
  lemma HeadAt(d: ExpensiveEntry, n: nat, walk: Walk, rest: seq<Command>)
    ensures var k := walk(d.waitUntilHealthy, n); var cmds := AdmissionCommands(d, k) + rest;
      (k == |d.waitUntilHealthy| ==> StartedAt(d, n, n, cmds, walk)) &&
      (k < |d.waitUntilHealthy| ==> DroppedAt(d, n, n, cmds, walk))
  {
    var k := walk(d.waitUntilHealthy, n);
    assert (AdmissionCommands(d, k) + rest)[0 .. k + 1] == AdmissionCommands(d, k);
  }

  /** Positions in the later commands move back by what was issued before them. */
  lemma SliceShift(pre: seq<Command>, rest: seq<Command>, i: nat, j: nat)
    requires i <= j <= |rest|
    ensures (pre + rest)[|pre| + i .. |pre| + j] == rest[i .. j]
  {
  }

  lemma StartedShift(d: ExpensiveEntry, p: nat, n: nat, pre: seq<Command>, rest: seq<Command>, walk: Walk)
    requires StartedAt(d, p, n + |pre|, rest, walk)
    ensures StartedAt(d, p, n, pre + rest, walk)
  {
    var m := |d.waitUntilHealthy|;
    SliceShift(pre, rest, p - n - |pre|, p - n - |pre| + m + 1);
  }

  lemma DroppedShift(d: ExpensiveEntry, p: nat, n: nat, pre: seq<Command>, rest: seq<Command>, walk: Walk)
    requires DroppedAt(d, p, n + |pre|, rest, walk)
    ensures DroppedAt(d, p, n, pre + rest, walk)
  {
    var k := walk(d.waitUntilHealthy, p);
    SliceShift(pre, rest, p - n - |pre|, p - n - |pre| + k + 1);
  }

  /** Every service in `out` beyond `inprogress` was popped, walked through and started in `cmds`. */
  ghost predicate AdmittedStarted(inprogress: seq<ExpensiveEntry>, out: seq<ExpensiveEntry>, n: nat, cmds: seq<Command>, walk: Walk) {
    AllBeyond(out, inprogress, d => exists p :: StartedAt(d, p, n, cmds, walk))
  }

  /** Every element of `xs` that is not in `excluded` satisfies `ok`. */
  ghost predicate AllBeyond(xs: seq<ExpensiveEntry>, excluded: seq<ExpensiveEntry>, ok: ExpensiveEntry -> bool) {
    forall d :: d in xs && d !in excluded ==> ok(d)
  }

  /** Admission issues the probes and `up` of every service it lets into progress, in that order. */
  lemma {:induction false} AdmitStartsBy(todo: seq<ExpensiveEntry>, inprogress: seq<ExpensiveEntry>, n: nat, walk: Walk, cmds: seq<Command>)
    requires cmds == AdmitLogBy(todo, inprogress, n, walk)
    ensures AdmittedStarted(inprogress, AdmitBy(todo, inprogress, n, walk).inprogress, n, cmds, walk)
    decreases |todo|
  {
    if |inprogress| < MaxInProgress && todo != [] {
      AdmitByStep(todo, inprogress, n, walk);
      AdmitLogStep(todo, inprogress, n, walk);
      var d := todo[0];
      var k := walk(d.waitUntilHealthy, n);
      var inprogress' := Pushed(inprogress, d, k == |d.waitUntilHealthy|);
      var cmds' := AdmitLogBy(todo[1..], inprogress', n + k + 1, walk);
      AdmitStartsBy(todo[1..], inprogress', n + k + 1, walk, cmds');
      StartStep(todo, inprogress, n, walk, AdmitBy(todo[1..], inprogress', n + k + 1, walk), AdmitBy(todo, inprogress, n, walk), cmds');
    } else {
      AdmitByStop(todo, inprogress, n, walk);
      AdmitLogStop(todo, inprogress, n, walk);
    }
  }

  /** Started services stay accounted for when one more is popped, and its commands put in front. */
  lemma StartStep(todo: seq<ExpensiveEntry>, inprogress: seq<ExpensiveEntry>, n: nat, walk: Walk, rest: Admitted, a: Admitted, cmds: seq<Command>)
    requires todo != [] && a.inprogress == rest.inprogress
    requires var k := walk(todo[0].waitUntilHealthy, n);
      AdmittedStarted(Pushed(inprogress, todo[0], k == |todo[0].waitUntilHealthy|), rest.inprogress, n + k + 1, cmds, walk)
    ensures AdmittedStarted(inprogress, a.inprogress, n, AdmissionCommands(todo[0], walk(todo[0].waitUntilHealthy, n)) + cmds, walk)
  {
    var d := todo[0];
    var k := walk(d.waitUntilHealthy, n);
    var pre := AdmissionCommands(d, k);
    forall e | e in a.inprogress && e !in inprogress
      ensures exists p :: StartedAt(e, p, n, pre + cmds, walk)
    {
      if e in Pushed(inprogress, d, k == |d.waitUntilHealthy|) {
        assert e == d && k == |d.waitUntilHealthy|;
        HeadAt(d, n, walk, cmds);
        assert StartedAt(e, n, n, pre + cmds, walk);
      } else {
        var p :| StartedAt(e, p, n + k + 1, cmds, walk);
        StartedShift(e, p, n, pre, cmds, walk);
      }
    }
  }

  /**
   * Each service admitted was popped at some command p of this admission where its whole
   * wait list probed healthy; the commands from p on are its probes and then its `up`.
   */
  lemma AdmitStarts(todo: seq<ExpensiveEntry>, inprogress: seq<ExpensiveEntry>, n: nat, answer: Oracle)
    ensures var a := Admit(todo, inprogress, n, answer);
      forall d :: d in a.inprogress && d !in inprogress ==>
        exists p :: n <= p && p - n + |d.waitUntilHealthy| < |a.cmds| && DependenciesHealthy(d.waitUntilHealthy, p, answer) &&
          a.cmds[p - n .. p - n + |d.waitUntilHealthy| + 1] == ProbeCommandsOf(d.waitUntilHealthy) + [ComposeUp([Name(d)])]
  {
    var a := Admit(todo, inprogress, n, answer);
    AdmitStartsBy(todo, inprogress, n, Walker(answer), a.cmds);
    forall d | d in a.inprogress && d !in inprogress
      ensures exists p :: (n <= p && p - n + |d.waitUntilHealthy| < |a.cmds| && DependenciesHealthy(d.waitUntilHealthy, p, answer) &&
                           a.cmds[p - n .. p - n + |d.waitUntilHealthy| + 1] == ProbeCommandsOf(d.waitUntilHealthy) + [ComposeUp([Name(d)])])
    {
      var p :| StartedAt(d, p, n, a.cmds, Walker(answer));
      assert DependenciesHealthy(d.waitUntilHealthy, p, answer);
    }
  }

  /** Admission only appends to in progress (no bound on its length needed). */
  lemma {:induction false} AdmitShape'(todo: seq<ExpensiveEntry>, inprogress: seq<ExpensiveEntry>, n: nat, walk: Walk)
    ensures forall d :: d in inprogress ==> d in AdmitBy(todo, inprogress, n, walk).inprogress
    decreases |todo|
  {
    if |inprogress| < MaxInProgress && todo != [] {
      AdmitByStep(todo, inprogress, n, walk);
      var d := todo[0];
      var k := walk(d.waitUntilHealthy, n);
      var inprogress' := if k == |d.waitUntilHealthy| then inprogress + [d] else inprogress;
      AdmitShape'(todo[1..], inprogress', n + k + 1, walk);
    } else {
      AdmitByStop(todo, inprogress, n, walk);
    }
  }

  /** Every service that left todo without being admitted was popped and dropped in `cmds`. */
  ghost predicate DroppedBlocked(todo: seq<ExpensiveEntry>, a: Admitted, n: nat, cmds: seq<Command>, walk: Walk) {
    AllBeyond(todo, [], d => d in a.todo || d in a.inprogress || exists p :: DroppedAt(d, p, n, cmds, walk))
  }

  lemma {:induction false} AdmitDropsBlockedBy(todo: seq<ExpensiveEntry>, inprogress: seq<ExpensiveEntry>, n: nat, walk: Walk,
                                               a: Admitted, cmds: seq<Command>)
    requires a == AdmitBy(todo, inprogress, n, walk) && cmds == AdmitLogBy(todo, inprogress, n, walk)
    ensures DroppedBlocked(todo, a, n, cmds, walk)
    decreases |todo|
  {
    if |inprogress| < MaxInProgress && todo != [] {
      AdmitByStep(todo, inprogress, n, walk);
      AdmitLogStep(todo, inprogress, n, walk);
      var d := todo[0];
      var k := walk(d.waitUntilHealthy, n);
      var inprogress' := Pushed(inprogress, d, k == |d.waitUntilHealthy|);
      var cmds' := AdmitLogBy(todo[1..], inprogress', n + k + 1, walk);
      AdmitDropsBlockedBy(todo[1..], inprogress', n + k + 1, walk, a, cmds');
      AdmitShape'(todo[1..], inprogress', n + k + 1, walk);
      DropStep(todo, inprogress, n, walk, a, a, cmds');
    } else {
      AdmitByStop(todo, inprogress, n, walk);
    }
  }

  /** Blocked services stay accounted for when one more is popped, and its probes put in front. */
  lemma DropStep(todo: seq<ExpensiveEntry>, inprogress: seq<ExpensiveEntry>, n: nat, walk: Walk, rest: Admitted, a: Admitted, cmds: seq<Command>)
    requires todo != [] && a.todo == rest.todo && a.inprogress == rest.inprogress
    requires var d := todo[0];
      forall e :: e in Pushed(inprogress, d, walk(d.waitUntilHealthy, n) == |d.waitUntilHealthy|) ==> e in rest.inprogress
    requires var k := walk(todo[0].waitUntilHealthy, n); DroppedBlocked(todo[1..], rest, n + k + 1, cmds, walk)
    ensures DroppedBlocked(todo, a, n, AdmissionCommands(todo[0], walk(todo[0].waitUntilHealthy, n)) + cmds, walk)
  {
    var d := todo[0];
    var k := walk(d.waitUntilHealthy, n);
    var pre := AdmissionCommands(d, k);
    forall e | e in todo && e !in a.todo && e !in a.inprogress
      ensures exists p :: DroppedAt(e, p, n, pre + cmds, walk)
    {
      if e == d {
        assert k != |d.waitUntilHealthy|;
        HeadAt(d, n, walk, cmds);
        assert DroppedAt(e, n, n, pre + cmds, walk);
      } else {
        InTail(todo, e);
        var p :| DroppedAt(e, p, n + k + 1, cmds, walk);
        DroppedShift(e, p, n, pre, cmds, walk);
      }
    }
  }

  /**
   * `d` was popped at command p of an admission that began at command n and issued `cmds`:
   * its wait list probed healthy up to a dependency that probed unhealthy, and `cmds` holds,
   * from p - n on, exactly those probes.
   */
  ghost predicate BlockedAt(d: ExpensiveEntry, p: nat, n: nat, cmds: seq<Command>, answer: Oracle) {
    var k := FirstUnhealthy(d.waitUntilHealthy, p, answer);
    && n <= p && k < |d.waitUntilHealthy| && p - n + k < |cmds|
    && (forall i :: 0 <= i < k ==> ProbeHealthy(d.waitUntilHealthy[i], p + i, answer))
    && !ProbeHealthy(d.waitUntilHealthy[k], p + k, answer)
    && cmds[p - n .. p - n + k + 1] == ProbeCommandsOf(d.waitUntilHealthy[..k + 1])
  }

  /**
   * Each service that left todo without being admitted was popped at some command p of this
   * admission and blocked there by an unhealthy dependency.
   */
  lemma AdmitDropsBlocked(todo: seq<ExpensiveEntry>, inprogress: seq<ExpensiveEntry>, n: nat, answer: Oracle)
    ensures var a := Admit(todo, inprogress, n, answer);
      forall d :: d in todo && d !in a.todo && d !in a.inprogress ==> exists p :: BlockedAt(d, p, n, a.cmds, answer)
  {
    var a := Admit(todo, inprogress, n, answer);
    AdmitDropsBlockedBy(todo, inprogress, n, Walker(answer), AdmitBy(todo, inprogress, n, Walker(answer)), a.cmds);
    forall d | d in todo && d !in a.todo && d !in a.inprogress
      ensures exists p :: BlockedAt(d, p, n, a.cmds, answer)
    {
      var p :| DroppedAt(d, p, n, a.cmds, Walker(answer));
      DroppedMeans(d, p, n, a.cmds, answer);
    }
  }

  /** A drop recorded at command p means the walk from p met an unhealthy dependency there. */
  lemma DroppedMeans(d: ExpensiveEntry, p: nat, n: nat, cmds: seq<Command>, answer: Oracle)
    requires DroppedAt(d, p, n, cmds, Walker(answer))
    ensures BlockedAt(d, p, n, cmds, answer)
  {
    var k := FirstUnhealthy(d.waitUntilHealthy, p, answer);
    assert Walker(answer)(d.waitUntilHealthy, p) == k;
    FirstUnhealthyMeans(d.waitUntilHealthy, p, answer);
  }

  /** An element of a list other than its head is in its tail. */
  lemma InTail(s: seq<ExpensiveEntry>, x: ExpensiveEntry)
    requires x in s && x != s[0]
    ensures x in s[1..]
  {
    var i :| 0 <= i < |s| && s[i] == x;
    assert s[1..][i - 1] == x;
  }

  /** Popping the head of distinct, disjoint queues, and maybe admitting it, keeps them distinct and disjoint. */
  lemma PopKeepsDistinct(todo: seq<ExpensiveEntry>, inprogress: seq<ExpensiveEntry>, ok: bool)
    requires todo != [] && Distinct(todo) && Distinct(inprogress) && Disjoint(todo, inprogress)
    ensures var inprogress' := Pushed(inprogress, todo[0], ok);
      Distinct(todo[1..]) && Distinct(inprogress') && Disjoint(todo[1..], inprogress')
  {
    DistinctTail(todo);
    if ok { DistinctSnoc(inprogress, todo[0]); }
    forall x | x in todo[1..] ensures x !in Pushed(inprogress, todo[0], ok) {
      assert x in todo;
    }
  }

  /** Distinct, disjoint queues stay distinct and disjoint across admission. */
  lemma {:induction false} AdmitKeepsDistinct(todo: seq<ExpensiveEntry>, inprogress: seq<ExpensiveEntry>, n: nat, walk: Walk)
    requires Distinct(todo) && Distinct(inprogress) && Disjoint(todo, inprogress)
    ensures var a := AdmitBy(todo, inprogress, n, walk);
      Distinct(a.todo) && Distinct(a.inprogress) && Disjoint(a.todo, a.inprogress)
    decreases |todo|
  {
    if |inprogress| < MaxInProgress && todo != [] {
      AdmitByStep(todo, inprogress, n, walk);
      var d := todo[0];
      var k := walk(d.waitUntilHealthy, n);
      var ok := k == |d.waitUntilHealthy|;
      PopKeepsDistinct(todo, inprogress, ok);
      AdmitKeepsDistinct(todo[1..], Pushed(inprogress, d, ok), n + k + 1, walk);
    } else {
      AdmitByStop(todo, inprogress, n, walk);
    }
  }

}

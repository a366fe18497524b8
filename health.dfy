/**
 * The health prober used by the staged startup (logic.py) and the Postgres readiness poll:
 * logic.py's own check_healthy_output, which shadows the one imported from utilities.py, and
 * the probe of one service (docker health status, or a command run inside the container).
 */
module Health {
  import opened Seqs
  import opened Shell
  import opened Env
  import Utilities

  const HealthyWord: string := "healthy"

  /** logic.check_healthy_output (and provision_postgres's copy): some line contains "healthy". */
  function CheckHealthyOutput(lines: seq<string>): (r: bool)
    ensures r <==> exists i :: 0 <= i < |lines| && Contains(lines[i], HealthyWord)
    decreases |lines|
  {
    if lines == [] then false
    else Contains(lines[0], HealthyWord) || CheckHealthyOutput(lines[1..])
  }

  /** A docker status of "unhealthy" passes logic.py's test but not utilities.py's; no output passes neither. */
  lemma UnhealthyStatusPasses()
    ensures CheckHealthyOutput(["\"unhealthy\""])
    ensures !Utilities.CheckHealthyOutput(["\"unhealthy\""])
    ensures !CheckHealthyOutput([])
  {
    assert OccursAt("\"unhealthy\"", HealthyWord, 3);
    Utilities.QuotedCheckRejects();
  }

  /** Whatever utilities.py's quoted test accepts, logic.py's substring test accepts too. */
  lemma {:induction false} QuotedImpliesSubstring(lines: seq<string>)
    ensures Utilities.CheckHealthyOutput(lines) ==> CheckHealthyOutput(lines)
  {
    if Utilities.CheckHealthyOutput(lines) {
      var i :| 0 <= i < |lines| && IsPrefix(Utilities.QuotedHealthy, lines[i]);
      assert lines[i][1..8] == Utilities.QuotedHealthy[1..8];
      assert OccursAt(lines[i], HealthyWord, 1);
    }
  }

  /** The command that probes `c`: docker's health status, or `docker exec` of its healthcheck_cmd. */
  function ProbeCommand(c: HealthCheck): Command {
    if c.healthcheckCmd == "docker" then InspectHealth(c.composeService)
    else ExecHealthCheck(c.composeService, c.healthcheckCmd)
  }

  /** How a probe's result is read: exit 0 and a healthy status line, or just exit 0. */
  predicate ProbeVerdict(c: HealthCheck, r: CommandResult) {
    if c.healthcheckCmd == "docker" then r.exitCode == 0 && CheckHealthyOutput(r.output)
    else r.exitCode == 0
  }

  /** The verdict of probing `c` as the k-th command of the run. */
  predicate ProbeHealthy(c: HealthCheck, k: nat, answer: Oracle) {
    ProbeVerdict(c, Answer(answer, k, ProbeCommand(c)))
  }
}

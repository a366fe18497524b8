/**
 * The external commands the core issues (compose tool, container runtime, shell scripts)
 * and a runtime that answers them. The answer to a command is an oracle: a function of the
 * command and of how many commands were issued before it in the whole run, so any sequence
 * of exit codes and output lines the real tools could produce is representable. Every
 * command is recorded, in order, in `issued`.
 */
module Shell {

  /** Exit code and output lines (stdout and stderr merged, one entry per line). */
  datatype CommandResult = CommandResult(exitCode: int, output: seq<string>)

  datatype Command =
    | ComposeConfigServices                          // $DC_CMD config --services
    | ComposeUp(services: seq<string>)               // $DC_CMD up --no-deps --remove-orphans -d <services>
    | ComposeStop(service: string)                   // $DC_CMD stop <service>
    | ComposeUpContainer(container: string)          // $DC_CMD up -d <container>
    | InspectHealth(container: string)               // docker inspect --format="{{json .State.Health.Status}}"
    | InspectRestartCount(container: string)         // docker inspect --format="{{json .RestartCount}}"
    | ExecHealthCheck(container: string, cmd: string) // docker exec <container> <cmd>
    | TailLog(container: string)                     // docker logs --tail 1 <container>
    | CopyInitFragment(app: string, container: string) // tar the app's postgres-init-fragment.sql | docker cp
    | RunInitFragment(container: string)             // docker exec <container> psql -q -f postgres-init-fragment.sql
    | RunCustomScript(app: string, script: string)   // sh apps/<app>/fragments/<script>

  /** What the tools answer to a command issued when `k` commands were issued before it. */
  type Oracle = (nat, Command) -> CommandResult

  function Answer(oracle: Oracle, k: nat, c: Command): CommandResult {
    oracle(k, c)
  }

  class Runtime {
    const answer: Oracle
    var issued: seq<Command>

    constructor (answer: Oracle)
      ensures this.answer == answer && issued == []
    {
      this.answer := answer;
      issued := [];
    }

    /** Runs one command (run_command / run_command_noshell). */
    method Run(c: Command) returns (r: CommandResult)
      modifies this
      ensures issued == old(issued) + [c]
      ensures r == Answer(answer, |old(issued)|, c)
    {
      r := Answer(answer, |issued|, c);
      issued := issued + [c];
    }
  }
}

/**
 * The `--start-apps` block of logic.py: partition the services the compose file defines,
 * bring up container logging, start the inexpensive batch in one command, run the staged
 * start of the expensive services, run the custom provisioning scripts, and report.
 */
module Start {
  import opened Wrappers
  import opened Seqs
  import opened Shell
  import opened Env
  import opened ServicePartition
  import opened StagedStart
  import opened Orchestration
  import opened Custom

  /** How the block ends. Every outcome but Finished exits with status 1. */
  datatype Outcome =
    | Fatal                     // the compose file list or the configuration file is missing
    | NothingToStart            // the compose file list is empty
    | LoggingFailed             // `up ... logstash` failed
    | BatchFailed               // `up ...` of the inexpensive batch failed
    | StillStarting             // the staged start did not finish within the pass budget
    | Finished(failed: seq<string>, message: Option<string>)  // exit 0, even with failed services

  function ExitCode(o: Outcome): (r: int)
    requires !o.StillStarting?
    ensures r == 0 <==> o.Finished?
  {
    if o.Finished? then 0 else 1
  }

  /** The compose tool lists each service at most once in `config --services`. */
  ghost predicate ListsOnce(answer: Oracle) {
    forall k: nat :: Distinct(Answer(answer, k, ComposeConfigServices).output)
  }

  /** The block proceeds past its two file checks: the file list is non-empty and the configuration exists. */
  predicate Launches(fileList: Option<string>, tree: Tree) {
    fileList.Some? && fileList.value != "" && tree.config.Some?
  }

  /** The split of the services that `config --services` answered as command `n`. */
  function Plan(tree: Tree, answer: Oracle, n: nat): Split {
    Partitioned(Applications(tree), tree.appConfigs, Answer(answer, n, ComposeConfigServices).output)
  }

  const Logging: seq<string> := ["logstash"]

  /** The commands issued before the staged start, given the batch to start. */
  function StartCommands(toStart: seq<string>): seq<Command> {
    [ComposeConfigServices, ComposeUp(Logging)] + (if toStart == [] then [] else [ComposeUp(toStart)])
  }

  /** The post-up message is shown only when it is a non-empty string. */
  function Message(config: EnvConfig): (r: Option<string>)
    ensures r.Some? <==> config.postUpMessage.Some? && config.postUpMessage.value != ""
    ensures r.Some? ==> r == config.postUpMessage
  {
    if config.postUpMessage == Some("") then None else config.postUpMessage
  }

  /** Queue entries with distinct service names are distinct entries. */
  lemma DistinctByName(todo: seq<ExpensiveEntry>)
    requires Distinct(Services(todo))
    ensures Distinct(todo)
  {
    forall i, j | 0 <= i < j < |todo|
      ensures todo[i] != todo[j]
    {
      assert Services(todo)[i] != Services(todo)[j];
    }
  }

  /**
   * The inexpensive batch holds no disabled service and no service queued for the staged
   * start, and every service it holds was listed by the compose tool.
   */
  lemma BatchSound(tree: Tree, answer: Oracle, n: nat)
    requires ListsOnce(answer)
    ensures var p := Plan(tree, answer, n);
      var services := Answer(answer, n, ComposeConfigServices).output;
      && Distinct(p.toStart) && Distinct(p.todo)
      && (forall x :: x in p.toStart ==> x in services && x !in Services(p.todo) && !Disabled(Applications(tree), x))
  {
    var services := Answer(answer, n, ComposeConfigServices).output;
    var apps := Applications(tree);
    var p := Plan(tree, answer, n);
    PartitionSound(apps, tree.appConfigs, services);
    DistinctByName(p.todo);
  }

  /** Reads `config --services`, partitions, and brings up logging and the batch. */
  method LaunchServices(rt: Runtime, tree: Tree) returns (logging: bool, ok: bool, todo: seq<ExpensiveEntry>)
    requires ListsOnce(rt.answer)
    modifies rt
    ensures var n := |old(rt.issued)|; var p := Plan(tree, rt.answer, n);
      && IsPrefix(old(rt.issued) + [ComposeConfigServices, ComposeUp(Logging)], rt.issued)
      && (logging <==> Answer(rt.answer, n + 1, ComposeUp(Logging)).exitCode == 0)
      && (!logging ==> !ok && rt.issued == old(rt.issued) + [ComposeConfigServices, ComposeUp(Logging)])
      && (logging ==>
            rt.issued == old(rt.issued) + StartCommands(p.toStart) &&
            (ok <==> p.toStart == [] || Answer(rt.answer, n + 2, ComposeUp(p.toStart)).exitCode == 0))
      && todo == p.todo && Distinct(todo)
  {
    ghost var n := |rt.issued|;
    var listed := rt.Run(ComposeConfigServices);
    var toStart;
    toStart, todo := PartitionServices(Applications(tree), tree.appConfigs, listed.output);
    BatchSound(tree, rt.answer, n);
    var up := rt.Run(ComposeUp(Logging));
    PrefixOfAppend(old(rt.issued) + [ComposeConfigServices, ComposeUp(Logging)], []);
    logging := up.exitCode == 0;
    if !logging {
      return logging, false, todo;
    }
    ok := true;
    if toStart != [] {
      var batch := rt.Run(ComposeUp(toStart));
      ok := batch.exitCode == 0;
      PrefixOfAppend(old(rt.issued) + [ComposeConfigServices, ComposeUp(Logging)], [ComposeUp(toStart)]);
    }
  }

  /** The staged start's queues, begun on the split's todo queue after the start commands. */
  function Staged(tree: Tree, answer: Oracle, n: nat, budget: nat): Queues {
    var p := Plan(tree, answer, n);
    Run(Queues(p.todo, [], []), n + |StartCommands(p.toStart)|, answer, budget)
  }

  /** The commands of that staged start. */
  function StagedCommands(tree: Tree, answer: Oracle, n: nat, budget: nat): seq<Command> {
    var p := Plan(tree, answer, n);
    RunCommands(Queues(p.todo, [], []), n + |StartCommands(p.toStart)|, answer, budget)
  }

  /**
   * The staged start of the queued expensive services, for at most `budget` passes: whether
   * both queues drained, and the names of the services given up on.
   */
  method StageExpensive(rt: Runtime, todo: seq<ExpensiveEntry>, budget: nat) returns (done: bool, failed: seq<string>)
    requires Distinct(todo)
    modifies rt
    ensures var q, n := Queues(todo, [], []), |old(rt.issued)|; var r := Run(q, n, rt.answer, budget);
      && done == Done(r) && failed == Services(r.failed)
      && rt.issued == old(rt.issued) + RunCommands(q, n, rt.answer, budget)
  {
    var orch := new Orchestrator(rt, todo);
    var _ := orch.RunSweeps(budget);
    done := orch.todo == [] && orch.inprogress == [];
    failed := Services(orch.failed);
  }

  /**
   * Lists the services, brings up logging and the inexpensive batch, then runs the staged
   * start for at most `budget` passes. A finished staged start is reported as
   * `Finished(failed, None)`; the message is the caller's.
   */
  method StartServices(rt: Runtime, tree: Tree, budget: nat) returns (o: Outcome)
    requires ListsOnce(rt.answer)
    modifies rt
    ensures var n := |old(rt.issued)|; var p := Plan(tree, rt.answer, n);
      && IsPrefix(old(rt.issued) + [ComposeConfigServices, ComposeUp(Logging)], rt.issued)
      && (o.LoggingFailed? || o.BatchFailed? || o.StillStarting? || o.Finished?)
      && (o == LoggingFailed <==> Answer(rt.answer, n + 1, ComposeUp(Logging)).exitCode != 0)
      && (o == LoggingFailed ==> rt.issued == old(rt.issued) + [ComposeConfigServices, ComposeUp(Logging)])
      && (!o.LoggingFailed? ==> IsPrefix(old(rt.issued) + StartCommands(p.toStart), rt.issued))
      && (o == BatchFailed <==> !o.LoggingFailed? && p.toStart != [] &&
                                Answer(rt.answer, n + 2, ComposeUp(p.toStart)).exitCode != 0)
      && (o == BatchFailed ==> rt.issued == old(rt.issued) + StartCommands(p.toStart))
      && (o.StillStarting? || o.Finished? ==>
            && rt.issued == old(rt.issued) + StartCommands(p.toStart) + StagedCommands(tree, rt.answer, n, budget)
            && (o.Finished? <==> Done(Staged(tree, rt.answer, n, budget)))
            && (o.Finished? ==> o == Finished(Services(Staged(tree, rt.answer, n, budget).failed), None)))
  {
    var logging, ok, todo := LaunchServices(rt, tree);
    if !logging {
      return LoggingFailed;
    }
    if !ok {
      return BatchFailed;
    }
    ghost var launched := rt.issued;
    ghost var n := |old(rt.issued)|;
    ghost var p := Plan(tree, rt.answer, n);
    assert todo == p.todo && |launched| == n + |StartCommands(p.toStart)|;
    var done, failed := StageExpensive(rt, todo, budget);
    ghost var r := Staged(tree, rt.answer, n, budget);
    assert r == Run(Queues(todo, [], []), |launched|, rt.answer, budget);
    assert rt.issued == launched + StagedCommands(tree, rt.answer, n, budget);
    PrefixOfAppend(launched, StagedCommands(tree, rt.answer, n, budget));
    PrefixChain(old(rt.issued) + StartCommands(p.toStart), launched, rt.issued);
    PrefixChain(old(rt.issued) + [ComposeConfigServices, ComposeUp(Logging)], launched, rt.issued);
    if !done {
      return StillStarting;
    }
    o := Finished(failed, None);
  }

  /** The whole `--start-apps` block; the staged start runs for at most `budget` passes. */
  method StartApps(rt: Runtime, ws: Workspace, tree: Tree, budget: nat) returns (o: Outcome)
    requires ListsOnce(rt.answer)
    modifies rt, ws
    ensures old(ws.composeFileList).None? ==> o == Fatal
    ensures old(ws.composeFileList) == Some("") ==> o == NothingToStart
    ensures old(ws.composeFileList).Some? && old(ws.composeFileList) != Some("") && tree.config.None? ==> o == Fatal
    ensures !Launches(old(ws.composeFileList), tree) ==> rt.issued == old(rt.issued)
    ensures Launches(old(ws.composeFileList), tree) ==>
      var n := |old(rt.issued)|; var p := Plan(tree, rt.answer, n);
      && IsPrefix(old(rt.issued) + [ComposeConfigServices, ComposeUp(Logging)], rt.issued)
      && (o == LoggingFailed <==> Answer(rt.answer, n + 1, ComposeUp(Logging)).exitCode != 0)
      && (o == LoggingFailed ==> rt.issued == old(rt.issued) + [ComposeConfigServices, ComposeUp(Logging)])
      && (!o.LoggingFailed? ==> IsPrefix(old(rt.issued) + StartCommands(p.toStart), rt.issued))
      && (o == BatchFailed <==> !o.LoggingFailed? && p.toStart != [] &&
                                Answer(rt.answer, n + 2, ComposeUp(p.toStart)).exitCode != 0)
      && (o == BatchFailed ==> rt.issued == old(rt.issued) + StartCommands(p.toStart))
      && (o == StillStarting ==>
            rt.issued == old(rt.issued) + StartCommands(p.toStart) + StagedCommands(tree, rt.answer, n, budget))
      && (o.Finished? ==>
            rt.issued == old(rt.issued) + StartCommands(p.toStart) + StagedCommands(tree, rt.answer, n, budget) +
                         CustomCommands(Marked(old(ws.customProvisionYml)), Applications(tree), tree))
      && (o.StillStarting? || o.Finished? ==>
            && IsPrefix(old(rt.issued) + StartCommands(p.toStart) + StagedCommands(tree, rt.answer, n, budget), rt.issued)
            && (o.Finished? <==> Done(Staged(tree, rt.answer, n, budget)))
            && (o.Finished? ==> o.failed == Services(Staged(tree, rt.answer, n, budget).failed)))
    ensures o.Finished? ==>
      && Launches(old(ws.composeFileList), tree)
      && IsSuffix(CustomCommands(Marked(old(ws.customProvisionYml)), Applications(tree), tree), rt.issued)
      && ws.customProvisionYml ==
         Recorded(old(ws.customProvisionYml), Marks(Marked(old(ws.customProvisionYml)), Applications(tree), tree))
      && o.message == Message(tree.config.value)
    ensures !o.Finished? ==> ws.customProvisionYml == old(ws.customProvisionYml)
    ensures ws.commoditiesYml == old(ws.commoditiesYml) && ws.composeFileList == old(ws.composeFileList)
  {
    if ws.composeFileList.None? {
      return Fatal;
    }
    if ws.composeFileList.value == "" {
      return NothingToStart;
    }
    if tree.config.None? {
      return Fatal;
    }
    o := StartServices(rt, tree, budget);
    ghost var staged := rt.issued;
    PrefixOfAppend(staged, []);
    if !o.Finished? {
      return;
    }
    ghost var n := |old(rt.issued)|;
    ghost var p := Plan(tree, rt.answer, n);
    ProvisionCustom(rt, ws, tree);
    ghost var custom := CustomCommands(Marked(old(ws.customProvisionYml)), Applications(tree), tree);
    PrefixOfAppend(staged, custom);
    PrefixChain(old(rt.issued) + StartCommands(p.toStart) + StagedCommands(tree, rt.answer, n, budget), staged, rt.issued);
    PrefixChain(old(rt.issued) + StartCommands(p.toStart), staged, rt.issued);
    PrefixChain(old(rt.issued) + [ComposeConfigServices, ComposeUp(Logging)], staged, rt.issued);
    o := Finished(o.failed, Message(tree.config.value));
  }
}

/**
 * scripts/provision_scripts/provision_postgres.py and provision_commodities: bringing up a
 * Postgres container at most once, waiting until docker reports it healthy, and running each
 * requiring application's init fragment, recorded in the .commodities.yml status table.
 */
module Postgres {
  import opened Wrappers
  import opened Seqs
  import opened Shell
  import opened Env
  import opened Health
  import opened Commodities

  /** postgres_container: the container of a supported version, "" for any other version. */
  function PostgresContainer(version: string): (r: string)
    ensures r != "" <==> version == "13" || version == "17"
    ensures r != "" ==> r == "postgres-" + version
  {
    if version == "13" then "postgres-13"
    else if version == "17" then "postgres-17"
    else ""
  }

  /** postgres_required: the application's configuration exists and requires the container's commodity. */
  function PostgresRequired(tree: Tree, app: string, container: string): (r: bool)
    ensures r <==> Declares(tree, app, ContainerToCommodity(container))
  {
    app in tree.appConfigs && CommodityRequired(tree, app, ContainerToCommodity(container))
  }

  const InitFragment := "postgres-init-fragment.sql"

  /** An application provision_postgres hands to start_postgres_maybe. */
  predicate Qualifies(tree: Tree, app: string, container: string) {
    PostgresRequired(tree, app, container) && FragmentExists(tree, app, InitFragment)
  }

  // ---------------------------------------------------------------- readiness poll

  /** The readiness test of the poll: the status inspect exits 0 and a line contains "healthy". */
  predicate Ready(answer: Oracle, k: nat, container: string) {
    ProbeHealthy(HealthCheck(container, "docker"), k, answer)
  }

  /** The poll's test is provision_postgres's own check_healthy_output, a substring test. */
  lemma ReadyMeansHealthyLine(answer: Oracle, k: nat, container: string)
    ensures var res := Answer(answer, k, InspectHealth(container));
      Ready(answer, k, container) <==>
        res.exitCode == 0 && exists i :: 0 <= i < |res.output| && Contains(res.output[i], "healthy")
  {
  }

  ghost predicate EventuallyReady(answer: Oracle, container: string, k: nat) {
    exists j: nat :: k <= j && Ready(answer, j, container)
  }

  /**
   * Fairness of the container: whenever polling starts, some later inspect reports it
   * healthy. The poll has no retry bound, so it terminates only under this assumption.
   */
  ghost predicate AlwaysEventuallyReady(answer: Oracle, container: string) {
    forall k: nat :: EventuallyReady(answer, container, k)
  }

  function Polls(container: string, m: nat): (r: seq<Command>)
    ensures |r| == m && forall k :: 0 <= k < m ==> r[k] == InspectHealth(container)
  {
    seq(m, _ => InspectHealth(container))
  }

  /**
   * The readiness loop of start_postgres: inspect the status until it exits 0 with a healthy
   * line. It issues at least one inspect, stops at the first ready answer, and every earlier
   * answer was not ready.
   */
  method AwaitReady(rt: Runtime, container: string)
    requires EventuallyReady(rt.answer, container, |rt.issued|)
    modifies rt
    ensures |rt.issued| > |old(rt.issued)|
    ensures rt.issued == old(rt.issued) + Polls(container, |rt.issued| - |old(rt.issued)|)
    ensures Ready(rt.answer, |rt.issued| - 1, container)
    ensures forall p :: |old(rt.issued)| <= p < |rt.issued| - 1 ==> !Ready(rt.answer, p, container)
  {
    ghost var n0 := |rt.issued|;
    ghost var j: nat :| n0 <= j && Ready(rt.answer, j, container);
    var outcode := 1;
    var output: seq<string> := [];
    while outcode != 0 || !CheckHealthyOutput(output)
      invariant n0 <= |rt.issued|
      invariant rt.issued == old(rt.issued) + Polls(container, |rt.issued| - n0)
      invariant |rt.issued| == n0 ==> outcode == 1
      invariant |rt.issued| > n0 ==>
        CommandResult(outcode, output) == Answer(rt.answer, |rt.issued| - 1, InspectHealth(container))
      invariant forall p :: n0 <= p < |rt.issued| - 1 ==> !Ready(rt.answer, p, container)
      invariant outcode != 0 || !CheckHealthyOutput(output) ==> |rt.issued| <= j
      decreases j + 1 - |rt.issued|
    {
      var res := rt.Run(InspectHealth(container));
      outcode := res.exitCode;
      output := res.output;
      assert rt.issued == old(rt.issued) + Polls(container, |rt.issued| - n0);
    }
  }

  // ---------------------------------------------------------------- the status table

  /** The commodity a container provides, as recorded in the table. */
  function PgCommodity(version: string): string {
    ContainerToCommodity(PostgresContainer(version))
  }

  /**
   * Every pair of `doc0` is still there, no pair of another commodity was added, and only
   * entries of `commodity` may have changed.
   */
  ghost predicate Extends(doc0: CommodityDoc, doc: CommodityDoc, commodity: string) {
    doc.version == doc0.version && doc.commodities == doc0.commodities &&
    (forall a, c :: HasPair(doc0, a, c) ==>
      HasPair(doc, a, c) && (c != commodity ==> doc.applications[a][c] == doc0.applications[a][c])) &&
    forall a, c :: c != commodity && HasPair(doc, a, c) ==> HasPair(doc0, a, c)
  }

  /**
   * Every configured application that qualifies for the container (it requires the
   * commodity and has an init fragment) has its entry in the table.
   */
  ghost predicate Tabled(doc: CommodityDoc, tree: Tree, container: string) {
    forall i :: 0 <= i < |Applications(tree)| && Qualifies(tree, Applications(tree)[i].name, container) ==>
      HasPair(doc, Applications(tree)[i].name, ContainerToCommodity(container))
  }

  /**
   * Setting (app, commodity) to True keeps the table's pairs, changes no other entry, and
   * keeps every application's entry present.
   */
  lemma SetExtends(doc: CommodityDoc, app: string, commodity: string)
    requires app in doc.applications
    ensures var r := WithStatus(doc, app, commodity, true);
      Extends(doc, r, commodity) &&
      HasPair(r, app, commodity) && r.applications[app][commodity] &&
      forall a :: a != app && HasPair(doc, a, commodity) ==>
        HasPair(r, a, commodity) && r.applications[a][commodity] == doc.applications[a][commodity]
  {
    StatusGetAfterSet(doc, app, commodity, true);
  }

  lemma ExtendsTrans(d0: CommodityDoc, d1: CommodityDoc, d2: CommodityDoc, commodity: string)
    requires Extends(d0, d1, commodity) && Extends(d1, d2, commodity)
    ensures Extends(d0, d2, commodity)
  {
  }

  lemma ExtendsTabled(d0: CommodityDoc, d1: CommodityDoc, tree: Tree, commodity: string, other: string)
    requires Extends(d0, d1, commodity) && Tabled(d0, tree, other)
    ensures Tabled(d1, tree, other)
  {
  }

  // ---------------------------------------------------------------- start_postgres and friends

  function InitCommands(app: string, container: string): seq<Command> {
    [CopyInitFragment(app, container), RunInitFragment(container)]
  }

  /** How often the container was brought up in a command log. */
  function Ups(log: seq<Command>, container: string): nat {
    multiset(log)[ComposeUpContainer(container)]
  }

  /** Whether a command is addressed to the container: its `up`, a health inspect, or an init fragment. */
  predicate Concerns(cmd: Command, container: string) {
    match cmd
    case ComposeUpContainer(c) => c == container
    case InspectHealth(c) => c == container
    case CopyInitFragment(_, c) => c == container
    case RunInitFragment(c) => c == container
    case _ => false
  }

  /** Every command issued after `log0` is addressed to the container. */
  ghost predicate OnlyConcerns(log0: seq<Command>, log: seq<Command>, container: string) {
    |log0| <= |log| && forall j :: |log0| <= j < |log| ==> Concerns(log[j], container)
  }

  lemma ConcernsChain(log0: seq<Command>, log1: seq<Command>, log2: seq<Command>, container: string)
    requires OnlyConcerns(log0, log1, container) && OnlyConcerns(log1, log2, container) && IsPrefix(log1, log2)
    ensures OnlyConcerns(log0, log2, container)
  {
    forall j | |log0| <= j < |log2| ensures Concerns(log2[j], container) {
      if j < |log1| {
        assert log2[j] == log2[..|log1|][j];
      }
    }
  }

  /**
   * Commands addressed to one container bring no other container up and copy no init
   * fragment into it.
   */
  lemma OtherContainerKept(log0: seq<Command>, log: seq<Command>, container: string, other: string)
    requires IsPrefix(log0, log) && OnlyConcerns(log0, log, container) && other != container
    ensures Ups(log, other) == Ups(log0, other)
    ensures forall a :: CopyInitFragment(a, other) !in log[|log0|..]
  {
    var tail := log[|log0|..];
    assert log == log0 + tail;
    assert forall k :: 0 <= k < |tail| ==> tail[k] == log[|log0| + k];
    assert ComposeUpContainer(other) !in tail;
    assert multiset(log) == multiset(log0) + multiset(tail);
  }

  /**
   * The log of a first start: `up`, then `m` inspects of which only the last reports the
   * container ready, then the app's init fragment is copied and run.
   */
  ghost predicate FirstStartLog(log0: seq<Command>, log: seq<Command>, answer: Oracle, app: string, container: string) {
    |log| >= |log0| + 4 &&
    var m := |log| - |log0| - 3;
    log == log0 + [ComposeUpContainer(container)] + Polls(container, m) + InitCommands(app, container) &&
    Ready(answer, |log0| + m, container) &&
    forall p :: |log0| + 1 <= p < |log0| + m ==> !Ready(answer, p, container)
  }

  /** The only init fragment a start copies is the started app's own. */
  ghost predicate CopiesOnly(log0: seq<Command>, log: seq<Command>, app: string, container: string) {
    forall j :: |log0| <= j < |log| && log[j].CopyInitFragment? ==> log[j] == CopyInitFragment(app, container)
  }

  lemma FirstStartCopies(log0: seq<Command>, log: seq<Command>, answer: Oracle, app: string, container: string)
    requires FirstStartLog(log0, log, answer, app, container)
    ensures CopiesOnly(log0, log, app, container)
  {
    var m := |log| - |log0| - 3;
    forall j | |log0| <= j < |log|
      ensures log[j].CopyInitFragment? ==> log[j] == CopyInitFragment(app, container)
    {
      if |log0| < j < |log0| + 1 + m {
        assert log[j] == Polls(container, m)[j - |log0| - 1];
      }
    }
  }

  /**
   * The log start_postgres leaves behind `log0`: unless `started`, the `up` and the readiness
   * poll; then the app's init fragment is copied and run, and no other app's is copied.
   */
  ghost predicate StartLog(log0: seq<Command>, log: seq<Command>, answer: Oracle, app: string, container: string, started: bool) {
    IsPrefix(log0, log) && |log| >= |log0| + 2 && IsSuffix(InitCommands(app, container), log) &&
    Ups(log, container) == Ups(log0, container) + (if started then 0 else 1) &&
    (started ==> log == log0 + InitCommands(app, container)) &&
    (!started ==> FirstStartLog(log0, log, answer, app, container)) &&
    CopiesOnly(log0, log, app, container) && OnlyConcerns(log0, log, container)
  }

  /** What appending the init commands to a log that extends `log0` keeps and adds. */
  lemma AppendInit(log0: seq<Command>, mid: seq<Command>, app: string, container: string)
    requires IsPrefix(log0, mid)
    ensures var log := mid + InitCommands(app, container);
      IsPrefix(log0, log) && |log| == |mid| + 2 && IsSuffix(InitCommands(app, container), log) &&
      Ups(log, container) == Ups(mid, container)
  {
    var log := mid + InitCommands(app, container);
    PrefixOfAppend(mid, InitCommands(app, container));
    PrefixChain(log0, mid, log);
    assert multiset(log) == multiset(mid) + multiset(InitCommands(app, container));
  }

  /** A start on a running container only appends the init commands. */
  lemma ResumeLog(log0: seq<Command>, answer: Oracle, app: string, container: string)
    ensures StartLog(log0, log0 + InitCommands(app, container), answer, app, container, true)
  {
    var log := log0 + InitCommands(app, container);
    PrefixOfAppend(log0, InitCommands(app, container));
    assert multiset(log) == multiset(log0) + multiset(InitCommands(app, container));
    assert CopiesOnly(log0, log, app, container);
    assert OnlyConcerns(log0, log, container) by {
      forall j | |log0| <= j < |log| ensures Concerns(log[j], container) {
        assert log[j] == InitCommands(app, container)[j - |log0|];
      }
    }
  }

  /** A first start: the `up` and `m` inspects ending in a ready one, then the init commands. */
  lemma FirstLog(log0: seq<Command>, mid: seq<Command>, answer: Oracle, app: string, container: string)
    requires |mid| >= |log0| + 2
    requires mid == log0 + [ComposeUpContainer(container)] + Polls(container, |mid| - |log0| - 1)
    requires Ready(answer, |mid| - 1, container)
    requires forall p :: |log0| + 1 <= p < |mid| - 1 ==> !Ready(answer, p, container)
    requires Ups(mid, container) == Ups(log0, container) + 1
    ensures StartLog(log0, mid + InitCommands(app, container), answer, app, container, false)
  {
    var log := mid + InitCommands(app, container);
    assert FirstStartLog(log0, log, answer, app, container);
    PrefixOfAppend(log0, mid[|log0|..]);
    assert log0 + mid[|log0|..] == mid;
    AppendInit(log0, mid, app, container);
    FirstStartCopies(log0, log, answer, app, container);
    assert OnlyConcerns(log0, log, container) by {
      var m := |log| - |log0| - 3;
      forall j | |log0| <= j < |log| ensures Concerns(log[j], container) {
        if |log0| < j < |log0| + 1 + m {
          assert log[j] == Polls(container, m)[j - |log0| - 1];
        } else if j >= |log0| + 1 + m {
          assert log[j] == InitCommands(app, container)[j - |log0| - 1 - m];
        }
      }
    }
  }

  /** The first-start half of start_postgres: `up`, then the readiness poll. */
  method BringUp(rt: Runtime, container: string)
    requires AlwaysEventuallyReady(rt.answer, container)
    modifies rt
    ensures |rt.issued| >= |old(rt.issued)| + 2
    ensures rt.issued == old(rt.issued) + [ComposeUpContainer(container)] + Polls(container, |rt.issued| - |old(rt.issued)| - 1)
    ensures Ready(rt.answer, |rt.issued| - 1, container)
    ensures forall p :: |old(rt.issued)| + 1 <= p < |rt.issued| - 1 ==> !Ready(rt.answer, p, container)
    ensures Ups(rt.issued, container) == Ups(old(rt.issued), container) + 1
  {
    var _ := rt.Run(ComposeUpContainer(container));
    ghost var afterUp := rt.issued;
    assert EventuallyReady(rt.answer, container, |rt.issued|);
    AwaitReady(rt, container);
    assert ComposeUpContainer(container) !in Polls(container, |rt.issued| - |afterUp|);
  }

  /**
   * start_postgres: bring the container up and wait for it unless `started`, then run the
   * app's init fragment and set its status to True.
   */
  method StartPostgres(rt: Runtime, ws: Workspace, app: string, started: bool, version: string)
    returns (started': bool)
    requires ws.commoditiesYml.Some? && app in ws.commoditiesYml.value.applications
    requires !started && PostgresContainer(version) != "" ==> AlwaysEventuallyReady(rt.answer, PostgresContainer(version))
    modifies rt, ws
    ensures PostgresContainer(version) == "" ==>
      started' == started && rt.issued == old(rt.issued) && ws.commoditiesYml == old(ws.commoditiesYml)
    ensures PostgresContainer(version) != "" ==> started'
    ensures PostgresContainer(version) != "" ==>
      StartLog(old(rt.issued), rt.issued, rt.answer, app, PostgresContainer(version), started)
    ensures PostgresContainer(version) != "" ==>
      ws.commoditiesYml == Some(WithStatus(old(ws.commoditiesYml.value), app, PgCommodity(version), true))
    ensures ws.customProvisionYml == old(ws.customProvisionYml) && ws.composeFileList == old(ws.composeFileList)
  {
    var container := PostgresContainer(version);
    if container == "" {
      return started;
    }
    ghost var log0 := rt.issued;
    started' := started;
    if !started' {
      BringUp(rt, container);
      started' := true;
    }
    ghost var mid := rt.issued;
    RunInitialisation(rt, app, container);
    SetCommodityProvisionStatus(ws, app, ContainerToCommodity(container), true);
    if started {
      ResumeLog(log0, rt.answer, app, container);
    } else {
      FirstLog(log0, mid, rt.answer, app, container);
    }
  }

  /** run_initialisation: copy the app's init fragment into the container and run it with psql. */
  method RunInitialisation(rt: Runtime, app: string, container: string)
    modifies rt
    ensures rt.issued == old(rt.issued) + InitCommands(app, container)
  {
    var _ := rt.Run(CopyInitFragment(app, container));
    var _ := rt.Run(RunInitFragment(container));
  }

  /**
   * start_postgres_maybe: an application already provisioned is skipped unless the container
   * is new; otherwise start_postgres runs. The source raises KeyError for a pair not in the
   * table.
   */
  method StartPostgresMaybe(rt: Runtime, ws: Workspace, app: string, started: bool, isNew: bool, version: string)
    returns (started': bool)
    requires ws.commoditiesYml.Some? && HasPair(ws.commoditiesYml.value, app, PgCommodity(version))
    requires !started && PostgresContainer(version) != "" ==> AlwaysEventuallyReady(rt.answer, PostgresContainer(version))
    modifies rt, ws
    ensures var skip := PostgresContainer(version) == "" || (old(CommodityProvisioned(ws, app, PgCommodity(version))) && !isNew);
      (skip ==> started' == started && rt.issued == old(rt.issued) && ws.commoditiesYml == old(ws.commoditiesYml)) &&
      (!skip ==> (started' &&
        StartLog(old(rt.issued), rt.issued, rt.answer, app, PostgresContainer(version), started) &&
        ws.commoditiesYml == Some(WithStatus(old(ws.commoditiesYml.value), app, PgCommodity(version), true))))
    ensures ws.customProvisionYml == old(ws.customProvisionYml) && ws.composeFileList == old(ws.composeFileList)
  {
    var container := PostgresContainer(version);
    if container == "" {
      return started;
    }
    if CommodityProvisioned(ws, app, ContainerToCommodity(container)) && !isNew {
      started' := started;
    } else {
      started' := StartPostgres(rt, ws, app, started, version);
    }
  }

  /** Each of the first `i` applications that qualifies has status True in `doc`. */
  ghost predicate ProvisionedUpTo(doc: CommodityDoc, tree: Tree, apps: seq<App>, i: nat, container: string) {
    forall k :: 0 <= k < i && k < |apps| && Qualifies(tree, apps[k].name, container) ==>
      HasPair(doc, apps[k].name, ContainerToCommodity(container)) &&
      doc.applications[apps[k].name][ContainerToCommodity(container)]
  }

  lemma ProvisionedStep(doc1: CommodityDoc, doc2: CommodityDoc, tree: Tree, apps: seq<App>, i: nat, container: string)
    requires i < |apps| && ProvisionedUpTo(doc1, tree, apps, i, container)
    requires var name := apps[i].name; var commodity := ContainerToCommodity(container);
      (doc2 == doc1 && (Qualifies(tree, name, container) ==> HasPair(doc1, name, commodity) && doc1.applications[name][commodity])) ||
      (name in doc1.applications && doc2 == WithStatus(doc1, name, commodity, true))
    ensures ProvisionedUpTo(doc2, tree, apps, i + 1, container)
  {
    if doc2 != doc1 {
      StatusGetAfterSet(doc1, apps[i].name, ContainerToCommodity(container), true);
    }
  }

  /**
   * Whether provision_postgres passes an application over: it does not qualify, or its pair
   * already has status True and the container is not new.
   */
  predicate Skips(doc: CommodityDoc, tree: Tree, name: string, container: string, isNew: bool) {
    !Qualifies(tree, name, container) ||
    (HasPair(doc, name, ContainerToCommodity(container)) && doc.applications[name][ContainerToCommodity(container)] && !isNew)
  }

  /**
   * The applications provision_postgres starts the container for, judged against the table
   * `doc0` it began with: configured, qualifying, and the container is new or the pair was
   * not yet True.
   */
  ghost predicate Chosen(doc0: CommodityDoc, tree: Tree, apps: seq<App>, name: string, container: string, isNew: bool) {
    Configured(apps, name) && !Skips(doc0, tree, name, container, isNew)
  }

  /**
   * What one iteration does to the table (`d0` to `d1`) and the command log (`log0` to
   * `log1`): nothing when the application is skipped; otherwise its pair is set to True,
   * the init fragment was copied just before it was run, and no other app's was copied.
   */
  ghost predicate Visited(d0: CommodityDoc, d1: CommodityDoc, log0: seq<Command>, log1: seq<Command>,
                          tree: Tree, name: string, container: string, isNew: bool) {
    (Skips(d0, tree, name, container, isNew) ==> d1 == d0 && log1 == log0) &&
    (!Skips(d0, tree, name, container, isNew) ==>
      name in d0.applications && d1 == WithStatus(d0, name, ContainerToCommodity(container), true) &&
      IsPrefix(log0, log1) && |log1| >= |log0| + 2 && log1[|log1| - 2] == CopyInitFragment(name, container) &&
      CopiesOnly(log0, log1, name, container) && OnlyConcerns(log0, log1, container))
  }

  /**
   * One iteration of provision_postgres's loop: an application that qualifies goes to
   * start_postgres_maybe, any other is passed over.
   */
  method VisitApp(rt: Runtime, ws: Workspace, tree: Tree, name: string, started: bool, isNew: bool, version: string)
    returns (started': bool)
    requires PostgresContainer(version) != ""
    requires ws.commoditiesYml.Some?
    requires Qualifies(tree, name, PostgresContainer(version)) ==> HasPair(ws.commoditiesYml.value, name, PgCommodity(version))
    requires !started ==> AlwaysEventuallyReady(rt.answer, PostgresContainer(version))
    modifies rt, ws
    ensures ws.commoditiesYml.Some?
    ensures Visited(old(ws.commoditiesYml.value), ws.commoditiesYml.value, old(rt.issued), rt.issued,
                    tree, name, PostgresContainer(version), isNew)
    ensures started' == (started || !Skips(old(ws.commoditiesYml.value), tree, name, PostgresContainer(version), isNew))
    ensures !Skips(old(ws.commoditiesYml.value), tree, name, PostgresContainer(version), isNew) ==>
      StartLog(old(rt.issued), rt.issued, rt.answer, name, PostgresContainer(version), started)
    ensures ws.customProvisionYml == old(ws.customProvisionYml) && ws.composeFileList == old(ws.composeFileList)
  {
    started' := started;
    var container := PostgresContainer(version);
    if PostgresRequired(tree, name, container) && FragmentExists(tree, name, InitFragment) {
      ghost var log0 := rt.issued;
      started' := StartPostgresMaybe(rt, ws, name, started, isNew, version);
      if rt.issued != log0 {
        assert rt.issued[|rt.issued| - 2] == CopyInitFragment(name, container);
      }
    }
  }

  /** The loop step of provision_postgres, on values: its invariants hold for one more application. */
  lemma VisitStep(doc0: CommodityDoc, doc1: CommodityDoc, doc2: CommodityDoc,
                  log0: seq<Command>, log1: seq<Command>, log2: seq<Command>,
                  tree: Tree, apps: seq<App>, i: nat, container: string, isNew: bool)
    requires i < |apps|
    requires Extends(doc0, doc1, ContainerToCommodity(container)) && IsPrefix(log0, log1)
    requires ProvisionedUpTo(doc1, tree, apps, i, container)
    requires !isNew && ProvisionedUpTo(doc0, tree, apps, |apps|, container) ==> log1 == log0 && doc1 == doc0
    requires Qualifies(tree, apps[i].name, container) ==> HasPair(doc1, apps[i].name, ContainerToCommodity(container))
    requires Visited(doc1, doc2, log1, log2, tree, apps[i].name, container, isNew)
    ensures Extends(doc0, doc2, ContainerToCommodity(container)) && IsPrefix(log0, log2)
    ensures ProvisionedUpTo(doc2, tree, apps, i + 1, container)
    ensures !isNew && ProvisionedUpTo(doc0, tree, apps, |apps|, container) ==> log2 == log0 && doc2 == doc0
  {
    var name := apps[i].name;
    var commodity := ContainerToCommodity(container);
    if Skips(doc1, tree, name, container, isNew) {
      ProvisionedStep(doc1, doc2, tree, apps, i, container);
    } else {
      SetExtends(doc1, name, commodity);
      ExtendsTrans(doc0, doc1, doc2, commodity);
      PrefixChain(log0, log1, log2);
      ProvisionedStep(doc1, doc2, tree, apps, i, container);
    }
  }

  /**
   * After visiting apps[..i]: the init fragments copied since `from` are exactly those of
   * the applications chosen so far.
   */
  ghost predicate LogTracks(log: seq<Command>, from: nat, doc0: CommodityDoc, tree: Tree, apps: seq<App>, i: nat,
                            container: string, isNew: bool) {
    from <= |log| && i <= |apps| &&
    forall name :: CopyInitFragment(name, container) in log[from..] <==> Chosen(doc0, tree, apps[..i], name, container, isNew)
  }

  /**
   * After visiting apps[..i]: the commodity's column holds the pairs of `doc0`, each True
   * if it was True in `doc0` or its application was chosen so far.
   */
  ghost predicate DocTracks(doc: CommodityDoc, doc0: CommodityDoc, tree: Tree, apps: seq<App>, i: nat,
                            container: string, isNew: bool) {
    var c := ContainerToCommodity(container);
    i <= |apps| &&
    (forall a :: HasPair(doc, a, c) <==> HasPair(doc0, a, c)) &&
    forall a :: HasPair(doc0, a, c) ==>
      doc.applications[a][c] == (doc0.applications[a][c] || Chosen(doc0, tree, apps[..i], a, container, isNew))
  }

  lemma ConfiguredSnoc(apps: seq<App>, i: nat, x: string)
    requires i < |apps|
    ensures Configured(apps[..i + 1], x) <==> Configured(apps[..i], x) || x == apps[i].name
  {
    if Configured(apps[..i + 1], x) && x != apps[i].name {
      var k :| 0 <= k < i + 1 && apps[..i + 1][k].name == x;
      assert apps[..i][k].name == x;
    }
    if Configured(apps[..i], x) {
      var k :| 0 <= k < i && apps[..i][k].name == x;
      assert apps[..i + 1][k].name == x;
    }
    if x == apps[i].name {
      assert apps[..i + 1][i].name == x;
    }
  }

  /**
   * The visited application is started only if it is chosen; if it is passed over although
   * it qualifies against `doc0`, it was already chosen earlier.
   */
  lemma VisitAgrees(doc0: CommodityDoc, doc1: CommodityDoc, tree: Tree, apps: seq<App>, i: nat,
                    container: string, isNew: bool)
    requires i < |apps| && DocTracks(doc1, doc0, tree, apps, i, container, isNew)
    requires Qualifies(tree, apps[i].name, container) ==> HasPair(doc1, apps[i].name, ContainerToCommodity(container))
    ensures var name := apps[i].name;
      (!Skips(doc1, tree, name, container, isNew) ==> !Skips(doc0, tree, name, container, isNew)) &&
      (Skips(doc1, tree, name, container, isNew) && !Skips(doc0, tree, name, container, isNew) ==>
        Configured(apps[..i], name))
  {
  }

  lemma LogStep(doc0: CommodityDoc, doc1: CommodityDoc, doc2: CommodityDoc,
                log0: seq<Command>, log1: seq<Command>, log2: seq<Command>,
                tree: Tree, apps: seq<App>, i: nat, container: string, isNew: bool)
    requires i < |apps| && DocTracks(doc1, doc0, tree, apps, i, container, isNew)
    requires Qualifies(tree, apps[i].name, container) ==> HasPair(doc1, apps[i].name, ContainerToCommodity(container))
    requires LogTracks(log1, |log0|, doc0, tree, apps, i, container, isNew)
    requires Visited(doc1, doc2, log1, log2, tree, apps[i].name, container, isNew)
    ensures LogTracks(log2, |log0|, doc0, tree, apps, i + 1, container, isNew)
  {
    var name := apps[i].name;
    VisitAgrees(doc0, doc1, tree, apps, i, container, isNew);
    if !Skips(doc1, tree, name, container, isNew) {
      var from := |log0|;
      assert log2[from..] == log1[from..] + log2[|log1|..];
      assert log2[|log1|..][|log2| - 2 - |log1|] == CopyInitFragment(name, container);
      forall j | 0 <= j < |log2| - |log1|
        ensures log2[|log1|..][j].CopyInitFragment? ==> log2[|log1|..][j] == CopyInitFragment(name, container)
      {
        assert log2[|log1|..][j] == log2[|log1| + j];
      }
      forall x
        ensures CopyInitFragment(x, container) in log2[from..] <==> Chosen(doc0, tree, apps[..i + 1], x, container, isNew)
      {
        ConfiguredSnoc(apps, i, x);
      }
    } else {
      forall x
        ensures CopyInitFragment(x, container) in log2[|log0|..] <==> Chosen(doc0, tree, apps[..i + 1], x, container, isNew)
      {
        ConfiguredSnoc(apps, i, x);
      }
    }
  }

  lemma DocStep(doc0: CommodityDoc, doc1: CommodityDoc, doc2: CommodityDoc,
                log1: seq<Command>, log2: seq<Command>,
                tree: Tree, apps: seq<App>, i: nat, container: string, isNew: bool)
    requires i < |apps| && DocTracks(doc1, doc0, tree, apps, i, container, isNew)
    requires Qualifies(tree, apps[i].name, container) ==> HasPair(doc1, apps[i].name, ContainerToCommodity(container))
    requires Visited(doc1, doc2, log1, log2, tree, apps[i].name, container, isNew)
    ensures DocTracks(doc2, doc0, tree, apps, i + 1, container, isNew)
  {
    var name := apps[i].name;
    var c := ContainerToCommodity(container);
    VisitAgrees(doc0, doc1, tree, apps, i, container, isNew);
    if !Skips(doc1, tree, name, container, isNew) {
      StatusGetAfterSet(doc1, name, c, true);
    }
    forall a | HasPair(doc0, a, c)
      ensures doc2.applications[a][c] == (doc0.applications[a][c] || Chosen(doc0, tree, apps[..i + 1], a, container, isNew))
    {
      ConfiguredSnoc(apps, i, a);
    }
  }

  /** The invariant of provision_postgres's loop after visiting apps[..i], on values. */
  ghost predicate Progress(doc0: CommodityDoc, doc: CommodityDoc, log0: seq<Command>, log: seq<Command>,
                           tree: Tree, apps: seq<App>, i: nat, container: string, isNew: bool) {
    Extends(doc0, doc, ContainerToCommodity(container)) && IsPrefix(log0, log) &&
    ProvisionedUpTo(doc, tree, apps, i, container) &&
    LogTracks(log, |log0|, doc0, tree, apps, i, container, isNew) &&
    DocTracks(doc, doc0, tree, apps, i, container, isNew) && OnlyConcerns(log0, log, container) &&
    (!isNew && ProvisionedUpTo(doc0, tree, apps, |apps|, container) ==> log == log0 && doc == doc0)
  }

  lemma ProgressStep(doc0: CommodityDoc, doc1: CommodityDoc, doc2: CommodityDoc,
                     log0: seq<Command>, log1: seq<Command>, log2: seq<Command>,
                     tree: Tree, apps: seq<App>, i: nat, container: string, isNew: bool)
    requires i < |apps| && Progress(doc0, doc1, log0, log1, tree, apps, i, container, isNew)
    requires Qualifies(tree, apps[i].name, container) ==> HasPair(doc1, apps[i].name, ContainerToCommodity(container))
    requires Visited(doc1, doc2, log1, log2, tree, apps[i].name, container, isNew)
    ensures Progress(doc0, doc2, log0, log2, tree, apps, i + 1, container, isNew)
  {
    VisitStep(doc0, doc1, doc2, log0, log1, log2, tree, apps, i, container, isNew);
    LogStep(doc0, doc1, doc2, log0, log1, log2, tree, apps, i, container, isNew);
    DocStep(doc0, doc1, doc2, log1, log2, tree, apps, i, container, isNew);
    if !Skips(doc1, tree, apps[i].name, container, isNew) {
      ConcernsChain(log0, log1, log2, container);
    }
  }

  /** When every application is visited, every qualifying one has status True. */
  lemma TracksProvisioned(doc: CommodityDoc, doc0: CommodityDoc, tree: Tree, apps: seq<App>, container: string, isNew: bool)
    requires DocTracks(doc, doc0, tree, apps, |apps|, container, isNew)
    requires forall k :: 0 <= k < |apps| && Qualifies(tree, apps[k].name, container) ==>
      HasPair(doc0, apps[k].name, ContainerToCommodity(container))
    ensures ProvisionedUpTo(doc, tree, apps, |apps|, container)
  {
    assert apps[..|apps|] == apps;
    forall k | 0 <= k < |apps| && Qualifies(tree, apps[k].name, container)
      ensures doc.applications[apps[k].name][ContainerToCommodity(container)]
    {
      assert Configured(apps, apps[k].name);
    }
  }

  // ---------------------------------------------------------------- the order of initialisation

  /** The init commands of `names`, one application after the other: each copy is followed by its psql run. */
  function InitAll(names: seq<string>, container: string): (r: seq<Command>)
    ensures |r| == 2 * |names|
  {
    if names == [] then []
    else InitAll(names[..|names| - 1], container) + InitCommands(names[|names| - 1], container)
  }

  /** In the init commands of `names`, the k-th application's copy is immediately followed by its psql run. */
  lemma {:induction false} InitAllAt(names: seq<string>, container: string)
    ensures forall k :: 0 <= k < |names| ==>
      InitAll(names, container)[2 * k] == CopyInitFragment(names[k], container) &&
      InitAll(names, container)[2 * k + 1] == RunInitFragment(container)
  {
    if names != [] {
      var init := names[..|names| - 1];
      InitAllAt(init, container);
      forall k | 0 <= k < |names|
        ensures InitAll(names, container)[2 * k] == CopyInitFragment(names[k], container) &&
                InitAll(names, container)[2 * k + 1] == RunInitFragment(container)
      {
        if k < |init| {
          assert names[k] == init[k];
        }
      }
    }
  }

  /**
   * The applications provision_postgres initialises, in configuration order, judged against
   * the table `doc0` it began with: each chosen application at its first entry, and at every
   * entry when the container is new (a repeated entry otherwise finds its status already True).
   */
  function ChosenOrder(doc0: CommodityDoc, tree: Tree, apps: seq<App>, container: string, isNew: bool): seq<string> {
    if apps == [] then []
    else
      var init := apps[..|apps| - 1];
      var name := apps[|apps| - 1].name;
      ChosenOrder(doc0, tree, init, container, isNew) +
        (if !Skips(doc0, tree, name, container, isNew) && (isNew || !Configured(init, name)) then [name] else [])
  }

  /**
   * The applications initialised are exactly the chosen ones; unless the container is new,
   * each is initialised once.
   */
  lemma {:induction false} ChosenOrderSpec(doc0: CommodityDoc, tree: Tree, apps: seq<App>, container: string, isNew: bool)
    ensures forall name :: name in ChosenOrder(doc0, tree, apps, container, isNew) <==>
      Chosen(doc0, tree, apps, name, container, isNew)
    ensures !isNew ==> Distinct(ChosenOrder(doc0, tree, apps, container, isNew))
  {
    if apps != [] {
      var n := |apps| - 1;
      var init := apps[..n];
      var name := apps[n].name;
      ChosenOrderSpec(doc0, tree, init, container, isNew);
      assert apps[..n + 1] == apps;
      forall x ensures x in ChosenOrder(doc0, tree, apps, container, isNew) <==> Chosen(doc0, tree, apps, x, container, isNew) {
        ConfiguredSnoc(apps, n, x);
      }
      if !isNew {
        var pre := ChosenOrder(doc0, tree, init, container, isNew);
        if !Skips(doc0, tree, name, container, isNew) && !Configured(init, name) {
          assert name !in pre;
          DistinctSnoc(pre, name);
        }
      }
    }
  }

  /** A change to another column does not change which applications a container initialises. */
  lemma {:induction false} ChosenOrderAcross(d0: CommodityDoc, d1: CommodityDoc, tree: Tree, apps: seq<App>,
                                             container: string, isNew: bool, changed: string)
    requires Extends(d0, d1, changed) && changed != ContainerToCommodity(container)
    ensures ChosenOrder(d1, tree, apps, container, isNew) == ChosenOrder(d0, tree, apps, container, isNew)
  {
    if apps != [] {
      var name := apps[|apps| - 1].name;
      ChosenOrderAcross(d0, d1, tree, apps[..|apps| - 1], container, isNew, changed);
      assert HasPair(d1, name, ContainerToCommodity(container)) <==> HasPair(d0, name, ContainerToCommodity(container));
    }
  }

  /**
   * The log provision_postgres leaves behind `log0` when it initialises `names` in this order:
   * nothing if there are none; otherwise the `up`, inspects of which only the last reports the
   * container ready, then each application's init fragment copied and run in turn.
   */
  ghost predicate ProvisionLog(log0: seq<Command>, log: seq<Command>, answer: Oracle, names: seq<string>, container: string) {
    if names == [] then log == log0
    else
      var m := |log| - |log0| - 1 - 2 * |names|;
      m >= 1 &&
      log == log0 + [ComposeUpContainer(container)] + Polls(container, m) + InitAll(names, container) &&
      Ready(answer, |log0| + m, container) &&
      forall p :: |log0| + 1 <= p < |log0| + m ==> !Ready(answer, p, container)
  }

  /**
   * Whether the visited application is initialised, stated against the table the loop began
   * with: it is chosen, and this is its first entry unless the container is new.
   */
  lemma VisitOrder(doc0: CommodityDoc, doc1: CommodityDoc, tree: Tree, apps: seq<App>, i: nat,
                   container: string, isNew: bool)
    requires i < |apps| && DocTracks(doc1, doc0, tree, apps, i, container, isNew)
    requires Qualifies(tree, apps[i].name, container) ==> HasPair(doc1, apps[i].name, ContainerToCommodity(container))
    ensures var name := apps[i].name;
      !Skips(doc1, tree, name, container, isNew) <==>
        !Skips(doc0, tree, name, container, isNew) && (isNew || !Configured(apps[..i], name))
  {
    var name := apps[i].name;
    var c := ContainerToCommodity(container);
    assert HasPair(doc1, name, c) <==> HasPair(doc0, name, c);
  }

  /** The first application initialised: a first start is the ordered log of that one application. */
  lemma FirstOrderLog(log0: seq<Command>, log: seq<Command>, answer: Oracle, name: string, container: string)
    requires FirstStartLog(log0, log, answer, name, container)
    ensures ProvisionLog(log0, log, answer, [name], container)
  {
    assert [name][..0] == [];
    assert InitAll([name], container) == InitCommands(name, container);
  }

  /** A later application initialised: its init commands extend the ordered log by one name. */
  lemma AppendOrderLog(log0: seq<Command>, log: seq<Command>, answer: Oracle, names: seq<string>, name: string, container: string)
    requires names != [] && ProvisionLog(log0, log, answer, names, container)
    ensures ProvisionLog(log0, log + InitCommands(name, container), answer, names + [name], container)
  {
    var m := |log| - |log0| - 1 - 2 * |names|;
    var head := log0 + [ComposeUpContainer(container)] + Polls(container, m);
    assert (names + [name])[..|names|] == names;
    assert InitAll(names + [name], container) == InitAll(names, container) + InitCommands(name, container);
    assert log + InitCommands(name, container) == head + InitAll(names + [name], container);
  }

  /**
   * The loop's ordered log after visiting apps[..i]: the applications initialised so far, in
   * order, and the container is started exactly when there is one.
   */
  ghost predicate Ordered(doc0: CommodityDoc, log0: seq<Command>, log: seq<Command>, answer: Oracle, tree: Tree,
                          apps: seq<App>, i: nat, container: string, isNew: bool, started: bool) {
    i <= |apps| &&
    ProvisionLog(log0, log, answer, ChosenOrder(doc0, tree, apps[..i], container, isNew), container) &&
    (started <==> ChosenOrder(doc0, tree, apps[..i], container, isNew) != [])
  }

  /** The ordered log grows by one visit: nothing for a skip, or what start_postgres issued. */
  lemma OrderStep(doc0: CommodityDoc, doc1: CommodityDoc, log0: seq<Command>, log1: seq<Command>, log2: seq<Command>,
                  answer: Oracle, tree: Tree, apps: seq<App>, i: nat, container: string, isNew: bool, started: bool)
    requires i < |apps| && DocTracks(doc1, doc0, tree, apps, i, container, isNew)
    requires Qualifies(tree, apps[i].name, container) ==> HasPair(doc1, apps[i].name, ContainerToCommodity(container))
    requires Ordered(doc0, log0, log1, answer, tree, apps, i, container, isNew, started)
    requires Skips(doc1, tree, apps[i].name, container, isNew) ==> log2 == log1
    requires !Skips(doc1, tree, apps[i].name, container, isNew) ==> StartLog(log1, log2, answer, apps[i].name, container, started)
    ensures Ordered(doc0, log0, log2, answer, tree, apps, i + 1, container, isNew,
                    started || !Skips(doc1, tree, apps[i].name, container, isNew))
  {
    var name := apps[i].name;
    var names := ChosenOrder(doc0, tree, apps[..i], container, isNew);
    VisitOrder(doc0, doc1, tree, apps, i, container, isNew);
    ChosenOrderSnoc(doc0, tree, apps, i, container, isNew);
    if !Skips(doc1, tree, name, container, isNew) {
      assert ChosenOrder(doc0, tree, apps[..i + 1], container, isNew) == names + [name];
      if started {
        AppendOrderLog(log0, log1, answer, names, name, container);
      } else {
        assert log1 == log0 && names + [name] == [name];
        FirstOrderLog(log0, log2, answer, name, container);
      }
    } else {
      assert ChosenOrder(doc0, tree, apps[..i + 1], container, isNew) == names;
    }
  }

  /** Visiting apps[i] appends its name to the order exactly when it is initialised. */
  lemma ChosenOrderSnoc(doc0: CommodityDoc, tree: Tree, apps: seq<App>, i: nat, container: string, isNew: bool)
    requires i < |apps|
    ensures var name := apps[i].name;
      ChosenOrder(doc0, tree, apps[..i + 1], container, isNew) ==
        ChosenOrder(doc0, tree, apps[..i], container, isNew) +
          (if !Skips(doc0, tree, name, container, isNew) && (isNew || !Configured(apps[..i], name)) then [name] else [])
  {
    assert apps[..i + 1][..i] == apps[..i];
  }

  /** The whole invariant of provision_postgres's loop after visiting apps[..i]. */
  ghost predicate Provisioning(doc0: CommodityDoc, doc: CommodityDoc, log0: seq<Command>, log: seq<Command>, answer: Oracle,
                               tree: Tree, apps: seq<App>, i: nat, container: string, isNew: bool, started: bool) {
    Progress(doc0, doc, log0, log, tree, apps, i, container, isNew) &&
    Ups(log, container) == Ups(log0, container) + (if started then 1 else 0) &&
    Ordered(doc0, log0, log, answer, tree, apps, i, container, isNew, started)
  }

  /** One visit, as VisitApp reports it, keeps the loop's invariant for one more application. */
  lemma LoopStep(doc0: CommodityDoc, doc1: CommodityDoc, doc2: CommodityDoc,
                 log0: seq<Command>, log1: seq<Command>, log2: seq<Command>, answer: Oracle,
                 tree: Tree, apps: seq<App>, i: nat, container: string, isNew: bool, started1: bool, started2: bool)
    requires i < |apps| && Provisioning(doc0, doc1, log0, log1, answer, tree, apps, i, container, isNew, started1)
    requires Qualifies(tree, apps[i].name, container) ==> HasPair(doc1, apps[i].name, ContainerToCommodity(container))
    requires Visited(doc1, doc2, log1, log2, tree, apps[i].name, container, isNew)
    requires started2 == (started1 || !Skips(doc1, tree, apps[i].name, container, isNew))
    requires !Skips(doc1, tree, apps[i].name, container, isNew) ==>
      StartLog(log1, log2, answer, apps[i].name, container, started1)
    ensures Provisioning(doc0, doc2, log0, log2, answer, tree, apps, i + 1, container, isNew, started2)
  {
    ProgressStep(doc0, doc1, doc2, log0, log1, log2, tree, apps, i, container, isNew);
    OrderStep(doc0, doc1, log0, log1, log2, answer, tree, apps, i, container, isNew, started1);
  }

  /** What the loop's invariant gives once every application is visited. */
  lemma LoopDone(doc0: CommodityDoc, doc: CommodityDoc, log0: seq<Command>, log: seq<Command>, answer: Oracle,
                 tree: Tree, container: string, isNew: bool, started: bool)
    requires Tabled(doc0, tree, container)
    requires Provisioning(doc0, doc, log0, log, answer, tree, Applications(tree), |Applications(tree)|, container, isNew, started)
    ensures IsPrefix(log0, log) && OnlyConcerns(log0, log, container) && Ups(log, container) <= Ups(log0, container) + 1
    ensures Extends(doc0, doc, ContainerToCommodity(container)) && Tabled(doc, tree, container)
    ensures ProvisionedUpTo(doc, tree, Applications(tree), |Applications(tree)|, container)
    ensures LogTracks(log, |log0|, doc0, tree, Applications(tree), |Applications(tree)|, container, isNew)
    ensures DocTracks(doc, doc0, tree, Applications(tree), |Applications(tree)|, container, isNew)
    ensures ProvisionLog(log0, log, answer, ChosenOrder(doc0, tree, Applications(tree), container, isNew), container)
    ensures !isNew && ProvisionedUpTo(doc0, tree, Applications(tree), |Applications(tree)|, container) ==>
      log == log0 && doc == doc0
  {
    var apps := Applications(tree);
    assert apps[..|apps|] == apps;
    ExtendsTabled(doc0, doc, tree, ContainerToCommodity(container), container);
  }

  /**
   * provision_postgres for one version: every configured application that requires the
   * container and has an init fragment is visited in order and threads `started`, so the
   * container is brought up at most once per call. An application's init fragment is copied
   * exactly when it is chosen, and the commodity's column gains True for exactly the chosen
   * applications.
   */
  method ProvisionPostgres(rt: Runtime, ws: Workspace, tree: Tree, newContainers: seq<string>, version: string)
    requires tree.config.Some?
    requires ws.commoditiesYml.Some? && Tabled(ws.commoditiesYml.value, tree, PostgresContainer(version))
    requires PostgresContainer(version) != "" ==> AlwaysEventuallyReady(rt.answer, PostgresContainer(version))
    modifies rt, ws
    ensures PostgresContainer(version) == "" ==> rt.issued == old(rt.issued) && ws.commoditiesYml == old(ws.commoditiesYml)
    ensures IsPrefix(old(rt.issued), rt.issued) && OnlyConcerns(old(rt.issued), rt.issued, PostgresContainer(version))
    ensures Ups(rt.issued, PostgresContainer(version)) <= Ups(old(rt.issued), PostgresContainer(version)) + 1
    ensures ws.commoditiesYml.Some? && Extends(old(ws.commoditiesYml.value), ws.commoditiesYml.value, PgCommodity(version))
    ensures Tabled(ws.commoditiesYml.value, tree, PostgresContainer(version))
    ensures PostgresContainer(version) != "" ==>
      ProvisionedUpTo(ws.commoditiesYml.value, tree, Applications(tree), |Applications(tree)|, PostgresContainer(version))
    ensures PostgresContainer(version) != "" ==>
      LogTracks(rt.issued, |old(rt.issued)|, old(ws.commoditiesYml.value), tree, Applications(tree), |Applications(tree)|,
                PostgresContainer(version), PostgresContainer(version) in newContainers)
    ensures PostgresContainer(version) != "" ==>
      DocTracks(ws.commoditiesYml.value, old(ws.commoditiesYml.value), tree, Applications(tree), |Applications(tree)|,
                PostgresContainer(version), PostgresContainer(version) in newContainers)
    ensures PostgresContainer(version) != "" ==>
      ProvisionLog(old(rt.issued), rt.issued, rt.answer,
                   ChosenOrder(old(ws.commoditiesYml.value), tree, Applications(tree), PostgresContainer(version),
                               PostgresContainer(version) in newContainers),
                   PostgresContainer(version))
    ensures (PostgresContainer(version) !in newContainers &&
             ProvisionedUpTo(old(ws.commoditiesYml.value), tree, Applications(tree), |Applications(tree)|, PostgresContainer(version))) ==>
      rt.issued == old(rt.issued) && ws.commoditiesYml == old(ws.commoditiesYml)
    ensures ws.customProvisionYml == old(ws.customProvisionYml) && ws.composeFileList == old(ws.composeFileList)
  {
    var container := PostgresContainer(version);
    if container == "" {
      return;
    }
    var isNew := container in newContainers;
    ghost var started := VisitAll(rt, ws, tree, isNew, version);
    LoopDone(old(ws.commoditiesYml.value), ws.commoditiesYml.value, old(rt.issued), rt.issued, rt.answer,
             tree, container, isNew, started);
  }

  /** The loop of provision_postgres: every configured application is visited in order, threading `started`. */
  method VisitAll(rt: Runtime, ws: Workspace, tree: Tree, isNew: bool, version: string) returns (ghost started: bool)
    requires tree.config.Some? && PostgresContainer(version) != ""
    requires ws.commoditiesYml.Some? && Tabled(ws.commoditiesYml.value, tree, PostgresContainer(version))
    requires AlwaysEventuallyReady(rt.answer, PostgresContainer(version))
    modifies rt, ws
    ensures ws.commoditiesYml.Some?
    ensures Provisioning(old(ws.commoditiesYml.value), ws.commoditiesYml.value, old(rt.issued), rt.issued, rt.answer,
                         tree, Applications(tree), |Applications(tree)|, PostgresContainer(version), isNew, started)
    ensures ws.customProvisionYml == old(ws.customProvisionYml) && ws.composeFileList == old(ws.composeFileList)
  {
    var container := PostgresContainer(version);
    var apps := tree.config.value.applications;
    var started' := false;
    ghost var log0 := rt.issued;
    ghost var doc0 := ws.commoditiesYml.value;
    for i := 0 to |apps|
      invariant ws.commoditiesYml.Some?
      invariant Provisioning(doc0, ws.commoditiesYml.value, log0, rt.issued, rt.answer, tree, apps, i, container, isNew, started')
      invariant ws.customProvisionYml == old(ws.customProvisionYml) && ws.composeFileList == old(ws.composeFileList)
    {
      ghost var doc1 := ws.commoditiesYml.value;
      ghost var log1 := rt.issued;
      ExtendsTabled(doc0, doc1, tree, ContainerToCommodity(container), container);
      assert Applications(tree)[i] == apps[i];
      ghost var started0 := started';
      started' := VisitApp(rt, ws, tree, apps[i].name, started', isNew, version);
      LoopStep(doc0, doc1, ws.commoditiesYml.value, log0, log1, rt.issued, rt.answer, tree, apps, i, container, isNew,
               started0, started');
    }
    started := started';
  }

  /**
   * Per application, for a supported version: its init fragment is copied exactly when it is
   * chosen, and its status afterwards is its old status or whether it was chosen; so an
   * application that does not qualify is neither initialised nor written.
   */
  lemma ProvisionedPerApp(log0: seq<Command>, log: seq<Command>, doc0: CommodityDoc, doc: CommodityDoc,
                          tree: Tree, container: string, isNew: bool, name: string)
    requires LogTracks(log, |log0|, doc0, tree, Applications(tree), |Applications(tree)|, container, isNew)
    requires DocTracks(doc, doc0, tree, Applications(tree), |Applications(tree)|, container, isNew)
    ensures var apps := Applications(tree); var c := ContainerToCommodity(container);
      (CopyInitFragment(name, container) in log[|log0|..] <==>
        Configured(apps, name) && Qualifies(tree, name, container) &&
        (isNew || !(HasPair(doc0, name, c) && doc0.applications[name][c]))) &&
      (HasPair(doc, name, c) <==> HasPair(doc0, name, c)) &&
      (HasPair(doc0, name, c) && !Qualifies(tree, name, container) ==> doc.applications[name][c] == doc0.applications[name][c])
  {
    var apps := Applications(tree);
    assert apps[..|apps|] == apps;
  }

  /** Changing another commodity's column does not change which applications a container chooses. */
  lemma ChosenAcross(d0: CommodityDoc, d1: CommodityDoc, tree: Tree, apps: seq<App>, name: string,
                     container: string, isNew: bool, changed: string)
    requires Extends(d0, d1, changed) && changed != ContainerToCommodity(container)
    ensures Chosen(d1, tree, apps, name, container, isNew) == Chosen(d0, tree, apps, name, container, isNew)
  {
    var c := ContainerToCommodity(container);
    assert HasPair(d1, name, c) <==> HasPair(d0, name, c);
  }

  /** What a call found against `d1` it also found against `d0`, which differs only in another column. */
  lemma TracksAcross(log: seq<Command>, from: nat, d0: CommodityDoc, d1: CommodityDoc, doc: CommodityDoc,
                     tree: Tree, apps: seq<App>, container: string, isNew: bool, changed: string)
    requires Extends(d0, d1, changed) && changed != ContainerToCommodity(container)
    requires LogTracks(log, from, d1, tree, apps, |apps|, container, isNew)
    requires DocTracks(doc, d1, tree, apps, |apps|, container, isNew)
    ensures LogTracks(log, from, d0, tree, apps, |apps|, container, isNew)
    ensures DocTracks(doc, d0, tree, apps, |apps|, container, isNew)
  {
    var c := ContainerToCommodity(container);
    forall x ensures Chosen(d1, tree, apps[..|apps|], x, container, isNew) == Chosen(d0, tree, apps[..|apps|], x, container, isNew) {
      ChosenAcross(d0, d1, tree, apps[..|apps|], x, container, isNew, changed);
    }
    forall a ensures HasPair(doc, a, c) <==> HasPair(d0, a, c) {
      assert HasPair(d1, a, c) <==> HasPair(d0, a, c);
    }
  }

  /** A later change to another column keeps what a call did to its own. */
  lemma DocTracksKept(d0: CommodityDoc, d1: CommodityDoc, d2: CommodityDoc, tree: Tree, apps: seq<App>,
                      container: string, isNew: bool, changed: string)
    requires DocTracks(d1, d0, tree, apps, |apps|, container, isNew)
    requires Extends(d1, d2, changed) && changed != ContainerToCommodity(container)
    ensures DocTracks(d2, d0, tree, apps, |apps|, container, isNew)
  {
    var c := ContainerToCommodity(container);
    forall a ensures HasPair(d2, a, c) <==> HasPair(d1, a, c) {
    }
  }

  /** Commands addressed to another container copy none of this container's init fragments. */
  lemma LogTracksKept(log1: seq<Command>, log2: seq<Command>, from: nat, doc0: CommodityDoc, tree: Tree, apps: seq<App>,
                      container: string, isNew: bool, other: string)
    requires LogTracks(log1, from, doc0, tree, apps, |apps|, container, isNew)
    requires IsPrefix(log1, log2) && OnlyConcerns(log1, log2, other) && other != container
    ensures LogTracks(log2, from, doc0, tree, apps, |apps|, container, isNew)
  {
    OtherContainerKept(log1, log2, other, container);
    assert log2[from..] == log1[from..] + log2[|log1|..];
  }

  /** Commands to another container issued before `log1` add none of this container's copies. */
  lemma LogTracksBefore(log0: seq<Command>, log1: seq<Command>, log2: seq<Command>, doc0: CommodityDoc, tree: Tree,
                        apps: seq<App>, container: string, isNew: bool, other: string)
    requires LogTracks(log2, |log1|, doc0, tree, apps, |apps|, container, isNew)
    requires IsPrefix(log0, log1) && IsPrefix(log1, log2) && OnlyConcerns(log0, log1, other) && other != container
    ensures LogTracks(log2, |log0|, doc0, tree, apps, |apps|, container, isNew)
  {
    OtherContainerKept(log0, log1, other, container);
    assert log2[|log0|..] == log1[|log0|..] + log2[|log1|..];
    assert log2[..|log1|] == log1;
  }

  /**
   * Only the entries of commodities c1 and c2 may have changed: the table's version, commodity
   * list and every other pair are as they were.
   */
  ghost predicate KeepsOthers(doc0: CommodityDoc, doc: CommodityDoc, c1: string, c2: string) {
    doc.version == doc0.version && doc.commodities == doc0.commodities &&
    forall a, c :: c != c1 && c != c2 ==>
      (HasPair(doc, a, c) <==> HasPair(doc0, a, c)) &&
      (HasPair(doc0, a, c) ==> doc.applications[a][c] == doc0.applications[a][c])
  }

  /**
   * provision_commodities: Postgres 13, then Postgres 17. The commands up to `mid` are all
   * addressed to postgres-13 and the rest to postgres-17; each container is brought up at most
   * once; for each, the init fragments copied and the statuses set are those provision_postgres
   * chooses against the table as it was; every other entry of the table is untouched.
   */
  method ProvisionCommodities(rt: Runtime, ws: Workspace, tree: Tree, newContainers: seq<string>)
    returns (ghost mid: seq<Command>)
    requires tree.config.Some? && ws.commoditiesYml.Some?
    requires Tabled(ws.commoditiesYml.value, tree, "postgres-13") && Tabled(ws.commoditiesYml.value, tree, "postgres-17")
    requires AlwaysEventuallyReady(rt.answer, "postgres-13") && AlwaysEventuallyReady(rt.answer, "postgres-17")
    modifies rt, ws
    ensures IsPrefix(old(rt.issued), mid) && IsPrefix(mid, rt.issued)
    ensures OnlyConcerns(old(rt.issued), mid, "postgres-13") && OnlyConcerns(mid, rt.issued, "postgres-17")
    ensures ProvisionLog(old(rt.issued), mid, rt.answer,
                         ChosenOrder(old(ws.commoditiesYml.value), tree, Applications(tree), "postgres-13",
                                     "postgres-13" in newContainers), "postgres-13")
    ensures ProvisionLog(mid, rt.issued, rt.answer,
                         ChosenOrder(old(ws.commoditiesYml.value), tree, Applications(tree), "postgres-17",
                                     "postgres-17" in newContainers), "postgres-17")
    ensures Ups(rt.issued, "postgres-13") <= Ups(old(rt.issued), "postgres-13") + 1
    ensures Ups(rt.issued, "postgres-17") <= Ups(old(rt.issued), "postgres-17") + 1
    ensures ws.commoditiesYml.Some?
    ensures KeepsOthers(old(ws.commoditiesYml.value), ws.commoditiesYml.value, "postgres-13", "postgres-17")
    ensures Tabled(ws.commoditiesYml.value, tree, "postgres-13") && Tabled(ws.commoditiesYml.value, tree, "postgres-17")
    ensures ProvisionedUpTo(ws.commoditiesYml.value, tree, Applications(tree), |Applications(tree)|, "postgres-13")
    ensures ProvisionedUpTo(ws.commoditiesYml.value, tree, Applications(tree), |Applications(tree)|, "postgres-17")
    ensures LogTracks(rt.issued, |old(rt.issued)|, old(ws.commoditiesYml.value), tree, Applications(tree),
                      |Applications(tree)|, "postgres-13", "postgres-13" in newContainers)
    ensures LogTracks(rt.issued, |old(rt.issued)|, old(ws.commoditiesYml.value), tree, Applications(tree),
                      |Applications(tree)|, "postgres-17", "postgres-17" in newContainers)
    ensures DocTracks(ws.commoditiesYml.value, old(ws.commoditiesYml.value), tree, Applications(tree),
                      |Applications(tree)|, "postgres-13", "postgres-13" in newContainers)
    ensures DocTracks(ws.commoditiesYml.value, old(ws.commoditiesYml.value), tree, Applications(tree),
                      |Applications(tree)|, "postgres-17", "postgres-17" in newContainers)
    ensures ws.customProvisionYml == old(ws.customProvisionYml) && ws.composeFileList == old(ws.composeFileList)
  {
    ghost var log0 := rt.issued;
    ghost var doc0 := ws.commoditiesYml.value;
    ghost var apps := Applications(tree);
    assert PostgresContainer("13") == "postgres-13" && PostgresContainer("17") == "postgres-17";
    ProvisionPostgres(rt, ws, tree, newContainers, "13");
    mid := rt.issued;
    ghost var doc1 := ws.commoditiesYml.value;
    ExtendsTabled(doc0, doc1, tree, "postgres-13", "postgres-17");
    ProvisionPostgres(rt, ws, tree, newContainers, "17");
    ghost var doc2 := ws.commoditiesYml.value;
    ExtendsTabled(doc1, doc2, tree, "postgres-17", "postgres-13");
    PrefixChain(log0, mid, rt.issued);
    OtherContainerKept(log0, mid, "postgres-13", "postgres-17");
    OtherContainerKept(mid, rt.issued, "postgres-17", "postgres-13");
    ProvisionedKept(doc1, doc2, tree, apps, "postgres-13", "postgres-17");
    LogTracksKept(mid, rt.issued, |log0|, doc0, tree, apps, "postgres-13", "postgres-13" in newContainers, "postgres-17");
    DocTracksKept(doc0, doc1, doc2, tree, apps, "postgres-13", "postgres-13" in newContainers, "postgres-17");
    TracksAcross(rt.issued, |mid|, doc0, doc1, doc2, tree, apps, "postgres-17", "postgres-17" in newContainers, "postgres-13");
    LogTracksBefore(log0, mid, rt.issued, doc0, tree, apps, "postgres-17", "postgres-17" in newContainers, "postgres-13");
    OthersKept(doc0, doc1, doc2, "postgres-13", "postgres-17");
    ChosenOrderAcross(doc0, doc1, tree, apps, "postgres-17", "postgres-17" in newContainers, "postgres-13");
  }

  /** A change to another column keeps the qualifying applications' statuses True. */
  lemma ProvisionedKept(d1: CommodityDoc, d2: CommodityDoc, tree: Tree, apps: seq<App>, container: string, changed: string)
    requires ProvisionedUpTo(d1, tree, apps, |apps|, container)
    requires Extends(d1, d2, changed) && changed != ContainerToCommodity(container)
    ensures ProvisionedUpTo(d2, tree, apps, |apps|, container)
  {
  }

  /** Two column-wise changes, one after the other, touch only those two columns. */
  lemma OthersKept(d0: CommodityDoc, d1: CommodityDoc, d2: CommodityDoc, c1: string, c2: string)
    requires Extends(d0, d1, c1) && Extends(d1, d2, c2)
    ensures KeepsOthers(d0, d2, c1, c2)
  {
  }
}

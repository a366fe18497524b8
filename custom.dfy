/**
 * scripts/provision_custom.py: per-application shell scripts run after the containers are up.
 * An application's fragments directory may hold a once-only script, whose run is recorded in
 * .custom_provision.yml so that it never runs again, and an always script, run on every start.
 */
module Custom {
  import opened Wrappers
  import opened Seqs
  import opened Shell
  import opened Env

  const OnetimeScript := "custom-provision.sh"
  const AlwaysScript := "custom-provision-always.sh"

  /** The applications recorded in .custom_provision.yml; none while the file does not exist. */
  function Marked(doc: Option<CustomDoc>): seq<string> {
    if doc.Some? then doc.value.applications else []
  }

  /**
   * The file after the recorded list became `marks`: untouched when nothing was added,
   * otherwise the list replaced under the existing version tag, or a new file with version "1".
   */
  function Recorded(doc: Option<CustomDoc>, marks: seq<string>): (r: Option<CustomDoc>)
    ensures IsPrefix(Marked(doc), marks) ==> Marked(r) == marks
  {
    if marks == Marked(doc) then doc
    else Some(CustomDoc(if doc.Some? then doc.value.version else "1", marks))
  }

  /** Recording in two steps leaves the same file as recording the final list at once. */
  lemma RecordedTwice(doc: Option<CustomDoc>, m1: seq<string>, m2: seq<string>)
    requires IsPrefix(Marked(doc), m1) && IsPrefix(m1, m2)
    ensures Recorded(Recorded(doc, m1), m2) == Recorded(doc, m2)
  {
    if m2 == Marked(doc) {
      assert |m1| == |m2|;
      assert m1 == m2;
    }
  }

  // ---------------------------------------------------------------- the recorded list

  /** create_custom_provision: writes version "1" with no applications, only if the file is absent. */
  method CreateCustomProvision(ws: Workspace)
    modifies ws
    ensures old(ws.customProvisionYml).Some? ==> ws.customProvisionYml == old(ws.customProvisionYml)
    ensures old(ws.customProvisionYml).None? ==> ws.customProvisionYml == Some(CustomDoc("1", []))
    ensures ws.commoditiesYml == old(ws.commoditiesYml) && ws.composeFileList == old(ws.composeFileList)
  {
    if ws.customProvisionYml.None? {
      ws.customProvisionYml := Some(CustomDoc("1", []));
    }
  }

  /** custom_provisioned: whether the app's once-only script is recorded as run. */
  function CustomProvisioned(ws: Workspace, app: string): (r: bool)
    reads ws
    ensures r ==> ws.customProvisionYml.Some?
    ensures r <==> app in Marked(ws.customProvisionYml)
  {
    ws.customProvisionYml.Some? && app in ws.customProvisionYml.value.applications
  }

  /**
   * set_custom_provisioned: creates the file if needed and appends the app. Afterwards the app
   * reads as provisioned and every other app reads as before.
   */
  method SetCustomProvisioned(ws: Workspace, app: string)
    modifies ws
    ensures ws.customProvisionYml.Some?
    ensures Marked(ws.customProvisionYml) == Marked(old(ws.customProvisionYml)) + [app]
    ensures ws.customProvisionYml.value.version ==
            (if old(ws.customProvisionYml).Some? then old(ws.customProvisionYml).value.version else "1")
    ensures CustomProvisioned(ws, app)
    ensures forall a :: a != app ==> (CustomProvisioned(ws, a) <==> old(CustomProvisioned(ws, a)))
    ensures ws.commoditiesYml == old(ws.commoditiesYml) && ws.composeFileList == old(ws.composeFileList)
  {
    CreateCustomProvision(ws);
    var doc := ws.customProvisionYml.value;
    ws.customProvisionYml := Some(doc.(applications := doc.applications + [app]));
  }

  // ---------------------------------------------------------------- what a run does

  /** The recorded list after the once-only step for `app`: appended when its script runs. */
  function MarkStep(marks: seq<string>, app: string, tree: Tree): seq<string> {
    if FragmentExists(tree, app, OnetimeScript) && app !in marks then marks + [app] else marks
  }

  /** The recorded list after visiting `apps` in order. */
  function Marks(marks: seq<string>, apps: seq<App>, tree: Tree): seq<string> {
    if apps == [] then marks
    else MarkStep(Marks(marks, apps[..|apps| - 1], tree), apps[|apps| - 1].name, tree)
  }

  /** run_onetime_custom_provision's commands, given the list recorded so far. */
  function OnetimeCommands(marks: seq<string>, app: string, tree: Tree): seq<Command> {
    if FragmentExists(tree, app, OnetimeScript) && app !in marks then [RunCustomScript(app, OnetimeScript)] else []
  }

  /** run_always_custom_provision's commands. */
  function AlwaysCommands(app: string, tree: Tree): seq<Command> {
    if FragmentExists(tree, app, AlwaysScript) then [RunCustomScript(app, AlwaysScript)] else []
  }

  /** The commands of provision_custom over `apps`: per app, the once-only script, then the always one. */
  function CustomCommands(marks: seq<string>, apps: seq<App>, tree: Tree): seq<Command> {
    if apps == [] then []
    else
      var init := apps[..|apps| - 1];
      var app := apps[|apps| - 1].name;
      CustomCommands(marks, init, tree) + OnetimeCommands(Marks(marks, init, tree), app, tree) + AlwaysCommands(app, tree)
  }

  /**
   * The recorded list only grows, and it holds exactly the apps already recorded plus every
   * visited app that has a once-only script.
   */
  lemma {:induction false} MarksSpec(marks: seq<string>, apps: seq<App>, tree: Tree)
    ensures IsPrefix(marks, Marks(marks, apps, tree))
    ensures forall a :: a in Marks(marks, apps, tree) <==>
      a in marks || (Configured(apps, a) && FragmentExists(tree, a, OnetimeScript))
  {
    if apps != [] {
      var init := apps[..|apps| - 1];
      MarksSpec(marks, init, tree);
      var m := Marks(marks, init, tree);
      PrefixOfAppend(m, [apps[|apps| - 1].name]);
      PrefixChain(marks, m, Marks(marks, apps, tree));
      forall a
        ensures Configured(apps, a) <==> Configured(init, a) || a == apps[|apps| - 1].name
      {
        if Configured(apps, a) && a != apps[|apps| - 1].name {
          var i :| 0 <= i < |apps| && apps[i].name == a;
          assert init[i].name == a;
        }
        if Configured(init, a) {
          var i :| 0 <= i < |init| && init[i].name == a;
          assert apps[i].name == a;
        }
      }
    }
  }

  /**
   * The once-only script of `a` is issued exactly once when the run records `a`, and never
   * otherwise: never twice, and never for an app recorded before the run.
   */
  lemma {:induction false} OnetimeOnce(marks: seq<string>, apps: seq<App>, tree: Tree, a: string)
    ensures multiset(CustomCommands(marks, apps, tree))[RunCustomScript(a, OnetimeScript)] ==
            (if a in Marks(marks, apps, tree) && a !in marks then 1 else 0)
  {
    if apps != [] {
      var init := apps[..|apps| - 1];
      OnetimeOnce(marks, init, tree, a);
      MarksSpec(marks, init, tree);
      var m := Marks(marks, init, tree);
      var app := apps[|apps| - 1].name;
      var c := RunCustomScript(a, OnetimeScript);
      assert multiset(CustomCommands(marks, apps, tree)) ==
             multiset(CustomCommands(marks, init, tree)) + multiset(OnetimeCommands(m, app, tree)) +
             multiset(AlwaysCommands(app, tree));
      assert multiset(AlwaysCommands(app, tree))[c] == 0;
      assert multiset(OnetimeCommands(m, app, tree))[c] == if a == app && FragmentExists(tree, app, OnetimeScript) && app !in m then 1 else 0;
    }
  }

  /** A list that already holds every visited app with a once-only script is left as it is. */
  lemma {:induction false} MarksFixed(marks: seq<string>, apps: seq<App>, tree: Tree)
    requires forall i :: 0 <= i < |apps| && FragmentExists(tree, apps[i].name, OnetimeScript) ==> apps[i].name in marks
    ensures Marks(marks, apps, tree) == marks
  {
    if apps != [] {
      MarksFixed(marks, apps[..|apps| - 1], tree);
    }
  }

  /** A second run over the same apps, started from what the first recorded, issues no once-only script. */
  lemma SecondRunIdle(marks: seq<string>, apps: seq<App>, tree: Tree, a: string)
    ensures var after := Marks(marks, apps, tree);
      Marks(after, apps, tree) == after &&
      RunCustomScript(a, OnetimeScript) !in CustomCommands(after, apps, tree)
  {
    var after := Marks(marks, apps, tree);
    MarksSpec(marks, apps, tree);
    forall i | 0 <= i < |apps| && FragmentExists(tree, apps[i].name, OnetimeScript)
      ensures apps[i].name in after
    {
      assert Configured(apps, apps[i].name);
    }
    MarksFixed(after, apps, tree);
    OnetimeOnce(after, apps, tree, a);
  }

  /** The specification functions over one more app. */
  lemma CustomStep(marks: seq<string>, apps: seq<App>, i: nat, tree: Tree)
    requires i < |apps|
    ensures Marks(marks, apps[..i + 1], tree) == MarkStep(Marks(marks, apps[..i], tree), apps[i].name, tree)
    ensures CustomCommands(marks, apps[..i + 1], tree) ==
            CustomCommands(marks, apps[..i], tree) + OnetimeCommands(Marks(marks, apps[..i], tree), apps[i].name, tree) +
            AlwaysCommands(apps[i].name, tree)
  {
    assert apps[..i + 1][..i] == apps[..i];
  }

  // ---------------------------------------------------------------- the run itself

  /**
   * run_onetime_custom_provision: when the app has a once-only script that is not recorded,
   * runs it and records the app.
   */
  method RunOnetime(rt: Runtime, ws: Workspace, tree: Tree, app: string)
    modifies rt, ws
    ensures rt.issued == old(rt.issued) + OnetimeCommands(Marked(old(ws.customProvisionYml)), app, tree)
    ensures ws.customProvisionYml ==
            Recorded(old(ws.customProvisionYml), MarkStep(Marked(old(ws.customProvisionYml)), app, tree))
    ensures ws.commoditiesYml == old(ws.commoditiesYml) && ws.composeFileList == old(ws.composeFileList)
  {
    if !FragmentExists(tree, app, OnetimeScript) {
      return;
    }
    if !CustomProvisioned(ws, app) {
      var _ := rt.Run(RunCustomScript(app, OnetimeScript));
      SetCustomProvisioned(ws, app);
    }
  }

  /** run_always_custom_provision: runs the always script when the app has one. */
  method RunAlways(rt: Runtime, tree: Tree, app: string)
    modifies rt
    ensures rt.issued == old(rt.issued) + AlwaysCommands(app, tree)
  {
    if FragmentExists(tree, app, AlwaysScript) {
      var _ := rt.Run(RunCustomScript(app, AlwaysScript));
    }
  }

  /** The log half of the loop step: the commands for one more app extend the log. */
  lemma ProvisionLogStep(log0: seq<Command>, marks: seq<string>, apps: seq<App>, i: nat, tree: Tree)
    requires i < |apps|
    ensures log0 + CustomCommands(marks, apps[..i + 1], tree) ==
            log0 + CustomCommands(marks, apps[..i], tree) + OnetimeCommands(Marks(marks, apps[..i], tree), apps[i].name, tree) +
            AlwaysCommands(apps[i].name, tree)
  {
    CustomStep(marks, apps, i, tree);
    var c := CustomCommands(marks, apps[..i], tree);
    var o := OnetimeCommands(Marks(marks, apps[..i], tree), apps[i].name, tree);
    var a := AlwaysCommands(apps[i].name, tree);
    assert log0 + (c + o + a) == log0 + c + o + a;
  }

  /** The file half of the loop step: recording one more app's step records the longer run. */
  lemma ProvisionDocStep(doc0: Option<CustomDoc>, apps: seq<App>, i: nat, tree: Tree)
    requires i < |apps|
    ensures var m := Marks(Marked(doc0), apps[..i], tree);
      Marked(Recorded(doc0, m)) == m &&
      Recorded(Recorded(doc0, m), MarkStep(m, apps[i].name, tree)) == Recorded(doc0, Marks(Marked(doc0), apps[..i + 1], tree))
  {
    var m0 := Marked(doc0);
    MarksSpec(m0, apps[..i], tree);
    var m := Marks(m0, apps[..i], tree);
    CustomStep(m0, apps, i, tree);
    PrefixOfAppend(m, [apps[i].name]);
    RecordedTwice(doc0, m, MarkStep(m, apps[i].name, tree));
  }

  /** The loop step of provision_custom, on values: the file and the log follow the specification one app further. */
  lemma ProvisionStep(doc0: Option<CustomDoc>, doc1: Option<CustomDoc>, doc2: Option<CustomDoc>,
                      log0: seq<Command>, log1: seq<Command>, log2: seq<Command>, apps: seq<App>, i: nat, tree: Tree)
    requires i < |apps|
    requires log1 == log0 + CustomCommands(Marked(doc0), apps[..i], tree)
    requires doc1 == Recorded(doc0, Marks(Marked(doc0), apps[..i], tree))
    requires log2 == log1 + OnetimeCommands(Marked(doc1), apps[i].name, tree) + AlwaysCommands(apps[i].name, tree)
    requires doc2 == Recorded(doc1, MarkStep(Marked(doc1), apps[i].name, tree))
    ensures log2 == log0 + CustomCommands(Marked(doc0), apps[..i + 1], tree)
    ensures doc2 == Recorded(doc0, Marks(Marked(doc0), apps[..i + 1], tree))
  {
    ProvisionDocStep(doc0, apps, i, tree);
    ProvisionLogStep(log0, Marked(doc0), apps, i, tree);
  }

  /** One iteration of provision_custom: the once-only step, then the always step. */
  method ProvisionApp(rt: Runtime, ws: Workspace, tree: Tree, app: string)
    modifies rt, ws
    ensures rt.issued == old(rt.issued) + OnetimeCommands(Marked(old(ws.customProvisionYml)), app, tree) + AlwaysCommands(app, tree)
    ensures ws.customProvisionYml ==
            Recorded(old(ws.customProvisionYml), MarkStep(Marked(old(ws.customProvisionYml)), app, tree))
    ensures ws.commoditiesYml == old(ws.commoditiesYml) && ws.composeFileList == old(ws.composeFileList)
  {
    RunOnetime(rt, ws, tree, app);
    RunAlways(rt, tree, app);
  }

  /** provision_custom: every configured app, in order, once-only step first, then always step. */
  method ProvisionCustom(rt: Runtime, ws: Workspace, tree: Tree)
    requires tree.config.Some?
    modifies rt, ws
    ensures rt.issued == old(rt.issued) + CustomCommands(Marked(old(ws.customProvisionYml)), Applications(tree), tree)
    ensures ws.customProvisionYml ==
            Recorded(old(ws.customProvisionYml), Marks(Marked(old(ws.customProvisionYml)), Applications(tree), tree))
    ensures ws.commoditiesYml == old(ws.commoditiesYml) && ws.composeFileList == old(ws.composeFileList)
  {
    var apps := tree.config.value.applications;
    ghost var doc0 := ws.customProvisionYml;
    ghost var log0 := rt.issued;
    ghost var m0 := Marked(doc0);
    for i := 0 to |apps|
      invariant rt.issued == log0 + CustomCommands(m0, apps[..i], tree)
      invariant ws.customProvisionYml == Recorded(doc0, Marks(m0, apps[..i], tree))
      invariant ws.commoditiesYml == old(ws.commoditiesYml) && ws.composeFileList == old(ws.composeFileList)
    {
      ghost var doc1 := ws.customProvisionYml;
      ghost var log1 := rt.issued;
      ProvisionApp(rt, ws, tree, apps[i].name);
      ProvisionStep(doc0, doc1, ws.customProvisionYml, log0, log1, rt.issued, apps, i, tree);
    }
    assert apps[..|apps|] == apps;
  }
}

/**
 * scripts/commodities.py: which applications need which commodities, the global commodity
 * list written to .commodities.yml, and the persisted table app -> commodity -> provisioned.
 */
module Commodities {
  import opened Wrappers
  import opened Seqs
  import opened Env

  /**
   * The `commodities` list of an application's configuration.yml; None when the file is
   * missing, empty, or has no such key.
   */
  function Declared(tree: Tree, app: string): Option<seq<string>> {
    if app in tree.appConfigs then tree.appConfigs[app].commodities else None
  }

  predicate Declares(tree: Tree, app: string, commodity: string) {
    Declared(tree, app).Some? && commodity in Declared(tree, app).value
  }

  /** commodity_required: an empty or missing configuration requires nothing. */
  function CommodityRequired(tree: Tree, app: string, commodity: string): (r: bool)
    ensures r <==> Declares(tree, app, commodity)
  {
    if app !in tree.appConfigs then false
    else
      var deps := tree.appConfigs[app];
      if deps == AppConfig(None, None) then false
      else deps.commodities.Some? && commodity in deps.commodities.value
  }

  /** container_to_commodity: the openldap container provides the `auth` commodity. */
  function ContainerToCommodity(container: string): (r: string)
    ensures container == "openldap" ==> r == "auth"
    ensures container != "openldap" ==> r == container
    ensures r == "auth" <==> container == "openldap" || container == "auth"
  {
    if container == "openldap" then "auth" else container
  }

  // ---------------------------------------------------------------- which_app_needs_what

  /** One entry of `app_to_commodity_map`, in the order the applications were visited. */
  datatype Need = Need(app: string, commodities: seq<string>)

  /**
   * The map which_app_needs_what builds over `apps`. The entry of an application is created
   * by its first commodity (`setdefault`), so one declaring an empty list gets none.
   */
  function NeedsOf(apps: seq<App>, tree: Tree): seq<Need>
    decreases |apps|
  {
    if apps == [] then []
    else
      var init := NeedsOf(apps[..|apps| - 1], tree);
      var name := apps[|apps| - 1].name;
      var d := Declared(tree, name);
      if d.Some? && d.value != [] then init + [Need(name, d.value)] else init
  }

  /** Every commodity of every entry, in visiting order, before deduplication. */
  function Flatten(needs: seq<Need>): seq<string>
    decreases |needs|
  {
    if needs == [] then [] else Flatten(needs[..|needs| - 1]) + needs[|needs| - 1].commodities
  }

  /** `list(set(xs))`: every element of xs exactly once. */
  function Dedup(xs: seq<string>): (r: seq<string>)
    ensures Distinct(r)
    ensures forall x :: x in r <==> x in xs
    decreases |xs|
  {
    if xs == [] then []
    else
      var d := Dedup(xs[..|xs| - 1]);
      var x := xs[|xs| - 1];
      assert xs == xs[..|xs| - 1] + [x];
      if x in d then d else (DistinctSnoc(d, x); d + [x])
  }

  predicate Lists(needs: seq<Need>, app: string) {
    exists k :: 0 <= k < |needs| && needs[k].app == app
  }

  predicate Wants(needs: seq<Need>, app: string, commodity: string) {
    exists k :: 0 <= k < |needs| && needs[k].app == app && commodity in needs[k].commodities
  }

  lemma ListsSnoc(needs: seq<Need>)
    requires needs != []
    ensures forall a :: Lists(needs, a) <==> Lists(needs[..|needs| - 1], a) || a == needs[|needs| - 1].app
  {
    var init := needs[..|needs| - 1];
    forall a ensures Lists(needs, a) <==> Lists(init, a) || a == needs[|needs| - 1].app {
      if Lists(needs, a) {
        var k :| 0 <= k < |needs| && needs[k].app == a;
        if k < |init| { assert init[k].app == a; }
      }
      if Lists(init, a) {
        var k :| 0 <= k < |init| && init[k].app == a;
        assert needs[k].app == a;
      }
    }
  }

  lemma WantsSnoc(needs: seq<Need>)
    requires needs != []
    ensures forall a, c :: Wants(needs, a, c) <==>
      Wants(needs[..|needs| - 1], a, c) || (a == needs[|needs| - 1].app && c in needs[|needs| - 1].commodities)
  {
    var init := needs[..|needs| - 1];
    forall a, c ensures Wants(needs, a, c) <==>
      Wants(init, a, c) || (a == needs[|needs| - 1].app && c in needs[|needs| - 1].commodities)
    {
      if Wants(needs, a, c) {
        var k :| 0 <= k < |needs| && needs[k].app == a && c in needs[k].commodities;
        if k < |init| { assert init[k] == needs[k]; }
      }
      if Wants(init, a, c) {
        var k :| 0 <= k < |init| && init[k].app == a && c in init[k].commodities;
        assert needs[k] == init[k];
      }
    }
  }

  /**
   * An application has an entry iff it is configured and declares a non-empty list, and the
   * entry pairs it exactly with what it declares.
   */
  lemma {:induction false} NeedsOfSpec(apps: seq<App>, tree: Tree)
    ensures var needs := NeedsOf(apps, tree);
      (forall a :: Lists(needs, a) <==>
        Configured(apps, a) && Declared(tree, a).Some? && Declared(tree, a).value != []) &&
      (forall a, c :: Wants(needs, a, c) <==> Configured(apps, a) && Declares(tree, a, c))
    decreases |apps|
  {
    if apps != [] {
      var init := apps[..|apps| - 1];
      var name := apps[|apps| - 1].name;
      NeedsOfSpec(init, tree);
      var pre := NeedsOf(init, tree);
      var needs := NeedsOf(apps, tree);
      forall a ensures Configured(apps, a) <==> Configured(init, a) || a == name {
        if Configured(apps, a) {
          var i :| 0 <= i < |apps| && apps[i].name == a;
          if i < |apps| - 1 { assert init[i].name == a; }
        }
        if Configured(init, a) {
          var i :| 0 <= i < |init| && init[i].name == a;
          assert apps[i].name == a;
        }
        if a == name { assert apps[|apps| - 1].name == a; }
      }
      var d := Declared(tree, name);
      if d.Some? && d.value != [] {
        assert needs == pre + [Need(name, d.value)];
        assert needs[..|needs| - 1] == pre;
        ListsSnoc(needs);
        WantsSnoc(needs);
      } else {
        assert needs == pre;
      }
    }
  }

  lemma {:induction false} FlattenMembers(needs: seq<Need>)
    ensures forall c :: c in Flatten(needs) <==> exists k :: 0 <= k < |needs| && c in needs[k].commodities
    decreases |needs|
  {
    if needs != [] {
      var init := needs[..|needs| - 1];
      FlattenMembers(init);
      forall c ensures c in Flatten(needs) <==> exists k :: 0 <= k < |needs| && c in needs[k].commodities {
        if exists k :: 0 <= k < |needs| && c in needs[k].commodities {
          var k :| 0 <= k < |needs| && c in needs[k].commodities;
          if k < |init| { assert c in init[k].commodities; }
        }
        if c in Flatten(init) {
          var k :| 0 <= k < |init| && c in init[k].commodities;
          assert c in needs[k].commodities;
        }
      }
    }
  }

  /** which_app_needs_what, accumulating the flat list and the map in one pass. */
  method WhichAppNeedsWhat(tree: Tree, config: EnvConfig) returns (commodities: seq<string>, needs: seq<Need>)
    ensures needs == NeedsOf(config.applications, tree)
    ensures commodities == Dedup(Flatten(needs))
  {
    var apps := config.applications;
    var declared: seq<string> := [];
    needs := [];
    for i := 0 to |apps|
      invariant needs == NeedsOf(apps[..i], tree)
      invariant declared == Flatten(needs)
    {
      assert apps[..i + 1][..i] == apps[..i];
      var name := apps[i].name;
      if name in tree.appConfigs && tree.appConfigs[name].commodities.Some? {
        var cs := tree.appConfigs[name].commodities.value;
        var mine: seq<string> := [];
        for j := 0 to |cs|
          invariant mine == cs[..j]
          invariant declared == Flatten(needs) + mine
        {
          AppendAssoc(Flatten(needs), mine, [cs[j]]);
          assert cs[..j + 1] == cs[..j] + [cs[j]];
          declared := declared + [cs[j]];
          mine := mine + [cs[j]];
        }
        assert cs[..|cs|] == cs;
        if mine != [] {
          assert (needs + [Need(name, mine)])[..|needs|] == needs;
          needs := needs + [Need(name, mine)];
        }
      }
    }
    assert apps[..|apps|] == apps;
    commodities := Dedup(declared);
  }

  /** The global list holds each commodity some configured application declares, once. */
  lemma GlobalList(apps: seq<App>, tree: Tree)
    ensures var r := Dedup(Flatten(NeedsOf(apps, tree)));
      Distinct(r) && forall c :: c in r <==> exists a :: Configured(apps, a) && Declares(tree, a, c)
  {
    var needs := NeedsOf(apps, tree);
    NeedsOfSpec(apps, tree);
    FlattenMembers(needs);
    forall c ensures c in Flatten(needs) <==> exists a :: Configured(apps, a) && Declares(tree, a, c) {
      if c in Flatten(needs) {
        var k :| 0 <= k < |needs| && c in needs[k].commodities;
        assert Wants(needs, needs[k].app, c);
      }
      if exists a :: Configured(apps, a) && Declares(tree, a, c) {
        var a :| Configured(apps, a) && Declares(tree, a, c);
        assert Wants(needs, a, c);
      }
    }
  }

  /** create_commodities_list forces `logging` into the global list, appending it only when absent. */
  function WithLogging(commodities: seq<string>): (r: seq<string>)
    ensures forall c :: c in r <==> c in commodities || c == "logging"
    ensures IsPrefix(commodities, r) && |r| <= |commodities| + 1
    ensures Distinct(commodities) ==> Distinct(r)
  {
    if "logging" in commodities then commodities
    else (LoggingSnoc(commodities); PrefixOfAppend(commodities, ["logging"]); commodities + ["logging"])
  }

  lemma LoggingSnoc(commodities: seq<string>)
    requires "logging" !in commodities
    ensures Distinct(commodities) ==> Distinct(commodities + ["logging"])
  {
    if Distinct(commodities) {
      DistinctSnoc(commodities, "logging");
    }
  }

  // ---------------------------------------------------------------- add_missing_pairings

  type Table = map<string, map<string, bool>>

  /** Adds the entry of `app` (empty when absent) and each of `cs` it lacks, as false. */
  function PairApp(t: Table, app: string, cs: seq<string>): (r: Table)
    ensures app in r
    decreases |cs|
  {
    if cs == [] then (if app in t then t else t[app := map[]])
    else
      var p := PairApp(t, app, cs[..|cs| - 1]);
      var c := cs[|cs| - 1];
      if c in p[app] then p else p[app := p[app][c := false]]
  }

  /** The table after add_missing_pairings over the entries of `needs`, in order. */
  function Paired(t: Table, needs: seq<Need>): Table
    decreases |needs|
  {
    if needs == [] then t
    else
      var last := needs[|needs| - 1];
      PairApp(Paired(t, needs[..|needs| - 1]), last.app, last.commodities)
  }

  lemma {:induction false} PairAppSpec(t: Table, app: string, cs: seq<string>)
    ensures var r := PairApp(t, app, cs);
      r.Keys == t.Keys + {app} &&
      (forall a :: a in t && a != app ==> r[a] == t[a]) &&
      (forall c :: c in r[app] <==> (app in t && c in t[app]) || c in cs) &&
      (forall c :: c in r[app] ==> r[app][c] == if app in t && c in t[app] then t[app][c] else false)
    decreases |cs|
  {
    if cs != [] {
      var init := cs[..|cs| - 1];
      PairAppSpec(t, app, init);
      assert cs == init + [cs[|cs| - 1]];
    }
  }

  /**
   * add_missing_pairings: afterwards every pair of the map is in the table, a new pair is
   * false, a pair already there keeps its value, and an application the map does not list
   * keeps its row; nothing is removed.
   */
  lemma {:induction false} PairedSpec(t: Table, needs: seq<Need>)
    ensures var r := Paired(t, needs);
      (forall a :: a in r <==> a in t || Lists(needs, a)) &&
      (forall a, c :: a in r ==> (c in r[a] <==> (a in t && c in t[a]) || Wants(needs, a, c))) &&
      (forall a, c :: a in r && c in r[a] ==> r[a][c] == if a in t && c in t[a] then t[a][c] else false) &&
      (forall a :: a in t && !Lists(needs, a) ==> r[a] == t[a])
    decreases |needs|
  {
    if needs != [] {
      var init := needs[..|needs| - 1];
      var last := needs[|needs| - 1];
      PairedSpec(t, init);
      var p := Paired(t, init);
      PairAppSpec(p, last.app, last.commodities);
      ListsSnoc(needs);
      WantsSnoc(needs);
    }
  }

  /** add_missing_pairings is idempotent: a second call with the same map changes nothing. */
  lemma PairedIdempotent(t: Table, needs: seq<Need>)
    ensures Paired(Paired(t, needs), needs) == Paired(t, needs)
  {
    var r1 := Paired(t, needs);
    var r2 := Paired(r1, needs);
    PairedSpec(t, needs);
    PairedSpec(r1, needs);
    forall a | a in r1 ensures r2[a] == r1[a] {
      assert r2[a].Keys == r1[a].Keys;
    }
    assert r2.Keys == r1.Keys;
  }

  /** The in-memory `commodity_file` dict that create_commodities_list edits before dumping it. */
  class CommodityTable {
    var version: string
    var commodities: seq<string>
    var applications: Table

    constructor (doc: CommodityDoc)
      ensures Doc() == doc
    {
      version := doc.version;
      commodities := doc.commodities;
      applications := doc.applications;
    }

    function Doc(): CommodityDoc
      reads this
    {
      CommodityDoc(version, commodities, applications)
    }

    method AddMissingPairings(needs: seq<Need>)
      modifies this
      ensures Doc() == old(Doc()).(applications := Paired(old(applications), needs))
    {
      ghost var t0 := applications;
      for i := 0 to |needs|
        invariant applications == Paired(t0, needs[..i])
        invariant version == old(version) && commodities == old(commodities)
      {
        assert needs[..i + 1][..i] == needs[..i];
        var app := needs[i].app;
        var cs := needs[i].commodities;
        ghost var before := applications;
        if app !in applications {
          applications := applications[app := map[]];
        }
        for j := 0 to |cs|
          invariant applications == PairApp(before, app, cs[..j])
          invariant version == old(version) && commodities == old(commodities)
        {
          assert cs[..j + 1][..j] == cs[..j];
          if cs[j] !in applications[app] {
            applications := applications[app := applications[app][cs[j] := false]];
          }
        }
        assert cs[..|cs|] == cs;
      }
      assert needs[..|needs|] == needs;
    }
  }

  // ---------------------------------------------------------------- the persisted file

  /** get_commodity_file: the stored document, or a fresh version-2 one with nothing in it. */
  function CommodityFile(stored: Option<CommodityDoc>): (r: CommodityDoc)
    ensures stored.None? ==> r == CommodityDoc("2", [], map[])
    ensures stored.Some? ==> r == stored.value
  {
    if stored.Some? then stored.value else CommodityDoc("2", [], map[])
  }

  /** The document create_commodities_list writes. */
  function Rebuilt(stored: Option<CommodityDoc>, config: EnvConfig, tree: Tree): CommodityDoc {
    var needs := NeedsOf(config.applications, tree);
    var doc := CommodityFile(stored);
    CommodityDoc(doc.version, WithLogging(Dedup(Flatten(needs))), Paired(doc.applications, needs))
  }

  /**
   * After create_commodities_list the global list is duplicate-free, holds `logging` and
   * exactly the declared commodities besides; every declared pair is in the table; stored
   * pairs keep their values; a freshly created file has version 2 and only false entries.
   */
  lemma RebuiltSpec(stored: Option<CommodityDoc>, config: EnvConfig, tree: Tree)
    ensures var r := Rebuilt(stored, config, tree);
      var apps := config.applications;
      Distinct(r.commodities) &&
      (forall c :: c in r.commodities <==> c == "logging" || exists a :: Configured(apps, a) && Declares(tree, a, c)) &&
      (forall a, c :: Configured(apps, a) && Declares(tree, a, c) ==> a in r.applications && c in r.applications[a]) &&
      (stored.Some? ==> (r.version == stored.value.version &&
        forall a, c :: a in stored.value.applications && c in stored.value.applications[a] ==>
          a in r.applications && c in r.applications[a] && r.applications[a][c] == stored.value.applications[a][c])) &&
      (stored.None? ==> (r.version == "2" &&
        forall a, c :: a in r.applications && c in r.applications[a] ==> !r.applications[a][c]))
  {
    var needs := NeedsOf(config.applications, tree);
    GlobalList(config.applications, tree);
    NeedsOfSpec(config.applications, tree);
    PairedSpec(CommodityFile(stored).applications, needs);
  }

  /** The name is in the stored global commodity list (`commodity`). */
  predicate IsCommodity(ws: Workspace, name: string): (r: bool)
    reads ws
    ensures ws.commoditiesYml.None? ==> !r
    ensures ws.commoditiesYml.Some? ==> (r <==> name in ws.commoditiesYml.value.commodities)
  {
    ws.commoditiesYml.Some? && name in ws.commoditiesYml.value.commodities
  }

  /** The body of create_commodities_list once the configuration is loaded. */
  method RebuildCommodityFile(stored: Option<CommodityDoc>, config: EnvConfig, tree: Tree) returns (doc: CommodityDoc)
    ensures doc == Rebuilt(stored, config, tree)
  {
    var commodities, needs := WhichAppNeedsWhat(tree, config);
    if "logging" !in commodities {
      commodities := commodities + ["logging"];
    }
    var table := new CommodityTable(CommodityFile(stored));
    table.commodities := commodities;
    table.AddMissingPairings(needs);
    doc := table.Doc();
  }

  /** create_commodities_list; false is the exit(1) taken when the configuration is missing. */
  method CreateCommoditiesList(ws: Workspace, tree: Tree) returns (ok: bool)
    modifies ws
    ensures ok <==> tree.config.Some?
    ensures ok ==> ws.commoditiesYml == Some(Rebuilt(old(ws.commoditiesYml), tree.config.value, tree))
    ensures ok ==> IsCommodity(ws, "logging")
    ensures ok ==> forall c :: IsCommodity(ws, c) <==>
      c == "logging" || exists a :: Configured(tree.config.value.applications, a) && Declares(tree, a, c)
    ensures !ok ==> ws.commoditiesYml == old(ws.commoditiesYml)
    ensures ws.customProvisionYml == old(ws.customProvisionYml) && ws.composeFileList == old(ws.composeFileList)
  {
    if tree.config.None? {
      return false;
    }
    RebuiltSpec(ws.commoditiesYml, tree.config.value, tree);
    var doc := RebuildCommodityFile(ws.commoditiesYml, tree.config.value, tree);
    ws.commoditiesYml := Some(doc);
    ok := true;
  }

  // ---------------------------------------------------------------- single entries

  predicate HasPair(doc: CommodityDoc, app: string, commodity: string) {
    app in doc.applications && commodity in doc.applications[app]
  }

  /** commodity_provisioned; the source raises KeyError for a pair not in the table. */
  function CommodityProvisioned(ws: Workspace, app: string, commodity: string): (r: bool)
    reads ws
    requires ws.commoditiesYml.Some? && HasPair(ws.commoditiesYml.value, app, commodity)
    ensures WithStatus(ws.commoditiesYml.value, app, commodity, r) == ws.commoditiesYml.value
  {
    var row := ws.commoditiesYml.value.applications[app];
    assert row[commodity := row[commodity]] == row;
    row[commodity]
  }

  /** The document after `applications[app][commodity] = status`. */
  function WithStatus(doc: CommodityDoc, app: string, commodity: string, status: bool): CommodityDoc
    requires app in doc.applications
  {
    doc.(applications := doc.applications[app := doc.applications[app][commodity := status]])
  }

  /** Reading a pair after setting it gives the value set; every other pair is untouched. */
  lemma StatusGetAfterSet(doc: CommodityDoc, app: string, commodity: string, status: bool)
    requires app in doc.applications
    ensures var r := WithStatus(doc, app, commodity, status);
      HasPair(r, app, commodity) && r.applications[app][commodity] == status &&
      r.version == doc.version && r.commodities == doc.commodities &&
      (forall a, c :: (a, c) != (app, commodity) ==>
        (HasPair(r, a, c) <==> HasPair(doc, a, c)) &&
        (HasPair(doc, a, c) ==> r.applications[a][c] == doc.applications[a][c]))
  {
  }

  /** set_commodity_provision_status; the source raises KeyError for an app not in the table. */
  method SetCommodityProvisionStatus(ws: Workspace, app: string, commodity: string, status: bool)
    requires ws.commoditiesYml.Some? && app in ws.commoditiesYml.value.applications
    modifies ws
    ensures ws.commoditiesYml == Some(WithStatus(old(ws.commoditiesYml.value), app, commodity, status))
    ensures CommodityProvisioned(ws, app, commodity) == status
    ensures ws.customProvisionYml == old(ws.customProvisionYml) && ws.composeFileList == old(ws.composeFileList)
  {
    var doc := ws.commoditiesYml.value;
    ws.commoditiesYml := Some(WithStatus(doc, app, commodity, status));
  }
}

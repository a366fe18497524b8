/**
 * scripts/docker_compose.py: choosing each application's compose fragment (the default one
 * or a configured variant) and writing the list of fragment paths docker compose loads.
 * Paths are joined with "/".
 */
module Compose {
  import opened Wrappers
  import opened Seqs
  import opened Env

  // ---------------------------------------------------------------- file names

  /** fragment_filename: the default fragment for None, `compose-fragment.<v>.yml` otherwise. */
  function FragmentFilename(variant: Option<string>): (r: string)
    ensures variant.None? ==> r == "compose-fragment.yml"
    ensures variant.Some? ==> r == "compose-fragment." + variant.value + ".yml"
  {
    if variant.None? then "compose-fragment.yml" else "compose-fragment." + variant.value + ".yml"
  }

  /**
   * The lazy group of `(.*?)\.yml` matched from index k of `rest`: the first index at or
   * after k where ".yml" occurs, provided no newline comes before it (`.` does not match one).
   */
  function LazyCapture(rest: string, k: nat): (r: Option<nat>)
    requires k <= |rest|
    ensures r.Some? ==> (k <= r.value && OccursAt(rest, ".yml", r.value) &&
      forall j :: k <= j < r.value ==> !OccursAt(rest, ".yml", j) && rest[j] != '\n')
    ensures r.None? ==> forall j :: k <= j && OccursAt(rest, ".yml", j) ==>
      exists i :: k <= i < j && rest[i] == '\n'
    decreases |rest| - k
  {
    if OccursAt(rest, ".yml", k) then Some(k)
    else if k < |rest| && rest[k] != '\n' then LazyCapture(rest, k + 1)
    else None
  }

  /** `re.match(r'compose-fragment\.(.*?)\.yml', basename)`, giving group 1 on a match. */
  function MatchVariant(basename: string): (r: Option<string>)
    ensures r.Some? ==> IsPrefix("compose-fragment." + r.value + ".yml", basename) && '\n' !in r.value
  {
    var prefix := "compose-fragment.";
    if !IsPrefix(prefix, basename) then None
    else
      var rest := basename[|prefix|..];
      var k := LazyCapture(rest, 0);
      if k.None? then None
      else
        var v := rest[..k.value];
        assert basename == prefix + rest;
        assert rest[k.value..k.value + 4] == ".yml";
        assert ("compose-fragment." + v + ".yml") == basename[..|prefix| + k.value + 4];
        assert forall j :: 0 <= j < |v| ==> v[j] == rest[j];
        Some(v)
  }

  /** The `variant` of the named application in the environment configuration. */
  function VariantOf(config: EnvConfig, app: string): Option<string> {
    VariantIn(config.applications, app)
  }

  function VariantIn(apps: seq<App>, name: string): Option<string>
    decreases |apps|
  {
    if apps == [] then None
    else if apps[0].name == name then apps[0].variant
    else VariantIn(apps[1..], name)
  }

  /** validate_variant_fragment_filename: the captured variant, when it is the configured one. */
  function ValidateVariantFragmentFilename(config: EnvConfig, app: string, basename: string): (r: Option<string>)
    ensures r.Some? ==> r == VariantOf(config, app) && IsPrefix(FragmentFilename(r), basename)
    ensures VariantOf(config, app).None? ==> r.None?
  {
    var m := MatchVariant(basename);
    if m.Some? && VariantOf(config, app) == m then m else None
  }

  /**
   * Round trip: for a variant without newline and without ".yml", validating the file name
   * fragment_filename builds for it gives the variant back exactly when it is the configured
   * one.
   */
  lemma ValidateFragmentFilename(config: EnvConfig, app: string, v: string)
    requires '\n' !in v && forall j :: !OccursAt(v, ".yml", j)
    ensures ValidateVariantFragmentFilename(config, app, FragmentFilename(Some(v))) ==
      if VariantOf(config, app) == Some(v) then Some(v) else None
  {
    var name := FragmentFilename(Some(v));
    var prefix := "compose-fragment.";
    assert IsPrefix(prefix, name);
    var rest := name[|prefix|..];
    assert rest == v + ".yml";
    assert OccursAt(rest, ".yml", |v|);
    forall j | 0 <= j < |v| ensures !OccursAt(rest, ".yml", j) && rest[j] != '\n' {
      assert rest[j] == v[j];
      if j + 4 <= |v| {
        assert rest[j..j + 4] == v[j..j + 4];
        assert !OccursAt(v, ".yml", j);
      } else {
        assert rest[j..j + 4][|v| - j] == rest[|v|] == '.';
        assert ".yml"[|v| - j] != '.';
        assert rest[j..j + 4] != ".yml";
      }
    }
    var k := LazyCapture(rest, 0);
    assert k.value == |v|;
    assert rest[..|v|] == v;
  }

  /** A docker compose file format version's priority: unversioned, then 3.7, then 2. */
  function VersionRank(version: string): nat {
    if version == "unversioned" then 3 else if version == "3.7" then 2 else if version == "2" then 1 else 0
  }

  /**
   * highest_version: the argument of higher priority, or None when neither is a known
   * version. The contract does not depend on the order of the arguments.
   */
  function HighestVersion(a: string, b: string): (r: Option<string>)
    ensures r.None? <==> VersionRank(a) == 0 && VersionRank(b) == 0
    ensures r.Some? ==> (r.value == a || r.value == b) &&
                        VersionRank(r.value) == (if VersionRank(a) >= VersionRank(b) then VersionRank(a) else VersionRank(b))
  {
    if a == "unversioned" || b == "unversioned" then Some("unversioned")
    else if a == "3.7" || b == "3.7" then Some("3.7")
    else if a == "2" || b == "2" then Some("2")
    else None
  }

  // ---------------------------------------------------------------- find_active_variants

  /** The names in an application's fragments directory, in listing order. */
  function Listing(tree: Tree, app: string): seq<string> {
    if app in tree.fragments then tree.fragments[app] else []
  }

  /** A listed file that selects a variant: `compose-fragment.*.yml`, not the default, and valid. */
  predicate Selects(config: EnvConfig, app: string, basename: string) {
    basename != "compose-fragment.yml" && IsPrefix("compose-fragment.", basename) &&
    IsSuffix(".yml", basename) && ValidateVariantFragmentFilename(config, app, basename).Some?
  }

  /** Some name among the first `n` passes `p`. */
  predicate PassesBefore(p: string -> bool, files: seq<string>, n: nat)
    requires n <= |files|
  {
    n > 0 && (PassesBefore(p, files, n - 1) || p(files[n - 1]))
  }

  /** Some name among the first `n` passes `p` iff one of them does. */
  lemma {:induction false} PassesBeforeSpec(p: string -> bool, files: seq<string>, n: nat)
    requires n <= |files|
    ensures PassesBefore(p, files, n) <==> exists j :: 0 <= j < n && p(files[j])
  {
    if n > 0 {
      PassesBeforeSpec(p, files, n - 1);
      if exists j :: 0 <= j < n && p(files[j]) {
        var j :| 0 <= j < n && p(files[j]);
        if j < n - 1 {
          assert PassesBefore(p, files, n - 1);
        }
      }
    }
  }

  /** The test a listed file passes when it selects a variant. */
  function Selector(config: EnvConfig, app: string): string -> bool {
    basename => Selects(config, app, basename)
  }

  predicate AnySelects(config: EnvConfig, app: string, files: seq<string>) {
    PassesBefore(Selector(config, app), files, |files|)
  }

  /** A variant is selected from a listing iff one of its files selects it. */
  lemma AnySelectsSpec(config: EnvConfig, app: string, files: seq<string>)
    ensures AnySelects(config, app, files) <==> exists j :: 0 <= j < |files| && Selects(config, app, files[j])
  {
    PassesBeforeSpec(Selector(config, app), files, |files|);
    if exists j :: 0 <= j < |files| && Selects(config, app, files[j]) {
      var j :| 0 <= j < |files| && Selects(config, app, files[j]);
      assert Selector(config, app)(files[j]);
    }
  }

  /** Only a configured variant is ever selected. */
  lemma AnySelectsConfigured(config: EnvConfig, app: string, files: seq<string>)
    ensures AnySelects(config, app, files) ==> VariantOf(config, app).Some?
  {
    AnySelectsSpec(config, app, files);
  }

  /** The map find_active_variants fills while visiting `apps` in order. */
  function ActiveVariants(apps: seq<App>, config: EnvConfig, tree: Tree): map<string, string>
    decreases |apps|
  {
    if apps == [] then map[]
    else
      var m := ActiveVariants(apps[..|apps| - 1], config, tree);
      var name := apps[|apps| - 1].name;
      AnySelectsConfigured(config, name, Listing(tree, name));
      if AnySelects(config, name, Listing(tree, name)) then m[name := VariantOf(config, name).value] else m
  }

  /**
   * An application gets a variant iff it is configured and one of its fragment files
   * validates; the variant is then the configured one.
   */
  lemma {:induction false} ActiveVariantsSpec(apps: seq<App>, config: EnvConfig, tree: Tree)
    ensures var r := ActiveVariants(apps, config, tree);
      forall a :: (a in r <==> Configured(apps, a) && AnySelects(config, a, Listing(tree, a))) &&
        (a in r ==> VariantOf(config, a) == Some(r[a]))
    decreases |apps|
  {
    if apps != [] {
      var init := apps[..|apps| - 1];
      var name := apps[|apps| - 1].name;
      ActiveVariantsSpec(init, config, tree);
      AnySelectsConfigured(config, name, Listing(tree, name));
      forall a ensures Configured(apps, a) <==> Configured(init, a) || a == name {
        if Configured(apps, a) {
          var i :| 0 <= i < |apps| && apps[i].name == a;
          if i < |init| { assert init[i].name == a; }
        }
        if Configured(init, a) {
          var i :| 0 <= i < |init| && init[i].name == a;
          assert apps[i].name == a;
        }
        if a == name { assert apps[|apps| - 1].name == a; }
      }
    }
  }

  /** One application's pass over its fragments directory listing in find_active_variants. */
  method SelectVariant(config: EnvConfig, name: string, files: seq<string>, before: map<string, string>)
    returns (variants: map<string, string>)
    ensures AnySelects(config, name, files) ==> VariantOf(config, name).Some? && variants == before[name := VariantOf(config, name).value]
    ensures !AnySelects(config, name, files) ==> variants == before
  {
    variants := before;
    for j := 0 to |files|
      invariant PassesBefore(Selector(config, name), files, j) ==>
        VariantOf(config, name).Some? && variants == before[name := VariantOf(config, name).value]
      invariant !PassesBefore(Selector(config, name), files, j) ==> variants == before
    {
      var basename := files[j];
      if basename == "compose-fragment.yml" {
        // the default fragment: only reported as found
        assert !Selector(config, name)(basename);
      } else if IsPrefix("compose-fragment.", basename) && IsSuffix(".yml", basename) {
        var v := ValidateVariantFragmentFilename(config, name, basename);
        if v.Some? {
          assert Selector(config, name)(basename);
          variants := variants[name := v.value];
        } else {
          assert !Selector(config, name)(basename);
        }
      } else {
        assert !Selector(config, name)(basename);
      }
    }
  }

  /** find_active_variants; the source opens the configuration without checking it exists. */
  method FindActiveVariants(tree: Tree) returns (variants: map<string, string>)
    requires tree.config.Some?
    ensures variants == ActiveVariants(tree.config.value.applications, tree.config.value, tree)
  {
    var config := tree.config.value;
    var apps := config.applications;
    variants := map[];
    for i := 0 to |apps|
      invariant variants == ActiveVariants(apps[..i], config, tree)
    {
      assert apps[..i + 1][..i] == apps[..i];
      var name := apps[i].name;
      variants := SelectVariant(config, name, Listing(tree, name), variants);
    }
    assert apps[..|apps|] == apps;
  }

  // ---------------------------------------------------------------- get_apps / prepare_compose

  function AppFragmentPath(root: string, app: string, basename: string): string {
    root + "/apps/" + app + "/fragments/" + basename
  }

  function RootFragment(root: string): string {
    root + "/apps/root-compose-fragment.yml"
  }

  function CommodityFragment(root: string, commodity: string): string {
    root + "/scripts/docker/" + commodity + "/compose-fragment.yml"
  }

  /**
   * The fragment get_apps takes for one application: the selected variant's file when the
   * application has a variant, else the default file; None when that file is missing. There
   * is no fallback from a missing variant file to the default one.
   */
  function AppFragment(tree: Tree, variants: map<string, string>, app: string): (r: Option<string>)
    ensures r.Some? ==> FragmentExists(tree, app, r.value)
    ensures app in variants ==> r.None? || r.value == FragmentFilename(Some(variants[app]))
    ensures app !in variants ==> r.None? || r.value == "compose-fragment.yml"
    ensures r.None? ==> !FragmentExists(tree, app, if app in variants then FragmentFilename(Some(variants[app])) else "compose-fragment.yml")
  {
    var basename := if app in variants then FragmentFilename(Some(variants[app])) else "compose-fragment.yml";
    if FragmentExists(tree, app, basename) then Some(basename) else None
  }

  /** The paths get_apps appends for `apps`, in order, at most one per application. */
  function AppFragments(root: string, apps: seq<App>, tree: Tree, variants: map<string, string>): (r: seq<string>)
    ensures |r| <= |apps|
    decreases |apps|
  {
    if apps == [] then []
    else
      var m := AppFragments(root, apps[..|apps| - 1], tree, variants);
      var name := apps[|apps| - 1].name;
      var f := AppFragment(tree, variants, name);
      if f.Some? then m + [AppFragmentPath(root, name, f.value)] else m
  }

  /** The path get_apps takes for one application. */
  predicate TakesPath(root: string, tree: Tree, variants: map<string, string>, app: string, path: string) {
    AppFragment(tree, variants, app).Some? && path == AppFragmentPath(root, app, AppFragment(tree, variants, app).value)
  }

  /** Some application of `apps` contributes `path`. */
  predicate FromApps(root: string, tree: Tree, variants: map<string, string>, apps: seq<App>, path: string) {
    exists i :: 0 <= i < |apps| && TakesPath(root, tree, variants, apps[i].name, path)
  }

  /** Every path get_apps appends is the fragment of a configured application. */
  lemma {:induction false} AppFragmentsFrom(root: string, apps: seq<App>, tree: Tree, variants: map<string, string>)
    ensures forall k :: 0 <= k < |AppFragments(root, apps, tree, variants)| ==>
      FromApps(root, tree, variants, apps, AppFragments(root, apps, tree, variants)[k])
    decreases |apps|
  {
    if apps != [] {
      var init := apps[..|apps| - 1];
      AppFragmentsFrom(root, init, tree, variants);
      var m := AppFragments(root, init, tree, variants);
      var r := AppFragments(root, apps, tree, variants);
      forall k | 0 <= k < |r| ensures FromApps(root, tree, variants, apps, r[k]) {
        if k < |m| {
          assert r[k] == m[k];
          assert FromApps(root, tree, variants, init, m[k]);
          var i :| 0 <= i < |init| && TakesPath(root, tree, variants, init[i].name, m[k]);
          assert apps[i] == init[i];
        } else {
          assert TakesPath(root, tree, variants, apps[|apps| - 1].name, r[k]);
        }
      }
    }
  }

  /** Every configured application whose fragment exists contributes its path. */
  lemma {:induction false} AppFragmentsCover(root: string, apps: seq<App>, tree: Tree, variants: map<string, string>)
    ensures var r := AppFragments(root, apps, tree, variants);
      forall i :: 0 <= i < |apps| && AppFragment(tree, variants, apps[i].name).Some? ==>
        AppFragmentPath(root, apps[i].name, AppFragment(tree, variants, apps[i].name).value) in r
    decreases |apps|
  {
    if apps != [] {
      var init := apps[..|apps| - 1];
      AppFragmentsCover(root, init, tree, variants);
      var m := AppFragments(root, init, tree, variants);
      var r := AppFragments(root, apps, tree, variants);
      assert forall x :: x in m ==> x in r;
      forall i | 0 <= i < |apps| && AppFragment(tree, variants, apps[i].name).Some?
        ensures AppFragmentPath(root, apps[i].name, AppFragment(tree, variants, apps[i].name).value) in r
      {
        if i < |init| {
          assert apps[i] == init[i];
        }
      }
    }
  }

  /** get_apps, appending to the list it is given; no configuration means nothing is appended. */
  method GetApps(root: string, tree: Tree, variants: map<string, string>, paths: seq<string>) returns (r: seq<string>)
    ensures r == paths + AppFragments(root, Applications(tree), tree, variants)
  {
    r := paths;
    if tree.config.None? {
      return;
    }
    var apps := tree.config.value.applications;
    for i := 0 to |apps|
      invariant r == paths + AppFragments(root, apps[..i], tree, variants)
    {
      assert apps[..i + 1][..i] == apps[..i];
      var name := apps[i].name;
      if name in variants {
        var basename := FragmentFilename(Some(variants[name]));
        if FragmentExists(tree, name, basename) {
          r := r + [AppFragmentPath(root, name, basename)];
        }
      } else {
        if FragmentExists(tree, name, "compose-fragment.yml") {
          r := r + [AppFragmentPath(root, name, "compose-fragment.yml")];
        }
      }
    }
    assert apps[..|apps|] == apps;
  }

  /** The commodities of the stored .commodities.yml, none when it is missing. */
  function StoredCommodities(stored: Option<CommodityDoc>): seq<string> {
    if stored.Some? then stored.value.commodities else []
  }

  function CommodityFragments(root: string, commodities: seq<string>): (r: seq<string>)
    ensures |r| == |commodities|
    ensures forall k :: 0 <= k < |r| ==> r[k] == CommodityFragment(root, commodities[k])
  {
    seq(|commodities|, k requires 0 <= k < |commodities| => CommodityFragment(root, commodities[k]))
  }

  /** The list prepare_compose writes: the root fragment, the app fragments, the commodity fragments. */
  function FragmentList(root: string, tree: Tree, stored: Option<CommodityDoc>): seq<string>
    requires tree.config.Some?
  {
    var variants := ActiveVariants(tree.config.value.applications, tree.config.value, tree);
    [RootFragment(root)] + AppFragments(root, Applications(tree), tree, variants) +
      CommodityFragments(root, StoredCommodities(stored))
  }

  /** The list separator: ";" on Windows, ":" elsewhere. */
  function Separator(windows: bool): char {
    if windows then ';' else ':'
  }

  /** prepare_compose; the platform is a parameter. */
  method PrepareCompose(ws: Workspace, tree: Tree, root: string, windows: bool)
    requires tree.config.Some?
    modifies ws
    ensures ws.composeFileList == Some(Join(FragmentList(root, tree, old(ws.commoditiesYml)), [Separator(windows)]))
    ensures ws.commoditiesYml == old(ws.commoditiesYml) && ws.customProvisionYml == old(ws.customProvisionYml)
  {
    var variants := FindActiveVariants(tree);
    var paths := [RootFragment(root)];
    paths := GetApps(root, tree, variants, paths);
    var commodities := StoredCommodities(ws.commoditiesYml);
    ghost var appPaths := paths;
    for k := 0 to |commodities|
      invariant paths == appPaths + CommodityFragments(root, commodities[..k])
    {
      paths := paths + [CommodityFragment(root, commodities[k])];
    }
    assert commodities[..|commodities|] == commodities;
    ws.composeFileList := Some(Join(paths, [Separator(windows)]));
  }

  // ---------------------------------------------------------------- reading the list back

  /** Splitting a string at every occurrence of `sep`, as docker compose reads the list. */
  function SplitOn(s: string, sep: char): (r: seq<string>)
    ensures r != []
    decreases |s|
  {
    if s == [] then [""]
    else if s[0] == sep then [""] + SplitOn(s[1..], sep)
    else
      var rest := SplitOn(s[1..], sep);
      [[s[0]] + rest[0]] + rest[1..]
  }

  lemma {:induction false} SplitWithout(p: string, sep: char)
    requires sep !in p
    ensures SplitOn(p, sep) == [p]
    decreases |p|
  {
    if p != [] {
      SplitWithout(p[1..], sep);
      assert [p[0]] + p[1..] == p;
    }
  }

  lemma {:induction false} SplitAt(p: string, sep: char, s: string)
    requires sep !in p
    ensures SplitOn(p + [sep] + s, sep) == [p] + SplitOn(s, sep)
    decreases |p|
  {
    if p == [] {
      assert p + [sep] + s == [sep] + s;
      assert ([sep] + s)[1..] == s;
    } else {
      var t := p + [sep] + s;
      assert t[0] == p[0] && t[1..] == p[1..] + [sep] + s;
      SplitAt(p[1..], sep, s);
      assert [p[0]] + p[1..] == p;
    }
  }

  /**
   * The written list reads back as the fragment paths, provided no path contains the
   * separator.
   */
  lemma {:induction false} SplitJoin(parts: seq<string>, sep: char)
    requires parts != [] && forall k :: 0 <= k < |parts| ==> sep !in parts[k]
    ensures SplitOn(Join(parts, [sep]), sep) == parts
    decreases |parts|
  {
    if |parts| == 1 {
      SplitWithout(parts[0], sep);
    } else {
      SplitJoin(parts[1..], sep);
      SplitAt(parts[0], sep, Join(parts[1..], [sep]));
      assert [parts[0]] + parts[1..] == parts;
    }
  }
}

/**
 * The first stage of `--start-apps` in logic.py: splitting the services the compose file
 * defines into disabled ones, expensive ones (queued for the staged start) and the
 * inexpensive batch. Applications are visited in configuration order; for each one its
 * `options` are applied first, then its `expensive_startup` entries.
 */
module ServicePartition {
  import opened Seqs
  import opened Env

  /** The `expensive_startup` list of an app; empty when its configuration or the key is missing. */
  function ExpensiveOf(cfgs: map<string, AppConfig>, name: string): seq<ExpensiveEntry> {
    if name in cfgs && cfgs[name].expensiveStartup.Some? then cfgs[name].expensiveStartup.value else []
  }

  /** The service names of queued entries. */
  function Services(todo: seq<ExpensiveEntry>): (r: seq<string>)
    ensures |r| == |todo| && forall i :: 0 <= i < |todo| ==> r[i] == todo[i].check.composeService
  {
    seq(|todo|, i requires 0 <= i < |todo| => todo[i].check.composeService)
  }

  /** services_to_start and expensive_todo as the loop leaves them. */
  datatype Split = Split(toStart: seq<string>, todo: seq<ExpensiveEntry>)

  /** Each option with auto-start false removes its service from services_to_start, if there. */
  function DisableServices(toStart: seq<string>, options: seq<ServiceOption>): seq<string>
    decreases |options|
  {
    if options == [] then toStart
    else
      var before := DisableServices(toStart, options[..|options| - 1]);
      var o := options[|options| - 1];
      if o.autoStart then before else RemoveFirst(before, o.composeServiceName)
  }

  /** Each expensive entry whose service is still to start is queued and removed from the batch. */
  function ClaimExpensive(s: Split, entries: seq<ExpensiveEntry>): Split
    decreases |entries|
  {
    if entries == [] then s
    else
      var before := ClaimExpensive(s, entries[..|entries| - 1]);
      var e := entries[|entries| - 1];
      var name := e.check.composeService;
      if name in before.toStart then Split(RemoveFirst(before.toStart, name), before.todo + [e])
      else before
  }

  function PartitionApp(s: Split, app: App, cfgs: map<string, AppConfig>): Split {
    ClaimExpensive(Split(DisableServices(s.toStart, app.options), s.todo), ExpensiveOf(cfgs, app.name))
  }

  /** The whole partition: `services` is the output of `config --services`. */
  function Partitioned(apps: seq<App>, cfgs: map<string, AppConfig>, services: seq<string>): Split
    decreases |apps|
  {
    if apps == [] then Split(services, [])
    else PartitionApp(Partitioned(apps[..|apps| - 1], cfgs, services), apps[|apps| - 1], cfgs)
  }

  /** The partition loop of logic.py, over the configuration's applications. */
  method PartitionServices(apps: seq<App>, cfgs: map<string, AppConfig>, services: seq<string>)
    returns (toStart: seq<string>, todo: seq<ExpensiveEntry>)
    ensures Split(toStart, todo) == Partitioned(apps, cfgs, services)
  {
    toStart, todo := services, [];
    for i := 0 to |apps|
      invariant Split(toStart, todo) == Partitioned(apps[..i], cfgs, services)
    {
      var app := apps[i];
      var options := app.options;
      ghost var entry := toStart;
      for j := 0 to |options|
        invariant toStart == DisableServices(entry, options[..j])
      {
        if !options[j].autoStart && options[j].composeServiceName in toStart {
          toStart := RemoveFirst(toStart, options[j].composeServiceName);
        }
        assert options[..j + 1][..j] == options[..j];
      }
      assert options[..|options|] == options;
      var entries := ExpensiveOf(cfgs, app.name);
      ghost var afterOptions := Split(toStart, todo);
      for j := 0 to |entries|
        invariant Split(toStart, todo) == ClaimExpensive(afterOptions, entries[..j])
      {
        var name := entries[j].check.composeService;
        if name in toStart {
          todo := todo + [entries[j]];
          toStart := RemoveFirst(toStart, name);
        }
        assert entries[..j + 1][..j] == entries[..j];
      }
      assert entries[..|entries|] == entries;
      assert apps[..i + 1][..i] == apps[..i];
    }
    assert apps[..|apps|] == apps;
  }

  /** What the partition keeps true when `config --services` lists each service once. */
  ghost predicate Sound(services: seq<string>, s: Split) {
    && Distinct(s.toStart)
    && (forall x :: x in s.toStart ==> x in services)
    && (forall e :: e in s.todo ==> e.check.composeService in services && e.check.composeService !in s.toStart)
    && Distinct(Services(s.todo))
  }

  lemma {:induction false} DisableSound(services: seq<string>, s: Split, options: seq<ServiceOption>)
    requires Sound(services, s)
    ensures var r := DisableServices(s.toStart, options);
      && Sound(services, s.(toStart := r))
      && (forall x :: x in r ==> x in s.toStart)
      && (forall o :: o in options && !o.autoStart ==> o.composeServiceName !in r)
    decreases |options|
  {
    if options != [] {
      var init := options[..|options| - 1];
      DisableSound(services, s, init);
      var before := DisableServices(s.toStart, init);
      var o := options[|options| - 1];
      if !o.autoStart {
        RemoveFirstDistinct(before, o.composeServiceName);
      }
      forall o' | o' in options && !o'.autoStart
        ensures o'.composeServiceName !in DisableServices(s.toStart, options)
      {
        if o' != o { assert o' in init; }
      }
    }
  }

  lemma {:induction false} ClaimSound(services: seq<string>, s: Split, entries: seq<ExpensiveEntry>)
    requires Sound(services, s)
    ensures var r := ClaimExpensive(s, entries);
      && Sound(services, r)
      && (forall x :: x in r.toStart ==> x in s.toStart)
      && (forall x :: x in s.toStart ==> x in r.toStart || x in Services(r.todo))
      && (forall x :: x in Services(s.todo) ==> x in Services(r.todo))
      && IsSubseq(r.todo, s.todo + entries)
    decreases |entries|
  {
    if entries == [] {
      SubseqOfSelf(s.todo);
      assert s.todo + entries == s.todo;
    } else {
      var init := entries[..|entries| - 1];
      ClaimSound(services, s, init);
      var before := ClaimExpensive(s, init);
      var e := entries[|entries| - 1];
      var name := e.check.composeService;
      assert s.todo + entries == (s.todo + init) + [e];
      if name in before.toStart {
        var r := ClaimExpensive(s, entries);
        RemoveFirstDistinct(before.toStart, name);
        assert Services(r.todo) == Services(before.todo) + [name];
        forall e' | e' in r.todo
          ensures e'.check.composeService in services && e'.check.composeService !in r.toStart
        {
          if e' != e { assert e' in before.todo; }
        }
        assert r.todo == before.todo + [e];
        SubseqOfSelf([e]);
        SubseqAppend(before.todo, s.todo + init, [e], [e]);
        forall x | x in Services(s.todo) ensures x in Services(r.todo) {
          assert x in Services(before.todo);
        }
      } else {
        var empty: seq<ExpensiveEntry> := [];
        SubseqPrefixDrop(empty, [e], []);
        SubseqAppend(before.todo, s.todo + init, empty, [e]);
        assert before.todo + empty == before.todo;
      }
    }
  }

  /** A service some app disables with `auto-start: false`. */
  ghost predicate Disabled(apps: seq<App>, x: string) {
    exists i, o :: 0 <= i < |apps| && o in apps[i].options && !o.autoStart && o.composeServiceName == x
  }

  /** Every app's expensive_startup entries, concatenated in configuration order. */
  function AllExpensive(apps: seq<App>, cfgs: map<string, AppConfig>): seq<ExpensiveEntry>
    decreases |apps|
  {
    if apps == [] then [] else AllExpensive(apps[..|apps| - 1], cfgs) + ExpensiveOf(cfgs, apps[|apps| - 1].name)
  }

  /**
   * With each service listed once by `config --services`:
   * the batch and the queue hold no service twice and share none; every queued or batched
   * service is one of the listed ones; no disabled service is in the batch; every listed
   * service is batched, queued or disabled; and the queue keeps configuration order.
   */
  lemma {:induction false} PartitionSound(apps: seq<App>, cfgs: map<string, AppConfig>, services: seq<string>)
    requires Distinct(services)
    ensures var r := Partitioned(apps, cfgs, services);
      && Sound(services, r)
      && (forall i, o :: 0 <= i < |apps| && o in apps[i].options && !o.autoStart ==> o.composeServiceName !in r.toStart)
      && (forall x :: x in services ==> x in r.toStart || x in Services(r.todo) || Disabled(apps, x))
      && IsSubseq(r.todo, AllExpensive(apps, cfgs))
    decreases |apps|
  {
    var r := Partitioned(apps, cfgs, services);
    if apps == [] {
      assert Sound(services, r);
    } else {
      var init := apps[..|apps| - 1];
      var app := apps[|apps| - 1];
      PartitionSound(init, cfgs, services);
      var s := Partitioned(init, cfgs, services);
      var toStart' := DisableServices(s.toStart, app.options);
      DisableSound(services, s, app.options);
      var mid := Split(toStart', s.todo);
      ClaimSound(services, mid, ExpensiveOf(cfgs, app.name));
      forall i, o | 0 <= i < |apps| && o in apps[i].options && !o.autoStart
        ensures o.composeServiceName !in r.toStart
      {
        if i < |apps| - 1 { assert apps[i] == init[i]; }
      }
      forall x | x in services
        ensures x in r.toStart || x in Services(r.todo) || Disabled(apps, x)
      {
        if Disabled(init, x) {
          var i, o :| 0 <= i < |init| && o in init[i].options && !o.autoStart && o.composeServiceName == x;
          assert apps[i] == init[i];
        } else if x in s.toStart && x !in toStart' {
          var o :| o in app.options && !o.autoStart && o.composeServiceName == x by {
            DisableMissing(s.toStart, app.options, x);
          }
          assert apps[|apps| - 1] == app;
        }
      }
      SubseqAppend(s.todo, AllExpensive(init, cfgs), ExpensiveOf(cfgs, app.name), ExpensiveOf(cfgs, app.name)) by {
        SubseqOfSelf(ExpensiveOf(cfgs, app.name));
      }
      SubseqChain(r.todo, s.todo + ExpensiveOf(cfgs, app.name), AllExpensive(apps, cfgs));
    }
  }

  /** A service that DisableServices drops was named by an option with auto-start false. */
  lemma {:induction false} DisableMissing(toStart: seq<string>, options: seq<ServiceOption>, x: string)
    requires x in toStart && x !in DisableServices(toStart, options)
    ensures exists o :: o in options && !o.autoStart && o.composeServiceName == x
    decreases |options|
  {
    var init := options[..|options| - 1];
    var o := options[|options| - 1];
    if x in DisableServices(toStart, init) {
      assert !o.autoStart && o.composeServiceName == x;
    } else {
      DisableMissing(toStart, init, x);
      var o' :| o' in init && !o'.autoStart && o'.composeServiceName == x;
      assert o' in options;
    }
  }
}

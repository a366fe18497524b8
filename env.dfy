/**
 * What the core reads from disk (the environment configuration, each application's own
 * configuration.yml and the listing of its fragments directory) and the three files it
 * persists (.commodities.yml, .custom_provision.yml and the compose fragment list file).
 * YAML loading is abstracted: a document is its parsed value.
 */
module Env {
  import opened Wrappers

  /** One entry of an application's `options` list. `auto-start` defaults to true when absent. */
  datatype ServiceOption = ServiceOption(composeServiceName: string, autoStart: bool)

  /** One application of dev-env-config/configuration.yml's `applications` mapping, in file order. */
  datatype App = App(name: string, options: seq<ServiceOption>, variant: Option<string>)

  /** dev-env-config/configuration.yml. A missing `applications` key reads as no applications. */
  datatype EnvConfig = EnvConfig(applications: seq<App>, postUpMessage: Option<string>)

  /** A service to probe: `compose_service` and `healthcheck_cmd` ("docker" or a command). */
  datatype HealthCheck = HealthCheck(composeService: string, healthcheckCmd: string)

  /** One entry of an application's `expensive_startup` list. */
  datatype ExpensiveEntry = ExpensiveEntry(check: HealthCheck, waitUntilHealthy: seq<HealthCheck>)

  /** apps/<app>/configuration.yml; an empty document has neither key. */
  datatype AppConfig = AppConfig(commodities: Option<seq<string>>, expensiveStartup: Option<seq<ExpensiveEntry>>)

  /**
   * The read-only inputs: the environment configuration (None when the file is missing), the
   * application configurations that exist, keyed by application name, and the file names in
   * each application's fragments directory.
   */
  datatype Tree = Tree(
    config: Option<EnvConfig>,
    appConfigs: map<string, AppConfig>,
    fragments: map<string, seq<string>>)

  function Applications(tree: Tree): seq<App> {
    if tree.config.Some? then tree.config.value.applications else []
  }

  /** Some application of `apps` has this name. */
  predicate Configured(apps: seq<App>, name: string) {
    exists i :: 0 <= i < |apps| && apps[i].name == name
  }

  /** os.path.exists of apps/<app>/fragments/<basename>. */
  predicate FragmentExists(tree: Tree, app: string, basename: string) {
    app in tree.fragments && basename in tree.fragments[app]
  }

  /** .commodities.yml: version tag, commodity list, and app -> commodity -> provisioned. */
  datatype CommodityDoc = CommodityDoc(
    version: string,
    commodities: seq<string>,
    applications: map<string, map<string, bool>>)

  /** .custom_provision.yml: version tag and the apps whose one-time script has run. */
  datatype CustomDoc = CustomDoc(version: string, applications: seq<string>)

  /** The files the core writes; None when the file does not exist. */
  class Workspace {
    var commoditiesYml: Option<CommodityDoc>
    var customProvisionYml: Option<CustomDoc>
    var composeFileList: Option<string>

    constructor (commodities: Option<CommodityDoc>, custom: Option<CustomDoc>, fileList: Option<string>)
      ensures commoditiesYml == commodities && customProvisionYml == custom && composeFileList == fileList
    {
      commoditiesYml := commodities;
      customProvisionYml := custom;
      composeFileList := fileList;
    }
  }
}

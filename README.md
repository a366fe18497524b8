# Dev-env orchestrator core in Dafny

A model of the core of a Python development-environment orchestrator, with proofs. The orchestrator
brings up a set of Docker Compose services for the applications listed in
`dev-env-config/configuration.yml`. The model covers six parts of it:

- **Commodity bookkeeping** (`scripts/commodities.py`, module `Commodities`). It builds the
  deduplicated list of shared services ("commodities") the applications declare, and keeps the
  application → commodity → provisioned table in `.commodities.yml`.
- **Compose file list** (`scripts/docker_compose.py`, module `Compose`). It picks each
  application's compose fragment (its configured variant, or the default) and writes the
  separator-joined fragment list.
- **Postgres provisioning** (`scripts/provision_scripts/provision_postgres.py`, module `Postgres`).
  It brings a Postgres container up at most once per call, polls docker until the container is
  healthy, runs each requiring application's init fragment in configuration order (each copy
  followed by its psql run), and records the status.
- **Custom provisioning** (`scripts/provision_custom.py`, module `Custom`). It runs per-application
  once-only scripts, recorded in `.custom_provision.yml`, and always-run scripts.
- **The `--start-apps` block of `logic.py`**. This is split across several modules:
  - `ServicePartition`: the services are split into disabled, expensive and inexpensive.
  - `Start`: logging and the inexpensive batch are started.
  - `Sweep`, `StagedStart` and `Orchestration`: the staged start of the expensive services, with at
    most 3 in progress, a health sweep, restart-count diagnosis and dependency-gated admission.
  - `Start`: custom provisioning runs, then the block reports.
- **Colour helpers and health-output tests** (`scripts/utilities.py`, `logic.py:75-79`; modules
  `Utilities` and `Health`).

External commands are modelled by module `Shell`:

- A `Runtime` object records every command it issues, in order, in `issued`.
- It answers each command through an oracle: a function of the command and of its position in the
  whole run.
- So any sequence of exit codes and outputs that the compose tool and docker could produce can be
  represented.

Module `Env` models the rest of the outside world:

- The files the core reads are a value `Tree`: the parsed configuration, the application
  configurations, and each application's fragments directory listing.
- The three files the core writes are fields of a `Workspace` object, which its methods update
  in place.

Staged-start state is modelled as follows:

- The three queues (`expensive_todo`, `expensive_inprogress`, `expensive_failed`) are fields of
  the `Orchestration.Orchestrator` class.
- Each pass phase is proved to leave exactly the state that a specification function in `Sweep` /
  `StagedStart` describes, and the whole loop the state of `StagedStart.Run`, the passes in turn.
- The pass-level properties are proved as lemmas about those functions.

Where the code and its documentation disagree, the model follows the code:

- `--start-apps` exits 0 when some expensive services were given up on. The documentation
  describes a degraded, non-zero result.
- `provision_postgres` brings the container up and polls it once per call. `started` is threaded
  through the application loop, so later applications reuse the running container. It is not
  polled again for each application.
- The health test that `logic.py` and `provision_postgres.py` use is a substring test. So a
  status line `"unhealthy"` counts as healthy (`Health.UnhealthyStatusPasses`). `utilities.py`
  has a stricter test, which the staged start does not use.

## Model

| member | source | states |
|---|---|---|
| Utilities.Colorize | scripts/utilities.py:7-20 | the coloured message is the colour's escape prefix, the message unchanged, then the reset code |
| Utilities.UncolorizeColorize | scripts/utilities.py:7-20 | stripping a colour from a coloured message gives back the message (round trip) |
| Utilities.ColorsDistinct | scripts/utilities.py:7-20 | two different colours never give the same coloured text |
| Utilities.CheckHealthyOutput | scripts/utilities.py:69-70 | true iff some line starts with `"healthy"` (quoted) |
| Utilities.QuotedCheckRejects | scripts/utilities.py:69-70 | the quoted test rejects `"unhealthy"`, a bare `healthy`, and empty output |
| Health.CheckHealthyOutput | logic.py:75-79 | true iff some output line contains `healthy` as a substring |
| Health.UnhealthyStatusPasses | logic.py:75-79 | a status of `"unhealthy"` passes the substring test but not the quoted one; empty output fails |
| Health.QuotedImpliesSubstring | logic.py:75-79 | whatever the quoted test accepts, the substring test accepts |
| ServicePartition.PartitionServices | logic.py:207-234 | the per-app loop (options first, then expensive_startup entries) leaves exactly the partition specification's batch and queue |
| ServicePartition.DisableSound | logic.py:214-220 | removing a disabled service keeps the split sound; a disabled service is no longer in the batch |
| ServicePartition.ClaimSound | logic.py:228-234 | queuing expensive entries keeps the split sound; every queued service left the batch |
| ServicePartition.PartitionSound | logic.py:207-234 | with distinct listed services: batch and queue are duplicate-free and disjoint; they hold only listed services; no disabled service is batched; every listed service is batched, queued or disabled; the queue keeps configuration order |
| ServicePartition.DisableMissing | logic.py:214-220 | a service that the options removed from the batch has an option with auto-start false |
| Sweep.KeptSubseq | logic.py:271 | the health sweep keeps a subsequence of in-progress, in order |
| Sweep.KeptUnhealthy | logic.py:271 | every service that probes unhealthy is kept |
| Sweep.KeptHealthyLeave | logic.py:271 | with distinct services, every service that probes healthy leaves |
| Sweep.RestartCountUpToIsLastPositive | logic.py:276-281 | over a prefix: the count is 0 iff no line is a positive number, else the value of the last such line |
| Sweep.RestartCountIsLastPositive | logic.py:276-281 | the restart count is 0 iff no line is a positive decimal, else the last positive line's value |
| Sweep.ParseRestartCount | logic.py:276-281 | the parsing loop returns that restart count |
| Sweep.DiagnoseCommandsLength | logic.py:272-287 | diagnosis issues 2 commands per service, plus 1 stop per service given up on |
| Sweep.DiagnoseStep | logic.py:272-287 | diagnosing one more service appends its tail/inspect (and stop) commands, and appends it to failed iff its count exceeds 9 |
| Sweep.DiagnoseObserves | logic.py:276-286 | every recorded restart count is the one reported by an inspect of that service that the diagnosis itself issued, at a position within its own commands |
| Sweep.DiagnoseFailedSubseq | logic.py:284-286 | services given up on are a subsequence of those diagnosed |
| Sweep.DiagnoseStopsFailed | logic.py:284-287 | every service given up on was sent a compose stop |
| Sweep.DiagnoseFailedExactly | logic.py:276-286 | with distinct services, a service is given up on iff its observed restart count exceeds 9 |
| Sweep.FirstUnhealthyMeans | logic.py:290-308 | the dependency walk stops at the first unhealthy dependency; all earlier ones probed healthy |
| Sweep.FirstUnhealthyAdvance | logic.py:294-308 | one dependency probe: healthy moves on to the next, unhealthy stops the walk |
| Sweep.AdmissionCommands | logic.py:294-310 | the probes issued up to the blocking dependency, and the `up` command only when all passed |
| Sweep.AdmitAdvance | logic.py:288-312 | one iteration of the admission loop: pop the head, probe, then start it or drop it |
| Sweep.AdmitShape | logic.py:288-312 | admission pops only from the front of todo; it only appends to in-progress, never beyond 3; it stops only when todo is empty or in-progress is full |
| Sweep.AdmitFifo | logic.py:288-312 | in-progress after admission is a subsequence of in-progress then todo (FIFO order) |
| Sweep.AdmitStarts | logic.py:290-312 | every newly admitted service was popped at some command p of this admission; its whole wait list probed healthy from p on, and the admission's commands from p on are those probes followed by its `up` |
| Sweep.AdmitDropsBlocked | logic.py:290-312 | every service that left todo without being admitted was popped at some command p of this admission; its wait list probed healthy up to a dependency that probed unhealthy, and the admission's commands from p on are exactly those probes |
| Sweep.AdmitShape' | logic.py:309-312 | admission never removes a service from in-progress |
| Sweep.AdmitKeepsDistinct | logic.py:288-312 | duplicate-free, disjoint queues stay duplicate-free and disjoint |
| StagedStart.SurvivorsWithin | logic.py:271 | survivors of the health sweep are in-progress services, no more of them, duplicate-free if in-progress was |
| StagedStart.SweepKeepsWellQueued | logic.py:253-312 | a pass keeps at most 3 in progress, and keeps the queues duplicate-free and disjoint |
| StagedStart.SweepKeepsFailed | logic.py:284-287 | a service given up on is stopped and recorded as failed, yet stays in progress for the next pass |
| StagedStart.SweepReleasesHealthy | logic.py:271 | a service that probes healthy is no longer in progress after the pass |
| StagedStart.SweepRetainsUnhealthy | logic.py:271 | a service that probes unhealthy is still in progress after the pass |
| StagedStart.SweepDrainsTodo | logic.py:288-312 | a pass only pops from the front of todo; it leaves fewer than 3 in progress only when todo is empty |
| StagedStart.AdmitTodoSuffix | logic.py:288-289 | admission leaves a suffix of todo, however many services are in progress |
| StagedStart.DiagnoseGivesUp | logic.py:276-287 | every service the diagnosis gives up on had a restart-count inspect reporting more than 9, immediately followed by its stop |
| StagedStart.SweepHolds | logic.py:253-312 | a pass holds no service, in any queue, that was not held before it |
| StagedStart.SweepGivesUp | logic.py:272-287 | every service a pass adds to failed was stopped right after an inspect reporting more than 9 restarts, among the pass's commands |
| StagedStart.RunFailedGivenUp | logic.py:253-312 | over the whole loop, failed only grows, every service held was held at the start, and every newly failed service was stopped right after an inspect reporting more than 9 restarts |
| StagedStart.RunKeepsWellQueued | logic.py:253-312 | the loop keeps at most 3 in progress and the queues duplicate-free and disjoint |
| StagedStart.StagedFailures | logic.py:250-319 | started from the todo queue alone, every service the staged start reports as failed was queued, and was stopped right after an inspect reporting more than 9 restarts |
| Orchestration.Probe | logic.py:257-269 | issues the probe command, and returns the verdict of its answer |
| Orchestration.CheckDependencies | logic.py:290-308 | probes the wait list up to the first unhealthy dependency; true iff all are healthy |
| Orchestration.SweepHealth | logic.py:271 | returns the services that probed unhealthy, in order, after one probe each |
| Orchestration.DiagnoseOne | logic.py:273-287 | tails the log and inspects the restart count; stops the service iff the count exceeds 9 |
| Orchestration.DiagnoseAll | logic.py:272-287 | the diagnosis loop issues the specified commands and returns the services given up on |
| Orchestration.AdmitOne | logic.py:289-312 | probes the wait list, and starts the service iff every dependency is healthy |
| Orchestration.AdmitAll | logic.py:288-312 | the admission loop leaves the specified queues and command log |
| Orchestration.Orchestrator.constructor | logic.py:209-210 | the queues start as the partition's todo list with nothing in progress or failed |
| Orchestration.Orchestrator.HealthSweep | logic.py:271 | in-progress becomes the sweep's survivors; todo and failed are untouched |
| Orchestration.Orchestrator.DiagnoseStuck | logic.py:272-287 | failed grows by exactly the services given up on; the queues are untouched |
| Orchestration.Orchestrator.AdmitFromTodo | logic.py:288-312 | todo and in-progress become the admission's result; failed is untouched |
| Orchestration.Orchestrator.Sweep | logic.py:253-312 | one pass leaves exactly the pass specification's queues and commands, and keeps the queues well formed |
| Orchestration.Orchestrator.RunSweeps | logic.py:253-312 | the queues and the command log after the loop are exactly those of the loop specification (`Run`, `RunCommands`: passes while something is waiting or in progress); it stops only when todo and in-progress are empty or the pass budget is used up |
| Start.ExitCode | logic.py:201-324 | exit status 0 exactly for a finished run |
| Start.Message | logic.py:320-324 | the post-up message is shown iff it is present and non-empty |
| Start.BatchSound | logic.py:207-242 | the inexpensive batch is duplicate-free, holds only listed services, and holds no disabled or queued service |
| Start.LaunchServices | logic.py:207-249 | lists services, starts logstash, then (only if logstash came up) the non-empty batch in one `up`; reports each failure |
| Start.StageExpensive | logic.py:250-319 | the log gains exactly the loop's commands; `done` iff both queues of the specified loop end empty; the reported names are those of the loop's failed list |
| Start.StartServices | logic.py:207-312 | after a logging failure the log is exactly the listing and the logging `up`; after a batch failure it is exactly the start commands; otherwise the log is the start commands then the staged start's, and a finished staged start reports the names of its failed list |
| Start.StartApps | logic.py:201-324 | missing file list or configuration is fatal, and an empty file list means nothing to start; both issue no commands. After a logging failure the log is exactly the listing and the logging `up`, and after a batch failure exactly the start commands, so neither the staged start nor custom provisioning runs. After a successful batch the staged start's commands follow, and a run that is still starting issues nothing more; the run is finished iff the staged start drained both queues, and then it reports the names of the staged start's failed list. On success the log is exactly the start commands, the staged start's commands and then the custom scripts' commands, `.custom_provision.yml` is updated, and the post-up message is reported |
| Commodities.CommodityRequired | scripts/commodities.py:107-118 | true iff the app's configuration exists and lists the commodity; missing or empty configuration requires nothing |
| Commodities.ContainerToCommodity | scripts/commodities.py:145-149 | `openldap` maps to `auth`, every other name to itself; `auth` comes only from `openldap` or `auth` |
| Commodities.Dedup | scripts/commodities.py:69 | duplicate-free, with the same members as its input |
| Commodities.NeedsOfSpec | scripts/commodities.py:51-69 | an app is in the map iff it is configured and declares a non-empty list; the map pairs it with c iff it declares c |
| Commodities.FlattenMembers | scripts/commodities.py:66-67 | the flat list holds exactly the commodities of some entry |
| Commodities.WhichAppNeedsWhat | scripts/commodities.py:51-69 | the loop returns the specified map and the deduplicated flat list |
| Commodities.GlobalList | scripts/commodities.py:51-69 | the global list is duplicate-free and holds exactly the commodities that some configured app declares |
| Commodities.WithLogging | scripts/commodities.py:26-27 | adds `logging` if missing; the list is kept as a prefix, with at most one more entry, and stays duplicate-free |
| Commodities.PairApp | scripts/commodities.py:44-48 | the app has a row afterwards |
| Commodities.PairAppSpec | scripts/commodities.py:44-48 | only the app's row changes; it gains exactly the missing commodities, set to False; existing statuses are kept |
| Commodities.PairedSpec | scripts/commodities.py:38-49 | rows exist for old apps and needing apps; a pair exists iff it was there or is needed; new pairs are False and old statuses are kept; rows of apps needing nothing are untouched |
| Commodities.PairedIdempotent | scripts/commodities.py:38-49 | adding missing pairings twice is the same as once |
| Commodities.CommodityTable.constructor | scripts/commodities.py:71-86 | the table object holds the loaded document |
| Commodities.CommodityTable.AddMissingPairings | scripts/commodities.py:38-49 | the nested loop updates the table in place to the specified pairing; version and list are untouched |
| Commodities.RebuiltSpec | scripts/commodities.py:12-36 | the rebuilt list is duplicate-free and is exactly `logging` plus the declared commodities; every needed pair is present; a stored file keeps its version and every stored status; a new file has version "2" and only False statuses |
| Commodities.RebuildCommodityFile | scripts/commodities.py:25-32 | computes the rebuilt document |
| Commodities.CreateCommoditiesList | scripts/commodities.py:12-36 | fails without touching anything when the configuration is missing; otherwise writes the rebuilt document, after which `logging` is a commodity in the sense of `commodity()` |
| Commodities.IsCommodity | scripts/commodities.py:120-129 | false when `.commodities.yml` does not exist; otherwise true exactly for names in its global `commodities` list; after `CreateCommoditiesList` succeeds that is `logging` plus every commodity a configured app declares |
| Commodities.CommodityProvisioned | scripts/commodities.py:88-94 | reads the stored status of an (app, commodity) pair; writing that status back leaves the document unchanged |
| Commodities.StatusGetAfterSet | scripts/commodities.py:88-105 | reading a status after setting it gives the new value; every other pair keeps its presence and value; version and list are unchanged |
| Commodities.SetCommodityProvisionStatus | scripts/commodities.py:96-105 | writes the table with the one status changed; reading it back gives the value set |
| Compose.LazyCapture | scripts/docker_compose.py:110 | the lazy group ends at the first `.yml` with no newline before it; no match means every `.yml` has a newline before it |
| Compose.MatchVariant | scripts/docker_compose.py:110-112 | a captured variant rebuilds a prefix of the basename and has no newline |
| Compose.ValidateVariantFragmentFilename | scripts/docker_compose.py:104-116 | a returned variant is the app's configured one and its file name is a prefix of the basename; an app without a variant gets none |
| Compose.ValidateFragmentFilename | scripts/docker_compose.py:104-116 | round trip: the file name built from a variant validates to that variant iff it is the configured one |
| Compose.HighestVersion | scripts/docker_compose.py:118-128 | none iff neither version is known; otherwise the input of higher rank |
| Compose.ActiveVariantsSpec | scripts/docker_compose.py:66-102 | an app gets a variant iff it is configured and one of its fragments validates; the variant is the configured one |
| Compose.SelectVariant | scripts/docker_compose.py:83-93 | one application's pass over its fragment listing: the configured variant is recorded for it iff some listed file selects it; otherwise the variant map is unchanged |
| Compose.FindActiveVariants | scripts/docker_compose.py:66-102 | the loop returns the specified variant map |
| Compose.AppFragment | scripts/docker_compose.py:55-64 | the variant's fragment if the app has a variant, else the default, only when that file exists; there is no fallback to the default |
| Compose.AppFragments | scripts/docker_compose.py:54-64 | at most one fragment per app |
| Compose.AppFragmentsFrom | scripts/docker_compose.py:54-64 | every listed path is the chosen fragment of some configured app |
| Compose.AppFragmentsCover | scripts/docker_compose.py:54-64 | every app whose chosen fragment exists is listed |
| Compose.GetApps | scripts/docker_compose.py:39-64 | appends exactly the app fragments, in configuration order |
| Compose.PrepareCompose | scripts/docker_compose.py:9-37 | the file list is the root fragment, the app fragments, then the commodity fragments, joined by the platform separator |
| Compose.SplitWithout | scripts/docker_compose.py:35-37 | a part without the separator splits to itself |
| Compose.SplitAt | scripts/docker_compose.py:35-37 | splitting at the first separator peels off the first part |
| Compose.SplitJoin | scripts/docker_compose.py:35-37 | round trip: when no path contains the separator, splitting the written list gives back the paths |
| Postgres.PostgresContainer | scripts/provision_scripts/provision_postgres.py:23-30 | non-empty iff the version is 13 or 17, and then `postgres-<version>` |
| Postgres.PostgresRequired | scripts/provision_scripts/provision_postgres.py:62-67 | true iff the app declares the container's commodity |
| Postgres.ReadyMeansHealthyLine | scripts/provision_scripts/provision_postgres.py:135-136 | ready iff the inspect exits 0 and some line contains `healthy` |
| Postgres.AwaitReady | scripts/provision_scripts/provision_postgres.py:105-114 | the poll issues only status inspects, at least one; it stops at the first ready answer; every earlier answer was not ready |
| Postgres.SetExtends | scripts/commodities.py:96-105 | setting a status keeps every pair and every other entry, and sets the pair to True |
| Postgres.BringUp | scripts/provision_scripts/provision_postgres.py:101-117 | issues one `up` and then status inspects, of which only the last reports the container ready |
| Postgres.StartPostgres | scripts/provision_scripts/provision_postgres.py:91-121 | with `started`, only the init fragment is copied and run; otherwise exactly one `up`, then status inspects of which only the last reports the container ready, then the init fragment is copied and run; no other app's fragment is copied; the app's status becomes True |
| Postgres.RunInitialisation | scripts/provision_scripts/provision_postgres.py:124-132 | copies the init fragment into the container, then runs it with psql |
| Postgres.StartPostgresMaybe | scripts/provision_scripts/provision_postgres.py:70-88 | skipped exactly when the version is unknown, or the pair is provisioned and the container is not new; a skip changes nothing |
| Postgres.ProvisionedStep | scripts/provision_scripts/provision_postgres.py:52-59 | each visit leaves the app's status True if it qualifies |
| Postgres.VisitApp | scripts/provision_scripts/provision_postgres.py:52-59 | one loop iteration: a non-qualifying or skipped app changes nothing; otherwise its status becomes True, `started` becomes true, and the log grows exactly as start_postgres's does: with `started`, only the app's copy then its psql run; otherwise one `up`, status inspects of which only the last reports the container ready, then the copy and the psql run |
| Postgres.VisitStep | scripts/provision_scripts/provision_postgres.py:51-59 | each visit keeps the table's other entries, makes the app's status True if it qualifies, and changes nothing when every qualifying status was already True and the container is not new |
| Postgres.LogStep | scripts/provision_scripts/provision_postgres.py:52-59 | after one more visit, the fragments copied are exactly those of the applications chosen so far |
| Postgres.DocStep | scripts/provision_scripts/provision_postgres.py:52-59 | after one more visit, the column holds the old statuses, turned True for the applications chosen so far |
| Postgres.VisitAgrees | scripts/provision_scripts/provision_postgres.py:82-87 | a visited app is started only if it is chosen against the initial table; one passed over although chosen was already visited |
| Postgres.FirstStartCopies | scripts/provision_scripts/provision_postgres.py:101-121 | a first start copies no fragment but the started app's |
| Postgres.ChosenOrderSpec | scripts/provision_scripts/provision_postgres.py:51-59 | the applications initialised, in configuration order, are exactly the chosen ones; unless the container is new, none is initialised twice |
| Postgres.InitAllAt | scripts/provision_scripts/provision_postgres.py:124-132 | in the ordered init commands, each application's copy is immediately followed by its psql run |
| Postgres.ChosenOrderAcross | scripts/commodities.py:131-143 | provisioning one Postgres version does not change which applications the other version initialises |
| Postgres.OrderStep | scripts/provision_scripts/provision_postgres.py:51-59 | one more visit extends the ordered log: nothing for a skip, the `up` and the ready poll before the first init, then that app's copy and psql run; `started` is true exactly when some app was initialised |
| Postgres.LoopStep | scripts/provision_scripts/provision_postgres.py:51-59 | one visit keeps the whole loop invariant: the table and copy tracking, the single `up`, and the ordered log |
| Postgres.VisitAll | scripts/provision_scripts/provision_postgres.py:51-59 | the loop over the configured applications ends with that invariant for all of them |
| Postgres.ProvisionPostgres | scripts/provision_scripts/provision_postgres.py:33-59 | the new log is exactly: nothing when no app is chosen; otherwise one `up`, status inspects of which only the last reports the container ready, then each chosen app's copy immediately followed by its psql run, in configuration order; every command issued is addressed to the version's container; the container is brought up at most once; an app's init fragment is copied exactly when it is configured, qualifies and the container is new or its status was not True; its status afterwards is its old status or True if it was so chosen; every qualifying app ends with status True; for an old container with all statuses True nothing is issued or written |
| Postgres.ProvisionedPerApp | scripts/provision_scripts/provision_postgres.py:44-59 | per application: its fragment is copied iff it is configured, requires the commodity, has `postgres-init-fragment.sql`, and the container is new or its status was not True; an app that does not qualify keeps its status and is not initialised |
| Postgres.ProvisionCommodities | scripts/commodities.py:131-143 | Postgres 13 then 17: the log up to a midpoint is exactly provision_postgres's ordered log for postgres-13 (`up`, ready poll, then copy and psql per chosen app in configuration order) and the rest exactly that for postgres-17, both chosen against the table as it was before the call; every command up to the midpoint is addressed to postgres-13 and every later one to postgres-17; each container is brought up at most once; for each version the init fragments copied and the statuses set are exactly those provision_postgres chooses against the table as it was before the call; both columns end True for every qualifying app; the table's version, commodity list and every entry of any other commodity are unchanged |
| Custom.Recorded | scripts/provision_custom.py:31-41 | the recorded list becomes the given extension of the old list |
| Custom.RecordedTwice | scripts/provision_custom.py:31-41 | recording in two steps is the same as recording once |
| Custom.CreateCustomProvision | scripts/provision_custom.py:5-18 | creates version "1" with no applications only when the file is absent |
| Custom.CustomProvisioned | scripts/provision_custom.py:20-29 | false when the file is absent, else whether the app is recorded |
| Custom.SetCustomProvisioned | scripts/provision_custom.py:31-41 | appends the app (creating the file first); the app then reads provisioned, and every other app reads as before |
| Custom.MarksSpec | scripts/provision_custom.py:43-68 | recorded apps are kept as a prefix; afterwards the file records exactly the earlier apps plus every configured app with a once-only script |
| Custom.OnetimeOnce | scripts/provision_custom.py:56-68 | an app's once-only script is issued exactly once if the run records it, and never otherwise (never twice, never for an app recorded earlier) |
| Custom.MarksFixed | scripts/provision_custom.py:56-68 | a list that already holds every app with a once-only script is unchanged by a run |
| Custom.SecondRunIdle | scripts/provision_custom.py:43-68 | a second run after the first records nothing new and issues no once-only script |
| Custom.CustomStep | scripts/provision_custom.py:52-54 | one more app appends its once-only command (when due), then its always command |
| Custom.RunOnetime | scripts/provision_custom.py:56-68 | runs the once-only script and records the app iff the script exists and the app is not recorded |
| Custom.RunAlways | scripts/provision_custom.py:70-78 | runs the always script iff it exists |
| Custom.ProvisionStep | scripts/provision_custom.py:52-54 | the loop invariant holds for one more app |
| Custom.ProvisionApp | scripts/provision_custom.py:53-54 | the once-only step, then the always step |
| Custom.ProvisionCustom | scripts/provision_custom.py:43-54 | issues exactly the specified scripts, once-only before always for each app, in configuration order, and records the apps as specified |

## Left out

- Printing, colours printed to the terminal, `time.sleep`, and the tail of the container log files shown after a failure. These only affect presentation.
- `logic.py`'s own `colorize_*` functions (lines 31-44). They return the message unchanged and only feed `print`.
- YAML parsing and writing. A document is modelled as its parsed value, and an empty application configuration as one with neither key.
- `check_count` (`logic.py` 261, 311). It is only printed as "Attempt N" and never read, so the model keeps no counter.
- Sweep.ParseRestartCount: accepts only the ASCII digits 0-9. Python's `str.isdigit` also accepts other Unicode digits, which `docker inspect` does not print.
- `os.path.join`. Paths are joined with `/`; the Windows separator in paths is not modelled. The file-list separator (`;` or `:`) is modelled.
- Compose.FindActiveVariants: the glob filter `*compose-fragment*.yml` is not applied. Every name that the selection branch accepts matches the glob. The listing order stands for glob's unspecified order.
- Commodities.WhichAppNeedsWhat: Python's `list(set(...))` has no defined order. The model keeps first occurrences in configuration order; only membership and duplicate-freedom are promised.
- Orchestration.Orchestrator.RunSweeps: the staged start is unbounded in the source, and may never end. The method runs at most `budget` passes.
- Start.StartApps: runs the staged start for at most `budget` passes, ending with `StillStarting` when they are used up.
- Start.StartServices: runs the staged start for at most `budget` passes, for the same reason.
- Start.StageExpensive: runs at most `budget` passes, for the same reason.
- Start.StartApps: requires that `config --services` lists each service once, as the compose tool does.
- Start.LaunchServices: requires that `config --services` lists each service once, for the same reason.
- Start.StartServices: requires that `config --services` lists each service once, for the same reason.
- Postgres.AwaitReady: the readiness poll has no retry bound. It is proved to terminate only under the assumption that docker eventually reports the container healthy (`AlwaysEventuallyReady`).
- Postgres.ProvisionPostgres: requires the configuration, and a `.commodities.yml` row for each application that requires the commodity and has `postgres-init-fragment.sql`. The source raises `FileNotFoundError` or `KeyError` otherwise. It also requires `AlwaysEventuallyReady` for the container, even when no application will be started.
- Postgres.ProvisionCommodities: requires, for both `postgres-13` and `postgres-17`, the same table rows and `AlwaysEventuallyReady`, for the same reasons.
- Custom.ProvisionCustom: requires the configuration file. The source opens it unchecked.
- Compose.PrepareCompose: requires the configuration file, for the same reason.
- The computation of `new_containers` in `logic.py` (`ps --services` before and after `up`) is outside the start block. `Postgres.ProvisionCommodities` takes it as a parameter.
- `run_command` and `run_command_noshell` themselves (subprocess, output capture). Each command is one entry of the runtime's log, answered by the oracle.

# Docker stats polling agent, modelled in Dafny

The agent polls the Docker daemon for the containers on a host, keeps a
registry of them across polling cycles, and reports per-container resource
figures. Six keys are reported as the difference from the previous cycle:
`memory_usage`, `network_in`, `network_out`, `cpu`, `cpu_usage` and
`disk_io_read`. Four are reported as sampled: `memory_limit`,
`memory_percentage_usage`, `cpu_system_usage` and `cpu_percentage_usage`. The
split does not follow the nature of the figures: memory usage is a gauge that
the code diffs, and system CPU time is a cumulative counter that it reports
raw. The stats parser never writes `cpu`, so that key always reports 0. A
Nagios driver classifies each container's usage against configured
warning/critical limits, remembers the outcome per container and resource,
and builds the passive-check line carrying the worst outcome of the cycle.

The model has five modules:

- `Stats` (stats.dfy): the stat keys, the initial `@stats` / `@prev_stats`
  hashes of a container, and the specification functions `Report` and
  `History` that say what the per-stat loop of `send_stats` prints and what it
  leaves in `@prev_stats`. The lemmas state the cold-start and
  consecutive-cycle behaviour.
- `Containers` (containers.dfy): the `Container` class (`calc_difference`,
  `set_prev_stats`), the per-stat loop as a method proved against `Report` and
  `History`, and the `ContainerMonitor` class. Its registry is a
  `seq<Container>` field that `check_for_new_containers`,
  `check_for_shutdown_containers`, `refresh_containers` and `send_stats` update
  in place.
- `NagiosDriver` (nagios.dfy): the status constants, the classification done
  by `validateLimit`, and the `Nagios` class. The class keeps the per-container
  outcome hash and the message list, and builds the passive-check line.
- `Limits` (limits.dfy): the warning/critical pair.
- `Wrappers` (wrappers.dfy): `Option`, which stands for Ruby's `nil`.

Two behaviours of the code are modelled as written and exhibited by lemmas:

- `validateLimit` swaps the levels. A usage at or above the critical limit is
  labelled and returned as WARNING; a usage between the two limits is labelled
  and returned as CRITICAL (`NagiosDriver.SwappedSeverity`).
- `check_for_shutdown_containers` deletes from the array it is iterating, so
  the container right after a removed one is not examined in that pass
  (`Containers.ShutdownSkipsNeighbour`). A stale container can therefore
  survive a refresh and still be reported on.

The daemon's answers are parameters. `RefreshContainers` and `SendStats` take
the discovery list (`GET /containers/json`) as a value. `SendStats` also takes
a map from container id to the counters fetched this cycle; a container with
no entry is one whose fetch timed out.

## Model

| member | source | states |
|---|---|---|
| `Stats.InitialConsistent` | ExconConnection.rb:38-39 | a new container has no previous value for any key, and its history is consistent with its stats |
| `Stats.RollForward` | ExconConnection.rb:64-66 | the history of `k` becomes the current value (`nil` when the key is absent); every other entry is unchanged; no key is dropped |
| `Stats.HistoryAt` | ExconConnection.rb:140-149 | after the loop, every present counter remembers its current value; every gauge and every absent key keeps exactly its earlier history |
| `Stats.ReportItems` | ExconConnection.rb:140-149 | every reported item is a visited, present key with its gauge value or its difference, and every visited present key is reported |
| `Stats.ReportKeys` | ExconConnection.rb:141-149 | for any stats hash (a new container has no `:cpu_usage`), the report has exactly one item per present key, in the hash's iteration order |
| `Stats.ColdStartReportsZero` | ExconConnection.rb:38-39 | with all-`nil` history every counter is reported as 0 and every gauge as sampled; afterwards counters remember their sample and gauges keep `nil` |
| `Stats.SecondReportIsDelta` | ExconConnection.rb:60-66 | a counter sampled as `a` in one cycle and `b` in the next is reported as `b - a` the second time, with no wrap-around correction |
| `Stats.GaugeIgnoresHistory` | ExconConnection.rb:140-143 | the value reported for a kept key is its sample, whatever the history |
| `Containers.StripRemovesAtMostOneSlash` | ExconConnection.rb:162 | the name is unchanged exactly when it does not start with `/`; otherwise exactly one leading `/` is removed |
| `Containers.StripNames` | ExconConnection.rb:162 | every name is stripped, count and order kept |
| `Containers.Container.constructor` | ExconConnection.rb:32-40 | id, names and image as given; stats all zero; every previous value `nil` |
| `Containers.Container.CalcDifference` | ExconConnection.rb:60-62 | 0 when there is no previous value, current minus previous otherwise |
| `Containers.Container.SetPrevStats` | ExconConnection.rb:64-66 | the previous value of `k` becomes its current value; no other entry changes |
| `Containers.Container.RecordStats` | ExconConnection.rb:89-104 | a fetched sample overwrites the keys it carries and keeps the others |
| `Containers.AddNewSpec` | ExconConnection.rb:169-175 | held containers stay in place; every discovered id is then held; what is appended comes from the discovery list, in its order, and repeats no id |
| `Containers.Delete` | ExconConnection.rb:180 | removes exactly the container deleted, keeps every other one in its order, and keeps distinct containers distinct |
| `Containers.ShutdownKeepsPresent` | ExconConnection.rb:177-183 | a container whose id is still discovered is never removed; nothing is added; distinct containers stay distinct |
| `Containers.ShutdownKeepsOrder` | ExconConnection.rb:177-183 | the containers that survive the pass keep their relative order |
| `Containers.ShutdownSkipsNeighbour` | ExconConnection.rb:177-183 | a vanished container right after one the pass removes is not examined, so it survives (shown for the registry [a, b]) |
| `Containers.BuiltCids` | ExconConnection.rb:165-167 | the built containers carry exactly the ids of the discovery list |
| `Containers.CreateNewContainer` | ExconConnection.rb:161-163 | a fresh container with the entry's id, stripped names and image, and no history |
| `Containers.BuildContainerList` | ExconConnection.rb:165-167 | one fresh, distinct, cold container per discovery entry, in order, carrying exactly the discovered ids |
| `Containers.ReportContainer` | ExconConnection.rb:139-149 | the loop prints `Report` of the current stats and leaves `History` of them in `@prev_stats` |
| `Containers.ReportEach` | ExconConnection.rb:127-151 | each container in turn takes its sample, is reported by `Report` and is left with `History`, against its own earlier history |
| `Containers.MergedRegistry` | ExconConnection.rb:188-192 | appending new containers then running the shutdown pass holds every discovered id, keeps every held container still discovered, adds only containers built from the discovery list, and keeps them distinct |
| `Containers.ContainerMonitor.constructor` | ExconConnection.rb:111-114 | the registry holds one fresh cold container per discovery entry, in order |
| `Containers.ContainerMonitor.CheckForNewContainers` | ExconConnection.rb:169-175 | the registry becomes `AddNew` of the old registry and the discovery list |
| `Containers.ContainerMonitor.CheckForShutdownContainers` | ExconConnection.rb:177-183 | the registry becomes the result of the delete-while-iterating pass `ShutdownFrom` |
| `Containers.ContainerMonitor.RefreshContainers` | ExconConnection.rb:185-193 | an empty registry is replaced by the discovery list; in both cases every discovered id is held; every held container still discovered is kept; every container is an old one or a fresh, cold, discovered one |
| `Containers.ContainerMonitor.SendStats` | ExconConnection.rb:125-152 | after the refresh every discovered id is held and every new container was discovered; every container is reported, in registry order, from its own history (old containers) or from a cold start (new ones) |
| `NagiosDriver.Status.Code` | Driver/Nagios.rb:9-12 | OK, WARNING and CRITICAL are numbered 0, 1, 2 by severity; UNKNOWN alone is 3 |
| `NagiosDriver.Status.CodeText` | Driver/Nagios.rb:55 | `%d` of a status is the single decimal digit of its code |
| `NagiosDriver.Usage` | Driver/Nagios.rb:36-43 | a missing stat reads as 0.0, a present one as its value |
| `NagiosDriver.Classify` | Driver/Nagios.rb:74-87 | WARNING exactly at or above the critical limit; CRITICAL exactly between the warning and critical limits; OK exactly below both; never UNKNOWN |
| `NagiosDriver.SwappedSeverity` | Driver/Nagios.rb:76-81 | with warning < critical, a usage at the critical limit is rated less severe than one at the warning limit |
| `NagiosDriver.AlertTextStartsWithLevel` | Driver/Nagios.rb:77-80 | every pushed message starts with `WARNING ` or `CRITICAL ` |
| `NagiosDriver.JoinAppend` | Driver/Nagios.rb:52 | joining keeps push order: a later message follows the earlier ones after the separator |
| `NagiosDriver.ReportMessageIsOkIffEmpty` | Driver/Nagios.rb:48-53 | the message is "OK: Everything is OK" exactly when no message was pushed |
| `NagiosDriver.PayloadFields` | Driver/Nagios.rb:55 | the payload splits at tabs into host name, "Docker Stats", the exit code and the message |
| `NagiosDriver.ExitFieldIsWorstCode` | Driver/Nagios.rb:54-55 | the payload's exit field is the digit of the worst recorded outcome: 0, 1 or 2, never 3 |
| `NagiosDriver.AllResourcesMonitored` | Driver/Nagios.rb:34-44 | every resource is checked |
| `NagiosDriver.StatusExitIsWorst` | Driver/Nagios.rb:60-71 | the exit status is the most severe recorded outcome, never UNKNOWN, and OK when nothing is recorded |
| `NagiosDriver.Nagios.constructor` | Driver/Nagios.rb:14-27 | server, limits and host name as given; no outcome and no message recorded |
| `NagiosDriver.Nagios.AlertsForMonitorOrder` | Driver/Nagios.rb:34-44 | one container's messages are those of CPU, RAM, NETIN, NETOUT and DISK, in that order |
| `NagiosDriver.Nagios.AlertsForSound` | Driver/Nagios.rb:74-87 | every message carries its container, a checked resource, its usage and its classification, which is not OK |
| `NagiosDriver.Nagios.AlertsForComplete` | Driver/Nagios.rb:74-87 | every checked resource whose classification is not OK produces a message |
| `NagiosDriver.Nagios.AlertsForOrdered` | Driver/Nagios.rb:34-44 | messages follow the order of the checks, at most one per resource |
| `NagiosDriver.Nagios.OutcomesCoverEveryResource` | Driver/Nagios.rb:34-44 | all five resources get an outcome: their usage classified against their own limit, never UNKNOWN |
| `NagiosDriver.Nagios.Reset` | Driver/Nagios.rb:29-32 | no message and no outcome remain |
| `NagiosDriver.Nagios.ValidateLimit` | Driver/Nagios.rb:74-87 | returns `Classify` of the usage and pushes one message with that level exactly when it is not OK |
| `NagiosDriver.Nagios.MonitorContainerStats` | Driver/Nagios.rb:34-44 | the container's entry becomes its five outcomes, and its messages are appended in check order |
| `NagiosDriver.Nagios.GetStatusExit` | Driver/Nagios.rb:60-71 | the loop over the outcome hash, stopping at the first CRITICAL, returns the worst outcome in any iteration order |
| `NagiosDriver.Nagios.OkMessageIffNoAlerts` | Driver/Nagios.rb:46-53 | the report says "OK: Everything is OK" exactly when no message was pushed this cycle |
| `NagiosDriver.Nagios.ResponseExitCode` | Driver/Nagios.rb:46-58 | the payload carries the host name, the worst outcome's code and the joined messages (or the OK text) |
| `Limits.ReadersReturnConstructorArguments` | Limits.rb:3-10 | the readers return the warning and critical limits given to the constructor |

## Left out

- `ExconConnection.connection` and `socket_path`: socket I/O against the Docker daemon; the daemon's answers are parameters.
- `get_containers`: the HTTP request and JSON parsing; the discovery list is a parameter of `RefreshContainers`, `SendStats` and the monitor's constructor.
- `Container#get_stats!`, `streamer` and `parse_stats`: the HTTP stream, JSON parsing, the unit conversions and `round(3)`; a fetched sample is a `map` merged by `RecordStats`.
- `send_stats` fetches the stats twice per container; the model takes one sample per container and cycle, which stands for the merge of both fetches. A fetch that times out or finds no block-I/O entry leaves the earlier values in place, and merging two samples in turn equals merging their union.
- `Container#inspect`, `streamer_inspect`, `parse_inspect` and `env_vars`: environment variables are only printed and never feed a computation.
- `read_stat` and `_read_stat`: the first returns a list of `key=value` strings that nothing uses, and the second is not defined in the repository, so `send_stats` as written raises NoMethodError on its first container; the model follows the loop as evidently intended.
- The `print` calls of `send_stats`: the printed `key=value` items are returned as `StatLine` values, one sequence per container. On a cold start `calc_difference` returns the Integer 0, printed as `0` rather than `0.0`; the model's value is the real 0.0.
- Floating point: counters, usages and limits are reals, so rounding, NaN and infinity are not modelled.
- The initial `"0.0%"` strings of the two percentage gauges are modelled as 0.0.
- `Socket.gethostname` becomes a constructor parameter of `Nagios`.
- The `send_nsca` shell command and `puts` of its output are left out; `ResponseExitCode` returns the line that would be sent.
- `Hash.new({})` shares one default hash between all containers, so nothing is ever stored under a container's key; the model stores each container's outcomes under its id, as the code evidently intends.
- Driver/Nagios.rb:66 calls `has_value`, which does not exist, for the WARNING branch; the model uses membership, as `has_value?` does.
- Driver/Nagios.rb:77 and 80 add a Float to a String, which raises in Ruby. The model renders the usage with a `renderUsage` function given at construction and keeps each message as an `Alert` that is turned into text when the report is built.
- `monitorContainerStats` reads `disk_io_service_bytes`, a key no container produces (the container's key is `disk_io_read`), so DISK is checked against 0.0 whenever the stats come from a container.
- `NagiosDriver.Nagios.GetStatusExit` iterates the outcome hash in an arbitrary order rather than Ruby's insertion order; the result is proved the same for every order.
- `Containers.ContainerMonitor.RefreshContainers`: for a non-empty registry it states properties of the new registry (discovered ids held, discovered containers kept, nothing foreign added) rather than the exact sequence; `CheckForNewContainers` and `CheckForShutdownContainers` state the exact sequences.
- `Containers.ContainerMonitor.SendStats` does not promise that every reported container is still discovered, because the shutdown pass can skip a vanished container.
- run.rb and Driver/Driver.rb, the polling loop and the driver wiring, are not part of this model.

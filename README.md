# Service monitor state machine, in Dafny

This project models the per-service monitor of a health-monitoring program. A `Monitor` is
given a service configuration (name, url, minimum and maximum check interval, and possibly
a status already held). `start` announces that monitoring has started and enters a loop.
Each pass of the loop does the following:

- reads the last stored status record of the service;
- checks the service's current status;
- asks the interval policy for the delay before the next pass;
- re-applies the stored record, if there is one, to the held status and the last-change time;
- compares the checked status with the held one by strict inequality.

When the two differ, the pass triggers a status-changed event built from the state held
before the change. It then takes the checked status and the current time as the new held
status and last-change time.

Two files:

- `MonitorSpec.dfy` (module `MonitorSpec`) holds the values: statuses, times, stored records,
  events and the monitor state. It gives the reference behaviour of one pass (`StepSpec`) and
  of a finite run of passes (`RunSpec`), and the lemmas about them. One of them
  (`RunAnnouncesChanges`) compares a run with an independent description: the run announces
  exactly at the indices where the checked status differs from the one held before.
- `Monitor.dfy` (module `Monitoring`) holds the imperative model. `Service` is the mutable
  configuration object. `Monitor` has the fields `service` and `lastStatusChanged`, plus a
  ghost log `emitted` of the events triggered on the event bus. Each method is proved against
  `StepSpec`/`RunSpec`. Its frame `service`status` shows that no other field of the service
  (`name`, `url`, `minInterval`, `maxInterval`) is written.

The outside world enters as values:

- the stored record, the checked status and the clock reading are the inputs of a pass
  (`StepInput`);
- the interval policy is a function value fixed when the monitor is built;
- the endless re-scheduling is a loop over a finite sequence of passes (`Run`), which returns
  the delay scheduled after each pass.

Two details of the code shape the model:

- The stored record is re-read and re-applied on every pass (`src/monitoring/Monitor.js:20`,
  `:24-27`), not only on the first pass after a restart. So the held status can change
  without an announcement, by a re-applied record. If the store keeps returning a record
  that the monitor has since moved away from, the same change is announced again on every
  pass (`StaleRecordReannounces`, `RestartScenarioUnchangedStore`). When the store holds
  exactly what was last announced, re-applying the record is harmless
  (`MirroredRecordIsHarmless`, `RestartScenarioMirroredStore`).
- The constructor (`src/monitoring/Monitor.js:8-11`) sets only `lastStatusChanged` to null
  and keeps the status the service already held.

## Model

| member | source | states |
|---|---|---|
| `MonitorSpec.StepSpec` | src/monitoring/Monitor.js:18-38 | The interval is the policy's value for the checked status and the service's min/max. The pass announces exactly when the checked status differs from the held status after the stored record is re-applied. The announcement carries the service name, the re-seeded held status and change time, the new status and `now`. Without an announcement the state is the re-seeded one. With one, the new state equals the announced status and time. After any pass the held status is the checked one. |
| `MonitorSpec.RunSpec` | src/monitoring/Monitor.js:18-38 | A run of n passes schedules n delays, the i-th being the policy's value for the i-th checked status. It emits at most n events. Each is a status change for this service whose old status differs from its new one. An empty run changes nothing. A non-empty run ends holding the last checked status. |
| `MonitorSpec.ChangeIndices` | src/monitoring/Monitor.js:32-34 | The change indices below n are exactly the passes whose checked status differs from the status held before them, listed in strictly increasing order. |
| `MonitorSpec.PrefixAnnouncesChanges` | src/monitoring/Monitor.js:18-60 | With no stored records, the first n passes emit one event per change index, in order. The k-th carries the held status before that pass, its checked status, its time, and the time of the previous change (or the initial one). Afterwards the state is the last checked status and the time of the last change. |
| `MonitorSpec.RunAnnouncesChanges` | src/monitoring/Monitor.js:18-60 | The same for a whole run: with no stored records, events are emitted exactly at the indices where the checked status differs from the previously held one, the first pass included, in detection order. |
| `MonitorSpec.ChainedAnnouncements` | src/monitoring/Monitor.js:44-59 | With no stored records, each event after the first has as old status and previous change time the status and time of the event before it. Two successive events never name the same status. |
| `MonitorSpec.RepeatedStatusIsSilent` | src/monitoring/Monitor.js:32-34 | A pass that finds no stored record and checks the same status as the pass before it adds no event to the run and leaves the state as it was, whatever the earlier passes found. So two identical consecutive statuses never give two announcements, unless the second pass itself finds a stored record that differs from its check; then the source announces again (`StaleRecordReannounces`). |
| `MonitorSpec.RestoredStatusConfirmed` | src/monitoring/Monitor.js:24-34 | A stored record whose status the check confirms is restored with no announcement, keeping the stored change time. |
| `MonitorSpec.RestoredStatusContradicted` | src/monitoring/Monitor.js:24-55 | A stored record that the check contradicts gives exactly one announcement, from the stored status and time to the checked status at `now`. |
| `MonitorSpec.StaleRecordReannounces` | src/monitoring/Monitor.js:20-27 | The record is re-applied on every pass: a stale record different from the checked status makes two consecutive passes both announce, the second again from the stored status and time. |
| `MonitorSpec.MirroredRecordIsHarmless` | src/monitoring/Monitor.js:24-27 | Re-applying a record equal to the held state gives the same pass as having no record. |
| `MonitorSpec.RestartScenarioMirroredStore` | src/monitoring/Monitor.js:18-60 | Restart with record up stored at time 0, then checks up, up, down, down, up at times 1-5. The store returns up@0 on passes 1-3 and down@3 on passes 4-5, so it mirrors the announcements. There are exactly two announcements: up to down at pass 3 and down to up at pass 5. After the restoring first pass the change time is 0. It becomes 3 at pass 3 and 5 at pass 5, and the state after every pass is given. |
| `MonitorSpec.RestartScenarioUnchangedStore` | src/monitoring/Monitor.js:18-60 | The same checks with the store returning up@0 on every pass. Up to down is announced at pass 3 and again at pass 4, both times from up@0. Nothing is announced at pass 5, and the monitor ends holding up@0. The state after every pass is given. |
| `Monitoring.Monitor.constructor` | src/monitoring/Monitor.js:8-11 | A new monitor holds the supplied service, keeps the status the service already held, has no last-change time and has emitted nothing. |
| `Monitoring.Monitor.Start` | src/monitoring/Monitor.js:13-16 | Exactly one monitoring-started event naming the service is emitted, before the events of the first pass. Then the state, events and delays are those of `RunSpec`. |
| `Monitoring.Monitor.Run` | src/monitoring/Monitor.js:18-38 | Running the passes in order appends `RunSpec`'s events to the log, leaves `RunSpec`'s final state and returns its delays. The configuration is unchanged. |
| `Monitoring.Monitor.StartMonitoring` | src/monitoring/Monitor.js:18-38 | One pass leaves the state given by `StepSpec` from the old state. It appends that pass's event, if any, to the log and returns its interval. Only the service's status and the monitor's own fields are written. |
| `Monitoring.Monitor.IsStatusDifferent` | src/monitoring/Monitor.js:40-42 | True iff the held status is unset or is a status other than the given one. This is strict inequality: an unset held status differs from every status. |
| `Monitoring.Monitor.HandleStatusChange` | src/monitoring/Monitor.js:44-60 | Emits exactly one status-changed event built from the state before the call (old status, previous change time or none), the new status and `now`. Then the held status is the new status and the change time is `now`. |

## Left out

- Status check, persistence read and event delivery (`checkHostStatus`, `persistence.getLastStatus`, `events.trigger`): external I/O. The first two are inputs of a pass. Delivery is an append to the ghost log `emitted`.
- `getCheckInterval`: its definition is not part of this model. It is an arbitrary function value, and no range property (such as lying between the minimum and maximum interval) is assumed or proved.
- `setTimeout` and the async/await scheduling: the endless self-rescheduling becomes a finite sequence of passes. Waiting out the delay is not modelled; the delays are returned instead.
- Exceptions from the collaborators (a failing store read, check or event dispatch) stop the loop in the source. The model has no failing collaborators.
- `moment` dates and `.clone()`: times are integers and a clone is a copy. The truthiness test on the last-change time becomes `None` versus `Some`.
- `logger().debug` calls: logging only.
- The Slack notification tests (`test/services/slack.test.js`): webhook delivery, outside the monitor.

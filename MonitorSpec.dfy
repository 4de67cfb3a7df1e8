/** Values and the reference behaviour of one service monitor (src/monitoring/Monitor.js).
    A pass of the monitoring loop is a pure function of the state it starts from and of
    the three things the outside world supplies to it: the last stored status record,
    the freshly checked status and the clock. The class in Monitor.dfy is proved
    against these functions. */
module MonitorSpec {

  datatype Option<+T> = None | Some(value: T)

  /** Status values are the strings the status checker returns ("up", "down", ...). */
  type Status = string

  /** A point in time; the library date objects of the source become integers. */
  type Time = int

  /** The interval policy `getCheckInterval(status, minInterval, maxInterval)`.
      Its definition is not part of this model, so it stays an arbitrary function. */
  type IntervalPolicy = (Status, int, int) -> int

  /** What a pass reads from the service configuration, plus the interval policy. */
  datatype Config = Config(name: string, minInterval: int, maxInterval: int, checkInterval: IntervalPolicy)

  /** The record the persistence layer returns for a service: its status and when it was stored. */
  datatype StoredStatus = StoredStatus(status: Status, createdAt: Time)

  /** The outside world's contribution to one pass. */
  datatype StepInput = StepInput(stored: Option<StoredStatus>, checked: Status, now: Time)

  /** The two kinds of event the monitor triggers on the event bus. */
  datatype Event =
    | MonitoringStarted(serviceName: string)
    | StatusChanged(serviceName: string, oldStatus: Option<Status>, status: Status,
                    time: Time, lastStatusChanged: Option<Time>)

  /** The monitor's own mutable state: the service's held status (unset until first
      resolved) and the time of the last change (null until one is known). */
  datatype MonitorState = MonitorState(status: Option<Status>, lastStatusChanged: Option<Time>)

  datatype StepResult = StepResult(next: MonitorState, event: Option<Event>, interval: int)

  datatype RunResult = RunResult(final: MonitorState, events: seq<Event>, intervals: seq<int>)

  /** The strict inequality `held !== status`: an unset held status differs from every status. */
  predicate Differs(held: Option<Status>, status: Status)
  {
    held != Some(status)
  }

  /** A stored record, when there is one, overwrites the held status and the change time. */
  function Reseed(st: MonitorState, stored: Option<StoredStatus>): MonitorState
  {
    match stored
    case None => st
    case Some(rec) => MonitorState(Some(rec.status), Some(rec.createdAt))
  }

  /** The events a pass triggers, as a sequence. */
  function EventsOf(e: Option<Event>): (r: seq<Event>)
    ensures |r| <= 1
  {
    if e.Some? then [e.value] else []
  }

  /** One pass of the loop: compute the interval, re-apply the stored record, compare, and
      on a difference announce the change from the pre-update state and then update. */
  function StepSpec(cfg: Config, st: MonitorState, input: StepInput): (r: StepResult)
    ensures r.interval == cfg.checkInterval(input.checked, cfg.minInterval, cfg.maxInterval)
    ensures var seeded := Reseed(st, input.stored);
      && (r.event.Some? <==> seeded.status != Some(input.checked))
      && (r.event.None? ==> r.next == seeded)
      && (r.event.Some? ==> r.event.value == StatusChanged(cfg.name, seeded.status, input.checked,
                                                           input.now, seeded.lastStatusChanged))
    ensures r.event.Some? ==> r.next == MonitorState(Some(r.event.value.status), Some(r.event.value.time))
    ensures r.next.status == Some(input.checked)
  {
    var seeded := Reseed(st, input.stored);
    var interval := cfg.checkInterval(input.checked, cfg.minInterval, cfg.maxInterval);
    if Differs(seeded.status, input.checked) then
      var event := StatusChanged(cfg.name, seeded.status, input.checked, input.now, seeded.lastStatusChanged);
      StepResult(MonitorState(Some(input.checked), Some(input.now)), Some(event), interval)
    else
      StepResult(seeded, None, interval)
  }

  /** A finite run of passes, in order; the last pass is peeled off so that a loop over
      the inputs extends the run one pass at a time. */
  function RunSpec(cfg: Config, st: MonitorState, inputs: seq<StepInput>): (r: RunResult)
    ensures |r.intervals| == |inputs|
    ensures forall i :: 0 <= i < |inputs| ==>
              r.intervals[i] == cfg.checkInterval(inputs[i].checked, cfg.minInterval, cfg.maxInterval)
    ensures |r.events| <= |inputs|
    ensures forall e :: e in r.events ==>
              e.StatusChanged? && e.serviceName == cfg.name && e.oldStatus != Some(e.status)
    ensures inputs == [] ==> r.final == st && r.events == []
    ensures inputs != [] ==> r.final.status == Some(inputs[|inputs| - 1].checked)
    decreases |inputs|
  {
    if inputs == [] then RunResult(st, [], [])
    else
      var pre := RunSpec(cfg, st, inputs[..|inputs| - 1]);
      var step := StepSpec(cfg, pre.final, inputs[|inputs| - 1]);
      RunResult(step.next, pre.events + EventsOf(step.event), pre.intervals + [step.interval])
  }

  // ---------------------------------------------------------------------------------
  // An independent description of a run in which the store never has a record.

  /** True when no pass of the run finds a stored record. */
  predicate NoStored(inputs: seq<StepInput>)
  {
    forall i :: 0 <= i < |inputs| ==> inputs[i].stored.None?
  }

  /** The status held before pass `i` of a run without stored records: the initial status
      before the first pass, and the previously checked status after that. */
  function HeldBefore(init: Option<Status>, inputs: seq<StepInput>, i: nat): Option<Status>
    requires i <= |inputs|
  {
    if i == 0 then init else Some(inputs[i - 1].checked)
  }

  /** Pass `i` sees a status different from the one held before it. */
  predicate ChangesAt(init: Option<Status>, inputs: seq<StepInput>, i: nat)
    requires i < |inputs|
  {
    Differs(HeldBefore(init, inputs, i), inputs[i].checked)
  }

  /** The indices below `n` at which the status changes, in increasing order. */
  function ChangeIndices(init: Option<Status>, inputs: seq<StepInput>, n: nat): (r: seq<nat>)
    requires n <= |inputs|
    ensures forall i :: 0 <= i < n ==> (i in r <==> ChangesAt(init, inputs, i))
    ensures forall k :: 0 <= k < |r| ==> r[k] < n
    ensures forall k, l :: 0 <= k < l < |r| ==> r[k] < r[l]
    decreases n
  {
    if n == 0 then []
    else ChangeIndices(init, inputs, n - 1) + (if ChangesAt(init, inputs, n - 1) then [n - 1] else [])
  }

  /** The time of the last change among the given change indices, or the initial one. */
  function LastChange(init: MonitorState, inputs: seq<StepInput>, idx: seq<nat>): Option<Time>
    requires forall k :: 0 <= k < |idx| ==> idx[k] < |inputs|
  {
    if idx == [] then init.lastStatusChanged else Some(inputs[idx[|idx| - 1]].now)
  }

  /** The `k`-th announcement a run without stored records should make. */
  function ExpectedEvent(name: string, init: MonitorState, inputs: seq<StepInput>, idx: seq<nat>, k: nat): Event
    requires k < |idx|
    requires forall j :: 0 <= j < |idx| ==> idx[j] < |inputs|
  {
    StatusChanged(name, HeldBefore(init.status, inputs, idx[k]), inputs[idx[k]].checked, inputs[idx[k]].now,
                  LastChange(init, inputs, idx[..k]))
  }

  /** Without stored records, the first `n` passes announce exactly at the change indices,
      in order, each announcement carrying the state held before it; the state afterwards
      is the last checked status and the time of the last announcement. */
  lemma {:induction false} PrefixAnnouncesChanges(cfg: Config, init: MonitorState, inputs: seq<StepInput>, n: nat)
    requires n <= |inputs| && NoStored(inputs)
    ensures var r := RunSpec(cfg, init, inputs[..n]);
            var idx := ChangeIndices(init.status, inputs, n);
      && |r.events| == |idx|
      && (forall k :: 0 <= k < |idx| ==> r.events[k] == ExpectedEvent(cfg.name, init, inputs, idx, k))
      && r.final == MonitorState(HeldBefore(init.status, inputs, n), LastChange(init, inputs, idx))
  {
    if n > 0 {
      var m := n - 1;
      PrefixAnnouncesChanges(cfg, init, inputs, m);
      assert inputs[..n][..m] == inputs[..m];
      var pre := RunSpec(cfg, init, inputs[..m]);
      var idxPre := ChangeIndices(init.status, inputs, m);
      var step := StepSpec(cfg, pre.final, inputs[m]);
      var r := RunSpec(cfg, init, inputs[..n]);
      var idx := ChangeIndices(init.status, inputs, n);
      assert r == RunResult(step.next, pre.events + EventsOf(step.event), pre.intervals + [step.interval]);
      assert Reseed(pre.final, inputs[m].stored) == pre.final by {
        assert inputs[m].stored.None?;
      }
      var changed := ChangesAt(init.status, inputs, m);
      assert idx == idxPre + (if changed then [m] else []);
      assert step.event.Some? == changed;
      forall k | 0 <= k < |idx|
        ensures r.events[k] == ExpectedEvent(cfg.name, init, inputs, idx, k)
      {
        assert idx[..k] == idxPre[..k] || k == |idxPre|;
        if k < |idxPre| {
          assert idx[..k] == idxPre[..k];
          assert r.events[k] == pre.events[k];
        } else {
          assert idx[..k] == idxPre;
          assert r.events[k] == step.event.value;
        }
      }
    }
  }

  /** With no stored records, a run announces exactly at the indices where the checked
      status differs from the one held before, the first pass included, in detection order. */
  lemma RunAnnouncesChanges(cfg: Config, init: MonitorState, inputs: seq<StepInput>)
    requires NoStored(inputs)
    ensures var r := RunSpec(cfg, init, inputs);
            var idx := ChangeIndices(init.status, inputs, |inputs|);
      && |r.events| == |idx|
      && (forall k :: 0 <= k < |idx| ==> r.events[k] == ExpectedEvent(cfg.name, init, inputs, idx, k))
      && r.final == MonitorState(HeldBefore(init.status, inputs, |inputs|), LastChange(init, inputs, idx))
  {
    PrefixAnnouncesChanges(cfg, init, inputs, |inputs|);
    assert inputs[..|inputs|] == inputs;
  }

  /** Between two change indices the checked status stays what the earlier one saw. */
  lemma {:induction false} StableBetweenChanges(init: Option<Status>, inputs: seq<StepInput>, a: nat, b: nat)
    requires a < b <= |inputs|
    requires forall j :: a < j < b ==> !ChangesAt(init, inputs, j)
    ensures inputs[b - 1].checked == inputs[a].checked
    decreases b
  {
    if b - 1 > a {
      StableBetweenChanges(init, inputs, a, b - 1);
      assert !ChangesAt(init, inputs, b - 1);
    }
  }

  /** With no stored records, each announcement after the first starts from the status and
      the time of the one before it, and no two successive announcements name the same status:
      the run announces relative to the previously announced status. */
  lemma ChainedAnnouncements(cfg: Config, init: MonitorState, inputs: seq<StepInput>, k: nat)
    requires NoStored(inputs)
    requires k + 1 < |RunSpec(cfg, init, inputs).events|
    ensures var es := RunSpec(cfg, init, inputs).events;
      && es[k + 1].oldStatus == Some(es[k].status)
      && es[k + 1].lastStatusChanged == Some(es[k].time)
      && es[k + 1].status != es[k].status
  {
    RunAnnouncesChanges(cfg, init, inputs);
    ExpectedEventsChain(cfg.name, init, inputs, k);
  }

  /** Successive expected announcements are chained through the status and the time. */
  lemma ExpectedEventsChain(name: string, init: MonitorState, inputs: seq<StepInput>, k: nat)
    requires k + 1 < |ChangeIndices(init.status, inputs, |inputs|)|
    ensures var idx := ChangeIndices(init.status, inputs, |inputs|);
            var e0 := ExpectedEvent(name, init, inputs, idx, k);
            var e1 := ExpectedEvent(name, init, inputs, idx, k + 1);
      && e1.oldStatus == Some(e0.status)
      && e1.lastStatusChanged == Some(e0.time)
      && e1.status != e0.status
  {
    var idx := ChangeIndices(init.status, inputs, |inputs|);
    var a, b := idx[k], idx[k + 1];
    assert a < b;
    forall j | a < j < b
      ensures !ChangesAt(init.status, inputs, j)
    {
      BetweenNeighboursNotListed(idx, k, j);
    }
    StableBetweenChanges(init.status, inputs, a, b);
    assert idx[..k + 1][k] == a;
    assert b in idx;
  }

  /** In a strictly increasing sequence nothing lies strictly between two neighbours. */
  lemma BetweenNeighboursNotListed(idx: seq<nat>, k: nat, j: nat)
    requires k + 1 < |idx|
    requires forall p, q :: 0 <= p < q < |idx| ==> idx[p] < idx[q]
    requires idx[k] < j < idx[k + 1]
    ensures j !in idx
  {
  }

  /** A pass that finds no stored record and checks the same status as the pass before it
      announces nothing and changes nothing, whatever the earlier passes found: two identical
      consecutive statuses never give two announcements unless the second pass itself finds
      a record that differs from its check (see StaleRecordReannounces). */
  lemma RepeatedStatusIsSilent(cfg: Config, init: MonitorState, inputs: seq<StepInput>, i: nat)
    requires i + 1 < |inputs|
    requires inputs[i + 1].stored.None?
    requires inputs[i + 1].checked == inputs[i].checked
    ensures RunSpec(cfg, init, inputs[..i + 2]).events == RunSpec(cfg, init, inputs[..i + 1]).events
    ensures RunSpec(cfg, init, inputs[..i + 2]).final == RunSpec(cfg, init, inputs[..i + 1]).final
  {
    assert inputs[..i + 2][..i + 1] == inputs[..i + 1];
    assert inputs[..i + 2][i + 1] == inputs[i + 1];
    assert inputs[..i + 1][i] == inputs[i];
  }

  // ---------------------------------------------------------------------------------
  // Passes that find a stored record.

  /** After a restart, a stored record whose status the first check confirms is restored
      without an announcement, keeping the stored change time. */
  lemma RestoredStatusConfirmed(cfg: Config, st: MonitorState, rec: StoredStatus, now: Time)
    ensures var r := StepSpec(cfg, st, StepInput(Some(rec), rec.status, now));
      r.event == None && r.next == MonitorState(Some(rec.status), Some(rec.createdAt))
  {
  }

  /** After a restart, a stored record that the first check contradicts gives exactly one
      announcement, from the stored status and time to the checked status. */
  lemma RestoredStatusContradicted(cfg: Config, st: MonitorState, rec: StoredStatus, checked: Status, now: Time)
    requires checked != rec.status
    ensures var r := StepSpec(cfg, st, StepInput(Some(rec), checked, now));
      r.event == Some(StatusChanged(cfg.name, Some(rec.status), checked, now, Some(rec.createdAt)))
  {
  }

  /** The stored record is re-applied on every pass: when the store keeps returning a record
      the monitor has since moved away from, the same change is announced again. */
  lemma StaleRecordReannounces(cfg: Config, st: MonitorState, rec: StoredStatus, checked: Status, t1: Time, t2: Time)
    requires checked != rec.status
    ensures var r1 := StepSpec(cfg, st, StepInput(Some(rec), checked, t1));
            var r2 := StepSpec(cfg, r1.next, StepInput(Some(rec), checked, t2));
      && r1.event.Some? && r2.event.Some?
      && r2.event.value.oldStatus == Some(rec.status)
      && r2.event.value.lastStatusChanged == Some(rec.createdAt)
  {
  }

  /** Re-applying a record that mirrors the held state changes nothing: when the store
      holds what the monitor last announced, a pass behaves as if there were no record. */
  lemma MirroredRecordIsHarmless(cfg: Config, st: MonitorState, input: StepInput)
    requires st.status.Some? && st.lastStatusChanged.Some?
    requires input.stored == Some(StoredStatus(st.status.value, st.lastStatusChanged.value))
    ensures StepSpec(cfg, st, input) == StepSpec(cfg, st, input.(stored := None))
  {
  }

  /** A restart that finds the record "up" stored at time 0, followed by checks up, up, down,
      down, up at times 1..5, where the store mirrors what the monitor announces (a consumer
      of the events persists each change before the next pass reads it): exactly two
      announcements, up to down at the third pass and down to up at the fifth. After the
      restoring first pass the change time is 0; it becomes 3 at the third pass and 5 at
      the fifth, and stays put in between. */
  lemma RestartScenarioMirroredStore(cfg: Config, st: MonitorState)
    ensures var inputs := [StepInput(Some(StoredStatus("up", 0)), "up", 1),
                           StepInput(Some(StoredStatus("up", 0)), "up", 2),
                           StepInput(Some(StoredStatus("up", 0)), "down", 3),
                           StepInput(Some(StoredStatus("down", 3)), "down", 4),
                           StepInput(Some(StoredStatus("down", 3)), "up", 5)];
            var r := RunSpec(cfg, st, inputs);
      && RunSpec(cfg, st, inputs[..1]).final == MonitorState(Some("up"), Some(0))
      && RunSpec(cfg, st, inputs[..2]).final == MonitorState(Some("up"), Some(0))
      && RunSpec(cfg, st, inputs[..3]).final == MonitorState(Some("down"), Some(3))
      && RunSpec(cfg, st, inputs[..4]).final == MonitorState(Some("down"), Some(3))
      && r.final == MonitorState(Some("up"), Some(5))
      && r.events == [StatusChanged(cfg.name, Some("up"), "down", 3, Some(0)),
                      StatusChanged(cfg.name, Some("down"), "up", 5, Some(3))]
  {
    var inputs := [StepInput(Some(StoredStatus("up", 0)), "up", 1),
                   StepInput(Some(StoredStatus("up", 0)), "up", 2),
                   StepInput(Some(StoredStatus("up", 0)), "down", 3),
                   StepInput(Some(StoredStatus("down", 3)), "down", 4),
                   StepInput(Some(StoredStatus("down", 3)), "up", 5)];
    var e1 := StatusChanged(cfg.name, Some("up"), "down", 3, Some(0));
    assert inputs[..1][..0] == [];
    assert RunSpec(cfg, st, inputs[..1]).final == MonitorState(Some("up"), Some(0));
    assert RunSpec(cfg, st, inputs[..1]).events == [];
    assert inputs[..2][..1] == inputs[..1];
    assert RunSpec(cfg, st, inputs[..2]).final == MonitorState(Some("up"), Some(0));
    assert RunSpec(cfg, st, inputs[..2]).events == [];
    assert inputs[..3][..2] == inputs[..2];
    assert RunSpec(cfg, st, inputs[..3]).final == MonitorState(Some("down"), Some(3));
    assert RunSpec(cfg, st, inputs[..3]).events == [e1];
    assert inputs[..4][..3] == inputs[..3];
    assert RunSpec(cfg, st, inputs[..4]).final == MonitorState(Some("down"), Some(3));
    assert RunSpec(cfg, st, inputs[..4]).events == [e1];
    assert inputs[..5][..4] == inputs[..4];
    assert inputs[..5] == inputs;
  }

  /** The same checks when the store keeps returning the record "up" stored at time 0 on
      every pass: because the record is re-applied before each comparison, the change up to
      down is announced at the third pass and again at the fourth, both times from the stored
      status and time, nothing is announced at the fifth, and the monitor ends holding the
      stored status and time. */
  lemma RestartScenarioUnchangedStore(cfg: Config, st: MonitorState)
    ensures var rec := Some(StoredStatus("up", 0));
            var inputs := [StepInput(rec, "up", 1), StepInput(rec, "up", 2), StepInput(rec, "down", 3),
                           StepInput(rec, "down", 4), StepInput(rec, "up", 5)];
            var r := RunSpec(cfg, st, inputs);
      && RunSpec(cfg, st, inputs[..1]).final == MonitorState(Some("up"), Some(0))
      && RunSpec(cfg, st, inputs[..2]).final == MonitorState(Some("up"), Some(0))
      && RunSpec(cfg, st, inputs[..3]).final == MonitorState(Some("down"), Some(3))
      && RunSpec(cfg, st, inputs[..4]).final == MonitorState(Some("down"), Some(4))
      && r.final == MonitorState(Some("up"), Some(0))
      && r.events == [StatusChanged(cfg.name, Some("up"), "down", 3, Some(0)),
                      StatusChanged(cfg.name, Some("up"), "down", 4, Some(0))]
  {
    var rec := Some(StoredStatus("up", 0));
    var inputs := [StepInput(rec, "up", 1), StepInput(rec, "up", 2), StepInput(rec, "down", 3),
                   StepInput(rec, "down", 4), StepInput(rec, "up", 5)];
    var e1 := StatusChanged(cfg.name, Some("up"), "down", 3, Some(0));
    var e2 := StatusChanged(cfg.name, Some("up"), "down", 4, Some(0));
    assert inputs[..1][..0] == [];
    assert RunSpec(cfg, st, inputs[..1]).final == MonitorState(Some("up"), Some(0));
    assert RunSpec(cfg, st, inputs[..1]).events == [];
    assert inputs[..2][..1] == inputs[..1];
    assert RunSpec(cfg, st, inputs[..2]).final == MonitorState(Some("up"), Some(0));
    assert RunSpec(cfg, st, inputs[..2]).events == [];
    assert inputs[..3][..2] == inputs[..2];
    assert RunSpec(cfg, st, inputs[..3]).final == MonitorState(Some("down"), Some(3));
    assert RunSpec(cfg, st, inputs[..3]).events == [e1];
    assert inputs[..4][..3] == inputs[..3];
    assert RunSpec(cfg, st, inputs[..4]).final == MonitorState(Some("down"), Some(4));
    assert RunSpec(cfg, st, inputs[..4]).events == [e1, e2];
    assert inputs[..5][..4] == inputs[..4];
    assert inputs[..5] == inputs;
  }
}

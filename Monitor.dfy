/** The monitor of one service (src/monitoring/Monitor.js) as the source has it: an object
    that holds the service configuration, updates the service's status and its own
    last-change time in place, and triggers events on the event bus. Each method is
    proved against the pure reference behaviour in MonitorSpec. */
module Monitoring {
  import opened MonitorSpec

  /** The service configuration the monitor is given. The monitor writes only `status`. */
  class Service {
    var name: string
    var url: string
    var minInterval: int
    var maxInterval: int
    var status: Option<Status>

    constructor (name: string, url: string, minInterval: int, maxInterval: int, status: Option<Status>)
      ensures this.name == name && this.url == url
      ensures this.minInterval == minInterval && this.maxInterval == maxInterval
      ensures this.status == status
    {
      this.name := name;
      this.url := url;
      this.minInterval := minInterval;
      this.maxInterval := maxInterval;
      this.status := status;
    }
  }

  class Monitor {
    const service: Service
    /** The interval policy the monitor consults after every check. */
    const checkInterval: IntervalPolicy
    var lastStatusChanged: Option<Time>
    /** Every event the monitor has triggered on the event bus, oldest first. */
    ghost var emitted: seq<Event>

    /** A new monitor keeps whatever status the service already holds and knows no change time. */
    constructor (service: Service, checkInterval: IntervalPolicy)
      ensures this.service == service && this.checkInterval == checkInterval
      ensures State() == MonitorState(service.status, None)
      ensures emitted == []
    {
      this.service := service;
      this.checkInterval := checkInterval;
      lastStatusChanged := None;
      emitted := [];
    }

    /** The configuration values one pass reads. */
    function CurrentConfig(): Config
      reads service
    {
      Config(service.name, service.minInterval, service.maxInterval, checkInterval)
    }

    /** The state the passes of the loop read and write. */
    function State(): MonitorState
      reads this, service
    {
      MonitorState(service.status, lastStatusChanged)
    }

    /** Emits the monitoring-started event, then runs the loop over the given passes
        (the source re-schedules itself forever; here the passes are a finite sequence). */
    method Start(inputs: seq<StepInput>) returns (intervals: seq<int>)
      modifies this`lastStatusChanged, this`emitted, service`status
      ensures var run := RunSpec(old(CurrentConfig()), old(State()), inputs);
        && emitted == old(emitted) + [MonitoringStarted(service.name)] + run.events
        && State() == run.final
        && intervals == run.intervals
      ensures CurrentConfig() == old(CurrentConfig())
    {
      emitted := emitted + [MonitoringStarted(service.name)];
      intervals := Run(inputs);
    }

    /** The self-rescheduling loop, over a finite sequence of passes; returns the delay
        scheduled after each pass. */
    method Run(inputs: seq<StepInput>) returns (intervals: seq<int>)
      modifies this`lastStatusChanged, this`emitted, service`status
      ensures var run := RunSpec(old(CurrentConfig()), old(State()), inputs);
        && emitted == old(emitted) + run.events
        && State() == run.final
        && intervals == run.intervals
      ensures CurrentConfig() == old(CurrentConfig())
    {
      ghost var cfg, init, log := CurrentConfig(), State(), emitted;
      intervals := [];
      var i := 0;
      while i < |inputs|
        invariant 0 <= i <= |inputs|
        invariant CurrentConfig() == cfg
        invariant var run := RunSpec(cfg, init, inputs[..i]);
          emitted == log + run.events && State() == run.final && intervals == run.intervals
      {
        var interval := StartMonitoring(inputs[i].stored, inputs[i].checked, inputs[i].now);
        intervals := intervals + [interval];
        assert inputs[..i + 1][..i] == inputs[..i];
        i := i + 1;
      }
      assert inputs[..i] == inputs;
    }

    /** One pass of the loop. The stored record, the checked status and the time are what
        the persistence layer, the status check and the clock would supply. */
    method StartMonitoring(stored: Option<StoredStatus>, checked: Status, now: Time) returns (interval: int)
      modifies this`lastStatusChanged, this`emitted, service`status
      ensures var step := StepSpec(old(CurrentConfig()), old(State()), StepInput(stored, checked, now));
        && State() == step.next
        && emitted == old(emitted) + EventsOf(step.event)
        && interval == step.interval
      ensures CurrentConfig() == old(CurrentConfig())
    {
      var minInterval, maxInterval := service.minInterval, service.maxInterval;
      var status := checked;
      interval := checkInterval(status, minInterval, maxInterval);

      if stored.Some? {
        service.status := Some(stored.value.status);
        lastStatusChanged := Some(stored.value.createdAt);
      }

      if IsStatusDifferent(status) {
        HandleStatusChange(status, now);
      }
    }

    /** The strict inequality of the held status and `status`. */
    function IsStatusDifferent(status: Status): (r: bool)
      reads service
      ensures r <==> Differs(service.status, status)
      ensures r <==> (service.status.None? || service.status.value != status)
      ensures service.status == None ==> r
    {
      service.status != Some(status)
    }

    /** Announces the change from the current state, then takes `status` and `now` as the
        new held status and last-change time. */
    method HandleStatusChange(status: Status, now: Time)
      modifies this`lastStatusChanged, this`emitted, service`status
      ensures emitted == old(emitted) + [StatusChanged(service.name, old(service.status), status,
                                                       now, old(lastStatusChanged))]
      ensures State() == MonitorState(Some(status), Some(now))
    {
      var currentTime := now;
      var event := StatusChanged(service.name, service.status, status, currentTime, lastStatusChanged);
      emitted := emitted + [event];
      service.status := Some(status);
      lastStatusChanged := Some(currentTime);
    }
  }
}

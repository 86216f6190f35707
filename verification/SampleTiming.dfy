/** The sampling state machines of the IMU and the barometer, in unbounded true time. */
module SampleTiming {
  import opened Bytes
  import Ticks

  const IMU_INTERVAL_MS: uint32 := 100
  const BAROMETER_INTERVAL_MS: uint32 := 200
  const SETTLING_TIME_MS: uint32 := 2000

  datatype State = Initializing | Settling | Sampling | SensorFailed

  datatype Outcome = Running | Announced(name: string) | Sampled | Reported | Failed

  /** `initializedAt`, `readyAt` and `samples` are history, in true time. */
  datatype Sensor = Sensor(state: State, nextSampleAt: uint32, initializedAt: nat, readyAt: nat, samples: seq<nat>)

  /** One process call at true time `time`; `works` is whether the sensor answers. */
  datatype Call = Call(time: nat, works: bool)

  function Begun(leftover: uint32): Sensor {
    Sensor(Initializing, leftover, 0, 0, [])
  }

  /** The due check, the re-arming and the reading that both machines share. */
  function Sample(s: Sensor, call: Call, interval: uint32, failure: Outcome): (Sensor, Outcome) {
    var now := Ticks.Tick(call.time);
    if !Ticks.Reached(now, s.nextSampleAt) then (s, Running)
    else
      var armed := s.(nextSampleAt := Ticks.Later(now, interval));
      if !call.works then (armed.(state := SensorFailed), failure)
      else (armed.(samples := s.samples + [call.time]), Sampled)
  }

  /** bmi270_test_process. */
  function ProcessImu(s: Sensor, call: Call): (Sensor, Outcome) {
    match s.state
    case Initializing =>
      if !call.works then (s.(state := SensorFailed), Failed)
      else (s.(state := Sampling, nextSampleAt := Ticks.Tick(call.time), initializedAt := call.time,
               readyAt := call.time),
            Announced("imu_ready"))
    case SensorFailed => (s, Failed)
    case _ => Sample(s, call, IMU_INTERVAL_MS, Failed)
  }

  /** bmp388_test_process. */
  function ProcessBarometer(s: Sensor, call: Call): (Sensor, Outcome) {
    var now := Ticks.Tick(call.time);
    match s.state
    case Initializing =>
      if !call.works then (s.(state := SensorFailed), Reported)
      else (s.(state := Settling, nextSampleAt := Ticks.Later(now, SETTLING_TIME_MS), initializedAt := call.time),
            Announced("barometer_stabilizing"))
    case Settling =>
      if !Ticks.Reached(now, s.nextSampleAt) then (s, Running)
      else (s.(state := Sampling, nextSampleAt := now, readyAt := call.time), Announced("barometer_ready"))
    case SensorFailed => (s, Failed)
    case Sampling => Sample(s, call, BAROMETER_INTERVAL_MS, Reported)
  }

  function ImuAfter(leftover: uint32, calls: seq<Call>): Sensor {
    if calls == [] then Begun(leftover) else ProcessImu(ImuAfter(leftover, calls[..|calls| - 1]), calls[|calls| - 1]).0
  }

  function BarometerAfter(leftover: uint32, calls: seq<Call>): Sensor {
    if calls == [] then Begun(leftover)
    else ProcessBarometer(BarometerAfter(leftover, calls[..|calls| - 1]), calls[|calls| - 1]).0
  }

  /** Call times never go back. */
  predicate Ordered(calls: seq<Call>) {
    forall i, j :: 0 <= i < j < |calls| ==> calls[i].time <= calls[j].time
  }

  // ---------------------------------------------------------------- spacing

  /** While sampling, the target is the ready time or one interval after the last sample. */
  predicate Armed(s: Sensor, interval: uint32) {
    s.nextSampleAt ==
    if s.samples == [] then Ticks.Tick(s.readyAt) else Ticks.Later(Ticks.Tick(s.samples[|s.samples| - 1]), interval)
  }

  predicate SensorValid(s: Sensor, interval: uint32, now: nat) {
    && Ticks.SpacedBy(s.samples, interval)
    && (s.samples != [] ==> s.samples[|s.samples| - 1] <= now)
    && match s.state
       case Initializing => s.samples == []
       case Settling => s.samples == [] && s.initializedAt <= now
                        && s.nextSampleAt == Ticks.Later(Ticks.Tick(s.initializedAt), SETTLING_TIME_MS)
       case Sampling => Armed(s, interval) && s.readyAt <= now
       case SensorFailed => true
  }

  lemma SampleKeepsValid(s: Sensor, call: Call, interval: uint32, failure: Outcome, now: nat)
    requires SensorValid(s, interval, now) && s.state == Sampling && now <= call.time && interval <= Ticks.HALF
    ensures SensorValid(Sample(s, call, interval, failure).0, interval, call.time)
  {
    if Ticks.Reached(Ticks.Tick(call.time), s.nextSampleAt) && call.works {
      if s.samples != [] {
        Ticks.NeverEarly(s.samples[|s.samples| - 1], interval, call.time);
      }
      Ticks.SpacedSnoc(s.samples, interval, call.time);
    }
  }

  /** Neither machine can be fooled by a late call into sampling early. */
  lemma ImuKeepsValid(s: Sensor, call: Call, now: nat)
    requires SensorValid(s, IMU_INTERVAL_MS, now) && now <= call.time && s.state != Settling
    ensures SensorValid(ProcessImu(s, call).0, IMU_INTERVAL_MS, call.time) && ProcessImu(s, call).0.state != Settling
  {
    if s.state == Sampling {
      SampleKeepsValid(s, call, IMU_INTERVAL_MS, Failed, now);
    }
  }

  lemma BarometerKeepsValid(s: Sensor, call: Call, now: nat)
    requires SensorValid(s, BAROMETER_INTERVAL_MS, now) && now <= call.time
    ensures SensorValid(ProcessBarometer(s, call).0, BAROMETER_INTERVAL_MS, call.time)
  {
    if s.state == Sampling {
      SampleKeepsValid(s, call, BAROMETER_INTERVAL_MS, Reported, now);
    }
  }

  function LastTime(calls: seq<Call>): nat {
    if calls == [] then 0 else calls[|calls| - 1].time
  }

  lemma {:induction false} ImuValidAlways(leftover: uint32, calls: seq<Call>)
    requires Ordered(calls)
    ensures SensorValid(ImuAfter(leftover, calls), IMU_INTERVAL_MS, LastTime(calls)) &&
            ImuAfter(leftover, calls).state != Settling
  {
    if calls != [] {
      var before := calls[..|calls| - 1];
      ImuValidAlways(leftover, before);
      ImuKeepsValid(ImuAfter(leftover, before), calls[|calls| - 1], LastTime(before));
    }
  }

  lemma {:induction false} BarometerValidAlways(leftover: uint32, calls: seq<Call>)
    requires Ordered(calls)
    ensures SensorValid(BarometerAfter(leftover, calls), BAROMETER_INTERVAL_MS, LastTime(calls))
  {
    if calls != [] {
      var before := calls[..|calls| - 1];
      BarometerValidAlways(leftover, before);
      BarometerKeepsValid(BarometerAfter(leftover, before), calls[|calls| - 1], LastTime(before));
    }
  }

  /** IMU samples are at least 100 ms apart in every run, across tick wrap-around and however
      late the calls come. */
  lemma ImuSamplesSpaced(leftover: uint32, calls: seq<Call>, i: nat)
    requires Ordered(calls) && i + 1 < |ImuAfter(leftover, calls).samples|
    ensures var samples := ImuAfter(leftover, calls).samples; samples[i] + 100 <= samples[i + 1]
  {
    ImuValidAlways(leftover, calls);
    Ticks.SpacedEverywhere(ImuAfter(leftover, calls).samples, IMU_INTERVAL_MS, i);
  }

  lemma BarometerSamplesSpaced(leftover: uint32, calls: seq<Call>, i: nat)
    requires Ordered(calls) && i + 1 < |BarometerAfter(leftover, calls).samples|
    ensures var samples := BarometerAfter(leftover, calls).samples; samples[i] + 200 <= samples[i + 1]
  {
    BarometerValidAlways(leftover, calls);
    Ticks.SpacedEverywhere(BarometerAfter(leftover, calls).samples, BAROMETER_INTERVAL_MS, i);
  }

  /** barometer_ready comes no earlier than 2000 ms after the call that initialized the sensor. */
  lemma ReadyAfterSettling(leftover: uint32, calls: seq<Call>, call: Call)
    requires Ordered(calls) && LastTime(calls) <= call.time
    requires ProcessBarometer(BarometerAfter(leftover, calls), call).1 == Announced("barometer_ready")
    ensures BarometerAfter(leftover, calls).initializedAt + 2000 <= call.time
  {
    BarometerValidAlways(leftover, calls);
    var s := BarometerAfter(leftover, calls);
    assert "barometer_ready" != "barometer_stabilizing";
    assert s.state == Settling;
    Ticks.NeverEarly(s.initializedAt, SETTLING_TIME_MS, call.time);
  }

  /** When the next sample falls due: as the sensor becomes ready, and then one interval after
      the last one. */
  function DueAt(s: Sensor, interval: nat): nat {
    if s.samples == [] then s.readyAt else s.samples[|s.samples| - 1] + interval
  }

  /** A sampling call before the due time does nothing; one after it reads the sensor, once. */
  predicate SamplesWhenDue(s: Sensor, call: Call, interval: nat, failure: Outcome, t: Sensor, outcome: Outcome) {
    if call.time < DueAt(s, interval) then t == s && outcome == Running
    else if !call.works then t.state == SensorFailed && outcome == failure && t.samples == s.samples
    else t.state == Sampling && outcome == Sampled && t.samples == s.samples + [call.time]
  }

  /** Provided the call comes less than 2^31 ms after the due time; a later one may be taken for
      an early one. */
  lemma SampledExactlyWhenDue(s: Sensor, call: Call, interval: uint32, failure: Outcome, now: nat)
    requires SensorValid(s, interval, now) && s.state == Sampling && now <= call.time && interval <= Ticks.HALF
    requires call.time < DueAt(s, interval) + Ticks.HALF
    ensures var (t, outcome) := Sample(s, call, interval, failure);
            SamplesWhenDue(s, call, interval, failure, t, outcome)
  {
    if s.samples != [] {
      Ticks.LaterIsTick(s.samples[|s.samples| - 1], interval);
    }
    Ticks.ReachedIffPassed(call.time, DueAt(s, interval));
  }

  /** Every call of the IMU test: the first one initializes the sensor, announces it ready or
      fails; then it is read every 100 ms; a failure is final. */
  lemma EveryImuCall(leftover: uint32, calls: seq<Call>, call: Call)
    requires Ordered(calls) && LastTime(calls) <= call.time
    requires call.time < DueAt(ImuAfter(leftover, calls), 100) + Ticks.HALF
    ensures var s := ImuAfter(leftover, calls);
            var (t, outcome) := ProcessImu(s, call);
            && (s.state == Initializing <==> calls == [])
            && (calls == [] ==> outcome == (if call.works then Announced("imu_ready") else Failed)
                                && t.state == (if call.works then Sampling else SensorFailed)
                                && (call.works ==> DueAt(t, 100) == call.time))
            && (s.state == Sampling ==> SamplesWhenDue(s, call, 100, Failed, t, outcome))
            && (s.state == SensorFailed ==> t == s && outcome == Failed)
  {
    ImuValidAlways(leftover, calls);
    if ImuAfter(leftover, calls).state == Sampling {
      SampledExactlyWhenDue(ImuAfter(leftover, calls), call, IMU_INTERVAL_MS, Failed, LastTime(calls));
    }
  }

  /** The settling time ends exactly 2000 ms after the initializing call. */
  predicate ReadyWhenSettled(s: Sensor, call: Call, t: Sensor, outcome: Outcome) {
    if call.time < s.initializedAt + 2000 then t == s && outcome == Running
    else t.state == Sampling && t.readyAt == call.time && outcome == Announced("barometer_ready")
  }

  lemma ReadyExactlyWhenSettled(s: Sensor, call: Call, now: nat)
    requires SensorValid(s, BAROMETER_INTERVAL_MS, now) && s.state == Settling && now <= call.time
    requires call.time < s.initializedAt + 2000 + Ticks.HALF
    ensures ReadyWhenSettled(s, call, ProcessBarometer(s, call).0, ProcessBarometer(s, call).1)
  {
    Ticks.LaterIsTick(s.initializedAt, SETTLING_TIME_MS);
    Ticks.ReachedIffPassed(call.time, s.initializedAt + 2000);
  }

  /** Every call of the barometer test: the first one initializes the sensor, which then settles
      for 2000 ms and is read every 200 ms; a failure is reported once and then final. */
  lemma EveryBarometerCall(leftover: uint32, calls: seq<Call>, call: Call)
    requires Ordered(calls) && LastTime(calls) <= call.time
    requires var s := BarometerAfter(leftover, calls);
             call.time < (if s.state == Settling then s.initializedAt + 2000 else DueAt(s, 200)) + Ticks.HALF
    ensures var s := BarometerAfter(leftover, calls);
            var (t, outcome) := ProcessBarometer(s, call);
            && (s.state == Initializing <==> calls == [])
            && (calls == [] ==> outcome == (if call.works then Announced("barometer_stabilizing") else Reported)
                                && t.state == (if call.works then Settling else SensorFailed)
                                && (call.works ==> t.initializedAt == call.time))
            && (s.state == Settling ==> ReadyWhenSettled(s, call, t, outcome))
            && (s.state == Sampling ==> SamplesWhenDue(s, call, 200, Reported, t, outcome))
            && (s.state == SensorFailed ==> t == s && outcome == Failed)
  {
    BarometerValidAlways(leftover, calls);
    var s := BarometerAfter(leftover, calls);
    if s.state == Settling {
      ReadyExactlyWhenSettled(s, call, LastTime(calls));
    } else if s.state == Sampling {
      SampledExactlyWhenDue(s, call, BAROMETER_INTERVAL_MS, Reported, LastTime(calls));
    }
  }

  // ---------------------------------------------------------------- the machines as they run

  class ImuTest {
    var state: State
    var nextSampleAt: uint32
    ghost var initializedAt: nat
    ghost var readyAt: nat
    ghost var samples: seq<nat>

    ghost function View(): Sensor
      reads this
    {
      Sensor(state, nextSampleAt, initializedAt, readyAt, samples)
    }

    constructor ()
      ensures View() == Begun(0)
    {
      state, nextSampleAt, initializedAt, readyAt, samples := Initializing, 0, 0, 0, [];
    }

    method Start()
      modifies this
      ensures View() == Begun(old(nextSampleAt))
    {
      state := Initializing;
      initializedAt, readyAt, samples := 0, 0, [];
    }

    method Process(now: uint32, works: bool, ghost time: nat) returns (outcome: Outcome)
      requires now == Ticks.Tick(time)
      modifies this
      ensures (View(), outcome) == ProcessImu(old(View()), Call(time, works))
    {
      if state == Initializing {
        if !works {
          state := SensorFailed;
          return Failed;
        }
        state := Sampling;
        nextSampleAt := now;
        initializedAt, readyAt := time, time;
        return Announced("imu_ready");
      }
      if state == SensorFailed {
        return Failed;
      }
      if !Ticks.Reached(now, nextSampleAt) {
        return Running;
      }
      nextSampleAt := Ticks.Later(now, IMU_INTERVAL_MS);
      if !works {
        state := SensorFailed;
        return Failed;
      }
      samples := samples + [time];
      outcome := Sampled;
    }
  }

  class BarometerTest {
    var state: State
    var nextSampleAt: uint32
    ghost var initializedAt: nat
    ghost var readyAt: nat
    ghost var samples: seq<nat>

    ghost function View(): Sensor
      reads this
    {
      Sensor(state, nextSampleAt, initializedAt, readyAt, samples)
    }

    constructor ()
      ensures View() == Begun(0)
    {
      state, nextSampleAt, initializedAt, readyAt, samples := Initializing, 0, 0, 0, [];
    }

    method Start()
      modifies this
      ensures View() == Begun(old(nextSampleAt))
    {
      state := Initializing;
      initializedAt, readyAt, samples := 0, 0, [];
    }

    method Process(now: uint32, works: bool, ghost time: nat) returns (outcome: Outcome)
      requires now == Ticks.Tick(time)
      modifies this
      ensures (View(), outcome) == ProcessBarometer(old(View()), Call(time, works))
    {
      if state == Initializing {
        if !works {
          state := SensorFailed;
          return Reported;
        }
        state := Settling;
        nextSampleAt := Ticks.Later(now, SETTLING_TIME_MS);
        initializedAt := time;
        return Announced("barometer_stabilizing");
      }
      if state == Settling {
        if !Ticks.Reached(now, nextSampleAt) {
          return Running;
        }
        state := Sampling;
        nextSampleAt := now;
        readyAt := time;
        return Announced("barometer_ready");
      }
      if state == SensorFailed {
        return Failed;
      }
      if !Ticks.Reached(now, nextSampleAt) {
        return Running;
      }
      nextSampleAt := Ticks.Later(now, BAROMETER_INTERVAL_MS);
      if !works {
        state := SensorFailed;
        return Reported;
      }
      samples := samples + [time];
      outcome := Sampled;
    }
  }
}

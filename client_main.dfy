/**
 * One wake of the e-ink client (`setup()` in client/src/main.cpp). The globals
 * kept in RTC memory across deep sleep (the wake counter, the boot flag, the
 * sensor readings, the clock text and the dashboard state) are the fields of
 * a `Device`. The hardware readings, the clock, the server's response and the
 * wake reason are inputs; drawing on the display is left out.
 */
module ClientMain {
  import opened Wrappers
  import opened ClientState

  /** How many wakes make one full refresh cycle. */
  const REFRESH_COUNT := 10

  const CURRENT_TIME_SIZE := 6

  /** Why the device woke (client/lib/Sleep/Sleep.h). */
  datatype WakeReason = NotSleeping | Alarm | Button

  newtype uint8 = x: int | 0 <= x < 0x100
  newtype uint16 = x: int | 0 <= x < 0x1_0000

  /**
   * The switch on the wake reason: an alarm advances the counter, wrapping
   * to 0 at REFRESH_COUNT; a button press or a cold start resets it.
   */
  function NextCount(count: int, reason: WakeReason): (next: int)
    ensures reason != Alarm ==> next == 0
    ensures 0 <= count < REFRESH_COUNT ==> 0 <= next < REFRESH_COUNT
    ensures reason == Alarm && 0 <= count < REFRESH_COUNT - 1 ==> next == count + 1
    ensures reason == Alarm && count == REFRESH_COUNT - 1 ==> next == 0
  {
    match reason
    case Alarm => if count + 1 == REFRESH_COUNT then 0 else count + 1
    case Button => 0
    case NotSleeping => 0
  }

  /** The counter after k consecutive alarm wakes. */
  function AlarmsFrom(count: int, k: nat): int
    decreases k
  {
    if k == 0 then count else AlarmsFrom(NextCount(count, Alarm), k - 1)
  }

  /** Alarm wakes count modulo REFRESH_COUNT. */
  lemma {:induction false} AlarmsCount(count: int, k: nat)
    requires 0 <= count < REFRESH_COUNT
    ensures AlarmsFrom(count, k) == (count + k) % REFRESH_COUNT
    decreases k
  {
    if k > 0 {
      var next := NextCount(count, Alarm);
      AlarmsCount(next, k - 1);
      assert next == (count + 1) % REFRESH_COUNT;
    }
  }

  /**
   * From a full refresh, the next nine alarm wakes are partial updates and the
   * tenth is full again.
   */
  lemma TenthAlarmIsFull()
    ensures forall k | 1 <= k < REFRESH_COUNT :: AlarmsFrom(0, k) != 0
    ensures AlarmsFrom(0, REFRESH_COUNT) == 0
  {
    forall k | 1 <= k < REFRESH_COUNT
      ensures AlarmsFrom(0, k) != 0
    {
      AlarmsCount(0, k);
    }
    AlarmsCount(0, REFRESH_COUNT);
  }

  /**
   * `uint16_t timeToSleepSeconds = 60 - second`: the seconds to the top of the
   * next minute, computed in int and truncated to 16 bits.
   */
  function SleepSeconds(second: uint8): (t: uint16)
    ensures second < 60 ==> 1 <= t <= 60 && t as int + second as int == 60
    ensures second == 60 ==> t == 0
    ensures second > 60 ==> t as int == 0x1_0000 + 60 - second as int
  {
    ((60 - second as int) % 0x1_0000) as uint16
  }

  /** The sensor readings `getState` takes from the board. */
  datatype Readings = Readings(sdCardOk: bool, insideTemperature: int, batteryVoltage: real, connected: bool)

  /** What one wake did: whether `boot()` ran, whether the refresh was full, and how long it sleeps. */
  datatype Wake = Wake(bootRan: bool, full: bool, sleepSeconds: uint16)

  /** The RTC-memory globals. */
  class Device {
    var count: int
    var booted: bool
    var sdCardOk: bool
    var wiFiConnected: bool
    var insideTemperature: int
    var batteryVoltage: real
    var currentTime: seq<char>
    const state: State

    ghost predicate Valid()
      reads this, state, state.busStops, state.people
    {
      0 <= count < REFRESH_COUNT && |currentTime| == CURRENT_TIME_SIZE && state.Valid()
    }

    /** The globals' initial values at power-on. */
    constructor ()
      ensures Valid() && fresh(state) && fresh(state.busStops) && fresh(state.people)
      ensures count == 0 && !booted && !sdCardOk && !wiFiConnected
      ensures insideTemperature == 0 && batteryVoltage == 0.0
      ensures CString(currentTime) == [] && state.Value() == ZeroSnapshot()
    {
      count := 0;
      booted := false;
      sdCardOk := false;
      wiFiConnected := false;
      insideTemperature := 0;
      batteryVoltage := 0.0;
      currentTime := Zeros(CURRENT_TIME_SIZE);
      state := new State();
    }

    /** `boot()`: the one-time start-up, after which `booted` is set. */
    method Boot()
      modifies this`booted
      ensures booted
    {
      booted := true;
    }

    /** The switch on the wake reason, applied to the RTC counter. */
    method Advance(reason: WakeReason)
      modifies this`count
      ensures count == NextCount(old(count), reason)
    {
      match reason {
        case Alarm =>
          count := count + 1;
          if count == REFRESH_COUNT {
            count := 0;
          }
        case Button =>
          count := 0;
        case NotSleeping =>
          count := 0;
      }
    }

    /**
     * `getState()`: records the board's readings, then decodes the server's
     * response into `state` only when the network is connected.
     */
    method GetState(readings: Readings, response: Option<Document>)
      requires Valid()
      requires response.Some? ==> Fits(response.value)
      modifies this`sdCardOk, this`insideTemperature, this`batteryVoltage, this`wiFiConnected
      modifies state, state.busStops, state.people
      ensures Valid()
      ensures sdCardOk == readings.sdCardOk && insideTemperature == readings.insideTemperature
      ensures batteryVoltage == readings.batteryVoltage && wiFiConnected == readings.connected
      ensures readings.connected && response.Some? ==> state.Value() == Decode(old(state.Value()), response.value)
      ensures !readings.connected || response.None? ==> state.Value() == old(state.Value())
    {
      sdCardOk := readings.sdCardOk;
      insideTemperature := readings.insideTemperature;
      batteryVoltage := readings.batteryVoltage;
      wiFiConnected := readings.connected;
      if wiFiConnected {
        var _ := state.FetchState(response);
      }
    }

    /**
     * `setup()`: boot if not yet booted, update the counter from the wake
     * reason, then either fetch and redraw everything (count 0) or only
     * rewrite the clock, and sleep until the next minute. `clock` is the
     * text the clock routine writes, `second` the RTC's seconds.
     */
    method Setup(reason: WakeReason, readings: Readings, response: Option<Document>, clock: seq<char>, second: uint8)
      returns (wake: Wake)
      requires Valid()
      requires |clock| == CURRENT_TIME_SIZE
      requires response.Some? ==> Fits(response.value)
      modifies this, state, state.busStops, state.people
      ensures Valid()
      ensures booted && (wake.bootRan <==> !old(booted))
      ensures count == NextCount(old(count), reason)
      ensures wake.full <==> count == 0
      ensures currentTime == clock
      ensures wake.full ==>
        && sdCardOk == readings.sdCardOk && insideTemperature == readings.insideTemperature
        && batteryVoltage == readings.batteryVoltage && wiFiConnected == readings.connected
        && (readings.connected && response.Some? ==> state.Value() == Decode(old(state.Value()), response.value))
        && (!readings.connected || response.None? ==> state.Value() == old(state.Value()))
      ensures !wake.full ==>
        && state.Value() == old(state.Value())
        && sdCardOk == old(sdCardOk) && insideTemperature == old(insideTemperature)
        && batteryVoltage == old(batteryVoltage) && wiFiConnected == old(wiFiConnected)
      ensures wake.sleepSeconds == SleepSeconds(second)
    {
      var bootRan := false;
      if !booted {
        Boot();
        bootRan := true;
      }

      Advance(reason);

      var full := count == 0;
      if full {
        GetState(readings, response);
        currentTime := clock;
      } else {
        currentTime := clock;
      }

      wake := Wake(bootRan, full, SleepSeconds(second));
    }
  }
}

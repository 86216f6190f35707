/** The SD-card driver over the bus: chip select is released at every return, a failing call
    leaves exactly the first failure it met, and a successful transfer is the card's. */
module SdCardDriver {
  import opened Options
  import opened Bytes
  import opened SdCardMedia
  import opened SdCardBus
  import C = Crc32
  import D = SdCardCsd
  import Ticks

  const RESPONSE_ATTEMPTS: nat := 16
  const READY_TIMEOUT_MS: nat := 1000
  const DATA_TIMEOUT_MS: nat := 250
  const CMD0: nat := 0
  const CMD8: nat := 8
  const CMD9: nat := 9
  const CMD16: nat := 16
  const ACMD41: nat := 41
  const CMD55: nat := 55
  const CMD58: nat := 58
  const HIGH_SPEED_PRESCALER: nat := 4

  /** `(uint32_t)(now - started)`. */
  function Elapsed(now: uint32, started: uint32): uint32 {
    (now - started) % Ticks.WRAP
  }

  /** Below 2^32 ms, the wrapped difference is the true one. */
  lemma ElapsedIsTrue(started: nat, now: nat)
    requires started <= now < started + Ticks.WRAP
    ensures Elapsed(Ticks.Tick(now), Ticks.Tick(started)) == now - started
  {
  }

  /** The stage in progress and the failure kept for the report; `reports` is every failure
      raised since the operation began. */
  class FailureLog {
    var activeStage: string
    var lastFailure: Option<Failure>
    ghost var reports: seq<Failure>

    constructor ()
    {
      activeStage, lastFailure, reports := "", None, [];
    }

    ghost predicate Clean()
      reads this
    {
      lastFailure == None && reports == []
    }

    /** The only failure raised is the one kept, and it names the stage that was in progress. */
    ghost predicate FirstFailureKept()
      reads this
    {
      |reports| == 1 && lastFailure == Some(reports[0]) && reports[0].stage == activeStage
    }

    ghost predicate Reported(ok: bool)
      reads this
    {
      if ok then Clean() else FirstFailureKept()
    }

    method Clear()
      modifies this`lastFailure, this`reports
      ensures Clean()
    {
      lastFailure, reports := None, [];
    }

    method BeginStage(stage: string)
      modifies this`activeStage
      ensures activeStage == stage
    {
      activeStage := stage;
    }

    method Fail(reason: string)
      modifies this`lastFailure, this`reports
      ensures reports == old(reports) + [Failure(activeStage, reason)]
      ensures lastFailure == Some(Failure(activeStage, reason))
    {
      lastFailure := Some(Failure(activeStage, reason));
      reports := reports + [Failure(activeStage, reason)];
    }

    method FailIfUnset(reason: string)
      modifies this`lastFailure, this`reports
      ensures reports == old(reports) + [Failure(activeStage, reason)]
      ensures lastFailure == if old(lastFailure) == None then Some(Failure(activeStage, reason)) else old(lastFailure)
    {
      if lastFailure == None {
        Fail(reason);
      } else {
        reports := reports + [Failure(activeStage, reason)];
      }
    }
  }

  /** A phase in which idle clocks change nothing. */
  predicate Resting(phase: Phase) {
    phase.Quiet? || (phase.Answered? && phase.index == CMD24)
  }

  /** A phase in which idle clocks only read. */
  predicate Readable(phase: Phase) {
    phase.Quiet? || phase.Streaming? || (phase.Answered? && phase.index != CMD17)
  }

  /** One command frame and the R1 response it got. */
  datatype Exchange = Exchange(index: nat, argument: uint32, response: byte)

  /** The R1 responses the protocol expects of each command. */
  predicate Expected(x: Exchange) {
    if x.index == 0 then x.response == 1
    else if x.index == 8 then x.response == 1 || x.response == 5
    else if x.index == 41 || x.index == 55 then x.response == 0 || x.response == 1
    else x.response == 0
  }

  /** A point in time: how many bus faults, failures of byte-level helpers, answers and payloads
      there had been. */
  datatype Mark = Mark(faults: nat, failures: nat, time: nat, exchanges: nat, payloads: nat)

  predicate Later(a: Mark, b: Mark) {
    a.faults <= b.faults && a.failures <= b.failures && a.time <= b.time && a.exchanges <= b.exchanges &&
    a.payloads <= b.payloads
  }

  /** transfer_byte up to wait_for_data_token: the byte-level helpers. */
  class CardLink {
    const bus: SpiBus
    const log: FailureLog
    /** Every byte received by transfer_byte, every command answered, every payload read whole. */
    ghost var heard: seq<byte>
    ghost var exchanges: seq<Exchange>
    ghost var payloads: seq<seq<byte>>
    /** How often one of these helpers has failed. */
    ghost var failures: nat

    ghost function Now(): Mark
      reads this`failures, this`exchanges, this`payloads, bus`faults, bus`time
    {
      Mark(bus.faults, failures, bus.time, |exchanges|, |payloads|)
    }

    /** A byte has been received since `n` had been, and the last one was `b`. */
    ghost predicate LastHeard(n: nat, b: byte)
      reads this`heard
    {
      n < |heard| && heard[|heard| - 1] == b
    }

    ghost predicate Failed(since: Mark)
      reads this`failures, bus`faults
    {
      since.failures < failures || since.faults < bus.faults
    }

    /** The cause of the failure lies in what has happened since: a byte-level helper failed, whose
        own contract says why, or the bus did, or the last response was not as it must be. */
    ghost predicate Blamed(since: Mark)
      reads this`failures, this`exchanges, bus`faults, bus`time, log`reports
    {
      Failed(since) || (|log.reports| == 1 && WrongResponse(log.reports[0].reason, since))
    }

    /** The last byte received refuses the data written. */
    ghost predicate DataRefused()
      reads this`heard, log`reports
    {
      && |log.reports| == 1 && log.reports[0].reason == "write_rejected_data_response"
      && heard != [] && !DataAccepted(heard[|heard| - 1])
    }

    /** The last command answered got another response, or the card is still idle after a second. */
    ghost predicate WrongResponse(reason: string, since: Mark)
      reads this`exchanges, bus`time
    {
      since.exchanges < |exchanges| &&
      (var last := exchanges[|exchanges| - 1];
       || (reason == "unexpected_r1_response" && !Expected(last))
       || (reason == "card_stayed_idle_until_timeout" && last.index == 41 && last.response == 1
           && since.time + 1000 <= bus.time))
    }

    /** The register read last is the reason. */
    ghost predicate RegisterRefused(since: Mark)
      reads this`payloads, log`reports
    {
      |log.reports| == 1 && WrongRegister(log.reports[0].reason, since)
    }

    ghost predicate WrongRegister(reason: string, since: Mark)
      reads this`payloads
    {
      var n := |payloads|;
      || (reason == "invalid_r7_voltage_or_check_pattern" && since.payloads < n && !R7Accepted(payloads[n - 1]))
      || (since.payloads + 2 <= n && |payloads[n - 2]| == 16 &&
          (var count := D.ParseCsd(payloads[n - 2]);
           || (reason == "invalid_csd" && count.None?)
           || (reason == "card_too_small" && count.Some? && count.value <= 16)))
    }

    constructor (bus: SpiBus, log: FailureLog)
      ensures this.bus == bus && this.log == log
    {
      this.bus, this.log := bus, log;
      heard, exchanges, payloads, failures := [], [], [], 0;
    }

    method TransferByte(transmitted: byte) returns (ok: bool, received: byte, ghost debris: Block)
      requires log.Clean()
      modifies this`heard, this`failures, bus`ready, bus`selected, bus`phase, bus`cells, bus`faults
      modifies log`lastFailure, log`reports
      ensures log.Reported(ok) && (ok <==> bus.faults == old(bus.faults))
      ensures heard == old(heard) + if ok then [received] else []
      ensures failures == old(failures) + (if ok then 0 else 1) && Later(old(Now()), Now())
      ensures bus.selected ==> old(bus.selected)
      ensures ok ==>
        && Faithful(old(bus.phase), received)
        && (bus.phase, bus.cells) ==
           Exchanged(old(bus.phase), old(bus.cells), bus.decode, transmitted, received, debris)
      ensures !ok ==> (bus.phase, bus.cells) == Interrupted(old(bus.phase), old(bus.cells), bus.decode, debris)
    {
      ok, received, debris := bus.Transfer(transmitted);
      if !ok {
        log.FailIfUnset("spi_transfer_failed");
        failures := failures + 1;
      } else {
        heard := heard + [received];
      }
    }

    method ClockBytes(value: byte, count: nat) returns (ok: bool)
      requires log.Clean() && bus.phase == Quiet
      modifies this`heard, this`failures, bus`ready, bus`selected, bus`phase, bus`cells, bus`faults
      modifies log`lastFailure, log`reports
      ensures log.Reported(ok) && (!ok ==> bus.faults > old(bus.faults))
      ensures ok ==> |heard| == |old(heard)| + count
      ensures failures == old(failures) + (if ok then 0 else 1) && Later(old(Now()), Now())
      ensures bus.selected ==> old(bus.selected)
      ensures bus.phase == Quiet && bus.cells == old(bus.cells)
    {
      for index := 0 to count
        invariant Now() == old(Now()) && |heard| == |old(heard)| + index
        invariant log.Clean() && bus.phase == Quiet && bus.cells == old(bus.cells)
        invariant bus.selected ==> old(bus.selected)
      {
        var received;
        ghost var unused;
        ok, received, unused := TransferByte(value);
        if !ok {
          return;
        }
      }
      ok := true;
    }

    /** A data payload read whole is the cell being streamed. */
    method ReadBytes(buffer: array<byte>) returns (ok: bool)
      requires log.Clean() && Readable(bus.phase)
      modifies this`payloads, this`heard, this`failures, bus`ready, bus`selected, bus`phase, bus`cells, bus`faults
      modifies log`lastFailure, log`reports, buffer
      ensures log.Reported(ok) && (!ok ==> bus.faults > old(bus.faults))
      ensures failures == old(failures) + (if ok then 0 else 1) && Later(old(Now()), Now())
      ensures payloads == if ok then old(payloads) + [buffer[..]] else old(payloads)
      ensures bus.selected ==> old(bus.selected)
      ensures bus.cells == old(bus.cells)
      ensures ok ==> Readable(bus.phase)
      ensures ok && old(bus.phase.Streaming? && bus.phase.sent == 0) && buffer.Length == 512 ==>
              buffer[..] == old(bus.phase.data)
    {
      for index := 0 to buffer.Length
        invariant Now() == old(Now())
        invariant log.Clean() && bus.cells == old(bus.cells)
        invariant bus.selected ==> old(bus.selected)
        invariant Readable(bus.phase) && payloads == old(payloads)
        invariant old(bus.phase.Streaming? && bus.phase.sent == 0) && index <= 512 ==>
          bus.phase == Streaming(old(bus.phase.data), index) && buffer[..index] == old(bus.phase.data)[..index]
      {
        var received;
        ghost var unused;
        ok, received, unused := TransferByte(IDLE_BYTE);
        if !ok {
          return;
        }
        buffer[index] := received;
      }
      payloads := payloads + [buffer[..]];
      ok := true;
    }

    /** The test of a timed loop: `(uint32_t)(HAL_GetTick() - started) >= timeout`. */
    method Expired(started: uint32, timeout: nat, ghost begun: nat) returns (expired: bool)
      requires started == Ticks.Tick(begun) && timeout <= READY_TIMEOUT_MS
      requires begun <= bus.time && (bus.time < begun + timeout + READY_TIMEOUT_MS + 2 * TICK_STEP || bus.time == begun)
      modifies bus`time, bus`stalls
      ensures old(bus.time) <= bus.time < old(bus.time) + TICK_STEP
      ensures bus.time > old(bus.time) || bus.stalls < old(bus.stalls)
      ensures expired <==> begun + timeout <= bus.time
    {
      var now := bus.GetTick();
      ElapsedIsTrue(begun, bus.time);
      expired := Elapsed(now, started) >= timeout;
    }

    /** The card still held the line low when the time was up. */
    ghost predicate TimedOut(n: nat, due: nat)
      reads this`heard, bus`time, log`reports
    {
      && |log.reports| == 1 && log.reports[0].reason == "card_busy_timeout"
      && due <= bus.time && n < |heard| && heard[|heard| - 1] != 0xFF
    }

    /** Ends within `timeout` milliseconds of true time and two readings of the tick; it succeeds
        exactly on an idle byte and fails only on a fault or when the time is up. */
    method WaitReady(timeout: nat) returns (ok: bool)
      requires log.Clean() && Resting(bus.phase) && timeout <= READY_TIMEOUT_MS
      modifies this`heard, this`failures, bus, log`lastFailure, log`reports
      ensures log.Reported(ok) && (ok ==> LastHeard(|old(heard)|, 0xFF))
      ensures old(heard) <= heard
      ensures !ok ==> bus.faults > old(bus.faults) || TimedOut(|old(heard)|, old(bus.time) + timeout)
      ensures failures == old(failures) + (if ok then 0 else 1) && Later(old(Now()), Now())
      ensures bus.selected ==> old(bus.selected)
      ensures bus.cells == old(bus.cells) && old(bus.time) <= bus.time < old(bus.time) + timeout + 2 * TICK_STEP
      ensures bus.time > old(bus.time) || bus.stalls < old(bus.stalls)
      ensures ok ==> bus.phase == old(bus.phase)
    {
      var started := bus.GetTick();
      ghost var begun := bus.time;
      while true
        invariant log.Clean() && bus.phase == old(bus.phase) && bus.cells == old(bus.cells)
        invariant old(heard) <= heard
        invariant bus.selected ==> old(bus.selected)
        invariant old(bus.time) <= begun <= bus.time && (bus.time < begun + timeout || bus.time == begun)
        invariant begun < old(bus.time) + TICK_STEP && failures == old(failures) && bus.faults == old(bus.faults)
        invariant bus.time > old(bus.time) || bus.stalls < old(bus.stalls)
        invariant started == Ticks.Tick(begun)
        decreases begun + timeout - bus.time, bus.stalls
      {
        var value;
        ghost var unused;
        ok, value, unused := TransferByte(IDLE_BYTE);
        if !ok {
          return;
        }
        if value == IDLE_BYTE {
          return true;
        }
        var expired := Expired(started, timeout, begun);
        if expired {
          assert value != 0xFF && heard[|heard| - 1] == value;
          break;
        }
      }
      log.FailIfUnset("card_busy_timeout");
      failures := failures + 1;
      ok := false;
    }

    /** Sixteen polls have found bit 7 set. */
    ghost predicate Unanswered(n: nat)
      reads this`heard, log`reports
    {
      && |log.reports| == 1 && log.reports[0].reason == "no_r1_response"
      && |heard| == n + 16 && forall i :: n <= i < n + 16 ==> heard[i] & 0x80 != 0
    }

    /** Sends a command frame and polls for its R1 response; it fails only on a fault or when
        sixteen polls go unanswered. */
    method Command(index: nat, argument: uint32) returns (ok: bool, response: byte)
      requires log.Clean() && !bus.phase.Receiving? && !bus.phase.Programming?
      modifies this`exchanges, this`heard, this`failures
      modifies bus`ready, bus`selected, bus`phase, bus`cells, bus`faults, log`lastFailure, log`reports
      ensures old(heard) <= heard
      ensures log.Reported(ok) && (!ok ==> bus.faults > old(bus.faults) || Unanswered(|old(heard)|))
      ensures failures == old(failures) + (if ok then 0 else 1) && Later(old(Now()), Now())
      ensures bus.selected ==> old(bus.selected)
      ensures bus.cells == old(bus.cells)
      ensures ok ==> bus.phase == Answered(index, argument) && response & 0x80 == 0
      ensures exchanges == if ok then old(exchanges) + [Exchange(index, argument, response)] else old(exchanges)
    {
      response := *;
      ok := bus.TransferFrame(index, argument);
      if !ok {
        log.FailIfUnset("command_frame_transfer_failed");
        failures := failures + 1;
        return;
      }
      for attempt := 0 to RESPONSE_ATTEMPTS
        invariant Now() == old(Now()) && exchanges == old(exchanges)
        invariant old(heard) <= heard && |heard| == |old(heard)| + attempt
        invariant forall i :: |old(heard)| <= i < |heard| ==> heard[i] & 0x80 != 0
        invariant log.Clean() && bus.phase == Commanded(index, argument) && bus.cells == old(bus.cells)
        invariant bus.selected ==> old(bus.selected)
      {
        ghost var unused;
        ok, response, unused := TransferByte(IDLE_BYTE);
        if !ok {
          return;
        }
        if response & 0x80 == 0 {
          exchanges := exchanges + [Exchange(index, argument, response)];
          return;
        }
      }
      log.FailIfUnset("no_r1_response");
      failures := failures + 1;
      ok := false;
    }

    method SelectCard() returns (ok: bool)
      requires log.Clean() && bus.phase == Quiet
      modifies this`heard, this`failures, bus, log`lastFailure, log`reports
      ensures log.Reported(ok) && (ok ==> LastHeard(|old(heard)|, 0xFF))
      ensures !ok ==> bus.faults > old(bus.faults) || TimedOut(|old(heard)|, old(bus.time) + 1000)
      ensures old(heard) <= heard
      ensures failures == old(failures) + (if ok then 0 else 1) && Later(old(Now()), Now())
      ensures bus.cells == old(bus.cells) &&
              old(bus.time) <= bus.time < old(bus.time) + READY_TIMEOUT_MS + 2 * TICK_STEP
      ensures ok ==> bus.time > old(bus.time) || bus.stalls < old(bus.stalls)
      ensures ok ==> bus.phase == Quiet
    {
      ok := bus.Select();
      if !ok {
        log.FailIfUnset("card_select_failed");
        failures := failures + 1;
        return;
      }
      ok := WaitReady(READY_TIMEOUT_MS);
    }

    /** Releases chip select; the separator byte's failure is not reported. */
    method DeselectCard()
      modifies bus`ready, bus`selected, bus`phase, bus`cells, bus`faults
      ensures bus.faults >= old(bus.faults)
      ensures !bus.selected && bus.phase == Quiet && bus.cells == old(bus.cells)
    {
      bus.Deselect();
      var ok, received, unused := bus.Transfer(IDLE_BYTE);
    }

    /** Another byte than the token came, or none before the time was up. */
    ghost predicate NoToken(n: nat, due: nat)
      reads this`heard, bus`time, log`reports
    {
      && |log.reports| == 1 && log.reports[0].reason == "unexpected_data_token"
      && n < |heard| && heard[|heard| - 1] != 0xFE && (heard[|heard| - 1] == 0xFF ==> due <= bus.time)
    }

    /** After CMD17, success means the addressed cell is being streamed. */
    method WaitForDataToken() returns (ok: bool)
      requires log.Clean() && bus.phase.Answered? && bus.phase.index != CMD24
      modifies this`heard, this`failures, bus, log`lastFailure, log`reports
      ensures log.Reported(ok) && (ok ==> LastHeard(|old(heard)|, 0xFE))
      ensures !ok ==> bus.faults > old(bus.faults) || NoToken(|old(heard)|, old(bus.time) + 250)
      ensures failures == old(failures) + (if ok then 0 else 1) && Later(old(Now()), Now())
      ensures bus.selected ==> old(bus.selected)
      ensures bus.cells == old(bus.cells) && old(bus.time) <= bus.time
      ensures ok && old(bus.phase.index == CMD17) ==>
        bus.phase == Streaming(Fetch(bus.cells, bus.decode(old(bus.phase.argument))), 0)
      ensures ok && old(bus.phase.index != CMD17) ==> bus.phase == old(bus.phase)
    {
      var started := bus.GetTick();
      ghost var begun := bus.time;
      var token: byte := *;
      while true
        invariant log.Clean() && bus.phase == old(bus.phase) && bus.cells == old(bus.cells)
        invariant failures == old(failures) && bus.faults == old(bus.faults) && |old(heard)| <= |heard|
        invariant bus.selected ==> old(bus.selected)
        invariant old(bus.time) <= begun <= bus.time && (bus.time < begun + DATA_TIMEOUT_MS || bus.time == begun)
        invariant started == Ticks.Tick(begun)
        decreases begun + DATA_TIMEOUT_MS - bus.time, bus.stalls
      {
        ghost var unused;
        ok, token, unused := TransferByte(IDLE_BYTE);
        if !ok {
          return;
        }
        if token != IDLE_BYTE {
          break;
        }
        var expired := Expired(started, DATA_TIMEOUT_MS, begun);
        if expired {
          break;
        }
      }
      assert LastHeard(|old(heard)|, token);
      if token != START_TOKEN {
        log.FailIfUnset("unexpected_data_token");
        failures := failures + 1;
        return false;
      }
      ok := true;
    }
  }

  /** A read or refused operation leaves the medium alone; a refused write may leave debris in
      the addressed cell only. */
  predicate Stored(before: seq<Block>, after: seq<Block>, cell: nat, block: Block, ok: bool, debris: seq<Block>) {
    if ok then after == Store(before, cell, block)
    else after == if debris == [] then before else Store(before, cell, debris[0])
  }

  /** CMD55/ACMD41 pairs that found the card still idle. */
  predicate Polling(polls: seq<Exchange>, argument: uint32) {
    polls == [] ||
    (|polls| >= 2 && Polling(polls[..|polls| - 2], argument) &&
     PollPair(polls[|polls| - 2], polls[|polls| - 1], argument, 1))
  }

  predicate PollPair(prefix: Exchange, poll: Exchange, argument: uint32, response: byte) {
    && prefix.index == CMD55 && prefix.argument == 0 && (prefix.response == 0 || prefix.response == 1)
    && poll == Exchange(ACMD41, argument, response)
  }

  /** ... and then one that found it ready. */
  predicate PollsUntilReady(polls: seq<Exchange>, argument: uint32) {
    |polls| >= 2 && Polling(polls[..|polls| - 2], argument) &&
    PollPair(polls[|polls| - 2], polls[|polls| - 1], argument, 0)
  }

  function HostCapacity(versionTwo: bool): uint32 {
    if versionTwo then 0x4000_0000 else 0
  }

  lemma PollingSnoc(polls: seq<Exchange>, prefix: Exchange, poll: Exchange, argument: uint32, response: byte)
    requires Polling(polls, argument) && PollPair(prefix, poll, argument, response)
    ensures response == 1 ==> Polling(polls + [prefix] + [poll], argument)
    ensures response == 0 ==> PollsUntilReady(polls + [prefix] + [poll], argument)
  {
    assert (polls + [prefix] + [poll])[..|polls|] == polls;
  }

  /** The commands of a successful initialization with their responses: reset, interface
      condition and the polls until the card is ready; then how it is addressed. */
  function Opening(versionTwo: bool, polls: seq<Exchange>): seq<Exchange> {
    [Exchange(CMD0, 0, 1)] + [Exchange(CMD8, 0x1AA, if versionTwo then 1 else 5)] + polls
  }

  function Addressing(highCapacity: bool): seq<Exchange> {
    [Exchange(CMD58, 0, 0)] + (if highCapacity then [] else [Exchange(CMD16, 512, 0)])
  }

  lemma OpeningMoves(before: seq<Exchange>, versionTwo: bool, polls: seq<Exchange>)
    ensures before + [Exchange(CMD0, 0, 1)] + [Exchange(CMD8, 0x1AA, if versionTwo then 1 else 5)] + polls
            == before + Opening(versionTwo, polls)
  {
  }

  /** The command was answered at most once, and nothing else was. */
  predicate Tried(before: seq<Exchange>, after: seq<Exchange>, index: nat, argument: uint32) {
    && before <= after && |after| <= |before| + 1
    && (|after| > |before| ==> after[|before|].index == index && after[|before|].argument == argument)
  }

  /** ACMD41 was reached: nothing after the last pair, or a prefix the card took, with at most
      one answer to the command it announces. */
  predicate PairTried(before: seq<Exchange>, after: seq<Exchange>, argument: uint32) {
    after == before
    || (before < after && after[|before|].index == CMD55 && after[|before|].argument == 0
        && (after[|before|].response == 0 || after[|before|].response == 1)
        && Tried(after[..|before| + 1], after, ACMD41, argument))
  }

  /** What had been exchanged by the end of each stage up to the card being ready. */
  predicate Starting(stage: string, before: seq<Exchange>, after: seq<Exchange>, versionTwo: bool,
                     polls: seq<Exchange>)
  {
    if stage == "spi_initialization" || stage == "initial_clocks" then after == before
    else if stage == "cmd0_go_idle" then Tried(before, after, CMD0, 0)
    else if stage == "cmd8_interface_condition" then Tried(before + [Exchange(CMD0, 0, 1)], after, CMD8, 0x1AA)
    else
      Polling(polls, HostCapacity(versionTwo)) &&
      PollingStage(stage, before + Opening(versionTwo, polls), after, versionTwo)
  }

  predicate PollingStage(stage: string, soFar: seq<Exchange>, after: seq<Exchange>, versionTwo: bool) {
    if stage == "cmd55_application_prefix" then Tried(soFar, after, CMD55, 0)
    else stage == "acmd41_initialize" && PairTried(soFar, after, HostCapacity(versionTwo))
  }

  /** The stages after the card is ready. */
  predicate Addressed(stage: string, soFar: seq<Exchange>, after: seq<Exchange>, highCapacity: bool) {
    if stage == "cmd58_read_ocr" then Tried(soFar, after, CMD58, 0)
    else if stage == "cmd16_set_block_length" then Tried(soFar + [Exchange(CMD58, 0, 0)], after, CMD16, 512)
    else if stage == "cmd9_read_csd" then Tried(soFar + Addressing(highCapacity), after, CMD9, 0)
    else stage == "spi_high_speed" && after == soFar + Addressing(highCapacity) + [Exchange(CMD9, 0, 0)]
  }

  /** What had been exchanged by the end of an initialization, by the stage it ended in. */
  predicate Reached(stage: string, before: seq<Exchange>, after: seq<Exchange>, versionTwo: bool, polls: seq<Exchange>,
                    highCapacity: bool)
  {
    || Starting(stage, before, after, versionTwo, polls)
    || (PollsUntilReady(polls, HostCapacity(versionTwo))
        && Addressed(stage, before + Opening(versionTwo, polls), after, highCapacity))
  }

  /** The voltage and check pattern of a version 2 card. */
  predicate R7Accepted(r7: seq<byte>) {
    |r7| == 4 && r7[2] == 1 && r7[3] == 0xAA
  }

  /** The card-capacity bit of the operating-conditions register. */
  predicate CapacityBit(ocr: seq<byte>) {
    |ocr| == 4 && ocr[0] & 0x40 != 0
  }

  /** The registers a successful initialization has read. */
  predicate Registers(before: seq<seq<byte>>, after: seq<seq<byte>>, versionTwo: bool, highCapacity: bool,
                      csd: seq<byte>)
  {
    var k := |before| + if versionTwo then 1 else 0;
    && before <= after && |after| == k + 3
    && (versionTwo ==> R7Accepted(after[|before|]))
    && |after[k]| == 4 && (highCapacity <==> versionTwo && CapacityBit(after[k]))
    && after[k + 1] == csd && |after[k + 2]| == 2
  }

  /** A byte of `heard` from position `n` on was idle just before position `k`, where the data
      token went out; the data response three bytes later accepts; the last byte is idle again. */
  predicate Handshake(heard: seq<byte>, n: nat, k: nat) {
    n < k && k + 4 < |heard| && heard[k - 1] == 0xFF && DataAccepted(heard[k + 3]) && heard[|heard| - 1] == 0xFF
  }

  class SdCardDriver {
    const bus: SpiBus
    const log: FailureLog
    const link: CardLink
    const testBlock: array<byte>
    const receivedBlock: array<byte>
    var highCapacity: bool
    var writeChecksum: C.Word
    var verifyChecksum: C.Word

    constructor (bus: SpiBus)
      requires !bus.selected && bus.phase == Quiet
      ensures Valid() && Released() && this.bus == bus
      ensures fresh(log) && fresh(link) && fresh(testBlock) && fresh(receivedBlock)
    {
      this.bus := bus;
      var failures := new FailureLog();
      log := failures;
      link := new CardLink(bus, failures);
      testBlock, receivedBlock := new byte[512], new byte[512];
      highCapacity, writeChecksum, verifyChecksum := false, C.Zero(), C.Zero();
    }

    ghost predicate Valid() {
      link.bus == bus && link.log == log && testBlock != receivedBlock &&
      testBlock.Length == 512 == receivedBlock.Length
    }

    /** Between calls: chip select is high and the card expects a command. */
    ghost predicate Released()
      reads bus`selected, bus`phase
    {
      !bus.selected && bus.phase == Quiet
    }

    /** Select and send a command: the opening of every one but CMD0 and ACMD41. */
    method SelectAndSend(index: nat, argument: uint32) returns (ok: bool, response: byte)
      requires Valid() && Released() && log.Clean()
      modifies link`exchanges, link`heard, link`failures, bus, log`lastFailure, log`reports
      ensures log.Reported(ok) && Later(old(link.Now()), link.Now()) && (!ok ==> link.Failed(old(link.Now())))
      ensures if ok then bus.phase == Answered(index, argument) else Released()
      ensures bus.cells == old(bus.cells) &&
              old(bus.time) <= bus.time < old(bus.time) + READY_TIMEOUT_MS + 2 * TICK_STEP
      ensures ok ==> bus.time > old(bus.time) || bus.stalls < old(bus.stalls)
      ensures link.exchanges ==
              old(link.exchanges) + if ok then [Exchange(index, argument, response)] else []
      ensures |old(link.heard)| <= |link.heard|
    {
      response := *;
      ok := link.SelectCard();
      if ok {
        ok, response := link.Command(index, argument);
      }
      if !ok {
        link.DeselectCard();
      }
    }

    /** Select, send a command and require the R1 response `expected`: the opening of CMD9,
        CMD16, CMD17, CMD24 and CMD58. */
    method BeginCommand(index: nat, argument: uint32) returns (ok: bool)
      requires Valid() && Released() && log.Clean() && index in {CMD9, CMD16, CMD17, CMD24, CMD58}
      modifies link`exchanges, link`heard, link`failures, bus, log`lastFailure, log`reports
      ensures log.Reported(ok) && (!ok ==> Released())
      ensures Later(old(link.Now()), link.Now()) && (!ok ==> link.Blamed(old(link.Now())))
      ensures ok ==> bus.phase == Answered(index, argument)
      ensures bus.cells == old(bus.cells) && old(bus.time) <= bus.time
      ensures ok ==> link.exchanges == old(link.exchanges) + [Exchange(index, argument, 0)]
      ensures |old(link.heard)| <= |link.heard|
      ensures Tried(old(link.exchanges), link.exchanges, index, argument)
    {
      var response;
      ok, response := SelectAndSend(index, argument);
      if !ok {
        return;
      }
      if response != 0 {
        link.DeselectCard();
        log.Fail("unexpected_r1_response");
        return false;
      }
    }

    /** CMD24: on success the addressed cell holds the block. */
    method WriteBlock(sector: uint32, buffer: array<byte>) returns (ok: bool, ghost debris: seq<Block>)
      requires Valid() && Released() && log.Clean() && buffer.Length == 512
      modifies link`exchanges, link`heard, link`failures, bus, log`lastFailure, log`reports
      ensures log.Reported(ok) && Released() && old(bus.time) <= bus.time
      ensures Later(old(link.Now()), link.Now())
      ensures !ok ==> link.Blamed(old(link.Now())) || link.DataRefused()
      ensures ok ==> exists k: nat :: Handshake(link.heard, |old(link.heard)|, k)
      ensures Stored(old(bus.cells), bus.cells, bus.decode(D.WireAddress(sector, highCapacity)), buffer[..], ok, debris)
      ensures ok ==> link.exchanges == old(link.exchanges) + [Exchange(CMD24, D.WireAddress(sector, highCapacity), 0)]
    {
      debris := [];
      ok := BeginCommand(CMD24, D.WireAddress(sector, highCapacity));
      if ok {
        ghost var n := |link.heard|;
        ok, debris := SendBlock(D.WireAddress(sector, highCapacity), buffer);
        if ok {
          ghost var k: nat :| Handshake(link.heard, n, k);
          assert Handshake(link.heard, |old(link.heard)|, k);
        }
      }
    }

    /** Once CMD24 is answered: the data token, as soon as the card is ready. */
    method SendToken(ghost address: uint32) returns (ok: bool)
      requires Valid() && log.Clean() && bus.phase == Answered(CMD24, address)
      modifies link`heard, link`failures, bus, log`lastFailure, log`reports
      ensures log.Reported(ok) && old(bus.time) <= bus.time && bus.cells == old(bus.cells)
      ensures Later(old(link.Now()), link.Now()) && (!ok ==> link.Failed(old(link.Now())))
      ensures if ok then bus.phase == Receiving(address) else Released()
      ensures old(link.heard) <= link.heard
      ensures ok ==> |old(link.heard)| + 1 < |link.heard| && link.heard[|link.heard| - 2] == 0xFF
    {
      ok := link.WaitReady(READY_TIMEOUT_MS);
      if ok {
        var response;
        ghost var left;
        ok, response, left := link.TransferByte(START_TOKEN);
      }
      if !ok {
        link.DeselectCard();
      }
    }

    /** The data token, the data and what follows them. */
    method SendBlock(address: uint32, buffer: array<byte>) returns (ok: bool, ghost debris: seq<Block>)
      requires Valid() && log.Clean() && bus.phase == Answered(CMD24, address) && buffer.Length == 512
      modifies link`heard, link`failures, bus, log`lastFailure, log`reports
      ensures log.Reported(ok) && Released() && old(bus.time) <= bus.time
      ensures Later(old(link.Now()), link.Now())
      ensures !ok ==> link.Failed(old(link.Now())) || link.DataRefused()
      ensures ok ==> exists k: nat :: Handshake(link.heard, |old(link.heard)|, k)
      ensures Stored(old(bus.cells), bus.cells, bus.decode(address), buffer[..], ok, debris)
    {
      debris := [];
      ok := SendToken(address);
      if !ok {
        return;
      }
      ghost var left;
      ok, left := bus.TransferBlock(buffer[..]);
      if !ok {
        debris := [left];
        link.DeselectCard();
        log.Fail("sector_data_transfer_failed");
        return;
      }
      ghost var sent := |link.heard| - 1;
      ok, debris := FinishBlock(buffer[..], address);
      assert ok ==> Handshake(link.heard, |old(link.heard)|, sent);
    }

    /** The two checksum bytes and the data response. */
    method DataResponse(block: Block, ghost address: uint32) returns (ok: bool, response: byte, ghost left: Block)
      requires Valid() && log.Clean() && bus.phase == Programming(address, block, 0)
      modifies link`heard, link`failures, bus`ready, bus`selected, bus`phase, bus`cells, bus`faults
      modifies log`lastFailure, log`reports
      ensures log.Reported(ok) && Later(old(link.Now()), link.Now()) && (!ok ==> link.Failed(old(link.Now())))
      ensures bus.phase == Quiet && old(link.heard) <= link.heard
      ensures ok ==> |link.heard| == |old(link.heard)| + 3 && link.heard[|link.heard| - 1] == response
      ensures bus.cells ==
              Store(old(bus.cells), bus.decode(address), if ok && DataAccepted(response) then block else left)
    {
      ok, response, left := link.TransferByte(IDLE_BYTE);
      if ok {
        ok, response, left := link.TransferByte(IDLE_BYTE);
      }
      if ok {
        ok, response, left := link.TransferByte(IDLE_BYTE);
      }
    }

    /** The data response and the programming time. */
    method FinishBlock(block: Block, ghost address: uint32) returns (ok: bool, ghost debris: seq<Block>)
      requires Valid() && log.Clean() && bus.phase == Programming(address, block, 0)
      modifies link`heard, link`failures, bus, log`lastFailure, log`reports
      ensures log.Reported(ok) && Released() && old(bus.time) <= bus.time
      ensures Later(old(link.Now()), link.Now())
      ensures !ok ==> link.Failed(old(link.Now())) || link.DataRefused()
      ensures old(link.heard) <= link.heard
      ensures ok ==> |old(link.heard)| + 3 < |link.heard| && DataAccepted(link.heard[|old(link.heard)| + 2])
      ensures ok ==> link.heard[|link.heard| - 1] == 0xFF
      ensures Stored(old(bus.cells), bus.cells, bus.decode(address), block, ok, debris)
    {
      var response;
      ghost var left;
      ok, response, left := DataResponse(block, address);
      debris := [left];
      if !ok {
        link.DeselectCard();
        return;
      }
      if !DataAccepted(response) {
        link.DeselectCard();
        log.Fail("write_rejected_data_response");
        return false, debris;
      }
      debris := [block];
      ok := link.WaitReady(READY_TIMEOUT_MS);
      link.DeselectCard();
    }

    /** The data an answered CMD9 or CMD17 announces, and its two checksum bytes. */
    method ReadData(buffer: array<byte>) returns (ok: bool)
      requires Valid() && log.Clean() && bus.phase.Answered? && bus.phase.index != CMD24
      modifies link`payloads, link`heard, link`failures, bus, log`lastFailure, log`reports, buffer
      ensures log.Reported(ok) && Released() && bus.cells == old(bus.cells) && old(bus.time) <= bus.time
      ensures Later(old(link.Now()), link.Now()) && (!ok ==> link.Failed(old(link.Now())))
      ensures ok ==> |link.payloads| == |old(link.payloads)| + 2 && old(link.payloads) <= link.payloads
      ensures ok ==> link.payloads[|old(link.payloads)|] == buffer[..]
      ensures ok ==> |link.payloads[|old(link.payloads)| + 1]| == 2
      ensures ok && old(bus.phase.index) == CMD17 && buffer.Length == 512 ==>
              buffer[..] == Fetch(bus.cells, bus.decode(old(bus.phase.argument)))
    {
      var discardedCardCrc := new byte[2];
      ok := link.WaitForDataToken();
      if ok {
        ok := link.ReadBytes(buffer);
      }
      if ok {
        ok := link.ReadBytes(discardedCardCrc);
      }
      link.DeselectCard();
    }

    /** CMD17: on success the buffer is the addressed cell. */
    method ReadBlock(sector: uint32, buffer: array<byte>) returns (ok: bool)
      requires Valid() && Released() && log.Clean() && buffer.Length == 512
      modifies link, bus, log`lastFailure, log`reports, buffer
      ensures log.Reported(ok) && Released() && old(bus.time) <= bus.time
      ensures Later(old(link.Now()), link.Now()) && (!ok ==> link.Blamed(old(link.Now())))
      ensures bus.cells == old(bus.cells)
      ensures ok ==> buffer[..] == Fetch(bus.cells, bus.decode(D.WireAddress(sector, highCapacity)))
      ensures ok ==> link.exchanges == old(link.exchanges) + [Exchange(CMD17, D.WireAddress(sector, highCapacity), 0)]
    {
      ok := BeginCommand(CMD17, D.WireAddress(sector, highCapacity));
      if ok {
        ok := ReadData(buffer);
      }
    }

    // ---------------------------------------------------------------- initialization

    /** Step 2: CMD0 must find the card in the idle state. */
    method GoIdle() returns (ok: bool)
      requires Valid() && Released() && log.Clean()
      modifies link`exchanges, link`heard, link`failures, bus, log
      ensures |link.heard| >= |old(link.heard)|
      ensures log.Reported(ok) && Released() && bus.cells == old(bus.cells) && old(bus.time) == bus.time
      ensures Later(old(link.Now()), link.Now()) && (!ok ==> link.Blamed(old(link.Now())))
      ensures log.activeStage == "cmd0_go_idle"
      ensures ok ==> link.exchanges == old(link.exchanges) + [Exchange(CMD0, 0, 1)]
      ensures Tried(old(link.exchanges), link.exchanges, CMD0, 0)
    {
      log.BeginStage("cmd0_go_idle");
      ok := bus.Select();
      if !ok {
        log.Fail("card_select_failed");
        return;
      }
      var response;
      ok, response := link.Command(CMD0, 0);
      if !ok {
        link.DeselectCard();
        return;
      }
      if response != 1 {
        link.DeselectCard();
        log.Fail("unexpected_r1_response");
        return false;
      }
      link.DeselectCard();
    }

    /** Step 3: CMD8 tells version 2 cards from version 1 and checks the voltage pattern. */
    method InterfaceCondition() returns (ok: bool, versionTwo: bool)
      requires Valid() && Released() && log.Clean()
      modifies link, bus, log
      ensures log.Reported(ok) && Released() && bus.cells == old(bus.cells) && old(bus.time) <= bus.time
      ensures Later(old(link.Now()), link.Now())
      ensures !ok ==> link.Blamed(old(link.Now())) || link.RegisterRefused(old(link.Now()))
      ensures log.activeStage == "cmd8_interface_condition"
      ensures ok ==> link.exchanges == old(link.exchanges) + [Exchange(CMD8, 0x1AA, if versionTwo then 1 else 5)]
      ensures Tried(old(link.exchanges), link.exchanges, CMD8, 0x1AA)
      ensures var before, after := old(link.payloads), link.payloads;
              && before <= after && |after| <= |before| + 1
              && (ok ==> |after| == |before| + if versionTwo then 1 else 0)
              && (|after| > |before| ==> (ok <==> R7Accepted(after[|before|])))
    {
      log.BeginStage("cmd8_interface_condition");
      var response;
      versionTwo := false;
      ok, response := SelectAndSend(CMD8, 0x1AA);
      if !ok {
        return;
      }
      if response == 1 {
        ok := CheckVoltage();
        versionTwo := ok;
      } else if response == 5 {
        link.DeselectCard();
      } else {
        link.DeselectCard();
        log.Fail("unexpected_r1_response");
        ok := false;
      }
    }

    /** The R7 payload of a version 2 card. */
    method CheckVoltage() returns (ok: bool)
      requires Valid() && log.Clean() && Readable(bus.phase)
      modifies link`payloads, link`heard, link`failures, bus, log`lastFailure, log`reports
      ensures log.Reported(ok) && Released() && bus.cells == old(bus.cells) && old(bus.time) <= bus.time
      ensures Later(old(link.Now()), link.Now())
      ensures !ok ==> link.Failed(old(link.Now())) || link.RegisterRefused(old(link.Now()))
      ensures var before, after := old(link.payloads), link.payloads;
              && before <= after && |after| <= |before| + 1 && (ok ==> |after| == |before| + 1)
              && (|after| > |before| ==> (ok <==> R7Accepted(after[|before|])))
    {
      var r7 := new byte[4];
      ok := link.ReadBytes(r7);
      link.DeselectCard();
      if ok && (r7[2] != 1 || r7[3] != 0xAA) {
        log.Fail("invalid_r7_voltage_or_check_pattern");
        ok := false;
      }
    }

    /** One CMD55/ACMD41 pair; `ready` when the card has left the idle state. */
    method OperatingCondition(versionTwo: bool)
      returns (ok: bool, ready: bool, ghost prefix: Exchange, ghost poll: Exchange)
      requires Valid() && Released() && log.Clean()
      modifies link`exchanges, link`heard, link`failures, bus, log
      ensures log.Reported(ok) && Released() && bus.cells == old(bus.cells)
      ensures Later(old(link.Now()), link.Now()) && (!ok ==> link.Blamed(old(link.Now())))
      ensures if ok then log.activeStage == "acmd41_initialize"
              else PollingStage(log.activeStage, old(link.exchanges), link.exchanges, versionTwo)
      ensures old(bus.time) <= bus.time < old(bus.time) + READY_TIMEOUT_MS + 2 * TICK_STEP
      ensures ok ==> bus.time > old(bus.time) || bus.stalls < old(bus.stalls)
      ensures ok ==> link.exchanges == old(link.exchanges) + [prefix] + [poll]
      ensures ok ==> PollPair(prefix, poll, HostCapacity(versionTwo), if ready then 0 else 1)
    {
      ready, poll := false, Exchange(0, 0, 0);
      ok, prefix := ApplicationPrefix();
      if ok {
        ok, ready, poll := SendOperatingCondition(versionTwo);
      }
    }

    /** CMD55; the card stays selected for the command it announces. */
    method ApplicationPrefix() returns (ok: bool, ghost prefix: Exchange)
      requires Valid() && Released() && log.Clean()
      modifies link`exchanges, link`heard, link`failures, bus, log
      ensures log.Reported(ok) && bus.cells == old(bus.cells) && log.activeStage == "cmd55_application_prefix"
      ensures Later(old(link.Now()), link.Now()) && (!ok ==> link.Blamed(old(link.Now())))
      ensures if ok then bus.phase.Answered? && bus.phase.index == CMD55 else Released()
      ensures old(bus.time) <= bus.time < old(bus.time) + READY_TIMEOUT_MS + 2 * TICK_STEP
      ensures ok ==> bus.time > old(bus.time) || bus.stalls < old(bus.stalls)
      ensures ok ==> link.exchanges == old(link.exchanges) + [prefix] && prefix.index == CMD55 && prefix.argument == 0
      ensures ok ==> prefix.response == 0 || prefix.response == 1
      ensures Tried(old(link.exchanges), link.exchanges, CMD55, 0)
    {
      prefix := Exchange(0, 0, 0);
      log.BeginStage("cmd55_application_prefix");
      var applicationResponse;
      ok, applicationResponse := SelectAndSend(CMD55, 0);
      if !ok {
        return;
      }
      prefix := Exchange(CMD55, 0, applicationResponse);
      if applicationResponse != 0 && applicationResponse != 1 {
        link.DeselectCard();
        log.Fail("unexpected_r1_response");
        ok := false;
      }
    }

    /** ACMD41 after its prefix. */
    method SendOperatingCondition(versionTwo: bool) returns (ok: bool, ready: bool, ghost poll: Exchange)
      requires Valid() && log.Clean() && bus.phase.Answered?
      modifies link`exchanges, link`heard, link`failures, bus`ready, bus`selected, bus`phase, bus`cells, bus`faults, log
      ensures log.Reported(ok) && Released() && bus.cells == old(bus.cells) && log.activeStage == "acmd41_initialize"
      ensures Later(old(link.Now()), link.Now()) && (!ok ==> link.Blamed(old(link.Now())))
      ensures ok ==> link.exchanges == old(link.exchanges) + [poll]
      ensures ok ==> poll == Exchange(ACMD41, HostCapacity(versionTwo), if ready then 0 else 1)
      ensures Tried(old(link.exchanges), link.exchanges, ACMD41, HostCapacity(versionTwo))
    {
      poll := Exchange(0, 0, 0);
      log.BeginStage("acmd41_initialize");
      var response;
      ready := false;
      ok, response := link.Command(ACMD41, HostCapacity(versionTwo));
      link.DeselectCard();
      if !ok {
        return;
      }
      poll := Exchange(ACMD41, HostCapacity(versionTwo), response);
      ready := response == 0;
      if !ready && response != 1 {
        log.Fail("unexpected_r1_response");
        ok := false;
      }
    }

    /** One more pair after those polled since `before`, and whether the time is up. */
    method PollOnce(versionTwo: bool, started: uint32, ghost begun: nat, ghost before: seq<Exchange>,
                    ghost polls: seq<Exchange>)
      returns (ok: bool, ready: bool, expired: bool, ghost more: seq<Exchange>)
      requires Valid() && Released() && log.Clean()
      requires link.exchanges == before + polls && Polling(polls, HostCapacity(versionTwo))
      requires started == Ticks.Tick(begun) && begun <= bus.time
      requires bus.time < begun + READY_TIMEOUT_MS || bus.time == begun
      modifies link`exchanges, link`heard, link`failures, bus, log
      ensures log.Reported(ok) && Released() && bus.cells == old(bus.cells)
      ensures Later(old(link.Now()), link.Now()) && (!ok ==> link.Blamed(old(link.Now())))
      ensures old(bus.time) <= bus.time < old(bus.time) + READY_TIMEOUT_MS + 3 * TICK_STEP
      ensures ok && !ready ==> bus.time > old(bus.time) || bus.stalls < old(bus.stalls)
      ensures ok && !ready ==> (expired <==> begun + READY_TIMEOUT_MS <= bus.time)
      ensures ok ==> log.activeStage == "acmd41_initialize" && link.exchanges == before + more && |more| >= 2
      ensures ok ==> if ready then PollsUntilReady(more, HostCapacity(versionTwo))
                     else Polling(more, HostCapacity(versionTwo)) &&
                          link.exchanges[|link.exchanges| - 1] == Exchange(ACMD41, HostCapacity(versionTwo), 1)
      ensures !ok ==> more == polls && PollingStage(log.activeStage, before + polls, link.exchanges, versionTwo)
    {
      more, expired := polls, false;
      ghost var prefix, poll;
      ok, ready, prefix, poll := OperatingCondition(versionTwo);
      if ok {
        PollingSnoc(polls, prefix, poll, HostCapacity(versionTwo), if ready then 0 else 1);
        more := polls + [prefix] + [poll];
        assert before + more == before + polls + [prefix] + [poll];
        if !ready {
          expired := link.Expired(started, READY_TIMEOUT_MS, begun);
        }
      }
    }

    /** Step 4: repeat the pair until the card is ready, for a second at most. */
    method WaitInitialized(versionTwo: bool) returns (ok: bool, ghost polls: seq<Exchange>)
      requires Valid() && Released() && log.Clean()
      modifies link`exchanges, link`heard, link`failures, bus, log
      ensures log.Reported(ok) && Released() && bus.cells == old(bus.cells)
      ensures Later(old(link.Now()), link.Now()) && (!ok ==> link.Blamed(old(link.Now())))
      ensures old(bus.time) <= bus.time < old(bus.time) + 2 * READY_TIMEOUT_MS + 4 * TICK_STEP
      ensures !ok ==> Polling(polls, HostCapacity(versionTwo))
      ensures !ok ==> PollingStage(log.activeStage, old(link.exchanges) + polls, link.exchanges, versionTwo)
      ensures ok ==> link.exchanges == old(link.exchanges) + polls && PollsUntilReady(polls, HostCapacity(versionTwo))
    {
      polls := [];
      var started := bus.GetTick();
      ghost var begun := bus.time;
      var ready, expired := false, false;
      ok := true;
      while ok && !ready && !expired
        invariant Released() && bus.cells == old(bus.cells) && Later(old(link.Now()), link.Now())
        invariant old(bus.time) <= begun <= bus.time && begun < old(bus.time) + TICK_STEP &&
                  started == Ticks.Tick(begun)
        invariant bus.time < begun + 2 * READY_TIMEOUT_MS + 3 * TICK_STEP && log.Reported(ok)
        invariant ok && !ready && !expired ==> bus.time < begun + READY_TIMEOUT_MS || bus.time == begun
        invariant ok ==> link.exchanges == old(link.exchanges) + polls
        invariant if ok && ready then PollsUntilReady(polls, HostCapacity(versionTwo))
                  else Polling(polls, HostCapacity(versionTwo))
        invariant ok && !ready && expired ==>
          && polls != [] && log.activeStage == "acmd41_initialize" && begun + READY_TIMEOUT_MS <= bus.time
          && |link.exchanges| > |old(link.exchanges)|
          && link.exchanges[|link.exchanges| - 1] == Exchange(ACMD41, HostCapacity(versionTwo), 1)
        invariant !ok ==> link.Blamed(old(link.Now())) &&
                          PollingStage(log.activeStage, old(link.exchanges) + polls, link.exchanges, versionTwo)
        decreases ok && !ready && !expired, begun + READY_TIMEOUT_MS - bus.time, bus.stalls
      {
        ghost var more;
        ok, ready, expired, more := PollOnce(versionTwo, started, begun, old(link.exchanges), polls);
        polls := more;
      }
      if ok && !ready {
        log.Fail("card_stayed_idle_until_timeout");
        ok := false;
      }
    }

    /** Step 5: the CCS bit of the operating-conditions register selects sector addressing. */
    method ReadOperatingConditions(versionTwo: bool) returns (ok: bool)
      requires Valid() && Released() && log.Clean()
      modifies this`highCapacity, link, bus, log
      ensures log.Reported(ok) && Released() && bus.cells == old(bus.cells) && old(bus.time) <= bus.time
      ensures Later(old(link.Now()), link.Now()) && (!ok ==> link.Blamed(old(link.Now())))
      ensures log.activeStage == "cmd58_read_ocr"
      ensures ok ==> |link.payloads| == |old(link.payloads)| + 1 && old(link.payloads) <= link.payloads
      ensures ok ==> |link.payloads[|old(link.payloads)|]| == 4
      ensures ok ==> (highCapacity <==> versionTwo && CapacityBit(link.payloads[|old(link.payloads)|]))
      ensures ok ==> link.exchanges == old(link.exchanges) + [Exchange(CMD58, 0, 0)]
      ensures Tried(old(link.exchanges), link.exchanges, CMD58, 0)
    {
      log.BeginStage("cmd58_read_ocr");
      ok := BeginCommand(CMD58, 0);
      if !ok {
        return;
      }
      var ocr := new byte[4];
      ok := link.ReadBytes(ocr);
      if !ok {
        link.DeselectCard();
        return;
      }
      highCapacity := versionTwo && ocr[0] & 0x40 != 0;
      link.DeselectCard();
    }

    /** Step 6, for byte-addressed cards only. */
    method SetBlockLength() returns (ok: bool)
      requires Valid() && Released() && log.Clean()
      modifies link`exchanges, link`heard, link`failures, bus, log
      ensures log.Reported(ok) && Released() && bus.cells == old(bus.cells) && old(bus.time) <= bus.time
      ensures Later(old(link.Now()), link.Now()) && (!ok ==> link.Blamed(old(link.Now())))
      ensures log.activeStage == "cmd16_set_block_length"
      ensures ok ==> link.exchanges == old(link.exchanges) + [Exchange(CMD16, 512, 0)]
      ensures Tried(old(link.exchanges), link.exchanges, CMD16, 512)
    {
      log.BeginStage("cmd16_set_block_length");
      ok := BeginCommand(CMD16, D.SECTOR_BYTES);
      if ok {
        link.DeselectCard();
      }
    }

    /** Step 7: the sector count is the one the card's CSD register encodes. */
    method ReadCsd(given: nat) returns (ok: bool, sectorCount: nat, ghost csd: seq<byte>)
      requires Valid() && Released() && log.Clean()
      modifies link, bus, log
      ensures log.Reported(ok) && Released() && bus.cells == old(bus.cells) && old(bus.time) <= bus.time
      ensures Later(old(link.Now()), link.Now())
      ensures !ok ==> link.Blamed(old(link.Now())) || link.RegisterRefused(old(link.Now()))
      ensures log.activeStage == "cmd9_read_csd"
      ensures ok ==> |csd| == 16 && D.ParseCsd(csd) == Some(sectorCount) && sectorCount > D.TEST_AREA_DISTANCE_FROM_END
      ensures ok ==> link.exchanges == old(link.exchanges) + [Exchange(CMD9, 0, 0)]
      ensures Tried(old(link.exchanges), link.exchanges, CMD9, 0)
      ensures ok ==> |link.payloads| == |old(link.payloads)| + 2 && old(link.payloads) <= link.payloads
      ensures ok ==> csd == link.payloads[|old(link.payloads)|] && |link.payloads[|old(link.payloads)| + 1]| == 2
    {
      sectorCount, csd := given, [];
      log.BeginStage("cmd9_read_csd");
      ok := BeginCommand(CMD9, 0);
      if ok {
        var register := new byte[16];
        ok := ReadData(register);
        if ok {
          csd := register[..];
          ok, sectorCount := CheckCapacity(given, register);
        }
      }
    }

    /** What the register says. */
    method CheckCapacity(given: nat, register: array<byte>) returns (ok: bool, sectorCount: nat)
      requires Valid() && log.Clean() && register.Length == 16
      modifies log`lastFailure, log`reports
      ensures log.Reported(ok)
      ensures var parsed := D.ParseCsd(register[..]);
              && (ok <==> parsed.Some? && parsed.value > 16)
              && sectorCount == (if parsed.Some? then parsed.value else given)
              && (!ok ==> log.reports[0].reason == if parsed.None? then "invalid_csd" else "card_too_small")
    {
      var parsed := D.ParseCsd(register[..]);
      if parsed.None? {
        log.Fail("invalid_csd");
        return false, given;
      }
      sectorCount := parsed.value;
      ok := sectorCount > D.TEST_AREA_DISTANCE_FROM_END;
      if !ok {
        log.Fail("card_too_small");
      }
    }

    /** Steps 1 to 4: from power-up to a card that has left the idle state. */
    method ReachReady() returns (ok: bool, versionTwo: bool, ghost polls: seq<Exchange>)
      requires Valid() && Released() && log.Clean()
      modifies link, bus, log
      ensures log.Reported(ok) && Released() && bus.cells == old(bus.cells) && old(bus.time) <= bus.time
      ensures Later(old(link.Now()), link.Now())
      ensures !ok ==> link.Blamed(old(link.Now())) || link.RegisterRefused(old(link.Now()))
      ensures !ok ==> Starting(log.activeStage, old(link.exchanges), link.exchanges, versionTwo, polls)
      ensures ok ==> PollsUntilReady(polls, HostCapacity(versionTwo))
      ensures ok ==> link.exchanges == old(link.exchanges) + Opening(versionTwo, polls)
      ensures ok ==> old(link.payloads) <= link.payloads
      ensures ok ==> |link.payloads| == |old(link.payloads)| + if versionTwo then 1 else 0
      ensures ok && versionTwo ==> R7Accepted(link.payloads[|old(link.payloads)|])
    {
      versionTwo, polls := false, [];
      ok := PowerUp();
      if ok {
        ok, versionTwo := InterfaceCondition();
      }
      if ok {
        ok, polls := WaitInitialized(versionTwo);
        OpeningMoves(old(link.exchanges), versionTwo, polls);
      }
    }

    /** Steps 1 and 2: the bus, the initial clocks and the reset. */
    method PowerUp() returns (ok: bool)
      requires Valid() && Released() && log.Clean()
      modifies link, bus, log
      ensures log.Reported(ok) && Released() && bus.cells == old(bus.cells) && old(bus.time) <= bus.time
      ensures Later(old(link.Now()), link.Now()) && (!ok ==> link.Blamed(old(link.Now())))
      ensures !ok ==> Starting(log.activeStage, old(link.exchanges), link.exchanges, false, [])
      ensures link.payloads == old(link.payloads)
      ensures ok ==> link.exchanges == old(link.exchanges) + [Exchange(CMD0, 0, 1)]
      ensures ok ==> |link.heard| >= |old(link.heard)| + 10
    {
      log.BeginStage("spi_initialization");
      ok := bus.Initialize();
      if !ok {
        log.Fail("spi_initialization_failed");
        return;
      }
      log.BeginStage("initial_clocks");
      ok := link.ClockBytes(IDLE_BYTE, 10);
      if ok {
        ok := GoIdle();
      }
    }

    /** Steps 5 and 6: how the card is addressed. */
    method ChooseAddressing(versionTwo: bool) returns (ok: bool)
      requires Valid() && Released() && log.Clean()
      modifies this`highCapacity, link, bus, log
      ensures log.Reported(ok) && Released() && bus.cells == old(bus.cells) && old(bus.time) <= bus.time
      ensures Later(old(link.Now()), link.Now()) && (!ok ==> link.Blamed(old(link.Now())))
      ensures !ok ==> Addressed(log.activeStage, old(link.exchanges), link.exchanges, highCapacity)
      ensures ok ==> link.exchanges == old(link.exchanges) + Addressing(highCapacity)
      ensures ok ==> |link.payloads| == |old(link.payloads)| + 1 && old(link.payloads) <= link.payloads
      ensures ok ==> |link.payloads[|old(link.payloads)|]| == 4
      ensures ok ==> (highCapacity <==> versionTwo && CapacityBit(link.payloads[|old(link.payloads)|]))
    {
      ok := ReadOperatingConditions(versionTwo);
      if ok && !highCapacity {
        ok := SetBlockLength();
      }
    }

    /** sd_card_driver_initialize: the medium is not touched; on success the card was led through
        the whole command sequence and the test area is the one its CSD register implies; on
        failure the stage reported says how far the commands had got. */
    method Initialize(given: Information)
      returns (ok: bool, information: Information, ghost csd: seq<byte>, ghost versionTwo: bool,
               ghost polls: seq<Exchange>)
      requires Valid() && Released()
      modifies this`highCapacity, link, bus, log
      ensures log.Reported(ok) && Released() && bus.cells == old(bus.cells) && old(bus.time) <= bus.time
      ensures Later(old(link.Now()), link.Now())
      ensures !ok ==> link.Blamed(old(link.Now())) || link.RegisterRefused(old(link.Now()))
      ensures Reached(log.activeStage, old(link.exchanges), link.exchanges, versionTwo, polls, highCapacity)
      ensures ok ==> log.activeStage == "spi_high_speed" && bus.prescaler == HIGH_SPEED_PRESCALER
      ensures information.checksum == given.checksum
      ensures ok ==> |csd| == 16 && D.ParseCsd(csd) == Some(information.sectorCount)
      ensures ok ==> information.sectorCount > D.TEST_AREA_DISTANCE_FROM_END
      ensures ok ==> information.testSector == D.TestSector(information.sectorCount)
      ensures ok ==> information.highCapacity == highCapacity
      ensures ok ==> Registers(old(link.payloads), link.payloads, versionTwo, highCapacity, csd)
      ensures ok ==> PollsUntilReady(polls, HostCapacity(versionTwo))
      ensures ok ==>
        link.exchanges ==
        old(link.exchanges) + Opening(versionTwo, polls) + Addressing(highCapacity) + [Exchange(CMD9, 0, 0)]
    {
      information, csd := given, [];
      log.Clear();
      var newer;
      ok, newer, polls := ReachReady();
      versionTwo := newer;
      if ok {
        ok, information, csd := Configure(newer, given);
      }
    }

    /** Steps 5 to 8: from a card that has left the idle state to one ready for the test. */
    method Configure(versionTwo: bool, given: Information)
      returns (ok: bool, information: Information, ghost csd: seq<byte>)
      requires Valid() && Released() && log.Clean()
      modifies this`highCapacity, link, bus, log
      ensures log.Reported(ok) && Released() && bus.cells == old(bus.cells) && old(bus.time) <= bus.time
      ensures Later(old(link.Now()), link.Now())
      ensures !ok ==> link.Blamed(old(link.Now())) || link.RegisterRefused(old(link.Now()))
      ensures Addressed(log.activeStage, old(link.exchanges), link.exchanges, highCapacity)
      ensures ok ==> log.activeStage == "spi_high_speed" && bus.prescaler == HIGH_SPEED_PRESCALER
      ensures information.checksum == given.checksum && (ok ==> information.highCapacity == highCapacity)
      ensures ok ==> |csd| == 16 && D.ParseCsd(csd) == Some(information.sectorCount)
      ensures ok ==> information.sectorCount > D.TEST_AREA_DISTANCE_FROM_END
      ensures ok ==> information.testSector == D.TestSector(information.sectorCount)
      ensures ok ==> |link.payloads| == |old(link.payloads)| + 3 && old(link.payloads) <= link.payloads
      ensures ok ==> |link.payloads[|old(link.payloads)|]| == 4
      ensures ok ==> (highCapacity <==> versionTwo && CapacityBit(link.payloads[|old(link.payloads)|]))
      ensures ok ==> csd == link.payloads[|old(link.payloads)| + 1] && |link.payloads[|old(link.payloads)| + 2]| == 2
    {
      information, csd := given, [];
      ok := ChooseAddressing(versionTwo);
      if ok {
        ok, information, csd := FinishInitialization(given.(highCapacity := highCapacity), old(link.exchanges));
      }
    }

    /** Steps 7 and 8. */
    method FinishInitialization(given: Information, ghost soFar: seq<Exchange>)
      returns (ok: bool, information: Information, ghost csd: seq<byte>)
      requires Valid() && Released() && log.Clean() && link.exchanges == soFar + Addressing(highCapacity)
      modifies link, bus, log
      ensures log.Reported(ok) && Released() && bus.cells == old(bus.cells) && old(bus.time) <= bus.time
      ensures Later(old(link.Now()), link.Now())
      ensures !ok ==> link.Blamed(old(link.Now())) || link.RegisterRefused(old(link.Now()))
      ensures Addressed(log.activeStage, soFar, link.exchanges, highCapacity)
      ensures ok ==> log.activeStage == "spi_high_speed" && bus.prescaler == HIGH_SPEED_PRESCALER
      ensures information.checksum == given.checksum && information.highCapacity == given.highCapacity
      ensures ok ==> |csd| == 16 && D.ParseCsd(csd) == Some(information.sectorCount)
      ensures ok ==> information.sectorCount > D.TEST_AREA_DISTANCE_FROM_END
      ensures ok ==> information.testSector == D.TestSector(information.sectorCount)
      ensures ok ==> |link.payloads| == |old(link.payloads)| + 2 && old(link.payloads) <= link.payloads
      ensures ok ==> csd == link.payloads[|old(link.payloads)|] && |link.payloads[|old(link.payloads)| + 1]| == 2
    {
      var sectorCount;
      ok, sectorCount, csd := ReadCsd(given.sectorCount);
      information := given.(sectorCount := sectorCount);
      if !ok {
        return;
      }
      information := information.(testSector := D.TestSector(sectorCount));
      log.BeginStage("spi_high_speed");
      ok := bus.SetPrescaler(HIGH_SPEED_PRESCALER);
      if !ok {
        log.Fail("spi_prescaler_change_failed");
      }
    }

    // ---------------------------------------------------------------- the test blocks

    method FillPattern(buffer: array<byte>, sector: uint32)
      requires buffer.Length == 512
      modifies buffer
      ensures buffer[..] == Pattern(sector)
    {
      for index := 0 to 512
        invariant buffer[..index] == Pattern(sector)[..index]
      {
        buffer[index] := Truncated(sector + index * 37);
      }
    }

    /** sd_card_driver_write_test_block. */
    method WriteTestBlock(given: Information, block: nat)
      returns (ok: bool, information: Information, ghost debris: seq<Block>)
      requires Valid() && Released() && block < BLOCKS
      modifies this`writeChecksum, link`exchanges, link`heard, link`failures, bus, log, testBlock
      ensures log.Reported(ok) && Released() && old(bus.time) <= bus.time
      ensures Later(old(link.Now()), link.Now())
      ensures !ok ==> link.Blamed(old(link.Now())) || link.DataRefused()
      ensures log.activeStage == "cmd24_write_test_sector"
      ensures Stored(old(bus.cells), bus.cells, bus.decode(D.WireAddress(Sector(given, block), highCapacity)),
                     Pattern(Sector(given, block)), ok, debris)
      ensures writeChecksum ==
              C.Checksum(if block == 0 then C.Ones() else old(writeChecksum), Pattern(Sector(given, block)))
      ensures information == if ok && block == BLOCKS - 1 then given.(checksum := C.Not(writeChecksum)) else given
    {
      information := given;
      log.Clear();
      log.BeginStage("cmd24_write_test_sector");
      if block == 0 {
        writeChecksum := C.Ones();
      }
      FillPattern(testBlock, Sector(given, block));
      writeChecksum := C.ChecksumUpdate(writeChecksum, testBlock[..]);
      ok, debris := WriteBlock(Sector(given, block), testBlock);
      if ok && block == BLOCKS - 1 {
        information := given.(checksum := C.Not(writeChecksum));
      }
    }

    /** sd_card_driver_verify_test_block: the byte comparison comes before the checksum. */
    method VerifyTestBlock(information: Information, block: nat) returns (ok: bool, ghost transferred: bool)
      requires Valid() && Released() && block < BLOCKS
      modifies this`verifyChecksum, link, bus, log, testBlock, receivedBlock
      ensures log.Reported(ok) && Released() && old(bus.time) <= bus.time && bus.cells == old(bus.cells)
      ensures Later(old(link.Now()), link.Now()) && (!ok && !transferred ==> link.Blamed(old(link.Now())))
      ensures log.activeStage == "cmd17_read_test_sector"
      ensures var start := if block == 0 then C.Ones() else old(verifyChecksum);
              var received := Fetch(bus.cells, bus.decode(D.WireAddress(Sector(information, block), highCapacity)));
              if !transferred then !ok && verifyChecksum == start
              else if received != Pattern(Sector(information, block)) then
                !ok && verifyChecksum == start &&
                log.lastFailure == Some(Failure("cmd17_read_test_sector", "read_back_mismatch"))
              else
                && verifyChecksum == C.Checksum(start, received)
                && (ok <==> block < BLOCKS - 1 || C.Not(verifyChecksum) == information.checksum)
                && (!ok ==> log.lastFailure == Some(Failure("cmd17_read_test_sector", "checksum_mismatch")))
    {
      transferred := false;
      log.Clear();
      log.BeginStage("cmd17_read_test_sector");
      if block == 0 {
        verifyChecksum := C.Ones();
      }
      FillPattern(testBlock, Sector(information, block));
      ok := ReadBlock(Sector(information, block), receivedBlock);
      if !ok {
        return;
      }
      transferred := true;
      if testBlock[..] != receivedBlock[..] {
        log.Fail("read_back_mismatch");
        return false, true;
      }
      verifyChecksum := C.ChecksumUpdate(verifyChecksum, receivedBlock[..]);
      if block == BLOCKS - 1 && C.Not(verifyChecksum) != information.checksum {
        log.Fail("checksum_mismatch");
        ok := false;
      }
    }

    /** sd_card_driver_clear_test_block. */
    method ClearTestBlock(information: Information, block: nat) returns (ok: bool, ghost debris: seq<Block>)
      requires Valid() && Released() && block < BLOCKS
      modifies link`exchanges, link`heard, link`failures, bus, log, testBlock
      ensures log.Reported(ok) && Released() && old(bus.time) <= bus.time
      ensures Later(old(link.Now()), link.Now())
      ensures !ok ==> link.Blamed(old(link.Now())) || link.DataRefused()
      ensures log.activeStage == "cmd24_clear_test_sector"
      ensures Stored(old(bus.cells), bus.cells, bus.decode(D.WireAddress(Sector(information, block), highCapacity)),
                     Zeros(), ok, debris)
    {
      log.Clear();
      log.BeginStage("cmd24_clear_test_sector");
      forall index | 0 <= index < 512 {
        testBlock[index] := 0;
      }
      assert testBlock[..] == Zeros();
      ok, debris := WriteBlock(Sector(information, block), testBlock);
    }
  }
}

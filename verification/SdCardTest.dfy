/** The SD-card test as the firmware runs it over the driver: every process call is one step
    of the media-test transition system for some behaviour of the card. */
module SdCardTest {
  import opened Bytes
  import opened SdCardMedia
  import opened SdCardBus
  import opened SdCardDriver
  import B = SdCardDebounce
  import C = Crc32
  import Ticks

  class SdCardTest {
    const driver: SdCardDriver
    var state: State
    var nextPollAt: uint32
    var matchingPolls: nat
    var currentBlock: nat
    var latestEvent: Event
    var information: Information
    ghost var polls: seq<Poll>
    ghost var removalPolls: nat

    constructor (driver: SdCardDriver)
      requires driver.Valid() && driver.Released()
      ensures Valid() && this.driver == driver
    {
      this.driver := driver;
      state, nextPollAt, matchingPolls, currentBlock := Failed, 0, 0, 0;
      latestEvent, information := Message(""), Information(0, 0, C.Zero(), false);
      polls, removalPolls := [], 0;
    }

    ghost predicate Valid()
      reads this`state, this`currentBlock, this`information, driver`highCapacity, driver.bus`selected, driver.bus`phase
    {
      && driver.Valid() && driver.Released()
      && (state == Writing || state == Verifying || state == CleaningUp ==>
            currentBlock < BLOCKS && information.highCapacity == driver.highCapacity)
      && (state == Initializing || state == WaitingForRemoval || state == WaitingForInsertion ==> currentBlock == 0)
      && (state == AnnounceRemoval || state == AnnounceInsertion ==> currentBlock == 0)
    }

    /** The statics of the test and the driver, and the medium, as the transition system's state. */
    ghost function View(): System
      reads this, driver`writeChecksum, driver`verifyChecksum, driver.bus`cells
    {
      System(Machine(state, nextPollAt, matchingPolls, currentBlock, information, driver.writeChecksum,
                     driver.verifyChecksum),
             driver.bus.cells, polls, removalPolls)
    }

    /** The card-detect switch. */
    method CardInserted() returns (inserted: bool)
    {
      inserted := *;
    }

    method FailureReport(stage: string, reason: string) returns (result: Result)
      modifies this`latestEvent, this`state
      ensures (View(), result) == SdCardMedia.Fail(old(View()), stage, reason)
    {
      latestEvent := FailureEvent(Failure(stage, reason));
      state := Failed;
      result := Emitted(latestEvent);
    }

    method DriverFailureReport() returns (result: Result)
      requires driver.log.FirstFailureKept()
      modifies this`latestEvent, this`state
      ensures (View(), result) ==
              SdCardMedia.Fail(old(View()), driver.log.reports[0].stage, driver.log.reports[0].reason)
    {
      latestEvent := FailureEvent(driver.log.lastFailure.value);
      state := Failed;
      result := Emitted(latestEvent);
    }

    method Announce(event: Event, next: State) returns (result: Result)
      modifies this`latestEvent, this`state
      ensures state == next && result == Emitted(event)
    {
      latestEvent := event;
      state := next;
      result := Emitted(latestEvent);
    }

    method Advance(done: State, name: string) returns (result: Result)
      requires currentBlock < BLOCKS
      modifies this`latestEvent, this`state, this`currentBlock
      ensures (View(), result) == SdCardMedia.Advance(old(View()), done, name)
    {
      currentBlock := currentBlock + 1;
      if currentBlock < BLOCKS {
        return Running;
      }
      if done != Complete {
        currentBlock := 0;
      }
      result := Announce(CardInformation(name, information), done);
    }

    method Start() returns (ghost inserted: bool)
      requires Valid()
      modifies this, driver.bus`time, driver.bus`stalls
      ensures Valid() && old(driver.bus.time) <= driver.bus.time
      ensures View() == SdCardMedia.Start(old(View()).machine, driver.bus.time, inserted, old(driver.bus.cells))
    {
      information := Information(0, 0, C.Zero(), false);
      matchingPolls, currentBlock := 0, 0;
      polls, removalPolls := [], 0;
      nextPollAt := driver.bus.GetTick();
      var present := CardInserted();
      inserted := present;
      if present {
        state := AnnounceRemoval;
      } else {
        state := AnnounceInsertion;
      }
    }

    method StableCardState(wanted: bool) returns (stable: bool, ghost call: Call)
      requires Valid()
      modifies this`nextPollAt, this`matchingPolls, this`polls, driver.bus`time, driver.bus`stalls
      ensures Valid() && old(driver.bus.time) <= call.time == driver.bus.time
      ensures (View(), stable) == SdCardMedia.StableCardState(old(View()), call, wanted)
    {
      var now := driver.bus.GetTick();
      call := Call(driver.bus.time, wanted, Transferred);
      stable := false;
      if Ticks.Reached(now, nextPollAt) {
        stable, call := CountPoll(now, wanted);
      }
    }

    method CountPoll(now: uint32, wanted: bool) returns (stable: bool, ghost call: Call)
      requires now == Ticks.Tick(driver.bus.time)
      modifies this`nextPollAt, this`matchingPolls, this`polls
      ensures call.time == driver.bus.time
      ensures (View(), stable) == SdCardMedia.CountPoll(old(View()), call, wanted)
    {
      nextPollAt := Ticks.Later(now, POLL_INTERVAL_MS);
      var inserted := CardInserted();
      call := Call(driver.bus.time, inserted, Transferred);
      polls := polls + [Poll(call.time, inserted)];
      if inserted == wanted {
        matchingPolls := matchingPolls + 1;
      } else {
        matchingPolls := 0;
      }
      stable := matchingPolls >= STABLE_POLLS;
    }

    method ProcessInitializing() returns (result: Result, ghost call: Call)
      requires Valid() && state == Initializing
      modifies this, driver`highCapacity, driver.link, driver.bus, driver.log
      ensures Valid() && old(driver.bus.time) == call.time <= driver.bus.time && call.inserted
      ensures (View(), result) == SdCardMedia.ProcessInitializing(old(View()), call)
    {
      var ok;
      ghost var csd, versionTwo, polls;
      ghost var begun := driver.bus.time;
      ok, information, csd, versionTwo, polls := driver.Initialize(information);
      if !ok {
        call := Call(begun, true, Refused(driver.log.reports[0], [], information));
        result := DriverFailureReport();
      } else {
        call := Call(begun, true,
                     Initialized(information.sectorCount, information.testSector, information.highCapacity));
        result := Announce(CardInformation("sd_card_initialized", information), Writing);
      }
    }

    method ProcessWriting() returns (result: Result, ghost call: Call)
      requires Valid() && state == Writing
      modifies this, driver`writeChecksum, driver.link, driver.bus, driver.log, driver.testBlock
      ensures Valid() && old(driver.bus.time) == call.time <= driver.bus.time && call.inserted
      ensures (View(), result) == SdCardMedia.ProcessWriting(old(View()), driver.bus.decode, call)
    {
      var ok;
      ghost var debris;
      ghost var begun := driver.bus.time;
      ok, information, debris := driver.WriteTestBlock(information, currentBlock);
      if !ok {
        call := Call(begun, true, Refused(driver.log.reports[0], debris, information));
        result := DriverFailureReport();
      } else {
        call := Call(begun, true, Transferred);
        result := Advance(Verifying, "sd_card_written");
      }
    }

    method ProcessVerifying() returns (result: Result, ghost call: Call)
      requires Valid() && state == Verifying
      modifies this, driver`verifyChecksum, driver.link, driver.bus, driver.log, driver.testBlock, driver.receivedBlock
      ensures Valid() && old(driver.bus.time) == call.time <= driver.bus.time && call.inserted
      ensures (View(), result) == SdCardMedia.ProcessVerifying(old(View()), driver.bus.decode, call)
    {
      var ok;
      ghost var transferred;
      ghost var begun := driver.bus.time;
      ok, transferred := driver.VerifyTestBlock(information, currentBlock);
      if !ok {
        call := Call(begun, true, if transferred then Transferred else Refused(driver.log.reports[0], [], information));
        result := DriverFailureReport();
      } else {
        call := Call(begun, true, Transferred);
        result := Advance(CleaningUp, "sd_card_verified");
      }
    }

    method ProcessCleaning() returns (result: Result, ghost call: Call)
      requires Valid() && state == CleaningUp
      modifies this, driver.link, driver.bus, driver.log, driver.testBlock
      ensures Valid() && old(driver.bus.time) == call.time <= driver.bus.time && call.inserted
      ensures (View(), result) == SdCardMedia.ProcessCleaning(old(View()), driver.bus.decode, call)
    {
      var ok;
      ghost var debris;
      ghost var begun := driver.bus.time;
      ok, debris := driver.ClearTestBlock(information, currentBlock);
      if !ok {
        call := Call(begun, true, Refused(driver.log.reports[0], debris, information));
        result := DriverFailureReport();
      } else {
        call := Call(begun, true, Transferred);
        result := Advance(Complete, "sd_card_cleaned_up");
      }
    }

    method WaitForRemoval() returns (result: Result, ghost call: Call)
      requires Valid() && state == WaitingForRemoval
      modifies this, driver.bus`time, driver.bus`stalls
      ensures Valid() && old(driver.bus.time) <= call.time <= driver.bus.time
      ensures (View(), result) == SdCardMedia.Process(old(View()), driver.bus.decode, call)
    {
      var stable;
      stable, call := StableCardState(false);
      result := Running;
      if stable {
        matchingPolls := 0;
        removalPolls := |polls|;
        result := Announce(Message("sd_card_removed"), AnnounceInsertion);
      }
    }

    method WaitForInsertion() returns (result: Result, ghost call: Call)
      requires Valid() && state == WaitingForInsertion
      modifies this, driver.bus`time, driver.bus`stalls
      ensures Valid() && old(driver.bus.time) <= call.time <= driver.bus.time
      ensures (View(), result) == SdCardMedia.Process(old(View()), driver.bus.decode, call)
    {
      var stable;
      stable, call := StableCardState(true);
      result := Running;
      if stable {
        result := Announce(Message("sd_card_detected"), Initializing);
      }
    }

    /** sd_card_test_process is the transition system's step, whatever the card does. */
    method Process() returns (result: Result, ghost call: Call)
      requires Valid()
      modifies this, driver, driver.link, driver.bus, driver.log, driver.testBlock, driver.receivedBlock
      ensures Valid() && old(driver.bus.time) <= call.time <= driver.bus.time
      ensures (View(), result) == SdCardMedia.Process(old(View()), driver.bus.decode, call)
    {
      call := Call(driver.bus.time, false, Transferred);
      match state
      case AnnounceRemoval =>
        result := Announce(Message("sd_card_remove_required"), WaitingForRemoval);
      case WaitingForRemoval =>
        result, call := WaitForRemoval();
      case AnnounceInsertion =>
        result := Announce(Message("sd_card_insert_required"), WaitingForInsertion);
      case WaitingForInsertion =>
        result, call := WaitForInsertion();
      case Complete =>
        result := Passed;
      case Failed =>
        result := TestFailed;
      case _ =>
        result, call := ProcessCard();
    }

    /** The four states that need the card, behind their removal check. */
    method ProcessCard() returns (result: Result, ghost call: Call)
      requires Valid()
      requires state == Initializing || state == Writing || state == Verifying || state == CleaningUp
      modifies this, driver, driver.link, driver.bus, driver.log, driver.testBlock, driver.receivedBlock
      ensures Valid() && old(driver.bus.time) <= call.time <= driver.bus.time
      ensures (View(), result) == SdCardMedia.Process(old(View()), driver.bus.decode, call)
    {
      call := Call(driver.bus.time, false, Transferred);
      var inserted := CardInserted();
      if !inserted {
        result := FailureReport(Removal(state), "card_removed");
        return;
      }
      match state
      case Initializing => result, call := ProcessInitializing();
      case Writing => result, call := ProcessWriting();
      case Verifying => result, call := ProcessVerifying();
      case CleaningUp => result, call := ProcessCleaning();
    }

    /** The test from its start as the runner calls it, at most `budget` times, until it passes
        or fails.  PASSED means the card was debounced and the medium is good. */
    method RunToVerdict(budget: nat)
      returns (result: Result, ghost started: nat, ghost inserted: bool, ghost calls: seq<Call>)
      requires Valid()
      modifies this, driver, driver.link, driver.bus, driver.log, driver.testBlock, driver.receivedBlock
      ensures Valid()
      ensures View() == After(SdCardMedia.Start(old(View()).machine, started, inserted, old(driver.bus.cells)),
                              driver.bus.decode, calls)
      ensures B.Ordered(started, calls) && |calls| <= budget
      ensures result != Passed && result != TestFailed ==> |calls| == budget
      ensures result == Passed ==> MediaGood(old(driver.bus.cells), View(), driver.bus.decode)
      ensures result == Passed ==> B.Debounced(polls, inserted)
    {
      ghost var leftover, cells := View().machine, driver.bus.cells;
      inserted := Start();
      started, calls, result := driver.bus.time, [], Running;
      ghost var begun := View();
      var count := 0;
      while count < budget && result != Passed && result != TestFailed
        invariant Valid() && |calls| == count <= budget && result != Passed
        invariant begun == SdCardMedia.Start(leftover, started, inserted, cells)
        invariant View() == After(begun, driver.bus.decode, calls)
        invariant B.Ordered(started, calls) && B.LastTime(started, calls) <= driver.bus.time
      {
        ghost var call;
        result, call := Process();
        if result == Passed {
          PassedVerdict(leftover, started, inserted, cells, driver.bus.decode, calls, call);
          return;
        }
        OneMoreCall(begun, started, driver.bus.decode, calls, call);
        calls := calls + [call];
        count := count + 1;
      }
    }
  }

  lemma OneMoreCall(begun: System, started: nat, decode: Decoder, calls: seq<Call>, call: Call)
    requires B.Ordered(started, calls) && B.LastTime(started, calls) <= call.time
    ensures After(begun, decode, calls + [call]) == Process(After(begun, decode, calls), decode, call).0
    ensures B.Ordered(started, calls + [call]) && B.LastTime(started, calls + [call]) == call.time
  {
    assert (calls + [call])[..|calls|] == calls;
  }

  /** A call that passes changes nothing, and what it reports is true. */
  lemma PassedVerdict(leftover: Machine, started: nat, inserted: bool, cells: seq<Block>, decode: Decoder,
                      calls: seq<Call>, call: Call)
    requires B.Ordered(started, calls)
    requires Process(After(SdCardMedia.Start(leftover, started, inserted, cells), decode, calls), decode, call).1 ==
             Passed
    ensures var s := After(SdCardMedia.Start(leftover, started, inserted, cells), decode, calls);
            Process(s, decode, call).0 == s && MediaGood(cells, s, decode) && B.Debounced(s.polls, inserted)
  {
    PassedMeansMediaGood(leftover, started, inserted, cells, decode, calls, call);
    B.InitializationIsDebounced(leftover, started, inserted, cells, decode, calls);
  }
}

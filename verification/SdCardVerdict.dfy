/** The verdict of the SD-card media test, call by call: PASSED exactly for a card that stays
    inserted, takes every command and decodes the test area to eight cells of its own. */
module SdCardVerdict {
  import opened Bytes
  import opened SdCardMedia
  import C = Crc32

  /** Where the machine is after `n` good calls from initialization on. */
  predicate At(m: Machine, n: nat) {
    if n == 0 then m.state == Initializing
    else if n <= 8 then m.state == Writing && m.currentBlock == n - 1
    else if n <= 16 then m.state == Verifying && m.currentBlock == n - 9
    else if n <= 24 then m.state == CleaningUp && m.currentBlock == n - 17
    else m.state == Complete
  }

  /** The card is there and does what the `n`-th call asks of it. */
  predicate GoodCall(call: Call, n: nat) {
    call.inserted && if n == 0 then call.outcome.Initialized? else call.outcome.Transferred?
  }

  /** What a driver call can come to at this point. */
  predicate Fitting(call: Call, n: nat) {
    if n == 0 then !call.outcome.Transferred? else !call.outcome.Initialized?
  }

  /** The card decodes the eight test addresses to eight different cells of the medium. */
  predicate OwnCells(cells: seq<Block>, decode: Decoder, information: Information) {
    && (forall i :: 0 <= i < 8 ==> Cell(decode, information, i) < |cells|)
    && (forall i, j :: 0 <= i < j < 8 ==> Cell(decode, information, i) != Cell(decode, information, j))
  }

  function Reported(outcome: Outcome, checksum: C.Word): Information
    requires outcome.Initialized?
  {
    Information(outcome.sectorCount, outcome.testSector, checksum, outcome.highCapacity)
  }

  /** CRC-32 of the eight patterns. */
  function TestChecksum(outcome: Outcome): C.Word
    requires outcome.Initialized?
  {
    C.Not(C.Checksum(C.Ones(), Patterns(Reported(outcome, C.Zero()), 8)))
  }

  /** What the `n`-th of 26 calls returns on a good card. */
  function GoodResult(n: nat, outcome: Outcome): Result
    requires outcome.Initialized?
  {
    if n == 0 then Emitted(CardInformation("sd_card_initialized", Reported(outcome, C.Zero())))
    else if n == 8 then Emitted(CardInformation("sd_card_written", Reported(outcome, TestChecksum(outcome))))
    else if n == 16 then Emitted(CardInformation("sd_card_verified", Reported(outcome, TestChecksum(outcome))))
    else if n == 24 then Emitted(CardInformation("sd_card_cleaned_up", Reported(outcome, TestChecksum(outcome))))
    else if n == 25 then Passed
    else Running
  }

  /** What the first bad call reports. */
  function BadResult(n: nat, call: Call): Result {
    if !call.inserted then
      Emitted(FailureEvent(Failure(if n == 0 then "initialization" else if n <= 8 then "write"
                                   else if n <= 16 then "verify" else "cleanup", "card_removed")))
    else if call.outcome.Refused? then Emitted(FailureEvent(call.outcome.failure))
    else Emitted(FailureEvent(Failure("cmd17_read_test_sector", "read_back_mismatch")))
  }

  /** The information after `n` good calls. */
  predicate Informed(m: Machine, n: nat, outcome: Outcome)
    requires outcome.Initialized?
  {
    m.information == if n == 0 then Information(0, 0, C.Zero(), false)
                     else Reported(outcome, if n <= 8 then C.Zero() else TestChecksum(outcome))
  }

  /** Block `n` of the test area reads back from the written medium. */
  predicate Readable(start: seq<Block>, decode: Decoder, outcome: Outcome, n: nat)
    requires outcome.Initialized?
  {
    var information := Reported(outcome, C.Zero());
    ReadsBack(Written(start, decode, information, 8), decode, information, n)
  }

  // ---------------------------------------------------------------- one call

  lemma InitializingCall(s: System, call: Call, start: seq<Block>)
    requires s.machine.state == Initializing && s.machine.currentBlock == 0 && call.inserted
    requires s.machine.information == Information(0, 0, C.Zero(), false) && call.outcome.Initialized?
    ensures var (t, result) := ProcessInitializing(s, call);
            At(t.machine, 1) && Informed(t.machine, 1, call.outcome) && result == GoodResult(0, call.outcome)
  {
  }

  lemma WritingCall(s: System, decode: Decoder, call: Call, start: seq<Block>, outcome: Outcome, n: nat)
    requires 1 <= n <= 8 && At(s.machine, n) && Inv(s, decode, start) && outcome.Initialized?
    requires Informed(s.machine, n, outcome) && call.outcome.Transferred?
    ensures var (t, result) := ProcessWriting(s, decode, call);
            && At(t.machine, n + 1) && Informed(t.machine, n + 1, outcome) && result == GoodResult(n, outcome)
  {
    DataChecksumStep(s.machine.information, n - 1);
  }

  lemma SameArea(start: seq<Block>, decode: Decoder, outcome: Outcome, n: nat)
    requires outcome.Initialized?
    ensures var a, b := Reported(outcome, C.Zero()), Reported(outcome, TestChecksum(outcome));
            && Written(start, decode, b, 8) == Written(start, decode, a, 8)
            && (ReadsBack(Written(start, decode, b, 8), decode, b, n) <==> Readable(start, decode, outcome, n))
  {
    WrittenSameArea(start, decode, Reported(outcome, TestChecksum(outcome)), Reported(outcome, C.Zero()), 8);
  }

  lemma VerifyingCall(s: System, decode: Decoder, call: Call, start: seq<Block>, outcome: Outcome, n: nat)
    requires 9 <= n <= 16 && At(s.machine, n) && Inv(s, decode, start) && outcome.Initialized?
    requires Informed(s.machine, n, outcome) && call.outcome.Transferred?
    ensures var (t, result) := ProcessVerifying(s, decode, call);
            if Readable(start, decode, outcome, n - 9)
            then At(t.machine, n + 1) && Informed(t.machine, n + 1, outcome) && result == GoodResult(n, outcome)
            else t.machine.state == Failed && result == BadResult(n, Call(call.time, true, Transferred))
  {
    SameArea(start, decode, outcome, n - 9);
    if n == 16 {
      VerifiedChecksumMatches(s, decode, start);
    }
  }

  lemma CleaningCall(s: System, decode: Decoder, call: Call, outcome: Outcome, n: nat)
    requires 17 <= n <= 24 && At(s.machine, n) && outcome.Initialized?
    requires Informed(s.machine, n, outcome) && call.outcome.Transferred?
    ensures var (t, result) := ProcessCleaning(s, decode, call);
            && At(t.machine, n + 1) && Informed(t.machine, n + 1, outcome) && result == GoodResult(n, outcome)
  {
  }

  /** No verification is due, or the block reads back. */
  predicate ReadableIfDue(start: seq<Block>, decode: Decoder, outcome: Outcome, n: nat)
    requires outcome.Initialized?
  {
    9 <= n <= 16 ==> Readable(start, decode, outcome, n - 9)
  }

  /** A good call moves on by one, or finds a block that does not read back. */
  lemma GoodCallMovesOn(s: System, decode: Decoder, call: Call, start: seq<Block>, outcome: Outcome, n: nat)
    requires n < 25 && At(s.machine, n) && Inv(s, decode, start) && outcome.Initialized?
    requires Informed(s.machine, n, outcome) && GoodCall(call, n) && (n == 0 ==> call.outcome == outcome)
    ensures var (t, result) := Process(s, decode, call);
            if ReadableIfDue(start, decode, outcome, n)
            then At(t.machine, n + 1) && Informed(t.machine, n + 1, outcome) && result == GoodResult(n, outcome)
            else t.machine.state == Failed
  {
    if n == 0 {
      InitializingCall(s, call, start);
    } else if n <= 8 {
      WritingCall(s, decode, call, start, outcome, n);
    } else if n <= 16 {
      VerifyingCall(s, decode, call, start, outcome, n);
    } else {
      CleaningCall(s, decode, call, outcome, n);
    }
  }

  /** Any other call ends the test, and what it reports is why. */
  lemma BadCallFails(s: System, decode: Decoder, call: Call, n: nat)
    requires n < 25 && At(s.machine, n) && Fitting(call, n) && !GoodCall(call, n)
    ensures Process(s, decode, call).0.machine.state == Failed && Process(s, decode, call).1 == BadResult(n, call)
  {
  }

  // ---------------------------------------------------------------- whole runs

  predicate GoodSoFar(calls: seq<Call>, n: nat)
    requires n <= |calls|
  {
    forall i :: 0 <= i < n ==> GoodCall(calls[i], i)
  }

  predicate AllReadable(start: seq<Block>, decode: Decoder, outcome: Outcome)
    requires outcome.Initialized?
  {
    forall i :: 0 <= i < 8 ==> Readable(start, decode, outcome, i)
  }

  /** After `n` calls: failed, or all of them were good and the machine is where they lead. */
  ghost predicate OnTrack(t: System, decode: Decoder, start: seq<Block>, calls: seq<Call>, n: nat)
    requires n <= |calls|
  {
    && Inv(t, decode, start)
    && (t.machine.state == Failed ||
        (At(t.machine, n) && GoodSoFar(calls, n) && (n > 0 ==> Informed(t.machine, n, calls[0].outcome))))
  }

  lemma FailedStays(s: System, decode: Decoder, call: Call)
    requires s.machine.state == Failed
    ensures Process(s, decode, call) == (s, TestFailed)
  {
  }

  lemma NextOnTrack(t: System, decode: Decoder, start: seq<Block>, calls: seq<Call>, n: nat)
    requires n < |calls| && n < 25 && OnTrack(t, decode, start, calls, n)
    ensures OnTrack(Process(t, decode, calls[n]).0, decode, start, calls, n + 1)
  {
    ProcessKeepsInv(t, decode, calls[n], start);
    if t.machine.state == Failed {
      FailedStays(t, decode, calls[n]);
    } else if !GoodCall(calls[n], n) {
      CallFails(t, decode, calls[n], n);
    } else {
      GoodCallMovesOn(t, decode, calls[n], start, calls[0].outcome, n);
    }
  }

  lemma NextIsGood(t: System, decode: Decoder, start: seq<Block>, calls: seq<Call>, n: nat)
    requires n < |calls| && n < 25 && OnTrack(t, decode, start, calls, n) && t.machine.state != Failed
    requires GoodCall(calls[n], n) && calls[0].outcome.Initialized? && AllReadable(start, decode, calls[0].outcome)
    ensures Process(t, decode, calls[n]).0.machine.state != Failed
    ensures Process(t, decode, calls[n]).1 == GoodResult(n, calls[0].outcome)
  {
    assert ReadableIfDue(start, decode, calls[0].outcome, n);
    GoodCallMovesOn(t, decode, calls[n], start, calls[0].outcome, n);
  }

  lemma CallFails(s: System, decode: Decoder, call: Call, n: nat)
    requires n < 25 && At(s.machine, n) && !GoodCall(call, n)
    ensures Process(s, decode, call).0.machine.state == Failed
  {
  }

  lemma AfterNext(s: System, decode: Decoder, calls: seq<Call>, n: nat)
    requires n < |calls|
    ensures After(s, decode, calls[..n + 1]) == Process(After(s, decode, calls[..n]), decode, calls[n]).0
  {
    assert calls[..n + 1][..n] == calls[..n];
  }

  lemma {:induction false} RunOnTrack(s: System, decode: Decoder, start: seq<Block>, calls: seq<Call>, n: nat)
    requires n <= |calls| && n <= 25 && s.machine.state == Initializing && Inv(s, decode, start)
    ensures OnTrack(After(s, decode, calls[..n]), decode, start, calls, n)
    ensures GoodSoFar(calls, n) && (n > 0 ==> AllReadable(start, decode, calls[0].outcome)) ==>
            After(s, decode, calls[..n]).machine.state != Failed
  {
    if n > 0 {
      RunOnTrack(s, decode, start, calls, n - 1);
      AfterNext(s, decode, calls, n - 1);
      NextOnTrack(After(s, decode, calls[..n - 1]), decode, start, calls, n - 1);
      if GoodSoFar(calls, n) && AllReadable(start, decode, calls[0].outcome) {
        NextIsGood(After(s, decode, calls[..n - 1]), decode, start, calls, n - 1);
      }
    }
  }

  /** Blocks written to cells of their own read back. */
  lemma {:induction false} WrittenReadsBack(cells: seq<Block>, decode: Decoder, information: Information, n: nat,
                                            i: nat)
    requires OwnCells(cells, decode, information) && i < n <= 8
    ensures ReadsBack(Written(cells, decode, information, n), decode, information, i)
  {
    LengthsKept(cells, decode, information, n - 1);
    if i < n - 1 {
      WrittenReadsBack(cells, decode, information, n - 1, i);
    }
  }

  lemma OwnCellsRead(cells: seq<Block>, decode: Decoder, outcome: Outcome)
    requires outcome.Initialized? && OwnCells(cells, decode, Reported(outcome, C.Zero()))
    ensures AllReadable(cells, decode, outcome)
  {
    forall i | 0 <= i < 8 ensures Readable(cells, decode, outcome, i) {
      WrittenReadsBack(cells, decode, Reported(outcome, C.Zero()), 8, i);
    }
  }

  /** The `n`-th of these calls. */
  function ResultAt(s: System, decode: Decoder, calls: seq<Call>, n: nat): Result
    requires n < |calls|
  {
    Process(After(s, decode, calls[..n]), decode, calls[n]).1
  }

  /** On a good card the 26 calls from initialization on return exactly this: the card's
      information, then that the eight blocks are written, verified and cleaned up, and PASSED. */
  lemma GoodCardPasses(leftover: Machine, time: nat, inserted: bool, cells: seq<Block>, decode: Decoder,
                       before: seq<Call>, calls: seq<Call>, n: nat)
    requires After(Start(leftover, time, inserted, cells), decode, before).machine.state == Initializing
    requires |calls| == 26 && n < 26 && GoodSoFar(calls, 25)
    requires OwnCells(cells, decode, Reported(calls[0].outcome, C.Zero()))
    ensures var s := After(Start(leftover, time, inserted, cells), decode, before);
            ResultAt(s, decode, calls, n) == GoodResult(n, calls[0].outcome)
  {
    var s := After(Start(leftover, time, inserted, cells), decode, before);
    InvHolds(leftover, time, inserted, cells, decode, before);
    OwnCellsRead(cells, decode, calls[0].outcome);
    RunOnTrack(s, decode, cells, calls, n);
    if n < 25 {
      NextIsGood(After(s, decode, calls[..n]), decode, cells, calls, n);
    }
  }

  /** The verdict: the 26th call returns PASSED if and only if the card was there and took every
      command in the 25 before, and decodes the test area to eight cells of its own. */
  lemma PassedIff(leftover: Machine, time: nat, inserted: bool, cells: seq<Block>, decode: Decoder,
                  before: seq<Call>, calls: seq<Call>)
    requires After(Start(leftover, time, inserted, cells), decode, before).machine.state == Initializing
    requires |calls| == 26
    ensures var s := After(Start(leftover, time, inserted, cells), decode, before);
            ResultAt(s, decode, calls, 25) == Passed <==>
            GoodSoFar(calls, 25) && OwnCells(cells, decode, Reported(calls[0].outcome, C.Zero()))
  {
    var s := After(Start(leftover, time, inserted, cells), decode, before);
    if GoodSoFar(calls, 25) && OwnCells(cells, decode, Reported(calls[0].outcome, C.Zero())) {
      GoodCardPasses(leftover, time, inserted, cells, decode, before, calls, 25);
    }
    InvHolds(leftover, time, inserted, cells, decode, before);
    RunOnTrack(s, decode, cells, calls, 25);
    var t := After(s, decode, calls[..25]);
    if t.machine.state != Failed {
      CompleteMeansOwnCells(cells, t, decode, calls[0].outcome);
    }
  }

  lemma CompleteMeansOwnCells(cells: seq<Block>, t: System, decode: Decoder, outcome: Outcome)
    requires Inv(t, decode, cells) && t.machine.state == Complete && outcome.Initialized?
    requires Informed(t.machine, 25, outcome)
    ensures OwnCells(cells, decode, Reported(outcome, C.Zero()))
  {
    CompleteMeansMediaGood(cells, t, decode);
    var a, b := Reported(outcome, C.Zero()), t.machine.information;
    assert forall i :: 0 <= i < 8 ==> Cell(decode, a, i) == Cell(decode, b, i);
  }

  lemma {:induction false} FailedForGood(s: System, decode: Decoder, calls: seq<Call>)
    requires s.machine.state == Failed
    ensures After(s, decode, calls) == s
  {
    if calls != [] {
      FailedForGood(s, decode, calls[..|calls| - 1]);
    }
  }

  /** The first bad call ends the test: it reports the stage the card was removed in or the
      driver's own failure, and every later call returns FAILED. */
  lemma FirstBadCallDecides(leftover: Machine, time: nat, inserted: bool, cells: seq<Block>, decode: Decoder,
                            before: seq<Call>, calls: seq<Call>, n: nat, later: seq<Call>, last: Call)
    requires After(Start(leftover, time, inserted, cells), decode, before).machine.state == Initializing
    requires n < 25 && n < |calls| && Fitting(calls[n], n) && !GoodCall(calls[n], n)
    requires var s := After(Start(leftover, time, inserted, cells), decode, before);
             After(s, decode, calls[..n]).machine.state != Failed
    ensures var s := After(Start(leftover, time, inserted, cells), decode, before);
            && ResultAt(s, decode, calls, n) == BadResult(n, calls[n])
            && Process(After(After(s, decode, calls[..n + 1]), decode, later), decode, last).1 == TestFailed
  {
    var s := After(Start(leftover, time, inserted, cells), decode, before);
    InvHolds(leftover, time, inserted, cells, decode, before);
    RunOnTrack(s, decode, cells, calls, n);
    BadCallFails(After(s, decode, calls[..n]), decode, calls[n], n);
    AfterNext(s, decode, calls, n);
    FailedForGood(After(s, decode, calls[..n + 1]), decode, later);
  }
}

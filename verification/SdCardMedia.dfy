/** The SD-card media test as a transition system over a card with arbitrary address
    decoding: what PASSED says about the card. */
module SdCardMedia {
  import opened Bytes
  import C = Crc32
  import D = SdCardCsd
  import Ticks

  const BLOCKS: nat := 8
  const POLL_INTERVAL_MS: uint32 := 20
  const STABLE_POLLS: nat := 3
  const CALL_BOUND: nat := 26

  type Block = b: seq<byte> | |b| == 512 witness seq(512, _ => 0)

  function Zeros(): Block {
    seq(512, _ => 0)
  }

  /** `(uint8_t)n`: counting to `n` in a byte that wraps. */
  function Truncated(n: nat): byte {
    if n == 0 then 0 else Truncated(n - 1) + 1
  }

  /** `(uint8_t)(sector + index * 37U)`. */
  function Pattern(sector: uint32): Block {
    seq(512, i requires 0 <= i < 512 => Truncated(sector + i * 37))
  }

  datatype State =
    | AnnounceRemoval | WaitingForRemoval | AnnounceInsertion | WaitingForInsertion
    | Initializing | Writing | Verifying | CleaningUp | Complete | Failed

  datatype Information = Information(sectorCount: nat, testSector: uint32, checksum: C.Word, highCapacity: bool)

  datatype Failure = Failure(stage: string, reason: string)

  datatype Event =
    | Message(name: string)
    | CardInformation(name: string, information: Information)
    | FailureEvent(failure: Failure)

  datatype Result = Running | Emitted(event: Event) | Passed | TestFailed

  /** The test's static variables and the driver's two running checksums. */
  datatype Machine = Machine(state: State, nextPollAt: uint32, matchingPolls: nat, currentBlock: nat,
                             information: Information, writeChecksum: C.Word, verifyChecksum: C.Word)

  /** A card-detect poll that was due: when, and what it saw. */
  datatype Poll = Poll(time: nat, inserted: bool)

  /** `cells` is the medium; the rest is history: the polls taken, and how many of them had
      been taken when removal was confirmed. */
  datatype System = System(machine: Machine, cells: seq<Block>, polls: seq<Poll>, removalPolls: nat)

  /** What the card does with the commands of one call.  A refused write may still have left
      anything in the addressed cell, a refused initialization anything in the information
      structure. */
  datatype Outcome =
    | Initialized(sectorCount: nat, testSector: uint32, highCapacity: bool)
    | Transferred
    | Refused(failure: Failure, debris: seq<Block>, leftover: Information)

  /** One call of the process function, at true time `time`. */
  datatype Call = Call(time: nat, inserted: bool, outcome: Outcome)

  type Decoder = uint32 -> nat

  function Fetch(cells: seq<Block>, cell: nat): Block {
    if cell < |cells| then cells[cell] else Zeros()
  }

  function Store(cells: seq<Block>, cell: nat, block: Block): seq<Block> {
    if cell < |cells| then cells[cell := block] else cells
  }

  function Sector(information: Information, block: nat): uint32 {
    D.BlockSector(information.testSector, block)
  }

  /** The cell the card decodes block `block` of the test area to. */
  function Cell(decode: Decoder, information: Information, block: nat): nat {
    decode(D.WireAddress(Sector(information, block), information.highCapacity))
  }

  /** sd_card_test_start; the driver's checksums keep what an earlier run left in them. */
  function Start(leftover: Machine, time: nat, inserted: bool, cells: seq<Block>): System {
    System(Machine(if inserted then AnnounceRemoval else AnnounceInsertion, Ticks.Tick(time), 0, 0,
                   Information(0, 0, C.Zero(), false), leftover.writeChecksum, leftover.verifyChecksum), cells, [], 0)
  }

  function Fail(s: System, stage: string, reason: string): (System, Result) {
    (s.(machine := s.machine.(state := Failed)), Emitted(FailureEvent(Failure(stage, reason))))
  }

  function CountPoll(s: System, call: Call, wanted: bool): (System, bool) {
    var matching := if call.inserted == wanted then s.machine.matchingPolls + 1 else 0;
    (s.(machine := s.machine.(nextPollAt := Ticks.Later(Ticks.Tick(call.time), POLL_INTERVAL_MS),
                              matchingPolls := matching),
        polls := s.polls + [Poll(call.time, call.inserted)]),
     matching >= STABLE_POLLS)
  }

  /** stable_card_state: poll if due; true after three matching polls in a row. */
  function StableCardState(s: System, call: Call, wanted: bool): (System, bool) {
    if Ticks.Reached(Ticks.Tick(call.time), s.machine.nextPollAt) then CountPoll(s, call, wanted) else (s, false)
  }

  function ProcessInitializing(s: System, call: Call): (System, Result) {
    match call.outcome
    case Initialized(count, testSector, highCapacity) =>
      var information := Information(count, testSector, s.machine.information.checksum, highCapacity);
      (s.(machine := s.machine.(state := Writing, information := information)),
       Emitted(CardInformation("sd_card_initialized", information)))
    case Refused(failure, _, leftover) =>
      Fail(s.(machine := s.machine.(information := leftover)), failure.stage, failure.reason)
    case Transferred => Fail(s, "initialization", "spi_transfer_failed")
  }

  function Debris(cells: seq<Block>, cell: nat, outcome: Outcome): seq<Block> {
    if outcome.Refused? && outcome.debris != [] then Store(cells, cell, outcome.debris[0]) else cells
  }

  function FailureOf(outcome: Outcome): Failure {
    if outcome.Refused? then outcome.failure else Failure("arguments", "invalid_block_argument")
  }

  /** On to the next block, or after the last one to the next state. */
  function Advance(s: System, done: State, name: string): (System, Result) {
    var block := s.machine.currentBlock + 1;
    if block < BLOCKS then (s.(machine := s.machine.(currentBlock := block)), Running)
    else
      (s.(machine := s.machine.(state := done, currentBlock := if done == Complete then block else 0)),
       Emitted(CardInformation(name, s.machine.information)))
  }

  /** sd_card_driver_write_test_block within one call. */
  function ProcessWriting(s: System, decode: Decoder, call: Call): (System, Result) {
    var m := s.machine;
    var block := m.currentBlock;
    var data := Pattern(Sector(m.information, block));
    var cell := Cell(decode, m.information, block);
    var sum := C.Checksum(if block == 0 then C.Ones() else m.writeChecksum, data);
    var summed := s.(machine := m.(writeChecksum := sum));
    if !call.outcome.Transferred? then
      Fail(summed.(cells := Debris(s.cells, cell, call.outcome)), FailureOf(call.outcome).stage,
           FailureOf(call.outcome).reason)
    else
      var information := if block == BLOCKS - 1 then m.information.(checksum := C.Not(sum)) else m.information;
      Advance(s.(machine := m.(writeChecksum := sum, information := information), cells := Store(s.cells, cell, data)),
              Verifying, "sd_card_written")
  }

  /** sd_card_driver_verify_test_block within one call: bytes first, then the checksum. */
  function ProcessVerifying(s: System, decode: Decoder, call: Call): (System, Result) {
    var m := s.machine;
    var block := m.currentBlock;
    var start := if block == 0 then C.Ones() else m.verifyChecksum;
    var begun := s.(machine := m.(verifyChecksum := start));
    if !call.outcome.Transferred? then
      Fail(begun, FailureOf(call.outcome).stage, FailureOf(call.outcome).reason)
    else
      var received := Fetch(s.cells, Cell(decode, m.information, block));
      if received != Pattern(Sector(m.information, block)) then
        Fail(begun, "cmd17_read_test_sector", "read_back_mismatch")
      else
        var sum := C.Checksum(start, received);
        var summed := s.(machine := m.(verifyChecksum := sum));
        if block == BLOCKS - 1 && C.Not(sum) != m.information.checksum then
          Fail(summed, "cmd17_read_test_sector", "checksum_mismatch")
        else
          Advance(summed, CleaningUp, "sd_card_verified")
  }

  function ProcessCleaning(s: System, decode: Decoder, call: Call): (System, Result) {
    var m := s.machine;
    var block := m.currentBlock;
    var cell := Cell(decode, m.information, block);
    if !call.outcome.Transferred? then
      Fail(s.(cells := Debris(s.cells, cell, call.outcome)), FailureOf(call.outcome).stage,
           FailureOf(call.outcome).reason)
    else
      Advance(s.(cells := Store(s.cells, cell, Zeros())), Complete, "sd_card_cleaned_up")
  }

  function Removal(state: State): string {
    match state
    case Initializing => "initialization"
    case Writing => "write"
    case Verifying => "verify"
    case _ => "cleanup"
  }

  /** sd_card_test_process. */
  function Process(s: System, decode: Decoder, call: Call): (System, Result) {
    var m := s.machine;
    match m.state
    case AnnounceRemoval =>
      (s.(machine := m.(state := WaitingForRemoval)), Emitted(Message("sd_card_remove_required")))
    case WaitingForRemoval =>
      var (polled, stable) := StableCardState(s, call, false);
      if !stable then (polled, Running)
      else (polled.(machine := polled.machine.(state := AnnounceInsertion, matchingPolls := 0),
                    removalPolls := |polled.polls|), Emitted(Message("sd_card_removed")))
    case AnnounceInsertion =>
      (s.(machine := m.(state := WaitingForInsertion)), Emitted(Message("sd_card_insert_required")))
    case WaitingForInsertion =>
      var (polled, stable) := StableCardState(s, call, true);
      if !stable then (polled, Running)
      else (polled.(machine := polled.machine.(state := Initializing)), Emitted(Message("sd_card_detected")))
    case Complete => (s, Passed)
    case Failed => (s, TestFailed)
    case _ =>
      if !call.inserted then Fail(s, Removal(m.state), "card_removed")
      else if m.state == Initializing then ProcessInitializing(s, call)
      else if m.state == Writing then ProcessWriting(s, decode, call)
      else if m.state == Verifying then ProcessVerifying(s, decode, call)
      else ProcessCleaning(s, decode, call)
  }

  function After(start: System, decode: Decoder, calls: seq<Call>): System {
    if calls == [] then start
    else Process(After(start, decode, calls[..|calls| - 1]), decode, calls[|calls| - 1]).0
  }

  // ---------------------------------------------------------------- patterns and checksums

  lemma {:induction false} TruncatedAdds(m: nat, n: nat)
    ensures Truncated(m + n) == Truncated(m) + Truncated(n)
  {
    if n > 0 {
      TruncatedAdds(m, n - 1);
    }
  }

  lemma NextByte(b: byte)
    ensures (b + 1) as nat == if b == 255 then 0 else b as nat + 1
  {
  }

  lemma NextRemainder(n: nat)
    ensures (n + 1) % 256 == if n % 256 == 255 then 0 else n % 256 + 1
  {
  }

  lemma {:induction false} TruncatedIsModulo(n: nat)
    ensures Truncated(n) as nat == n % 256
  {
    if n > 0 {
      TruncatedIsModulo(n - 1);
      NextByte(Truncated(n - 1));
      NextRemainder(n - 1);
      assert Truncated(n) == Truncated(n - 1) + 1;
    }
  }

  /** The test data, byte by byte. */
  lemma PatternBytes(sector: uint32, i: nat)
    requires i < 512
    ensures Pattern(sector)[i] as nat == (sector + i * 37) % 256
  {
    TruncatedIsModulo(sector + i * 37);
  }

  lemma TruncatedPowers()
    ensures Truncated(1) == 1 && Truncated(256) == 0
  {
    TruncatedAdds(1, 1);
    TruncatedAdds(2, 2);
    TruncatedAdds(4, 4);
    TruncatedAdds(8, 8);
    TruncatedAdds(16, 16);
    TruncatedAdds(32, 32);
    TruncatedAdds(64, 64);
    TruncatedAdds(128, 128);
  }

  /** So a 32-bit wrap before the truncation changes nothing. */
  lemma {:induction false} TruncatedPeriod(n: nat, k: nat)
    ensures Truncated(n + 256 * k) == Truncated(n)
  {
    if k > 0 {
      TruncatedPeriod(n, k - 1);
      TruncatedAdds(n + 256 * (k - 1), 256);
      TruncatedPowers();
    }
  }

  lemma TruncatedSteps(a: nat, k: nat)
    requires 0 < k < BLOCKS
    ensures Truncated(a + k) != Truncated(a)
  {
    TruncatedAdds(a, k);
    SmallTruncated(k);
  }

  lemma SmallTruncated(k: nat)
    requires 0 < k < BLOCKS
    ensures Truncated(k) != 0
  {
    assert Truncated(1) == 1;
    assert Truncated(2) == 2;
    assert Truncated(3) == 3;
    assert Truncated(4) == 4;
    assert Truncated(5) == 5;
    assert Truncated(6) == 6;
    assert Truncated(7) == 7;
  }

  /** Any two of the eight test sectors get different contents, wrapped addresses included. */
  lemma PatternsDiffer(information: Information, i: nat, j: nat)
    requires i < j < BLOCKS
    ensures Pattern(Sector(information, i)) != Pattern(Sector(information, j))
  {
    var a, b := Sector(information, i), Sector(information, j);
    assert b == a + (j - i) || b == a + (j - i) - 0x1_0000_0000;
    TruncatedSteps(a, j - i);
    TruncatedPeriod(b, 0x100_0000);
    assert Pattern(a)[0] == Truncated(a) && Pattern(b)[0] == Truncated(b);
  }

  /** No pattern is all zeros: its first two bytes differ by 37. */
  lemma PatternIsNotZero(sector: uint32)
    ensures Pattern(sector) != Zeros()
  {
    TruncatedAdds(1, 1);
    TruncatedAdds(2, 2);
    TruncatedAdds(4, 1);
    TruncatedAdds(4, 4);
    TruncatedAdds(8, 8);
    TruncatedAdds(16, 16);
    TruncatedAdds(32, 5);
    assert Truncated(1) == 1 && Truncated(37) == 37;
    TruncatedAdds(sector, 37);
    assert Pattern(sector)[0] == Truncated(sector) && Pattern(sector)[1] == Truncated(sector + 37);
    assert Zeros()[0] == Zeros()[1];
  }

  /** The first `n` test blocks end to end. */
  function Patterns(information: Information, n: nat): seq<byte> {
    if n == 0 then [] else Patterns(information, n - 1) + Pattern(Sector(information, n - 1))
  }

  /** CRC-32 of the first `n` test blocks, before the final complement. */
  function DataChecksum(information: Information, n: nat): C.Word {
    C.Checksum(C.Ones(), Patterns(information, n))
  }

  lemma DataChecksumStep(information: Information, n: nat)
    ensures DataChecksum(information, n + 1) ==
            C.Checksum(DataChecksum(information, n), Pattern(Sector(information, n)))
    ensures DataChecksum(information, 0) == C.Ones()
  {
    C.ChecksumAppend(C.Ones(), Patterns(information, n), Pattern(Sector(information, n)));
  }

  lemma {:induction false} ChecksumFieldIrrelevant(a: Information, b: Information, n: nat)
    requires a.testSector == b.testSector
    ensures Patterns(a, n) == Patterns(b, n)
  {
    if n > 0 {
      ChecksumFieldIrrelevant(a, b, n - 1);
    }
  }

  // ---------------------------------------------------------------- the medium

  function Written(cells: seq<Block>, decode: Decoder, information: Information, n: nat): seq<Block> {
    if n == 0 then cells
    else Store(Written(cells, decode, information, n - 1), Cell(decode, information, n - 1),
               Pattern(Sector(information, n - 1)))
  }

  function Cleared(cells: seq<Block>, decode: Decoder, information: Information, n: nat): seq<Block> {
    if n == 0 then cells
    else Store(Cleared(cells, decode, information, n - 1), Cell(decode, information, n - 1), Zeros())
  }

  lemma {:induction false} WrittenElsewhere(cells: seq<Block>, decode: Decoder, information: Information, n: nat,
                                            c: nat)
    requires c < |cells| && forall i :: 0 <= i < n ==> Cell(decode, information, i) != c
    ensures |Written(cells, decode, information, n)| == |cells|
    ensures Written(cells, decode, information, n)[c] == cells[c]
  {
    if n > 0 {
      WrittenElsewhere(cells, decode, information, n - 1, c);
    }
  }

  lemma {:induction false} LengthsKept(cells: seq<Block>, decode: Decoder, information: Information, n: nat)
    ensures |Written(cells, decode, information, n)| == |cells| == |Cleared(cells, decode, information, n)|
  {
    if n > 0 {
      LengthsKept(cells, decode, information, n - 1);
    }
  }

  lemma {:induction false} ClearedEverywhere(cells: seq<Block>, decode: Decoder, information: Information, n: nat,
                                             c: nat)
    requires c < |cells|
    ensures |Cleared(cells, decode, information, n)| == |cells|
    ensures Cleared(cells, decode, information, n)[c] ==
            if exists i :: 0 <= i < n && Cell(decode, information, i) == c then Zeros() else cells[c]
  {
    if n > 0 {
      ClearedEverywhere(cells, decode, information, n - 1, c);
    }
  }

  /** Block `i` reads back as its own pattern. */
  predicate ReadsBack(cells: seq<Block>, decode: Decoder, information: Information, i: nat) {
    Fetch(cells, Cell(decode, information, i)) == Pattern(Sector(information, i))
  }

  predicate AllReadBack(cells: seq<Block>, decode: Decoder, information: Information, n: nat) {
    forall i :: 0 <= i < n ==> ReadsBack(cells, decode, information, i)
  }

  /** What the machine knows in each of its states, relative to the medium at the start. */
  ghost predicate Inv(s: System, decode: Decoder, start: seq<Block>) {
    var m := s.machine;
    var full := Written(start, decode, m.information, BLOCKS);
    match m.state
    case Writing =>
      && m.currentBlock < BLOCKS
      && s.cells == Written(start, decode, m.information, m.currentBlock)
      && (m.currentBlock > 0 ==> m.writeChecksum == DataChecksum(m.information, m.currentBlock))
    case Verifying =>
      && m.currentBlock < BLOCKS && s.cells == full
      && AllReadBack(full, decode, m.information, m.currentBlock)
      && (m.currentBlock > 0 ==> m.verifyChecksum == DataChecksum(m.information, m.currentBlock))
      && m.information.checksum == C.Not(DataChecksum(m.information, BLOCKS))
    case CleaningUp =>
      && m.currentBlock < BLOCKS
      && AllReadBack(full, decode, m.information, BLOCKS)
      && s.cells == Cleared(full, decode, m.information, m.currentBlock)
      && m.information.checksum == C.Not(DataChecksum(m.information, BLOCKS))
    case Complete =>
      && AllReadBack(full, decode, m.information, BLOCKS)
      && s.cells == Cleared(full, decode, m.information, BLOCKS)
      && m.information.checksum == C.Not(DataChecksum(m.information, BLOCKS))
    case Failed => true
    case _ => s.cells == start && m.currentBlock == 0 && m.information == Information(0, 0, C.Zero(), false)
  }

  /** The last block written; the checksum stored does not move the test area. */
  lemma LastBlockWritten(s: System, decode: Decoder, start: seq<Block>, sum: C.Word)
    requires s.machine.state == Writing && Inv(s, decode, start) && s.machine.currentBlock == BLOCKS - 1
    requires sum == DataChecksum(s.machine.information, BLOCKS)
    ensures var m := s.machine;
            var information := m.information.(checksum := C.Not(sum));
            var cells := Store(s.cells, Cell(decode, m.information, m.currentBlock),
                               Pattern(Sector(m.information, m.currentBlock)));
            Inv(Advance(s.(machine := m.(writeChecksum := sum, information := information), cells := cells),
                        Verifying, "sd_card_written").0, decode, start)
  {
    var information := s.machine.information.(checksum := C.Not(sum));
    ChecksumFieldIrrelevant(s.machine.information, information, BLOCKS);
    WrittenSameArea(start, decode, s.machine.information, information, BLOCKS);
  }

  /** A block written before the last one. */
  lemma BlockWritten(s: System, decode: Decoder, start: seq<Block>, sum: C.Word)
    requires s.machine.state == Writing && Inv(s, decode, start) && s.machine.currentBlock < BLOCKS - 1
    requires sum == DataChecksum(s.machine.information, s.machine.currentBlock + 1)
    ensures var m := s.machine;
            var cells := Store(s.cells, Cell(decode, m.information, m.currentBlock),
                               Pattern(Sector(m.information, m.currentBlock)));
            Inv(Advance(s.(machine := m.(writeChecksum := sum), cells := cells), Verifying, "sd_card_written").0,
                decode, start)
  {
  }

  lemma WritingKeepsInv(s: System, decode: Decoder, call: Call, start: seq<Block>)
    requires s.machine.state == Writing && Inv(s, decode, start)
    ensures Inv(ProcessWriting(s, decode, call).0, decode, start)
  {
    var m := s.machine;
    if call.outcome.Transferred? {
      DataChecksumStep(m.information, m.currentBlock);
      if m.currentBlock == BLOCKS - 1 {
        LastBlockWritten(s, decode, start, DataChecksum(m.information, BLOCKS));
      } else {
        BlockWritten(s, decode, start, DataChecksum(m.information, m.currentBlock + 1));
      }
    } else {
      assert ProcessWriting(s, decode, call).0.machine.state == Failed;
    }
  }

  lemma {:induction false} WrittenSameArea(cells: seq<Block>, decode: Decoder, a: Information, b: Information, n: nat)
    requires a.testSector == b.testSector && a.highCapacity == b.highCapacity
    ensures Written(cells, decode, a, n) == Written(cells, decode, b, n)
  {
    if n > 0 {
      WrittenSameArea(cells, decode, a, b, n - 1);
    }
  }

  lemma OneMoreReadBack(cells: seq<Block>, decode: Decoder, information: Information, n: nat)
    requires AllReadBack(cells, decode, information, n) && ReadsBack(cells, decode, information, n)
    ensures AllReadBack(cells, decode, information, n + 1)
  {
  }

  /** One more block verified, whichever state follows. */
  lemma VerifiedOneMore(s: System, decode: Decoder, start: seq<Block>, sum: C.Word)
    requires s.machine.state == Verifying && Inv(s, decode, start)
    requires ReadsBack(s.cells, decode, s.machine.information, s.machine.currentBlock)
    requires sum == C.Checksum(if s.machine.currentBlock == 0 then C.Ones() else s.machine.verifyChecksum,
                               Pattern(Sector(s.machine.information, s.machine.currentBlock)))
    ensures AllReadBack(s.cells, decode, s.machine.information, s.machine.currentBlock + 1)
    ensures sum == DataChecksum(s.machine.information, s.machine.currentBlock + 1)
  {
    DataChecksumStep(s.machine.information, s.machine.currentBlock);
    OneMoreReadBack(s.cells, decode, s.machine.information, s.machine.currentBlock);
  }

  lemma VerifiedMore(s: System, decode: Decoder, start: seq<Block>, sum: C.Word)
    requires s.machine.state == Verifying && Inv(s, decode, start) && s.machine.currentBlock + 1 < BLOCKS
    requires AllReadBack(s.cells, decode, s.machine.information, s.machine.currentBlock + 1)
    requires sum == DataChecksum(s.machine.information, s.machine.currentBlock + 1)
    ensures Inv(s.(machine := s.machine.(verifyChecksum := sum, currentBlock := s.machine.currentBlock + 1)), decode,
                start)
  {
  }

  lemma VerifiedAll(s: System, decode: Decoder, start: seq<Block>, sum: C.Word)
    requires s.machine.state == Verifying && Inv(s, decode, start) && s.machine.currentBlock + 1 == BLOCKS
    requires AllReadBack(s.cells, decode, s.machine.information, BLOCKS)
    ensures Inv(s.(machine := s.machine.(verifyChecksum := sum, state := CleaningUp, currentBlock := 0)), decode, start)
  {
    assert Cleared(s.cells, decode, s.machine.information, 0) == s.cells;
  }

  lemma VerifiedAdvances(s: System, decode: Decoder, start: seq<Block>, sum: C.Word)
    requires s.machine.state == Verifying && Inv(s, decode, start)
    requires AllReadBack(s.cells, decode, s.machine.information, s.machine.currentBlock + 1)
    requires sum == DataChecksum(s.machine.information, s.machine.currentBlock + 1)
    ensures Inv(Advance(s.(machine := s.machine.(verifyChecksum := sum)), CleaningUp, "sd_card_verified").0, decode,
                start)
  {
    if s.machine.currentBlock + 1 < BLOCKS {
      VerifiedMore(s, decode, start, sum);
    } else {
      VerifiedAll(s, decode, start, sum);
    }
  }

  lemma VerifyingKeepsInv(s: System, decode: Decoder, call: Call, start: seq<Block>)
    requires s.machine.state == Verifying && Inv(s, decode, start)
    ensures Inv(ProcessVerifying(s, decode, call).0, decode, start)
  {
    var m := s.machine;
    if call.outcome.Transferred? && ReadsBack(s.cells, decode, m.information, m.currentBlock) {
      var sum := C.Checksum(if m.currentBlock == 0 then C.Ones() else m.verifyChecksum,
                            Pattern(Sector(m.information, m.currentBlock)));
      VerifiedOneMore(s, decode, start, sum);
      VerifiedAdvances(s, decode, start, sum);
    } else {
      assert ProcessVerifying(s, decode, call).0.machine.state == Failed;
    }
  }

  /** When the last block's bytes match, both running checksums are that of the same data. */
  lemma VerifiedChecksumMatches(s: System, decode: Decoder, start: seq<Block>)
    requires s.machine.state == Verifying && Inv(s, decode, start) && s.machine.currentBlock == BLOCKS - 1
    ensures C.Not(C.Checksum(s.machine.verifyChecksum, Pattern(Sector(s.machine.information, BLOCKS - 1))))
            == s.machine.information.checksum
  {
    DataChecksumStep(s.machine.information, BLOCKS - 1);
  }

  lemma CleaningKeepsInv(s: System, decode: Decoder, call: Call, start: seq<Block>)
    requires s.machine.state == CleaningUp && Inv(s, decode, start)
    ensures Inv(ProcessCleaning(s, decode, call).0, decode, start)
  {
  }

  lemma ProcessKeepsInv(s: System, decode: Decoder, call: Call, start: seq<Block>)
    requires Inv(s, decode, start)
    ensures Inv(Process(s, decode, call).0, decode, start)
  {
    if call.inserted {
      match s.machine.state
      case Writing => WritingKeepsInv(s, decode, call, start);
      case Verifying => VerifyingKeepsInv(s, decode, call, start);
      case CleaningUp => CleaningKeepsInv(s, decode, call, start);
      case _ =>
    }
  }

  lemma {:induction false} InvHolds(leftover: Machine, time: nat, inserted: bool, cells: seq<Block>, decode: Decoder,
                                    calls: seq<Call>)
    ensures Inv(After(Start(leftover, time, inserted, cells), decode, calls), decode, cells)
  {
    if calls != [] {
      InvHolds(leftover, time, inserted, cells, decode, calls[..|calls| - 1]);
      ProcessKeepsInv(After(Start(leftover, time, inserted, cells), decode, calls[..|calls| - 1]), decode,
                      calls[|calls| - 1], cells);
    }
  }

  /** Reading back every pattern from one written medium forces distinct cells. */
  lemma ReadBackMeansDistinct(cells: seq<Block>, decode: Decoder, information: Information, i: nat, j: nat)
    requires AllReadBack(cells, decode, information, BLOCKS) && i < j < BLOCKS
    ensures Cell(decode, information, i) != Cell(decode, information, j)
  {
    PatternsDiffer(information, i, j);
    assert ReadsBack(cells, decode, information, i) && ReadsBack(cells, decode, information, j);
  }

  /** A block that reads back as its pattern is on the card. */
  lemma ReadBackMeansOnCard(cells: seq<Block>, decode: Decoder, information: Information, i: nat)
    requires ReadsBack(cells, decode, information, i)
    ensures Cell(decode, information, i) < |cells|
  {
    PatternIsNotZero(Sector(information, i));
  }

  /** A cell of the finished medium: zero in the test area, untouched elsewhere. */
  lemma FinishedCell(cells: seq<Block>, decode: Decoder, information: Information, c: nat)
    requires c < |cells|
    ensures var end := Cleared(Written(cells, decode, information, BLOCKS), decode, information, BLOCKS);
            |end| == |cells| &&
            end[c] == if exists i :: 0 <= i < BLOCKS && Cell(decode, information, i) == c then Zeros() else cells[c]
  {
    LengthsKept(cells, decode, information, BLOCKS);
    ClearedEverywhere(Written(cells, decode, information, BLOCKS), decode, information, BLOCKS, c);
    if !exists i :: 0 <= i < BLOCKS && Cell(decode, information, i) == c {
      WrittenElsewhere(cells, decode, information, BLOCKS, c);
    }
  }

  /** The medium after a passed test: the test area is zero, everything else is as before. */
  ghost predicate OnlyTestAreaZeroed(before: seq<Block>, after: seq<Block>, decode: Decoder, information: Information) {
    && |after| == |before|
    && forall c :: 0 <= c < |before| ==>
         after[c] == if exists i :: 0 <= i < BLOCKS && Cell(decode, information, i) == c then Zeros() else before[c]
  }

  ghost predicate MediaGood(before: seq<Block>, end: System, decode: Decoder) {
    var information := end.machine.information;
    && (forall i :: 0 <= i < BLOCKS ==> Cell(decode, information, i) < |before|)
    && (forall i, j :: 0 <= i < j < BLOCKS ==> Cell(decode, information, i) != Cell(decode, information, j))
    && OnlyTestAreaZeroed(before, end.cells, decode, information)
    && information.checksum == C.Not(C.Checksum(C.Ones(), Patterns(information, BLOCKS)))
  }

  lemma CompleteMeansMediaGood(cells: seq<Block>, end: System, decode: Decoder)
    requires Inv(end, decode, cells) && end.machine.state == Complete
    ensures MediaGood(cells, end, decode)
  {
    var information := end.machine.information;
    var full := Written(cells, decode, information, BLOCKS);
    LengthsKept(cells, decode, information, BLOCKS);
    LengthsKept(full, decode, information, BLOCKS);
    forall i | 0 <= i < BLOCKS ensures Cell(decode, information, i) < |cells| {
      assert ReadsBack(full, decode, information, i);
      ReadBackMeansOnCard(full, decode, information, i);
    }
    forall i, j | 0 <= i < j < BLOCKS ensures Cell(decode, information, i) != Cell(decode, information, j) {
      ReadBackMeansDistinct(full, decode, information, i, j);
    }
    forall c | 0 <= c < |cells|
      ensures end.cells[c] ==
              if exists i :: 0 <= i < BLOCKS && Cell(decode, information, i) == c then Zeros() else cells[c]
    {
      FinishedCell(cells, decode, information, c);
    }
  }

  /** PASSED as a statement about the card: it decodes the eight test addresses to eight
      different cells of the medium, those cells are zero, no other cell changed, and the
      reported checksum is the CRC-32 of the eight patterns. */
  lemma PassedMeansMediaGood(leftover: Machine, time: nat, inserted: bool, cells: seq<Block>, decode: Decoder,
                             calls: seq<Call>, last: Call)
    requires Process(After(Start(leftover, time, inserted, cells), decode, calls), decode, last).1 == Passed
    ensures MediaGood(cells, After(Start(leftover, time, inserted, cells), decode, calls), decode)
  {
    InvHolds(leftover, time, inserted, cells, decode, calls);
    CompleteMeansMediaGood(cells, After(Start(leftover, time, inserted, cells), decode, calls), decode);
  }

  /** Once all eight byte comparisons pass, the checksum comparison cannot fail: in no run
      does the machine itself report a checksum mismatch. */
  lemma ChecksumMismatchNeverFires(leftover: Machine, time: nat, inserted: bool, cells: seq<Block>, decode: Decoder,
                                   calls: seq<Call>, call: Call)
    requires call.outcome == Transferred
    ensures Process(After(Start(leftover, time, inserted, cells), decode, calls), decode, call).1
            != Emitted(FailureEvent(Failure("cmd17_read_test_sector", "checksum_mismatch")))
  {
    InvHolds(leftover, time, inserted, cells, decode, calls);
    var s := After(Start(leftover, time, inserted, cells), decode, calls);
    if s.machine.state == Verifying && s.machine.currentBlock == BLOCKS - 1 {
      VerifiedChecksumMatches(s, decode, cells);
    }
    assert "read_back_mismatch" != "checksum_mismatch" && "card_removed" != "checksum_mismatch";
    assert "spi_transfer_failed" != "checksum_mismatch";
  }

  // ---------------------------------------------------------------- termination

  predicate Terminal(r: Result) {
    r == Passed || r == TestFailed
  }

  /** Calls left, at most, from initialization on. */
  function CallsLeft(m: Machine): int {
    match m.state
    case Initializing => CALL_BOUND
    case Writing => 25 - m.currentBlock
    case Verifying => 17 - m.currentBlock
    case CleaningUp => 9 - m.currentBlock
    case Complete => 1
    case Failed => 1
    case _ => CALL_BOUND + 1
  }

  lemma WritingCounts(s: System, decode: Decoder, call: Call)
    requires s.machine.state == Writing && s.machine.currentBlock < BLOCKS
    ensures CallsLeft(ProcessWriting(s, decode, call).0.machine) < CallsLeft(s.machine)
  {
  }

  lemma VerifyingCounts(s: System, decode: Decoder, call: Call)
    requires s.machine.state == Verifying && s.machine.currentBlock < BLOCKS
    ensures CallsLeft(ProcessVerifying(s, decode, call).0.machine) < CallsLeft(s.machine)
  {
  }

  lemma CleaningCounts(s: System, decode: Decoder, call: Call)
    requires s.machine.state == CleaningUp && s.machine.currentBlock < BLOCKS
    ensures CallsLeft(ProcessCleaning(s, decode, call).0.machine) < CallsLeft(s.machine)
  {
  }

  lemma EveryCallCounts(s: System, decode: Decoder, call: Call, start: seq<Block>)
    requires Inv(s, decode, start) && CallsLeft(s.machine) <= CALL_BOUND
    ensures var (next, result) := Process(s, decode, call);
            && 0 < CallsLeft(s.machine)
            && (Terminal(result) || CallsLeft(next.machine) < CallsLeft(s.machine))
  {
    if call.inserted {
      match s.machine.state
      case Writing => WritingCounts(s, decode, call);
      case Verifying => VerifyingCounts(s, decode, call);
      case CleaningUp => CleaningCounts(s, decode, call);
      case _ =>
    }
  }

  /** One of the calls returns PASSED or FAILED. */
  ghost predicate Terminates(s: System, decode: Decoder, calls: seq<Call>)
    decreases |calls|
  {
    calls != [] &&
    (var (next, result) := Process(s, decode, calls[0]); Terminal(result) || Terminates(next, decode, calls[1..]))
  }

  lemma {:induction false} TerminatesWithin(s: System, decode: Decoder, start: seq<Block>, calls: seq<Call>)
    requires Inv(s, decode, start) && CallsLeft(s.machine) <= |calls| && CallsLeft(s.machine) <= CALL_BOUND
    ensures Terminates(s, decode, calls)
    decreases |calls|
  {
    EveryCallCounts(s, decode, calls[0], start);
    if !Terminal(Process(s, decode, calls[0]).1) {
      ProcessKeepsInv(s, decode, calls[0], start);
      TerminatesWithin(Process(s, decode, calls[0]).0, decode, start, calls[1..]);
    }
  }

  /** From the call that initializes the card on, 26 calls are enough in every run. */
  lemma TerminatesWithin26Calls(leftover: Machine, time: nat, inserted: bool, cells: seq<Block>, decode: Decoder,
                                before: seq<Call>, calls: seq<Call>)
    requires After(Start(leftover, time, inserted, cells), decode, before).machine.state == Initializing
    requires |calls| == CALL_BOUND
    ensures Terminates(After(Start(leftover, time, inserted, cells), decode, before), decode, calls)
  {
    InvHolds(leftover, time, inserted, cells, decode, before);
    TerminatesWithin(After(Start(leftover, time, inserted, cells), decode, before), decode, cells, calls);
  }
}

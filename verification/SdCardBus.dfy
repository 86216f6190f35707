/** The SPI bus of the SD card as the driver sees it: chip select, a millisecond clock, and a
    card that answers arbitrarily except that an accepted block is stored where the card
    decodes its address, and a data payload is the addressed cell. */
module SdCardBus {
  import opened Bytes
  import opened SdCardMedia
  import Ticks

  /** Two consecutive readings of the tick are less than 2^29 ms (six days) apart. */
  const TICK_STEP: nat := 0x2000_0000

  const CMD17: nat := 17
  const CMD24: nat := 24
  const IDLE_BYTE: byte := 0xFF
  const START_TOKEN: byte := 0xFE

  /** How far the card has got with a command. */
  datatype Phase =
    | Quiet
    | Commanded(index: nat, argument: uint32)
    | Answered(index: nat, argument: uint32)
    | Streaming(data: Block, sent: nat)
    | Receiving(argument: uint32)
    | Programming(argument: uint32, data: Block, sent: nat)

  predicate DataAccepted(response: byte) {
    response & 0x1F == 0x05
  }

  /** The card's state after exchanging `tx` for `rx`; `debris` is what a rejected block leaves. */
  function Exchanged(phase: Phase, cells: seq<Block>, decode: Decoder, tx: byte, rx: byte, debris: Block)
    : (Phase, seq<Block>)
  {
    match phase
    case Commanded(index, argument) => (if rx & 0x80 == 0 then Answered(index, argument) else phase, cells)
    case Answered(index, argument) =>
      if index == CMD17 && rx == START_TOKEN then (Streaming(Fetch(cells, decode(argument)), 0), cells)
      else if index == CMD24 && tx == START_TOKEN then (Receiving(argument), cells)
      else (phase, cells)
    case Streaming(data, sent) => (if sent < 512 then Streaming(data, sent + 1) else phase, cells)
    case Programming(argument, data, sent) =>
      if sent < 2 then (phase.(sent := sent + 1), cells)
      else (Quiet, Store(cells, decode(argument), if DataAccepted(rx) then data else debris))
    case _ => (phase, cells)
  }

  predicate Faithful(phase: Phase, rx: byte) {
    phase.Streaming? && phase.sent < 512 ==> rx == phase.data[phase.sent]
  }

  /** The card's state after the bus fails under it. */
  function Interrupted(phase: Phase, cells: seq<Block>, decode: Decoder, debris: Block): (Phase, seq<Block>) {
    match phase
    case Receiving(argument) => (Quiet, Store(cells, decode(argument), debris))
    case Programming(argument, _, _) => (Quiet, Store(cells, decode(argument), debris))
    case _ => (Quiet, cells)
  }

  class SpiBus {
    const decode: Decoder
    var ready: bool
    var selected: bool
    var phase: Phase
    var cells: seq<Block>
    var time: nat
    var stalls: nat
    /** The clock divider the next configuration of the peripheral uses. */
    var prescaler: nat
    /** The bus operations that have failed. */
    ghost var faults: nat

    constructor (decode: Decoder, cells: seq<Block>)
      ensures !selected && phase == Quiet && this.cells == cells && this.decode == decode
    {
      this.decode, this.cells := decode, cells;
      ready, selected, phase, time, stalls, prescaler, faults := false, false, Quiet, 0, 0, 256, 0;
    }

    /** HAL_GetTick: the clock may stand still for a while, but not forever. */
    method GetTick() returns (now: uint32)
      modifies this`time, this`stalls
      ensures old(time) <= time < old(time) + TICK_STEP
      ensures time > old(time) || stalls < old(stalls)
      ensures now == Ticks.Tick(time)
    {
      var advance: nat :| advance < TICK_STEP && (stalls == 0 ==> advance > 0);
      if advance > 0 {
        time := time + advance;
        stalls := *;
      } else {
        stalls := stalls - 1;
      }
      now := Ticks.Tick(time);
    }

    /** Configures the peripheral once; doing so releases chip select. */
    method Initialize() returns (ok: bool)
      modifies this`ready, this`selected, this`faults
      ensures faults == old(faults) + if ok then 0 else 1
      ensures ok == ready && (old(ready) ==> ready)
      ensures selected ==> old(selected)
      ensures if old(ready) then selected == old(selected) else !selected
    {
      if !ready {
        selected := false;
        ready := *;
      }
      ok := ready;
      faults := faults + if ok then 0 else 1;
    }

    method Select() returns (ok: bool)
      modifies this`ready, this`selected, this`faults
      ensures faults == old(faults) + if ok then 0 else 1
      ensures ok ==> selected
      ensures !ok && selected ==> old(selected)
    {
      ok := Initialize();
      if ok {
        selected := true;
      }
    }

    method Deselect()
      modifies this`selected, this`phase
      ensures !selected && phase == Quiet
    {
      selected, phase := false, Quiet;
    }

    /** A configured peripheral is released and configured again; the divider changes in every
        case but a failing release. */
    method SetPrescaler(requested: nat) returns (ok: bool)
      modifies this`ready, this`selected, this`prescaler, this`faults
      ensures faults == old(faults) + if ok then 0 else 1
      ensures selected ==> old(selected)
      ensures ok ==> prescaler == requested && ready == old(ready)
      ensures !ok ==> old(ready) && (if ready then prescaler == old(prescaler) else prescaler == requested && !selected)
    {
      if !ready {
        prescaler := requested;
        return true;
      }
      var released: bool := *;
      if !released {
        faults := faults + 1;
        return false;
      }
      ready := false;
      prescaler := requested;
      ok := Initialize();
    }

    method Transfer(tx: byte) returns (ok: bool, rx: byte, ghost debris: Block)
      modifies this`ready, this`selected, this`phase, this`cells, this`faults
      ensures faults == old(faults) + if ok then 0 else 1
      ensures selected ==> old(selected)
      ensures ok ==> Faithful(old(phase), rx)
      ensures ok ==> (phase, cells) == Exchanged(old(phase), old(cells), decode, tx, rx, debris)
      ensures !ok ==> (phase, cells) == Interrupted(old(phase), old(cells), decode, debris)
    {
      ok := Initialize();
      var fault: bool, left: Block := *, *;
      rx := *;
      debris := left;
      if ok && !fault {
        if phase.Streaming? && phase.sent < 512 {
          rx := phase.data[phase.sent];
        }
        var (nextPhase, nextCells) := Exchanged(phase, cells, decode, tx, rx, left);
        phase, cells := nextPhase, nextCells;
      } else {
        faults := faults + if ok then 1 else 0;
        ok := false;
        var (nextPhase, nextCells) := Interrupted(phase, cells, decode, left);
        phase, cells := nextPhase, nextCells;
      }
    }

    /** The six bytes of a command frame in one transfer. */
    method TransferFrame(index: nat, argument: uint32) returns (ok: bool)
      requires !phase.Receiving? && !phase.Programming?
      modifies this`ready, this`selected, this`phase, this`faults
      ensures faults == old(faults) + if ok then 0 else 1
      ensures selected ==> old(selected)
      ensures phase == if ok then Commanded(index, argument) else Quiet
    {
      ok := Initialize();
      var fault: bool := *;
      faults := faults + if ok && fault then 1 else 0;
      ok := ok && !fault;
      phase := if ok then Commanded(index, argument) else Quiet;
    }

    /** The 512 bytes of a data block in one transfer. */
    method TransferBlock(data: Block) returns (ok: bool, ghost debris: Block)
      modifies this`ready, this`selected, this`phase, this`cells, this`faults
      ensures faults == old(faults) + if ok then 0 else 1
      ensures selected ==> old(selected)
      ensures ok && old(phase).Receiving? ==> phase == Programming(old(phase).argument, data, 0) && cells == old(cells)
      ensures ok && !old(phase).Receiving? ==> phase == old(phase) && cells == old(cells)
      ensures !ok ==> (phase, cells) == Interrupted(old(phase), old(cells), decode, debris)
    {
      ok := Initialize();
      var fault: bool, left: Block := *, *;
      debris := left;
      if ok && !fault {
        if phase.Receiving? {
          phase := Programming(phase.argument, data, 0);
        }
      } else {
        faults := faults + if ok then 1 else 0;
        ok := false;
        var (nextPhase, nextCells) := Interrupted(phase, cells, decode, left);
        phase, cells := nextPhase, nextCells;
      }
    }
  }
}

/** The transmit half of the USB transport: two line slots used as a ring, one of which the
    USB hardware may be reading.  A run is any interleaving of the main loop, the
    completion interrupt and (optionally) USB reconfigurations. */
module TransmitPath {
  import opened Options
  import opened Bytes
  import F = Framing

  const DEPTH: nat := 2

  /** `onWire` is the slot the hardware is sending.  History: `accepted` holds every queued
      line with its LF, `sent` the bytes of every finished transfer, `order` which accepted
      line each transfer carried, `resets` the number of reconfigurations. */
  datatype Transmitter = Transmitter(
    slots: seq<Line>, head: nat, tail: nat, count: nat, active: bool, completed: bool, rejected: uint32,
    onWire: Option<nat>, accepted: seq<Line>, sent: seq<Line>, order: seq<nat>, resets: nat)

  datatype Event =
    | Queue(line: Line)
    | Finish
    | Start(configured: bool, hardwareAccepts: bool)
    | TransferDone
    | Reconfigure(delivered: bool)

  const IDLE := Transmitter([[], []], 0, 0, 0, false, false, 0, None, [], [], [], 0)

  function Next(slot: nat): (next: nat)
    requires slot < DEPTH
    ensures next == 1 - slot
  {
    (slot + 1) % DEPTH
  }

  /** The hardware and the two flags agree about the transfer in progress. */
  ghost predicate FlagsAgree(t: Transmitter) {
    && (t.active <==> t.onWire.Some? || t.completed)
    && !(t.onWire.Some? && t.completed)
    && (t.onWire.Some? ==> t.onWire.value == t.tail)
    && (t.active ==> t.count > 0)
  }

  ghost predicate Usable(t: Transmitter) {
    && |t.slots| == DEPTH && t.head < DEPTH && t.tail < DEPTH && t.count <= DEPTH && t.count <= |t.accepted|
    && t.head == (if t.count == 1 then 1 - t.tail else t.tail)
    && FlagsAgree(t)
  }

  predicate Queueable(line: Line) {
    |line| <= F.MAX_LINE_LENGTH && LF !in line && CR !in line
  }

  predicate HasRoom(t: Transmitter) {
    t.count < DEPTH
  }

  function QueueLine(t: Transmitter, line: Line): Transmitter
    requires Usable(t)
  {
    if !Queueable(line) || !HasRoom(t) then t.(rejected := Increment(t.rejected))
    else t.(slots := t.slots[t.head := line + [LF]], head := Next(t.head), count := t.count + 1,
            accepted := t.accepted + [line + [LF]])
  }

  function FinishCompleted(t: Transmitter): Transmitter
    requires Usable(t)
  {
    if !t.completed || !t.active then t.(completed := false)
    else t.(completed := false, active := false, tail := Next(t.tail), count := t.count - 1)
  }

  /** A transfer starts only if none is active and the endpoint is free. */
  function StartPending(t: Transmitter, configured: bool, hardwareAccepts: bool): Transmitter {
    if t.active || t.count == 0 || !configured then t
    else if t.onWire.Some? || !hardwareAccepts then t.(active := false)
    else t.(active := true, onWire := Some(t.tail))
  }

  /** The hardware finished reading the slot: its bytes are at the computer. */
  function Transferred(t: Transmitter): Transmitter
    requires Usable(t)
  {
    if t.onWire.None? then t
    else t.(onWire := None, sent := t.sent + [t.slots[t.onWire.value]],
            order := t.order + [|t.accepted| - t.count])
  }

  function TransmitComplete(t: Transmitter): Transmitter
    requires Usable(t)
  {
    if t.onWire.None? then t else Transferred(t).(completed := true)
  }

  /** cdc_initialize and cdc_deinitialize forget the transfer in progress; the computer may
      or may not have received it. */
  function Reset(t: Transmitter, delivered: bool): Transmitter
    requires Usable(t)
  {
    (if delivered then Transferred(t) else t).(active := false, completed := false, onWire := None,
                                               resets := t.resets + 1)
  }

  function Finished(t: Transmitter): int {
    |t.accepted| - t.count
  }

  /** The next line a computer still needs after transfers `order`. */
  function Needed(order: seq<nat>): nat {
    if order == [] then 0 else order[|order| - 1] + 1
  }

  /** Every transfer carries the next needed line or repeats the one before it. */
  predicate Gapless(order: seq<nat>) {
    order == [] ||
    (var before, last := order[..|order| - 1], order[|order| - 1];
     Gapless(before) && last <= Needed(before) <= last + 1)
  }

  predicate Carries(sent: seq<Line>, order: seq<nat>, accepted: seq<Line>) {
    && |sent| == |order|
    && forall i :: 0 <= i < |order| ==> order[i] < |accepted| && sent[i] == accepted[order[i]]
  }

  /** Transfers carried accepted lines in order, repeating one only after a reset. */
  ghost predicate HistoryValid(t: Transmitter) {
    && Carries(t.sent, t.order, t.accepted) && Gapless(t.order)
    && |t.order| <= Finished(t) + t.resets + (if t.completed then 1 else 0)
    && Finished(t) <= Needed(t.order) <= Finished(t) + 1
    && (t.completed ==> Needed(t.order) == Finished(t) + 1)
  }

  /** The occupied slots hold the oldest lines not yet finished. */
  ghost predicate SlotsValid(t: Transmitter)
    requires Usable(t)
  {
    && (t.count > 0 ==> t.slots[t.tail] == t.accepted[Finished(t)])
    && (t.count > 1 ==> t.slots[1 - t.tail] == t.accepted[Finished(t) + 1])
  }

  ghost predicate Valid(t: Transmitter) {
    Usable(t) && SlotsValid(t) && HistoryValid(t)
  }

  function Handle(t: Transmitter, e: Event): (u: Transmitter)
    requires Usable(t)
    ensures Usable(u)
  {
    match e
    case Queue(line) => QueueLine(t, line)
    case Finish => FinishCompleted(t)
    case Start(configured, hardwareAccepts) => StartPending(t, configured, hardwareAccepts)
    case TransferDone => TransmitComplete(t)
    case Reconfigure(delivered) => Reset(t, delivered)
  }

  lemma QueueKeepsValid(t: Transmitter, line: Line)
    requires Valid(t)
    ensures Valid(QueueLine(t, line))
  {
    if HasRoom(t) && Queueable(line) {
      var u := QueueLine(t, line);
      assert Usable(u);
      QueueKeepsSlots(t, line);
      assert Carries(u.sent, u.order, u.accepted);
      assert HistoryValid(u);
    }
  }

  lemma QueueKeepsSlots(t: Transmitter, line: Line)
    requires Usable(t) && SlotsValid(t) && HasRoom(t) && Queueable(line)
    ensures Usable(QueueLine(t, line)) && SlotsValid(QueueLine(t, line))
  {
  }

  lemma FinishKeepsValid(t: Transmitter)
    requires Valid(t)
    ensures Valid(FinishCompleted(t))
  {
  }

  lemma StartKeepsValid(t: Transmitter, configured: bool, hardwareAccepts: bool)
    requires Valid(t)
    ensures Valid(StartPending(t, configured, hardwareAccepts))
  {
  }

  /** The finished transfer carried the oldest line not yet finished. */
  lemma TransferredKeepsHistory(t: Transmitter)
    requires Valid(t) && t.onWire.Some?
    ensures var u := Transferred(t);
            && Carries(u.sent, u.order, u.accepted) && Gapless(u.order)
            && Needed(u.order) == Finished(t) + 1 && |u.order| == |t.order| + 1
  {
    var line := t.slots[t.tail];
    assert line == t.accepted[Finished(t)];
    CarriesOneMore(t.sent, t.order, t.accepted, line, |t.accepted| - t.count);
  }

  lemma CarriesOneMore(sent: seq<Line>, order: seq<nat>, accepted: seq<Line>, line: Line, next: nat)
    requires Carries(sent, order, accepted) && Gapless(order) && next < |accepted| && line == accepted[next]
    requires next <= Needed(order) <= next + 1
    ensures Carries(sent + [line], order + [next], accepted) && Gapless(order + [next]) &&
            Needed(order + [next]) == next + 1
  {
    assert (order + [next])[..|order|] == order;
  }

  lemma TransmitCompleteKeepsValid(t: Transmitter)
    requires Valid(t)
    ensures Valid(TransmitComplete(t))
  {
    if t.onWire.Some? {
      TransferredKeepsHistory(t);
      assert HistoryValid(TransmitComplete(t));
    }
  }

  /** A reset keeps a history that ends at or one past the finished lines. */
  lemma ResetHistory(t: Transmitter, u: Transmitter)
    requires Usable(t) && Usable(u) && u.accepted == t.accepted && u.count == t.count
    requires Carries(u.sent, u.order, u.accepted) && Gapless(u.order)
    requires Finished(t) <= Needed(u.order) <= Finished(t) + 1 && |u.order| <= Finished(t) + t.resets + 1
    requires !u.completed && u.resets == t.resets + 1
    ensures HistoryValid(u)
  {
  }

  lemma ResetSlots(t: Transmitter, delivered: bool)
    requires Usable(t) && SlotsValid(t)
    ensures Usable(Reset(t, delivered)) && SlotsValid(Reset(t, delivered))
  {
    var u := Reset(t, delivered);
    assert u.slots == t.slots && u.head == t.head && u.tail == t.tail && u.count == t.count && u.accepted == t.accepted;
  }

  lemma ResetKeepsValid(t: Transmitter, delivered: bool)
    requires Valid(t)
    ensures Valid(Reset(t, delivered))
  {
    ResetSlots(t, delivered);
    if t.onWire.Some? && delivered {
      TransferredKeepsHistory(t);
    }
    ResetHistory(t, Reset(t, delivered));
  }

  lemma HandleKeepsValid(t: Transmitter, e: Event)
    requires Valid(t)
    ensures Valid(Handle(t, e))
  {
    match e
    case Queue(line) => QueueKeepsValid(t, line);
    case Finish => FinishKeepsValid(t);
    case Start(configured, hardwareAccepts) => StartKeepsValid(t, configured, hardwareAccepts);
    case TransferDone => TransmitCompleteKeepsValid(t);
    case Reconfigure(delivered) => ResetKeepsValid(t, delivered);
  }

  function After(events: seq<Event>): (t: Transmitter)
    ensures Valid(t)
  {
    if events == [] then IDLE
    else
      var t := After(events[..|events| - 1]);
      HandleKeepsValid(t, events[|events| - 1]);
      Handle(t, events[|events| - 1])
  }

  ghost predicate NoReconfiguration(events: seq<Event>) {
    forall e :: e in events ==> !e.Reconfigure?
  }

  lemma {:induction false} NoResets(events: seq<Event>)
    requires NoReconfiguration(events)
    ensures After(events).resets == 0
  {
    if events != [] {
      assert events[|events| - 1] in events;
      NoResets(events[..|events| - 1]);
    }
  }

  /** Without a reconfiguration the finished transfers are the accepted lines: each once,
      in order, none skipped, whatever the interleaving of retries and late completions. */
  lemma ExactlyOnce(events: seq<Event>)
    requires NoReconfiguration(events)
    ensures After(events).sent <= After(events).accepted
  {
    NoResets(events);
    SentIsPrefix(After(events));
  }

  lemma SentIsPrefix(t: Transmitter)
    requires Valid(t) && t.resets == 0
    ensures t.sent <= t.accepted
  {
    forall i | 0 <= i < |t.order| ensures t.order[i] == i {
      OrderOfNoRepeats(t.order, i);
    }
  }

  lemma {:induction false} NeededAtMost(order: seq<nat>)
    requires Gapless(order)
    ensures Needed(order) <= |order|
  {
    if order != [] { NeededAtMost(order[..|order| - 1]); }
  }

  lemma {:induction false} OrderOfNoRepeats(order: seq<nat>, i: nat)
    requires Gapless(order) && |order| <= Needed(order) && i < |order|
    ensures order[i] == i
  {
    NeededAtMost(order[..|order| - 1]);
    if i < |order| - 1 { OrderOfNoRepeats(order[..|order| - 1], i); }
  }

  /** With reconfigurations: still in order and none skipped, and at most one repetition per
      reconfiguration. */
  lemma AtLeastOnce(events: seq<Event>)
    ensures var t := After(events);
            && (forall k :: 0 <= k < Finished(t) ==> k in t.order && t.accepted[k] in t.sent)
            && (forall i, j :: 0 <= i < j < |t.order| ==> t.order[i] <= t.order[j])
            && |t.sent| <= Finished(t) + 1 + t.resets
  {
    var t := After(events);
    forall k | 0 <= k < Finished(t) ensures k in t.order && t.accepted[k] in t.sent {
      var i := PositionOf(t.order, k);
      assert t.sent[i] == t.accepted[k];
    }
    forall i, j | 0 <= i < j < |t.order| ensures t.order[i] <= t.order[j] {
      OrderRises(t.order, i, j);
    }
  }

  lemma {:induction false} OrderRises(order: seq<nat>, i: nat, j: nat)
    requires Gapless(order) && i < j < |order|
    ensures order[i] <= order[j]
  {
    var before := order[..|order| - 1];
    if j < |order| - 1 {
      OrderRises(before, i, j);
    } else if i < j - 1 {
      OrderRises(before, i, j - 1);
    }
  }

  lemma {:induction false} PositionOf(order: seq<nat>, k: nat) returns (i: nat)
    requires Gapless(order) && k < Needed(order)
    ensures i < |order| && order[i] == k
  {
    if order[|order| - 1] == k {
      i := |order| - 1;
    } else {
      i := PositionOf(order[..|order| - 1], k);
    }
  }

  lemma AfterOneMore(events: seq<Event>, e: Event)
    ensures After(events + [e]) == Handle(After(events), e)
  {
  }

  /** A line is sent, its completion is forgotten by a reset, and it is sent again. */
  function RepeatingRun(): seq<Event> {
    [Queue([120])] + [Start(true, true)] + [TransferDone] + [Reconfigure(false)] + [Start(true, true)] + [TransferDone]
  }

  lemma AfterReset()
    ensures var t := After([Queue([120])] + [Start(true, true)] + [TransferDone] + [Reconfigure(false)]);
            && t.slots == [[120] + [LF], []] && t.tail == 0 && t.count == 1
            && !t.active && t.onWire.None? && t.sent == [[120] + [LF]]
  {
    var run := [Queue([120])];
    assert [] + run == run;
    AfterOneMore([], Queue([120]));
    assert After(run).slots == [[120] + [LF], []] && After(run).count == 1;
    AfterOneMore(run, Start(true, true));
    run := run + [Start(true, true)];
    assert After(run).onWire == Some(0);
    AfterOneMore(run, TransferDone);
    run := run + [TransferDone];
    assert After(run).sent == [[120] + [LF]];
    AfterOneMore(run, Reconfigure(false));
  }

  lemma ReconfigurationRepeatsALine()
    ensures After(RepeatingRun()).sent == [[120] + [LF], [120] + [LF]]
  {
    AfterReset();
    var run := [Queue([120])] + [Start(true, true)] + [TransferDone] + [Reconfigure(false)];
    AfterOneMore(run, Start(true, true));
    assert After(run + [Start(true, true)]).onWire == Some(0);
    AfterOneMore(run + [Start(true, true)], TransferDone);
  }

  /** The lines offered to the transport so far. */
  function Offered(events: seq<Event>): nat {
    if events == [] then 0
    else Offered(events[..|events| - 1]) + if events[|events| - 1].Queue? then 1 else 0
  }

  predicate Accounted(t: Transmitter, offered: nat) {
    |t.accepted| <= offered && t.rejected == Counted(offered - |t.accepted|)
  }

  lemma StepIsCounted(t: Transmitter, e: Event, offered: nat)
    requires Usable(t) && Accounted(t, offered)
    ensures Accounted(Handle(t, e), offered + if e.Queue? then 1 else 0)
  {
  }

  lemma OfferedOneMore(events: seq<Event>, e: Event)
    ensures Offered(events + [e]) == Offered(events) + if e.Queue? then 1 else 0
  {
    assert (events + [e])[..|events|] == events;
  }

  lemma OneMoreIsCounted(events: seq<Event>, e: Event)
    requires Accounted(After(events), Offered(events))
    ensures Accounted(After(events + [e]), Offered(events + [e]))
  {
    AfterOneMore(events, e);
    OfferedOneMore(events, e);
    StepIsCounted(After(events), e, Offered(events));
  }

  /** Every offered line is either accepted or counted as dropped. */
  lemma {:induction false} EveryOfferIsCounted(events: seq<Event>)
    ensures Accounted(After(events), Offered(events))
  {
    if events != [] {
      var before, last := events[..|events| - 1], events[|events| - 1];
      EveryOfferIsCounted(before);
      OneMoreIsCounted(before, last);
      assert before + [last] == events;
    }
  }

  /** What is offered is accepted exactly when it fits a slot and a slot is free. */
  lemma AcceptedIff(events: seq<Event>, line: Line)
    ensures var t, u := After(events), After(events + [Queue(line)]);
            u.accepted == t.accepted +
            if |line| <= 4096 && 10 !in line && 13 !in line && t.count < 2 then [line + [10]] else []
  {
    AfterOneMore(events, Queue(line));
  }

  /** A transfer begins exactly when a line is queued, none is being sent, the device is
      configured and the endpoint takes the slot; a start that fails changes nothing. */
  lemma TransferBeginsIff(events: seq<Event>, e: Event)
    ensures var t, u := After(events), After(events + [e]);
            && (t.onWire.None? ==> (u.onWire.Some? <==> e == Start(true, true) && !t.active && t.count > 0))
            && (e.Start? && e != Start(true, true) ==> u == t)
  {
    AfterOneMore(events, e);
  }

  /** No step writes the slot the hardware is reading, and that slot holds the oldest line
      not yet finished. */
  lemma SlotOnWireIsStable(events: seq<Event>, e: Event)
    requires After(events).onWire.Some?
    ensures var t := After(events); var w := t.onWire.value;
            && w < DEPTH && Handle(t, e).slots[w] == t.slots[w] == t.accepted[Finished(t)]
  {
    StepKeepsSlotOnWire(After(events), e);
  }

  lemma StepKeepsSlotOnWire(t: Transmitter, e: Event)
    requires Usable(t) && t.onWire.Some?
    ensures Handle(t, e).slots[t.onWire.value] == t.slots[t.onWire.value]
  {
  }
}

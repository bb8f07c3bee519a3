/** A 24Cxx-style serial EEPROM on the other end of the bus, used to give the
    driver's transactions a meaning: a write followed by a read of the same
    address returns the byte written.

    The device never misbehaves: it acknowledges its own device-type code
    (1010 in bits 7..4 of the control byte) and every byte sent to it. Its
    state is obtained by replaying the bus history from an initial memory,
    so the answer to an event depends only on the events before it. */
module EepromDevice {
  import opened Twi
  import opened Eeprom

  // Further status codes (ATmega16/32 data sheet) for answers the driver
  // treats as failures.
  const TWI_MT_SLA_W_NACK: bv8 := 0x20
  const TWI_MT_DATA_NACK: bv8 := 0x30
  const TWI_MT_SLA_R_NACK: bv8 := 0x48
  const TWI_NO_INFO: bv8 := 0xF8

  /** A memory cell: the block selected by address bits 10..8 and the byte
      offset given by address bits 7..0. */
  datatype Cell = Cell(block: bv8, offset: bv8)

  /** Where the device is inside a transaction. */
  datatype Mode =
    | Idle
    | AwaitSla               // after START: the control byte comes next
    | AwaitWord(block: bv8)  // addressed for writing: the word address comes next
    | Writing                // address pointer set: bytes sent are stored
    | Reading                // addressed for reading: bytes come from the pointer

  /** `held` is true between a START and the STOP that ends it: a START
      issued while it holds is a repeated START. */
  datatype Device = Device(mem: map<Cell, bv8>, held: bool, mode: Mode, ptr: Cell)

  /** Erased cells read as 0xFF. */
  function Lookup(mem: map<Cell, bv8>, c: Cell): bv8
  {
    if c in mem then mem[c] else 0xFF
  }

  /** The cell EEPROM address `addr` names: bits 10..8 select the block and
      bits 7..0 the offset; bits 15..11 play no part. */
  function Key(addr: bv16): (c: Cell)
    ensures c.block & 0xF8 == 0
    ensures c.block == ((addr >> 8) & 0x07) as bv8
    ensures c.offset == LowByte(addr)
  {
    Cell(((addr >> 8) & 0x07) as bv8, LowByte(addr))
  }

  /** Two addresses name the same cell exactly when they agree on bits
      10..0. */
  lemma KeyIff(a: bv16, b: bv16)
    ensures Key(a) == Key(b) <==> a & 0x07FF == b & 0x07FF
  {
  }

  function Next(c: Cell): Cell
  {
    Cell(c.block, c.offset + 1)
  }

  /** The device's state after `e`. */
  function Step(d: Device, e: Event): Device
  {
    match e
    case StartCond => d.(held := true, mode := AwaitSla)
    case StopCond => d.(held := false, mode := Idle)
    case Tx(b) =>
      (match d.mode
       case AwaitSla =>
         if b & 0xF0 != 0xA0 then d.(mode := Idle)
         else if b & 0x01 == 0 then d.(mode := AwaitWord((b >> 1) & 0x07))
         else d.(mode := Reading)
       case AwaitWord(blk) => d.(mode := Writing, ptr := Cell(blk, b))
       case Writing => d.(mem := d.mem[d.ptr := b], ptr := Next(d.ptr))
       case _ => d)
    case RxAck => if d.mode == Reading then d.(ptr := Next(d.ptr)) else d
    case RxNack => if d.mode == Reading then d.(ptr := Next(d.ptr)) else d
    case Delay(_) => d
  }

  /** What the master sees after `e`, in state `d` before it. */
  function Answer(d: Device, e: Event): Reaction
  {
    match e
    case StartCond => Reaction(if d.held then TWI_REP_START else TWI_START, 0xFF)
    case Tx(b) =>
      (match d.mode
       case AwaitSla =>
         if b & 0x01 == 0 then
           Reaction(if b & 0xF0 == 0xA0 then TWI_MT_SLA_W_ACK else TWI_MT_SLA_W_NACK, 0xFF)
         else
           Reaction(if b & 0xF0 == 0xA0 then TWI_MT_SLA_R_ACK else TWI_MT_SLA_R_NACK, 0xFF)
       case AwaitWord(_) => Reaction(TWI_MT_DATA_ACK, 0xFF)
       case Writing => Reaction(TWI_MT_DATA_ACK, 0xFF)
       case _ => Reaction(TWI_MT_DATA_NACK, 0xFF))
    case RxAck =>
      if d.mode == Reading then Reaction(TWI_MR_DATA_ACK, Lookup(d.mem, d.ptr))
      else Reaction(TWI_NO_INFO, 0xFF)
    case RxNack =>
      if d.mode == Reading then Reaction(TWI_MR_DATA_NACK, Lookup(d.mem, d.ptr))
      else Reaction(TWI_NO_INFO, 0xFF)
    case _ => Reaction(TWI_NO_INFO, 0xFF)
  }

  /** The device after history `h`, starting idle with memory `mem0`. */
  function Replay(mem0: map<Cell, bv8>, h: seq<Event>): Device
    decreases |h|
  {
    if h == [] then Device(mem0, false, Idle, Cell(0, 0))
    else Step(Replay(mem0, h[..|h| - 1]), h[|h| - 1])
  }

  lemma ReplaySnoc(mem0: map<Cell, bv8>, h: seq<Event>, e: Event)
    ensures Replay(mem0, h + [e]) == Step(Replay(mem0, h), e)
  {
    assert (h + [e])[..|h|] == h;
  }

  /** The bus as the master sees it with this device attached. */
  function Bus(mem0: map<Cell, bv8>): Responder
  {
    (h: seq<Event>, e: Event) => Answer(Replay(mem0, h), e)
  }

  /** One event's status as the driver observes it, and the state after it. */
  lemma Observe(mem0: map<Cell, bv8>, h: seq<Event>, e: Event)
    ensures Observed(Bus(mem0), h, e) == StatusOf(Answer(Replay(mem0, h), e).status)
    ensures Bus(mem0)(h, e) == Answer(Replay(mem0, h), e)
    ensures Replay(mem0, h + [e]) == Step(Replay(mem0, h), e)
  {
    ReplaySnoc(mem0, h, e);
  }

  /** The address phase both byte operations begin with: on an idle bus,
      START, the write-mode control byte and the word address are all
      acknowledged, and the device then holds the bus, pointing at the cell
      of `addr`, with its memory unchanged. */
  lemma AddressPhase(mem0: map<Cell, bv8>, h: seq<Event>, addr: bv16)
    requires !Replay(mem0, h).held
    ensures var c, lo := ControlByte(addr, false), LowByte(addr);
      && Observed(Bus(mem0), h, StartCond) == TWI_START
      && Observed(Bus(mem0), h + [StartCond], Tx(c)) == TWI_MT_SLA_W_ACK
      && Observed(Bus(mem0), h + [StartCond, Tx(c)], Tx(lo)) == TWI_MT_DATA_ACK
      && Replay(mem0, h + [StartCond, Tx(c), Tx(lo)]) ==
           Replay(mem0, h).(held := true, mode := Writing, ptr := Key(addr))
  {
    var c, lo := ControlByte(addr, false), LowByte(addr);
    var h1 := h + [StartCond];
    var h2 := h1 + [Tx(c)];
    Observe(mem0, h, StartCond);
    Observe(mem0, h1, Tx(c));
    Observe(mem0, h2, Tx(lo));
    assert h2 == h + [StartCond, Tx(c)];
    assert h2 + [Tx(lo)] == h + [StartCond, Tx(c), Tx(lo)];
  }

  /** On an idle bus EEPROM_writeByte succeeds, stores `v` in the cell of
      `addr`, touches no other cell and leaves the bus idle. */
  lemma WriteStores(mem0: map<Cell, bv8>, h: seq<Event>, addr: bv16, v: bv8)
    requires !Replay(mem0, h).held
    ensures Transact(Bus(mem0), h, WritePhases(addr, v)).ok
    ensures var d := Replay(mem0, h + Transact(Bus(mem0), h, WritePhases(addr, v)).events);
      !d.held && d.mode == Idle && d.mem == Replay(mem0, h).mem[Key(addr) := v]
  {
    var c, lo := ControlByte(addr, false), LowByte(addr);
    var h3 := h + [StartCond, Tx(c), Tx(lo)];
    var h4 := h3 + [Tx(v)];
    AddressPhase(mem0, h, addr);
    Observe(mem0, h3, Tx(v));
    ReplaySnoc(mem0, h4, StopCond);
    WriteByteSucceedsIff(Bus(mem0), h, addr, v);
    assert h4 + [StopCond] == h + [StartCond, Tx(c), Tx(lo), Tx(v), StopCond];
  }

  /** On an idle bus EEPROM_readByte succeeds, fetches the byte held in the
      cell of `addr`, changes no cell and leaves the bus idle. */
  lemma ReadFetches(mem0: map<Cell, bv8>, h: seq<Event>, addr: bv16)
    requires !Replay(mem0, h).held
    ensures Transact(Bus(mem0), h, ReadPhases(addr)).ok
    ensures Fetched(Bus(mem0), h, addr) == Some(Lookup(Replay(mem0, h).mem, Key(addr)))
    ensures var d := Replay(mem0, h + Transact(Bus(mem0), h, ReadPhases(addr)).events);
      !d.held && d.mode == Idle && d.mem == Replay(mem0, h).mem
  {
    var w, r, lo := ControlByte(addr, false), ControlByte(addr, true), LowByte(addr);
    var h3 := h + [StartCond, Tx(w), Tx(lo)];
    var h4 := h3 + [StartCond];
    var h5 := h4 + [Tx(r)];
    var h6 := h5 + [RxNack];
    AddressPhase(mem0, h, addr);
    Observe(mem0, h3, StartCond);
    Observe(mem0, h4, Tx(r));
    Observe(mem0, h5, RxNack);
    ReplaySnoc(mem0, h6, StopCond);
    assert Replay(mem0, h5).ptr == Key(addr);
    assert h4 == h + [StartCond, Tx(w), Tx(lo), StartCond];
    assert h5 == h + [StartCond, Tx(w), Tx(lo), StartCond, Tx(r)];
    ReadByteSucceedsIff(Bus(mem0), h, addr);
    FetchedBeforeLastCheck(Bus(mem0), h, addr);
    ReadEvents(addr);
    assert h6 + [StopCond] == h + [StartCond, Tx(w), Tx(lo), StartCond, Tx(r), RxNack, StopCond];
  }

  /** Writing 0x42 to address 0x0010 on an idle bus puts exactly START, the
      control byte 0xA0, the word address 0x10, the data 0x42 and STOP on the
      bus, and the cell then holds 0x42. */
  lemma WriteScenario(mem0: map<Cell, bv8>, h: seq<Event>)
    requires !Replay(mem0, h).held
    ensures var wr := Transact(Bus(mem0), h, WritePhases(0x0010, 0x42));
      wr == Run(true, [StartCond, Tx(0xA0), Tx(0x10), Tx(0x42), StopCond]) &&
      Lookup(Replay(mem0, h + wr.events).mem, Cell(0, 0x10)) == 0x42
  {
    WriteStores(mem0, h, 0x0010, 0x42);
    WriteByteSucceedsIff(Bus(mem0), h, 0x0010, 0x42);
    assert ControlByte(0x0010, false) == 0xA0 && LowByte(0x0010) == 0x10;
    assert Key(0x0010) == Cell(0, 0x10);
  }

  /** EEPROM_writeByte(addr, v), the 10 ms settle delay, then
      EEPROM_readByte(addr): both succeed and the read yields `v`. */
  lemma RoundTrip(mem0: map<Cell, bv8>, h: seq<Event>, addr: bv16, v: bv8)
    requires !Replay(mem0, h).held
    ensures var wr := Transact(Bus(mem0), h, WritePhases(addr, v));
      var h2 := h + wr.events + [Delay(SETTLE_MS)];
      wr.ok && Transact(Bus(mem0), h2, ReadPhases(addr)).ok &&
      Fetched(Bus(mem0), h2, addr) == Some(v)
  {
    var wr := Transact(Bus(mem0), h, WritePhases(addr, v));
    WriteStores(mem0, h, addr, v);
    ReplaySnoc(mem0, h + wr.events, Delay(SETTLE_MS));
    ReadFetches(mem0, h + wr.events + [Delay(SETTLE_MS)], addr);
  }

  /** Reading never disturbs other cells: a write to `a` is seen by a later
      read of `b` only when both name the same cell. */
  lemma WriteThenReadOther(mem0: map<Cell, bv8>, h: seq<Event>, a: bv16, b: bv16, v: bv8)
    requires !Replay(mem0, h).held
    ensures var wr := Transact(Bus(mem0), h, WritePhases(a, v));
      var h2 := h + wr.events + [Delay(SETTLE_MS)];
      Fetched(Bus(mem0), h2, b) ==
        Some(if Key(a) == Key(b) then v else Lookup(Replay(mem0, h).mem, Key(b)))
  {
    var wr := Transact(Bus(mem0), h, WritePhases(a, v));
    WriteStores(mem0, h, a, v);
    ReplaySnoc(mem0, h + wr.events, Delay(SETTLE_MS));
    ReadFetches(mem0, h + wr.events + [Delay(SETTLE_MS)], b);
  }

  /** Once a transaction has aborted the bus stays held, because the driver
      never sends STOP on an error: the next START is reported as a repeated
      START, so every later EEPROM_writeByte fails at its first check and
      leaves the bus held as well. */
  lemma HeldBusFailsWrite(mem0: map<Cell, bv8>, h: seq<Event>, addr: bv16, v: bv8)
    requires Replay(mem0, h).held
    ensures Transact(Bus(mem0), h, WritePhases(addr, v)) == Run(false, [StartCond])
    ensures Replay(mem0, h + [StartCond]).held
  {
    var ps := WritePhases(addr, v);
    Observe(mem0, h, StartCond);
    assert h + Events(ps[..0]) == h;
    assert StatusOf(TWI_REP_START) != TWI_START;
    assert !Passes(Bus(mem0), h, ps, 0);
    FirstMismatchAborts(Bus(mem0), h, ps, 0);
    assert Events(ps[..1]) == [StartCond];
  }

  /** The same for EEPROM_readByte: on a held bus it fails at once and
      stores nothing. */
  lemma HeldBusFailsRead(mem0: map<Cell, bv8>, h: seq<Event>, addr: bv16)
    requires Replay(mem0, h).held
    ensures Transact(Bus(mem0), h, ReadPhases(addr)) == Run(false, [StartCond])
    ensures Fetched(Bus(mem0), h, addr) == None
    ensures Replay(mem0, h + [StartCond]).held
  {
    var ps := ReadPhases(addr);
    Observe(mem0, h, StartCond);
    assert h + Events(ps[..0]) == h;
    assert StatusOf(TWI_REP_START) != TWI_START;
    assert !Passes(Bus(mem0), h, ps, 0);
    ReadStopsAt(Bus(mem0), h, addr, 0);
    assert Events(ps[..1]) == [StartCond];
  }
}

/** Model of the external EEPROM driver built on the TWI master.

    A byte operation is a fixed list of phases: issue one bus event, then
    demand one status code. `Issue` is the reference meaning of such a list
    (run the phases in order and give up after the first status that does not
    match), `Transact` adds the STOP that only a fully successful list sends,
    and the driver methods are proved to leave exactly that on the bus.
 */
module Eeprom {
  import opened Twi

  /** SUCCESS / ERROR of the driver. */
  datatype Outcome = Success | Error

  datatype Option<T> = None | Some(value: T) {
    function GetOr(default: T): T {
      match this
      case Some(v) => v
      case None => default
    }
  }

  /** One step of a transaction: the event the driver issues and the status
      it then insists on. */
  datatype Phase = Phase(event: Event, want: bv8)

  /** What a list of phases did on the bus and whether every check passed. */
  datatype Run = Run(ok: bool, events: seq<Event>)

  /** What an array read did on the bus, and per element the byte it stored
      (None: the element was left alone). */
  datatype Sweep = Sweep(events: seq<Event>, fetched: seq<Option<bv8>>)

  /** The settle time the array operations wait after every element. */
  const SETTLE_MS: nat := 10

  /** First byte of a transaction: device type 1010, address bits A10..A8 as
      the block select in bits 3..1, and the R/W flag in bit 0. */
  function ControlByte(addr: bv16, read: bool): (c: bv8)
    ensures c & 0xF0 == 0xA0
    ensures (c >> 1) & 0x07 == ((addr >> 8) & 0x07) as bv8
    ensures c & 0x01 == (if read then 1 else 0)
  {
    ((0xA0 | ((addr & 0x0700) >> 7)) as bv8) | (if read then 1 else 0)
  }

  /** Second byte of a transaction: the word address A7..A0. */
  function LowByte(addr: bv16): (lo: bv8)
    ensures lo as bv16 == addr & 0xFF
  {
    (addr & 0xFF) as bv8
  }

  lemma ControlByteExample()
    ensures ControlByte(0x0305, false) == 0xA6
    ensures ControlByte(0x0305, true) == 0xA7
    ensures LowByte(0x0305) == 0x05
  {
  }

  /** `address + i` as the driver passes it on: the sum, taken in wider
      arithmetic, reduced modulo 2^16, so it wraps around past 0xFFFF. */
  function At(address: bv16, i: nat): (a: bv16)
    requires i < 0x1_0000
    ensures a as bv32 == (address as bv32 + (i as bv16) as bv32) % 0x1_0000
  {
    address + i as bv16
  }

  /** The phases of EEPROM_writeByte. */
  function WritePhases(addr: bv16, data: bv8): seq<Phase>
  {
    [ Phase(StartCond, TWI_START),
      Phase(Tx(ControlByte(addr, false)), TWI_MT_SLA_W_ACK),
      Phase(Tx(LowByte(addr)), TWI_MT_DATA_ACK),
      Phase(Tx(data), TWI_MT_DATA_ACK) ]
  }

  /** The phases of EEPROM_readByte: set the word address in write mode, then
      a repeated START, the control byte in read mode and one byte received
      without acknowledge. */
  function ReadPhases(addr: bv16): seq<Phase>
  {
    [ Phase(StartCond, TWI_START),
      Phase(Tx(ControlByte(addr, false)), TWI_MT_SLA_W_ACK),
      Phase(Tx(LowByte(addr)), TWI_MT_DATA_ACK),
      Phase(StartCond, TWI_REP_START),
      Phase(Tx(ControlByte(addr, true)), TWI_MT_SLA_R_ACK),
      Phase(RxNack, TWI_MR_DATA_NACK) ]
  }

  function Events(ps: seq<Phase>): (es: seq<Event>)
    ensures |es| == |ps|
  {
    seq(|ps|, i requires 0 <= i < |ps| => ps[i].event)
  }

  /** Issuing the next phase's event extends the history by that event. */
  lemma Extend(h: seq<Event>, ps: seq<Phase>, k: nat)
    requires k < |ps|
    ensures (h + Events(ps[..k])) + [ps[k].event] == h + Events(ps[..k + 1])
  {
    assert Events(ps[..k + 1]) == Events(ps[..k]) + [ps[k].event];
  }

  lemma Append3<T>(a: seq<T>, b: seq<T>, c: seq<T>, d: seq<T>)
    ensures a + (b + c + d) == a + b + c + d
  {
  }

  lemma WriteEvents(addr: bv16, data: bv8)
    ensures var ps, c, lo := WritePhases(addr, data), ControlByte(addr, false), LowByte(addr);
      Events(ps[..0]) == [] &&
      Events(ps[..1]) == [StartCond] &&
      Events(ps[..2]) == [StartCond, Tx(c)] &&
      Events(ps[..3]) == [StartCond, Tx(c), Tx(lo)] &&
      Events(ps[..4]) == [StartCond, Tx(c), Tx(lo), Tx(data)] &&
      ps[..4] == ps
  {
  }

  lemma ReadEvents(addr: bv16)
    ensures var ps, w, r, lo := ReadPhases(addr), ControlByte(addr, false), ControlByte(addr, true), LowByte(addr);
      Events(ps[..0]) == [] &&
      Events(ps[..1]) == [StartCond] &&
      Events(ps[..2]) == [StartCond, Tx(w)] &&
      Events(ps[..3]) == [StartCond, Tx(w), Tx(lo)] &&
      Events(ps[..4]) == [StartCond, Tx(w), Tx(lo), StartCond] &&
      Events(ps[..5]) == [StartCond, Tx(w), Tx(lo), StartCond, Tx(r)] &&
      Events(ps[..6]) == [StartCond, Tx(w), Tx(lo), StartCond, Tx(r), RxNack] &&
      ps[..6] == ps
  {
  }

  /** Phase `k` of `ps` passes its check when issued after `h` and the phases
      before it. */
  ghost predicate Passes(respond: Responder, h: seq<Event>, ps: seq<Phase>, k: nat)
    requires k < |ps|
  {
    Observed(respond, h + Events(ps[..k]), ps[k].event) == ps[k].want
  }

  /** Runs the phases in order after history `h` and stops right after the
      first phase whose status does not match. */
  function Issue(respond: Responder, h: seq<Event>, ps: seq<Phase>): (r: Run)
    ensures |r.events| <= |ps|
    decreases |ps|
  {
    if ps == [] then
      Run(true, [])
    else if Observed(respond, h, ps[0].event) != ps[0].want then
      Run(false, [ps[0].event])
    else
      var rest := Issue(respond, h + [ps[0].event], ps[1..]);
      Run(rest.ok, [ps[0].event] + rest.events)
  }

  /** What `Issue` does: it issues a prefix of the phases' events; every phase
      but the last one issued passed; it reports success only when all phases
      were issued and passed, and otherwise the last one issued failed. */
  lemma {:induction false} IssueSpec(respond: Responder, h: seq<Event>, ps: seq<Phase>)
    ensures var r := Issue(respond, h, ps);
      && r.events == Events(ps[..|r.events|])
      && (forall k :: 0 <= k < |r.events| - 1 ==> Passes(respond, h, ps, k))
      && (r.ok ==> |r.events| == |ps| && forall k :: 0 <= k < |ps| ==> Passes(respond, h, ps, k))
      && (!r.ok ==> 0 < |r.events| && !Passes(respond, h, ps, |r.events| - 1))
    decreases |ps|
  {
    if ps != [] {
      ShiftPasses(respond, h, ps);
      if Observed(respond, h, ps[0].event) == ps[0].want {
        IssueSpec(respond, h + [ps[0].event], ps[1..]);
      }
    }
  }

  /** Phase `k` after `h` is phase `k - 1` of the tail after `h` and the
      first event. */
  lemma ShiftPasses(respond: Responder, h: seq<Event>, ps: seq<Phase>)
    requires 0 < |ps|
    ensures Events(ps[..1]) == [ps[0].event]
    ensures Passes(respond, h, ps, 0) <==> Observed(respond, h, ps[0].event) == ps[0].want
    ensures forall k :: 1 <= k < |ps| ==>
      (Passes(respond, h, ps, k) <==> Passes(respond, h + [ps[0].event], ps[1..], k - 1))
    ensures forall n :: 1 <= n <= |ps| ==> Events(ps[..n]) == [ps[0].event] + Events(ps[1..][..n - 1])
  {
    assert h + Events(ps[..0]) == h;
    forall n | 1 <= n <= |ps|
      ensures Events(ps[..n]) == [ps[0].event] + Events(ps[1..][..n - 1])
    {
    }
    forall k | 1 <= k < |ps|
      ensures h + Events(ps[..k]) == (h + [ps[0].event]) + Events(ps[1..][..k - 1])
    {
      assert Events(ps[..k]) == [ps[0].event] + Events(ps[1..][..k - 1]);
    }
  }

  /** A list of phases runs to the end exactly when every phase passes. */
  lemma IssueOkIff(respond: Responder, h: seq<Event>, ps: seq<Phase>)
    ensures Issue(respond, h, ps).ok <==> forall k :: 0 <= k < |ps| ==> Passes(respond, h, ps, k)
  {
    IssueSpec(respond, h, ps);
  }

  /** The first phase that fails ends the list: exactly the events up to and
      including that phase are issued. */
  lemma FirstMismatchAborts(respond: Responder, h: seq<Event>, ps: seq<Phase>, j: nat)
    requires j < |ps|
    requires forall k :: 0 <= k < j ==> Passes(respond, h, ps, k)
    requires !Passes(respond, h, ps, j)
    ensures Issue(respond, h, ps) == Run(false, Events(ps[..j + 1]))
  {
    IssueSpec(respond, h, ps);
  }

  /** When every phase passes, all events are issued. */
  lemma AllPassCompletes(respond: Responder, h: seq<Event>, ps: seq<Phase>)
    requires forall k :: 0 <= k < |ps| ==> Passes(respond, h, ps, k)
    ensures Issue(respond, h, ps) == Run(true, Events(ps))
  {
    IssueSpec(respond, h, ps);
    assert ps[..|ps|] == ps;
  }

  /** A whole transaction: the phases, then STOP if and only if all passed. */
  function Transact(respond: Responder, h: seq<Event>, ps: seq<Phase>): Run
  {
    var r := Issue(respond, h, ps);
    if r.ok then Run(true, r.events + [StopCond]) else r
  }

  /** A transaction sends STOP exactly when it succeeds: an abort leaves the
      bus without any cleanup. */
  lemma StopOnlyOnSuccess(respond: Responder, h: seq<Event>, ps: seq<Phase>)
    requires forall k :: 0 <= k < |ps| ==> ps[k].event != StopCond
    ensures StopCond in Transact(respond, h, ps).events <==> Transact(respond, h, ps).ok
  {
    IssueSpec(respond, h, ps);
  }

  /** EEPROM_writeByte succeeds exactly when the four statuses are START,
      SLA+W acknowledged, address acknowledged and data acknowledged; on
      success it sends START, control byte, low address, data, STOP. */
  lemma WriteByteSucceedsIff(respond: Responder, h: seq<Event>, addr: bv16, data: bv8)
    ensures var c, lo := ControlByte(addr, false), LowByte(addr);
      Transact(respond, h, WritePhases(addr, data)).ok <==>
        Observed(respond, h, StartCond) == TWI_START &&
        Observed(respond, h + [StartCond], Tx(c)) == TWI_MT_SLA_W_ACK &&
        Observed(respond, h + [StartCond, Tx(c)], Tx(lo)) == TWI_MT_DATA_ACK &&
        Observed(respond, h + [StartCond, Tx(c), Tx(lo)], Tx(data)) == TWI_MT_DATA_ACK
    ensures Transact(respond, h, WritePhases(addr, data)).ok ==>
      Transact(respond, h, WritePhases(addr, data)).events ==
        [StartCond, Tx(ControlByte(addr, false)), Tx(LowByte(addr)), Tx(data), StopCond]
  {
    var ps := WritePhases(addr, data);
    var c, lo := ControlByte(addr, false), LowByte(addr);
    assert Events(ps[..0]) == [];
    assert Events(ps[..1]) == [StartCond];
    assert Events(ps[..2]) == [StartCond, Tx(c)];
    assert Events(ps[..3]) == [StartCond, Tx(c), Tx(lo)];
    assert Events(ps[..4]) == [StartCond, Tx(c), Tx(lo), Tx(data)];
    assert h + [] == h;
    IssueOkIff(respond, h, ps);
    assert (forall k :: 0 <= k < 4 ==> Passes(respond, h, ps, k)) <==>
      Passes(respond, h, ps, 0) && Passes(respond, h, ps, 1) && Passes(respond, h, ps, 2) && Passes(respond, h, ps, 3);
    if Issue(respond, h, ps).ok {
      AllPassCompletes(respond, h, ps);
      assert ps[..4] == ps;
    }
  }

  /** If the control byte of a write is not acknowledged, the driver stops
      there: neither the address nor the data byte nor a STOP is sent. */
  lemma WriteAbortsOnControlNack(respond: Responder, h: seq<Event>, addr: bv16, data: bv8)
    requires Observed(respond, h, StartCond) == TWI_START
    requires Observed(respond, h + [StartCond], Tx(ControlByte(addr, false))) != TWI_MT_SLA_W_ACK
    ensures !Transact(respond, h, WritePhases(addr, data)).ok
    ensures Transact(respond, h, WritePhases(addr, data)).events == [StartCond, Tx(ControlByte(addr, false))]
  {
    var ps := WritePhases(addr, data);
    WriteEvents(addr, data);
    assert h + [] == h;
    FirstMismatchAborts(respond, h, ps, 1);
  }

  /** EEPROM_readByte succeeds exactly when the six statuses are START, SLA+W
      acknowledged, address acknowledged, repeated START, SLA+R acknowledged
      and data received with NACK; on success its bus trace is fixed. */
  lemma ReadByteSucceedsIff(respond: Responder, h: seq<Event>, addr: bv16)
    ensures var w, r, lo := ControlByte(addr, false), ControlByte(addr, true), LowByte(addr);
      Transact(respond, h, ReadPhases(addr)).ok <==>
        Observed(respond, h, StartCond) == TWI_START &&
        Observed(respond, h + [StartCond], Tx(w)) == TWI_MT_SLA_W_ACK &&
        Observed(respond, h + [StartCond, Tx(w)], Tx(lo)) == TWI_MT_DATA_ACK &&
        Observed(respond, h + [StartCond, Tx(w), Tx(lo)], StartCond) == TWI_REP_START &&
        Observed(respond, h + [StartCond, Tx(w), Tx(lo), StartCond], Tx(r)) == TWI_MT_SLA_R_ACK &&
        Observed(respond, h + [StartCond, Tx(w), Tx(lo), StartCond, Tx(r)], RxNack) == TWI_MR_DATA_NACK
    ensures Transact(respond, h, ReadPhases(addr)).ok ==>
      Transact(respond, h, ReadPhases(addr)).events ==
        [StartCond, Tx(ControlByte(addr, false)), Tx(LowByte(addr)),
         StartCond, Tx(ControlByte(addr, true)), RxNack, StopCond]
  {
    var ps := ReadPhases(addr);
    var w, r, lo := ControlByte(addr, false), ControlByte(addr, true), LowByte(addr);
    assert Events(ps[..0]) == [];
    assert Events(ps[..1]) == [StartCond];
    assert Events(ps[..2]) == [StartCond, Tx(w)];
    assert Events(ps[..3]) == [StartCond, Tx(w), Tx(lo)];
    assert Events(ps[..4]) == [StartCond, Tx(w), Tx(lo), StartCond];
    assert Events(ps[..5]) == [StartCond, Tx(w), Tx(lo), StartCond, Tx(r)];
    assert Events(ps[..6]) == [StartCond, Tx(w), Tx(lo), StartCond, Tx(r), RxNack];
    assert h + [] == h;
    IssueOkIff(respond, h, ps);
    assert (forall k :: 0 <= k < 6 ==> Passes(respond, h, ps, k)) <==>
      Passes(respond, h, ps, 0) && Passes(respond, h, ps, 1) && Passes(respond, h, ps, 2) &&
      Passes(respond, h, ps, 3) && Passes(respond, h, ps, 4) && Passes(respond, h, ps, 5);
    if Issue(respond, h, ps).ok {
      AllPassCompletes(respond, h, ps);
      assert ps[..6] == ps;
    }
  }

  /** The byte EEPROM_readByte stores through its pointer: the received byte
      whenever the NACK reception was issued (even if its status check then
      fails), and nothing when the transaction stopped earlier. */
  function Fetched(respond: Responder, h: seq<Event>, addr: bv16): (b: Option<bv8>)
    ensures b.Some? <==> forall k :: 0 <= k < 5 ==> Passes(respond, h, ReadPhases(addr), k)
    ensures b.Some? ==> b.value == respond(h + Events(ReadPhases(addr)[..5]), RxNack).data
  {
    var ps := ReadPhases(addr);
    IssueSpec(respond, h, ps);
    var r := Issue(respond, h, ps);
    if |r.events| == |ps| then Some(respond(h + Events(ps[..5]), RxNack).data) else None
  }

  /** A read whose first failing check is phase `j`: its bus events, and
      whether the byte was already stored. */
  lemma ReadStopsAt(respond: Responder, h: seq<Event>, addr: bv16, j: nat)
    requires j < 6
    requires forall k :: 0 <= k < j ==> Passes(respond, h, ReadPhases(addr), k)
    requires !Passes(respond, h, ReadPhases(addr), j)
    ensures Transact(respond, h, ReadPhases(addr)) == Run(false, Events(ReadPhases(addr)[..j + 1]))
    ensures Fetched(respond, h, addr) ==
      if j == 5 then Some(respond(h + Events(ReadPhases(addr)[..5]), RxNack).data) else None
  {
    FirstMismatchAborts(respond, h, ReadPhases(addr), j);
  }

  /** A read whose checks all pass. */
  lemma ReadCompletes(respond: Responder, h: seq<Event>, addr: bv16)
    requires forall k :: 0 <= k < 6 ==> Passes(respond, h, ReadPhases(addr), k)
    ensures Transact(respond, h, ReadPhases(addr)) == Run(true, Events(ReadPhases(addr)) + [StopCond])
    ensures Fetched(respond, h, addr) == Some(respond(h + Events(ReadPhases(addr)[..5]), RxNack).data)
  {
    AllPassCompletes(respond, h, ReadPhases(addr));
  }

  /** The output is written before the last check: when only that check fails
      the caller gets ERROR together with a freshly stored byte; when an
      earlier check fails nothing is stored. */
  lemma FetchedBeforeLastCheck(respond: Responder, h: seq<Event>, addr: bv16)
    ensures Fetched(respond, h, addr).Some? <==>
      forall k :: 0 <= k < 5 ==> Passes(respond, h, ReadPhases(addr), k)
    ensures Transact(respond, h, ReadPhases(addr)).ok ==> Fetched(respond, h, addr).Some?
    ensures Fetched(respond, h, addr).Some? && !Passes(respond, h, ReadPhases(addr), 5) ==>
      !Transact(respond, h, ReadPhases(addr)).ok
  {
    var ps := ReadPhases(addr);
    IssueSpec(respond, h, ps);
    if forall k :: 0 <= k < 5 ==> Passes(respond, h, ps, k) {
      if Passes(respond, h, ps, 5) {
        AllPassCompletes(respond, h, ps);
      } else {
        FirstMismatchAborts(respond, h, ps, 5);
      }
    }
  }

  /** Address bits 15..11 never reach the bus: two addresses that agree on
      bits 10..0 give the same transactions. */
  lemma HighAddressBitsIgnored(a: bv16, b: bv16, data: bv8)
    requires a & 0x07FF == b & 0x07FF
    ensures WritePhases(a, data) == WritePhases(b, data)
    ensures ReadPhases(a) == ReadPhases(b)
  {
    assert (a & 0x0700) == (b & 0x0700) by {
      assert a & 0x0700 == (a & 0x07FF) & 0x0700;
      assert b & 0x0700 == (b & 0x07FF) & 0x0700;
    }
    assert a & 0xFF == b & 0xFF by {
      assert a & 0xFF == (a & 0x07FF) & 0xFF;
      assert b & 0xFF == (b & 0x07FF) & 0xFF;
    }
  }

  /** EEPROM_writeByte. */
  method WriteByte(bus: TwiMaster, addr: bv16, data: bv8) returns (r: Outcome)
    modifies bus
    ensures var run := Transact(bus.respond, old(bus.trace), WritePhases(addr, data));
      bus.trace == old(bus.trace) + run.events && (r == Success <==> run.ok)
    ensures bus.TWBR == old(bus.TWBR) && bus.TWAR == old(bus.TWAR)
  {
    ghost var h := bus.trace;
    ghost var ps := WritePhases(addr, data);
    var c, lo := ControlByte(addr, false), LowByte(addr);
    WriteEvents(addr, data);
    assert h + Events(ps[..0]) == h;
    bus.Start();
    Extend(h, ps, 0);
    if bus.GetStatus() != TWI_START {
      FirstMismatchAborts(bus.respond, h, ps, 0);
      return Error;
    }
    bus.WriteByte(c);
    Extend(h, ps, 1);
    if bus.GetStatus() != TWI_MT_SLA_W_ACK {
      FirstMismatchAborts(bus.respond, h, ps, 1);
      return Error;
    }
    bus.WriteByte(lo);
    Extend(h, ps, 2);
    if bus.GetStatus() != TWI_MT_DATA_ACK {
      FirstMismatchAborts(bus.respond, h, ps, 2);
      return Error;
    }
    bus.WriteByte(data);
    Extend(h, ps, 3);
    if bus.GetStatus() != TWI_MT_DATA_ACK {
      FirstMismatchAborts(bus.respond, h, ps, 3);
      return Error;
    }
    AllPassCompletes(bus.respond, h, ps);
    assert ps[..4] == ps;
    bus.Stop();
    return Success;
  }

  /** EEPROM_readByte; the C output pointer is the cell `dst[at]`. */
  method ReadByte(bus: TwiMaster, addr: bv16, dst: array<bv8>, at: nat) returns (r: Outcome)
    requires at < dst.Length
    modifies bus, dst
    ensures var run := Transact(bus.respond, old(bus.trace), ReadPhases(addr));
      bus.trace == old(bus.trace) + run.events && (r == Success <==> run.ok)
    ensures dst[..] == old(dst[..])[at := Fetched(bus.respond, old(bus.trace), addr).GetOr(old(dst[at]))]
    ensures bus.TWBR == old(bus.TWBR) && bus.TWAR == old(bus.TWAR)
  {
    ghost var h := bus.trace;
    ghost var ps := ReadPhases(addr);
    var w, lo := ControlByte(addr, false), LowByte(addr);
    ReadEvents(addr);
    assert h + Events(ps[..0]) == h;
    bus.Start();
    Extend(h, ps, 0);
    if bus.GetStatus() != TWI_START {
      ReadStopsAt(bus.respond, h, addr, 0);
      return Error;
    }
    assert Passes(bus.respond, h, ps, 0);
    bus.WriteByte(w);
    Extend(h, ps, 1);
    if bus.GetStatus() != TWI_MT_SLA_W_ACK {
      ReadStopsAt(bus.respond, h, addr, 1);
      return Error;
    }
    assert Passes(bus.respond, h, ps, 1);
    bus.WriteByte(lo);
    Extend(h, ps, 2);
    if bus.GetStatus() != TWI_MT_DATA_ACK {
      ReadStopsAt(bus.respond, h, addr, 2);
      return Error;
    }
    assert Passes(bus.respond, h, ps, 2);
    r := CurrentAddressRead(bus, h, addr, dst, at);
  }

  /** The second half of EEPROM_readByte, once the word address has been
      written: repeated START, SLA+R, one byte received without
      acknowledgement and stored at once, then STOP. */
  method CurrentAddressRead(bus: TwiMaster, ghost h: seq<Event>, addr: bv16, dst: array<bv8>, at: nat) returns (r: Outcome)
    requires at < dst.Length
    requires bus.trace == h + Events(ReadPhases(addr)[..3])
    requires forall k :: 0 <= k < 3 ==> Passes(bus.respond, h, ReadPhases(addr), k)
    modifies bus, dst
    ensures var run := Transact(bus.respond, h, ReadPhases(addr));
      bus.trace == h + run.events && (r == Success <==> run.ok)
    ensures dst[..] == old(dst[..])[at := Fetched(bus.respond, h, addr).GetOr(old(dst[at]))]
    ensures bus.TWBR == old(bus.TWBR) && bus.TWAR == old(bus.TWAR)
  {
    ghost var ps := ReadPhases(addr);
    var rd := ControlByte(addr, true);
    ReadEvents(addr);
    bus.Start();
    Extend(h, ps, 3);
    if bus.GetStatus() != TWI_REP_START {
      ReadStopsAt(bus.respond, h, addr, 3);
      return Error;
    }
    assert Passes(bus.respond, h, ps, 3);
    bus.WriteByte(rd);
    Extend(h, ps, 4);
    if bus.GetStatus() != TWI_MT_SLA_R_ACK {
      ReadStopsAt(bus.respond, h, addr, 4);
      return Error;
    }
    assert Passes(bus.respond, h, ps, 4);
    dst[at] := bus.ReadByteWithNack();
    Extend(h, ps, 5);
    if bus.GetStatus() != TWI_MR_DATA_NACK {
      ReadStopsAt(bus.respond, h, addr, 5);
      return Error;
    }
    ReadCompletes(bus.respond, h, addr);
    bus.Stop();
    return Success;
  }

  /** _delay_ms: a fixed busy wait, recorded on the bus timeline. */
  method DelayMs(bus: TwiMaster, ms: nat)
    modifies bus`trace
    ensures bus.trace == old(bus.trace) + [Delay(ms)]
  {
    bus.trace := bus.trace + [Delay(ms)];
  }

  /** What EEPROM_writeArray leaves on the bus after `h`: for i = 0, 1, ...
      one EEPROM_writeByte of data[i] at address + i (16-bit wrap-around),
      whatever it returned, followed by the settle delay. */
  function WriteSweep(respond: Responder, h: seq<Event>, addr: bv16, data: seq<bv8>): seq<Event>
    requires |data| < 0x1_0000
    decreases |data|
  {
    if data == [] then []
    else
      var i := |data| - 1;
      var before := WriteSweep(respond, h, addr, data[..i]);
      before + Transact(respond, h + before, WritePhases(At(addr, i), data[i])).events + [Delay(SETTLE_MS)]
  }

  /** What EEPROM_readArray leaves on the bus after `h` and what it stores in
      each of the `n` elements. */
  function ReadSweep(respond: Responder, h: seq<Event>, addr: bv16, n: nat): (s: Sweep)
    requires n < 0x1_0000
    ensures |s.fetched| == n
  {
    if n == 0 then Sweep([], [])
    else
      var before := ReadSweep(respond, h, addr, n - 1);
      var a := At(addr, n - 1);
      var hi := h + before.events;
      Sweep(before.events + Transact(respond, hi, ReadPhases(a)).events + [Delay(SETTLE_MS)],
            before.fetched + [Fetched(respond, hi, a)])
  }

  /** Whatever the bus answers, a byte write starts exactly once and never
      waits. */
  lemma WriteTransactCounts(respond: Responder, h: seq<Event>, addr: bv16, data: bv8)
    ensures multiset(Transact(respond, h, WritePhases(addr, data)).events)[StartCond] == 1
    ensures multiset(Transact(respond, h, WritePhases(addr, data)).events)[Delay(SETTLE_MS)] == 0
  {
    var ps := WritePhases(addr, data);
    var c, lo := ControlByte(addr, false), LowByte(addr);
    IssueSpec(respond, h, ps);
    WriteEvents(addr, data);
    var n := |Issue(respond, h, ps).events|;
    assert n == 1 || n == 2 || n == 3 || n == 4;
  }

  /** A byte read never waits. */
  lemma ReadTransactHasNoDelay(respond: Responder, h: seq<Event>, addr: bv16)
    ensures multiset(Transact(respond, h, ReadPhases(addr)).events)[Delay(SETTLE_MS)] == 0
  {
    var ps := ReadPhases(addr);
    IssueSpec(respond, h, ps);
    var es := Issue(respond, h, ps).events;
    assert forall k :: 0 <= k < |es| ==> es[k] == ps[k].event;
    assert Delay(SETTLE_MS) !in es;
  }

  /** EEPROM_writeArray never stops early: n elements give exactly n byte
      writes (one START each) and n settle delays, whatever the bus answers. */
  lemma {:induction false} WriteSweepCounts(respond: Responder, h: seq<Event>, addr: bv16, data: seq<bv8>)
    requires |data| < 0x1_0000
    ensures multiset(WriteSweep(respond, h, addr, data))[StartCond] == |data|
    ensures multiset(WriteSweep(respond, h, addr, data))[Delay(SETTLE_MS)] == |data|
    decreases |data|
  {
    if data != [] {
      var i := |data| - 1;
      var before := WriteSweep(respond, h, addr, data[..i]);
      WriteSweepCounts(respond, h, addr, data[..i]);
      WriteTransactCounts(respond, h + before, At(addr, i), data[i]);
    }
  }

  /** EEPROM_readArray never stops early: n elements give exactly n settle
      delays, whatever the bus answers. */
  lemma {:induction false} ReadSweepDelays(respond: Responder, h: seq<Event>, addr: bv16, n: nat)
    requires n < 0x1_0000
    ensures multiset(ReadSweep(respond, h, addr, n).events)[Delay(SETTLE_MS)] == n
  {
    if n > 0 {
      var before := ReadSweep(respond, h, addr, n - 1);
      var a := At(addr, n - 1);
      ReadSweepDelays(respond, h, addr, n - 1);
      ReadTransactHasNoDelay(respond, h + before.events, a);
    }
  }

  /** EEPROM_writeArray; the per-element results are ignored. */
  method WriteArray(bus: TwiMaster, address: bv16, arr: array<bv8>, size: nat)
    requires size < 0x100 && size <= arr.Length
    modifies bus
    ensures bus.trace == old(bus.trace) + WriteSweep(bus.respond, old(bus.trace), address, arr[..size])
    ensures bus.TWBR == old(bus.TWBR) && bus.TWAR == old(bus.TWAR)
  {
    ghost var h := bus.trace;
    ghost var data := arr[..size];
    var i := 0;
    while i < size
      invariant 0 <= i <= size
      invariant bus.trace == h + WriteSweep(bus.respond, h, address, data[..i])
      invariant bus.TWBR == old(bus.TWBR) && bus.TWAR == old(bus.TWAR)
    {
      ghost var done := WriteSweep(bus.respond, h, address, data[..i]);
      var ignored := WriteByte(bus, At(address, i), arr[i]);
      DelayMs(bus, SETTLE_MS);
      assert data[..i + 1][..i] == data[..i];
      Append3(h, done, Transact(bus.respond, h + done, WritePhases(At(address, i), data[i])).events, [Delay(SETTLE_MS)]);
      i := i + 1;
    }
    assert data[..size] == data;
  }

  /** EEPROM_readArray; the per-element results are ignored, and an element
      whose read stopped before the reception keeps its old value. */
  method ReadArray(bus: TwiMaster, address: bv16, arr: array<bv8>, size: nat)
    requires size < 0x100 && size <= arr.Length
    modifies bus, arr
    ensures bus.trace == old(bus.trace) + ReadSweep(bus.respond, old(bus.trace), address, size).events
    ensures forall j :: 0 <= j < size ==>
      arr[j] == ReadSweep(bus.respond, old(bus.trace), address, size).fetched[j].GetOr(old(arr[j]))
    ensures arr[size..] == old(arr[size..])
    ensures bus.TWBR == old(bus.TWBR) && bus.TWAR == old(bus.TWAR)
  {
    ghost var h := bus.trace;
    var i := 0;
    while i < size
      invariant 0 <= i <= size
      invariant bus.trace == h + ReadSweep(bus.respond, h, address, i).events
      invariant forall j :: 0 <= j < i ==> arr[j] == ReadSweep(bus.respond, h, address, i).fetched[j].GetOr(old(arr[j]))
      invariant forall j :: i <= j < arr.Length ==> arr[j] == old(arr[j])
      invariant bus.TWBR == old(bus.TWBR) && bus.TWAR == old(bus.TWAR)
    {
      ghost var done := ReadSweep(bus.respond, h, address, i).events;
      var ignored := ReadByte(bus, At(address, i), arr, i);
      DelayMs(bus, SETTLE_MS);
      Append3(h, done, Transact(bus.respond, h + done, ReadPhases(At(address, i))).events, [Delay(SETTLE_MS)]);
      i := i + 1;
    }
  }
}

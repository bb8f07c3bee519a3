/** Model of the AVR TWI (two-wire, I2C-compatible) master driver.

    The peripheral is a class over its five registers. Each primitive writes
    TWCR the way the driver does and, where the driver spins on TWINT, returns
    once the hardware has finished: the bus event is then on `trace`, the new
    status sits in TWSR bits 7..3 and a received byte sits in TWDR. What the
    hardware and the addressed slave answer is the oracle `respond`, a function
    of everything that happened on the bus before.
 */
module Twi {
  import opened CommonMacros

  /** Events on the bus timeline, oldest first. `Delay` is not a bus condition:
      it records a fixed busy wait of the caller, so that its place between
      transactions is visible. */
  datatype Event =
    | StartCond
    | StopCond
    | Tx(byte: bv8)
    | RxAck
    | RxNack
    | Delay(ms: nat)

  /** The hardware's answer to one event: the status it puts in TWSR bits 7..3
      and the byte it leaves in TWDR after a reception. */
  datatype Reaction = Reaction(status: bv8, data: bv8)

  /** How the bus answers an event, given the events before it. */
  type Responder = (seq<Event>, Event) -> Reaction

  // TWCR bit positions (ATmega16/32 data sheet).
  const TWINT: bv8 := 7
  const TWEA: bv8 := 6
  const TWSTA: bv8 := 5
  const TWSTO: bv8 := 4
  const TWEN: bv8 := 2

  // Status codes after masking (ATmega16/32 data sheet, master modes).
  const TWI_START: bv8 := 0x08
  const TWI_REP_START: bv8 := 0x10
  const TWI_MT_SLA_W_ACK: bv8 := 0x18
  const TWI_MT_DATA_ACK: bv8 := 0x28
  const TWI_MT_SLA_R_ACK: bv8 := 0x40
  const TWI_MR_DATA_ACK: bv8 := 0x50
  const TWI_MR_DATA_NACK: bv8 := 0x58

  /** TWI_getStatus applied to a TWSR value: the prescaler and reserved bits
      2..0 are cleared and the status bits 7..3 are kept as they are. */
  function StatusOf(twsr: bv8): (s: bv8)
    ensures s & 0x07 == 0
    ensures s & 0xF8 == twsr & 0xF8
    ensures s & 0xF8 == s
  {
    twsr & 0xF8
  }

  lemma StatusOfExamples()
    ensures StatusOf(0xFB) == 0xF8
    ensures StatusOf(0x07) == 0x00
    ensures StatusOf(0x08) == 0x08
  {
  }

  /** The status TWI_getStatus reports right after `e` completed on a bus with
      history `h`. */
  function Observed(respond: Responder, h: seq<Event>, e: Event): bv8
  {
    StatusOf(respond(h, e).status)
  }

  /** TWSR once the hardware has reported `status`: bits 7..3 are the
      hardware's, the prescaler and reserved bits 2..0 keep what software
      wrote. */
  function StatusRegister(old_twsr: bv8, status: bv8): (twsr: bv8)
    ensures StatusOf(twsr) == StatusOf(status)
    ensures twsr & 0x07 == old_twsr & 0x07
  {
    (status & 0xF8) | (old_twsr & 0x07)
  }

  class TwiMaster {
    var TWBR: bv8
    var TWSR: bv8
    var TWAR: bv8
    var TWCR: bv8
    var TWDR: bv8
    /** Every event issued so far, oldest first. */
    var trace: seq<Event>
    /** The bus side: the hardware together with the addressed slave. */
    const respond: Responder

    /** Power-on state (data sheet reset values), nothing on the bus yet. */
    constructor (respond: Responder)
      ensures this.respond == respond && trace == []
      ensures TWBR == 0x00 && TWSR == 0xF8 && TWAR == 0xFE && TWCR == 0x00 && TWDR == 0xFF
    {
      this.respond := respond;
      trace := [];
      TWBR, TWSR, TWAR, TWCR, TWDR := 0x00, 0xF8, 0xFE, 0x00, 0xFF;
    }

    /** TWI_init: bit rate, prescaler 1, own slave address shifted past the
        general-call bit (bit 7 of the address is lost in the 8-bit register),
        module enabled and nothing else. */
    method Init(bitRate: bv8, address: bv8)
      modifies this
      ensures TWBR == bitRate && TWSR == 0x00 && TWAR == address << 1 && TWCR == Bit(TWEN)
      ensures TWAR >> 1 == address & 0x7F && TWAR & 0x01 == 0
      ensures TWDR == old(TWDR) && trace == old(trace)
    {
      TWBR := bitRate;
      TWSR := 0x00;
      TWAR := address << 1;
      TWCR := Bit(TWEN);
    }

    /** The hardware completing `e` after software cleared TWINT: the event is
        on the bus and TWINT reads as set again. The busy wait on TWINT is
        abstracted to this completion. */
    method AwaitFlag(e: Event)
      requires TWCR & Bit(TWINT) != 0
      modifies this
      ensures trace == old(trace) + [e]
      ensures TWSR == StatusRegister(old(TWSR), respond(old(trace), e).status)
      ensures TWDR == if e == RxAck || e == RxNack then respond(old(trace), e).data else old(TWDR)
      ensures TWCR == old(TWCR) && TWBR == old(TWBR) && TWAR == old(TWAR)
    {
      var answer := respond(trace, e);
      TWSR := StatusRegister(TWSR, answer.status);
      if e == RxAck || e == RxNack {
        TWDR := answer.data;
      }
      trace := trace + [e];
    }

    /** TWI_start: request a (repeated) START and return once TWINT is set. */
    method Start()
      modifies this
      ensures TWCR == Bit(TWINT) | Bit(TWSTA) | Bit(TWEN)
      ensures trace == old(trace) + [StartCond]
      ensures GetStatus() == Observed(respond, old(trace), StartCond)
      ensures TWSR & 0x07 == old(TWSR) & 0x07
      ensures TWDR == old(TWDR) && TWBR == old(TWBR) && TWAR == old(TWAR)
    {
      TWCR := Bit(TWINT) | Bit(TWSTA) | Bit(TWEN);
      AwaitFlag(StartCond);
    }

    /** TWI_stop: request a STOP and return at once; unlike Start it does not
        wait for any flag, and TWSR is left as it was. */
    method Stop()
      modifies this
      ensures TWCR == Bit(TWINT) | Bit(TWSTO) | Bit(TWEN)
      ensures trace == old(trace) + [StopCond]
      ensures TWSR == old(TWSR) && TWDR == old(TWDR) && TWBR == old(TWBR) && TWAR == old(TWAR)
    {
      TWCR := Bit(TWINT) | Bit(TWSTO) | Bit(TWEN);
      trace := trace + [StopCond];
    }

    /** TWI_writeByte: load TWDR first, then start the transfer and return once
        TWINT is set. */
    method WriteByte(data: bv8)
      modifies this
      ensures TWDR == data
      ensures TWCR == Bit(TWINT) | Bit(TWEN)
      ensures trace == old(trace) + [Tx(data)]
      ensures GetStatus() == Observed(respond, old(trace), Tx(data))
      ensures TWSR & 0x07 == old(TWSR) & 0x07
      ensures TWBR == old(TWBR) && TWAR == old(TWAR)
    {
      TWDR := data;
      TWCR := Bit(TWINT) | Bit(TWEN);
      AwaitFlag(Tx(data));
    }

    /** TWI_readByteWithACK: receive one byte and acknowledge it (TWEA set),
        telling the slave that more bytes are wanted. */
    method ReadByteWithAck() returns (b: bv8)
      modifies this
      ensures TWCR == Bit(TWINT) | Bit(TWEN) | Bit(TWEA)
      ensures trace == old(trace) + [RxAck]
      ensures b == TWDR == respond(old(trace), RxAck).data
      ensures GetStatus() == Observed(respond, old(trace), RxAck)
      ensures TWSR & 0x07 == old(TWSR) & 0x07
      ensures TWBR == old(TWBR) && TWAR == old(TWAR)
    {
      TWCR := Bit(TWINT) | Bit(TWEN) | Bit(TWEA);
      AwaitFlag(RxAck);
      b := TWDR;
    }

    /** TWI_readByteWithNACK: receive one byte without acknowledging it (TWEA
        clear), ending the reception. */
    method ReadByteWithNack() returns (b: bv8)
      modifies this
      ensures TWCR == Bit(TWINT) | Bit(TWEN)
      ensures TWCR & Bit(TWEA) == 0
      ensures trace == old(trace) + [RxNack]
      ensures b == TWDR == respond(old(trace), RxNack).data
      ensures GetStatus() == Observed(respond, old(trace), RxNack)
      ensures TWSR & 0x07 == old(TWSR) & 0x07
      ensures TWBR == old(TWBR) && TWAR == old(TWAR)
    {
      TWCR := Bit(TWINT) | Bit(TWEN);
      AwaitFlag(RxNack);
      b := TWDR;
    }

    /** TWI_getStatus. */
    function GetStatus(): bv8
      reads this
    {
      StatusOf(TWSR)
    }
  }
}

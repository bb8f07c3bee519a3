/** Model of the AVR USART driver: frame and baud configuration, and
    delimiter-framed strings over a byte channel.

    The port is a class over the registers UART_init writes. The channel
    itself is abstract: `sent` is every byte handed to the transmitter so
    far, oldest first, and `incoming` the bytes the receiver will deliver,
    next first. The busy waits on UDRE and RXC are abstracted to "the byte
    has been taken" and "a byte has arrived". */
module Uart {
  import opened CommonMacros

  // Bit positions (ATmega16/32 data sheet).
  const U2X: bv8 := 1      // UCSRA: double transmission speed
  const UCSZ2: bv8 := 2    // UCSRB: character size, bit 2
  const TXEN: bv8 := 3     // UCSRB: transmitter enable
  const RXEN: bv8 := 4     // UCSRB: receiver enable
  const URSEL: bv8 := 7    // UCSRC: register select

  /** The character-size setting for 9 data bits: UCSZ2..0 = 111. */
  const CHARACTER_SIZE_9: bv8 := 0x07

  const NUL: bv8 := 0x00
  const HASH: bv8 := 0x23  // '#'

  /** The prefix of `s` before the first `d` (all of `s` when it holds no `d`). */
  function TakeUntil(s: seq<bv8>, d: bv8): (r: seq<bv8>)
    ensures |r| <= |s| && r == s[..|r|]
    ensures d !in r
    ensures |r| < |s| ==> s[|r|] == d
  {
    if s == [] || s[0] == d then [] else [s[0]] + TakeUntil(s[1..], d)
  }

  /** The three properties above determine the prefix: no other prefix of
      `s` free of `d` is followed by `d` or reaches the end. */
  lemma TakeUntilUnique(s: seq<bv8>, d: bv8, n: nat)
    requires n <= |s| && d !in s[..n]
    requires n < |s| ==> s[n] == d
    ensures TakeUntil(s, d) == s[..n]
  {
  }

  /** Text free of the delimiter, followed by the delimiter, is cut back to
      exactly that text whatever follows. */
  lemma TakeUntilFramed(msg: seq<bv8>, d: bv8, rest: seq<bv8>)
    requires d !in msg
    ensures TakeUntil(msg + [d] + rest, d) == msg
  {
    var s := msg + [d] + rest;
    assert s[..|msg|] == msg;
    TakeUntilUnique(s, d, |msg|);
  }

  /** The position of the first `d` in `s`, given that there is one below
      `bound` and below 256. */
  lemma FirstDelimiter(s: seq<bv8>, d: bv8, bound: nat) returns (m: nat)
    requires exists k :: 0 <= k < |s| && k < bound && k < 256 && s[k] == d
    ensures m < |s| && m < bound && m < 256 && s[m] == d
    ensures forall j :: 0 <= j < m ==> s[j] != d
  {
    var text := TakeUntil(s, d);
    var k :| 0 <= k < |s| && k < bound && k < 256 && s[k] == d;
    assert |text| <= k;
    m := |text|;
    forall j | 0 <= j < m
      ensures s[j] != d
    {
      assert s[j] == text[j];
    }
  }

  /** The unsigned 16-bit value UART_init computes for UBRR: F_CPU divided by
      eight times the baud rate, in 32-bit unsigned long arithmetic, minus
      one, truncated to 16 bits. */
  function UbrrValue(fCpu: nat, baud: nat): (u: nat)
    requires fCpu < 0x1_0000_0000 && baud < 0x1_0000_0000
    requires (baud * 8) % 0x1_0000_0000 != 0
    ensures u < 0x1_0000
  {
    var q := fCpu / ((baud * 8) % 0x1_0000_0000);
    (q - 1) % 0x1_0000
  }


  /** Whenever the quotient fits, UBRR is exactly one less than it: the
      baud rate the hardware then produces in double-speed mode is
      F_CPU / (8 * (UBRR + 1)) with that quotient. */
  lemma UbrrExact(fCpu: nat, baud: nat)
    requires fCpu < 0x1_0000_0000 && 0 < baud < 0x2000_0000
    requires 1 <= fCpu / (baud * 8) <= 0x1_0000
    ensures UbrrValue(fCpu, baud) == fCpu / (baud * 8) - 1
    ensures (UbrrValue(fCpu, baud) + 1) * (baud * 8) <= fCpu
  {
    var d := baud * 8;
    var q := fCpu / d;
    assert d % 0x1_0000_0000 == d;
    assert (q - 1) % 0x1_0000 == q - 1;
    DivMul(fCpu, d);
  }

  lemma DivMul(n: nat, d: nat)
    requires 0 < d
    ensures (n / d) * d <= n
  {
  }

  /** A baud rate too fast for F_CPU makes the quotient 0, and the unsigned
      subtraction wraps around to the slowest setting. */
  lemma UbrrTooFast(fCpu: nat, baud: nat)
    requires fCpu < 0x1_0000_0000 && 0 < baud < 0x2000_0000
    requires fCpu < baud * 8
    ensures UbrrValue(fCpu, baud) == 0xFFFF
  {
    assert (baud * 8) % 0x1_0000_0000 == baud * 8;
    assert fCpu / (baud * 8) == 0;
  }

  /** The character size the hardware uses: UCSZ2 from UCSRB above UCSZ1..0
      from UCSRC bits 2..1. */
  function CharacterSize(ucsrb: bv8, ucsrc: bv8): (size: bv8)
    ensures size < 8
  {
    (if ucsrb & Bit(UCSZ2) != 0 then 0x04 else 0x00) | ((ucsrc >> 1) & 0x03)
  }

  class UartPort {
    var UCSRA: bv8
    var UCSRB: bv8
    var UCSRC: bv8
    var UBRRH: bv8
    var UBRRL: bv8
    /** Bytes handed to the transmitter, oldest first. */
    var sent: seq<bv8>
    /** Bytes the receiver will deliver, next first. */
    var incoming: seq<bv8>

    /** Power-on registers (data sheet reset values) and a given input. */
    constructor (incoming: seq<bv8>)
      ensures this.incoming == incoming && sent == []
      ensures UCSRA == 0x20 && UCSRB == 0x00 && UCSRC == 0x86 && UBRRH == 0x00 && UBRRL == 0x00
    {
      this.incoming := incoming;
      sent := [];
      UCSRA, UCSRB, UCSRC, UBRRH, UBRRL := 0x20, 0x00, 0x86, 0x00, 0x00;
    }

    /** UART_init: double speed; receiver and transmitter on, UCSZ2 set
        exactly for 9-bit characters; UCSRC selected, with the parity and
        stop-bit settings and the two low character-size bits; UBRR from
        F_CPU and the baud rate, high byte first. */
    method Init(bitData: bv8, parity: bv8, stopBit: bv8, baud: nat, fCpu: nat)
      requires fCpu < 0x1_0000_0000 && baud < 0x1_0000_0000
      requires (baud * 8) % 0x1_0000_0000 != 0
      modifies this
      ensures UCSRA == Bit(U2X)
      ensures UCSRB & Bit(RXEN) != 0 && UCSRB & Bit(TXEN) != 0
      ensures UCSRB & Bit(UCSZ2) != 0 <==> bitData == CHARACTER_SIZE_9
      ensures UCSRB & !(Bit(RXEN) | Bit(TXEN) | Bit(UCSZ2)) == 0
      ensures UCSRC == Bit(URSEL) | parity | stopBit | ((bitData & 0x03) << 1)
      ensures (UBRRH as bv16 << 8) | UBRRL as bv16 == UbrrValue(fCpu, baud) as bv16
      ensures sent == old(sent) && incoming == old(incoming)
    {
      var ubrrValue: bv16 := 0;
      UCSRA := Bit(U2X);
      UCSRB := Bit(RXEN) | Bit(TXEN);
      if bitData == CHARACTER_SIZE_9 {
        UCSRB := UCSRB | Bit(UCSZ2);
      } else {
        UCSRB := UCSRB & !Bit(UCSZ2);
      }
      UCSRC := Bit(URSEL);
      UCSRC := UCSRC | parity;
      UCSRC := UCSRC | stopBit;
      UCSRC := UCSRC | ((bitData & 0x03) << 1);
      ubrrValue := UbrrValue(fCpu, baud) as bv16;
      UBRRH := (ubrrValue >> 8) as bv8;
      UBRRL := (ubrrValue & 0xFF) as bv8;
    }

    /** UART_sendByte: the byte goes out once the transmit buffer is free. */
    method SendByte(data: bv8)
      modifies this`sent
      ensures sent == old(sent) + [data]
    {
      sent := sent + [data];
    }

    /** UART_recieveByte: returns once a byte has arrived, and consumes it. */
    method ReceiveByte() returns (b: bv8)
      requires incoming != []
      modifies this`incoming
      ensures b == old(incoming[0]) && incoming == old(incoming[1..])
    {
      b := incoming[0];
      incoming := incoming[1..];
    }

    /** UART_sendString: every byte before the terminating NUL, in order; the
        NUL itself is not sent. The 8-bit index needs the NUL within the
        first 256 bytes. */
    method SendString(str: array<bv8>)
      requires exists k :: 0 <= k < str.Length && k < 256 && str[k] == NUL
      modifies this`sent
      ensures sent == old(sent) + TakeUntil(str[..], NUL)
    {
      ghost var text := TakeUntil(str[..], NUL);
      ghost var k :| 0 <= k < str.Length && k < 256 && str[k] == NUL;
      assert |text| <= k;
      var i: nat := 0;
      while str[i] != NUL
        invariant i <= |text| && sent == old(sent) + text[..i]
        decreases |text| - i
      {
        assert text[i] == str[i];
        SendByte(str[i]);
        assert text[..i + 1] == text[..i] + [str[i]];
        i := i + 1;
      }
      assert text == text[..i];
    }

    /** UART_receiveString: stores received bytes from str[0] on, up to and
        including the first '#', then overwrites that '#' with NUL. At least
        one byte is always consumed. The 8-bit index needs the '#' within
        the first 256 bytes, and the buffer must hold them. */
    method ReceiveString(str: array<bv8>)
      requires exists k :: 0 <= k < |incoming| && k < str.Length && k < 256 && incoming[k] == HASH
      modifies this`incoming, str
      ensures var text := TakeUntil(old(incoming), HASH);
        str[..] == text + [NUL] + old(str[..])[|text| + 1..] &&
        incoming == old(incoming)[|text| + 1..]
      ensures sent == old(sent)
    {
      ghost var input := incoming;
      ghost var m := FirstDelimiter(input, HASH, str.Length);
      var i: nat := 0;
      str[i] := ReceiveByte();
      while str[i] != HASH
        invariant i <= m && incoming == input[i + 1..]
        invariant str[i] == HASH <==> i == m
        invariant forall j :: 0 <= j < i ==> str[j] == input[j]
        invariant str[i] == input[i]
        invariant forall j :: i < j < str.Length ==> str[j] == old(str[j])
        decreases m - i
      {
        i := i + 1;
        str[i] := ReceiveByte();
      }
      str[i] := NUL;
      TakeUntilUnique(input, HASH, m);
      assert str[..i] == input[..m];
      assert str[..] == str[..i] + [NUL] + old(str[..])[i + 1..];
    }
  }

  /** A '#'-terminated message sent as a NUL-terminated string arrives
      intact: what UART_sendString transmits for the buffer msg + "#\0", once
      the receiving side's UART_receiveString cuts it at '#', is `msg`. */
  lemma FramingRoundTrip(msg: seq<bv8>, after: seq<bv8>)
    requires HASH !in msg && NUL !in msg
    ensures TakeUntil(msg + [HASH, NUL], NUL) == msg + [HASH]
    ensures TakeUntil(TakeUntil(msg + [HASH, NUL], NUL) + after, HASH) == msg
  {
    assert msg + [HASH, NUL] == (msg + [HASH]) + [NUL] + [];
    TakeUntilFramed(msg + [HASH], NUL, []);
    TakeUntilFramed(msg, HASH, after);
  }

  /** The UCSZ bits UART_init writes select the requested character size
      for every setting the hardware defines (5 to 8 bits as 0..3, 9 bits as
      7), provided the parity and stop-bit settings leave UCSRC bits 2..1
      alone. */
  lemma CharacterSizeSelected(bitData: bv8, parity: bv8, stopBit: bv8)
    requires bitData <= 0x03 || bitData == CHARACTER_SIZE_9
    requires parity & 0x06 == 0 && stopBit & 0x06 == 0
    ensures var ucsrb := Bit(RXEN) | Bit(TXEN) | (if bitData == CHARACTER_SIZE_9 then Bit(UCSZ2) else 0);
      var ucsrc := Bit(URSEL) | parity | stopBit | ((bitData & 0x03) << 1);
      CharacterSize(ucsrb, ucsrc) == bitData
  {
  }
}

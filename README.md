# Control ECU drivers: external EEPROM over TWI, and UART framing

This project models three drivers of the door-locking system's Control ECU
and proves what each one does:

- the **TWI (I2C-compatible) master** primitives of the AVR;
- the **external EEPROM driver** built on them. It covers a 24Cxx-style
  serial EEPROM with 2 KiB in eight 256-byte blocks. Address bits A10..A8
  travel as the block select inside the device address byte.
- the **UART** configuration and its delimiter-framed strings.

## Layers

**Twi** (`twi.dfy`). `Twi.TwiMaster` is a class over the five TWI registers
TWBR, TWSR, TWAR, TWCR and TWDR, plus the timeline `trace` of the bus
events issued so far.

- Each primitive writes TWCR exactly as the driver does.
- Where the driver spins until TWINT is set, the method returns with the
  event on `trace`. The hardware's status is then in TWSR bits 7..3, with
  the prescaler and reserved bits 2..0 untouched. A received byte is in
  TWDR.
- What the hardware and the addressed slave answer is an oracle `respond`.
  It maps the history before an event, and the event itself, to a status
  and a received byte. So every property below holds for any bus
  behaviour, not just a well-behaved one.

**Eeprom** (`external_eeprom.dfy`). A byte write or byte read is a fixed
list of phases: issue one event, then demand one status.

- `Issue` is the reference meaning of such a list. It runs the phases in
  order and stops right after the first status that does not match.
- `Transact` adds the STOP that only a fully successful list sends.
- The driver methods `WriteByte` and `ReadByte` are proved to put exactly
  `Transact`'s events on the bus and to return SUCCESS exactly when it
  succeeds.
- `ReadByte` stores through its output pointer the byte given by `Fetched`.
  That byte is stored even when only the last status check fails.
- `ReadByte` is written as the first three phases followed by
  `CurrentAddressRead`, the last three (repeated START, SLA+R and the NACK
  reception). Together they do exactly what `EEPROM_readByte` does in one
  function.
- The array operations are loops of byte operations. Their results are
  ignored and each is followed by a 10 ms delay. The delay is recorded on
  the same timeline as a `Delay` event. The methods are proved against the
  snoc-style specifications `WriteSweep` and `ReadSweep`.

**EepromDevice** (`eeprom_device.dfy`). This is one concrete `respond`: an
always-acknowledging 24Cxx whose memory is a map from
(block A10..A8, word A7..A0) to byte.

- The device state is replayed from the bus history.
- Against it, a write followed by a read of the same address returns the
  written byte. A read of another cell returns what that cell held.
- The driver never sends STOP after a failed check, so the bus is left
  held. That much is the driver's code. The device model then assumes, as
  the ATmega TWI hardware does, that a START issued while the bus is held
  is reported as a repeated START. Under that assumption every later byte
  write or read fails at its first check; the lemmas `HeldBusFailsWrite`
  and `HeldBusFailsRead` prove this consequence rather than repairing it.

**Uart** (`uart.dfy`). `Uart.UartPort` is a class over UCSRA, UCSRB, UCSRC,
UBRRH and UBRRL.

- The byte channel is abstract: `sent` is every byte handed to the
  transmitter, and `incoming` the bytes the receiver will deliver.
- `SendString` sends the bytes before the NUL.
- `ReceiveString` stores the bytes up to the first `'#'` and overwrites
  that `'#'` with NUL.
- Both are specified through `TakeUntil`, the prefix before the first
  delimiter. `FramingRoundTrip` chains them.

## Constants

The register bit positions, the TWI status codes and `Character_SIZE_9`
are defined in headers that are not part of this model (`avr/io.h`,
`twi.h`, `uart.h`, `std_types.h`). The values used are the ATmega16/32 data
sheet's:

- status codes START 0x08, REP_START 0x10, MT_SLA_W_ACK 0x18,
  MT_DATA_ACK 0x28, MT_SLA_R_ACK 0x40, MR_DATA_NACK 0x58;
- TWCR bits TWINT 7, TWEA 6, TWSTA 5, TWSTO 4, TWEN 2;
- UCSRA, UCSRB and UCSRC bits U2X 1, UCSZ2 2, TXEN 3, RXEN 4, URSEL 7;
- UCSZ2..0 = 111 for nine data bits.

SUCCESS and ERROR are the two values of the datatype `Outcome`. The device
model relies on the status codes having their low three bits clear and on
START and REP_START differing.

`TWI_getStatus` keeps bits 7..3 of TWSR as they are (twi.c:84). A raw 0x08
therefore reports 0x08 (`Twi.StatusOfExamples`); only the prescaler and
reserved bits 2..0 are cleared.

## Model

| member | source | states |
|---|---|---|
| Twi.StatusOf | Door_Locking_System_Code/Control_ECU/MCAL/twi.c:81-85 | the reported status has its three low bits clear, agrees with TWSR on bits 7..3, and masking it again changes nothing |
| Twi.StatusOfExamples | Door_Locking_System_Code/Control_ECU/MCAL/twi.c:81-85 | 0xFB reports 0xF8, 0x07 reports 0x00 and 0x08 reports 0x08 |
| Twi.TwiMaster.Init | Door_Locking_System_Code/Control_ECU/MCAL/twi.c:17-28 | TWBR is the bit rate, TWSR is 0, TWAR is the address shifted left with its bit 7 lost and bit 0 clear, TWCR has only TWEN set; nothing is issued on the bus |
| Twi.TwiMaster.AwaitFlag | Door_Locking_System_Code/Control_ECU/MCAL/twi.c:36 | once TWINT has been written the event completes: it is appended to the trace, TWSR bits 7..3 take the oracle's status, the prescaler and reserved bits 2..0 are kept, and TWDR takes the received byte only for a reception |
| Twi.TwiMaster.Start | Door_Locking_System_Code/Control_ECU/MCAL/twi.c:30-37 | TWCR = TWINT, TWSTA, TWEN; a START is on the bus and the status reported afterwards is the oracle's answer to it; TWDR is unchanged |
| Twi.TwiMaster.Stop | Door_Locking_System_Code/Control_ECU/MCAL/twi.c:39-43 | TWCR = TWINT, TWSTO, TWEN; a STOP is on the bus; no flag is awaited, so TWSR and TWDR are unchanged |
| Twi.TwiMaster.WriteByte | Door_Locking_System_Code/Control_ECU/MCAL/twi.c:45-55 | TWDR holds the data, TWCR = TWINT, TWEN; the byte is on the bus and the reported status is the oracle's answer to it |
| Twi.TwiMaster.ReadByteWithAck | Door_Locking_System_Code/Control_ECU/MCAL/twi.c:57-67 | TWCR sets TWEA to acknowledge; the returned byte is TWDR, which is the byte the bus delivered for this reception |
| Twi.TwiMaster.ReadByteWithNack | Door_Locking_System_Code/Control_ECU/MCAL/twi.c:69-79 | TWCR leaves TWEA clear to end the reception; the returned byte is the one the bus delivered |
| Eeprom.ControlByte | Door_Locking_System_Code/Control_ECU/HAL/external_eeprom.c:38 | the upper nibble is the device type 1010, bits 3..1 are address bits A10..A8, and bit 0 is set exactly for a read |
| Eeprom.ControlByteExample | Door_Locking_System_Code/Control_ECU/HAL/external_eeprom.c:79-94 | address 0x0305 gives control bytes 0xA6 (write) and 0xA7 (read) and word address 0x05 |
| Eeprom.LowByte | Door_Locking_System_Code/Control_ECU/HAL/external_eeprom.c:43 | the word address byte is the low eight bits of the address, bits 7..0 |
| Eeprom.At | Door_Locking_System_Code/Control_ECU/HAL/external_eeprom.c:123 | the address of element i is address + i reduced modulo 2^16, wrapping around past 0xFFFF |
| Eeprom.HighAddressBitsIgnored | Door_Locking_System_Code/Control_ECU/HAL/external_eeprom.c:38-43 | addresses that agree on bits 10..0 give identical write and read transactions |
| Eeprom.IssueSpec | Door_Locking_System_Code/Control_ECU/HAL/external_eeprom.c:33-50 | checked phases issue a prefix of their events; every phase before the last one issued passed; success means all were issued and passed, failure means the last one issued failed |
| Eeprom.IssueOkIff | Door_Locking_System_Code/Control_ECU/HAL/external_eeprom.c:33-50 | a phase list completes exactly when every phase's status matches |
| Eeprom.FirstMismatchAborts | Door_Locking_System_Code/Control_ECU/HAL/external_eeprom.c:75-101 | the first failing check ends the transaction: exactly the events up to and including that phase are issued |
| Eeprom.StopOnlyOnSuccess | Door_Locking_System_Code/Control_ECU/HAL/external_eeprom.c:52-55 | a STOP is sent exactly when the transaction succeeds; an abort sends no cleanup |
| Eeprom.WriteByteSucceedsIff | Door_Locking_System_Code/Control_ECU/HAL/external_eeprom.c:30-56 | a byte write succeeds exactly when the statuses are START, SLA+W ACK, data ACK, data ACK; it then sends START, control byte, low address, data, STOP |
| Eeprom.WriteAbortsOnControlNack | Door_Locking_System_Code/Control_ECU/HAL/external_eeprom.c:38-40 | a control byte that is not acknowledged ends the write: no address byte, no data byte, no STOP |
| Eeprom.ReadByteSucceedsIff | Door_Locking_System_Code/Control_ECU/HAL/external_eeprom.c:71-107 | a byte read succeeds exactly when the statuses are START, SLA+W ACK, data ACK, repeated START, SLA+R ACK, data NACK; it then sends the seven-event trace ending in STOP |
| Eeprom.Fetched | Door_Locking_System_Code/Control_ECU/HAL/external_eeprom.c:98-101 | a byte is stored through the output pointer exactly when the first five checks pass, and it is the byte received with NACK, whatever the last check then says |
| Eeprom.ReadStopsAt | Door_Locking_System_Code/Control_ECU/HAL/external_eeprom.c:75-101 | a read that first fails at phase j issues the events up to phase j, and has stored a byte only if j is the final check |
| Eeprom.ReadCompletes | Door_Locking_System_Code/Control_ECU/HAL/external_eeprom.c:98-106 | a read whose checks all pass issues all six events and STOP and stores the received byte |
| Eeprom.FetchedBeforeLastCheck | Door_Locking_System_Code/Control_ECU/HAL/external_eeprom.c:98-101 | a byte is stored exactly when the first five checks pass; success implies a stored byte; a stored byte with a failing last check still yields ERROR |
| Eeprom.WriteByte | Door_Locking_System_Code/Control_ECU/HAL/external_eeprom.c:30-56 | the bus receives exactly the write transaction's events and the result is SUCCESS exactly when it succeeds |
| Eeprom.ReadByte | Door_Locking_System_Code/Control_ECU/HAL/external_eeprom.c:71-107 | the bus receives exactly the read transaction's events, the result is SUCCESS exactly when it succeeds, and the output element takes the fetched byte or keeps its value |
| Eeprom.CurrentAddressRead | Door_Locking_System_Code/Control_ECU/HAL/external_eeprom.c:88-106 | after the address phases passed, the repeated START, SLA+R and NACK reception complete the same read transaction and the same store |
| Eeprom.DelayMs | Door_Locking_System_Code/Control_ECU/HAL/external_eeprom.c:124 | the busy wait is recorded as one delay event on the timeline |
| Eeprom.WriteTransactCounts | Door_Locking_System_Code/Control_ECU/HAL/external_eeprom.c:30-56 | whatever the bus answers, a byte write sends exactly one START and never waits |
| Eeprom.ReadTransactHasNoDelay | Door_Locking_System_Code/Control_ECU/HAL/external_eeprom.c:71-107 | a byte read never waits |
| Eeprom.WriteSweepCounts | Door_Locking_System_Code/Control_ECU/HAL/external_eeprom.c:120-126 | writing n bytes always makes n byte writes and n settle delays, whatever the bus answers |
| Eeprom.ReadSweepDelays | Door_Locking_System_Code/Control_ECU/HAL/external_eeprom.c:139-145 | reading n bytes always makes n settle delays, whatever the bus answers |
| Eeprom.WriteArray | Door_Locking_System_Code/Control_ECU/HAL/external_eeprom.c:120-126 | the bus receives one byte write of arr[i] at address + i (16-bit wrap-around) for each i in order, each followed by the delay, regardless of the results |
| Eeprom.ReadArray | Door_Locking_System_Code/Control_ECU/HAL/external_eeprom.c:139-145 | the bus receives the reads in order with their delays; element i takes the byte read from address + i, keeps its value when that read stopped early, and elements past the count are untouched |
| EepromDevice.Key | Door_Locking_System_Code/Control_ECU/HAL/external_eeprom.c:38-43 | the cell of an address has address bits A10..A8 as its block (at most three bits) and the low byte as its offset |
| EepromDevice.KeyIff | Door_Locking_System_Code/Control_ECU/HAL/external_eeprom.c:38-43 | two addresses name the same cell exactly when they agree on bits 10..0 |
| EepromDevice.AddressPhase | Door_Locking_System_Code/Control_ECU/HAL/external_eeprom.c:33-45 | on an idle bus START, the write-mode control byte and the word address are acknowledged, and the device then points at the cell of the address with its memory unchanged |
| EepromDevice.WriteStores | Door_Locking_System_Code/Control_ECU/HAL/external_eeprom.c:30-56 | on an idle bus a byte write succeeds, stores the byte in its cell, changes no other cell and leaves the bus idle |
| EepromDevice.WriteScenario | Door_Locking_System_Code/Control_ECU/HAL/external_eeprom.c:30-56 | writing 0x42 at 0x0010 sends START, 0xA0, 0x10, 0x42, STOP, and the cell then holds 0x42 |
| EepromDevice.ReadFetches | Door_Locking_System_Code/Control_ECU/HAL/external_eeprom.c:71-107 | on an idle bus a byte read succeeds, fetches the byte of its cell, changes no cell and leaves the bus idle |
| EepromDevice.RoundTrip | Door_Locking_System_Code/Control_ECU/HAL/external_eeprom.c:30-107 | a write, the settle delay, then a read of the same address: both succeed and the read yields the written byte |
| EepromDevice.WriteThenReadOther | Door_Locking_System_Code/Control_ECU/HAL/external_eeprom.c:30-107 | after a write, a read of any address yields the written byte if it names the same cell, and the cell's earlier content otherwise |
| EepromDevice.HeldBusFailsWrite | Door_Locking_System_Code/Control_ECU/HAL/external_eeprom.c:33-35 | on a bus left held by an aborted transaction, a byte write fails at its START check and the bus stays held |
| EepromDevice.HeldBusFailsRead | Door_Locking_System_Code/Control_ECU/HAL/external_eeprom.c:74-76 | on a held bus a byte read fails at its START check, stores nothing and leaves the bus held |
| Uart.TakeUntil | Door_Locking_System_Code/Control_ECU/MCAL/uart.c:121-125 | the text before a delimiter is a prefix of the input without the delimiter, followed by the delimiter unless it is the whole input |
| Uart.TakeUntilFramed | Door_Locking_System_Code/Control_ECU/MCAL/uart.c:147-151 | delimiter-free text followed by the delimiter is cut back to exactly that text, whatever follows |
| Uart.UbrrValue | Door_Locking_System_Code/Control_ECU/MCAL/uart.c:64 | UBRR is F_CPU over eight times the baud rate minus one, in 32-bit unsigned arithmetic truncated to 16 bits, so it always fits UBRRH:UBRRL |
| Uart.UbrrExact | Door_Locking_System_Code/Control_ECU/MCAL/uart.c:64 | when the quotient is between 1 and 65536, UBRR is the quotient minus one and the double-speed baud rate it gives, F_CPU / (8 (UBRR + 1)), is not below the requested one |
| Uart.UbrrTooFast | Door_Locking_System_Code/Control_ECU/MCAL/uart.c:64 | a baud rate above F_CPU/8 wraps UBRR around to 0xFFFF |
| Uart.CharacterSizeSelected | Door_Locking_System_Code/Control_ECU/MCAL/uart.c:39-61 | for the sizes 0..3 and 9-bit, the UCSZ bits written select exactly the requested size, provided parity and stop-bit settings leave bits 2..1 alone |
| Uart.UartPort.Init | Door_Locking_System_Code/Control_ECU/MCAL/uart.c:28-69 | UCSRA is U2X only; UCSRB has RXEN and TXEN, has UCSZ2 exactly for 9-bit data, and nothing else; UCSRC is URSEL with parity, stop bit and the two low size bits; UBRRH:UBRRL is the computed UBRR |
| Uart.UartPort.SendByte | Door_Locking_System_Code/Control_ECU/MCAL/uart.c:75-94 | the byte is appended to what was sent |
| Uart.UartPort.ReceiveByte | Door_Locking_System_Code/Control_ECU/MCAL/uart.c:100-110 | the next incoming byte is returned and consumed |
| Uart.UartPort.SendString | Door_Locking_System_Code/Control_ECU/MCAL/uart.c:116-133 | exactly the bytes before the first NUL are sent, in order; the NUL is not |
| Uart.UartPort.ReceiveString | Door_Locking_System_Code/Control_ECU/MCAL/uart.c:139-155 | the buffer starts with the bytes received before the first '#', then NUL, and its remaining elements are untouched; exactly those bytes and the '#' are consumed |
| Uart.FramingRoundTrip | Door_Locking_System_Code/Control_ECU/MCAL/uart.c:116-155 | a message without '#' or NUL, sent as msg + "#\0" and received up to '#', arrives as exactly msg |

## Left out

- The timer driver (`MCAL/timer.c`) and the PIR sensor (`HAL/PIR.c`) are not part of this model. They are interrupt and GPIO wrappers with no logic to prove.
- Busy waits on TWINT, UDRE and RXC are abstracted to completion, so no timing is modelled. `_delay_ms` is a recorded `Delay` event, not elapsed time.
- Electrical bus behaviour, arbitration and bus errors are left out: the hardware and slave are the `respond` oracle. The device model is always acknowledging and commits a write at once. It has no write-cycle time, no page writes and no sequential reads.
- Header constants (status codes, bit positions, `Character_SIZE_9`, SUCCESS/ERROR) take the ATmega16/32 data sheet values, because the headers are not part of this model.
- Twi.TwiMaster.GetStatus has no contract of its own. It is `Twi.StatusOf` applied to TWSR, and the primitives' postconditions state its value.
- Eeprom.WriteByte, Eeprom.ReadByte, Eeprom.WriteArray, Eeprom.ReadArray: these do not state the final TWCR, TWSR and TWDR. They state the bus trace, the result, TWBR/TWAR and the stored bytes.
- Eeprom.WriteArray, Eeprom.ReadArray: the `uint8` count is a natural number below 256. The array must hold that many elements, since the C code would otherwise access memory outside the array.
- Uart.UartPort.SendString, Uart.UartPort.ReceiveString: the `uint8` index is modelled by requiring the delimiter within the first 256 bytes, and within the buffer. Longer input would wrap the index in C.
- Uart.UartPort.ReceiveString: it requires a '#' in the pending input, because the C function blocks until one arrives.
- Twi.TwiMaster.Init: the `bit_rate` and `address` fields of `TWI_ConfigType` are taken to be 8-bit; a wider `bit_rate` would be truncated by the assignment to TWBR, which this model does not show.
- Uart.UartPort.Init: `F_CPU` is a parameter rather than a build constant. Baud rate and `F_CPU` are 32-bit unsigned, and a zero divisor is excluded, since the C division would be undefined. The field types of `UART_ConfigType` are taken to be 8-bit for the frame settings and 32-bit for the baud rate.
- The UDR data register, the UDRE/RXC/TXC flags and the shared I/O location of UBRRH and UCSRC (selected by URSEL) are not modelled. UBRRH and UCSRC are separate fields here.
- The commented-out alternative loops in `UART_sendByte` and `UART_sendString` are not modelled.

# EEPROM programmer: command loop, byte programming and host request framing

A Raspberry Pi Pico programs a parallel EEPROM. The firmware reads bytes from the host over
USB serial and runs a four-state command machine on them: `WAIT_INSTRUCTION`, `WAIT_ADDR_HIGH`,
`WAIT_ADDR_LOW` and `WAIT_DATA`. `programByte` writes one byte into the chip. It drives 15
address lines and 8 data lines from the bits of the address and the data, then pulses
write-enable (WE) low. The host script `programmer.py` sends a handshake. It then sends three
write requests, each framed as `[0x01, addr_hi, addr_lo, data]`, and checks each reply for ACK
(`0x06`).

The Dafny project has five modules:

- `Bits` (bits.dfy): the `uint8_t` and `uint16_t` ranges, and C's `(x >> i) & 1` and `|` on
  non-negative values. It also proves that reading back the bit levels of `x` on `n` lines gives
  `x % 2^n`.
- `Bus` (bus.dfy): the pin tables, and the class `Board`. A `Board` holds the GPIO output levels
  in an array and the EEPROM cells behind them. `Board.Put` is `gpio_put`. The chip stores
  the byte on its data lines into the cell its address lines select when WE goes back high.
  `ProgramByte` drives the lines in two loops, one `gpio_put` per line, then pulses WE. It is
  proved to leave `data` in cell `addr % 32768` and to change no other cell.
- `Protocol` (protocol.dfy): the loop of `main`. `Next` is one loop iteration, written as a
  function on values (loop variables, cells, bytes sent so far). `Run` applies it over an input
  sequence. The class `Programmer` holds the loop variables, the board and the `putchar` log.
  `Programmer.Step` is proved to do exactly what `Next` does, and `Programmer.Serve` exactly
  what `Run` does. Lemmas state the behaviour of each state and the invariant of the loop.
- `Host` (host.dfy): `int.to_bytes(n, 'big')`, the request frame, `bytes.hex()` and the
  `"06"` reply check. `Serial` is the connection. `WriteByte` is `writeByte` and `RunScript` is
  the body of the script.
- `Link` (link.dfy): the two sides together. A request framed by `writeByte` and fed to the
  firmware writes the byte, gets exactly one ACK, and the script's check accepts that ACK. The
  whole script, run against a firmware waiting for an instruction, leaves the three bytes in cells
  0x7FFD..0x7FFF.

This firmware revision does less than fuller descriptions of the programmer suggest, and the
model follows the code:

- There are no read commands.
- `CMD_CANCEL` (0xFF) is declared but never handled. At `WAIT_INSTRUCTION` it is answered with
  NAK, not ACK.
- `WRITE_STREAM` programs every later byte at the same, never-advanced address, with no buffer,
  no terminator and no reply.
- `WAIT_DATA` calls `programByte` before it looks at the stored instruction. So the defensive
  fallback branch would also program a byte. `ReachableInv` shows that branch is never reached.
- In `writeByte`, the command byte is sent before `addr.to_bytes` can raise. So an out-of-range
  argument leaves a partial request on the line. `OverflowLeavesRequestOpen` states where that
  leaves the firmware.

## Model

| member | source | states |
|---|---|---|
| Bits.Bit | EEPROM_Programmer.c:43-50 | `(x >> i) & 1` is always 0 or 1, the level one line is given |
| Bits.BitShift | EEPROM_Programmer.c:43-50 | `Bit(x, i)` is `(x / 2^i) % 2`: the remainder modulo 2 of `x` shifted right by `i` |
| Bits.Or | EEPROM_Programmer.c:130-141 | `a | b` is at least each operand and at most their sum, so it never carries |
| Bits.ToByte | EEPROM_Programmer.c:141 | assigning to `uint8_t` keeps a value below 256 and otherwise keeps exactly its low 8 bits |
| Bits.ToWord | EEPROM_Programmer.c:130-135 | assigning to `uint16_t` keeps a value below 65536 and otherwise keeps exactly its low 16 bits |
| Bits.LowBits | EEPROM_Programmer.c:130-141 | reduction modulo `2^n` keeps bits `0..n-1` unchanged |
| Bits.BitsValue | EEPROM_Programmer.c:8-9 | the number read from `n` lines is below `2^n`, so 15 address lines can select only 32768 cells |
| Bits.OrBit | EEPROM_Programmer.c:130-135 | `|` is bitwise: bit `i` of `a | b` is set exactly when it is set in `a` or in `b` |
| Bits.OrIntoZeroBits | EEPROM_Programmer.c:129-135 | or-ing a value below `2^k` into a multiple of `2^k` adds the two, which is how the address halves combine |
| Bits.ValueOfBits | EEPROM_Programmer.c:40-51 | reading back the lines set to bits `0..n-1` of `x` gives `x % 2^n`; everything from bit `n` up is lost |
| Bus.PinTables | EEPROM_Programmer.c:83-84 | the 15 address pins and 8 data pins are valid GPIOs, pairwise distinct, disjoint from each other, and disjoint from WE (15) and the LED (25) |
| Bus.TablesDrivable | EEPROM_Programmer.c:83-84 | both pin tables can be driven one line at a time without moving WE or each other's lines |
| Bus.LinesCarry | EEPROM_Programmer.c:40-51 | when the address lines carry the bits of `addr` and the data lines the bits of `data`, the chip sees `addr % 32768` and `data` |
| Bus.Board.constructor | EEPROM_Programmer.c:75-78 | after set-up, WE is high, the EEPROM holds the given contents and no write pulse has happened |
| Bus.Board.Put | EEPROM_Programmer.c:55-57 | `gpio_put` changes one line's level; a WE low-to-high edge stores the data lines' byte at the address lines' cell, and a high-to-low edge counts one write pulse |
| Bus.DriveLines | EEPROM_Programmer.c:40-51 | after the loop, line `pins[i]` carries bit `i` of the value for every `i`, and every other GPIO, the EEPROM and the pulse count are unchanged |
| Bus.ProgramByte | EEPROM_Programmer.c:37-66 | the address lines carry bits 0..14 of `addr` and the data lines the bits of `data`; WE is pulled low exactly once and left high; the only cell that changes is `addr % 32768`, which now holds `data`; the LED and every other undriven line keep their level |
| Protocol.Program | EEPROM_Programmer.c:143 | after `programByte(data, addr)` the cell `addr % 32768` holds `data` and every other cell is as it was |
| Protocol.Next | EEPROM_Programmer.c:106-155 | one iteration answers at most one byte, and that byte is ACK or NAK; only `WAIT_DATA` changes the EEPROM, and only the cell of the stored address |
| Protocol.Run | EEPROM_Programmer.c:106-108 | over any input, bytes already sent are never taken back, and no more bytes are sent than were read |
| Protocol.AcceptWriteCommand | EEPROM_Programmer.c:111-119 | at `WAIT_INSTRUCTION`, 0x01 or 0x02 becomes the instruction and the machine moves to `WAIT_ADDR_HIGH`, answering nothing and changing nothing else |
| Protocol.HandshakeAcks | EEPROM_Programmer.c:120-121 | at `WAIT_INSTRUCTION`, 0xAA is answered with exactly one ACK and changes nothing else |
| Protocol.HandshakesIdempotent | EEPROM_Programmer.c:120-121 | `n` handshakes in a row give exactly `n` ACKs and leave state, instruction, address, data and cells as they were |
| Protocol.UnknownNaks | EEPROM_Programmer.c:123-125 | at `WAIT_INSTRUCTION`, any byte other than 0x01, 0x02 and 0xAA is answered with exactly one NAK and changes nothing else |
| Protocol.CancelNaks | EEPROM_Programmer.c:123-125 | CANCEL (0xFF, declared at line 13) has no handler: at `WAIT_INSTRUCTION` it is answered with NAK like any unknown byte |
| Protocol.AddressBigEndian | EEPROM_Programmer.c:128-137 | from `WAIT_ADDR_HIGH`, bytes `hi` then `lo` leave `addr == hi * 256 + lo` whatever the previous address, and the machine in `WAIT_DATA`, with nothing answered or written |
| Protocol.WriteByteCompletes | EEPROM_Programmer.c:139-148 | under WRITE_BYTE, the data byte is programmed at `addr % 32768`, exactly one ACK is sent and the machine returns to `WAIT_INSTRUCTION` |
| Protocol.StreamKeepsAddress | EEPROM_Programmer.c:139-150 | under WRITE_STREAM, every data byte is programmed at the same address, which is never advanced; nothing is answered and the machine stays in `WAIT_DATA`, so only the last byte of a run remains |
| Protocol.NextKeepsInv | EEPROM_Programmer.c:110-155 | outside `WAIT_INSTRUCTION` the instruction is WRITE_BYTE or WRITE_STREAM, and in `WAIT_ADDR_LOW` the low address byte is clear; one iteration keeps both facts |
| Protocol.ReachableInv | EEPROM_Programmer.c:149-153 | from an invariant-satisfying start, for every input, `WAIT_DATA` always holds WRITE_BYTE or WRITE_STREAM, so the silent fallback is unreachable |
| Protocol.InitialInv | EEPROM_Programmer.c:100-104 | the initial loop variables (instruction 0, `WAIT_INSTRUCTION`) satisfy the invariant |
| Protocol.Programmer.constructor | EEPROM_Programmer.c:100-104 | instruction, address and data start at 0, the state is `WAIT_INSTRUCTION` and nothing has been sent |
| Protocol.Programmer.Step | EEPROM_Programmer.c:108-155 | one iteration on the board changes the loop variables, the EEPROM and the output log exactly as `Next` says, and leaves WE high |
| Protocol.Programmer.Serve | EEPROM_Programmer.c:106-156 | the loop over a sequence of input bytes ends in exactly the configuration `Run` gives |
| Host.BigEndianRoundTrip | programmer.py:9 | the `length` big-endian bytes of `n < 256^length` read back as `n` |
| Host.FromBigEndianRoundTrip | programmer.py:9 | any byte sequence is the big-endian encoding of the number it reads as, so the encoding is unique |
| Host.ToBytes | programmer.py:8-10 | `to_bytes` succeeds exactly when `0 <= n < 256^length`, with exactly `length` bytes that read back as `n`; otherwise it raises OverflowError |
| Host.Frame | programmer.py:7-10 | a request exists exactly when `0 <= addr <= 0xFFFF` and `0 <= data <= 0xFF`, and it is the 4 bytes `[0x01, addr / 256, addr % 256, data]` |
| Host.Hex | programmer.py:11 | `hex()` gives exactly two characters per byte |
| Host.Acknowledged | programmer.py:11 | the check `"06" == reply.hex()` can pass only on a one-byte reply |
| Host.SentBeforeOverflow | programmer.py:8-9 | when `to_bytes` raises, the line already carries the command byte 0x01 and, if only `data` was out of range, also the two address bytes, which read back as `addr` |
| Host.AcknowledgedIffAck | programmer.py:11 | the reply check `"06" == reply.hex()` succeeds if and only if the reply is the single byte 0x06; an empty read fails |
| Host.Serial.Write | programmer.py:8-10 | a write appends its bytes to the line and reads nothing |
| Host.Serial.Read | programmer.py:11 | a read returns the next byte from the device, or nothing when none is waiting |
| Host.WriteByte | programmer.py:7-11 | in range, it sends exactly the request frame, reads one reply and returns whether that reply passes the check; out of range, it raises OverflowError after the command byte (and, for bad data, the address bytes) are already sent, and reads nothing |
| Host.ScriptFrames | programmer.py:17-24 | the script's bytes are the handshake 0xAA followed by the requests for `0xAA@0x7FFD`, `0x55@0x7FFE` and `0x00@0x7FFF`, in that order |
| Host.RunScript | programmer.py:17-25 | the script sends the handshake, then exactly three requests in that order; the loop body runs once; it reads four replies, the first being the handshake reply it returns |
| Link.SharedConstants | programmer.py:3-5 | the script's command bytes equal the firmware's, and its reply check accepts the firmware's ACK and nothing else |
| Link.RunAppend | EEPROM_Programmer.c:106-108 | running the loop over `a + b` is running it over `a`, then over `b` |
| Link.WriteRequestEndToEnd | programmer.py:7-11 | a request framed by `writeByte` and received at `WAIT_INSTRUCTION` writes `data` at `addr % 32768` and nowhere else, sends exactly one ACK, returns to `WAIT_INSTRUCTION`, and the script's check of that reply succeeds |
| Link.OverflowLeavesRequestOpen | programmer.py:8-10 | the partial request sent before OverflowError leaves the firmware waiting for the high address byte (address out of range) or for the data byte (data out of range), having answered and written nothing |
| Link.RequestsCons | programmer.py:7-10 | a run of requests is the first write's four bytes `[0x01, addr / 256, addr % 256, data]` followed by the rest |
| Link.RequestsEndToEnd | programmer.py:7-11 | any run of in-range `writeByte` requests received at `WAIT_INSTRUCTION` programs every write in order, gets exactly one ACK per request, and leaves the firmware at `WAIT_INSTRUCTION` |
| Link.ScriptRequests | programmer.py:17-24 | the script's bytes are the handshake followed by the requests for its three writes, in order |
| Link.ScriptCells | programmer.py:22-24 | programming the script's three writes sets cells 0x7FFD, 0x7FFE and 0x7FFF to 0xAA, 0x55 and 0x00 and nothing else |
| Link.AcksAccepted | programmer.py:11 | `n` ACKs read one at a time are `n` replies the check accepts, with nothing left to read |
| Link.ScriptEndToEnd | programmer.py:17-25 | the whole script, against a firmware waiting for an instruction (as after start-up), leaves 0xAA, 0x55 and 0x00 in cells 0x7FFD, 0x7FFE and 0x7FFF and every other cell unchanged. It sends exactly four ACKs after what was already sent and leaves the firmware at `WAIT_INSTRUCTION`. Read one at a time, those replies give the handshake reply 0x06, then three that pass `writeByte`'s check, with nothing left unread |

## Left out

- `connectionWait` (USB connection polling, LED blinking) is I/O and timing. The model starts once a host is connected.
- GPIO initialisation (`gpio_init`, `gpio_set_dir`) is not modelled. The board starts with every line an output and WE high. The pin directions themselves are not modelled.
- The `sleep_us` and `sleep_ms` delays are wall-clock timing and are left out. This includes the 10 ms write-cycle wait after WRITE_BYTE. The chip's internal write cycle is not modelled either: a cell holds its new value as soon as WE goes back high.
- `Bus.Board.Put`: the real chip latches the address on WE's falling edge and the data on its rising edge. The model latches both on the rising edge. The two are the same here because `programByte` holds every line steady across the pulse.
- `getchar` and `putchar` are an input byte sequence and an append-only output log. USB behaviour and `getchar` returning EOF (truncated to 0xFF) are not modelled.
- `Protocol.Programmer.Serve`: models the `while (1)` loop over a finite prefix of the input stream. The real loop never terminates.
- Serial port configuration, open and close, the 1 s timeout (modelled only as a read that returns nothing when no byte is waiting), `print`, and `KeyboardInterrupt` are host I/O.
- `writeByte` reads from the global `ser` instead of its `conn` parameter. In the script these are the same connection, so `Host.WriteByte` reads from `conn`.
- `Host.RunScript` does not state the three `writeByte` return values, because the script discards them. `Link.ScriptEndToEnd` states them for replies from the firmware.
- Host.WriteByte: Python's default arguments `data = 0x00` and `addr = 0x0000` are not modelled. The script always passes both, so `WriteByte` takes both explicitly.
- `WRITE_BYTE_STREAM` in the script is declared and never sent, so no host-side stream request is modelled.

/** `programmer.py` talking to the firmware: the bytes the script puts on the line, fed to the
    command loop, and the loop's replies as the script judges them. */
module Link {
  import opened Bits
  import opened Bus
  import opened Protocol
  import opened Host

  /** The script and the firmware use the same command bytes, and the script's reply check
      accepts the firmware's ACK and nothing else. */
  lemma SharedConstants()
    ensures WRITE_BYTE == CMD_WRITE_BYTE && WRITE_BYTE_STREAM == CMD_WRITE_STREAM && HANDSHAKE == CMD_HANDSHAKE
    ensures forall reply :: Acknowledged(reply) <==> reply == [ACK]
  {
    forall reply ensures Acknowledged(reply) <==> reply == [ACK] {
      AcknowledgedIffAck(reply);
    }
  }

  lemma {:induction false} RunAppend(c: Config, a: seq<Byte>, b: seq<Byte>)
    requires Wellformed(c)
    ensures Run(c, a + b) == Run(Run(c, a), b)
    decreases |a|
  {
    if a == [] {
      assert a + b == b;
    } else {
      assert (a + b)[0] == a[0] && (a + b)[1..] == a[1..] + b;
      RunAppend(Next(c, a[0]), a[1..], b);
    }
  }

  /** A request framed by `writeByte` and received while the firmware waits for an instruction:
      `data` lands in cell `addr % 32768` and nowhere else, exactly one ACK is sent, the firmware
      waits for the next instruction, and the script's check of that reply succeeds. */
  lemma WriteRequestEndToEnd(c: Config, data: Byte, addr: Word)
    requires Wellformed(c) && c.machine.state == WaitInstruction
    ensures Frame(data, addr).Ok?
    ensures Run(c, Frame(data, addr).value)
         == Config(Machine(WaitInstruction, CMD_WRITE_BYTE, addr, data), c.cells[addr % EEPROM_SIZE := data], c.out + [ACK])
    ensures Acknowledged(Run(c, Frame(data, addr).value).out[|c.out|..])
  {
    var hi, lo := addr / 256, addr % 256;
    var frame := Frame(data, addr).value;
    var c1 := Next(c, CMD_WRITE_BYTE);
    assert frame == [CMD_WRITE_BYTE] + ([hi, lo] + [data]);
    RunAppend(c, [CMD_WRITE_BYTE], [hi, lo] + [data]);
    RunAppend(c1, [hi, lo], [data]);
    AddressBigEndian(c1, hi, lo);
    var c2 := Run(c1, [hi, lo]);
    WriteByteCompletes(c2, data);
    assert Run(c2, [data]) == Next(c2, data);
    AcknowledgedIffAck([ACK]);
    assert (c.out + [ACK])[|c.out|..] == [ACK];
  }

  /** When `to_bytes` raises, the bytes already sent leave the firmware in the middle of a request:
      waiting for the high address byte (address out of range) or for the data byte (data out of
      range), having answered nothing. */
  lemma OverflowLeavesRequestOpen(c: Config, data: int, addr: int)
    requires Wellformed(c) && c.machine.state == WaitInstruction
    requires Frame(data, addr).Err?
    ensures var r := Run(c, SentBeforeOverflow(data, addr));
            r.out == c.out && r.cells == c.cells &&
            r.machine.state == (if 0 <= addr < 65536 then WaitData else WaitAddrHigh)
  {
    var c1 := Next(c, CMD_WRITE_BYTE);
    if 0 <= addr < 65536 {
      var hi, lo := addr / 256, addr % 256;
      assert BigEndian(addr, 2) == BigEndian(hi, 1) + [lo] == [hi % 256, lo];
      RunAppend(c, [CMD_WRITE_BYTE], [hi, lo]);
      AddressBigEndian(c1, hi, lo);
    } else {
      assert Run(c, [CMD_WRITE_BYTE]) == Run(c1, []);
    }
  }

  /** One `writeByte(conn, data, addr)` call with arguments in range. */
  datatype Write = Write(data: Byte, addr: Word)

  /** The bytes a sequence of in-range `writeByte` calls puts on the line, one request after another. */
  function Requests(writes: seq<Write>): seq<Byte>
  {
    if writes == [] then []
    else
      var w := writes[0];
      assert Frame(w.data, w.addr).Ok?;
      Frame(w.data, w.addr).value + Requests(writes[1..])
  }

  /** The cells after programming each write in turn. */
  function Applied(cells: seq<Byte>, writes: seq<Write>): seq<Byte>
    requires |cells| == EEPROM_SIZE
    decreases |writes|
  {
    if writes == [] then cells
    else Applied(cells[writes[0].addr % EEPROM_SIZE := writes[0].data], writes[1..])
  }

  /** Any run of requests received while the firmware waits for an instruction: every write is
      programmed in order, each request gets exactly one ACK, and the firmware ends up waiting for
      the next instruction. */
  lemma {:induction false} RequestsEndToEnd(c: Config, writes: seq<Write>)
    requires Wellformed(c) && c.machine.state == WaitInstruction
    ensures var r := Run(c, Requests(writes));
            r.machine.state == WaitInstruction &&
            r.cells == Applied(c.cells, writes) &&
            r.out == c.out + Repeat(ACK, |writes|)
    decreases |writes|
  {
    if writes != [] {
      var w := writes[0];
      var frame := Frame(w.data, w.addr).value;
      RunAppend(c, frame, Requests(writes[1..]));
      WriteRequestEndToEnd(c, w.data, w.addr);
      var c1 := Run(c, frame);
      RequestsEndToEnd(c1, writes[1..]);
      assert c1.out + Repeat(ACK, |writes| - 1) == c.out + Repeat(ACK, |writes|);
    }
  }

  /** The writes the script makes, in order. */
  const SCRIPT_WRITES: seq<Write> := [Write(0xAA, 0x7FFD), Write(0x55, 0x7FFE), Write(0x00, 0x7FFF)]

  /** A run of requests is the first write's four-byte request followed by the rest. */
  lemma RequestsCons(w: Write, writes: seq<Write>)
    ensures Requests([w] + writes) == [WRITE_BYTE, w.addr / 256, w.addr % 256, w.data] + Requests(writes)
  {
    assert ([w] + writes)[0] == w && ([w] + writes)[1..] == writes;
  }

  /** The script's bytes are the handshake followed by the requests for `SCRIPT_WRITES`. */
  lemma ScriptRequests()
    ensures SCRIPT_BYTES == [CMD_HANDSHAKE] + Requests(SCRIPT_WRITES)
  {
    var w1, w2, w3 := SCRIPT_WRITES[0], SCRIPT_WRITES[1], SCRIPT_WRITES[2];
    assert SCRIPT_WRITES == [w1] + ([w2] + ([w3] + []));
    RequestsCons(w3, []);
    RequestsCons(w2, [w3] + []);
    RequestsCons(w1, [w2] + ([w3] + []));
  }

  /** Programming the script's writes sets exactly the three top cells. */
  lemma ScriptCells(cells: seq<Byte>)
    requires |cells| == EEPROM_SIZE
    ensures Applied(cells, SCRIPT_WRITES) == cells[0x7FFD := 0xAA][0x7FFE := 0x55][0x7FFF := 0x00]
  {
    var w1, w2, w3 := SCRIPT_WRITES[0], SCRIPT_WRITES[1], SCRIPT_WRITES[2];
    assert SCRIPT_WRITES[1..] == [w2, w3] && [w2, w3][1..] == [w3] && [w3][1..] == [];
  }

  /** Read one at a time, `n` ACKs are `n` replies the script's check accepts, and nothing is left
      to read after them. */
  lemma AcksAccepted(n: nat)
    ensures forall k :: 0 <= k < n ==> NextReply(AfterReads(Repeat(ACK, n), k)) == [ACK]
    ensures forall k :: 0 <= k < n ==> Acknowledged(NextReply(AfterReads(Repeat(ACK, n), k)))
    ensures AfterReads(Repeat(ACK, n), n) == []
  {
    AcknowledgedIffAck([ACK]);
    forall k | 0 <= k < n ensures NextReply(AfterReads(Repeat(ACK, n), k)) == [ACK] {
      assert AfterReads(Repeat(ACK, n), k)[..1] == [ACK];
    }
  }

  /** The whole script against a firmware waiting for an instruction (as it does after start-up):
      the handshake and the three writes leave 0xAA, 0x55 and 0x00 in cells 0x7FFD, 0x7FFE and
      0x7FFF, every other cell as it was, and the firmware waiting for an instruction. Exactly four
      ACKs are sent, one per byte the script reads. Read one at a time, as the script does, the
      first gives the handshake reply 0x06, the other three pass `writeByte`'s check, and nothing
      is left unread. */
  lemma ScriptEndToEnd(c0: Config)
    requires Wellformed(c0) && c0.machine.state == WaitInstruction
    ensures var r := Run(c0, SCRIPT_BYTES);
            r.machine.state == WaitInstruction &&
            r.cells == c0.cells[0x7FFD := 0xAA][0x7FFE := 0x55][0x7FFF := 0x00] &&
            r.out == c0.out + [ACK, ACK, ACK, ACK]
    ensures var replies := Run(c0, SCRIPT_BYTES).out[|c0.out|..];
            NextReply(replies) == [ACK] &&
            (forall k :: 1 <= k <= 3 ==> Acknowledged(NextReply(AfterReads(replies, k)))) &&
            AfterReads(replies, 4) == []
  {
    ScriptRequests();
    ScriptCells(c0.cells);
    RunAppend(c0, [CMD_HANDSHAKE], Requests(SCRIPT_WRITES));
    HandshakeAcks(c0);
    var c1 := Run(c0, [CMD_HANDSHAKE]);
    assert c1 == Next(c0, CMD_HANDSHAKE);
    RequestsEndToEnd(c1, SCRIPT_WRITES);
    var replies := Repeat(ACK, 4);
    assert replies == [ACK, ACK, ACK, ACK];
    assert c1.out + Repeat(ACK, 3) == c0.out + replies;
    assert (c0.out + replies)[|c0.out|..] == replies;
    AcksAccepted(4);
  }
}

/** The firmware's command loop (`main`): each byte read from the host moves a four-state machine,
    may program one EEPROM cell, and may answer with one byte. `Next` is one iteration of the loop
    as a function on values; `Programmer.Step` is the same iteration on the board's state, proved
    against `Next`. */
module Protocol {
  import opened Bits
  import opened Bus

  const CMD_WRITE_BYTE: Byte := 0x01
  const CMD_WRITE_STREAM: Byte := 0x02
  /** Declared by the firmware but never acted on: at `WaitInstruction` it is answered like any
      other unknown byte, elsewhere it is address or data. */
  const CMD_CANCEL: Byte := 0xFF
  const CMD_HANDSHAKE: Byte := 0xAA

  const ACK: Byte := 0x06
  const NAK: Byte := 0x15

  datatype State = WaitInstruction | WaitAddrHigh | WaitAddrLow | WaitData

  /** The loop variables of `main`. */
  datatype Machine = Machine(state: State, instruction: Byte, addr: Word, data: Byte)

  /** The loop variables, the EEPROM's cells, and every byte sent with `putchar` so far. */
  datatype Config = Config(machine: Machine, cells: seq<Byte>, out: seq<Byte>)

  /** The loop variables as `main` initialises them; instruction 0 means none. */
  const INITIAL: Machine := Machine(WaitInstruction, 0, 0, 0)

  predicate Wellformed(c: Config)
  {
    |c.cells| == EEPROM_SIZE
  }

  /** The cells after `programByte(data, addr)`: the cell the 15 address lines select holds `data`,
      and every other cell is as it was. */
  function Program(cells: seq<Byte>, addr: Word, data: Byte): (r: seq<Byte>)
    requires |cells| == EEPROM_SIZE
    ensures |r| == EEPROM_SIZE && r[addr % EEPROM_SIZE] == data
    ensures forall i :: 0 <= i < EEPROM_SIZE && i != addr % EEPROM_SIZE ==> r[i] == cells[i]
  {
    cells[addr % EEPROM_SIZE := data]
  }

  /** One iteration of the `while (1)` loop on input byte `b`. At most one byte is answered, and
      only `WaitData` touches the EEPROM, at the cell the stored address selects. */
  function Next(c: Config, b: Byte): (r: Config)
    requires Wellformed(c)
    ensures Wellformed(r)
    ensures r.out in {c.out, c.out + [ACK], c.out + [NAK]}
    ensures r.cells == c.cells || (c.machine.state == WaitData && r.cells == c.cells[c.machine.addr % EEPROM_SIZE := b])
  {
    var m := c.machine;
    match m.state
    case WaitInstruction =>
      if b == CMD_WRITE_BYTE then c.(machine := m.(instruction := CMD_WRITE_BYTE, state := WaitAddrHigh))
      else if b == CMD_WRITE_STREAM then c.(machine := m.(instruction := CMD_WRITE_STREAM, state := WaitAddrHigh))
      else if b == CMD_HANDSHAKE then c.(out := c.out + [ACK])
      else c.(out := c.out + [NAK])
    case WaitAddrHigh =>
      // addr = 0; addr = addr | byte << 8;
      c.(machine := m.(addr := ToWord(Or(0, b * 256)), state := WaitAddrLow))
    case WaitAddrLow =>
      // addr = addr | byte;
      c.(machine := m.(addr := ToWord(Or(m.addr, b)), state := WaitData))
    case WaitData =>
      // data = 0; data = data | byte; programByte(data, addr, ...);
      var m1 := m.(data := ToByte(Or(0, b)));
      var cells := Program(c.cells, m1.addr, m1.data);
      if m.instruction == CMD_WRITE_BYTE then Config(m1.(state := WaitInstruction), cells, c.out + [ACK])
      else if m.instruction == CMD_WRITE_STREAM then Config(m1.(state := WaitData), cells, c.out)
      else Config(m1.(state := WaitInstruction), cells, c.out)
  }

  /** The loop run over a finite prefix of the input stream. What has been sent is never taken
      back, and no input byte is answered with more than one byte. */
  function Run(c: Config, input: seq<Byte>): (r: Config)
    requires Wellformed(c)
    ensures Wellformed(r)
    ensures |c.out| <= |r.out| <= |c.out| + |input| && r.out[..|c.out|] == c.out
    decreases |input|
  {
    if input == [] then c else Run(Next(c, input[0]), input[1..])
  }

  function Repeat(b: Byte, n: nat): (s: seq<Byte>)
    ensures |s| == n && forall i :: 0 <= i < n ==> s[i] == b
  {
    seq(n, _ => b)
  }

  /** What the loop keeps true: past `WaitInstruction` the stored instruction is one the machine
      accepted, and a high address byte leaves the low byte clear. */
  predicate Inv(m: Machine)
  {
    (m.state != WaitInstruction ==> m.instruction == CMD_WRITE_BYTE || m.instruction == CMD_WRITE_STREAM) &&
    (m.state == WaitAddrLow ==> m.addr % 256 == 0)
  }

  // ---------------------------------------------------------------------------------------------
  // WaitInstruction

  /** A write command is remembered and the machine waits for the address; nothing is answered. */
  lemma AcceptWriteCommand(c: Config, b: Byte)
    requires Wellformed(c) && c.machine.state == WaitInstruction
    requires b == CMD_WRITE_BYTE || b == CMD_WRITE_STREAM
    ensures Next(c, b) == c.(machine := c.machine.(instruction := b, state := WaitAddrHigh))
  {
  }

  /** A handshake is answered with exactly one ACK and changes nothing else. */
  lemma HandshakeAcks(c: Config)
    requires Wellformed(c) && c.machine.state == WaitInstruction
    ensures Next(c, CMD_HANDSHAKE) == c.(out := c.out + [ACK])
  {
  }

  /** Any number of handshakes in a row: one ACK each, and state, instruction, address, data and
      cells as they were. */
  lemma {:induction false} HandshakesIdempotent(c: Config, n: nat)
    requires Wellformed(c) && c.machine.state == WaitInstruction
    ensures Run(c, Repeat(CMD_HANDSHAKE, n)) == c.(out := c.out + Repeat(ACK, n))
    decreases n
  {
    if n > 0 {
      var c1 := c.(out := c.out + [ACK]);
      assert Repeat(CMD_HANDSHAKE, n)[1..] == Repeat(CMD_HANDSHAKE, n - 1);
      HandshakesIdempotent(c1, n - 1);
      assert c1.out + Repeat(ACK, n - 1) == c.out + Repeat(ACK, n);
    }
  }

  /** Every other byte is answered with exactly one NAK and changes nothing else. */
  lemma UnknownNaks(c: Config, b: Byte)
    requires Wellformed(c) && c.machine.state == WaitInstruction
    requires b != CMD_WRITE_BYTE && b != CMD_WRITE_STREAM && b != CMD_HANDSHAKE
    ensures Next(c, b) == c.(out := c.out + [NAK])
  {
  }

  /** CANCEL has no handler: it is answered with NAK. */
  lemma CancelNaks(c: Config)
    requires Wellformed(c) && c.machine.state == WaitInstruction
    ensures Next(c, CMD_CANCEL) == c.(out := c.out + [NAK])
  {
    UnknownNaks(c, CMD_CANCEL);
  }

  // ---------------------------------------------------------------------------------------------
  // WaitAddrHigh, WaitAddrLow

  /** The two address bytes form `hi * 256 + lo`, high byte first, whatever address was stored
      before; the machine then waits for data, and nothing is answered or written. */
  lemma AddressBigEndian(c: Config, hi: Byte, lo: Byte)
    requires Wellformed(c) && c.machine.state == WaitAddrHigh
    ensures Run(c, [hi, lo]) == c.(machine := c.machine.(addr := hi * 256 + lo, state := WaitData))
  {
    var c1 := Next(c, hi);
    assert c1.machine.addr == hi * 256;
    assert Pow2(8) == 256;
    OrIntoZeroBits(hi, lo, 8);
    assert Run(c, [hi, lo]) == Run(Next(c1, lo), []);
  }

  // ---------------------------------------------------------------------------------------------
  // WaitData

  /** Under WRITE_BYTE the data byte is programmed at the stored address, one ACK is sent, and the
      machine waits for the next instruction. */
  lemma WriteByteCompletes(c: Config, d: Byte)
    requires Wellformed(c) && c.machine.state == WaitData && c.machine.instruction == CMD_WRITE_BYTE
    ensures Next(c, d) == Config(c.machine.(data := d, state := WaitInstruction),
                                 c.cells[c.machine.addr % EEPROM_SIZE := d], c.out + [ACK])
  {
  }

  /** Under WRITE_STREAM every data byte goes to the same cell: the address is never advanced,
      nothing is answered and the machine stays in `WaitData`, so after a run of data bytes only
      the last one is in the EEPROM. */
  lemma {:induction false} StreamKeepsAddress(c: Config, ds: seq<Byte>)
    requires Wellformed(c) && c.machine.state == WaitData && c.machine.instruction == CMD_WRITE_STREAM
    requires ds != []
    ensures Run(c, ds) == Config(c.machine.(data := ds[|ds| - 1]),
                                 c.cells[c.machine.addr % EEPROM_SIZE := ds[|ds| - 1]], c.out)
    decreases |ds|
  {
    var c1 := Next(c, ds[0]);
    if |ds| > 1 {
      StreamKeepsAddress(c1, ds[1..]);
      assert c1.cells[c.machine.addr % EEPROM_SIZE := ds[|ds| - 1]]
          == c.cells[c.machine.addr % EEPROM_SIZE := ds[|ds| - 1]];
    }
  }

  // ---------------------------------------------------------------------------------------------
  // The invariant

  lemma NextKeepsInv(c: Config, b: Byte)
    requires Wellformed(c) && Inv(c.machine)
    ensures Inv(Next(c, b).machine)
  {
  }

  /** From the initial loop variables, whatever the input, the loop never stores an instruction
      other than WRITE_BYTE or WRITE_STREAM outside `WaitInstruction`, so the silent fallback of
      `WaitData` is never taken. */
  lemma {:induction false} ReachableInv(c: Config, input: seq<Byte>)
    requires Wellformed(c) && Inv(c.machine)
    ensures Inv(Run(c, input).machine)
    ensures var m := Run(c, input).machine;
            m.state == WaitData ==> m.instruction == CMD_WRITE_BYTE || m.instruction == CMD_WRITE_STREAM
    decreases |input|
  {
    if input != [] {
      NextKeepsInv(c, input[0]);
      ReachableInv(Next(c, input[0]), input[1..]);
    }
  }

  lemma InitialInv()
    ensures Inv(INITIAL)
  {
  }

  // ---------------------------------------------------------------------------------------------
  // The firmware's state

  /** `main`'s loop variables, the board they drive, and the bytes sent to the host. */
  class Programmer {
    var state: State
    var instruction: Byte
    var addr: Word
    var data: Byte
    /** Every byte passed to `putchar`, in order. */
    var out: seq<Byte>
    const board: Board

    ghost predicate Valid()
      reads this, board, board.level
    {
      board.Valid() && board.level[WE]
    }

    function View(): (c: Config)
      reads this, board
    {
      Config(Machine(state, instruction, addr, data), board.cells, out)
    }

    /** `main` from line 100: the loop variables start at zero, waiting for an instruction, on a
        board whose lines are set up with WE high. */
    constructor (board: Board)
      requires board.Valid() && board.level[WE]
      ensures Valid() && this.board == board
      ensures View() == Config(INITIAL, board.cells, [])
    {
      this.board := board;
      instruction := 0;
      addr := 0;
      data := 0;
      state := WaitInstruction;
      out := [];
    }

    /** One iteration of the loop on the byte `getchar` returned. */
    method Step(b: Byte)
      requires Valid()
      modifies this, board, board.level
      ensures Valid() && board.level == old(board.level)
      ensures View() == Next(old(View()), b)
    {
      match state
      case WaitInstruction =>
        if b == CMD_WRITE_BYTE {
          instruction := CMD_WRITE_BYTE;
          state := WaitAddrHigh;
        } else if b == CMD_WRITE_STREAM {
          instruction := CMD_WRITE_STREAM;
          state := WaitAddrHigh;
        } else if b == CMD_HANDSHAKE {
          out := out + [ACK];
        } else {
          out := out + [NAK];
        }
      case WaitAddrHigh =>
        addr := 0;
        addr := ToWord(Or(addr, b * 256));
        state := WaitAddrLow;
      case WaitAddrLow =>
        addr := ToWord(Or(addr, b));
        state := WaitData;
      case WaitData =>
        data := 0;
        data := ToByte(Or(data, b));
        ProgramByte(board, data, addr);
        if instruction == CMD_WRITE_BYTE {
          // The 10 ms write-cycle wait is not modelled.
          out := out + [ACK];
          state := WaitInstruction;
        } else if instruction == CMD_WRITE_STREAM {
          state := WaitData;
        } else {
          state := WaitInstruction;
        }
    }

    /** The `while (1)` loop over the bytes of `input`, in order. */
    method Serve(input: seq<Byte>)
      requires Valid()
      modifies this, board, board.level
      ensures Valid() && board.level == old(board.level)
      ensures View() == Run(old(View()), input)
    {
      for i := 0 to |input|
        invariant Valid() && board.level == old(board.level)
        invariant Run(View(), input[i..]) == Run(old(View()), input)
      {
        assert input[i..][1..] == input[i + 1..];
        Step(input[i]);
      }
    }
  }
}

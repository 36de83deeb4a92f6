/** The host script `programmer.py`: it frames single-byte write requests for the programmer,
    checks the one-byte reply, and runs a fixed sequence of writes after a handshake. */
module Host {
  import opened Bits

  const WRITE_BYTE: int := 0x01
  /** Declared by the script, never sent. */
  const WRITE_BYTE_STREAM: int := 0x02
  const HANDSHAKE: int := 0xAA

  datatype Error = OverflowError

  datatype Result<T> = Ok(value: T) | Err(error: Error)

  function Pow256(n: nat): (r: nat)
    ensures r >= 1
  {
    if n == 0 then 1 else 256 * Pow256(n - 1)
  }

  /** The `length` base-256 digits of `n`, most significant first. */
  function BigEndian(n: nat, length: nat): (bs: seq<Byte>)
    ensures |bs| == length
  {
    if length == 0 then [] else BigEndian(n / 256, length - 1) + [n % 256]
  }

  /** The number whose base-256 digits, most significant first, are `bs`. */
  function FromBigEndian(bs: seq<Byte>): (n: nat)
    ensures n < Pow256(|bs|)
  {
    if bs == [] then 0
    else
      var high := FromBigEndian(bs[..|bs| - 1]);
      assert high * 256 + bs[|bs| - 1] <= (Pow256(|bs| - 1) - 1) * 256 + 255;
      high * 256 + bs[|bs| - 1]
  }

  lemma {:induction false} BigEndianRoundTrip(n: nat, length: nat)
    requires n < Pow256(length)
    ensures FromBigEndian(BigEndian(n, length)) == n
  {
    if length > 0 {
      var bs := BigEndian(n, length);
      assert bs[..length - 1] == BigEndian(n / 256, length - 1);
      BigEndianRoundTrip(n / 256, length - 1);
    }
  }

  lemma {:induction false} FromBigEndianRoundTrip(bs: seq<Byte>)
    ensures BigEndian(FromBigEndian(bs), |bs|) == bs
  {
    if bs != [] {
      var k := |bs| - 1;
      var n := FromBigEndian(bs);
      assert n / 256 == FromBigEndian(bs[..k]) && n % 256 == bs[k];
      FromBigEndianRoundTrip(bs[..k]);
      assert bs == bs[..k] + [bs[k]];
    }
  }

  /** `n.to_bytes(length, 'big')`: raises OverflowError unless `0 <= n < 256^length`; otherwise the
      unique `length` bytes that read back, most significant first, as `n`. */
  function ToBytes(n: int, length: nat): (r: Result<seq<Byte>>)
    ensures r.Ok? <==> 0 <= n < Pow256(length)
    ensures r.Ok? ==> |r.value| == length && FromBigEndian(r.value) == n
  {
    if 0 <= n < Pow256(length) then
      BigEndianRoundTrip(n, length);
      Ok(BigEndian(n, length))
    else
      Err(OverflowError)
  }

  /** The request `writeByte(conn, data, addr)` sends: the command byte, the address in two
      bytes high byte first, then the data byte. Out-of-range arguments produce no request. */
  function Frame(data: int, addr: int): (r: Result<seq<Byte>>)
    ensures r.Ok? <==> 0 <= addr < 65536 && 0 <= data < 256
    ensures r.Ok? ==> r.value == [WRITE_BYTE, addr / 256, addr % 256, data]
  {
    var command := ToBytes(WRITE_BYTE, 1);
    var address := ToBytes(addr, 2);
    var datum := ToBytes(data, 1);
    if address.Err? then address
    else if datum.Err? then datum
    else
      assert address.value == BigEndian(addr / 256, 1) + [addr % 256] == [addr / 256 % 256, addr % 256];
      assert command.value == [WRITE_BYTE] && datum.value == [data];
      Ok(command.value + address.value + datum.value)
  }

  /** What `writeByte` has already sent when a conversion raises: the command byte, and the
      address bytes too when only `data` is out of range. */
  function SentBeforeOverflow(data: int, addr: int): (s: seq<Byte>)
    ensures |s| == (if 0 <= addr < 65536 then 3 else 1) && s[0] == WRITE_BYTE
    ensures 0 <= addr < 65536 ==> FromBigEndian(s[1..]) == addr
  {
    if 0 <= addr < 65536 then
      BigEndianRoundTrip(addr, 2);
      assert ([WRITE_BYTE] + BigEndian(addr, 2))[1..] == BigEndian(addr, 2);
      [WRITE_BYTE] + BigEndian(addr, 2)
    else [WRITE_BYTE]
  }

  function HexDigit(d: nat): char
    requires d < 16
  {
    if d < 10 then ('0' as int + d) as char else ('a' as int + d - 10) as char
  }

  /** `bs.hex()`: two lower-case hexadecimal digits per byte. */
  function Hex(bs: seq<Byte>): (s: string)
    ensures |s| == 2 * |bs|
  {
    if bs == [] then "" else [HexDigit(bs[0] / 16), HexDigit(bs[0] % 16)] + Hex(bs[1..])
  }

  /** The reply check of `writeByte`: `"06" == reply.hex()`. */
  predicate Acknowledged(reply: seq<Byte>)
    ensures Acknowledged(reply) ==> |reply| == 1
  {
    "06" == Hex(reply)
  }

  /** The check accepts exactly the single byte 0x06, the programmer's ACK; an empty read (a
      timeout) or any other byte is a failure. */
  lemma AcknowledgedIffAck(reply: seq<Byte>)
    ensures Acknowledged(reply) <==> reply == [0x06]
  {
    if Acknowledged(reply) {
      assert |reply| == 1;
      var b := reply[0];
      assert Hex(reply) == [HexDigit(b / 16), HexDigit(b % 16)];
      assert HexDigit(b / 16) == '0' && HexDigit(b % 16) == '6';
    }
    if reply == [0x06] {
      assert Hex(reply) == [HexDigit(0), HexDigit(6)] + Hex([]);
    }
  }

  /** What `read()` returns: the next byte from the device, or nothing on a timeout. */
  function NextReply(pending: seq<Byte>): seq<Byte>
  {
    if pending == [] then [] else pending[..1]
  }

  function AfterReads(pending: seq<Byte>, k: nat): seq<Byte>
  {
    if k <= |pending| then pending[k..] else []
  }

  /** Reading once more after `k` reads. */
  lemma AfterReadsStep(pending: seq<Byte>, k: nat)
    ensures AfterReads(AfterReads(pending, k), 1) == AfterReads(pending, k + 1)
  {
  }

  /** The serial connection seen from the host: every byte written so far, and the bytes the
      device has sent that have not been read yet. */
  class Serial {
    var sent: seq<Byte>
    var pending: seq<Byte>

    constructor (replies: seq<Byte>)
      ensures sent == [] && pending == replies
    {
      sent := [];
      pending := replies;
    }

    /** `write(bs)` */
    method Write(bs: seq<Byte>)
      modifies this
      ensures sent == old(sent) + bs && pending == old(pending)
    {
      sent := sent + bs;
    }

    /** `read()`, one byte at most. */
    method Read() returns (r: seq<Byte>)
      modifies this
      ensures r == NextReply(old(pending)) && pending == AfterReads(old(pending), 1)
      ensures sent == old(sent)
    {
      if pending == [] {
        r := [];
      } else {
        r := pending[..1];
        pending := pending[1..];
      }
    }
  }

  /** `writeByte(conn, data, addr)`: three writes, then one read. An out-of-range argument raises
      OverflowError after the bytes before it are already on the line, and nothing is read. */
  method WriteByte(conn: Serial, data: int, addr: int) returns (r: Result<bool>)
    modifies conn
    ensures r.Ok? <==> Frame(data, addr).Ok?
    ensures r.Ok? ==> (conn.sent == old(conn.sent) + Frame(data, addr).value &&
                       conn.pending == AfterReads(old(conn.pending), 1) &&
                       r.value == Acknowledged(NextReply(old(conn.pending))))
    ensures r.Err? ==> (conn.sent == old(conn.sent) + SentBeforeOverflow(data, addr) &&
                        conn.pending == old(conn.pending))
  {
    var command := ToBytes(WRITE_BYTE, 1);
    conn.Write(command.value);
    var address := ToBytes(addr, 2);
    if address.Err? {
      return Err(address.error);
    }
    conn.Write(address.value);
    var datum := ToBytes(data, 1);
    if datum.Err? {
      return Err(datum.error);
    }
    conn.Write(datum.value);
    var reply := conn.Read();
    r := Ok(Acknowledged(reply));
  }

  /** Everything the script sends: the handshake, then one request per write, in order. */
  const SCRIPT_BYTES: seq<Byte> :=
    [HANDSHAKE] + [WRITE_BYTE, 0x7F, 0xFD, 0xAA] + [WRITE_BYTE, 0x7F, 0xFE, 0x55] + [WRITE_BYTE, 0x7F, 0xFF, 0x00]

  /** `SCRIPT_BYTES` is the handshake followed by the three requests `writeByte` frames. */
  lemma ScriptFrames()
    ensures Frame(0xAA, 0x7FFD).Ok? && Frame(0x55, 0x7FFE).Ok? && Frame(0x00, 0x7FFF).Ok?
    ensures SCRIPT_BYTES == [HANDSHAKE] + Frame(0xAA, 0x7FFD).value + Frame(0x55, 0x7FFE).value + Frame(0x00, 0x7FFF).value
  {
  }

  /** The script body after the port is open: the handshake and its reply, then the loop, whose
      body runs once because it clears its own flag. Returns the handshake reply it prints. */
  method RunScript(conn: Serial) returns (handshakeReply: seq<Byte>)
    modifies conn
    ensures conn.sent == old(conn.sent) + [HANDSHAKE] + Frame(0xAA, 0x7FFD).value + Frame(0x55, 0x7FFE).value + Frame(0x00, 0x7FFF).value
    ensures handshakeReply == NextReply(old(conn.pending))
    ensures conn.pending == AfterReads(old(conn.pending), 4)
  {
    var hs := ToBytes(HANDSHAKE, 1);
    conn.Write(hs.value);
    handshakeReply := conn.Read();
    var loop := true;
    while loop
      invariant loop ==> conn.sent == old(conn.sent) + [HANDSHAKE] && conn.pending == AfterReads(old(conn.pending), 1)
      invariant !loop ==> conn.sent == old(conn.sent) + [HANDSHAKE] + Frame(0xAA, 0x7FFD).value + Frame(0x55, 0x7FFE).value + Frame(0x00, 0x7FFF).value
      invariant !loop ==> conn.pending == AfterReads(old(conn.pending), 4)
      decreases loop
    {
      var ok1 := WriteByte(conn, 0xAA, 0x7FFD);
      var ok2 := WriteByte(conn, 0x55, 0x7FFE);
      var ok3 := WriteByte(conn, 0x00, 0x7FFF);
      AfterReadsStep(old(conn.pending), 1);
      AfterReadsStep(old(conn.pending), 2);
      AfterReadsStep(old(conn.pending), 3);
      loop := false;
    }
  }
}

/** The programmer board: the RP2040's GPIO outputs and the parallel EEPROM wired to them,
    and `programByte`, which writes one byte by driving the lines and pulsing write-enable. */
module Bus {
  import opened Bits

  const LED_PIN: nat := 25
  /** Write-enable, active low: idle high, pulled low to write. */
  const WE: nat := 15

  const ADDR_PIN_COUNT: nat := 15
  const DATA_PIN_COUNT: nat := 8

  /** GPIO0 to GPIO29. */
  const GPIO_COUNT: nat := 30

  /** The cells 15 address lines can select. */
  const EEPROM_SIZE: nat := 32768

  /** `ADDR_PINS[i]` carries address bit `i`. */
  const ADDR_PINS: seq<nat> := [28, 27, 26, 22, 21, 20, 19, 18, 3, 2, 0, 1, 17, 4, 16]

  /** `DATA_PINS[i]` carries data bit `i`. */
  const DATA_PINS: seq<nat> := [14, 13, 12, 11, 10, 9, 8, 7]

  /** Every line the firmware drives, address lines first, then data lines, WE and the LED. */
  const DRIVEN_PINS: seq<nat> := ADDR_PINS + DATA_PINS + [WE, LED_PIN]

  predicate Distinct(s: seq<nat>)
  {
    forall i, j :: 0 <= i < j < |s| ==> s[i] != s[j]
  }

  /** The position of a GPIO in `DRIVEN_PINS`; -1 for a GPIO the firmware does not drive. */
  function DrivenIndex(p: nat): int
  {
    match p
    case 28 => 0  case 27 => 1  case 26 => 2  case 22 => 3  case 21 => 4
    case 20 => 5  case 19 => 6  case 18 => 7  case 3 => 8   case 2 => 9
    case 0 => 10  case 1 => 11  case 17 => 12 case 4 => 13  case 16 => 14
    case 14 => 15 case 13 => 16 case 12 => 17 case 11 => 18 case 10 => 19
    case 9 => 20  case 8 => 21  case 7 => 22  case 15 => 23 case 25 => 24
    case _ => -1
  }

  /** The pin tables are usable: no line appears twice, the address and data lines are disjoint,
      and neither table contains WE or the LED, so driving one line never moves another. */
  lemma PinTables()
    ensures |ADDR_PINS| == ADDR_PIN_COUNT && |DATA_PINS| == DATA_PIN_COUNT
    ensures forall i :: 0 <= i < |DRIVEN_PINS| ==> DRIVEN_PINS[i] < GPIO_COUNT
    ensures Distinct(DRIVEN_PINS)
    ensures forall i, j :: 0 <= i < j < ADDR_PIN_COUNT ==> ADDR_PINS[i] != ADDR_PINS[j]
    ensures forall i, j :: 0 <= i < j < DATA_PIN_COUNT ==> DATA_PINS[i] != DATA_PINS[j]
    ensures forall i, j :: 0 <= i < ADDR_PIN_COUNT && 0 <= j < DATA_PIN_COUNT ==> ADDR_PINS[i] != DATA_PINS[j]
    ensures WE !in ADDR_PINS && WE !in DATA_PINS && LED_PIN !in ADDR_PINS && LED_PIN !in DATA_PINS
  {
    forall i | 0 <= i < |DRIVEN_PINS|
      ensures DRIVEN_PINS[i] < GPIO_COUNT && DrivenIndex(DRIVEN_PINS[i]) == i
    {
    }
    forall i | 0 <= i < ADDR_PIN_COUNT ensures DRIVEN_PINS[i] == ADDR_PINS[i] { }
    forall j | 0 <= j < DATA_PIN_COUNT ensures DRIVEN_PINS[ADDR_PIN_COUNT + j] == DATA_PINS[j] { }
    assert DRIVEN_PINS[23] == WE && DRIVEN_PINS[24] == LED_PIN;
  }

  /** A pin table `programByte` can drive one line at a time: real GPIOs, none twice, not WE. */
  predicate Drivable(pins: seq<nat>)
  {
    Distinct(pins) && forall i :: 0 <= i < |pins| ==> pins[i] < GPIO_COUNT && pins[i] != WE
  }

  lemma TablesDrivable()
    ensures |ADDR_PINS| == ADDR_PIN_COUNT && |DATA_PINS| == DATA_PIN_COUNT
    ensures Drivable(ADDR_PINS) && Drivable(DATA_PINS)
    ensures forall i :: 0 <= i < ADDR_PIN_COUNT ==> ADDR_PINS[i] !in DATA_PINS
  {
    PinTables();
  }

  /** The levels of `pins`, in table order. */
  function Sample(levels: seq<bool>, pins: seq<nat>): (s: seq<bool>)
    requires forall i :: 0 <= i < |pins| ==> pins[i] < |levels|
    ensures |s| == |pins|
    ensures forall i :: 0 <= i < |pins| ==> s[i] == levels[pins[i]]
  {
    seq(|pins|, i requires 0 <= i < |pins| => levels[pins[i]])
  }

  /** The GPIO output levels and the EEPROM behind them. */
  class Board {
    /** `level[p]` is the level last written to GPIO `p` with `gpio_put` (true = high). */
    var level: array<bool>
    /** The EEPROM's cells. */
    var cells: seq<Byte>
    /** How many times WE has been pulled from high to low. */
    var wePulses: nat

    ghost predicate Valid()
      reads this
    {
      level.Length == GPIO_COUNT && |cells| == EEPROM_SIZE
    }

    /** The address the EEPROM sees on its 15 address lines. */
    function BusAddress(): (a: nat)
      requires Valid()
      reads this, level
      ensures a < EEPROM_SIZE
    {
      TablesDrivable();
      Pow2Widths();
      BitsValue(Sample(level[..], ADDR_PINS))
    }

    /** The byte the EEPROM sees on its 8 data lines. */
    function BusData(): (d: Byte)
      requires Valid()
      reads this, level
    {
      TablesDrivable();
      BitsValue(Sample(level[..], DATA_PINS))
    }

    /** The board after the GPIO set-up in `main`: every line an output, WE high. */
    constructor (contents: seq<Byte>)
      requires |contents| == EEPROM_SIZE
      ensures Valid() && fresh(level)
      ensures level[WE] && cells == contents && wePulses == 0
    {
      var levels := new bool[GPIO_COUNT];
      levels[WE] := true;
      level := levels;
      cells := contents;
      wePulses := 0;
    }

    /** `gpio_put(pin, high)`. The EEPROM takes the byte on its data lines into the cell its address
        lines select when WE goes back from low to high. */
    method Put(pin: nat, high: bool)
      requires Valid() && pin < GPIO_COUNT
      modifies this`cells, this`wePulses, level
      ensures Valid()
      ensures level[..] == old(level[..])[pin := high]
      ensures wePulses == old(wePulses) + (if pin == WE && old(level[WE]) && !high then 1 else 0)
      ensures cells == if pin == WE && !old(level[WE]) && high
                       then old(cells)[old(BusAddress()) := old(BusData())]
                       else old(cells)
    {
      if pin == WE && !level[WE] && high {
        cells := cells[BusAddress() := BusData()];
      }
      if pin == WE && level[WE] && !high {
        wePulses := wePulses + 1;
      }
      level[pin] := high;
    }
  }

  /** One of the two `for` loops of `programByte`: line `pins[i]` gets bit `i` of `value`, one
      `gpio_put` per line, in table order. */
  method DriveLines(board: Board, pins: seq<nat>, value: nat)
    requires board.Valid() && Drivable(pins)
    modifies board, board.level
    ensures board.Valid() && board.level == old(board.level) && board.level[WE] == old(board.level[WE])
    ensures board.cells == old(board.cells) && board.wePulses == old(board.wePulses)
    ensures Sample(board.level[..], pins) == BitsOf(value, |pins|)
    ensures forall p :: 0 <= p < GPIO_COUNT && p !in pins ==> board.level[p] == old(board.level[p])
  {
    for i := 0 to |pins|
      invariant board.Valid() && board.level == old(board.level)
      invariant board.cells == old(board.cells) && board.wePulses == old(board.wePulses)
      invariant forall j :: 0 <= j < i ==> board.level[pins[j]] == (Bit(value, j) == 1)
      invariant forall p :: 0 <= p < GPIO_COUNT && p !in pins[..i] ==> board.level[p] == old(board.level[p])
    {
      board.Put(pins[i], Bit(value, i) == 1);
    }
    assert pins[..|pins|] == pins;
  }

  /** The lines of `pins` read the same on two boards that agree on every line of `pins`. */
  lemma SampleAgrees(a: seq<bool>, b: seq<bool>, pins: seq<nat>)
    requires |a| == |b| && forall i :: 0 <= i < |pins| ==> pins[i] < |a| && a[pins[i]] == b[pins[i]]
    ensures Sample(a, pins) == Sample(b, pins)
  {
  }

  /** Lines carrying the bits of `addr` and `data` make the EEPROM see `addr % 32768` and `data`. */
  lemma LinesCarry(levels: seq<bool>, addr: Word, data: Byte)
    requires |levels| == GPIO_COUNT
    requires Drivable(ADDR_PINS) && Drivable(DATA_PINS)
    requires Sample(levels, ADDR_PINS) == BitsOf(addr, ADDR_PIN_COUNT)
    requires Sample(levels, DATA_PINS) == BitsOf(data, DATA_PIN_COUNT)
    ensures BitsValue(Sample(levels, ADDR_PINS)) == addr % EEPROM_SIZE
    ensures BitsValue(Sample(levels, DATA_PINS)) == data
  {
    ValueOfBits(addr, ADDR_PIN_COUNT);
    ValueOfBits(data, DATA_PIN_COUNT);
    Pow2Widths();
  }

  /** `programByte(data, addr, ADDR_PINS, DATA_PINS)`: address line `ADDR_PINS[i]` gets bit `i` of
      `addr`, data line `DATA_PINS[i]` gets bit `i` of `data`, then WE is pulsed low once and left
      high. Bit 15 of `addr` has no line, so the cell written is `addr % 32768`. The microsecond
      sleeps around the pulse are not modelled. */
  method ProgramByte(board: Board, data: Byte, addr: Word)
    requires board.Valid() && board.level[WE]
    modifies board, board.level
    ensures board.Valid() && board.level == old(board.level) && board.level[WE]
    ensures board.cells == old(board.cells)[addr % EEPROM_SIZE := data]
    ensures board.wePulses == old(board.wePulses) + 1
    ensures Sample(board.level[..], ADDR_PINS) == BitsOf(addr, ADDR_PIN_COUNT)
    ensures Sample(board.level[..], DATA_PINS) == BitsOf(data, DATA_PIN_COUNT)
    ensures forall p :: 0 <= p < GPIO_COUNT && p !in ADDR_PINS && p !in DATA_PINS && p != WE ==>
              board.level[p] == old(board.level[p])
  {
    TablesDrivable();
    DriveLines(board, ADDR_PINS, addr);
    ghost var addressed := board.level[..];
    DriveLines(board, DATA_PINS, data);
    SampleAgrees(addressed, board.level[..], ADDR_PINS);

    ghost var driven := board.level[..];
    LinesCarry(driven, addr, data);
    board.Put(WE, false);
    SampleAgrees(driven, board.level[..], ADDR_PINS);
    SampleAgrees(driven, board.level[..], DATA_PINS);
    board.Put(WE, true);
    SampleAgrees(driven, board.level[..], ADDR_PINS);
    SampleAgrees(driven, board.level[..], DATA_PINS);
  }
}

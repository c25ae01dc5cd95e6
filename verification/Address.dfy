/** The textual addresses of mapping rules. */
module Address {
  import opened Words
  import opened Cells
  import opened Text

  datatype ParsedRef = ParsedRef(cell: Cell, isBit: bool)

  /** The areas by their names within a protocol, aliases included; `Nowhere` for
      any other name. */
  function ModbusArea(area: string): Area {
    if area == "COIL" || area == "C" then Coil
    else if area == "DISCRETE_INPUT" || area == "DI" || area == "I" then DiscreteInput
    else if area == "INPUT_REGISTER" || area == "IR" then InputRegister
    else if area == "HOLDING_REGISTER" || area == "HR" then HoldingRegister
    else Nowhere
  }

  function S7Area(area: string): Area {
    if area == "PE" then S7PE else if area == "PA" then S7PA
    else if area == "DB1" then S7DB1 else if area == "DB2" then S7DB2
    else Nowhere
  }

  function McArea(area: string): Area {
    if area == "X" then McX else if area == "Y" then McY else if area == "M" then McM
    else if area == "L" then McL else if area == "B" then McB else if area == "F" then McF
    else if area == "SM" then McSM else if area == "D" then McD else if area == "W" then McW
    else if area == "R" then McR else if area == "ZR" then McZR else if area == "SD" then McSD
    else Nowhere
  }

  function LsArea(area: string): Area {
    if area == "I" then LsI else if area == "Q" then LsQ else if area == "M" then LsM
    else if area == "W" then LsW
    else Nowhere
  }

  function AreaOf(protocol: string, area: string): Area {
    if protocol == "MODBUS" then ModbusArea(area)
    else if protocol == "S7" then S7Area(area)
    else if protocol == "MC" then McArea(area)
    else if protocol == "LS" then LsArea(area)
    else Nowhere
  }

  /** Areas whose words may be written `W.<n>`. */
  predicate AllowsW(a: Area) {
    a in {S7DB1, S7DB2, McD, McW, McR, McZR, McSD}
  }

  /** `parseAddress`; `None` where it throws. A reference with an unknown name
      keeps index 0 and counts as a bit. */
  function Parse(s: string): Option<ParsedRef> {
    var parts := Split(s, '.');
    if |parts| < 3 then None
    else
      var a := AreaOf(parts[0], parts[1]);
      if a.Nowhere? then Some(ParsedRef(Cell(Nowhere, 0), true))
      else
        var number := if AllowsW(a) && |parts| == 4 && parts[2] == "W" then parts[3] else parts[2];
        match Stoi(number)
        case None => None
        case Some(n) => Some(ParsedRef(Cell(a, ToWord(n)), IsBit(a)))
  }

  /** The canonical name of an area. */
  function Prefix(a: Area): (string, string)
    requires !a.Nowhere?
  {
    match a
    case Coil => ("MODBUS", "COIL")
    case DiscreteInput => ("MODBUS", "DI")
    case InputRegister => ("MODBUS", "IR")
    case HoldingRegister => ("MODBUS", "HR")
    case S7PE => ("S7", "PE")
    case S7PA => ("S7", "PA")
    case S7DB1 => ("S7", "DB1")
    case S7DB2 => ("S7", "DB2")
    case McX => ("MC", "X")
    case McY => ("MC", "Y")
    case McM => ("MC", "M")
    case McL => ("MC", "L")
    case McB => ("MC", "B")
    case McF => ("MC", "F")
    case McSM => ("MC", "SM")
    case McD => ("MC", "D")
    case McW => ("MC", "W")
    case McR => ("MC", "R")
    case McZR => ("MC", "ZR")
    case McSD => ("MC", "SD")
    case LsI => ("LS", "I")
    case LsQ => ("LS", "Q")
    case LsM => ("LS", "M")
    case LsW => ("LS", "W")
  }

  function Name(c: Cell): string
    requires !c.area.Nowhere?
  {
    Prefix(c.area).0 + ['.'] + (Prefix(c.area).1 + ['.'] + Decimal(c.index))
  }

  /** The documented long form of the word areas that have one. */
  function LongName(c: Cell): string
    requires AllowsW(c.area)
  {
    Prefix(c.area).0 + ['.'] + (Prefix(c.area).1 + ['.'] + ("W" + ['.'] + Decimal(c.index)))
  }

  lemma PrefixIsPlain(a: Area)
    requires !a.Nowhere?
    ensures AreaOf(Prefix(a).0, Prefix(a).1) == a
    ensures '.' !in Prefix(a).0 && '.' !in Prefix(a).1
  {
    hide ModbusArea, S7Area, McArea, LsArea;
    OwnModbusNames();
    OwnS7Names();
    OwnMcNames();
    OwnLsNames();
    assert "S7" != "MODBUS" && "MC"[0] != "S7"[0] && "LS"[0] != "S7"[0] && "LS" != "MC";
  }

  // Every canonical name means its own area.

  lemma OwnModbusNames()
    ensures ModbusArea("COIL") == Coil && ModbusArea("DI") == DiscreteInput
    ensures ModbusArea("IR") == InputRegister && ModbusArea("HR") == HoldingRegister
  {
  }

  lemma OwnS7Names()
    ensures S7Area("PE") == S7PE && S7Area("PA") == S7PA && S7Area("DB1") == S7DB1 && S7Area("DB2") == S7DB2
  {
  }

  lemma OwnMcNames()
    ensures McArea("X") == McX && McArea("Y") == McY && McArea("M") == McM && McArea("L") == McL
    ensures McArea("B") == McB && McArea("F") == McF && McArea("SM") == McSM && McArea("D") == McD
    ensures McArea("W") == McW && McArea("R") == McR && McArea("ZR") == McZR && McArea("SD") == McSD
  {
  }

  lemma OwnLsNames()
    ensures LsArea("I") == LsI && LsArea("Q") == LsQ && LsArea("M") == LsM && LsArea("W") == LsW
  {
  }

  lemma DecimalIsPlain(n: nat)
    ensures Split(Decimal(n), '.') == [Decimal(n)] && Decimal(n) != "W"
  {
    assert !IsDigit('.') && '.' !in Decimal(n);
    NoDelimiter(Decimal(n), '.');
    assert !IsDigit('W') && 'W' !in Decimal(n) && 'W' in "W";
  }

  /** Every cell of 16-bit index has a text, and that text means that cell, with
      the width of its area; so does the long form. */
  lemma ParseOfName(c: Cell)
    requires !c.area.Nowhere? && c.index < 0x1_0000
    ensures Parse(Name(c)) == Some(ParsedRef(c, IsBit(c.area)))
    ensures AllowsW(c.area) ==> Parse(LongName(c)) == Some(ParsedRef(c, IsBit(c.area)))
  {
    hide AreaOf, Prefix, Split, Stoi, Decimal;
    var (p, a) := Prefix(c.area);
    PrefixIsPlain(c.area);
    DecimalIsPlain(c.index);
    StoiOfDecimal(c.index);
    SplitFirst(p, a + ['.'] + Decimal(c.index), '.');
    SplitFirst(a, Decimal(c.index), '.');
    assert Split(Name(c), '.') == [p, a, Decimal(c.index)];
    if AllowsW(c.area) {
      SplitFirst(p, a + ['.'] + ("W" + ['.'] + Decimal(c.index)), '.');
      SplitFirst(a, "W" + ['.'] + Decimal(c.index), '.');
      SplitFirst("W", Decimal(c.index), '.');
      assert Split(LongName(c), '.') == [p, a, "W", Decimal(c.index)];
    }
  }

  /** Different cells have different texts. */
  lemma NamesAreInjective(c: Cell, d: Cell)
    requires !c.area.Nowhere? && !d.area.Nowhere? && c.index < 0x1_0000 && d.index < 0x1_0000
    requires Name(c) == Name(d)
    ensures c == d
  {
    ParseOfName(c);
    ParseOfName(d);
  }

  /** Whatever text is parsed, the width flag is that of the area, and an unknown
      name gives a cell outside every memory. */
  lemma ParsedWidth(s: string, z: Sizes)
    requires Parse(s).Some?
    ensures var r := Parse(s).value;
            && r.cell.index < 0x1_0000
            && (if r.cell.area.Nowhere? then r.isBit && SizeOf(z, r.cell.area) == 0 else r.isBit == IsBit(r.cell.area))
  {
  }

  // The addresses as they are written.

  /** The cell an address stands for. */
  function Named(address: string): Cell {
    match Parse(address)
    case Some(r) => r.cell
    case None => Cell(Nowhere, 0)
  }

  /** This text in front of a number means that cell of the area. */
  ghost predicate Means(text: string, n: Word, area: Area, isBit: bool) {
    Parse(text + Decimal(n)) == Some(ParsedRef(Cell(area, n), isBit)) && Named(text + Decimal(n)) == Cell(area, n)
  }

  lemma Spelled(p: string, a: string, text: string, n: Word, area: Area)
    requires '.' !in p && '.' !in a && text == p + ['.'] + a + ['.'] && AreaOf(p, a) == area && !area.Nowhere?
    ensures Means(text, n, area, IsBit(area))
  {
    hide AreaOf, Split, Stoi, Decimal;
    var d := Decimal(n);
    DecimalIsPlain(n);
    StoiOfDecimal(n);
    SplitFirst(p, a + ['.'] + d, '.');
    SplitFirst(a, d, '.');
    assert text + d == p + ['.'] + (a + ['.'] + d);
    assert Split(text + d, '.') == [p, a, d];
  }

  /** Areas that may be written with a "W" of its own in front of the number. */
  lemma SpelledLong(p: string, a: string, text: string, n: Word, area: Area)
    requires '.' !in p && '.' !in a && text == p + ['.'] + a + ['.'] + "W" + ['.'] && AreaOf(p, a) == area && AllowsW(area)
    ensures Means(text, n, area, IsBit(area))
  {
    hide AreaOf, Split, Stoi, Decimal;
    var d := Decimal(n);
    DecimalIsPlain(n);
    StoiOfDecimal(n);
    SplitFirst(p, a + ['.'] + ("W" + ['.'] + d), '.');
    SplitFirst(a, "W" + ['.'] + d, '.');
    SplitFirst("W", d, '.');
    assert text + d == p + ['.'] + (a + ['.'] + ("W" + ['.'] + d));
    assert Split(text + d, '.') == [p, a, "W", d];
  }

  lemma Protocols(a: string)
    ensures AreaOf("MODBUS", a) == ModbusArea(a) && AreaOf("S7", a) == S7Area(a)
    ensures AreaOf("MC", a) == McArea(a) && AreaOf("LS", a) == LsArea(a)
  {
    hide ModbusArea, S7Area, McArea, LsArea;
    assert "S7" != "MODBUS" && "MC"[0] != "S7"[0] && "LS"[0] != "S7"[0] && "LS" != "MC";
  }

  lemma ModbusBitAreas()
    ensures AreaOf("MODBUS", "COIL") == Coil
    ensures AreaOf("MODBUS", "C") == Coil
    ensures AreaOf("MODBUS", "DISCRETE_INPUT") == DiscreteInput
    ensures AreaOf("MODBUS", "DI") == DiscreteInput
    ensures AreaOf("MODBUS", "I") == DiscreteInput
  {
    hide AreaOf;
    Protocols("COIL");
    Protocols("C");
    Protocols("DISCRETE_INPUT");
    Protocols("DI");
    Protocols("I");
  }

  lemma ModbusRegisterAreas()
    ensures AreaOf("MODBUS", "INPUT_REGISTER") == InputRegister
    ensures AreaOf("MODBUS", "IR") == InputRegister
    ensures AreaOf("MODBUS", "HOLDING_REGISTER") == HoldingRegister
    ensures AreaOf("MODBUS", "HR") == HoldingRegister
  {
    hide AreaOf;
    Protocols("INPUT_REGISTER");
    Protocols("IR");
    Protocols("HOLDING_REGISTER");
    Protocols("HR");
  }

  lemma S7Areas()
    ensures AreaOf("S7", "PE") == S7PE
    ensures AreaOf("S7", "PA") == S7PA
    ensures AreaOf("S7", "DB1") == S7DB1
    ensures AreaOf("S7", "DB2") == S7DB2
  {
    hide AreaOf;
    OwnS7Names();
    Protocols("PE");
    Protocols("PA");
    Protocols("DB1");
    Protocols("DB2");
  }

  lemma McAreas()
    ensures AreaOf("MC", "X") == McX
    ensures AreaOf("MC", "Y") == McY
    ensures AreaOf("MC", "M") == McM
    ensures AreaOf("MC", "L") == McL
    ensures AreaOf("MC", "B") == McB
    ensures AreaOf("MC", "F") == McF
    ensures AreaOf("MC", "SM") == McSM
    ensures AreaOf("MC", "D") == McD
    ensures AreaOf("MC", "W") == McW
    ensures AreaOf("MC", "R") == McR
    ensures AreaOf("MC", "ZR") == McZR
    ensures AreaOf("MC", "SD") == McSD
  {
    hide AreaOf;
    OwnMcNames();
    Protocols("X");
    Protocols("Y");
    Protocols("M");
    Protocols("L");
    Protocols("B");
    Protocols("F");
    Protocols("SM");
    Protocols("D");
    Protocols("W");
    Protocols("R");
    Protocols("ZR");
    Protocols("SD");
  }

  lemma LsAreas()
    ensures AreaOf("LS", "I") == LsI
    ensures AreaOf("LS", "Q") == LsQ
    ensures AreaOf("LS", "M") == LsM
    ensures AreaOf("LS", "W") == LsW
  {
    hide AreaOf;
    OwnLsNames();
    Protocols("I");
    Protocols("Q");
    Protocols("M");
    Protocols("W");
  }

  /** Modbus coils, by all names there are for them, ... */
  lemma CoilAddresses(n: Word)
    ensures Means("MODBUS.COIL.", n, Coil, true)
    ensures Means("MODBUS.C.", n, Coil, true)
  {
    hide Means, Parse, AreaOf;
    ModbusBitAreas();
    Spelled("MODBUS", "COIL", "MODBUS.COIL.", n, Coil);
    Spelled("MODBUS", "C", "MODBUS.C.", n, Coil);
  }

  /** ... discrete inputs, ... */
  lemma DiscreteInputAddresses(n: Word)
    ensures Means("MODBUS.DISCRETE_INPUT.", n, DiscreteInput, true)
    ensures Means("MODBUS.DI.", n, DiscreteInput, true)
    ensures Means("MODBUS.I.", n, DiscreteInput, true)
  {
    hide Means, Parse, AreaOf;
    ModbusBitAreas();
    Spelled("MODBUS", "DISCRETE_INPUT", "MODBUS.DISCRETE_INPUT.", n, DiscreteInput);
    Spelled("MODBUS", "DI", "MODBUS.DI.", n, DiscreteInput);
    Spelled("MODBUS", "I", "MODBUS.I.", n, DiscreteInput);
  }

  /** ... input registers ... */
  lemma InputRegisterAddresses(n: Word)
    ensures Means("MODBUS.INPUT_REGISTER.", n, InputRegister, false)
    ensures Means("MODBUS.IR.", n, InputRegister, false)
  {
    hide Means, Parse, AreaOf;
    ModbusRegisterAreas();
    Spelled("MODBUS", "INPUT_REGISTER", "MODBUS.INPUT_REGISTER.", n, InputRegister);
    Spelled("MODBUS", "IR", "MODBUS.IR.", n, InputRegister);
  }

  /** ... and holding registers. */
  lemma HoldingRegisterAddresses(n: Word)
    ensures Means("MODBUS.HOLDING_REGISTER.", n, HoldingRegister, false)
    ensures Means("MODBUS.HR.", n, HoldingRegister, false)
  {
    hide Means, Parse, AreaOf;
    ModbusRegisterAreas();
    Spelled("MODBUS", "HOLDING_REGISTER", "MODBUS.HOLDING_REGISTER.", n, HoldingRegister);
    Spelled("MODBUS", "HR", "MODBUS.HR.", n, HoldingRegister);
  }

  /** The two images and the two data blocks. */
  lemma S7Addresses(n: Word)
    ensures Means("S7.PE.", n, S7PE, true)
    ensures Means("S7.PA.", n, S7PA, true)
    ensures Means("S7.DB1.", n, S7DB1, false)
    ensures Means("S7.DB2.", n, S7DB2, false)
  {
    hide Means, Parse, AreaOf;
    S7Areas();
    Spelled("S7", "PE", "S7.PE.", n, S7PE);
    Spelled("S7", "PA", "S7.PA.", n, S7PA);
    Spelled("S7", "DB1", "S7.DB1.", n, S7DB1);
    Spelled("S7", "DB2", "S7.DB2.", n, S7DB2);
  }

  /** Data blocks the long way. */
  lemma S7LongAddresses(n: Word)
    ensures Means("S7.DB1.W.", n, S7DB1, false)
    ensures Means("S7.DB2.W.", n, S7DB2, false)
  {
    hide Means, Parse, AreaOf;
    S7Areas();
    SpelledLong("S7", "DB1", "S7.DB1.W.", n, S7DB1);
    SpelledLong("S7", "DB2", "S7.DB2.W.", n, S7DB2);
  }

  /** MC bit devices, ... */
  lemma McBitAddresses(n: Word)
    ensures Means("MC.X.", n, McX, true)
    ensures Means("MC.Y.", n, McY, true)
    ensures Means("MC.M.", n, McM, true)
    ensures Means("MC.L.", n, McL, true)
    ensures Means("MC.B.", n, McB, true)
    ensures Means("MC.F.", n, McF, true)
    ensures Means("MC.SM.", n, McSM, true)
  {
    hide Means, Parse, AreaOf;
    McAreas();
    Spelled("MC", "X", "MC.X.", n, McX);
    Spelled("MC", "Y", "MC.Y.", n, McY);
    Spelled("MC", "M", "MC.M.", n, McM);
    Spelled("MC", "L", "MC.L.", n, McL);
    Spelled("MC", "B", "MC.B.", n, McB);
    Spelled("MC", "F", "MC.F.", n, McF);
    Spelled("MC", "SM", "MC.SM.", n, McSM);
  }

  /** ... word devices, ... */
  lemma McWordAddresses(n: Word)
    ensures Means("MC.D.", n, McD, false)
    ensures Means("MC.W.", n, McW, false)
    ensures Means("MC.R.", n, McR, false)
  {
    hide Means, Parse, AreaOf;
    McAreas();
    Spelled("MC", "D", "MC.D.", n, McD);
    Spelled("MC", "W", "MC.W.", n, McW);
    Spelled("MC", "R", "MC.R.", n, McR);
  }

  /** ... extended file registers and special registers, ... */
  lemma McWordFileAddresses(n: Word)
    ensures Means("MC.ZR.", n, McZR, false)
    ensures Means("MC.SD.", n, McSD, false)
  {
    hide Means, Parse, AreaOf;
    McAreas();
    Spelled("MC", "ZR", "MC.ZR.", n, McZR);
    Spelled("MC", "SD", "MC.SD.", n, McSD);
  }

  /** ... and all words the long way. */
  lemma McLongAddresses(n: Word)
    ensures Means("MC.D.W.", n, McD, false)
    ensures Means("MC.W.W.", n, McW, false)
    ensures Means("MC.R.W.", n, McR, false)
  {
    hide Means, Parse, AreaOf;
    McAreas();
    SpelledLong("MC", "D", "MC.D.W.", n, McD);
    SpelledLong("MC", "W", "MC.W.W.", n, McW);
    SpelledLong("MC", "R", "MC.R.W.", n, McR);
  }

  /** ... these too. */
  lemma McLongFileAddresses(n: Word)
    ensures Means("MC.ZR.W.", n, McZR, false)
    ensures Means("MC.SD.W.", n, McSD, false)
  {
    hide Means, Parse, AreaOf;
    McAreas();
    SpelledLong("MC", "ZR", "MC.ZR.W.", n, McZR);
    SpelledLong("MC", "SD", "MC.SD.W.", n, McSD);
  }

  /** XGT bits and words. */
  lemma LsAddresses(n: Word)
    ensures Means("LS.I.", n, LsI, true)
    ensures Means("LS.Q.", n, LsQ, true)
    ensures Means("LS.M.", n, LsM, true)
    ensures Means("LS.W.", n, LsW, false)
  {
    hide Means, Parse, AreaOf;
    LsAreas();
    Spelled("LS", "I", "LS.I.", n, LsI);
    Spelled("LS", "Q", "LS.Q.", n, LsQ);
    Spelled("LS", "M", "LS.M.", n, LsM);
    Spelled("LS", "W", "LS.W.", n, LsW);
  }

  /** The protocols with their areas, by all names. */
  predicate Known(p: string, a: string) {
    || (p == "MODBUS" && a in {"COIL", "C", "DISCRETE_INPUT", "DI", "I", "INPUT_REGISTER", "IR", "HOLDING_REGISTER", "HR"})
    || (p == "S7" && a in {"PE", "PA", "DB1", "DB2"})
    || (p == "MC" && a in {"X", "Y", "M", "L", "B", "F", "SM", "D", "W", "R", "ZR", "SD"})
    || (p == "LS" && a in {"I", "Q", "M", "W"})
  }

  lemma KnownHaveAreas(p: string, a: string)
    ensures Known(p, a) <==> !AreaOf(p, a).Nowhere?
  {
  }

  /** Of three parts the third is the number, cut to 16 bits, and refused if it is
      none; what is not known is a reference to nothing, whatever its number. Fewer
      parts are refused. */
  lemma ThreeParts(p: string, a: string, d: string)
    requires '.' !in p && '.' !in a && '.' !in d && p != "" && a != "" && d != ""
    ensures Parse(p) == None && Parse(p + ['.'] + a) == None
    ensures var r := Parse(p + ['.'] + (a + ['.'] + d));
            if !Known(p, a) then r == Some(ParsedRef(Cell(Nowhere, 0), true))
            else if Stoi(d) == None then r == None
            else r == Some(ParsedRef(Cell(AreaOf(p, a), ToWord(Stoi(d).value)), IsBit(AreaOf(p, a))))
  {
    hide AreaOf, Split, Stoi;
    KnownHaveAreas(p, a);
    hide Known;
    NoDelimiter(p, '.');
    NoDelimiter(a, '.');
    NoDelimiter(d, '.');
    SplitFirst(p, a, '.');
    SplitFirst(p, a + ['.'] + d, '.');
    SplitFirst(a, d, '.');
    assert Split(p + ['.'] + (a + ['.'] + d), '.') == [p, a, d];
  }
}

/**
 Type inference and conversion for imported columns, and the printer that results go through on
 the way out. Letter case and white space are ASCII.
 */
module StructuredImport {
  import opened Decimals
  import opened Sequences
  import opened Text
  import opened Wrappers

  /*** Numbers ***/

  /** (-1)^negative * coefficient * 10^-scale; the sign is kept for zero too. */
  datatype Decimal = Decimal(negative: bool, coefficient: nat, scale: int)

  /** The literal without its sign. */
  function Body(s: string): string {
    if s != "" && (s[0] == '+' || s[0] == '-') then s[1..] else s
  }

  predicate IsNegative(s: string) {
    s != "" && s[0] == '-'
  }

  /** `[+-]?(?:0|[1-9][0-9]*)` */
  predicate IsIntegerLiteral(s: string) {
    Canonical(Body(s))
  }

  function DotAt(s: string): (n: nat)
    ensures n <= |s| && (n < |s| ==> s[n] == '.')
  {
    if s == "" || s[0] == '.' then 0 else 1 + DotAt(s[1..])
  }

  /** `[+-]?(?:0|[1-9][0-9]*)\.[0-9]+` */
  predicate IsDecimalLiteral(s: string) {
    var b := Body(s);
    var n := DotAt(b);
    n + 1 < |b| && Canonical(b[..n]) && AllDigits(b[n + 1..])
  }

  function IntegerOf(s: string): int
    requires IsIntegerLiteral(s)
  {
    var n: int := Value(Body(s));
    if IsNegative(s) then -n else n
  }

  function DecimalOf(s: string): Decimal
    requires IsIntegerLiteral(s) || IsDecimalLiteral(s)
  {
    var b := Body(s);
    if IsIntegerLiteral(s) then Decimal(IsNegative(s), Value(b), 0)
    else
      var n := DotAt(b);
      Pointed(IsNegative(s), b[..n], b[n + 1..])
  }

  function Pointed(negative: bool, whole: string, fraction: string): Decimal
    requires AllDigits(whole) && AllDigits(fraction)
  {
    Decimal(negative, Value(whole + fraction), |fraction|)
  }

  function Zeros(n: nat): string {
    seq(n, _ => '0')
  }

  /** `s.zfill(n)` on a string of digits. */
  function PadLeft(s: string, n: nat): string {
    if |s| < n then Zeros(n - |s|) + s else s
  }

  function PrintInteger(n: int): string {
    if n < 0 then "-" + Digits(-n) else Digits(n)
  }

  function WithPoint(digits: string, scale: nat): string
    requires scale <= |digits|
  {
    digits[..|digits| - scale] + "." + digits[|digits| - scale..]
  }

  /** `format(d, "f")` */
  function PrintDecimal(d: Decimal): string {
    var sign := if d.negative then "-" else "";
    if d.scale == 0 then sign + Digits(d.coefficient)
    else if d.scale < 0 then sign + if d.coefficient == 0 then "0" else Digits(d.coefficient) + Zeros(-d.scale)
    else sign + WithPoint(PadLeft(Digits(d.coefficient), d.scale + 1), d.scale)
  }

  lemma {:induction false} LeadingZero(s: string)
    requires s != "" && AllDigits(s)
    ensures Value("0" + s) == Value(s)
  {
    var z := "0" + s;
    assert z[..|z| - 1] == "0" + s[..|s| - 1];
    if |s| > 1 {
      LeadingZero(s[..|s| - 1]);
    } else {
      assert s[..0] == "" && "0" + s[..0] == "0";
      assert Value("0") == 10 * Value("0"[..0]) + DigitValue('0');
    }
  }

  lemma OneMoreZero(d: string, n: nat)
    requires |d| <= n
    ensures PadLeft(d, n + 1) == "0" + PadLeft(d, n)
  {
    assert Zeros(n + 1 - |d|) == "0" + Zeros(n - |d|);
  }

  /** Converting digits to a number loses only the leading zeros, and padding restores them. */
  lemma {:induction false} PaddingRestores(s: string)
    requires s != "" && AllDigits(s)
    ensures PadLeft(Digits(Value(s)), |s|) == s && |Digits(Value(s))| <= |s|
  {
    if |s| == 1 || s[0] != '0' {
      DigitsOfValue(s);
    } else {
      var rest := s[1..];
      assert s == "0" + rest;
      LeadingZero(rest);
      PaddingRestores(rest);
      OneMoreZero(Digits(Value(rest)), |rest|);
    }
  }

  function WithoutPlus(s: string): string {
    if s != "" && s[0] == '+' then s[1..] else s
  }

  lemma SignAndBody(s: string)
    ensures WithoutPlus(s) == (if IsNegative(s) then "-" else "") + Body(s)
  {
    if IsNegative(s) {
      assert s == "-" + s[1..];
    }
  }

  lemma PaddedWhole(whole: string, fraction: string)
    requires Canonical(whole) && fraction != "" && AllDigits(fraction)
    ensures PadLeft(Digits(Value(whole + fraction)), |fraction| + 1) == whole + fraction
  {
    var s := whole + fraction;
    if whole == "0" {
      PaddingRestores(s);
    } else {
      DigitsOfValue(s);
    }
  }

  /** Every number literal comes back as it was written, except for a leading plus sign. */
  lemma DecimalRoundTrip(s: string)
    requires IsIntegerLiteral(s) || IsDecimalLiteral(s)
    ensures PrintDecimal(DecimalOf(s)) == WithoutPlus(s)
  {
    SignAndBody(s);
    if IsIntegerLiteral(s) {
      DigitsOfValue(Body(s));
    } else {
      var whole, fraction := SplitAtPoint(s);
      SpellingOfPoint(whole, fraction, IsNegative(s));
    }
  }

  lemma SplitAtPoint(s: string) returns (whole: string, fraction: string)
    requires IsDecimalLiteral(s) && !IsIntegerLiteral(s)
    ensures Canonical(whole) && fraction != "" && AllDigits(fraction)
    ensures Body(s) == whole + "." + fraction && DecimalOf(s) == Pointed(IsNegative(s), whole, fraction)
  {
    var b := Body(s);
    var n := DotAt(b);
    whole, fraction := b[..n], b[n + 1..];
    assert b == whole + "." + fraction;
  }

  lemma SpellingOfPoint(whole: string, fraction: string, negative: bool)
    requires Canonical(whole) && fraction != "" && AllDigits(fraction)
    ensures PrintDecimal(Pointed(negative, whole, fraction))
         == (if negative then "-" else "") + (whole + "." + fraction)
  {
    PaddedWhole(whole, fraction);
    assert WithPoint(whole + fraction, |fraction|) == whole + "." + fraction by {
      var digits := whole + fraction;
      assert digits[..|whole|] == whole && digits[|whole|..] == fraction;
    }
  }

  /** In an integer column the plus sign and the sign of zero are lost, nothing else. */
  lemma IntegerRoundTrip(s: string)
    requires IsIntegerLiteral(s)
    ensures PrintInteger(IntegerOf(s)) == if s == "-0" then "0" else WithoutPlus(s)
  {
    SignAndBody(s);
    DigitsOfValue(Body(s));
    if IsNegative(s) {
      assert s == "-" + Body(s);
      if Value(Body(s)) == 0 {
        assert Body(s) == Digits(0) == "0";
      } else {
        assert s != "-0" by {
          assert Digits(0) == "0";
        }
      }
    }
  }

  /*** Cells ***/

  /**
   A cell as the readers deliver it. A float carries the decimal that `str` spells for it; numbers
   that are not integers carry that spelling too, which may be in scientific notation.
   */
  datatype Cell =
    | Nothing
    | Flag(b: bool)
    | Whole(n: int)
    | Exact(d: Decimal, text: string)
    | Float(d: Decimal, text: string)
    | NotFinite(text: string)
    | Moment(iso: string)
    | Raw(s: string)

  datatype Kind = NullKind | BooleanKind | IntegerKind | DecimalKind | TextKind

  function ValueKind(c: Cell): Kind {
    match c
    case Nothing => NullKind
    case Flag(_) => BooleanKind
    case Whole(_) => IntegerKind
    case Exact(_, _) => DecimalKind
    case Float(_, _) => DecimalKind
    case NotFinite(_) => TextKind
    case Moment(_) => TextKind
    case Raw(s) =>
      if Blank(s) then NullKind
      else if s != Strip(s) then TextKind
      else if Lower(s) == "true" || Lower(s) == "false" then BooleanKind
      else if IsIntegerLiteral(s) then IntegerKind
      else if IsDecimalLiteral(s) then DecimalKind
      else TextKind
  }

  datatype ColumnType = BooleanColumn | IntegerColumn | DecimalColumn | TextColumn

  function TypeOfKinds(kinds: set<Kind>): ColumnType {
    var seen := kinds - {NullKind};
    if seen == {} then TextColumn
    else if seen == {BooleanKind} then BooleanColumn
    else if seen == {IntegerKind} then IntegerColumn
    else if seen <= {IntegerKind, DecimalKind} then DecimalColumn
    else TextColumn
  }

  function Kinds(cells: seq<Cell>): set<Kind> {
    set c | c in cells :: ValueKind(c)
  }

  function InferColumnType(cells: seq<Cell>): ColumnType {
    TypeOfKinds(Kinds(cells))
  }

  /*** The inferred type is a join ***/

  /** Column types with a least element for columns that hold nothing. */
  datatype Level = Bottom | Level(t: ColumnType)

  function Join(a: Level, b: Level): Level {
    if a.Bottom? then b
    else if b.Bottom? || a == b then a
    else if {a.t, b.t} == {IntegerColumn, DecimalColumn} then Level(DecimalColumn)
    else Level(TextColumn)
  }

  function LevelOf(cells: seq<Cell>): Level {
    if Kinds(cells) <= {NullKind} then Bottom else Level(InferColumnType(cells))
  }

  lemma JoinIsSemilattice(a: Level, b: Level, c: Level)
    ensures Join(a, a) == a && Join(a, b) == Join(b, a) && Join(Join(a, b), c) == Join(a, Join(b, c))
  {
  }

  /** Only the set of kinds matters, so neither the order of the rows nor repetitions do. */
  lemma TypeIgnoresOrder(a: seq<Cell>, b: seq<Cell>)
    requires multiset(a) == multiset(b)
    ensures InferColumnType(a) == InferColumnType(b)
  {
    assert forall c :: c in a <==> c in multiset(a);
    assert forall c :: c in b <==> c in multiset(b);
    assert forall c :: c in a <==> c in b;
    assert Kinds(a) == Kinds(b);
  }

  function LevelOfKinds(kinds: set<Kind>): Level {
    if kinds <= {NullKind} then Bottom else Level(TypeOfKinds(kinds))
  }

  lemma KindsJoin(a: set<Kind>, b: set<Kind>)
    ensures LevelOfKinds(a + b) == Join(LevelOfKinds(a), LevelOfKinds(b))
  {
    var x, y := a - {NullKind}, b - {NullKind};
    assert (a + b) - {NullKind} == x + y;
    assert a <= {NullKind} <==> x == {};
    assert b <= {NullKind} <==> y == {};
    assert a + b <= {NullKind} <==> x + y == {};
    if x != {} {
      OneType(x);
    }
    if y != {} {
      OneType(y);
    }
    if x + y != {} {
      OneType(x + y);
    }
  }

  function TypeByMembership(kinds: set<Kind>): ColumnType {
    if TextKind in kinds then TextColumn
    else if BooleanKind in kinds then
      if IntegerKind in kinds || DecimalKind in kinds then TextColumn else BooleanColumn
    else if DecimalKind in kinds then DecimalColumn
    else IntegerColumn
  }

  /** The type of a non-empty set of kinds depends on membership alone. */
  lemma OneType(kinds: set<Kind>)
    requires NullKind !in kinds
    requires kinds != {}
    ensures TypeOfKinds(kinds) == TypeByMembership(kinds)
  {
    assert kinds - {NullKind} == kinds;
    forall k | k in kinds
      ensures k in {BooleanKind, IntegerKind, DecimalKind, TextKind}
    {
      match k
      case NullKind => assert false;
      case BooleanKind =>
      case IntegerKind =>
      case DecimalKind =>
      case TextKind =>
    }
    assert kinds <= {BooleanKind, IntegerKind, DecimalKind, TextKind};
    if TextKind !in kinds && DecimalKind !in kinds {
      if IntegerKind !in kinds {
        assert kinds <= {BooleanKind};
        assert kinds == {BooleanKind};
      } else if BooleanKind !in kinds {
        assert kinds <= {IntegerKind};
        assert kinds == {IntegerKind};
      }
    }
  }

  /** The type of a column cut into blocks is the join of the types of the blocks. */
  lemma TypeOfBlocks(a: seq<Cell>, b: seq<Cell>)
    ensures LevelOf(a + b) == Join(LevelOf(a), LevelOf(b))
    ensures InferColumnType(a + b) == if LevelOf(a + b).Bottom? then TextColumn else Join(LevelOf(a), LevelOf(b)).t
  {
    assert Kinds(a + b) == Kinds(a) + Kinds(b);
    KindsJoin(Kinds(a), Kinds(b));
  }

  /*** Conversion ***/

  datatype Converted = Absent | BooleanValue(b: bool) | IntegerValue(n: int) | DecimalValue(d: Decimal) | TextValue(s: string)

  /** Python refuses to convert integers of more digits to or from text. */
  const MAX_INTEGER_DIGITS := 4300

  predicate TooManyDigits(n: int) {
    |Digits(if n < 0 then -n else n)| > MAX_INTEGER_DIGITS
  }

  /** The kinds that can occur in a column of a type. */
  predicate Fits(k: Kind, t: ColumnType) {
    match t
    case TextColumn => true
    case BooleanColumn => k.NullKind? || k.BooleanKind?
    case IntegerColumn => k.NullKind? || k.IntegerKind?
    case DecimalColumn => k.NullKind? || k.IntegerKind? || k.DecimalKind?
  }

  function TextOf(c: Cell): Outcome<Converted> {
    match c
    case Nothing => Accepted(Absent)
    case Flag(b) => Accepted(TextValue(if b then "True" else "False"))
    case Whole(n) => if TooManyDigits(n) then Crashed else Accepted(TextValue(PrintInteger(n)))
    case Exact(_, text) => Accepted(TextValue(text))
    case Float(_, text) => Accepted(TextValue(text))
    case NotFinite(text) => Accepted(TextValue(text))
    case Moment(iso) => Accepted(TextValue(iso))
    case Raw(s) => Accepted(TextValue(s))
  }

  /** Called with the inferred type of the cell's own column. Crashed: Python raises ValueError. */
  function ConvertValue(c: Cell, t: ColumnType): Outcome<Converted>
    requires Fits(ValueKind(c), t)
  {
    if ValueKind(c).NullKind? then Accepted(Absent)
    else
      match t
      case BooleanColumn => Accepted(BooleanValue(if c.Flag? then c.b else Lower(c.s) == "true"))
      case IntegerColumn =>
        if c.Whole? then Accepted(IntegerValue(c.n))
        else if |Body(c.s)| > MAX_INTEGER_DIGITS then Crashed
        else Accepted(IntegerValue(IntegerOf(c.s)))
      case DecimalColumn =>
        if c.Exact? || c.Float? then Accepted(DecimalValue(c.d))
        else if c.Whole? then
          if TooManyDigits(c.n) then Crashed
          else Accepted(DecimalValue(Decimal(c.n < 0, if c.n < 0 then -c.n else c.n, 0)))
        else Accepted(DecimalValue(DecimalOf(c.s)))
      case TextColumn => TextOf(c)
  }

  predicate OfType(v: Converted, t: ColumnType) {
    match v
    case Absent => true
    case BooleanValue(_) => t.BooleanColumn?
    case IntegerValue(_) => t.IntegerColumn?
    case DecimalValue(_) => t.DecimalColumn?
    case TextValue(_) => t.TextColumn?
  }

  /** An integer too long for Python's text conversion, in a column that needs the conversion. */
  predicate Overlong(c: Cell, t: ColumnType) {
    match t
    case IntegerColumn => c.Raw? && ValueKind(c).IntegerKind? && |Body(c.s)| > MAX_INTEGER_DIGITS
    case DecimalColumn => c.Whole? && TooManyDigits(c.n)
    case TextColumn => c.Whole? && TooManyDigits(c.n)
    case BooleanColumn => false
  }

  /** Every cell has a kind that occurs in its column's inferred type. */
  lemma CellsFit(cells: seq<Cell>, c: Cell)
    requires c in cells
    ensures Fits(ValueKind(c), InferColumnType(cells))
  {
    assert ValueKind(c) in Kinds(cells);
    var seen := Kinds(cells) - {NullKind};
    if !ValueKind(c).NullKind? {
      assert ValueKind(c) in seen;
    }
  }

  /**
   Conversion succeeds on every cell of its own column unless an integer is overlong, gives
   nothing exactly for the null cells, and otherwise a value of the column's type.
   */
  lemma ConversionIsSound(cells: seq<Cell>, c: Cell)
    requires c in cells
    ensures Fits(ValueKind(c), InferColumnType(cells))
    ensures var r := ConvertValue(c, InferColumnType(cells));
      && (r.Accepted? <==> !Overlong(c, InferColumnType(cells)))
      && (r.Accepted? ==> OfType(r.value, InferColumnType(cells)) && (r.value.Absent? <==> ValueKind(c).NullKind?))
  {
    CellsFit(cells, c);
  }

  lemma LiteralInDecimalColumn(s: string)
    requires Fits(ValueKind(Raw(s)), DecimalColumn) && !Blank(s)
    ensures IsIntegerLiteral(s) || IsDecimalLiteral(s)
    ensures ConvertValue(Raw(s), DecimalColumn) == Accepted(DecimalValue(DecimalOf(s)))
  {
  }

  /** A number literal in a decimal column survives conversion and printing. */
  lemma DecimalColumnRoundTrip(cells: seq<Cell>, s: string)
    requires Raw(s) in cells && InferColumnType(cells).DecimalColumn? && !Blank(s)
    ensures Fits(ValueKind(Raw(s)), DecimalColumn)
    ensures ConvertValue(Raw(s), DecimalColumn).Accepted? && ConvertValue(Raw(s), DecimalColumn).value.DecimalValue?
    ensures PrintDecimal(ConvertValue(Raw(s), DecimalColumn).value.d) == WithoutPlus(s)
  {
    CellsFit(cells, Raw(s));
    LiteralInDecimalColumn(s);
    DecimalRoundTrip(s);
  }

  /** So does one in an integer column, up to the plus sign and the sign of zero. */
  lemma IntegerColumnRoundTrip(cells: seq<Cell>, s: string)
    requires Raw(s) in cells && InferColumnType(cells).IntegerColumn? && !Blank(s) && |Body(s)| <= MAX_INTEGER_DIGITS
    ensures Fits(ValueKind(Raw(s)), IntegerColumn)
    ensures ConvertValue(Raw(s), IntegerColumn).Accepted? && ConvertValue(Raw(s), IntegerColumn).value.IntegerValue?
    ensures PrintInteger(ConvertValue(Raw(s), IntegerColumn).value.n) == if s == "-0" then "0" else WithoutPlus(s)
  {
    CellsFit(cells, Raw(s));
    IntegerRoundTrip(s);
  }

  /*** Column names ***/

  predicate Plain(c: char) {
    'a' <= c <= 'z' || IsDigit(c) || c == '_'
  }

  /** Each maximal run of other characters becomes one underscore. */
  function Replaced(s: string, inRun: bool): string {
    if s == "" then ""
    else if Plain(s[0]) then [s[0]] + Replaced(s[1..], false)
    else (if inRun then "" else "_") + Replaced(s[1..], true)
  }

  /** `s.strip("_")` */
  function Trim(s: string): string
    decreases |s|
  {
    if s != "" && s[0] == '_' then Trim(s[1..])
    else if s != "" && s[|s| - 1] == '_' then Trim(s[..|s| - 1])
    else s
  }

  function SafeColumnName(header: string): string {
    var cleaned := Trim(Replaced(Lower(Strip(header)), false));
    if cleaned == "" then "column" else cleaned
  }

  /** Lower-case letters, digits and inner underscores. */
  predicate SafeName(s: string) {
    s != "" && s[0] != '_' && s[|s| - 1] != '_' && AllPlain(s)
  }

  predicate AllPlain(s: string) {
    forall i | 0 <= i < |s| :: Plain(s[i])
  }

  lemma {:induction false} ReplacedIsPlain(s: string, inRun: bool)
    ensures AllPlain(Replaced(s, inRun))
  {
    if s != "" {
      ReplacedIsPlain(s[1..], !Plain(s[0]));
    }
  }

  lemma {:induction false} TrimHolds(s: string)
    requires AllPlain(s)
    ensures Trim(s) == "" || SafeName(Trim(s))
    decreases |s|
  {
    if s != "" && s[0] == '_' {
      TrimHolds(s[1..]);
    } else if s != "" && s[|s| - 1] == '_' {
      TrimHolds(s[..|s| - 1]);
    }
  }

  lemma {:induction false} ReplacedKeepsPlain(s: string)
    requires AllPlain(s)
    ensures Replaced(s, false) == s
  {
    if s != "" {
      ReplacedKeepsPlain(s[1..]);
      assert s == [s[0]] + s[1..];
    }
  }

  /** Names are normalised once and for all: the safe names are exactly the fixed points. */
  lemma SafeNamesAreFixed(header: string)
    ensures SafeName(SafeColumnName(header))
    ensures SafeColumnName(header) == header <==> SafeName(header)
  {
    var lowered := Lower(Strip(header));
    ReplacedIsPlain(lowered, false);
    TrimHolds(Replaced(lowered, false));
    if SafeName(header) {
      assert Plain(header[0]) && Plain(header[|header| - 1]);
      assert Strip(header) == header;
      assert Lower(header) == header;
      ReplacedKeepsPlain(header);
    }
  }

  /*** Profiles ***/

  /** A row: its keys in order, and the cell under each. */
  datatype Row = Row(keys: seq<string>, cells: map<string, Cell>)

  /** What a table is read from: the file's stem, its permission scope, and the name of the sheet, if it is one. */
  datatype Origin = Origin(stem: string, scope: string, sheet: Option<string>)

  datatype Column = Column(name: string, dataType: ColumnType, description: string, position: nat)

  datatype Profile = Profile(
    resourceKey: string, relation: string, displayName: string,
    columns: seq<Column>, rows: seq<map<string, Converted>>)

  /** The given headers, or else the keys of the first row. */
  function HeadersOf(given: seq<string>, rows: seq<Row>): seq<string> {
    if given != [] then given else if rows != [] then rows[0].keys else []
  }

  function ResourceKey(o: Origin): string {
    "structured:" + o.scope + ":" + SafeColumnName(o.stem)
      + if o.sheet.Some? && o.sheet.value != "" then "_" + SafeColumnName(o.sheet.value) else ""
  }

  function ColonsReplaced(s: string): string {
    seq(|s|, i requires 0 <= i < |s| => if s[i] == ':' then '_' else s[i])
  }

  function RelationName(o: Origin): string {
    SafeColumnName(ColonsReplaced(ResourceKey(o)))
  }

  function DisplayName(o: Origin): string {
    o.stem + if o.sheet.Some? then " - " + o.sheet.value else ""
  }

  function CellAt(row: Row, header: string): Cell {
    if header in row.cells then row.cells[header] else Nothing
  }

  function CellsUnder(rows: seq<Row>, header: string): seq<Cell> {
    seq(|rows|, i requires 0 <= i < |rows| => CellAt(rows[i], header))
  }

  function TypeUnder(rows: seq<Row>, header: string): ColumnType {
    InferColumnType(CellsUnder(rows, header))
  }

  /** Every row is one of the rows the types were inferred from. */
  ghost predicate PartOf(part: seq<Row>, rows: seq<Row>) {
    forall row | row in part :: row in rows
  }

  lemma CellFits(rows: seq<Row>, row: Row, header: string)
    requires row in rows
    ensures Fits(ValueKind(CellAt(row, header)), TypeUnder(rows, header))
    ensures var r := ConvertValue(CellAt(row, header), TypeUnder(rows, header));
      && (r.Accepted? <==> !Overlong(CellAt(row, header), TypeUnder(rows, header)))
      && (r.Accepted? ==> OfType(r.value, TypeUnder(rows, header)))
      && !r.Rejected?
  {
    var i :| 0 <= i < |rows| && rows[i] == row;
    assert CellsUnder(rows, header)[i] == CellAt(row, header);
    ConversionIsSound(CellsUnder(rows, header), CellAt(row, header));
  }

  function ConvertCell(rows: seq<Row>, row: Row, header: string): Outcome<Converted>
    requires row in rows
  {
    CellFits(rows, row, header);
    ConvertValue(CellAt(row, header), TypeUnder(rows, header))
  }

  function ConvertRow(rows: seq<Row>, row: Row, headers: seq<string>): Outcome<map<string, Converted>>
    requires row in rows
  {
    if headers == [] then Accepted(map[])
    else
      match ConvertCell(rows, row, headers[0])
      case Rejected(code) => Rejected(code)
      case Crashed => Crashed
      case Accepted(v) =>
        match ConvertRow(rows, row, headers[1..])
        case Accepted(rest) => Accepted(map[SafeColumnName(headers[0]) := v] + rest)
        case other => other
  }

  function ConvertRows(rows: seq<Row>, part: seq<Row>, headers: seq<string>): Outcome<seq<map<string, Converted>>>
    requires PartOf(part, rows)
  {
    if part == [] then Accepted([])
    else
      match ConvertRow(rows, part[0], headers)
      case Rejected(code) => Rejected(code)
      case Crashed => Crashed
      case Accepted(first) => Prepend([first], ConvertRows(rows, part[1..], headers))
  }

  function SafeNames(headers: seq<string>): seq<string> {
    seq(|headers|, j requires 0 <= j < |headers| => SafeColumnName(headers[j]))
  }

  function Columns(headers: seq<string>, rows: seq<Row>): seq<Column> {
    seq(|headers|, j requires 0 <= j < |headers| =>
      Column(SafeColumnName(headers[j]), TypeUnder(rows, headers[j]), headers[j], j + 1))
  }

  function BuildProfile(o: Origin, given: seq<string>, rows: seq<Row>): Outcome<Profile> {
    var headers := HeadersOf(given, rows);
    if headers == [] || "" in headers then Rejected("invalid_structured_headers")
    else if |ToSet(headers)| != |headers| || |ToSet(SafeNames(headers))| != |headers| then
      Rejected("duplicate_structured_headers")
    else
      match ConvertRows(rows, rows, headers)
      case Accepted(converted) =>
        Accepted(Profile(ResourceKey(o), RelationName(o), DisplayName(o), Columns(headers, rows), converted))
      case Rejected(code) => Rejected(code)
      case Crashed => Crashed
  }

  ghost predicate CellConvertible(rows: seq<Row>, row: Row, header: string) {
    !Overlong(CellAt(row, header), TypeUnder(rows, header))
  }

  ghost predicate RowConvertible(rows: seq<Row>, row: Row, headers: seq<string>) {
    forall h | h in headers :: CellConvertible(rows, row, h)
  }

  /** What a converted row holds under the safe name of a header. */
  ghost predicate Holds(rows: seq<Row>, row: Row, header: string, converted: map<string, Converted>) {
    && row in rows
    && SafeColumnName(header) in converted
    && ConvertCell(rows, row, header) == Accepted(converted[SafeColumnName(header)])
    && OfType(converted[SafeColumnName(header)], TypeUnder(rows, header))
  }

  ghost predicate RowHolds(rows: seq<Row>, row: Row, headers: seq<string>, converted: map<string, Converted>) {
    && converted.Keys == ToSet(SafeNames(headers))
    && forall h | h in headers :: Holds(rows, row, h, converted)
  }

  lemma {:induction false} RowIsExact(rows: seq<Row>, row: Row, headers: seq<string>)
    requires row in rows && Distinct(SafeNames(headers))
    ensures var r := ConvertRow(rows, row, headers);
      && (r.Accepted? <==> RowConvertible(rows, row, headers))
      && !r.Rejected?
      && (r.Accepted? ==> RowHolds(rows, row, headers, r.value))
  {
    if headers != [] {
      var rest := headers[1..];
      assert headers == [headers[0]] + rest;
      DistinctCons(SafeNames(headers));
      assert SafeNames(headers)[1..] == SafeNames(rest);
      RowIsExact(rows, row, rest);
      CellFits(rows, row, headers[0]);
      assert RowConvertible(rows, row, headers) <==>
        CellConvertible(rows, row, headers[0]) && RowConvertible(rows, row, rest);
      var r := ConvertRow(rows, row, headers);
      if r.Accepted? {
        var tail := ConvertRow(rows, row, rest).value;
        forall h | h in rest
          ensures Holds(rows, row, h, r.value)
        {
          assert Holds(rows, row, h, tail);
        }
        assert Holds(rows, row, headers[0], r.value);
      }
    }
  }

  /** Row by row, what the rows were converted to. */
  ghost predicate RowsHold(rows: seq<Row>, part: seq<Row>, headers: seq<string>, converted: seq<map<string, Converted>>) {
    |converted| == |part| && forall i | 0 <= i < |part| :: RowHolds(rows, part[i], headers, converted[i])
  }

  lemma PrependPair<A, B>(holds: (A, B) -> bool, part: seq<A>, first: B, rest: seq<B>)
    requires part != [] && |rest| == |part| - 1 && holds(part[0], first)
    requires forall i | 0 <= i < |rest| :: holds(part[1..][i], rest[i])
    ensures forall i | 0 <= i < |part| :: holds(part[i], ([first] + rest)[i])
  {
    forall i | 0 < i < |part|
      ensures holds(part[i], ([first] + rest)[i])
    {
      assert part[i] == part[1..][i - 1] && ([first] + rest)[i] == rest[i - 1];
    }
  }

  lemma RowsHoldPrepend(
    rows: seq<Row>, part: seq<Row>, headers: seq<string>, first: map<string, Converted>, rest: seq<map<string, Converted>>)
    requires part != [] && RowHolds(rows, part[0], headers, first) && RowsHold(rows, part[1..], headers, rest)
    ensures RowsHold(rows, part, headers, [first] + rest)
  {
    var holds := (row: Row, converted: map<string, Converted>) => RowHolds(rows, row, headers, converted);
    PrependPair(holds, part, first, rest);
    assert forall i | 0 <= i < |part| :: holds(part[i], ([first] + rest)[i]);
  }

  ghost predicate AllConvertible(rows: seq<Row>, part: seq<Row>, headers: seq<string>) {
    forall row | row in part :: RowConvertible(rows, row, headers)
  }

  lemma {:induction false} RowsAreExact(rows: seq<Row>, part: seq<Row>, headers: seq<string>)
    requires PartOf(part, rows) && Distinct(SafeNames(headers))
    ensures var r := ConvertRows(rows, part, headers);
      && (r.Accepted? <==> AllConvertible(rows, part, headers))
      && !r.Rejected?
      && (r.Accepted? ==> RowsHold(rows, part, headers, r.value))
  {
    if part != [] {
      assert part == [part[0]] + part[1..];
      assert AllConvertible(rows, part, headers) <==>
        RowConvertible(rows, part[0], headers) && AllConvertible(rows, part[1..], headers);
      RowIsExact(rows, part[0], headers);
      RowsAreExact(rows, part[1..], headers);
      var first, rest := ConvertRow(rows, part[0], headers), ConvertRows(rows, part[1..], headers);
      if first.Accepted? && rest.Accepted? {
        RowsHoldPrepend(rows, part, headers, first.value, rest.value);
      }
    }
  }

  lemma {:induction false} CountDistinct<T>(s: seq<T>)
    ensures |ToSet(s)| <= |s|
    ensures |ToSet(s)| == |s| <==> Distinct(s)
  {
    if s != [] {
      DistinctCons(s);
      CountDistinct(s[1..]);
      if s[0] in s[1..] {
        assert ToSet(s) == ToSet(s[1..]);
      }
    }
  }

  /**
   A table is accepted exactly if its headers, given or taken from the first row, are usable and
   stay distinct as safe names and no cell holds an overlong integer. Every row then has one value
   per column, of the column's type, and the relation has a safe name.
   */
  lemma ProfileIsExact(o: Origin, given: seq<string>, rows: seq<Row>)
    ensures var r := BuildProfile(o, given, rows);
      var headers := HeadersOf(given, rows);
      var usable := headers != [] && "" !in headers;
      var distinct := Distinct(SafeNames(headers));
      && (r == Rejected("invalid_structured_headers") <==> !usable)
      && (r == Rejected("duplicate_structured_headers") <==> usable && !distinct)
      && (r.Crashed? <==> usable && distinct && !AllConvertible(rows, rows, headers))
      && (r.Accepted? ==>
        && |r.value.columns| == |headers|
        && RowsHold(rows, rows, headers, r.value.rows)
        && SafeName(r.value.relation))
  {
    var headers := HeadersOf(given, rows);
    HeadersDistinct(headers);
    SafeNamesAreFixed(ColonsReplaced(ResourceKey(o)));
    if Distinct(SafeNames(headers)) {
      RowsAreExact(rows, rows, headers);
    }
    DifferentCodes();
  }

  /** Headers whose safe names are distinct are distinct themselves. */
  lemma HeadersDistinct(headers: seq<string>)
    ensures |ToSet(headers)| != |headers| || |ToSet(SafeNames(headers))| != |headers| <==> !Distinct(SafeNames(headers))
  {
    CountDistinct(headers);
    CountDistinct(SafeNames(headers));
    if Distinct(SafeNames(headers)) {
      forall i, j | 0 <= i < j < |headers|
        ensures headers[i] != headers[j]
      {
        assert SafeNames(headers)[i] != SafeNames(headers)[j];
      }
    }
  }

  lemma DifferentCodes()
    ensures "invalid_structured_headers" != "duplicate_structured_headers"
  {
    assert "invalid_structured_headers"[0] != "duplicate_structured_headers"[0];
  }
}

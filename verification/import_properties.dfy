/**
 Imported cells, names and profiles said without the importer's own helpers: which literals are
 which, what a cell is converted to, and how a header becomes a name.
 */
module ImportProperties {
  import opened Decimals
  import opened Sequences
  import opened StructuredImport
  import opened Text
  import opened Wrappers

  /*** Literals ***/

  /** Nothing, a plus or a minus. */
  predicate IsSign(s: string) {
    s == "" || s == "+" || s == "-"
  }

  predicate IsNumeral(s: string) {
    s != "" && (forall i | 0 <= i < |s| :: '0' <= s[i] <= '9') && (s[0] == '0' ==> |s| == 1)
  }

  predicate AreDigits(s: string) {
    s != "" && forall i | 0 <= i < |s| :: '0' <= s[i] <= '9'
  }

  lemma CanonicalIsNumeral(s: string)
    ensures Canonical(s) <==> IsNumeral(s)
  {
    if s != "" && |s| == 1 && s[0] == '0' {
      assert s == "0";
    }
  }

  /** The literal splits into a sign and its body. */
  lemma SignOf(s: string) returns (sign: string)
    ensures IsSign(sign) && s == sign + Body(s)
  {
    sign := if s != "" && (s[0] == '+' || s[0] == '-') then s[..1] else "";
    assert s == sign + Body(s);
    if sign != "" {
      assert sign == [s[0]];
    }
  }

  lemma BodyOf(sign: string, rest: string)
    requires IsSign(sign) && rest != "" && rest[0] != '+' && rest[0] != '-'
    ensures Body(sign + rest) == rest
  {
    if sign == "" {
      assert sign + rest == rest;
    } else {
      assert (sign + rest)[1..] == rest;
    }
  }

  /** A sign and a numeral without superfluous zeros. */
  ghost predicate SpellsInteger(s: string) {
    exists sign, whole :: s == sign + whole && IsSign(sign) && IsNumeral(whole)
  }

  lemma IntegerLiteralsAreExact(s: string)
    ensures IsIntegerLiteral(s) <==> SpellsInteger(s)
  {
    CanonicalIsNumeral(Body(s));
    var sign := SignOf(s);
    if sign', whole :| s == sign' + whole && IsSign(sign') && IsNumeral(whole) {
      BodyOf(sign', whole);
    }
  }

  ghost predicate PointLiteral(s: string, sign: string, whole: string, fraction: string) {
    s == sign + (whole + "." + fraction) && IsSign(sign) && IsNumeral(whole) && AreDigits(fraction)
  }

  /** A sign, such a numeral, a point and at least one digit. */
  ghost predicate SpellsDecimal(s: string) {
    exists sign, whole, fraction :: PointLiteral(s, sign, whole, fraction)
  }

  lemma {:induction false} DotIsFirst(s: string)
    ensures forall i | 0 <= i < DotAt(s) :: s[i] != '.'
  {
    if s != "" && s[0] != '.' {
      DotIsFirst(s[1..]);
      assert forall i | 0 < i < |s| :: s[i] == s[1..][i - 1];
    }
  }

  lemma DotAfter(whole: string, fraction: string)
    requires IsNumeral(whole)
    ensures DotAt(whole + "." + fraction) == |whole|
  {
    var s := whole + "." + fraction;
    DotIsFirst(s);
    assert s[|whole|] == '.';
    assert forall i | 0 <= i < |whole| :: s[i] == whole[i];
  }

  lemma SplitAt(b: string, n: nat)
    requires n < |b| && b[n] == '.'
    ensures b == b[..n] + "." + b[n + 1..]
  {
  }

  lemma DecimalIsPointed(s: string)
    requires IsDecimalLiteral(s)
    ensures SpellsDecimal(s)
  {
    var b := Body(s);
    var n := DotAt(b);
    var sign := SignOf(s);
    CanonicalIsNumeral(b[..n]);
    var whole, fraction := b[..n], b[n + 1..];
    SplitAt(b, n);
    assert PointLiteral(s, sign, whole, fraction);
  }

  lemma PointedIsDecimal(s: string, sign: string, whole: string, fraction: string)
    requires PointLiteral(s, sign, whole, fraction)
    ensures IsDecimalLiteral(s)
  {
    var b := whole + "." + fraction;
    BodyOf(sign, b);
    DotAfter(whole, fraction);
    CanonicalIsNumeral(whole);
    assert b[..|whole|] == whole && b[|whole| + 1..] == fraction;
  }

  lemma DecimalLiteralsAreExact(s: string)
    ensures IsDecimalLiteral(s) <==> SpellsDecimal(s)
  {
    if IsDecimalLiteral(s) {
      DecimalIsPointed(s);
    }
    if sign, whole, fraction :| PointLiteral(s, sign, whole, fraction) {
      PointedIsDecimal(s, sign, whole, fraction);
    }
  }

  /*** Kinds ***/

  /** White space at either end. */
  predicate Padded(s: string) {
    s != "" && (s[0] as int in SPACE_CODES || s[|s| - 1] as int in SPACE_CODES)
  }

  lemma PaddedIsStripped(s: string)
    ensures Padded(s) <==> Strip(s) != s
  {
    StripIsExact(s);
    if !Padded(s) {
      if s != "" {
        assert !IsSpace(s[0]) && !IsSpace(s[|s| - 1]);
      }
    }
  }

  /** The word in any letter case. */
  ghost predicate Spells(s: string, word: string) {
    SameLetters(s, word)
  }

  lemma WordIsSpelled(s: string, word: string)
    requires Lower(word) == word
    ensures Lower(s) == word <==> Spells(s, word)
  {
    LowerIsExact(s, word);
  }

  lemma TrueAndFalse(s: string)
    ensures Lower(s) == "true" <==> Spells(s, "true")
    ensures Lower(s) == "false" <==> Spells(s, "false")
  {
    assert Lower("true") == "true" && Lower("false") == "false";
    WordIsSpelled(s, "true");
    WordIsSpelled(s, "false");
  }

  /** The order of the tests. */
  lemma TestsInOrder(
    s: string, visible: bool, padded: bool, yes: bool, no: bool, integer: bool, decimal: bool)
    requires visible == !Blank(s) && padded == (s != Strip(s))
    requires yes == (Lower(s) == "true") && no == (Lower(s) == "false")
    requires integer == IsIntegerLiteral(s) && decimal == IsDecimalLiteral(s)
    ensures ValueKind(Raw(s)) ==
      if !visible then NullKind
      else if padded then TextKind
      else if yes || no then BooleanKind
      else if integer then IntegerKind
      else if decimal then DecimalKind
      else TextKind
  {
  }

  /** A text cell is null if blank, text if padded, and else what it spells. */
  lemma TextKindIsExact(s: string)
    ensures ValueKind(Raw(s)) == NullKind <==> !Visible(s)
    ensures Visible(s) && Padded(s) ==> ValueKind(Raw(s)) == TextKind
    ensures Visible(s) && !Padded(s) ==>
      (ValueKind(Raw(s)) == BooleanKind <==> Spells(s, "true") || Spells(s, "false"))
    ensures Visible(s) && !Padded(s) && !Spells(s, "true") && !Spells(s, "false") ==>
      && (ValueKind(Raw(s)) == IntegerKind <==> SpellsInteger(s))
      && (ValueKind(Raw(s)) == DecimalKind <==> SpellsDecimal(s) && !SpellsInteger(s))
  {
    VisibleIsNotBlank(s);
    PaddedIsStripped(s);
    TrueAndFalse(s);
    IntegerLiteralsAreExact(s);
    DecimalLiteralsAreExact(s);
    TestsInOrder(
      s, Visible(s), Padded(s), Spells(s, "true"), Spells(s, "false"), SpellsInteger(s), SpellsDecimal(s));
  }

  /** Cells that are not text have the kind of their value. */
  lemma OtherKindsAreExact(c: Cell)
    requires !c.Raw?
    ensures ValueKind(c) == NullKind <==> c == Nothing
    ensures ValueKind(c) == BooleanKind <==> c == Flag(true) || c == Flag(false)
    ensures ValueKind(c) == IntegerKind <==> exists n :: c == Whole(n)
    ensures ValueKind(c) == DecimalKind <==> exists d, text :: c == Exact(d, text) || c == Float(d, text)
    ensures ValueKind(c) == TextKind <==> exists text :: c == NotFinite(text) || c == Moment(text)
  {
    match c
    case Flag(b) => assert c == Flag(b);
    case Whole(n) => assert c == Whole(n);
    case Exact(d, text) => assert c == Exact(d, text);
    case Float(d, text) => assert c == Float(d, text);
    case NotFinite(text) => assert c == NotFinite(text);
    case Moment(iso) => assert c == Moment(iso);
    case _ =>
  }

  /*** Types ***/

  ghost predicate SomeOf(cells: seq<Cell>, kind: Kind) {
    exists c :: c in cells && ValueKind(c) == kind
  }

  lemma SomeOfIsMember(cells: seq<Cell>, kind: Kind)
    ensures SomeOf(cells, kind) <==> kind in Kinds(cells)
  {
  }

  /** What the kinds of a column's cells, nulls aside, make of its type. */
  lemma InferredTypeIsExact(cells: seq<Cell>)
    ensures var t := InferColumnType(cells);
      var boolean, integer := SomeOf(cells, BooleanKind), SomeOf(cells, IntegerKind);
      var decimal, text := SomeOf(cells, DecimalKind), SomeOf(cells, TextKind);
      && (t == BooleanColumn <==> boolean && !integer && !decimal && !text)
      && (t == IntegerColumn <==> integer && !boolean && !decimal && !text)
      && (t == DecimalColumn <==> decimal && !boolean && !text)
  {
    SomeOfIsMember(cells, BooleanKind);
    SomeOfIsMember(cells, IntegerKind);
    SomeOfIsMember(cells, DecimalKind);
    SomeOfIsMember(cells, TextKind);
    TypeOfMembers(Kinds(cells));
  }

  lemma TypeOfMembers(kinds: set<Kind>)
    ensures TypeOfKinds(kinds) == BooleanColumn <==>
      BooleanKind in kinds && IntegerKind !in kinds && DecimalKind !in kinds && TextKind !in kinds
    ensures TypeOfKinds(kinds) == IntegerColumn <==>
      IntegerKind in kinds && BooleanKind !in kinds && DecimalKind !in kinds && TextKind !in kinds
    ensures TypeOfKinds(kinds) == DecimalColumn <==>
      DecimalKind in kinds && BooleanKind !in kinds && TextKind !in kinds
  {
    var seen := kinds - {NullKind};
    assert forall k | k in kinds && k != NullKind :: k in seen;
    if seen != {} {
      assert seen - {NullKind} == seen;
      OneType(seen);
      var k :| k in seen;
      assert k.BooleanKind? || k.IntegerKind? || k.DecimalKind? || k.TextKind?;
    }
  }

  /*** Values ***/

  /** Reading a numeral digit by digit. */
  lemma NumeralsArePositional(s: string, d: nat)
    requires AllDigits(s) && d < 10
    ensures var longer := s + [(48 + d) as char];
      AllDigits(longer) && Value(longer) == 10 * Value(s) + d && Value("") == 0
  {
    var longer := s + [(48 + d) as char];
    assert longer[..|longer| - 1] == s;
  }

  lemma PartsOfLiteral(s: string, sign: string, whole: string, fraction: string)
    requires PointLiteral(s, sign, whole, fraction)
    ensures var b := Body(s);
      b == whole + "." + fraction && DotAt(b) == |whole| && b[..|whole|] == whole && b[|whole| + 1..] == fraction
  {
    var b := whole + "." + fraction;
    BodyOf(sign, b);
    DotAfter(whole, fraction);
    assert b[..|whole|] == whole && b[|whole| + 1..] == fraction;
  }

  /** A decimal literal counts in units of its last place. */
  lemma DecimalLiteralValue(s: string, sign: string, whole: string, fraction: string)
    requires PointLiteral(s, sign, whole, fraction)
    ensures IsDecimalLiteral(s) && AllDigits(whole + fraction)
    ensures DecimalOf(s) == Decimal(sign == "-", Value(whole + fraction), |fraction|)
  {
    PointedIsDecimal(s, sign, whole, fraction);
    PartsOfLiteral(s, sign, whole, fraction);
    SignDecides(s, sign, Body(s));
    NotAnInteger(s, |whole|);
  }

  lemma SignDecides(s: string, sign: string, b: string)
    requires IsSign(sign) && s == sign + b && b != "" && b[0] != '-'
    ensures IsNegative(s) <==> sign == "-"
  {
  }

  lemma NotAnInteger(s: string, n: nat)
    requires n < |Body(s)| && Body(s)[n] == '.'
    ensures !IsIntegerLiteral(s)
  {
  }

  /** The decimal text of an integer: a minus if it is below zero, and the numeral of its size. */
  ghost predicate WritesInteger(s: string, n: int) {
    exists numeral :: s == (if n < 0 then "-" else "") + numeral && IsNumeral(numeral)
      && AllDigits(numeral) && Value(numeral) == if n < 0 then -n else n
  }

  lemma DigitsAreNumeral(n: nat)
    ensures IsNumeral(Digits(n)) && Value(Digits(n)) == n
  {
    ValueOfDigits(n);
    if n == 0 {
      assert |Digits(0)| == 1;
    }
  }

  lemma IntegersAreWritten(n: int)
    ensures WritesInteger(PrintInteger(n), n)
  {
    var size := if n < 0 then -n else n;
    DigitsAreNumeral(size);
    assert PrintInteger(n) == (if n < 0 then "-" else "") + Digits(size);
  }

  /** What a cell of a boolean column becomes. */
  lemma BooleansAreExact(c: Cell)
    requires ValueKind(c) == BooleanKind
    ensures c.Flag? ==> ConvertValue(c, BooleanColumn) == Accepted(BooleanValue(c.b))
    ensures c.Raw? ==> ConvertValue(c, BooleanColumn) == Accepted(BooleanValue(Spells(c.s, "true")))
  {
    if c.Raw? {
      TrueAndFalse(c.s);
    }
  }

  /** What a cell of an integer column becomes: the number, unless it has more than 4300 digits. */
  lemma IntegersAreExact(c: Cell)
    requires ValueKind(c) == IntegerKind
    ensures c.Whole? ==> ConvertValue(c, IntegerColumn) == Accepted(IntegerValue(c.n))
    ensures c.Raw? ==> IsIntegerLiteral(c.s)
    ensures c.Raw? && |Body(c.s)| > 4300 ==> ConvertValue(c, IntegerColumn) == Crashed
    ensures c.Raw? && |Body(c.s)| <= 4300 ==>
      ConvertValue(c, IntegerColumn) ==
        Accepted(IntegerValue(if c.s[0] == '-' then 0 - Value(Body(c.s)) else Value(Body(c.s))))
  {
  }

  /** What a number in a decimal column becomes: the decimal it is. */
  lemma DecimalsAreExact(c: Cell)
    requires ValueKind(c) == DecimalKind || ValueKind(c) == IntegerKind
    ensures c.Exact? || c.Float? ==> ConvertValue(c, DecimalColumn) == Accepted(DecimalValue(c.d))
    ensures c.Whole? && c.n >= 0 && |Digits(c.n)| <= 4300 ==>
      ConvertValue(c, DecimalColumn) == Accepted(DecimalValue(Decimal(false, c.n, 0)))
    ensures c.Whole? && c.n < 0 && |Digits(-c.n)| <= 4300 ==>
      ConvertValue(c, DecimalColumn) == Accepted(DecimalValue(Decimal(true, -c.n, 0)))
    ensures c.Whole? && |Digits(if c.n < 0 then -c.n else c.n)| > 4300 ==> ConvertValue(c, DecimalColumn) == Crashed
  {
  }

  /** What a cell of a text column becomes: its own spelling, or that of its value. */
  lemma TextsAreExact(c: Cell)
    requires ValueKind(c) != NullKind
    ensures c.Raw? ==> ConvertValue(c, TextColumn) == Accepted(TextValue(c.s))
    ensures c == Flag(true) ==> ConvertValue(c, TextColumn) == Accepted(TextValue("True"))
    ensures c == Flag(false) ==> ConvertValue(c, TextColumn) == Accepted(TextValue("False"))
    ensures c.Whole? && |Digits(if c.n < 0 then -c.n else c.n)| <= 4300 ==>
      var r := ConvertValue(c, TextColumn);
      r.Accepted? && r.value.TextValue? && WritesInteger(r.value.s, c.n)
    ensures c.Whole? && |Digits(if c.n < 0 then -c.n else c.n)| > 4300 ==> ConvertValue(c, TextColumn) == Crashed
    ensures c.Exact? || c.Float? || c.NotFinite? ==> ConvertValue(c, TextColumn) == Accepted(TextValue(c.text))
    ensures c.Moment? ==> ConvertValue(c, TextColumn) == Accepted(TextValue(c.iso))
  {
    if c.Whole? {
      IntegersAreWritten(c.n);
    }
  }

  /** A null cell is absent in a column of any type. */
  lemma NullsAreAbsent(c: Cell, t: ColumnType)
    requires ValueKind(c) == NullKind
    ensures Fits(ValueKind(c), t) && ConvertValue(c, t) == Accepted(Absent)
  {
  }

  /*** Names ***/

  predicate IsNameChar(c: char) {
    97 <= c as int <= 122 || 48 <= c as int <= 57 || c == '_'
  }

  /** Name characters are kept, and a run of others becomes one underscore. */
  lemma {:induction false} RunsBecomeUnderscores(kept: string, run: string, rest: string)
    requires forall i | 0 <= i < |kept| :: IsNameChar(kept[i])
    requires run != "" && forall i | 0 <= i < |run| :: !IsNameChar(run[i])
    requires rest != "" ==> IsNameChar(rest[0])
    ensures Replaced(kept + (run + rest), false) == kept + ("_" + Replaced(rest, false))
  {
    if kept == "" {
      RunThenRest(run, rest, false);
      assert kept + (run + rest) == run + rest;
    } else {
      var all := kept + (run + rest);
      assert all[0] == kept[0] && all[1..] == kept[1..] + (run + rest);
      RunsBecomeUnderscores(kept[1..], run, rest);
      assert [kept[0]] + (kept[1..] + ("_" + Replaced(rest, false))) == kept + ("_" + Replaced(rest, false));
    }
  }

  lemma {:induction false} RunThenRest(run: string, rest: string, inRun: bool)
    requires run != "" && forall i | 0 <= i < |run| :: !IsNameChar(run[i])
    requires rest != "" ==> IsNameChar(rest[0])
    ensures Replaced(run + rest, inRun) == (if inRun then "" else "_") + Replaced(rest, false)
  {
    var all := run + rest;
    assert all[0] == run[0] && all[1..] == run[1..] + rest;
    if |run| == 1 {
      assert run[1..] + rest == rest;
      if rest != "" {
        assert Replaced(rest, true) == Replaced(rest, false);
      }
    } else {
      RunThenRest(run[1..], rest, true);
    }
  }

  lemma {:induction false} NameCharsAreKept(s: string)
    requires forall i | 0 <= i < |s| :: IsNameChar(s[i])
    ensures Replaced(s, false) == s
  {
    ReplacedKeepsPlain(s);
  }

  predicate Underscores(s: string) {
    forall i | 0 <= i < |s| :: s[i] == '_'
  }

  lemma {:induction false} TrimmedOff(s: string) returns (a: string, b: string)
    ensures s == a + (Trim(s) + b) && Underscores(a) && Underscores(b)
    decreases |s|
  {
    a, b := "", "";
    if s != "" && s[0] == '_' {
      a, b := TrimmedOff(s[1..]);
      var rest := Trim(s) + b;
      assert s == [s[0]] + (a + rest) == ([s[0]] + a) + rest;
      a := [s[0]] + a;
    } else if s != "" && s[|s| - 1] == '_' {
      var last := [s[|s| - 1]];
      a, b := TrimmedOff(s[..|s| - 1]);
      var rest := Trim(s);
      assert s == (a + (rest + b)) + last == a + (rest + (b + last));
      b := b + last;
    } else {
      assert s == "" + (s + "");
    }
  }

  lemma {:induction false} NothingLeftToTrim(s: string)
    ensures Trim(s) != "" ==> Trim(s)[0] != '_' && Trim(s)[|Trim(s)| - 1] != '_'
    decreases |s|
  {
    if s != "" && s[0] == '_' {
      NothingLeftToTrim(s[1..]);
    } else if s != "" && s[|s| - 1] == '_' {
      NothingLeftToTrim(s[..|s| - 1]);
    }
  }

  /** Only underscores are trimmed, and all of them at both ends. */
  lemma TrimIsExact(s: string)
    ensures exists a, b :: s == a + (Trim(s) + b) && Underscores(a) && Underscores(b)
    ensures Trim(s) != "" ==> Trim(s)[0] != '_' && Trim(s)[|Trim(s)| - 1] != '_'
  {
    var a, b := TrimmedOff(s);
    NothingLeftToTrim(s);
  }

  /** Colons become underscores, each by itself, and nothing else changes. */
  ghost predicate WithoutColons(plain: string, key: string) {
    && |plain| == |key|
    && forall i | 0 <= i < |key| :: plain[i] == if key[i] == ':' then '_' else key[i]
  }

  /** A safe name is the header, stripped, in small letters, with runs replaced and outer underscores trimmed. */
  lemma SafeNameOf(header: string, lowered: string)
    requires Lower(Strip(header)) == lowered
    ensures SafeColumnName(header) ==
      if Trim(Replaced(lowered, false)) != "" then Trim(Replaced(lowered, false)) else "column"
  {
  }

  /*** Profiles ***/

  /** Where a cell ends up: under the safe name of its header, converted for the header's type. */
  ghost predicate CellPlaced(rows: seq<Row>, i: nat, header: string, converted: map<string, Converted>)
    requires i < |rows|
  {
    var cells := seq(|rows|, k requires 0 <= k < |rows| =>
      if header in rows[k].cells then rows[k].cells[header] else Nothing);
    && SafeColumnName(header) in converted
    && Fits(ValueKind(cells[i]), InferColumnType(cells))
    && ConvertValue(cells[i], InferColumnType(cells)) == Accepted(converted[SafeColumnName(header)])
  }

  /** The columns of an accepted table, and its names. */
  lemma ProfileInFull(o: Origin, given: seq<string>, rows: seq<Row>)
    requires BuildProfile(o, given, rows).Accepted?
    ensures var profile := BuildProfile(o, given, rows).value;
      var headers := if given != [] then given else if rows != [] then rows[0].keys else [];
      && |profile.columns| == |headers| && |profile.rows| == |rows|
      && (forall j: nat | j < |headers| ::
            && profile.columns[j].name == SafeColumnName(headers[j])
            && profile.columns[j].description == headers[j]
            && profile.columns[j].position == j + 1)
      && (forall i: nat, j: nat | i < |rows| && j < |headers| :: CellPlaced(rows, i, headers[j], profile.rows[i]))
    ensures var profile := BuildProfile(o, given, rows).value;
      && profile.resourceKey == (
            if o.sheet.Some? && o.sheet.value != ""
            then "structured:" + o.scope + ":" + SafeColumnName(o.stem) + ("_" + SafeColumnName(o.sheet.value))
            else "structured:" + o.scope + ":" + SafeColumnName(o.stem))
      && profile.displayName == (if o.sheet.Some? then o.stem + (" - " + o.sheet.value) else o.stem)
      && exists plain :: WithoutColons(plain, profile.resourceKey) && profile.relation == SafeColumnName(plain)
  {
    var headers := HeadersOf(given, rows);
    ProfileIsExact(o, given, rows);
    assert WithoutColons(ColonsReplaced(ResourceKey(o)), ResourceKey(o));
    forall i: nat, j: nat | i < |rows| && j < |headers|
      ensures CellPlaced(rows, i, headers[j], BuildProfile(o, given, rows).value.rows[i])
    {
      PlacedCell(rows, i, headers, j, BuildProfile(o, given, rows).value.rows[i]);
    }
  }

  lemma PlacedCell(rows: seq<Row>, i: nat, headers: seq<string>, j: nat, converted: map<string, Converted>)
    requires i < |rows| && j < |headers| && RowHolds(rows, rows[i], headers, converted)
    ensures CellPlaced(rows, i, headers[j], converted)
  {
    var header := headers[j];
    assert header in headers && Holds(rows, rows[i], header, converted);
    CellFits(rows, rows[i], header);
    var cells := seq(|rows|, k requires 0 <= k < |rows| =>
      if header in rows[k].cells then rows[k].cells[header] else Nothing);
    assert CellsUnder(rows, header) == cells;
  }
}

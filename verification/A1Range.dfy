/** The A1 range codec: `ParseA1Range` and the two printers it must undo. */
module A1Range {
  import opened Wrappers
  import opened Decimal
  import opened A1Columns

  const MAX_READ_RANGE_ROWS := 1000
  const MAX_READ_RANGE_CELLS := 20000

  datatype RangeError =
    | SpreadsheetRequired
    | RangeRequired
    | UnterminatedQuote
    | MissingBang
    | NothingAfterSheet
    | BadColumn(why: ColumnError)
    | BadRow
    | BadReference
    | MixedKinds
    | UnboundedRange
    | RangeTooLarge

  datatype ParsedA1Range = ParsedA1Range(
    sheetName: string, hasSheetName: bool,
    startCol: int, endCol: int, startRow: int, endRow: int)

  datatype Reference = Cell(col: int, row: int) | RowOnly(row: int) | ColOnly

  /** A possibly absent sheet prefix and what follows it. */
  datatype Split = Split(sheetName: string, hasSheet: bool, rangePart: string)

  // ----- sheet names -----

  function DoubleQuotes(name: string): string {
    if name == "" then ""
    else (if name[0] == '\'' then "''" else [name[0]]) + DoubleQuotes(name[1..])
  }

  function QuoteSheetName(name: string): string {
    "'" + DoubleQuotes(name) + "'"
  }

  /** Reads the inside of a quoted name up to its closing quote: the name and the rest. */
  function Unquote(s: string): Option<(string, string)> {
    if s == "" then None
    else if s[0] != '\'' then Prepend(s[0], Unquote(s[1..]))
    else if |s| > 1 && s[1] == '\'' then Prepend('\'', Unquote(s[2..]))
    else Some(("", s[1..]))
  }

  function Prepend(c: char, r: Option<(string, string)>): Option<(string, string)> {
    match r
    case None => None
    case Some((name, rest)) => Some(([c] + name, rest))
  }

  /** The position of the first c in s, or |s|. */
  function FirstIndex(s: string, c: char): (i: nat)
    ensures i <= |s| && c !in s[..i]
    ensures i < |s| ==> s[i] == c
  {
    if s == "" || s[0] == c then 0 else 1 + FirstIndex(s[1..], c)
  }

  function SplitOf(s: string): Result<Split, RangeError> {
    if s != "" && s[0] == '\'' then
      match Unquote(s[1..])
      case None => Err(UnterminatedQuote)
      case Some((name, rest)) =>
        if rest == "" || rest[0] != '!' then Err(MissingBang)
        else Ok(Split(name, true, rest[1..]))
    else
      var i := FirstIndex(s, '!');
      if i < |s| then Ok(Split(s[..i], true, s[i + 1..])) else Ok(Split("", false, s))
  }

  function Glue(sb: string, r: Option<(string, string)>): Option<(string, string)> {
    match r
    case None => None
    case Some((name, rest)) => Some((sb + name, rest))
  }

  method SplitSheetAndRange(s: string) returns (r: Result<Split, RangeError>)
    ensures r == SplitOf(s)
  {
    if s != "" && s[0] == '\'' {
      var sb := "";
      var i := 1;
      var closed := false;
      GlueNothing(Unquote(s[1..]));
      while i < |s|
        invariant 1 <= i <= |s|
        invariant !closed && Unquote(s[1..]) == Glue(sb, Unquote(s[i..]))
      {
        assert s[i..][1..] == s[i + 1..];
        if s[i] == '\'' {
          if i + 1 < |s| && s[i + 1] == '\'' {
            assert s[i..][2..] == s[i + 2..];
            GlueStep(sb, '\'', Unquote(s[i + 2..]));
            sb := sb + "'";
            i := i + 2;
            continue;
          }
          assert sb + "" == sb;
          i := i + 1;
          closed := true;
          break;
        }
        GlueStep(sb, s[i], Unquote(s[i + 1..]));
        sb := sb + [s[i]];
        i := i + 1;
      }
      if !closed {
        assert s[i..] == "";
        return Err(UnterminatedQuote);
      }
      if i >= |s| || s[i] != '!' {
        return Err(MissingBang);
      }
      return Ok(Split(sb, true, s[i + 1..]));
    }
    var idx := FirstIndex(s, '!');
    if idx < |s| {
      return Ok(Split(s[..idx], true, s[idx + 1..]));
    }
    return Ok(Split("", false, s));
  }

  lemma {:induction false} GlueNothing(r: Option<(string, string)>)
    ensures Glue("", r) == r
  {
    if r.Some? {
      assert "" + r.value.0 == r.value.0;
    }
  }

  /** Moving one character from the input to the builder leaves the outcome alone. */
  lemma {:induction false} GlueStep(sb: string, c: char, r: Option<(string, string)>)
    ensures Glue(sb, Prepend(c, r)) == Glue(sb + [c], r)
  {
    if r.Some? {
      assert sb + ([c] + r.value.0) == sb + [c] + r.value.0;
    }
  }

  // ----- references -----

  function LeadingLetters(s: string): (k: nat)
    ensures k <= |s| && AllLetters(s[..k])
    ensures k < |s| ==> !IsLetter(s[k])
  {
    if s == "" || !IsLetter(s[0]) then 0 else 1 + LeadingLetters(s[1..])
  }

  function RowNumber(digits: string): Result<int, RangeError>
    requires AllDigits(digits)
  {
    match Atoi(digits)
    case None => Err(BadRow)
    case Some(row) => if row < 1 then Err(BadRow) else Ok(row)
  }

  function ClassifyA1Ref(s: string): Result<Reference, RangeError> {
    var k := LeadingLetters(s);
    if 0 < k < |s| && AllDigits(s[k..]) then
      match IndexOf(s[..k])
      case Err(e) => Err(BadColumn(e))
      case Ok(col) =>
        match RowNumber(s[k..])
        case Err(e) => Err(e)
        case Ok(row) => Ok(Cell(col, row))
    else if s != "" && AllDigits(s) then
      match RowNumber(s)
      case Err(e) => Err(e)
      case Ok(row) => Ok(RowOnly(row))
    else if s != "" && k == |s| then Ok(ColOnly)
    else Err(BadReference)
  }

  function SplitRangeParts(rangePart: string): (string, string) {
    var i := FirstIndex(rangePart, ':');
    if i < |rangePart| then (rangePart[..i], rangePart[i + 1..]) else (rangePart, rangePart)
  }

  // ----- parsing -----

  predicate IsSpace(c: char) {
    || '\t' <= c <= '\r'
    || c == ' ' || c == '\U{85}' || c == '\U{A0}' || c == '\U{1680}' || c == '\U{2028}'
    || c == '\U{2029}' || c == '\U{202F}' || c == '\U{205F}' || c == '\U{3000}'
    || '\U{2000}' <= c <= '\U{200A}'
  }

  function TrimSpace(s: string): (t: string)
    ensures t != "" ==> !IsSpace(t[0]) && !IsSpace(t[|t| - 1])
    ensures s != "" && !IsSpace(s[0]) && !IsSpace(s[|s| - 1]) ==> t == s
  {
    if s == "" then ""
    else if IsSpace(s[0]) then TrimSpace(s[1..])
    else if IsSpace(s[|s| - 1]) then TrimSpace(s[..|s| - 1])
    else s
  }

  function Min(a: int, b: int): int {
    if a <= b then a else b
  }

  function Max(a: int, b: int): int {
    if a <= b then b else a
  }

  /** The classified halves of a range: same kind, row-bounded, bounds put in ascending order. */
  function Combine(split: Split, left: Reference, right: Reference): Result<ParsedA1Range, RangeError> {
    match (left, right)
    case (ColOnly, ColOnly) => Err(UnboundedRange)
    case (RowOnly(a), RowOnly(b)) =>
      Ok(ParsedA1Range(split.sheetName, split.hasSheet, -1, -1, Min(a, b), Max(a, b)))
    case (Cell(c, a), Cell(d, b)) =>
      Ok(ParsedA1Range(split.sheetName, split.hasSheet, Min(c, d), Max(c, d), Min(a, b), Max(a, b)))
    case _ => Err(MixedKinds)
  }

  function ParseRangePart(split: Split): Result<ParsedA1Range, RangeError> {
    if split.rangePart == "" then Err(NothingAfterSheet)
    else
      var (left, right) := SplitRangeParts(split.rangePart);
      match ClassifyA1Ref(left)
      case Err(e) => Err(e)
      case Ok(l) =>
        match ClassifyA1Ref(right)
        case Err(e) => Err(e)
        case Ok(r) => Combine(split, l, r)
  }

  function ParseA1Range(s: string): Result<ParsedA1Range, RangeError> {
    var trimmed := TrimSpace(s);
    if trimmed == "" then Err(RangeRequired)
    else
      match SplitOf(trimmed)
      case Err(e) => Err(e)
      case Ok(split) => ParseRangePart(split)
  }

  // ----- printing -----

  function CellRef(col: nat, row: nat): string {
    Letters(col) + Format(row)
  }

  function FormatA1Range(sheetName: string, startCol: nat, endCol: nat, startRow: nat, endRow: nat): string {
    QuoteSheetName(sheetName) + "!" + (CellRef(startCol, startRow) + ":" + CellRef(endCol, endRow))
  }

  function A1RowRange(sheetName: string, row1: nat, row2: nat): string {
    QuoteSheetName(sheetName) + "!" + (Format(row1) + ":" + Format(row2))
  }

  // ----- printing then parsing -----

  /** The name inside quotes is read back exactly, and only quoted text reads that way. */
  lemma {:induction false} UnquoteInverse(s: string, name: string, rest: string)
    ensures Unquote(s) == Some((name, rest))
       <==> s == DoubleQuotes(name) + "'" + rest && (rest == "" || rest[0] != '\'')
    decreases |s| + |name|
  {
    if s == DoubleQuotes(name) + "'" + rest && (rest == "" || rest[0] != '\'') {
      UnquoteDoubled(name, rest);
    }
    if Unquote(s) == Some((name, rest)) {
      DoubledUnquote(s);
    }
  }

  lemma {:induction false} UnquoteDoubled(name: string, rest: string)
    requires rest == "" || rest[0] != '\''
    ensures Unquote(DoubleQuotes(name) + "'" + rest) == Some((name, rest))
  {
    var s := DoubleQuotes(name) + "'" + rest;
    if name == "" {
      assert s == "'" + rest;
      assert s[1..] == rest;
    } else {
      UnquoteDoubled(name[1..], rest);
      var tail := DoubleQuotes(name[1..]) + "'" + rest;
      if name[0] == '\'' {
        assert s == "''" + tail && s[2..] == tail;
      } else {
        assert s == [name[0]] + tail && s[1..] == tail;
      }
      assert [name[0]] + name[1..] == name;
    }
  }

  lemma {:induction false} DoubledUnquote(s: string)
    requires Unquote(s).Some?
    ensures var (name, rest) := Unquote(s).value;
            s == DoubleQuotes(name) + "'" + rest && (rest == "" || rest[0] != '\'')
  {
    var (name, rest) := Unquote(s).value;
    if s[0] != '\'' {
      DoubledUnquote(s[1..]);
      assert name[1..] == Unquote(s[1..]).value.0;
      assert s == [s[0]] + s[1..];
    } else if |s| > 1 && s[1] == '\'' {
      DoubledUnquote(s[2..]);
      assert name[1..] == Unquote(s[2..]).value.0;
      assert s == "''" + s[2..];
    } else {
      assert s == "'" + s[1..];
    }
  }

  lemma {:induction false} FirstIndexOfConcat(a: string, c: char, b: string)
    requires c !in a
    ensures FirstIndex(a + [c] + b, c) == |a|
  {
    if a != "" {
      assert (a + [c] + b)[1..] == a[1..] + [c] + b;
      FirstIndexOfConcat(a[1..], c, b);
    }
  }

  lemma {:induction false} LeadingLettersOfConcat(letters: string, digits: string)
    requires AllLetters(letters) && AllDigits(digits)
    ensures LeadingLetters(letters + digits) == |letters|
  {
    var s := letters + digits;
    if letters != "" {
      assert s[1..] == letters[1..] + digits;
      LeadingLettersOfConcat(letters[1..], digits);
    }
  }

  lemma {:induction false} ClassifyCell(col: nat, row: nat)
    requires col <= MAX_COLUMN_INDEX && 1 <= row <= MAX_INT
    ensures ClassifyA1Ref(CellRef(col, row)) == Ok(Cell(col, row))
    ensures ':' !in CellRef(col, row)
  {
    var s := CellRef(col, row);
    LeadingLettersOfConcat(Letters(col), Format(row));
    assert s[..|Letters(col)|] == Letters(col) && s[|Letters(col)|..] == Format(row);
    IndexOfLetters(col);
    AtoiOfFormat(row);
  }

  lemma {:induction false} ClassifyDigits(s: string, row: nat)
    requires s != "" && AllDigits(s) && Atoi(s) == Some(row) && 1 <= row
    ensures ClassifyA1Ref(s) == Ok(RowOnly(row))
  {
    assert IsDigit(s[0]);
    assert LeadingLetters(s) == 0;
  }

  lemma {:induction false} ClassifyRow(row: nat)
    requires 1 <= row <= MAX_INT
    ensures ClassifyA1Ref(Format(row)) == Ok(RowOnly(row))
    ensures ':' !in Format(row)
  {
    AtoiOfFormat(row);
    ClassifyDigits(Format(row), row);
  }

  /** The sheet prefix of a printed range is read back exactly. */
  lemma {:induction false} SplitOfQuoted(sheetName: string, part: string)
    ensures SplitOf(QuoteSheetName(sheetName) + "!" + part) == Ok(Split(sheetName, true, part))
  {
    var s := QuoteSheetName(sheetName) + "!" + part;
    var rest := "!" + part;
    UnquoteDoubled(sheetName, rest);
    assert s[1..] == DoubleQuotes(sheetName) + "'" + rest;
    assert rest[1..] == part;
  }

  lemma {:induction false} SplitPartsOf(left: string, right: string)
    requires ':' !in left
    ensures SplitRangeParts(left + ":" + right) == (left, right)
  {
    var part := left + ":" + right;
    FirstIndexOfConcat(left, ':', right);
    assert part[..|left|] == left && part[|left| + 1..] == right;
  }

  /** Parsing a printed range comes down to classifying its two halves. */
  lemma {:induction false} ParseQuoted(sheetName: string, left: string, right: string)
    requires ':' !in left && right != "" && !IsSpace(right[|right| - 1])
    ensures ParseA1Range(QuoteSheetName(sheetName) + "!" + (left + ":" + right))
         == ParseRangePart(Split(sheetName, true, left + ":" + right))
  {
    var s := QuoteSheetName(sheetName) + "!" + (left + ":" + right);
    SplitOfQuoted(sheetName, left + ":" + right);
    assert s[0] == '\'' && s[|s| - 1] == right[|right| - 1];
    assert TrimSpace(s) == s;
  }

  lemma {:induction false} FormatEndsInDigit(n: nat)
    ensures !IsSpace(Format(n)[|Format(n)| - 1])
  {
    assert IsDigit(Format(n)[|Format(n)| - 1]);
  }

  /** Parsing undoes `formatA1Range` for every sheet name and every range a sheet can have. */
  lemma {:induction false} ParseOfFormat(sheetName: string, startCol: nat, endCol: nat, startRow: nat, endRow: nat)
    requires startCol <= endCol <= MAX_COLUMN_INDEX && 1 <= startRow <= endRow <= MAX_INT
    ensures ParseA1Range(FormatA1Range(sheetName, startCol, endCol, startRow, endRow))
         == Ok(ParsedA1Range(sheetName, true, startCol, endCol, startRow, endRow))
  {
    ClassifyCell(startCol, startRow);
    ClassifyCell(endCol, endRow);
    FormatEndsInDigit(endRow);
    SplitPartsOf(CellRef(startCol, startRow), CellRef(endCol, endRow));
    ParseQuoted(sheetName, CellRef(startCol, startRow), CellRef(endCol, endRow));
  }

  /** Parsing undoes `a1RowRange`, giving the same rows with the columns left open. */
  lemma {:induction false} ParseOfRowRange(sheetName: string, row1: nat, row2: nat)
    requires 1 <= row1 <= row2 <= MAX_INT
    ensures ParseA1Range(A1RowRange(sheetName, row1, row2))
         == Ok(ParsedA1Range(sheetName, true, -1, -1, row1, row2))
  {
    ClassifyRow(row1);
    ClassifyRow(row2);
    FormatEndsInDigit(row2);
    SplitPartsOf(Format(row1), Format(row2));
    ParseQuoted(sheetName, Format(row1), Format(row2));
  }

  /** The upstream range string determines the sheet and the rectangle it reads. */
  lemma {:induction false} FormatInjective(a: ParsedA1Range, b: ParsedA1Range)
    requires a.hasSheetName && b.hasSheetName && WellFormed(a) && WellFormed(b)
    requires 0 <= a.startCol && 0 <= b.startCol
    requires FormatA1Range(a.sheetName, a.startCol, a.endCol, a.startRow, a.endRow)
          == FormatA1Range(b.sheetName, b.startCol, b.endCol, b.startRow, b.endRow)
    ensures a == b
  {
    ParseOfFormat(a.sheetName, a.startCol, a.endCol, a.startRow, a.endRow);
    ParseOfFormat(b.sheetName, b.startCol, b.endCol, b.startRow, b.endRow);
  }

  // ----- what is accepted -----

  predicate WellFormed(r: ParsedA1Range) {
    && 1 <= r.startRow <= r.endRow <= MAX_INT
    && (r.startCol == r.endCol == -1 || 0 <= r.startCol <= r.endCol <= MAX_COLUMN_INDEX)
    && (!r.hasSheetName ==> r.sheetName == "")
  }

  predicate IsAlphanumeric(s: string) {
    forall i :: 0 <= i < |s| ==> IsLetter(s[i]) || IsDigit(s[i])
  }

  predicate InBounds(ref: Reference) {
    match ref
    case Cell(col, row) => 0 <= col <= MAX_COLUMN_INDEX && 1 <= row <= MAX_INT
    case RowOnly(row) => 1 <= row <= MAX_INT
    case ColOnly => true
  }

  lemma {:induction false} ClassifySound(s: string)
    requires ClassifyA1Ref(s).Ok?
    ensures InBounds(ClassifyA1Ref(s).value)
    ensures IsAlphanumeric(s)
  {
    var k := LeadingLetters(s);
    if 0 < k < |s| && AllDigits(s[k..]) {
      ColumnIndexAccepts(s[..k]);
      forall i | 0 <= i < |s| ensures IsLetter(s[i]) || IsDigit(s[i]) {
        if i < k { assert s[..k][i] == s[i]; } else { assert s[k..][i - k] == s[i]; }
      }
    } else if !AllDigits(s) {
      assert s[..k] == s;
    }
  }

  /** Every accepted range is well formed. */
  lemma {:induction false} AcceptedIsWellFormed(s: string)
    requires ParseA1Range(s).Ok?
    ensures WellFormed(ParseA1Range(s).value)
  {
    SplitNamesSheet(TrimSpace(s));
    PartIsWellFormed(SplitOf(TrimSpace(s)).value);
  }

  lemma SplitNamesSheet(s: string)
    ensures SplitOf(s).Ok? && !SplitOf(s).value.hasSheet ==> SplitOf(s).value.sheetName == ""
  {
  }

  lemma {:induction false} PartIsWellFormed(split: Split)
    requires ParseRangePart(split).Ok? && (!split.hasSheet ==> split.sheetName == "")
    ensures WellFormed(ParseRangePart(split).value)
  {
    var (left, right) := SplitRangeParts(split.rangePart);
    ClassifySound(left);
    ClassifySound(right);
    CombineIsWellFormed(split, ClassifyA1Ref(left).value, ClassifyA1Ref(right).value);
  }

  lemma CombineIsWellFormed(split: Split, left: Reference, right: Reference)
    requires InBounds(left) && InBounds(right) && (!split.hasSheet ==> split.sheetName == "")
    ensures Combine(split, left, right).Ok? ==> WellFormed(Combine(split, left, right).value)
  {
  }

  /** A string that is alphanumeric except perhaps at position i. */
  predicate AlphanumericBut(s: string, i: nat) {
    forall j :: 0 <= j < |s| && j != i ==> IsLetter(s[j]) || IsDigit(s[j])
  }

  lemma {:induction false} HalvesCover(s: string, i: nat)
    requires i < |s| && IsAlphanumeric(s[..i]) && IsAlphanumeric(s[i + 1..])
    ensures AlphanumericBut(s, i)
  {
    var left, right := s[..i], s[i + 1..];
    forall j | 0 <= j < |s| && j != i ensures IsLetter(s[j]) || IsDigit(s[j]) {
      assert if j < i then s[j] == left[j] else s[j] == right[j - i - 1];
    }
  }

  /** A sheet name cannot hide a second range: after the split, an accepted range part is
      letters and digits with at most one ":". */
  lemma {:induction false} AcceptedIsOneRange(s: string)
    requires ParseA1Range(s).Ok?
    ensures var part := SplitOf(TrimSpace(s)).value.rangePart;
            AlphanumericBut(part, FirstIndex(part, ':'))
  {
    var part := SplitOf(TrimSpace(s)).value.rangePart;
    var (left, right) := SplitRangeParts(part);
    ClassifySound(left);
    ClassifySound(right);
    if FirstIndex(part, ':') < |part| {
      HalvesCover(part, FirstIndex(part, ':'));
    }
  }

  lemma {:induction false} ColOnlyExactly(s: string)
    ensures ClassifyA1Ref(s) == Ok(ColOnly) <==> s != "" && AllLetters(s)
  {
    var k := LeadingLetters(s);
    if k == |s| {
      assert s[..k] == s;
      if s != "" { assert IsLetter(s[0]); }
    }
  }

  /** Classification fails only for reasons of its own. */
  lemma ClassifyErrors(s: string)
    ensures ClassifyA1Ref(s).Err? ==>
              ClassifyA1Ref(s).error.BadColumn? || ClassifyA1Ref(s).error in {BadRow, BadReference}
  {
  }

  /** A range part is refused as unbounded exactly when both its halves are bare column
      letters; no part is refused as too large. */
  lemma {:induction false} UnboundedExactly(split: Split)
    ensures var (left, right) := SplitRangeParts(split.rangePart);
            ParseRangePart(split) == Err(UnboundedRange)
            <==> left != "" && right != "" && AllLetters(left) && AllLetters(right)
    ensures ParseRangePart(split) != Err(RangeTooLarge)
  {
    var (left, right) := SplitRangeParts(split.rangePart);
    ColOnlyExactly(left);
    ColOnlyExactly(right);
    ClassifyErrors(left);
    ClassifyErrors(right);
  }

  /** The range a read echoes back means what it says: formatting an accepted cell range under
      its sheet name and parsing again changes nothing. */
  lemma {:induction false} FormatOfParse(s: string)
    requires ParseA1Range(s).Ok? && ParseA1Range(s).value.startCol >= 0
    ensures WellFormed(ParseA1Range(s).value)
    ensures (var r := ParseA1Range(s).value;
             ParseA1Range(FormatA1Range(r.sheetName, r.startCol, r.endCol, r.startRow, r.endRow))
             == Ok(r.(hasSheetName := true)))
  {
    AcceptedIsWellFormed(s);
    var r := ParseA1Range(s).value;
    ParseOfFormat(r.sheetName, r.startCol, r.endCol, r.startRow, r.endRow);
  }

  // ----- size caps on 64-bit arithmetic -----

  /** Two's complement wrap-around of a 64-bit int. */
  function Wrap64(x: int): int {
    (x + 0x8000_0000_0000_0000) % 0x1_0000_0000_0000_0000 - 0x8000_0000_0000_0000
  }

  lemma WrapIsIdentity(x: int)
    requires -0x8000_0000_0000_0000 <= x < 0x8000_0000_0000_0000
    ensures Wrap64(x) == x
  {
  }

  function RowSpan(r: ParsedA1Range): int {
    Wrap64(Wrap64(r.endRow - r.startRow) + 1)
  }

  function ColSpan(r: ParsedA1Range): int {
    if r.startCol < 0 then -1 else Wrap64(Wrap64(r.endCol - r.startCol) + 1)
  }

  function CellCount(r: ParsedA1Range): int {
    if ColSpan(r) < 0 then -1 else Wrap64(RowSpan(r) * ColSpan(r))
  }

  /** The pre-fetch caps; a negative cell count skips the second half. */
  predicate WithinCaps(rowSpan: int, cellCount: int) {
    rowSpan <= MAX_READ_RANGE_ROWS && !(cellCount >= 0 && cellCount > MAX_READ_RANGE_CELLS)
  }

  function ValidateReadRangeInput(spreadsheetId: string, rangeStr: string): Result<ParsedA1Range, RangeError> {
    if spreadsheetId == "" then Err(SpreadsheetRequired)
    else
      match ParseA1Range(rangeStr)
      case Err(e) => Err(e)
      case Ok(r) => if WithinCaps(RowSpan(r), CellCount(r)) then Ok(r) else Err(RangeTooLarge)
  }

  /** The size of the rectangle, without wrap-around. */
  ghost predicate TrulySmall(r: ParsedA1Range) {
    && r.endRow - r.startRow + 1 <= MAX_READ_RANGE_ROWS
    && (r.startCol >= 0 ==> (r.endRow - r.startRow + 1) * (r.endCol - r.startCol + 1) <= MAX_READ_RANGE_CELLS)
  }

  lemma {:induction false} SpansAreTrue(r: ParsedA1Range)
    requires WellFormed(r)
    ensures RowSpan(r) == r.endRow - r.startRow + 1
    ensures ColSpan(r) == if r.startCol < 0 then -1 else r.endCol - r.startCol + 1
  {
    WrapIsIdentity(r.endRow - r.startRow);
    WrapIsIdentity(r.endRow - r.startRow + 1);
    WrapIsIdentity(r.endCol - r.startCol);
    WrapIsIdentity(r.endCol - r.startCol + 1);
  }

  lemma ProductBound(rows: int, cols: int)
    requires 1 <= rows <= MAX_READ_RANGE_ROWS && 1 <= cols
    ensures 0 <= rows * cols <= MAX_READ_RANGE_ROWS * cols
  {
  }

  lemma {:induction false} SmallProductFits(rows: int, cols: int)
    requires 1 <= rows <= MAX_READ_RANGE_ROWS && 1 <= cols <= MAX_COLUMN_INDEX + 1
    ensures Wrap64(rows * cols) == rows * cols >= 0
  {
    ProductBound(rows, cols);
    WrapIsIdentity(rows * cols);
  }

  /** The wrapped check decides the true size: a product that could wrap belongs to a row
      span the first half has already refused. */
  lemma {:induction false} CapsAreExact(r: ParsedA1Range)
    requires WellFormed(r)
    ensures WithinCaps(RowSpan(r), CellCount(r)) <==> TrulySmall(r)
  {
    SpansAreTrue(r);
    if r.startCol >= 0 && RowSpan(r) <= MAX_READ_RANGE_ROWS {
      SmallProductFits(RowSpan(r), ColSpan(r));
    }
  }

  /** Validation accepts exactly the parsed ranges whose true size is within both caps. */
  lemma {:induction false} ValidateExactly(spreadsheetId: string, rangeStr: string)
    ensures var v := ValidateReadRangeInput(spreadsheetId, rangeStr);
            var p := ParseA1Range(rangeStr);
            && (v.Ok? <==> spreadsheetId != "" && p.Ok? && TrulySmall(p.value))
            && (v.Ok? ==> v == p && WellFormed(v.value))
            && (v == Err(RangeTooLarge) ==> p.Ok? && !TrulySmall(p.value))
  {
    var p := ParseA1Range(rangeStr);
    if p.Ok? {
      AcceptedIsWellFormed(rangeStr);
      CapsAreExact(p.value);
    } else {
      var trimmed := TrimSpace(rangeStr);
      if trimmed != "" && SplitOf(trimmed).Ok? {
        UnboundedExactly(SplitOf(trimmed).value);
      }
    }
  }

  /** No product that wraps negative slips past the check: its row span is over the cap. */
  lemma {:induction false} NoOverflowSlipsPast(r: ParsedA1Range)
    requires WellFormed(r) && r.startCol >= 0 && CellCount(r) < 0
    ensures RowSpan(r) > MAX_READ_RANGE_ROWS
  {
    SpansAreTrue(r);
    if RowSpan(r) <= MAX_READ_RANGE_ROWS {
      SmallProductFits(RowSpan(r), ColSpan(r));
    }
  }

  /** The cell count is the true one exactly if that fits a 64-bit int. */
  lemma {:induction false} CellCountExactly(r: ParsedA1Range)
    requires WellFormed(r) && r.startCol >= 0
    ensures var cells := (r.endRow - r.startRow + 1) * (r.endCol - r.startCol + 1);
            CellCount(r) == cells <==> cells <= MAX_INT
  {
    SpansAreTrue(r);
    var cells := (r.endRow - r.startRow + 1) * (r.endCol - r.startCol + 1);
    PositiveProduct(r.endRow - r.startRow + 1, r.endCol - r.startCol + 1);
    WrapFits(cells);
  }

  lemma PositiveProduct(rows: int, cols: int)
    requires rows >= 1 && cols >= 1
    ensures rows * cols >= 1
  {
  }

  lemma WrapFits(x: nat)
    ensures Wrap64(x) == x <==> x <= MAX_INT
  {
  }

  /** A well-formed range can be as tall as that: two columns over all rows wrap to a negative count. */
  lemma {:induction false} CellCountCanWrapNegative(r: ParsedA1Range)
    requires WellFormed(r)
    requires r.startCol >= 0 && r.endCol == r.startCol + 1 && r.startRow == 1 && r.endRow == MAX_INT
    ensures CellCount(r) == -2
    ensures !WithinCaps(RowSpan(r), CellCount(r))
  {
    SpansAreTrue(r);
    assert RowSpan(r) * ColSpan(r) == MAX_INT + MAX_INT;
    WrapOfDouble();
  }

  lemma WrapOfDouble()
    ensures Wrap64(MAX_INT + MAX_INT) == -2
  {
  }
}

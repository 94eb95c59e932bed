/** The texts that `ParseA1Range` accepts, as a grammar, and what each of them means. */
module A1Grammar {
  import opened Wrappers
  import opened Decimal
  import opened A1Columns
  import opened A1Range

  // ----- references -----

  /** A row number that a sheet can have. */
  ghost predicate IsRow(text: string, row: int) {
    text != "" && AllDigits(text) && Value(text) == row && 1 <= row <= MAX_INT
  }

  /** A cell: the letters of its column, in either case, and its row. */
  ghost predicate IsCell(text: string, col: int, row: int) {
    0 <= col <= MAX_COLUMN_INDEX && exists k :: 0 < k < |text| && IsCellAt(text, k, col, row)
  }

  ghost predicate IsCellAt(text: string, k: nat, col: nat, row: int)
    requires k < |text|
  {
    AllLetters(text[..k]) && ToUpper(text[..k]) == Letters(col) && IsRow(text[k..], row)
  }

  lemma {:induction false} LettersEndAt(text: string, k: nat)
    requires k <= |text| && AllLetters(text[..k]) && (k < |text| ==> !IsLetter(text[k]))
    ensures LeadingLetters(text) == k
  {
    var n := LeadingLetters(text);
    assert forall i :: 0 <= i < k ==> text[..k][i] == text[i];
    assert forall i :: 0 <= i < n ==> text[..n][i] == text[i];
  }

  /** Letters followed by digits split in one place only. */
  lemma {:induction false} OneSplit(text: string, k: nat)
    requires 0 < k < |text| && AllLetters(text[..k]) && AllDigits(text[k..])
    ensures LeadingLetters(text) == k && !AllDigits(text)
  {
    assert IsDigit(text[k..][0]) && IsLetter(text[..k][0]);
    LettersEndAt(text, k);
  }

  lemma {:induction false} UpperIndex(letters: string, col: nat)
    requires AllLetters(letters) && letters != "" && col <= MAX_COLUMN_INDEX
    ensures IndexOf(letters) == Ok(col) <==> ToUpper(letters) == Letters(col)
  {
    ColumnIndexAccepts(letters);
    if ToUpper(letters) == Letters(col) {
      IndexOfLetters(col);
      UpperOfLetters(Letters(col));
      assert ToUpper(Letters(col)) == ToUpper(letters);
    }
  }

  lemma {:induction false} CellAtExactly(text: string, k: nat, col: nat, row: int)
    requires 0 < k < |text| && AllLetters(text[..k]) && AllDigits(text[k..]) && col <= MAX_COLUMN_INDEX
    ensures ClassifyA1Ref(text) == Ok(Cell(col, row)) <==> IsCellAt(text, k, col, row)
  {
    OneSplit(text, k);
    UpperIndex(text[..k], col);
  }

  /** Cells are read as cells, and nothing else is. */
  lemma {:induction false} CellExactly(text: string, col: int, row: int)
    ensures ClassifyA1Ref(text) == Ok(Cell(col, row)) <==> IsCell(text, col, row)
  {
    var k := LeadingLetters(text);
    if ClassifyA1Ref(text) == Ok(Cell(col, row)) {
      ColumnIndexAccepts(text[..k]);
      CellAtExactly(text, k, col, row);
    }
    if IsCell(text, col, row) {
      var j :| 0 < j < |text| && IsCellAt(text, j, col, row);
      CellAtExactly(text, j, col, row);
    }
  }

  /** Row numbers are read as rows, and nothing else is. */
  lemma {:induction false} RowExactly(text: string, row: int)
    ensures ClassifyA1Ref(text) == Ok(RowOnly(row)) <==> IsRow(text, row)
  {
    if text != "" && AllDigits(text) {
      assert IsDigit(text[0]);
      assert LeadingLetters(text) == 0;
    }
  }

  ghost predicate Means(text: string, ref: Reference) {
    match ref
    case Cell(col, row) => IsCell(text, col, row)
    case RowOnly(row) => IsRow(text, row)
    case ColOnly => text != "" && AllLetters(text)
  }

  /** A text means what it is classified as, and is refused if it means nothing. */
  lemma {:induction false} MeansExactly(text: string, ref: Reference)
    ensures ClassifyA1Ref(text) == Ok(ref) <==> Means(text, ref)
  {
    match ref
    case Cell(col, row) => CellExactly(text, col, row);
    case RowOnly(row) => RowExactly(text, row);
    case ColOnly => ColOnlyExactly(text);
  }

  /** Letters, perhaps none, and then digits. */
  ghost predicate LettersThenDigits(text: string, k: int) {
    0 <= k < |text| && AllLetters(text[..k]) && AllDigits(text[k..])
  }

  /** What means nothing is refused for a column past the last, for a row that no sheet has, or as no
      reference at all. */
  lemma {:induction false} ClassifyRefuses(text: string)
    ensures ClassifyA1Ref(text) == Err(BadColumn(PastLastColumn)) <==> exists k :: k > 3 && LettersThenDigits(text, k)
    ensures ClassifyA1Ref(text) == Err(BadRow)
            <==> exists k :: k <= 3 && LettersThenDigits(text, k) && !(1 <= Value(text[k..]) <= MAX_INT)
    ensures ClassifyA1Ref(text).Err? ==> ClassifyA1Ref(text).error in {BadColumn(PastLastColumn), BadRow, BadReference}
  {
    var n := LeadingLetters(text);
    forall k | LettersThenDigits(text, k) ensures k == n {
      assert IsDigit(text[k..][0]);
      LettersEndAt(text, k);
    }
    if 0 < n < |text| {
      ColumnIndexAccepts(text[..n]);
      assert LettersThenDigits(text, n) <==> AllDigits(text[n..]);
    }
    assert text[0..] == text;
    assert LettersThenDigits(text, 0) <==> text != "" && AllDigits(text);
  }

  // ----- the sheet -----

  /** Does not begin with a quote. */
  predicate Plain(s: string) {
    s == "" || s[0] != '\''
  }

  /** A sheet name in quotes, with its quotes doubled; a plain one up to the first "!"; or none at all. */
  ghost predicate Addresses(s: string, split: Split) {
    if !split.hasSheet then split.sheetName == "" && split.rangePart == s && Plain(s) && '!' !in s
    else
      || s == QuoteSheetName(split.sheetName) + "!" + split.rangePart
      || (Plain(s) && '!' !in split.sheetName && s == split.sheetName + "!" + split.rangePart)
  }

  lemma Regroup(a: string, b: string, c: string)
    ensures a + (b + c) == (a + b) + c
  {
  }

  lemma {:induction false} DoubleQuotesOfConcat(a: string, b: string)
    ensures DoubleQuotes(a + b) == DoubleQuotes(a) + DoubleQuotes(b)
  {
    if a == "" {
      assert a + b == b;
    } else {
      var first := if a[0] == '\'' then "''" else [a[0]];
      DoubleQuotesOfConcat(a[1..], b);
      assert (a + b)[1..] == a[1..] + b;
      Regroup(first, DoubleQuotes(a[1..]), DoubleQuotes(b));
    }
  }

  lemma {:induction false} NothingToDouble(a: string)
    requires '\'' !in a
    ensures DoubleQuotes(a) == a
  {
    if a != "" {
      NothingToDouble(a[1..]);
      assert a == [a[0]] + a[1..];
    }
  }

  /** Doubling touches the quotes and nothing else. */
  lemma {:induction false} QuotesAreDoubled(a: string, b: string)
    requires '\'' !in a
    ensures DoubleQuotes(a) == a
    ensures DoubleQuotes(a + "'" + b) == a + "''" + DoubleQuotes(b)
  {
    NothingToDouble(a);
    DoubleQuotesOfConcat(a, "'");
    DoubleQuotesOfConcat(a + "'", b);
    assert DoubleQuotes("'") == "''" + DoubleQuotes("") == "''";
  }

  lemma {:induction false} QuotedSplit(s: string)
    requires !Plain(s) && SplitOf(s).Ok?
    ensures SplitOf(s).value.hasSheet
    ensures s == QuoteSheetName(SplitOf(s).value.sheetName) + "!" + SplitOf(s).value.rangePart
  {
    DoubledUnquote(s[1..]);
    var (name, rest) := Unquote(s[1..]).value;
    assert rest == "!" + rest[1..];
    assert s == "'" + s[1..];
  }

  lemma {:induction false} PlainSplit(name: string, part: string)
    requires Plain(name + "!" + part) && '!' !in name
    ensures SplitOf(name + "!" + part) == Ok(Split(name, true, part))
  {
    FirstIndexOfConcat(name, '!', part);
    var s := name + "!" + part;
    assert s[..|name|] == name && s[|name| + 1..] == part;
  }

  /** A text is split as it is addressed, and refused if it is not. */
  lemma {:induction false} SplitExactly(s: string, split: Split)
    ensures SplitOf(s) == Ok(split) <==> Addresses(s, split)
  {
    if SplitOf(s) == Ok(split) {
      if Plain(s) {
        var i := FirstIndex(s, '!');
        assert i < |s| ==> s == s[..i] + "!" + s[i + 1..];
        assert i == |s| ==> s[..i] == s;
      } else {
        QuotedSplit(s);
      }
    }
    if Addresses(s, split) {
      if !split.hasSheet {
        assert FirstIndex(s, '!') == |s|;
      } else if s == QuoteSheetName(split.sheetName) + "!" + split.rangePart {
        SplitOfQuoted(split.sheetName, split.rangePart);
      } else {
        PlainSplit(split.sheetName, split.rangePart);
      }
    }
  }

  /** The two ways in which a quoted name goes wrong. */
  lemma {:induction false} QuoteErrors(s: string)
    ensures SplitOf(s) == Err(UnterminatedQuote)
            <==> !Plain(s) && forall name, rest :: s == QuoteSheetName(name) + rest ==> !Plain(rest)
    ensures SplitOf(s).Err? ==> SplitOf(s).error in {UnterminatedQuote, MissingBang}
  {
    if !Plain(s) {
      assert s == "'" + s[1..];
      forall name, rest | s == QuoteSheetName(name) + rest && Plain(rest) ensures Unquote(s[1..]).Some? {
        assert s[1..] == DoubleQuotes(name) + "'" + rest;
        UnquoteInverse(s[1..], name, rest);
      }
      if Unquote(s[1..]).Some? {
        DoubledUnquote(s[1..]);
        var (name, rest) := Unquote(s[1..]).value;
        assert s == QuoteSheetName(name) + rest && Plain(rest);
      }
    }
  }

  // ----- the range part -----

  /** The two halves of a range part: what is on either side of its first ":", or the whole of it twice. */
  ghost predicate HalvesOf(part: string, left: string, right: string) {
    (':' !in part && left == right == part) || (':' !in left && part == left + ":" + right)
  }

  lemma {:induction false} HalvesExactly(part: string, left: string, right: string)
    ensures SplitRangeParts(part) == (left, right) <==> HalvesOf(part, left, right)
  {
    var i := FirstIndex(part, ':');
    assert i < |part| ==> part == part[..i] + ":" + part[i + 1..];
    assert i == |part| ==> part[..i] == part;
    if ':' !in left && part == left + ":" + right {
      SplitPartsOf(left, right);
    }
  }

  ghost predicate Ascending(a: int, b: int, low: int, high: int) {
    low <= high && ((a == low && b == high) || (a == high && b == low))
  }

  /** Two corners of a rectangle, in any order, or its two end rows. */
  ghost predicate Spans(left: Reference, right: Reference, p: ParsedA1Range) {
    match (left, right)
    case (Cell(c, a), Cell(d, b)) => Ascending(c, d, p.startCol, p.endCol) && Ascending(a, b, p.startRow, p.endRow)
    case (RowOnly(a), RowOnly(b)) => p.startCol == p.endCol == -1 && Ascending(a, b, p.startRow, p.endRow)
    case _ => false
  }

  lemma {:induction false} CombineExactly(split: Split, left: Reference, right: Reference, p: ParsedA1Range)
    ensures Combine(split, left, right) == Ok(p)
            <==> Spans(left, right, p) && p.sheetName == split.sheetName && p.hasSheetName == split.hasSheet
  {
    if Combine(split, left, right).Ok? {
      var q := Combine(split, left, right).value;
      assert Spans(left, right, p) && p.sheetName == split.sheetName && p.hasSheetName == split.hasSheet <==> p == q;
    }
  }

  /** The text reads as the two references, and these span the range. */
  ghost predicate ReadsAs(part: string, left: Reference, right: Reference, p: ParsedA1Range) {
    part != "" && Spans(left, right, p)
    && exists l, r :: HalvesOf(part, l, r) && Means(l, left) && Means(r, right)
  }

  lemma {:induction false} PartExactly(split: Split, p: ParsedA1Range)
    ensures ParseRangePart(split) == Ok(p)
            <==> && (exists left, right :: ReadsAs(split.rangePart, left, right, p))
                 && p.sheetName == split.sheetName && p.hasSheetName == split.hasSheet
  {
    var (l, r) := SplitRangeParts(split.rangePart);
    HalvesExactly(split.rangePart, l, r);
    if ParseRangePart(split) == Ok(p) {
      var left, right := ClassifyA1Ref(l).value, ClassifyA1Ref(r).value;
      MeansExactly(l, left);
      MeansExactly(r, right);
      CombineExactly(split, left, right, p);
      assert ReadsAs(split.rangePart, left, right, p);
    }
    if left, right :| ReadsAs(split.rangePart, left, right, p) {
      PartReads(split, left, right, p);
    }
  }

  lemma {:induction false} PartReads(split: Split, left: Reference, right: Reference, p: ParsedA1Range)
    requires ReadsAs(split.rangePart, left, right, p)
    ensures p.sheetName == split.sheetName && p.hasSheetName == split.hasSheet ==> ParseRangePart(split) == Ok(p)
  {
    var l, r :| HalvesOf(split.rangePart, l, r) && Means(l, left) && Means(r, right);
    HalvesExactly(split.rangePart, l, r);
    MeansExactly(l, left);
    MeansExactly(r, right);
    CombineExactly(split, left, right, p);
  }

  // ----- the whole text -----

  /** The text is s without the white space around it. */
  ghost predicate Trims(s: string, text: string) {
    (text != "" ==> !IsSpace(text[0]) && !IsSpace(text[|text| - 1])) && exists i, j :: TrimsAt(s, text, i, j)
  }

  predicate TrimsAt(s: string, text: string, i: int, j: int) {
    && 0 <= i <= j <= |s| && text == s[i..j]
    && (forall k :: 0 <= k < i ==> IsSpace(s[k])) && (forall k :: j <= k < |s| ==> IsSpace(s[k]))
  }

  lemma {:induction false} TrimExactly(s: string, text: string)
    ensures TrimSpace(s) == text <==> Trims(s, text)
  {
    var low, high := TrimTrims(s);
    if i, j :| TrimsAt(s, text, i, j) && (text != "" ==> !IsSpace(text[0]) && !IsSpace(text[|text| - 1])) {
      TrimOfPadded(s, text, i, j);
    }
  }

  lemma {:induction false} TrimTrims(s: string) returns (i: int, j: int)
    ensures TrimsAt(s, TrimSpace(s), i, j)
  {
    i, j := 0, |s|;
    if s == "" {
    } else if IsSpace(s[0]) {
      var low, high := TrimTrims(s[1..]);
      i, j := low + 1, high + 1;
      SpaceBefore(s, TrimSpace(s[1..]), low, high);
    } else if IsSpace(s[|s| - 1]) {
      i, j := TrimTrims(s[..|s| - 1]);
      SpaceAfter(s, TrimSpace(s[..|s| - 1]), i, j);
    }
  }

  lemma {:induction false} SpaceBefore(s: string, text: string, i: int, j: int)
    requires s != "" && IsSpace(s[0]) && TrimsAt(s[1..], text, i, j)
    ensures TrimsAt(s, text, i + 1, j + 1)
  {
    assert s[1..][i..j] == s[i + 1..j + 1];
    assert forall k :: 0 <= k < |s| - 1 ==> s[1..][k] == s[k + 1];
    assert forall k :: 0 < k < |s| ==> s[k] == s[1..][k - 1];
  }

  lemma {:induction false} SpaceAfter(s: string, text: string, i: int, j: int)
    requires s != "" && IsSpace(s[|s| - 1]) && TrimsAt(s[..|s| - 1], text, i, j)
    ensures TrimsAt(s, text, i, j)
  {
    assert s[..|s| - 1][i..j] == s[i..j];
    assert forall k :: 0 <= k < |s| - 1 ==> s[..|s| - 1][k] == s[k];
  }

  lemma {:induction false} TrimOfPadded(s: string, text: string, i: int, j: int)
    requires TrimsAt(s, text, i, j) && (text != "" ==> !IsSpace(text[0]) && !IsSpace(text[|text| - 1]))
    ensures TrimSpace(s) == text
    decreases |s|
  {
    if s == "" {
    } else if IsSpace(s[0]) {
      if i == 0 {
        assert text == "";
        TrimOfPadded(s[1..], text, 0, 0);
      } else {
        assert s[1..][i - 1..j - 1] == s[i..j];
        TrimOfPadded(s[1..], text, i - 1, j - 1);
      }
    } else if j < |s| {
      assert s[..|s| - 1][i..j] == s[i..j];
      TrimOfPadded(s[..|s| - 1], text, i, j);
    } else {
      assert s[i..j] == s;
    }
  }

  /** The characters of Unicode's White_Space property, all 25 of them. */
  const WHITE_SPACE: string :=
    "\t\n\U{B}\U{C}\r \U{85}\U{A0}\U{1680}\U{2000}\U{2001}\U{2002}\U{2003}\U{2004}\U{2005}\U{2006}\U{2007}"
    + "\U{2008}\U{2009}\U{200A}\U{2028}\U{2029}\U{202F}\U{205F}\U{3000}"

  lemma SpaceExactly(c: char)
    ensures IsSpace(c) <==> c in WHITE_SPACE
  {
    assert |WHITE_SPACE| == 25;
    if '\U{2000}' <= c <= '\U{200A}' {
      assert WHITE_SPACE[9 + (c as int - 0x2000)] == c;
    }
    assert WHITE_SPACE[0] == '\t' && WHITE_SPACE[1] == '\n' && WHITE_SPACE[2] == '\U{B}' && WHITE_SPACE[3] == '\U{C}';
  }

  predicate AllWhite(s: string) {
    forall i :: 0 <= i < |s| ==> s[i] in WHITE_SPACE
  }

  lemma {:induction false} WhiteIsSpace(s: string)
    requires AllWhite(s)
    ensures forall i :: 0 <= i < |s| ==> IsSpace(s[i])
  {
    forall i | 0 <= i < |s| ensures IsSpace(s[i]) {
      SpaceExactly(s[i]);
    }
  }

  lemma {:induction false} PaddedTrims(before: string, s: string, after: string, text: string, i: int, j: int)
    requires TrimsAt(s, text, i, j)
    requires forall k :: 0 <= k < |before| ==> IsSpace(before[k])
    requires forall k :: 0 <= k < |after| ==> IsSpace(after[k])
    ensures TrimsAt(before + s + after, text, |before| + i, |before| + j)
  {
    var padded := before + s + after;
    assert padded[|before| + i..|before| + j] == s[i..j];
    forall k | 0 <= k < |before| + i ensures IsSpace(padded[k]) {
      assert padded[k] == if k < |before| then before[k] else s[k - |before|];
    }
    forall k | |before| + j <= k < |padded| ensures IsSpace(padded[k]) {
      assert padded[k] == if k < |before| + |s| then s[k - |before|] else after[k - |before| - |s|];
    }
  }

  /** White space around a text makes no difference. */
  lemma {:induction false} ParseOfPadded(before: string, s: string, after: string)
    requires AllWhite(before) && AllWhite(after)
    ensures ParseA1Range(before + s + after) == ParseA1Range(s)
  {
    WhiteIsSpace(before);
    WhiteIsSpace(after);
    var i, j := TrimTrims(s);
    TrimExactly(s, TrimSpace(s));
    PaddedTrims(before, s, after, TrimSpace(s), i, j);
    TrimOfPadded(before + s + after, TrimSpace(s), |before| + i, |before| + j);
  }

  /** A text is accepted, and read as p, exactly if it is, but for white space around it, an optional
      sheet name and two corners or two rows that span p. */
  lemma {:induction false} ParseExactly(s: string, p: ParsedA1Range)
    ensures ParseA1Range(s) == Ok(p) <==>
            exists text, part, left, right ::
              && Trims(s, text) && text != ""
              && Addresses(text, Split(p.sheetName, p.hasSheetName, part)) && ReadsAs(part, left, right, p)
  {
    var text := TrimSpace(s);
    TrimExactly(s, text);
    if ParseA1Range(s) == Ok(p) {
      var split := SplitOf(text).value;
      SplitExactly(text, split);
      PartExactly(split, p);
      var left, right :| ReadsAs(split.rangePart, left, right, p);
      assert split == Split(p.sheetName, p.hasSheetName, split.rangePart);
    }
    if text', part, left, right :| && Trims(s, text') && text' != ""
                                   && Addresses(text', Split(p.sheetName, p.hasSheetName, part))
                                   && ReadsAs(part, left, right, p) {
      TrimExactly(s, text');
      SplitExactly(text', Split(p.sheetName, p.hasSheetName, part));
      PartReads(Split(p.sheetName, p.hasSheetName, part), left, right, p);
    }
  }

  // ----- what people type -----

  /** No sheet name, or one that needs no quotes. */
  predicate Unquoted(name: Option<string>) {
    name.Some? ==> '!' !in name.value && Plain(name.value) && (name.value != "" ==> name.value[0] !in WHITE_SPACE)
  }

  function Prefixed(name: Option<string>, part: string): string {
    if name.Some? then name.value + "!" + part else part
  }

  function SheetOf(name: Option<string>): string {
    if name.Some? then name.value else ""
  }

  /** A range part begins with a letter or a digit, and ends with one. */
  predicate Bounded(part: string) {
    && part != "" && '!' !in part
    && (IsLetter(part[0]) || IsDigit(part[0])) && (IsLetter(part[|part| - 1]) || IsDigit(part[|part| - 1]))
  }

  lemma {:induction false} ParseOfPlain(name: Option<string>, part: string)
    requires Unquoted(name) && Bounded(part)
    ensures ParseA1Range(Prefixed(name, part)) == ParseRangePart(Split(SheetOf(name), name.Some?, part))
  {
    var s := Prefixed(name, part);
    SpaceExactly(s[0]);
    assert s[|s| - 1] == part[|part| - 1];
    assert TrimSpace(s) == s;
    if name.Some? {
      PlainSplit(name.value, part);
    } else {
      SplitExactly(part, Split("", false, part));
    }
  }

  lemma {:induction false} CellIsBounded(col: nat, row: nat)
    ensures Bounded(CellRef(col, row)) && IsLetter(CellRef(col, row)[0])
  {
    var s := CellRef(col, row);
    assert s[0] == Letters(col)[0] && s[|s| - 1] == Format(row)[|Format(row)| - 1];
    assert IsUpper(Letters(col)[0]) && IsDigit(Format(row)[|Format(row)| - 1]);
  }

  lemma {:induction false} BoundedPair(left: string, right: string)
    requires Bounded(left) && Bounded(right)
    ensures Bounded(left + ":" + right)
  {
    var s := left + ":" + right;
    assert s[0] == left[0] && s[|s| - 1] == right[|right| - 1];
  }

  /** One reference is both ends of its range. */
  lemma {:induction false} ParseOfOne(name: Option<string>, text: string, ref: Reference)
    requires Unquoted(name) && Bounded(text) && ':' !in text && ClassifyA1Ref(text) == Ok(ref)
    ensures ParseA1Range(Prefixed(name, text)) == Combine(Split(SheetOf(name), name.Some?, text), ref, ref)
  {
    ParseOfPlain(name, text);
    HalvesExactly(text, text, text);
  }

  lemma {:induction false} ParseOfTwo(name: Option<string>, left: string, right: string, l: Reference, r: Reference)
    requires Unquoted(name) && Bounded(left) && Bounded(right) && ':' !in left
    requires ClassifyA1Ref(left) == Ok(l) && ClassifyA1Ref(right) == Ok(r)
    ensures ParseA1Range(Prefixed(name, left + ":" + right))
         == Combine(Split(SheetOf(name), name.Some?, left + ":" + right), l, r)
  {
    BoundedPair(left, right);
    ParseOfPlain(name, left + ":" + right);
    SplitPartsOf(left, right);
  }

  /** A range typed with a plain sheet name or none: a cell, or two corners in any order. */
  lemma {:induction false} ParseOfTyped(name: Option<string>, c: nat, a: nat, d: nat, b: nat)
    requires Unquoted(name)
    requires c <= MAX_COLUMN_INDEX && d <= MAX_COLUMN_INDEX && 1 <= a <= MAX_INT && 1 <= b <= MAX_INT
    ensures ParseA1Range(Prefixed(name, CellRef(c, a))) == Ok(ParsedA1Range(SheetOf(name), name.Some?, c, c, a, a))
    ensures ParseA1Range(Prefixed(name, CellRef(c, a) + ":" + CellRef(d, b)))
         == Ok(ParsedA1Range(SheetOf(name), name.Some?, Min(c, d), Max(c, d), Min(a, b), Max(a, b)))
  {
    ClassifyCell(c, a);
    ClassifyCell(d, b);
    CellIsBounded(c, a);
    CellIsBounded(d, b);
    ParseOfOne(name, CellRef(c, a), Cell(c, a));
    ParseOfTwo(name, CellRef(c, a), CellRef(d, b), Cell(c, a), Cell(d, b));
  }
}

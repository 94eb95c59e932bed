/** A1 column letters: bijective base 26, `columnLetter` and `columnIndex`. */
module A1Columns {
  import opened Wrappers

  /** The index of "ZZZ", the last column a sheet can have. */
  const MAX_COLUMN_INDEX := 18277

  datatype ColumnError = NotALetter | PastLastColumn

  predicate IsUpper(c: char) {
    'A' <= c <= 'Z'
  }

  predicate IsLetter(c: char) {
    IsUpper(c) || 'a' <= c <= 'z'
  }

  predicate AllUpper(s: string) {
    forall i :: 0 <= i < |s| ==> IsUpper(s[i])
  }

  predicate AllLetters(s: string) {
    forall i :: 0 <= i < |s| ==> IsLetter(s[i])
  }

  function LetterOf(d: nat): (c: char)
    requires d < 26
    ensures IsUpper(c) && Rank(c) == d + 1
  {
    ('A' as int + d) as char
  }

  /** The letter's digit in bijective base 26, from 1 to 26. */
  function Rank(c: char): (d: nat)
    requires IsUpper(c)
    ensures 1 <= d <= 26
  {
    c as int - 'A' as int + 1
  }

  /** Upper-casing, exact on every character whose upper case is a letter A-Z:
      besides a-z these are dotless i and long s. */
  function UpperChar(c: char): char {
    if 'a' <= c <= 'z' then (c as int - 32) as char
    else if c == '\U{0131}' then 'I'
    else if c == '\U{017F}' then 'S'
    else c
  }

  function ToUpper(s: string): (u: string)
    ensures |u| == |s|
    ensures forall i :: 0 <= i < |s| ==> u[i] == UpperChar(s[i])
  {
    seq(|s|, i requires 0 <= i < |s| => UpperChar(s[i]))
  }

  /** The letters of a column index; the recursion `columnLetter` unrolls. */
  function Letters(index: nat): (s: string)
    ensures s != [] && AllUpper(s)
  {
    if index < 26 then [LetterOf(index)] else Letters(index / 26 - 1) + [LetterOf(index % 26)]
  }

  /** The 1-based number a letter string denotes. */
  function Numeral(s: string): nat
    requires AllUpper(s)
  {
    if s == [] then 0 else 26 * Numeral(s[..|s| - 1]) + Rank(s[|s| - 1])
  }

  /** What the scan of `columnIndex` knows after reading s, errors in the order it meets them. */
  function Scan(s: string): Result<nat, ColumnError> {
    if s == [] then Ok(0)
    else match Scan(s[..|s| - 1])
      case Err(e) => Err(e)
      case Ok(idx) =>
        if !IsUpper(s[|s| - 1]) then Err(NotALetter)
        else if 26 * idx + Rank(s[|s| - 1]) - 1 > MAX_COLUMN_INDEX then Err(PastLastColumn)
        else Ok(26 * idx + Rank(s[|s| - 1]))
  }

  function IndexOf(letters: string): Result<int, ColumnError> {
    match Scan(ToUpper(letters))
    case Err(e) => Err(e)
    case Ok(idx) => Ok(idx - 1)
  }

  method ColumnLetter(index: int) returns (letters: string)
    ensures letters == if index < 0 then "" else Letters(index)
  {
    if index < 0 {
      return "";
    }
    letters := "";
    var n := index;
    while true
      invariant 0 <= n
      invariant Letters(index) == Letters(n) + letters
      decreases n
    {
      letters := [LetterOf(n % 26)] + letters;
      n := n / 26 - 1;
      if n < 0 {
        break;
      }
    }
  }

  method ColumnIndex(letters: string) returns (r: Result<int, ColumnError>)
    ensures r == IndexOf(letters)
  {
    var upper := ToUpper(letters);
    var idx := 0;
    for i := 0 to |upper|
      invariant Scan(upper[..i]) == Ok(idx)
    {
      assert upper[..i + 1][..i] == upper[..i];
      var c := upper[i];
      if !IsUpper(c) {
        ScanErrorStays(upper, i + 1);
        return Err(NotALetter);
      }
      idx := 26 * idx + Rank(c);
      if idx - 1 > MAX_COLUMN_INDEX {
        ScanErrorStays(upper, i + 1);
        return Err(PastLastColumn);
      }
    }
    assert upper[..|upper|] == upper;
    return Ok(idx - 1);
  }

  /** An error found in a prefix is the answer for the whole string. */
  lemma {:induction false} ScanErrorStays(s: string, k: nat)
    requires k <= |s| && Scan(s[..k]).Err?
    ensures Scan(s) == Scan(s[..k])
    decreases |s| - k
  {
    if k == |s| {
      assert s[..k] == s;
    } else {
      assert s[..k + 1][..k] == s[..k];
      ScanErrorStays(s, k + 1);
    }
  }

  lemma {:induction false} NumeralOfLetters(index: nat)
    ensures Numeral(Letters(index)) == index + 1
  {
    if index >= 26 {
      NumeralOfLetters(index / 26 - 1);
      assert Letters(index)[..|Letters(index)| - 1] == Letters(index / 26 - 1);
    }
  }

  lemma {:induction false} LettersOfNumeral(s: string)
    requires AllUpper(s) && s != []
    ensures Numeral(s) >= 1 && Letters(Numeral(s) - 1) == s
  {
    var init := s[..|s| - 1];
    assert s == init + [s[|s| - 1]];
    if init != [] {
      LettersOfNumeral(init);
    }
  }

  /** A letter string of length k denotes between (26^k-1)/25 and 26 times that. */
  function Ones(k: nat): nat {
    if k == 0 then 0 else 26 * Ones(k - 1) + 1
  }

  lemma {:induction false} NumeralBounds(s: string)
    requires AllUpper(s)
    ensures Ones(|s|) <= Numeral(s) <= 26 * Ones(|s|) < Ones(|s| + 1)
  {
    if s != [] {
      NumeralBounds(s[..|s| - 1]);
    }
  }

  lemma {:induction false} OnesMonotone(j: nat, k: nat)
    requires j <= k
    ensures Ones(j) <= Ones(k)
  {
    if j < k {
      OnesMonotone(j, k - 1);
    }
  }

  /** On letters the scan computes the numeral and stops only past the last column. */
  lemma {:induction false} ScanOfUpper(s: string)
    requires AllUpper(s)
    ensures Scan(s) == if |s| <= 3 then Ok(Numeral(s)) else Err(PastLastColumn)
  {
    if s != [] {
      ScanOfUpper(s[..|s| - 1]);
      NumeralBounds(s);
      assert Ones(1) == 1 && Ones(2) == 27 && Ones(3) == 703 && Ones(4) == 18279;
    }
  }

  lemma UpperOfLetters(s: string)
    requires AllLetters(s)
    ensures AllUpper(ToUpper(s))
    ensures AllUpper(s) ==> ToUpper(s) == s
  {
  }

  /** `columnIndex` accepts letters exactly up to three of them, and `columnLetter`
      gives the accepted letters back in upper case. */
  lemma {:induction false} ColumnIndexAccepts(s: string)
    requires AllLetters(s) && s != []
    ensures IndexOf(s).Ok? <==> |s| <= 3
    ensures IndexOf(s).Ok? ==> 0 <= IndexOf(s).value <= MAX_COLUMN_INDEX && Letters(IndexOf(s).value) == ToUpper(s)
    ensures IndexOf(s).Err? ==> IndexOf(s).error == PastLastColumn
  {
    UpperOfLetters(s);
    ScanOfUpper(ToUpper(s));
    LettersOfNumeral(ToUpper(s));
    NumeralBounds(ToUpper(s));
    assert Ones(1) == 1 && Ones(2) == 27 && Ones(3) == 703;
    if |s| <= 3 {
      OnesMonotone(|s|, 3);
    }
  }

  /** `columnIndex` undoes `columnLetter` on exactly the columns a sheet can have. */
  lemma {:induction false} IndexOfLetters(index: nat)
    ensures IndexOf(Letters(index)) == if index <= MAX_COLUMN_INDEX then Ok(index) else Err(PastLastColumn)
  {
    var s := Letters(index);
    UpperOfLetters(s);
    NumeralOfLetters(index);
    NumeralBounds(s);
    ScanOfUpper(s);
    assert Ones(4) == 18279;
    if |s| <= 3 {
      OnesMonotone(|s| + 1, 4);
    } else {
      OnesMonotone(4, |s|);
    }
  }

  /** Alphabetical order of two strings of one length. */
  predicate Before(a: string, b: string)
    requires |a| == |b|
  {
    exists k :: 0 <= k < |a| && a[..k] == b[..k] && a[k] < b[k]
  }

  lemma {:induction false} BeforeSnoc(a: string, b: string)
    requires |a| == |b| > 0
    ensures var n := |a| - 1;
            Before(a, b) <==> Before(a[..n], b[..n]) || (a[..n] == b[..n] && a[n] < b[n])
  {
    var n := |a| - 1;
    if Before(a, b) {
      var k :| 0 <= k < |a| && a[..k] == b[..k] && a[k] < b[k];
      assert k < n ==> a[..n][..k] == b[..n][..k] by {
        assert k < n ==> a[..n][..k] == a[..k] && b[..n][..k] == b[..k];
      }
    }
    if Before(a[..n], b[..n]) {
      var k :| 0 <= k < n && a[..n][..k] == b[..n][..k] && a[..n][k] < b[..n][k];
      assert a[..n][..k] == a[..k] && b[..n][..k] == b[..k];
    }
  }

  lemma {:induction false} SameLengthOrder(a: string, b: string)
    requires AllUpper(a) && AllUpper(b) && |a| == |b|
    ensures Numeral(a) < Numeral(b) <==> Before(a, b)
    ensures Numeral(a) == Numeral(b) ==> a == b
    decreases |a|
  {
    if a != [] {
      var n := |a| - 1;
      assert a == a[..n] + [a[n]] && b == b[..n] + [b[n]];
      BeforeSnoc(a, b);
      SameLengthOrder(a[..n], b[..n]);
      SameLengthOrder(b[..n], a[..n]);
    }
  }

  /** Column order is length first, then alphabetical. */
  lemma {:induction false} ColumnOrder(a: string, b: string)
    requires AllUpper(a) && AllUpper(b)
    ensures Numeral(a) < Numeral(b) <==> |a| < |b| || (|a| == |b| && Before(a, b))
  {
    NumeralBounds(a);
    NumeralBounds(b);
    if |a| == |b| {
      SameLengthOrder(a, b);
    } else if |a| < |b| {
      OnesMonotone(|a| + 1, |b|);
    } else {
      OnesMonotone(|b| + 1, |a|);
    }
  }
}

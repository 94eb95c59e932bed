/** Error text on its way to a UTF-8 column: bytes, the encoding of section 4 of RFC 3629, and the
    truncation that never splits a rune. */
module ErrorText {
  type Byte = b: int | 0 <= b < 256

  const MAX_LAST_ERROR_LEN: nat := 500

  predicate IsContinuation(b: Byte) {
    0x80 <= b <= 0xBF
  }

  /** The length of the rune a byte string starts with, or 0 if it starts with none: the UTF8-char
      production of RFC 3629, section 4. */
  function RuneLen(s: seq<Byte>): nat {
    if s == [] then 0
    else if s[0] <= 0x7F then 1
    else if 0xC2 <= s[0] <= 0xDF then
      if |s| >= 2 && IsContinuation(s[1]) then 2 else 0
    else if 0xE0 <= s[0] <= 0xEF then
      if |s| >= 3 && SecondOfThree(s[0], s[1]) && IsContinuation(s[2]) then 3 else 0
    else if 0xF0 <= s[0] <= 0xF4 then
      if |s| >= 4 && SecondOfFour(s[0], s[1]) && IsContinuation(s[2]) && IsContinuation(s[3]) then 4 else 0
    else 0
  }

  /** No overlong forms and no surrogates. */
  predicate SecondOfThree(lead: Byte, b: Byte) {
    if lead == 0xE0 then 0xA0 <= b <= 0xBF
    else if lead == 0xED then 0x80 <= b <= 0x9F
    else IsContinuation(b)
  }

  /** No overlong forms and nothing beyond U+10FFFF. */
  predicate SecondOfFour(lead: Byte, b: Byte) {
    if lead == 0xF0 then 0x90 <= b <= 0xBF
    else if lead == 0xF4 then 0x80 <= b <= 0x8F
    else IsContinuation(b)
  }

  predicate ValidUtf8(s: seq<Byte>) {
    s == [] || (RuneLen(s) > 0 && ValidUtf8(s[RuneLen(s)..]))
  }

  /** U+FFFD, the replacement character. */
  const REPLACEMENT: seq<Byte> := [0xEF, 0xBF, 0xBD]

  /** A decoded rune: whether it is U+FFFD, and how many bytes it took; a broken tail reads as U+FFFD in one byte. */
  datatype Rune = Rune(isError: bool, size: nat)

  /** The rune a nonempty byte string ends with: step back over continuation bytes, at most three,
      and decode forward from there. */
  function DecodeLastRune(s: seq<Byte>): Rune
    requires s != []
  {
    if s[|s| - 1] < 0x80 then Rune(false, 1)
    else
      var start := RuneStart(s, |s| - 1, 3);
      var tail := s[start..];
      if RuneLen(tail) == |tail| then Rune(tail == REPLACEMENT, |tail|) else Rune(true, 1)
  }

  /** The nearest position before `at`, within `steps`, that is not a continuation byte; else the furthest one
      looked at. */
  function RuneStart(s: seq<Byte>, at: nat, steps: nat): (start: nat)
    requires at < |s|
    ensures start <= at
    decreases steps
  {
    if at == 0 || steps == 0 then at
    else if !IsContinuation(s[at - 1]) then at - 1
    else RuneStart(s, at - 1, steps - 1)
  }

  predicate BrokenTail(s: seq<Byte>)
    requires s != []
  {
    DecodeLastRune(s).isError && DecodeLastRune(s).size <= 1
  }

  function WithoutBrokenTail(s: seq<Byte>): seq<Byte> {
    if s == [] || !BrokenTail(s) then s else WithoutBrokenTail(s[..|s| - 1])
  }

  function Truncated(msg: seq<Byte>): seq<Byte> {
    if |msg| <= MAX_LAST_ERROR_LEN then msg else WithoutBrokenTail(msg[..MAX_LAST_ERROR_LEN])
  }

  method TruncateError(msg: seq<Byte>) returns (truncated: seq<Byte>)
    ensures truncated == Truncated(msg)
  {
    if |msg| <= MAX_LAST_ERROR_LEN {
      return msg;
    }
    truncated := msg[..MAX_LAST_ERROR_LEN];
    while |truncated| > 0
      invariant WithoutBrokenTail(truncated) == WithoutBrokenTail(msg[..MAX_LAST_ERROR_LEN])
    {
      var r := DecodeLastRune(truncated);
      if !r.isError || r.size > 1 {
        break;
      }
      truncated := truncated[..|truncated| - 1];
    }
  }

  // ----- the encoding -----

  /** A Unicode scalar value: a code point that is not a surrogate. */
  predicate IsScalar(c: int) {
    0 <= c <= 0x10FFFF && !(0xD800 <= c <= 0xDFFF)
  }

  /** Its UTF-8 form: the table of RFC 3629, section 3, bits moved by division. */
  function Utf8(c: nat): seq<Byte>
    requires IsScalar(c)
  {
    if c < 0x80 then [c]
    else if c < 0x800 then [0xC0 + c / 0x40, 0x80 + c % 0x40]
    else if c < 0x1_0000 then [0xE0 + c / 0x1000, 0x80 + c / 0x40 % 0x40, 0x80 + c % 0x40]
    else [0xF0 + c / 0x4_0000, 0x80 + c / 0x1000 % 0x40, 0x80 + c / 0x40 % 0x40, 0x80 + c % 0x40]
  }

  type Scalar = c: nat | IsScalar(c)

  function Flattened(parts: seq<seq<Byte>>): seq<Byte> {
    if parts == [] then [] else parts[0] + Flattened(parts[1..])
  }

  function Parts(text: seq<Scalar>): (parts: seq<seq<Byte>>)
    ensures |parts| == |text|
  {
    seq(|text|, i requires 0 <= i < |text| => Utf8(text[i]))
  }

  /** The UTF-8 form of a text, character by character. */
  function Encoded(text: seq<Scalar>): seq<Byte> {
    Flattened(Parts(text))
  }

  lemma {:induction false} EncodedStep(text: seq<Scalar>)
    requires text != []
    ensures Encoded(text) == Utf8(text[0]) + Encoded(text[1..])
  {
    assert Parts(text)[1..] == Parts(text[1..]);
  }

  /** Six bits are split off, and put back. */
  lemma SixBits(high: int, low: int)
    requires 0 <= high && 0 <= low < 0x40
    ensures (high * 0x40 + low) / 0x40 == high && (high * 0x40 + low) % 0x40 == low
  {
  }

  lemma TwelveBits(c: nat)
    ensures c / 0x1000 == c / 0x40 / 0x40 && c / 0x4_0000 == c / 0x40 / 0x40 / 0x40
  {
  }

  /** The UTF-8 form of a scalar value is one rune, whatever follows... */
  lemma {:induction false} ScalarIsRune(c: Scalar, rest: seq<Byte>)
    ensures RuneLen(Utf8(c) + rest) == |Utf8(c)| > 0
  {
    var s := Utf8(c) + rest;
    assert forall i :: 0 <= i < |Utf8(c)| ==> s[i] == Utf8(c)[i];
    if 0x800 <= c < 0x1_0000 {
      assert c / 0x1000 == 0 ==> c / 0x40 % 0x40 >= 0x20;
      assert c / 0x1000 == 0xD ==> c / 0x40 % 0x40 < 0x20;
    } else if c >= 0x1_0000 {
      assert c / 0x4_0000 == 0 ==> c / 0x1000 % 0x40 >= 0x10;
      assert c / 0x4_0000 == 4 ==> c / 0x1000 % 0x40 < 0x10;
    }
  }

  /** ...and every rune is the UTF-8 form of a scalar value. */
  lemma {:induction false} RuneIsScalar(s: seq<Byte>) returns (c: Scalar)
    requires RuneLen(s) > 0
    ensures RuneLen(s) <= |s| && s[..RuneLen(s)] == Utf8(c)
  {
    var n := RuneLen(s);
    var lead: int := s[0];
    if n == 1 {
      c := lead;
    } else {
      var b: int := s[1] as int - 0x80;
      if n == 2 {
        c := Joined(lead - 0xC0, b);
      } else {
        var d: int := s[2] as int - 0x80;
        if n == 3 {
          c := Joined(Joined(lead - 0xE0, b), d);
          TwelveBits(c);
        } else {
          var e: int := s[3] as int - 0x80;
          c := Joined(Joined(Joined(lead - 0xF0, b), d), e);
          TwelveBits(c);
        }
      }
    }
  }

  function Joined(high: int, low: int): (c: int)
    requires 0 <= high && 0 <= low < 0x40
    ensures c / 0x40 == high && c % 0x40 == low && c >= 0
  {
    SixBits(high, low);
    high * 0x40 + low
  }

  lemma {:induction false} EncodedIsValid(text: seq<Scalar>)
    ensures ValidUtf8(Encoded(text))
  {
    if text != [] {
      EncodedIsValid(text[1..]);
      EncodedStep(text);
      ScalarIsRune(text[0], Encoded(text[1..]));
      assert Encoded(text)[|Utf8(text[0])|..] == Encoded(text[1..]);
    }
  }

  lemma {:induction false} OneMoreScalar(c: Scalar, rest: seq<Scalar>)
    ensures Encoded([c] + rest) == Utf8(c) + Encoded(rest)
  {
    EncodedStep([c] + rest);
    assert ([c] + rest)[1..] == rest;
  }

  lemma {:induction false} FirstRune(s: seq<Byte>) returns (c: Scalar)
    requires RuneLen(s) > 0
    ensures RuneLen(s) <= |s| && s == Utf8(c) + s[RuneLen(s)..]
  {
    c := RuneIsScalar(s);
    assert s == s[..RuneLen(s)] + s[RuneLen(s)..];
  }

  lemma {:induction false} ValidIsEncoded(s: seq<Byte>) returns (text: seq<Scalar>)
    requires ValidUtf8(s)
    ensures s == Encoded(text)
  {
    text := [];
    if s != [] {
      RuneFits(s);
      var c := FirstRune(s);
      var rest := ValidIsEncoded(s[RuneLen(s)..]);
      OneMoreScalar(c, rest);
      text := [c] + rest;
    }
  }

  /** Valid UTF-8 is what encodes a text of scalar values, and nothing else. */
  lemma {:induction false} ValidExactly(s: seq<Byte>)
    ensures ValidUtf8(s) <==> exists text :: s == Encoded(text)
  {
    if ValidUtf8(s) {
      var text := ValidIsEncoded(s);
    }
    if text :| s == Encoded(text) {
      EncodedIsValid(text);
    }
  }

  // ----- where a rune can end -----

  /** A rune is one leading byte and continuation bytes, and reads the same wherever its bytes are cut off. */
  lemma RuneShape(s: seq<Byte>)
    requires RuneLen(s) > 0
    ensures RuneLen(s) <= |s| && RuneLen(s) <= 4 && !IsContinuation(s[0])
    ensures forall i :: 1 <= i < RuneLen(s) ==> IsContinuation(s[i])
    ensures RuneLen(s) == 1 <==> s[0] < 0x80
    ensures RuneLen(s[..RuneLen(s)]) == RuneLen(s)
    ensures forall k :: 1 <= k < RuneLen(s) ==> RuneLen(s[..k]) == 0
  {
  }

  lemma RuneFits(s: seq<Byte>)
    ensures RuneLen(s) <= |s|
  {
  }

  /** The end of the last whole rune within the first k bytes. */
  function RuneFloor(s: seq<Byte>, k: nat): (f: nat)
    ensures f <= k && f <= |s|
  {
    if RuneLen(s) == 0 || RuneLen(s) > k || RuneLen(s) > |s| then 0
    else RuneLen(s) + RuneFloor(s[RuneLen(s)..], k - RuneLen(s))
  }

  lemma DropOfTake<T>(s: seq<T>, n: nat, m: nat)
    requires n <= m <= |s|
    ensures s[..m][n..] == s[n..][..m - n]
  {
  }

  lemma DropOfDrop<T>(s: seq<T>, n: nat, m: nat)
    requires n + m <= |s|
    ensures s[n..][m..] == s[n + m..]
  {
  }

  /** The floor is at most three bytes short of k, and cuts off a valid prefix... */
  lemma {:induction false} FloorIsValid(s: seq<Byte>, k: nat)
    requires ValidUtf8(s) && k <= |s|
    ensures RuneFloor(s, k) <= k < RuneFloor(s, k) + 4
    ensures ValidUtf8(s[..RuneFloor(s, k)])
  {
    if s != [] {
      var n := RuneLen(s);
      RuneShape(s);
      if n <= k {
        FloorIsValid(s[n..], k - n);
        ValidFromRest(s, RuneFloor(s, k));
      }
    }
  }

  /** ...which no longer valid prefix fits under k. */
  lemma {:induction false} FloorIsLongest(s: seq<Byte>, k: nat, m: nat)
    requires ValidUtf8(s) && m <= k <= |s| && ValidUtf8(s[..m])
    ensures m <= RuneFloor(s, k)
  {
    if m > 0 {
      RuneShape(s);
      var n := RuneLen(s);
      assert RuneLen(s[..m]) != 0;
      assert n <= m;
      ValidFromRest(s, m);
      FloorIsLongest(s[n..], k - n, m - n);
    }
  }

  /** A prefix that reaches past the first rune is valid exactly if what follows that rune is. */
  lemma {:induction false} ValidFromRest(s: seq<Byte>, m: nat)
    requires RuneLen(s) > 0 && RuneLen(s) <= m <= |s|
    ensures ValidUtf8(s[..m]) <==> ValidUtf8(s[RuneLen(s)..][..m - RuneLen(s)])
  {
    RuneOfPrefix(s, m);
    DropOfTake(s, RuneLen(s), m);
  }

  lemma RuneOfPrefix(s: seq<Byte>, m: nat)
    requires RuneLen(s) > 0 && RuneLen(s) <= m <= |s|
    ensures RuneLen(s[..m]) == RuneLen(s)
  {
  }

  /** Between one floor and the next, the bytes are the beginning of a longer rune. */
  lemma {:induction false} FloorThenPartial(s: seq<Byte>, k: nat) returns (f: nat, rune: seq<Byte>)
    requires ValidUtf8(s) && k <= |s| && RuneFloor(s, k) < k
    ensures f == RuneFloor(s, k) && rune == s[f..] && RuneLen(rune) > k - f
  {
    var n := RuneLen(s);
    RuneFits(s);
    if n <= k {
      f, rune := FloorThenPartial(s[n..], k - n);
      DropOfDrop(s, n, f);
      f := n + f;
    } else {
      f, rune := 0, s;
    }
  }

  /** Stepping back over continuation bytes lands on the leading byte, if that is at most three away. */
  lemma {:induction false} StartIsLead(s: seq<Byte>, at: nat, steps: nat, lead: nat)
    requires lead <= at < |s| && at - lead <= steps
    requires lead < at ==> !IsContinuation(s[lead])
    requires forall i :: lead < i < at ==> IsContinuation(s[i])
    ensures lead < at ==> RuneStart(s, at, steps) == lead
    decreases steps
  {
    if lead + 1 < at {
      StartIsLead(s, at - 1, steps - 1, lead);
    }
  }

  /** The tail of a cut in the middle of a rune is broken... */
  lemma {:induction false} PartialIsBroken(s: seq<Byte>, f: nat, p: nat)
    requires f < p <= |s| && RuneLen(s[f..]) > p - f
    ensures BrokenTail(s[..p])
  {
    var t := s[f..];
    RuneShape(t);
    var cut := s[..p];
    assert forall i :: f <= i < p ==> cut[i] == t[i - f];
    if p - f == 1 {
      LoneLeadIsBroken(cut);
    } else {
      StartIsLead(cut, p - 1, 3, f);
      assert cut[f..] == t[..p - f];
    }
  }

  /** A string that ends in a multi-byte lead decodes nothing: what precedes the lead cannot reach over it. */
  lemma {:induction false} LoneLeadIsBroken(s: seq<Byte>)
    requires s != [] && s[|s| - 1] >= 0xC2
    ensures BrokenTail(s)
  {
    var tail := s[RuneStart(s, |s| - 1, 3)..];
    assert tail[|tail| - 1] == s[|s| - 1];
    if RuneLen(tail) > 0 {
      RuneShape(tail);
    }
  }

  /** ...and the tail of a whole rune is not. */
  lemma {:induction false} WholeIsNotBroken(s: seq<Byte>, f: nat)
    requires f < |s| && RuneLen(s[f..]) == |s| - f
    ensures !BrokenTail(s)
  {
    var t := s[f..];
    RuneShape(t);
    assert forall i :: f <= i < |s| ==> s[i] == t[i - f];
    if |t| > 1 {
      StartIsLead(s, |s| - 1, 3, f);
    }
  }

  /** A nonempty valid string ends in a whole rune. */
  lemma {:induction false} ValidEndsWhole(s: seq<Byte>) returns (f: nat)
    requires s != [] && ValidUtf8(s)
    ensures f < |s| && RuneLen(s[f..]) == |s| - f
  {
    RuneShape(s);
    var n := RuneLen(s);
    if n == |s| {
      f := 0;
      assert s[0..] == s;
    } else {
      var g := ValidEndsWhole(s[n..]);
      f := n + g;
      assert s[n..][g..] == s[f..];
    }
  }

  lemma {:induction false} FloorIsNotBroken(s: seq<Byte>, k: nat)
    requires ValidUtf8(s) && k <= |s|
    ensures RuneFloor(s, k) == 0 || !BrokenTail(s[..RuneFloor(s, k)])
  {
    FloorIsValid(s, k);
    if RuneFloor(s, k) > 0 {
      var g := ValidEndsWhole(s[..RuneFloor(s, k)]);
      WholeIsNotBroken(s[..RuneFloor(s, k)], g);
    }
  }

  lemma {:induction false} CutAboveFloorIsBroken(s: seq<Byte>, k: nat, p: nat)
    requires ValidUtf8(s) && RuneFloor(s, k) < p <= k <= |s|
    ensures BrokenTail(s[..p])
  {
    var f, rune := FloorThenPartial(s, k);
    PartialIsBroken(s, f, p);
  }

  lemma {:induction false} StripsToFloor(s: seq<Byte>, k: nat, p: nat)
    requires ValidUtf8(s) && RuneFloor(s, k) <= p <= k <= |s|
    ensures WithoutBrokenTail(s[..p]) == s[..RuneFloor(s, k)]
  {
    var f := RuneFloor(s, k);
    if p == f {
      FloorIsNotBroken(s, k);
    } else {
      CutAboveFloorIsBroken(s, k, p);
      assert s[..p][..p - 1] == s[..p - 1];
      StripsToFloor(s, k, p - 1);
    }
  }

  lemma {:induction false} StrippedIsPrefix(s: seq<Byte>)
    ensures WithoutBrokenTail(s) <= s
    ensures WithoutBrokenTail(s) == [] || !BrokenTail(WithoutBrokenTail(s))
    ensures forall p :: |WithoutBrokenTail(s)| < p <= |s| ==> BrokenTail(s[..p])
  {
    if s != [] && BrokenTail(s) {
      var t := s[..|s| - 1];
      StrippedIsPrefix(t);
      forall p | |WithoutBrokenTail(s)| < p <= |s| ensures BrokenTail(s[..p]) {
        assert if p == |s| then s[..p] == s else s[..p] == t[..p];
      }
    }
  }

  /** Whatever the bytes, the result is a prefix of at most 500 of them, all of them if that is enough, and
      ends where a broken tail no longer does; only broken tails are dropped. */
  lemma {:induction false} TruncationDropsBrokenTails(msg: seq<Byte>)
    ensures Truncated(msg) <= msg && |Truncated(msg)| <= 500
    ensures |msg| <= 500 ==> Truncated(msg) == msg
    ensures |msg| > 500 ==>
              && (Truncated(msg) == [] || !BrokenTail(Truncated(msg)))
              && forall p :: |Truncated(msg)| < p <= 500 ==> BrokenTail(msg[..p])
  {
    if |msg| > 500 {
      StrippedIsPrefix(msg[..500]);
      assert forall p :: 0 <= p <= 500 ==> msg[..500][..p] == msg[..p];
    }
  }

  /** On valid text, truncation yields the longest valid prefix of at most 500 bytes; it drops at
      most three bytes below the limit, and nothing from text within it. */
  lemma {:induction false} TruncationIsLongestValidPrefix(msg: seq<Byte>)
    requires ValidUtf8(msg)
    ensures Truncated(msg) <= msg && ValidUtf8(Truncated(msg))
    ensures |Truncated(msg)| <= MAX_LAST_ERROR_LEN
    ensures |msg| <= MAX_LAST_ERROR_LEN ==> Truncated(msg) == msg
    ensures |msg| > MAX_LAST_ERROR_LEN ==> |Truncated(msg)| >= MAX_LAST_ERROR_LEN - 3
    ensures forall m :: 0 <= m <= |msg| && m <= MAX_LAST_ERROR_LEN && ValidUtf8(msg[..m]) ==> m <= |Truncated(msg)|
  {
    if |msg| > MAX_LAST_ERROR_LEN {
      FloorIsValid(msg, MAX_LAST_ERROR_LEN);
      StripsToFloor(msg, MAX_LAST_ERROR_LEN, MAX_LAST_ERROR_LEN);
      forall m | 0 <= m <= MAX_LAST_ERROR_LEN && ValidUtf8(msg[..m]) ensures m <= |Truncated(msg)| {
        FloorIsLongest(msg, MAX_LAST_ERROR_LEN, m);
      }
    }
  }

  lemma {:induction false} FlattenedConcat(a: seq<seq<Byte>>, b: seq<seq<Byte>>)
    ensures Flattened(a + b) == Flattened(a) + Flattened(b)
  {
    if a == [] {
      assert a + b == b;
    } else {
      FlattenedConcat(a[1..], b);
      assert (a + b)[1..] == a[1..] + b;
    }
  }

  lemma {:induction false} EncodedConcat(a: seq<Scalar>, b: seq<Scalar>)
    ensures Encoded(a + b) == Encoded(a) + Encoded(b)
  {
    FlattenedConcat(Parts(a), Parts(b));
    assert Parts(a + b) == Parts(a) + Parts(b);
  }

  /** A valid prefix of an encoded text encodes its first few characters. */
  lemma {:induction false} ValidPrefixIsWhole(text: seq<Scalar>, m: nat) returns (n: nat)
    requires m <= |Encoded(text)| && ValidUtf8(Encoded(text)[..m])
    ensures n <= |text| && Encoded(text)[..m] == Encoded(text[..n])
  {
    n := 0;
    if m > 0 {
      var s, c, rest := Encoded(text), Utf8(text[0]), Encoded(text[1..]);
      EncodedStep(text);
      ScalarIsRune(text[0], rest);
      RuneShape(s);
      assert |c| <= m;
      ValidFromRest(s, m);
      assert s[|c|..] == rest;
      var k := ValidPrefixIsWhole(text[1..], m - |c|);
      n := k + 1;
      assert s[..m] == c + rest[..m - |c|];
      EncodedStep(text[..n]);
      assert text[..n][1..] == text[1..][..k];
    }
  }

  /** One character more is a longer valid prefix. */
  lemma {:induction false} LongerPrefix(text: seq<Scalar>, n: nat)
    requires n < |text|
    ensures |Encoded(text[..n])| < |Encoded(text[..n + 1])| <= |Encoded(text)|
    ensures Encoded(text)[..|Encoded(text[..n + 1])|] == Encoded(text[..n + 1]) && ValidUtf8(Encoded(text[..n + 1]))
  {
    EncodedConcat(text[..n + 1], text[n + 1..]);
    EncodedConcat(text[..n], [text[n]]);
    assert text == text[..n + 1] + text[n + 1..] && text[..n + 1] == text[..n] + [text[n]];
    EncodedIsValid(text[..n + 1]);
    EncodedStep([text[n]]);
  }

  /** Of a text of Unicode characters, truncation keeps the first so many whole ones, as many as fit into
      500 bytes: one more would not. */
  lemma {:induction false} TruncationKeepsWholeCharacters(text: seq<Scalar>) returns (n: nat)
    ensures n <= |text| && Truncated(Encoded(text)) == Encoded(text[..n])
    ensures |Encoded(text[..n])| <= 500 && (n < |text| ==> |Encoded(text[..n + 1])| > 500)
  {
    var msg := Encoded(text);
    EncodedIsValid(text);
    TruncationIsLongestValidPrefix(msg);
    var kept := |Truncated(msg)|;
    assert msg[..kept] == Truncated(msg);
    n := ValidPrefixIsWhole(text, kept);
    if n < |text| {
      LongerPrefix(text, n);
    }
  }

  lemma {:induction false} ValidConcat(a: seq<Byte>, b: seq<Byte>)
    requires ValidUtf8(a) && ValidUtf8(b)
    ensures ValidUtf8(a + b)
  {
    if a == [] {
      assert a + b == b;
    } else {
      RuneShape(a);
      var n := RuneLen(a);
      assert (a + b)[n..] == a[n..] + b;
      assert RuneLen(a + b) == n;
      ValidConcat(a[n..], b);
    }
  }

  /** A genuine U+FFFD at the very end of the limit survives. */
  lemma {:induction false} GenuineReplacementSurvives(before: seq<Byte>, after: seq<Byte>)
    requires ValidUtf8(before) && |before| == MAX_LAST_ERROR_LEN - 3 && ValidUtf8(after)
    ensures Truncated(before + REPLACEMENT + after) == before + REPLACEMENT
  {
    var kept := before + REPLACEMENT;
    assert ValidUtf8(REPLACEMENT) by {
      assert RuneLen(REPLACEMENT) == 3 && REPLACEMENT[3..] == [];
    }
    ValidConcat(before, REPLACEMENT);
    ValidConcat(kept, after);
    var msg := kept + after;
    assert msg[..MAX_LAST_ERROR_LEN] == kept;
    TruncationIsLongestValidPrefix(msg);
    if |msg| <= MAX_LAST_ERROR_LEN {
      assert msg == kept;
    } else {
      assert |Truncated(msg)| == |kept| && Truncated(msg) == msg[..|kept|];
    }
  }
}

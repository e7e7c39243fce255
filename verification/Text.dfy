/** Decimal numbers and lines of text, as the standard library reads and writes them. */
module Text {
  import opened Wrappers

  const MIN_I32 := -0x8000_0000
  const MAX_I32 := 0x7fff_ffff

  type I32 = n: int | MIN_I32 <= n <= MAX_I32

  predicate IsDigit(c: char) {
    '0' <= c <= '9'
  }

  predicate AllDigits(s: string) {
    forall k :: 0 <= k < |s| ==> IsDigit(s[k])
  }

  function Digits(n: nat): (s: string)
    ensures s != "" && AllDigits(s)
  {
    if n < 10 then [(n as char) + '0'] else Digits(n / 10) + [((n % 10) as char) + '0']
  }

  function Value(s: string): nat
    requires AllDigits(s)
  {
    if s == "" then 0 else Value(s[..|s| - 1]) * 10 + (s[|s| - 1] - '0') as int
  }

  function Magnitude(n: int): nat {
    if n < 0 then -n else n
  }

  function FormatInt(n: int): string {
    (if n < 0 then "-" else "") + Digits(Magnitude(n))
  }

  /** An optional sign, at least one digit, and a value in range. */
  function ParseI32(s: string): Option<I32> {
    var signed := s != "" && (s[0] == '-' || s[0] == '+');
    var digits := if signed then s[1..] else s;
    if digits == "" || !AllDigits(digits) then None
    else
      var magnitude: int := Value(digits);
      var n := if s[0] == '-' then -magnitude else magnitude;
      if MIN_I32 <= n <= MAX_I32 then Some(n) else None
  }

  lemma {:induction false} ValueOfDigits(n: nat)
    ensures Value(Digits(n)) == n
  {
    var s := Digits(n);
    if n >= 10 {
      ValueOfDigits(n / 10);
      assert s[..|s| - 1] == Digits(n / 10);
    } else {
      assert s[..|s| - 1] == "";
    }
  }

  predicate AllZeros(s: string) {
    forall k :: 0 <= k < |s| ==> s[k] == '0'
  }

  lemma OneMoreDigit(s: string, d: char)
    requires AllDigits(s) && IsDigit(d)
    ensures AllDigits(s + [d]) && Value(s + [d]) == Value(s) * 10 + (d - '0') as int
  {
    assert (s + [d])[..|s|] == s;
  }

  /** More digits at the end make a number larger, unless they prolong a zero with zeros. */
  lemma {:induction false} MoreDigits(s: string, more: string)
    requires AllDigits(s) && AllDigits(more)
    ensures AllDigits(s + more) && Value(s + more) >= Value(s)
    ensures Value(s + more) == Value(s) <==> more == "" || (Value(s) == 0 && AllZeros(more))
    decreases |more|
  {
    hide Value;
    if more == "" {
      assert s + more == s;
    } else {
      var fewer, last := more[..|more| - 1], more[|more| - 1];
      MoreDigits(s, fewer);
      OneMoreDigit(s + fewer, last);
      assert s + more == (s + fewer) + [last];
      assert AllZeros(more) <==> AllZeros(fewer) && last == '0';
    }
  }

  /** Reading back a formatted number gives that number. */
  lemma ParseFormatted(n: I32)
    ensures ParseI32(FormatInt(n)) == Some(n)
  {
    var s, digits := FormatInt(n), Digits(Magnitude(n));
    ValueOfDigits(Magnitude(n));
    if n < 0 {
      assert s[0] == '-' && s[1..] == digits;
    } else {
      assert s == digits && IsDigit(s[0]);
    }
  }

  /** A sign, if any, and digits. */
  ghost predicate Numeral(s: string, sign: string, digits: string) {
    s == sign + digits && (sign == "" || sign == "-" || sign == "+") && digits != "" && AllDigits(digits)
  }

  ghost function Signed(sign: string, digits: string): int
    requires AllDigits(digits)
  {
    var magnitude: int := Value(digits);
    if sign == "-" then -magnitude else magnitude
  }

  /** What is read is exactly a numeral in range, with or without a sign; the same text has only one value. */
  lemma ParseIsExact(s: string, n: I32)
    ensures ParseI32(s) == Some(n) <==>
            exists sign, digits :: Numeral(s, sign, digits) && n == Signed(sign, digits)
    ensures ParseI32(s).Some? <==>
            exists sign, digits :: Numeral(s, sign, digits) && -2147483648 <= Signed(sign, digits) <= 2147483647
  {
    hide Value;
    var signed := s != "" && (s[0] == '-' || s[0] == '+');
    var sign, digits := if signed then s[..1] else "", if signed then s[1..] else s;
    assert s == sign + digits;
    forall x, ds | Numeral(s, x, ds) ensures x == sign && ds == digits {
      if x == "" {
        assert s == ds && IsDigit(s[0]);
      } else {
        assert s[0] == x[0] && s[..1] == x && s[1..] == ds;
      }
    }
    if ParseI32(s).Some? {
      assert Numeral(s, sign, digits);
    }
  }

  /** Characters put after a formatted number leave it as it is read only when there are none, or zeros after a zero. */
  lemma ParseProlonged(n: I32, more: string)
    ensures ParseI32(FormatInt(n) + more) == Some(n) <==> more == "" || (n == 0 && AllZeros(more))
  {
    var s, digits := FormatInt(n) + more, Digits(Magnitude(n));
    ValueOfDigits(Magnitude(n));
    if n < 0 {
      assert s[0] == '-' && s[1..] == digits + more;
    } else {
      assert s == digits + more && s[0] == digits[0] && IsDigit(s[0]);
    }
    if AllDigits(more) {
      MoreDigits(digits, more);
    } else {
      assert !AllDigits(digits + more) by {
        var k :| 0 <= k < |more| && !IsDigit(more[k]);
        assert !IsDigit((digits + more)[|digits| + k]);
      }
    }
  }

  // ---- Lines

  function IndexOf(s: string, c: char, i: nat): (r: nat)
    requires i <= |s|
    ensures i <= r <= |s| && (forall k :: i <= k < r ==> s[k] != c) && (r < |s| ==> s[r] == c)
    decreases |s| - i
  {
    if i == |s| || s[i] == c then i else IndexOf(s, c, i + 1)
  }

  function WithoutCarriageReturn(s: string): string {
    if s != "" && s[|s| - 1] == '\r' then s[..|s| - 1] else s
  }

  /** Lines end with a line feed, or a carriage return and a line feed; the last one may go without. */
  function Lines(s: string): seq<string> {
    if s == "" then []
    else
      var i := IndexOf(s, '\n', 0);
      if i == |s| then [s] else [WithoutCarriageReturn(s[..i])] + Lines(s[i + 1..])
  }

  lemma LineEnd(piece: string, rest: string)
    requires forall k :: 0 <= k < |piece| ==> piece[k] != '\n'
    ensures Lines(piece + "\n" + rest) == [WithoutCarriageReturn(piece)] + Lines(rest)
  {
    var s := piece + "\n" + rest;
    assert s[|piece|] == '\n' && forall k :: 0 <= k < |piece| ==> s[k] == piece[k];
    assert IndexOf(s, '\n', 0) == |piece|;
    assert s[..|piece|] == piece && s[|piece| + 1..] == rest;
  }

  lemma LastLine(piece: string)
    requires forall k :: 0 <= k < |piece| ==> piece[k] != '\n'
    ensures Lines(piece) == if piece == "" then [] else [piece]
  {
    assert IndexOf(piece, '\n', 0) == |piece|;
  }

  /** The three kinds of text: a line with its end, which may have a carriage return, the last line without, and nothing. */
  lemma LinesAreExact(piece: string, rest: string)
    requires forall k :: 0 <= k < |piece| ==> piece[k] != '\n'
    ensures piece == "" || piece[|piece| - 1] != '\r' ==> Lines(piece + "\n" + rest) == [piece] + Lines(rest)
    ensures Lines(piece + "\r\n" + rest) == [piece] + Lines(rest)
    ensures Lines(piece) == if piece == "" then [] else [piece]
  {
    hide Lines, IndexOf;
    LastLine(piece);
    LineEnd(piece, rest);
    var longer := piece + "\r";
    LineEnd(longer, rest);
    assert longer[..|longer| - 1] == piece;
    assert longer + "\n" + rest == piece + "\r\n" + rest;
  }

  function Join(lines: seq<string>): string {
    if lines == [] then "" else if |lines| == 1 then lines[0] else lines[0] + "\n" + Join(lines[1..])
  }

  /** Text that a line can hold. */
  predicate IsLine(s: string) {
    s != "" && forall k :: 0 <= k < |s| ==> s[k] != '\n' && s[k] != '\r'
  }

  lemma {:induction false} LinesOfJoin(lines: seq<string>)
    requires forall k :: 0 <= k < |lines| ==> IsLine(lines[k])
    ensures Lines(Join(lines)) == lines
    decreases |lines|
  {
    hide Lines;
    if lines == [] {
      LastLine("");
    } else {
      var first := lines[0];
      assert IsLine(first);
      if |lines| == 1 {
        LastLine(first);
      } else {
        LineEnd(first, Join(lines[1..]));
        LinesOfJoin(lines[1..]);
        assert lines == [first] + lines[1..];
      }
    }
  }

  /** Joining more lines extends the text. */
  lemma {:induction false} JoinExtends(lines: seq<string>, more: seq<string>)
    ensures Join(lines) <= Join(lines + more)
    decreases |lines|
  {
    var all := lines + more;
    if |lines| == 1 && more != [] {
      assert all[0] == lines[0] && Join(all) == lines[0] + ("\n" + Join(all[1..]));
    } else if |lines| == 1 {
      assert all == lines;
    } else if |lines| > 1 {
      JoinExtends(lines[1..], more);
      assert all[1..] == lines[1..] + more;
      assert Join(lines) == (lines[0] + "\n") + Join(lines[1..]);
      assert Join(all) == (lines[0] + "\n") + Join(all[1..]);
    }
  }

  /** The line that a text begins, once `line` is glued to its front. */
  function FirstPiece(tail: string): string {
    var i := IndexOf(tail, '\n', 0);
    if i == |tail| then tail else WithoutCarriageReturn(tail[..i])
  }

  function AfterFirst(tail: string): string {
    var i := IndexOf(tail, '\n', 0);
    if i == |tail| then "" else tail[i + 1..]
  }

  lemma IndexGlued(line: string, tail: string)
    requires IsLine(line)
    ensures IndexOf(line + tail, '\n', 0) == |line| + IndexOf(tail, '\n', 0)
  {
    var s, q := line + tail, IndexOf(tail, '\n', 0);
    var r := IndexOf(s, '\n', 0);
    assert forall k :: 0 <= k < |line| ==> s[k] == line[k];
    assert |line| <= r < |s| ==> s[r] == tail[r - |line|];
    assert q < |tail| ==> s[|line| + q] == tail[q];
  }

  lemma LinesFrom(text: string)
    requires text != ""
    ensures var i := IndexOf(text, '\n', 0);
            Lines(text) == if i == |text| then [text] else [WithoutCarriageReturn(text[..i])] + Lines(text[i + 1..])
  {
    hide IndexOf, WithoutCarriageReturn;
  }

  lemma CarriageReturnGlued(line: string, s: string)
    requires IsLine(line)
    ensures WithoutCarriageReturn(line + s) == line + WithoutCarriageReturn(s)
  {
    if s == "" {
      assert line + s == line && line[|line| - 1] != '\r';
    } else {
      assert (line + s)[..|line + s| - 1] == line + s[..|s| - 1];
    }
  }

  lemma NoLines()
    ensures Lines("") == []
  {
  }

  lemma GluedLines(line: string, tail: string)
    requires IsLine(line)
    ensures Lines(line + tail) == [line + FirstPiece(tail)] + Lines(AfterFirst(tail))
  {
    hide IndexOf, WithoutCarriageReturn, Lines;
    LinesFrom(line + tail);
    var s, i := line + tail, IndexOf(tail, '\n', 0);
    IndexGlued(line, tail);
    if i < |tail| {
      CarriageReturnGlued(line, tail[..i]);
      assert s[..|line| + i] == line + tail[..i] && s[|line| + i + 1..] == tail[i + 1..];
    } else {
      assert s == line + FirstPiece(tail);
      assert Lines(AfterFirst(tail)) == [] by { NoLines(); }
      assert [s] + [] == [s];
    }
  }

  lemma AtLineEnd(text: string)
    ensures FirstPiece("\n" + text) == "" && AfterFirst("\n" + text) == text
  {
    assert IndexOf("\n" + text, '\n', 0) == 0;
    assert ("\n" + text)[..0] == "" && ("\n" + text)[1..] == text;
  }

  /** Text put after joined lines is glued to the last one. */
  lemma {:induction false} LinesProlonged(lines: seq<string>, tail: string)
    requires lines != [] && forall k :: 0 <= k < |lines| ==> IsLine(lines[k])
    ensures Lines(Join(lines) + tail) == lines[..|lines| - 1] + Lines(lines[|lines| - 1] + tail)
    decreases |lines|
  {
    hide Lines, FirstPiece, AfterFirst, IsLine;
    if |lines| == 1 {
      assert lines[..0] + Lines(lines[0] + tail) == Lines(lines[0] + tail);
    } else {
      var first, rest := lines[0], lines[1..];
      LinesProlonged(rest, tail);
      AtLineEnd(Join(rest) + tail);
      GluedLines(first, "\n" + (Join(rest) + tail));
      assert Join(lines) + tail == first + ("\n" + (Join(rest) + tail));
      assert first + "" == first;
      assert lines[..|lines| - 1] == [first] + rest[..|rest| - 1];
      assert rest[|rest| - 1] == lines[|lines| - 1];
    }
  }
}

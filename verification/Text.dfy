/** Text handling shared by the formats: decimal numbers, ASCII case, splitting and trimming. */
module Text {

  // ----- decimal numbers ---------------------------------------------------------------------------

  const DIGITS: string := "0123456789"

  predicate IsDigit(c: char) {
    '0' <= c <= '9'
  }

  function Decimal(n: nat): (text: string)
    ensures text != [] && forall i :: 0 <= i < |text| ==> IsDigit(text[i])
  {
    if n < 10 then [DIGITS[n]] else Decimal(n / 10) + [DIGITS[n % 10]]
  }

  function DigitValue(c: char): nat {
    if IsDigit(c) then c as nat - '0' as nat else 0
  }

  function ParseDecimal(text: string): nat {
    if text == [] then 0 else 10 * ParseDecimal(text[..|text| - 1]) + DigitValue(text[|text| - 1])
  }

  /** Reading a written number gives it back. */
  lemma {:induction false} DecimalRoundTrips(n: nat)
    ensures ParseDecimal(Decimal(n)) == n
  {
    var text := Decimal(n);
    if n < 10 {
      assert text[..0] == [];
    } else {
      DecimalRoundTrips(n / 10);
      assert text[..|text| - 1] == Decimal(n / 10);
    }
  }

  function Zeros(n: nat): string {
    seq(n, _ => '0')
  }

  /** Digits that may start with zeros, and a number. */
  ghost predicate Says(text: string, n: nat) {
    exists zeros: nat :: text == Zeros(zeros) + Decimal(n)
  }

  lemma DigitAlone(c: char)
    requires IsDigit(c)
    ensures Decimal(DigitValue(c)) == [c]
  {
  }

  lemma MoreDigits(m: nat, c: char)
    requires m > 0 && IsDigit(c)
    ensures Decimal(10 * m + DigitValue(c)) == Decimal(m) + [c]
  {
    DigitAlone(c);
  }

  lemma OneDigitMore(before: string, m: nat, c: char)
    requires Says(before, m) && IsDigit(c)
    ensures Says(before + [c], 10 * m + DigitValue(c))
  {
    var zeros: nat :| before == Zeros(zeros) + Decimal(m);
    if m == 0 {
      DigitAlone(c);
      assert before == Zeros(zeros + 1);
      assert before + [c] == Zeros(zeros + 1) + Decimal(DigitValue(c));
    } else {
      MoreDigits(m, c);
      assert before + [c] == Zeros(zeros) + (Decimal(m) + [c]);
    }
  }

  lemma {:induction false} DigitsSay(text: string)
    requires text != [] && forall i :: 0 <= i < |text| ==> IsDigit(text[i])
    ensures Says(text, ParseDecimal(text))
  {
    var before, c := text[..|text| - 1], text[|text| - 1];
    assert text == before + [c];
    if before == [] {
      DigitAlone(c);
      assert ParseDecimal(before) == 0 && text == Zeros(0) + [c];
    } else {
      DigitsSay(before);
      OneDigitMore(before, ParseDecimal(before), c);
    }
  }

  lemma {:induction false} ZerosAreDropped(zeros: nat, text: string)
    ensures ParseDecimal(Zeros(zeros) + text) == ParseDecimal(text)
    decreases |text|, zeros
  {
    var whole := Zeros(zeros) + text;
    if text == [] {
      if zeros > 0 {
        assert whole[..zeros - 1] == Zeros(zeros - 1) + [];
        ZerosAreDropped(zeros - 1, []);
      }
    } else {
      assert whole[..|whole| - 1] == Zeros(zeros) + text[..|text| - 1];
      ZerosAreDropped(zeros, text[..|text| - 1]);
    }
  }

  /** A text of digits is read as the number it says. */
  lemma ParseDecimalMeans(text: string, n: nat)
    ensures text != [] && (forall i :: 0 <= i < |text| ==> IsDigit(text[i])) && ParseDecimal(text) == n
       <==> Says(text, n)
  {
    if text != [] && (forall i :: 0 <= i < |text| ==> IsDigit(text[i])) && ParseDecimal(text) == n {
      DigitsSay(text);
    }
    if zeros: nat :| text == Zeros(zeros) + Decimal(n) {
      ZerosAreDropped(zeros, Decimal(n));
      DecimalRoundTrips(n);
    }
  }

  function DecimalInt(n: int): string {
    if n < 0 then "-" + Decimal(-n) else Decimal(n)
  }

  /** Different numbers are written differently. */
  lemma DecimalIntInjective(a: int, b: int)
    requires DecimalInt(a) == DecimalInt(b)
    ensures a == b
  {
    DecimalIntSign(a);
    DecimalIntSign(b);
    if a < 0 {
      DecimalInjective(-a, -b);
    } else {
      DecimalInjective(a, b);
    }
  }

  lemma DecimalInjective(a: nat, b: nat)
    requires Decimal(a) == Decimal(b)
    ensures a == b
  {
    DecimalRoundTrips(a);
    DecimalRoundTrips(b);
  }

  lemma DecimalIntSign(n: int)
    ensures DecimalInt(n) != [] && (DecimalInt(n)[0] == '-' <==> n < 0)
    ensures n < 0 ==> DecimalInt(n)[1..] == Decimal(-n)
  {
    if n >= 0 {
      assert IsDigit(Decimal(n)[0]);
    }
  }

  // ----- ASCII case --------------------------------------------------------------------------------

  function LowerChar(c: char): char {
    if 'A' <= c <= 'Z' then (c as int + 32) as char else c
  }

  predicate EqIgnoreCase(a: string, b: string) {
    |a| == |b| && forall i :: 0 <= i < |a| ==> LowerChar(a[i]) == LowerChar(b[i])
  }

  // ----- splitting and trimming --------------------------------------------------------------------

  function Split(text: string, at: char): (parts: seq<string>)
    ensures parts != []
  {
    if text == [] then [""]
    else
      var rest := Split(text[1..], at);
      if text[0] == at then [""] + rest else [[text[0]] + rest[0]] + rest[1..]
  }

  function Join(parts: seq<string>, with: char): string
    requires parts != []
  {
    if |parts| == 1 then parts[0] else parts[0] + [with] + Join(parts[1..], with)
  }

  /** Splitting loses nothing, and no part contains the separator. */
  lemma {:induction false} SplitIsExact(text: string, at: char)
    ensures Join(Split(text, at), at) == text
    ensures forall part :: part in Split(text, at) ==> at !in part
  {
    if text != [] {
      SplitIsExact(text[1..], at);
      var rest := Split(text[1..], at);
      var parts := Split(text, at);
      if text[0] == at {
        assert parts[1..] == rest && Join(parts, at) == [at] + Join(rest, at);
      } else {
        assert parts[1..] == rest[1..];
        assert rest[0] in rest;
        assert Join(parts, at) == [text[0]] + Join(rest, at);
      }
    }
  }

  lemma {:induction false} SplitAfter(part: string, rest: string, at: char)
    requires at !in part
    ensures Split(part, at) == [part] && Split(part + [at] + rest, at) == [part] + Split(rest, at)
  {
    var whole := part + [at] + rest;
    if part == [] {
      assert whole[1..] == rest;
    } else {
      SplitAfter(part[1..], rest, at);
      assert whole[1..] == part[1..] + [at] + rest;
      assert [part[0]] + part[1..] == part;
    }
  }

  /** There is no other way to cut a text at a separator. */
  lemma {:induction false} SplitInvertsJoin(parts: seq<string>, at: char)
    requires parts != [] && forall part :: part in parts ==> at !in part
    ensures Split(Join(parts, at), at) == parts
  {
    assert parts[0] in parts;
    if |parts| == 1 {
      SplitAfter(parts[0], "", at);
    } else {
      SplitAfter(parts[0], Join(parts[1..], at), at);
      SplitInvertsJoin(parts[1..], at);
    }
  }

  /** One of the pieces of a text between separators. */
  ghost predicate PieceOf(text: string, at: char, piece: string) {
    exists parts: seq<string> :: parts != [] && piece in parts && Join(parts, at) == text
      && forall part :: part in parts ==> at !in part
  }

  lemma SplitGivesPieces(text: string, at: char, piece: string)
    ensures piece in Split(text, at) <==> PieceOf(text, at, piece)
  {
    SplitIsExact(text, at);
    if PieceOf(text, at, piece) {
      var parts: seq<string> :| parts != [] && piece in parts && Join(parts, at) == text
        && forall part :: part in parts ==> at !in part;
      SplitInvertsJoin(parts, at);
    }
  }

  predicate IsSpace(c: char) {
    var code := c as int;
    9 <= code <= 13 || code == 0x20 || code == 0x85 || code == 0xA0 || code == 0x1680
    || 0x2000 <= code <= 0x200A || code == 0x2028 || code == 0x2029 || code == 0x202F || code == 0x205F
    || code == 0x3000
  }

  /** Among the characters of ASCII these are the blank and the five controls from the tab on. */
  lemma AsciiSpaces(c: char)
    requires c as int < 128
    ensures IsSpace(c) <==> c == ' ' || c == '\t' || c == '\n' || c as int == 11 || c as int == 12 || c == '\r'
  {
  }

  function TrimStart(text: string): string {
    if text != [] && IsSpace(text[0]) then TrimStart(text[1..]) else text
  }

  function TrimEnd(text: string): string {
    if text != [] && IsSpace(text[|text| - 1]) then TrimEnd(text[..|text| - 1]) else text
  }

  function Trim(text: string): string {
    TrimEnd(TrimStart(text))
  }

  predicate AllSpaces(text: string) {
    forall i :: 0 <= i < |text| ==> IsSpace(text[i])
  }

  predicate NoSpaceAround(text: string) {
    text != "" ==> !IsSpace(text[0]) && !IsSpace(text[|text| - 1])
  }

  /** Between runs of spaces the text is `name`, which has none at its ends. */
  ghost predicate Surrounds(text: string, name: string) {
    NoSpaceAround(name)
    && exists a: string, b: string :: AllSpaces(a) && AllSpaces(b) && text == a + name + b
  }

  lemma {:induction false} TrimStartMeans(text: string)
    ensures |TrimStart(text)| <= |text|
    ensures var n := |text| - |TrimStart(text)|; AllSpaces(text[..n]) && text[n..] == TrimStart(text)
    ensures TrimStart(text) != "" ==> !IsSpace(TrimStart(text)[0])
  {
    if text != [] && IsSpace(text[0]) {
      TrimStartMeans(text[1..]);
      var n := |text| - |TrimStart(text)|;
      assert text[..n] == [text[0]] + text[1..][..n - 1];
    }
  }

  lemma {:induction false} TrimEndMeans(text: string)
    ensures |TrimEnd(text)| <= |text|
    ensures TrimEnd(text) == text[..|TrimEnd(text)|] && AllSpaces(text[|TrimEnd(text)|..])
    ensures TrimEnd(text) != "" ==> !IsSpace(TrimEnd(text)[|TrimEnd(text)| - 1])
  {
    if text != [] && IsSpace(text[|text| - 1]) {
      TrimEndMeans(text[..|text| - 1]);
      var n := |TrimEnd(text)|;
      assert text[n..] == text[..|text| - 1][n..] + [text[|text| - 1]];
    }
  }

  /** Trimming takes off the spaces around a text and nothing else. */
  lemma TrimMeans(text: string)
    ensures Surrounds(text, Trim(text))
  {
    TrimStartMeans(text);
    var rest := TrimStart(text);
    TrimEndMeans(rest);
    var a, name, b := text[..|text| - |rest|], Trim(text), rest[|Trim(text)|..];
    assert text == a + rest && rest == name + b;
    assert text == a + name + b;
  }

  lemma SurroundsFirst(text: string, a: string, name: string, b: string, a': string, name': string, b': string)
    requires text == a + name + b == a' + name' + b' && AllSpaces(a) && AllSpaces(b)
    requires NoSpaceAround(name') && name' != ""
    ensures |a| <= |a'| && |b| <= |b'|
  {
    assert text[|a'|] == name'[0] && text[|text| - |b'| - 1] == name'[|name'| - 1];
    assert forall i :: 0 <= i < |a| ==> text[i] == a[i];
    assert forall i :: |text| - |b| <= i < |text| ==> text[i] == b[i - (|text| - |b|)];
  }

  lemma NameShows(text: string, a: string, name: string, b: string)
    requires text == a + name + b && NoSpaceAround(name) && name != ""
    ensures |a| < |text| && !IsSpace(text[|a|])
  {
    assert text[|a|] == name[0];
  }

  lemma SpacesSurroundNothing(text: string, name: string)
    requires Surrounds(text, "") && Surrounds(text, name)
    ensures name == ""
  {
    var a: string, b: string :| AllSpaces(a) && AllSpaces(b) && text == a + "" + b;
    assert forall i :: 0 <= i < |text| ==> text[i] == if i < |a| then a[i] else b[i - |a|];
    if name != "" {
      var a': string, b': string :| AllSpaces(a') && AllSpaces(b') && text == a' + name + b';
      NameShows(text, a', name, b');
      assert false;
    }
  }

  /** There is only one such text. */
  lemma OnlyOneIsSurrounded(text: string, name: string, other: string)
    requires Surrounds(text, name) && Surrounds(text, other)
    ensures name == other
  {
    if name == "" {
      SpacesSurroundNothing(text, other);
    } else if other == "" {
      SpacesSurroundNothing(text, name);
    } else {
      var a: string, b: string :| AllSpaces(a) && AllSpaces(b) && text == a + name + b;
      var a': string, b': string :| AllSpaces(a') && AllSpaces(b') && text == a' + other + b';
      SurroundsFirst(text, a, name, b, a', other, b');
      SurroundsFirst(text, a', other, b', a, name, b);
      assert name == text[|a|..|text| - |b|] == other;
    }
  }

  lemma TrimIs(text: string, name: string)
    ensures Trim(text) == name <==> Surrounds(text, name)
  {
    TrimMeans(text);
    if Surrounds(text, name) {
      OnlyOneIsSurrounded(text, name, Trim(text));
    }
  }

  /** The piece behind the last separator. */
  predicate IsLastPiece(text: string, at: char, piece: string) {
    && |piece| <= |text| && text[|text| - |piece|..] == piece && at !in piece
    && (|piece| < |text| ==> text[|text| - |piece| - 1] == at)
  }

  lemma LastPieceBehind(text: string, at: char, piece: string)
    requires text != [] && IsLastPiece(text[1..], at, piece) && (|piece| == |text| - 1 ==> text[0] == at)
    ensures IsLastPiece(text, at, piece)
  {
    assert text[1..][|text| - 1 - |piece|..] == text[|text| - |piece|..];
  }

  lemma OnePiece(text: string, at: char)
    requires |Split(text, at)| == 1
    ensures Split(text, at)[0] == text && at !in text
  {
    SplitIsExact(text, at);
    assert Split(text, at)[0] in Split(text, at);
  }

  function LastPieceOf(text: string, at: char): string {
    var parts := Split(text, at);
    parts[|parts| - 1]
  }

  lemma LastPieceOfRest(text: string, at: char)
    requires text != [] && (text[0] == at || |Split(text[1..], at)| > 1)
    ensures |Split(text, at)| > 1 && LastPieceOf(text, at) == LastPieceOf(text[1..], at)
  {
  }

  lemma OnlyPart(text: string, at: char)
    requires text != [] && text[0] != at && |Split(text[1..], at)| == 1
    ensures |Split(text, at)| == 1
  {
  }

  lemma {:induction false} SplitEndsWithLastPiece(text: string, at: char)
    ensures IsLastPiece(text, at, LastPieceOf(text, at))
    ensures |Split(text, at)| > 1 ==> |LastPieceOf(text, at)| < |text|
  {
    if text != [] && (text[0] == at || |Split(text[1..], at)| > 1) {
      SplitEndsWithLastPiece(text[1..], at);
      LastPieceOfRest(text, at);
      LastPieceBehind(text, at, LastPieceOf(text[1..], at));
    } else {
      if text != [] {
        OnlyPart(text, at);
      }
      OnePiece(text, at);
    }
  }

  lemma NoShorterLastPiece(text: string, at: char, piece: string, other: string)
    requires IsLastPiece(text, at, piece) && IsLastPiece(text, at, other)
    ensures |piece| >= |other|
  {
    assert |piece| < |text| ==> text[|text| - |piece| - 1] == at;
    assert forall i :: |text| - |other| <= i < |text| ==> text[i] == other[i - (|text| - |other|)] != at;
  }

  lemma OnlyOneLastPiece(text: string, at: char, piece: string, other: string)
    requires IsLastPiece(text, at, piece) && IsLastPiece(text, at, other)
    ensures piece == other
  {
    NoShorterLastPiece(text, at, piece, other);
    NoShorterLastPiece(text, at, other, piece);
  }

}

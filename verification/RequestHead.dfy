/**
 Rewriting the head of a forwarded request: how its body is framed (section 6.3 of RFC 9112), which
 headers the connection names (section 7.6.1 of RFC 9110), and the head sent upstream. A character
 stands for a byte; `decode` tells which header values are UTF-8 and what they say.
 */
module RequestHead {
  import opened Options
  import opened Text

  type Decoder = string -> Option<string>

  datatype Header = Header(name: string, value: string)

  datatype Body = Length(bytes: nat) | Chunked

  const CONTENT_LENGTH := "content-length"
  const TRANSFER_ENCODING := "transfer-encoding"

  const DROPPED_HEADERS: seq<string> :=
    ["host", "connection", "proxy-connection", "keep-alive", "proxy-authorization", "proxy-authenticate",
     "te", "trailer", "upgrade"]

  const U64_LIMIT: nat := 0x1_0000_0000_0000_0000

  // ----- reading header lists ----------------------------------------------------------------------

  function Named(headers: seq<Header>, name: string): (found: seq<Header>)
    ensures forall h :: h in found <==> h in headers && EqIgnoreCase(h.name, name)
  {
    if headers == [] then []
    else (if EqIgnoreCase(headers[0].name, name) then [headers[0]] else []) + Named(headers[1..], name)
  }

  function DecodeAll(decode: Decoder, fields: seq<Header>): (values: Option<seq<string>>)
    ensures values.Some? <==> forall i :: 0 <= i < |fields| ==> decode(fields[i].value).Some?
    ensures (values.Some? ==>
              && |values.value| == |fields|
              && forall i :: 0 <= i < |fields| ==> decode(fields[i].value) == Some(values.value[i]))
  {
    if fields == [] then Some([])
    else
      var first, rest := decode(fields[0].value), DecodeAll(decode, fields[1..]);
      if first.None? || rest.None? then None else Some([first.value] + rest.value)
  }

  function TrimmedParts(value: string): (parts: seq<string>)
    ensures parts != []
  {
    var parts := Split(value, ',');
    seq(|parts|, i requires 0 <= i < |parts| => Trim(parts[i]))
  }

  function AllParts(values: seq<string>): seq<string> {
    if values == [] then [] else TrimmedParts(values[0]) + AllParts(values[1..])
  }

  function ParseLength(text: string): Option<nat> {
    if text != [] && (forall i :: 0 <= i < |text| ==> IsDigit(text[i])) && ParseDecimal(text) < U64_LIMIT
    then Some(ParseDecimal(text)) else None
  }

  function LengthOf(decode: Decoder, field: Header): Option<nat> {
    var text := decode(field.value);
    if text.None? then None else ParseLength(text.value)
  }

  function Lengths(decode: Decoder, fields: seq<Header>): (lengths: Option<seq<nat>>)
    ensures lengths.Some? <==> forall i :: 0 <= i < |fields| ==> LengthOf(decode, fields[i]).Some?
    ensures (lengths.Some? ==>
              && |lengths.value| == |fields|
              && forall i :: 0 <= i < |fields| ==> LengthOf(decode, fields[i]) == Some(lengths.value[i]))
  {
    if fields == [] then Some([])
    else
      var first, rest := LengthOf(decode, fields[0]), Lengths(decode, fields[1..]);
      if first.None? || rest.None? then None else Some([first.value] + rest.value)
  }

  predicate IsChunked(coding: string) {
    EqIgnoreCase(coding, "chunked")
  }

  /** The framing told by the Transfer-Encoding and the Content-Length fields. */
  function FramingOf(decode: Decoder, encodings: seq<Header>, lengths: seq<Header>): Option<Body> {
    var values := DecodeAll(decode, encodings);
    if values.None? then None
    else
      var codings := AllParts(values.value);
      var numbers := Lengths(decode, lengths);
      if numbers.None? then None
      else if codings != [] then
        if numbers.value != [] then None
        else if IsChunked(codings[|codings| - 1]) then Some(Chunked) else None
      else if numbers.value == [] then Some(Length(0))
      else if forall i :: 0 <= i < |numbers.value| ==> numbers.value[i] == numbers.value[0]
      then Some(Length(numbers.value[0])) else None
  }

  /** How long the request's body is, or nothing when the headers leave that open to interpretation. */
  function BodyFraming(decode: Decoder, headers: seq<Header>): Option<Body> {
    FramingOf(decode, Named(headers, TRANSFER_ENCODING), Named(headers, CONTENT_LENGTH))
  }

  function Last(parts: seq<string>): string {
    if parts == [] then "" else parts[|parts| - 1]
  }

  lemma LastOfBoth(a: seq<string>, b: seq<string>)
    ensures Last(a + b) == if b == [] then Last(a) else Last(b)
  {
    if b == [] {
      assert a + b == a;
    }
  }

  lemma {:induction false} LastPart(values: seq<string>)
    requires values != []
    ensures AllParts(values) != []
    ensures Last(AllParts(values)) == Last(TrimmedParts(values[|values| - 1]))
  {
    LastOfBoth(TrimmedParts(values[0]), AllParts(values[1..]));
    if |values| > 1 {
      LastPart(values[1..]);
    } else {
      assert AllParts(values[1..]) == [];
    }
  }

  /** The last of the comma-separated codings of a value, without the spaces around it. */
  ghost predicate IsLastCoding(value: string, coding: string) {
    exists piece :: IsLastPiece(value, ',', piece) && Surrounds(piece, coding)
  }

  lemma LastPartMeans(value: string, coding: string)
    ensures Last(TrimmedParts(value)) == coding <==> IsLastCoding(value, coding)
  {
    var parts := Split(value, ',');
    var last := parts[|parts| - 1];
    SplitEndsWithLastPiece(value, ',');
    TrimIs(last, coding);
    if IsLastCoding(value, coding) {
      var piece :| IsLastPiece(value, ',', piece) && Surrounds(piece, coding);
      OnlyOneLastPiece(value, ',', piece, last);
    }
  }

  /** The value's last coding is chunked. */
  ghost predicate EndsChunked(value: string) {
    exists coding :: IsLastCoding(value, coding) && EqIgnoreCase(coding, "chunked")
  }

  ghost predicate FieldEndsChunked(decode: Decoder, field: Header) {
    var text := decode(field.value);
    text.Some? && EndsChunked(text.value)
  }

  lemma EndsChunkedMeans(value: string)
    ensures IsChunked(Last(TrimmedParts(value))) <==> EndsChunked(value)
  {
    LastPartMeans(value, Last(TrimmedParts(value)));
    if coding :| IsLastCoding(value, coding) && EqIgnoreCase(coding, "chunked") {
      LastPartMeans(value, coding);
    }
  }

  lemma LastCodingIsLast(decode: Decoder, encodings: seq<Header>)
    requires encodings != [] && DecodeAll(decode, encodings).Some?
    ensures var codings := AllParts(DecodeAll(decode, encodings).value);
      codings != []
      && (IsChunked(Last(codings)) <==> FieldEndsChunked(decode, encodings[|encodings| - 1]))
  {
    var values := DecodeAll(decode, encodings).value;
    LastPart(values);
    EndsChunkedMeans(values[|values| - 1]);
  }

  lemma ChunkedMeans(decode: Decoder, encodings: seq<Header>, lengths: seq<Header>)
    ensures FramingOf(decode, encodings, lengths) == Some(Chunked) <==>
            && lengths == [] && encodings != []
            && AllDecode(decode, encodings) && FieldEndsChunked(decode, encodings[|encodings| - 1])
  {
    if encodings != [] && DecodeAll(decode, encodings).Some? {
      LastCodingIsLast(decode, encodings);
    }
  }

  /** The field says the number, in digits, and it fits into 64 bits. */
  ghost predicate SaysLength(decode: Decoder, field: Header, n: nat) {
    var text := decode(field.value);
    text.Some? && Says(text.value, n) && n < 0x1_0000_0000_0000_0000
  }

  lemma LengthOfMeans(decode: Decoder, field: Header, n: nat)
    ensures LengthOf(decode, field) == Some(n) <==> SaysLength(decode, field, n)
  {
    var text := decode(field.value);
    if text.Some? {
      ParseDecimalMeans(text.value, n);
    }
  }

  lemma LengthMeans(decode: Decoder, encodings: seq<Header>, lengths: seq<Header>, n: nat)
    ensures FramingOf(decode, encodings, lengths) == Some(Length(n)) <==>
            && encodings == [] && (lengths == [] ==> n == 0)
            && forall i :: 0 <= i < |lengths| ==> SaysLength(decode, lengths[i], n)
  {
    forall i | 0 <= i < |lengths|
      ensures LengthOf(decode, lengths[i]) == Some(n) <==> SaysLength(decode, lengths[i], n)
    {
      LengthOfMeans(decode, lengths[i], n);
    }
    if encodings != [] && DecodeAll(decode, encodings).Some? {
      LastCodingIsLast(decode, encodings);
    }
  }

  /** The last header of that name. */
  predicate IsLastNamed(headers: seq<Header>, name: string, k: nat) {
    k < |headers| && EqIgnoreCase(headers[k].name, name)
    && forall j :: k < j < |headers| ==> !EqIgnoreCase(headers[j].name, name)
  }

  lemma {:induction false} LastNamed(headers: seq<Header>, name: string) returns (k: nat)
    requires Named(headers, name) != []
    ensures IsLastNamed(headers, name, k) && headers[k] == Named(headers, name)[|Named(headers, name)| - 1]
  {
    var rest := Named(headers[1..], name);
    if rest != [] {
      k := LastNamed(headers[1..], name);
      k := k + 1;
    } else {
      k := 0;
      AbsentMeans(headers[1..], name);
      forall j | 0 < j < |headers| ensures !EqIgnoreCase(headers[j].name, name) {
        assert headers[1..][j - 1] in headers[1..];
      }
    }
  }

  /** A request's body is chunked exactly when every Transfer-Encoding field decodes, the last one ends with
      the coding chunked, and there is no Content-Length. It has a length exactly when there is no
      Transfer-Encoding and every Content-Length says that number, the number being zero when there is none. */
  lemma FramingMeans(decode: Decoder, headers: seq<Header>, n: nat)
    ensures BodyFraming(decode, headers) == Some(Chunked) <==>
            && (forall h :: h in headers ==> !EqIgnoreCase(h.name, "content-length"))
            && NamedDecode(decode, headers, "transfer-encoding")
            && LastEndsChunked(decode, headers)
    ensures BodyFraming(decode, headers) == Some(Length(n)) <==>
            && (forall h :: h in headers ==> !EqIgnoreCase(h.name, "transfer-encoding"))
            && ((forall h :: h in headers ==> !EqIgnoreCase(h.name, "content-length")) ==> n == 0)
            && forall h :: h in headers && EqIgnoreCase(h.name, "content-length") ==> SaysLength(decode, h, n)
  {
    ChunkedByHeaders(decode, headers);
    LengthByHeaders(decode, headers, n);
  }

  lemma AbsentMeans(headers: seq<Header>, name: string)
    ensures Named(headers, name) == [] <==> forall h :: h in headers ==> !EqIgnoreCase(h.name, name)
  {
    var found := Named(headers, name);
    if found != [] {
      assert found[0] in found;
    }
  }

  /** The last Transfer-Encoding field ends with the coding chunked. */
  ghost predicate LastEndsChunked(decode: Decoder, headers: seq<Header>) {
    exists k: nat :: IsLastNamed(headers, "transfer-encoding", k) && FieldEndsChunked(decode, headers[k])
  }

  lemma LastEndsChunkedMeans(decode: Decoder, headers: seq<Header>)
    ensures var encodings := Named(headers, "transfer-encoding");
      LastEndsChunked(decode, headers) <==>
      encodings != [] && FieldEndsChunked(decode, encodings[|encodings| - 1])
  {
    AbsentMeans(headers, "transfer-encoding");
    if Named(headers, "transfer-encoding") != [] {
      var k := LastNamed(headers, "transfer-encoding");
      forall j: nat | IsLastNamed(headers, "transfer-encoding", j) ensures j == k {
      }
    } else {
      forall j: nat ensures !IsLastNamed(headers, "transfer-encoding", j) {
        assert j < |headers| ==> headers[j] in headers;
      }
    }
  }

  lemma ChunkedByHeaders(decode: Decoder, headers: seq<Header>)
    ensures BodyFraming(decode, headers) == Some(Chunked) <==>
            && (forall h :: h in headers ==> !EqIgnoreCase(h.name, "content-length"))
            && NamedDecode(decode, headers, "transfer-encoding")
            && LastEndsChunked(decode, headers)
  {
    ChunkedMeans(decode, Named(headers, "transfer-encoding"), Named(headers, "content-length"));
    AbsentMeans(headers, "content-length");
    AllNamedDecode(decode, headers, "transfer-encoding");
    LastEndsChunkedMeans(decode, headers);
  }

  predicate AllDecode(decode: Decoder, fields: seq<Header>) {
    forall i :: 0 <= i < |fields| ==> decode(fields[i].value).Some?
  }

  ghost predicate NamedDecode(decode: Decoder, headers: seq<Header>, name: string) {
    forall h :: h in headers && EqIgnoreCase(h.name, name) ==> decode(h.value).Some?
  }

  lemma AllNamedDecode(decode: Decoder, headers: seq<Header>, name: string)
    ensures AllDecode(decode, Named(headers, name)) <==> NamedDecode(decode, headers, name)
  {
    var found := Named(headers, name);
    if AllDecode(decode, found) {
      forall h | h in headers && EqIgnoreCase(h.name, name) ensures decode(h.value).Some? {
        assert h in found;
      }
    }
    if NamedDecode(decode, headers, name) {
      forall i | 0 <= i < |found| ensures decode(found[i].value).Some? {
        assert found[i] in found;
      }
    }
  }

  lemma LengthByHeaders(decode: Decoder, headers: seq<Header>, n: nat)
    ensures BodyFraming(decode, headers) == Some(Length(n)) <==>
            && (forall h :: h in headers ==> !EqIgnoreCase(h.name, "transfer-encoding"))
            && ((forall h :: h in headers ==> !EqIgnoreCase(h.name, "content-length")) ==> n == 0)
            && forall h :: h in headers && EqIgnoreCase(h.name, "content-length") ==> SaysLength(decode, h, n)
  {
    var lengths := Named(headers, "content-length");
    LengthMeans(decode, Named(headers, "transfer-encoding"), lengths, n);
    AbsentMeans(headers, "content-length");
    AbsentMeans(headers, "transfer-encoding");
    if forall i :: 0 <= i < |lengths| ==> SaysLength(decode, lengths[i], n) {
      forall h | h in headers && EqIgnoreCase(h.name, "content-length") ensures SaysLength(decode, h, n) {
        assert h in lengths;
      }
    }
    if forall h :: h in headers && EqIgnoreCase(h.name, "content-length") ==> SaysLength(decode, h, n) {
      forall i | 0 <= i < |lengths| ensures SaysLength(decode, lengths[i], n) {
        assert lengths[i] in lengths;
      }
    }
  }

  predicate ListsFraming(name: string) {
    EqIgnoreCase(CONTENT_LENGTH, name) || EqIgnoreCase(TRANSFER_ENCODING, name)
  }

  /** The names listed by Connection and Proxy-Connection, refused when they list the body's framing. */
  function ConnectionListed(decode: Decoder, headers: seq<Header>): Option<seq<string>> {
    var values := DecodeAll(decode, Named(headers, "connection") + Named(headers, "proxy-connection"));
    if values.None? then None
    else
      var listed := AllParts(values.value);
      if exists i :: 0 <= i < |listed| && ListsFraming(listed[i]) then None else Some(listed)
  }

  predicate ListsHops(h: Header) {
    EqIgnoreCase(h.name, "connection") || EqIgnoreCase(h.name, "proxy-connection")
  }

  /** One of the comma-separated parts of a value, without the spaces around it. */
  ghost predicate IsPart(value: string, name: string) {
    exists piece :: PieceOf(value, ',', piece) && Surrounds(piece, name)
  }

  /** The header is a Connection or Proxy-Connection field that lists the name. */
  ghost predicate ListsName(decode: Decoder, h: Header, name: string) {
    ListsHops(h) && decode(h.value).Some? && IsPart(decode(h.value).value, name)
  }

  lemma PartsMean(value: string, name: string)
    ensures name in TrimmedParts(value) <==> IsPart(value, name)
  {
    var parts, trimmed := Split(value, ','), TrimmedParts(value);
    if name in trimmed {
      var i :| 0 <= i < |trimmed| && trimmed[i] == name;
      SplitGivesPieces(value, ',', parts[i]);
      TrimIs(parts[i], name);
    }
    if IsPart(value, name) {
      var piece :| PieceOf(value, ',', piece) && Surrounds(piece, name);
      SplitGivesPieces(value, ',', piece);
      TrimIs(piece, name);
      var i :| 0 <= i < |parts| && parts[i] == piece;
      assert trimmed[i] == name;
    }
  }

  lemma {:induction false} AllPartsMean(values: seq<string>, name: string)
    ensures name in AllParts(values) <==> exists i :: 0 <= i < |values| && IsPart(values[i], name)
  {
    if values != [] {
      PartsMean(values[0], name);
      AllPartsMean(values[1..], name);
      if i :| 0 <= i < |values| && IsPart(values[i], name) {
        assert i > 0 ==> values[1..][i - 1] == values[i];
      }
      if i :| 0 <= i < |values[1..]| && IsPart(values[1..][i], name) {
        assert values[i + 1] == values[1..][i];
      }
    }
  }

  lemma ListedNames(decode: Decoder, headers: seq<Header>, name: string)
    requires DecodeAll(decode, Named(headers, "connection") + Named(headers, "proxy-connection")).Some?
    ensures var values := DecodeAll(decode, Named(headers, "connection") + Named(headers, "proxy-connection")).value;
      name in AllParts(values) <==> exists h :: h in headers && ListsName(decode, h, name)
  {
    var fields := Named(headers, "connection") + Named(headers, "proxy-connection");
    var values := DecodeAll(decode, fields).value;
    AllPartsMean(values, name);
    if name in AllParts(values) {
      var i :| 0 <= i < |values| && IsPart(values[i], name);
      assert fields[i] in fields;
      assert ListsName(decode, fields[i], name);
    }
    if h :| h in headers && ListsName(decode, h, name) {
      assert h in fields;
      var i :| 0 <= i < |fields| && fields[i] == h;
      assert IsPart(values[i], name);
    }
  }

  /** The connection's list is refused exactly when a field of it does not decode or lists the body's
      framing; otherwise it has every part of every such field, and nothing else. */
  lemma ConnectionListedMeans(decode: Decoder, headers: seq<Header>)
    ensures ConnectionListed(decode, headers).Some? <==>
            && (forall h :: h in headers && ListsHops(h) ==> decode(h.value).Some?)
            && forall h, name :: h in headers && ListsName(decode, h, name) ==> !ListsFraming(name)
    ensures ConnectionListed(decode, headers).Some? ==>
            forall name :: name in ConnectionListed(decode, headers).value <==>
                           exists h :: h in headers && ListsName(decode, h, name)
  {
    var fields := Named(headers, "connection") + Named(headers, "proxy-connection");
    var values := DecodeAll(decode, fields);
    if values.Some? {
      forall name ensures name in AllParts(values.value) <==> exists h :: h in headers && ListsName(decode, h, name) {
        ListedNames(decode, headers, name);
      }
      forall h | h in headers && ListsHops(h) ensures decode(h.value).Some? {
        assert h in fields;
      }
      var listed := AllParts(values.value);
      if i :| 0 <= i < |listed| && ListsFraming(listed[i]) {
        assert listed[i] in listed;
      }
      if h, name :| h in headers && ListsName(decode, h, name) && ListsFraming(name) {
        assert name in listed;
      }
    } else {
      var i :| 0 <= i < |fields| && decode(fields[i].value).None?;
      assert fields[i] in fields;
    }
  }

  // ----- the head sent upstream --------------------------------------------------------------------

  predicate OneOf(names: seq<string>, name: string) {
    exists i :: 0 <= i < |names| && EqIgnoreCase(names[i], name)
  }

  function Kept(names: seq<string>, headers: seq<Header>): seq<Header> {
    if headers == [] then []
    else (if OneOf(names, headers[0].name) then [] else [headers[0]]) + Kept(names, headers[1..])
  }

  function Rewritten(host: string, listed: seq<string>, headers: seq<Header>): seq<Header> {
    [Header("Host", host)] + Kept(DROPPED_HEADERS + listed, headers) + [Header("Connection", "close")]
  }

  function HeaderLine(h: Header): string {
    h.name + ": " + h.value + "\r\n"
  }

  function HeaderLines(headers: seq<Header>): string {
    if headers == [] then "" else HeaderLine(headers[0]) + HeaderLines(headers[1..])
  }

  function Render(requestLine: string, headers: seq<Header>): string {
    requestLine + "\r\n" + HeaderLines(headers) + "\r\n"
  }

  lemma {:induction false} HeaderLinesAppend(a: seq<Header>, b: seq<Header>)
    ensures HeaderLines(a + b) == HeaderLines(a) + HeaderLines(b)
  {
    if a == [] {
      assert a + b == b;
    } else {
      assert (a + b)[0] == a[0] && (a + b)[1..] == a[1..] + b;
      HeaderLinesAppend(a[1..], b);
    }
  }

  lemma HeaderLinesSnoc(headers: seq<Header>, h: Header)
    ensures HeaderLines(headers + [h]) == HeaderLines(headers) + HeaderLine(h)
  {
    HeaderLinesAppend(headers, [h]);
    assert [h][1..] == [] && HeaderLines([h]) == HeaderLine(h) + HeaderLines([]);
  }

  lemma {:induction false} KeptAppends(names: seq<string>, a: seq<Header>, b: seq<Header>)
    ensures Kept(names, a + b) == Kept(names, a) + Kept(names, b)
  {
    if a == [] {
      assert a + b == b;
    } else {
      assert (a + b)[0] == a[0] && (a + b)[1..] == a[1..] + b;
      KeptAppends(names, a[1..], b);
    }
  }

  lemma KeptSnoc(names: seq<string>, headers: seq<Header>, h: Header)
    ensures Kept(names, headers + [h])
         == if OneOf(names, h.name) then Kept(names, headers) else Kept(names, headers) + [h]
  {
    KeptAppends(names, headers, [h]);
    assert [h][1..] == [] && Kept(names, []) == [];
  }

  /** Appends the headers that are kept, one by one. */
  method AppendKept(begun: string, names: seq<string>, headers: seq<Header>) returns (head: string)
    ensures head == begun + HeaderLines(Kept(names, headers))
  {
    head := begun;
    var i := 0;
    while i < |headers|
      invariant 0 <= i <= |headers|
      invariant head == begun + HeaderLines(Kept(names, headers[..i]))
    {
      ghost var lines := HeaderLines(Kept(names, headers[..i]));
      KeptSnoc(names, headers[..i], headers[i]);
      assert headers[..i + 1] == headers[..i] + [headers[i]];
      if !OneOf(names, headers[i].name) {
        HeaderLinesSnoc(Kept(names, headers[..i]), headers[i]);
        head := AddLine(head, headers[i]);
        Associates(begun, lines, HeaderLine(headers[i]));
      }
      i := i + 1;
    }
    assert headers[..i] == headers;
  }

  /** Builds the head: the request line, the Host, the kept headers, the Connection. */
  method RewriteHead(requestLine: string, host: string, headers: seq<Header>, listed: seq<string>)
    returns (head: string)
    ensures head == Render(requestLine, Rewritten(host, listed, headers))
  {
    var names := DROPPED_HEADERS + listed;
    head := requestLine + "\r\n";
    head := AddLine(head, Header("Host", host));
    head := AppendKept(head, names, headers);
    head := AddLine(head, Header("Connection", "close"));
    head := head + "\r\n";
    RenderedParts(requestLine, Header("Host", host), Kept(names, headers), Header("Connection", "close"));
  }

  lemma LinesAround(first: Header, kept: seq<Header>, last: Header)
    ensures HeaderLines([first] + kept + [last]) == HeaderLine(first) + HeaderLines(kept) + HeaderLine(last)
  {
    HeaderLinesSnoc([first] + kept, last);
    HeaderLinesAppend([first], kept);
    HeaderLinesSnoc([], first);
    assert [] + [first] == [first];
  }

  lemma Flat(a: string, x: string, y: string, z: string)
    ensures a + (x + y + z) == a + x + y + z
  {
  }

  lemma Associates(a: string, x: string, y: string)
    ensures a + (x + y) == a + x + y
  {
  }

  lemma RenderedParts(requestLine: string, first: Header, kept: seq<Header>, last: Header)
    ensures Render(requestLine, [first] + kept + [last])
         == requestLine + "\r\n" + HeaderLine(first) + HeaderLines(kept) + HeaderLine(last) + "\r\n"
  {
    LinesAround(first, kept, last);
    Flat(requestLine + "\r\n", HeaderLine(first), HeaderLines(kept), HeaderLine(last));
  }

  method AddLine(head: string, h: Header) returns (longer: string)
    ensures longer == head + HeaderLine(h)
  {
    longer := head + h.name;
    longer := longer + ": ";
    longer := longer + h.value;
    longer := longer + "\r\n";
  }

  // ----- what the rewritten head means -------------------------------------------------------------

  lemma {:induction false} NamedAppends(a: seq<Header>, b: seq<Header>, name: string)
    ensures Named(a + b, name) == Named(a, name) + Named(b, name)
  {
    if a == [] {
      assert a + b == b;
    } else {
      assert (a + b)[0] == a[0] && (a + b)[1..] == a[1..] + b;
      NamedAppends(a[1..], b, name);
    }
  }

  lemma NamedOne(h: Header, name: string)
    ensures Named([h], name) == if EqIgnoreCase(h.name, name) then [h] else []
  {
    assert Named([h][1..], name) == [];
  }

  /** Dropping headers does not touch a name that is never dropped. */
  lemma {:induction false} KeptNamed(names: seq<string>, headers: seq<Header>, name: string)
    requires forall h :: h in headers && EqIgnoreCase(h.name, name) ==> !OneOf(names, h.name)
    ensures Named(Kept(names, headers), name) == Named(headers, name)
  {
    if headers != [] {
      assert headers[0] in headers;
      KeptNamed(names, headers[1..], name);
      if !OneOf(names, headers[0].name) {
        assert Kept(names, headers) == [headers[0]] + Kept(names, headers[1..]);
        NamedAppends([headers[0]], Kept(names, headers[1..]), name);
        NamedOne(headers[0], name);
      } else {
        assert Named(headers, name) == Named(headers[1..], name);
        assert Kept(names, headers) == Kept(names, headers[1..]);
      }
    }
  }

  /** The headers kept are those not dropped, in their order: `at` names their positions. */
  ghost predicate Selects(names: seq<string>, headers: seq<Header>, at: seq<nat>, kept: seq<Header>) {
    && |at| == |kept|
    && (forall j :: 0 <= j < |at| ==> at[j] < |headers| && kept[j] == headers[at[j]])
    && (forall j, k :: 0 <= j < k < |at| ==> at[j] < at[k])
    && forall i: nat :: i < |headers| ==> (i in at <==> !OneOf(names, headers[i].name))
  }

  /** Every header that is not dropped is kept, nothing else is, and the order stays. */
  lemma {:induction false} KeptInOrder(names: seq<string>, headers: seq<Header>) returns (at: seq<nat>)
    ensures Selects(names, headers, at, Kept(names, headers))
  {
    if headers == [] {
      at := [];
    } else {
      var before, h := headers[..|headers| - 1], headers[|headers| - 1];
      at := KeptInOrder(names, before);
      at := KeptOneMore(names, before, h, at);
      assert headers == before + [h];
    }
  }

  lemma KeptOneMore(names: seq<string>, before: seq<Header>, h: Header, at: seq<nat>) returns (more: seq<nat>)
    requires Selects(names, before, at, Kept(names, before))
    ensures Selects(names, before + [h], more, Kept(names, before + [h]))
  {
    KeptSnoc(names, before, h);
    SelectsOneMore(names, before, h, at, Kept(names, before));
    more := if OneOf(names, h.name) then at else at + [|before| as nat];
  }

  lemma SelectsOneMore(names: seq<string>, before: seq<Header>, h: Header, at: seq<nat>, kept: seq<Header>)
    requires Selects(names, before, at, kept)
    ensures OneOf(names, h.name) ==> Selects(names, before + [h], at, kept)
    ensures !OneOf(names, h.name) ==> Selects(names, before + [h], at + [|before| as nat], kept + [h])
  {
    var headers := before + [h];
    var longer: seq<nat> := at + [|before|];
    assert forall i: nat :: i < |before| ==> headers[i] == before[i];
    assert forall j :: 0 <= j < |at| ==> longer[j] == at[j];
    assert longer[|at|] == |before|;
    forall i: nat ensures i in longer <==> i in at || i == |before| {
      assert i in at ==> exists j :: 0 <= j < |at| && longer[j] == i;
    }
  }

  lemma NoDroppedNameFrames(i: nat)
    requires i < |DROPPED_HEADERS|
    ensures !ListsFraming(DROPPED_HEADERS[i])
  {
    var name := DROPPED_HEADERS[i];
    assert |CONTENT_LENGTH| == 14 && |TRANSFER_ENCODING| == 17;
    assert |name| != 14 && |name| != 17;
  }

  lemma FramingIsNeverDropped(decode: Decoder, headers: seq<Header>, name: string)
    requires ConnectionListed(decode, headers).Some? && ListsFraming(name)
    ensures !OneOf(DROPPED_HEADERS + ConnectionListed(decode, headers).value, name)
  {
    var listed := ConnectionListed(decode, headers).value;
    var names := DROPPED_HEADERS + listed;
    forall i | 0 <= i < |names| ensures !EqIgnoreCase(names[i], name) {
      if i < |DROPPED_HEADERS| {
        NoDroppedNameFrames(i);
      }
      SameNameFrames(names[i], name);
    }
  }

  lemma SameNameFrames(a: string, b: string)
    ensures EqIgnoreCase(a, b) && ListsFraming(b) ==> ListsFraming(a)
  {
  }

  lemma FramingNamesStay(decode: Decoder, host: string, headers: seq<Header>, name: string)
    requires ConnectionListed(decode, headers).Some?
    requires name == CONTENT_LENGTH || name == TRANSFER_ENCODING
    ensures Named(Rewritten(host, ConnectionListed(decode, headers).value, headers), name) == Named(headers, name)
  {
    var listed := ConnectionListed(decode, headers).value;
    forall h | h in headers && EqIgnoreCase(h.name, name) ensures !OneOf(DROPPED_HEADERS + listed, h.name) {
      FramingIsNeverDropped(decode, headers, h.name);
    }
    KeptNamed(DROPPED_HEADERS + listed, headers, name);
    NamedRewritten(host, listed, headers, name);
    assert |name| != |"Host"| && |name| != |"Connection"|;
  }

  lemma NamedRewritten(host: string, listed: seq<string>, headers: seq<Header>, name: string)
    ensures Named(Rewritten(host, listed, headers), name)
         == (if EqIgnoreCase("Host", name) then [Header("Host", host)] else [])
          + Named(Kept(DROPPED_HEADERS + listed, headers), name)
          + (if EqIgnoreCase("Connection", name) then [Header("Connection", "close")] else [])
  {
    NamedAround(Header("Host", host), Kept(DROPPED_HEADERS + listed, headers), Header("Connection", "close"), name);
  }

  lemma NamedAround(first: Header, kept: seq<Header>, last: Header, name: string)
    ensures Named([first] + kept + [last], name)
         == (if EqIgnoreCase(first.name, name) then [first] else []) + Named(kept, name)
          + (if EqIgnoreCase(last.name, name) then [last] else [])
  {
    NamedAppends([first] + kept, [last], name);
    NamedAppends([first], kept, name);
    NamedOne(first, name);
    NamedOne(last, name);
  }

  /** The rewritten head frames the body exactly as the original did. */
  lemma FramingIsPreserved(decode: Decoder, host: string, headers: seq<Header>)
    requires ConnectionListed(decode, headers).Some?
    ensures BodyFraming(decode, Rewritten(host, ConnectionListed(decode, headers).value, headers))
         == BodyFraming(decode, headers)
  {
    FramingNamesStay(decode, host, headers, CONTENT_LENGTH);
    FramingNamesStay(decode, host, headers, TRANSFER_ENCODING);
  }

  lemma {:induction false} NothingDroppedIsKept(names: seq<string>, headers: seq<Header>)
    ensures forall h :: h in Kept(names, headers) ==> !OneOf(names, h.name)
  {
    if headers != [] {
      NothingDroppedIsKept(names, headers[1..]);
    }
  }

  /** The header concerns only this hop: it is always dropped, or a field of the connection lists it. */
  ghost predicate OnlyThisHop(decode: Decoder, headers: seq<Header>, name: string) {
    || OneOf(DROPPED_HEADERS, name)
    || exists h, listed :: h in headers && ListsName(decode, h, listed) && EqIgnoreCase(listed, name)
  }

  lemma DroppedMeans(decode: Decoder, headers: seq<Header>, name: string)
    requires ConnectionListed(decode, headers).Some?
    ensures OneOf(DROPPED_HEADERS + ConnectionListed(decode, headers).value, name)
        <==> OnlyThisHop(decode, headers, name)
  {
    ConnectionListedMeans(decode, headers);
    var listed := ConnectionListed(decode, headers).value;
    OneOfEither(DROPPED_HEADERS, listed, name);
    if OneOf(listed, name) {
      var i :| 0 <= i < |listed| && EqIgnoreCase(listed[i], name);
      assert listed[i] in listed;
    }
    if h, other :| h in headers && ListsName(decode, h, other) && EqIgnoreCase(other, name) {
      assert other in listed;
    }
  }

  lemma OneOfEither(a: seq<string>, b: seq<string>, name: string)
    ensures OneOf(a + b, name) <==> OneOf(a, name) || OneOf(b, name)
  {
    if OneOf(a, name) {
      var i :| 0 <= i < |a| && EqIgnoreCase(a[i], name);
      assert (a + b)[i] == a[i];
    }
    if OneOf(b, name) {
      var i :| 0 <= i < |b| && EqIgnoreCase(b[i], name);
      assert (a + b)[|a| + i] == b[i];
    }
  }

  /** The fields between the generated ones are those of the request that do not concern only this hop,
      in their order: `at` names their positions. */
  ghost predicate PassesOn(decode: Decoder, headers: seq<Header>, at: seq<nat>, kept: seq<Header>) {
    && |at| == |kept|
    && (forall j :: 0 <= j < |at| ==> at[j] < |headers| && kept[j] == headers[at[j]])
    && (forall j, k :: 0 <= j < k < |at| ==> at[j] < at[k])
    && forall i: nat :: i < |headers| ==> (i in at <==> !OnlyThisHop(decode, headers, headers[i].name))
  }

  lemma KeptPassesOn(decode: Decoder, headers: seq<Header>) returns (at: seq<nat>)
    requires ConnectionListed(decode, headers).Some?
    ensures PassesOn(decode, headers, at, Kept(DROPPED_HEADERS + ConnectionListed(decode, headers).value, headers))
  {
    var names := DROPPED_HEADERS + ConnectionListed(decode, headers).value;
    at := KeptInOrder(names, headers);
    forall i: nat | i < |headers| ensures i in at <==> !OnlyThisHop(decode, headers, headers[i].name) {
      DroppedMeans(decode, headers, headers[i].name);
    }
  }

  /** Exactly one Host and one Connection field, both generated; between them go exactly the fields that
      no Connection or Proxy-Connection field lists and that are not always dropped. */
  lemma HopFieldsAreReplaced(decode: Decoder, host: string, headers: seq<Header>)
    returns (kept: seq<Header>, at: seq<nat>)
    requires ConnectionListed(decode, headers).Some?
    ensures var sent := Rewritten(host, ConnectionListed(decode, headers).value, headers);
      && sent == [Header("Host", host)] + kept + [Header("Connection", "close")]
      && Named(sent, "host") == [Header("Host", host)]
      && Named(sent, "connection") == [Header("Connection", "close")]
    ensures PassesOn(decode, headers, at, kept)
  {
    var listed := ConnectionListed(decode, headers).value;
    kept := Kept(DROPPED_HEADERS + listed, headers);
    GeneratedFields(host, listed, headers);
    at := KeptPassesOn(decode, headers);
  }

  lemma GeneratedFields(host: string, listed: seq<string>, headers: seq<Header>)
    ensures Named(Rewritten(host, listed, headers), "host") == [Header("Host", host)]
    ensures Named(Rewritten(host, listed, headers), "connection") == [Header("Connection", "close")]
  {
    var names := DROPPED_HEADERS + listed;
    var kept := Kept(names, headers);
    NothingDroppedIsKept(names, headers);
    assert names[0] == "host" && names[1] == "connection";
    NoneNamed(names, 0, kept);
    NoneNamed(names, 1, kept);
    NamedRewritten(host, listed, headers, "host");
    NamedRewritten(host, listed, headers, "connection");
    HostAndConnection();
  }

  lemma HostAndConnection()
    ensures EqIgnoreCase("Host", "host") && EqIgnoreCase("Connection", "connection")
    ensures !EqIgnoreCase("Host", "connection") && !EqIgnoreCase("Connection", "host")
  {
  }

  lemma {:induction false} NoneNamed(names: seq<string>, i: nat, kept: seq<Header>)
    requires i < |names| && forall h :: h in kept ==> !OneOf(names, h.name)
    ensures Named(kept, names[i]) == []
  {
    if kept != [] {
      assert kept[0] in kept;
      assert EqIgnoreCase(kept[0].name, names[i]) ==> EqIgnoreCase(names[i], kept[0].name);
      NoneNamed(names, i, kept[1..]);
    }
  }

  // ----- reading the head back ---------------------------------------------------------------------

  datatype Read = Read(headers: seq<Header>, rest: string)

  predicate Blank(c: char) {
    c == ' ' || c == '\t'
  }

  function Trimmed(text: string): string {
    if text != [] && Blank(text[0]) then Trimmed(text[1..])
    else if text != [] && Blank(text[|text| - 1]) then Trimmed(text[..|text| - 1])
    else text
  }

  /** Where `c` first stands in the text, or its length. */
  function Find(text: string, c: char): (at: nat)
    ensures at <= |text| && (at < |text| ==> text[at] == c)
    ensures forall i :: 0 <= i < at ==> text[i] != c
  {
    if text == [] || text[0] == c then 0 else 1 + Find(text[1..], c)
  }

  /** A header line (section 5 of RFC 9112): a name, a colon, a value without the blanks around it. */
  function ReadLine(line: string): Option<Header> {
    var colon := Find(line, ':');
    if colon == |line| then None else Some(Header(line[..colon], Trimmed(line[colon + 1..])))
  }

  /** A reader of header lines up to an empty line, which ends the list. */
  function ReadHeaders(text: string): Option<Read> {
    var end := Find(text, '\n');
    if end == |text| || end == 0 || text[end - 1] != '\r' then None
    else
      var line, rest := text[..end - 1], text[end + 1..];
      if line == [] then Some(Read([], rest))
      else
        var header, read := ReadLine(line), ReadHeaders(rest);
        if header.None? || read.None? then None
        else Some(Read([header.value] + read.value.headers, read.value.rest))
  }

  /** What the request parser accepts as a header: no line break, no colon in the name, no blanks
      around the value. */
  ghost predicate Sound(h: Header) {
    && h.name != [] && ':' !in h.name && '\n' !in h.name && '\n' !in h.value
    && (h.value != [] ==> !Blank(h.value[0]) && !Blank(h.value[|h.value| - 1]))
  }

  lemma FindIs(text: string, c: char, at: nat)
    requires at < |text| && text[at] == c && forall i :: 0 <= i < at ==> text[i] != c
    ensures Find(text, c) == at
  {
    assert Find(text, c) <= at;
  }

  lemma LineEnds(line: string, rest: string)
    requires '\n' !in line
    ensures (var text := line + "\r\n" + rest;
             && Find(text, '\n') == |line| + 1 && text[|line|] == '\r'
             && text[..|line|] == line && text[|line| + 2..] == rest)
  {
    FindIs(line + "\r\n" + rest, '\n', |line| + 1);
  }

  lemma LineReadsBack(h: Header)
    requires Sound(h)
    ensures ReadLine(h.name + ": " + h.value) == Some(h)
  {
    var line := h.name + ": " + h.value;
    FindIs(line, ':', |h.name|);
    assert line[..|h.name|] == h.name;
    assert line[|h.name| + 1..] == " " + h.value;
    assert (" " + h.value)[1..] == h.value;
    assert Trimmed(" " + h.value) == Trimmed(h.value) == h.value;
  }

  /** Reading the lines of sound headers gives the same headers back, and stops at the body. */
  lemma {:induction false} HeadersReadBack(headers: seq<Header>, body: string)
    requires forall h :: h in headers ==> Sound(h)
    ensures ReadHeaders(HeaderLines(headers) + "\r\n" + body) == Some(Read(headers, body))
  {
    if headers == [] {
      LineEnds("", body);
      assert HeaderLines(headers) + "\r\n" + body == "" + "\r\n" + body;
    } else {
      var h, more := headers[0], headers[1..];
      assert h in headers;
      var line, rest := h.name + ": " + h.value, HeaderLines(more) + "\r\n" + body;
      HeadersReadBack(more, body);
      LineReadsBack(h);
      OneLineMore(line, rest);
      Regroup(line, "\r\n", HeaderLines(more), "\r\n", body);
      assert [h] + more == headers;
    }
  }

  lemma OneLineMore(line: string, rest: string)
    requires '\n' !in line && line != []
    ensures ReadHeaders(line + "\r\n" + rest)
         == var header, read := ReadLine(line), ReadHeaders(rest);
            if header.None? || read.None? then None
            else Some(Read([header.value] + read.value.headers, read.value.rest))
  {
    LineEnds(line, rest);
  }

  lemma Regroup(a: string, b: string, c: string, d: string, e: string)
    ensures a + b + c + d + e == a + b + (c + d + e)
  {
  }

  /** The next server reads from the rewritten head exactly the rewritten list, then the body. */
  lemma RewrittenHeadReadsBack(host: string, headers: seq<Header>, listed: seq<string>, body: string)
    requires (forall h :: h in headers ==> Sound(h)) && Sound(Header("Host", host))
    ensures ReadHeaders(HeaderLines(Rewritten(host, listed, headers)) + "\r\n" + body)
         == Some(Read(Rewritten(host, listed, headers), body))
  {
    KeptAreSound(DROPPED_HEADERS + listed, headers);
    assert Sound(Header("Connection", "close"));
    HeadersReadBack(Rewritten(host, listed, headers), body);
  }

  lemma KeptAreSound(names: seq<string>, headers: seq<Header>)
    requires forall h :: h in headers ==> Sound(h)
    ensures forall h :: h in Kept(names, headers) ==> Sound(h)
  {
    if headers != [] {
      assert headers[0] in headers;
      KeptAreSound(names, headers[1..]);
    }
  }

}

/**
 Planning the mounts of a restored system from its fstab, and the octal escapes of fstab and mountinfo.
 A character of an escaped field stands for a byte.
 */
module Fstab {
  import opened Options
  import opened Text
  import opened Paths

  // ----- octal escapes -----------------------------------------------------------------------------

  predicate IsOctal(c: char) {
    '0' <= c <= '7'
  }

  function OctalValue(a: char, b: char, c: char): (value: nat)
    requires '0' <= a <= '3' && IsOctal(b) && IsOctal(c)
    ensures value < 256
  {
    (a as nat - '0' as nat) * 64 + (b as nat - '0' as nat) * 8 + (c as nat - '0' as nat)
  }

  /** The field goes on at `at` with an escaped byte. */
  predicate EscapeAt(field: string, at: nat) {
    && at + 3 < |field| && field[at] == '\\'
    && '0' <= field[at + 1] <= '3' && IsOctal(field[at + 2]) && IsOctal(field[at + 3])
  }

  function UnescapedFrom(field: string, at: nat): string
    requires at <= |field|
    decreases |field| - at
  {
    if at == |field| then ""
    else if EscapeAt(field, at) then
      [OctalValue(field[at + 1], field[at + 2], field[at + 3]) as char] + UnescapedFrom(field, at + 4)
    else [field[at]] + UnescapedFrom(field, at + 1)
  }

  function Unescaped(field: string): string {
    UnescapedFrom(field, 0)
  }

  /** Decodes a field byte by byte. */
  method Unescape(field: string) returns (decoded: string)
    ensures decoded == Unescaped(field)
  {
    decoded := "";
    var at := 0;
    while at < |field|
      invariant 0 <= at <= |field| && decoded + UnescapedFrom(field, at) == Unescaped(field)
    {
      if EscapeAt(field, at) {
        var byte := OctalValue(field[at + 1], field[at + 2], field[at + 3]) as char;
        assert decoded + ([byte] + UnescapedFrom(field, at + 4)) == decoded + [byte] + UnescapedFrom(field, at + 4);
        decoded := decoded + [byte];
        at := at + 4;
      } else {
        assert decoded + ([field[at]] + UnescapedFrom(field, at + 1)) == decoded + [field[at]] + UnescapedFrom(field, at + 1);
        decoded := decoded + [field[at]];
        at := at + 1;
      }
    }
  }

  predicate IsByte(c: char) {
    c as int < 256
  }

  function Octal(c: char): string
    requires IsByte(c)
  {
    var n := c as nat;
    ['\\', (48 + n / 64) as char, (48 + n / 8 % 8) as char, (48 + n % 8) as char]
  }

  /** An escaping may escape any byte, and escapes every backslash. */
  ghost predicate Escaping(bytes: string, chosen: seq<bool>) {
    && |chosen| == |bytes| && (forall i :: 0 <= i < |bytes| ==> IsByte(bytes[i]))
    && forall i :: 0 <= i < |bytes| && bytes[i] == '\\' ==> chosen[i]
  }

  /** Every byte string can be escaped: one may escape all of it. */
  lemma AllCanBeEscaped(bytes: string)
    requires forall i :: 0 <= i < |bytes| ==> 0 <= bytes[i] as int <= 255
    ensures Escaping(bytes, seq(|bytes|, _ => true))
  {
  }

  function Escaped(bytes: string, chosen: seq<bool>): string
    requires |chosen| == |bytes| && forall i :: 0 <= i < |bytes| ==> IsByte(bytes[i])
  {
    if bytes == "" then ""
    else (if chosen[0] then Octal(bytes[0]) else [bytes[0]]) + Escaped(bytes[1..], chosen[1..])
  }

  lemma OctalReads(c: char, rest: string)
    requires IsByte(c)
    ensures EscapeAt(Octal(c) + rest, 0)
    ensures var text := Octal(c) + rest; OctalValue(text[1], text[2], text[3]) as char == c
  {
    var n := c as nat;
    assert n == (n / 8) * 8 + n % 8 && n / 8 == (n / 64) * 8 + n / 8 % 8;
  }

  lemma {:induction false} SuffixUnescapes(field: string, at: nat, suffix: string)
    requires at <= |field| && field[at..] == suffix
    ensures UnescapedFrom(field, at) == UnescapedFrom(suffix, 0)
    decreases |field| - at
  {
    if at < |field| {
      assert forall i :: 0 <= i < |suffix| ==> suffix[i] == field[at + i];
      var step := if EscapeAt(field, at) then 4 else 1;
      assert EscapeAt(field, at) <==> EscapeAt(suffix, 0);
      assert field[at + step..] == suffix[step..];
      SuffixUnescapes(field, at + step, suffix[step..]);
      SuffixUnescapes(suffix, step, suffix[step..]);
    }
  }

  /** Decoding undoes every escaping. */
  lemma {:induction false} UnescapeInvertsEscape(bytes: string, chosen: seq<bool>)
    requires Escaping(bytes, chosen)
    ensures Unescaped(Escaped(bytes, chosen)) == bytes
  {
    if bytes != "" {
      var rest := Escaped(bytes[1..], chosen[1..]);
      UnescapeInvertsEscape(bytes[1..], chosen[1..]);
      var text := Escaped(bytes, chosen);
      if chosen[0] {
        OctalReads(bytes[0], rest);
        assert text[4..] == rest;
        SuffixUnescapes(text, 4, rest);
      } else {
        assert text[1..] == rest;
        SuffixUnescapes(text, 1, rest);
      }
      assert [bytes[0]] + bytes[1..] == bytes;
    }
  }

  // ----- mount points ------------------------------------------------------------------------------

  predicate AllNormal(components: seq<Component>) {
    forall i :: 0 <= i < |components| ==> components[i].Normal?
  }

  function NamesOf(components: seq<Component>): seq<string>
    requires AllNormal(components)
  {
    seq(|components|, i requires 0 <= i < |components| => components[i].name)
  }

  /** The mount point below the root, when it is absolute, lies below it and never steps up. */
  function TargetOf(mountpoint: string): Option<seq<string>> {
    var path := Components(mountpoint);
    if |path| > 1 && path[0] == RootDir && AllNormal(path[1..]) then Some(NamesOf(path[1..])) else None
  }

  method RelativeTarget(mountpoint: string) returns (target: Option<seq<string>>)
    ensures target == TargetOf(mountpoint)
  {
    var path := Components(mountpoint);
    if path == [] || path[0] != RootDir {
      return None;
    }
    var names: seq<string>, i := [], 1;
    while i < |path|
      invariant 1 <= i <= |path| && AllNormal(path[1..i]) && names == NamesOf(path[1..i])
    {
      if !path[i].Normal? {
        assert path[1..][i - 1] == path[i];
        return None;
      }
      assert path[1..i + 1] == path[1..i] + [path[i]];
      names, i := names + [path[i].name], i + 1;
    }
    assert path[1..i] == path[1..];
    target := if names != [] then Some(names) else None;
  }

  lemma {:induction false} PartsAreNames(parts: seq<string>)
    requires forall part :: part in parts ==> '/' !in part
    ensures forall i :: 0 <= i < |PartComponents(parts)| && PartComponents(parts)[i].Normal? ==>
              IsName(PartComponents(parts)[i].name)
  {
    if parts != [] {
      assert parts[0] in parts;
      PartsAreNames(parts[1..]);
    }
  }

  /** A target is a non-empty list of plain names, so it stays below the root. */
  lemma TargetsStayInside(mountpoint: string)
    ensures TargetOf(mountpoint).Some? ==>
              && TargetOf(mountpoint).value != []
              && forall i :: 0 <= i < |TargetOf(mountpoint).value| ==> IsName(TargetOf(mountpoint).value[i])
  {
    SplitIsExact(mountpoint, '/');
    PartsAreNames(Split(mountpoint, '/'));
    var parts := PartComponents(Split(mountpoint, '/'));
    if TargetOf(mountpoint).Some? {
      var path, names := Components(mountpoint), TargetOf(mountpoint).value;
      assert mountpoint[0] == '/' ==> path == [RootDir] + parts;
      forall i | 0 <= i < |names| ensures IsName(names[i]) {
        assert path[1..][i].Normal? && names[i] == path[1..][i].name;
      }
    }
  }

  function PathOf(names: seq<string>): string {
    if names == [] then "" else "/" + names[0] + PathOf(names[1..])
  }

  lemma SlashThen(rest: string)
    ensures Split("/" + rest, '/') == [""] + Split(rest, '/')
  {
    assert "/" + rest == [] + ['/'] + rest;
    SplitsOnce([], '/', rest);
  }

  lemma NameThen(name: string, more: string)
    requires '/' !in name && (more != "" ==> more[0] == '/')
    ensures Split(name + more, '/') == [name] + Split(more, '/')[1..]
  {
    if more == "" {
      SplitsNowhere(name, '/');
      assert name + more == name && Split(more, '/') == [""];
    } else {
      var tail := more[1..];
      assert more == "/" + tail && name + more == name + ['/'] + tail;
      SlashThen(tail);
      SplitsOnce(name, '/', tail);
    }
  }

  lemma {:induction false} PathSplits(names: seq<string>)
    requires forall name :: name in names ==> IsName(name)
    ensures Split(PathOf(names), '/') == [""] + names
    ensures names != [] ==> PathOf(names)[0] == '/'
  {
    if names != [] {
      var name, rest := names[0], names[1..];
      assert name in names;
      PathSplits(rest);
      assert PathOf(names) == "/" + (name + PathOf(rest));
      SlashThen(name + PathOf(rest));
      NameThen(name, PathOf(rest));
      assert ([""] + rest)[1..] == rest && names == [name] + rest;
    }
  }

  lemma {:induction false} NamesStay(names: seq<string>)
    requires forall name :: name in names ==> IsName(name)
    ensures |PartComponents(names)| == |names|
    ensures forall i :: 0 <= i < |names| ==> PartComponents(names)[i] == Normal(names[i])
  {
    if names != [] {
      assert names[0] in names;
      NamesStay(names[1..]);
    }
  }

  /** The mount point spelled by plain names is the target with these names. */
  lemma TargetIsRead(names: seq<string>)
    requires names != [] && forall name :: name in names ==> IsName(name)
    ensures TargetOf(PathOf(names)) == Some(names)
  {
    PathSplits(names);
    NamesStay(names);
    assert ([""] + names)[1..] == names;
    assert PartComponents([""] + names) == PartComponents(names);
    var path := Components(PathOf(names));
    assert path == [RootDir] + PartComponents(names) && path[1..] == PartComponents(names);
    assert NamesOf(path[1..]) == names;
  }

  // ----- finding the partition an entry names ------------------------------------------------------

  datatype Partition = Partition(name: string, uuid: Option<string>, partuuid: Option<string>, fsLabel: Option<string>,
                                 partlabel: Option<string>, fstype: Option<string>)
  datatype Matching = First | Unique
  datatype Key = Key(kind: string, value: string)
  datatype PlannedMount = PlannedMount(device: string, target: seq<string>, fstype: string)
  datatype Ambiguous = Ambiguous(spec: string)

  function Lowercase(text: string): string {
    seq(|text|, i requires 0 <= i < |text| => LowerChar(text[i]))
  }

  function Position(text: string, c: char): (at: nat)
    ensures at <= |text| && (at < |text| ==> text[at] == c)
  {
    if text == "" || text[0] == c then 0 else 1 + Position(text[1..], c)
  }

  function TrimQuotes(text: string): string {
    if text != "" && text[0] == '"' then TrimQuotes(text[1..])
    else if text != "" && text[|text| - 1] == '"' then TrimQuotes(text[..|text| - 1])
    else text
  }

  function StripPrefix(text: string, prefix: string): Option<string> {
    if prefix <= text then Some(text[|prefix|..]) else None
  }

  function DeviceKey(spec: string): Option<Key> {
    var equals := Position(spec, '=');
    if equals < |spec| then Some(Key(Lowercase(spec[..equals]), TrimQuotes(spec[equals + 1..])))
    else
      var path := StripPrefix(spec, "/dev/");
      if path.None? then None
      else
        var link := StripPrefix(path.value, "disk/by-");
        if link.None? then Some(Key("name", path.value))
        else
          var slash := Position(link.value, '/');
          if slash < |link.value| then Some(Key(link.value[..slash], link.value[slash + 1..])) else None
  }

  predicate SameId(id: Option<string>, value: string) {
    id.Some? && EqIgnoreCase(id.value, value)
  }

  predicate Matches(key: Key, p: Partition) {
    if key.kind == "uuid" then SameId(p.uuid, key.value)
    else if key.kind == "partuuid" then SameId(p.partuuid, key.value)
    else if key.kind == "label" then p.fsLabel == Some(key.value)
    else if key.kind == "partlabel" then p.partlabel == Some(key.value)
    else key.kind == "name" && p.name == key.value
  }

  function Filtered(key: Key, disk: seq<Partition>): (found: seq<Partition>)
    ensures forall p :: p in found <==> p in disk && Matches(key, p)
  {
    if disk == [] then []
    else (if Matches(key, disk[0]) then [disk[0]] else []) + Filtered(key, disk[1..])
  }

  /** The partitions of the disk that an entry's device names, in their order. */
  function Named(disk: seq<Partition>, spec: string): seq<Partition> {
    var key := DeviceKey(spec);
    if key.None? then [] else Filtered(key.value, disk)
  }

  function FindPartition(disk: seq<Partition>, spec: string, matching: Matching): Result<Option<Partition>, Ambiguous> {
    var found := Named(disk, spec);
    if matching.Unique? && |found| > 1 then Err(Ambiguous(spec))
    else if found == [] then Ok(None) else Ok(Some(found[0]))
  }

  /** The identifiers under /dev/disk/by-…, and how an entry spells them in front of an equals sign. */
  predicate IsKind(kind: string) {
    kind != "" && forall i :: 0 <= i < |kind| ==> 'a' <= kind[i] <= 'z'
  }

  lemma {:induction false} PositionIs(text: string, c: char, at: nat)
    requires at <= |text| && (at < |text| ==> text[at] == c) && forall i :: 0 <= i < at ==> text[i] != c
    ensures Position(text, c) == at
  {
    if at > 0 {
      PositionIs(text[1..], c, at - 1);
    }
  }

  ghost predicate Unquoted(value: string) {
    value != "" ==> value[0] != '"' && value[|value| - 1] != '"'
  }

  lemma KeyOfEquals(kind: string, spelled: string, value: string, quoted: string)
    requires IsKind(kind) && Lowercase(spelled) == kind && Unquoted(value)
    requires quoted == value || (value != "" && quoted == ['"'] + value + ['"'])
    ensures DeviceKey(spelled + ['='] + quoted) == Some(Key(kind, value))
  {
    var spec := spelled + ['='] + quoted;
    forall i | 0 <= i < |spelled| ensures spelled[i] != '=' {
      assert Lowercase(spelled)[i] == kind[i] && LowerChar('=') == '=';
    }
    PositionIs(spec, '=', |spelled|);
    assert spec[..|spelled|] == spelled && spec[|spelled| + 1..] == quoted;
    assert TrimQuotes(value) == value;
    if quoted != value {
      assert quoted[1..] == value + ['"'];
      var open := value + ['"'];
      assert open[0] == value[0] && open[..|open| - 1] == value;
      assert TrimQuotes(quoted) == TrimQuotes(open) == TrimQuotes(value);
    }
  }

  lemma PathHasNoEquals(path: string)
    requires '=' !in path
    ensures Position("/dev/" + path, '=') == |"/dev/" + path|
    ensures StripPrefix("/dev/" + path, "/dev/") == Some(path)
  {
    var spec := "/dev/" + path;
    forall i | 0 <= i < |spec| ensures spec[i] != '=' {
      assert spec[i] == if i < 5 then "/dev/"[i] else path[i - 5];
    }
    PositionIs(spec, '=', |spec|);
    assert spec[5..] == path;
  }

  lemma LinkHasNoEquals(link: string)
    requires '=' !in link
    ensures '=' !in "disk/by-" + link && StripPrefix("disk/by-" + link, "disk/by-") == Some(link)
  {
    assert ("disk/by-" + link)[8..] == link;
  }

  lemma KeyOfLink(kind: string, value: string)
    requires IsKind(kind) && '=' !in value
    ensures DeviceKey("/dev/" + ("disk/by-" + (kind + ['/'] + value))) == Some(Key(kind, value))
  {
    var link := kind + ['/'] + value;
    assert '=' !in link;
    LinkHasNoEquals(link);
    PathHasNoEquals("disk/by-" + link);
    PositionIs(link, '/', |kind|);
    assert link[..|kind|] == kind && link[|kind| + 1..] == value;
  }

  lemma SmallLetters(spelled: string, kind: string)
    requires IsKind(kind) && EqIgnoreCase(spelled, kind)
    ensures Lowercase(spelled) == kind
  {
    forall i | 0 <= i < |kind| ensures Lowercase(spelled)[i] == kind[i] {
      assert LowerChar(spelled[i]) == LowerChar(kind[i]) == kind[i];
    }
  }

  lemma KindsAreKinds()
    ensures IsKind("uuid") && IsKind("partuuid") && IsKind("label") && IsKind("partlabel")
  {
  }

  /** What the kinds of names mean: the filesystem's and the partition's identifier in any case, their labels,
      and the device's name, each exactly. */
  lemma MatchesMeans(p: Partition, value: string)
    ensures Matches(Key("uuid", value), p) <==> p.uuid.Some? && EqIgnoreCase(p.uuid.value, value)
    ensures Matches(Key("partuuid", value), p) <==> p.partuuid.Some? && EqIgnoreCase(p.partuuid.value, value)
    ensures Matches(Key("label", value), p) <==> p.fsLabel == Some(value)
    ensures Matches(Key("partlabel", value), p) <==> p.partlabel == Some(value)
    ensures Matches(Key("name", value), p) <==> p.name == value
  {
  }

  /** A device can be named by its plain path. */
  lemma DeviceNames(disk: seq<Partition>, name: string)
    requires '=' !in name && !("disk/by-" <= name)
    ensures forall p :: p in Named(disk, "/dev/" + name) <==> p in disk && p.name == name
  {
    var spec := "/dev/" + name;
    PathHasNoEquals(name);
    assert DeviceKey(spec) == Some(Key("name", name));
    forall p: Partition ensures Matches(Key("name", name), p) <==> p.name == name {
      MatchesMeans(p, name);
    }
  }

  /** Naming a device with an equals sign in any case, with quotes, or by its link is the same. */
  lemma SpellingsAgree(disk: seq<Partition>, kind: string, spelled: string, value: string)
    requires IsKind(kind) && EqIgnoreCase(spelled, kind) && Unquoted(value) && value != "" && '=' !in value
    ensures Named(disk, spelled + ['='] + value) == Named(disk, kind + ['='] + value)
         == Named(disk, spelled + ['='] + (['"'] + value + ['"']))
         == Named(disk, "/dev/" + ("disk/by-" + (kind + ['/'] + value)))
  {
    SmallLetters(spelled, kind);
    SmallLetters(kind, kind);
    KeyOfEquals(kind, spelled, value, value);
    KeyOfEquals(kind, kind, value, value);
    KeyOfEquals(kind, spelled, value, ['"'] + value + ['"']);
    KeyOfLink(kind, value);
  }

  // ----- planning one line -------------------------------------------------------------------------

  /** Text as bytes, and bytes as text with the invalid ones replaced. */
  datatype Codec = Codec(bytes: string -> string, text: string -> string)

  function Words(text: string): (words: seq<string>)
    decreases |text|
  {
    var rest := TrimStart(text);
    if rest == "" then []
    else
      TrimStartTrims(text);
      [rest[..WordEnd(rest)]] + Words(rest[WordEnd(rest)..])
  }

  function WordEnd(text: string): (end: nat)
    ensures end <= |text| && forall i :: 0 <= i < end ==> !IsSpace(text[i])
    ensures end < |text| ==> IsSpace(text[end])
  {
    if text == "" || IsSpace(text[0]) then 0 else 1 + WordEnd(text[1..])
  }

  lemma TrimStartTrims(text: string)
    ensures |TrimStart(text)| <= |text| && (TrimStart(text) != "" ==> !IsSpace(TrimStart(text)[0]))
  {
  }

  /** The text is these words, each without spaces, with spaces between them and maybe around them. */
  ghost predicate Spells(text: string, words: seq<string>)
    decreases |words|
  {
    if words == [] then AllSpaces(text)
    else
      exists lead: string, rest: string ::
        && AllSpaces(lead) && text == lead + words[0] + rest && Spells(rest, words[1..])
        && words[0] != "" && (forall c :: c in words[0] ==> !IsSpace(c)) && (rest != "" ==> IsSpace(rest[0]))
  }

  predicate IsWord(word: string) {
    word != "" && forall c :: c in word ==> !IsSpace(c)
  }

  lemma SpellsFirst(text: string, lead: string, word: string, rest: string, more: seq<string>)
    requires AllSpaces(lead) && IsWord(word) && (rest != "" ==> IsSpace(rest[0])) && text == lead + word + rest
    requires Spells(rest, more)
    ensures Spells(text, [word] + more)
  {
    var words := [word] + more;
    assert words[1..] == more;
  }

  lemma {:induction false} WordsSpell(text: string)
    ensures Spells(text, Words(text))
    decreases |text|
  {
    TrimStartMeans(text);
    var shown := TrimStart(text);
    if shown == "" {
      assert text[..|text|] == text;
    } else {
      TrimStartTrims(text);
      var end := WordEnd(shown);
      var lead, word, rest := text[..|text| - |shown|], shown[..end], shown[end..];
      WordsSpell(rest);
      assert text == lead + shown && shown == word + rest;
      SpellsFirst(text, lead, word, rest, Words(rest));
    }
  }

  lemma {:induction false} TrimStartDrops(lead: string, shown: string)
    requires AllSpaces(lead) && (shown != "" ==> !IsSpace(shown[0]))
    ensures TrimStart(lead + shown) == shown
  {
    if lead == "" {
      assert lead + shown == shown;
    } else {
      assert (lead + shown)[1..] == lead[1..] + shown;
      TrimStartDrops(lead[1..], shown);
    }
  }

  lemma {:induction false} WordEnds(word: string, rest: string)
    requires (forall c :: c in word ==> !IsSpace(c)) && (rest != "" ==> IsSpace(rest[0]))
    ensures WordEnd(word + rest) == |word|
  {
    if word != "" {
      assert word[0] in word && (word + rest)[1..] == word[1..] + rest;
      WordEnds(word[1..], rest);
    } else {
      assert word + rest == rest;
    }
  }

  lemma WordsFirst(lead: string, word: string, rest: string)
    requires AllSpaces(lead) && IsWord(word) && (rest != "" ==> IsSpace(rest[0]))
    ensures Words(lead + word + rest) == [word] + Words(rest)
  {
    var shown := word + rest;
    assert word[0] in word && lead + word + rest == lead + shown;
    TrimStartDrops(lead, shown);
    WordEnds(word, rest);
    assert shown[..|word|] == word && shown[|word|..] == rest;
  }

  lemma {:induction false} OnlyTheseWords(text: string, words: seq<string>)
    requires Spells(text, words)
    ensures Words(text) == words
    decreases |words|
  {
    if words == [] {
      assert text + "" == text;
      TrimStartDrops(text, "");
    } else {
      var lead: string, rest: string :| AllSpaces(lead) && text == lead + words[0] + rest && Spells(rest, words[1..])
        && words[0] != "" && (forall c :: c in words[0] ==> !IsSpace(c)) && (rest != "" ==> IsSpace(rest[0]));
      OnlyTheseWords(rest, words[1..]);
      WordsFirst(lead, words[0], rest);
    }
  }

  datatype Fields = Fields(spec: string, mountpoint: string, fstype: string)

  /** The line's first `n` characters come before its comment, if it has one. */
  predicate BeforeComment(line: string, n: nat) {
    n <= |line| && '#' !in line[..n] && (n < |line| ==> line[n] == '#')
  }

  lemma {:induction false} PositionMeans(text: string, c: char)
    ensures c !in text[..Position(text, c)]
  {
    if text != "" && text[0] != c {
      PositionMeans(text[1..], c);
      assert text[..Position(text, c)] == [text[0]] + text[1..][..Position(text[1..], c)];
    }
  }

  lemma CommentIsAt(line: string, n: nat)
    requires BeforeComment(line, n)
    ensures Position(line, '#') == n
  {
    forall i | 0 <= i < n ensures line[i] != '#' {
      assert line[..n][i] == line[i];
    }
    PositionIs(line, '#', n);
  }

  /** The fields of a line are the first three of at least three words before its comment, unescaped. */
  lemma FieldsMean(codec: Codec, line: string, words: seq<string>, n: nat)
    requires BeforeComment(line, n) && Spells(line[..n], words)
    ensures FieldsOf(codec, line)
         == if |words| < 3 then None
            else Some(Fields(codec.text(Unescaped(codec.bytes(words[0]))), codec.text(Unescaped(codec.bytes(words[1]))),
                             codec.text(Unescaped(codec.bytes(words[2])))))
  {
    CommentIsAt(line, n);
    OnlyTheseWords(line[..n], words);
  }

  /** Every line has such words. */
  lemma LineHasWords(line: string) returns (words: seq<string>, n: nat)
    ensures BeforeComment(line, n) && Spells(line[..n], words)
  {
    n := Position(line, '#');
    PositionMeans(line, '#');
    words := Words(line[..n]);
    WordsSpell(line[..n]);
  }

  /** The fields of a line before its comment, or nothing when there are fewer than three. */
  function FieldsOf(codec: Codec, line: string): Option<Fields> {
    var words := Words(line[..Position(line, '#')]);
    if |words| < 3 then None
    else Some(Fields(codec.text(Unescaped(codec.bytes(words[0]))), codec.text(Unescaped(codec.bytes(words[1]))),
                     codec.text(Unescaped(codec.bytes(words[2])))))
  }

  function PlanFields(fields: Fields, disk: seq<Partition>, matching: Matching): Result<Option<PlannedMount>, Ambiguous> {
    if fields.fstype == "swap" then Ok(None)
    else
      var target := TargetOf(fields.mountpoint);
      if target.None? then
        if fields.mountpoint == "/" && FindPartition(disk, fields.spec, matching).Err? then Err(Ambiguous(fields.spec))
        else Ok(None)
      else
        var found := FindPartition(disk, fields.spec, matching);
        if found.Err? then Err(found.error)
        else if found.value.None? then Ok(None)
        else
          var p := found.value.value;
          if p.fstype.None? && fields.fstype == "auto" then Ok(None)
          else Ok(Some(PlannedMount("/dev/" + p.name, target.value,
                                    if p.fstype.Some? then p.fstype.value else fields.fstype)))
  }

  function PlanLine(codec: Codec, line: string, disk: seq<Partition>, matching: Matching)
    : Result<Option<PlannedMount>, Ambiguous>
  {
    var fields := FieldsOf(codec, line);
    if fields.None? then Ok(None) else PlanFields(fields.value, disk, matching)
  }

  /** The line names a device that matches several partitions, for the root or a mount point below it. */
  predicate IsAmbiguous(codec: Codec, line: string, disk: seq<Partition>) {
    var fields := FieldsOf(codec, line);
    && fields.Some? && fields.value.fstype != "swap"
    && (fields.value.mountpoint == "/" || TargetOf(fields.value.mountpoint).Some?)
    && |Named(disk, fields.value.spec)| > 1
  }

  lemma PlanLineMeans(codec: Codec, line: string, disk: seq<Partition>)
    ensures PlanLine(codec, line, disk, First).Ok?
    ensures PlanLine(codec, line, disk, Unique).Err? <==> IsAmbiguous(codec, line, disk)
    ensures PlanLine(codec, line, disk, Unique).Ok? ==> PlanLine(codec, line, disk, Unique) == PlanLine(codec, line, disk, First)
  {
  }

  lemma {:induction false} FirstOfFiltered(key: Key, disk: seq<Partition>)
    requires Filtered(key, disk) != []
    ensures exists i :: 0 <= i < |disk| && disk[i] == Filtered(key, disk)[0] && Matches(key, disk[i])
              && forall j :: 0 <= j < i ==> !Matches(key, disk[j])
  {
    if !Matches(key, disk[0]) {
      FirstOfFiltered(key, disk[1..]);
      var i :| 0 <= i < |disk[1..]| && disk[1..][i] == Filtered(key, disk[1..])[0] && Matches(key, disk[1..][i])
        && forall j :: 0 <= j < i ==> !Matches(key, disk[1..][j]);
      assert disk[i + 1] == disk[1..][i];
      assert forall j :: 0 < j < i + 1 ==> disk[j] == disk[1..][j - 1];
    }
  }

  /** Partition number `i` of the disk is the first one the entry names. */
  ghost predicate FirstNamed(fields: Fields, disk: seq<Partition>, i: nat) {
    && i < |disk| && DeviceKey(fields.spec).Some?
    && Matches(DeviceKey(fields.spec).value, disk[i])
    && forall j :: 0 <= j < i ==> !Matches(DeviceKey(fields.spec).value, disk[j])
  }

  /** The entry, which is not for swapping, has a mount point below the root and names that partition of
      the disk first. The mount has the partition's detected type, or else the entry's own, unless that is
      auto. */
  ghost predicate EntryMounts(fields: Fields, disk: seq<Partition>, m: PlannedMount) {
    fields.fstype != "swap" && Some(m.target) == TargetOf(fields.mountpoint)
    && exists i: nat :: FirstNamed(fields, disk, i)
         && m.device == "/dev/" + disk[i].name
         && if disk[i].fstype.Some? then m.fstype == disk[i].fstype.value
            else m.fstype == fields.fstype && m.fstype != "auto"
  }

  ghost predicate LineMounts(codec: Codec, line: string, disk: seq<Partition>, m: PlannedMount) {
    var fields := FieldsOf(codec, line);
    fields.Some? && EntryMounts(fields.value, disk, m)
  }

  lemma NamedFirst(fields: Fields, disk: seq<Partition>)
    ensures Named(disk, fields.spec) == [] ==> forall i: nat :: !FirstNamed(fields, disk, i)
    ensures Named(disk, fields.spec) != [] ==>
            exists i: nat :: FirstNamed(fields, disk, i) && disk[i] == Named(disk, fields.spec)[0]
  {
    var found := Named(disk, fields.spec);
    forall i: nat | FirstNamed(fields, disk, i) ensures found != [] {
      assert disk[i] in disk;
    }
    if found != [] {
      var key := DeviceKey(fields.spec).value;
      FirstOfFiltered(key, disk);
      var i :| 0 <= i < |disk| && disk[i] == found[0] && Matches(key, disk[i]) && forall j :: 0 <= j < i ==> !Matches(key, disk[j]);
      assert FirstNamed(fields, disk, i);
    }
  }

  lemma OnlyOneIsFirst(fields: Fields, disk: seq<Partition>, i: nat, j: nat)
    requires FirstNamed(fields, disk, i) && FirstNamed(fields, disk, j)
    ensures i == j
  {
  }

  lemma EntryIsPlanned(fields: Fields, disk: seq<Partition>, matching: Matching, m: PlannedMount)
    requires PlanFields(fields, disk, matching).Ok?
    ensures PlanFields(fields, disk, matching).value == Some(m) <==> EntryMounts(fields, disk, m)
  {
    NamedFirst(fields, disk);
    if Named(disk, fields.spec) != [] {
      var i: nat :| FirstNamed(fields, disk, i) && disk[i] == Named(disk, fields.spec)[0];
      if EntryMounts(fields, disk, m) {
        var j: nat :| FirstNamed(fields, disk, j) && m.device == "/dev/" + disk[j].name
          && if disk[j].fstype.Some? then m.fstype == disk[j].fstype.value else m.fstype == fields.fstype && m.fstype != "auto";
        OnlyOneIsFirst(fields, disk, i, j);
      }
    }
  }

  /** A mount is planned for a line exactly when it is the one the line asks for. */
  lemma PlannedIsNamed(codec: Codec, line: string, disk: seq<Partition>, matching: Matching, m: PlannedMount)
    requires PlanLine(codec, line, disk, matching).Ok?
    ensures PlanLine(codec, line, disk, matching).value == Some(m) <==> LineMounts(codec, line, disk, m)
  {
    var fields := FieldsOf(codec, line);
    if fields.Some? {
      EntryIsPlanned(fields.value, disk, matching, m);
    }
  }

  // ----- planning the file -------------------------------------------------------------------------

  type Planning = Result<Option<PlannedMount>, Ambiguous>

  /** The mounts planned, in their order, or the first error. */
  function Collected(planned: seq<Planning>): Result<seq<PlannedMount>, Ambiguous> {
    if planned == [] then Ok([])
    else
      var before, last := Collected(planned[..|planned| - 1]), planned[|planned| - 1];
      if before.Err? then before
      else if last.Err? then Err(last.error)
      else Ok(before.value + if last.value.Some? then [last.value.value] else [])
  }

  function Planned(codec: Codec, lines: seq<string>, disk: seq<Partition>, matching: Matching): seq<Planning> {
    seq(|lines|, i requires 0 <= i < |lines| => PlanLine(codec, lines[i], disk, matching))
  }

  function PlanLines(codec: Codec, lines: seq<string>, disk: seq<Partition>, matching: Matching)
    : Result<seq<PlannedMount>, Ambiguous>
  {
    Collected(Planned(codec, lines, disk, matching))
  }

  /** Sorting by depth, stable: a mount goes behind the ones that are at most as deep. */
  function Insert(sorted: seq<PlannedMount>, mount: PlannedMount): (longer: seq<PlannedMount>)
    ensures |longer| == |sorted| + 1
  {
    if sorted == [] || |sorted[|sorted| - 1].target| <= |mount.target| then sorted + [mount]
    else Insert(sorted[..|sorted| - 1], mount) + [sorted[|sorted| - 1]]
  }

  function SortByDepth(mounts: seq<PlannedMount>): seq<PlannedMount> {
    if mounts == [] then []
    else Insert(SortByDepth(mounts[..|mounts| - 1]), mounts[|mounts| - 1])
  }

  predicate DepthSorted(mounts: seq<PlannedMount>) {
    forall i, j :: 0 <= i < j < |mounts| ==> |mounts[i].target| <= |mounts[j].target|
  }

  function AtDepth(mounts: seq<PlannedMount>, depth: nat): seq<PlannedMount> {
    if mounts == [] then []
    else
      var last := mounts[|mounts| - 1];
      AtDepth(mounts[..|mounts| - 1], depth) + if |last.target| == depth then [last] else []
  }

  function Plan(codec: Codec, fstab: string, disk: seq<Partition>, matching: Matching)
    : Result<seq<PlannedMount>, Ambiguous>
  {
    var mounts := PlanLines(codec, Lines(fstab), disk, matching);
    if mounts.Err? then mounts else Ok(SortByDepth(mounts.value))
  }

  function WithoutReturn(line: string): string {
    if line != "" && line[|line| - 1] == '\r' then line[..|line| - 1] else line
  }

  /** The lines of a text; what follows the last line break counts only if there is something. */
  function Lines(text: string): seq<string> {
    var parts := Split(text, '\n');
    var last := parts[|parts| - 1];
    seq(|parts| - 1, i requires 0 <= i < |parts| - 1 => WithoutReturn(parts[i])) + if last == "" then [] else [last]
  }

  /** Lines that end with a line break, some with a carriage return before it. */
  function Terminated(lines: seq<string>, crs: seq<bool>): string
    requires |crs| == |lines|
  {
    if lines == [] then ""
    else lines[0] + (if crs[0] then "\r\n" else "\n") + Terminated(lines[1..], crs[1..])
  }

  predicate IsLine(line: string) {
    '\n' !in line && (line != "" ==> line[|line| - 1] != '\r')
  }

  lemma SplitFirst(shown: string, rest: string)
    requires '\n' !in shown
    ensures Lines(shown + ['\n'] + rest) == [WithoutReturn(shown)] + Lines(rest)
  {
    SplitsOnce(shown, '\n', rest);
    var parts, more := Split(shown + ['\n'] + rest, '\n'), Split(rest, '\n');
    assert parts == [shown] + more && parts[|parts| - 1] == more[|more| - 1];
  }

  lemma LineThen(line: string, carried: bool, rest: string)
    requires IsLine(line)
    ensures Lines(line + (if carried then "\r\n" else "\n") + rest) == [line] + Lines(rest)
  {
    var shown := if carried then line + "\r" else line;
    assert line + (if carried then "\r\n" else "\n") + rest == shown + ['\n'] + rest;
    SplitFirst(shown, rest);
    assert carried ==> shown[..|shown| - 1] == line;
  }

  /** The lines of a text are those it was put together from, with or without carriage crs; a last one
      without a line break counts if it is not empty, with whatever it ends with. */
  lemma {:induction false} LinesAreRead(lines: seq<string>, crs: seq<bool>, last: string)
    requires |crs| == |lines| && (forall line :: line in lines ==> IsLine(line)) && '\n' !in last
    ensures Lines(Terminated(lines, crs) + last) == lines + if last == "" then [] else [last]
    decreases |lines|
  {
    if lines == [] {
      SplitsNowhere(last, '\n');
      assert Terminated(lines, crs) + last == last;
    } else {
      var end, rest := if crs[0] then "\r\n" else "\n", Terminated(lines[1..], crs[1..]);
      assert lines[0] in lines;
      LinesAreRead(lines[1..], crs[1..], last);
      assert Terminated(lines, crs) + last == lines[0] + end + (rest + last);
      LineThen(lines[0], crs[0], rest + last);
    }
  }

  method PlanMounts(codec: Codec, fstab: string, disk: seq<Partition>, matching: Matching)
    returns (plan: Result<seq<PlannedMount>, Ambiguous>)
    ensures plan == Plan(codec, fstab, disk, matching)
  {
    var lines := Lines(fstab);
    ghost var all := Planned(codec, lines, disk, matching);
    var mounts: seq<PlannedMount>, n := [], 0;
    while n < |lines|
      invariant 0 <= n <= |lines| && Collected(all[..n]) == Ok(mounts)
    {
      var planned := PlanLine(codec, lines[n], disk, matching);
      OnePlanMore(all, n, mounts, planned);
      if planned.Err? {
        return Err(planned.error);
      }
      if planned.value.Some? {
        mounts := mounts + [planned.value.value];
      }
      n := n + 1;
    }
    assert all[..n] == all;
    plan := Ok(SortByDepth(mounts));
  }

  lemma OnePlanMore(all: seq<Planning>, n: nat, mounts: seq<PlannedMount>, planned: Planning)
    requires n < |all| && all[n] == planned && Collected(all[..n]) == Ok(mounts)
    ensures planned.Err? ==> Collected(all) == Err(planned.error)
    ensures (planned.Ok? ==>
              Collected(all[..n + 1]) == Ok(if planned.value.Some? then mounts + [planned.value.value] else mounts))
  {
    assert all[..n + 1][..n] == all[..n] && mounts + [] == mounts;
    if planned.Err? {
      FirstErrorStays(all, n + 1);
    }
  }

  lemma {:induction false} FirstErrorStays(all: seq<Planning>, n: nat)
    requires n <= |all| && Collected(all[..n]).Err?
    ensures Collected(all) == Collected(all[..n])
  {
    if n < |all| {
      var before := all[..|all| - 1];
      assert before[..n] == all[..n];
      FirstErrorStays(before, n);
    } else {
      assert all[..n] == all;
    }
  }

  // ----- what a plan is ----------------------------------------------------------------------------

  lemma {:induction false} PlansAgree(first: seq<Planning>, unique: seq<Planning>)
    requires |first| == |unique|
    requires forall i :: 0 <= i < |first| ==> first[i].Ok? && (unique[i].Ok? ==> unique[i] == first[i])
    ensures Collected(first).Ok? && (Collected(unique).Ok? ==> Collected(unique) == Collected(first))
    ensures Collected(unique).Err? <==> exists i :: 0 <= i < |unique| && unique[i].Err?
  {
    if first != [] {
      var before := unique[..|unique| - 1];
      PlansAgree(first[..|first| - 1], before);
      assert forall i :: 0 <= i < |before| ==> before[i] == unique[i];
    }
  }

  /** The mounts are those of the lines that ask for one, each once and in their order: `at` are the
      numbers of these lines. */
  ghost predicate MountsOfLines(codec: Codec, lines: seq<string>, disk: seq<Partition>, at: seq<nat>,
                                mounts: seq<PlannedMount>) {
    && |at| == |mounts|
    && (forall j :: 0 <= j < |at| ==> at[j] < |lines| && LineMounts(codec, lines[at[j]], disk, mounts[j]))
    && (forall j, k :: 0 <= j < k < |at| ==> at[j] < at[k])
    && forall i: nat, m :: i < |lines| && LineMounts(codec, lines[i], disk, m) ==> i in at
  }

  /** The same for any plannings, none of which failed. */
  ghost predicate Gathers(planned: seq<Planning>, at: seq<nat>, mounts: seq<PlannedMount>) {
    && |at| == |mounts|
    && (forall j :: 0 <= j < |at| ==> at[j] < |planned| && planned[at[j]] == Ok(Some(mounts[j])))
    && (forall j, k :: 0 <= j < k < |at| ==> at[j] < at[k])
    && forall i: nat :: i < |planned| ==> planned[i].Ok? && (planned[i].value.Some? ==> i in at)
  }

  lemma GathersMore(before: seq<Planning>, m: PlannedMount, at: seq<nat>, mounts: seq<PlannedMount>)
    requires Gathers(before, at, mounts)
    ensures Gathers(before + [Ok(Some(m))], at + [|before| as nat], mounts + [m])
  {
    var more: seq<nat> := at + [|before|];
    assert more[|at|] == |before|;
    assert forall i: nat :: i in at ==> i in more;
  }

  lemma GathersNothing(before: seq<Planning>, at: seq<nat>, mounts: seq<PlannedMount>)
    requires Gathers(before, at, mounts)
    ensures Gathers(before + [Ok(None)], at, mounts)
  {
  }

  lemma {:induction false} CollectedGathers(planned: seq<Planning>) returns (at: seq<nat>)
    requires Collected(planned).Ok?
    ensures Gathers(planned, at, Collected(planned).value)
  {
    if planned == [] {
      at := [];
    } else {
      var before, last := planned[..|planned| - 1], planned[|planned| - 1];
      at := CollectedGathers(before);
      assert planned == before + [last];
      var mounts := Collected(before).value;
      if last.value.Some? {
        GathersMore(before, last.value.value, at, mounts);
        at := at + [|before| as nat];
      } else {
        GathersNothing(before, at, mounts);
        assert mounts + [] == mounts;
      }
    }
  }

  lemma GatheredAreOfLines(codec: Codec, lines: seq<string>, disk: seq<Partition>, matching: Matching, at: seq<nat>,
                           mounts: seq<PlannedMount>)
    requires Gathers(Planned(codec, lines, disk, matching), at, mounts)
    ensures MountsOfLines(codec, lines, disk, at, mounts)
  {
    var planned := Planned(codec, lines, disk, matching);
    forall j | 0 <= j < |at| ensures at[j] < |lines| && LineMounts(codec, lines[at[j]], disk, mounts[j]) {
      assert planned[at[j]] == PlanLine(codec, lines[at[j]], disk, matching);
      PlannedIsNamed(codec, lines[at[j]], disk, matching, mounts[j]);
    }
    forall i: nat, m | i < |lines| && LineMounts(codec, lines[i], disk, m) ensures i in at {
      assert planned[i] == PlanLine(codec, lines[i], disk, matching);
      PlannedIsNamed(codec, lines[i], disk, matching, m);
    }
  }

  /** A plan has, depth by depth and in the file's order, the mounts of exactly the lines that ask for one. */
  lemma PlanIsComplete(codec: Codec, fstab: string, disk: seq<Partition>, matching: Matching)
    returns (at: seq<nat>, mounts: seq<PlannedMount>)
    requires Plan(codec, fstab, disk, matching).Ok?
    ensures MountsOfLines(codec, Lines(fstab), disk, at, mounts)
    ensures forall depth: nat :: AtDepth(Plan(codec, fstab, disk, matching).value, depth) == AtDepth(mounts, depth)
    ensures DepthSorted(Plan(codec, fstab, disk, matching).value)
  {
    at := CollectedGathers(Planned(codec, Lines(fstab), disk, matching));
    mounts := PlanLines(codec, Lines(fstab), disk, matching).value;
    GatheredAreOfLines(codec, Lines(fstab), disk, matching, at, mounts);
    forall depth: nat ensures AtDepth(Plan(codec, fstab, disk, matching).value, depth) == AtDepth(mounts, depth) {
      SortIsStable(mounts, depth);
    }
    SortIsStable(mounts, 0);
  }

  /** Taking the first match never fails; asking for a unique one fails exactly for an ambiguous line, and
      otherwise gives the same plan. */
  lemma UniqueOnlyRefuses(codec: Codec, fstab: string, disk: seq<Partition>)
    ensures Plan(codec, fstab, disk, First).Ok?
    ensures Plan(codec, fstab, disk, Unique).Err? <==>
            exists i :: 0 <= i < |Lines(fstab)| && IsAmbiguous(codec, Lines(fstab)[i], disk)
    ensures Plan(codec, fstab, disk, Unique).Ok? ==>
              Plan(codec, fstab, disk, Unique) == Plan(codec, fstab, disk, First)
  {
    var lines := Lines(fstab);
    var first, unique := Planned(codec, lines, disk, First), Planned(codec, lines, disk, Unique);
    forall i | 0 <= i < |lines|
      ensures first[i].Ok? && (unique[i].Ok? ==> unique[i] == first[i])
      ensures unique[i].Err? <==> IsAmbiguous(codec, lines[i], disk)
    {
      PlanLineMeans(codec, lines[i], disk);
    }
    PlansAgree(first, unique);
  }

  lemma {:induction false} InsertSorts(sorted: seq<PlannedMount>, mount: PlannedMount)
    requires DepthSorted(sorted)
    ensures DepthSorted(Insert(sorted, mount))
    ensures forall m :: m in Insert(sorted, mount) <==> m in sorted || m == mount
  {
    if sorted != [] && |sorted[|sorted| - 1].target| > |mount.target| {
      var before, last := sorted[..|sorted| - 1], sorted[|sorted| - 1];
      InsertSorts(before, mount);
      assert sorted == before + [last];
      forall m | m in Insert(before, mount) ensures |m.target| <= |last.target| {
        assert m in before ==> exists i :: 0 <= i < |before| && sorted[i] == m;
      }
      var longer := Insert(before, mount);
      assert forall i :: 0 <= i < |longer| ==> longer[i] in longer;
    }
  }

  lemma {:induction false} InsertKeepsDepths(sorted: seq<PlannedMount>, mount: PlannedMount, depth: nat)
    requires DepthSorted(sorted)
    ensures AtDepth(Insert(sorted, mount), depth)
         == AtDepth(sorted, depth) + if |mount.target| == depth then [mount] else []
  {
    if sorted == [] || |sorted[|sorted| - 1].target| <= |mount.target| {
      assert (sorted + [mount])[..|sorted|] == sorted;
    } else {
      var before, last := sorted[..|sorted| - 1], sorted[|sorted| - 1];
      InsertKeepsDepths(before, mount, depth);
      var longer := Insert(before, mount);
      assert (longer + [last])[..|longer|] == longer;
      if |mount.target| == depth {
        assert |last.target| != depth;
      }
    }
  }

  /** Sorting orders by depth and keeps, at every depth, the mounts of that depth in their order. */
  lemma {:induction false} SortIsStable(mounts: seq<PlannedMount>, depth: nat)
    ensures DepthSorted(SortByDepth(mounts)) && AtDepth(SortByDepth(mounts), depth) == AtDepth(mounts, depth)
    ensures forall m :: m in SortByDepth(mounts) <==> m in mounts
  {
    if mounts != [] {
      var before, last := mounts[..|mounts| - 1], mounts[|mounts| - 1];
      SortIsStable(before, depth);
      InsertSorts(SortByDepth(before), last);
      InsertKeepsDepths(SortByDepth(before), last, depth);
      assert mounts == before + [last];
    }
  }

  ghost predicate Below(ancestor: seq<string>, target: seq<string>) {
    |ancestor| < |target| && ancestor == target[..|ancestor|]
  }

  ghost predicate SafeTarget(target: seq<string>) {
    target != [] && forall i :: 0 <= i < |target| ==> IsName(target[i])
  }

  lemma LineTargetIsSafe(codec: Codec, line: string, disk: seq<Partition>, matching: Matching)
    ensures PlanLine(codec, line, disk, matching).Ok? && PlanLine(codec, line, disk, matching).value.Some? ==>
              SafeTarget(PlanLine(codec, line, disk, matching).value.value.target)
  {
    if FieldsOf(codec, line).Some? {
      TargetsStayInside(FieldsOf(codec, line).value.mountpoint);
    }
  }

  lemma {:induction false} CollectedAreSafe(planned: seq<Planning>)
    requires forall i :: 0 <= i < |planned| && planned[i].Ok? && planned[i].value.Some? ==>
               SafeTarget(planned[i].value.value.target)
    ensures Collected(planned).Ok? ==> forall m :: m in Collected(planned).value ==> SafeTarget(m.target)
  {
    if planned != [] {
      CollectedAreSafe(planned[..|planned| - 1]);
    }
  }

  lemma PlannedTargetsAreSafe(codec: Codec, lines: seq<string>, disk: seq<Partition>, matching: Matching)
    ensures PlanLines(codec, lines, disk, matching).Ok? ==>
              forall m :: m in PlanLines(codec, lines, disk, matching).value ==> SafeTarget(m.target)
  {
    forall i | 0 <= i < |lines|
      ensures PlanLine(codec, lines[i], disk, matching).Ok? && PlanLine(codec, lines[i], disk, matching).value.Some? ==>
                SafeTarget(PlanLine(codec, lines[i], disk, matching).value.value.target)
    {
      LineTargetIsSafe(codec, lines[i], disk, matching);
    }
    CollectedAreSafe(Planned(codec, lines, disk, matching));
  }

  ghost predicate AncestorsFirst(plan: seq<PlannedMount>) {
    forall i, j :: 0 <= i < |plan| && 0 <= j < |plan| && Below(plan[i].target, plan[j].target) ==> i < j
  }

  lemma SortedPutsAncestorsFirst(plan: seq<PlannedMount>)
    requires DepthSorted(plan)
    ensures AncestorsFirst(plan)
  {
  }

  /** In every plan a mount point comes after all it lies below, mounts of equal depth keep the file's
      order, and every target is a non-empty list of plain names. */
  lemma PlanIsOrdered(codec: Codec, fstab: string, disk: seq<Partition>, matching: Matching, depth: nat)
    requires Plan(codec, fstab, disk, matching).Ok?
    ensures var plan := Plan(codec, fstab, disk, matching).value;
      && AncestorsFirst(plan)
      && AtDepth(plan, depth) == AtDepth(PlanLines(codec, Lines(fstab), disk, matching).value, depth)
      && forall m :: m in plan ==> SafeTarget(m.target)
  {
    var mounts := PlanLines(codec, Lines(fstab), disk, matching).value;
    SortIsStable(mounts, depth);
    PlannedTargetsAreSafe(codec, Lines(fstab), disk, matching);
    SortedPutsAncestorsFirst(SortByDepth(mounts));
  }

  // ----- the mounts below a directory --------------------------------------------------------------

  predicate StartsWith(path: string, root: string) {
    Components(root) <= Components(path)
  }

  lemma PathComponents(names: seq<string>)
    requires names != [] && forall name :: name in names ==> IsName(name)
    ensures |Components(PathOf(names))| == |names| + 1 && Components(PathOf(names))[0] == RootDir
    ensures forall i :: 0 <= i < |names| ==> Components(PathOf(names))[i + 1] == Normal(names[i])
  {
    PathSplits(names);
    NamesStay(names);
    assert ([""] + names)[1..] == names;
    assert PartComponents([""] + names) == PartComponents(names);
    assert Components(PathOf(names)) == [RootDir] + PartComponents(names);
  }

  /** A path lies at or below a directory exactly if the directory's names start its own. */
  lemma LiesBelow(names: seq<string>, root: seq<string>)
    requires names != [] && root != []
    requires (forall name :: name in names ==> IsName(name)) && forall name :: name in root ==> IsName(name)
    ensures StartsWith(PathOf(names), PathOf(root)) <==> root <= names
  {
    PathComponents(names);
    PathComponents(root);
    var path, directory := Components(PathOf(names)), Components(PathOf(root));
    if directory <= path {
      forall i | 0 <= i < |root| ensures root[i] == names[i] {
        assert directory[i + 1] == path[i + 1];
      }
    }
    if root <= names {
      forall i | 0 <= i < |directory| ensures directory[i] == path[i] {
        assert i > 0 ==> root[i - 1] == names[i - 1];
      }
    }
  }

  /** The mount point of a mountinfo line, its fifth field. */
  function PointOf(line: string): Option<string> {
    var fields := Split(line, ' ');
    if |fields| > 4 then Some(Unescaped(fields[4])) else None
  }

  function PointsUnder(lines: seq<string>, root: string): seq<string> {
    if lines == [] then []
    else
      var point := PointOf(lines[0]);
      PointsUnder(lines[1..], root) + if point.Some? && StartsWith(point.value, root) then [point.value] else []
  }

  /** The mounts at and below a directory, the newest line first. */
  function MountsUnder(mountinfo: string, root: string): seq<string> {
    PointsUnder(Split(mountinfo, '\n'), root)
  }

  /** A mount as the kernel lists it: four fields, its escaped mount point, and the rest of the line. */
  datatype MountLine = MountLine(fields: seq<string>, point: string, chosen: seq<bool>, rest: string)

  ghost predicate SoundLine(m: MountLine) {
    && |m.fields| == 4 && (forall i :: 0 <= i < 4 ==> ' ' !in m.fields[i] && '\n' !in m.fields[i])
    && '\n' !in m.rest && Escaping(m.point, m.chosen)
    && forall i :: 0 <= i < |m.point| && m.point[i] in " \n" ==> m.chosen[i]
  }

  function LineOf(m: MountLine): string
    requires |m.fields| == 4 && |m.chosen| == |m.point| && forall i :: 0 <= i < |m.point| ==> IsByte(m.point[i])
  {
    m.fields[0] + [' '] + (m.fields[1] + [' '] + (m.fields[2] + [' '] + (m.fields[3] + [' ']
    + (Escaped(m.point, m.chosen) + [' '] + m.rest))))
  }

  lemma {:induction false} EscapedHasNo(bytes: string, chosen: seq<bool>, c: char)
    requires Escaping(bytes, chosen) && c != '\\' && !IsDigit(c)
    requires forall i :: 0 <= i < |bytes| && bytes[i] == c ==> chosen[i]
    ensures c !in Escaped(bytes, chosen)
  {
    if bytes != "" {
      EscapedHasNo(bytes[1..], chosen[1..], c);
      assert forall i :: 0 <= i < 4 && c as int < 256 ==> Octal(bytes[0])[i] != c;
    }
  }

  lemma LineFields(m: MountLine)
    requires SoundLine(m)
    ensures Split(LineOf(m), ' ')
         == [m.fields[0]] + ([m.fields[1]] + ([m.fields[2]] + ([m.fields[3]]
            + ([Escaped(m.point, m.chosen)] + Split(m.rest, ' ')))))
  {
    var escaped := Escaped(m.point, m.chosen);
    EscapedHasNo(m.point, m.chosen, ' ');
    var tail := escaped + [' '] + m.rest;
    var three := m.fields[3] + [' '] + tail;
    var two := m.fields[2] + [' '] + three;
    SplitsOnce(escaped, ' ', m.rest);
    SplitsOnce(m.fields[3], ' ', tail);
    SplitsOnce(m.fields[2], ' ', three);
    SplitsOnce(m.fields[1], ' ', two);
    SplitsOnce(m.fields[0], ' ', m.fields[1] + [' '] + two);
  }

  lemma FifthOf(a: string, b: string, c: string, d: string, e: string, rest: seq<string>)
    ensures var fields := [a] + ([b] + ([c] + ([d] + ([e] + rest))));
      |fields| > 4 && fields[4] == e
  {
  }

  lemma LineReads(m: MountLine)
    requires SoundLine(m)
    ensures PointOf(LineOf(m)) == Some(m.point) && '\n' !in LineOf(m)
  {
    LineFields(m);
    FifthOf(m.fields[0], m.fields[1], m.fields[2], m.fields[3], Escaped(m.point, m.chosen), Split(m.rest, ' '));
    UnescapeInvertsEscape(m.point, m.chosen);
    EscapedHasNo(m.point, m.chosen, '\n');
  }

  ghost predicate AllSound(mounts: seq<MountLine>) {
    mounts == [] || (SoundLine(mounts[0]) && AllSound(mounts[1..]))
  }

  ghost function Mountinfo(mounts: seq<MountLine>): string
    requires AllSound(mounts)
  {
    if mounts == [] then "" else LineOf(mounts[0]) + ['\n'] + Mountinfo(mounts[1..])
  }

  /** The points of the mounts at and below the directory, the newest mount first. */
  function NewestFirst(mounts: seq<MountLine>, root: string): seq<string> {
    if mounts == [] then []
    else NewestFirst(mounts[1..], root) + if StartsWith(mounts[0].point, root) then [mounts[0].point] else []
  }

  /** Whatever the kernel escapes, the mounts found are those at and below the directory, newest first. */
  lemma {:induction false} MountsAreFound(mounts: seq<MountLine>, root: string)
    requires AllSound(mounts)
    ensures MountsUnder(Mountinfo(mounts), root) == NewestFirst(mounts, root)
  {
    if mounts == [] {
      var lines := Split("", '\n');
      assert lines == [""] && lines[1..] == [] && Split("", ' ') == [""];
      assert PointOf(lines[0]).None? && PointsUnder(lines, root) == PointsUnder(lines[1..], root) + [];
    } else {
      var line, more := LineOf(mounts[0]), Mountinfo(mounts[1..]);
      MountsAreFound(mounts[1..], root);
      LineReads(mounts[0]);
      SplitsOnce(line, '\n', more);
      var lines := [line] + Split(more, '\n');
      assert lines[0] == line && lines[1..] == Split(more, '\n');
    }
  }

}

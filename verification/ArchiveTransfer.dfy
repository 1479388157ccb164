/**
 Receiving an archive's entries, unpacking them, and writing an archive that is received unchanged.
 A JSON codec and a hash are parameters; a tar is its sequence of entries.
 */
module ArchiveTransfer {
  import opened Options
  import opened Bytes
  import opened Text
  import opened Paths
  import opened Inputs
  import opened Archive

  /** An entry of the tar, or the point where the tar cannot be read on. */
  datatype Entry = Entry(path: string, isFile: bool, body: seq<Byte>) | Broken

  type Utf8 = seq<Byte> -> bool

  // ----- receiving ---------------------------------------------------------------------------------

  function EntryName(entry: Entry): Option<string> {
    if entry.Broken? || !entry.isFile then None
    else
      var path := Components(entry.path);
      if |path| == 1 && path[0].Normal? then Some(path[0].name)
      else if |path| == 2 && path[0] == Normal(SCRIPTS_DIR) && path[1].Normal? then
        Some(SCRIPTS_DIR + "/" + path[1].name)
      else None
  }

  datatype Item = Item(name: string, body: seq<Byte>)

  function ItemOf(entry: Entry): Option<Item> {
    var name := EntryName(entry);
    if name.Some? then Some(Item(name.value, entry.body)) else None
  }

  function Read(entries: seq<Entry>): seq<Option<Item>> {
    seq(|entries|, i requires 0 <= i < |entries| => ItemOf(entries[i]))
  }

  /** The items, when every entry is one. */
  function ItemsOf(read: seq<Option<Item>>): (items: Option<seq<Item>>)
    ensures items.Some? ==> |items.value| == |read|
  {
    if read == [] then Some([])
    else
      var before, last := ItemsOf(read[..|read| - 1]), read[|read| - 1];
      if before.None? || last.None? then None else Some(before.value + [last.value])
  }

  predicate ItemFits(hash: Hash, utf8: Utf8, checksums: map<string, string>, item: Item) {
    && item.name in checksums
    && (item.name == PARTITION_TABLE_FILE ==> |item.body| <= MAX_PARTITION_TABLE_BYTES)
    && (IsScriptFile(item.name) ==> |item.body| <= MAX_SCRIPT_BYTES && utf8(item.body))
    && EqIgnoreCase(hash(item.body), checksums[item.name])
  }

  function NamesOf(items: seq<Item>): set<string> {
    if items == [] then {} else NamesOf(items[..|items| - 1]) + {items[|items| - 1].name}
  }

  predicate ItemsFit(hash: Hash, utf8: Utf8, checksums: map<string, string>, items: seq<Item>) {
    && (forall i :: 0 <= i < |items| ==> ItemFits(hash, utf8, checksums, items[i]))
    && (forall i, j :: 0 <= i < j < |items| ==> items[i].name != items[j].name)
  }

  /** Nothing is accepted under a foreign name, or whose hash is not the expected one, or that is too large. */
  lemma FittingItemsAreUnchanged(hash: Hash, utf8: Utf8, checksums: map<string, string>, items: seq<Item>)
    ensures ItemsFit(hash, utf8, checksums, items) <==>
            && (forall i :: 0 <= i < |items| ==>
                  && items[i].name in checksums.Keys && EqIgnoreCase(hash(items[i].body), checksums[items[i].name])
                  && (items[i].name == "parttable.bin" ==> |items[i].body| <= 1024 * 1024)
                  && ("scripts/" <= items[i].name ==> |items[i].body| <= 1024 * 1024 && utf8(items[i].body)))
            && (forall i, j :: 0 <= i < j < |items| ==> items[i].name != items[j].name)
  {
    forall i | 0 <= i < |items| ensures IsScriptFile(items[i].name) <==> "scripts/" <= items[i].name {
      ScriptPrefix(items[i].name);
    }
  }

  lemma ScriptPrefix(name: string)
    ensures IsScriptFile(name) <==> "scripts/" <= name
  {
    assert "scripts/" == SCRIPTS_DIR + "/";
    if IsScriptFile(name) {
      assert name[..8] == SCRIPTS_DIR + "/";
    }
  }

  /** The entries are the files of the checksums, each once, in any order, whole and unchanged. */
  predicate Accepts(hash: Hash, utf8: Utf8, checksums: map<string, string>, entries: seq<Entry>) {
    var items := ItemsOf(Read(entries));
    items.Some? && ItemsFit(hash, utf8, checksums, items.value) && NamesOf(items.value) == checksums.Keys
  }

  lemma {:induction false} InNames(items: seq<Item>, name: string)
    ensures name in NamesOf(items) <==> exists i :: 0 <= i < |items| && items[i].name == name
  {
    if items != [] {
      InNames(items[..|items| - 1], name);
    }
  }

  /** The bodies of the items that are scripts, or of those that are not. */
  function BodiesOf(items: seq<Item>, scripts: bool): map<string, seq<Byte>> {
    if items == [] then map[]
    else
      var before, last := BodiesOf(items[..|items| - 1], scripts), items[|items| - 1];
      if IsScriptFile(last.name) == scripts then before[last.name := last.body] else before
  }

  lemma {:induction false} BodyIsKept(items: seq<Item>, scripts: bool, i: nat)
    requires i < |items| && IsScriptFile(items[i].name) == scripts
    requires forall i, j :: 0 <= i < j < |items| ==> items[i].name != items[j].name
    ensures items[i].name in BodiesOf(items, scripts) && BodiesOf(items, scripts)[items[i].name] == items[i].body
  {
    if i < |items| - 1 {
      BodyIsKept(items[..|items| - 1], scripts, i);
    }
  }

  datatype Received = Received(files: map<string, seq<Byte>>, scripts: map<string, seq<Byte>>)

  function ReceivedOf(items: seq<Item>): Received {
    Received(BodiesOf(items, false), BodiesOf(items, true))
  }

  function WithItem(received: Received, item: Item): Received {
    if IsScriptFile(item.name) then received.(scripts := received.scripts[item.name := item.body])
    else received.(files := received.files[item.name := item.body])
  }

  lemma {:induction false} ItemsPrefix(read: seq<Option<Item>>, n: nat)
    requires n <= |read| && ItemsOf(read).Some?
    ensures ItemsOf(read[..n]) == Some(ItemsOf(read).value[..n])
  {
    if n < |read| {
      var before := read[..|read| - 1];
      ItemsPrefix(before, n);
      assert before[..n] == read[..n];
      assert ItemsOf(read).value[..n] == ItemsOf(before).value[..n];
    } else {
      assert read[..n] == read && ItemsOf(read).value[..n] == ItemsOf(read).value;
    }
  }

  lemma ItemsMore(read: seq<Option<Item>>, n: nat, items: seq<Item>)
    requires n < |read| && ItemsOf(read[..n]) == Some(items)
    ensures read[n].None? ==> ItemsOf(read).None?
    ensures read[n].Some? ==> ItemsOf(read[..n + 1]) == Some(items + [read[n].value])
  {
    var longer := read[..n + 1];
    assert longer[..n] == read[..n] && longer[n] == read[n];
    if ItemsOf(read).Some? {
      ItemsPrefix(read, n + 1);
    }
  }

  lemma OneItemMore(items: seq<Item>, item: Item)
    ensures NamesOf(items + [item]) == NamesOf(items) + {item.name}
    ensures BodiesOf(items + [item], IsScriptFile(item.name))
         == BodiesOf(items, IsScriptFile(item.name))[item.name := item.body]
    ensures BodiesOf(items + [item], !IsScriptFile(item.name)) == BodiesOf(items, !IsScriptFile(item.name))
  {
    assert (items + [item])[..|items|] == items;
  }

  /** One entry's content: read whole and hashed, for exactly the items that fit. */
  method ReceiveOne(hash: Hash, utf8: Utf8, checksums: map<string, string>, item: Item, soFar: Received)
    returns (result: Option<Received>)
    ensures result.Some? <==> ItemFits(hash, utf8, checksums, item)
    ensures result.Some? ==> result.value == WithItem(soFar, item)
  {
    if item.name !in checksums {
      return None;
    }
    if item.name == PARTITION_TABLE_FILE && |item.body| > MAX_PARTITION_TABLE_BYTES {
      return None;
    }
    var received := soFar;
    if IsScriptFile(item.name) {
      if |item.body| > MAX_SCRIPT_BYTES || !utf8(item.body) {
        return None;
      }
      received := received.(scripts := received.scripts[item.name := item.body]);
    } else {
      received := received.(files := received.files[item.name := item.body]);
    }
    if !EqIgnoreCase(hash(item.body), checksums[item.name]) {
      return None;
    }
    result := Some(received);
  }

  lemma ItemsAt(read: seq<Option<Item>>, n: nat, items: seq<Item>, item: Item)
    requires n < |read| && ItemsOf(read[..n]) == Some(items) && read[n] == Some(item)
    ensures ItemsOf(read).Some? ==> ItemsOf(read).value[..n] == items && ItemsOf(read).value[n] == item
  {
    ItemsMore(read, n, items);
    if ItemsOf(read).Some? {
      ItemsPrefix(read, n + 1);
      var all := ItemsOf(read).value;
      assert all[..n + 1][..n] == all[..n] && all[..n + 1][n] == all[n];
    }
  }

  lemma CannotFit(hash: Hash, utf8: Utf8, checksums: map<string, string>, items: seq<Item>, n: nat)
    requires n < |items| && (!ItemFits(hash, utf8, checksums, items[n]) || items[n].name in NamesOf(items[..n]))
    ensures !ItemsFit(hash, utf8, checksums, items)
  {
    InNames(items[..n], items[n].name);
  }

  /** Why an archive is refused once one of its entries is. */
  lemma Refused(hash: Hash, utf8: Utf8, checksums: map<string, string>, entries: seq<Entry>, n: nat, items: seq<Item>,
                item: Item)
    requires n < |entries| && ItemsOf(Read(entries)[..n]) == Some(items) && Read(entries)[n] == Some(item)
    requires !ItemFits(hash, utf8, checksums, item) || item.name in NamesOf(items)
    ensures !Accepts(hash, utf8, checksums, entries)
  {
    ItemsAt(Read(entries), n, items, item);
    if ItemsOf(Read(entries)).Some? {
      CannotFit(hash, utf8, checksums, ItemsOf(Read(entries)).value, n);
    }
  }

  /** Receives the entries one by one: it accepts exactly the archives described above. */
  method Receive(hash: Hash, utf8: Utf8, checksums: map<string, string>, entries: seq<Entry>)
    returns (result: Option<Received>)
    ensures result.Some? <==> Accepts(hash, utf8, checksums, entries)
    ensures result.Some? ==> result.value == ReceivedOf(ItemsOf(Read(entries)).value)
  {
    var names: set<string> := {};
    var received := Received(map[], map[]);
    ghost var items: seq<Item>, read := [], Read(entries);
    var n := 0;
    while n < |entries|
      invariant 0 <= n <= |entries| && ItemsOf(read[..n]) == Some(items)
      invariant ItemsFit(hash, utf8, checksums, items)
      invariant names == NamesOf(items) && received == ReceivedOf(items)
    {
      var item := ItemOf(entries[n]);
      ItemsMore(read, n, items);
      if item.None? {
        return None;
      }
      if item.value.name in names {
        Refused(hash, utf8, checksums, entries, n, items, item.value);
        return None;
      }
      var more := ReceiveOne(hash, utf8, checksums, item.value, received);
      if more.None? {
        Refused(hash, utf8, checksums, entries, n, items, item.value);
        return None;
      }
      OneItemMore(items, item.value);
      StillDiffer(hash, utf8, checksums, items, item.value);
      names, received, items := names + {item.value.name}, more.value, items + [item.value];
      n := n + 1;
    }
    assert read[..n] == read;
    OnlyExpected(hash, utf8, checksums, items);
    result := if checksums.Keys <= names then Some(received) else None;
  }

  lemma StillDiffer(hash: Hash, utf8: Utf8, checksums: map<string, string>, items: seq<Item>, item: Item)
    requires ItemsFit(hash, utf8, checksums, items) && ItemFits(hash, utf8, checksums, item)
    requires item.name !in NamesOf(items)
    ensures ItemsFit(hash, utf8, checksums, items + [item])
  {
    InNames(items, item.name);
  }

  lemma OnlyExpected(hash: Hash, utf8: Utf8, checksums: map<string, string>, items: seq<Item>)
    requires ItemsFit(hash, utf8, checksums, items)
    ensures NamesOf(items) <= checksums.Keys
  {
    forall name | name in NamesOf(items) ensures name in checksums {
      InNames(items, name);
    }
  }

  // ----- opening and unpacking ---------------------------------------------------------------------

  /** A JSON codec for manifests: what it writes, the format it finds, what it reads. */
  datatype Codec = Codec(encode: Manifest -> seq<Byte>, format: seq<Byte> -> Option<nat>,
                         decode: seq<Byte> -> Option<Manifest>)

  /** The description as it is read: trimmed, and none when nothing is left. */
  function NormalInput(input: ScriptInput): ScriptInput {
    if input.description.None? then input
    else
      var text := Trim(input.description.value);
      input.(description := if text == [] then None else Some(text))
  }

  function NormalInputs(inputs: seq<ScriptInput>): seq<ScriptInput> {
    seq(|inputs|, i requires 0 <= i < |inputs| => NormalInput(inputs[i]))
  }

  /** The same input, with its description without the spaces around it, or without one if nothing is left. */
  ghost predicate SameButTrimmed(input: ScriptInput, read: ScriptInput) {
    && read == input.(description := read.description)
    && match input.description
       case None => read.description.None?
       case Some(text) =>
         if read.description.None? then Surrounds(text, "")
         else read.description.value != "" && Surrounds(text, read.description.value)
  }

  ghost predicate SameInputs(inputs: seq<ScriptInput>, read: seq<ScriptInput>) {
    |read| == |inputs| && forall k :: 0 <= k < |inputs| ==> SameButTrimmed(inputs[k], read[k])
  }

  lemma NormalInputsMean(inputs: seq<ScriptInput>)
    ensures SameInputs(inputs, NormalInputs(inputs))
  {
    forall k | 0 <= k < |inputs| ensures SameButTrimmed(inputs[k], NormalInput(inputs[k])) {
      if inputs[k].description.Some? {
        TrimMeans(inputs[k].description.value);
      }
    }
  }

  function Normalized(m: Manifest): Manifest {
    m.(scripts := seq(|m.scripts|, i requires 0 <= i < |m.scripts| =>
                        m.scripts[i].(inputs := NormalInputs(m.scripts[i].inputs))))
  }

  /** Reading what was written gives the manifest back, its descriptions trimmed. */
  ghost predicate Faithful(codec: Codec) {
    forall m: Manifest ::
      codec.format(codec.encode(m)) == Some(m.format) && codec.decode(codec.encode(m)) == Some(Normalized(m))
  }

  function ParseManifest(codec: Codec, json: seq<Byte>): Option<Manifest> {
    if |json| > MAX_MANIFEST_BYTES then None
    else
      var format := codec.format(json);
      if format.None? || format.value < COMPATIBLE_FORMAT || format.value > FORMAT then None
      else codec.decode(json)
  }

  /** A manifest is read if it is at most 1 MiB large and its format is 2 or 3, and then as it decodes. */
  lemma ParseManifestMeans(codec: Codec, json: seq<Byte>, m: Manifest)
    ensures ParseManifest(codec, json) == Some(m) <==>
            && |json| <= 1024 * 1024 && codec.decode(json) == Some(m)
            && (codec.format(json) == Some(2) || codec.format(json) == Some(3))
  {
  }

  function ManifestOf(codec: Codec, entries: seq<Entry>): Option<Manifest> {
    if entries == [] || EntryName(entries[0]) != Some(MANIFEST_FILE) then None
    else ParseManifest(codec, entries[0].body)
  }

  datatype Script = Script(name: string, body: seq<Byte>, inputs: seq<ScriptInput>, root: Option<int>)

  datatype Unpacked = Unpacked(manifest: Manifest, files: map<string, seq<Byte>>, scripts: seq<Script>)

  /** An archive that opens and whose entries are accepted. */
  predicate Sound(codec: Codec, finite: Finite, hash: Hash, utf8: Utf8, entries: seq<Entry>) {
    var manifest := ManifestOf(codec, entries);
    && manifest.Some? && Acceptable(finite, manifest.value)
    && Accepts(hash, utf8, MapOf(Files(manifest.value)), entries[1..])
  }

  ghost predicate ScriptsAre(m: Manifest, bodies: map<string, seq<Byte>>, n: nat, scripts: seq<Script>)
    requires n <= |m.scripts|
  {
    && |scripts| == n
    && forall i :: 0 <= i < n ==>
         && m.scripts[i].file in bodies
         && scripts[i] == Script(m.scripts[i].name, bodies[m.scripts[i].file], m.scripts[i].inputs, m.scripts[i].root)
  }

  lemma NamedBodyIsKept(items: seq<Item>, name: string)
    requires name in NamesOf(items) && IsScriptFile(name)
    requires forall i, k :: 0 <= i < k < |items| ==> items[i].name != items[k].name
    ensures name in BodiesOf(items, true)
  {
    InNames(items, name);
    var i :| 0 <= i < |items| && items[i].name == name;
    BodyIsKept(items, true, i);
  }

  lemma ScriptFileIsListed(m: Manifest, j: nat)
    requires j < |m.scripts|
    ensures m.scripts[j].file in MapOf(Files(m))
  {
    FileIs(m, |m.partitions|, |m.scripts|, j);
    StartOfFiles(m);
    InMapOf(Files(m), m.scripts[j].file);
  }

  /** Every script of an accepted archive has a body. */
  lemma {:induction false} ScriptHasBody(m: Manifest, items: seq<Item>, j: nat)
    requires j < |m.scripts| && m.scripts[j].file == ScriptFile(m.scripts[j].name)
    requires NamesOf(items) == MapOf(Files(m)).Keys
    requires forall i, k :: 0 <= i < k < |items| ==> items[i].name != items[k].name
    ensures m.scripts[j].file in BodiesOf(items, true)
  {
    ScriptFileIsListed(m, j);
    KindsOfFilesDiffer(0, m.scripts[j].name);
    NamedBodyIsKept(items, m.scripts[j].file);
  }

  /** The manifest, the files by name, and the scripts in the manifest's order with their bodies. */
  ghost predicate UnpacksTo(codec: Codec, entries: seq<Entry>, unpacked: Unpacked) {
    entries != []
    && var items := ItemsOf(Read(entries[1..]));
       && items.Some? && Some(unpacked.manifest) == ManifestOf(codec, entries)
       && unpacked.files == BodiesOf(items.value, false)
       && ScriptsAre(unpacked.manifest, BodiesOf(items.value, true), |unpacked.manifest.scripts|, unpacked.scripts)
  }

  /** Opens an archive and unpacks it: the files by name, and the scripts in the manifest's order. */
  method Unpack(codec: Codec, finite: Finite, hash: Hash, utf8: Utf8, entries: seq<Entry>)
    returns (result: Option<Unpacked>)
    ensures result.Some? <==> Sound(codec, finite, hash, utf8, entries)
    ensures result.Some? ==> UnpacksTo(codec, entries, result.value)
  {
    var manifest := ManifestOf(codec, entries);
    if manifest.None? {
      return None;
    }
    var m := manifest.value;
    var checksums := Checksums(finite, m);
    if checksums.None? {
      return None;
    }
    var received := Receive(hash, utf8, checksums.value, entries[1..]);
    if received.None? {
      return None;
    }
    var scripts := TakeScripts(finite, m, received.value.scripts, ItemsOf(Read(entries[1..])).value);
    result := Some(Unpacked(m, received.value.files, scripts));
  }

  /** Takes each script's body out of the bodies received, which never lack one. */
  method TakeScripts(finite: Finite, m: Manifest, received: map<string, seq<Byte>>, ghost items: seq<Item>)
    returns (scripts: seq<Script>)
    requires ScriptsFit(finite, m, |m.scripts|) && received == BodiesOf(items, true)
    requires NamesOf(items) == MapOf(Files(m)).Keys
    requires forall i, k :: 0 <= i < k < |items| ==> items[i].name != items[k].name
    ensures ScriptsAre(m, received, |m.scripts|, scripts)
  {
    var bodies := received;
    scripts := [];
    forall j | 0 <= j < |m.scripts| ensures m.scripts[j].file in received {
      ScriptHasBody(m, items, j);
    }
    var n := 0;
    while n < |m.scripts|
      invariant 0 <= n <= |m.scripts| && ScriptsAre(m, received, n, scripts)
      invariant forall j :: n <= j < |m.scripts| ==>
                  m.scripts[j].file in bodies && bodies[m.scripts[j].file] == received[m.scripts[j].file]
    {
      var archived := m.scripts[n];
      ScriptFilesAreApart(finite, m, n);
      scripts := scripts + [Script(archived.name, bodies[archived.file], archived.inputs, archived.root)];
      bodies := bodies - {archived.file};
      n := n + 1;
    }
  }

  lemma ScriptFilesAreApart(finite: Finite, m: Manifest, n: nat)
    requires n < |m.scripts| && ScriptsFit(finite, m, |m.scripts|)
    ensures forall j :: n < j < |m.scripts| ==> m.scripts[j].file != m.scripts[n].file
  {
    forall j | n < j < |m.scripts| ensures m.scripts[j].file != m.scripts[n].file {
      if m.scripts[j].file == m.scripts[n].file {
        ScriptFilesDiffer(m.scripts[j].name, m.scripts[n].name);
      }
    }
  }

  // ----- writing -----------------------------------------------------------------------------------

  datatype PartitionSource = PartitionSource(number: int, fstype: string, sizeBytes: nat, fsUuid: Option<string>,
                                             fsLabel: Option<string>, data: seq<Byte>)

  datatype Contents = Contents(name: string, capturedAt: Option<int>, kind: ImageKind, sectorSize: nat,
                               table: Option<seq<Byte>>, partitions: seq<PartitionSource>, root: Option<int>,
                               scripts: seq<Script>)

  function ArchivedPartitions(hash: Hash, sources: seq<PartitionSource>): seq<ArchivedPartition> {
    seq(|sources|, i requires 0 <= i < |sources| =>
          ArchivedPartition(sources[i].number, sources[i].fstype, sources[i].sizeBytes, PartitionFile(sources[i].number),
                            hash(sources[i].data), sources[i].fsUuid, sources[i].fsLabel))
  }

  function ArchivedScripts(hash: Hash, scripts: seq<Script>): seq<ArchivedScript> {
    seq(|scripts|, i requires 0 <= i < |scripts| =>
          ArchivedScript(scripts[i].name, ScriptFile(scripts[i].name), hash(scripts[i].body), scripts[i].inputs,
                         scripts[i].root))
  }

  /** The manifest of what is archived, in the oldest format that can hold it. */
  function Describe(hash: Hash, contents: Contents): Manifest {
    var table := if contents.table.None? then None
                 else Some(ArchivedFile(PARTITION_TABLE_FILE, hash(contents.table.value)));
    var m := Manifest(0, contents.name, contents.kind, contents.capturedAt, contents.sectorSize, table,
                      ArchivedPartitions(hash, contents.partitions), contents.root,
                      ArchivedScripts(hash, contents.scripts));
    m.(format := RequiredFormat(m))
  }

  function TwoTo(k: nat): nat {
    if k == 0 then 1 else 2 * TwoTo(k - 1)
  }

  ghost predicate HasPartition(contents: Contents, number: int) {
    exists i :: 0 <= i < |contents.partitions| && contents.partitions[i].number == number
  }

  /** A disk with its partition table, or one partition with the number 1 and no table. */
  ghost predicate HasItsParts(contents: Contents) {
    && (contents.kind.Disk? ==> contents.table.Some? && contents.partitions != [])
    && (contents.kind.Partition? ==>
          contents.table.None? && |contents.partitions| == 1 && contents.partitions[0].number == 1)
  }

  ghost predicate PartitionsAreSound(contents: Contents) {
    && (forall i, j :: 0 <= i < j < |contents.partitions| ==> contents.partitions[i].number != contents.partitions[j].number)
    && forall i :: 0 <= i < |contents.partitions| ==>
         && contents.partitions[i].number > 0
         && (contents.partitions[i].fstype in {"ext2", "ext3", "ext4", "vfat", "btrfs"}
             || (contents.kind.Disk? && contents.partitions[i].fstype == "swap"))
  }

  /** A name of 1 to 64 letters, digits, dashes, underscores and dots that does not start with a dot. */
  ghost predicate IsSoundName(name: string) {
    && 1 <= |name| <= 64 && name[0] != '.'
    && forall c :: c in name ==> '0' <= c <= '9' || 'a' <= c <= 'z' || 'A' <= c <= 'Z' || c == '-' || c == '_' || c == '.'
  }

  ghost predicate ScriptsAreSound(finite: Finite, contents: Contents) {
    && (forall i, j :: 0 <= i < j < |contents.scripts| ==> contents.scripts[i].name != contents.scripts[j].name)
    && forall i :: 0 <= i < |contents.scripts| ==>
         && IsSoundName(contents.scripts[i].name)
         && (contents.scripts[i].root.Some? ==> HasPartition(contents, contents.scripts[i].root.value))
         && forall k :: 0 <= k < |contents.scripts[i].inputs| ==> Validate(finite, contents.scripts[i].inputs[k])
  }

  ghost predicate IsPower(n: nat) {
    exists k :: 9 <= k <= 16 && n == TwoTo(k)
  }

  lemma Powers()
    ensures TwoTo(9) == 512 && TwoTo(10) == 1024 && TwoTo(11) == 2048 && TwoTo(12) == 4096
    ensures TwoTo(13) == 8192 && TwoTo(14) == 16384 && TwoTo(15) == 32768 && TwoTo(16) == 65536
  {
    assert TwoTo(4) == 16 && TwoTo(8) == 16 * TwoTo(4) && TwoTo(12) == 16 * TwoTo(8);
  }

  lemma SectorSizesAre(n: nat)
    ensures IsSectorSize(n) <==> IsPower(n)
  {
    Powers();
    if IsPower(n) {
      var k :| 9 <= k <= 16 && n == TwoTo(k);
      assert k == 9 || k == 10 || k == 11 || k == 12 || k == 13 || k == 14 || k == 15 || k == 16;
    }
  }

  lemma SoundNames(name: string)
    ensures IsScriptName(name) <==> IsSoundName(name)
  {
    if IsSoundName(name) {
      forall i | 0 <= i < |name|
        ensures IsDigit(name[i]) || 'a' <= name[i] <= 'z' || 'A' <= name[i] <= 'Z' || name[i] in "-_."
      {
        assert name[i] in name;
        assert "-_."[0] == '-' && "-_."[1] == '_' && "-_."[2] == '.';
      }
    }
  }

  lemma DescribedPartitions(hash: Hash, contents: Contents)
    ensures var m := Describe(hash, contents);
      PartitionsFit(m, |m.partitions|) <==> PartitionsAreSound(contents)
  {
    var m := Describe(hash, contents);
    assert |m.partitions| == |contents.partitions|;
    forall i | 0 <= i < |m.partitions|
      ensures PartitionFits(m, m.partitions[i]) <==>
              && contents.partitions[i].number > 0
              && (contents.partitions[i].fstype in {"ext2", "ext3", "ext4", "vfat", "btrfs"}
                  || (contents.kind.Disk? && contents.partitions[i].fstype == "swap"))
      ensures m.partitions[i].number == contents.partitions[i].number
    {
      OneFsType(m.kind, contents.partitions[i].fstype);
    }
  }

  lemma OneFsType(kind: ImageKind, fstype: string)
    ensures fstype in FsTypes(kind) <==>
            fstype in {"ext2", "ext3", "ext4", "vfat", "btrfs"} || (kind.Disk? && fstype == "swap")
  {
    var types := FsTypes(kind);
    assert types[0] == "ext2" && types[1] == "ext3" && types[2] == "ext4" && types[3] == "vfat" && types[4] == "btrfs";
    assert kind.Disk? ==> types[5] == "swap";
  }

  lemma DescribedRoots(hash: Hash, contents: Contents, number: int)
    ensures Archived(Describe(hash, contents), number) <==> HasPartition(contents, number)
  {
    var m := Describe(hash, contents);
    assert forall i :: 0 <= i < |m.partitions| ==> m.partitions[i].number == contents.partitions[i].number;
  }

  lemma DescribedScripts(finite: Finite, hash: Hash, contents: Contents)
    ensures var m := Describe(hash, contents);
      ScriptsFit(finite, m, |m.scripts|) <==> ScriptsAreSound(finite, contents)
  {
    var m := Describe(hash, contents);
    assert |m.scripts| == |contents.scripts|;
    forall i | 0 <= i < |m.scripts|
      ensures ScriptFits(finite, m, m.scripts[i]) <==>
              && IsSoundName(contents.scripts[i].name)
              && (contents.scripts[i].root.Some? ==> HasPartition(contents, contents.scripts[i].root.value))
              && forall k :: 0 <= k < |contents.scripts[i].inputs| ==> Validate(finite, contents.scripts[i].inputs[k])
      ensures m.scripts[i].name == contents.scripts[i].name
    {
      SoundNames(contents.scripts[i].name);
      if contents.scripts[i].root.Some? {
        DescribedRoots(hash, contents, contents.scripts[i].root.value);
      }
    }
  }

  /** Which contents can be archived, said of the contents themselves; the manifest has the oldest format that
      can hold them. */
  lemma DescribedIsAcceptable(finite: Finite, hash: Hash, contents: Contents)
    ensures Acceptable(finite, Describe(hash, contents)) <==>
            && IsPower(contents.sectorSize)
            && HasItsParts(contents) && PartitionsAreSound(contents) && ScriptsAreSound(finite, contents)
            && (contents.root.Some? ==> HasPartition(contents, contents.root.value))
    ensures Describe(hash, contents).format
         == if contents.kind.Partition? || exists i :: 0 <= i < |contents.scripts| && contents.scripts[i].root.Some?
            then 3 else 2
  {
    var m := Describe(hash, contents);
    SectorSizesAre(contents.sectorSize);
    DescribedPartitions(hash, contents);
    DescribedScripts(finite, hash, contents);
    if contents.root.Some? {
      DescribedRoots(hash, contents, contents.root.value);
    }
    assert forall i :: 0 <= i < |m.scripts| ==> m.scripts[i].root == contents.scripts[i].root;
    assert |m.partitions| == |contents.partitions|;
    if contents.partitions != [] {
      assert m.partitions[0].number == contents.partitions[0].number;
    }
    if i :| 0 <= i < |contents.scripts| && contents.scripts[i].root.Some? {
      assert m.scripts[i].root.Some?;
    }
  }

  function TableBody(contents: Contents): seq<seq<Byte>> {
    if contents.table.None? then [] else [contents.table.value]
  }

  function PartitionBodies(contents: Contents): seq<seq<Byte>> {
    seq(|contents.partitions|, i requires 0 <= i < |contents.partitions| => contents.partitions[i].data)
  }

  function ScriptBodies(contents: Contents): seq<seq<Byte>> {
    seq(|contents.scripts|, i requires 0 <= i < |contents.scripts| => contents.scripts[i].body)
  }

  /** What is archived, in the order of the manifest's files. */
  function Bodies(contents: Contents): seq<seq<Byte>> {
    TableBody(contents) + PartitionBodies(contents) + ScriptBodies(contents)
  }

  function EntriesOf(files: seq<ArchivedFile>, bodies: seq<seq<Byte>>): seq<Entry>
    requires |files| == |bodies|
  {
    seq(|files|, i requires 0 <= i < |files| => Entry(files[i].file, true, bodies[i]))
  }

  lemma BodiesMatch(hash: Hash, contents: Contents)
    ensures |Files(Describe(hash, contents))| == |Bodies(contents)|
    ensures forall i :: 0 <= i < |Bodies(contents)| ==> Files(Describe(hash, contents))[i].sha256 == hash(Bodies(contents)[i])
  {
    var m := Describe(hash, contents);
    assert |TableFiles(m)| == if contents.table.None? then 0 else 1;
  }

  /** The entries of an archive: the manifest, then every file it names, in its order. */
  function ArchiveOf(codec: Codec, hash: Hash, contents: Contents): seq<Entry> {
    var m := Describe(hash, contents);
    BodiesMatch(hash, contents);
    [Entry(MANIFEST_FILE, true, codec.encode(m))] + EntriesOf(Files(m), Bodies(contents))
  }

  function PartitionEntries(m: Manifest, sources: seq<PartitionSource>, n: nat): seq<Entry>
    requires n <= |m.partitions| == |sources|
  {
    seq(n, i requires 0 <= i < n => Entry(m.partitions[i].file, true, sources[i].data))
  }

  function ScriptEntries(m: Manifest, scripts: seq<Script>, n: nat): seq<Entry>
    requires n <= |m.scripts| == |scripts|
  {
    seq(n, i requires 0 <= i < n => Entry(m.scripts[i].file, true, scripts[i].body))
  }

  method AppendPartitions(m: Manifest, sources: seq<PartitionSource>, start: seq<Entry>) returns (written: seq<Entry>)
    requires |m.partitions| == |sources|
    ensures written == start + PartitionEntries(m, sources, |sources|)
  {
    written := start;
    var n := 0;
    while n < |sources|
      invariant 0 <= n <= |sources| && written == start + PartitionEntries(m, sources, n)
    {
      assert PartitionEntries(m, sources, n + 1)
          == PartitionEntries(m, sources, n) + [Entry(m.partitions[n].file, true, sources[n].data)];
      written := written + [Entry(m.partitions[n].file, true, sources[n].data)];
      n := n + 1;
    }
  }

  method AppendScripts(m: Manifest, scripts: seq<Script>, start: seq<Entry>) returns (written: seq<Entry>)
    requires |m.scripts| == |scripts|
    ensures written == start + ScriptEntries(m, scripts, |scripts|)
  {
    written := start;
    var n := 0;
    while n < |scripts|
      invariant 0 <= n <= |scripts| && written == start + ScriptEntries(m, scripts, n)
    {
      assert ScriptEntries(m, scripts, n + 1)
          == ScriptEntries(m, scripts, n) + [Entry(m.scripts[n].file, true, scripts[n].body)];
      written := written + [Entry(m.scripts[n].file, true, scripts[n].body)];
      n := n + 1;
    }
  }

  lemma EntriesAppend(a: seq<ArchivedFile>, b: seq<ArchivedFile>, x: seq<seq<Byte>>, y: seq<seq<Byte>>)
    requires |a| == |x| && |b| == |y|
    ensures EntriesOf(a + b, x + y) == EntriesOf(a, x) + EntriesOf(b, y)
  {
  }

  lemma ArchiveInParts(codec: Codec, hash: Hash, contents: Contents)
    ensures var m := Describe(hash, contents);
      ArchiveOf(codec, hash, contents)
      == [Entry(MANIFEST_FILE, true, codec.encode(m))]
       + ((if contents.table.Some? then [Entry(PARTITION_TABLE_FILE, true, contents.table.value)] else [])
          + PartitionEntries(m, contents.partitions, |contents.partitions|)
          + ScriptEntries(m, contents.scripts, |contents.scripts|))
  {
    var m := Describe(hash, contents);
    BodiesMatch(hash, contents);
    var table, partitions, scripts := TableFiles(m), PartitionPart(m, |m.partitions|), ScriptPart(m, |m.scripts|);
    EntriesAppend(table + partitions, scripts, TableBody(contents) + PartitionBodies(contents), ScriptBodies(contents));
    EntriesAppend(table, partitions, TableBody(contents), PartitionBodies(contents));
    assert EntriesOf(partitions, PartitionBodies(contents))
        == PartitionEntries(m, contents.partitions, |contents.partitions|);
    assert EntriesOf(scripts, ScriptBodies(contents)) == ScriptEntries(m, contents.scripts, |contents.scripts|);
    assert EntriesOf(table, TableBody(contents))
        == if contents.table.Some? then [Entry(PARTITION_TABLE_FILE, true, contents.table.value)] else [];
  }

  lemma Regroup(a: seq<Entry>, b: seq<Entry>, c: seq<Entry>, d: seq<Entry>)
    ensures a + (b + c + d) == a + b + c + d
  {
  }

  /** Writes the manifest, then every file it names, unless the manifest would not be accepted. */
  method WriteArchive(codec: Codec, finite: Finite, hash: Hash, contents: Contents) returns (entries: Option<seq<Entry>>)
    ensures entries == if Acceptable(finite, Describe(hash, contents)) then Some(ArchiveOf(codec, hash, contents)) else None
  {
    var m := Describe(hash, contents);
    var checksums := Checksums(finite, m);
    if checksums.None? {
      return None;
    }
    var written := [Entry(MANIFEST_FILE, true, codec.encode(m))];
    if contents.table.Some? {
      written := written + [Entry(m.table.value.file, true, contents.table.value)];
    }
    assert written == [Entry(MANIFEST_FILE, true, codec.encode(m))]
        + if contents.table.Some? then [Entry(PARTITION_TABLE_FILE, true, contents.table.value)] else [];
    written := AppendPartitions(m, contents.partitions, written);
    written := AppendScripts(m, contents.scripts, written);
    ArchiveInParts(codec, hash, contents);
    Regroup([Entry(MANIFEST_FILE, true, codec.encode(m))],
            if contents.table.Some? then [Entry(PARTITION_TABLE_FILE, true, contents.table.value)] else [],
            PartitionEntries(m, contents.partitions, |contents.partitions|),
            ScriptEntries(m, contents.scripts, |contents.scripts|));
    entries := Some(written);
  }

  // ----- what is written is received ---------------------------------------------------------------

  lemma {:induction false} TrimKeeps(text: string)
    ensures |Trim(text)| <= |text| && forall c :: c in Trim(text) ==> c in text
  {
    TrimStartKeeps(text);
    TrimEndKeeps(TrimStart(text));
  }

  lemma {:induction false} TrimStartKeeps(text: string)
    ensures |TrimStart(text)| <= |text| && forall c :: c in TrimStart(text) ==> c in text
  {
    if text != [] && IsSpace(text[0]) {
      TrimStartKeeps(text[1..]);
    }
  }

  lemma {:induction false} TrimEndKeeps(text: string)
    ensures |TrimEnd(text)| <= |text| && forall c :: c in TrimEnd(text) ==> c in text
  {
    if text != [] && IsSpace(text[|text| - 1]) {
      TrimEndKeeps(text[..|text| - 1]);
    }
  }

  lemma NormalInputStaysValid(finite: Finite, input: ScriptInput)
    requires Validate(finite, input)
    ensures Validate(finite, NormalInput(input))
  {
    if input.description.Some? {
      TrimKeeps(input.description.value);
    }
    var normal := NormalInput(input);
    assert input.defaultValue.Some? ==>
        (Check(finite, normal, input.defaultValue.value) <==> Check(finite, input, input.defaultValue.value));
  }

  /** Trimming descriptions changes neither the files nor whether the manifest is accepted. */
  lemma NormalizedStaysAcceptable(finite: Finite, m: Manifest)
    requires Acceptable(finite, m)
    ensures Acceptable(finite, Normalized(m)) && Files(Normalized(m)) == Files(m)
  {
    var normal := Normalized(m);
    assert forall i :: 0 <= i < |m.scripts| ==> normal.scripts[i].root == m.scripts[i].root;
    assert RequiredFormat(normal) == RequiredFormat(m);
    assert PartitionsFit(normal, |m.partitions|) by {
      assert forall i :: 0 <= i < |m.partitions| ==> PartitionFits(m, m.partitions[i]) ==> PartitionFits(normal, m.partitions[i]);
    }
    forall i | 0 <= i < |m.scripts| ensures ScriptFits(finite, normal, normal.scripts[i]) {
      assert ScriptFits(finite, m, m.scripts[i]);
      var inputs := m.scripts[i].inputs;
      forall k | 0 <= k < |inputs| ensures Validate(finite, NormalInput(inputs[k])) {
        NormalInputStaysValid(finite, inputs[k]);
      }
    }
    assert ScriptPart(normal, |m.scripts|) == ScriptPart(m, |m.scripts|);
  }

  lemma PlainScript(name: string, body: seq<Byte>)
    requires IsScriptName(name)
    ensures EntryName(Entry(ScriptFile(name), true, body)) == Some(ScriptFile(name))
  {
    assert '/' !in name + ".sh" && |name + ".sh"| > 3;
    TwoNames(SCRIPTS_DIR, name + ".sh");
    assert ScriptFile(name) == SCRIPTS_DIR + ['/'] + (name + ".sh");
  }

  lemma PartitionNameIsPlain(number: int)
    requires number >= 1
    ensures IsName(PartitionFile(number))
  {
    var file := PartitionFile(number);
    assert |file| > 3 && file[0] == 'p';
    assert forall i :: 0 <= i < |Decimal(number)| ==> IsDigit(Decimal(number)[i]);
  }

  lemma PlainEntry(name: string, body: seq<Byte>)
    requires IsName(name)
    ensures EntryName(Entry(name, true, body)) == Some(name)
  {
    OneName(name);
  }

  lemma FixedNames()
    ensures IsName(MANIFEST_FILE) && IsName(PARTITION_TABLE_FILE)
  {
  }

  ghost predicate IsFileName(file: string) {
    || file == PARTITION_TABLE_FILE || (exists number :: number >= 1 && file == PartitionFile(number))
    || exists name :: IsScriptName(name) && file == ScriptFile(name)
  }

  lemma FileNameIsOne(finite: Finite, m: Manifest, i: nat)
    requires Acceptable(finite, m) && i < |Files(m)|
    ensures IsFileName(Files(m)[i].file)
  {
    StartOfFiles(m);
    FileAt(m, |m.partitions|, |m.scripts|, i);
    var at := i - |TableFiles(m)|;
    assert 0 <= at < |m.partitions| ==> PartitionFits(m, m.partitions[at]);
    assert at >= |m.partitions| ==> ScriptFits(finite, m, m.scripts[at - |m.partitions|]);
  }

  /** Every file name of an acceptable manifest is read back as itself. */
  lemma FileNameReads(file: string, body: seq<Byte>)
    requires IsFileName(file)
    ensures EntryName(Entry(file, true, body)) == Some(file)
  {
    if number :| number >= 1 && file == PartitionFile(number) {
      PartitionNameIsPlain(number);
      PlainEntry(file, body);
    } else if name :| IsScriptName(name) && file == ScriptFile(name) {
      PlainScript(name, body);
    } else {
      FixedNames();
      PlainEntry(file, body);
    }
  }

  function ItemsFor(files: seq<ArchivedFile>, bodies: seq<seq<Byte>>): seq<Item>
    requires |files| == |bodies|
  {
    seq(|files|, i requires 0 <= i < |files| => Item(files[i].file, bodies[i]))
  }

  lemma {:induction false} AllItems(read: seq<Option<Item>>, items: seq<Item>)
    requires |read| == |items| && forall i :: 0 <= i < |read| ==> read[i] == Some(items[i])
    ensures ItemsOf(read) == Some(items)
  {
    if read != [] {
      AllItems(read[..|read| - 1], items[..|items| - 1]);
      assert items[..|items| - 1] + [items[|items| - 1]] == items;
    }
  }

  /** The sizes that a reader accepts. The writer does not look at the manifest's or a file's size. */
  predicate WithinLimits(codec: Codec, hash: Hash, contents: Contents) {
    && |codec.encode(Describe(hash, contents))| <= MAX_MANIFEST_BYTES
    && (contents.table.Some? ==> |contents.table.value| <= MAX_PARTITION_TABLE_BYTES)
    && forall i :: 0 <= i < |contents.scripts| ==> |contents.scripts[i].body| <= MAX_SCRIPT_BYTES
  }

  lemma NamesAreKeys(files: seq<ArchivedFile>, items: seq<Item>)
    requires |files| == |items| && forall i :: 0 <= i < |files| ==> items[i].name == files[i].file
    ensures NamesOf(items) == MapOf(files).Keys
  {
    forall name ensures name in NamesOf(items) <==> name in MapOf(files) {
      InNames(items, name);
      InMapOf(files, name);
    }
  }

  /** The limit on the size of body number `i`, if it has one. */
  predicate SizeFits(m: Manifest, i: int, size: nat) {
    var at := i - |TableFiles(m)|;
    if at < 0 then size <= MAX_PARTITION_TABLE_BYTES else at >= |m.partitions| ==> size <= MAX_SCRIPT_BYTES
  }

  /** An unchanged body of a known file fits unless it is too large, or no text where it must be. */
  lemma FitsBySize(hash: Hash, utf8: Utf8, checksums: map<string, string>, item: Item)
    requires item.name in checksums && checksums[item.name] == hash(item.body)
    ensures ItemFits(hash, utf8, checksums, item) <==>
            && (item.name == PARTITION_TABLE_FILE ==> |item.body| <= MAX_PARTITION_TABLE_BYTES)
            && (IsScriptFile(item.name) ==> |item.body| <= MAX_SCRIPT_BYTES && utf8(item.body))
  {
  }

  lemma ItemIsWithin(finite: Finite, hash: Hash, utf8: Utf8, contents: Contents, i: nat)
    requires Acceptable(finite, Describe(hash, contents)) && i < |Bodies(contents)|
    requires forall j :: 0 <= j < |contents.scripts| ==> utf8(contents.scripts[j].body)
    requires NamesDiffer(Files(Describe(hash, contents)))
    ensures |Files(Describe(hash, contents))| == |Bodies(contents)|
    ensures var m := Describe(hash, contents); var item := Item(Files(m)[i].file, Bodies(contents)[i]);
      ItemFits(hash, utf8, MapOf(Files(m)), item) <==> SizeFits(m, i, |item.body|)
  {
    var m := Describe(hash, contents);
    BodiesMatch(hash, contents);
    OneKeyEach(Files(m));
    StartOfFiles(m);
    FileAt(m, |m.partitions|, |m.scripts|, i);
    FitsBySize(hash, utf8, MapOf(Files(m)), Item(Files(m)[i].file, Bodies(contents)[i]));
    var at := i - |TableFiles(m)|;
    if 0 <= at < |m.partitions| {
      KindsOfFilesDiffer(m.partitions[at].number, "");
    } else if at >= |m.partitions| {
      KindsOfFilesDiffer(0, m.scripts[at - |m.partitions|].name);
    } else {
      KindsOfFilesDiffer(0, "");
    }
  }

  /** The bodies' sizes fit exactly when the table and the scripts are within their limits. */
  lemma SizesFit(hash: Hash, contents: Contents)
    ensures (forall i :: 0 <= i < |Bodies(contents)| ==> SizeFits(Describe(hash, contents), i, |Bodies(contents)[i]|))
       <==> && (contents.table.Some? ==> |contents.table.value| <= MAX_PARTITION_TABLE_BYTES)
            && forall i :: 0 <= i < |contents.scripts| ==> |contents.scripts[i].body| <= MAX_SCRIPT_BYTES
  {
    var m, bodies := Describe(hash, contents), Bodies(contents);
    var first := |TableFiles(m)| + |contents.partitions|;
    assert forall i :: 0 <= i < |contents.scripts| ==> bodies[first + i] == contents.scripts[i].body;
    if forall i :: 0 <= i < |bodies| ==> SizeFits(m, i, |bodies[i]|) {
      assert contents.table.Some? ==> SizeFits(m, 0, |bodies[0]|);
      forall i | 0 <= i < |contents.scripts| ensures |contents.scripts[i].body| <= MAX_SCRIPT_BYTES {
        assert SizeFits(m, first + i, |bodies[first + i]|);
      }
    }
  }

  lemma AcceptableNamesDiffer(finite: Finite, m: Manifest)
    requires Acceptable(finite, m)
    ensures NamesDiffer(Files(m))
  {
    var files := Files(m);
    StartOfFiles(m);
    forall i, j | 0 <= i < j < |files| ensures files[i].file != files[j].file {
      TwoFilesDiffer(finite, m, i, j);
    }
  }

  lemma BeforeAPartition(m: Manifest, file: string, a: int, b: nat)
    requires b < |m.partitions| && a < b && PartitionsFit(m, |m.partitions|)
    requires file == if a < 0 then PARTITION_TABLE_FILE else m.partitions[a].file
    ensures file != m.partitions[b].file
  {
    KindsOfFilesDiffer(m.partitions[b].number, "");
    assert PartitionFits(m, m.partitions[b]);
    if a >= 0 && file == m.partitions[b].file {
      assert PartitionFits(m, m.partitions[a]);
      PartitionFilesDiffer(m.partitions[a].number, m.partitions[b].number);
    }
  }

  lemma BeforeAScript(finite: Finite, m: Manifest, file: string, a: int, b: nat)
    requires b < |m.scripts| && a < b && ScriptsFit(finite, m, |m.scripts|)
    requires a < 0 ==> file == PARTITION_TABLE_FILE || exists number :: file == PartitionFile(number)
    requires a >= 0 ==> file == m.scripts[a].file
    ensures file != m.scripts[b].file
  {
    assert ScriptFits(finite, m, m.scripts[b]);
    if a >= 0 {
      if file == m.scripts[b].file {
        assert ScriptFits(finite, m, m.scripts[a]);
        ScriptFilesDiffer(m.scripts[a].name, m.scripts[b].name);
      }
    } else if number :| file == PartitionFile(number) {
      KindsOfFilesDiffer(number, m.scripts[b].name);
    } else {
      KindsOfFilesDiffer(0, m.scripts[b].name);
    }
  }

  /** The file has the name of the table, or of the partition or script of that number. */
  predicate IsFileNumber(m: Manifest, file: string, i: int) {
    if i < 0 then file == PARTITION_TABLE_FILE
    else if i < |m.partitions| then file == m.partitions[i].file
    else i - |m.partitions| < |m.scripts| && file == m.scripts[i - |m.partitions|].file
  }

  lemma TwoNamesDiffer(finite: Finite, m: Manifest, file: string, a: int, other: string, b: nat)
    requires Acceptable(finite, m) && a < b
    requires IsFileNumber(m, file, a) && IsFileNumber(m, other, b)
    ensures file != other
  {
    if b < |m.partitions| {
      BeforeAPartition(m, file, a, b);
    } else {
      assert 0 <= a < |m.partitions| ==> PartitionFits(m, m.partitions[a]);
      BeforeAScript(finite, m, file, a - |m.partitions|, b - |m.partitions|);
    }
  }

  lemma HasItsNumber(m: Manifest, i: nat)
    requires i < |Files(m)|
    ensures IsFileNumber(m, Files(m)[i].file, i - |TableFiles(m)|)
  {
    StartOfFiles(m);
    FileAt(m, |m.partitions|, |m.scripts|, i);
  }

  lemma TwoFilesDiffer(finite: Finite, m: Manifest, i: nat, j: nat)
    requires Acceptable(finite, m) && i < j < |Files(m)|
    ensures Files(m)[i].file != Files(m)[j].file
  {
    HasItsNumber(m, i);
    HasItsNumber(m, j);
    TwoNamesDiffer(finite, m, Files(m)[i].file, i - |TableFiles(m)|, Files(m)[j].file, j - |TableFiles(m)|);
  }

  /** The entries after the manifest read as the files and their bodies. */
  lemma FilesRead(finite: Finite, m: Manifest, bodies: seq<seq<Byte>>)
    requires Acceptable(finite, m) && |Files(m)| == |bodies|
    ensures ItemsOf(Read(EntriesOf(Files(m), bodies))) == Some(ItemsFor(Files(m), bodies))
  {
    var read := Read(EntriesOf(Files(m), bodies));
    forall i | 0 <= i < |read| ensures read[i] == Some(ItemsFor(Files(m), bodies)[i]) {
      FileNameIsOne(finite, m, i);
      FileNameReads(Files(m)[i].file, bodies[i]);
    }
    AllItems(read, ItemsFor(Files(m), bodies));
  }

  lemma ItemsAreWithin(finite: Finite, hash: Hash, utf8: Utf8, contents: Contents, items: seq<Item>)
    requires Acceptable(finite, Describe(hash, contents))
    requires forall j :: 0 <= j < |contents.scripts| ==> utf8(contents.scripts[j].body)
    requires |Files(Describe(hash, contents))| == |Bodies(contents)|
    requires items == ItemsFor(Files(Describe(hash, contents)), Bodies(contents))
    ensures ItemsFit(hash, utf8, MapOf(Files(Describe(hash, contents))), items)
       <==> forall i :: 0 <= i < |Bodies(contents)| ==> SizeFits(Describe(hash, contents), i, |Bodies(contents)[i]|)
  {
    var m, bodies := Describe(hash, contents), Bodies(contents);
    AcceptableNamesDiffer(finite, m);
    forall i | 0 <= i < |items|
      ensures ItemFits(hash, utf8, MapOf(Files(m)), items[i]) <==> SizeFits(m, i, |bodies[i]|)
    {
      ItemIsWithin(finite, hash, utf8, contents, i);
    }
    assert forall i, j :: 0 <= i < j < |items| ==> items[i].name != items[j].name;
  }

  lemma ContentsFit(finite: Finite, hash: Hash, utf8: Utf8, contents: Contents)
    requires Acceptable(finite, Describe(hash, contents))
    requires forall j :: 0 <= j < |contents.scripts| ==> utf8(contents.scripts[j].body)
    ensures |Files(Describe(hash, contents))| == |Bodies(contents)|
    ensures Accepts(hash, utf8, MapOf(Files(Describe(hash, contents))),
                    EntriesOf(Files(Describe(hash, contents)), Bodies(contents)))
       <==> && (contents.table.Some? ==> |contents.table.value| <= MAX_PARTITION_TABLE_BYTES)
            && forall i :: 0 <= i < |contents.scripts| ==> |contents.scripts[i].body| <= MAX_SCRIPT_BYTES
  {
    var m, bodies := Describe(hash, contents), Bodies(contents);
    BodiesMatch(hash, contents);
    FilesRead(finite, m, bodies);
    var items := ItemsFor(Files(m), bodies);
    NamesAreKeys(Files(m), items);
    ItemsAreWithin(finite, hash, utf8, contents, items);
    SizesFit(hash, contents);
  }

  lemma WrittenOpens(codec: Codec, hash: Hash, contents: Contents)
    requires Faithful(codec)
    ensures ManifestOf(codec, ArchiveOf(codec, hash, contents))
         == if |codec.encode(Describe(hash, contents))| <= MAX_MANIFEST_BYTES
            then Some(Normalized(Describe(hash, contents))) else None
  {
    var m := Describe(hash, contents);
    FixedNames();
    PlainEntry(MANIFEST_FILE, codec.encode(m));
    assert COMPATIBLE_FORMAT <= m.format <= FORMAT;
    assert codec.format(codec.encode(m)) == Some(m.format) && codec.decode(codec.encode(m)) == Some(Normalized(m));
  }

  /** Everything written, with its manifest, table and scripts within the limits, and nothing else, opens
      and is accepted; and then the same bodies come back under the names of the manifest. */
  lemma WrittenIsReceived(codec: Codec, finite: Finite, hash: Hash, utf8: Utf8, contents: Contents)
    requires Faithful(codec) && Acceptable(finite, Describe(hash, contents))
    requires forall j :: 0 <= j < |contents.scripts| ==> utf8(contents.scripts[j].body)
    ensures |Files(Describe(hash, contents))| == |Bodies(contents)|
    ensures Sound(codec, finite, hash, utf8, ArchiveOf(codec, hash, contents)) <==> WithinLimits(codec, hash, contents)
    ensures WithinLimits(codec, hash, contents) ==>
              ManifestOf(codec, ArchiveOf(codec, hash, contents)) == Some(Normalized(Describe(hash, contents)))
    ensures ItemsOf(Read(ArchiveOf(codec, hash, contents)[1..]))
         == Some(ItemsFor(Files(Describe(hash, contents)), Bodies(contents)))
  {
    var m := Describe(hash, contents);
    var entries := ArchiveOf(codec, hash, contents);
    BodiesMatch(hash, contents);
    assert entries[1..] == EntriesOf(Files(m), Bodies(contents));
    FilesRead(finite, m, Bodies(contents));
    ContentsFit(finite, hash, utf8, contents);
    NormalizedStaysAcceptable(finite, m);
    WrittenOpens(codec, hash, contents);
  }

  lemma ItemNamesDiffer(finite: Finite, hash: Hash, contents: Contents, items: seq<Item>)
    requires Acceptable(finite, Describe(hash, contents))
    requires |Files(Describe(hash, contents))| == |Bodies(contents)|
    requires items == ItemsFor(Files(Describe(hash, contents)), Bodies(contents))
    ensures forall i, j :: 0 <= i < j < |items| ==> items[i].name != items[j].name
  {
    AcceptableNamesDiffer(finite, Describe(hash, contents));
  }

  lemma ItemAt(hash: Hash, contents: Contents, i: nat)
    requires i < |Bodies(contents)| && |Files(Describe(hash, contents))| == |Bodies(contents)|
    ensures ItemsFor(Files(Describe(hash, contents)), Bodies(contents))[i]
         == Item(Files(Describe(hash, contents))[i].file, Bodies(contents)[i])
  {
  }

  lemma ScriptItem(hash: Hash, contents: Contents, i: nat, at: nat)
    requires i < |contents.scripts| && |Files(Describe(hash, contents))| == |Bodies(contents)|
    requires at == |TableFiles(Describe(hash, contents))| + |contents.partitions| + i
    ensures at < |Bodies(contents)|
    ensures ItemsFor(Files(Describe(hash, contents)), Bodies(contents))[at]
         == Item(ScriptFile(contents.scripts[i].name), contents.scripts[i].body)
  {
    ItemAt(hash, contents, at);
  }

  lemma PartitionItem(hash: Hash, contents: Contents, i: nat, at: nat)
    requires i < |contents.partitions| && |Files(Describe(hash, contents))| == |Bodies(contents)|
    requires at == |TableFiles(Describe(hash, contents))| + i
    ensures at < |Bodies(contents)|
    ensures ItemsFor(Files(Describe(hash, contents)), Bodies(contents))[at]
         == Item(PartitionFile(contents.partitions[i].number), contents.partitions[i].data)
  {
    ItemAt(hash, contents, at);
  }

  lemma TableItem(hash: Hash, contents: Contents)
    requires contents.table.Some? && |Files(Describe(hash, contents))| == |Bodies(contents)|
    ensures |Bodies(contents)| > 0
    ensures ItemsFor(Files(Describe(hash, contents)), Bodies(contents))[0]
         == Item(PARTITION_TABLE_FILE, contents.table.value)
  {
    ItemAt(hash, contents, 0);
  }

  lemma ScriptComesBack(hash: Hash, contents: Contents, items: seq<Item>, scripts: seq<Script>, i: nat)
    requires i < |contents.scripts| && |Files(Describe(hash, contents))| == |Bodies(contents)|
    requires items == ItemsFor(Files(Describe(hash, contents)), Bodies(contents))
    requires forall i, j :: 0 <= i < j < |items| ==> items[i].name != items[j].name
    requires ScriptsAre(Normalized(Describe(hash, contents)), BodiesOf(items, true), |contents.scripts|, scripts)
    ensures scripts[i] == contents.scripts[i].(inputs := NormalInputs(contents.scripts[i].inputs))
  {
    var m := Describe(hash, contents);
    var at := |TableFiles(m)| + |contents.partitions| + i;
    ScriptItem(hash, contents, i, at);
    KindsOfFilesDiffer(0, contents.scripts[i].name);
    BodyIsKept(items, true, at);
    assert Normalized(m).scripts[i].file == ScriptFile(contents.scripts[i].name);
  }

  lemma PartitionComesBack(hash: Hash, contents: Contents, items: seq<Item>, i: nat)
    requires i < |contents.partitions| && |Files(Describe(hash, contents))| == |Bodies(contents)|
    requires items == ItemsFor(Files(Describe(hash, contents)), Bodies(contents))
    requires forall i, j :: 0 <= i < j < |items| ==> items[i].name != items[j].name
    ensures Holds(BodiesOf(items, false), PartitionFile(contents.partitions[i].number), contents.partitions[i].data)
  {
    var at := |TableFiles(Describe(hash, contents))| + i;
    PartitionItem(hash, contents, i, at);
    KindsOfFilesDiffer(contents.partitions[i].number, "");
    BodyIsKept(items, false, at);
  }

  lemma TableComesBack(hash: Hash, contents: Contents, items: seq<Item>)
    requires contents.table.Some? && |Files(Describe(hash, contents))| == |Bodies(contents)|
    requires items == ItemsFor(Files(Describe(hash, contents)), Bodies(contents))
    requires forall i, j :: 0 <= i < j < |items| ==> items[i].name != items[j].name
    ensures Holds(BodiesOf(items, false), PARTITION_TABLE_FILE, contents.table.value)
  {
    TableItem(hash, contents);
    KindsOfFilesDiffer(0, "");
    BodyIsKept(items, false, 0);
  }

  predicate Holds(files: map<string, seq<Byte>>, name: string, body: seq<Byte>) {
    name in files && files[name] == body
  }

  /** The partition table and every partition's data under their names, and the same scripts in the same
      order, their descriptions trimmed. */
  ghost predicate SameContents(contents: Contents, files: map<string, seq<Byte>>, scripts: seq<Script>) {
    && (contents.table.Some? ==> Holds(files, PARTITION_TABLE_FILE, contents.table.value))
    && (forall i :: 0 <= i < |contents.partitions| ==>
          Holds(files, PartitionFile(contents.partitions[i].number), contents.partitions[i].data))
    && |scripts| == |contents.scripts|
    && forall i :: 0 <= i < |scripts| ==>
         && scripts[i] == contents.scripts[i].(inputs := scripts[i].inputs)
         && SameInputs(contents.scripts[i].inputs, scripts[i].inputs)
  }

  lemma SameContentsComeBack(finite: Finite, hash: Hash, contents: Contents, items: seq<Item>, scripts: seq<Script>)
    requires Acceptable(finite, Describe(hash, contents))
    requires |Files(Describe(hash, contents))| == |Bodies(contents)|
    requires items == ItemsFor(Files(Describe(hash, contents)), Bodies(contents))
    requires ScriptsAre(Normalized(Describe(hash, contents)), BodiesOf(items, true), |contents.scripts|, scripts)
    ensures SameContents(contents, BodiesOf(items, false), scripts)
  {
    ItemNamesDiffer(finite, hash, contents, items);
    if contents.table.Some? {
      TableComesBack(hash, contents, items);
    }
    forall i | 0 <= i < |scripts|
      ensures scripts[i] == contents.scripts[i].(inputs := scripts[i].inputs)
      ensures SameInputs(contents.scripts[i].inputs, scripts[i].inputs)
    {
      ScriptComesBack(hash, contents, items, scripts, i);
      NormalInputsMean(contents.scripts[i].inputs);
    }
    forall i | 0 <= i < |contents.partitions|
      ensures Holds(BodiesOf(items, false), PartitionFile(contents.partitions[i].number), contents.partitions[i].data)
    {
      PartitionComesBack(hash, contents, items, i);
    }
  }

  /** What the writer makes of acceptable contents within the limits is accepted, and whatever unpacking it
      gives has the manifest written, its descriptions trimmed, and the same contents. */
  lemma ContentsRoundTrip(codec: Codec, finite: Finite, hash: Hash, utf8: Utf8, contents: Contents, unpacked: Unpacked)
    requires Faithful(codec) && Acceptable(finite, Describe(hash, contents)) && WithinLimits(codec, hash, contents)
    requires forall j :: 0 <= j < |contents.scripts| ==> utf8(contents.scripts[j].body)
    ensures Sound(codec, finite, hash, utf8, ArchiveOf(codec, hash, contents))
    ensures UnpacksTo(codec, ArchiveOf(codec, hash, contents), unpacked) ==>
              && unpacked.manifest == Normalized(Describe(hash, contents))
              && SameContents(contents, unpacked.files, unpacked.scripts)
  {
    WrittenIsReceived(codec, finite, hash, utf8, contents);
    if UnpacksTo(codec, ArchiveOf(codec, hash, contents), unpacked) {
      var items := ItemsFor(Files(Describe(hash, contents)), Bodies(contents));
      SameContentsComeBack(finite, hash, contents, items, unpacked.scripts);
    }
  }

}

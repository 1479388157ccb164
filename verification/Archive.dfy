/**
 The image archive: a manifest that names every archived file and its hash, and the entries it is
 received from. `hash` is the hexadecimal SHA-256 of some bytes, `utf8` tells which bytes are text.
 */
module Archive {
  import opened Options
  import opened Bytes
  import opened Text
  import opened Paths
  import opened Inputs

  type Hash = seq<Byte> -> string

  const FORMAT: nat := 3
  const COMPATIBLE_FORMAT: nat := 2
  const MANIFEST_FILE := "manifest.json"
  const PARTITION_TABLE_FILE := "parttable.bin"
  const SCRIPTS_DIR := "scripts"
  const MAX_MANIFEST_BYTES: nat := 1024 * 1024
  const MAX_PARTITION_TABLE_BYTES: nat := 1024 * 1024
  const MAX_SCRIPT_BYTES: nat := 1024 * 1024
  const MAX_SCRIPT_NAME_LEN: nat := 64

  datatype ImageKind = Disk | Partition
  datatype ArchivedFile = ArchivedFile(file: string, sha256: string)
  datatype ArchivedPartition = ArchivedPartition(number: int, fstype: string, sizeBytes: nat, file: string,
                                                 sha256: string, fsUuid: Option<string>, fsLabel: Option<string>)
  datatype ArchivedScript = ArchivedScript(name: string, file: string, sha256: string, inputs: seq<ScriptInput>,
                                           root: Option<int>)
  datatype Manifest = Manifest(format: nat, name: string, kind: ImageKind, capturedAt: Option<int>, sectorSize: nat,
                               table: Option<ArchivedFile>, partitions: seq<ArchivedPartition>, root: Option<int>,
                               scripts: seq<ArchivedScript>)

  // ----- the manifest ------------------------------------------------------------------------------

  function PartitionFile(number: int): string {
    "p-" + DecimalInt(number) + ".pcl"
  }

  function ScriptFile(name: string): string {
    SCRIPTS_DIR + "/" + name + ".sh"
  }

  predicate IsScriptFile(name: string) {
    |name| > |SCRIPTS_DIR| && name[..|SCRIPTS_DIR|] == SCRIPTS_DIR && name[|SCRIPTS_DIR|] == '/'
  }

  predicate IsScriptName(name: string) {
    && name != [] && |name| <= MAX_SCRIPT_NAME_LEN && name[0] != '.'
    && forall i :: 0 <= i < |name| ==>
         IsDigit(name[i]) || 'a' <= name[i] <= 'z' || 'A' <= name[i] <= 'Z' || name[i] in "-_."
  }

  /** A power of two from 512 to 65536. */
  predicate IsSectorSize(n: nat) {
    n in {512, 1024, 2048, 4096, 8192, 16384, 32768, 65536}
  }

  function FsTypes(kind: ImageKind): seq<string> {
    if kind.Disk? then ["ext2", "ext3", "ext4", "vfat", "btrfs", "swap"]
    else ["ext2", "ext3", "ext4", "vfat", "btrfs"]
  }

  function RequiredFormat(m: Manifest): nat {
    if m.kind.Partition? || exists i :: 0 <= i < |m.scripts| && m.scripts[i].root.Some? then FORMAT
    else COMPATIBLE_FORMAT
  }

  predicate Archived(m: Manifest, number: int) {
    exists i :: 0 <= i < |m.partitions| && m.partitions[i].number == number
  }

  predicate HeadFits(m: Manifest) {
    && m.format >= RequiredFormat(m) && IsSectorSize(m.sectorSize)
    && (m.kind.Disk? ==> m.table.Some? && m.table.value.file == PARTITION_TABLE_FILE)
    && (m.kind.Partition? ==> m.table.None? && |m.partitions| == 1 && m.partitions[0].number == 1)
    && m.partitions != []
  }

  predicate PartitionFits(m: Manifest, p: ArchivedPartition) {
    p.number >= 1 && p.fstype in FsTypes(m.kind) && p.file == PartitionFile(p.number)
  }

  predicate ScriptFits(finite: Finite, m: Manifest, s: ArchivedScript) {
    && IsScriptName(s.name) && (forall i :: 0 <= i < |s.inputs| ==> Validate(finite, s.inputs[i]))
    && (s.root.Some? ==> Archived(m, s.root.value)) && s.file == ScriptFile(s.name)
  }

  predicate PartitionsFit(m: Manifest, n: nat)
    requires n <= |m.partitions|
  {
    && (forall i :: 0 <= i < n ==> PartitionFits(m, m.partitions[i]))
    && (forall i, j :: 0 <= i < j < n ==> m.partitions[i].number != m.partitions[j].number)
  }

  predicate ScriptsFit(finite: Finite, m: Manifest, n: nat)
    requires n <= |m.scripts|
  {
    && (forall i :: 0 <= i < n ==> ScriptFits(finite, m, m.scripts[i]))
    && (forall i, j :: 0 <= i < j < n ==> m.scripts[i].name != m.scripts[j].name)
  }

  /** A manifest that can be trusted: it says where everything is, and says nothing twice. */
  predicate Acceptable(finite: Finite, m: Manifest) {
    && HeadFits(m)
    && PartitionsFit(m, |m.partitions|)
    && (m.root.Some? ==> Archived(m, m.root.value))
    && ScriptsFit(finite, m, |m.scripts|)
  }

  function TableFiles(m: Manifest): seq<ArchivedFile> {
    if m.table.Some? then [ArchivedFile(PARTITION_TABLE_FILE, m.table.value.sha256)] else []
  }

  function PartitionPart(m: Manifest, n: nat): seq<ArchivedFile>
    requires n <= |m.partitions|
  {
    seq(n, i requires 0 <= i < n => ArchivedFile(m.partitions[i].file, m.partitions[i].sha256))
  }

  function ScriptPart(m: Manifest, n: nat): seq<ArchivedFile>
    requires n <= |m.scripts|
  {
    seq(n, i requires 0 <= i < n => ArchivedFile(m.scripts[i].file, m.scripts[i].sha256))
  }

  /** Every archived file, in the order of the manifest: the table, the partitions, the scripts. */
  function Files(m: Manifest): seq<ArchivedFile> {
    TableFiles(m) + PartitionPart(m, |m.partitions|) + ScriptPart(m, |m.scripts|)
  }

  /** The checksums of some files by name; a name listed again would replace the one before. */
  function MapOf(files: seq<ArchivedFile>): map<string, string> {
    if files == [] then map[]
    else
      var last := files[|files| - 1];
      MapOf(files[..|files| - 1])[last.file := last.sha256]
  }

  lemma {:induction false} InMapOf(files: seq<ArchivedFile>, name: string)
    ensures name in MapOf(files) <==> exists i :: 0 <= i < |files| && files[i].file == name
  {
    if files != [] {
      InMapOf(files[..|files| - 1], name);
    }
  }

  predicate NamesDiffer(files: seq<ArchivedFile>) {
    forall i, j :: 0 <= i < j < |files| ==> files[i].file != files[j].file
  }

  /** Files with different names get one key each, and keep their checksums. */
  lemma {:induction false} OneKeyEach(files: seq<ArchivedFile>)
    requires NamesDiffer(files)
    ensures |MapOf(files)| == |files|
    ensures forall i :: 0 <= i < |files| ==> files[i].file in MapOf(files) && MapOf(files)[files[i].file] == files[i].sha256
  {
    if files != [] {
      OneKeyEach(files[..|files| - 1]);
      InMapOf(files[..|files| - 1], files[|files| - 1].file);
    }
  }

  lemma PartitionFilesDiffer(a: int, b: int)
    requires PartitionFile(a) == PartitionFile(b)
    ensures a == b
  {
    var left, right := DecimalInt(a), DecimalInt(b);
    assert PartitionFile(a)[2..|PartitionFile(a)| - 4] == left && PartitionFile(b)[2..|PartitionFile(b)| - 4] == right;
    DecimalIntInjective(a, b);
  }

  lemma ScriptFilesDiffer(a: string, b: string)
    requires ScriptFile(a) == ScriptFile(b)
    ensures a == b
  {
    assert ScriptFile(a)[8..|ScriptFile(a)| - 3] == a && ScriptFile(b)[8..|ScriptFile(b)| - 3] == b;
  }

  lemma KindsOfFilesDiffer(number: int, name: string)
    ensures PartitionFile(number) != ScriptFile(name) && PartitionFile(number) != PARTITION_TABLE_FILE
    ensures ScriptFile(name) != PARTITION_TABLE_FILE && IsScriptFile(ScriptFile(name))
    ensures !IsScriptFile(PartitionFile(number)) && !IsScriptFile(PARTITION_TABLE_FILE)
  {
    assert PartitionFile(number)[1] == '-' && ScriptFile(name)[1] == 'c' && PARTITION_TABLE_FILE[1] == 'a';
    assert ScriptFile(name)[..7] == SCRIPTS_DIR && ScriptFile(name)[7] == '/';
    assert PARTITION_TABLE_FILE[..7][0] == 'p' && SCRIPTS_DIR[0] == 's';
    assert |PartitionFile(number)| > 7 ==> PartitionFile(number)[..7][0] == 'p';
  }

  // ----- the map of checksums ----------------------------------------------------------------------

  lemma MapOfOneMore(files: seq<ArchivedFile>, more: ArchivedFile)
    ensures MapOf(files + [more]) == MapOf(files)[more.file := more.sha256]
    ensures NamesDiffer(files) && more.file !in MapOf(files) ==> NamesDiffer(files + [more])
  {
    assert (files + [more])[..|files|] == files;
    if more.file !in MapOf(files) {
      InMapOf(files, more.file);
    }
  }

  function FilesWith(m: Manifest, partitions: nat, scripts: nat): seq<ArchivedFile>
    requires partitions <= |m.partitions| && scripts <= |m.scripts|
  {
    TableFiles(m) + PartitionPart(m, partitions) + ScriptPart(m, scripts)
  }

  lemma PartitionOneMore(m: Manifest, n: nat)
    requires n < |m.partitions|
    ensures FilesWith(m, n + 1, 0) == FilesWith(m, n, 0) + [ArchivedFile(m.partitions[n].file, m.partitions[n].sha256)]
  {
    var last := [ArchivedFile(m.partitions[n].file, m.partitions[n].sha256)];
    assert PartitionPart(m, n + 1) == PartitionPart(m, n) + last;
    assert TableFiles(m) + (PartitionPart(m, n) + last) == TableFiles(m) + PartitionPart(m, n) + last;
  }

  lemma ScriptOneMore(m: Manifest, n: nat)
    requires n < |m.scripts|
    ensures FilesWith(m, |m.partitions|, n + 1)
         == FilesWith(m, |m.partitions|, n) + [ArchivedFile(m.scripts[n].file, m.scripts[n].sha256)]
  {
    assert ScriptPart(m, n + 1) == ScriptPart(m, n) + [ArchivedFile(m.scripts[n].file, m.scripts[n].sha256)];
  }

  lemma FileAt(m: Manifest, partitions: nat, scripts: nat, at: nat)
    requires partitions <= |m.partitions| && scripts <= |m.scripts| && at < |FilesWith(m, partitions, scripts)|
    ensures var i := at - |TableFiles(m)|; var file := FilesWith(m, partitions, scripts)[at].file;
      if i < 0 then file == PARTITION_TABLE_FILE
      else if i < partitions then file == m.partitions[i].file
      else 0 <= i - partitions < scripts && file == m.scripts[i - partitions].file
  {
  }

  lemma FileIs(m: Manifest, partitions: nat, scripts: nat, i: nat)
    requires partitions <= |m.partitions| && scripts <= |m.scripts|
    ensures i < partitions ==> exists at :: 0 <= at < |FilesWith(m, partitions, scripts)|
                                && FilesWith(m, partitions, scripts)[at].file == m.partitions[i].file
    ensures i < scripts ==> exists at :: 0 <= at < |FilesWith(m, partitions, scripts)|
                                && FilesWith(m, partitions, scripts)[at].file == m.scripts[i].file
  {
    var files, table := FilesWith(m, partitions, scripts), |TableFiles(m)|;
    assert i < partitions ==> files[table + i].file == m.partitions[i].file;
    assert i < scripts ==> files[table + partitions + i].file == m.scripts[i].file;
  }

  /** A partition's file name is taken exactly when its number is. */
  lemma PartitionTaken(m: Manifest, n: nat)
    requires n < |m.partitions|
    requires forall i :: 0 <= i <= n ==> m.partitions[i].file == PartitionFile(m.partitions[i].number)
    ensures m.partitions[n].file in MapOf(FilesWith(m, n, 0))
       <==> exists i :: 0 <= i < n && m.partitions[i].number == m.partitions[n].number
  {
    var files, file := FilesWith(m, n, 0), m.partitions[n].file;
    InMapOf(files, file);
    if file in MapOf(files) {
      var at :| 0 <= at < |files| && files[at].file == file;
      FileAt(m, n, 0, at);
      KindsOfFilesDiffer(m.partitions[n].number, "");
      PartitionFilesDiffer(m.partitions[at - |TableFiles(m)|].number, m.partitions[n].number);
    }
    if i :| 0 <= i < n && m.partitions[i].number == m.partitions[n].number {
      FileIs(m, n, 0, i);
    }
  }

  /** A script's file name is taken exactly when its name is. */
  lemma ScriptTaken(m: Manifest, n: nat)
    requires n < |m.scripts|
    requires forall i :: 0 <= i < |m.partitions| ==> m.partitions[i].file == PartitionFile(m.partitions[i].number)
    requires forall i :: 0 <= i <= n ==> m.scripts[i].file == ScriptFile(m.scripts[i].name)
    ensures m.scripts[n].file in MapOf(FilesWith(m, |m.partitions|, n))
       <==> exists i :: 0 <= i < n && m.scripts[i].name == m.scripts[n].name
  {
    var files, file := FilesWith(m, |m.partitions|, n), m.scripts[n].file;
    InMapOf(files, file);
    if file in MapOf(files) {
      var at :| 0 <= at < |files| && files[at].file == file;
      FileAt(m, |m.partitions|, n, at);
      OnlyScripts(m, file, m.scripts[n].name);
      ScriptFilesDiffer(m.scripts[at - |TableFiles(m)| - |m.partitions|].name, m.scripts[n].name);
    }
    if i :| 0 <= i < n && m.scripts[i].name == m.scripts[n].name {
      FileIs(m, |m.partitions|, n, i);
    }
  }

  lemma OnlyScripts(m: Manifest, file: string, name: string)
    requires file == ScriptFile(name)
    requires forall i :: 0 <= i < |m.partitions| ==> m.partitions[i].file == PartitionFile(m.partitions[i].number)
    ensures file != PARTITION_TABLE_FILE && forall i :: 0 <= i < |m.partitions| ==> m.partitions[i].file != file
  {
    KindsOfFilesDiffer(0, name);
    forall i | 0 <= i < |m.partitions| ensures m.partitions[i].file != file {
      KindsOfFilesDiffer(m.partitions[i].number, name);
    }
  }

  /** What is collected so far: the files read, all with different names. */
  ghost predicate Collecting(m: Manifest, partitions: nat, scripts: nat, found: map<string, string>) {
    && partitions <= |m.partitions| && scripts <= |m.scripts|
    && found == MapOf(FilesWith(m, partitions, scripts)) && NamesDiffer(FilesWith(m, partitions, scripts))
  }

  predicate NumberTaken(m: Manifest, n: nat)
    requires n < |m.partitions|
  {
    exists i :: 0 <= i < n && m.partitions[i].number == m.partitions[n].number
  }

  lemma NumbersOneMore(m: Manifest, n: nat)
    requires n < |m.partitions| && PartitionsFit(m, n) && PartitionFits(m, m.partitions[n])
    ensures PartitionsFit(m, n + 1) <==> !NumberTaken(m, n)
  {
  }

  lemma FileTaken(m: Manifest, n: nat)
    requires n < |m.partitions| && PartitionsFit(m, n) && PartitionFits(m, m.partitions[n])
    ensures m.partitions[n].file in MapOf(FilesWith(m, n, 0)) <==> NumberTaken(m, n)
  {
    PartitionTaken(m, n);
  }

  lemma PartitionsFitOneMore(m: Manifest, n: nat)
    requires n < |m.partitions| && PartitionsFit(m, n) && PartitionFits(m, m.partitions[n])
    ensures PartitionsFit(m, n + 1) <==> m.partitions[n].file !in MapOf(FilesWith(m, n, 0))
  {
    NumbersOneMore(m, n);
    FileTaken(m, n);
  }

  lemma CollectingOneMore(m: Manifest, n: nat, found: map<string, string>)
    requires n < |m.partitions| && Collecting(m, n, 0, found) && m.partitions[n].file !in found
    ensures Collecting(m, n + 1, 0, found[m.partitions[n].file := m.partitions[n].sha256])
  {
    MapOfOneMore(FilesWith(m, n, 0), ArchivedFile(m.partitions[n].file, m.partitions[n].sha256));
    PartitionOneMore(m, n);
  }

  /** One partition's file joins the map unless its number is taken. */
  method AddPartition(m: Manifest, n: nat, found: map<string, string>) returns (more: Option<map<string, string>>)
    requires n < |m.partitions| && PartitionsFit(m, n) && Collecting(m, n, 0, found)
    ensures more.Some? <==> PartitionsFit(m, n + 1)
    ensures more.Some? ==> Collecting(m, n + 1, 0, more.value)
  {
    var p := m.partitions[n];
    if !PartitionFits(m, p) {
      return None;
    }
    PartitionsFitOneMore(m, n);
    if p.file in found {
      return None;
    }
    CollectingOneMore(m, n, found);
    more := Some(found[p.file := p.sha256]);
  }

  /** One script's file joins the map unless its name is taken. */
  method AddScript(finite: Finite, m: Manifest, n: nat, found: map<string, string>)
    returns (more: Option<map<string, string>>)
    requires n < |m.scripts| && PartitionsFit(m, |m.partitions|) && ScriptsFit(finite, m, n)
    requires Collecting(m, |m.partitions|, n, found)
    ensures more.Some? <==> ScriptsFit(finite, m, n + 1)
    ensures more.Some? ==> Collecting(m, |m.partitions|, n + 1, more.value)
  {
    var s := m.scripts[n];
    if !ScriptFits(finite, m, s) {
      return None;
    }
    ScriptTaken(m, n);
    if s.file in found {
      return None;
    }
    MapOfOneMore(FilesWith(m, |m.partitions|, n), ArchivedFile(s.file, s.sha256));
    ScriptOneMore(m, n);
    more := Some(found[s.file := s.sha256]);
  }

  method AddPartitions(m: Manifest, start: map<string, string>) returns (checksums: Option<map<string, string>>)
    requires Collecting(m, 0, 0, start)
    ensures checksums.Some? <==> PartitionsFit(m, |m.partitions|)
    ensures checksums.Some? ==> Collecting(m, |m.partitions|, 0, checksums.value)
  {
    var found, n := start, 0;
    while n < |m.partitions|
      invariant 0 <= n <= |m.partitions| && PartitionsFit(m, n) && Collecting(m, n, 0, found)
    {
      checksums := AddPartition(m, n, found);
      if checksums.None? {
        PartitionsFitBefore(m, n + 1);
        return;
      }
      found, n := checksums.value, n + 1;
    }
    checksums := Some(found);
  }

  lemma PartitionsFitBefore(m: Manifest, n: nat)
    requires n <= |m.partitions|
    ensures PartitionsFit(m, |m.partitions|) ==> PartitionsFit(m, n)
  {
  }

  method AddScripts(finite: Finite, m: Manifest, start: map<string, string>)
    returns (checksums: Option<map<string, string>>)
    requires PartitionsFit(m, |m.partitions|) && Collecting(m, |m.partitions|, 0, start)
    ensures checksums.Some? <==> ScriptsFit(finite, m, |m.scripts|)
    ensures checksums.Some? ==> Collecting(m, |m.partitions|, |m.scripts|, checksums.value)
  {
    var found, n := start, 0;
    while n < |m.scripts|
      invariant 0 <= n <= |m.scripts| && ScriptsFit(finite, m, n) && Collecting(m, |m.partitions|, n, found)
    {
      checksums := AddScript(finite, m, n, found);
      if checksums.None? {
        assert ScriptsFit(finite, m, |m.scripts|) ==> ScriptsFit(finite, m, n + 1);
        return;
      }
      found, n := checksums.value, n + 1;
    }
    checksums := Some(found);
  }

  /** The checksum of every archived file by its name, for exactly the acceptable manifests. */
  method Checksums(finite: Finite, m: Manifest) returns (checksums: Option<map<string, string>>)
    ensures checksums.Some? <==> Acceptable(finite, m)
    ensures checksums.Some? ==> checksums.value == MapOf(Files(m)) && NamesDiffer(Files(m))
  {
    if !HeadFits(m) {
      return None;
    }
    var start: map<string, string> := map[];
    if m.table.Some? {
      start := start[PARTITION_TABLE_FILE := m.table.value.sha256];
    }
    StartOfFiles(m);
    checksums := AddPartitions(m, start);
    if checksums.None? {
      return;
    }
    if m.root.Some? && !Archived(m, m.root.value) {
      return None;
    }
    checksums := AddScripts(finite, m, checksums.value);
  }

  lemma StartOfFiles(m: Manifest)
    ensures |FilesWith(m, 0, 0)| <= 1
    ensures FilesWith(m, 0, 0) == TableFiles(m) && FilesWith(m, |m.partitions|, |m.scripts|) == Files(m)
    ensures MapOf(TableFiles(m)) == if m.table.Some? then map[PARTITION_TABLE_FILE := m.table.value.sha256] else map[]
  {
    if m.table.Some? {
      assert TableFiles(m)[..0] == [];
    }
  }

}

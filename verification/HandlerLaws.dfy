/**
 What the request handlers accept and what they change, said of the rows and images themselves: when a
 handler refuses, and the one row or image that an accepted request touches.
 */
module HandlerLaws {
  import opened Options
  import opened TaskStore

  // ----- what stays the same -----------------------------------------------------------------------

  /** The one row becomes `row`; every other row and task stays. */
  ghost predicate OnlyRow(before: seq<Task>, after: seq<Task>, t: TaskId, host: HostId, row: HostRow) {
    && |after| == |before| && t < |before| && host in before[t].hosts
    && after[t] == before[t].(hosts := after[t].hosts) && after[t].hosts.Keys == before[t].hosts.Keys
    && (forall h :: h in before[t].hosts ==> after[t].hosts[h] == if h == host then row else before[t].hosts[h])
    && forall u :: 0 <= u < |before| && u != t ==> after[u] == before[u]
  }

  /** The one image becomes `image`; every other one stays. */
  ghost predicate OnlyImage(before: seq<Image>, after: seq<Image>, i: ImageId, image: Image) {
    && |after| == |before| && i < |before| && after[i] == image
    && forall j :: 0 <= j < |before| && j != i ==> after[j] == before[j]
  }

  /** The host's next task: an active row of it, before which no other one comes. */
  ghost predicate IsNext(s: Store, host: HostId, t: TaskId) {
    && t < |s.tasks| && host in s.tasks[t].hosts && s.tasks[t].hosts[host].state in {Pending, Running}
    && forall u :: 0 <= u < |s.tasks| && u != t && host in s.tasks[u].hosts ==>
         ComesBefore(s.tasks[t].hosts[host].state, t, s.tasks[u].hosts[host].state, u)
  }

  lemma NextIsNext(s: Store, host: HostId, t: TaskId)
    ensures GetNext(s.tasks, host) == Some(t) <==> IsNext(s, host, t)
  {
  }

  /** The image of a capture; there is one, since every capture has an image that exists. */
  ghost predicate CapturesInto(s: Store, t: TaskId, i: ImageId) {
    && t < |s.tasks| && s.tasks[t].kind in {Capture, CapturePartition}
    && s.tasks[t].image == Some(i) && i < |s.images|
  }

  function TwoTo(k: nat): nat {
    if k == 0 then 1 else 2 * TwoTo(k - 1)
  }

  ghost predicate IsPower(size: nat) {
    exists k :: 9 <= k <= 31 && size == TwoTo(k)
  }

  lemma Powers()
    ensures TwoTo(9) == 512 && TwoTo(10) == 1024 && TwoTo(11) == 2048 && TwoTo(12) == 4096
    ensures TwoTo(13) == 8192 && TwoTo(14) == 16384 && TwoTo(15) == 32768 && TwoTo(16) == 65536
    ensures TwoTo(17) == 131072 && TwoTo(18) == 262144 && TwoTo(19) == 524288 && TwoTo(20) == 1048576
    ensures TwoTo(21) == 2097152 && TwoTo(22) == 4194304 && TwoTo(23) == 8388608 && TwoTo(24) == 16777216
    ensures TwoTo(25) == 33554432 && TwoTo(26) == 67108864 && TwoTo(27) == 134217728 && TwoTo(28) == 268435456
    ensures TwoTo(29) == 536870912 && TwoTo(30) == 1073741824 && TwoTo(31) == 2147483648
  {
    assert TwoTo(4) == 16 && TwoTo(8) == 16 * TwoTo(4) && TwoTo(12) == 16 * TwoTo(8) && TwoTo(16) == 16 * TwoTo(12);
    assert TwoTo(20) == 16 * TwoTo(16) && TwoTo(24) == 16 * TwoTo(20) && TwoTo(28) == 16 * TwoTo(24);
  }

  /** A sector size is a power of two from 512 to 2^31. */
  lemma SectorSizesAre(size: nat)
    ensures ValidSectorSize(size) <==> IsPower(size)
  {
    Powers();
    if IsPower(size) {
      var k :| 9 <= k <= 31 && size == TwoTo(k);
      assert k == 9 || k == 10 || k == 11 || k == 12 || k == 13 || k == 14 || k == 15 || k == 16 || k == 17 ||
          k == 18 || k == 19 || k == 20 || k == 21 || k == 22 || k == 23 || k == 24 || k == 25 || k == 26 || k ==
          27 || k == 28 || k == 29 || k == 30 || k == 31;
    }
  }

  ghost predicate IsReady(s: Store, image: Option<ImageId>) {
    image.Some? && image.value < |s.images| && s.images[image.value].status == Ready
  }

  // ----- the agent's reports -----------------------------------------------------------------------

  /** A start is accepted for the host's next task, if that is no reboot, has an image, and that is ready or,
      for a capture, the sector size is sound; a multicast must run already. */
  lemma StartAccepts(s: Store, host: HostId, t: TaskId, sectorSize: Option<nat>)
    ensures Started(s, host, t, sectorSize).ok <==>
            && IsNext(s, host, t) && s.tasks[t].kind != Reboot && s.tasks[t].image.Some?
            && (if s.tasks[t].kind in {Capture, CapturePartition} then sectorSize.Some? && ValidSectorSize(sectorSize.value)
                else IsReady(s, s.tasks[t].image))
            && (s.tasks[t].kind in {Multicast, MulticastPartition} ==> s.tasks[t].hosts[host].state == Running)
    ensures !Started(s, host, t, sectorSize).ok ==> Started(s, host, t, sectorSize).store == s
  {
    NextIsNext(s, host, t);
  }

  /** It makes the row run, and the image of a capture starts anew. */
  lemma StartChanges(s: Store, host: HostId, t: TaskId, sectorSize: Option<nat>)
    requires Started(s, host, t, sectorSize).ok
    ensures var after := Started(s, host, t, sectorSize).store;
      && OnlyRow(s.tasks, after.tasks, t, host, s.tasks[t].hosts[host].(state := Running)) && after.imports == s.imports
      && (s.tasks[t].kind !in {Capture, CapturePartition} ==> after.images == s.images)
      && forall i: ImageId :: CapturesInto(s, t, i) ==>
           OnlyImage(s.images, after.images, i,
                     s.images[i].(status := Capturing, partitions := map[], root := None, table := false))
  {
    NextIsNext(s, host, t);
  }

  /** An image is a whole capture of the task's kind. */
  ghost predicate IsWhole(kind: TaskType, image: Image) {
    && image.partitions != map[]
    && (kind == CapturePartition ==> image.partitions.Keys == {1})
    && (kind == Capture ==> image.table)
  }

  /** Only the host's next task is finished; of others one that is done already is accepted, and nothing
      changes. */
  lemma FinishingAnother(s: Store, host: HostId, t: TaskId)
    requires !IsNext(s, host, t)
    ensures MarkFinished(s, host, t)
         == Reply(s, t < |s.tasks| && host in s.tasks[t].hosts && s.tasks[t].hosts[host].state == Done)
  {
    NextIsNext(s, host, t);
  }

  /** A task that captures nothing is done. */
  lemma FinishingPlain(s: Store, host: HostId, t: TaskId)
    requires IsNext(s, host, t) && forall i: ImageId :: !CapturesInto(s, t, i)
    ensures var reply := MarkFinished(s, host, t);
      && reply.ok && reply.store.images == s.images
      && OnlyRow(s.tasks, reply.store.tasks, t, host, s.tasks[t].hosts[host].(state := Done))
  {
    NextIsNext(s, host, t);
    assert s.tasks[t].image.Some? ==> !CapturesInto(s, t, s.tasks[t].image.value);
  }

  /** A whole capture is done and makes its image ready; any other fails, faults it and is refused. */
  lemma FinishingCapture(s: Store, host: HostId, t: TaskId, i: ImageId)
    requires IsNext(s, host, t) && CapturesInto(s, t, i)
    ensures var reply := MarkFinished(s, host, t);
      if IsWhole(s.tasks[t].kind, s.images[i]) then
        && reply.ok && OnlyImage(s.images, reply.store.images, i, s.images[i].(status := Ready))
        && OnlyRow(s.tasks, reply.store.tasks, t, host, s.tasks[t].hosts[host].(state := Done))
      else
        && !reply.ok && |reply.store.images| == |s.images| && reply.store.images[i].error.Some?
        && var error := reply.store.images[i].error;
           && OnlyImage(s.images, reply.store.images, i, s.images[i].(status := Faulted, error := error))
           && OnlyRow(s.tasks, reply.store.tasks, t, host, HostRow(Failed, error))
  {
    NextIsNext(s, host, t);
  }

  /** A failure fails the next task's row, and the image of a capture. */
  lemma FailureMeans(s: Store, host: HostId, t: TaskId, error: string)
    ensures var reply := MarkFailed(s, host, t, error);
      if !IsNext(s, host, t) then
        reply == Reply(s, t < |s.tasks| && host in s.tasks[t].hosts && s.tasks[t].hosts[host].state == Failed)
      else
        && reply.ok && OnlyRow(s.tasks, reply.store.tasks, t, host, HostRow(Failed, Some(error)))
        && (s.tasks[t].kind !in {Capture, CapturePartition} ==> reply.store.images == s.images)
        && forall i: ImageId :: CapturesInto(s, t, i) ==>
             OnlyImage(s.images, reply.store.images, i, s.images[i].(status := Faulted, error := Some(error)))
  {
    NextIsNext(s, host, t);
  }

  // ----- uploads -----------------------------------------------------------------------------------

  /** The host's next task is a capture of the image, and it runs. */
  ghost predicate RunsInto(s: Store, host: HostId, t: TaskId, i: ImageId) {
    IsNext(s, host, t) && CapturesInto(s, t, i) && AggregateState(s.tasks[t].hosts) == Running
  }

  lemma RunningCaptureMeans(s: Store, host: HostId, t: TaskId, i: ImageId, wholeDisk: bool)
    ensures RunningCapture(s, host, t, wholeDisk) == Some(i) <==>
            RunsInto(s, host, t, i) && (wholeDisk ==> s.tasks[t].kind == Capture)
  {
    NextIsNext(s, host, t);
  }

  /** A partition is stored for the image of a running capture that does not have it yet; for the capture of
      a single partition only with the number 1 and a filesystem. */
  lemma UploadMeans(s: Store, host: HostId, t: TaskId, i: ImageId, number: int, info: PartitionInfo)
    requires CapturesInto(s, t, i)
    ensures var reply := UploadPartition(s, host, t, number, info);
      if RunsInto(s, host, t, i) && number !in s.images[i].partitions
         && (s.tasks[t].kind == CapturePartition ==>
               number == 1 && info.fstype in {"ext2", "ext3", "ext4", "vfat", "btrfs"})
      then
        && reply.ok && reply.store.tasks == s.tasks
        && OnlyImage(s.images, reply.store.images, i,
                     s.images[i].(partitions := s.images[i].partitions[number := info]))
      else reply == Reply(s, false)
  {
    RunningCaptureMeans(s, host, t, i, false);
    if RunningCapture(s, host, t, false).Some? {
      RunningCaptureMeans(s, host, t, RunningCapture(s, host, t, false).value, false);
    }
    OneFsType(info.fstype);
  }

  lemma OneFsType(fstype: string)
    ensures fstype in PARTITION_FSTYPES <==> fstype in {"ext2", "ext3", "ext4", "vfat", "btrfs"}
  {
    assert PARTITION_FSTYPES[0] == "ext2" && PARTITION_FSTYPES[1] == "ext3" && PARTITION_FSTYPES[2] == "ext4"
        && PARTITION_FSTYPES[3] == "vfat" && PARTITION_FSTYPES[4] == "btrfs";
  }

  /** A partition table is stored for the image of a running capture of a whole disk. */
  lemma UploadTableMeans(s: Store, host: HostId, t: TaskId, i: ImageId)
    requires CapturesInto(s, t, i)
    ensures var reply := UploadTable(s, host, t);
      if RunsInto(s, host, t, i) && s.tasks[t].kind == Capture then
        reply.ok && reply.store.tasks == s.tasks && OnlyImage(s.images, reply.store.images, i, s.images[i].(table := true))
      else reply == Reply(s, false)
  {
    RunningCaptureMeans(s, host, t, i, true);
    if RunningCapture(s, host, t, true).Some? {
      RunningCaptureMeans(s, host, t, RunningCapture(s, host, t, true).value, true);
    }
  }

  /** The root of an image that is not deleted becomes one of its partitions, or none. */
  lemma RootMeans(s: Store, i: ImageId, number: Option<int>)
    ensures var reply := SetRoot(s, i, number);
      if i < |s.images| && !s.images[i].deleted && (number.Some? ==> number.value in s.images[i].partitions) then
        reply.ok && reply.store.tasks == s.tasks && OnlyImage(s.images, reply.store.images, i, s.images[i].(root := number))
      else reply == Reply(s, false)
  {
  }

  /** An agent sets the root of the image its running capture works on. */
  lemma ReportRootMeans(s: Store, host: HostId, t: TaskId, i: ImageId, number: int)
    requires CapturesInto(s, t, i)
    ensures ReportRoot(s, host, t, number)
         == if RunsInto(s, host, t, i) then SetRoot(s, i, Some(number)) else Reply(s, false)
  {
    RunningCaptureMeans(s, host, t, i, false);
    if RunningCapture(s, host, t, false).Some? {
      RunningCaptureMeans(s, host, t, RunningCapture(s, host, t, false).value, false);
    }
  }

  // ----- the dashboard -----------------------------------------------------------------------------

  /** All hosts asked for, each waiting. */
  ghost predicate AllPending(task: Task, hosts: set<HostId>) {
    task.hosts.Keys == hosts && forall h :: h in hosts ==> task.hosts[h] == HostRow(Pending, None)
  }

  /** A new image comes with the capture that fills it, on one host. */
  lemma CreateImageMeans(s: Store, kind: ImageKind, host: HostId)
    ensures var reply := CreateImage(s, kind, host);
      && reply.ok && |reply.store.tasks| == |s.tasks| + 1 && reply.store.tasks[..|s.tasks|] == s.tasks
      && reply.store.images == s.images + [Image(kind, Empty, map[], None, false, false, None)]
      && var task := reply.store.tasks[|s.tasks|];
         && task.kind == (if kind.Disk? then Capture else CapturePartition)
         && task.image == Some(|s.images|) && AllPending(task, {host})
  {
  }

  /** A restore needs a ready image that is not deleted; a reboot has none. */
  lemma CreateTaskMeans(s: Store, kind: TaskType, hosts: set<HostId>, image: Option<ImageId>)
    ensures var reply := CreateTask(s, kind, hosts, image);
      if kind == Reboot || (kind !in {Capture, CapturePartition} && IsReady(s, image) && !s.images[image.value].deleted)
      then
        && reply.ok && reply.store.images == s.images
        && |reply.store.tasks| == |s.tasks| + 1 && reply.store.tasks[..|s.tasks|] == s.tasks
        && var task := reply.store.tasks[|s.tasks|];
           && task.kind == kind && task.image == (if kind == Reboot then None else image) && AllPending(task, hosts)
      else reply == Reply(s, false)
  {
  }

  ghost predicate HasActive(task: Task) {
    exists h :: h in task.hosts && task.hosts[h].state in {Pending, Running}
  }

  /** Exactly the active rows are cancelled. */
  ghost predicate RowsCancelled(before: Task, after: Task) {
    && after == before.(hosts := after.hosts) && after.hosts.Keys == before.hosts.Keys
    && forall h :: h in before.hosts ==>
         after.hosts[h] == if before.hosts[h].state in {Pending, Running}
                           then before.hosts[h].(state := Cancelled) else before.hosts[h]
  }

  lemma CancelledMeans(s: Store, t: TaskId)
    requires t < |s.tasks|
    ensures var after := CancelActive(s, t);
      && |after.tasks| == |s.tasks| && RowsCancelled(s.tasks[t], after.tasks[t])
      && (forall u :: 0 <= u < |s.tasks| && u != t ==> after.tasks[u] == s.tasks[u])
      && (s.tasks[t].kind !in {Capture, CapturePartition} ==> after.images == s.images)
      && forall i: ImageId :: CapturesInto(s, t, i) ==>
           OnlyImage(s.images, after.images, i,
                     s.images[i].(status := Faulted, error := Some("Capture task was cancelled by user")))
  {
  }

  /** A task is cancelled if it has an active row, and otherwise nothing happens. */
  lemma CancelMeans(s: Store, t: TaskId)
    ensures CancelTask(s, t) ==
            if t < |s.tasks| && HasActive(s.tasks[t]) then Reply(CancelActive(s, t), true) else Reply(s, false)
  {
    if t < |s.tasks| {
      ActiveAggregate(s.tasks[t].hosts);
    }
  }

  /** A host is kicked from a multicast it runs, and from nothing else. */
  lemma KickMeans(s: Store, t: TaskId, host: HostId)
    ensures var reply := Kick(s, t, host);
      if t < |s.tasks| && s.tasks[t].kind in {Multicast, MulticastPartition} && host in s.tasks[t].hosts
         && s.tasks[t].hosts[host].state == Running
      then
        && reply.ok && reply.store.images == s.images
        && OnlyRow(s.tasks, reply.store.tasks, t, host, HostRow(Failed, Some("Kicked from the multicast by user")))
      else reply == Reply(s, false)
  {
  }

  /** A task is retried if no row is active, one failed or was cancelled, and its image is not deleted; then
      these rows wait again. */
  lemma RetryMeans(s: Store, t: TaskId)
    requires t < |s.tasks| ==> forall h :: h in s.tasks[t].hosts ==> s.tasks[t].hosts[h].state != Partial
    ensures var reply := RetryTask(s, t);
      if t < |s.tasks| && !HasActive(s.tasks[t])
         && (exists h :: h in s.tasks[t].hosts && s.tasks[t].hosts[h].state in {Failed, Cancelled})
         && !(s.tasks[t].image.Some? && s.tasks[t].image.value < |s.images| && s.images[s.tasks[t].image.value].deleted)
      then
        && reply.ok && reply.store.images == s.images && |reply.store.tasks| == |s.tasks|
        && (forall u :: 0 <= u < |s.tasks| && u != t ==> reply.store.tasks[u] == s.tasks[u])
        && reply.store.tasks[t] == s.tasks[t].(hosts := reply.store.tasks[t].hosts)
        && reply.store.tasks[t].hosts.Keys == s.tasks[t].hosts.Keys
        && forall h :: h in s.tasks[t].hosts ==>
             reply.store.tasks[t].hosts[h] == if s.tasks[t].hosts[h].state in {Failed, Cancelled}
                                              then HostRow(Pending, None) else s.tasks[t].hosts[h]
      else reply == Reply(s, false)
  {
    if t < |s.tasks| {
      ActiveAggregate(s.tasks[t].hosts);
      if !HasActive(s.tasks[t]) {
        SettledAggregate(s.tasks[t].hosts);
      }
    }
  }

  /** A task without active rows is done if and only if every row is, of which there is one. */
  lemma SettledAggregate(hosts: map<HostId, HostRow>)
    requires forall h :: h in hosts ==> hosts[h].state in {Done, Failed, Cancelled}
    ensures AggregateState(hosts) in {Cancelled, Failed, Partial} <==>
            hosts == map[] || exists h :: h in hosts && hosts[h].state in {Failed, Cancelled}
  {
  }

  /** A host without an active row is deleted, with all its rows. */
  lemma DeleteHostMeans(s: Store, host: HostId)
    ensures var reply := DeleteHost(s, host);
      if exists t :: 0 <= t < |s.tasks| && host in s.tasks[t].hosts && s.tasks[t].hosts[host].state in {Pending, Running}
      then reply == Reply(s, false)
      else
        && reply.ok && reply.store.images == s.images && |reply.store.tasks| == |s.tasks|
        && forall t :: 0 <= t < |s.tasks| ==>
             reply.store.tasks[t] == s.tasks[t].(hosts := s.tasks[t].hosts - {host})
  {
  }

  // ----- deleting an image -------------------------------------------------------------------------

  /** A deployment or multicast of the image that is not settled. */
  ghost predicate IsRestored(s: Store, i: ImageId) {
    exists t :: 0 <= t < |s.tasks| && s.tasks[t].image == Some(i) && HasActive(s.tasks[t])
      && s.tasks[t].kind !in {Capture, CapturePartition}
  }

  /** Of the first `n` tasks those of the image have their active rows cancelled; all else stays. */
  ghost predicate UsesCancelled(s: Store, after: Store, i: ImageId, n: nat) {
    && |after.tasks| == |s.tasks| && |after.images| == |s.images| && after.imports == s.imports && n <= |s.tasks|
    && (forall t :: 0 <= t < |s.tasks| ==>
          if t < n && s.tasks[t].image == Some(i) then RowsCancelled(s.tasks[t], after.tasks[t])
          else after.tasks[t] == s.tasks[t])
    && forall j :: 0 <= j < |s.images| && j != i ==> after.images[j] == s.images[j]
  }

  lemma NothingToCancel(task: Task)
    requires !HasActive(task)
    ensures RowsCancelled(task, task)
  {
  }

  lemma {:induction false} CancelUsesMeans(s: Store, i: ImageId, n: nat)
    requires n <= |s.tasks|
    ensures UsesCancelled(s, CancelUses(s, i, n), i, n)
    decreases n
  {
    if n > 0 {
      CancelUsesMeans(s, i, n - 1);
      OneUseMore(s, CancelUses(s, i, n - 1), i, n - 1);
    }
  }

  lemma OneUseMore(s: Store, earlier: Store, i: ImageId, n: nat)
    requires n < |s.tasks| && UsesCancelled(s, earlier, i, n)
    ensures UsesCancelled(s, if Uses(earlier.tasks[n], i) then CancelActive(earlier, n) else earlier, i, n + 1)
  {
    if Uses(earlier.tasks[n], i) {
      CancelledMeans(earlier, n);
    } else if s.tasks[n].image == Some(i) {
      NothingToCancel(s.tasks[n]);
    }
  }

  /** An image is deleted, with its partition table, unless a restore of it is not settled; its captures are
      cancelled and nothing else changes. */
  lemma DeleteImageMeans(s: Store, i: ImageId)
    ensures var reply := DeleteImage(s, i);
      if IsRestored(s, i) then reply == Reply(s, false)
      else
        && reply.ok && UsesCancelled(s, reply.store, i, |s.tasks|)
        && (i < |s.images| ==> reply.store.images[i].deleted && !reply.store.images[i].table)
  {
    RestoredMeans(s, i);
    CancelUsesMeans(s, i, |s.tasks|);
  }

  lemma RestoredMeans(s: Store, i: ImageId)
    ensures IsRestored(s, i) <==>
            exists t :: 0 <= t < |s.tasks| && Uses(s.tasks[t], i) && !Captures(s.tasks[t].kind)
  {
    if t :| 0 <= t < |s.tasks| && Uses(s.tasks[t], i) && !Captures(s.tasks[t].kind) {
      assert HasActive(s.tasks[t]);
    }
    if IsRestored(s, i) {
      var t :| 0 <= t < |s.tasks| && s.tasks[t].image == Some(i) && HasActive(s.tasks[t])
        && s.tasks[t].kind !in {Capture, CapturePartition};
      assert Uses(s.tasks[t], i);
    }
  }

  // ----- imports, the multicast worker and restarts ------------------------------------------------

  /** An import creates an image that it has yet to fill. */
  lemma StartImportMeans(s: Store, kind: ImageKind)
    ensures var after := StartImport(s, kind);
      && after.tasks == s.tasks && after.imports == s.imports + {|s.images|}
      && after.images == s.images + [Image(kind, Importing, map[], None, false, false, None)]
  {
  }

  /** What arrived intact makes a new image ready, unless it was deleted or has such partitions already;
      anything else faults it and leaves it without a partition table. */
  lemma EndImportMeans(s: Store, i: ImageId, imported: Option<Imported>)
    requires i in s.imports && i < |s.images|
    ensures var after := EndImport(s, i, imported);
      && after.tasks == s.tasks && after.imports == s.imports - {i}
      && if imported.Some? && !s.images[i].deleted
            && (forall number :: number in imported.value.partitions ==> number !in s.images[i].partitions)
         then
           && OnlyImage(s.images, after.images, i, after.images[i])
           && after.images[i] == s.images[i].(status := Ready, partitions := after.images[i].partitions,
                                              root := imported.value.root, table := imported.value.table)
           && after.images[i].partitions == s.images[i].partitions + imported.value.partitions
         else
           OnlyImage(s.images, after.images, i,
                     s.images[i].(status := Faulted, table := false, error := Some("import rejected")))
  {
    if imported.Some? {
      var added, stored := imported.value.partitions, s.images[i].partitions;
      if forall number :: number in added ==> number !in stored {
        assert forall number :: number in added.Keys ==> number !in stored.Keys;
        assert added.Keys !! stored.Keys;
      } else {
        var number :| number in added && number in stored;
        assert number in added.Keys && number in stored.Keys;
      }
    }
  }

  /** The worker moves one row of a multicast, if that is active, and nothing else. */
  lemma WorkerMeans(s: Store, t: TaskId, host: HostId, failure: Option<string>)
    ensures var reply := WorkerMoves(s, t, host, failure);
      if t < |s.tasks| && s.tasks[t].kind in {Multicast, MulticastPartition} then
        && reply.ok && reply.store.images == s.images && reply.store.imports == s.imports
        && if host in s.tasks[t].hosts && s.tasks[t].hosts[host].state in {Pending, Running} then
             OnlyRow(s.tasks, reply.store.tasks, t, host,
                     if failure.Some? then HostRow(Failed, failure) else s.tasks[t].hosts[host].(state := Running))
           else reply.store.tasks == s.tasks
      else reply == Reply(s, false)
  {
  }

  /** A restart fails the running rows of multicasts and the images being imported, and nothing else. */
  lemma RestartMeans(s: Store)
    ensures var after := Restart(s);
      && |after.tasks| == |s.tasks| && |after.images| == |s.images| && after.imports == {}
      && (forall t :: 0 <= t < |s.tasks| ==>
            && after.tasks[t] == s.tasks[t].(hosts := after.tasks[t].hosts)
            && after.tasks[t].hosts.Keys == s.tasks[t].hosts.Keys
            && forall h :: h in s.tasks[t].hosts ==>
                 after.tasks[t].hosts[h]
                 == if s.tasks[t].kind in {Multicast, MulticastPartition} && s.tasks[t].hosts[h].state == Running
                    then HostRow(Failed, Some("Server stopped while task was running")) else s.tasks[t].hosts[h])
      && forall i :: 0 <= i < |s.images| ==>
           after.images[i] == if s.images[i].status == Importing
                              then s.images[i].(status := Faulted, error := Some("import interrupted")) else s.images[i]
  {
  }

}

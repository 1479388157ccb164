/**
 What holds over whole runs of the server's handlers: an image that is ready is complete, has no
 capture left that could touch it and keeps its partitions until it is deleted; and the recorded
 outcome of a host stays until the task is retried.
 */
module ImageLifecycle {
  import opened Options
  import opened TaskStore

  // ----- the invariant -----------------------------------------------------------------------------

  ghost predicate IsCaptureOf(s: Store, t: TaskId, i: ImageId) {
    t < |s.tasks| && Captures(s.tasks[t].kind) && s.tasks[t].image == Some(i)
  }

  /** A capture works on an image of its kind for one host, and never on one that is being imported. */
  ghost predicate CaptureInv(s: Store, t: TaskId)
    requires t < |s.tasks|
  {
    Captures(s.tasks[t].kind) ==>
      && s.tasks[t].image.Some?
      && var i := s.tasks[t].image.value;
         && i < |s.images| && s.tasks[t].kind == CaptureOf(s.images[i].kind)
         && i !in s.imports
         && |s.tasks[t].hosts| <= 1
  }

  ghost predicate AllDone(hosts: map<HostId, HostRow>) {
    forall h :: h in hosts ==> hosts[h].state == Done
  }

  ghost predicate ImageInv(s: Store, i: ImageId)
    requires i < |s.images|
  {
    var image := s.images[i];
    && (image.root.Some? ==> image.root.value in image.partitions)
    && (i in s.imports ==> image.partitions == map[])
    && (image.status == Ready && !image.deleted ==>
          && Complete(image) && i !in s.imports
          && forall t :: 0 <= t < |s.tasks| && IsCaptureOf(s, t, i) ==> AllDone(s.tasks[t].hosts))
  }

  ghost predicate Inv(s: Store) {
    && (forall t :: 0 <= t < |s.tasks| ==> CaptureInv(s, t))
    && (forall t, u :: 0 <= t < u < |s.tasks| && Captures(s.tasks[t].kind) && Captures(s.tasks[u].kind) ==>
          s.tasks[t].image != s.tasks[u].image)
    && (forall i :: 0 <= i < |s.images| ==> ImageInv(s, i))
    && (forall i :: i in s.imports ==> i < |s.images|)
  }

  // ----- what each group of steps does ---------------------------------------------------------------

  /** The tasks are the same ones with the same or fewer hosts, and rows of finished captures stay. */
  ghost predicate SameTasks(before: seq<Task>, after: seq<Task>) {
    |before| == |after|
    && forall t :: 0 <= t < |before| ==>
         && after[t].kind == before[t].kind && after[t].image == before[t].image
         && after[t].hosts.Keys <= before[t].hosts.Keys
         && (AllDone(before[t].hosts) ==> AllDone(after[t].hosts))
  }

  lemma FewerHosts(before: map<HostId, HostRow>, after: map<HostId, HostRow>)
    requires after.Keys <= before.Keys
    ensures |after| <= |before|
  {
    SubsetIsSmaller(after.Keys, before.Keys);
    assert |after| == |after.Keys| && |before| == |before.Keys|;
  }

  lemma SubsetIsSmaller<T>(a: set<T>, b: set<T>)
    requires a <= b
    ensures |a| <= |b|
  {
    assert b == a + (b - a);
  }

  /** Steps on rows alone keep the invariant. */
  lemma RowsKeepInv(s: Store, tasks: seq<Task>)
    requires Inv(s) && SameTasks(s.tasks, tasks)
    ensures Inv(s.(tasks := tasks))
  {
    var after := s.(tasks := tasks);
    forall t | 0 <= t < |tasks| ensures CaptureInv(after, t) {
      assert CaptureInv(s, t);
      FewerHosts(s.tasks[t].hosts, tasks[t].hosts);
    }
    forall i | 0 <= i < |after.images| ensures ImageInv(after, i) {
      assert ImageInv(s, i);
      forall t | 0 <= t < |tasks| && IsCaptureOf(after, t, i) ensures IsCaptureOf(s, t, i) {}
    }
  }

  /** Replacing one image keeps the invariant when the new one is in order itself. */
  lemma ImageKeepsInv(s: Store, i: ImageId, image: Image)
    requires Inv(s) && i < |s.images| && image.kind == s.images[i].kind
    requires ImageInv(OnImage(s, i, image), i)
    ensures Inv(OnImage(s, i, image))
  {
    var after := OnImage(s, i, image);
    forall t | 0 <= t < |after.tasks| ensures CaptureInv(after, t) {
      assert CaptureInv(s, t);
    }
    forall j | 0 <= j < |after.images| ensures ImageInv(after, j) {
      assert ImageInv(s, j);
      if j != i {
        forall t | 0 <= t < |after.tasks| && IsCaptureOf(after, t, j) ensures IsCaptureOf(s, t, j) {}
      }
    }
  }

  lemma MovingARow(tasks: seq<Task>, t: TaskId, host: HostId, to: HostRow)
    ensures SameTasks(tasks, MoveRow(tasks, t, host, to))
  {
    if t < |tasks| && host in tasks[t].hosts && Active(tasks[t].hosts[host].state) {
      assert !AllDone(tasks[t].hosts);
    }
  }

  /** An active row of a capture means its image is not ready. */
  lemma ActiveCaptureImage(s: Store, t: TaskId, host: HostId)
    requires Inv(s) && t < |s.tasks| && Captures(s.tasks[t].kind)
    requires host in s.tasks[t].hosts && Active(s.tasks[t].hosts[host].state)
    ensures var task := s.tasks[t];
      && task.image.Some? && task.image.value < |s.images|
      && task.hosts.Keys == {host}
      && (s.images[task.image.value].status == Ready ==> s.images[task.image.value].deleted)
  {
    assert CaptureInv(s, t);
    var task := s.tasks[t];
    OnlyKey(task.hosts, host);
    assert ImageInv(s, task.image.value);
    assert IsCaptureOf(s, t, task.image.value);
  }

  lemma OnlyKey(hosts: map<HostId, HostRow>, host: HostId)
    requires |hosts| <= 1 && host in hosts
    ensures hosts.Keys == {host}
  {
    assert |hosts.Keys| == |hosts|;
    assert |hosts.Keys - {host}| == |hosts.Keys| - 1;
    assert hosts.Keys - {host} == {};
  }

  lemma FaultingKeepsInv(s: Store, i: ImageId, error: string)
    requires Inv(s)
    ensures Inv(MarkFaulted(s, i, error))
  {
    if i < |s.images| {
      assert ImageInv(s, i);
      ImageKeepsInv(s, i, s.images[i].(status := Faulted, error := Some(error)));
    }
  }

  lemma StartedKeepsInv(s: Store, host: HostId, t: TaskId, sectorSize: Option<nat>)
    requires Inv(s)
    ensures Inv(Started(s, host, t, sectorSize).store)
  {
    if GetNext(s.tasks, host) == Some(t) {
      var task := s.tasks[t];
      MovingARow(s.tasks, t, host, task.hosts[host].(state := Running));
      if Captures(task.kind) {
        ActiveCaptureImage(s, t, host);
        var i := task.image.value;
        ImageKeepsInv(s, i, StartCapture(s.images[i]));
        RowsKeepInv(OnImage(s, i, StartCapture(s.images[i])), StartRow(s.tasks, t, host));
      } else {
        RowsKeepInv(s, StartRow(s.tasks, t, host));
      }
    }
  }

  /** A capture that has stored everything turns its image ready, as the only task that could change it. */
  lemma FinishingKeepsInv(s: Store, host: HostId, t: TaskId)
    requires Inv(s) && GetNext(s.tasks, host) == Some(t)
    requires Captures(s.tasks[t].kind) && s.tasks[t].image.Some? && s.tasks[t].image.value < |s.images|
    requires Incomplete(s.tasks[t].kind, s.images[s.tasks[t].image.value]) == None
    ensures Inv(MarkFinished(s, host, t).store)
  {
    var task := s.tasks[t];
    var i := task.image.value;
    ActiveCaptureImage(s, t, host);
    var rows := s.(tasks := FinishRow(s.tasks, t, host));
    MovingARow(s.tasks, t, host, task.hosts[host].(state := Done));
    RowsKeepInv(s, rows.tasks);
    assert AllDone(rows.tasks[t].hosts);
    var image := s.images[i].(status := Ready);
    var after := OnImage(rows, i, image);
    assert CaptureInv(s, t) && ImageInv(s, i);
    forall u | 0 <= u < |after.tasks| && IsCaptureOf(after, u, i) ensures u == t {
      assert IsCaptureOf(s, u, i);
    }
    ImageKeepsInv(rows, i, image);
    assert MarkFinished(s, host, t).store == after;
  }

  lemma FinishedKeepsInv(s: Store, host: HostId, t: TaskId)
    requires Inv(s)
    ensures Inv(MarkFinished(s, host, t).store)
  {
    if GetNext(s.tasks, host) == Some(t) {
      var task := s.tasks[t];
      MovingARow(s.tasks, t, host, task.hosts[host].(state := Done));
      if Captures(task.kind) && task.image.Some? && task.image.value < |s.images| {
        var i := task.image.value;
        var incomplete := Incomplete(task.kind, s.images[i]);
        if incomplete.Some? {
          FaultingKeepsInv(s, i, incomplete.value);
          MovingARow(s.tasks, t, host, HostRow(Failed, incomplete));
          RowsKeepInv(MarkFaulted(s, i, incomplete.value), FailRow(s.tasks, t, host, incomplete.value));
        } else {
          FinishingKeepsInv(s, host, t);
        }
      } else {
        RowsKeepInv(s, FinishRow(s.tasks, t, host));
      }
    }
  }

  lemma FailedKeepsInv(s: Store, host: HostId, t: TaskId, error: string)
    requires Inv(s)
    ensures Inv(MarkFailed(s, host, t, error).store)
  {
    if GetNext(s.tasks, host) == Some(t) {
      var task := s.tasks[t];
      MovingARow(s.tasks, t, host, HostRow(Failed, Some(error)));
      if Captures(task.kind) && task.image.Some? {
        FaultingKeepsInv(s, task.image.value, error);
        RowsKeepInv(MarkFaulted(s, task.image.value, error), FailRow(s.tasks, t, host, error));
      } else {
        RowsKeepInv(s, FailRow(s.tasks, t, host, error));
      }
    }
  }

  /** Whatever a running capture may write to is not a ready image. */
  lemma RunningCaptureImage(s: Store, host: HostId, t: TaskId, wholeDisk: bool)
    requires Inv(s) && RunningCapture(s, host, t, wholeDisk).Some?
    ensures var i := RunningCapture(s, host, t, wholeDisk).value;
      i < |s.images| && i !in s.imports && (s.images[i].status == Ready ==> s.images[i].deleted)
  {
    assert CaptureInv(s, t);
    ActiveCaptureImage(s, t, host);
  }

  lemma UploadsKeepInv(s: Store, step: Step)
    requires Inv(s) && Enabled(s, step)
    requires step.AgentUploads? || step.AgentUploadsTable? || step.AgentReportsRoot? || step.SetsRoot?
    ensures Inv(Perform(s, step).store)
  {
    match step {
      case AgentUploads(host, t, number, info) =>
        var target := RunningCapture(s, host, t, false);
        if target.Some? {
          RunningCaptureImage(s, host, t, false);
          var image := s.images[target.value];
          assert ImageInv(s, target.value);
          ImageKeepsInv(s, target.value, image.(partitions := image.partitions[number := info]));
        }
      case AgentUploadsTable(host, t) =>
        var target := RunningCapture(s, host, t, true);
        if target.Some? {
          RunningCaptureImage(s, host, t, true);
          assert ImageInv(s, target.value);
          ImageKeepsInv(s, target.value, s.images[target.value].(table := true));
        }
      case AgentReportsRoot(host, t, number) =>
        var target := RunningCapture(s, host, t, false);
        if target.Some? {
          RootKeepsInv(s, target.value, Some(number));
        }
      case SetsRoot(i, root) => RootKeepsInv(s, i, root);
    }
  }

  lemma RootKeepsInv(s: Store, i: ImageId, number: Option<int>)
    requires Inv(s)
    ensures Inv(SetRoot(s, i, number).store)
  {
    if SetRoot(s, i, number).ok {
      assert ImageInv(s, i);
      var after := OnImage(s, i, s.images[i].(root := number));
      forall t | 0 <= t < |after.tasks| && IsCaptureOf(after, t, i) ensures IsCaptureOf(s, t, i) {}
      ImageKeepsInv(s, i, s.images[i].(root := number));
    }
  }

  lemma CreatingKeepsInv(s: Store, step: Step)
    requires Inv(s) && Enabled(s, step)
    requires step.CreatesImage? || step.CreatesTask? || step.StartsImport?
    ensures Inv(Perform(s, step).store)
  {
    var after := Perform(s, step).store;
    forall t | 0 <= t < |after.tasks| ensures CaptureInv(after, t) {
      if t < |s.tasks| {
        assert CaptureInv(s, t);
      } else if step.CreatesImage? {
        var hosts := PendingHosts({step.host});
        assert hosts.Keys == {step.host};
        assert |hosts| == |hosts.Keys|;
      }
    }
    forall i | 0 <= i < |after.images| ensures ImageInv(after, i) {
      if i < |s.images| {
        assert ImageInv(s, i);
        forall t | 0 <= t < |after.tasks| && IsCaptureOf(after, t, i) ensures IsCaptureOf(s, t, i) {}
      }
    }
    forall t, u | 0 <= t < u < |after.tasks| && Captures(after.tasks[t].kind) && Captures(after.tasks[u].kind)
      ensures after.tasks[t].image != after.tasks[u].image
    {
      assert CaptureInv(s, t);
    }
  }

  lemma CancellingKeepsInv(s: Store, t: TaskId)
    requires Inv(s) && t < |s.tasks|
    ensures Inv(CancelActive(s, t))
  {
    var task := s.tasks[t];
    var rows := WithHosts(s.tasks, t, CancelledHosts(task.hosts));
    assert SameTasks(s.tasks, rows);
    if Captures(task.kind) && task.image.Some? {
      var error := "Capture task was cancelled by user";
      FaultingKeepsInv(s, task.image.value, error);
      RowsKeepInv(MarkFaulted(s, task.image.value, error), rows);
    } else {
      RowsKeepInv(s, rows);
    }
  }

  lemma {:induction false} CancellingUsesKeepsInv(s: Store, i: ImageId, n: nat)
    requires Inv(s) && n <= |s.tasks|
    ensures Inv(CancelUses(s, i, n))
    decreases n
  {
    if n > 0 {
      CancellingUsesKeepsInv(s, i, n - 1);
      CancellingKeepsInv(CancelUses(s, i, n - 1), n - 1);
    }
  }

  lemma DeletingKeepsInv(s: Store, i: ImageId)
    requires Inv(s)
    ensures Inv(DeleteImage(s, i).store)
  {
    var cancelled := CancelUses(s, i, |s.tasks|);
    CancellingUsesKeepsInv(s, i, |s.tasks|);
    if i < |s.images| {
      assert ImageInv(cancelled, i);
      ImageKeepsInv(cancelled, i, cancelled.images[i].(deleted := true, table := false));
    }
  }

  /** Only a task that is neither active nor wholly done is retried, so never a finished capture. */
  lemma RetryingKeepsInv(s: Store, t: TaskId)
    requires Inv(s)
    ensures Inv(RetryTask(s, t).store)
  {
    if RetryTask(s, t).ok {
      var task := s.tasks[t];
      assert AllDone(task.hosts) && task.hosts != map[] ==> AggregateState(task.hosts) == Done;
      RowsKeepInv(s, WithHosts(s.tasks, t, ReopenedHosts(task.hosts)));
    }
  }

  lemma ImportingKeepsInv(s: Store, i: ImageId, imported: Option<Imported>)
    requires Inv(s) && Enabled(s, EndsImport(i, imported))
    ensures Inv(EndImport(s, i, imported))
  {
    var after := EndImport(s, i, imported);
    assert ImageInv(s, i);
    forall t | 0 <= t < |after.tasks| ensures CaptureInv(after, t) {
      assert CaptureInv(s, t);
    }
    forall j | 0 <= j < |after.images| ensures ImageInv(after, j) {
      assert ImageInv(s, j);
      forall t | 0 <= t < |after.tasks| && IsCaptureOf(after, t, j)
        ensures IsCaptureOf(s, t, j) && j != i
      {
        assert CaptureInv(s, t);
      }
    }
  }

  lemma OtherStepsKeepInv(s: Store, step: Step)
    requires Inv(s) && Enabled(s, step)
    requires step.Kicks? || step.Worker? || step.DeletesHost? || step.Restarts?
    ensures Inv(Perform(s, step).store)
  {
    match step {
      case Kicks(t, host) => FailingKeepsInv(s, t, host, "Kicked from the multicast by user");
      case Worker(t, host, failure) =>
        if failure.Some? {
          FailingKeepsInv(s, t, host, failure.value);
        } else {
          StartingKeepsInv(s, t, host);
        }
      case DeletesHost(host) => DeletingHostKeepsInv(s, host);
      case Restarts => RestartKeepsInv(s);
    }
  }

  lemma FailingKeepsInv(s: Store, t: TaskId, host: HostId, error: string)
    requires Inv(s)
    ensures Inv(s.(tasks := FailRow(s.tasks, t, host, error)))
  {
    MovingARow(s.tasks, t, host, HostRow(Failed, Some(error)));
    RowsKeepInv(s, FailRow(s.tasks, t, host, error));
  }

  lemma StartingKeepsInv(s: Store, t: TaskId, host: HostId)
    requires Inv(s)
    ensures Inv(s.(tasks := StartRow(s.tasks, t, host)))
  {
    if t < |s.tasks| && host in s.tasks[t].hosts {
      MovingARow(s.tasks, t, host, s.tasks[t].hosts[host].(state := Running));
    }
    RowsKeepInv(s, StartRow(s.tasks, t, host));
  }

  lemma DeletingHostKeepsInv(s: Store, host: HostId)
    requires Inv(s)
    ensures Inv(DeleteHost(s, host).store)
  {
    if GetNext(s.tasks, host).None? {
      RowsKeepInv(s, DeleteHost(s, host).store.tasks);
    }
  }

  lemma RestartKeepsInv(s: Store)
    requires Inv(s)
    ensures Inv(Restart(s))
  {
    RowsKeepInv(s, Restart(s).tasks);
    RestartedImages(s.(tasks := Restart(s).tasks));
    assert Restart(s) == Restart(s).(tasks := Restart(s).tasks);
  }

  lemma RestartedImages(s: Store)
    requires Inv(s)
    ensures Inv(Store(s.tasks, Restart(s).images, {}))
  {
    var after := Store(s.tasks, Restart(s).images, {});
    forall t | 0 <= t < |after.tasks| ensures CaptureInv(after, t) {
      assert CaptureInv(s, t);
    }
    forall i | 0 <= i < |after.images| ensures ImageInv(after, i) {
      assert ImageInv(s, i);
      forall t | 0 <= t < |after.tasks| && IsCaptureOf(after, t, i) ensures IsCaptureOf(s, t, i) {}
    }
  }

  lemma AgentsKeepInv(s: Store, step: Step)
    requires Inv(s) && (step.AgentStarted? || step.AgentFinished? || step.AgentFailed?)
    ensures Inv(Perform(s, step).store)
  {
    match step {
      case AgentStarted(host, t, sectorSize) => StartedKeepsInv(s, host, t, sectorSize);
      case AgentFinished(host, t) => FinishedKeepsInv(s, host, t);
      case AgentFailed(host, t, error) => FailedKeepsInv(s, host, t, error);
    }
  }

  lemma CancelsKeepInv(s: Store, t: TaskId)
    requires Inv(s)
    ensures Inv(CancelTask(s, t).store)
  {
    if t < |s.tasks| {
      CancellingKeepsInv(s, t);
    }
  }

  lemma UsersKeepInv(s: Store, step: Step)
    requires Inv(s) && Enabled(s, step)
    requires step.Cancels? || step.Retries? || step.DeletesImage? || step.EndsImport?
    ensures Inv(Perform(s, step).store)
  {
    match step {
      case Cancels(t) => CancelsKeepInv(s, t);
      case Retries(t) => RetryingKeepsInv(s, t);
      case DeletesImage(i) => DeletingKeepsInv(s, i);
      case EndsImport(i, imported) => ImportingKeepsInv(s, i, imported);
    }
  }

  lemma StepKeepsInv(s: Store, step: Step)
    requires Inv(s) && Enabled(s, step)
    ensures Inv(Perform(s, step).store)
  {
    if step.AgentStarted? || step.AgentFinished? || step.AgentFailed? {
      AgentsKeepInv(s, step);
    } else if step.AgentUploads? || step.AgentUploadsTable? || step.AgentReportsRoot? || step.SetsRoot? {
      UploadsKeepInv(s, step);
    } else if step.CreatesImage? || step.CreatesTask? || step.StartsImport? {
      CreatingKeepsInv(s, step);
    } else if step.Cancels? || step.Retries? || step.DeletesImage? || step.EndsImport? {
      UsersKeepInv(s, step);
    } else {
      OtherStepsKeepInv(s, step);
    }
  }

  // ----- ready images over whole runs --------------------------------------------------------------

  /** The image is still ready with the same partitions and table, or it has been deleted. */
  predicate Kept(before: Image, after: Image) {
    after.deleted
    || (after.status == Ready && after.kind == before.kind
        && after.partitions == before.partitions && after.table == before.table)
  }

  predicate Live(s: Store, i: ImageId) {
    i < |s.images| && s.images[i].status == Ready && !s.images[i].deleted
  }

  lemma {:induction false} CancelUsesTouchesOneImage(s: Store, i: ImageId, n: nat, j: ImageId)
    requires n <= |s.tasks| && j != i && j < |s.images|
    ensures CancelUses(s, i, n).images[j] == s.images[j]
    decreases n
  {
    if n > 0 {
      CancelUsesTouchesOneImage(s, i, n - 1, j);
    }
  }

  /** Nothing an agent reports reaches a live ready image. */
  lemma AgentsLeaveReadyImages(s: Store, step: Step, i: ImageId)
    requires Inv(s) && Live(s, i)
    requires step.AgentStarted? || step.AgentFinished? || step.AgentFailed?
    ensures var after := Perform(s, step).store; i < |after.images| && after.images[i] == s.images[i]
  {
    if GetNext(s.tasks, step.host) == Some(step.task) && Captures(s.tasks[step.task].kind) {
      ActiveCaptureImage(s, step.task, step.host);
    }
  }

  lemma UploadsLeaveReadyImages(s: Store, step: Step, i: ImageId)
    requires Inv(s) && Live(s, i)
    requires step.AgentUploads? || step.AgentUploadsTable? || step.AgentReportsRoot?
    ensures var after := Perform(s, step).store; i < |after.images| && after.images[i] == s.images[i]
  {
    if RunningCapture(s, step.host, step.task, step.AgentUploadsTable?).Some? {
      RunningCaptureImage(s, step.host, step.task, step.AgentUploadsTable?);
    }
  }

  lemma CancelsLeaveReadyImages(s: Store, t: TaskId, i: ImageId)
    requires Inv(s) && Live(s, i)
    ensures var after := CancelTask(s, t).store; i < |after.images| && after.images[i] == s.images[i]
  {
    if t < |s.tasks| && Active(AggregateState(s.tasks[t].hosts)) && Captures(s.tasks[t].kind) {
      ActiveTaskImage(s, t);
    }
  }

  lemma DeletionsLeaveOtherImages(s: Store, j: ImageId, i: ImageId)
    requires i < |s.images|
    ensures var after := DeleteImage(s, j).store;
      i < |after.images| && (after.images[i] == s.images[i] || (i == j && after.images[i].deleted))
  {
    if j != i {
      CancelUsesTouchesOneImage(s, j, |s.tasks|, i);
    }
  }

  lemma ReadyImageStays(s: Store, step: Step, i: ImageId)
    requires Inv(s) && Enabled(s, step) && Live(s, i)
    ensures i < |Perform(s, step).store.images|
    ensures Kept(s.images[i], Perform(s, step).store.images[i])
  {
    assert ImageInv(s, i);
    if step.AgentStarted? || step.AgentFinished? || step.AgentFailed? {
      AgentsLeaveReadyImages(s, step, i);
    } else if step.AgentUploads? || step.AgentUploadsTable? || step.AgentReportsRoot? {
      UploadsLeaveReadyImages(s, step, i);
    } else if step.Cancels? {
      CancelsLeaveReadyImages(s, step.task, i);
    } else if step.DeletesImage? {
      DeletionsLeaveOtherImages(s, step.target, i);
    } else {
      OthersLeaveReadyImages(s, step, i);
    }
  }

  lemma OthersLeaveReadyImages(s: Store, step: Step, i: ImageId)
    requires Inv(s) && Enabled(s, step) && Live(s, i) && ImageInv(s, i)
    requires step.CreatesImage? || step.CreatesTask? || step.Kicks? || step.Retries? || step.SetsRoot?
             || step.DeletesHost? || step.StartsImport? || step.EndsImport? || step.Worker? || step.Restarts?
    ensures var after := Perform(s, step).store; i < |after.images| && Kept(s.images[i], after.images[i])
  {
  }

  /** A task that can still be cancelled is not the capture of a ready image. */
  lemma ActiveTaskImage(s: Store, t: TaskId)
    requires Inv(s) && t < |s.tasks| && Active(AggregateState(s.tasks[t].hosts)) && Captures(s.tasks[t].kind)
    ensures s.tasks[t].image.Some? && !Live(s, s.tasks[t].image.value)
  {
    var host :| host in s.tasks[t].hosts && s.tasks[t].hosts[host].state in {Pending, Running};
    ActiveCaptureImage(s, t, host);
  }

  ghost predicate Run(s: Store, steps: seq<Step>, t: Store)
    decreases |steps|
  {
    if steps == [] then s == t
    else Enabled(s, steps[0]) && Run(Perform(s, steps[0]).store, steps[1..], t)
  }

  lemma StartIsInOrder()
    ensures Inv(START)
  {
  }

  lemma {:induction false} RunsKeepInv(s: Store, steps: seq<Step>, t: Store)
    requires Inv(s) && Run(s, steps, t)
    ensures Inv(t)
    decreases |steps|
  {
    if steps != [] {
      StepKeepsInv(s, steps[0]);
      RunsKeepInv(Perform(s, steps[0]).store, steps[1..], t);
    }
  }

  /** Whatever the handlers are asked to do, in whatever order: every live ready image is complete, no
      capture of it is active, its root is one of its partitions; and from the moment an image is ready
      its partitions and table do not change until it is deleted. */
  lemma {:induction false} ReadyImagesAreStable(s: Store, steps: seq<Step>, t: Store, i: ImageId)
    requires Inv(s) && Run(s, steps, t)
    ensures Live(t, i) ==> Complete(t.images[i])
    ensures Live(t, i) ==>
              && t.images[i].partitions != map[] && (t.images[i].kind == Disk ==> t.images[i].table)
              && (t.images[i].kind == Partition ==> t.images[i].partitions.Keys == {1})
    ensures Live(t, i) ==> forall u :: 0 <= u < |t.tasks| && IsCaptureOf(t, u, i) ==>
              !Any(t.tasks[u].hosts, {Pending, Running})
    ensures i < |t.images| && t.images[i].root.Some? ==> t.images[i].root.value in t.images[i].partitions
    ensures Live(s, i) ==> i < |t.images| && Kept(s.images[i], t.images[i])
    decreases |steps|
  {
    RunsKeepInv(s, steps, t);
    if i < |t.images| {
      assert ImageInv(t, i);
    }
    if Live(s, i) && steps != [] {
      StepKeepsInv(s, steps[0]);
      ReadyImageStays(s, steps[0], i);
      var next := Perform(s, steps[0]).store;
      if next.images[i].deleted {
        DeletedStaysDeleted(next, steps[1..], t, i);
      } else {
        ReadyImagesAreStable(next, steps[1..], t, i);
      }
    }
  }

  predicate ByAgent(step: Step) {
    step.AgentStarted? || step.AgentFinished? || step.AgentFailed? || step.AgentUploads? || step.AgentUploadsTable?
    || step.AgentReportsRoot?
  }

  lemma AgentsKeepDeleted(s: Store, step: Step, i: ImageId)
    requires ByAgent(step) && i < |s.images| && s.images[i].deleted
    ensures var after := Perform(s, step).store; i < |after.images| && after.images[i].deleted
  {
  }

  lemma OthersKeepDeleted(s: Store, step: Step, i: ImageId)
    requires Enabled(s, step) && !ByAgent(step) && !step.DeletesImage? && i < |s.images| && s.images[i].deleted
    ensures var after := Perform(s, step).store; i < |after.images| && after.images[i].deleted
  {
  }

  lemma DeletionIsFinal(s: Store, step: Step, i: ImageId)
    requires Enabled(s, step) && i < |s.images| && s.images[i].deleted
    ensures var after := Perform(s, step).store; i < |after.images| && after.images[i].deleted
  {
    if step.DeletesImage? {
      CancelUsesKeepsDeleted(s, step.target, |s.tasks|, i);
    } else if ByAgent(step) {
      AgentsKeepDeleted(s, step, i);
    } else {
      OthersKeepDeleted(s, step, i);
    }
  }

  lemma {:induction false} CancelUsesKeepsDeleted(s: Store, i: ImageId, n: nat, j: ImageId)
    requires n <= |s.tasks| && j < |s.images|
    ensures CancelUses(s, i, n).images[j].deleted == s.images[j].deleted
    decreases n
  {
    if n > 0 {
      CancelUsesKeepsDeleted(s, i, n - 1, j);
    }
  }

  lemma {:induction false} DeletedStaysDeleted(s: Store, steps: seq<Step>, t: Store, i: ImageId)
    requires Run(s, steps, t) && i < |s.images| && s.images[i].deleted
    ensures i < |t.images| && t.images[i].deleted
    decreases |steps|
  {
    if steps != [] {
      DeletionIsFinal(s, steps[0], i);
      DeletedStaysDeleted(Perform(s, steps[0]).store, steps[1..], t, i);
    }
  }

  // ----- a cancellation that comes too late --------------------------------------------------------

  /** The cancel handler reads the task and writes later. Its writes leave every ready image alone if
      and only if the task is not, by then, the finished capture of one. */
  lemma LateCancelKeepsReadyImages(s: Store, t: TaskId)
    requires Inv(s) && t < |s.tasks|
    ensures (forall i: nat :: Live(s, i) ==> Kept(s.images[i], CancelActive(s, t).images[i]))
        <==> !(Captures(s.tasks[t].kind) && s.tasks[t].image.Some? && Live(s, s.tasks[t].image.value))
    ensures Active(AggregateState(s.tasks[t].hosts)) ==>
              forall i: nat :: Live(s, i) ==> Kept(s.images[i], CancelActive(s, t).images[i])
  {
    var task := s.tasks[t];
    var after := CancelActive(s, t);
    if Captures(task.kind) && task.image.Some? && Live(s, task.image.value) {
      assert !Kept(s.images[task.image.value], after.images[task.image.value]);
      if Active(AggregateState(task.hosts)) {
        ActiveTaskImage(s, t);
      }
    } else {
      forall i: nat | Live(s, i) ensures Kept(s.images[i], after.images[i]) {}
    }
  }

  const FILESYSTEM := PartitionInfo("ext4", 1, None, None)

  function CapturedTask(state: TaskState): Task {
    Task(CapturePartition, map[7 := HostRow(state, None)], Some(0))
  }

  function CapturedImage(status: ImageStatus, partitions: map<int, PartitionInfo>): Image {
    Image(Partition, status, partitions, None, false, false, None)
  }

  /** A user asks to cancel a running capture, the capture finishes, and the cancellation's writes turn
      the ready image faulted. */
  lemma LateCancelFaultsAReadyImage()
    ensures var running := Store([CapturedTask(Running)], [CapturedImage(Capturing, map[1 := FILESYSTEM])], {});
      && Inv(running) && Active(AggregateState(running.tasks[0].hosts))
      && var finished := MarkFinished(running, 7, 0).store;
         Live(finished, 0) && CancelActive(finished, 0).images[0].status == Faulted
  {
    var running := Store([CapturedTask(Running)], [CapturedImage(Capturing, map[1 := FILESYSTEM])], {});
    var hosts := running.tasks[0].hosts;
    assert hosts.Keys == {7} && |hosts| == |hosts.Keys|;
    assert 7 in hosts && hosts[7].state == Running;
    assert forall t :: 0 <= t < 1 ==> CaptureInv(running, t);
    assert 1 in running.images[0].partitions;
    assert GetNext(running.tasks, 7) == Some(0);
    assert running.images[0].partitions.Keys == {1};
  }

  // ----- an upload that comes too late -------------------------------------------------------------

  lemma LateUploadKeepsInv(s: Store, t: TaskId, i: ImageId, number: int, info: PartitionInfo)
    requires Inv(s) && IsCaptureOf(s, t, i) && (s.tasks[t].kind == CapturePartition ==> number == 1)
    ensures Inv(SavePartition(s, i, number, info).store)
  {
    assert CaptureInv(s, t);
    if SavePartition(s, i, number, info).ok {
      assert ImageInv(s, i);
      var image := s.images[i].(partitions := s.images[i].partitions[number := info]);
      var after := OnImage(s, i, image);
      forall u | 0 <= u < |after.tasks| && IsCaptureOf(after, u, i) ensures IsCaptureOf(s, u, i) {}
      ImageKeepsInv(s, i, image);
    }
  }

  /** The upload handler checks that its capture is running, then receives the data, and only then records
      the partition. The write keeps what holds of tasks and images, and it leaves every ready image alone
      if and only if the capture's image is not ready by then or has that partition already; so it always
      does while the capture is running, and for the capture of a single partition. */
  lemma LateUploadKeepsReadyImages(s: Store, t: TaskId, i: ImageId, number: int, info: PartitionInfo)
    requires Inv(s) && IsCaptureOf(s, t, i) && (s.tasks[t].kind == CapturePartition ==> number == 1)
    ensures var after := SavePartition(s, i, number, info).store;
      && Inv(after)
      && ((forall j: nat :: Live(s, j) ==> Kept(s.images[j], after.images[j]))
          <==> !Live(s, i) || number in s.images[i].partitions)
    ensures s.tasks[t].kind == CapturePartition || Any(s.tasks[t].hosts, {Pending, Running}) ==>
              !Live(s, i) || number in s.images[i].partitions
  {
    LateUploadKeepsInv(s, t, i, number, info);
    assert CaptureInv(s, t) && ImageInv(s, i);
    var after := SavePartition(s, i, number, info).store;
    if Live(s, i) && number !in s.images[i].partitions {
      assert number in after.images[i].partitions;
    }
  }

  const WHOLE_DISK := Task(Capture, map[7 := HostRow(Running, None)], Some(0))

  /** Two uploads of a capture are under way when the agent reports it finished: one is recorded before
      the report, the other adds a partition to the ready image after it. */
  lemma LateUploadChangesAReadyImage()
    ensures var running := Store([WHOLE_DISK], [Image(Disk, Capturing, map[1 := FILESYSTEM], None, true, false, None)], {});
      && Inv(running) && UploadPartition(running, 7, 0, 2, FILESYSTEM).ok
      && var finished := MarkFinished(running, 7, 0).store;
         && Live(finished, 0) && finished.images[0].partitions == map[1 := FILESYSTEM]
         && SavePartition(finished, 0, 2, FILESYSTEM).store.images[0].partitions == map[1 := FILESYSTEM, 2 := FILESYSTEM]
  {
    var running := Store([WHOLE_DISK], [Image(Disk, Capturing, map[1 := FILESYSTEM], None, true, false, None)], {});
    var hosts := running.tasks[0].hosts;
    assert hosts.Keys == {7} && |hosts| == |hosts.Keys|;
    assert 7 in hosts && hosts[7].state == Running;
    assert forall t :: 0 <= t < 1 ==> CaptureInv(running, t);
    assert 1 in running.images[0].partitions;
    assert GetNext(running.tasks, 7) == Some(0);
    SingleHostAggregate(hosts, 7);
  }

  // ----- recorded outcomes -------------------------------------------------------------------------

  predicate Terminal(state: TaskState) {
    state == Done || state == Failed || state == Cancelled
  }

  predicate Recorded(s: Store, t: TaskId, host: HostId) {
    t < |s.tasks| && host in s.tasks[t].hosts && Terminal(s.tasks[t].hosts[host].state)
  }

  predicate LeavesOutcome(step: Step, t: TaskId, host: HostId) {
    step != Retries(t) && step != DeletesHost(host)
  }

  predicate SameRow(s: Store, after: Store, t: TaskId, host: HostId)
    requires t < |s.tasks| && host in s.tasks[t].hosts
  {
    t < |after.tasks| && host in after.tasks[t].hosts && after.tasks[t].hosts[host] == s.tasks[t].hosts[host]
  }

  lemma AgentsKeepOutcome(s: Store, step: Step, t: TaskId, host: HostId)
    requires ByAgent(step) && Recorded(s, t, host)
    ensures SameRow(s, Perform(s, step).store, t, host)
  {
  }

  lemma OthersKeepOutcome(s: Store, step: Step, t: TaskId, host: HostId)
    requires Enabled(s, step) && Recorded(s, t, host) && LeavesOutcome(step, t, host)
    requires !ByAgent(step) && !step.DeletesImage?
    ensures SameRow(s, Perform(s, step).store, t, host)
  {
  }

  /** Apart from a retry of its task and the deletion of the host, no step touches a recorded outcome. */
  lemma OutcomeStays(s: Store, step: Step, t: TaskId, host: HostId)
    requires Enabled(s, step) && Recorded(s, t, host)
    requires LeavesOutcome(step, t, host)
    ensures SameRow(s, Perform(s, step).store, t, host)
  {
    if step.DeletesImage? {
      CancelUsesKeepsOutcome(s, step.target, |s.tasks|, t, host);
    } else if ByAgent(step) {
      AgentsKeepOutcome(s, step, t, host);
    } else {
      OthersKeepOutcome(s, step, t, host);
    }
  }

  lemma {:induction false} CancelUsesKeepsOutcome(s: Store, i: ImageId, n: nat, t: TaskId, host: HostId)
    requires n <= |s.tasks| && Recorded(s, t, host)
    ensures var after := CancelUses(s, i, n);
      host in after.tasks[t].hosts && after.tasks[t].hosts[host] == s.tasks[t].hosts[host]
    decreases n
  {
    if n > 0 {
      CancelUsesKeepsOutcome(s, i, n - 1, t, host);
    }
  }

  /** Over any run without a retry of the task, and without deleting the host, the outcome stays. */
  lemma {:induction false} OutcomesAreStable(s: Store, steps: seq<Step>, after: Store, t: TaskId, host: HostId)
    requires Run(s, steps, after)
    requires t < |s.tasks| && host in s.tasks[t].hosts && s.tasks[t].hosts[host].state in {Done, Failed, Cancelled}
    requires forall k :: 0 <= k < |steps| ==> steps[k] != Retries(t) && steps[k] != DeletesHost(host)
    ensures t < |after.tasks| && host in after.tasks[t].hosts
            && after.tasks[t].hosts[host] == s.tasks[t].hosts[host]
    decreases |steps|
  {
    if steps != [] {
      OutcomeStays(s, steps[0], t, host);
      OutcomesAreStable(Perform(s, steps[0]).store, steps[1..], after, t, host);
    }
  }

  /** Repeating the recorded report is accepted, any other one is refused, and neither writes. */
  lemma RepeatedReports(s: Store, t: TaskId, host: HostId, error: string, sectorSize: Option<nat>)
    requires Recorded(s, t, host)
    ensures MarkFinished(s, host, t) == Reply(s, s.tasks[t].hosts[host].state == Done)
    ensures MarkFailed(s, host, t, error) == Reply(s, s.tasks[t].hosts[host].state == Failed)
    ensures Started(s, host, t, sectorSize) == Reply(s, false)
  {
  }

  /** A retry reopens a row exactly when it failed or was cancelled. */
  lemma RetryReopens(s: Store, t: TaskId, host: HostId)
    requires Recorded(s, t, host) && RetryTask(s, t).ok
    ensures var row := RetryTask(s, t).store.tasks[t].hosts[host];
      row == if s.tasks[t].hosts[host].state == Done then s.tasks[t].hosts[host] else HostRow(Pending, None)
  {
  }

}

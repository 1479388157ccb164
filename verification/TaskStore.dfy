/**
 The server's tasks and images as the database and the image directory hold them, and the request
 handlers that change them. A handler's reads and writes are one step. Tasks and images are never
 removed (images are deleted softly), so both are numbered by their position, oldest first.
 */
module TaskStore {
  import opened Options

  type HostId = int
  type TaskId = nat
  type ImageId = nat

  datatype TaskState = Pending | Running | Done | Failed | Cancelled | Partial

  datatype TaskType =
    | Capture | CapturePartition
    | Deploy | DeployPartition
    | Multicast | MulticastPartition
    | Reboot

  datatype HostRow = HostRow(state: TaskState, error: Option<string>)

  datatype Task = Task(kind: TaskType, hosts: map<HostId, HostRow>, image: Option<ImageId>)

  datatype ImageKind = Disk | Partition

  datatype ImageStatus = Empty | Capturing | Importing | Ready | Faulted

  datatype PartitionInfo = PartitionInfo(fstype: string, size: nat, fsUuid: Option<string>, fsLabel: Option<string>)

  /** `table` says whether a partition table file is stored for the image. */
  datatype Image = Image(
    kind: ImageKind, status: ImageStatus, partitions: map<int, PartitionInfo>, root: Option<int>,
    table: bool, deleted: bool, error: Option<string>)

  /** `imports` are the images that a running import has yet to finish or discard. */
  datatype Store = Store(tasks: seq<Task>, images: seq<Image>, imports: set<ImageId>)

  const START := Store([], [], {})

  predicate Captures(kind: TaskType) {
    kind == Capture || kind == CapturePartition
  }

  predicate Multicasts(kind: TaskType) {
    kind == Multicast || kind == MulticastPartition
  }

  predicate Restores(kind: TaskType) {
    kind == Deploy || kind == DeployPartition || Multicasts(kind)
  }

  function CaptureOf(kind: ImageKind): TaskType {
    if kind.Disk? then Capture else CapturePartition
  }

  predicate Active(state: TaskState) {
    state == Pending || state == Running
  }

  // ----- the state of a whole task -----------------------------------------------------------------

  predicate Any(hosts: map<HostId, HostRow>, states: set<TaskState>) {
    exists h :: h in hosts && hosts[h].state in states
  }

  function AggregateState(hosts: map<HostId, HostRow>): TaskState {
    if hosts == map[] then Cancelled
    else if Any(hosts, {Pending, Running}) then
      if Any(hosts, {Running, Done, Failed, Cancelled, Partial}) then Running else Pending
    else if !Any(hosts, {Failed, Cancelled, Partial}) then Done
    else if !Any(hosts, {Done, Failed, Partial}) then Cancelled
    else if !Any(hosts, {Done}) then Failed
    else Partial
  }

  /** For a task of one host the aggregate is that host's state. */
  lemma SingleHostAggregate(hosts: map<HostId, HostRow>, h: HostId)
    requires hosts.Keys == {h} && hosts[h].state != Partial
    ensures AggregateState(hosts) == hosts[h].state
  {
    assert h in hosts;
    assert hosts != map[];
  }

  /** A task can be cancelled exactly while one of its rows is active. */
  lemma ActiveAggregate(hosts: map<HostId, HostRow>)
    ensures Active(AggregateState(hosts)) <==> Any(hosts, {Pending, Running})
  {
  }

  /** What the state of a whole task says of its rows. */
  lemma AggregateMeans(hosts: map<HostId, HostRow>)
    requires forall h :: h in hosts ==> hosts[h].state != Partial
    ensures AggregateState(hosts) == Pending <==> hosts != map[] && forall h :: h in hosts ==> hosts[h].state == Pending
    ensures AggregateState(hosts) == Done <==> hosts != map[] && forall h :: h in hosts ==> hosts[h].state == Done
    ensures AggregateState(hosts) == Cancelled <==> forall h :: h in hosts ==> hosts[h].state == Cancelled
    ensures AggregateState(hosts) == Running <==>
            && (exists h :: h in hosts && Active(hosts[h].state)) && exists h :: h in hosts && hosts[h].state != Pending
    ensures AggregateState(hosts) == Partial <==>
            && (forall h :: h in hosts ==> !Active(hosts[h].state))
            && (exists h :: h in hosts && hosts[h].state == Done) && exists h :: h in hosts && hosts[h].state != Done
    ensures AggregateState(hosts) == Failed <==>
            && (forall h :: h in hosts ==> hosts[h].state == Failed || hosts[h].state == Cancelled)
            && exists h :: h in hosts && hosts[h].state == Failed
  {
    assert (forall h :: h !in hosts.Keys) ==> hosts.Keys == {};
  }

  // ----- the task repository -----------------------------------------------------------------------

  function FirstTask(tasks: seq<Task>, host: HostId, state: TaskState): (first: Option<TaskId>)
    ensures first.Some? ==> first.value < |tasks| && host in tasks[first.value].hosts
                            && tasks[first.value].hosts[host].state == state
    ensures first.Some? ==> forall t :: 0 <= t < first.value ==>
              host !in tasks[t].hosts || tasks[t].hosts[host].state != state
    ensures first.None? ==> forall t :: 0 <= t < |tasks| ==>
              host !in tasks[t].hosts || tasks[t].hosts[host].state != state
  {
    if tasks == [] then None
    else
      var last := |tasks| - 1;
      var earlier := FirstTask(tasks[..last], host, state);
      if earlier.Some? then earlier
      else if host in tasks[last].hosts && tasks[last].hosts[host].state == state then Some(last)
      else None
  }

  /** A row that is running comes before a pending one, and an older one before a newer one like it; rows
      that are not active come last. */
  predicate ComesBefore(state: TaskState, t: TaskId, other: TaskState, u: TaskId) {
    !Active(other) || (state == Running && other == Pending) || (state == other && t < u)
  }

  /** The host's next task: a running one before a pending one, the oldest first. */
  function GetNext(tasks: seq<Task>, host: HostId): (next: Option<TaskId>)
    ensures next.Some? ==> next.value < |tasks| && host in tasks[next.value].hosts
                           && Active(tasks[next.value].hosts[host].state)
    ensures next.Some? ==> forall t :: 0 <= t < |tasks| && host in tasks[t].hosts && t != next.value ==>
              ComesBefore(tasks[next.value].hosts[host].state, next.value, tasks[t].hosts[host].state, t)
    ensures next.None? ==> forall t :: 0 <= t < |tasks| && host in tasks[t].hosts ==>
              !Active(tasks[t].hosts[host].state)
  {
    var running := FirstTask(tasks, host, Running);
    if running.Some? then running else FirstTask(tasks, host, Pending)
  }

  /** Moves one host's row, provided it is still active. */
  function MoveRow(tasks: seq<Task>, t: TaskId, host: HostId, to: HostRow): seq<Task> {
    if t < |tasks| && host in tasks[t].hosts && Active(tasks[t].hosts[host].state)
    then tasks[t := tasks[t].(hosts := tasks[t].hosts[host := to])]
    else tasks
  }

  function StartRow(tasks: seq<Task>, t: TaskId, host: HostId): seq<Task> {
    if t < |tasks| && host in tasks[t].hosts
    then MoveRow(tasks, t, host, tasks[t].hosts[host].(state := Running)) else tasks
  }

  function FinishRow(tasks: seq<Task>, t: TaskId, host: HostId): seq<Task> {
    if t < |tasks| && host in tasks[t].hosts
    then MoveRow(tasks, t, host, tasks[t].hosts[host].(state := Done)) else tasks
  }

  function FailRow(tasks: seq<Task>, t: TaskId, host: HostId, error: string): seq<Task> {
    MoveRow(tasks, t, host, HostRow(Failed, Some(error)))
  }

  function CancelledHosts(hosts: map<HostId, HostRow>): map<HostId, HostRow> {
    map h | h in hosts :: if Active(hosts[h].state) then hosts[h].(state := Cancelled) else hosts[h]
  }

  function ReopenedHosts(hosts: map<HostId, HostRow>): map<HostId, HostRow> {
    map h | h in hosts ::
      if hosts[h].state == Failed || hosts[h].state == Cancelled then HostRow(Pending, None) else hosts[h]
  }

  function WithHosts(tasks: seq<Task>, t: TaskId, hosts: map<HostId, HostRow>): seq<Task>
    requires t < |tasks|
  {
    tasks[t := tasks[t].(hosts := hosts)]
  }

  // ----- the image repository ----------------------------------------------------------------------

  function OnImage(s: Store, i: ImageId, image: Image): Store {
    if i < |s.images| then s.(images := s.images[i := image]) else s
  }

  function StartCapture(image: Image): Image {
    image.(status := Capturing, partitions := map[], root := None, table := false)
  }

  function MarkFaulted(s: Store, i: ImageId, error: string): Store {
    if i < |s.images| then OnImage(s, i, s.images[i].(status := Faulted, error := Some(error))) else s
  }

  /** What a capture must have stored before its image can become ready. */
  predicate Complete(image: Image) {
    image.partitions != map[]
    && (image.kind.Partition? ==> image.partitions.Keys == {1})
    && (image.kind.Disk? ==> image.table)
  }

  // ----- the agent's handlers ----------------------------------------------------------------------

  datatype Reply = Reply(store: Store, ok: bool)

  function Refuse(s: Store): Reply {
    Reply(s, false)
  }

  function Accept(s: Store): Reply {
    Reply(s, true)
  }

  predicate ValidSectorSize(size: nat) {
    size in {512, 1024, 2048, 4096, 8192, 16384, 32768, 65536, 131072, 262144, 524288, 1048576, 2097152,
             4194304, 8388608, 16777216, 33554432, 67108864, 134217728, 268435456, 536870912, 1073741824,
             2147483648}
  }

  function Started(s: Store, host: HostId, t: TaskId, sectorSize: Option<nat>): Reply {
    if GetNext(s.tasks, host) != Some(t) then Refuse(s)
    else
      var task := s.tasks[t];
      var running := task.hosts[host].state == Running;
      if task.kind == Reboot || task.image.None? then Refuse(s)
      else if Captures(task.kind) then
        if sectorSize.None? || !ValidSectorSize(sectorSize.value) then Refuse(s)
        else
          var image := task.image.value;
          var cleared := if image < |s.images| then OnImage(s, image, StartCapture(s.images[image])) else s;
          if running then Accept(cleared) else Accept(cleared.(tasks := StartRow(s.tasks, t, host)))
      else if task.image.value >= |s.images| || s.images[task.image.value].status != Ready then Refuse(s)
      else if Multicasts(task.kind) then (if running then Accept(s) else Refuse(s))
      else Accept(s.(tasks := StartRow(s.tasks, t, host)))
  }

  datatype ToSettle = Settle | Already | NotNext

  function TaskToSettle(s: Store, host: HostId, t: TaskId, outcome: TaskState): ToSettle {
    if GetNext(s.tasks, host) == Some(t) then Settle
    else if t < |s.tasks| && host in s.tasks[t].hosts && s.tasks[t].hosts[host].state == outcome then Already
    else NotNext
  }

  function Incomplete(kind: TaskType, image: Image): Option<string> {
    if image.partitions == map[] then Some("Capture finished without any partitions")
    else if kind == CapturePartition && image.partitions.Keys != {1} then
      Some("A partition capture must store exactly partition 1")
    else if kind == Capture && !image.table then Some("Capture finished without a partition table")
    else None
  }

  function MarkFinished(s: Store, host: HostId, t: TaskId): Reply {
    match TaskToSettle(s, host, t, Done)
    case Already => Accept(s)
    case NotNext => Refuse(s)
    case Settle =>
      var task := s.tasks[t];
      if Captures(task.kind) && task.image.Some? && task.image.value < |s.images| then
        var i := task.image.value;
        var incomplete := Incomplete(task.kind, s.images[i]);
        if incomplete.Some? then
          Refuse(MarkFaulted(s, i, incomplete.value).(tasks := FailRow(s.tasks, t, host, incomplete.value)))
        else
          Accept(OnImage(s, i, s.images[i].(status := Ready)).(tasks := FinishRow(s.tasks, t, host)))
      else Accept(s.(tasks := FinishRow(s.tasks, t, host)))
  }

  function MarkFailed(s: Store, host: HostId, t: TaskId, error: string): Reply {
    match TaskToSettle(s, host, t, Failed)
    case Already => Accept(s)
    case NotNext => Refuse(s)
    case Settle =>
      var task := s.tasks[t];
      var faulted := if Captures(task.kind) && task.image.Some? then MarkFaulted(s, task.image.value, error) else s;
      Accept(faulted.(tasks := FailRow(s.tasks, t, host, error)))
  }

  /** The image a running capture may still write to. */
  function RunningCapture(s: Store, host: HostId, t: TaskId, wholeDisk: bool): Option<ImageId> {
    if GetNext(s.tasks, host) != Some(t) then None
    else
      var task := s.tasks[t];
      if task.image.None? || task.image.value >= |s.images| then None
      else if !(if wholeDisk then task.kind == Capture else Captures(task.kind)) then None
      else if AggregateState(task.hosts) != Running then None
      else task.image
  }

  const PARTITION_FSTYPES: seq<string> := ["ext2", "ext3", "ext4", "vfat", "btrfs"]

  /** The write of an upload: a new partition of the image, whatever has become of the capture. */
  function SavePartition(s: Store, i: ImageId, number: int, info: PartitionInfo): Reply {
    if i >= |s.images| || number in s.images[i].partitions then Refuse(s)
    else Accept(OnImage(s, i, s.images[i].(partitions := s.images[i].partitions[number := info])))
  }

  function UploadPartition(s: Store, host: HostId, t: TaskId, number: int, info: PartitionInfo): Reply {
    var target := RunningCapture(s, host, t, false);
    if target.None? then Refuse(s)
    else if s.tasks[t].kind == CapturePartition && (number != 1 || info.fstype !in PARTITION_FSTYPES) then Refuse(s)
    else SavePartition(s, target.value, number, info)
  }

  function UploadTable(s: Store, host: HostId, t: TaskId): Reply {
    var target := RunningCapture(s, host, t, true);
    if target.None? then Refuse(s) else Accept(OnImage(s, target.value, s.images[target.value].(table := true)))
  }

  function SetRoot(s: Store, i: ImageId, number: Option<int>): Reply {
    if i >= |s.images| || s.images[i].deleted then Refuse(s)
    else if number.Some? && number.value !in s.images[i].partitions then Refuse(s)
    else Accept(OnImage(s, i, s.images[i].(root := number)))
  }

  function ReportRoot(s: Store, host: HostId, t: TaskId, number: int): Reply {
    var target := RunningCapture(s, host, t, false);
    if target.None? then Refuse(s) else SetRoot(s, target.value, Some(number))
  }

  // ----- the dashboard's handlers ------------------------------------------------------------------

  function PendingHosts(hosts: set<HostId>): map<HostId, HostRow> {
    map h | h in hosts :: HostRow(Pending, None)
  }

  function CreateImage(s: Store, kind: ImageKind, host: HostId): Reply {
    var task := Task(CaptureOf(kind), PendingHosts({host}), Some(|s.images|));
    Accept(s.(images := s.images + [Image(kind, Empty, map[], None, false, false, None)],
              tasks := s.tasks + [task]))
  }

  /** Creates a deployment, a multicast or a reboot. */
  function CreateTask(s: Store, kind: TaskType, hosts: set<HostId>, image: Option<ImageId>): Reply {
    if Captures(kind) then Refuse(s)
    else if Restores(kind) && (image.None? || image.value >= |s.images| || s.images[image.value].deleted
                               || s.images[image.value].status != Ready) then Refuse(s)
    else Accept(s.(tasks := s.tasks + [Task(kind, PendingHosts(hosts), if Restores(kind) then image else None)]))
  }

  /** The writes of a cancellation, whatever the handler read before making them. */
  function CancelActive(s: Store, t: TaskId): Store
    requires t < |s.tasks|
  {
    var task := s.tasks[t];
    var faulted :=
      if Captures(task.kind) && task.image.Some?
      then MarkFaulted(s, task.image.value, "Capture task was cancelled by user") else s;
    faulted.(tasks := WithHosts(s.tasks, t, CancelledHosts(task.hosts)))
  }

  function CancelTask(s: Store, t: TaskId): Reply {
    if t >= |s.tasks| || !Active(AggregateState(s.tasks[t].hosts)) then Refuse(s)
    else Accept(CancelActive(s, t))
  }

  function Kick(s: Store, t: TaskId, host: HostId): Reply {
    if t >= |s.tasks| || !Multicasts(s.tasks[t].kind) then Refuse(s)
    else if host !in s.tasks[t].hosts || s.tasks[t].hosts[host].state != Running then Refuse(s)
    else Accept(s.(tasks := FailRow(s.tasks, t, host, "Kicked from the multicast by user")))
  }

  function RetryTask(s: Store, t: TaskId): Reply {
    if t >= |s.tasks| then Refuse(s)
    else
      var task := s.tasks[t];
      var state := AggregateState(task.hosts);
      if state != Cancelled && state != Failed && state != Partial then Refuse(s)
      else if task.hosts == map[] then Refuse(s)
      else if task.image.Some? && task.image.value < |s.images| && s.images[task.image.value].deleted then Refuse(s)
      else Accept(s.(tasks := WithHosts(s.tasks, t, ReopenedHosts(task.hosts))))
  }

  predicate Uses(task: Task, i: ImageId) {
    task.image == Some(i) && Any(task.hosts, {Pending, Running})
  }

  /** Cancels every active task of the image among the first `n` tasks. */
  function CancelUses(s: Store, i: ImageId, n: nat): (after: Store)
    requires n <= |s.tasks|
    ensures |after.tasks| == |s.tasks| && |after.images| == |s.images|
    decreases n
  {
    if n == 0 then s
    else
      var earlier := CancelUses(s, i, n - 1);
      if Uses(earlier.tasks[n - 1], i) then CancelActive(earlier, n - 1) else earlier
  }

  function DeleteImage(s: Store, i: ImageId): Reply {
    if exists t :: 0 <= t < |s.tasks| && Uses(s.tasks[t], i) && !Captures(s.tasks[t].kind) then Refuse(s)
    else
      var cancelled := CancelUses(s, i, |s.tasks|);
      if i < |s.images|
      then Accept(OnImage(cancelled, i, cancelled.images[i].(deleted := true, table := false)))
      else Accept(cancelled)
  }

  function DeleteHost(s: Store, host: HostId): Reply {
    if GetNext(s.tasks, host).Some? then Refuse(s)
    else Accept(s.(tasks := seq(|s.tasks|, t requires 0 <= t < |s.tasks| =>
                                  s.tasks[t].(hosts := s.tasks[t].hosts - {host}))))
  }

  // ----- imports, the multicast worker and restarts ------------------------------------------------

  datatype Imported = Imported(partitions: map<int, PartitionInfo>, root: Option<int>, table: bool)

  /** What the archive's manifest was checked for before the image was created. */
  predicate Acceptable(kind: ImageKind, imported: Imported) {
    imported.partitions != map[]
    && (kind.Partition? ==> imported.partitions.Keys == {1})
    && (kind.Disk? ==> imported.table)
    && (imported.root.Some? ==> imported.root.value in imported.partitions)
  }

  function StartImport(s: Store, kind: ImageKind): Store {
    s.(images := s.images + [Image(kind, Importing, map[], None, false, false, None)],
       imports := s.imports + {|s.images|})
  }

  /** Ends an import: `imported` is what arrived intact, or nothing when it was rejected. */
  function EndImport(s: Store, i: ImageId, imported: Option<Imported>): Store
    requires i in s.imports && i < |s.images|
  {
    var image := s.images[i];
    var ended := s.(imports := s.imports - {i});
    if imported.None? || image.deleted || !(imported.value.partitions.Keys !! image.partitions.Keys) then
      MarkFaulted(OnImage(ended, i, image.(table := false)), i, "import rejected")
    else
      OnImage(ended, i, image.(status := Ready, partitions := image.partitions + imported.value.partitions,
                               root := imported.value.root, table := imported.value.table))
  }

  /** The multicast worker starts or fails one host of a multicast. */
  function WorkerMoves(s: Store, t: TaskId, host: HostId, error: Option<string>): Reply {
    if t >= |s.tasks| || !Multicasts(s.tasks[t].kind) then Refuse(s)
    else if error.None? then Accept(s.(tasks := StartRow(s.tasks, t, host)))
    else Accept(s.(tasks := FailRow(s.tasks, t, host, error.value)))
  }

  const ORPHANED := "Server stopped while task was running"

  function OrphanedHosts(hosts: map<HostId, HostRow>): map<HostId, HostRow> {
    map h | h in hosts :: if hosts[h].state == Running then HostRow(Failed, Some(ORPHANED)) else hosts[h]
  }

  function Restart(s: Store): Store {
    Store(seq(|s.tasks|, t requires 0 <= t < |s.tasks| =>
            if Multicasts(s.tasks[t].kind) then s.tasks[t].(hosts := OrphanedHosts(s.tasks[t].hosts)) else s.tasks[t]),
          seq(|s.images|, i requires 0 <= i < |s.images| =>
            if s.images[i].status == Importing
            then s.images[i].(status := Faulted, error := Some("import interrupted")) else s.images[i]),
          {})
  }

  // ----- all steps ---------------------------------------------------------------------------------

  datatype Step =
    | AgentStarted(host: HostId, task: TaskId, sectorSize: Option<nat>)
    | AgentFinished(host: HostId, task: TaskId)
    | AgentFailed(host: HostId, task: TaskId, error: string)
    | AgentUploads(host: HostId, task: TaskId, number: int, info: PartitionInfo)
    | AgentUploadsTable(host: HostId, task: TaskId)
    | AgentReportsRoot(host: HostId, task: TaskId, number: int)
    | CreatesImage(kind: ImageKind, host: HostId)
    | CreatesTask(taskKind: TaskType, hosts: set<HostId>, image: Option<ImageId>)
    | Cancels(task: TaskId)
    | Kicks(task: TaskId, host: HostId)
    | Retries(task: TaskId)
    | SetsRoot(target: ImageId, root: Option<int>)
    | DeletesImage(target: ImageId)
    | DeletesHost(host: HostId)
    | StartsImport(kind: ImageKind)
    | EndsImport(target: ImageId, imported: Option<Imported>)
    | Worker(task: TaskId, host: HostId, failure: Option<string>)
    | Restarts

  predicate Enabled(s: Store, step: Step) {
    step.EndsImport? ==>
      step.target in s.imports && step.target < |s.images|
      && (step.imported.Some? ==> Acceptable(s.images[step.target].kind, step.imported.value))
  }

  function Perform(s: Store, step: Step): Reply
    requires Enabled(s, step)
  {
    match step
    case AgentStarted(host, t, sectorSize) => Started(s, host, t, sectorSize)
    case AgentFinished(host, t) => MarkFinished(s, host, t)
    case AgentFailed(host, t, error) => MarkFailed(s, host, t, error)
    case AgentUploads(host, t, number, info) => UploadPartition(s, host, t, number, info)
    case AgentUploadsTable(host, t) => UploadTable(s, host, t)
    case AgentReportsRoot(host, t, number) => ReportRoot(s, host, t, number)
    case CreatesImage(kind, host) => CreateImage(s, kind, host)
    case CreatesTask(kind, hosts, image) => CreateTask(s, kind, hosts, image)
    case Cancels(t) => CancelTask(s, t)
    case Kicks(t, host) => Kick(s, t, host)
    case Retries(t) => RetryTask(s, t)
    case SetsRoot(i, root) => SetRoot(s, i, root)
    case DeletesImage(i) => DeleteImage(s, i)
    case DeletesHost(host) => DeleteHost(s, host)
    case StartsImport(kind) => Accept(StartImport(s, kind))
    case EndsImport(i, imported) => Accept(EndImport(s, i, imported))
    case Worker(t, host, failure) => WorkerMoves(s, t, host, failure)
    case Restarts => Accept(Restart(s))
  }

}

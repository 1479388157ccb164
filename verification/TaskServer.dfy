/**
 The handlers as the server runs them: one repository call after the other on the stored tasks and
 images. Each is tied to the step of the same name in the store model and keeps its invariant.
 */
module TaskServer {
  import opened Options
  import opened TaskStore
  import opened ImageLifecycle

  class Server {
    var tasks: seq<Task>
    var images: seq<Image>
    var imports: set<ImageId>

    function Model(): Store
      reads this
    {
      Store(tasks, images, imports)
    }

    constructor ()
      ensures Model() == START && Inv(Model())
    {
      tasks, images, imports := [], [], {};
    }

    // ----- repository calls ----------------------------------------------------------------------

    method SetStatus(i: ImageId, status: ImageStatus)
      modifies this`images
      ensures Model() == if i < |old(images)|
                         then OnImage(old(Model()), i, old(images)[i].(status := status)) else old(Model())
    {
      if i < |images| {
        images := images[i := images[i].(status := status)];
      }
    }

    method FaultImage(i: ImageId, error: string)
      modifies this`images
      ensures Model() == MarkFaulted(old(Model()), i, error)
    {
      if i < |images| {
        images := images[i := images[i].(status := Faulted, error := Some(error))];
      }
    }

    method Fail(t: TaskId, host: HostId, error: string)
      modifies this`tasks
      ensures tasks == FailRow(old(tasks), t, host, error)
    {
      if t < |tasks| && host in tasks[t].hosts && Active(tasks[t].hosts[host].state) {
        tasks := tasks[t := tasks[t].(hosts := tasks[t].hosts[host := HostRow(Failed, Some(error))])];
      }
    }

    method Move(t: TaskId, host: HostId, state: TaskState)
      requires t < |tasks| && host in tasks[t].hosts
      modifies this`tasks
      ensures tasks == MoveRow(old(tasks), t, host, old(tasks)[t].hosts[host].(state := state))
    {
      var row := tasks[t].hosts[host];
      if Active(row.state) {
        tasks := tasks[t := tasks[t].(hosts := tasks[t].hosts[host := row.(state := state)])];
      }
    }

    // ----- handlers ------------------------------------------------------------------------------

    /** An agent reports that it has started a task. */
    method Start(host: HostId, t: TaskId, sectorSize: Option<nat>) returns (ok: bool)
      requires Inv(Model())
      modifies this
      ensures Reply(Model(), ok) == Started(old(Model()), host, t, sectorSize)
      ensures Inv(Model())
    {
      StepKeepsInv(Model(), AgentStarted(host, t, sectorSize));
      if GetNext(tasks, host) != Some(t) {
        return false;
      }
      var task := tasks[t];
      var running := task.hosts[host].state == Running;
      if task.kind == Reboot || task.image.None? {
        return false;
      }
      var i := task.image.value;
      if Captures(task.kind) {
        if sectorSize.None? || !ValidSectorSize(sectorSize.value) {
          return false;
        }
        if i < |images| {
          images := images[i := images[i].(table := false)];
          images := images[i := images[i].(partitions := map[])];
          images := images[i := images[i].(status := Capturing, root := None)];
        }
        if running {
          return true;
        }
      } else if i >= |images| || images[i].status != Ready {
        return false;
      } else if Multicasts(task.kind) {
        return running;
      }
      Move(t, host, Running);
      ok := true;
    }

    /** An agent reports that it has finished a task. */
    method Finish(host: HostId, t: TaskId) returns (ok: bool)
      requires Inv(Model())
      modifies this
      ensures Reply(Model(), ok) == MarkFinished(old(Model()), host, t)
      ensures Inv(Model())
    {
      StepKeepsInv(Model(), AgentFinished(host, t));
      var settle := TaskToSettle(Model(), host, t, Done);
      if settle != Settle {
        return settle == Already;
      }
      var task := tasks[t];
      if Captures(task.kind) && task.image.Some? && task.image.value < |images| {
        var i := task.image.value;
        var incomplete := Incomplete(task.kind, images[i]);
        if incomplete.Some? {
          FaultImage(i, incomplete.value);
          Fail(t, host, incomplete.value);
          return false;
        }
        SetStatus(i, Ready);
      }
      Move(t, host, Done);
      ok := true;
    }

    /** An agent reports that a task has failed. */
    method ReportFailure(host: HostId, t: TaskId, error: string) returns (ok: bool)
      requires Inv(Model())
      modifies this
      ensures Reply(Model(), ok) == MarkFailed(old(Model()), host, t, error)
      ensures Inv(Model())
    {
      StepKeepsInv(Model(), AgentFailed(host, t, error));
      var settle := TaskToSettle(Model(), host, t, Failed);
      if settle != Settle {
        return settle == Already;
      }
      var task := tasks[t];
      if Captures(task.kind) && task.image.Some? {
        FaultImage(task.image.value, error);
      }
      Fail(t, host, error);
      ok := true;
    }

    /** Cancels the active rows of a task and tells which hosts have to be woken for it. */
    method CancelRows(t: TaskId) returns (woken: set<HostId>)
      requires t < |tasks|
      modifies this
      ensures Model() == CancelActive(old(Model()), t)
      ensures woken == set h | h in old(tasks)[t].hosts && Active(old(tasks)[t].hosts[h].state)
    {
      var task := tasks[t];
      tasks := tasks[t := task.(hosts := CancelledHosts(task.hosts))];
      if Captures(task.kind) && task.image.Some? {
        FaultImage(task.image.value, "Capture task was cancelled by user");
      }
      woken := set h | h in task.hosts && Active(task.hosts[h].state);
    }

    method Cancel(t: TaskId) returns (ok: bool, woken: set<HostId>)
      requires Inv(Model())
      modifies this
      ensures Reply(Model(), ok) == CancelTask(old(Model()), t)
      ensures Inv(Model()) && (ok <==> woken != {})
    {
      StepKeepsInv(Model(), Cancels(t));
      if t >= |tasks| || !Active(AggregateState(tasks[t].hosts)) {
        return false, {};
      }
      ActiveAggregate(tasks[t].hosts);
      ghost var host :| host in tasks[t].hosts && tasks[t].hosts[host].state in {Pending, Running};
      woken := CancelRows(t);
      assert host in woken;
      ok := true;
    }

    /** Refuses while a restore uses the image; cancels its captures and deletes it otherwise. */
    method Delete(i: ImageId) returns (ok: bool)
      requires Inv(Model())
      modifies this
      ensures Reply(Model(), ok) == DeleteImage(old(Model()), i)
      ensures Inv(Model())
    {
      StepKeepsInv(Model(), DeletesImage(i));
      if exists t :: 0 <= t < |tasks| && Uses(tasks[t], i) && !Captures(tasks[t].kind) {
        return false;
      }
      var n := 0;
      while n < |tasks|
        invariant 0 <= n <= |tasks| == |old(tasks)|
        invariant Model() == CancelUses(old(Model()), i, n)
      {
        if Uses(tasks[n], i) {
          var woken := CancelRows(n);
        }
        n := n + 1;
      }
      if i < |images| {
        images := images[i := images[i].(deleted := true)];
        images := images[i := images[i].(table := false)];
      }
      ok := true;
    }
  }

}

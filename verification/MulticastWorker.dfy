/**
 The worker that runs one multicast session after the other. Every repository call may fail, in which
 case the whole bookkeeping step is retried, and between any two calls other handlers may change the
 tasks: agents report, users cancel, kick and create. Reopening a row while its session runs counts as
 adding work and is excluded.
 */
module MulticastWorker {
  import opened Options
  import opened TaskStore

  // ----- what may change around the worker ---------------------------------------------------------

  /** Rows only move forward, and a multicast row is started by the worker alone. */
  predicate RowEvolves(kind: TaskType, before: TaskState, after: TaskState) {
    after == before
    || (before == Pending && after != Pending && (Multicasts(kind) ==> after != Running))
    || (before == Running && after != Pending)
  }

  ghost predicate TaskEvolves(before: Task, after: Task) {
    after.kind == before.kind && after.hosts.Keys <= before.hosts.Keys
    && forall h :: h in after.hosts ==> RowEvolves(before.kind, before.hosts[h].state, after.hosts[h].state)
  }

  /** What other handlers may do; `closed` says that nobody creates multicasts meanwhile. */
  ghost predicate Evolves(before: seq<Task>, after: seq<Task>, closed: bool) {
    && |before| <= |after|
    && (forall t :: 0 <= t < |before| ==> TaskEvolves(before[t], after[t]))
    && (closed ==> forall t :: |before| <= t < |after| ==> !Multicasts(after[t].kind))
  }

  /** The same for one task whose rows the worker may start as well. */
  ghost predicate TaskAdvances(before: Task, after: Task) {
    after.kind == before.kind && after.hosts.Keys <= before.hosts.Keys
    && forall h :: h in after.hosts ==>
         || RowEvolves(before.kind, before.hosts[h].state, after.hosts[h].state)
         || (before.hosts[h].state == Pending && after.hosts[h].state == Running)
  }

  ghost predicate Advances(before: seq<Task>, after: seq<Task>, t: TaskId, closed: bool) {
    && |before| <= |after|
    && (forall u :: 0 <= u < |before| ==>
          TaskEvolves(before[u], after[u]) || (u == t && TaskAdvances(before[u], after[u])))
    && (closed ==> forall u :: |before| <= u < |after| ==> !Multicasts(after[u].kind))
  }

  lemma EvolvesComposes(a: seq<Task>, b: seq<Task>, c: seq<Task>, closed: bool)
    requires Evolves(a, b, closed) && Evolves(b, c, closed)
    ensures Evolves(a, c, closed)
  {
    forall u | 0 <= u < |a| ensures TaskEvolves(a[u], c[u]) {
      assert TaskEvolves(a[u], b[u]) && TaskEvolves(b[u], c[u]);
    }
    forall u | |a| <= u < |c| && closed ensures !Multicasts(c[u].kind) {
      if u < |b| {
        assert TaskEvolves(b[u], c[u]);
      }
    }
  }

  lemma AdvancesComposes(a: seq<Task>, b: seq<Task>, c: seq<Task>, t: TaskId, closed: bool)
    requires Advances(a, b, t, closed) && Advances(b, c, t, closed)
    ensures Advances(a, c, t, closed)
  {
    forall u | 0 <= u < |a|
      ensures TaskEvolves(a[u], c[u]) || (u == t && TaskAdvances(a[u], c[u]))
    {
      assert TaskEvolves(a[u], b[u]) || (u == t && TaskAdvances(a[u], b[u]));
      assert TaskEvolves(b[u], c[u]) || (u == t && TaskAdvances(b[u], c[u]));
    }
    forall u | |a| <= u < |c| && closed ensures !Multicasts(c[u].kind) {
      if u < |b| {
        assert TaskEvolves(b[u], c[u]) || (u == t && TaskAdvances(b[u], c[u]));
      }
    }
  }

  predicate InState(tasks: seq<Task>, t: TaskId, h: HostId, state: TaskState) {
    t < |tasks| && h in tasks[t].hosts && tasks[t].hosts[h].state == state
  }

  /** The multicast rows still waiting for a session. */
  ghost function Waiting(tasks: seq<Task>): set<(TaskId, HostId)> {
    set t: nat, h | 0 <= t < |tasks| && h in tasks[t].hosts && Multicasts(tasks[t].kind)
                    && tasks[t].hosts[h].state == Pending :: (t, h)
  }

  lemma WaitingShrinks(before: seq<Task>, after: seq<Task>, t: TaskId, claimed: HostId)
    requires Advances(before, after, t, true)
    requires t < |before| && Multicasts(before[t].kind)
    requires InState(before, t, claimed, Pending) && !InState(after, t, claimed, Pending)
    ensures Waiting(after) < Waiting(before)
  {
    forall u: nat, h | (u, h) in Waiting(after) ensures (u, h) in Waiting(before) {
      assert u < |before|;
      assert TaskEvolves(before[u], after[u]) || (u == t && TaskAdvances(before[u], after[u]));
    }
    assert (t, claimed) in Waiting(before) && (t, claimed) !in Waiting(after);
  }

  predicate NoneWaits(tasks: seq<Task>, t: TaskId, hosts: seq<HostId>) {
    forall h :: h in hosts ==> !InState(tasks, t, h, Pending)
  }

  /** Nothing becomes pending again. */
  lemma StillNotPending(before: seq<Task>, after: seq<Task>, t: TaskId, hosts: seq<HostId>, closed: bool)
    requires Advances(before, after, t, closed) && t < |before|
    requires NoneWaits(before, t, hosts)
    ensures NoneWaits(after, t, hosts)
  {
    assert TaskEvolves(before[t], after[t]) || TaskAdvances(before[t], after[t]);
  }

  lemma NoneOfTheFirst(before: seq<Task>, after: seq<Task>, t: TaskId, hosts: seq<HostId>, i: nat, closed: bool)
    requires Advances(before, after, t, closed) && t < |before| && i < |hosts|
    requires NoneWaits(before, t, hosts[..i]) && !InState(after, t, hosts[i], Pending)
    ensures NoneWaits(after, t, hosts[..i + 1])
    ensures after[t].kind == before[t].kind
  {
    StillNotPending(before, after, t, hosts[..i], closed);
    assert hosts[..i + 1] == hosts[..i] + [hosts[i]];
    assert TaskEvolves(before[t], after[t]) || TaskAdvances(before[t], after[t]);
  }

  /** No multicast row starts running by itself. */
  lemma NothingStarts(before: seq<Task>, after: seq<Task>, t: TaskId, closed: bool)
    requires Evolves(before, after, closed) && t < |before| && Multicasts(before[t].kind)
    ensures forall h :: InState(after, t, h, Running) ==> InState(before, t, h, Running)
    ensures after[t].kind == before[t].kind
  {
    assert TaskEvolves(before[t], after[t]);
  }

  predicate WaitsForSession(task: Task) {
    Multicasts(task.kind) && Any(task.hosts, {Pending})
  }

  /** The oldest multicast with a waiting row. */
  function NextMulticast(tasks: seq<Task>): (next: Option<TaskId>)
    ensures next.Some? ==> next.value < |tasks| && WaitsForSession(tasks[next.value])
    ensures next.Some? ==> forall t :: 0 <= t < next.value ==> !WaitsForSession(tasks[t])
    ensures next.None? ==> forall t :: 0 <= t < |tasks| ==> !WaitsForSession(tasks[t])
    ensures next.Some? ==> exists h :: (next.value, h) in Waiting(tasks)
    ensures next.Some? ==> forall t: nat, h :: t < next.value ==> (t, h) !in Waiting(tasks)
    ensures next.None? ==> Waiting(tasks) == {}
  {
    if tasks == [] then None
    else
      var earlier := NextMulticast(tasks[..|tasks| - 1]);
      if earlier.Some? then earlier
      else if WaitsForSession(tasks[|tasks| - 1]) then Some(|tasks| - 1) else None
  }

  // ----- the worker --------------------------------------------------------------------------------

  /** What the worker itself writes. */
  datatype Act = Starts(task: TaskId, host: HostId) | Fails(task: TaskId, host: HostId)

  /** What the worker could have read at one time, and how many writes it had made by then. */
  datatype Moment = Moment(tasks: seq<Task>, connected: set<HostId>, writes: nat)

  /** What a write makes of an active row. */
  function Outcome(act: Act): TaskState {
    if act.Starts? then Running else Failed
  }

  /** The write starts or fails the one row it names, if that is active, and changes nothing else. */
  ghost predicate Wrote(before: seq<Task>, after: seq<Task>, act: Act) {
    |after| == |before|
    && forall t :: 0 <= t < |before| ==>
         && after[t].kind == before[t].kind && after[t].image == before[t].image
         && after[t].hosts.Keys == before[t].hosts.Keys
         && forall h :: h in before[t].hosts ==>
              if t == act.task && h == act.host && Active(before[t].hosts[h].state)
              then after[t].hosts[h].state == Outcome(act)
              else after[t].hosts[h] == before[t].hosts[h]
  }

  /** From one moment to the next either others act, or the worker makes its next write and nobody else does
      anything. */
  ghost predicate Linked(history: seq<Moment>, k: nat, acts: seq<Act>, closed: bool)
    requires k + 1 < |history|
  {
    var before, after := history[k], history[k + 1];
    if after.writes == before.writes then Evolves(before.tasks, after.tasks, closed)
    else after.writes == before.writes + 1 <= |acts| && Wrote(before.tasks, after.tasks, acts[before.writes])
  }

  ghost predicate Chained(history: seq<Moment>, acts: seq<Act>, closed: bool) {
    history != [] && history[0].writes == 0 && history[|history| - 1].writes == |acts|
    && forall k: nat :: k + 1 < |history| ==> Linked(history, k, acts, closed)
  }

  lemma ChainGrows(history: seq<Moment>, acts: seq<Act>, next: Moment, more: seq<Act>, closed: bool)
    requires Chained(history, acts, closed)
    requires more == acts || (|more| == |acts| + 1 && more[..|acts|] == acts)
    requires next.writes == |more|
    requires more == acts ==> Evolves(history[|history| - 1].tasks, next.tasks, closed)
    requires more != acts ==> Wrote(history[|history| - 1].tasks, next.tasks, more[|acts|])
    ensures Chained(history + [next], more, closed)
  {
    var longer := history + [next];
    forall k: nat | k + 1 < |longer| ensures Linked(longer, k, more, closed) {
      if k + 1 < |history| {
        assert Linked(history, k, acts, closed);
        assert acts == more[..|acts|];
      }
    }
  }

  /** Write number `i` is made between the moment `w` and the next. */
  ghost predicate WrittenAt(history: seq<Moment>, w: nat, acts: seq<Act>, i: nat) {
    i < |acts| && w + 1 < |history| && history[w].writes == i && history[w + 1].writes == i + 1
    && Wrote(history[w].tasks, history[w + 1].tasks, acts[i])
  }

  /** Every write that is accounted for has been made, on the rows as they were. */
  lemma {:induction false} EveryWriteIsMade(history: seq<Moment>, acts: seq<Act>, closed: bool, i: nat, from: nat)
    returns (w: nat)
    requires Chained(history, acts, closed) && i < |acts| && from < |history| && history[from].writes <= i
    ensures from <= w && WrittenAt(history, w, acts, i)
    decreases |history| - from
  {
    assert from + 1 < |history|;
    assert Linked(history, from, acts, closed);
    if history[from + 1].writes <= i {
      w := EveryWriteIsMade(history, acts, closed, i, from + 1);
    } else {
      w := from;
    }
  }

  /** Another task is ahead of task `t` on the host. */
  predicate Ahead(read: seq<Task>, t: TaskId, host: HostId) {
    var next := GetNext(read, host);
    next.Some? && next.value != t
  }

  lemma AheadMeans(read: seq<Task>, t: TaskId, host: HostId)
    requires forall u :: 0 <= u < |read| && host in read[u].hosts ==> read[u].hosts[host].state != Partial
    ensures Ahead(read, t, host) <==>
            exists u: nat :: u < |read| && u != t && host in read[u].hosts && Active(read[u].hosts[host].state)
              && (t < |read| && host in read[t].hosts ==>
                    ComesBefore(read[u].hosts[host].state, u, read[t].hosts[host].state, t))
  {
    var next := GetNext(read, host);
    if Ahead(read, t, host) {
      var u: nat := next.value;
      assert u < |read| && u != t && host in read[u].hosts && Active(read[u].hosts[host].state);
    }
  }

  /** A host is started, unless another task is ahead of this one when its next task is read. */
  function ClaimAct(read: seq<Task>, t: TaskId, host: HostId): Act {
    if Ahead(read, t, host) then Fails(t, host) else Starts(t, host)
  }

  /** Write number `i` follows from what was read at some moment since `from`, and is made later: a host that
      waited then runs, or has failed if another task was ahead of it. */
  ghost predicate Claimed(acts: seq<Act>, i: nat, history: seq<Moment>, from: nat, t: TaskId) {
    exists r: nat, w: nat :: ClaimedAt(acts, i, history, from, t, r, w)
  }

  ghost predicate ClaimedAt(acts: seq<Act>, i: nat, history: seq<Moment>, from: nat, t: TaskId, r: nat, w: nat) {
    && WrittenAt(history, w, acts, i) && from <= r <= w
    && acts[i] == ClaimAct(history[r].tasks, t, acts[i].host)
    && var host := acts[i].host;
       (InState(history[w].tasks, t, host, Pending) ==>
         InState(history[w + 1].tasks, t, host, if Ahead(history[r].tasks, t, host) then Failed else Running))
  }

  lemma IsClaimed(acts: seq<Act>, i: nat, history: seq<Moment>, from: nat, t: TaskId, r: nat, w: nat)
    requires WrittenAt(history, w, acts, i) && from <= r <= w && acts[i] == ClaimAct(history[r].tasks, t, acts[i].host)
    ensures Claimed(acts, i, history, from, t)
  {
    assert ClaimedAt(acts, i, history, from, t, r, w);
  }

  lemma ClaimedStays(acts: seq<Act>, more: seq<Act>, i: nat, history: seq<Moment>, later: seq<Moment>,
                     from: nat, earlier: nat, t: TaskId)
    requires Claimed(acts, i, history, from, t) && acts <= more && history <= later && earlier <= from
    ensures Claimed(more, i, later, earlier, t)
  {
    var r: nat, w: nat :| ClaimedAt(acts, i, history, from, t, r, w);
    assert later[w] == history[w] && later[w + 1] == history[w + 1] && later[r] == history[r] && more[i] == acts[i];
    assert ClaimedAt(more, i, later, earlier, t, r, w);
  }

  /** The writes since the `first` claim hosts of task `t`, each as it should be. */
  ghost predicate OnlyClaims(acts: seq<Act>, first: nat, hosts: seq<HostId>, history: seq<Moment>, from: nat, t: TaskId) {
    first <= |acts|
    && forall i: nat :: first <= i < |acts| ==> acts[i].host in hosts && Claimed(acts, i, history, from, t)
  }

  /** The last writes are one for each host, in order. */
  ghost predicate EndsWithAll(acts: seq<Act>, first: nat, hosts: seq<HostId>) {
    first + |hosts| <= |acts|
    && forall j :: 0 <= j < |hosts| ==> acts[|acts| - |hosts| + j].host == hosts[j]
  }

  lemma StillClaimed(acts: seq<Act>, first: nat, hosts: seq<HostId>, history: seq<Moment>, later: seq<Moment>,
                     from: nat, t: TaskId)
    requires OnlyClaims(acts, first, hosts, history, from, t) && history <= later
    ensures OnlyClaims(acts, first, hosts, later, from, t)
  {
    forall i: nat | first <= i < |acts| ensures Claimed(acts, i, later, from, t) {
      ClaimedStays(acts, acts, i, history, later, from, from, t);
    }
  }

  lemma ClaimsAdd(acts: seq<Act>, more: seq<Act>, first: nat, hosts: seq<HostId>,
                  history: seq<Moment>, later: seq<Moment>, from: nat, after: nat, t: TaskId)
    requires OnlyClaims(acts, first, hosts, history, from, t) && history <= later && acts <= more
    requires OnlyClaims(more, |acts|, hosts, later, after, t) && from <= after
    ensures OnlyClaims(more, first, hosts, later, from, t)
  {
    forall i: nat | first <= i < |more| ensures more[i].host in hosts && Claimed(more, i, later, from, t) {
      if i < |acts| {
        assert more[i] == acts[i];
        ClaimedStays(acts, more, i, history, later, from, from, t);
      } else {
        assert Claimed(more, i, later, after, t);
        ClaimedStays(more, more, i, later, later, after, from, t);
      }
    }
  }

  lemma OneMore(acts: seq<Act>, more: seq<Act>, first: nat, hosts: seq<HostId>, i: nat)
    requires i < |hosts| && |acts| == first + i && EndsWithAll(acts, first, hosts[..i])
    requires acts <= more && |more| == |acts| + 1 && more[|acts|].host == hosts[i]
    ensures EndsWithAll(more, first, hosts[..i + 1])
  {
    forall j | 0 <= j < i ensures more[first + j].host == hosts[j] {
      assert acts[|acts| - |hosts[..i]| + j].host == hosts[..i][j];
      assert more[first + j] == acts[first + j];
    }
  }

  /** The first `i` hosts have been claimed. */
  ghost predicate ClaimedSoFar(was: seq<Task>, tasks: seq<Task>, acts: seq<Act>, first: nat, hosts: seq<HostId>, i: nat,
                               history: seq<Moment>, from: nat, t: TaskId, closed: bool) {
    i <= |hosts| && Advances(was, tasks, t, closed) && NoneWaits(tasks, t, hosts[..i])
    && OnlyClaims(acts, first, hosts, history, from, t) && EndsWithAll(acts, first, hosts[..i])
  }

  lemma OneMoreClaimed(was: seq<Task>, before: seq<Task>, tasks: seq<Task>, acts: seq<Act>, more: seq<Act>, first: nat,
                       hosts: seq<HostId>, i: nat, history: seq<Moment>, later: seq<Moment>, from: nat, t: TaskId, closed: bool)
    requires i < |hosts| && |acts| == first + i && t < |was| && history != [] && from < |history|
    requires ClaimedSoFar(was, before, acts, first, hosts, i, history, from, t, closed)
    requires Advances(before, tasks, t, closed) && !InState(tasks, t, hosts[i], Pending)
    requires history <= later && |more| == |acts| + 1 && more[..|acts|] == acts
    requires more[|acts|].host == hosts[i] && Claimed(more, |acts|, later, |history| - 1, t)
    ensures ClaimedSoFar(was, tasks, more, first, hosts, i + 1, later, from, t, closed)
  {
    AdvancesComposes(was, before, tasks, t, closed);
    NoneOfTheFirst(before, tasks, t, hosts, i, closed);
    assert hosts[i] in hosts && acts <= more;
    ClaimsAdd(acts, more, first, hosts, history, later, from, |history| - 1, t);
    OneMore(acts, more, first, hosts, i);
  }

  /** All writes so far are justified claims, and if `done` all hosts have been claimed in the last attempt. */
  ghost predicate Claiming(was: seq<Task>, tasks: seq<Task>, acts: seq<Act>, first: nat, hosts: seq<HostId>,
                           history: seq<Moment>, from: nat, t: TaskId, closed: bool, done: bool) {
    && Advances(was, tasks, t, closed) && OnlyClaims(acts, first, hosts, history, from, t)
    && (done ==> NoneWaits(tasks, t, hosts) && EndsWithAll(acts, first, hosts))
  }

  lemma ClaimsAgain(was: seq<Task>, before: seq<Task>, tasks: seq<Task>, acts: seq<Act>, more: seq<Act>, first: nat,
                    hosts: seq<HostId>, history: seq<Moment>, later: seq<Moment>, from: nat, t: TaskId, closed: bool,
                    done: bool)
    requires Claiming(was, before, acts, first, hosts, history, from, t, closed, false)
    requires history != [] && history <= later && acts <= more && from < |history|
    requires Claiming(before, tasks, more, |acts|, hosts, later, |history| - 1, t, closed, done)
    ensures Claiming(was, tasks, more, first, hosts, later, from, t, closed, done)
  {
    AdvancesComposes(was, before, tasks, t, closed);
    ClaimsAdd(acts, more, first, hosts, history, later, from, |history| - 1, t);
  }

  lemma NoneClaimed(tasks: seq<Task>, acts: seq<Act>, hosts: seq<HostId>, history: seq<Moment>, from: nat, t: TaskId,
                    closed: bool)
    ensures ClaimedSoFar(tasks, tasks, acts, |acts|, hosts, 0, history, from, t, closed)
  {
  }

  lemma AllClaimed(was: seq<Task>, tasks: seq<Task>, acts: seq<Act>, first: nat, hosts: seq<HostId>,
                   history: seq<Moment>, from: nat, t: TaskId, closed: bool)
    requires ClaimedSoFar(was, tasks, acts, first, hosts, |hosts|, history, from, t, closed)
    ensures Advances(was, tasks, t, closed) && NoneWaits(tasks, t, hosts)
    ensures OnlyClaims(acts, first, hosts, history, from, t) && EndsWithAll(acts, first, hosts)
  {
    assert hosts[..|hosts|] == hosts;
  }

  /** The writes since the `first` fail hosts of task `t`: any for a failed session, else only hosts that
      were not connected. */
  ghost predicate OnlyFailed(acts: seq<Act>, first: nat, t: TaskId, snapshot: set<HostId>, sessionFailed: bool) {
    first <= |acts|
    && forall i :: first <= i < |acts| ==> acts[i] == Fails(t, acts[i].host) && (sessionFailed || acts[i].host !in snapshot)
  }

  /** Every host failed since the `first` write has been woken after the first `since` wake-ups. */
  ghost predicate FailedAreWoken(acts: seq<Act>, first: nat, woken: seq<HostId>, since: nat) {
    since <= |woken| && forall i :: first <= i < |acts| ==> acts[i].host in woken[since..]
  }

  /** A settling attempt: what it wrote and whom it woke, given the hosts it found connected and the rows
      it found. Only a failed session's hosts are woken. */
  ghost predicate Attempted(acts: seq<Act>, first: nat, woken: seq<HostId>, since: nat,
                            t: TaskId, snapshot: set<HostId>, sessionFailed: bool) {
    && OnlyFailed(acts, first, t, snapshot, sessionFailed)
    && if sessionFailed then FailedAreWoken(acts, first, woken, since) else |woken| == since
  }

  ghost predicate WokenBut(running: set<HostId>, left: set<HostId>, woken: seq<HostId>, since: nat) {
    since <= |woken| && forall h :: h in running ==> h in left || h in woken[since..]
  }

  lemma OneSettled(acts: seq<Act>, more: seq<Act>, first: nat, woken: seq<HostId>, later: seq<HostId>, since: nat,
                   t: TaskId, host: HostId, snapshot: set<HostId>, sessionFailed: bool)
    requires Attempted(acts, first, woken, since, t, snapshot, sessionFailed)
    requires later == if sessionFailed then woken + [host] else woken
    requires more == if sessionFailed || host !in snapshot then acts + [Fails(t, host)] else acts
    ensures Attempted(more, first, later, since, t, snapshot, sessionFailed)
    ensures sessionFailed ==> later[since..] == woken[since..] + [host]
  {
    if sessionFailed {
      assert later[since..] == woken[since..] + [host];
    }
  }

  /** All of the task's hosts that were running in `read` have been woken after the first `since` wake-ups. */
  ghost predicate RunningAreWoken(read: seq<Task>, t: TaskId, woken: seq<HostId>, since: nat) {
    since <= |woken| && forall h :: InState(read, t, h, Running) ==> h in woken[since..]
  }

  /** `faults` says which of the coming repository calls fail; after it has run out none does.
      `closed` says that nobody creates multicasts while the worker runs. `history` records what could be
      read since the worker started, up to now. */
  class Worker {
    var tasks: seq<Task>
    var connected: set<HostId>
    var faults: seq<bool>
    var woken: seq<HostId>
    const closed: bool
    ghost var acts: seq<Act>
    ghost var history: seq<Moment>

    constructor (tasks: seq<Task>, faults: seq<bool>, closed: bool)
      ensures this.tasks == tasks && this.faults == faults && this.closed == closed && acts == []
      ensures UpToNow()
    {
      this.tasks, this.connected, this.faults, this.woken := tasks, {}, faults, [];
      this.closed, acts, history := closed, [], [Moment(tasks, {}, 0)];
    }

    ghost predicate UpToNow()
      reads this
    {
      Chained(history, acts, closed) && history[|history| - 1] == Moment(tasks, connected, |acts|)
    }

    /** Other handlers and connections may act here. Callers know only what the contract says; the body
        shows that doing nothing meets it. */
    method Interfere()
      requires UpToNow()
      modifies this`tasks, this`connected, this`history
      ensures Evolves(old(tasks), tasks, closed)
      ensures UpToNow() && old(history) <= history
    {
    }

    method CallFails() returns (failed: bool)
      modifies this`faults
      ensures |faults| <= |old(faults)| && (failed ==> |faults| < |old(faults)|)
    {
      if faults == [] {
        return false;
      }
      failed := faults[0];
      faults := faults[1..];
    }

    /** The write of a claim. */
    method WriteClaim(t: TaskId, host: HostId, busy: bool)
      requires t < |tasks| && Multicasts(tasks[t].kind) && UpToNow()
      modifies this`tasks, this`acts, this`history
      ensures Advances(old(tasks), tasks, t, closed) && !InState(tasks, t, host, Pending)
      ensures acts == old(acts) + [if busy then Fails(t, host) else Starts(t, host)]
      ensures UpToNow() && history == old(history) + [Moment(tasks, connected, |acts|)]
      ensures Wrote(old(tasks), tasks, acts[|old(acts)|])
    {
      ghost var before, earlier, written := tasks, history, acts;
      if busy {
        tasks := FailRow(tasks, t, host, "Host was busy with another task");
        acts := acts + [Fails(t, host)];
      } else {
        tasks := StartRow(tasks, t, host);
        acts := acts + [Starts(t, host)];
      }
      history := history + [Moment(tasks, connected, |acts|)];
      assert TaskAdvances(before[t], tasks[t]);
      ChainGrows(earlier, written, Moment(tasks, connected, |acts|), acts, closed);
    }

    /** Reads whether another task is ahead of task `t` on the host, at the moment `r`; others may act before
        what was read is used. */
    method ReadAhead(t: TaskId, host: HostId) returns (ok: bool, busy: bool, ghost r: nat)
      requires UpToNow()
      modifies this`tasks, this`connected, this`faults, this`history
      ensures Evolves(old(tasks), tasks, closed)
      ensures |faults| <= |old(faults)| && (!ok ==> |faults| < |old(faults)|)
      ensures UpToNow() && old(history) <= history && |old(history)| <= r + 1 && r < |history|
      ensures ok ==> busy == Ahead(history[r].tasks, t, host)
    {
      r := |history| - 1;
      var failed := CallFails();
      if failed {
        return false, false, r;
      }
      Interfere();
      r := |history| - 1;
      var next := GetNext(tasks, host);
      busy := next.Some? && next.value != t;
      ghost var read := tasks;
      Interfere();
      EvolvesComposes(old(tasks), read, tasks, closed);
      failed := CallFails();
      ok := !failed;
    }

    /** Starts one host of task `t`, or fails it when another task was ahead of it in what was read. */
    method ClaimHost(t: TaskId, host: HostId) returns (ok: bool)
      requires t < |tasks| && Multicasts(tasks[t].kind) && UpToNow()
      modifies this`tasks, this`connected, this`faults, this`acts, this`history
      ensures Advances(old(tasks), tasks, t, closed)
      ensures |faults| <= |old(faults)| && (!ok ==> |faults| < |old(faults)|)
      ensures UpToNow() && old(history) <= history
      ensures ok ==> !InState(tasks, t, host, Pending)
      ensures if ok then |acts| == |old(acts)| + 1 && acts[..|old(acts)|] == old(acts) else acts == old(acts)
      ensures ok ==> acts[|old(acts)|].host == host && Claimed(acts, |old(acts)|, history, |old(history)| - 1, t)
      ensures ok ==> |history| > 1 && Wrote(history[|history| - 2].tasks, tasks, acts[|old(acts)|])
    {
      var busy; ghost var r;
      ok, busy, r := ReadAhead(t, host);
      ghost var before, w := tasks, |history| - 1;
      if !ok {
        return;
      }
      SameKindAround(old(tasks), before, t, closed);
      WriteClaim(t, host, busy);
      AdvancesComposes(old(tasks), before, tasks, t, closed);
      IsClaimed(acts, |old(acts)|, history, |old(history)| - 1, t, r, w);
    }

    /** Claims the host number `i`, the ones before it being claimed since the rows were `was`. */
    method ClaimNext(t: TaskId, hosts: seq<HostId>, i: nat, ghost was: seq<Task>, ghost first: nat, ghost from: nat)
      returns (ok: bool)
      requires i < |hosts| && t < |was| && Multicasts(was[t].kind) && UpToNow()
      requires |acts| == first + i && from < |history|
      requires ClaimedSoFar(was, tasks, acts, first, hosts, i, history, from, t, closed)
      modifies this`tasks, this`connected, this`faults, this`acts, this`history
      ensures |faults| <= |old(faults)| && (!ok ==> |faults| < |old(faults)|)
      ensures UpToNow() && old(history) <= history && old(acts) <= acts
      ensures ok ==> |acts| == first + i + 1
      ensures ok ==> ClaimedSoFar(was, tasks, acts, first, hosts, i + 1, history, from, t, closed)
      ensures !ok ==> Advances(was, tasks, t, closed) && OnlyClaims(acts, first, hosts, history, from, t)
    {
      ghost var before, earlier, written := tasks, history, acts;
      SameKind(was, before, t, closed);
      ok := ClaimHost(t, hosts[i]);
      if ok {
        OneMoreClaimed(was, before, tasks, written, acts, first, hosts, i, earlier, history, from, t, closed);
      } else {
        StillClaimed(written, first, hosts, earlier, history, from, t);
        AdvancesComposes(was, before, tasks, t, closed);
      }
    }

    /** Claims the hosts in order. Each is started, unless another task was ahead of it when its next task
        was read. */
    method Claim(t: TaskId, hosts: seq<HostId>) returns (ok: bool)
      requires t < |tasks| && Multicasts(tasks[t].kind) && UpToNow()
      modifies this`tasks, this`connected, this`faults, this`acts, this`history
      ensures Advances(old(tasks), tasks, t, closed)
      ensures |faults| <= |old(faults)| && (!ok ==> |faults| < |old(faults)|)
      ensures UpToNow() && old(history) <= history
      ensures ok ==> NoneWaits(tasks, t, hosts)
      ensures old(acts) <= acts && OnlyClaims(acts, |old(acts)|, hosts, history, |old(history)| - 1, t)
      ensures ok ==> |acts| == |old(acts)| + |hosts| && EndsWithAll(acts, |old(acts)|, hosts)
    {
      ghost var was, first, from := tasks, |acts|, |history| - 1;
      NoneClaimed(tasks, acts, hosts, history, from, t, closed);
      ok := true;
      var i := 0;
      while i < |hosts|
        invariant 0 <= i <= |hosts| && ok && |acts| == first + i
        invariant |faults| <= |old(faults)|
        invariant UpToNow() && old(history) <= history && old(acts) <= acts
        invariant ClaimedSoFar(was, tasks, acts, first, hosts, i, history, from, t, closed)
      {
        ok := ClaimNext(t, hosts, i, was, first, from);
        if !ok {
          return;
        }
        i := i + 1;
      }
      AllClaimed(was, tasks, acts, first, hosts, history, from, t, closed);
    }

    method ClaimRetrying(t: TaskId, hosts: seq<HostId>)
      requires t < |tasks| && Multicasts(tasks[t].kind) && UpToNow()
      modifies this`tasks, this`connected, this`faults, this`acts, this`history
      ensures Advances(old(tasks), tasks, t, closed)
      ensures |faults| <= |old(faults)|
      ensures UpToNow() && old(history) <= history
      ensures NoneWaits(tasks, t, hosts)
      ensures old(acts) <= acts && OnlyClaims(acts, |old(acts)|, hosts, history, |old(history)| - 1, t)
      ensures EndsWithAll(acts, |old(acts)|, hosts)
    {
      ghost var was, first, from := tasks, |acts|, |history| - 1;
      var claimed := Claim(t, hosts);
      while !claimed
        invariant |faults| <= |old(faults)|
        invariant UpToNow() && old(history) <= history && old(acts) <= acts
        invariant Claiming(was, tasks, acts, first, hosts, history, from, t, closed, claimed)
        decreases !claimed, |faults|
      {
        ghost var before, earlier, written := tasks, history, acts;
        SameKind(was, before, t, closed);
        claimed := Claim(t, hosts);
        ClaimsAgain(was, before, tasks, written, acts, first, hosts, earlier, history, from, t, closed, claimed);
      }
    }

    /** The write of a settled host. */
    method WriteFailure(t: TaskId, host: HostId)
      requires t < |tasks| && UpToNow()
      modifies this`tasks, this`acts, this`history
      ensures Evolves(old(tasks), tasks, closed) && !InState(tasks, t, host, Running)
      ensures acts == old(acts) + [Fails(t, host)]
      ensures UpToNow() && history == old(history) + [Moment(tasks, connected, |acts|)]
      ensures Wrote(old(tasks), tasks, Fails(t, host))
    {
      ghost var before, earlier, written := tasks, history, acts;
      tasks := FailRow(tasks, t, host, "The session failed or the host is gone");
      acts := acts + [Fails(t, host)];
      history := history + [Moment(tasks, connected, |acts|)];
      assert TaskEvolves(before[t], tasks[t]);
      ChainGrows(earlier, written, Moment(tasks, connected, |acts|), acts, closed);
    }

    /** Fails one running host, unless it took part in a session that went well and is connected. */
    method SettleHost(t: TaskId, host: HostId, present: set<HostId>, sessionFailed: bool) returns (ok: bool)
      requires t < |tasks| && Multicasts(tasks[t].kind) && UpToNow()
      modifies this
      ensures Evolves(old(tasks), tasks, closed)
      ensures |faults| <= |old(faults)| && (!ok ==> |faults| < |old(faults)|)
      ensures UpToNow() && old(history) <= history
      ensures ok && InState(tasks, t, host, Running) ==> !sessionFailed && host in present
      ensures woken == if ok && sessionFailed then old(woken) + [host] else old(woken)
      ensures acts == if ok && (sessionFailed || host !in present) then old(acts) + [Fails(t, host)] else old(acts)
      ensures |acts| > |old(acts)| ==> |history| > 1 && Wrote(history[|history| - 2].tasks, tasks, Fails(t, host))
    {
      Interfere();
      if !sessionFailed && host in present {
        return true;
      }
      var failed := CallFails();
      if failed {
        return false;
      }
      ghost var before := tasks;
      SameKindAround(old(tasks), before, t, closed);
      WriteFailure(t, host);
      EvolvesComposes(old(tasks), before, tasks, closed);
      if sessionFailed {
        woken := woken + [host];
      }
      ok := true;
    }

    /** Settles the hosts found running, in some order, until a call fails. */
    method SettleAll(t: TaskId, running: set<HostId>, present: set<HostId>, sessionFailed: bool) returns (ok: bool)
      requires t < |tasks| && Multicasts(tasks[t].kind) && UpToNow()
      requires forall h :: InState(tasks, t, h, Running) ==> h in running
      modifies this
      ensures Evolves(old(tasks), tasks, closed)
      ensures |faults| <= |old(faults)| && (!ok ==> |faults| < |old(faults)|)
      ensures UpToNow() && old(history) <= history && old(acts) <= acts && old(woken) <= woken
      ensures ok ==> forall h :: InState(tasks, t, h, Running) ==> !sessionFailed && h in present
      ensures Attempted(acts, |old(acts)|, woken, |old(woken)|, t, present, sessionFailed)
      ensures ok && sessionFailed ==> WokenBut(running, {}, woken, |old(woken)|)
    {
      var left := running;
      while left != {}
        invariant left <= running
        invariant Evolves(old(tasks), tasks, closed) && Multicasts(tasks[t].kind)
        invariant |faults| <= |old(faults)|
        invariant UpToNow() && old(history) <= history && old(acts) <= acts && old(woken) <= woken
        invariant Attempted(acts, |old(acts)|, woken, |old(woken)|, t, present, sessionFailed)
        invariant sessionFailed ==> WokenBut(running, left, woken, |old(woken)|)
        invariant forall h :: InState(tasks, t, h, Running) ==> h in left || (!sessionFailed && h in present)
        decreases |left|
      {
        assert (forall h :: h !in left) ==> left == {};
        var host :| host in left;
        left := left - {host};
        ghost var before, written, woke := tasks, acts, woken;
        ok := SettleHost(t, host, present, sessionFailed);
        EvolvesComposes(old(tasks), before, tasks, closed);
        NothingStarts(before, tasks, t, closed);
        if !ok {
          return;
        }
        OneSettled(written, acts, |old(acts)|, woke, woken, |old(woken)|, t, host, present, sessionFailed);
      }
      ok := true;
    }

    /** Settles every host that is still running when the rows are read, at the moment `read`, by the hosts
        connected at first. Hosts that are failed for the session's sake are woken. */
    method Settle(t: TaskId, sessionFailed: bool) returns (ok: bool, ghost read: nat)
      requires t < |tasks| && Multicasts(tasks[t].kind) && UpToNow()
      modifies this
      ensures Evolves(old(tasks), tasks, closed)
      ensures |faults| <= |old(faults)| && (!ok ==> |faults| < |old(faults)|)
      ensures UpToNow() && old(history) <= history && old(acts) <= acts && old(woken) <= woken
      ensures |old(history)| <= read + 1 && read < |history| && history[read].writes == |old(acts)|
      ensures ok ==> forall h :: InState(tasks, t, h, Running) ==> !sessionFailed && h in old(connected)
      ensures Attempted(acts, |old(acts)|, woken, |old(woken)|, t, old(connected), sessionFailed)
      ensures ok && sessionFailed ==> RunningAreWoken(history[read].tasks, t, woken, |old(woken)|)
    {
      var present := connected;
      Interfere();
      assert TaskEvolves(old(tasks)[t], tasks[t]);
      read := |history| - 1;
      ghost var found := tasks;
      var failed := CallFails();
      if failed {
        return false, read;
      }
      var running := set h | h in tasks[t].hosts && tasks[t].hosts[h].state == Running;
      ok := SettleAll(t, running, present, sessionFailed);
      EvolvesComposes(old(tasks), found, tasks, closed);
    }

    /** Settles until an attempt works. The last attempt began at the moment `at` and read the rows at the
        moment `read`, with all its writes and the wake-ups from the `since`-th on still to come; the
        earlier ones failed only hosts that were gone too. */
    method SettleRetrying(t: TaskId, sessionFailed: bool) returns (ghost at: nat, ghost read: nat, ghost since: nat)
      requires t < |tasks| && Multicasts(tasks[t].kind) && UpToNow()
      modifies this
      ensures Evolves(old(tasks), tasks, closed)
      ensures |faults| <= |old(faults)|
      ensures UpToNow() && old(history) <= history && old(acts) <= acts && old(woken) <= woken
      ensures |old(history)| <= at + 1 && at <= read < |history| && |old(woken)| <= since
      ensures |old(acts)| <= history[at].writes == history[read].writes
      ensures forall h :: InState(tasks, t, h, Running) ==> !sessionFailed && h in history[at].connected
      ensures Attempted(acts, history[at].writes, woken, since, t, history[at].connected, sessionFailed)
      ensures sessionFailed ==> RunningAreWoken(history[read].tasks, t, woken, since)
      ensures GoneOrFailed(acts, |old(acts)|, history, |old(history)| - 1, t, sessionFailed)
      ensures if sessionFailed then FailedAreWoken(acts, |old(acts)|, woken, |old(woken)|) else woken == old(woken)
    {
      var settled;
      at, since := |history| - 1, |woken|;
      settled, read := Settle(t, sessionFailed);
      AttemptIsRight(acts, history[at].writes, woken, since, t, history, at, sessionFailed);
      while !settled
        invariant Evolves(old(tasks), tasks, closed)
        invariant |faults| <= |old(faults)|
        invariant UpToNow() && old(history) <= history && old(acts) <= acts && old(woken) <= woken
        invariant |old(history)| <= at + 1 && at <= read < |history| && |old(woken)| <= since
        invariant |old(acts)| <= history[at].writes == history[read].writes
        invariant settled ==> forall h :: InState(tasks, t, h, Running) ==> !sessionFailed && h in history[at].connected
        invariant Attempted(acts, history[at].writes, woken, since, t, history[at].connected, sessionFailed)
        invariant settled && sessionFailed ==> RunningAreWoken(history[read].tasks, t, woken, since)
        invariant GoneOrFailed(acts, |old(acts)|, history, |old(history)| - 1, t, sessionFailed)
        invariant if sessionFailed then FailedAreWoken(acts, |old(acts)|, woken, |old(woken)|) else woken == old(woken)
        decreases !settled, |faults|
      {
        ghost var before, earlier, written, woke := tasks, history, acts, woken;
        assert TaskEvolves(old(tasks)[t], before[t]);
        at, since := |history| - 1, |woken|;
        settled, read := Settle(t, sessionFailed);
        EvolvesComposes(old(tasks), before, tasks, closed);
        AttemptIsRight(acts, history[at].writes, woken, since, t, history, at, sessionFailed);
        GoneAdds(written, acts, |old(acts)|, earlier, history, |old(history)| - 1, at, t, sessionFailed);
        if sessionFailed {
          WokenAdds(written, acts, |old(acts)|, woke, woken, |old(woken)|);
        }
      }
    }

    /** Wakes the hosts, in some order. */
    method WakeAll(hosts: set<HostId>)
      modifies this`woken
      ensures old(woken) <= woken && forall h :: h in woken[|old(woken)|..] <==> h in hosts
    {
      var left := hosts;
      while left != {}
        invariant left <= hosts && old(woken) <= woken
        invariant forall h :: h in woken[|old(woken)|..] <==> h in hosts && h !in left
        decreases |left|
      {
        assert (forall h :: h !in left) ==> left == {};
        var host :| host in left;
        ghost var woke := woken;
        woken := woken + [host];
        left := left - {host};
        assert woken[|old(woken)|..] == woke[|old(woken)|..] + [host];
      }
    }

    /** The session itself: it wakes exactly the hosts still running when it reads them, at the moment
        `read`, and sends until it ends, well or not. It may fail before it has read them, and then wakes
        nobody; otherwise every host that is still running at its end has been woken. */
    method Session(t: TaskId, hasImage: bool, goesWell: bool) returns (failed: bool, ghost read: Option<nat>)
      requires t < |tasks| && Multicasts(tasks[t].kind) && UpToNow()
      modifies this
      ensures Evolves(old(tasks), tasks, closed)
      ensures |faults| <= |old(faults)| && acts == old(acts)
      ensures UpToNow() && old(history) <= history && old(woken) <= woken
      ensures (!failed <==> goesWell && read.Some?) && (read.Some? ==> hasImage)
      ensures read.Some? ==> |old(history)| <= read.value + 1 && read.value < |history|
                             && history[read.value].writes == |acts|
      ensures forall h :: h in woken[|old(woken)|..] <==>
                read.Some? && InState(history[read.value].tasks, t, h, Running)
      ensures read.Some? ==> RunningAreWoken(tasks, t, woken, |old(woken)|)
    {
      Interfere();
      assert TaskEvolves(old(tasks)[t], tasks[t]);
      failed := CallFails();
      if failed || !hasImage {
        return true, None;
      }
      ghost var found := tasks;
      read := Some(|history| - 1);
      WakeAll(set h | h in tasks[t].hosts && tasks[t].hosts[h].state == Running);
      Interfere();
      EvolvesComposes(old(tasks), found, tasks, closed);
      NothingStarts(found, tasks, t, closed);
      failed := !goesWell;
    }

    /** Runs the session of the claimed hosts and settles it. At the moment `told` the session reads whom to
        wake, and up to the `called`-th wake-up it wakes exactly these; it is a session that went wrong if it
        does not get there. The last settling attempt begins at the moment `at` and reads the rows at the
        moment `found`, both before it writes. */
    method RunClaimed(t: TaskId, hasImage: bool, goesWell: bool)
      returns (failed: bool, ghost told: Option<nat>, ghost called: nat, ghost at: nat, ghost found: nat)
      requires t < |tasks| && Multicasts(tasks[t].kind) && UpToNow()
      modifies this
      ensures |faults| <= |old(faults)| && Evolves(old(tasks), tasks, closed)
      ensures UpToNow() && old(history) <= history && old(acts) <= acts && old(woken) <= woken
      ensures |old(history)| <= at + 1 && at <= found < |history|
      ensures !failed ==> told.Some?
      ensures told.Some? ==> |old(history)| <= told.value + 1 && told.value < |history|
                             && history[told.value].writes == |old(acts)|
      ensures Called(history, told, t, woken, |old(woken)|, called)
      ensures |old(acts)| <= history[at].writes == history[found].writes
      ensures GoneOrFailed(acts, |old(acts)|, history, |old(history)| - 1, t, failed)
      ensures failed ==> FailedAreWoken(acts, |old(acts)|, woken, called)
      ensures failed ==> RunningAreWoken(history[found].tasks, t, woken, called)
      ensures !failed ==> |woken| == called
      ensures forall h :: InState(tasks, t, h, Running) ==>
                !failed && h in history[at].connected && h in woken[|old(woken)|..]
    {
      failed, told := Session(t, hasImage, goesWell);
      ghost var ended, seen, began, woke := tasks, history, |history| - 1, woken;
      SameKindAround(old(tasks), ended, t, closed);
      called := |woken|;
      ghost var since;
      at, found, since := SettleRetrying(t, failed);
      StayWoken(woken, woken, called, since);
      StillCalled(seen, history, told, t, woke, woken, |old(woken)|);
      NothingStarts(ended, tasks, t, closed);
      EvolvesComposes(old(tasks), ended, tasks, closed);
      GoneSince(acts, |old(acts)|, history, began, |old(history)| - 1, t, failed);
    }

    /** Runs one session for the hosts that waited when the task was picked. The writes up to the
        `settling`-th claim its hosts, those after it settle them; between them the session wakes exactly the
        hosts that run at the moment `told`. */
    method RunSession(t: TaskId, hosts: seq<HostId>, hasImage: bool, goesWell: bool)
      returns (failed: bool, ghost settling: nat, ghost told: Option<nat>, ghost called: nat, ghost at: nat, ghost found: nat)
      requires t < |tasks| && Multicasts(tasks[t].kind) && UpToNow()
      requires hosts != [] && forall h :: h in hosts ==> InState(tasks, t, h, Pending)
      modifies this
      ensures |faults| <= |old(faults)| && Advances(old(tasks), tasks, t, closed)
      ensures UpToNow() && old(history) <= history && old(woken) <= woken
      ensures NoneWaits(tasks, t, hosts)
      ensures |old(acts)| <= settling <= |acts| && |old(history)| <= at + 1 && at <= found < |history|
      ensures old(acts) <= acts && OnlyClaims(acts[..settling], |old(acts)|, hosts, history, |old(history)| - 1, t)
      ensures EndsWithAll(acts[..settling], |old(acts)|, hosts)
      ensures !failed ==> told.Some?
      ensures told.Some? ==> |old(history)| <= told.value + 1 && told.value < |history|
                             && history[told.value].writes == settling
      ensures Called(history, told, t, woken, |old(woken)|, called)
      ensures settling <= history[at].writes == history[found].writes
      ensures GoneOrFailed(acts, settling, history, |old(history)| - 1, t, failed)
      ensures failed ==> FailedAreWoken(acts, settling, woken, called)
      ensures failed ==> RunningAreWoken(history[found].tasks, t, woken, called)
      ensures !failed ==> |woken| == called
      ensures forall h :: InState(tasks, t, h, Running) ==>
                !failed && h in history[at].connected && h in woken[|old(woken)|..]
      ensures closed ==> Waiting(tasks) < Waiting(old(tasks))
    {
      ghost var from := |history| - 1;
      ClaimRetrying(t, hosts);
      ghost var claimed, claimedBy, claims := tasks, history, acts;
      SameKind(old(tasks), claimed, t, closed);
      settling := |acts|;
      failed, told, called, at, found := RunClaimed(t, hasImage, goesWell);
      StillNotPending(claimed, tasks, t, hosts, closed);
      AdvancesComposes(old(tasks), claimed, tasks, t, closed);
      assert acts[..settling] == claims;
      StillClaimed(claims, |old(acts)|, hosts, claimedBy, history, from, t);
      GoneSince(acts, settling, history, |claimedBy| - 1, from, t, failed);
      if closed {
        assert hosts[0] in hosts;
        WaitingShrinks(old(tasks), tasks, t, hosts[0]);
      }
    }

    /** Reads the queue until a reading works, and answers for the rows as they are then. */
    method NextRetrying() returns (next: Option<TaskId>)
      requires UpToNow()
      modifies this`tasks, this`connected, this`faults, this`history
      ensures UpToNow() && Evolves(old(tasks), tasks, closed)
      ensures next == NextMulticast(tasks) && |faults| <= |old(faults)|
    {
      Interfere();
      var failed := CallFails();
      while failed
        invariant |faults| <= |old(faults)| && UpToNow() && Evolves(old(tasks), tasks, closed)
        decreases failed, |faults|
      {
        ghost var before := tasks;
        Interfere();
        EvolvesComposes(old(tasks), before, tasks, closed);
        failed := CallFails();
      }
      next := NextMulticast(tasks);
    }

    /** Runs the session of a multicast that has a waiting row. */
    method RunNext(t: TaskId, goesWell: bool)
      requires closed && UpToNow() && t < |tasks| && WaitsForSession(tasks[t])
      modifies this
      ensures UpToNow() && Waiting(tasks) < Waiting(old(tasks))
    {
      var hosts := PendingOf(tasks[t]);
      var failed, settling, told, called, at, found := RunSession(t, hosts, tasks[t].image.Some?, goesWell);
    }

    /** Takes sessions from the queue until no host waits for one; `outcomes` says how they go. */
    method RunQueue(outcomes: nat -> bool)
      requires closed && UpToNow()
      modifies this
      ensures Waiting(tasks) == {}
    {
      var sessions := 0;
      var next := NextRetrying();
      WaitingNeverGrows(old(tasks), tasks);
      ghost var left := Waiting(tasks);
      while next.Some?
        invariant next == NextMulticast(tasks) && UpToNow()
        invariant left == Waiting(tasks) && left <= Waiting(old(tasks))
        decreases |left|
      {
        RunNext(next.value, outcomes(sessions));
        sessions := sessions + 1;
        ghost var ended := tasks;
        next := NextRetrying();
        WaitingNeverGrows(ended, tasks);
        SmallerSet(Waiting(tasks), left);
        left := Waiting(tasks);
      }
    }
  }

  /** The wake-ups from the `since`-th up to the `called`-th are those of exactly the hosts of task `t` that
      were running at the moment `told`, or there are none. */
  ghost predicate Called(history: seq<Moment>, told: Option<nat>, t: TaskId, woken: seq<HostId>, since: nat, called: nat) {
    since <= called <= |woken|
    && forall h :: h in woken[since..called] <==>
         told.Some? && told.value < |history| && InState(history[told.value].tasks, t, h, Running)
  }

  lemma StillCalled(history: seq<Moment>, later: seq<Moment>, told: Option<nat>, t: TaskId, woken: seq<HostId>,
                    more: seq<HostId>, since: nat)
    requires history <= later && woken <= more && since <= |woken| && (told.Some? ==> told.value < |history|)
    requires forall h :: h in woken[since..] <==> told.Some? && InState(history[told.value].tasks, t, h, Running)
    ensures Called(later, told, t, more, since, |woken|)
    ensures forall h :: h in woken[since..] ==> h in more[since..]
  {
    assert more[since..|woken|] == woken[since..];
    assert more[since..] == woken[since..] + more[|woken|..];
  }

  /** Without new multicasts no row comes to wait. */
  lemma WaitingNeverGrows(before: seq<Task>, after: seq<Task>)
    requires Evolves(before, after, true)
    ensures Waiting(after) <= Waiting(before)
  {
    forall u: nat, h | (u, h) in Waiting(after) ensures (u, h) in Waiting(before) {
      assert u < |before|;
      assert TaskEvolves(before[u], after[u]);
    }
  }

  /** Each write since the `first` fails a host of a failed session, or one that some moment since `from`
      found gone. */
  ghost predicate GoneOrFailed(acts: seq<Act>, first: nat, history: seq<Moment>, from: nat, t: TaskId, sessionFailed: bool) {
    first <= |acts|
    && forall i :: first <= i < |acts| ==>
         acts[i] == Fails(t, acts[i].host) && (sessionFailed || GoneAt(acts[i].host, history, from))
  }

  ghost predicate GoneAt(host: HostId, history: seq<Moment>, from: nat) {
    exists k :: from <= k < |history| && host !in history[k].connected
  }

  lemma AttemptIsRight(acts: seq<Act>, first: nat, woken: seq<HostId>, since: nat, t: TaskId,
                       history: seq<Moment>, at: nat, sessionFailed: bool)
    requires at < |history| && Attempted(acts, first, woken, since, t, history[at].connected, sessionFailed)
    ensures GoneOrFailed(acts, first, history, at, t, sessionFailed)
  {
    forall i | first <= i < |acts| && !sessionFailed ensures GoneAt(acts[i].host, history, at) {
      assert acts[i].host !in history[at].connected;
    }
  }

  lemma GoneSince(acts: seq<Act>, first: nat, history: seq<Moment>, from: nat, earlier: nat, t: TaskId, sessionFailed: bool)
    requires GoneOrFailed(acts, first, history, from, t, sessionFailed) && earlier <= from
    ensures GoneOrFailed(acts, first, history, earlier, t, sessionFailed)
  {
    forall i | first <= i < |acts| && !sessionFailed ensures GoneAt(acts[i].host, history, earlier) {
      var k :| from <= k < |history| && acts[i].host !in history[k].connected;
    }
  }

  lemma GoneAdds(acts: seq<Act>, more: seq<Act>, first: nat, history: seq<Moment>, later: seq<Moment>,
                 from: nat, after: nat, t: TaskId, sessionFailed: bool)
    requires GoneOrFailed(acts, first, history, from, t, sessionFailed) && history <= later && acts <= more
    requires GoneOrFailed(more, |acts|, later, after, t, sessionFailed) && from <= after
    ensures GoneOrFailed(more, first, later, from, t, sessionFailed)
  {
    GoneSince(more, |acts|, later, after, from, t, sessionFailed);
    forall i | first <= i < |acts|
      ensures more[i] == Fails(t, more[i].host) && (sessionFailed || GoneAt(more[i].host, later, from))
    {
      assert more[i] == acts[i];
      if !sessionFailed {
        var k :| from <= k < |history| && acts[i].host !in history[k].connected;
        assert later[k] == history[k];
      }
    }
  }

  lemma WokenAdds(acts: seq<Act>, more: seq<Act>, first: nat, woken: seq<HostId>, later: seq<HostId>, since: nat)
    requires FailedAreWoken(acts, first, woken, since) && acts <= more && woken <= later
    requires FailedAreWoken(more, |acts|, later, |woken|)
    ensures FailedAreWoken(more, first, later, since)
  {
    assert later[since..] == woken[since..] + later[|woken|..];
    forall i | first <= i < |acts| ensures more[i].host in later[since..] {
      assert more[i] == acts[i];
    }
  }

  lemma StayWoken(woken: seq<HostId>, later: seq<HostId>, earlier: nat, since: nat)
    requires earlier <= since <= |woken| && woken <= later
    ensures forall h :: h in woken[since..] ==> h in later[earlier..]
  {
    assert later[earlier..] == (woken[earlier..since] + woken[since..]) + later[|woken|..];
  }

  lemma SameKindAround(before: seq<Task>, after: seq<Task>, t: TaskId, closed: bool)
    requires Evolves(before, after, closed) && t < |before|
    ensures t < |after| && after[t].kind == before[t].kind && Advances(before, after, t, closed)
  {
    assert TaskEvolves(before[t], after[t]);
  }

  lemma SameKind(before: seq<Task>, after: seq<Task>, t: TaskId, closed: bool)
    requires Advances(before, after, t, closed) && t < |before|
    ensures after[t].kind == before[t].kind
  {
    assert TaskEvolves(before[t], after[t]) || TaskAdvances(before[t], after[t]);
  }

  lemma SmallerSet<T>(a: set<T>, b: set<T>)
    requires a < b
    ensures |a| < |b|
  {
    assert b == a + (b - a) && b - a != {};
  }

  method PendingOf(task: Task) returns (hosts: seq<HostId>)
    ensures forall h :: h in hosts <==> h in task.hosts && task.hosts[h].state == Pending
    ensures Any(task.hosts, {Pending}) ==> hosts != []
  {
    hosts := [];
    var left := set h | h in task.hosts && task.hosts[h].state == Pending;
    while left != {}
      invariant forall h :: h in hosts || h in left <==> h in task.hosts && task.hosts[h].state == Pending
      decreases |left|
    {
      assert (forall h :: h !in left) ==> left == {};
      var host :| host in left;
      hosts := hosts + [host];
      left := left - {host};
    }
  }

}

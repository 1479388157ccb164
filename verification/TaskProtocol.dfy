/**
 The protocol that keeps one host's agent at work: request handlers write the host's task rows and
 then wake the host's stream, the stream names the current task over a socket, and the agent starts,
 keeps or cancels it and asks again whenever it becomes idle.

 Every write, wake-up and message is a step of its own, so handlers, reconnects and ending tasks
 interleave freely. A handler checks the rows before it writes them, and what it saw may be out of date
 by then: the model lets every write come at any time.
 */
module TaskProtocol {
  import opened Options
  import opened HostQueue

  type Message = Option<TaskId>

  /** The host's registered stream. `attached` is set once the agent reads from it. */
  datatype Stream = Stream(
    computed: bool, attached: bool, open: bool,
    current: Message, token: bool, down: seq<Message>, up: nat)

  datatype Slot = Slot(id: TaskId, cancelled: bool)

  /** `working` lists the spawned task bodies that have not cleared the slot yet, `signalling` counts
      those that have cleared it and not yet raised the idle flag. */
  datatype Agent = Agent(slot: Option<Slot>, working: seq<TaskId>, signalling: nat, idleFlag: bool)

  /** `owed` counts the wake-ups that handlers have yet to send for writes already made; `claimed` is the
      multicast whose session has claimed this host and not yet read whom to wake. */
  datatype State = State(rows: seq<Row>, owed: nat, claimed: Option<TaskId>, stream: Option<Stream>, agent: Agent)

  const IDLE_AGENT := Agent(None, [], 0, false)

  datatype Action =
    // handlers and the multicast worker
    | CreateTask(row: Row)
    | CreateMulticast(row: Row)
    | CancelTask(id: TaskId)
    | CancelUnseen(id: TaskId)
    | Kick(id: TaskId)
    | RetryTask(id: TaskId)
    | RetryMulticast(id: TaskId)
    | ClaimStart(id: TaskId)
    | ClaimBusy(id: TaskId)
    | ReadParticipants
    | SettleFailed(id: TaskId)
    | SettleGone(id: TaskId)
    | ReportStarted(id: TaskId)
    | ReportSettled(id: TaskId, outcome: RowState)
    | LookFails(id: TaskId)
    | GiveUp
    | Dispatch
    // the stream
    | Accept
    | Compute
    | Wake
    | Asked
    | Deregister
    | Lose
    // the agent
    | Attach
    | Receive
    | EndTask(body: nat)
    | Signal
    | SendIdle
    | CancelLocally(id: TaskId)
    | Restart

  // ----- the agent and the stream, step by step ------------------------------------------------

  /** What the agent does with a message naming its current task. */
  function HandleMessage(agent: Agent, message: Message): Agent {
    if agent.slot.Some? then
      if message.Some? && message.value == agent.slot.value.id then agent
      else agent.(slot := Some(agent.slot.value.(cancelled := true)))
    else if message.Some? then
      agent.(slot := Some(Slot(message.value, false)), working := agent.working + [message.value])
    else agent
  }

  /** The agent's user cancels the task, if it is the running one. */
  function CancelIfRunning(agent: Agent, id: TaskId): Agent {
    if agent.slot.Some? && agent.slot.value.id == id then agent.(slot := Some(Slot(id, true))) else agent
  }

  function WithoutBody(working: seq<TaskId>, body: nat): seq<TaskId>
    requires body < |working|
  {
    working[..body] + working[body + 1..]
  }

  /** One pass of the stream's loop after a wake-up or, when `asked`, after the agent's question. */
  function Answer(stream: Stream, found: Message, asked: bool): Stream {
    stream.(current := found,
            down := if asked || found != stream.current then stream.down + [found] else stream.down)
  }

  // ----- the transition system -------------------------------------------------------------------

  predicate HasRow(rows: seq<Row>, id: TaskId, states: set<RowState>) {
    exists i :: 0 <= i < |rows| && rows[i].id == id && rows[i].state in states
  }

  predicate OfKind(rows: seq<Row>, id: TaskId, multicast: bool) {
    forall i :: 0 <= i < |rows| && rows[i].id == id ==> rows[i].multicast == multicast
  }

  predicate IsNext(rows: seq<Row>, id: TaskId) {
    GetNext(rows).Some? && GetNext(rows).value.id == id
  }

  predicate IsRunning(rows: seq<Row>, id: TaskId) {
    HasRow(rows, id, {Running})
  }

  /** `CancelUnseen` cancels a row that was not active when the handler read it, `SettleGone` fails one
      whose host was not connected when the session was settled: both wake nobody, like `ClaimBusy` and
      the two reports. `LookFails` is the look of a stream lost meanwhile, which still fails a row that it
      found unable to run. `GiveUp` is a handler that fails, or is dropped, after its write and before its
      wake-up. */
  predicate Enabled(s: State, a: Action) {
    match a
    case CreateTask(row) => row.state == Pending && !row.multicast
    case CreateMulticast(row) => row.state == Pending && row.multicast
    case CancelTask(_) => true
    case CancelUnseen(_) => true
    case Kick(_) => true
    case RetryTask(_) => true
    case RetryMulticast(id) => OfKind(s.rows, id, true)
    case ClaimStart(id) => OfKind(s.rows, id, true) && (s.claimed.Some? ==> s.claimed.value == id)
    case ClaimBusy(_) => true
    case ReadParticipants => s.claimed.Some?
    case SettleFailed(_) => true
    case SettleGone(_) => true
    case ReportStarted(id) => OfKind(s.rows, id, false) && s.claimed != Some(id)
    case ReportSettled(_, outcome) => outcome in {Done, Failed}
    case LookFails(_) => true
    case GiveUp => s.owed > 0
    case Dispatch => s.owed > 0
    case Accept => true
    case Compute => s.stream.Some? && !s.stream.value.computed
    case Wake => s.stream.Some? && s.stream.value.computed && s.stream.value.token
    case Asked => s.stream.Some? && s.stream.value.computed && s.stream.value.up > 0
    case Deregister => s.stream.Some?
    case Lose => s.stream.Some?
    case Attach => s.stream.Some? && s.stream.value.computed && !s.stream.value.attached
    case Receive => s.stream.Some? && s.stream.value.attached && s.stream.value.down != []
    case EndTask(body) => body < |s.agent.working|
    case Signal => s.agent.signalling > 0
    case SendIdle => s.stream.Some? && s.stream.value.attached && s.agent.idleFlag
    case CancelLocally(_) => true
    case Restart => true
  }

  /** A write followed, in a later step, by a wake-up. */
  function Announced(s: State, rows: seq<Row>): State {
    s.(rows := rows, owed := s.owed + 1)
  }

  function OnRows(s: State, a: Action): State
    requires Enabled(s, a)
  {
    match a
    case CreateTask(row) => Announced(s, s.rows + [row])
    case CreateMulticast(row) => s.(rows := s.rows + [row])
    case CancelTask(id) => Announced(s, SetState(s.rows, id, {Pending, Running}, Cancelled))
    case CancelUnseen(id) => s.(rows := SetState(s.rows, id, {Pending, Running}, Cancelled))
    case Kick(id) => Announced(s, MarkFailed(s.rows, id))
    case RetryTask(id) => Announced(s, SetState(s.rows, id, {Failed, Cancelled}, Pending))
    case RetryMulticast(id) => s.(rows := SetState(s.rows, id, {Failed, Cancelled}, Pending))
    case ClaimStart(id) => s.(rows := SetState(s.rows, id, {Pending, Running}, Running), claimed := Some(id))
    case ClaimBusy(id) => s.(rows := MarkFailed(s.rows, id))
    case ReadParticipants =>
      s.(claimed := None, owed := s.owed + if IsRunning(s.rows, s.claimed.value) then 1 else 0)
    case SettleFailed(id) =>
      Announced(s, MarkFailed(s.rows, id)).(claimed := if s.claimed == Some(id) then None else s.claimed)
    case SettleGone(id) => s.(rows := MarkFailed(s.rows, id))
    case ReportStarted(id) => s.(rows := SetState(s.rows, id, {Pending, Running}, Running))
    case ReportSettled(id, outcome) => s.(rows := SetState(s.rows, id, {Pending, Running}, outcome))
    case LookFails(id) => s.(rows := MarkFailed(s.rows, id))
    case GiveUp => s.(owed := s.owed - 1)
    case _ => s
  }

  function OnStream(s: State, a: Action): State
    requires Enabled(s, a)
  {
    match a
    case Dispatch =>
      var woken := s.(owed := s.owed - 1);
      if s.stream.Some? && s.stream.value.open
      then woken.(stream := Some(s.stream.value.(token := true)))
      else woken
    case Accept => s.(stream := Some(Stream(false, false, true, None, false, [], 0)))
    case Compute =>
      var found := Lookup(s.rows);
      s.(rows := found.rows,
         stream := Some(s.stream.value.(computed := true, current := found.current, down := [found.current])))
    case Wake =>
      var found := Lookup(s.rows);
      s.(rows := found.rows,
         stream := Some(Answer(s.stream.value, found.current, false).(token := false)))
    case Asked =>
      var found := Lookup(s.rows);
      s.(rows := found.rows,
         stream := Some(Answer(s.stream.value, found.current, true).(up := s.stream.value.up - 1)))
    case Deregister => s.(stream := Some(s.stream.value.(open := false)))
    case Lose => s.(stream := None)
    case _ => s
  }

  function OnAgent(s: State, a: Action): State
    requires Enabled(s, a)
  {
    match a
    case Attach =>
      s.(stream := Some(s.stream.value.(attached := true)), agent := s.agent.(idleFlag := false))
    case Receive =>
      s.(stream := Some(s.stream.value.(down := s.stream.value.down[1..])),
         agent := HandleMessage(s.agent, s.stream.value.down[0]))
    case EndTask(body) =>
      s.(agent := s.agent.(slot := None, working := WithoutBody(s.agent.working, body),
                           signalling := s.agent.signalling + 1))
    case Signal => s.(agent := s.agent.(signalling := s.agent.signalling - 1, idleFlag := true))
    case SendIdle =>
      s.(stream := Some(s.stream.value.(up := s.stream.value.up + 1)),
         agent := s.agent.(idleFlag := false))
    case CancelLocally(id) => s.(agent := CancelIfRunning(s.agent, id))
    case Restart => s.(stream := None, agent := IDLE_AGENT)
    case _ => s
  }

  predicate OfHandlers(a: Action) {
    a.CreateTask? || a.CreateMulticast? || a.CancelTask? || a.CancelUnseen? || a.Kick? || a.RetryTask?
    || a.RetryMulticast? || a.ClaimStart? || a.ClaimBusy? || a.ReadParticipants? || a.SettleFailed?
    || a.SettleGone? || a.ReportStarted? || a.ReportSettled? || a.LookFails? || a.GiveUp?
  }

  predicate OfStream(a: Action) {
    a.Dispatch? || a.Accept? || a.Compute? || a.Wake? || a.Asked? || a.Deregister? || a.Lose?
  }

  function Apply(s: State, a: Action): State
    requires Enabled(s, a)
  {
    if OfHandlers(a) then OnRows(s, a) else if OfStream(a) then OnStream(s, a) else OnAgent(s, a)
  }

  // ----- what every step keeps -------------------------------------------------------------------

  /** A task named by a message the agent has not read. */
  predicate Delivering(down: seq<Message>) {
    exists i :: 0 <= i < |down| && down[i].Some?
  }

  /** The agent is about to ask what to do next. */
  predicate Asking(s: State)
    requires s.stream.Some?
  {
    s.agent.signalling > 0 || s.agent.idleFlag || s.stream.value.up > 0
  }

  /** One task at a time: the slot names the only body that has not cleared it. */
  predicate SingleFlight(agent: Agent) {
    agent.working == match agent.slot case None => [] case Some(running) => [running.id]
  }

  /** The agent works, is being handed work or will ask for it. */
  predicate Served(s: State)
    requires s.stream.Some?
  {
    var stream := s.stream.value;
    Delivering(stream.down) || (stream.attached && (s.agent.slot.Some? || Asking(s)))
  }

  /** The session will wake the host, unless something changes the host's row before it looks. */
  predicate ClaimPending(s: State) {
    s.claimed.Some? && IsRunning(s.rows, s.claimed.value)
  }

  /** The stream will look at the rows again. */
  predicate Awaited(s: State)
    requires s.stream.Some?
  {
    s.stream.value.token || s.owed > 0 || ClaimPending(s)
  }

  /** What the stream has found is what it says last; what the agent works on is what it heard last. */
  predicate WireInv(s: State)
    requires s.stream.Some? && s.stream.value.computed
  {
    var stream := s.stream.value;
    && (stream.down != [] ==> stream.down[|stream.down| - 1] == stream.current)
    && (!stream.attached ==> stream.down != [])
    && (stream.down == [] && s.agent.slot.Some? ==>
          s.agent.slot.value.cancelled || stream.current == Some(s.agent.slot.value.id))
  }

  predicate StreamInv(s: State)
    requires s.stream.Some?
  {
    var stream := s.stream.value;
    && (stream.attached ==> stream.computed)
    && (stream.computed ==>
          && WireInv(s)
          && (Served(s) || stream.current == None)
          && (stream.open ==> Awaited(s) || Served(s) || Blocked(s.rows)))
    && (!stream.attached ==> stream.up == 0)
  }

  predicate Inv(s: State) {
    SingleFlight(s.agent) && (s.stream.Some? ==> StreamInv(s))
  }

  /** The start of a run: any rows, no connection, no claim, an idle agent. */
  predicate Init(s: State) {
    s.stream == None && s.claimed == None && s.agent == IDLE_AGENT
  }

  lemma InitHolds(s: State)
    requires Init(s)
    ensures Inv(s)
  {
  }

  /** Nobody will look at the rows of a connected host again unless something wakes its stream. */
  predicate Unwatched(s: State) {
    && s.stream.Some? && s.stream.value.computed && s.stream.value.open
    && !s.stream.value.token && s.owed == 0 && !Served(s)
  }

  /** Writes that settle a row of the host and wake nobody. */
  predicate SettlesSilently(a: Action) {
    a.ClaimBusy? || a.SettleGone? || a.CancelUnseen? || a.ReportSettled? || a.LookFails?
  }

  function Outcome(a: Action): RowState
    requires SettlesSilently(a)
  {
    if a.ReportSettled? then a.outcome else if a.CancelUnseen? then Cancelled else Failed
  }

  /** A write that wakes nobody takes away the row the host waits behind, or the claimed row its session
      would have woken it for, and there is a task behind it; or it starts a row that the host was not
      told about; or the last wake-up that was owed is lost, with a task to hand out. */
  predicate Orphans(s: State, a: Action)
    requires Enabled(s, a)
  {
    if a.GiveUp? then s.owed == 1 && Unwatched(s.(owed := 0)) && !ClaimPending(s) && !Blocked(s.rows)
    else
      Unwatched(s)
      && if SettlesSilently(a) then (ClaimPending(s) ==> s.claimed == Some(a.id)) && HasTaskBehind(s.rows, a.id)
         else a.ReportStarted? && !ClaimPending(s) && HasRow(s.rows, a.id, {Pending})
  }

  lemma AppendedMessage(down: seq<Message>, m: Message)
    ensures Delivering(down + [m]) <==> Delivering(down) || m.Some?
  {
    if m.Some? {
      assert (down + [m])[|down|].Some?;
    }
    if Delivering(down) {
      var i :| 0 <= i < |down| && down[i].Some?;
      assert (down + [m])[i].Some?;
    }
  }

  lemma DroppedMessage(down: seq<Message>)
    requires down != [] && down[0].None?
    ensures Delivering(down[1..]) <==> Delivering(down)
  {
    if Delivering(down) {
      var i :| 0 <= i < |down| && down[i].Some?;
      assert down[1..][i - 1].Some?;
    }
  }

  /** A running row stays running under every write that does not settle it. */
  lemma OtherRowKeepsRunning(rows: seq<Row>, id: TaskId, from: set<RowState>, to: RowState, other: TaskId)
    requires IsRunning(rows, other) && (id != other || to == Running || Running !in from)
    ensures IsRunning(SetState(rows, id, from, to), other)
  {
    var i :| 0 <= i < |rows| && rows[i].id == other && rows[i].state in {Running};
    assert SetState(rows, id, from, to)[i].state == Running;
  }

  /** What is left of a claim when a row of the host is settled. */
  lemma SettlingKeepsClaim(rows: seq<Row>, id: TaskId, outcome: RowState, claimed: TaskId)
    requires outcome != Pending && outcome != Running
    ensures IsRunning(SetState(rows, id, {Pending, Running}, outcome), claimed)
        <==> IsRunning(rows, claimed) && id != claimed
  {
    if IsRunning(rows, claimed) && id != claimed {
      OtherRowKeepsRunning(rows, id, {Pending, Running}, outcome, claimed);
    }
  }

  /** Starting a task makes its row run, or finds no row to start and changes nothing. */
  lemma StartingRuns(rows: seq<Row>, id: TaskId)
    ensures var after := SetState(rows, id, {Pending, Running}, Running);
      (HasRow(rows, id, {Pending}) ==> IsRunning(after, id))
      && (!HasRow(rows, id, {Pending}) ==> after == rows)
      && forall other :: other != id && IsRunning(after, other) ==> IsRunning(rows, other)
  {
    var after := SetState(rows, id, {Pending, Running}, Running);
    if HasRow(rows, id, {Pending}) {
      var i :| 0 <= i < |rows| && rows[i].id == id && rows[i].state in {Pending};
      assert after[i].state == Running;
    } else {
      forall i | 0 <= i < |rows| ensures after[i] == rows[i] {
      }
    }
  }

  lemma RunningIsNotBlocked(rows: seq<Row>, id: TaskId)
    requires IsRunning(rows, id)
    ensures !Blocked(rows)
  {
    var i :| 0 <= i < |rows| && rows[i].id == id && rows[i].state in {Running};
    assert rows[i] in rows;
  }

  /** A listening stream serves its agent, will look at the rows again, or has nothing to name. */
  predicate Heeded(s: State) {
    s.stream.Some? && s.stream.value.computed && s.stream.value.open ==> Awaited(s) || Served(s) || Blocked(s.rows)
  }

  /** Steps of handlers touch neither the connection nor the agent. */
  lemma OnlyHeededMatters(s: State, t: State)
    requires Inv(s) && t.agent == s.agent && t.stream == s.stream
    ensures Inv(t) <==> Heeded(t)
  {
  }

  lemma InvIsHeeded(s: State)
    requires Inv(s)
    ensures Heeded(s)
  {
  }

  lemma HandlersTouchNoConnection(s: State, a: Action)
    requires Enabled(s, a) && OfHandlers(a)
    ensures Apply(s, a).agent == s.agent && Apply(s, a).stream == s.stream
    ensures !a.GiveUp? ==> Apply(s, a).owed >= s.owed
    ensures SettlesSilently(a) || a.ReportStarted? ==> Apply(s, a).owed == s.owed && Apply(s, a).claimed == s.claimed
  {
  }

  lemma SessionsKeepHeeded(s: State, a: Action)
    requires Inv(s) && Enabled(s, a) && (a.ReadParticipants? || a.ClaimStart?)
    ensures Heeded(Apply(s, a))
  {
    InvIsHeeded(s);
    if a.ClaimStart? {
      StartingRuns(s.rows, a.id);
    }
  }

  /** Multicasts that wait for a session are added and reopened without a wake-up. */
  lemma MulticastsKeepHeeded(s: State, a: Action)
    requires Inv(s) && Enabled(s, a) && (a.CreateMulticast? || a.RetryMulticast?)
    ensures Heeded(Apply(s, a))
  {
    InvIsHeeded(s);
    var after := Apply(s, a).rows;
    if Blocked(s.rows) {
      if a.CreateMulticast? {
        AppendingMulticastKeepsBlocked(s.rows, a.row);
      } else {
        ReopeningMulticastKeepsBlocked(s.rows, a.id);
      }
    }
    if ClaimPending(s) {
      var i :| 0 <= i < |s.rows| && s.rows[i].id == s.claimed.value && s.rows[i].state in {Running};
      assert after[i] == s.rows[i];
    }
  }

  lemma SilentWritesKeepClaim(s: State, a: Action)
    requires Enabled(s, a) && SettlesSilently(a)
    ensures ClaimPending(Apply(s, a)) <==> ClaimPending(s) && s.claimed != Some(a.id)
    ensures Blocked(Apply(s, a).rows) <==> !HasTaskBehind(s.rows, a.id)
  {
    SettlingShowsWhatIsBehind(s.rows, a.id, Outcome(a));
    if s.claimed.Some? {
      SettlingKeepsClaim(s.rows, a.id, Outcome(a), s.claimed.value);
    }
  }

  lemma SettlingOrphans(s: State, a: Action)
    requires Inv(s) && Enabled(s, a) && SettlesSilently(a)
    ensures Heeded(Apply(s, a)) <==> !Orphans(s, a)
  {
    HandlersTouchNoConnection(s, a);
    SilentWritesKeepClaim(s, a);
  }

  lemma StartingOrphans(s: State, a: Action)
    requires Inv(s) && Enabled(s, a) && a.ReportStarted?
    ensures Heeded(Apply(s, a)) <==> !Orphans(s, a)
  {
    HandlersTouchNoConnection(s, a);
    InvIsHeeded(s);
    StartingRuns(s.rows, a.id);
    if ClaimPending(s) {
      OtherRowKeepsRunning(s.rows, a.id, {Pending, Running}, Running, s.claimed.value);
    }
    if HasRow(s.rows, a.id, {Pending}) {
      RunningIsNotBlocked(Apply(s, a).rows, a.id);
    }
  }

  lemma GivingUpOrphans(s: State)
    requires Inv(s) && Enabled(s, GiveUp)
    ensures Heeded(Apply(s, GiveUp)) <==> !Orphans(s, GiveUp)
  {
  }

  lemma HandlersKeepInv(s: State, a: Action)
    requires Inv(s) && Enabled(s, a) && OfHandlers(a)
    ensures Inv(Apply(s, a)) <==> !Orphans(s, a)
  {
    HandlersTouchNoConnection(s, a);
    OnlyHeededMatters(s, Apply(s, a));
    if SettlesSilently(a) {
      SettlingOrphans(s, a);
    } else if a.ReportStarted? {
      StartingOrphans(s, a);
    } else if a.GiveUp? {
      GivingUpOrphans(s);
    } else if a.CreateMulticast? || a.RetryMulticast? {
      MulticastsKeepHeeded(s, a);
    } else if a.ReadParticipants? || a.ClaimStart? {
      SessionsKeepHeeded(s, a);
    }
  }

  lemma ComputeKeepsInv(s: State)
    requires Inv(s) && Enabled(s, Compute)
    ensures Inv(Apply(s, Compute))
  {
    var found := Lookup(s.rows).current;
    if found.Some? {
      assert [found][0].Some?;
    }
  }

  lemma AnswerKeepsInv(s: State, a: Action)
    requires Inv(s) && Enabled(s, a) && (a.Wake? || a.Asked?)
    ensures Inv(Apply(s, a))
  {
    AppendedMessage(s.stream.value.down, Lookup(s.rows).current);
  }

  lemma StreamKeepsInv(s: State, a: Action)
    requires Inv(s) && Enabled(s, a) && OfStream(a)
    ensures Inv(Apply(s, a))
  {
    match a {
      case Compute => ComputeKeepsInv(s);
      case Wake => AnswerKeepsInv(s, a);
      case Asked => AnswerKeepsInv(s, a);
      case _ =>
    }
  }

  lemma AgentKeepsInv(s: State, a: Action)
    requires Inv(s) && Enabled(s, a) && !OfHandlers(a) && !OfStream(a)
    ensures Inv(Apply(s, a))
  {
    match a {
      case Receive =>
        if s.stream.value.down[0].None? {
          DroppedMessage(s.stream.value.down);
        }
      case _ =>
    }
  }

  /** Which steps keep the invariant: all of them but the writes that orphan a host. */
  lemma StepKeepsInv(s: State, a: Action)
    requires Inv(s) && Enabled(s, a)
    ensures Inv(Apply(s, a)) <==> !Orphans(s, a)
  {
    if OfHandlers(a) {
      HandlersKeepInv(s, a);
    } else if OfStream(a) {
      StreamKeepsInv(s, a);
    } else {
      AgentKeepsInv(s, a);
    }
  }

  // ----- whole runs ------------------------------------------------------------------------------

  ghost predicate Reaches(s: State, actions: seq<Action>, t: State)
    decreases |actions|
  {
    if actions == [] then s == t
    else Enabled(s, actions[0]) && Reaches(Apply(s, actions[0]), actions[1..], t)
  }

  lemma {:induction false} ReachesExtends(s: State, actions: seq<Action>, t: State, a: Action)
    requires Reaches(s, actions, t) && Enabled(t, a)
    ensures Reaches(s, actions + [a], Apply(t, a))
    decreases |actions|
  {
    if actions == [] {
      assert actions + [a] == [a];
    } else {
      assert (actions + [a])[0] == actions[0] && (actions + [a])[1..] == actions[1..] + [a];
      ReachesExtends(Apply(s, actions[0]), actions[1..], t, a);
    }
  }

  predicate Connected(s: State) {
    s.stream.Some? && s.stream.value.open
  }

  /** The guards that make the silent writes safe, were they still to hold when the write is made: a host
      is failed as busy only while another task is ahead of this one, as gone only while its row is not
      waiting for a session again; a cancel that wakes nobody settles no multicast; a started task is the
      host's next one; neither a report, which no handler checks, nor a lost stream's look settles a
      multicast that waits for its session; no row that a session has claimed is settled before the session has woken the host for it; and
      a handler that has written reaches its wake-up, unless another one follows or nobody listens. */
  predicate Careful(s: State, a: Action) {
    match a
    case ClaimBusy(id) => GetNext(s.rows).Some? && !IsNext(s.rows, id) && s.claimed != Some(id)
    case SettleGone(id) => !HasRow(s.rows, id, {Pending}) && s.claimed != Some(id)
    case CancelUnseen(id) =>
      HasRow(s.rows, id, {Pending, Running}) ==> OfKind(s.rows, id, false) && s.claimed != Some(id)
    case ReportStarted(id) => HasRow(s.rows, id, {Pending}) ==> IsNext(s.rows, id)
    case ReportSettled(id, _) =>
      (HasRow(s.rows, id, {Pending}) ==> OfKind(s.rows, id, false)) && s.claimed != Some(id)
    case LookFails(id) =>
      (HasRow(s.rows, id, {Pending}) ==> OfKind(s.rows, id, false)) && s.claimed != Some(id)
    case GiveUp => s.owed > 1 || !Connected(s)
    case _ => true
  }

  lemma NextIsARow(rows: seq<Row>)
    requires GetNext(rows).Some?
    ensures HasRow(rows, GetNext(rows).value.id, {GetNext(rows).value.state})
    ensures forall kind :: OfKind(rows, GetNext(rows).value.id, kind) ==> GetNext(rows).value.multicast == kind
  {
    var next := GetNext(rows).value;
    var i :| 0 <= i < |rows| && rows[i] == next;
    assert rows[i].id == next.id && rows[i].state in {next.state};
  }

  lemma CarefulNeverOrphans(s: State, a: Action)
    requires Inv(s) && Enabled(s, a) && Careful(s, a)
    ensures !Orphans(s, a)
  {
    if SettlesSilently(a) {
      CarefulSettlingNeverOrphans(s, a);
    } else if a.ReportStarted? && GetNext(s.rows).Some? {
      NextIsARow(s.rows);
    }
  }

  /** What may be settled on a blocked host without a wake-up is not the row the host waits behind. */
  lemma CarefulIsNotNext(s: State, a: Action)
    requires SettlesSilently(a) && Careful(s, a) && Blocked(s.rows)
    ensures !IsNext(s.rows, a.id)
  {
    if GetNext(s.rows).Some? {
      NextIsARow(s.rows);
    }
  }

  lemma CarefulSettlingNeverOrphans(s: State, a: Action)
    requires Inv(s) && Enabled(s, a) && SettlesSilently(a) && Careful(s, a)
    ensures !Orphans(s, a)
  {
    if Blocked(s.rows) {
      CarefulIsNotNext(s, a);
      OnlyTheNextHides(s.rows, a.id);
    }
  }

  ghost predicate CarefulRun(s: State, actions: seq<Action>, t: State)
    decreases |actions|
  {
    if actions == [] then s == t
    else
      && Enabled(s, actions[0]) && Careful(s, actions[0])
      && CarefulRun(Apply(s, actions[0]), actions[1..], t)
  }

  lemma {:induction false} CarefulRunsKeepInv(s: State, actions: seq<Action>, t: State)
    requires Inv(s) && CarefulRun(s, actions, t)
    ensures Inv(t)
    decreases |actions|
  {
    if actions != [] {
      CarefulNeverOrphans(s, actions[0]);
      StepKeepsInv(s, actions[0]);
      CarefulRunsKeepInv(Apply(s, actions[0]), actions[1..], t);
    }
  }

  /** Nothing is outstanding on either side of the connection, and no session has still to look. */
  predicate Quiet(s: State) {
    && Connected(s)
    && s.stream.value.attached && s.stream.value.down == [] && s.stream.value.up == 0
    && !s.stream.value.token && s.owed == 0 && s.claimed == None
    && s.agent.signalling == 0 && !s.agent.idleFlag
  }

  /** The step stops task `id`, which is running: the agent's user cancels it, or the agent reads a message
      that does not name it. */
  predicate Stops(s: State, a: Action, id: TaskId)
    requires Enabled(s, a)
  {
    s.agent.slot == Some(Slot(id, false))
    && (a == CancelLocally(id) || (a.Receive? && s.stream.value.down[0] != Some(id)))
  }

  /** A running task is told to stop by these steps and by no others. */
  lemma OnlyStopsStop(s: State, a: Action, id: TaskId)
    requires Enabled(s, a) && s.agent.slot == Some(Slot(id, false))
    ensures Apply(s, a).agent.slot == Some(Slot(id, true)) <==> Stops(s, a, id)
    ensures Apply(s, a).agent.slot.Some? ==> Apply(s, a).agent.slot.value.id == id
    ensures Apply(s, a).agent.slot.None? ==> a.EndTask? || a.Restart?
  {
  }

  /** An idle agent starts a task exactly when it reads a message naming it, and nothing revives a task that
      was told to stop. */
  lemma OnlyMessagesStart(s: State, a: Action, id: TaskId)
    requires Enabled(s, a) && s.agent.slot != Some(Slot(id, false))
    ensures Apply(s, a).agent.slot == Some(Slot(id, false))
       <==> a.Receive? && s.agent.slot.None? && s.stream.value.down[0] == Some(id)
    ensures Apply(s, a).agent.slot == Some(Slot(id, true)) ==> s.agent.slot == Some(Slot(id, true))
  {
  }

  /** At some point of the run the running task `id` was told to stop. */
  ghost predicate ToldToStop(s: State, actions: seq<Action>, id: TaskId)
    decreases |actions|
  {
    actions != [] && Enabled(s, actions[0])
    && (Stops(s, actions[0], id) || ToldToStop(Apply(s, actions[0]), actions[1..], id))
  }

  /** Over every run: a task is cancelled in the end only if it was so at the start or was told to stop. */
  lemma {:induction false} CancelledWasToldToStop(s: State, actions: seq<Action>, t: State, id: TaskId)
    requires Reaches(s, actions, t) && t.agent.slot == Some(Slot(id, true))
    ensures s.agent.slot == Some(Slot(id, true)) || ToldToStop(s, actions, id)
    decreases |actions|
  {
    if actions != [] {
      CancelledWasToldToStop(Apply(s, actions[0]), actions[1..], t, id);
      if s.agent.slot == Some(Slot(id, false)) {
        OnlyStopsStop(s, actions[0], id);
      } else {
        OnlyMessagesStart(s, actions[0], id);
      }
    }
  }

  lemma {:induction false} CarefulRunsReach(s: State, actions: seq<Action>, t: State)
    requires CarefulRun(s, actions, t)
    ensures Reaches(s, actions, t)
    decreases |actions|
  {
    if actions != [] {
      CarefulRunsReach(Apply(s, actions[0]), actions[1..], t);
    }
  }

  /** No host is left idle with work to do, no agent ever works on two tasks, and what an agent works on
      is the last task the server found for it, unless it was told to stop: by its user, or by a message that
      did not name its task. */
  lemma NoLostWakeUp(s: State, actions: seq<Action>, t: State)
    requires Init(s) && CarefulRun(s, actions, t)
    ensures |t.agent.working| <= 1 && (t.agent.slot.Some? <==> |t.agent.working| == 1)
    ensures Quiet(t) && Current(t.rows).Some? ==> t.agent.slot.Some?
    ensures Quiet(t) && t.agent.slot.None? ==> t.stream.value.current == None
    ensures Quiet(t) && t.agent.slot.Some? ==>
              t.agent.slot.value.cancelled || t.stream.value.current == Some(t.agent.slot.value.id)
    ensures t.agent.slot.Some? && t.agent.slot.value.cancelled ==> ToldToStop(s, actions, t.agent.slot.value.id)
  {
    InitHolds(s);
    CarefulRunsKeepInv(s, actions, t);
    if t.agent.slot.Some? && t.agent.slot.value.cancelled {
      CarefulRunsReach(s, actions, t);
      CancelledWasToldToStop(s, actions, t, t.agent.slot.value.id);
    }
    if Quiet(t) && t.agent.slot.None? {
      assert Blocked(t.rows);
      BlockedHasNoCurrent(t.rows);
    }
  }

  // ----- the outstanding work always runs out ----------------------------------------------------

  /** Steps that only carry out what is already outstanding. */
  predicate Internal(a: Action) {
    a.ReadParticipants? || a.Dispatch? || a.Compute? || a.Wake? || a.Asked? || a.Attach? || a.Receive? || a.Signal? || a.SendIdle?
  }

  function Outstanding(s: State): nat {
    3 * s.owed + (if s.claimed.Some? then 4 else 0) + 4 * s.agent.signalling + (if s.agent.idleFlag then 3 else 0)
    + match s.stream
      case None => 0
      case Some(stream) =>
        |stream.down| + 2 * stream.up + (if stream.token then 2 else 0)
        + (if stream.computed then 0 else 2) + (if stream.attached then 0 else 1)
  }

  lemma OutstandingShrinks(s: State, a: Action)
    requires s.stream.Some? && !s.stream.value.computed ==> !s.stream.value.attached && s.stream.value.up == 0
    requires Enabled(s, a) && Internal(a)
    ensures Outstanding(Apply(s, a)) < Outstanding(s)
  {
  }

  lemma InternalStepsStayConnected(s: State, a: Action)
    requires Connected(s) && Enabled(s, a) && Internal(a)
    ensures Connected(Apply(s, a))
  {
  }

  lemma InternalStepsShrink(s: State, a: Action)
    requires Inv(s) && Enabled(s, a) && Internal(a)
    ensures Outstanding(Apply(s, a)) < Outstanding(s)
    ensures Inv(Apply(s, a)) && (Connected(s) ==> Connected(Apply(s, a)))
  {
    StepKeepsInv(s, a);
    OutstandingShrinks(s, a);
    if Connected(s) {
      InternalStepsStayConnected(s, a);
    }
  }

  ghost predicate InternalRun(s: State, actions: seq<Action>, t: State) {
    Reaches(s, actions, t) && forall a :: a in actions ==> Internal(a)
  }

  /** However the outstanding steps interleave, they end after a bounded number. */
  lemma {:induction false} InternalRunsEnd(s: State, actions: seq<Action>, t: State)
    requires Inv(s) && InternalRun(s, actions, t)
    ensures |actions| + Outstanding(t) <= Outstanding(s)
    ensures Inv(t) && (Connected(s) ==> Connected(t))
    decreases |actions|
  {
    if actions != [] {
      InternalStepsShrink(s, actions[0]);
      InternalRunsEnd(Apply(s, actions[0]), actions[1..], t);
    }
  }

  /** A connected host is quiet exactly when no outstanding step is left. */
  lemma StuckIsQuiet(s: State)
    requires Inv(s) && Connected(s)
    ensures Quiet(s) <==> forall a :: Internal(a) ==> !Enabled(s, a)
  {
    if !Quiet(s) {
      var a :=
        if s.claimed.Some? then ReadParticipants
        else if s.owed > 0 then Dispatch
        else if s.agent.signalling > 0 then Signal
        else if !s.stream.value.computed then Compute
        else if !s.stream.value.attached then Attach
        else if s.stream.value.token then Wake
        else if s.stream.value.up > 0 then Asked
        else if s.stream.value.down != [] then Receive
        else SendIdle;
      assert Internal(a) && Enabled(s, a);
    }
  }

  /** The stream has found what the rows hold now. */
  predicate UpToDate(s: State)
    requires s.stream.Some?
  {
    s.stream.value.computed && Lookup(s.rows) == LookedUp(s.rows, s.stream.value.current)
  }

  lemma InternalStepsKeepUpToDate(s: State, a: Action)
    requires Inv(s) && Connected(s) && Enabled(s, a) && Internal(a)
    requires !s.stream.value.computed || Awaited(s) || UpToDate(s)
    ensures Connected(Apply(s, a))
    ensures var t := Apply(s, a); !t.stream.value.computed || Awaited(t) || UpToDate(t)
  {
    LookupIsStable(s.rows);
  }

  lemma {:induction false} InternalRunsKeepUpToDate(s: State, actions: seq<Action>, t: State)
    requires Inv(s) && Connected(s) && InternalRun(s, actions, t)
    requires !s.stream.value.computed || Awaited(s) || UpToDate(s)
    ensures Connected(t) && (!t.stream.value.computed || Awaited(t) || UpToDate(t))
    decreases |actions|
  {
    if actions != [] {
      InternalStepsShrink(s, actions[0]);
      InternalStepsKeepUpToDate(s, actions[0]);
      InternalRunsKeepUpToDate(Apply(s, actions[0]), actions[1..], t);
    }
  }

  /** Left alone, a connected host with work to do ends up with its agent working: every way of
      carrying out the outstanding steps is finite, and where it ends the agent is not idle. When the
      stream had still to look at the rows, or had seen them as they are, what the agent works on in the
      end is the host's current task, or a task it has been told to stop. */
  lemma WorkIsDelivered(s: State, actions: seq<Action>, t: State)
    requires Inv(s) && Connected(s) && InternalRun(s, actions, t)
    requires forall a :: Internal(a) ==> !Enabled(t, a)
    ensures |actions| <= Outstanding(s)
    ensures Current(t.rows).Some? ==> t.agent.slot.Some?
    ensures !s.stream.value.computed || Awaited(s) || UpToDate(s) ==>
              (t.agent.slot.Some? && !t.agent.slot.value.cancelled ==> Current(t.rows) == Some(t.agent.slot.value.id))
    ensures t.agent.slot.Some? && t.agent.slot.value.cancelled ==>
              s.agent.slot == t.agent.slot || ToldToStop(s, actions, t.agent.slot.value.id)
  {
    InternalRunsEnd(s, actions, t);
    if t.agent.slot.Some? && t.agent.slot.value.cancelled {
      CancelledWasToldToStop(s, actions, t, t.agent.slot.value.id);
    }
    StuckIsQuiet(t);
    if t.agent.slot.None? {
      assert Blocked(t.rows);
      BlockedHasNoCurrent(t.rows);
    }
    if !s.stream.value.computed || Awaited(s) || UpToDate(s) {
      InternalRunsKeepUpToDate(s, actions, t);
    }
  }

  // ----- an orphaned host stays idle ---------------------------------------------------------------

  /** A host is idle, connected and quiet although the server has a task for it. */
  predicate LeftIdle(s: State) {
    Quiet(s) && Current(s.rows).Some? && s.agent.slot.None?
  }

  /** An idle agent will not ask, and nobody will make its stream look at the rows again. */
  predicate Forsaken(s: State) {
    && Unwatched(s) && !ClaimPending(s) && s.agent == IDLE_AGENT.(idleFlag := s.agent.idleFlag)
    && (s.stream.value.attached ==> !s.agent.idleFlag) && s.stream.value.up == 0
  }

  lemma ForsakenSteps(s: State, a: Action)
    requires Forsaken(s) && Enabled(s, a) && Internal(a)
    ensures Forsaken(Apply(s, a)) && Apply(s, a).rows == s.rows
  {
    match a {
      case Receive => DroppedMessage(s.stream.value.down);
      case _ =>
    }
  }

  lemma {:induction false} ForsakenRuns(s: State, actions: seq<Action>, t: State)
    requires Forsaken(s) && InternalRun(s, actions, t)
    ensures Forsaken(t) && t.rows == s.rows
    decreases |actions|
  {
    if actions != [] {
      ForsakenSteps(s, actions[0]);
      ForsakenRuns(Apply(s, actions[0]), actions[1..], t);
    }
  }

  lemma OrphanedIsForsaken(s: State, a: Action)
    requires Inv(s) && Enabled(s, a) && Orphans(s, a)
    requires s.agent.slot.None? && s.agent.signalling == 0
    ensures Forsaken(Apply(s, a))
  {
    HandlersTouchNoConnection(s, a);
    if SettlesSilently(a) {
      SilentWritesKeepClaim(s, a);
    } else if a.ReportStarted? {
      StartingRuns(s.rows, a.id);
    }
  }

  lemma StuckForsakenIsQuiet(s: State)
    requires Forsaken(s) && forall a :: Internal(a) ==> !Enabled(s, a)
    ensures Quiet(s)
  {
    assert Internal(Attach) && !Enabled(s, Attach);
    assert Internal(Receive) && !Enabled(s, Receive);
    assert Internal(ReadParticipants) && !Enabled(s, ReadParticipants);
  }

  /** After an orphaning write to a host whose agent is idle, every way of carrying out what is
      outstanding ends with the host left idle. */
  lemma OrphansAreLeftIdle(s: State, a: Action, actions: seq<Action>, t: State)
    requires Inv(s) && Enabled(s, a) && Orphans(s, a)
    requires s.agent.slot.None? && s.agent.signalling == 0 && Current(Apply(s, a).rows).Some?
    requires InternalRun(Apply(s, a), actions, t) && forall b :: Internal(b) ==> !Enabled(t, b)
    ensures LeftIdle(t)
  {
    OrphanedIsForsaken(s, a);
    ForsakenRuns(Apply(s, a), actions, t);
    StuckForsakenIsQuiet(t);
  }

  // ----- the runs that leave a host idle ---------------------------------------------------------

  function Working(id: TaskId): Agent {
    Agent(Some(Slot(id, false)), [id], 0, false)
  }

  /** An attached stream with nothing under way in either direction. */
  function Calm(current: Message): Stream {
    Stream(true, true, true, current, false, [], 0)
  }

  function At(rows: seq<Row>, stream: Option<Stream>, agent: Agent): State {
    State(rows, 0, None, stream, agent)
  }

  lemma ReadsItsTask(rows: seq<Row>, id: TaskId)
    ensures Reaches(At(rows, Some(Calm(Some(id)).(attached := false, down := [Some(id)])), IDLE_AGENT), [Attach, Receive],
                    At(rows, Some(Calm(Some(id))), Working(id)))
  {
    var told := Calm(Some(id)).(down := [Some(id)]);
    assert [] + [id] == [id] && [Some(id)][1..] == [];
    Step2(At(rows, Some(told.(attached := false)), IDLE_AGENT), Attach,
          At(rows, Some(told), IDLE_AGENT), Receive, At(rows, Some(Calm(Some(id))), Working(id)));
  }

  lemma ConnectsAndLooks(rows: seq<Row>, id: TaskId)
    requires Lookup(rows) == LookedUp(rows, Some(id))
    ensures Reaches(At(rows, None, IDLE_AGENT), [Accept, Compute],
                    At(rows, Some(Calm(Some(id)).(attached := false, down := [Some(id)])), IDLE_AGENT))
  {
    Step2(At(rows, None, IDLE_AGENT), Accept, At(rows, Some(ACCEPTED), IDLE_AGENT), Compute,
          At(rows, Some(Calm(Some(id)).(attached := false, down := [Some(id)])), IDLE_AGENT));
  }

  /** An idle agent connects to a host whose next task is `id` and starts it. */
  lemma ConnectsAndStarts(rows: seq<Row>, id: TaskId)
    requires Lookup(rows) == LookedUp(rows, Some(id))
    ensures Reaches(At(rows, None, IDLE_AGENT), [Accept, Compute] + [Attach, Receive],
                    At(rows, Some(Calm(Some(id))), Working(id)))
  {
    var s := At(rows, None, IDLE_AGENT);
    var computed := At(rows, Some(Calm(Some(id)).(attached := false, down := [Some(id)])), IDLE_AGENT);
    ConnectsAndLooks(rows, id);
    ReadsItsTask(rows, id);
    Joins(s, [Accept, Compute], computed, [Attach, Receive], At(rows, Some(Calm(Some(id))), Working(id)));
  }

  /** The running task ends and the agent raises its idle flag. */
  lemma Ends(rows: seq<Row>, stream: Stream, id: TaskId)
    ensures Reaches(At(rows, Some(stream), Working(id)), [EndTask(0), Signal],
                    At(rows, Some(stream), IDLE_AGENT.(idleFlag := true)))
  {
    assert WithoutBody([id], 0) == [];
    Step2(At(rows, Some(stream), Working(id)), EndTask(0),
          At(rows, Some(stream), IDLE_AGENT.(signalling := 1)), Signal,
          At(rows, Some(stream), IDLE_AGENT.(idleFlag := true)));
  }

  /** The agent asks what is next and is told that nothing is. */
  lemma IsToldNothing(rows: seq<Row>, id: TaskId)
    requires Lookup(rows) == LookedUp(rows, None)
    ensures Reaches(At(rows, Some(Calm(Some(id))), IDLE_AGENT.(idleFlag := true)),
                    [SendIdle, Asked] + [Receive], At(rows, Some(Calm(None)), IDLE_AGENT))
  {
    var nothing: Message := None;
    var calm := Calm(Some(id));
    var s := At(rows, Some(calm), IDLE_AGENT.(idleFlag := true));
    var sent := At(rows, Some(calm.(up := 1)), IDLE_AGENT);
    var answered := At(rows, Some(Calm(None).(down := [nothing])), IDLE_AGENT);
    assert [] + [nothing] == [nothing];
    Step2(s, SendIdle, sent, Asked, answered);
    ReadsNothing(rows);
    Joins(s, [SendIdle, Asked], answered, [Receive], At(rows, Some(Calm(None)), IDLE_AGENT));
  }

  lemma ReadsNothing(rows: seq<Row>)
    ensures Reaches(At(rows, Some(Calm(None).(down := [None])), IDLE_AGENT), [Receive],
                    At(rows, Some(Calm(None)), IDLE_AGENT))
  {
    var nothing: Message := None;
    assert [nothing][1..] == [];
    Step1(At(rows, Some(Calm(None).(down := [nothing])), IDLE_AGENT), Receive,
          At(rows, Some(Calm(None)), IDLE_AGENT));
  }

  lemma Step1(s: State, a: Action, t: State)
    requires Enabled(s, a) && Apply(s, a) == t
    ensures Reaches(s, [a], t)
  {
    assert [a][1..] == [];
  }

  lemma Step2(s: State, a: Action, t: State, b: Action, u: State)
    requires Enabled(s, a) && Apply(s, a) == t && Enabled(t, b) && Apply(t, b) == u
    ensures Reaches(s, [a, b], u)
  {
    assert [a, b][1..] == [b] && [b][1..] == [];
    assert Reaches(t, [b], u);
  }

  lemma {:induction false} Joins(s: State, first: seq<Action>, t: State, second: seq<Action>, u: State)
    requires Reaches(s, first, t) && Reaches(t, second, u)
    ensures Reaches(s, first + second, u)
    decreases |first|
  {
    if first != [] {
      Joins(Apply(s, first[0]), first[1..], t, second, u);
      JoinsBehind(s, first, second, u);
    } else {
      assert first + second == second;
    }
  }

  lemma JoinsBehind(s: State, first: seq<Action>, second: seq<Action>, u: State)
    requires first != [] && Enabled(s, first[0]) && Reaches(Apply(s, first[0]), first[1..] + second, u)
    ensures Reaches(s, first + second, u)
  {
    assert (first + second)[1..] == first[1..] + second;
  }

  lemma Named(rows: seq<Row>, next: Row)
    requires GetNext(rows) == Some(next) && (Dispatchable(next) ==> next.runnable)
    ensures Lookup(rows) == LookedUp(rows, if Dispatchable(next) then Some(next.id) else None)
  {
  }

  const DEPLOY := Row(1, false, true, Running)
  const CAST := Row(2, true, true, Pending)
  const QUEUED := Row(3, false, true, Pending)

  lemma ClaimIsJustifiedAtFirst()
    ensures var s := At([DEPLOY, CAST, QUEUED], None, IDLE_AGENT); Init(s) && Careful(s, ClaimBusy(2))
  {
    assert [DEPLOY, CAST, QUEUED][1].id == 2;
    Named([DEPLOY, CAST, QUEUED], DEPLOY);
  }

  lemma IdleWithWork(rows: seq<Row>, id: TaskId)
    requires Current(rows) == Some(id)
    ensures LeftIdle(At(rows, Some(Calm(None)), IDLE_AGENT))
  {
  }

  lemma DeployFinishes()
    ensures var before, after := [DEPLOY, CAST, QUEUED], [DEPLOY.(state := Done), CAST, QUEUED];
      Reaches(At(before, Some(Calm(Some(1))), Working(1)), [ReportSettled(1, Done)],
              At(after, Some(Calm(Some(1))), Working(1)))
  {
    var before, after := [DEPLOY, CAST, QUEUED], [DEPLOY.(state := Done), CAST, QUEUED];
    assert SetState(before, 1, {Pending, Running}, Done) == after;
    Step1(At(before, Some(Calm(Some(1))), Working(1)), ReportSettled(1, Done),
          At(after, Some(Calm(Some(1))), Working(1)));
  }

  lemma ClaimFailsLate()
    ensures var before, after := [DEPLOY.(state := Done), CAST, QUEUED],
                                 [DEPLOY.(state := Done), CAST.(state := Failed), QUEUED];
      Reaches(At(before, Some(Calm(None)), IDLE_AGENT), [ClaimBusy(2)],
              At(after, Some(Calm(None)), IDLE_AGENT))
  {
    var before, after := [DEPLOY.(state := Done), CAST, QUEUED],
                         [DEPLOY.(state := Done), CAST.(state := Failed), QUEUED];
    assert before[1].id == 2 && MarkFailed(before, 2) == after;
    Step1(At(before, Some(Calm(None)), IDLE_AGENT), ClaimBusy(2),
          At(after, Some(Calm(None)), IDLE_AGENT));
  }

  lemma FoundWhileClaiming()
    ensures Lookup([DEPLOY, CAST, QUEUED]) == LookedUp([DEPLOY, CAST, QUEUED], Some(1))
    ensures var between := [DEPLOY.(state := Done), CAST, QUEUED];
      Lookup(between) == LookedUp(between, None)
    ensures Current([DEPLOY.(state := Done), CAST.(state := Failed), QUEUED]) == Some(3)
  {
    var between := [DEPLOY.(state := Done), CAST, QUEUED];
    var after := [DEPLOY.(state := Done), CAST.(state := Failed), QUEUED];
    Named([DEPLOY, CAST, QUEUED], DEPLOY);
    assert between[1..] == [CAST, QUEUED] && between[1..][1..] == [QUEUED];
    assert FirstIn(between, Running) == None && FirstIn(between, Pending) == Some(CAST);
    Named(between, CAST);
    assert after[1..][1..] == [QUEUED];
    assert FirstIn(after, Running) == None && FirstIn(after, Pending) == Some(QUEUED);
    Named(after, QUEUED);
  }

  lemma StartsAndEndsDeploy(actions: seq<Action>, t: State)
    requires Reaches(At([DEPLOY.(state := Done), CAST, QUEUED], Some(Calm(Some(1))), Working(1)), actions, t)
    ensures Reaches(At([DEPLOY, CAST, QUEUED], None, IDLE_AGENT),
                    ([Accept, Compute] + [Attach, Receive]) + ([ReportSettled(1, Done)] + actions), t)
  {
    var before, between := [DEPLOY, CAST, QUEUED], [DEPLOY.(state := Done), CAST, QUEUED];
    var reported := At(between, Some(Calm(Some(1))), Working(1));
    var started := At(before, Some(Calm(Some(1))), Working(1));
    FoundWhileClaiming();
    DeployFinishes();
    Joins(started, [ReportSettled(1, Done)], reported, actions, t);
    ConnectsAndStarts(before, 1);
    Joins(At(before, None, IDLE_AGENT), ([Accept, Compute] + [Attach, Receive]), started,
          [ReportSettled(1, Done)] + actions, t);
  }

  lemma IdlesBehindTheClaim() returns (actions: seq<Action>)
    ensures var between, after := [DEPLOY.(state := Done), CAST, QUEUED],
                                  [DEPLOY.(state := Done), CAST.(state := Failed), QUEUED];
      Reaches(At(between, Some(Calm(Some(1))), Working(1)), actions, At(after, Some(Calm(None)), IDLE_AGENT))
    ensures actions == [EndTask(0), Signal] + (([SendIdle, Asked] + [Receive]) + [ClaimBusy(2)])
  {
    var between, after := [DEPLOY.(state := Done), CAST, QUEUED],
                          [DEPLOY.(state := Done), CAST.(state := Failed), QUEUED];
    var t := At(after, Some(Calm(None)), IDLE_AGENT);
    var told := At(between, Some(Calm(None)), IDLE_AGENT);
    var ended := At(between, Some(Calm(Some(1))), IDLE_AGENT.(idleFlag := true));
    FoundWhileClaiming();
    ClaimFailsLate();
    actions := [ClaimBusy(2)];
    IsToldNothing(between, 1);
    Joins(ended, [SendIdle, Asked] + [Receive], told, actions, t);
    actions := ([SendIdle, Asked] + [Receive]) + actions;
    Ends(between, Calm(Some(1)), 1);
    Joins(At(between, Some(Calm(Some(1))), Working(1)), [EndTask(0), Signal], ended, actions, t);
    actions := [EndTask(0), Signal] + actions;
  }

  /** A multicast claim reads that the host is busy, the other task ends, and only then the claim
      fails the host's row: the task queued behind the multicast is never announced. */
  lemma LateClaimLeavesHostIdle() returns (s: State, actions: seq<Action>, t: State)
    ensures Init(s) && Careful(s, ClaimBusy(2))
    ensures Reaches(s, actions, t) && LeftIdle(t)
    ensures actions == ([Accept, Compute] + [Attach, Receive]) + ([ReportSettled(1, Done)]
                       + ([EndTask(0), Signal] + (([SendIdle, Asked] + [Receive]) + [ClaimBusy(2)])))
  {
    s := At([DEPLOY, CAST, QUEUED], None, IDLE_AGENT);
    t := At([DEPLOY.(state := Done), CAST.(state := Failed), QUEUED], Some(Calm(None)), IDLE_AGENT);
    ClaimIsJustifiedAtFirst();
    FoundWhileClaiming();
    IdleWithWork(t.rows, 3);
    actions := IdlesBehindTheClaim();
    StartsAndEndsDeploy(actions, t);
    actions := ([Accept, Compute] + [Attach, Receive]) + ([ReportSettled(1, Done)] + actions);
  }

  const RECAST := Row(1, true, true, Running)
  const NEXT := Row(2, false, true, Pending)
  const ACCEPTED := Stream(false, false, true, None, false, [], 0)
  const UNREAD := Stream(true, false, true, None, false, [None], 0)

  lemma LosesAndIsFailed()
    ensures Reaches(At([RECAST, NEXT], Some(Calm(Some(1))), Working(1)), [Lose, SettleGone(1)],
                    At([RECAST.(state := Failed), NEXT], None, Working(1)))
  {
    var before, after := [RECAST, NEXT], [RECAST.(state := Failed), NEXT];
    assert before[0].id == 1 && MarkFailed(before, 1) == after;
    Step2(At(before, Some(Calm(Some(1))), Working(1)), Lose,
          At(before, None, Working(1)), SettleGone(1), At(after, None, Working(1)));
  }

  lemma IsRequeuedAndReconnects()
    ensures Reaches(At([RECAST.(state := Failed), NEXT], None, Working(1)), [RetryMulticast(1), Accept],
                    At([RECAST.(state := Pending), NEXT], Some(ACCEPTED), Working(1)))
  {
    var before, after := [RECAST.(state := Failed), NEXT], [RECAST.(state := Pending), NEXT];
    assert before[0].id == 1 && SetState(before, 1, {Failed, Cancelled}, Pending) == after;
    Step2(At(before, None, Working(1)), RetryMulticast(1),
          At(after, None, Working(1)), Accept, At(after, Some(ACCEPTED), Working(1)));
  }

  lemma IsComputedAndSettled()
    ensures Reaches(At([RECAST.(state := Pending), NEXT], Some(ACCEPTED), Working(1)),
                    [Compute, ReportSettled(1, Done)],
                    At([RECAST.(state := Done), NEXT], Some(UNREAD), Working(1)))
  {
    var before, after := [RECAST.(state := Pending), NEXT], [RECAST.(state := Done), NEXT];
    assert before[0].id == 1 && SetState(before, 1, {Pending, Running}, Done) == after;
    Named(before, RECAST.(state := Pending));
    Step2(At(before, Some(ACCEPTED), Working(1)), Compute,
          At(before, Some(UNREAD), Working(1)), ReportSettled(1, Done),
          At(after, Some(UNREAD), Working(1)));
  }

  lemma AttachesTooLate(rows: seq<Row>)
    ensures Reaches(At(rows, Some(UNREAD), IDLE_AGENT.(idleFlag := true)), [Attach] + [Receive],
                    At(rows, Some(Calm(None)), IDLE_AGENT))
  {
    var attached := At(rows, Some(Calm(None).(down := [None])), IDLE_AGENT);
    Step1(At(rows, Some(UNREAD), IDLE_AGENT.(idleFlag := true)), Attach, attached);
    ReadsNothing(rows);
    Joins(At(rows, Some(UNREAD), IDLE_AGENT.(idleFlag := true)), [Attach], attached,
          [Receive], At(rows, Some(Calm(None)), IDLE_AGENT));
  }

  lemma FoundWhileReconnecting()
    ensures Lookup([RECAST, NEXT]) == LookedUp([RECAST, NEXT], Some(1))
    ensures Current([RECAST.(state := Done), NEXT]) == Some(2)
  {
    var after := [RECAST.(state := Done), NEXT];
    Named([RECAST, NEXT], RECAST);
    assert FirstIn(after, Running) == None && FirstIn(after, Pending) == Some(NEXT);
    Named(after, NEXT);
  }

  lemma ReconnectsOnceRequeued() returns (actions: seq<Action>)
    ensures actions == [Lose, SettleGone(1)] + ([RetryMulticast(1), Accept] + [Compute, ReportSettled(1, Done)])
    ensures Reaches(At([RECAST, NEXT], Some(Calm(Some(1))), Working(1)), actions,
                    At([RECAST.(state := Done), NEXT], Some(UNREAD), Working(1)))
  {
    var settled := At([RECAST.(state := Done), NEXT], Some(UNREAD), Working(1));
    var again := At([RECAST.(state := Pending), NEXT], Some(ACCEPTED), Working(1));
    var failed := At([RECAST.(state := Failed), NEXT], None, Working(1));
    var started := At([RECAST, NEXT], Some(Calm(Some(1))), Working(1));
    IsComputedAndSettled();
    IsRequeuedAndReconnects();
    Joins(failed, [RetryMulticast(1), Accept], again, [Compute, ReportSettled(1, Done)], settled);
    actions := [RetryMulticast(1), Accept] + [Compute, ReportSettled(1, Done)];
    LosesAndIsFailed();
    Joins(started, [Lose, SettleGone(1)], failed, actions, settled);
    actions := [Lose, SettleGone(1)] + actions;
  }

  lemma StartsRecast(actions: seq<Action>, t: State)
    requires Reaches(At([RECAST, NEXT], Some(Calm(Some(1))), Working(1)), actions, t)
    ensures Reaches(At([RECAST, NEXT], None, IDLE_AGENT), ([Accept, Compute] + [Attach, Receive]) + actions, t)
  {
    var before := [RECAST, NEXT];
    FoundWhileReconnecting();
    ConnectsAndStarts(before, 1);
    Joins(At(before, None, IDLE_AGENT), ([Accept, Compute] + [Attach, Receive]),
          At(before, Some(Calm(Some(1))), Working(1)), actions, t);
  }

  lemma EndsUnread(rows: seq<Row>, id: TaskId)
    ensures Reaches(At(rows, Some(UNREAD), Working(id)), [EndTask(0), Signal] + ([Attach] + [Receive]),
                    At(rows, Some(Calm(None)), IDLE_AGENT))
  {
    AttachesTooLate(rows);
    Ends(rows, UNREAD, id);
    Joins(At(rows, Some(UNREAD), Working(id)), [EndTask(0), Signal],
          At(rows, Some(UNREAD), IDLE_AGENT.(idleFlag := true)), [Attach] + [Receive],
          At(rows, Some(Calm(None)), IDLE_AGENT));
  }

  /** An agent reconnects with a multicast it still runs, after the server failed and requeued it. The
      stream finds nothing to name, the agent's report settles the requeued row before the agent
      reads the stream, and the task queued behind it is never announced. */
  lemma EarlyReportLeavesHostIdle() returns (s: State, actions: seq<Action>, t: State)
    ensures Init(s) && Reaches(s, actions, t) && LeftIdle(t)
    ensures actions == ([Accept, Compute] + [Attach, Receive])
                       + (([Lose, SettleGone(1)]
                           + ([RetryMulticast(1), Accept] + [Compute, ReportSettled(1, Done)]))
                       + ([EndTask(0), Signal] + ([Attach] + [Receive])))
  {
    var after := [RECAST.(state := Done), NEXT];
    s, t := At([RECAST, NEXT], None, IDLE_AGENT), At(after, Some(Calm(None)), IDLE_AGENT);
    FoundWhileReconnecting();
    IdleWithWork(after, 2);
    EndsUnread(after, 1);
    actions := [EndTask(0), Signal] + ([Attach] + [Receive]);
    var first := ReconnectsOnceRequeued();
    Joins(At([RECAST, NEXT], Some(Calm(Some(1))), Working(1)), first, At(after, Some(UNREAD), Working(1)), actions, t);
    actions := first + actions;
    StartsRecast(actions, t);
    actions := ([Accept, Compute] + [Attach, Receive]) + actions;
  }

  // A claimed host whose agent reports before the session looks.

  lemma IsClaimedAndSettled()
    ensures Reaches(At([RECAST.(state := Pending), NEXT], Some(UNREAD), Working(1)), [ClaimStart(1), ReportSettled(1, Done)],
                    At([RECAST.(state := Done), NEXT], Some(UNREAD), Working(1)).(claimed := Some(1)))
  {
    var before, after := [RECAST.(state := Pending), NEXT], [RECAST.(state := Done), NEXT];
    assert before[0].id == 1 && SetState(before, 1, {Pending, Running}, Running) == [RECAST, NEXT];
    assert SetState([RECAST, NEXT], 1, {Pending, Running}, Done) == after;
    Named([RECAST, NEXT], RECAST);
    Step2(At(before, Some(UNREAD), Working(1)), ClaimStart(1),
          At([RECAST, NEXT], Some(UNREAD), Working(1)).(claimed := Some(1)), ReportSettled(1, Done),
          At(after, Some(UNREAD), Working(1)).(claimed := Some(1)));
  }

  lemma ComputesNothing()
    ensures Reaches(At([RECAST.(state := Pending), NEXT], Some(ACCEPTED), Working(1)), [Compute],
                    At([RECAST.(state := Pending), NEXT], Some(UNREAD), Working(1)))
  {
    var rows := [RECAST.(state := Pending), NEXT];
    Named(rows, RECAST.(state := Pending));
    Step1(At(rows, Some(ACCEPTED), Working(1)), Compute, At(rows, Some(UNREAD), Working(1)));
  }

  lemma SessionLooksTooLate(rows: seq<Row>)
    requires !IsRunning(rows, 1)
    ensures Reaches(At(rows, Some(UNREAD), Working(1)).(claimed := Some(1)), [ReadParticipants],
                    At(rows, Some(UNREAD), Working(1)))
  {
    Step1(At(rows, Some(UNREAD), Working(1)).(claimed := Some(1)), ReadParticipants, At(rows, Some(UNREAD), Working(1)));
  }

  lemma ClaimedOnceRequeued() returns (actions: seq<Action>)
    ensures actions == [Lose, SettleGone(1)] + ([RetryMulticast(1), Accept]
                       + ([Compute] + ([ClaimStart(1), ReportSettled(1, Done)] + [ReadParticipants])))
    ensures Reaches(At([RECAST, NEXT], Some(Calm(Some(1))), Working(1)), actions,
                    At([RECAST.(state := Done), NEXT], Some(UNREAD), Working(1)))
  {
    var requeued, done := [RECAST.(state := Pending), NEXT], [RECAST.(state := Done), NEXT];
    var settled := At(done, Some(UNREAD), Working(1));
    var unread := At(requeued, Some(UNREAD), Working(1));
    var again := At(requeued, Some(ACCEPTED), Working(1));
    var failed := At([RECAST.(state := Failed), NEXT], None, Working(1));
    var started := At([RECAST, NEXT], Some(Calm(Some(1))), Working(1));
    SessionLooksTooLate(done);
    IsClaimedAndSettled();
    actions := [ReadParticipants];
    Joins(unread, [ClaimStart(1), ReportSettled(1, Done)], settled.(claimed := Some(1)), actions, settled);
    actions := [ClaimStart(1), ReportSettled(1, Done)] + actions;
    ComputesNothing();
    Joins(again, [Compute], unread, actions, settled);
    actions := [Compute] + actions;
    IsRequeuedAndReconnects();
    Joins(failed, [RetryMulticast(1), Accept], again, actions, settled);
    actions := [RetryMulticast(1), Accept] + actions;
    LosesAndIsFailed();
    Joins(started, [Lose, SettleGone(1)], failed, actions, settled);
    actions := [Lose, SettleGone(1)] + actions;
  }

  /** As before, but the requeued multicast is claimed again before the report: the row it settles is one
      its agent may be running, and yet the session, which looks afterwards, wakes nobody. */
  lemma QuickReportLeavesHostIdle() returns (s: State, actions: seq<Action>, t: State)
    ensures Init(s) && Reaches(s, actions, t) && LeftIdle(t)
    ensures actions == ([Accept, Compute] + [Attach, Receive])
                       + (([Lose, SettleGone(1)] + ([RetryMulticast(1), Accept]
                           + ([Compute] + ([ClaimStart(1), ReportSettled(1, Done)] + [ReadParticipants]))))
                       + ([EndTask(0), Signal] + ([Attach] + [Receive])))
  {
    var after := [RECAST.(state := Done), NEXT];
    s, t := At([RECAST, NEXT], None, IDLE_AGENT), At(after, Some(Calm(None)), IDLE_AGENT);
    FoundWhileReconnecting();
    IdleWithWork(after, 2);
    EndsUnread(after, 1);
    actions := [EndTask(0), Signal] + ([Attach] + [Receive]);
    var first := ClaimedOnceRequeued();
    Joins(At([RECAST, NEXT], Some(Calm(Some(1))), Working(1)), first, At(after, Some(UNREAD), Working(1)), actions, t);
    actions := first + actions;
    StartsRecast(actions, t);
    actions := ([Accept, Compute] + [Attach, Receive]) + actions;
  }

  // Writes whose checks were made before a multicast was requeued, and a start reported late.

  /** A multicast on the host, which may or may not be able to run it. */
  function Cast(runs: bool, state: RowState): Row {
    Row(1, true, runs, state)
  }

  lemma ConnectsToNothing(rows: seq<Row>)
    requires Lookup(rows) == LookedUp(rows, None)
    ensures Reaches(At(rows, None, IDLE_AGENT), [Accept, Compute] + ([Attach] + [Receive]),
                    At(rows, Some(Calm(None)), IDLE_AGENT))
  {
    var s, unread := At(rows, None, IDLE_AGENT), At(rows, Some(UNREAD), IDLE_AGENT);
    var attached := At(rows, Some(Calm(None).(down := [None])), IDLE_AGENT);
    var connected := At(rows, Some(Calm(None)), IDLE_AGENT);
    Step2(s, Accept, At(rows, Some(ACCEPTED), IDLE_AGENT), Compute, unread);
    Step1(unread, Attach, attached);
    ReadsNothing(rows);
    Joins(unread, [Attach], attached, [Receive], connected);
    Joins(s, [Accept, Compute], unread, [Attach] + [Receive], connected);
  }

  lemma RequeuedAndFollowed(runs: bool)
    ensures Reaches(At([Cast(runs, Failed)], Some(Calm(None)), IDLE_AGENT), [RetryMulticast(1), CreateTask(NEXT)],
                    At([Cast(runs, Pending), NEXT], Some(Calm(None)), IDLE_AGENT).(owed := 1))
  {
    assert SetState([Cast(runs, Failed)], 1, {Failed, Cancelled}, Pending) == [Cast(runs, Pending)];
    assert [Cast(runs, Pending)] + [NEXT] == [Cast(runs, Pending), NEXT];
    Step2(At([Cast(runs, Failed)], Some(Calm(None)), IDLE_AGENT), RetryMulticast(1),
          At([Cast(runs, Pending)], Some(Calm(None)), IDLE_AGENT), CreateTask(NEXT),
          At([Cast(runs, Pending), NEXT], Some(Calm(None)), IDLE_AGENT).(owed := 1));
  }

  lemma WokenForNothing(rows: seq<Row>)
    requires Lookup(rows) == LookedUp(rows, None)
    ensures Reaches(At(rows, Some(Calm(None)), IDLE_AGENT).(owed := 1), [Dispatch, Wake],
                    At(rows, Some(Calm(None)), IDLE_AGENT))
  {
    Step2(At(rows, Some(Calm(None)), IDLE_AGENT).(owed := 1), Dispatch,
          At(rows, Some(Calm(None).(token := true)), IDLE_AGENT), Wake,
          At(rows, Some(Calm(None)), IDLE_AGENT));
  }

  lemma FoundAroundRequeue(runs: bool, outcome: RowState)
    requires outcome != Pending && outcome != Running
    ensures Lookup([Cast(runs, Failed)]) == LookedUp([Cast(runs, Failed)], None)
    ensures Lookup([Cast(runs, Pending), NEXT]) == LookedUp([Cast(runs, Pending), NEXT], None)
    ensures Lookup([Cast(runs, outcome), NEXT]) == LookedUp([Cast(runs, outcome), NEXT], Some(2))
  {
    var after := [Cast(runs, outcome), NEXT];
    Named([Cast(runs, Pending), NEXT], Cast(runs, Pending));
    assert FirstIn(after, Running) == None && FirstIn(after, Pending) == Some(NEXT);
    Named(after, NEXT);
  }

  lemma RequeuedBehindTheCheck(runs: bool) returns (actions: seq<Action>)
    ensures actions == [RetryMulticast(1), CreateTask(NEXT)] + [Dispatch, Wake]
    ensures Reaches(At([Cast(runs, Failed)], Some(Calm(None)), IDLE_AGENT), actions,
                    At([Cast(runs, Pending), NEXT], Some(Calm(None)), IDLE_AGENT))
  {
    FoundAroundRequeue(runs, Failed);
    RequeuedAndFollowed(runs);
    WokenForNothing([Cast(runs, Pending), NEXT]);
    Joins(At([Cast(runs, Failed)], Some(Calm(None)), IDLE_AGENT), [RetryMulticast(1), CreateTask(NEXT)],
          At([Cast(runs, Pending), NEXT], Some(Calm(None)), IDLE_AGENT).(owed := 1), [Dispatch, Wake],
          At([Cast(runs, Pending), NEXT], Some(Calm(None)), IDLE_AGENT));
    actions := [RetryMulticast(1), CreateTask(NEXT)] + [Dispatch, Wake];
  }

  lemma WritesLate(runs: bool, write: Action)
    requires write == CancelUnseen(1) || write == SettleGone(1) || write == LookFails(1)
    ensures Reaches(At([Cast(runs, Pending), NEXT], Some(Calm(None)), IDLE_AGENT), [write],
                    At([Cast(runs, Outcome(write)), NEXT], Some(Calm(None)), IDLE_AGENT))
  {
    var before, after := [Cast(runs, Pending), NEXT], [Cast(runs, Outcome(write)), NEXT];
    assert SetState(before, 1, {Pending, Running}, Outcome(write)) == after;
    Step1(At(before, Some(Calm(None)), IDLE_AGENT), write, At(after, Some(Calm(None)), IDLE_AGENT));
  }

  lemma LateWriteSeemsCareful(runs: bool, write: Action)
    requires write == CancelUnseen(1) || write == SettleGone(1) || write == LookFails(1)
    ensures Careful(At([Cast(runs, Failed)], None, IDLE_AGENT), write)
  {
  }

  /** A multicast that failed on a host is requeued and another task is queued behind it, after a cancel
      has seen the failed row, a settling session the absent host, or the look of a lost stream the row as it
      ran, and before they write: the row they did not mean to touch is settled, and the task behind it is
      never announced. */
  lemma LateWriteLeavesHostIdle(write: Action) returns (s: State, actions: seq<Action>, t: State)
    requires write == CancelUnseen(1) || write == SettleGone(1) || write == LookFails(1)
    ensures Init(s) && Careful(s, write) && s.rows == [Cast(write != LookFails(1), Failed)]
    ensures Reaches(s, actions, t) && LeftIdle(t)
    ensures actions == ([Accept, Compute] + ([Attach] + [Receive]))
                       + (([RetryMulticast(1), CreateTask(NEXT)] + [Dispatch, Wake]) + [write])
  {
    var runs := write != LookFails(1);
    var rows := [Cast(runs, Outcome(write)), NEXT];
    s, t := At([Cast(runs, Failed)], None, IDLE_AGENT), At(rows, Some(Calm(None)), IDLE_AGENT);
    var connected := At([Cast(runs, Failed)], Some(Calm(None)), IDLE_AGENT);
    var waiting := At([Cast(runs, Pending), NEXT], Some(Calm(None)), IDLE_AGENT);
    FoundAroundRequeue(runs, Outcome(write));
    IdleWithWork(rows, 2);
    LateWriteSeemsCareful(runs, write);
    WritesLate(runs, write);
    var requeued := RequeuedBehindTheCheck(runs);
    Joins(connected, requeued, waiting, [write], t);
    ConnectsToNothing([Cast(runs, Failed)]);
    actions := requeued + [write];
    Joins(s, [Accept, Compute] + ([Attach] + [Receive]), connected, actions, t);
    actions := ([Accept, Compute] + ([Attach] + [Receive])) + actions;
  }

  lemma LosesBehindAMulticast()
    ensures Reaches(At([Cast(true, Failed), NEXT], Some(Calm(Some(2))), Working(2)), [Lose, RetryMulticast(1)],
                    At([Cast(true, Pending), NEXT], None, Working(2)))
  {
    var failed, waits := [Cast(true, Failed), NEXT], [Cast(true, Pending), NEXT];
    assert SetState(failed, 1, {Failed, Cancelled}, Pending) == waits;
    Step2(At(failed, Some(Calm(Some(2))), Working(2)), Lose, At(failed, None, Working(2)),
          RetryMulticast(1), At(waits, None, Working(2)));
  }

  lemma ReconnectsToNothing(rows: seq<Row>, id: TaskId)
    requires Lookup(rows) == LookedUp(rows, None)
    ensures Reaches(At(rows, None, Working(id)), [Accept, Compute], At(rows, Some(UNREAD), Working(id)))
  {
    Step2(At(rows, None, Working(id)), Accept, At(rows, Some(ACCEPTED), Working(id)),
          Compute, At(rows, Some(UNREAD), Working(id)));
  }

  lemma StartsBehindAMulticast()
    ensures Reaches(At([Cast(true, Pending), NEXT], Some(UNREAD), Working(2)), [ReportStarted(2)],
                    At([Cast(true, Pending), NEXT.(state := Running)], Some(UNREAD), Working(2)))
  {
    var waits, started := [Cast(true, Pending), NEXT], [Cast(true, Pending), NEXT.(state := Running)];
    assert SetState(waits, 2, {Pending, Running}, Running) == started;
    Step1(At(waits, Some(UNREAD), Working(2)), ReportStarted(2), At(started, Some(UNREAD), Working(2)));
  }

  lemma ReconnectsBehindAMulticast() returns (actions: seq<Action>)
    ensures actions == [Lose, RetryMulticast(1)] + ([Accept, Compute] + [ReportStarted(2)])
    ensures Reaches(At([Cast(true, Failed), NEXT], Some(Calm(Some(2))), Working(2)), actions,
                    At([Cast(true, Pending), NEXT.(state := Running)], Some(UNREAD), Working(2)))
  {
    var lost, unread := At([Cast(true, Pending), NEXT], None, Working(2)), At([Cast(true, Pending), NEXT], Some(UNREAD), Working(2));
    var t := At([Cast(true, Pending), NEXT.(state := Running)], Some(UNREAD), Working(2));
    FoundAroundRequeue(true, Failed);
    StartsBehindAMulticast();
    actions := [ReportStarted(2)];
    ReconnectsToNothing([Cast(true, Pending), NEXT], 2);
    Joins(lost, [Accept, Compute], unread, actions, t);
    actions := [Accept, Compute] + actions;
    LosesBehindAMulticast();
    Joins(At([Cast(true, Failed), NEXT], Some(Calm(Some(2))), Working(2)), [Lose, RetryMulticast(1)], lost, actions, t);
    actions := [Lose, RetryMulticast(1)] + actions;
  }

  lemma StartedBehindAMulticast(rows: seq<Row>)
    requires rows == [Cast(true, Pending), NEXT.(state := Running)]
    ensures Current(rows) == Some(2)
  {
    assert FirstIn(rows, Running) == Some(NEXT.(state := Running));
    Named(rows, NEXT.(state := Running));
  }

  /** An agent works on a task, an older multicast is requeued ahead of it, and the agent reconnects to a
      stream that names nothing; only then is the task's start written. When the agent gives up without
      settling it, the running task is never announced again. */
  lemma LateStartLeavesHostIdle() returns (s: State, actions: seq<Action>, t: State)
    ensures Init(s) && Careful(s, ReportStarted(2))
    ensures Reaches(s, actions, t) && LeftIdle(t)
    ensures actions == ([Accept, Compute] + [Attach, Receive])
                       + (([Lose, RetryMulticast(1)] + ([Accept, Compute] + [ReportStarted(2)]))
                          + ([EndTask(0), Signal] + ([Attach] + [Receive])))
  {
    var before, after := [Cast(true, Failed), NEXT], [Cast(true, Pending), NEXT.(state := Running)];
    s, t := At(before, None, IDLE_AGENT), At(after, Some(Calm(None)), IDLE_AGENT);
    var working := At(before, Some(Calm(Some(2))), Working(2));
    StartedBehindAMulticast(after);
    IdleWithWork(after, 2);
    FoundAroundRequeue(true, Failed);
    var reconnecting := ReconnectsBehindAMulticast();
    EndsUnread(after, 2);
    actions := [EndTask(0), Signal] + ([Attach] + [Receive]);
    Joins(working, reconnecting, At(after, Some(UNREAD), Working(2)), actions, t);
    actions := reconnecting + actions;
    ConnectsAndStarts(before, 2);
    Joins(s, ([Accept, Compute] + [Attach, Receive]), working, actions, t);
    actions := ([Accept, Compute] + [Attach, Receive]) + actions;
  }

  // A handler that does not reach its wake-up.

  lemma CreatedForNothing()
    ensures Reaches(At([], Some(Calm(None)), IDLE_AGENT), [CreateTask(NEXT), GiveUp],
                    At([NEXT], Some(Calm(None)), IDLE_AGENT))
  {
    assert [] + [NEXT] == [NEXT];
    Step2(At([], Some(Calm(None)), IDLE_AGENT), CreateTask(NEXT),
          At([NEXT], Some(Calm(None)), IDLE_AGENT).(owed := 1), GiveUp, At([NEXT], Some(Calm(None)), IDLE_AGENT));
  }

  /** A task is created for a connected host, and its handler fails when it reads the task back: the task is
      never announced. */
  lemma FailedCreationLeavesHostIdle() returns (s: State, actions: seq<Action>, t: State)
    ensures Init(s) && Reaches(s, actions, t) && LeftIdle(t)
    ensures actions == ([Accept, Compute] + ([Attach] + [Receive])) + [CreateTask(NEXT), GiveUp]
  {
    s, t := At([], None, IDLE_AGENT), At([NEXT], Some(Calm(None)), IDLE_AGENT);
    Named([NEXT], NEXT);
    IdleWithWork([NEXT], 2);
    ConnectsToNothing([]);
    CreatedForNothing();
    Joins(s, [Accept, Compute] + ([Attach] + [Receive]), At([], Some(Calm(None)), IDLE_AGENT), [CreateTask(NEXT), GiveUp], t);
    actions := ([Accept, Compute] + ([Attach] + [Receive])) + [CreateTask(NEXT), GiveUp];
  }

}

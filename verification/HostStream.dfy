/**
 The two ends of a host's connection, updated in place as the server and the agent do it: the table
 lookup and the serving loop of the stream, and the agent's single task slot. Each method is tied to
 the function the protocol model uses for the same step.
 */
module HostStream {
  import opened Options
  import opened HostQueue
  import opened TaskProtocol

  /** The host's rows as the task repository holds them. */
  class TaskTable {
    var rows: seq<Row>

    constructor (rows: seq<Row>)
      ensures this.rows == rows
    {
      this.rows := rows;
    }

    method NextRow() returns (next: Option<Row>)
      ensures next == GetNext(rows)
    {
      next := GetNext(rows);
    }

    method Fail(id: TaskId)
      modifies this
      ensures rows == MarkFailed(old(rows), id)
    {
      rows := MarkFailed(rows, id);
    }

    /** Finds the task to name to the host, failing those that can no longer run. */
    method CurrentTask() returns (current: Message)
      modifies this
      ensures LookedUp(rows, current) == Lookup(old(rows))
    {
      var next := NextRow();
      while next.Some? && Dispatchable(next.value)
        invariant next == GetNext(rows)
        invariant Lookup(rows) == Lookup(old(rows))
        decreases ActiveRows(rows)
      {
        if next.value.runnable {
          return Some(next.value.id);
        }
        MarkFailedRemoves(rows, next.value);
        Fail(next.value.id);
        next := NextRow();
      }
      current := None;
    }
  }

  /** What the serving loop wakes up for. A look at the task table carries what it found, or nothing
      when the table could not be read. */
  datatype Input =
    | Idle(found: Option<Message>)
    | Woken(found: Option<Message>)
    | Report
    | Pinged
    | SocketClosed
    | Displaced
    | Silent

  predicate Ends(input: Input) {
    match input
    case Idle(found) => found.None?
    case Woken(found) => found.None?
    case Report => false
    case Pinged => false
    case SocketClosed => true
    case Displaced => true
    case Silent => true
  }

  predicate Looks(input: Input) {
    (input.Idle? || input.Woken?) && input.found.Some?
  }

  /** The inputs the loop gets to before one of them ends it. */
  function Served(inputs: seq<Input>): seq<Input> {
    if inputs == [] || Ends(inputs[0]) then [] else [inputs[0]] + Served(inputs[1..])
  }

  /** The last task found, starting from the one found when the stream was opened. */
  function LastFound(first: Message, inputs: seq<Input>): Message
    decreases |inputs|
  {
    if inputs == [] then first
    else LastFound(if Looks(inputs[0]) then inputs[0].found.value else first, inputs[1..])
  }

  function Sent(first: Message, inputs: seq<Input>): seq<Message>
    decreases |inputs|
  {
    if inputs == [] then []
    else if !Looks(inputs[0]) then Sent(first, inputs[1..])
    else
      var found := inputs[0].found.value;
      (if inputs[0].Idle? || found != first then [found] else []) + Sent(found, inputs[1..])
  }

  /** Sends the task found at the start, then answers every wake-up and question until the stream ends. */
  method Serve(first: Message, inputs: seq<Input>) returns (sent: seq<Message>)
    ensures sent == [first] + Sent(first, Served(inputs))
  {
    sent := [first];
    var current := first;
    var i := 0;
    while i < |inputs|
      invariant 0 <= i <= |inputs|
      invariant sent + Sent(current, Served(inputs[i..])) == [first] + Sent(first, Served(inputs))
    {
      var input := inputs[i];
      assert inputs[i..][0] == input && inputs[i..][1..] == inputs[i + 1..];
      if Ends(input) {
        return;
      }
      assert Served(inputs[i..])[1..] == Served(inputs[i + 1..]);
      if Looks(input) {
        var found := input.found.value;
        if input.Idle? || found != current {
          sent := sent + [found];
        }
        current := found;
      }
      i := i + 1;
    }
  }

  /** The last message on the wire always names the last task found. */
  lemma {:induction false} WireEndsWithLastFound(first: Message, inputs: seq<Input>)
    ensures var sent := [first] + Sent(first, inputs); sent[|sent| - 1] == LastFound(first, inputs)
    decreases |inputs|
  {
    if inputs != [] {
      if Looks(inputs[0]) {
        WireEndsWithLastFound(inputs[0].found.value, inputs[1..]);
      } else {
        WireEndsWithLastFound(first, inputs[1..]);
      }
    }
  }

  function Questions(inputs: seq<Input>): nat {
    if inputs == [] then 0
    else (if Looks(inputs[0]) && inputs[0].Idle? then 1 else 0) + Questions(inputs[1..])
  }

  function Repeats(sent: seq<Message>): nat {
    if |sent| < 2 then 0 else (if sent[0] == sent[1] then 1 else 0) + Repeats(sent[1..])
  }

  /** A task is named again only in answer to a question, and every question gets its answer. */
  lemma {:induction false} RepeatsAnswerQuestions(first: Message, inputs: seq<Input>)
    ensures Repeats([first] + Sent(first, inputs)) <= Questions(inputs) <= |Sent(first, inputs)|
    decreases |inputs|
  {
    if inputs != [] {
      if Looks(inputs[0]) {
        var found := inputs[0].found.value;
        var rest := Sent(found, inputs[1..]);
        RepeatsAnswerQuestions(found, inputs[1..]);
        if inputs[0].Idle? || found != first {
          assert [first] + Sent(first, inputs) == [first] + ([found] + rest);
          assert ([first] + ([found] + rest))[1..] == [found] + rest;
        } else {
          assert [first] + Sent(first, inputs) == [found] + rest;
        }
      } else {
        RepeatsAnswerQuestions(first, inputs[1..]);
      }
    }
  }

  // ----- what the loop sends, said without it ------------------------------------------------------

  /** The loop goes on after this input: a report, a ping, or a look that worked. */
  predicate GoesOn(input: Input) {
    input == Report || input == Pinged || (input.Idle? && input.found != None) || (input.Woken? && input.found != None)
  }

  /** The loop gets to the first input after which it does not go on. */
  lemma {:induction false} ServedMeans(inputs: seq<Input>) returns (n: nat)
    ensures n <= |inputs| && Served(inputs) == inputs[..n]
    ensures forall i :: 0 <= i < n ==> GoesOn(inputs[i])
    ensures n < |inputs| ==> !GoesOn(inputs[n])
  {
    if inputs == [] || Ends(inputs[0]) {
      n := 0;
    } else {
      var m := ServedMeans(inputs[1..]);
      n := m + 1;
      assert inputs[..n] == [inputs[0]] + inputs[1..][..m];
      forall i | 0 <= i < n ensures GoesOn(inputs[i]) {
        assert i > 0 ==> inputs[i] == inputs[1..][i - 1];
      }
    }
  }

  /** Before input number `i` the last task found is `found`: that of the last look, or the first one. */
  ghost predicate FoundBefore(first: Message, inputs: seq<Input>, i: nat, found: Message)
    requires i <= |inputs|
  {
    || (found == first && forall k :: 0 <= k < i ==> !IsLook(inputs[k]))
    || exists k: nat :: k < i && IsLook(inputs[k]) && inputs[k].found == Some(found)
         && forall j :: k < j < i ==> !IsLook(inputs[j])
  }

  predicate IsLook(input: Input) {
    match input
    case Idle(found) => found != None
    case Woken(found) => found != None
    case _ => false
  }

  /** Input number `i` is answered: a question always, a wake-up only when the task has changed. */
  ghost predicate Answered(first: Message, inputs: seq<Input>, i: nat)
    requires i < |inputs|
  {
    IsLook(inputs[i]) && (inputs[i].Idle? || !FoundBefore(first, inputs, i, inputs[i].found.value))
  }

  lemma FoundIsLast(first: Message, inputs: seq<Input>, i: nat, found: Message)
    requires i <= |inputs| && LastFound(first, inputs[..i]) == found
    ensures forall other :: FoundBefore(first, inputs, i, other) <==> other == found
  {
    LastFoundMeans(first, inputs[..i]);
    var before := inputs[..i];
    assert FoundBefore(first, before, i, found);
    if found == first && (forall k :: 0 <= k < i ==> !IsLook(before[k])) {
      assert forall k :: 0 <= k < i ==> inputs[k] == before[k];
    } else {
      var k: nat :| k < i && IsLook(before[k]) && before[k].found == Some(found) && forall j :: k < j < i ==> !IsLook(before[j]);
      assert inputs[k] == before[k] && forall j :: k < j < i ==> inputs[j] == before[j];
    }
  }

  lemma {:induction false} LastFoundMeans(first: Message, inputs: seq<Input>)
    ensures FoundBefore(first, inputs, |inputs|, LastFound(first, inputs))
    decreases |inputs|
  {
    if inputs != [] {
      var next := if Looks(inputs[0]) then inputs[0].found.value else first;
      var rest, found := inputs[1..], LastFound(first, inputs);
      LastFoundMeans(next, rest);
      assert forall k :: 0 <= k < |rest| ==> rest[k] == inputs[k + 1];
      if k: nat :| k < |rest| && IsLook(rest[k]) && rest[k].found == Some(found) && forall j :: k < j < |rest| ==> !IsLook(rest[j]) {
        assert inputs[k + 1] == rest[k];
        forall j | k + 1 < j < |inputs| ensures !IsLook(inputs[j]) {
          assert inputs[j] == rest[j - 1];
        }
      } else {
        forall j | 0 < j < |inputs| ensures !IsLook(inputs[j]) {
          assert inputs[j] == rest[j - 1];
        }
        if Looks(inputs[0]) {
          var k: nat := 0;
          assert IsLook(inputs[k]) && inputs[k].found == Some(found);
        }
      }
    }
  }

  /** The messages are those of the answered inputs, each once and in their order: `at` are their numbers. */
  ghost predicate SaysAnswered(first: Message, inputs: seq<Input>, at: seq<nat>, sent: seq<Message>) {
    && |at| == |sent|
    && (forall j :: 0 <= j < |at| ==> at[j] < |inputs| && Answered(first, inputs, at[j]) && inputs[at[j]].found == Some(sent[j]))
    && (forall j, k :: 0 <= j < k < |at| ==> at[j] < at[k])
    && forall i: nat :: i < |inputs| && Answered(first, inputs, i) ==> i in at
  }

  function Said(first: Message, before: seq<Input>, input: Input): seq<Message> {
    if Looks(input) && (input.Idle? || input.found.value != LastFound(first, before)) then [input.found.value] else []
  }

  lemma {:induction false} SentSnoc(first: Message, before: seq<Input>, input: Input)
    ensures Sent(first, before + [input]) == Sent(first, before) + Said(first, before, input)
    ensures LastFound(first, before + [input]) == if Looks(input) then input.found.value else LastFound(first, before)
    decreases |before|
  {
    var inputs := before + [input];
    if before == [] {
      assert inputs[1..] == [] && Sent(first, []) == [];
    } else {
      var next := if Looks(before[0]) then before[0].found.value else first;
      assert inputs[0] == before[0] && inputs[1..] == before[1..] + [input];
      SentSnoc(next, before[1..], input);
    }
  }

  lemma AnsweredStays(first: Message, before: seq<Input>, input: Input, i: nat)
    requires i < |before|
    ensures Answered(first, before, i) <==> Answered(first, before + [input], i)
  {
    var inputs := before + [input];
    assert inputs[..i] == before[..i] && inputs[i] == before[i];
    FoundIsLast(first, before, i, LastFound(first, before[..i]));
    FoundIsLast(first, inputs, i, LastFound(first, inputs[..i]));
  }

  lemma LastIsAnswered(first: Message, before: seq<Input>, input: Input)
    ensures Answered(first, before + [input], |before|) <==> Said(first, before, input) != []
  {
    var inputs := before + [input];
    assert inputs[..|before|] == before && inputs[|before|] == input;
    FoundIsLast(first, inputs, |before|, LastFound(first, before));
  }

  lemma SaysMore(first: Message, before: seq<Input>, input: Input, at: seq<nat>, sent: seq<Message>) returns (more: seq<nat>)
    requires SaysAnswered(first, before, at, sent)
    ensures SaysAnswered(first, before + [input], more, sent + Said(first, before, input))
  {
    var inputs, said := before + [input], Said(first, before, input);
    LastIsAnswered(first, before, input);
    forall i: nat | i < |before| ensures inputs[i] == before[i] && (Answered(first, before, i) <==> Answered(first, inputs, i)) {
      AnsweredStays(first, before, input, i);
    }
    if said == [] {
      more := at;
      assert sent + said == sent;
    } else {
      more := at + [|before| as nat];
      assert more[|at|] == |before| && forall i: nat :: i in at ==> i in more;
    }
  }

  /** The messages after the first one answer exactly the questions, and the wake-ups that found another task
      than the last look did. */
  lemma {:induction false} SentMeans(first: Message, inputs: seq<Input>) returns (at: seq<nat>)
    ensures SaysAnswered(first, inputs, at, Sent(first, inputs))
    decreases |inputs|
  {
    if inputs == [] {
      at := [];
    } else {
      var before, input := inputs[..|inputs| - 1], inputs[|inputs| - 1];
      at := SentMeans(first, before);
      at := SaysMore(first, before, input, at, Sent(first, before));
      SentSnoc(first, before, input);
      assert inputs == before + [input];
    }
  }

  /** The stream of the protocol answers a wake-up or a question as the serving loop does. */
  lemma AnswerIsServing(stream: Stream, found: Message, asked: bool)
    ensures var input := if asked then Idle(Some(found)) else Woken(Some(found));
      && Answer(stream, found, asked).down == stream.down + Sent(stream.current, [input])
      && Answer(stream, found, asked).current == LastFound(stream.current, [input])
      && Answer(stream, found, asked) == stream.(down := Answer(stream, found, asked).down, current := found)
  {
    var input := if asked then Idle(Some(found)) else Woken(Some(found));
    assert [input][1..] == [];
    assert Sent(found, []) == [] && LastFound(found, []) == found;
  }

  /** Whatever the rest of the host looks like, step `a` of the protocol takes the agent there. */
  ghost predicate Takes(before: Agent, a: Action, after: Agent) {
    forall s: State :: s.agent == before && Enabled(s, a) ==> Apply(s, a).agent == after
  }

  /** The protocol's step of an agent that reads `message`. */
  ghost predicate Reads(before: Agent, message: Message, after: Agent) {
    forall s: State ::
      s.agent == before && Enabled(s, Receive) && s.stream.value.down[0] == message ==> Apply(s, Receive).agent == after
  }

  /** The agent's task slot, its idle flag and the task bodies it has spawned. */
  class ClientState {
    var currentTask: Option<Slot>
    var bodies: seq<TaskId>
    var finishing: nat
    var idleFlag: bool

    function Model(): Agent
      reads this
    {
      Agent(currentTask, bodies, finishing, idleFlag)
    }

    constructor ()
      ensures Model() == IDLE_AGENT
    {
      currentTask, bodies, finishing, idleFlag := None, [], 0, false;
    }

    /** Starts the named task when idle, keeps it when it is the running one, cancels otherwise. */
    method Handle(message: Message)
      requires SingleFlight(Model())
      modifies this
      ensures Model() == HandleMessage(old(Model()), message)
      ensures old(currentTask).Some? && message == Some(old(currentTask).value.id) ==> Model() == old(Model())
      ensures old(currentTask).Some? && message != Some(old(currentTask).value.id) ==>
                Model() == old(Model()).(slot := Some(Slot(old(currentTask).value.id, true)))
      ensures old(currentTask).None? && message.None? ==> Model() == old(Model())
      ensures old(currentTask).None? && message.Some? ==>
                Model() == old(Model()).(slot := Some(Slot(message.value, false)), working := [message.value])
      ensures Reads(old(Model()), message, Model())
      ensures SingleFlight(Model())
      ensures bodies == old(bodies) || (old(bodies) == [] && message.Some? && bodies == [message.value])
    {
      if currentTask.Some? && message.Some? && currentTask.value.id == message.value {
      } else if currentTask.Some? {
        currentTask := Some(currentTask.value.(cancelled := true));
      } else if message.Some? {
        StartTask(message.value);
      }
    }

    method StartTask(id: TaskId)
      modifies this
      ensures currentTask == Some(Slot(id, false)) && bodies == old(bodies) + [id]
      ensures finishing == old(finishing) && idleFlag == old(idleFlag)
      ensures old(currentTask).None? ==> Reads(old(Model()), Some(id), Model())
      ensures SingleFlight(Model()) <==> old(bodies) == []
    {
      bodies := bodies + [id];
      currentTask := Some(Slot(id, false));
    }

    /** The only running body clears the slot; the idle flag follows separately. */
    method ClearSlot()
      requires SingleFlight(Model()) && bodies != []
      modifies this
      ensures Takes(old(Model()), EndTask(0), Model())
      ensures finishing == old(finishing) + 1 && idleFlag == old(idleFlag)
      ensures bodies == [] && currentTask == None
      ensures SingleFlight(Model())
    {
      bodies := bodies[1..];
      currentTask := None;
      finishing := finishing + 1;
    }

    method BecameIdle()
      requires finishing > 0
      modifies this
      ensures Takes(old(Model()), Signal, Model())
      ensures Model() == old(Model()).(signalling := old(finishing) - 1, idleFlag := true)
      ensures SingleFlight(Model()) <==> SingleFlight(old(Model()))
    {
      finishing := finishing - 1;
      idleFlag := true;
    }

    /** A new connection starts without a pending question. */
    method MarkUnchanged()
      modifies this
      ensures Takes(old(Model()), Attach, Model())
      ensures Model() == old(Model()).(idleFlag := false)
      ensures SingleFlight(Model()) <==> SingleFlight(old(Model()))
    {
      idleFlag := false;
    }

    /** The user's cancel reaches the task only while it is the running one. */
    method Cancel(id: TaskId)
      modifies this
      ensures Takes(old(Model()), CancelLocally(id), Model())
      ensures Model() == if old(currentTask).Some? && old(currentTask).value.id == id
                         then old(Model()).(slot := Some(Slot(id, true))) else old(Model())
      ensures SingleFlight(Model()) <==> SingleFlight(old(Model()))
    {
      if currentTask.Some? && currentTask.value.id == id {
        currentTask := Some(currentTask.value.(cancelled := true));
      }
    }
  }

}

/**
 The registry of connected hosts as a value: who is connected under which generation, one wake-up
 channel per registration, and the log of everything broadcast to observers. An observer reads the
 log through a window of the last `CAPACITY` events and starts over from a snapshot when it falls
 further behind.
 */
module RegistryModel {
  import opened Options

  type HostId = int
  type Generation = nat

  const CAPACITY: nat := 32

  datatype Event = Event(id: HostId, connected: bool)

  /** A one-slot channel: at most one wake-up waits in it; `open` while the registry holds its sender. */
  datatype Wake = Wake(host: HostId, pending: bool, open: bool)

  datatype Registry = Registry(
    hosts: map<HostId, Generation>, next: Generation, log: seq<Event>, wakes: map<Generation, Wake>)

  const EMPTY := Registry(map[], 0, [], map[])

  // ----- operations ----------------------------------------------------------------------------

  function Close(wakes: map<Generation, Wake>, generation: Generation): map<Generation, Wake> {
    if generation in wakes then wakes[generation := wakes[generation].(open := false)] else wakes
  }

  /** A newer registration takes the host over; the sender of the displaced one is gone. */
  function Register(r: Registry, id: HostId): Registry {
    var kept := if id in r.hosts then Close(r.wakes, r.hosts[id]) else r.wakes;
    Registry(r.hosts[id := r.next], r.next + 1, r.log + [Event(id, true)],
             kept[r.next := Wake(id, false, true)])
  }

  function Deregister(r: Registry, id: HostId): Registry {
    if id !in r.hosts then r
    else Registry(r.hosts - {id}, r.next, r.log + [Event(id, false)], Close(r.wakes, r.hosts[id]))
  }

  /** The end of one registration: it only removes the host it still stands for. */
  function DropRegistration(r: Registry, id: HostId, generation: Generation): Registry {
    if id in r.hosts && r.hosts[id] == generation then Deregister(r, id) else r
  }

  function DisconnectAll(r: Registry, order: seq<HostId>): Registry
    decreases |order|
  {
    if order == [] then r else DisconnectAll(Deregister(r, order[0]), order[1..])
  }

  function Dispatch(r: Registry, id: HostId): Registry {
    if id in r.hosts && r.hosts[id] in r.wakes
    then r.(wakes := r.wakes[r.hosts[id] := r.wakes[r.hosts[id]].(pending := true)])
    else r
  }

  datatype Received = Token | Waits | Gone

  /** What the connection behind a registration receives: a waiting wake-up even when displaced. */
  function Receive(r: Registry, generation: Generation): Received
    requires generation in r.wakes
  {
    if r.wakes[generation].pending then Token
    else if r.wakes[generation].open then Waits else Gone
  }

  function AfterReceive(r: Registry, generation: Generation): Registry
    requires generation in r.wakes
  {
    r.(wakes := r.wakes[generation := r.wakes[generation].(pending := false)])
  }

  datatype Op =
    | Registers(id: HostId)
    | Drops(id: HostId, generation: Generation)
    | Deregisters(id: HostId)
    | DisconnectsAll(order: seq<HostId>)
    | Dispatches(id: HostId)
    | Receives(generation: Generation)

  ghost predicate Enabled(r: Registry, op: Op) {
    match op
    case DisconnectsAll(order) => Enumerates(order, r.hosts.Keys)
    case Receives(generation) => generation in r.wakes
    case _ => true
  }

  ghost predicate Enumerates(order: seq<HostId>, ids: set<HostId>) {
    (forall i, j :: 0 <= i < j < |order| ==> order[i] != order[j])
    && forall id :: id in order <==> id in ids
  }

  function Apply(r: Registry, op: Op): Registry
    requires Enabled(r, op)
  {
    match op
    case Registers(id) => Register(r, id)
    case Drops(id, generation) => DropRegistration(r, id, generation)
    case Deregisters(id) => Deregister(r, id)
    case DisconnectsAll(order) => DisconnectAll(r, order)
    case Dispatches(id) => Dispatch(r, id)
    case Receives(generation) => AfterReceive(r, generation)
  }

  // ----- what every operation keeps --------------------------------------------------------------

  /** The hosts connected after a log of changes. */
  function Replay(log: seq<Event>): set<HostId> {
    if log == [] then {} else Follow(Replay(log[..|log| - 1]), log[|log| - 1])
  }

  function Follow(view: set<HostId>, event: Event): set<HostId> {
    if event.connected then view + {event.id} else view - {event.id}
  }

  /** The open channels are exactly those of the listed registrations, and observers who replay the
      log see exactly the listed hosts. */
  ghost predicate Inv(r: Registry) {
    && (forall id :: id in r.hosts ==> r.hosts[id] in r.wakes && r.wakes[r.hosts[id]].host == id)
    && (forall g :: g in r.wakes ==> g < r.next)
    && (forall g :: g in r.wakes && r.wakes[g].open ==>
          r.wakes[g].host in r.hosts && r.hosts[r.wakes[g].host] == g)
    && (forall id :: id in r.hosts ==> r.wakes[r.hosts[id]].open)
    && Replay(r.log) == r.hosts.Keys
  }

  lemma ReplaySnoc(log: seq<Event>, event: Event)
    ensures Replay(log + [event]) == Follow(Replay(log), event)
  {
    assert (log + [event])[..|log|] == log;
  }

  lemma RegisterKeepsInv(r: Registry, id: HostId)
    requires Inv(r)
    ensures Inv(Register(r, id))
  {
    ReplaySnoc(r.log, Event(id, true));
  }

  lemma DeregisterKeepsInv(r: Registry, id: HostId)
    requires Inv(r)
    ensures Inv(Deregister(r, id))
  {
    ReplaySnoc(r.log, Event(id, false));
  }

  lemma {:induction false} DisconnectAllKeepsInv(r: Registry, order: seq<HostId>)
    requires Inv(r)
    ensures var after := DisconnectAll(r, order);
      Inv(after) && after.hosts.Keys == r.hosts.Keys - (set id | id in order) && after.next == r.next
    ensures r.log <= DisconnectAll(r, order).log
    decreases |order|
  {
    if order != [] {
      DeregisterKeepsInv(r, order[0]);
      DisconnectAllKeepsInv(Deregister(r, order[0]), order[1..]);
      assert order == [order[0]] + order[1..];
    }
  }

  lemma StepKeepsInv(r: Registry, op: Op)
    requires Inv(r) && Enabled(r, op)
    ensures Inv(Apply(r, op)) && r.log <= Apply(r, op).log
  {
    match op {
      case Registers(id) => RegisterKeepsInv(r, id);
      case Drops(id, _) => DeregisterKeepsInv(r, id);
      case Deregisters(id) => DeregisterKeepsInv(r, id);
      case DisconnectsAll(order) => DisconnectAllKeepsInv(r, order);
      case _ =>
    }
  }

  /** At any time a host has at most one channel that can still be dispatched to. */
  lemma OneOpenChannelPerHost(r: Registry, g: Generation, h: Generation)
    requires Inv(r) && g in r.wakes && h in r.wakes
    requires r.wakes[g].open && r.wakes[h].open && r.wakes[g].host == r.wakes[h].host
    ensures g == h
  {
  }

  // ----- wake-ups --------------------------------------------------------------------------------

  function DispatchTimes(r: Registry, id: HostId, n: nat): Registry {
    if n == 0 then r else Dispatch(DispatchTimes(r, id, n - 1), id)
  }

  /** Any number of dispatches since the last receive makes exactly one wake-up, for that host alone. */
  lemma {:induction false} DispatchesCoalesce(r: Registry, id: HostId, n: nat)
    requires Inv(r) && id in r.hosts && n > 0
    ensures var woken := DispatchTimes(r, id, n); var g := r.hosts[id];
      && woken == Dispatch(r, id)
      && Receive(woken, g) == Token
      && Receive(AfterReceive(woken, g), g) == Waits
      && forall other :: other in r.wakes && other != g ==> Receive(woken, other) == Receive(r, other)
  {
    if n > 1 {
      DispatchesCoalesce(r, id, n - 1);
    }
    assert DispatchTimes(r, id, n) == Dispatch(DispatchTimes(r, id, n - 1), id);
  }

  /** A displaced connection gets the wake-up it was still owed and then learns it is gone. */
  lemma DisplacedConnectionEnds(r: Registry, id: HostId)
    requires Inv(r) && id in r.hosts
    ensures var g := r.hosts[id]; var after := Register(r, id);
      && g in after.wakes
      && (Receive(after, g) == Token <==> Receive(r, g) == Token)
      && Receive(AfterReceive(after, g), g) == Gone
      && Receive(Dispatch(AfterReceive(after, g), id), g) == Gone
  {
  }

  // ----- generation safety over whole runs -------------------------------------------------------

  ghost predicate Run(ops: seq<Op>, r: Registry)
    decreases |ops|
  {
    if ops == [] then r == EMPTY
    else
      var before := ops[..|ops| - 1];
      exists p :: Run(before, p) && Enabled(p, ops[|ops| - 1]) && r == Apply(p, ops[|ops| - 1])
  }

  function GenerationOf(ops: seq<Op>): Generation {
    if ops == [] then 0
    else GenerationOf(ops[..|ops| - 1]) + if ops[|ops| - 1].Registers? then 1 else 0
  }

  /** The operations that end the registration of `id` made as generation `g`. */
  predicate EndsRegistration(op: Op, id: HostId, g: Generation) {
    op == Registers(id) || op == Drops(id, g) || op == Deregisters(id) || op.DisconnectsAll?
  }

  /** The registration made by operation `i` is the host's latest and nothing has ended it. */
  predicate Stands(ops: seq<Op>, id: HostId, i: nat)
    requires i < |ops|
  {
    && ops[i] == Registers(id)
    && forall j :: i < j < |ops| ==> !EndsRegistration(ops[j], id, GenerationOf(ops[..i]))
  }

  ghost predicate Listed(ops: seq<Op>, id: HostId, g: Generation) {
    exists i :: 0 <= i < |ops| && Stands(ops, id, i) && g == GenerationOf(ops[..i])
  }

  lemma {:induction false} RunKeepsInv(ops: seq<Op>, r: Registry)
    requires Run(ops, r)
    ensures Inv(r) && r.next == GenerationOf(ops)
    decreases |ops|
  {
    if ops != [] {
      var before, op := ops[..|ops| - 1], ops[|ops| - 1];
      var p :| Run(before, p) && Enabled(p, op) && r == Apply(p, op);
      RunKeepsInv(before, p);
      StepKeepsInv(p, op);
      if op.DisconnectsAll? {
        DisconnectAllKeepsInv(p, op.order);
      }
    }
  }

  lemma ListedSnoc(ops: seq<Op>, op: Op, id: HostId, g: Generation)
    ensures Listed(ops + [op], id, g) <==>
      if op == Registers(id) then g == GenerationOf(ops)
      else Listed(ops, id, g) && !EndsRegistration(op, id, g)
  {
    var longer := ops + [op];
    assert forall i :: 0 <= i <= |ops| ==> longer[..i] == ops[..i];
    if op == Registers(id) && g == GenerationOf(ops) {
      assert longer[..|ops|] == ops[..|ops|] == ops;
      assert Stands(longer, id, |ops|);
    }
    if Listed(longer, id, g) {
      var i :| 0 <= i < |longer| && Stands(longer, id, i) && g == GenerationOf(longer[..i]);
      if i < |ops| {
        assert !EndsRegistration(longer[|ops|], id, g);
        assert forall j :: i < j < |ops| ==> ops[j] == longer[j];
        assert Stands(ops, id, i);
      } else {
        assert longer[..i] == ops;
      }
    }
    if Listed(ops, id, g) && !EndsRegistration(op, id, g) {
      var i :| 0 <= i < |ops| && Stands(ops, id, i) && g == GenerationOf(ops[..i]);
      assert Stands(longer, id, i);
    }
  }

  /** A host is listed, and under that generation, exactly when its latest registration has been
      neither dropped nor removed. In particular a stale drop never removes a newer registration. */
  lemma {:induction false} ListedIffLatestStands(ops: seq<Op>, r: Registry, id: HostId, g: Generation)
    requires Run(ops, r)
    ensures (id in r.hosts && r.hosts[id] == g) <==> Listed(ops, id, g)
    decreases |ops|
  {
    if ops != [] {
      var before, op := ops[..|ops| - 1], ops[|ops| - 1];
      var p :| Run(before, p) && Enabled(p, op) && r == Apply(p, op);
      assert ops == before + [op];
      ListedSnoc(before, op, id, g);
      ListedIffLatestStands(before, p, id, g);
      RunKeepsInv(before, p);
      if op.DisconnectsAll? {
        DisconnectAllKeepsInv(p, op.order);
      }
    }
  }

  // ----- observers -------------------------------------------------------------------------------

  /** A subscription: the next event to read and the snapshot still to be handed out. */
  datatype Feed = Feed(next: nat, snapshot: Option<set<HostId>>)

  datatype Change = Connected(ids: set<HostId>) | Changed(event: Event)

  function Watch(r: Registry): Feed {
    Feed(|r.log|, Some(r.hosts.Keys))
  }

  predicate Lagged(r: Registry, feed: Feed) {
    feed.next + CAPACITY < |r.log|
  }

  /** The next change of a feed, or nothing while it is up to date. */
  function Poll(r: Registry, feed: Feed): (Option<Change>, Feed)
    requires feed.next <= |r.log|
  {
    if feed.snapshot.Some? then (Some(Connected(feed.snapshot.value)), feed.(snapshot := None))
    else if feed.next == |r.log| then (None, feed)
    else if Lagged(r, feed) then (Some(Connected(r.hosts.Keys)), Feed(|r.log|, None))
    else (Some(Changed(r.log[feed.next])), Feed(feed.next + 1, None))
  }

  function Take(view: set<HostId>, change: Change): set<HostId> {
    match change
    case Connected(ids) => ids
    case Changed(event) => Follow(view, event)
  }

  /** An observer with the set it has built from the changes it was handed. */
  datatype Observer = Observer(feed: Feed, view: set<HostId>)

  datatype System = System(registry: Registry, observers: map<nat, Observer>)

  datatype Step = Operates(op: Op) | Watches(observer: nat) | Polls(observer: nat)

  ghost predicate StepEnabled(s: System, step: Step) {
    match step
    case Operates(op) => Enabled(s.registry, op)
    case Watches(o) => o !in s.observers
    case Polls(o) => o in s.observers && s.observers[o].feed.next <= |s.registry.log|
  }

  function ApplyStep(s: System, step: Step): System
    requires StepEnabled(s, step)
  {
    match step
    case Operates(op) => s.(registry := Apply(s.registry, op))
    case Watches(o) => s.(observers := s.observers[o := Observer(Watch(s.registry), {})])
    case Polls(o) =>
      var observer := s.observers[o];
      var (change, feed) := Poll(s.registry, observer.feed);
      var view := if change.Some? then Take(observer.view, change.value) else observer.view;
      s.(observers := s.observers[o := Observer(feed, view)])
  }

  /** What each step does: an operation changes the registry alone; a new subscription starts with the hosts
      listed then; an observer that is polled takes its snapshot, the next event, or, when more than 32 events
      have passed, the hosts listed now. */
  lemma StepMeans(s: System, step: Step)
    requires StepEnabled(s, step)
    ensures var after := ApplyStep(s, step);
      match step
      case Operates(op) => after == System(Apply(s.registry, op), s.observers)
      case Watches(o) =>
        after == System(s.registry, s.observers[o := Observer(Feed(|s.registry.log|, Some(s.registry.hosts.Keys)), {})])
      case Polls(o) =>
        var feed, log := s.observers[o].feed, s.registry.log;
        after == System(s.registry, s.observers[o :=
          if feed.snapshot.Some? then Observer(Feed(feed.next, None), feed.snapshot.value)
          else if feed.next == |log| then s.observers[o]
          else if |log| - feed.next > 32 then Observer(Feed(|log|, None), s.registry.hosts.Keys)
          else Observer(Feed(feed.next + 1, None), Follow(s.observers[o].view, log[feed.next]))])
  {
  }

  /** What the observer has been handed or is about to be handed matches the log it has read. */
  predicate InStep(log: seq<Event>, o: Observer) {
    o.feed.next <= |log|
    && Replay(log[..o.feed.next]) == if o.feed.snapshot.Some? then o.feed.snapshot.value else o.view
  }

  ghost predicate SystemInv(s: System) {
    Inv(s.registry) && forall o :: o in s.observers ==> InStep(s.registry.log, s.observers[o])
  }

  lemma GrowingLogKeepsInStep(log: seq<Event>, longer: seq<Event>, o: Observer)
    requires log <= longer && InStep(log, o)
    ensures InStep(longer, o)
  {
    assert longer[..o.feed.next] == log[..o.feed.next];
  }

  lemma PollKeepsInStep(r: Registry, o: Observer)
    requires Inv(r) && InStep(r.log, o)
    ensures var (change, feed) := Poll(r, o.feed);
      InStep(r.log, Observer(feed, if change.Some? then Take(o.view, change.value) else o.view))
  {
    assert r.log[..|r.log|] == r.log;
    if o.feed.snapshot.None? && o.feed.next < |r.log| {
      assert r.log[..o.feed.next + 1] == r.log[..o.feed.next] + [r.log[o.feed.next]];
      ReplaySnoc(r.log[..o.feed.next], r.log[o.feed.next]);
    }
  }

  lemma SystemStepKeepsInv(s: System, step: Step)
    requires SystemInv(s) && StepEnabled(s, step)
    ensures SystemInv(ApplyStep(s, step))
  {
    match step {
      case Operates(op) =>
        StepKeepsInv(s.registry, op);
        forall o | o in s.observers ensures InStep(Apply(s.registry, op).log, s.observers[o]) {
          GrowingLogKeepsInStep(s.registry.log, Apply(s.registry, op).log, s.observers[o]);
        }
      case Watches(o) => assert s.registry.log[..|s.registry.log|] == s.registry.log;
      case Polls(o) => PollKeepsInStep(s.registry, s.observers[o]);
    }
  }

  ghost predicate SystemRun(s: System, steps: seq<Step>, t: System)
    decreases |steps|
  {
    if steps == [] then s == t
    else StepEnabled(s, steps[0]) && SystemRun(ApplyStep(s, steps[0]), steps[1..], t)
  }

  predicate Drained(r: Registry, feed: Feed) {
    feed.snapshot.None? && feed.next == |r.log|
  }

  /** However connections, disconnects, wake-ups and observers interleave, and however far an observer
      falls behind: whenever its feed has nothing more to hand out, it holds exactly the connected
      hosts. */
  lemma {:induction false} FeedsConverge(s: System, steps: seq<Step>, t: System)
    requires SystemInv(s) && SystemRun(s, steps, t)
    ensures SystemInv(t)
    ensures forall o :: o in t.observers && Drained(t.registry, t.observers[o].feed) ==>
      t.observers[o].view == t.registry.hosts.Keys
    decreases |steps|
  {
    if steps != [] {
      SystemStepKeepsInv(s, steps[0]);
      FeedsConverge(ApplyStep(s, steps[0]), steps[1..], t);
    }
    assert t.registry.log[..|t.registry.log|] == t.registry.log;
  }

  lemma EmptySystem()
    ensures SystemInv(System(EMPTY, map[]))
  {
  }

  function PollTimes(r: Registry, o: Observer, n: nat): Observer
    requires o.feed.next <= |r.log|
    ensures PollTimes(r, o, n).feed.next <= |r.log|
    decreases n
  {
    if n == 0 then o
    else
      var (change, feed) := Poll(r, o.feed);
      PollTimes(r, Observer(feed, if change.Some? then Take(o.view, change.value) else o.view), n - 1)
  }

  /** Catching up is bounded: after one snapshot and at most `CAPACITY` changes a feed is drained. */
  lemma {:induction false} FeedsDrain(r: Registry, o: Observer, n: nat)
    requires Inv(r) && InStep(r.log, o)
    requires o.feed.snapshot.None? && |r.log| - o.feed.next <= n && |r.log| - o.feed.next <= CAPACITY
    ensures Drained(r, PollTimes(r, o, n).feed) && PollTimes(r, o, n).view == r.hosts.Keys
    decreases n
  {
    assert r.log[..|r.log|] == r.log;
    if n > 0 {
      PollKeepsInStep(r, o);
      var (change, feed) := Poll(r, o.feed);
      FeedsDrain(r, Observer(feed, if change.Some? then Take(o.view, change.value) else o.view), n - 1);
    }
  }

  /** Any feed is drained after `CAPACITY + 2` polls of an unchanged registry. */
  lemma FeedsCatchUp(r: Registry, o: Observer)
    requires Inv(r) && InStep(r.log, o)
    ensures var after := PollTimes(r, o, CAPACITY + 2);
      Drained(r, after.feed) && after.view == r.hosts.Keys
  {
    PollKeepsInStep(r, o);
    var (change, feed) := Poll(r, o.feed);
    var first := Observer(feed, if change.Some? then Take(o.view, change.value) else o.view);
    assert PollTimes(r, o, CAPACITY + 2) == PollTimes(r, first, CAPACITY + 1);
    if |r.log| - first.feed.next <= CAPACITY {
      FeedsDrain(r, first, CAPACITY + 1);
    } else {
      PollKeepsInStep(r, first);
      var (next, later) := Poll(r, first.feed);
      var second := Observer(later, if next.Some? then Take(first.view, next.value) else first.view);
      assert PollTimes(r, first, CAPACITY + 1) == PollTimes(r, second, CAPACITY);
      FeedsDrain(r, second, CAPACITY);
    }
  }

}

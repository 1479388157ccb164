/**
 The registry as the server keeps it: a map of connections under one lock, a counter that stamps each
 of them, and a broadcast ring that holds the last `CAPACITY` events. Every method is tied to the
 operation of the registry model, and a feed to the model's `Poll`.
 */
module HostRegistry {
  import opened Options
  import opened RegistryModel

  /** A broadcast channel over a ring of slots: event number `i` lives in slot `i % CAPACITY`. */
  class Broadcast {
    const slots: array<Event>
    var tail: nat
    ghost var log: seq<Event>

    ghost predicate Valid()
      reads this, slots
    {
      && slots.Length == CAPACITY
      && tail == |log|
      && forall i :: 0 <= i < tail && tail <= i + CAPACITY ==> slots[i % CAPACITY] == log[i]
    }

    constructor ()
      ensures Valid() && log == [] && fresh(slots)
    {
      slots := new Event[CAPACITY](_ => Event(0, false));
      tail, log := 0, [];
    }

    method Send(event: Event)
      requires Valid()
      modifies this, slots
      ensures Valid() && log == old(log) + [event]
    {
      var slot := tail % CAPACITY;
      assert forall i :: 0 <= i < tail && tail < i + CAPACITY ==> i % CAPACITY != slot;
      slots[slot] := event;
      log := log + [event];
      tail := tail + 1;
    }

    /** The event after `next` events, unless the ring has already overwritten it. */
    method Receive(next: nat) returns (event: Option<Event>, lagged: bool)
      requires Valid() && next <= tail
      ensures lagged == (next + CAPACITY < |log|)
      ensures event == if lagged || next == |log| then None else Some(log[next])
    {
      lagged := next + CAPACITY < tail;
      if lagged || next == tail {
        event := None;
      } else {
        event := Some(slots[next % CAPACITY]);
      }
    }
  }

  class HostRegistry {
    var hosts: map<HostId, Generation>
    var nextGeneration: Generation
    var wakes: map<Generation, Wake>
    const broadcast: Broadcast

    ghost predicate Valid()
      reads this, broadcast, broadcast.slots
    {
      broadcast.Valid() && Inv(Model())
    }

    ghost function Model(): Registry
      reads this, broadcast
    {
      Registry(hosts, nextGeneration, broadcast.log, wakes)
    }

    constructor ()
      ensures Valid() && Model() == EMPTY && fresh(broadcast) && fresh(broadcast.slots)
    {
      hosts, nextGeneration, wakes := map[], 0, map[];
      broadcast := new Broadcast();
    }

    /** Registers a connection of the host, displacing an older one, and returns its stamp. */
    method RegisterHost(id: HostId) returns (generation: Generation)
      requires Valid()
      modifies this, broadcast, broadcast.slots
      ensures Valid() && Model() == Register(old(Model()), id)
      ensures generation == old(nextGeneration)
    {
      RegisterKeepsInv(Model(), id);
      generation := nextGeneration;
      nextGeneration := nextGeneration + 1;
      if id in hosts {
        wakes := Close(wakes, hosts[id]);
      }
      hosts := hosts[id := generation];
      wakes := wakes[generation := Wake(id, false, true)];
      broadcast.Send(Event(id, true));
    }

    /** Runs when a connection's registration is dropped. */
    method CleanUp(id: HostId, generation: Generation)
      requires Valid()
      modifies this, broadcast, broadcast.slots
      ensures Valid() && Model() == DropRegistration(old(Model()), id, generation)
    {
      if id in hosts && hosts[id] == generation {
        DeregisterHost(id);
      }
    }

    method DeregisterHost(id: HostId)
      requires Valid()
      modifies this, broadcast, broadcast.slots
      ensures Valid() && Model() == Deregister(old(Model()), id)
    {
      DeregisterKeepsInv(Model(), id);
      if id in hosts {
        wakes := Close(wakes, hosts[id]);
        hosts := hosts - {id};
        broadcast.Send(Event(id, false));
      }
    }

    /** Drains the map in whatever order it yields its keys. */
    method DisconnectEveryHost() returns (ghost order: seq<HostId>)
      requires Valid()
      modifies this, broadcast, broadcast.slots
      ensures Enumerates(order, old(hosts.Keys))
      ensures Valid() && Model() == DisconnectAll(old(Model()), order) && hosts == map[]
    {
      order := [];
      var left := hosts.Keys;
      while left != {}
        invariant left == hosts.Keys
        invariant Valid()
        invariant forall id :: id in order ==> id !in hosts && id in old(hosts)
        invariant forall id :: id in old(hosts) ==> id in order || id in hosts
        invariant forall id :: id in hosts ==> id in old(hosts)
        invariant forall i, j :: 0 <= i < j < |order| ==> order[i] != order[j]
        invariant Model() == DisconnectAll(old(Model()), order)
        decreases |left|
      {
        assert (forall id :: id !in left) ==> left == {};
        var id :| id in left;
        DisconnectAllSnoc(old(Model()), order, id);
        DeregisterHost(id);
        order := order + [id];
        left := left - {id};
      }
    }

    method DispatchTo(id: HostId)
      requires Valid()
      modifies this`wakes
      ensures Valid() && Model() == Dispatch(old(Model()), id)
    {
      StepKeepsInv(Model(), Dispatches(id));
      if id in hosts && hosts[id] in wakes {
        wakes := wakes[hosts[id] := wakes[hosts[id]].(pending := true)];
      }
    }

    /** What the connection behind a registration finds in its wake-up channel. */
    method ReceiveWake(generation: Generation) returns (received: Received)
      requires Valid() && generation in wakes
      modifies this`wakes
      ensures received == Receive(old(Model()), generation)
      ensures Valid() && Model() == AfterReceive(old(Model()), generation)
    {
      StepKeepsInv(Model(), Receives(generation));
      received := Receive(Registry(hosts, nextGeneration, [], wakes), generation);
      wakes := wakes[generation := wakes[generation].(pending := false)];
    }

    method ConnectedHosts() returns (ids: set<HostId>)
      requires Valid()
      ensures ids == Replay(broadcast.log)
    {
      ids := hosts.Keys;
    }
  }

  lemma {:induction false} DisconnectAllSnoc(r: Registry, order: seq<HostId>, id: HostId)
    ensures DisconnectAll(r, order + [id]) == Deregister(DisconnectAll(r, order), id)
    decreases |order|
  {
    if order == [] {
      assert [] + [id] == [id];
    } else {
      assert (order + [id])[0] == order[0] && (order + [id])[1..] == order[1..] + [id];
      DisconnectAllSnoc(Deregister(r, order[0]), order[1..], id);
    }
  }

  /** An observer's subscription. `view` is the set an observer holds that takes every change. */
  class ConnectionFeed {
    const registry: HostRegistry
    var next: nat
    var connected: Option<set<HostId>>
    ghost var view: set<HostId>

    ghost predicate Valid()
      reads this, registry, registry.broadcast, registry.broadcast.slots
    {
      registry.Valid() && InStep(registry.broadcast.log, Observer(Model(), view))
    }

    ghost function Model(): Feed
      reads this
    {
      Feed(next, connected)
    }

    /** Subscribes and takes the snapshot in one go. */
    constructor (registry: HostRegistry)
      requires registry.Valid()
      ensures this.registry == registry && Valid() && Model() == Watch(registry.Model()) && view == {}
    {
      this.registry := registry;
      next := registry.broadcast.tail;
      connected := Some(registry.hosts.Keys);
      view := {};
      new;
      assert registry.broadcast.log[..next] == registry.broadcast.log;
    }

    /** The next change, or nothing when the feed would have to wait for one. A feed that has fallen
        behind subscribes again and hands out a fresh snapshot. */
    method Next() returns (change: Option<Change>)
      requires Valid()
      modifies this
      ensures Valid()
      ensures (change, Model()) == Poll(registry.Model(), old(Model()))
      ensures view == if change.Some? then Take(old(view), change.value) else old(view)
      ensures change.None? ==> view == registry.hosts.Keys
    {
      PollKeepsInStep(registry.Model(), Observer(Model(), view));
      ghost var log := registry.broadcast.log;
      assert log[..|log|] == log;
      if connected.None? {
        var event, lagged := registry.broadcast.Receive(next);
        if lagged {
          next, connected := registry.broadcast.tail, Some(registry.hosts.Keys);
        } else if event.Some? {
          next, change := next + 1, Some(Changed(event.value));
          view := Take(view, change.value);
          return;
        } else {
          return None;
        }
      }
      change := Some(Connected(connected.value));
      connected := None;
      view := Take(view, change.value);
    }
  }

}

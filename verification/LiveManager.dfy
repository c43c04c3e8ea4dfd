/** The lifecycle of one logical live connection: generations, reconnect timer, network status and
    resynchronisation. Listeners do nothing to the manager; whether the network is up and whether
    the transport opens a connection are arguments. */
module LiveManager {
  import opened Json

  datatype Status = Idle | Connecting | Connected | Reconnecting | Offline | Failed

  datatype Snapshot = Snapshot(status: Status, connected: bool, attempt: nat)

  const Initial := Snapshot(Idle, false, 0)

  datatype Manifest = Manifest(url: string, keys: seq<string>)

  datatype Event = Ready(keys: seq<string>) | Resync(keys: seq<string>) | Other(payload: string)

  /** An event handed to the listeners in the name of a generation. */
  datatype Dispatch = Dispatch(generation: nat, event: Event)

  /** The loop reading one connection: the generation it serves and how often that was retried. */
  datatype Consumer = Consumer(generation: nat, attempt: nat)

  /** How the outside world answers: is the network up, and does the transport open a connection. */
  datatype World = World(online: bool, opens: bool)

  function AtLeastOne(n: nat): nat {
    if n == 0 then 1 else n
  }

  /** Events are handed out in the order of the generations, none ahead of the current one. */
  ghost predicate Ordered(log: seq<Dispatch>, generation: nat) {
    && (forall i :: 0 <= i < |log| ==> log[i].generation <= generation)
    && (forall i, j :: 0 <= i < j < |log| ==> log[i].generation <= log[j].generation)
  }

  /** A dispatch keeps the order if it is in the name of no earlier generation than the last one
      and of none to come. */
  lemma DispatchOrdered(log: seq<Dispatch>, serving: nat, generation: nat, event: Event)
    requires Ordered(log, serving) && serving <= generation
    ensures Ordered(log + [Dispatch(serving, event)], generation)
  {
  }

  class LiveManager {
    var snapshot: Snapshot
    var manifest: Option<Manifest>
    var connection: Option<nat>
    var reconnectTimer: Option<nat>
    var subscribed: bool
    var generation: nat
    var desired: bool
    var consumers: map<nat, Consumer>
    var connectionCounter: nat
    /** The connections that were opened and neither closed nor ended. */
    ghost var open: set<nat>
    ghost var log: seq<Dispatch>
    /** The stream was lost or replaced by request, and no ready event has made up for it yet. */
    ghost var disrupted: bool

    constructor ()
      ensures Valid() && log == [] && !desired && manifest.None? && !disrupted
    {
      snapshot, manifest, connection, reconnectTimer := Initial, None, None, None;
      subscribed, generation, desired, consumers, connectionCounter := false, 0, false, map[], 0;
      open, log, disrupted := {}, [], false;
    }

    ghost predicate Wanted()
      reads this
    {
      desired && manifest.Some?
    }

    /** Bookkeeping of connections: the current one is open and served by the only loop of its
        generation; every other connection ever opened is closed or has ended. */
    ghost predicate Tracked()
      reads this
    {
      && open == (if connection.Some? then {connection.value} else {})
      && (connection.Some? ==> connection.value in consumers)
      && (forall id :: id in consumers ==> id <= connectionCounter && consumers[id].generation <= generation)
      && (forall id :: id in consumers && consumers[id].generation == generation ==> connection == Some(id))
      && (connection.Some? ==> consumers[connection.value].generation == generation)
      && Ordered(log, generation)
    }

    /** Nothing is under way: neither a connection nor a timer. */
    ghost predicate Quiet()
      reads this
    {
      connection.None? && reconnectTimer.None?
    }

    /** Between two steps: while live is wanted, the network is watched and exactly one of a
        connection, a timer or the offline status holds; otherwise nothing is held. A loss of the
        stream is remembered by whatever comes next. */
    ghost predicate Valid()
      reads this
    {
      && Tracked()
      && (Wanted() ==> subscribed)
      && (!Wanted() ==> Quiet() && !subscribed && !disrupted)
      && (Wanted() ==> (connection.Some? || reconnectTimer.Some? || snapshot.status == Offline))
      && (connection.Some? ==> reconnectTimer.None? && snapshot.status != Offline)
      && (reconnectTimer.Some? ==> snapshot.status != Offline && reconnectTimer.value >= 1)
      && (disrupted && connection.Some? ==> consumers[connection.value].attempt >= 1)
    }

    /** What every step keeps: generations and the events handed out only grow. */
    twostate predicate Advanced()
      reads this
    {
      && Valid() && old(generation) <= generation && old(log) <= log && old(connectionCounter) <= connectionCounter
      && (forall id :: id in consumers && id <= old(connectionCounter) ==>
            id in old(consumers) && consumers[id] == old(consumers)[id])
    }

    /** What stands after a connection was started: the loop of a new connection, or else a retry
        after the failure to open one. */
    ghost predicate Started(reconnecting: bool, attempt: nat, world: World)
      reads this
    {
      if world.opens then
        && connection.Some? && connection.value == connectionCounter && connectionCounter in consumers
        && consumers[connectionCounter] == Consumer(generation, attempt) && reconnectTimer.None?
        && snapshot == Snapshot(if reconnecting then Reconnecting else Connecting, false, attempt)
      else
        && connection.None? && reconnectTimer == (if world.online then Some(attempt + 1) else None)
        && snapshot == Snapshot(if world.online then Failed else Offline, false, attempt + 1)
    }

    /** What stands after a connection was asked for: one is started if the network is up. */
    ghost predicate Asked(reconnecting: bool, attempt: nat, waiting: nat, world: World)
      reads this
    {
      if world.online then Started(reconnecting, attempt, world)
      else Quiet() && snapshot == Snapshot(Offline, false, waiting)
    }

    /** Nothing about connections and their retries changed. */
    twostate predicate Untouched()
      reads this
    {
      && connection == old(connection) && reconnectTimer == old(reconnectTimer) && generation == old(generation)
      && consumers == old(consumers) && subscribed == old(subscribed) && disrupted == old(disrupted)
    }

    // ----- Parts of steps -----

    method StopConnection()
      requires Tracked()
      modifies this`generation, this`connection, this`open
      ensures Tracked() && connection.None? && generation == old(generation) + 1
    {
      generation := generation + 1;
      if connection.Some? {
        Close(connection.value);
      }
      connection := None;
    }

    ghost method Close(id: nat)
      modifies this`open
      ensures open == old(open) - {id}
    {
      open := open - {id};
    }

    method SetOffline(attempt: nat)
      requires Tracked() && Wanted() && subscribed && connection.None?
      modifies this`reconnectTimer, this`snapshot
      ensures Valid() && snapshot == Snapshot(Offline, false, attempt) && reconnectTimer.None?
    {
      reconnectTimer := None;
      snapshot := Snapshot(Offline, false, attempt);
    }

    /** Retries later, or waits for the network. */
    method ScheduleReconnect(errorState: bool, online: bool)
      requires Tracked() && Wanted() && subscribed && connection.None?
      modifies this`reconnectTimer, this`snapshot
      ensures Valid()
      ensures snapshot == Snapshot(if !online then Offline else if errorState then Failed else Reconnecting, false,
                                   old(snapshot.attempt) + 1)
      ensures reconnectTimer == if online then Some(snapshot.attempt) else None
    {
      reconnectTimer := None;
      var attempt := AtLeastOne(snapshot.attempt + 1);
      if !online {
        SetOffline(attempt);
        return;
      }
      snapshot := Snapshot(if errorState then Failed else Reconnecting, false, attempt);
      reconnectTimer := Some(attempt);
    }

    /** Opens a connection for a new generation, or treats the failure to do so as an error. */
    method StartConnection(reconnecting: bool, attempt: nat, world: World)
      requires Tracked() && Wanted() && subscribed && Quiet() && (disrupted ==> attempt >= 1)
      modifies this`generation, this`snapshot, this`connection, this`connectionCounter, this`consumers, this`open,
               this`reconnectTimer, this`disrupted
      ensures Advanced() && generation == old(generation) + 1 && Started(reconnecting, attempt, world)
      ensures disrupted == (old(disrupted) || !world.opens)
    {
      generation := generation + 1;
      snapshot := Snapshot(if reconnecting then Reconnecting else Connecting, false, attempt);
      if !world.opens {
        disrupted := true;
        ScheduleReconnect(true, world.online);
        return;
      }
      OpenConnection(attempt);
    }

    /** The transport's connection, and the loop that reads it. */
    method OpenConnection(attempt: nat)
      requires Ordered(log, generation) && connection.None? && open == {}
      requires forall id :: id in consumers ==> id <= connectionCounter && consumers[id].generation < generation
      modifies this`connection, this`connectionCounter, this`consumers, this`open
      ensures Tracked() && connection == Some(connectionCounter) && connectionCounter == old(connectionCounter) + 1
      ensures consumers == old(consumers)[connectionCounter := Consumer(generation, attempt)]
    {
      connectionCounter := connectionCounter + 1;
      consumers := consumers[connectionCounter := Consumer(generation, attempt)];
      connection := Some(connectionCounter);
      open := open + {connectionCounter};
    }

    /** Starts a connection if the network is up, and waits for it otherwise. */
    method TryConnection(reconnecting: bool, attempt: nat, waiting: nat, world: World)
      requires Tracked() && Wanted() && subscribed && Quiet() && (disrupted && world.online ==> attempt >= 1)
      modifies this`generation, this`snapshot, this`connection, this`connectionCounter, this`consumers, this`open,
               this`reconnectTimer, this`disrupted
      ensures Advanced() && Asked(reconnecting, attempt, waiting, world)
      ensures disrupted == (old(disrupted) || (world.online && !world.opens))
      ensures generation == old(generation) + if world.online then 1 else 0
    {
      if !world.online {
        SetOffline(waiting);
        return;
      }
      StartConnection(reconnecting, attempt, world);
    }

    /** Hands an event out in the name of the generation that the reading loop serves. */
    ghost method Emit(serving: nat, event: Event)
      requires Ordered(log, serving) && serving <= generation
      modifies this`log
      ensures Ordered(log, generation) && log == old(log) + [Dispatch(serving, event)]
    {
      DispatchOrdered(log, serving, generation, event);
      log := log + [Dispatch(serving, event)];
    }

    // ----- Requests of the application -----

    /** Takes a new page's manifest, already normalised; `None` where the page has no live keys. */
    method UpdateManifest(next: Option<Manifest>, world: World)
      requires Valid()
      modifies this
      ensures Advanced() && manifest == next && desired == old(desired) && log == old(log)
      ensures next == old(manifest) ==> Untouched() && snapshot == old(snapshot)
      ensures next != old(manifest) ==> generation > old(generation)
      ensures next != old(manifest) ==>
                if desired && next.Some? then subscribed && Asked(false, 0, 1, world)
                else Quiet() && !subscribed && snapshot == Initial
      ensures next != old(manifest) ==> (disrupted <==> desired && next.Some? && world.online && !world.opens)
    {
      if next == manifest {
        return;
      }
      disrupted := false;
      reconnectTimer := None;
      StopConnection();
      manifest, snapshot := next, Initial;
      Resume(world);
    }

    /** Connects again after the manifest changed, where that is wanted. */
    method Resume(world: World)
      requires Tracked() && Quiet() && !disrupted && snapshot == Initial && (!desired ==> !subscribed)
      modifies this`generation, this`snapshot, this`connection, this`connectionCounter, this`consumers, this`open,
               this`reconnectTimer, this`disrupted, this`subscribed
      ensures Advanced() && (disrupted <==> desired && manifest.Some? && world.online && !world.opens)
      ensures if desired && manifest.Some? then subscribed && Asked(false, 0, 1, world)
              else Quiet() && !subscribed && snapshot == Initial
    {
      if desired && manifest.Some? {
        subscribed := true;
        TryConnection(false, 0, 1, world);
      } else if manifest.None? {
        subscribed := false;
      }
    }

    /** Asks for a connection. Only from the offline status with the network up does this start one
        that will not resynchronise. */
    method Connect(world: World)
      requires Valid()
      modifies this
      ensures Advanced() && desired && manifest == old(manifest) && log == old(log)
      ensures if manifest.None? || old(connection.Some? || reconnectTimer.Some?)
              then Untouched() && snapshot == old(snapshot)
              else subscribed && Asked(false, 0, 1, world)
      ensures old(disrupted) ==> (!disrupted <==> old(snapshot.status) == Offline && world.online && world.opens)
      ensures old(disrupted) && !disrupted ==> connection.Some? && consumers[connection.value].attempt == 0
      ensures old(connection.None?) && connection.Some? ==> generation > old(generation)
    {
      desired := true;
      if manifest.None? || connection.Some? || reconnectTimer.Some? {
        return;
      }
      subscribed := true;
      if world.online {
        disrupted := false;
      }
      TryConnection(false, 0, 1, world);
    }

    /** Gives up the connection, the timer and the network subscription. */
    method Halt()
      requires Tracked()
      modifies this`desired, this`disrupted, this`reconnectTimer, this`generation, this`connection, this`open,
               this`subscribed
      ensures Tracked() && Quiet() && !desired && !disrupted && !subscribed && generation == old(generation) + 1
    {
      desired, disrupted := false, false;
      reconnectTimer := None;
      StopConnection();
      subscribed := false;
    }

    method Disconnect()
      requires Valid()
      modifies this
      ensures Advanced() && !desired && generation > old(generation) && log == old(log)
      ensures open == {} && reconnectTimer.None? && !subscribed && manifest == old(manifest) && snapshot == Initial
    {
      Halt();
      snapshot := Initial;
    }

    /** Replaces the connection at once; a resync is owed from then on. */
    method Reconnect(world: World)
      requires Valid()
      modifies this
      ensures Advanced() && desired && manifest == old(manifest) && log == old(log)
      ensures manifest.Some? ==> generation > old(generation) && disrupted && subscribed
      ensures manifest.Some? ==> Asked(true, old(snapshot.attempt) + 1, old(snapshot.attempt) + 1, world)
      ensures manifest.None? ==> Untouched() && snapshot == Initial
    {
      desired := true;
      if manifest.None? {
        snapshot := Initial;
        return;
      }
      subscribed := true;
      var attempt := snapshot.attempt + 1;
      reconnectTimer, disrupted := None, true;
      StopConnection();
      TryConnection(true, attempt, AtLeastOne(attempt), world);
    }

    method Clear()
      requires Valid()
      modifies this
      ensures Advanced() && !desired && generation > old(generation) && log == old(log)
      ensures open == {} && reconnectTimer.None? && !subscribed && manifest.None? && snapshot == Initial
    {
      Halt();
      manifest, snapshot := None, Initial;
    }

    // ----- What the stream brings -----

    /** An event arrives on a connection. A superseded loop hands nothing out and stops; a ready
        event after a loss of the stream is followed by a resync of every key of the manifest. */
    method Arrive(id: nat, event: Event)
      requires Valid() && id in consumers
      modifies this`snapshot, this`consumers, this`log, this`disrupted
      ensures Advanced()
      ensures old(consumers[id].generation != generation) ==>
                log == old(log) && snapshot == old(snapshot) && consumers == old(consumers) - {id}
      ensures old(consumers[id].generation == generation) ==>
                && consumers == old(consumers)
                    && snapshot == (if event.Ready? then Snapshot(Connected, true, 0) else old(snapshot))
                && manifest.Some?
                && (if event.Ready? && old(consumers)[id].attempt >= 1
                    then log == old(log) + [Dispatch(generation, event),
                                            Dispatch(generation, Resync(manifest.value.keys))]
                    else log == old(log) + [Dispatch(generation, event)])
      ensures old(disrupted) && old(connection) == Some(id) && event.Ready? ==>
                log == old(log) + [Dispatch(generation, event), Dispatch(generation, Resync(manifest.value.keys))]
      ensures disrupted == (old(disrupted) && !(event.Ready? && old(connection) == Some(id)))
    {
      var consumer := consumers[id];
      if consumer.generation != generation {
        consumers := consumers - {id};
        return;
      }
      var reconnected := event.Ready? && consumer.attempt > 0;
      if event.Ready? {
        snapshot := Snapshot(Connected, true, 0);
        disrupted := false;
      }
      Emit(consumer.generation, event);
      if reconnected && manifest.Some? {
        Emit(consumer.generation, Resync(manifest.value.keys));
      }
    }

    /** A connection ends, by itself or with an error. */
    method StreamStops(id: nat, failed: bool, world: World)
      requires Valid() && id in consumers
      modifies this`snapshot, this`consumers, this`connection, this`reconnectTimer, this`open, this`disrupted
      ensures Advanced() && log == old(log) && consumers == old(consumers) - {id}
      ensures old(consumers[id].generation != generation) ==>
                && snapshot == old(snapshot) && connection == old(connection)
                && reconnectTimer == old(reconnectTimer) && disrupted == old(disrupted)
      ensures old(consumers[id].generation == generation) ==>
                && connection.None? && disrupted
                && snapshot == Snapshot(if !world.online then Offline else if failed then Failed else Reconnecting,
                                        false,
                                        old(snapshot.attempt) + 1)
                && reconnectTimer == if world.online then Some(snapshot.attempt) else None
    {
      var consumer := consumers[id];
      consumers := consumers - {id};
      if consumer.generation != generation {
        return;
      }
      connection := None;
      Close(id);
      disrupted := true;
      ScheduleReconnect(failed, world.online);
    }

    // ----- Timer and network -----

    method TimerFires(world: World)
      requires Valid() && reconnectTimer.Some?
      modifies this`generation, this`snapshot, this`connection, this`connectionCounter, this`consumers, this`open,
               this`reconnectTimer, this`disrupted
      ensures Advanced() && log == old(log)
      ensures old(disrupted) ==> disrupted
      ensures Asked(true, old(reconnectTimer).value, old(reconnectTimer).value, world)
    {
      var attempt := reconnectTimer.value;
      reconnectTimer := None;
      TryConnection(true, attempt, attempt, world);
    }

    method GoesOnline(world: World)
      requires Valid()
      modifies this`generation, this`snapshot, this`connection, this`connectionCounter, this`consumers, this`open,
               this`reconnectTimer, this`disrupted
      ensures Advanced() && log == old(log)
      ensures old(disrupted) ==> disrupted
      ensures if old(Wanted() && connection.None?) then Started(true, old(AtLeastOne(snapshot.attempt)), world)
              else Untouched() && snapshot == old(snapshot)
    {
      if !subscribed || !desired || manifest.None? || connection.Some? {
        return;
      }
      var attempt := AtLeastOne(snapshot.attempt);
      reconnectTimer := None;
      StartConnection(true, attempt, world);
    }

    method GoesOffline()
      requires Valid()
      modifies this`generation, this`snapshot, this`connection, this`open, this`reconnectTimer, this`disrupted
      ensures Advanced() && log == old(log)
      ensures Wanted() ==>
                && disrupted && open == {} && Quiet() && generation > old(generation)
                && snapshot == Snapshot(Offline, false,
                                        old(if snapshot.status == Offline then AtLeastOne(snapshot.attempt)
                                                            else AtLeastOne(snapshot.attempt + 1)))
      ensures !Wanted() ==> Untouched() && snapshot == old(snapshot)
    {
      if !subscribed || !desired || manifest.None? {
        return;
      }
      var attempt :=
        if snapshot.status == Offline then AtLeastOne(snapshot.attempt) else AtLeastOne(snapshot.attempt + 1);
      reconnectTimer := None;
      StopConnection();
      disrupted := true;
      SetOffline(attempt);
    }
  }

  // ----- Runs -----

  datatype Input =
    | ManifestChanges(next: Option<Manifest>, world: World)
    | ConnectAsked(world: World)
    | DisconnectAsked
    | ReconnectAsked(world: World)
    | ClearAsked
    | EventArrives(id: nat, event: Event)
    | StreamEnds(id: nat, failed: bool, world: World)
    | TimerElapses(world: World)
    | NetworkUp(world: World)
    | NetworkDown

  /** The inputs that settle or forget a loss of the stream: the ready event that resynchronises, a
      connect from offline that opens a connection, a manifest that changes unless its connection
      fails to open, and giving up. */
  predicate Forgets(input: Input, connection: Option<nat>, status: Status, manifest: Option<Manifest>) {
    match input
    case EventArrives(id, event) => event.Ready? && connection == Some(id)
    case ConnectAsked(world) => status == Offline && world.online && world.opens
    case ManifestChanges(next, world) => next != manifest && (next.Some? && world.online ==> world.opens)
    case DisconnectAsked => true
    case ClearAsked => true
    case _ => false
  }

  /** Nothing in the input says that the network is down. */
  predicate NetworkIsUp(input: Input) {
    match input
    case ManifestChanges(_, world) => world.online
    case ConnectAsked(world) => world.online
    case ReconnectAsked(world) => world.online
    case StreamEnds(_, _, world) => world.online
    case TimerElapses(world) => world.online
    case NetworkUp(world) => world.online
    case NetworkDown => false
    case _ => true
  }

  /** A loss is forgotten by exactly those inputs; whatever is handed out is handed out in the name
      of the current generation, so nothing by a superseded loop. */
  method Step(manager: LiveManager, input: Input)
    requires manager.Valid()
    modifies manager
    ensures manager.Advanced()
    ensures old(manager.disrupted) ==>
              (!manager.disrupted <==>
                Forgets(input, old(manager.connection), old(manager.snapshot.status), old(manager.manifest)))
    ensures forall i :: |old(manager.log)| <= i < |manager.log| ==> manager.log[i].generation == old(manager.generation)
    ensures NetworkIsUp(input) && old(manager.snapshot.status != Offline) ==> manager.snapshot.status != Offline
    ensures !input.ManifestChanges? && !input.ClearAsked? ==> manager.manifest == old(manager.manifest)
    ensures input.EventArrives?
            && old(input.id in manager.consumers && manager.consumers[input.id].generation != manager.generation) ==>
              manager.log == old(manager.log)
  {
    match input
    case ManifestChanges(next, world) => manager.UpdateManifest(next, world);
    case ConnectAsked(world) => manager.Connect(world);
    case DisconnectAsked => manager.Disconnect();
    case ReconnectAsked(world) => manager.Reconnect(world);
    case ClearAsked => manager.Clear();
    case EventArrives(id, event) => if id in manager.consumers { manager.Arrive(id, event); }
    case StreamEnds(id, failed, world) => if id in manager.consumers { manager.StreamStops(id, failed, world); }
    case TimerElapses(world) => if manager.reconnectTimer.Some? { manager.TimerFires(world); }
    case NetworkUp(world) => manager.GoesOnline(world);
    case NetworkDown => manager.GoesOffline();
  }

  /** The loss that an explicit connect makes for good: the stream ends while the network is down,
      the application connects once it is up again, and the ready event is followed by no resync.
      What changed in between is never asked for. */
  method LostResync(manifest: Manifest) returns (manager: LiveManager)
    ensures manager.Valid() && manager.manifest == Some(manifest) && !manager.disrupted
    ensures exists g, h ::
              g < h && manager.log == [Dispatch(g, Ready(manifest.keys)), Dispatch(h, Ready(manifest.keys))]
  {
    ghost var g;
    manager, g := LostStream(manifest);
    manager.Connect(World(true, true));
    ghost var h := manager.generation;
    assert g < h;
    manager.Arrive(manager.connection.value, Ready(manifest.keys));
    assert manager.log == [Dispatch(g, Ready(manifest.keys)), Dispatch(h, Ready(manifest.keys))];
  }

  /** A stream that was ready and then ended while the network is down. */
  method LostStream(manifest: Manifest) returns (manager: LiveManager, ghost g: nat)
    ensures fresh(manager) && manager.Valid() && manager.manifest == Some(manifest) && manager.desired
    ensures manager.disrupted && manager.connection.None? && manager.snapshot.status == Offline
    ensures g <= manager.generation && manager.log == [Dispatch(g, Ready(manifest.keys))]
  {
    manager := new LiveManager();
    manager.UpdateManifest(Some(manifest), World(true, true));
    manager.Connect(World(true, true));
    g := manager.generation;
    manager.Arrive(manager.connection.value, Ready(manifest.keys));
    manager.StreamStops(manager.connection.value, false, World(false, false));
  }

  /** Whatever happens, in whatever order: one connection at most is open, and while live is wanted
      there is exactly one of a connection, a timer or the offline status to carry on from. */
  method Run(manager: LiveManager, inputs: seq<Input>)
    requires manager.Valid()
    modifies manager
    ensures manager.Advanced() && |manager.open| <= 1 && Ordered(manager.log, manager.generation)
    ensures old(manager.snapshot.status != Offline) && (forall i :: 0 <= i < |inputs| ==> NetworkIsUp(inputs[i]))
            && manager.Wanted() ==>
              manager.connection.Some? || manager.reconnectTimer.Some?
  {
    ghost var up := manager.snapshot.status != Offline && forall i :: 0 <= i < |inputs| ==> NetworkIsUp(inputs[i]);
    for i := 0 to |inputs|
      invariant manager.Advanced() && (up ==> manager.snapshot.status != Offline)
    {
      Step(manager, inputs[i]);
    }
  }

  /** The inputs that may settle or forget a loss, whatever the state they meet. */
  predicate MayForget(input: Input) {
    match input
    case EventArrives(_, event) => event.Ready?
    case ConnectAsked(world) => world.online && world.opens
    case ManifestChanges(_, _) => true
    case DisconnectAsked => true
    case ClearAsked => true
    case _ => false
  }

  /** A loss outlives any run of other inputs: however often the stream, the timer and the network
      come and go, the next ready event of the connection is followed by a resync of every key. */
  method ReadyAfterLoss(manager: LiveManager, inputs: seq<Input>, ready: Event)
    requires manager.Valid() && manager.disrupted && ready.Ready?
    requires forall i :: 0 <= i < |inputs| ==> !MayForget(inputs[i])
    modifies manager
    ensures manager.Advanced() && manager.manifest == old(manager.manifest)
    ensures manager.connection.None? ==> manager.disrupted
    ensures manager.connection.Some? ==>
              && manager.manifest.Some? && |manager.log| >= |old(manager.log)| + 2
              && manager.log[|manager.log| - 2..] ==
                 [Dispatch(manager.generation, ready),
                  Dispatch(manager.generation, Resync(manager.manifest.value.keys))]
  {
    for i := 0 to |inputs|
      invariant manager.Advanced() && manager.disrupted && manager.manifest == old(manager.manifest)
      invariant |old(manager.log)| <= |manager.log|
    {
      Step(manager, inputs[i]);
    }
    if manager.connection.Some? {
      manager.Arrive(manager.connection.value, ready);
    }
  }
}

/** The live admin tunnels and the port registry their terminator keeps. */
module Registry {

  type Port = x: int | 0 <= x < 0x1_0000

  /** A tunnel's life, in the order `serve` and its drop order impose: the upstream socket is connected,
      its port registered, bytes forwarded, the guard dropped, and only then the socket closed. */
  datatype Phase = Connected | Registered | Unregistered

  datatype Tunnel = Tunnel(port: Port, group: string, phase: Phase)

  class SessionRegistry {
    var live: map<Port, string>

    constructor ()
      ensures live == map[]
    {
      live := map[];
    }

    method Register(port: Port, group: string)
      modifies this
      ensures live == old(live)[port := group]
    {
      live := live[port := group];
    }

    method Lookup(port: Port) returns (found: bool, group: string)
      ensures found <==> port in live
      ensures found ==> group == live[port]
    {
      found := port in live;
      group := if found then live[port] else "";
    }

    /** The guard's drop. */
    method Drop(port: Port)
      modifies this
      ensures live == old(live) - {port}
    {
      live := live - {port};
    }
  }

  /** All open tunnels, by task, and the registry. */
  datatype State = State(open: map<nat, Tunnel>, live: map<Port, string>)

  datatype Action =
    | Connect(id: nat, port: Port, group: string)
    | Register(id: nat)
    | Drop(id: nat)
    | Close(id: nat)

  /** The operating system gives a new connection a local port no open connection has. */
  predicate PortFree(s: State, port: Port) {
    forall id | id in s.open :: s.open[id].port != port
  }

  function Step(s: State, a: Action): (r: State) {
    match a
    case Connect(id, port, group) =>
      if id !in s.open && PortFree(s, port)
      then s.(open := s.open[id := Tunnel(port, group, Connected)]) else s
    case Register(id) =>
      if id in s.open && s.open[id].phase == Connected then
        var t := s.open[id];
        State(s.open[id := t.(phase := Registered)], s.live[t.port := t.group])
      else s
    case Drop(id) =>
      if id in s.open && s.open[id].phase == Registered then
        var t := s.open[id];
        State(s.open[id := t.(phase := Unregistered)], s.live - {t.port})
      else s
    case Close(id) =>
      if id in s.open && s.open[id].phase != Registered then s.(open := s.open - {id}) else s
  }

  function Run(actions: seq<Action>): (s: State) {
    if actions == [] then State(map[], map[]) else Step(Run(actions[..|actions| - 1]), actions[|actions| - 1])
  }

  /** The terminator's tasks driving the shared registry. */
  method Drive(actions: seq<Action>) returns (registry: SessionRegistry, open: map<nat, Tunnel>)
    ensures open == Run(actions).open && registry.live == Run(actions).live
  {
    registry := new SessionRegistry();
    open := map[];
    for i := 0 to |actions|
      invariant fresh(registry)
      invariant open == Run(actions[..i]).open && registry.live == Run(actions[..i]).live
    {
      assert actions[..i + 1][..i] == actions[..i];
      var a := actions[i];
      match a
      case Connect(id, port, group) =>
        if id !in open && PortFree(State(open, registry.live), port) {
          open := open[id := Tunnel(port, group, Connected)];
        }
      case Register(id) =>
        if id in open && open[id].phase == Connected {
          registry.Register(open[id].port, open[id].group);
          open := open[id := open[id].(phase := Registered)];
        }
      case Drop(id) =>
        if id in open && open[id].phase == Registered {
          registry.Drop(open[id].port);
          open := open[id := open[id].(phase := Unregistered)];
        }
      case Close(id) =>
        if id in open && open[id].phase != Registered {
          open := open - {id};
        }
    }
    assert actions[..|actions|] == actions;
  }

  ghost predicate HasRegistered(s: State, port: Port, group: string) {
    exists id :: id in s.open && s.open[id] == Tunnel(port, group, Registered)
  }

  /** The registry is exactly the map from the ports of registered open tunnels to their groups. */
  ghost predicate Inv(s: State) {
    DistinctPorts(s) && ListsRegistered(s) && ListsOnlyRegistered(s)
  }

  ghost predicate DistinctPorts(s: State) {
    forall i, j | i in s.open && j in s.open && i != j :: s.open[i].port != s.open[j].port
  }

  ghost predicate ListsRegistered(s: State) {
    forall id | id in s.open && s.open[id].phase == Registered ::
      s.open[id].port in s.live && s.live[s.open[id].port] == s.open[id].group
  }

  ghost predicate ListsOnlyRegistered(s: State) {
    forall port | port in s.live :: HasRegistered(s, port, s.live[port])
  }

  lemma StepKeeps(s: State, a: Action)
    requires Inv(s)
    ensures Inv(Step(s, a))
  {
    StepPorts(s, a);
    StepListsRegistered(s, a);
    StepListsOnlyRegistered(s, a);
  }

  lemma StepPorts(s: State, a: Action)
    requires DistinctPorts(s)
    ensures DistinctPorts(Step(s, a))
  {
  }

  lemma StepListsRegistered(s: State, a: Action)
    requires DistinctPorts(s) && ListsRegistered(s)
    ensures ListsRegistered(Step(s, a))
  {
  }

  lemma StepListsOnlyRegistered(s: State, a: Action)
    requires DistinctPorts(s) && ListsOnlyRegistered(s)
    ensures ListsOnlyRegistered(Step(s, a))
  {
    var r := Step(s, a);
    forall port | port in r.live ensures HasRegistered(r, port, r.live[port]) {
      if a.Register? && r != s && port == s.open[a.id].port {
        assert r.open[a.id] == Tunnel(port, r.live[port], Registered);
      } else {
        assert HasRegistered(s, port, s.live[port]);
        var id :| id in s.open && s.open[id] == Tunnel(port, s.live[port], Registered);
        assert id in r.open && r.open[id] == s.open[id];
      }
    }
  }

  lemma {:induction false} RunKeeps(actions: seq<Action>)
    ensures Inv(Run(actions))
  {
    if actions != [] {
      RunKeeps(actions[..|actions| - 1]);
      StepKeeps(Run(actions[..|actions| - 1]), actions[|actions| - 1]);
    }
  }

  /** In every reachable state, a lookup made while a tunnel is forwarding names that tunnel's group, and
      dropping a guard removes that tunnel's entry and no other. */
  lemma LookupNamesOwnSession(actions: seq<Action>, id: nat)
    requires id in Run(actions).open && Run(actions).open[id].phase == Registered
    ensures var s := Run(actions);
            && s.open[id].port in s.live && s.live[s.open[id].port] == s.open[id].group
            && forall other | other in s.open && other != id && s.open[other].phase == Registered ::
                 var r := Step(s, Drop(id));
                 s.open[other].port in r.live && r.live[s.open[other].port] == s.open[other].group
  {
    RunKeeps(actions);
  }

  /** A port is absent from the registry exactly when no registered tunnel is open on it. */
  lemma AbsentMeansNoTunnel(actions: seq<Action>, port: Port)
    ensures port in Run(actions).live <==>
            exists id :: id in Run(actions).open && Run(actions).open[id].port == port
                         && Run(actions).open[id].phase == Registered
  {
    RunKeeps(actions);
    var s := Run(actions);
    if port in s.live {
      assert HasRegistered(s, port, s.live[port]);
    }
  }

  // ---- the registry from the history alone --------------------------------------------------------

  /** `actions[i]` connected the tunnel, and nothing has registered or closed it since. */
  ghost predicate ConnectedSince(actions: seq<Action>, i: int, id: nat, port: Port, group: string) {
    && 0 <= i < |actions| && actions[i] == Connect(id, port, group)
    && id !in Run(actions[..i]).open && PortFree(Run(actions[..i]), port)
    && forall n | i < n < |actions| :: actions[n] != Register(id) && actions[n] != Close(id)
  }

  /** `actions[j]` registered a tunnel that `actions[i]` had connected, and its guard has not been dropped. */
  ghost predicate RegisteredSince(actions: seq<Action>, i: int, j: int, id: nat, port: Port, group: string) {
    && 0 <= j < |actions| && actions[j] == Register(id) && ConnectedSince(actions[..j], i, id, port, group)
    && forall n | j < n < |actions| :: actions[n] != Drop(id)
  }

  ghost predicate OpenAs(s: State, id: nat, t: Tunnel) {
    id in s.open && s.open[id] == t
  }

  lemma StepConnected(s: State, a: Action, id: nat, port: Port, group: string)
    ensures OpenAs(Step(s, a), id, Tunnel(port, group, Connected)) <==>
      || (a == Connect(id, port, group) && id !in s.open && PortFree(s, port))
      || (OpenAs(s, id, Tunnel(port, group, Connected)) && a != Register(id) && a != Close(id))
  {
  }

  lemma StepRegistered(s: State, a: Action, id: nat, port: Port, group: string)
    ensures OpenAs(Step(s, a), id, Tunnel(port, group, Registered)) <==>
      || (a == Register(id) && OpenAs(s, id, Tunnel(port, group, Connected)))
      || (OpenAs(s, id, Tunnel(port, group, Registered)) && a != Drop(id))
  {
  }

  lemma ConnectedBefore(actions: seq<Action>, i: nat, id: nat, port: Port, group: string)
    requires i < |actions| - 1
    ensures var n := |actions| - 1;
            ConnectedSince(actions, i, id, port, group)
            <==> && ConnectedSince(actions[..n], i, id, port, group)
                 && actions[n] != Register(id) && actions[n] != Close(id)
  {
    var n := |actions| - 1;
    assert actions[..n][..i] == actions[..i];
    assert forall k | 0 <= k < n :: actions[..n][k] == actions[k];
  }

  lemma {:induction false} ConnectedExactly(actions: seq<Action>, id: nat, port: Port, group: string)
    ensures OpenAs(Run(actions), id, Tunnel(port, group, Connected))
            <==> exists i :: ConnectedSince(actions, i, id, port, group)
    decreases |actions|
  {
    if actions != [] {
      var n := |actions| - 1;
      ConnectedExactly(actions[..n], id, port, group);
      StepConnected(Run(actions[..n]), actions[n], id, port, group);
      if i :| ConnectedSince(actions, i, id, port, group) && i < n {
        ConnectedBefore(actions, i, id, port, group);
      }
      if i :| ConnectedSince(actions[..n], i, id, port, group) {
        ConnectedBefore(actions, i, id, port, group);
      }
      if actions[n] == Connect(id, port, group) && id !in Run(actions[..n]).open && PortFree(Run(actions[..n]), port) {
        assert ConnectedSince(actions, n, id, port, group);
      }
    }
  }

  lemma RegisteredBefore(actions: seq<Action>, i: int, j: nat, id: nat, port: Port, group: string)
    requires j < |actions| - 1
    ensures var n := |actions| - 1;
            RegisteredSince(actions, i, j, id, port, group)
            <==> RegisteredSince(actions[..n], i, j, id, port, group) && actions[n] != Drop(id)
  {
    var n := |actions| - 1;
    assert actions[..n][..j] == actions[..j];
    assert forall k | 0 <= k < n :: actions[..n][k] == actions[k];
  }

  lemma {:induction false} RegisteredExactly(actions: seq<Action>, id: nat, port: Port, group: string)
    ensures OpenAs(Run(actions), id, Tunnel(port, group, Registered))
            <==> exists i, j :: RegisteredSince(actions, i, j, id, port, group)
    decreases |actions|
  {
    if actions != [] {
      var n := |actions| - 1;
      RegisteredExactly(actions[..n], id, port, group);
      ConnectedExactly(actions[..n], id, port, group);
      StepRegistered(Run(actions[..n]), actions[n], id, port, group);
      if i, j :| RegisteredSince(actions, i, j, id, port, group) && j < n {
        RegisteredBefore(actions, i, j, id, port, group);
      }
      if i, j :| RegisteredSince(actions[..n], i, j, id, port, group) {
        RegisteredBefore(actions, i, j, id, port, group);
      }
      if i :| ConnectedSince(actions[..n], i, id, port, group) {
        assert actions[n] == Register(id) ==> RegisteredSince(actions, i, n, id, port, group);
      }
    }
  }

  /** In every run a port is listed for a group exactly when a tunnel connected on it for that group was then
      registered, and its guard has not been dropped since. */
  lemma ListedExactly(actions: seq<Action>, port: Port, group: string)
    ensures var s := Run(actions);
            port in s.live && s.live[port] == group
            <==> exists id, i, j :: RegisteredSince(actions, i, j, id, port, group)
  {
    var s := Run(actions);
    RunKeeps(actions);
    if port in s.live && s.live[port] == group {
      assert HasRegistered(s, port, s.live[port]);
      var id :| id in s.open && s.open[id] == Tunnel(port, group, Registered);
      assert OpenAs(s, id, Tunnel(port, group, Registered));
      RegisteredExactly(actions, id, port, group);
    }
    if id, i, j :| RegisteredSince(actions, i, j, id, port, group) {
      RegisteredExactly(actions, id, port, group);
      assert OpenAs(s, id, Tunnel(port, group, Registered));
    }
  }
}

/** reverse_interface.cpp: what it makes of the server's callbacks, the one client it knows and the states it reports. */
module ReverseInterface {
  import opened TcpServer

  // The reverse interface

  /** The client it talks to, and every program state it reported. */
  datatype Reverse = Reverse(clientFd: int, notifications: seq<bool>)

  const NEW := Reverse(INVALID_SOCKET, [false])

  function Handle(r: Reverse, c: Callback): Reverse {
    match c
    case Connected(fd) => if r.clientFd == INVALID_SOCKET then Reverse(fd, r.notifications + [true]) else r
    case Disconnected(_) => Reverse(INVALID_SOCKET, r.notifications + [false])
    case Message(_) => r
  }

  /** The reverse interface after the server's callbacks so far. */
  function Handled(callbacks: seq<Callback>): Reverse {
    if callbacks == [] then NEW else Handle(Handled(callbacks[..|callbacks| - 1]), callbacks[|callbacks| - 1])
  }

  lemma HandledMore(callbacks: seq<Callback>, c: Callback)
    ensures Handled(callbacks + [c]) == Handle(Handled(callbacks), c)
  {
    assert (callbacks + [c])[..|callbacks|] == callbacks;
  }

  /** Reported are false, true, false, ..., the last of them true exactly while there is a client. */
  ghost predicate Alternating(r: Reverse) {
    && (forall i :: 0 <= i < |r.notifications| ==> r.notifications[i] == (i % 2 == 1))
    && |r.notifications| % 2 == (if r.clientFd == INVALID_SOCKET then 1 else 0)
  }

  /** Its client is the server's only one. */
  ghost predicate Follows(s: State) {
    var r := Handled(s.callbacks);
    && Alternating(r)
    && s.clients == if r.clientFd == INVALID_SOCKET then [] else [r.clientFd]
  }

  lemma ConnectKeepsFollows(s: State, fd: int)
    requires Consistent(s) && s.maxClients == 1 && Follows(s) && (fd == INVALID_SOCKET || fd >= 0)
    ensures Follows(Connect(s, fd))
    ensures Connect(s, fd).maxClients == 1 && Connect(s, fd).keepRunning == s.keepRunning
  {
    HandledMore(s.callbacks, Connected(fd));
    hide Handled;
  }

  lemma DisconnectKeepsFollows(s: State, fd: int)
    requires Follows(s) && s.keepRunning && s.clients == [fd]
    ensures Follows(Disconnect(s, fd)) && Disconnect(s, fd).clients == []
  {
    HandledMore(s.callbacks, Disconnected(fd));
    hide Handled;
    assert [fd][1..] == [];
  }

  lemma {:induction false} ReadKeepsFollows(s: State, active: seq<int>, alive: set<int>)
    requires Follows(s)
    ensures Follows(Read(s, active, alive))
    decreases active
  {
    if active != [] {
      HandledMore(s.callbacks, Message(active[0]));
      hide Handled;
      ReadKeepsFollows(if active[0] in alive then s.(callbacks := s.callbacks + [Message(active[0])]) else s,
                       active[1..], alive);
    }
  }

  lemma StepKeepsFollows(s: State, t: Turn)
    requires Consistent(s) && Possible(s, t) && s.maxClients == 1 && Follows(s)
    ensures Follows(Step(s, t)) && Step(s, t).maxClients == 1
  {
    if t.Ready? && s.keepRunning {
      hide Selected, Gone, Read, DisconnectAll, Follows, Consistent, Admits, Connect;
      var s1 := if s.listenFd in t.ready then Connect(s, t.accepted) else s;
      ConnectKeepsConsistent(s, t.accepted);
      ConnectKeepsFollows(s, t.accepted);
      TurnKeepsFollows(s1, Selected(s1.clients, t.ready), t.alive);
    }
  }

  lemma TurnKeepsFollows(s: State, active: seq<int>, alive: set<int>)
    requires Consistent(s) && s.keepRunning && s.maxClients == 1 && Follows(s)
    requires exists ready :: active == Selected(s.clients, ready)
    ensures var t := DisconnectAll(Read(s, active, alive), Gone(active, alive));
            Follows(t) && t.maxClients == 1
  {
    var ready :| active == Selected(s.clients, ready);
    SelectedOf(s.clients, ready);
    GoneOf(active, alive);
    ReadKeepsAllButCallbacks(s, active, alive);
    ReadKeepsFollows(s, active, alive);
    hide Selected, Gone, Read, Follows;
    DropAtMostOne(Read(s, active, alive), Gone(active, alive));
  }

  lemma DropAtMostOne(s: State, gone: seq<int>)
    requires Follows(s) && s.keepRunning && s.maxClients == 1 && |s.clients| <= 1
    requires Distinct(gone)
    requires forall x :: x in gone ==> x in s.clients
    ensures Follows(DisconnectAll(s, gone)) && DisconnectAll(s, gone).maxClients == 1
  {
    if gone != [] {
      var fd := gone[0];
      assert fd in gone;
      assert fd in s.clients;
      assert s.clients == [gone[0]];
      assert gone[|gone| - 1] in gone;
      assert gone[1..] == [];
      DisconnectKeepsFollows(s, gone[0]);
      hide Follows;
      assert DisconnectAll(s, gone) == DisconnectAll(Disconnect(s, gone[0]), []);
    }
  }

  /** A turn only adds to the callbacks. */
  lemma CallbacksGrow(s: State, t: Turn)
    ensures s.callbacks <= Step(s, t).callbacks
  {
    if t.Ready? && s.keepRunning {
      var s1 := if s.listenFd in t.ready then Connect(s, t.accepted) else s;
      var active := Selected(s1.clients, t.ready);
      ReadGrows(s1, active, t.alive);
      DropsGrow(Read(s1, active, t.alive), Gone(active, t.alive));
    }
  }

  lemma {:induction false} ReadGrows(s: State, active: seq<int>, alive: set<int>)
    ensures s.callbacks <= Read(s, active, alive).callbacks
    decreases active
  {
    if active != [] {
      ReadGrows(if active[0] in alive then s.(callbacks := s.callbacks + [Message(active[0])]) else s, active[1..], alive);
    }
  }

  lemma {:induction false} DropsGrow(s: State, gone: seq<int>)
    ensures s.callbacks <= DisconnectAll(s, gone).callbacks
    decreases gone
  {
    if gone != [] {
      DropsGrow(Disconnect(s, gone[0]), gone[1..]);
    }
  }

  /** With its server, whose callbacks it handles. */
  class ReverseInterface {
    const server: TCPServer
    var clientFd: int
    var notifications: seq<bool>

    ghost function Abs(): Reverse
      reads this
    {
      Reverse(clientFd, notifications)
    }

    /** The server's bookkeeping is consistent, and its callbacks have left the interface following it. */
    ghost predicate Valid()
      reads this, server
    {
      && server.Valid() && server.maxClientsAllowed == 1
      && Abs() == Handled(server.callbacks) && Follows(server.Abs())
    }

    /** Started, and one client allowed. */
    constructor (listenFd: int)
      requires listenFd >= 0
      ensures Valid() && fresh(server) && Abs() == NEW && server.Abs() == Started(listenFd, 1)
    {
      clientFd, notifications := INVALID_SOCKET, [false];
      server := new TCPServer(listenFd, 1);
    }

    method ConnectionCallback(fd: int)
      modifies this`clientFd, this`notifications
      ensures Abs() == Handle(old(Abs()), Connected(fd))
      ensures fd != INVALID_SOCKET && old(Alternating(Abs())) ==> Alternating(Abs()) && clientFd != INVALID_SOCKET
    {
      if clientFd == INVALID_SOCKET {
        clientFd := fd;
        notifications := notifications + [true];
      }
    }

    method DisconnectionCallback(fd: int)
      modifies this`clientFd, this`notifications
      ensures Abs() == Handle(old(Abs()), Disconnected(fd))
      ensures old(Alternating(Abs())) ==> (Alternating(Abs()) <==> old(clientFd) != INVALID_SOCKET)
    {
      clientFd := INVALID_SOCKET;
      notifications := notifications + [false];
    }

    /** The callbacks from the n-th on, in their order. */
    method HandleFrom(callbacks: seq<Callback>, n: nat)
      requires n <= |callbacks| && Abs() == Handled(callbacks[..n])
      modifies this`clientFd, this`notifications
      ensures Abs() == Handled(callbacks)
    {
      for i := n to |callbacks|
        invariant Abs() == Handled(callbacks[..i])
      {
        HandledMore(callbacks[..i], callbacks[i]);
        assert callbacks[..i + 1] == callbacks[..i] + [callbacks[i]];
        match callbacks[i]
        case Connected(fd) => ConnectionCallback(fd);
        case Disconnected(fd) => DisconnectionCallback(fd);
        case Message(_) =>
      }
      assert callbacks[..|callbacks|] == callbacks;
    }

    /** One turn of the server's loop, with the callbacks that it makes, in their order. */
    method Turn(t: TcpServer.Turn)
      requires Valid() && Possible(server.Abs(), t)
      modifies this, server
      ensures Valid() && server.Abs() == Step(old(server.Abs()), t)
      ensures Alternating(Abs()) && server.clientFds == if clientFd == INVALID_SOCKET then [] else [clientFd]
    {
      hide Step, Consistent, Alternating, Possible, Handled, Handle;
      StepKeepsConsistent(server.Abs(), t);
      StepKeepsFollows(server.Abs(), t);
      CallbacksGrow(server.Abs(), t);
      ghost var before := server.callbacks;
      var n := |server.callbacks|;
      server.Spin(t);
      assert server.callbacks[..n] == before;
      HandleFrom(server.callbacks, n);
    }
  }

  lemma {:induction false} AlwaysFollows(s: State, turns: seq<Turn>)
    requires Consistent(s) && s.maxClients == 1 && Follows(s) && AllPossible(s, turns)
    ensures Follows(Run(s, turns))
    decreases turns
  {
    hide Consistent, Step, Possible, Follows;
    if turns != [] {
      StepKeepsConsistent(s, turns[0]);
      StepKeepsFollows(s, turns[0]);
      AlwaysFollows(Step(s, turns[0]), turns[1..]);
    }
  }

  /**
   * Through any turns of the loop: the reverse interface knows the server's only client or none, and it reports
   * alternating program states, beginning with false.
   */
  lemma ReverseInterfaceFollows(listenFd: int, turns: seq<Turn>)
    requires listenFd >= 0 && AllPossible(Started(listenFd, 1), turns)
    ensures Follows(Run(Started(listenFd, 1), turns))
  {
    AlwaysFollows(Started(listenFd, 1), turns);
  }

  /** A connecting robot is the interface's client after the turn exactly if there was none when the turn began. */
  lemma TakenExactly(s: State, t: Turn)
    requires Consistent(s) && Possible(s, t) && s.maxClients == 1 && Follows(s)
    requires t.Ready? && s.keepRunning && t.accepted != INVALID_SOCKET
    ensures Handled(Step(s, t).callbacks).clientFd == t.accepted <==>
            && s.listenFd in t.ready && t.accepted < FD_SETSIZE
            && Handled(s.callbacks).clientFd == INVALID_SOCKET
  {
    ConnectedExactly(s, t);
    StepKeepsFollows(s, t);
    hide Step, Handled, Alternating, Consistent;
  }

  /**
   * So a robot that reconnects in the turn in which its old connection ends is turned away, and no client is left:
   * connections are accepted before the old client is found gone.
   */
  lemma QuickReconnectIsTurnedAway(s: State, old_: int, new_: int)
    requires Consistent(s) && s.keepRunning && s.maxClients == 1 && s.clients == [old_] && new_ >= 0 && new_ !in s.master
    ensures var t := Step(s, Ready({s.listenFd, old_}, new_, {}));
            t.clients == [] && t.callbacks == s.callbacks + [Disconnected(old_)]
  {
    var ready := {s.listenFd, old_};
    assert Connect(s, new_) == s;
    assert [old_][1..] == [];
    var active := Selected(s.clients, ready);
    assert active == [old_] by {
      assert active == [old_] + Selected([], ready);
    }
    var gone := Gone(active, {});
    assert gone == [old_] by {
      assert gone == [old_] + Gone([], {});
    }
    assert Read(s, active, {}) == Read(s, [], {});
    assert DisconnectAll(s, gone) == DisconnectAll(Disconnect(s, old_), []);
    assert Without([old_], old_) == [];
  }
}

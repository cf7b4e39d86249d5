/** tcp_server.cpp: the descriptor set, the client list and the largest descriptor, through every turn of the event loop. */
module TcpServer {

  const FD_SETSIZE := 1024
  const INVALID_SOCKET := -1

  /** The callbacks that the server makes, in their order. */
  datatype Callback = Connected(fd: int) | Message(fd: int) | Disconnected(fd: int)

  datatype State = State(
    listenFd: int,
    clients: seq<int>,
    master: set<int>,
    maxFd: int,
    maxClients: nat,
    keepRunning: bool,
    callbacks: seq<Callback>
  )

  /**
   * What one turn meets: select fails, times out, or reports descriptors; then what accept returns (a new descriptor or
   * INVALID_SOCKET), and the clients from which recv gets data.
   */
  datatype Turn = SelectFails | SelectTimesOut | Ready(ready: set<int>, accepted: int, alive: set<int>)

  function ToSet(s: seq<int>): set<int> {
    set x | x in s
  }

  /** The list without the first occurrence of fd. */
  function Without(s: seq<int>, fd: int): seq<int> {
    if s == [] then [] else if s[0] == fd then s[1..] else [s[0]] + Without(s[1..], fd)
  }

  function Largest(m: int, s: seq<int>): int
    decreases s
  {
    if s == [] then m else Largest(if s[0] > m then s[0] else m, s[1..])
  }

  function Selected(s: seq<int>, chosen: set<int>): seq<int> {
    if s == [] then [] else (if s[0] in chosen then [s[0]] else []) + Selected(s[1..], chosen)
  }

  function Gone(s: seq<int>, alive: set<int>): seq<int> {
    if s == [] then [] else (if s[0] in alive then [] else [s[0]]) + Gone(s[1..], alive)
  }

  function Connect(s: State, fd: int): State {
    if fd == INVALID_SOCKET || fd >= FD_SETSIZE then s
    else if |s.clients| < s.maxClients || s.maxClients == 0 then
      s.(clients := s.clients + [fd], master := s.master + {fd}, maxFd := if fd > s.maxFd then fd else s.maxFd,
         callbacks := s.callbacks + [Connected(fd)])
    else s
  }

  function Disconnect(s: State, fd: int): State {
    s.(clients := Without(s.clients, fd), master := s.master - {fd}, maxFd := Largest(s.listenFd, Without(s.clients, fd)),
       callbacks := s.callbacks + if s.keepRunning then [Disconnected(fd)] else [])
  }

  /** Reading from the active clients, in order: a message each from those that are alive. */
  function Read(s: State, active: seq<int>, alive: set<int>): State
    decreases active
  {
    if active == [] then s
    else
      Read(if active[0] in alive then s.(callbacks := s.callbacks + [Message(active[0])]) else s, active[1..], alive)
  }

  function DisconnectAll(s: State, gone: seq<int>): State
    decreases gone
  {
    if gone == [] then s else DisconnectAll(Disconnect(s, gone[0]), gone[1..])
  }

  function Step(s: State, t: Turn): State {
    if t == SelectFails then s.(keepRunning := false)
    else if !s.keepRunning || t == SelectTimesOut then s
    else
      var s1 := if s.listenFd in t.ready then Connect(s, t.accepted) else s;
      var active := Selected(s1.clients, t.ready);
      DisconnectAll(Read(s1, active, t.alive), Gone(active, t.alive))
  }

  // What every turn keeps

  predicate Distinct(s: seq<int>) {
    forall i, j :: 0 <= i < j < |s| ==> s[i] != s[j]
  }

  /** The descriptor set is the listening descriptor and the clients, the largest is the largest, the limit is kept. */
  ghost predicate Consistent(s: State) {
    && 0 <= s.listenFd && s.listenFd !in s.clients && Distinct(s.clients)
    && (forall c :: c in s.clients ==> 0 <= c < 1024)
    && s.master == {s.listenFd} + ToSet(s.clients)
    && s.maxFd in s.master && (forall x :: x in s.master ==> x <= s.maxFd)
    && (s.maxClients == 0 || |s.clients| <= s.maxClients)
  }

  /** select reports some of the descriptors it was given, and accept returns one that is not open. */
  ghost predicate Possible(s: State, t: Turn) {
    t.Ready? ==> t.ready <= s.master && NotOpen(s, t.accepted)
  }

  /** What accept returns: nothing, or a descriptor that is not open. */
  predicate NotOpen(s: State, fd: int) {
    fd == INVALID_SOCKET || (fd >= 0 && fd !in s.master)
  }

  /** There is a descriptor, select can watch it, and the limit leaves room. */
  predicate Admits(s: State, fd: int) {
    fd != -1 && fd < 1024 && (s.maxClients == 0 || |s.clients| < s.maxClients)
  }

  lemma ConnectKeepsConsistent(s: State, fd: int)
    requires Consistent(s) && NotOpen(s, fd)
    ensures Consistent(Connect(s, fd))
    ensures forall x :: x in Connect(s, fd).clients <==> x in s.clients || (x == fd && Admits(s, fd))
  {
    var t := Connect(s, fd);
    assert t.clients == s.clients + [fd] ==> ToSet(t.clients) == ToSet(s.clients) + {fd};
  }

  lemma Members(first: int, rest: seq<int>)
    ensures forall x :: x in [first] + rest <==> x == first || x in rest
    ensures Distinct([first] + rest) <==> first !in rest && Distinct(rest)
  {
    var all := [first] + rest;
    assert all[0] == first && forall i :: 0 <= i < |rest| ==> all[i + 1] == rest[i];
    if Distinct(all) {
      forall i, j | 0 <= i < j < |rest| ensures rest[i] != rest[j] {
        assert all[i + 1] != all[j + 1];
      }
    }
  }

  lemma {:induction false} WithoutOne(s: seq<int>, fd: int)
    requires Distinct(s)
    ensures ToSet(Without(s, fd)) == ToSet(s) - {fd} && Distinct(Without(s, fd)) && |Without(s, fd)| <= |s|
    ensures forall x :: x in Without(s, fd) <==> x in s && x != fd
  {
    if s != [] {
      Members(s[0], s[1..]);
      assert s == [s[0]] + s[1..];
      if s[0] != fd {
        WithoutOne(s[1..], fd);
        Members(s[0], Without(s[1..], fd));
        hide Distinct;
      }
    }
  }

  lemma {:induction false} LargestIsLargest(m: int, s: seq<int>)
    ensures var l := Largest(m, s); (l == m || l in s) && m <= l && forall x :: x in s ==> x <= l
    decreases s
  {
    if s != [] {
      LargestIsLargest(if s[0] > m then s[0] else m, s[1..]);
      assert forall x :: x in s <==> x == s[0] || x in s[1..];
    }
  }

  lemma DisconnectKeepsConsistent(s: State, fd: int)
    requires Consistent(s) && fd in s.clients
    ensures Consistent(Disconnect(s, fd))
    ensures forall x :: x in Disconnect(s, fd).clients <==> x in s.clients && x != fd
  {
    WithoutOne(s.clients, fd);
    LargestIsLargest(s.listenFd, Without(s.clients, fd));
    hide Without, Largest, Distinct;
  }

  lemma {:induction false} ReadKeepsAllButCallbacks(s: State, active: seq<int>, alive: set<int>)
    ensures Read(s, active, alive).(callbacks := s.callbacks) == s
    decreases active
  {
    if active != [] {
      ReadKeepsAllButCallbacks(if active[0] in alive then s.(callbacks := s.callbacks + [Message(active[0])]) else s,
                               active[1..], alive);
    }
  }

  lemma {:induction false} SelectedOf(s: seq<int>, chosen: set<int>)
    requires Distinct(s)
    ensures Distinct(Selected(s, chosen)) && forall x :: x in Selected(s, chosen) <==> x in s && x in chosen
  {
    if s != [] {
      SelectedOf(s[1..], chosen);
      var rest := Selected(s[1..], chosen);
      Members(s[0], s[1..]);
      Members(s[0], rest);
      assert s == [s[0]] + s[1..] && [] + rest == rest;
      hide Distinct;
    }
  }

  lemma {:induction false} GoneOf(s: seq<int>, alive: set<int>)
    requires Distinct(s)
    ensures Distinct(Gone(s, alive)) && forall x :: x in Gone(s, alive) <==> x in s && x !in alive
  {
    if s != [] {
      GoneOf(s[1..], alive);
      var rest := Gone(s[1..], alive);
      Members(s[0], s[1..]);
      Members(s[0], rest);
      assert s == [s[0]] + s[1..] && [] + rest == rest;
      hide Distinct;
    }
  }

  lemma {:induction false} DisconnectAllKeepsConsistent(s: State, gone: seq<int>)
    requires Consistent(s) && Distinct(gone) && forall x :: x in gone ==> x in s.clients
    ensures Consistent(DisconnectAll(s, gone))
    ensures forall x :: x in DisconnectAll(s, gone).clients <==> x in s.clients && x !in gone
    decreases gone
  {
    if gone != [] {
      DisconnectKeepsConsistent(s, gone[0]);
      assert forall x :: x in gone <==> x == gone[0] || x in gone[1..];
      assert forall i :: 0 <= i < |gone[1..]| ==> gone[1..][i] == gone[i + 1];
      hide Consistent, Disconnect;
      DisconnectAllKeepsConsistent(Disconnect(s, gone[0]), gone[1..]);
    }
  }

  /** The clients after a turn are those before and the accepted one, without those that were read to their end. */
  lemma StepKeepsConsistent(s: State, t: Turn)
    requires Consistent(s) && Possible(s, t)
    ensures Consistent(Step(s, t))
    ensures t.Ready? && s.keepRunning ==>
            var before := (if s.listenFd in t.ready then Connect(s, t.accepted) else s).clients;
            forall x :: x in Step(s, t).clients <==> x in before && (x in t.ready ==> x in t.alive)
  {
    if t.Ready? && s.keepRunning {
      var s1 := if s.listenFd in t.ready then Connect(s, t.accepted) else s;
      ConnectKeepsConsistent(s, t.accepted);
      TurnKeepsConsistent(s1, t.ready, t.alive);
      hide Selected, Gone, Read, DisconnectAll, Connect, Consistent;
    }
  }

  lemma TurnKeepsConsistent(s: State, ready: set<int>, alive: set<int>)
    requires Consistent(s)
    ensures var active := Selected(s.clients, ready);
            var t := DisconnectAll(Read(s, active, alive), Gone(active, alive));
            Consistent(t) && forall x :: x in t.clients <==> x in s.clients && (x in ready ==> x in alive)
  {
    var active := Selected(s.clients, ready);
    SelectedOf(s.clients, ready);
    GoneOf(active, alive);
    ReadKeepsAllButCallbacks(s, active, alive);
    hide Selected, Gone, Read, Distinct;
    DisconnectAllKeepsConsistent(Read(s, active, alive), Gone(active, alive));
  }

  /** The callbacks made between two states. */
  function Made(s: State, t: State): (made: seq<Callback>)
    requires s.callbacks <= t.callbacks
  {
    t.callbacks[|s.callbacks|..]
  }

  lemma {:induction false} ReadReports(s: State, active: seq<int>, alive: set<int>)
    ensures s.callbacks <= Read(s, active, alive).callbacks
    ensures forall c :: c in Made(s, Read(s, active, alive)) <==> c.Message? && c.fd in active && c.fd in alive
    decreases active
  {
    if active != [] {
      var next := if active[0] in alive then s.(callbacks := s.callbacks + [Message(active[0])]) else s;
      ReadReports(next, active[1..], alive);
      assert active == [active[0]] + active[1..];
      assert Made(s, Read(s, active, alive)) == Made(s, next) + Made(next, Read(s, active, alive));
    }
  }

  lemma {:induction false} DropsReport(s: State, gone: seq<int>)
    requires s.keepRunning
    ensures s.callbacks <= DisconnectAll(s, gone).callbacks
    ensures forall c :: c in Made(s, DisconnectAll(s, gone)) <==> c.Disconnected? && c.fd in gone
    decreases gone
  {
    if gone != [] {
      var next := Disconnect(s, gone[0]);
      hide Without, Largest;
      DropsReport(next, gone[1..]);
      assert gone == [gone[0]] + gone[1..];
      assert Made(s, DisconnectAll(s, gone)) == Made(s, next) + Made(next, DisconnectAll(s, gone));
    }
  }

  /** A turn reports the client it takes, a message from each that sent some, and the end of each that sent its end. */
  lemma TurnReports(s: State, t: Turn)
    requires Consistent(s) && Possible(s, t) && t.Ready? && s.keepRunning
    ensures s.callbacks <= Step(s, t).callbacks
    ensures forall c :: c in Made(s, Step(s, t)) <==>
              match c
              case Connected(fd) => fd == t.accepted && s.listenFd in t.ready && Admits(s, fd)
              case Message(fd) => fd in s.clients && fd in t.ready && fd in t.alive
              case Disconnected(fd) => fd in s.clients && fd in t.ready && fd !in t.alive
  {
    var s1 := if s.listenFd in t.ready then Connect(s, t.accepted) else s;
    ConnectReports(s, t.accepted);
    ConnectKeepsConsistent(s, t.accepted);
    hide Connect, Distinct, Selected, Gone, Read, DisconnectAll;
    ClientsReport(s1, t.ready, t.alive);
    assert Made(s, Step(s, t)) == Made(s, s1) + Made(s1, Step(s, t));
    NoneNew(s, t);
    hide Admits, Consistent, Possible;
  }

  lemma NoneNew(s: State, t: Turn)
    requires Consistent(s) && Possible(s, t) && t.Ready?
    ensures t.accepted in t.ready ==> !Admits(s, t.accepted)
  {
  }

  /** What the clients make a turn report. */
  lemma ClientsReport(s: State, ready: set<int>, alive: set<int>)
    requires Distinct(s.clients) && s.keepRunning
    ensures var active := Selected(s.clients, ready);
            var t := DisconnectAll(Read(s, active, alive), Gone(active, alive));
            && s.callbacks <= t.callbacks
            && forall c :: c in Made(s, t) <==>
                 !c.Connected? && c.fd in s.clients && c.fd in ready && (c.Message? <==> c.fd in alive)
  {
    var active := Selected(s.clients, ready);
    SelectedOf(s.clients, ready);
    GoneOf(active, alive);
    hide Selected, Gone, Distinct, Read, DisconnectAll;
    ReadReports(s, active, alive);
    ReadKeepsAllButCallbacks(s, active, alive);
    var read := Read(s, active, alive);
    DropsReport(read, Gone(active, alive));
    var t := DisconnectAll(read, Gone(active, alive));
    assert Made(s, t) == Made(s, read) + Made(read, t);
  }

  lemma ConnectReports(s: State, fd: int)
    ensures s.callbacks <= Connect(s, fd).callbacks && Connect(s, fd).keepRunning == s.keepRunning
    ensures Made(s, Connect(s, fd)) == if Admits(s, fd) then [Connected(fd)] else []
  {
  }

  /** A connecting client is there after the turn exactly if there was room for it when the turn began. */
  lemma ConnectedExactly(s: State, t: Turn)
    requires Consistent(s) && Possible(s, t) && t.Ready? && s.keepRunning
    ensures t.accepted in Step(s, t).clients <==> s.listenFd in t.ready && Admits(s, t.accepted)
  {
    StepKeepsConsistent(s, t);
    ConnectKeepsConsistent(s, t.accepted);
    hide Step, Connect, Distinct;
  }

  lemma WithoutStep(s: seq<int>, i: nat, fd: int)
    requires i < |s|
    ensures s[..i] + Without(s[i..], fd) ==
            if s[i] == fd then s[..i] + s[i + 1..] else s[..i + 1] + Without(s[i + 1..], fd)
  {
    assert s[i..][1..] == s[i + 1..];
    assert s[i..][0] == s[i];
    assert s[..i + 1] == s[..i] + [s[i]];
  }

  lemma NothingWithout(s: seq<int>, fd: int)
    ensures s[..|s|] + Without(s[|s|..], fd) == s
  {
  }

  class TCPServer {
    var listenFd: int
    var clientFds: seq<int>
    var masterFds: set<int>
    var maxFd: int
    var maxClientsAllowed: nat
    var keepRunning: bool
    var callbacks: seq<Callback>

    ghost function Abs(): State
      reads this
    {
      State(listenFd, clientFds, masterFds, maxFd, maxClientsAllowed, keepRunning, callbacks)
    }

    ghost predicate Valid()
      reads this
    {
      Consistent(Abs())
    }

    /** Listening and started. */
    constructor (listenFd: int, maxClientsAllowed: nat)
      ensures listenFd >= 0 ==> Valid()
      ensures Abs() == State(listenFd, [], {listenFd}, listenFd, maxClientsAllowed, true, [])
    {
      this.listenFd, this.maxClientsAllowed := listenFd, maxClientsAllowed;
      clientFds, masterFds, maxFd, keepRunning, callbacks := [], {listenFd}, listenFd, true, [];
    }

    /** `clientFd` is what accept returned. */
    method HandleConnect(clientFd: int)
      modifies this
      ensures Abs() == Connect(old(Abs()), clientFd)
      ensures old(Valid() && NotOpen(Abs(), clientFd)) ==>
                Valid() && (clientFd in clientFds <==> old(Admits(Abs(), clientFd)))
    {
      if Valid() && NotOpen(Abs(), clientFd) {
        ConnectKeepsConsistent(Abs(), clientFd);
      }
      hide Consistent;
      if clientFd == INVALID_SOCKET || clientFd >= FD_SETSIZE {
        return;
      }
      var accepted := false;
      if |clientFds| < maxClientsAllowed || maxClientsAllowed == 0 {
        clientFds := clientFds + [clientFd];
        masterFds := masterFds + {clientFd};
        if clientFd > maxFd {
          maxFd := clientFd;
        }
        accepted := true;
      }
      if accepted {
        callbacks := callbacks + [Connected(clientFd)];
      }
    }

    static method EraseFirst(fds: seq<int>, fd: int) returns (result: seq<int>)
      ensures result == Without(fds, fd)
    {
      hide Without;
      var i := 0;
      assert fds[0..] == fds && fds[..0] + Without(fds, fd) == Without(fds, fd);
      while i < |fds| && fds[i] != fd
        invariant i <= |fds|
        invariant Without(fds, fd) == fds[..i] + Without(fds[i..], fd)
      {
        WithoutStep(fds, i, fd);
        i := i + 1;
      }
      if i < |fds| {
        WithoutStep(fds, i, fd);
        result := fds[..i] + fds[i + 1..];
      } else {
        NothingWithout(fds, fd);
        result := fds;
      }
    }

    static method LargestOf(first: int, fds: seq<int>) returns (m: int)
      ensures m == Largest(first, fds)
    {
      m := first;
      assert fds[0..] == fds;
      for k := 0 to |fds|
        invariant Largest(first, fds) == Largest(m, fds[k..])
      {
        assert fds[k..][1..] == fds[k + 1..];
        if fds[k] > m {
          m := fds[k];
        }
      }
    }

    method HandleDisconnect(fd: int)
      modifies this
      ensures Abs() == Disconnect(old(Abs()), fd)
      ensures old(Valid() && fd in clientFds) ==>
                Valid() && forall x :: x in clientFds <==> x in old(clientFds) && x != fd
    {
      if Valid() && fd in clientFds {
        DisconnectKeepsConsistent(Abs(), fd);
      }
      hide Consistent;
      masterFds := masterFds - {fd};
      clientFds := EraseFirst(clientFds, fd);
      maxFd := LargestOf(listenFd, clientFds);
      if keepRunning {
        callbacks := callbacks + [Disconnected(fd)];
      } else {
        assert callbacks + [] == callbacks;
      }
    }

    /** False at the end of the stream or on an error. */
    method ReadData(fd: int, alive: set<int>) returns (ok: bool)
      modifies this`callbacks
      ensures ok == (fd in alive)
      ensures callbacks == old(callbacks) + if ok then [Message(fd)] else []
    {
      ok := fd in alive;
      if ok {
        callbacks := callbacks + [Message(fd)];
      } else {
        assert callbacks + [] == callbacks;
      }
    }

    /** The clients among `fds` that select reported. */
    static method Filter(fds: seq<int>, chosen: set<int>) returns (result: seq<int>)
      ensures result == Selected(fds, chosen)
    {
      result := [];
      assert fds[0..] == fds && [] + Selected(fds, chosen) == Selected(fds, chosen);
      for i := 0 to |fds|
        invariant Selected(fds, chosen) == result + Selected(fds[i..], chosen)
      {
        ghost var rest := Selected(fds[i + 1..], chosen);
        assert fds[i..][1..] == fds[i + 1..];
        assert result + ([fds[i]] + rest) == result + [fds[i]] + rest && [] + rest == rest;
        if fds[i] in chosen {
          result := result + [fds[i]];
        }
      }
      assert result + [] == result;
    }

    method Spin(t: Turn)
      modifies this
      ensures Abs() == Step(old(Abs()), t)
      ensures old(Valid() && Possible(Abs(), t)) ==> Valid()
    {
      if Valid() && Possible(Abs(), t) {
        StepKeepsConsistent(Abs(), t);
      }
      hide Consistent;
      if t == SelectFails {
        keepRunning := false;
        return;
      }
      if !keepRunning || t == SelectTimesOut {
        return;
      }
      if listenFd in t.ready {
        HandleConnect(t.accepted);
      }
      var active := Filter(clientFds, t.ready);
      var gone := ReadAll(active, t.alive);
      DropAll(gone);
    }

    method ReadAll(active: seq<int>, alive: set<int>) returns (gone: seq<int>)
      modifies this`callbacks
      ensures Abs() == Read(old(Abs()), active, alive) && gone == Gone(active, alive)
    {
      gone := [];
      assert active[0..] == active && [] + Gone(active, alive) == Gone(active, alive);
      for i := 0 to |active|
        invariant Read(old(Abs()), active, alive) == Read(Abs(), active[i..], alive)
        invariant Gone(active, alive) == gone + Gone(active[i..], alive)
      {
        ghost var rest := Gone(active[i + 1..], alive);
        assert active[i..][1..] == active[i + 1..];
        assert gone + ([active[i]] + rest) == gone + [active[i]] + rest && [] + rest == rest;
        ghost var before := callbacks;
        var ok := ReadData(active[i], alive);
        assert before + [] == before;
        if !ok {
          gone := gone + [active[i]];
        }
      }
      assert gone + [] == gone;
    }

    method DropAll(gone: seq<int>)
      modifies this
      ensures Abs() == DisconnectAll(old(Abs()), gone)
    {
      hide Disconnect;
      assert gone[0..] == gone;
      for i := 0 to |gone|
        invariant DisconnectAll(old(Abs()), gone) == DisconnectAll(Abs(), gone[i..])
      {
        assert gone[i..][1..] == gone[i + 1..];
        HandleDisconnect(gone[i]);
      }
    }
  }

  function Run(s: State, turns: seq<Turn>): State
    decreases turns
  {
    if turns == [] then s else Run(Step(s, turns[0]), turns[1..])
  }

  ghost predicate AllPossible(s: State, turns: seq<Turn>)
    decreases turns
  {
    turns == [] || (Possible(s, turns[0]) && AllPossible(Step(s, turns[0]), turns[1..]))
  }

  function Started(listenFd: int, maxClients: nat): State {
    State(listenFd, [], {listenFd}, listenFd, maxClients, true, [])
  }

  lemma {:induction false} AlwaysConsistent(s: State, turns: seq<Turn>)
    requires Consistent(s) && AllPossible(s, turns)
    ensures Consistent(Run(s, turns))
    decreases turns
  {
    hide Consistent, Step, Possible;
    if turns != [] {
      StepKeepsConsistent(s, turns[0]);
      AlwaysConsistent(Step(s, turns[0]), turns[1..]);
    }
  }

  /** From the start on, through any turns of the loop. */
  lemma ServerConsistent(listenFd: int, maxClients: nat, turns: seq<Turn>)
    requires listenFd >= 0 && AllPossible(Started(listenFd, maxClients), turns)
    ensures Consistent(Run(Started(listenFd, maxClients), turns))
  {
    AlwaysConsistent(Started(listenFd, maxClients), turns);
  }
}

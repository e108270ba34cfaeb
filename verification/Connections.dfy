/**
 The life of client connections in the server (src/core/server.cpp, include/core/connection.h).

 Handlers receive the kernel's answers as arguments; `Outside` is what the kernel and the peers see.
 A connection is identified by the number of its `accept4`, because descriptors are reused.
 */
module Connections {
  import opened Wrappers
  import opened Clock
  import opened Text

  const MAX_CONNECTIONS: nat := 10000
  const MAX_REQUEST_SIZE: nat := 65536
  const TIMEOUT_SECONDS: int := 30

  datatype Connection = Connection(
    id: nat, readBuffer: string, writeBuffer: string, bytesSent: nat,
    keepAlive: bool, isWriting: bool, lastActivity: real)

  /**
   `open`: the open client descriptors; `closed`: the connections closed so far, in order; `faults`:
   calls of `close` on a descriptor that was not open; `wire`: the bytes the kernel has taken from the
   server for each connection; `queued`: all response bytes handed to each connection so far.
   */
  datatype Outside = Outside(
    open: map<int, nat>, accepted: nat, closed: seq<nat>, faults: nat,
    wire: map<nat, string>, queued: map<nat, string>)

  datatype Server = Server(conns: map<int, Connection>, running: bool, outside: Outside)

  const STARTED: Server := Server(map[], true, Outside(map[], 0, [], 0, map[], map[]))

  // ---------------------------------------------------------------------------------------------
  // Primitive steps
  // ---------------------------------------------------------------------------------------------

  /** `accept4` returns the unused descriptor `fd`. */
  function Accept(o: Outside, fd: int): Outside {
    o.(open := o.open[fd := o.accepted], accepted := o.accepted + 1,
       wire := o.wire[o.accepted := ""], queued := o.queued[o.accepted := ""])
  }

  function Close(o: Outside, fd: int): Outside {
    if fd in o.open then o.(open := o.open - {fd}, closed := o.closed + [o.open[fd]])
    else o.(faults := o.faults + 1)
  }

  /** One iteration of the accept loop: the connection limit, the registration with epoll, the new entry. */
  function AdmitClient(s: Server, fd: int, registered: bool, now: real): Server {
    var o := Accept(s.outside, fd);
    if |s.conns| >= MAX_CONNECTIONS || !registered then s.(outside := Close(o, fd))
    else s.(conns := s.conns[fd := Connection(s.outside.accepted, "", "", 0, false, false, now)], outside := o)
  }

  function CloseConnection(s: Server, fd: int): Server {
    if fd !in s.conns then s else s.(conns := s.conns - {fd}, outside := Close(s.outside, fd))
  }

  function CloseAll(s: Server, fds: seq<int>): Server
    decreases |fds|
  {
    if fds == [] then s else CloseAll(CloseConnection(s, fds[0]), fds[1..])
  }

  /** The history of one connection. */
  function Record(o: Outside, id: nat, wire: string, queued: string): Outside {
    o.(wire := o.wire[id := wire], queued := o.queued[id := queued])
  }

  /** The kernel takes `n` more bytes of the response. */
  function Send(s: Server, fd: int, n: nat): Server
    requires fd in s.conns
  {
    var c := s.conns[fd];
    var chunk := if c.bytesSent + n <= |c.writeBuffer| then c.writeBuffer[c.bytesSent..c.bytesSent + n] else "";
    s.(conns := s.conns[fd := c.(bytesSent := c.bytesSent + n)],
       outside := Record(s.outside, c.id, Get(s.outside.wire, c.id) + chunk, Get(s.outside.queued, c.id)))
  }

  function Get(m: map<nat, string>, id: nat): string {
    if id in m then m[id] else ""
  }

  // ---------------------------------------------------------------------------------------------
  // Handlers
  // ---------------------------------------------------------------------------------------------

  /** An answer of `accept4`; the list ends where the call fails or would block. */
  datatype Client = Client(fd: int, registered: bool, now: real)

  function HandleAccept(s: Server, clients: seq<Client>): Server
    decreases |clients|
  {
    if clients == [] then s
    else HandleAccept(AdmitClient(s, clients[0].fd, clients[0].registered, clients[0].now), clients[1..])
  }

  /** An answer of `recv`; the list ends where the call would block. */
  datatype Received = Data(bytes: string, now: real) | Ended

  function HandleRead(s: Server, fd: int, answers: seq<Received>): Server
    decreases |answers|
  {
    if fd !in s.conns || answers == [] then s
    else
      match answers[0]
      case Ended => CloseConnection(s, fd)
      case Data(bytes, now) =>
        var c := s.conns[fd];
        if |c.readBuffer| + |bytes| > MAX_REQUEST_SIZE then CloseConnection(s, fd)
        else HandleRead(
          s.(conns := s.conns[fd := c.(readBuffer := c.readBuffer + bytes, lastActivity := now)]), fd, answers[1..])
  }

  /** `process_request` at its end: the response is queued and the request forgotten. */
  function Respond(s: Server, fd: int, response: string, keepAlive: bool): Server
    requires fd in s.conns
  {
    var c := s.conns[fd];
    var d := c.(writeBuffer := response, bytesSent := 0, isWriting := true, readBuffer := "", keepAlive := keepAlive);
    s.(conns := s.conns[fd := d],
       outside := Record(s.outside, c.id, Get(s.outside.wire, c.id), Get(s.outside.queued, c.id) + response))
  }

  /** The worker that holds connection `id` on `fd` still finds it in the table. */
  predicate Owns(s: Server, fd: int, id: nat) {
    fd in s.conns && s.conns[fd].id == id
  }

  /** An answer of `send`: some bytes taken, or a broken connection; the list ends where the call would block. */
  datatype Sent = Taken(n: nat) | Broken

  /** Everything was sent. */
  function Complete(s: Server, fd: int): Server
    requires fd in s.conns
  {
    var c := s.conns[fd].(writeBuffer := "", bytesSent := 0, isWriting := false);
    var s1 := s.(conns := s.conns[fd := c]);
    if c.keepAlive then s1 else CloseConnection(s1, fd)
  }

  function SendLoop(s: Server, fd: int, answers: seq<Sent>): Server
    requires fd in s.conns
    decreases |answers|
  {
    var c := s.conns[fd];
    if c.bytesSent >= |c.writeBuffer| then Complete(s, fd)
    else if answers == [] then s
    else
      match answers[0]
      case Broken => CloseConnection(s, fd)
      case Taken(n) => SendLoop(Send(s, fd, n), fd, answers[1..])
  }

  function HandleWrite(s: Server, fd: int, answers: seq<Sent>): Server {
    if fd !in s.conns then s
    else if s.conns[fd].writeBuffer == "" then CloseConnection(s, fd)
    else SendLoop(s, fd, answers)
  }

  predicate Stale(c: Connection, now: real) {
    WholeSeconds(now - c.lastActivity) > TIMEOUT_SECONDS && !c.isWriting
  }

  function StaleFds(s: Server, now: real): set<int> {
    set fd | fd in s.conns && Stale(s.conns[fd], now)
  }

  /** `stop`: the descriptors are closed in some order, then the table is cleared. */
  function CloseDescriptors(o: Outside, fds: seq<int>): Outside
    decreases |fds|
  {
    if fds == [] then o else CloseDescriptors(Close(o, fds[0]), fds[1..])
  }

  function Stop(s: Server, order: seq<int>): Server {
    if !s.running then s else Server(map[], false, CloseDescriptors(s.outside, order))
  }

  // ---------------------------------------------------------------------------------------------
  // Events
  // ---------------------------------------------------------------------------------------------

  datatype Event =
    | Accepting(clients: seq<Client>)
    | Reading(fd: int, received: seq<Received>)
    | Responding(fd: int, id: nat, response: string, keepAlive: bool)
    | Writing(fd: int, sent: seq<Sent>)
    | HangUp(fd: int)
    | TimingOut(now: real, order: seq<int>)
    | Stopping(order: seq<int>)

  /** The kernel never hands out a descriptor that is open. */
  ghost predicate Unused(s: Server, clients: seq<Client>)
    decreases |clients|
  {
    clients == [] ||
    (clients[0].fd !in s.outside.open
     && Unused(AdmitClient(s, clients[0].fd, clients[0].registered, clients[0].now), clients[1..]))
  }

  /** `send` takes at least one byte and at most what it was given. */
  ghost predicate Accepted(left: int, sent: seq<Sent>)
    decreases |sent|
  {
    sent == [] || left <= 0 || sent[0].Broken?
    || (0 < sent[0].n <= left && Accepted(left - sent[0].n, sent[1..]))
  }

  ghost predicate Enumerates(order: seq<int>, fds: set<int>) {
    (forall fd :: fd in order <==> fd in fds) && forall i, j :: 0 <= i < j < |order| ==> order[i] != order[j]
  }

  /** What the kernel, the event loop and the workers can do next; one request is answered before the next is read. */
  ghost predicate Possible(s: Server, e: Event) {
    match e
    case Accepting(clients) => s.running && Unused(s, clients)
    case Reading(_, _) => s.running
    case Responding(fd, id, _, _) => s.running && (Owns(s, fd, id) ==> s.conns[fd].writeBuffer == "")
    case Writing(fd, sent) =>
      s.running && (fd in s.conns ==> Accepted(|s.conns[fd].writeBuffer| - s.conns[fd].bytesSent, sent))
    case HangUp(_) => s.running
    case TimingOut(now, order) => s.running && Enumerates(order, StaleFds(s, now))
    case Stopping(order) => Enumerates(order, s.conns.Keys)
  }

  function Apply(s: Server, e: Event): Server {
    match e
    case Accepting(clients) => HandleAccept(s, clients)
    case Reading(fd, received) => HandleRead(s, fd, received)
    case Responding(fd, id, response, keepAlive) => if Owns(s, fd, id) then Respond(s, fd, response, keepAlive) else s
    case Writing(fd, sent) => HandleWrite(s, fd, sent)
    case HangUp(fd) => CloseConnection(s, fd)
    case TimingOut(now, order) => CloseAll(s, order)
    case Stopping(order) => Stop(s, order)
  }

  // ---------------------------------------------------------------------------------------------
  // The invariant
  // ---------------------------------------------------------------------------------------------

  /** Every accepted connection is open under one descriptor or closed once, and no descriptor was closed twice. */
  ghost predicate Accounted(o: Outside) {
    && o.faults == 0
    && (forall fd :: fd in o.open ==> o.open[fd] < o.accepted && o.open[fd] !in o.closed)
    && (forall f, g :: f in o.open && g in o.open && o.open[f] == o.open[g] ==> f == g)
    && (forall i, j :: 0 <= i < j < |o.closed| ==> o.closed[i] != o.closed[j])
    && (forall id :: id in o.closed ==> id < o.accepted)
    && (forall id: nat :: id < o.accepted && id !in o.closed ==> exists fd :: fd in o.open && o.open[fd] == id)
  }

  /** The table holds exactly the open descriptors, within the limits. */
  ghost predicate Tabled(s: Server) {
    && s.conns.Keys == s.outside.open.Keys
    && |s.conns| <= MAX_CONNECTIONS
    && (forall fd :: fd in s.conns ==> s.conns[fd].id == s.outside.open[fd])
    && (forall fd :: fd in s.conns ==> |s.conns[fd].readBuffer| <= MAX_REQUEST_SIZE)
    && (!s.running ==> s.conns == map[])
  }

  /** The buffered response ends what was queued; its first `bytesSent` bytes and all before it were taken, no more. */
  ghost predicate InTransit(c: Connection, wire: string, queued: string) {
    && c.bytesSent <= |c.writeBuffer| <= |queued|
    && queued[|queued| - |c.writeBuffer|..] == c.writeBuffer
    && wire == queued[..|queued| - |c.writeBuffer| + c.bytesSent]
  }

  ghost predicate Delivering(c: Connection, o: Outside) {
    InTransit(c, Get(o.wire, c.id), Get(o.queued, c.id))
  }

  /** No connection was sent anything that was not queued, and connections to come have no history. */
  ghost predicate Prefixes(o: Outside) {
    && (forall id: nat :: Get(o.wire, id) <= Get(o.queued, id))
    && (forall id: nat :: id >= o.accepted ==> Get(o.wire, id) == "" && Get(o.queued, id) == "")
  }

  ghost predicate Delivered(s: Server) {
    (forall fd :: fd in s.conns ==> Delivering(s.conns[fd], s.outside)) && Prefixes(s.outside)
  }

  ghost predicate Inv(s: Server) {
    Accounted(s.outside) && Tabled(s) && Delivered(s)
  }

  lemma AcceptIsAccounted(o: Outside, fd: int)
    requires Accounted(o) && fd !in o.open
    ensures Accounted(Accept(o, fd))
  {
    var p := Accept(o, fd);
    forall id: nat | id < p.accepted && id !in p.closed ensures exists f :: f in p.open && p.open[f] == id {
      if id < o.accepted {
        var f :| f in o.open && o.open[f] == id;
        assert f in p.open && p.open[f] == id;
      } else {
        assert fd in p.open && p.open[fd] == id;
      }
    }
  }

  lemma CloseIsAccounted(o: Outside, fd: int)
    requires Accounted(o) && fd in o.open
    ensures Accounted(Close(o, fd))
  {
    var p := Close(o, fd);
    forall id: nat | id < p.accepted && id !in p.closed ensures exists f :: f in p.open && p.open[f] == id {
      assert p.closed[|o.closed|] == o.open[fd];
      assert id !in o.closed;
      var f :| f in o.open && o.open[f] == id;
      assert f in p.open;
    }
  }

  lemma AcceptKeepsHistory(o: Outside, fd: int)
    requires Prefixes(o)
    ensures
      var p := Accept(o, fd);
      && Prefixes(p) && (forall id: nat :: Get(p.wire, id) == Get(o.wire, id) && Get(p.queued, id) == Get(o.queued, id))
      && Get(o.wire, o.accepted) == "" && Get(o.queued, o.accepted) == ""
  {
    var p := Accept(o, fd);
    assert Get(o.wire, o.accepted) == "" && Get(o.queued, o.accepted) == "";
    forall id: nat ensures Get(p.wire, id) == Get(o.wire, id) && Get(p.queued, id) == Get(o.queued, id) {
    }
    hide Get;
  }

  lemma NothingQueued(c: Connection)
    requires c.writeBuffer == "" && c.bytesSent == 0
    ensures InTransit(c, "", "")
  {
  }

  lemma TransitIsPrefix(c: Connection, wire: string, queued: string)
    requires InTransit(c, wire, queued)
    ensures wire <= queued
  {
  }

  /** The old connections keep their histories, and the new one starts with an empty one. */
  lemma AcceptKeepsDelivering(s: Server, fd: int, c: Connection)
    requires Delivered(s) && c.id == s.outside.accepted && c.writeBuffer == "" && c.bytesSent == 0
    ensures Prefixes(Accept(s.outside, fd)) && Delivering(c, Accept(s.outside, fd))
    ensures forall g :: g in s.conns ==> Delivering(s.conns[g], Accept(s.outside, fd))
  {
    AcceptKeepsHistory(s.outside, fd);
    NothingQueued(c);
    hide InTransit, Get, Prefixes, Accept, Delivering;
    StartsDelivering(c, Accept(s.outside, fd));
    forall g | g in s.conns ensures Delivering(s.conns[g], Accept(s.outside, fd)) {
      SameHistory(s.conns[g], s.outside, Accept(s.outside, fd));
    }
  }

  lemma AcceptIsDelivered(s: Server, fd: int, c: Connection)
    requires Delivered(s) && c.id == s.outside.accepted && c.writeBuffer == "" && c.bytesSent == 0
    ensures Delivered(s.(outside := Accept(s.outside, fd)))
    ensures Delivered(s.(conns := s.conns[fd := c], outside := Accept(s.outside, fd)))
  {
    AcceptKeepsDelivering(s, fd, c);
    hide Delivering, Prefixes, Accept;
  }

  lemma SameHistory(c: Connection, o: Outside, p: Outside)
    requires Delivering(c, o) && Get(p.wire, c.id) == Get(o.wire, c.id) && Get(p.queued, c.id) == Get(o.queued, c.id)
    ensures Delivering(c, p)
  {
  }

  lemma StartsDelivering(c: Connection, o: Outside)
    requires InTransit(c, "", "") && Get(o.wire, c.id) == "" && Get(o.queued, c.id) == ""
    ensures Delivering(c, o)
  {
  }

  lemma CloseIsDelivered(s: Server, fd: int)
    requires Delivered(s)
    ensures Delivered(s.(outside := Close(s.outside, fd)))
    ensures Delivered(s.(conns := s.conns - {fd}, outside := Close(s.outside, fd)))
  {
  }

  lemma TabledInsert(s: Server, fd: int, c: Connection)
    requires Tabled(s) && s.running && |s.conns| < MAX_CONNECTIONS && fd !in s.outside.open
    requires c.id == s.outside.accepted && c.readBuffer == ""
    ensures Tabled(s.(conns := s.conns[fd := c], outside := Accept(s.outside, fd)))
  {
    assert fd !in s.conns.Keys;
    assert s.conns[fd := c].Keys == s.conns.Keys + {fd};
  }

  /** The accepted descriptor is closed again at once. */
  lemma TurnAwayKeepsInv(s: Server, fd: int)
    requires Inv(s) && fd !in s.outside.open
    ensures Inv(s.(outside := Close(Accept(s.outside, fd), fd)))
  {
    hide Accounted, Delivered, Accept, Close;
    var o := Accept(s.outside, fd);
    var t := s.(outside := o);
    AcceptIsAccounted(s.outside, fd);
    AcceptIsDelivered(s, fd, Connection(s.outside.accepted, "", "", 0, false, false, 0.0));
    AcceptThenClose(s.outside, fd);
    CloseIsAccounted(o, fd);
    CloseIsDelivered(t, fd);
    assert t.(outside := Close(o, fd)) == s.(outside := Close(o, fd));
  }

  lemma AcceptThenClose(o: Outside, fd: int)
    requires fd !in o.open
    ensures fd in Accept(o, fd).open && Close(Accept(o, fd), fd).open == o.open
  {
    assert o.open[fd := o.accepted] - {fd} == o.open;
  }

  lemma AdmitKeepsInv(s: Server, fd: int, registered: bool, now: real)
    requires Inv(s) && s.running && fd !in s.outside.open
    ensures Inv(AdmitClient(s, fd, registered, now)) && AdmitClient(s, fd, registered, now).running
  {
    if |s.conns| >= MAX_CONNECTIONS || !registered {
      TurnAwayKeepsInv(s, fd);
      hide Inv;
    } else {
      var c := Connection(s.outside.accepted, "", "", 0, false, false, now);
      AcceptIsAccounted(s.outside, fd);
      AcceptIsDelivered(s, fd, c);
      TabledInsert(s, fd, c);
      hide Accounted, Delivered, Tabled, Accept;
    }
  }

  lemma CloseKeepsInv(s: Server, fd: int)
    requires Inv(s)
    ensures Inv(CloseConnection(s, fd)) && CloseConnection(s, fd).running == s.running
  {
    if fd in s.conns {
      assert fd in s.outside.open;
      CloseIsAccounted(s.outside, fd);
      CloseIsDelivered(s, fd);
      TabledRemove(s, fd);
      hide Accounted, Delivered, Tabled;
    }
  }

  lemma TabledRemove(s: Server, fd: int)
    requires Tabled(s) && fd in s.conns
    ensures Tabled(CloseConnection(s, fd))
  {
    assert (s.conns - {fd}).Keys == s.conns.Keys - {fd};
  }

  lemma TabledUpdate(s: Server, fd: int, c: Connection, o: Outside)
    requires Tabled(s) && fd in s.conns && c.id == s.conns[fd].id && |c.readBuffer| <= MAX_REQUEST_SIZE
    requires o.open == s.outside.open
    ensures Tabled(s.(conns := s.conns[fd := c], outside := o))
  {
    assert s.conns[fd := c].Keys == s.conns.Keys;
    assert |s.conns[fd := c].Keys| == |s.conns[fd := c]| && |s.conns.Keys| == |s.conns|;
  }

  lemma RecordKeepsHistory(o: Outside, id: nat, wire: string, queued: string)
    requires Prefixes(o) && id < o.accepted && wire <= queued
    ensures
      var p := Record(o, id, wire, queued);
      && Prefixes(p) && Get(p.wire, id) == wire && Get(p.queued, id) == queued
      && (forall k: nat :: k != id ==> Get(p.wire, k) == Get(o.wire, k) && Get(p.queued, k) == Get(o.queued, k))
  {
    var p := Record(o, id, wire, queued);
    assert Get(p.wire, id) == wire && Get(p.queued, id) == queued;
    forall k: nat | k != id ensures Get(p.wire, k) == Get(o.wire, k) && Get(p.queued, k) == Get(o.queued, k) {
    }
    hide Get;
  }

  lemma DeliveredUpdate(s: Server, fd: int, c: Connection, wire: string, queued: string)
    requires Delivered(s) && fd in s.conns && c.id < s.outside.accepted
    requires forall g :: g in s.conns && g != fd ==> s.conns[g].id != c.id
    requires InTransit(c, wire, queued)
    ensures Delivered(s.(conns := s.conns[fd := c], outside := Record(s.outside, c.id, wire, queued)))
  {
    hide InTransit, Get, Prefixes, Record;
    var o := Record(s.outside, c.id, wire, queued);
    TransitIsPrefix(c, wire, queued);
    RecordKeepsHistory(s.outside, c.id, wire, queued);
    assert Delivering(c, o);
    hide Delivering;
    forall g | g in s.conns && g != fd ensures Delivering(s.conns[g], o) {
      SameHistory(s.conns[g], s.outside, o);
    }
  }

  lemma IdsDiffer(s: Server, fd: int)
    requires Accounted(s.outside) && Tabled(s) && fd in s.conns
    ensures s.conns[fd].id < s.outside.accepted
    ensures forall g :: g in s.conns && g != fd ==> s.conns[g].id != s.conns[fd].id
  {
    assert forall g :: g in s.conns ==> g in s.outside.open;
  }

  /** Changing one connection, and the history of that connection only. */
  lemma UpdateKeepsInv(s: Server, fd: int, c: Connection, wire: string, queued: string)
    requires Inv(s) && fd in s.conns && c.id == s.conns[fd].id && |c.readBuffer| <= MAX_REQUEST_SIZE
    requires InTransit(c, wire, queued)
    ensures Inv(s.(conns := s.conns[fd := c], outside := Record(s.outside, c.id, wire, queued)))
  {
    var o := Record(s.outside, c.id, wire, queued);
    assert Accounted(o);
    IdsDiffer(s, fd);
    hide Accounted, Delivered, Tabled;
    TabledUpdate(s, fd, c, o);
    DeliveredUpdate(s, fd, c, wire, queued);
  }

  // ---------------------------------------------------------------------------------------------
  // Handlers keep the invariant
  // ---------------------------------------------------------------------------------------------

  lemma {:induction false} AcceptLoopKeepsInv(s: Server, clients: seq<Client>)
    requires Inv(s) && s.running && Unused(s, clients)
    ensures Inv(HandleAccept(s, clients))
    decreases |clients|
  {
    hide Inv, AdmitClient;
    if clients != [] {
      UnusedFirst(s, clients);
      AdmitKeepsInv(s, clients[0].fd, clients[0].registered, clients[0].now);
      AcceptLoopKeepsInv(AdmitClient(s, clients[0].fd, clients[0].registered, clients[0].now), clients[1..]);
    }
  }

  lemma UnusedFirst(s: Server, clients: seq<Client>)
    requires clients != [] && Unused(s, clients)
    ensures clients[0].fd !in s.outside.open
  {
  }

  /** Changing one connection without sending or queueing anything. */
  lemma QuietUpdateKeepsInv(s: Server, fd: int, c: Connection)
    requires Inv(s) && fd in s.conns && c.id == s.conns[fd].id && |c.readBuffer| <= MAX_REQUEST_SIZE
    requires Delivering(c, s.outside)
    ensures Inv(s.(conns := s.conns[fd := c]))
  {
    var t := s.(conns := s.conns[fd := c]);
    assert Delivered(t);
    hide Accounted, Delivered, Tabled;
    TabledUpdate(s, fd, c, s.outside);
  }

  lemma ConnectionIsSound(s: Server, fd: int)
    requires Inv(s) && fd in s.conns
    ensures Delivering(s.conns[fd], s.outside) && |s.conns[fd].readBuffer| <= MAX_REQUEST_SIZE
  {
  }

  lemma SameTransit(c: Connection, d: Connection, o: Outside)
    requires Delivering(c, o) && d.id == c.id && d.writeBuffer == c.writeBuffer && d.bytesSent == c.bytesSent
    ensures Delivering(d, o)
  {
  }

  lemma {:induction false} ReadKeepsInv(s: Server, fd: int, received: seq<Received>)
    requires Inv(s)
    ensures Inv(HandleRead(s, fd, received)) && HandleRead(s, fd, received).running == s.running
    decreases |received|
  {
    hide Inv, Delivering, CloseConnection;
    if fd in s.conns && received != [] {
      CloseKeepsInv(s, fd);
      ConnectionIsSound(s, fd);
      var c := s.conns[fd];
      if received[0].Data? && |c.readBuffer| + |received[0].bytes| <= MAX_REQUEST_SIZE {
        var c1 := c.(readBuffer := c.readBuffer + received[0].bytes, lastActivity := received[0].now);
        SameTransit(c, c1, s.outside);
        QuietUpdateKeepsInv(s, fd, c1);
        ReadKeepsInv(s.(conns := s.conns[fd := c1]), fd, received[1..]);
      }
    }
  }

  lemma ResponseInTransit(c: Connection, d: Connection, wire: string, queued: string)
    requires InTransit(c, wire, queued) && c.writeBuffer == "" && d.bytesSent == 0
    ensures InTransit(d, wire, queued + d.writeBuffer)
  {
    var all := queued + d.writeBuffer;
    assert all[|queued|..] == d.writeBuffer && all[..|queued|] == queued == wire;
  }

  lemma RespondKeepsInv(s: Server, fd: int, response: string, keepAlive: bool)
    requires Inv(s) && fd in s.conns && s.conns[fd].writeBuffer == ""
    ensures Inv(Respond(s, fd, response, keepAlive)) && Respond(s, fd, response, keepAlive).running == s.running
  {
    hide Inv, InTransit, Get, Record;
    ConnectionIsSound(s, fd);
    var c := s.conns[fd];
    var d := c.(writeBuffer := response, bytesSent := 0, isWriting := true, readBuffer := "", keepAlive := keepAlive);
    var wire, queued := Get(s.outside.wire, c.id), Get(s.outside.queued, c.id);
    ResponseInTransit(c, d, wire, queued);
    UpdateKeepsInv(s, fd, d, wire, queued + response);
  }

  lemma MoreInTransit(c: Connection, n: nat, wire: string, queued: string)
    requires InTransit(c, wire, queued) && c.bytesSent + n <= |c.writeBuffer|
    ensures InTransit(c.(bytesSent := c.bytesSent + n), wire + c.writeBuffer[c.bytesSent..c.bytesSent + n], queued)
  {
    var start, sent := |queued| - |c.writeBuffer|, c.bytesSent;
    assert c.writeBuffer[sent..sent + n] == queued[start..][sent..sent + n] == queued[start + sent..start + sent + n];
    assert wire + c.writeBuffer[sent..sent + n] == queued[..start + sent + n];
  }

  lemma SendKeepsInv(s: Server, fd: int, n: nat)
    requires Inv(s) && fd in s.conns && s.conns[fd].bytesSent + n <= |s.conns[fd].writeBuffer|
    ensures Inv(Send(s, fd, n)) && Send(s, fd, n).running == s.running
  {
    hide Inv, InTransit, Get, Record;
    ConnectionIsSound(s, fd);
    var c := s.conns[fd];
    var wire, queued := Get(s.outside.wire, c.id), Get(s.outside.queued, c.id);
    MoreInTransit(c, n, wire, queued);
    UpdateKeepsInv(s, fd, c.(bytesSent := c.bytesSent + n), wire + c.writeBuffer[c.bytesSent..c.bytesSent + n], queued);
  }

  lemma DoneInTransit(c: Connection, d: Connection, wire: string, queued: string)
    requires InTransit(c, wire, queued) && c.bytesSent >= |c.writeBuffer| && d.writeBuffer == "" && d.bytesSent == 0
    ensures InTransit(d, wire, queued)
  {
    assert queued[|queued|..] == "" && queued[..|queued|] == queued;
  }

  lemma CompleteKeepsInv(s: Server, fd: int)
    requires Inv(s) && fd in s.conns && s.conns[fd].bytesSent >= |s.conns[fd].writeBuffer|
    ensures Inv(Complete(s, fd)) && Complete(s, fd).running == s.running
  {
    hide Inv, InTransit, Get;
    ConnectionIsSound(s, fd);
    var c := s.conns[fd];
    var d := c.(writeBuffer := "", bytesSent := 0, isWriting := false);
    DoneInTransit(c, d, Get(s.outside.wire, c.id), Get(s.outside.queued, c.id));
    QuietUpdateKeepsInv(s, fd, d);
    CloseKeepsInv(s.(conns := s.conns[fd := d]), fd);
  }

  lemma {:induction false} SendLoopKeepsInv(s: Server, fd: int, sent: seq<Sent>)
    requires Inv(s) && fd in s.conns && Accepted(|s.conns[fd].writeBuffer| - s.conns[fd].bytesSent, sent)
    ensures Inv(SendLoop(s, fd, sent)) && SendLoop(s, fd, sent).running == s.running
    decreases |sent|
  {
    hide Inv, Complete;
    var c := s.conns[fd];
    if c.bytesSent >= |c.writeBuffer| {
      CompleteKeepsInv(s, fd);
    } else if sent != [] {
      CloseKeepsInv(s, fd);
      if sent[0].Taken? {
        SendKeepsInv(s, fd, sent[0].n);
        SendLoopKeepsInv(Send(s, fd, sent[0].n), fd, sent[1..]);
      }
    }
  }

  lemma {:induction false} CloseAllKeepsInv(s: Server, fds: seq<int>)
    requires Inv(s)
    ensures Inv(CloseAll(s, fds)) && CloseAll(s, fds).running == s.running
    decreases |fds|
  {
    hide Inv, CloseConnection;
    if fds != [] {
      CloseKeepsInv(s, fds[0]);
      CloseAllKeepsInv(CloseConnection(s, fds[0]), fds[1..]);
    }
  }

  /** `stop` closes each listed descriptor once. */
  lemma {:induction false} ClosingDescriptors(o: Outside, fds: seq<int>)
    requires Accounted(o) && (forall fd :: fd in fds ==> fd in o.open)
    requires forall i, j :: 0 <= i < j < |fds| ==> fds[i] != fds[j]
    ensures
      var p := CloseDescriptors(o, fds);
      && Accounted(p) && p.accepted == o.accepted && p.wire == o.wire && p.queued == o.queued
      && (forall fd :: fd in p.open <==> fd in o.open && fd !in fds)
      && (forall fd :: fd in p.open ==> p.open[fd] == o.open[fd])
    decreases |fds|
  {
    if fds != [] {
      assert fds[0] in fds && fds == [fds[0]] + fds[1..];
      CloseIsAccounted(o, fds[0]);
      hide Accounted;
      ClosingDescriptors(Close(o, fds[0]), fds[1..]);
    }
  }

  lemma StopKeepsInv(s: Server, order: seq<int>)
    requires Inv(s) && Enumerates(order, s.conns.Keys)
    ensures Inv(Stop(s, order)) && Stop(s, order).outside.open == map[]
  {
    if s.running {
      EverythingClosed(s, order);
      var p := CloseDescriptors(s.outside, order);
      assert Stop(s, order) == Server(map[], false, p);
      hide *;
      StoppedInv(s, p);
    } else {
      NothingOpen(s);
      hide Inv;
    }
  }

  lemma NothingOpen(s: Server)
    requires Tabled(s) && !s.running
    ensures s.outside.open == map[]
  {
    assert s.outside.open.Keys == {};
    NoKeys(s.outside.open);
  }

  lemma EverythingClosed(s: Server, order: seq<int>)
    requires Inv(s) && Enumerates(order, s.conns.Keys)
    ensures
      var p := CloseDescriptors(s.outside, order);
      && Accounted(p) && p.open == map[] && p.accepted == s.outside.accepted
      && p.wire == s.outside.wire && p.queued == s.outside.queued
  {
    EnumeratesOpen(s, order);
    hide Accounted, CloseDescriptors, Enumerates, Delivered, Tabled;
    ClosingDescriptors(s.outside, order);
    var p := CloseDescriptors(s.outside, order);
    forall fd ensures fd !in p.open.Keys {
      assert fd in order <==> fd in s.outside.open;
      assert fd in p.open <==> fd in s.outside.open && fd !in order;
    }
    NoKeys(p.open);
  }

  lemma EnumeratesOpen(s: Server, order: seq<int>)
    requires Tabled(s) && Enumerates(order, s.conns.Keys)
    ensures forall fd :: fd in order <==> fd in s.outside.open
    ensures forall i, j :: 0 <= i < j < |order| ==> order[i] != order[j]
  {
    forall fd ensures fd in order <==> fd in s.outside.open {
      assert fd in s.conns.Keys <==> fd in s.outside.open.Keys;
    }
  }

  lemma StoppedInv(s: Server, p: Outside)
    requires Inv(s) && Accounted(p) && p.open == map[]
    requires p.accepted == s.outside.accepted && p.wire == s.outside.wire && p.queued == s.outside.queued
    ensures Inv(Server(map[], false, p))
  {
  }

  lemma NoKeys(m: map<int, nat>)
    requires m.Keys == {}
    ensures m == map[]
  {
  }

  // ---------------------------------------------------------------------------------------------
  // Runs
  // ---------------------------------------------------------------------------------------------

  ghost predicate Legal(events: seq<Event>)
  {
    events == [] ||
    (Legal(events[..|events| - 1]) && Possible(After(events[..|events| - 1]), events[|events| - 1]))
  }

  function After(events: seq<Event>): Server {
    if events == [] then STARTED else Apply(After(events[..|events| - 1]), events[|events| - 1])
  }

  lemma EventKeepsInv(s: Server, e: Event)
    requires Inv(s) && Possible(s, e)
    ensures Inv(Apply(s, e))
  {
    hide Inv, Unused, Accepted, Enumerates;
    match e
    case Accepting(clients) => AcceptLoopKeepsInv(s, clients);
    case Reading(fd, received) => ReadKeepsInv(s, fd, received);
    case Responding(fd, id, response, keepAlive) =>
      if Owns(s, fd, id) {
        RespondKeepsInv(s, fd, response, keepAlive);
      }
    case Writing(fd, sent) =>
      CloseKeepsInv(s, fd);
      if fd in s.conns {
        SendLoopKeepsInv(s, fd, sent);
      }
    case HangUp(fd) => CloseKeepsInv(s, fd);
    case TimingOut(now, order) => CloseAllKeepsInv(s, order);
    case Stopping(order) => StopKeepsInv(s, order);
  }

  lemma StartedInv()
    ensures Inv(STARTED)
  {
  }

  lemma {:induction false} ReachableInv(events: seq<Event>)
    requires Legal(events)
    ensures Inv(After(events))
  {
    StartedInv();
    if events != [] {
      hide Inv, Apply, Possible;
      ReachableInv(events[..|events| - 1]);
      EventKeepsInv(After(events[..|events| - 1]), events[|events| - 1]);
    }
  }

  /**
   Life cycle: between events the table's keys are exactly the open client descriptors, at most
   MAX_CONNECTIONS of them, no request buffer exceeds its limit, every `close` was of an open
   descriptor, and every connection is closed at most once.
   */
  lemma ConnectionLifeCycle(events: seq<Event>)
    requires Legal(events)
    ensures
      var s := After(events);
      && s.conns.Keys == s.outside.open.Keys && |s.conns| <= MAX_CONNECTIONS
      && (forall fd :: fd in s.conns ==> |s.conns[fd].readBuffer| <= MAX_REQUEST_SIZE)
      && s.outside.faults == 0
      && (forall i, j :: 0 <= i < j < |s.outside.closed| ==> s.outside.closed[i] != s.outside.closed[j])
      && (forall fd :: fd in s.conns ==> s.conns[fd].id !in s.outside.closed)
  {
    ReachableInv(events);
    var s := After(events);
    assert forall fd :: fd in s.conns ==> fd in s.outside.open;
  }

  /** When the server has stopped, every connection ever accepted has been closed exactly once. */
  lemma StopClosesEverything(events: seq<Event>, order: seq<int>)
    requires Legal(events) && Possible(After(events), Stopping(order))
    ensures
      var o := Apply(After(events), Stopping(order)).outside;
      && o.open == map[] && o.faults == 0
      && (forall id: nat :: id < o.accepted <==> id in o.closed)
      && (forall i, j :: 0 <= i < j < |o.closed| ==> o.closed[i] != o.closed[j])
  {
    ReachableInv(events);
    StopKeepsInv(After(events), order);
  }

  /** The state in the middle of `handle_accept`: `accept4` has returned `fd`, and the table does not hold it yet. */
  function Interrupted(s: Server, inFlight: Option<int>): Server {
    if inFlight.Some? then s.(outside := Accept(s.outside, inFlight.value)) else s
  }

  /** `handle_accept` goes on: the registration with epoll fails, or the connection is stored. */
  function Resumed(s: Server, fd: int, registered: bool, c: Connection): Server {
    if registered then s.(conns := s.conns[fd := c]) else s.(outside := Close(s.outside, fd))
  }

  /**
   The signal handler can run `stop` there.  Then everything is closed iff no connection was in flight.  If one
   was, `handle_accept` closes it when its registration fails; otherwise it stores it, and no later `stop`
   closes it.
   */
  lemma StopSparesInFlight(s: Server, inFlight: Option<int>, order: seq<int>, registered: bool, c: Connection,
                           later: seq<int>)
    requires Inv(s) && s.running && Enumerates(order, s.conns.Keys)
    requires inFlight.Some? ==> inFlight.value !in s.outside.open
    ensures
      var stopped := Stop(Interrupted(s, inFlight), order);
      && (stopped.outside.open == map[] <==> inFlight == None)
      && (inFlight.Some? ==>
            var end := Resumed(stopped, inFlight.value, registered, c);
            && Stop(end, later) == end
            && end.outside.open == if registered then map[inFlight.value := s.outside.accepted] else map[])
  {
    StopKeepsInv(s, order);
    if inFlight.Some? {
      InFlightStaysOpen(s, inFlight.value, order);
      CloseOnly(CloseDescriptors(Accept(s.outside, inFlight.value), order), inFlight.value, s.outside.accepted);
      hide Inv, Accept, CloseDescriptors, Enumerates, Close;
    }
  }

  lemma CloseOnly(o: Outside, fd: int, id: nat)
    requires o.open == map[fd := id]
    ensures Close(o, fd).open == map[]
  {
    assert map[fd := id] - {fd} == map[];
  }

  lemma InFlightStaysOpen(s: Server, fd: int, order: seq<int>)
    requires Inv(s) && Enumerates(order, s.conns.Keys) && fd !in s.outside.open
    ensures CloseDescriptors(Accept(s.outside, fd), order).open == map[fd := s.outside.accepted]
  {
    EnumeratesOpen(s, order);
    AcceptIsAccounted(s.outside, fd);
    var o := Accept(s.outside, fd);
    assert o.open == s.outside.open[fd := s.outside.accepted];
    ClosingDescriptors(o, order);
    hide *;
    var open := CloseDescriptors(o, order).open;
    forall g ensures g in open <==> g == fd {
      assert g in o.open <==> g in s.outside.open || g == fd;
      assert g in order <==> g in s.outside.open;
    }
    OneEntry(open, fd, s.outside.accepted);
  }

  lemma OneEntry(m: map<int, nat>, fd: int, id: nat)
    requires (forall g :: g in m <==> g == fd) && m[fd] == id
    ensures m == map[fd := id]
  {
    assert forall g :: g in m.Keys <==> g in {fd};
    assert m.Keys == {fd};
  }

  lemma AllTaken(c: Connection, wire: string, queued: string)
    requires InTransit(c, wire, queued)
    ensures c.writeBuffer == "" ==> wire == queued
  {
  }

  /**
   Exact delivery: whatever the sizes of the partial sends, the bytes taken for an open connection are
   all earlier responses followed by exactly the first bytesSent bytes of the current one; when the
   buffer is empty everything queued has been taken, and a closed connection got a prefix.
   */
  lemma ExactDelivery(events: seq<Event>)
    requires Legal(events)
    ensures
      var s := After(events);
      && (forall id: nat :: Get(s.outside.wire, id) <= Get(s.outside.queued, id))
      && (forall fd :: fd in s.conns ==>
            var c := s.conns[fd];
            var wire, queued := Get(s.outside.wire, c.id), Get(s.outside.queued, c.id);
            && InTransit(c, wire, queued)
            && (c.writeBuffer == "" ==> wire == queued))
  {
    ReachableInv(events);
    var s := After(events);
    hide After, Legal, InTransit, Accounted, Tabled;
    forall fd | fd in s.conns
      ensures
        var c := s.conns[fd];
        var wire, queued := Get(s.outside.wire, c.id), Get(s.outside.queued, c.id);
        InTransit(c, wire, queued) && (c.writeBuffer == "" ==> wire == queued)
    {
      assert Delivering(s.conns[fd], s.outside);
      AllTaken(s.conns[fd], Get(s.outside.wire, s.conns[fd].id), Get(s.outside.queued, s.conns[fd].id));
    }
  }

  // ---------------------------------------------------------------------------------------------
  // The class
  // ---------------------------------------------------------------------------------------------

  /** The server's table, together with the environment its system calls act on. */
  class ConnectionTable {
    var connections: map<int, Connection>
    var running: bool
    var outside: Outside

    ghost function State(): Server
      reads this
    {
      Server(connections, running, outside)
    }

    constructor ()
      ensures State() == STARTED
    {
      connections, running, outside := map[], true, STARTED.outside;
    }

    /** `handle_accept`: one `accept4` per iteration. */
    method AcceptPending(clients: seq<Client>)
      modifies this
      ensures State() == Apply(old(State()), Accepting(clients))
    {
      var pending := clients;
      while pending != []
        invariant HandleAccept(State(), pending) == HandleAccept(old(State()), clients)
        decreases |pending|
      {
        AcceptOne(pending[0]);
        pending := pending[1..];
      }
    }

    method AcceptOne(client: Client)
      modifies this
      ensures State() == AdmitClient(old(State()), client.fd, client.registered, client.now)
    {
      var id := outside.accepted;
      outside := Accept(outside, client.fd);
      if |connections| >= MAX_CONNECTIONS {
        outside := Close(outside, client.fd);
        return;
      }
      if !client.registered {
        outside := Close(outside, client.fd);
        return;
      }
      connections := connections[client.fd := Connection(id, "", "", 0, false, false, client.now)];
    }

    /** `close_connection`. */
    method CloseOne(fd: int)
      modifies this
      ensures State() == CloseConnection(old(State()), fd)
    {
      if fd !in connections {
        return;
      }
      connections := connections - {fd};
      outside := Close(outside, fd);
    }

    /** `handle_read`; `dispatch` tells whether the request goes to the thread pool. */
    method ReadAvailable(fd: int, received: seq<Received>) returns (dispatch: bool)
      modifies this
      ensures State() == Apply(old(State()), Reading(fd, received))
      ensures dispatch <==> fd in connections && Find(connections[fd].readBuffer, BLANK_LINE, 0).Some?
    {
      if fd !in connections {
        return false;
      }
      var pending := received;
      while pending != []
        invariant fd in connections
        invariant HandleRead(State(), fd, pending) == HandleRead(old(State()), fd, received)
        decreases |pending|
      {
        var c := connections[fd];
        match pending[0] {
          case Data(bytes, now) =>
            if |c.readBuffer| + |bytes| > MAX_REQUEST_SIZE {
              CloseOne(fd);
              return false;
            }
            connections := connections[fd := c.(readBuffer := c.readBuffer + bytes, lastActivity := now)];
          case Ended =>
            CloseOne(fd);
            return false;
        }
        pending := pending[1..];
      }
      dispatch := Find(connections[fd].readBuffer, BLANK_LINE, 0).Some?;
    }

    /** The end of `process_request`; a connection that has left the table is written to no more. */
    method QueueResponse(fd: int, id: nat, response: string, keepAlive: bool)
      modifies this
      ensures State() == Apply(old(State()), Responding(fd, id, response, keepAlive))
    {
      if fd !in connections || connections[fd].id != id {
        return;
      }
      var c := connections[fd];
      outside := Record(outside, c.id, Get(outside.wire, c.id), Get(outside.queued, c.id) + response);
      c := c.(keepAlive := keepAlive);
      c := c.(writeBuffer := response);
      c := c.(bytesSent := 0);
      c := c.(isWriting := true);
      c := c.(readBuffer := "");
      connections := connections[fd := c];
    }

    /** `handle_write`: one `send` per iteration. */
    method WritePending(fd: int, sent: seq<Sent>)
      modifies this
      ensures State() == Apply(old(State()), Writing(fd, sent))
    {
      if fd !in connections {
        return;
      }
      if connections[fd].writeBuffer == "" {
        CloseOne(fd);
        return;
      }
      var pending := sent;
      while connections[fd].bytesSent < |connections[fd].writeBuffer|
        invariant fd in connections
        invariant SendLoop(State(), fd, pending) == SendLoop(old(State()), fd, sent)
        decreases |pending|
      {
        if pending == [] {
          return;
        }
        if pending[0].Broken? {
          CloseOne(fd);
          return;
        }
        SendSome(fd, pending[0].n);
        pending := pending[1..];
      }
      FinishResponse(fd);
    }

    method SendSome(fd: int, n: nat)
      requires fd in connections
      modifies this
      ensures fd in connections && State() == Send(old(State()), fd, n)
    {
      var c := connections[fd];
      var chunk := if c.bytesSent + n <= |c.writeBuffer| then c.writeBuffer[c.bytesSent..c.bytesSent + n] else "";
      connections := connections[fd := c.(bytesSent := c.bytesSent + n)];
      outside := Record(outside, c.id, Get(outside.wire, c.id) + chunk, Get(outside.queued, c.id));
    }

    method FinishResponse(fd: int)
      requires fd in connections
      modifies this
      ensures State() == Complete(old(State()), fd)
    {
      var c := connections[fd];
      connections := connections[fd := c.(writeBuffer := "", bytesSent := 0, isWriting := false)];
      if !c.keepAlive {
        CloseOne(fd);
      }
    }

    /** `cleanup_inactive_connections`: first the stale descriptors are listed, then they are closed. */
    method CleanupInactive(now: real) returns (ghost order: seq<int>)
      modifies this
      ensures Enumerates(order, StaleFds(old(State()), now))
      ensures State() == Apply(old(State()), TimingOut(now, order))
    {
      var stale: seq<int> := [];
      var unseen := connections.Keys;
      while unseen != {}
        invariant unseen <= connections.Keys
        invariant Enumerates(stale, StaleFds(State(), now) - unseen)
        invariant State() == old(State())
        decreases |unseen|
      {
        HasMember(unseen);
        var fd :| fd in unseen;
        unseen := unseen - {fd};
        if Stale(connections[fd], now) {
          stale := stale + [fd];
        }
      }
      assert StaleFds(State(), now) - {} == StaleFds(State(), now);
      order := stale;
      CloseListed(stale);
    }

    method CloseListed(fds: seq<int>)
      modifies this
      ensures State() == CloseAll(old(State()), fds)
    {
      var pending := fds;
      while pending != []
        invariant CloseAll(State(), pending) == CloseAll(old(State()), fds)
        decreases |pending|
      {
        CloseOne(pending[0]);
        pending := pending[1..];
      }
    }

    /** Closes every descriptor of the table, in the order the map is iterated. */
    method CloseEveryDescriptor() returns (ghost order: seq<int>)
      modifies this`outside
      ensures Enumerates(order, connections.Keys)
      ensures outside == CloseDescriptors(old(outside), order)
    {
      var unseen := connections.Keys;
      order := [];
      while unseen != {}
        invariant unseen <= connections.Keys
        invariant Enumerates(order, connections.Keys - unseen)
        invariant outside == CloseDescriptors(old(outside), order)
        decreases |unseen|
      {
        HasMember(unseen);
        var fd :| fd in unseen;
        CloseLast(old(outside), order, fd);
        unseen, order := unseen - {fd}, order + [fd];
        outside := Close(outside, fd);
      }
      assert connections.Keys - {} == connections.Keys;
    }

    /** `stop`: closes every descriptor of the table, then clears it. */
    method Shutdown() returns (ghost order: seq<int>)
      modifies this
      ensures Enumerates(order, old(connections).Keys)
      ensures State() == Apply(old(State()), Stopping(order))
    {
      if !running {
        order := Listing(connections.Keys);
        return;
      }
      running := false;
      order := CloseEveryDescriptor();
      connections := map[];
    }
  }

  lemma HasMember(fds: set<int>)
    requires fds != {}
    ensures exists fd :: fd in fds
  {
    assert (forall fd :: fd !in fds) ==> fds == {};
  }

  lemma {:induction false} CloseLast(o: Outside, fds: seq<int>, fd: int)
    ensures CloseDescriptors(o, fds + [fd]) == Close(CloseDescriptors(o, fds), fd)
    decreases |fds|
  {
    if fds == [] {
      assert fds + [fd] == [fd];
    } else {
      CloseLast(Close(o, fds[0]), fds[1..], fd);
      assert (fds + [fd])[1..] == fds[1..] + [fd];
    }
  }

  /** Some enumeration of a set of descriptors. */
  ghost function Listing(fds: set<int>): (order: seq<int>)
    ensures Enumerates(order, fds)
  {
    if fds == {} then []
    else
      HasMember(fds);
      var fd :| fd in fds;
      Listing(fds - {fd}) + [fd]
  }
}

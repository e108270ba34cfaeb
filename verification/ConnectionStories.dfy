/**
 What has happened to each connection, as a function of the server's events, and the connection table
 that follows from it (src/core/server.cpp).
 */
module ConnectionStories {
  import opened Wrappers
  import opened Clock
  import opened Connections

  /**
   `heard`: the bytes received since the accept or the last response; `lastHeard`: when bytes came last;
   `keepAlive`: what the last response said; `busy`: a response is queued and not completely taken.
   */
  datatype Story = Story(heard: string, lastHeard: real, keepAlive: bool, busy: bool)

  // ---------------------------------------------------------------------------------------------
  // Stories
  // ---------------------------------------------------------------------------------------------

  /** The bytes of some answers of `recv`, in order. */
  function Bytes(received: seq<Received>): string
    decreases |received|
  {
    if received == [] then ""
    else (if received[0].Data? then received[0].bytes else "") + Bytes(received[1..])
  }

  /** When the last bytes of some answers came. */
  function LastData(received: seq<Received>, before: real): real
    decreases |received|
  {
    if received == [] then before
    else LastData(received[1..], if received[0].Data? then received[0].now else before)
  }

  ghost predicate Holds(s: Server, fd: int, id: nat) {
    fd in s.conns && s.conns[fd].id == id
  }

  /** How an event in state `s` continues the story of connection `id`; `o` is the outside after it. */
  ghost function Continued(story: Story, s: Server, o: Outside, e: Event, id: nat): Story {
    match e
    case Accepting(clients) =>
      if s.outside.accepted <= id < s.outside.accepted + |clients| then
        Story("", clients[id - s.outside.accepted].now, false, false)
      else story
    case Reading(fd, received) =>
      if Holds(s, fd, id) then
        story.(heard := story.heard + Bytes(received), lastHeard := LastData(received, story.lastHeard))
      else story
    case Responding(fd, rid, _, keepAlive) =>
      if rid == id && Holds(s, fd, id) then story.(heard := "", keepAlive := keepAlive, busy := true) else story
    case Writing(fd, _) =>
      if Holds(s, fd, id) then story.(busy := Get(o.wire, id) != Get(o.queued, id)) else story
    case _ => story
  }

  /** The story of connection `id`. */
  ghost function StoryOf(events: seq<Event>, id: nat): Story
    requires Legal(events)
  {
    if events == [] then Story("", 0.0, false, false)
    else
      var past, e := events[..|events| - 1], events[|events| - 1];
      Continued(StoryOf(past, id), After(past), After(events).outside, e, id)
  }

  /** The connection is as its story says. */
  ghost predicate Fits(c: Connection, story: Story) {
    c.readBuffer == story.heard && c.lastActivity == story.lastHeard && c.keepAlive == story.keepAlive
    && c.isWriting == story.busy && (c.writeBuffer != "" ==> c.isWriting)
  }

  // ---------------------------------------------------------------------------------------------
  // What each event does to the table
  // ---------------------------------------------------------------------------------------------

  /** The old entries stay, and each new one is that of an accepted client. */
  ghost predicate Admits(s: Server, t: Server, clients: seq<Client>) {
    && t.outside.accepted == s.outside.accepted + |clients|
    && (forall fd :: fd in s.conns ==> fd in t.conns && t.conns[fd] == s.conns[fd])
    && (forall fd :: fd in t.conns && fd !in s.conns ==> IsNew(t.conns[fd], s.outside.accepted, clients))
  }

  ghost predicate IsNew(c: Connection, first: nat, clients: seq<Client>) {
    first <= c.id < first + |clients| && c == Connection(c.id, "", "", 0, false, false, clients[c.id - first].now)
  }

  lemma AdmitsMore(s: Server, next: Server, t: Server, clients: seq<Client>)
    requires clients != [] && Admits(s, next, clients[..1]) && Admits(next, t, clients[1..])
    ensures Admits(s, t, clients)
  {
    forall fd | fd in t.conns && fd !in s.conns ensures IsNew(t.conns[fd], s.outside.accepted, clients) {
      if fd in next.conns {
        assert IsNew(next.conns[fd], s.outside.accepted, clients[..1]);
      } else {
        assert IsNew(t.conns[fd], next.outside.accepted, clients[1..]);
      }
    }
  }

  lemma {:induction false} AcceptEntries(s: Server, clients: seq<Client>)
    requires Inv(s) && s.running && Unused(s, clients)
    ensures Admits(s, HandleAccept(s, clients), clients)
    decreases |clients|
  {
    if clients != [] {
      var client := clients[0];
      var next := AdmitClient(s, client.fd, client.registered, client.now);
      UnusedFirst(s, clients);
      AdmitKeepsInv(s, client.fd, client.registered, client.now);
      AdmitEntry(s, client);
      assert clients[..1] == [client];
      hide Inv, AdmitClient, Admits;
      AcceptEntries(next, clients[1..]);
      AdmitsMore(s, next, HandleAccept(next, clients[1..]), clients);
    }
  }

  /** A new client gets an entry iff there is room and its registration succeeds. */
  lemma AdmitEntry(s: Server, client: Client)
    requires Inv(s) && client.fd !in s.outside.open
    ensures
      var t := AdmitClient(s, client.fd, client.registered, client.now);
      Admits(s, t, [client]) && (client.fd in t.conns <==> |s.conns| < 10000 && client.registered)
  {
    hide Accounted, Delivered;
    assert client.fd !in s.conns;
  }

  /** What a connection is after some answers of `recv` that leave it open. */
  function Heard(c: Connection, received: seq<Received>): Connection {
    c.(readBuffer := c.readBuffer + Bytes(received), lastActivity := LastData(received, c.lastActivity))
  }

  /** A read leaves the connection open iff no answer ends it and all the bytes fit. */
  lemma {:induction false} ReadEntries(s: Server, fd: int, received: seq<Received>)
    requires fd in s.conns && |s.conns[fd].readBuffer| <= 65536
    ensures
      var t, c := HandleRead(s, fd, received), s.conns[fd];
      && (fd in t.conns <==> Ended !in received && |c.readBuffer| + |Bytes(received)| <= 65536)
      && (fd in t.conns ==> t.conns[fd] == Heard(c, received) && t.outside == s.outside)
      && (forall g :: g != fd ==> (g in t.conns <==> g in s.conns))
      && (forall g :: g in s.conns && g != fd ==> t.conns[g] == s.conns[g])
    decreases |received|
  {
    if received != [] && received[0].Data? && |s.conns[fd].readBuffer| + |received[0].bytes| <= 65536 {
      var c := s.conns[fd];
      var next := s.(conns := s.conns[fd := c.(readBuffer := c.readBuffer + received[0].bytes,
                                               lastActivity := received[0].now)]);
      ReadEntries(next, fd, received[1..]);
      assert received == [received[0]] + received[1..];
      assert c.readBuffer + received[0].bytes + Bytes(received[1..]) == c.readBuffer + Bytes(received);
    } else if received != [] {
      assert received == [received[0]] + received[1..];
    }
  }

  /** How the answers of `send` end: `left` bytes had to be sent. */
  datatype Sending = Finished | Waiting | Failed

  function Outcome(left: int, sent: seq<Sent>): Sending
    decreases |sent|
  {
    if left <= 0 then Finished
    else if sent == [] then Waiting
    else if sent[0].Broken? then Failed
    else Outcome(left - sent[0].n, sent[1..])
  }

  /** A write leaves the connection open iff it has to wait, or has finished a response that keeps it alive. */
  lemma {:induction false} SendEntries(s: Server, fd: int, sent: seq<Sent>)
    requires fd in s.conns
    ensures
      var t, c := SendLoop(s, fd, sent), s.conns[fd];
      var outcome := Outcome(|c.writeBuffer| - c.bytesSent, sent);
      && (fd in t.conns <==> outcome == Waiting || (outcome == Finished && c.keepAlive))
      && (fd in t.conns ==>
            var d := t.conns[fd];
            && d.id == c.id && d.readBuffer == c.readBuffer && d.lastActivity == c.lastActivity
            && d.keepAlive == c.keepAlive && d.isWriting == (c.isWriting && outcome == Waiting)
            && (outcome == Waiting ==> d.bytesSent < |d.writeBuffer|) && (outcome == Finished ==> d.writeBuffer == ""))
      && (forall g :: g != fd ==> (g in t.conns <==> g in s.conns))
      && (forall g :: g in s.conns && g != fd ==> t.conns[g] == s.conns[g])
    decreases |sent|
  {
    var c := s.conns[fd];
    if c.bytesSent < |c.writeBuffer| && sent != [] && sent[0].Taken? {
      hide Record, Get;
      SendEntries(Send(s, fd, sent[0].n), fd, sent[1..]);
    }
  }

  // ---------------------------------------------------------------------------------------------
  // The table follows the stories
  // ---------------------------------------------------------------------------------------------

  /** The entry of `fd` before the event, if it is that of the same connection, was as the story said. */
  ghost predicate Fitted(s: Server, fd: int, id: nat, story: Story) {
    Holds(s, fd, id) ==> Fits(s.conns[fd], story)
  }

  lemma OneHolder(s: Server, fd: int, g: int)
    requires Inv(s) && fd in s.conns && g in s.conns && fd != g
    ensures s.conns[fd].id != s.conns[g].id
  {
    IdsDiffer(s, fd);
    hide Accounted, Delivered, Tabled;
  }

  lemma HolderIsAccepted(s: Server, fd: int)
    requires Inv(s) && fd in s.conns
    ensures s.conns[fd].id < s.outside.accepted
  {
    IdsDiffer(s, fd);
    hide Accounted, Delivered, Tabled;
  }

  lemma WasFitted(s: Server, fd: int, id: nat, story: Story)
    requires Fitted(s, fd, id, story) && fd in s.conns && s.conns[fd].id == id
    ensures Fits(s.conns[fd], story)
  {
  }

  lemma AcceptingOld(s: Server, clients: seq<Client>, fd: int, story: Story)
    requires Inv(s) && fd in s.conns && Admits(s, HandleAccept(s, clients), clients)
    ensures
      var t := HandleAccept(s, clients);
      && fd in t.conns && t.conns[fd] == s.conns[fd]
      && Continued(story, s, t.outside, Accepting(clients), s.conns[fd].id) == story
  {
    hide Inv, HandleAccept;
    HolderIsAccepted(s, fd);
  }

  lemma AcceptingNew(s: Server, t: Server, clients: seq<Client>, fd: int, story: Story)
    requires fd in t.conns && fd !in s.conns && Admits(s, t, clients)
    ensures Fits(t.conns[fd], Continued(story, s, t.outside, Accepting(clients), t.conns[fd].id))
  {
    assert IsNew(t.conns[fd], s.outside.accepted, clients);
  }

  lemma AcceptingFits(s: Server, clients: seq<Client>, fd: int, story: Story)
    requires Inv(s) && Possible(s, Accepting(clients)) && fd in HandleAccept(s, clients).conns
    requires Fitted(s, fd, HandleAccept(s, clients).conns[fd].id, story)
    ensures
      var t := HandleAccept(s, clients);
      Fits(t.conns[fd], Continued(story, s, t.outside, Accepting(clients), t.conns[fd].id))
  {
    assert s.running && Unused(s, clients);
    hide *;
    AcceptEntries(s, clients);
    if fd in s.conns {
      AcceptingOld(s, clients, fd, story);
      WasFitted(s, fd, s.conns[fd].id, story);
    } else {
      AcceptingNew(s, HandleAccept(s, clients), clients, fd, story);
    }
  }

  lemma ReadingHere(s: Server, fd: int, received: seq<Received>, story: Story)
    requires Inv(s) && fd in s.conns && fd in HandleRead(s, fd, received).conns && Fits(s.conns[fd], story)
    ensures
      var c := HandleRead(s, fd, received).conns[fd];
      && c.id == s.conns[fd].id
      && Fits(c, story.(heard := story.heard + Bytes(received), lastHeard := LastData(received, story.lastHeard)))
  {
    hide Inv, HandleRead, Delivering, Bytes, LastData;
    ConnectionIsSound(s, fd);
    ReadEntries(s, fd, received);
  }

  lemma ReadingElsewhere(s: Server, fd: int, received: seq<Received>, g: int)
    requires Inv(s) && g != fd && g in HandleRead(s, fd, received).conns
    ensures g in s.conns && HandleRead(s, fd, received).conns[g] == s.conns[g] && !Holds(s, fd, s.conns[g].id)
  {
    if fd in s.conns {
      ConnectionIsSound(s, fd);
      ReadEntries(s, fd, received);
      hide Inv, HandleRead, Delivering, Bytes, LastData;
      OneHolder(s, fd, g);
    } else {
      NothingRead(s, fd, received);
    }
  }

  lemma ReadAddsNobody(s: Server, fd: int, received: seq<Received>)
    requires fd in HandleRead(s, fd, received).conns
    ensures fd in s.conns
  {
  }

  lemma ContinuedRead(s: Server, o: Outside, fd: int, received: seq<Received>, id: nat, story: Story)
    ensures
      Continued(story, s, o, Reading(fd, received), id) ==
      if Holds(s, fd, id) then
        story.(heard := story.heard + Bytes(received), lastHeard := LastData(received, story.lastHeard))
      else story
  {
  }

  lemma ReadingFits(s: Server, fd: int, received: seq<Received>, g: int, story: Story)
    requires Inv(s) && g in HandleRead(s, fd, received).conns
    requires Fitted(s, g, HandleRead(s, fd, received).conns[g].id, story)
    ensures
      var t := HandleRead(s, fd, received);
      Fits(t.conns[g], Continued(story, s, t.outside, Reading(fd, received), t.conns[g].id))
  {
    hide *;
    var t := HandleRead(s, fd, received);
    ContinuedRead(s, t.outside, fd, received, t.conns[g].id, story);
    if g != fd {
      ReadingElsewhere(s, fd, received, g);
      WasFitted(s, g, t.conns[g].id, story);
    } else {
      ReadAddsNobody(s, fd, received);
      ReadingKeepsId(s, fd, received);
      WasFitted(s, g, t.conns[g].id, story);
      ReadingHere(s, fd, received, story);
      assert Holds(s, fd, t.conns[g].id) by { HoldsItself(s, fd); }
    }
  }

  lemma HoldsItself(s: Server, fd: int)
    requires fd in s.conns
    ensures Holds(s, fd, s.conns[fd].id)
  {
  }

  lemma ReadingKeepsId(s: Server, fd: int, received: seq<Received>)
    requires Inv(s) && fd in s.conns && fd in HandleRead(s, fd, received).conns
    ensures HandleRead(s, fd, received).conns[fd].id == s.conns[fd].id
  {
    hide Inv, HandleRead, Delivering, Bytes, LastData;
    ConnectionIsSound(s, fd);
    ReadEntries(s, fd, received);
  }

  lemma NothingRead(s: Server, fd: int, received: seq<Received>)
    requires fd !in s.conns
    ensures HandleRead(s, fd, received) == s
  {
  }

  lemma RespondingFits(s: Server, e: Event, g: int, story: Story)
    requires Inv(s) && e.Responding? && g in Apply(s, e).conns && Fitted(s, g, Apply(s, e).conns[g].id, story)
    ensures
      var t := Apply(s, e);
      Fits(t.conns[g], Continued(story, s, t.outside, e, t.conns[g].id))
  {
    hide Inv, Record, Get;
    if g != e.fd && e.fd in s.conns && g in s.conns {
      OneHolder(s, e.fd, g);
    }
  }

  /** What is in transit when the answers are used up. */
  lemma WireAfter(c: Connection, o: Outside)
    requires Delivering(c, o)
    ensures Get(o.wire, c.id) == Get(o.queued, c.id) <==> c.bytesSent == |c.writeBuffer|
  {
    var wire, queued := Get(o.wire, c.id), Get(o.queued, c.id);
    assert |wire| == |queued| - |c.writeBuffer| + c.bytesSent;
    assert wire == queued[..|wire|];
  }

  lemma CloseEntries(s: Server, fd: int)
    ensures fd !in CloseConnection(s, fd).conns
    ensures forall g :: g != fd ==> (g in CloseConnection(s, fd).conns <==> g in s.conns)
    ensures forall g :: g in s.conns && g != fd ==> CloseConnection(s, fd).conns[g] == s.conns[g]
  {
  }

  /** A connection that is still open after a write has some of its response left, or none and is done. */
  lemma WritingHere(s: Server, fd: int, sent: seq<Sent>, story: Story)
    requires Inv(s) && Possible(s, Writing(fd, sent)) && fd in s.conns && fd in HandleWrite(s, fd, sent).conns
    requires Fits(s.conns[fd], story)
    ensures
      var t := HandleWrite(s, fd, sent);
      var c := t.conns[fd];
      c.id == s.conns[fd].id && Fits(c, story.(busy := Get(t.outside.wire, c.id) != Get(t.outside.queued, c.id)))
  {
    var t := HandleWrite(s, fd, sent);
    WritingSends(s, fd, sent);
    hide Inv, SendLoop, HandleWrite, Accepted, Delivering, Get, Outcome, Possible;
    SendEntries(s, fd, sent);
    ConnectionIsSound(t, fd);
    WireAfter(t.conns[fd], t.outside);
    SoundBytes(t.conns[fd], t.outside);
  }

  /** A write that leaves the connection open had something to send. */
  lemma WritingSends(s: Server, fd: int, sent: seq<Sent>)
    requires Inv(s) && Possible(s, Writing(fd, sent)) && fd in s.conns && fd in HandleWrite(s, fd, sent).conns
    ensures s.conns[fd].writeBuffer != "" && HandleWrite(s, fd, sent) == SendLoop(s, fd, sent)
    ensures Inv(HandleWrite(s, fd, sent))
  {
    hide Inv, SendLoop, CloseConnection, Accepted;
    CloseEntries(s, fd);
    SendLoopKeepsInv(s, fd, sent);
  }

  lemma SoundBytes(c: Connection, o: Outside)
    requires Delivering(c, o)
    ensures c.bytesSent <= |c.writeBuffer|
  {
  }

  lemma WritingFits(s: Server, fd: int, sent: seq<Sent>, g: int, story: Story)
    requires Inv(s) && Possible(s, Writing(fd, sent)) && g in HandleWrite(s, fd, sent).conns
    requires Fitted(s, g, HandleWrite(s, fd, sent).conns[g].id, story)
    ensures
      var t := HandleWrite(s, fd, sent);
      Fits(t.conns[g], Continued(story, s, t.outside, Writing(fd, sent), t.conns[g].id))
  {
    hide Inv, SendLoop, CloseConnection, Accepted, Get, Outcome;
    CloseEntries(s, fd);
    if fd in s.conns {
      SendEntries(s, fd, sent);
      if g != fd {
        OneHolder(s, fd, g);
      } else {
        WritingHere(s, fd, sent, story);
      }
    }
  }

  lemma {:induction false} CloseAllEntries(s: Server, fds: seq<int>)
    ensures
      var t := CloseAll(s, fds);
      && (forall g :: g in t.conns <==> g in s.conns && g !in fds)
      && (forall g :: g in t.conns ==> t.conns[g] == s.conns[g])
    decreases |fds|
  {
    if fds != [] {
      CloseEntries(s, fds[0]);
      CloseAllEntries(CloseConnection(s, fds[0]), fds[1..]);
      hide CloseConnection;
      assert fds == [fds[0]] + fds[1..];
    }
  }

  /** The other events only take entries away. */
  lemma ClosingFits(s: Server, e: Event, g: int, story: Story)
    requires e.HangUp? || e.TimingOut? || e.Stopping?
    requires g in Apply(s, e).conns && Fitted(s, g, Apply(s, e).conns[g].id, story)
    ensures
      var t := Apply(s, e);
      Fits(t.conns[g], Continued(story, s, t.outside, e, t.conns[g].id))
  {
    hide CloseConnection, CloseAll, CloseDescriptors;
    match e {
      case HangUp(fd) => CloseEntries(s, fd);
      case TimingOut(now, order) => CloseAllEntries(s, order);
      case Stopping(order) =>
    }
  }

  lemma EventFits(s: Server, e: Event, g: int, story: Story)
    requires Inv(s) && Possible(s, e) && g in Apply(s, e).conns && Fitted(s, g, Apply(s, e).conns[g].id, story)
    ensures
      var t := Apply(s, e);
      Fits(t.conns[g], Continued(story, s, t.outside, e, t.conns[g].id))
  {
    hide Inv, Possible, Fitted, Fits, Continued, HandleAccept, HandleRead, HandleWrite, CloseAll, CloseConnection;
    match e {
      case Accepting(clients) => AcceptingFits(s, clients, g, story);
      case Reading(fd, received) => ReadingFits(s, fd, received, g, story);
      case Responding(_, _, _, _) => RespondingFits(s, e, g, story);
      case Writing(fd, sent) => WritingFits(s, fd, sent, g, story);
      case _ => ClosingFits(s, e, g, story);
    }
  }

  ghost predicate AllFit(events: seq<Event>)
    requires Legal(events)
  {
    forall fd :: fd in After(events).conns ==>
      Fits(After(events).conns[fd], StoryOf(events, After(events).conns[fd].id))
  }

  lemma Before(events: seq<Event>)
    requires events != [] && Legal(events)
    ensures
      var past, e := events[..|events| - 1], events[|events| - 1];
      && Legal(past) && Possible(After(past), e) && After(events) == Apply(After(past), e) && Inv(After(past))
      && forall id: nat ::
           StoryOf(events, id) == Continued(StoryOf(past, id), After(past), After(events).outside, e, id)
  {
    ReachableInv(events[..|events| - 1]);
    hide Inv, Apply, Possible, Continued;
  }

  /**
   Exact reading.  In every legal run, what an open connection holds is what its story says: the read buffer is
   the concatenation of all bytes received since the accept or the last response, in order; the last activity is
   when bytes came last; and the connection counts as writing iff a response of it is not completely taken.
   */
  lemma {:induction false} TableFitsStories(events: seq<Event>)
    requires Legal(events)
    ensures AllFit(events)
  {
    if events != [] {
      var past, e := events[..|events| - 1], events[|events| - 1];
      Before(events);
      TableFitsStories(past);
      hide Legal, StoryOf, After, Inv, Apply, Possible, Continued, Fits;
      var s := After(past);
      forall fd | fd in After(events).conns
        ensures Fits(After(events).conns[fd], StoryOf(events, After(events).conns[fd].id))
      {
        EventFits(s, e, fd, StoryOf(past, After(events).conns[fd].id));
      }
    }
  }

  /** What the stories say about one connection. */
  lemma EntryFits(events: seq<Event>, fd: int)
    requires Legal(events) && fd in After(events).conns
    ensures Inv(After(events)) && Fits(After(events).conns[fd], StoryOf(events, After(events).conns[fd].id))
  {
    TableFitsStories(events);
    ReachableInv(events);
    hide Legal, StoryOf, After, Inv, Fits;
  }

  // ---------------------------------------------------------------------------------------------
  // When connections close
  // ---------------------------------------------------------------------------------------------

  lemma ReadOpen(s: Server, fd: int, received: seq<Received>, story: Story)
    requires Inv(s) && fd in s.conns && Fits(s.conns[fd], story)
    ensures fd in HandleRead(s, fd, received).conns <==> Ended !in received && |story.heard + Bytes(received)| <= 65536
  {
    hide Inv, HandleRead, Bytes, Delivering;
    ConnectionIsSound(s, fd);
    ReadEntries(s, fd, received);
  }

  /** A read leaves the connection open iff the peer has not ended and the request is no larger than 64 KiB. */
  lemma ReadClosesIff(events: seq<Event>, fd: int, received: seq<Received>)
    requires Legal(events) && fd in After(events).conns
    ensures
      var s := After(events);
      var story := StoryOf(events, s.conns[fd].id);
      fd in HandleRead(s, fd, received).conns <==> Ended !in received && |story.heard + Bytes(received)| <= 65536
  {
    hide *;
    EntryFits(events, fd);
    ReadOpen(After(events), fd, received, StoryOf(events, After(events).conns[fd].id));
  }

  lemma WriteOpen(s: Server, fd: int, sent: seq<Sent>, story: Story)
    requires fd in s.conns && Fits(s.conns[fd], story)
    ensures
      var c := s.conns[fd];
      var outcome := Outcome(|c.writeBuffer| - c.bytesSent, sent);
      fd in HandleWrite(s, fd, sent).conns <==>
      c.writeBuffer != "" && (outcome == Waiting || (outcome == Finished && story.keepAlive))
  {
    hide SendLoop, CloseConnection, Outcome;
    CloseEntries(s, fd);
    SendEntries(s, fd, sent);
  }

  /**
   A write with a response pending leaves the connection open iff it has to wait, or has sent the last byte of a
   response that was queued with keepAlive.  Without a response it closes.
   */
  lemma WriteClosesIff(events: seq<Event>, fd: int, sent: seq<Sent>)
    requires Legal(events) && fd in After(events).conns
    ensures
      var c := After(events).conns[fd];
      var outcome := Outcome(|c.writeBuffer| - c.bytesSent, sent);
      fd in HandleWrite(After(events), fd, sent).conns <==>
      c.writeBuffer != "" && (outcome == Waiting || (outcome == Finished && StoryOf(events, c.id).keepAlive))
  {
    hide *;
    EntryFits(events, fd);
    WriteOpen(After(events), fd, sent, StoryOf(events, After(events).conns[fd].id));
  }

  lemma TimeoutCloses(s: Server, fd: int, now: real, order: seq<int>, story: Story)
    requires fd in s.conns && Fits(s.conns[fd], story) && Enumerates(order, StaleFds(s, now))
    ensures fd !in CloseAll(s, order).conns <==> WholeSeconds(now - story.lastHeard) > 30 && !story.busy
  {
    hide CloseAll;
    CloseAllEntries(s, order);
  }

  /** A time-out closes a connection iff nothing was heard for more than 30 whole seconds and no response is pending. */
  lemma TimeoutClosesIff(events: seq<Event>, fd: int, now: real, order: seq<int>)
    requires Legal(events) && fd in After(events).conns && Enumerates(order, StaleFds(After(events), now))
    ensures
      var story := StoryOf(events, After(events).conns[fd].id);
      fd !in CloseAll(After(events), order).conns <==> WholeSeconds(now - story.lastHeard) > 30 && !story.busy
  {
    hide *;
    EntryFits(events, fd);
    TimeoutCloses(After(events), fd, now, order, StoryOf(events, After(events).conns[fd].id));
  }

  /** A new client is kept iff there is room for 10000 connections and epoll takes it. */
  lemma ClientIsKeptIff(events: seq<Event>, client: Client)
    requires Legal(events) && Possible(After(events), Accepting([client]))
    ensures
      var s := After(events);
      client.fd in Apply(s, Accepting([client])).conns <==> |s.conns| < 10000 && client.registered
  {
    ReachableInv(events);
    hide Legal, After, Inv;
    OneAccept(After(events), client);
  }

  lemma OneAccept(s: Server, client: Client)
    requires Inv(s) && Unused(s, [client])
    ensures client.fd in HandleAccept(s, [client]).conns <==> |s.conns| < 10000 && client.registered
  {
    UnusedFirst(s, [client]);
    AdmitEntry(s, client);
    hide Inv, AdmitClient, Admits, Unused;
    assert [client][1..] == [];
  }
}

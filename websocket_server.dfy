/**
 * The WebSocket layer of the server: one `Session` per client connection,
 * with its outgoing FIFO queue and its `writing` flag, and the `Server` that
 * keeps the set of registered sessions and broadcasts booking updates.
 *
 * Every handler runs on the single thread of the I/O context, so the model
 * is sequential: each asynchronous completion (`on_accept`, `on_write`,
 * `on_read`, the server's `on_accept`) is a method that the transport calls
 * when the operation it completes is pending. The transport itself is
 * abstract: `transmitted` is the log of the strings handed to `async_write`,
 * and a pending operation is a flag.
 */
module WebSocketServer {
  import opened Wire
  import opened CinemaData
  import opened ServerCinema
  import opened Booking

  /** The server's protocol constants: the snapshot headers and footers, and the booking update prefix. */
  const CINEMA_DATA_HEADER: string := "=== CINEMA DATA STREAM ==="
  const CINEMA_DATA_FOOTER: string := "=== END CINEMA DATA ==="
  const UPDATE_DATA_HEADER: string := "=== UPDATED CINEMA DATA ==="
  const UPDATE_DATA_FOOTER: string := "=== END UPDATED DATA ==="
  const BOOKING_UPDATE_PREFIX: string := "BOOKING_UPDATE:\n"

  /**
   * The server's constants are the lines the snapshot writer prints and the
   * client looks for; the client's booking update marker is the server's
   * prefix without its line break.
   */
  lemma ProtocolAgrees()
    ensures CINEMA_DATA_HEADER == CINEMA_DATA_STREAM && CINEMA_DATA_FOOTER == END_CINEMA_DATA
    ensures UPDATE_DATA_HEADER == UPDATED_CINEMA_DATA && UPDATE_DATA_FOOTER == END_UPDATED_DATA
    ensures BOOKING_UPDATE_PREFIX == BOOKING_UPDATE + "\n"
  {
  }

  /** Extending an extension of a log extends the log. */
  lemma PrefixTrans(a: seq<string>, b: seq<string>, c: seq<string>)
    requires a <= b && b <= c
    ensures a <= c
  {
  }

  /** How an `async_read` completes: with a message, because the peer closed the connection, or with another error. */
  datatype ReadResult = Message(text: string) | Closed | Failed

  class Session {
    const server: Server
    /** `message_queue_`: the front of the queue is `queue[0]`. */
    var queue: seq<string>
    /** `writing_`: a write has been started and the queue is being drained. */
    var writing: bool
    /** The strings handed to `async_write`, in order. */
    var transmitted: seq<string>
    /** An `async_write` whose `on_write` has not run yet. */
    var writeInFlight: bool
    /** An `async_read` whose `on_read` has not run yet. */
    var readPending: bool
    /** The `async_accept` of the handshake, whose `on_accept` has not run yet. */
    var handshakePending: bool
    /** The handshake completed without error. */
    var accepted: bool
    /** Every string `send_message` was called with, in order. */
    ghost var submitted: seq<string>
    /** The strings the session sent on its own behalf: the initial snapshot and its replies. */
    ghost var own: seq<string>
    /** A write completed with an error. */
    ghost var writeFailed: bool

    /**
     * The outgoing side: what was transmitted followed by what is queued is
     * exactly what was submitted; at most one write is in flight; when no
     * write is going on the queue is empty; and the flag stays set without a
     * write in flight only after a write error.
     */
    ghost predicate QueueValid()
      reads this
    {
      submitted == transmitted + queue &&
      (writeInFlight ==> writing) &&
      (!writing ==> queue == []) &&
      (writeFailed <==> writing && !writeInFlight)
    }

    /** The incoming side: reading starts only after the handshake, and the session sends nothing of its own before it. */
    ghost predicate LifecycleValid()
      reads this
    {
      (readPending ==> accepted) &&
      (handshakePending ==> !accepted) &&
      (!accepted ==> own == [])
    }

    ghost predicate Valid()
      reads this
    {
      QueueValid() && LifecycleValid()
    }

    /**
     * What the transport has been handed only grows, and nothing more is
     * handed to it once a write has failed: the queued messages of a failed
     * session are never transmitted.
     */
    twostate predicate LogGrows()
      reads this
    {
      old(transmitted) <= transmitted && (old(writeFailed) ==> transmitted == old(transmitted))
    }

    /** A new session has an empty queue and is not writing. */
    constructor(s: Server)
      ensures server == s
      ensures queue == [] && !writing && transmitted == [] && submitted == [] && own == []
      ensures !writeInFlight && !readPending && !handshakePending && !accepted && !writeFailed
      ensures Valid()
    {
      server := s;
      queue, writing, transmitted := [], false, [];
      writeInFlight, readPending, handshakePending, accepted := false, false, false, false;
      submitted, own, writeFailed := [], [], false;
    }

    /**
     * `do_write`: with an empty queue it clears the flag; otherwise it sets
     * the flag and hands exactly the front of the queue to the transport.
     * It is only called when no write is in flight.
     */
    method DoWrite()
      requires submitted == transmitted + queue && !writeInFlight && !writeFailed
      modifies this`queue, this`writing, this`transmitted, this`writeInFlight
      ensures QueueValid()
      ensures old(queue) == [] ==> !writing && queue == [] && transmitted == old(transmitted) && !writeInFlight
      ensures old(queue) != [] ==>
        writing && writeInFlight && queue == old(queue)[1..] && transmitted == old(transmitted) + [old(queue)[0]]
    {
      if |queue| == 0 {
        writing := false;
        return;
      }
      writing := true;
      var message := queue[0];
      queue := queue[1..];
      transmitted := transmitted + [message];
      writeInFlight := true;
    }

    /**
     * `send_message`: the message goes to the back of the queue, and a write
     * starts only when none is going on. After a write error nothing more is
     * transmitted.
     */
    method SendMessage(message: string)
      requires QueueValid()
      modifies this`queue, this`writing, this`transmitted, this`writeInFlight, this`submitted
      ensures QueueValid()
      ensures submitted == old(submitted) + [message]
      ensures old(writing) ==>
        queue == old(queue) + [message] && transmitted == old(transmitted) &&
        writing && writeInFlight == old(writeInFlight)
      ensures !old(writing) ==> queue == [] && transmitted == old(transmitted) + [message] && writing && writeInFlight
      ensures writeFailed ==> transmitted == old(transmitted)
      ensures LogGrows()
    {
      queue := queue + [message];
      submitted := submitted + [message];
      if !writing {
        DoWrite();
      }
    }

    /** `sendBroadcastMessage`: the message is queued like any other. */
    method SendBroadcastMessage(message: string)
      requires QueueValid()
      modifies this`queue, this`writing, this`transmitted, this`writeInFlight, this`submitted
      ensures QueueValid()
      ensures submitted == old(submitted) + [message]
      ensures old(writing) ==>
        queue == old(queue) + [message] && transmitted == old(transmitted) &&
        writing && writeInFlight == old(writeInFlight)
      ensures !old(writing) ==> queue == [] && transmitted == old(transmitted) + [message] && writing && writeInFlight
      ensures LogGrows()
    {
      SendMessage(message);
    }

    /** `do_read`: one `async_read` is started. */
    method DoRead()
      requires !readPending
      modifies this`readPending
      ensures readPending
    {
      readPending := true;
    }

    /** `run`: the session is registered, and only then the handshake starts. */
    method Run()
      requires Valid() && !handshakePending && !accepted
      requires server.Valid()
      modifies this`handshakePending, server`sessions
      ensures Valid() && handshakePending
      ensures server.sessions == old(server.sessions) + {this}
      ensures server.Valid()
    {
      server.AddSession(this);
      handshakePending := true;
    }

    /**
     * `on_accept`: a handshake error unregisters the session; on success the
     * initial snapshot is the first message the session sends on its own,
     * and reading starts only after it is queued.
     */
    method OnAccept(ok: bool)
      requires Valid() && handshakePending && !readPending
      requires server.Valid()
      modifies this`handshakePending, this`readPending, this`accepted,
        this`queue, this`writing, this`transmitted, this`writeInFlight, this`submitted, this`own,
        server`sessions
      ensures Valid() && server.Valid() && !handshakePending
      ensures !ok ==>
        server.sessions == old(server.sessions) - {this} && !readPending && !accepted &&
        submitted == old(submitted) && transmitted == old(transmitted) && queue == old(queue) &&
        writing == old(writing) && writeInFlight == old(writeInFlight) && writeFailed == old(writeFailed) &&
        own == old(own)
      ensures ok ==>
        server.sessions == old(server.sessions) && readPending && accepted &&
        submitted == old(submitted) + [CinemaDataText(old(Views(server.shows)))] &&
        own == [CinemaDataText(old(Views(server.shows)))]
      ensures LogGrows()
    {
      ghost var before := Views(server.shows);
      handshakePending := false;
      if !ok {
        server.RemoveSession(this);
        return;
      }
      SendInitialData(before);
      DoRead();
    }

    /** The success branch of `on_accept`: the snapshot is queued as the session's first message of its own. */
    method SendInitialData(ghost views: seq<ShowView>)
      requires QueueValid() && own == [] && !accepted
      requires server.Valid() && views == Views(server.shows)
      modifies this`queue, this`writing, this`transmitted, this`writeInFlight, this`submitted, this`own, this`accepted
      ensures QueueValid() && accepted
      ensures submitted == old(submitted) + [CinemaDataText(views)]
      ensures own == [CinemaDataText(views)]
      ensures LogGrows()
    {
      var data := server.GetInitialData(views);
      SendMessage(data);
      accepted := true;
      own := [data];
    }

    /**
     * `on_write`: a write error unregisters the session and leaves the rest
     * of the queue untransmitted; otherwise the next queued message is
     * written.
     */
    method OnWrite(ok: bool)
      requires Valid() && writeInFlight
      requires server.Valid()
      modifies this`queue, this`writing, this`transmitted, this`writeInFlight, this`writeFailed, server`sessions
      ensures Valid() && server.Valid()
      ensures !ok ==>
        server.sessions == old(server.sessions) - {this} && writeFailed &&
        queue == old(queue) && transmitted == old(transmitted)
      ensures ok ==> server.sessions == old(server.sessions) && !writeFailed
      ensures ok && old(queue) == [] ==> !writing && transmitted == old(transmitted)
      ensures ok && old(queue) != [] ==> writeInFlight && transmitted == old(transmitted) + [old(queue)[0]]
    {
      writeInFlight := false;
      if !ok {
        writeFailed := true;
        server.RemoveSession(this);
        return;
      }
      DoWrite();
    }

    /**
     * `on_read`: a closed connection or a read error unregisters the session
     * and no new read starts. Otherwise the message is handled, exactly one
     * reply is queued, the update is broadcast when the booking succeeded
     * (so the sender's reply comes before its own copy of the update), and
     * the next read starts.
     */
    method OnRead(r: ReadResult)
      requires Valid() && readPending
      requires server.Valid()
      modifies this`readPending, this`queue, this`writing, this`transmitted, this`writeInFlight, this`submitted, this`own,
        server`sessions, server.shows,
        server.sessions`queue, server.sessions`writing, server.sessions`transmitted,
        server.sessions`writeInFlight, server.sessions`submitted
      ensures Valid() && server.Valid()
      ensures !r.Message? ==>
        server.sessions == old(server.sessions) - {this} && !readPending &&
        submitted == old(submitted) && Views(server.shows) == old(Views(server.shows)) &&
        queue == old(queue) && transmitted == old(transmitted) && writing == old(writing) &&
        writeInFlight == old(writeInFlight) && own == old(own)
      ensures !r.Message? ==>
        forall s :: s in old(server.sessions) && s != this ==>
          s.submitted == old(s.submitted) && s.queue == old(s.queue) && s.transmitted == old(s.transmitted) &&
          s.writing == old(s.writing) && s.writeInFlight == old(s.writeInFlight)
      ensures r.Message? ==>
        var (reply, broadcast, after) := HandleMessageSpec(r.text, old(Views(server.shows)));
        var update := UpdateDataText(after);
        server.sessions == old(server.sessions) && readPending &&
        Views(server.shows) == after &&
        own == old(own) + [reply] &&
        submitted == old(submitted) + [reply] + (if broadcast && this in old(server.sessions) then [update] else []) &&
        (forall s :: s in server.sessions && s != this ==>
           s.submitted == old(s.submitted) + (if broadcast then [update] else []))
      ensures LogGrows()
      ensures forall s :: s in old(server.sessions) && s != this ==> s.LogGrows()
    {
      ghost var before := Views(server.shows);
      readPending := false;
      if !r.Message? {
        Close(before);
      } else {
        Serve(r.text, before);
      }
    }

    /** The error branch of `on_read`: the session leaves the registry and nothing else changes. */
    method Close(ghost views: seq<ShowView>)
      requires Valid() && !readPending && server.Valid() && views == Views(server.shows)
      modifies server`sessions
      ensures Valid() && server.Valid() && !readPending
      ensures server.sessions == old(server.sessions) - {this} && Views(server.shows) == views
    {
      server.RemoveSession(this);
    }

    /** The message branch of `on_read`: the reply and the broadcast of `Respond`, then the next read. */
    method Serve(text: string, ghost views: seq<ShowView>)
      requires Valid() && accepted && !readPending
      requires server.Valid() && views == Views(server.shows)
      modifies this`readPending, this`queue, this`writing, this`transmitted, this`writeInFlight, this`submitted, this`own,
        server.shows,
        server.sessions`queue, server.sessions`writing, server.sessions`transmitted,
        server.sessions`writeInFlight, server.sessions`submitted
      ensures Valid() && server.Valid() && readPending
      ensures var (reply, broadcast, after) := HandleMessageSpec(text, views);
        var update := UpdateDataText(after);
        Views(server.shows) == after &&
        own == old(own) + [reply] &&
        submitted == old(submitted) + [reply] + (if broadcast && this in server.sessions then [update] else []) &&
        (forall s :: s in server.sessions && s != this ==>
           s.submitted == old(s.submitted) + (if broadcast then [update] else []))
      ensures LogGrows()
      ensures forall s :: s in server.sessions && s != this ==> s.LogGrows()
    {
      var reply, shouldBroadcast := Respond(text, views);
      DoRead();
    }

    /** The message branch of `on_read`: handle the message, queue the reply, broadcast when asked to. */
    method Respond(text: string, ghost views: seq<ShowView>) returns (reply: string, shouldBroadcast: bool)
      requires Valid() && accepted && !readPending
      requires server.Valid() && views == Views(server.shows)
      modifies this`queue, this`writing, this`transmitted, this`writeInFlight, this`submitted, this`own, server.shows,
        server.sessions`queue, server.sessions`writing, server.sessions`transmitted,
        server.sessions`writeInFlight, server.sessions`submitted
      ensures Valid() && server.Valid() && accepted && !readPending
      ensures (reply, shouldBroadcast, Views(server.shows)) == HandleMessageSpec(text, views)
      ensures own == old(own) + [reply]
      ensures var update := UpdateDataText(Views(server.shows));
        submitted == old(submitted) + [reply] + (if shouldBroadcast && this in server.sessions then [update] else []) &&
        (forall s :: s in server.sessions && s != this ==>
           s.submitted == old(s.submitted) + (if shouldBroadcast then [update] else []))
      ensures LogGrows()
      ensures forall s :: s in server.sessions && s != this ==> s.LogGrows()
    {
      reply, shouldBroadcast := Reply(text, views);
      if shouldBroadcast {
        ghost var replied := transmitted;
        PassOn(Views(server.shows));
        PrefixTrans(old(transmitted), replied, transmitted);
      }
    }

    /** A mutating command's broadcast: every registered session, this one included, queues the update. */
    method PassOn(ghost views: seq<ShowView>)
      requires Valid() && accepted && !readPending && server.Valid() && views == Views(server.shows)
      modifies server.sessions`queue, server.sessions`writing, server.sessions`transmitted,
        server.sessions`writeInFlight, server.sessions`submitted
      ensures Valid() && server.Valid() && accepted && !readPending && Views(server.shows) == views
      ensures var update := UpdateDataText(views);
        submitted == old(submitted) + (if this in server.sessions then [update] else []) &&
        (forall s :: s in server.sessions && s != this ==> s.submitted == old(s.submitted) + [update])
      ensures LogGrows()
      ensures forall s :: s in server.sessions && s != this ==> s.LogGrows()
    {
      server.BroadcastUpdate(views);
    }

    /** Handles the message and queues exactly one reply, `handleMessage`'s answer. */
    method Reply(text: string, ghost views: seq<ShowView>) returns (reply: string, shouldBroadcast: bool)
      requires Valid() && accepted && !readPending
      requires server.Valid() && views == Views(server.shows)
      modifies this`queue, this`writing, this`transmitted, this`writeInFlight, this`submitted, this`own, server.shows
      ensures Valid() && server.Valid() && accepted && !readPending
      ensures (reply, shouldBroadcast, Views(server.shows)) == HandleMessageSpec(text, views)
      ensures own == old(own) + [reply]
      ensures submitted == old(submitted) + [reply]
      ensures LogGrows()
    {
      reply, shouldBroadcast := server.HandleMessage(text, views);
      SendReply(reply);
    }

    /** A reply is queued like any message and is one more message the session sent on its own. */
    method SendReply(reply: string)
      requires Valid() && accepted
      modifies this`queue, this`writing, this`transmitted, this`writeInFlight, this`submitted, this`own
      ensures Valid()
      ensures own == old(own) + [reply]
      ensures submitted == old(submitted) + [reply]
      ensures LogGrows()
    {
      SendMessage(reply);
      own := own + [reply];
    }
  }

  class Server {
    /** `sessions_`: the registered sessions. */
    var sessions: set<Session>
    /** The shows the callbacks of `main` work on. */
    const shows: seq<Shows>
    /** An `async_accept` whose `on_accept` has not run yet. */
    var acceptPending: bool

    ghost predicate Valid()
      reads this, sessions, shows
    {
      ShowsValid(shows) &&
      forall s :: s in sessions ==> s.server == this && s.Valid()
    }

    /** A server starts with no sessions and is not yet accepting. */
    constructor(theShows: seq<Shows>)
      requires ShowsValid(theShows)
      ensures shows == theShows && sessions == {} && !acceptPending
      ensures Valid()
    {
      shows := theShows;
      sessions := {};
      acceptPending := false;
    }

    /** `run` and `do_accept`: one `async_accept` is started. */
    method Run()
      modifies this`acceptPending
      ensures acceptPending
    {
      acceptPending := true;
    }

    /** `on_accept`: a connection becomes a new session that runs; whatever happened, accepting is re-armed. */
    method OnAccept(ok: bool)
      requires Valid() && acceptPending
      modifies this`sessions, this`acceptPending
      ensures Valid() && acceptPending
      ensures !ok ==> sessions == old(sessions)
      ensures ok ==> exists s: Session :: fresh(s) && sessions == old(sessions) + {s} && s.handshakePending && s.own == []
    {
      if ok {
        var s := new Session(this);
        s.Run();
      }
      acceptPending := true;
    }

    /** `addSession`: set insertion, so adding twice registers once. */
    method AddSession(s: Session)
      requires Valid() && s.server == this && s.Valid()
      modifies this`sessions
      ensures Valid()
      ensures sessions == old(sessions) + {s}
    {
      sessions := sessions + {s};
    }

    /** `removeSession`: set erasure, so removing an absent session changes nothing. */
    method RemoveSession(s: Session)
      requires Valid()
      modifies this`sessions
      ensures Valid()
      ensures sessions == old(sessions) - {s}
    {
      sessions := sessions - {s};
    }

    /**
     * `broadcastUpdate`: the update text is made once and queued, identical,
     * on every registered session; nothing else changes.
     */
    method BroadcastUpdate(ghost views: seq<ShowView>)
      requires Valid() && views == Views(shows)
      modifies sessions`queue, sessions`writing, sessions`transmitted, sessions`writeInFlight, sessions`submitted
      ensures Valid()
      ensures forall s :: s in sessions ==> s.submitted == old(s.submitted) + [UpdateDataText(views)]
      ensures forall s :: s in sessions ==> s.LogGrows()
      ensures unchanged(shows)
    {
      var update := FormatUpdateData(shows);
      SendToAll(sessions, update);
    }

    /** The loop of `broadcastUpdate`: `sendBroadcastMessage` on each session of the set. */
    static method SendToAll(targets: set<Session>, update: string)
      requires forall s :: s in targets ==> s.Valid()
      modifies targets`queue, targets`writing, targets`transmitted, targets`writeInFlight, targets`submitted
      ensures forall s :: s in targets ==> s.Valid() && s.submitted == old(s.submitted) + [update]
      ensures forall s :: s in targets ==> s.LogGrows()
    {
      var todo := targets;
      while todo != {}
        invariant todo <= targets
        invariant forall s :: s in targets ==> s.Valid()
        invariant forall s :: s in targets - todo ==> s.submitted == old(s.submitted) + [update]
        invariant forall s :: s in todo ==> s.submitted == old(s.submitted)
        invariant forall s :: s in targets ==> s.LogGrows()
        decreases todo
      {
        var s :| s in todo;
        s.SendBroadcastMessage(update);
        assert s.LifecycleValid();
        todo := todo - {s};
      }
    }

    /** `handleMessage`: the message callback of `main`, which runs `MessageHandler::handleMessage` on the shows. */
    method HandleMessage(message: string, ghost views: seq<ShowView>) returns (response: string, shouldBroadcast: bool)
      requires Valid() && views == Views(shows)
      modifies shows
      ensures Valid()
      ensures (response, shouldBroadcast, Views(shows)) == HandleMessageSpec(message, views)
    {
      response, shouldBroadcast := Booking.HandleMessage(message, shows);
    }

    /** `getInitialData`: the initial-data callback of `main`, the snapshot of the shows. */
    method GetInitialData(ghost views: seq<ShowView>) returns (data: string)
      requires Valid() && views == Views(shows)
      ensures data == CinemaDataText(views)
    {
      data := FormatCinemaData(shows);
    }
  }
}

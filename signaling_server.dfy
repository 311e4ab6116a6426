/**
 * The signaling server's stream registry: the `streams` map keyed by stream
 * id, the per-socket session (`socket.streamId`, `socket.role`) and the
 * Socket.IO handlers that change them (`register-streamer`,
 * `register-viewer`, `stats-update`, `disconnect`), plus the pure rewrite
 * done by the `offer`/`answer`/`ice-candidate` relay.
 *
 * Sockets are identified by their ids. The connected-socket table that
 * Socket.IO keeps (`io.sockets.sockets`) is a field maintained by
 * `Connect` and `Disconnect`; every message the server emits is appended to
 * `emitted`. The clock is an input: `now` (ms since the epoch) for the
 * generated stream id and `createdAt` (its ISO text) for the record.
 * An absent `streamId`, `name` or `resolution` is the empty string.
 */
module Signaling {
  import opened Assoc
  import opened Text

  /** A value inside a stream's `stats` object. */
  datatype Value = Num(n: real) | Str(s: string)

  type Stats = map<string, Value>

  /** One entry of the `streams` map. */
  datatype Stream = Stream(
    id: string,
    name: string,
    socketId: string,
    status: string,
    viewers: int,
    createdAt: string,
    stats: Stats)

  type Streams = Dict<string, Stream>

  /** `socket.role`; `NoRole` until the socket registers. */
  datatype Role = NoRole | StreamerRole | ViewerRole

  /** What the server has attached to a socket. */
  datatype Session = Session(streamId: string, role: Role)

  type Sockets = Dict<string, Session>

  /** The `register-streamer` payload. */
  datatype StreamerRequest = StreamerRequest(streamId: string, name: string, resolution: string)

  datatype Message =
    | StreamerRegistered(streamId: string, viewerUrl: string)
    | ViewerRegistered(streamId: string, streamerSocketId: string)
    | ErrorMessage(message: string)
    | StreamsUpdated(streams: seq<Stream>)

  /** `socket.emit` (to one socket) or `io.emit` (to every socket). */
  datatype Emission = ToSocket(socketId: string, message: Message) | Broadcast(message: Message)

  /**
   * The registry invariant: one entry per id, each stored under its own
   * id, and no negative viewer count.
   */
  ghost predicate WellFormed(streams: Streams) {
    && Distinct(streams)
    && forall p :: p in streams ==> p.0 == p.1.id && p.1.viewers >= 0
  }

  /** `data.streamId || \`stream-${Date.now()}\``. */
  function StreamIdFor(req: StreamerRequest, now: nat): string {
    if req.streamId != "" then req.streamId else "stream-" + NatToString(now)
  }

  /** The record `register-streamer` stores, given how many streams exist already. */
  function NewStream(socketId: string, req: StreamerRequest, now: nat, createdAt: string, count: nat): Stream {
    Stream(
      StreamIdFor(req, now),
      if req.name != "" then req.name else "Camera " + NatToString(count + 1),
      socketId,
      "active",
      0,
      createdAt,
      map["bitrate" := Num(0.0), "fps" := Num(0.0),
          "resolution" := Str(if req.resolution != "" then req.resolution else "unknown")])
  }

  /** The map after `register-streamer`: the new record replaces any record with the same id. */
  function AfterRegisterStreamer(streams: Streams, socketId: string, req: StreamerRequest, now: nat, createdAt: string): Streams {
    Set(streams, StreamIdFor(req, now), NewStream(socketId, req, now, createdAt, |streams|))
  }

  /** The map after `register-viewer`: a known stream gains a viewer; an unknown id changes nothing. */
  function AfterViewerJoins(streams: Streams, streamId: string): Streams {
    match Get(streams, streamId)
    case None => streams
    case Some(stream) => Set(streams, streamId, stream.(viewers := stream.viewers + 1))
  }

  /** The map after `stats-update`: the payload is merged over the caller's stream's stats. */
  function AfterStatsUpdate(streams: Streams, streamId: string, data: Stats): Streams {
    if streamId == "" then streams
    else match Get(streams, streamId)
      case None => streams
      case Some(stream) => Set(streams, streamId, stream.(stats := stream.stats + data))
  }

  /**
   * The map after `disconnect`: a streamer's stream is deleted, a viewer's
   * stream loses a viewer but never goes below 0.
   */
  function AfterDisconnect(streams: Streams, session: Session): Streams {
    if session.streamId == "" then streams
    else if session.role == StreamerRole then Remove(streams, session.streamId)
    else if session.role == ViewerRole then
      match Get(streams, session.streamId)
      case None => streams
      case Some(stream) =>
        var viewers := if 0 >= stream.viewers - 1 then 0 else stream.viewers - 1;
        Set(streams, session.streamId, stream.(viewers := viewers))
    else streams
  }

  /** The position of the first socket registered as the streamer of `streamId`. */
  function FirstStreamer(sockets: Sockets, streamId: string): (r: Option<nat>)
    ensures r.Some? ==> r.value < |sockets| && sockets[r.value].1 == Session(streamId, StreamerRole)
    ensures r.Some? ==> forall i :: 0 <= i < r.value ==> sockets[i].1 != Session(streamId, StreamerRole)
    ensures r.None? <==> forall i :: 0 <= i < |sockets| ==> sockets[i].1 != Session(streamId, StreamerRole)
  {
    if sockets == [] then None
    else if sockets[0].1 == Session(streamId, StreamerRole) then Some(0)
    else match FirstStreamer(sockets[1..], streamId)
      case None => None
      case Some(i) => Some(i + 1)
  }

  /** A stream found in a well-formed registry has a non-negative viewer count. */
  lemma StoredEntry(streams: Streams, streamId: string)
    requires WellFormed(streams)
    ensures Get(streams, streamId).Some? ==> Get(streams, streamId).value.id == streamId && Get(streams, streamId).value.viewers >= 0
  {
    if Get(streams, streamId).Some? {
      var i :| 0 <= i < |streams| && streams[i].0 == streamId;
      assert streams[i] in streams;
    }
  }

  /**
   * What `register-viewer` tells a viewer of a known stream: the socket of
   * the stream's first registered streamer, or an error when there is none.
   */
  function StreamerReply(sockets: Sockets, socketId: string, streamId: string): Emission {
    match FirstStreamer(sockets, streamId)
    case Some(i) => ToSocket(socketId, ViewerRegistered(streamId, sockets[i].0))
    case None => ToSocket(socketId, ErrorMessage("Streamer not found"))
  }

  /** What `register-streamer` stores: the given or generated id, 0 viewers, status active, default stats. */
  lemma RegisterStreamerStores(streams: Streams, socketId: string, req: StreamerRequest, now: nat, createdAt: string)
    requires WellFormed(streams)
    ensures var after := AfterRegisterStreamer(streams, socketId, req, now, createdAt);
      var id := StreamIdFor(req, now);
      && WellFormed(after)
      && Get(after, id).Some?
      && Get(after, id).value.id == id
      && Get(after, id).value.socketId == socketId
      && Get(after, id).value.status == "active"
      && Get(after, id).value.viewers == 0
      && Get(after, id).value.stats["bitrate"] == Num(0.0)
      && Get(after, id).value.stats["fps"] == Num(0.0)
      && (forall x :: x != id ==> Get(after, x) == Get(streams, x))
  {
    var id := StreamIdFor(req, now);
    SetEntries(streams, id, NewStream(socketId, req, now, createdAt, |streams|));
  }

  /**
   * The list `streams-updated` carries after `register-streamer`: a new id's
   * record comes last, after every earlier stream in its order; a known id's
   * record is replaced where it stands and every other stream keeps its place.
   */
  lemma RegisterStreamerListOrder(streams: Streams, socketId: string, req: StreamerRequest, now: nat, createdAt: string)
    ensures var id := StreamIdFor(req, now);
      var rec := NewStream(socketId, req, now, createdAt, |streams|);
      var listed := Values(AfterRegisterStreamer(streams, socketId, req, now, createdAt));
      && (!Has(streams, id) ==> listed == Values(streams) + [rec])
      && (Has(streams, id) ==> |listed| == |streams| && listed[Find(streams, id).value] == rec)
      && (Has(streams, id) ==> forall i :: 0 <= i < |streams| && i != Find(streams, id).value ==> listed[i] == streams[i].1)
  {
    var id := StreamIdFor(req, now);
    var rec := NewStream(socketId, req, now, createdAt, |streams|);
    if !Has(streams, id) {
      assert Values(streams + [(id, rec)]) == Values(streams) + [rec];
    }
  }

  /** The generated id `stream-<now>` is used exactly when no id is given (its digits read back as `now`), and the default name counts the streams already known. */
  lemma RegisterStreamerDefaults(socketId: string, req: StreamerRequest, now: nat, createdAt: string, count: nat)
    ensures req.streamId == "" ==> StreamIdFor(req, now) == "stream-" + NatToString(now)
    ensures req.streamId == "" ==> StartsWith(StreamIdFor(req, now), "stream-")
    ensures req.streamId == "" ==> AllDigits(StreamIdFor(req, now)[7..]) && ParseNat(StreamIdFor(req, now)[7..]) == now
    ensures req.streamId != "" ==> StreamIdFor(req, now) == req.streamId
    ensures req.name == "" ==> NewStream(socketId, req, now, createdAt, count).name == "Camera " + NatToString(count + 1)
    ensures req.resolution == "" ==> NewStream(socketId, req, now, createdAt, count).stats["resolution"] == Str("unknown")
  {
    if req.streamId == "" {
      assert ("stream-" + NatToString(now))[..7] == "stream-";
      assert ("stream-" + NatToString(now))[7..] == NatToString(now);
      ParseNatToString(now);
    }
  }

  /** Two streamers registering without ids at different times get different ids. */
  lemma GeneratedIdsDiffer(req: StreamerRequest, now1: nat, now2: nat)
    requires req.streamId == "" && now1 != now2
    ensures StreamIdFor(req, now1) != StreamIdFor(req, now2)
  {
    if StreamIdFor(req, now1) == StreamIdFor(req, now2) {
      var a := NatToString(now1);
      var b := NatToString(now2);
      assert ("stream-" + a)[7..] == a;
      assert ("stream-" + b)[7..] == b;
      NatToStringInjective(now1, now2);
    }
  }

  /**
   * A viewer joining a known stream raises its count by exactly one and
   * leaves every other entry alone; an unknown stream leaves the map as it is.
   */
  lemma ViewerJoinCountsOne(streams: Streams, streamId: string)
    requires WellFormed(streams)
    ensures var after := AfterViewerJoins(streams, streamId);
      && WellFormed(after)
      && (Get(streams, streamId).None? ==> after == streams)
      && (Get(streams, streamId).Some? ==>
            Get(after, streamId) == Some(Get(streams, streamId).value.(viewers := Get(streams, streamId).value.viewers + 1)))
      && (forall x :: x != streamId ==> Get(after, x) == Get(streams, x))
  {
    match Get(streams, streamId)
    case None =>
    case Some(stream) =>
      var i :| 0 <= i < |streams| && streams[i].0 == streamId;
      assert streams[i] in streams;
      SetEntries(streams, streamId, stream.(viewers := stream.viewers + 1));
  }

  /**
   * `stats-update` merges the payload over the stats of the caller's
   * stream, payload keys winning, and changes nothing else; a caller with
   * no stream or an unknown one changes nothing.
   */
  lemma StatsUpdateMerges(streams: Streams, streamId: string, data: Stats)
    requires WellFormed(streams)
    ensures var after := AfterStatsUpdate(streams, streamId, data);
      && WellFormed(after)
      && (streamId == "" || Get(streams, streamId).None? ==> after == streams)
      && (streamId != "" && Get(streams, streamId).Some? ==>
            var old_ := Get(streams, streamId).value;
            && Get(after, streamId).Some?
            && Get(after, streamId).value.viewers == old_.viewers
            && (forall key :: key in data ==> Get(after, streamId).value.stats[key] == data[key])
            && (forall key :: key in old_.stats && key !in data ==> Get(after, streamId).value.stats[key] == old_.stats[key])
            && Get(after, streamId).value.stats.Keys == old_.stats.Keys + data.Keys)
      && (forall x :: x != streamId ==> Get(after, x) == Get(streams, x))
  {
    if streamId != "" {
      match Get(streams, streamId)
      case None =>
      case Some(stream) =>
        var i :| 0 <= i < |streams| && streams[i].0 == streamId;
        assert streams[i] in streams;
        SetEntries(streams, streamId, stream.(stats := stream.stats + data));
    }
  }

  /**
   * `disconnect` deletes a streamer's stream, takes one viewer off a
   * viewer's stream without going below 0, and touches no other entry;
   * so the registry invariant, and with it `viewers >= 0`, is kept.
   */
  lemma DisconnectKeepsInvariant(streams: Streams, session: Session)
    requires WellFormed(streams)
    ensures var after := AfterDisconnect(streams, session);
      && WellFormed(after)
      && (session.streamId != "" && session.role == StreamerRole ==> Get(after, session.streamId).None?)
      && (session.streamId != "" && session.role == ViewerRole && Get(streams, session.streamId).Some? ==>
            var v := Get(streams, session.streamId).value.viewers;
            Get(after, session.streamId).value.viewers == (if v >= 1 then v - 1 else 0))
      && (session.streamId == "" || session.role == NoRole ==> after == streams)
      && (forall x :: x != session.streamId ==> Get(after, x) == Get(streams, x))
  {
    if session.streamId != "" {
      if session.role == StreamerRole {
        StreamerLeaves(streams, session.streamId);
      } else if session.role == ViewerRole {
        match Get(streams, session.streamId)
        case None =>
        case Some(stream) =>
          ViewerLeaves(streams, session.streamId, stream);
      }
    }
  }

  /** The four outcomes of `disconnect` for the registry, one per kind of session. */
  lemma DisconnectCases(streams: Streams, session: Session)
    ensures session.streamId == "" ==> AfterDisconnect(streams, session) == streams
    ensures session.streamId != "" && session.role == StreamerRole ==>
      AfterDisconnect(streams, session) == Remove(streams, session.streamId)
    ensures session.streamId != "" && session.role == ViewerRole && Get(streams, session.streamId).Some? ==>
      var stream := Get(streams, session.streamId).value;
      AfterDisconnect(streams, session) == Set(streams, session.streamId, stream.(viewers := if 0 >= stream.viewers - 1 then 0 else stream.viewers - 1))
    ensures session.streamId != "" && session.role != StreamerRole && (session.role != ViewerRole || Get(streams, session.streamId).None?) ==>
      AfterDisconnect(streams, session) == streams
  {
  }

  /** Dropping a stream's record keeps the registry well formed and touches no other stream. */
  lemma StreamerLeaves(streams: Streams, streamId: string)
    requires WellFormed(streams)
    ensures var after := Remove(streams, streamId);
      && WellFormed(after)
      && Get(after, streamId).None?
      && (forall x :: x != streamId ==> Get(after, x) == Get(streams, x))
  {
    RemoveEntries(streams, streamId);
  }

  /** Lowering a stored stream's count, never below zero, keeps the registry well formed. */
  lemma ViewerLeaves(streams: Streams, streamId: string, stream: Stream)
    requires WellFormed(streams) && Get(streams, streamId) == Some(stream)
    ensures var viewers := if 0 >= stream.viewers - 1 then 0 else stream.viewers - 1;
      var after := Set(streams, streamId, stream.(viewers := viewers));
      && WellFormed(after)
      && Get(after, streamId).value.viewers == viewers
      && (forall x :: x != streamId ==> Get(after, x) == Get(streams, x))
  {
    StoredEntry(streams, streamId);
    var viewers := if 0 >= stream.viewers - 1 then 0 else stream.viewers - 1;
    SetEntries(streams, streamId, stream.(viewers := viewers));
  }

  /** A viewer joining a known stream rewrites that one record with one more viewer. */
  lemma JoinIsOneMore(streams: Streams, streamId: string, stream: Stream)
    requires Get(streams, streamId) == Some(stream)
    ensures AfterViewerJoins(streams, streamId) == Set(streams, streamId, stream.(viewers := stream.viewers + 1))
  {
  }

  /** A viewer leaving a stream that has a viewer rewrites that one record with one fewer. */
  lemma LeaveIsOneFewer(streams: Streams, streamId: string, stream: Stream)
    requires streamId != "" && Get(streams, streamId) == Some(stream) && stream.viewers >= 1
    ensures AfterDisconnect(streams, Session(streamId, ViewerRole)) == Set(streams, streamId, stream.(viewers := stream.viewers - 1))
  {
  }

  /** A viewer that joins and leaves again leaves the registry exactly as it found it. */
  lemma ViewerJoinThenLeaveRestores(streams: Streams, streamId: string)
    requires WellFormed(streams) && streamId != ""
    ensures AfterDisconnect(AfterViewerJoins(streams, streamId), Session(streamId, ViewerRole)) == streams
  {
    match Get(streams, streamId)
    case None =>
    case Some(stream) =>
      StoredEntry(streams, streamId);
      var joined := stream.(viewers := stream.viewers + 1);
      var afterJoin := Set(streams, streamId, joined);
      JoinIsOneMore(streams, streamId, stream);
      LeaveIsOneFewer(afterJoin, streamId, joined);
      assert joined.(viewers := joined.viewers - 1) == stream;
      SetBack(streams, streamId, stream, joined);
  }

  /** A streamer that registers and then disconnects leaves no trace of its id. */
  lemma RegisterThenDisconnectForgets(streams: Streams, socketId: string, req: StreamerRequest, now: nat, createdAt: string)
    requires StreamIdFor(req, now) != ""
    ensures AfterDisconnect(AfterRegisterStreamer(streams, socketId, req, now, createdAt),
                            Session(StreamIdFor(req, now), StreamerRole))
         == Remove(streams, StreamIdFor(req, now))
  {
    RemoveAfterSet(streams, StreamIdFor(req, now), NewStream(socketId, req, now, createdAt, |streams|));
  }

  /** A relayed signaling message as the sender sends it; payloads are opaque. */
  datatype SignalIn =
    | OfferIn(to: string, offer: string, streamId: string)
    | AnswerIn(to: string, answer: string)
    | IceCandidateIn(to: string, candidate: string)

  /** The same message as the recipient receives it. */
  datatype SignalOut =
    | OfferOut(from: string, offer: string, streamId: string)
    | AnswerOut(from: string, answer: string)
    | IceCandidateOut(from: string, candidate: string)

  datatype Delivery = Delivery(to: string, event: SignalOut)

  /** The relay handlers: address the message to `to` and stamp it with the sender. */
  function Relay(sender: string, m: SignalIn): Delivery {
    match m
    case OfferIn(to, offer, streamId) => Delivery(to, OfferOut(sender, offer, streamId))
    case AnswerIn(to, answer) => Delivery(to, AnswerOut(sender, answer))
    case IceCandidateIn(to, candidate) => Delivery(to, IceCandidateOut(sender, candidate))
  }

  /** What the recipient can reconstruct: the message the sender sent. */
  function Unrelay(d: Delivery): SignalIn {
    match d.event
    case OfferOut(_, offer, streamId) => OfferIn(d.to, offer, streamId)
    case AnswerOut(_, answer) => AnswerIn(d.to, answer)
    case IceCandidateOut(_, candidate) => IceCandidateIn(d.to, candidate)
  }

  /**
   * The relay loses nothing: the delivery goes to the addressee, carries
   * the sender's id, and its kind and payload give back the original message.
   */
  lemma RelayRoundTrip(sender: string, m: SignalIn)
    ensures Relay(sender, m).to == m.to
    ensures Relay(sender, m).event.from == sender
    ensures Unrelay(Relay(sender, m)) == m
  {
  }

  /** Conversely, every delivery is the relay of the message it reconstructs, from its stamped sender. */
  lemma UnrelayRoundTrip(d: Delivery)
    ensures Relay(d.event.from, Unrelay(d)) == d
  {
  }

  class SignalingServer {
    var streams: Streams
    /** `io.sockets.sockets` with each socket's session, in connection order. */
    var sockets: Sockets
    /** Every message emitted, oldest first. */
    var emitted: seq<Emission>
    /** The plain-HTTP base URL handed out in viewer links. */
    const httpUrl: string

    ghost predicate Valid()
      reads this
    {
      WellFormed(streams) && Distinct(sockets)
    }

    constructor (httpUrl: string)
      ensures Valid()
      ensures this.httpUrl == httpUrl && streams == [] && sockets == [] && emitted == []
    {
      this.httpUrl := httpUrl;
      streams := [];
      sockets := [];
      emitted := [];
    }

    /** The current stream list as broadcast to every client. */
    function Update(): Emission
      reads this
    {
      Broadcast(StreamsUpdated(Values(streams)))
    }

    /** A client connects: Socket.IO adds its socket with no session yet. */
    method Connect(socketId: string)
      requires Valid()
      modifies this`sockets
      ensures Valid()
      ensures sockets == Set(old(sockets), socketId, Session("", NoRole))
    {
      sockets := Set(sockets, socketId, Session("", NoRole));
    }

    /** The `register-streamer` handler. */
    method RegisterStreamer(socketId: string, req: StreamerRequest, now: nat, createdAt: string)
      requires Valid()
      modifies this`streams, this`sockets, this`emitted
      ensures Valid()
      ensures streams == AfterRegisterStreamer(old(streams), socketId, req, now, createdAt)
      ensures sockets == Set(old(sockets), socketId, Session(StreamIdFor(req, now), StreamerRole))
      ensures emitted == old(emitted) + [
        ToSocket(socketId, StreamerRegistered(StreamIdFor(req, now), httpUrl + "/viewer?stream=" + StreamIdFor(req, now))),
        Update()]
    {
      var streamId := if req.streamId != "" then req.streamId else "stream-" + NatToString(now);
      var stream := Stream(
        streamId,
        if req.name != "" then req.name else "Camera " + NatToString(|streams| + 1),
        socketId,
        "active",
        0,
        createdAt,
        map["bitrate" := Num(0.0), "fps" := Num(0.0),
            "resolution" := Str(if req.resolution != "" then req.resolution else "unknown")]);
      RegisterStreamerStores(streams, socketId, req, now, createdAt);
      streams := Set(streams, streamId, stream);
      sockets := Set(sockets, socketId, Session(streamId, StreamerRole));
      emitted := emitted + [
        ToSocket(socketId, StreamerRegistered(streamId, httpUrl + "/viewer?stream=" + streamId)),
        Broadcast(StreamsUpdated(Values(streams)))];
    }

    /** The `register-viewer` handler. */
    method RegisterViewer(socketId: string, streamId: string)
      requires Valid()
      modifies this`streams, this`sockets, this`emitted
      ensures Valid()
      ensures streams == AfterViewerJoins(old(streams), streamId)
      ensures sockets == Set(old(sockets), socketId, Session(streamId, ViewerRole))
      ensures Get(old(streams), streamId).None? ==> emitted == old(emitted) + [ToSocket(socketId, ErrorMessage("Stream not found"))]
      ensures Get(old(streams), streamId).Some? ==> emitted == old(emitted) + [StreamerReply(sockets, socketId, streamId), Update()]
    {
      sockets := Set(sockets, socketId, Session(streamId, ViewerRole));
      assert WellFormed(AfterViewerJoins(streams, streamId)) by {
        ViewerJoinCountsOne(streams, streamId);
      }
      var found := Get(streams, streamId);
      if found.Some? {
        var stream := found.value;
        JoinIsOneMore(streams, streamId, stream);
        streams := Set(streams, streamId, stream.(viewers := stream.viewers + 1));
        var streamer := FirstStreamer(sockets, streamId);
        var reply;
        if streamer.Some? {
          reply := ToSocket(socketId, ViewerRegistered(streamId, sockets[streamer.value].0));
        } else {
          reply := ToSocket(socketId, ErrorMessage("Streamer not found"));
        }
        assert reply == StreamerReply(sockets, socketId, streamId);
        emitted := emitted + [reply, Broadcast(StreamsUpdated(Values(streams)))];
      } else {
        emitted := emitted + [ToSocket(socketId, ErrorMessage("Stream not found"))];
      }
    }

    /** The `stats-update` handler; a socket unknown to the server has no stream. */
    method StatsUpdate(socketId: string, data: Stats)
      requires Valid()
      modifies this`streams, this`emitted
      ensures Valid()
      ensures var session := Get(sockets, socketId);
        var streamId := if session.Some? then session.value.streamId else "";
        && streams == AfterStatsUpdate(old(streams), streamId, data)
        && emitted == old(emitted) + if streamId != "" && Has(old(streams), streamId) then [Update()] else []
    {
      var session := Get(sockets, socketId);
      var streamId := if session.Some? then session.value.streamId else "";
      StatsUpdateMerges(streams, streamId, data);
      if streamId != "" && Has(streams, streamId) {
        var stream := Get(streams, streamId).value;
        streams := Set(streams, streamId, stream.(stats := stream.stats + data));
        emitted := emitted + [Broadcast(StreamsUpdated(Values(streams)))];
      }
    }

    /** The `disconnect` handler, followed by Socket.IO forgetting the socket. */
    method Disconnect(socketId: string)
      requires Valid()
      modifies this`streams, this`sockets, this`emitted
      ensures Valid()
      ensures var session := if Get(old(sockets), socketId).Some? then Get(old(sockets), socketId).value else Session("", NoRole);
        && streams == AfterDisconnect(old(streams), session)
        && emitted == old(emitted) + if session.streamId != "" then [Update()] else []
      ensures sockets == Remove(old(sockets), socketId)
    {
      var found := Get(sockets, socketId);
      var session := if found.Some? then found.value else Session("", NoRole);
      ghost var after := AfterDisconnect(streams, session);
      assert WellFormed(after) by {
        DisconnectKeepsInvariant(streams, session);
      }
      DisconnectCases(streams, session);
      if session.streamId != "" {
        var stream := Get(streams, session.streamId);
        if session.role == StreamerRole {
          streams := Remove(streams, session.streamId);
        } else if session.role == ViewerRole && stream.Some? {
          var viewers := if 0 >= stream.value.viewers - 1 then 0 else stream.value.viewers - 1;
          streams := Set(streams, session.streamId, stream.value.(viewers := viewers));
        }
        assert streams == after;
        emitted := emitted + [Broadcast(StreamsUpdated(Values(streams)))];
      }
      assert WellFormed(streams);
      sockets := Remove(sockets, socketId);
    }
  }
}

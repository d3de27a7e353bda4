/**
 The Incremental Bazel Protocol as a composed system: the server, the client and a FIFO queue in each
 direction.  A version and capabilities are negotiated first; then the server sends one cycle at a
 time and waits for the client's consumer to finish it.
 */
module Ibp {
  import opened Wrappers
  import opened IbpWire

  /** The versions each end supports, the server's in order of preference, and the requested capabilities. */
  datatype Config = Config(offered: seq<int>, supported: seq<int>, requested: Caps)

  datatype Message =
    | Negotiate(versions: seq<Json>)
    | NegotiateResponse(version: Json)
    | CapsRequest(caps: Json)
    | CapsResponse(caps: Json)
    | Cyclic(event: CycleEvent)
    | Exit(description: string)
    | CycleStarted(id: int)
    | CycleCompleted(id: int)
    | CycleFailed(id: int)
    | CycleAborted(id: int)

  /** Everything ever sent in one direction, and how much of it has been received. */
  datatype Channel = Channel(sent: seq<Message>, read: nat)

  datatype Failure = ConnectionLost | NoCommonVersion | CapsUnsupported | BadCapsRequested | ProtocolError

  datatype Server =
    | Listening
    | AwaitVersion
    | AwaitCaps(version: int)
    | Ready(version: int, caps: Option<Caps>)
    | AwaitResponse(version: int, caps: Option<Caps>, id: int)
    | ServerFailed(was: Server, reason: Failure)

  datatype Client =
    | AwaitNegotiate
    | Negotiated(version: int)
    | AwaitCapsResponse(version: int)
    | Connected(version: int, caps: Option<Caps>)
    | Consuming(version: int, caps: Option<Caps>, event: CycleEvent)
    | Stopped(version: int, caps: Option<Caps>)
    | ClientFailed(was: Client, reason: Failure)

  /**
   counter is the server's 32-bit cycle counter and calls the number of cycles started.  The last
   three record the events handed to the client's consumer, the events it has finished, and the
   cycles whose server call returned because of a CYCLE_COMPLETED.
   */
  datatype State = State(
    server: Server,
    client: Client,
    toClient: Channel,
    toServer: Channel,
    counter: int,
    calls: nat,
    seen: seq<CycleEvent>,
    finished: seq<int>,
    returned: seq<int>
  )

  const INITIAL := State(Listening, AwaitNegotiate, Channel([], 0), Channel([], 0), 0, 0, [], [], [])

  datatype Call = CallCycle(scope: string, changes: Sources) | CallReset | CallExit(description: string)

  datatype Action =
    | ServerAccepts
    | ServerReceives
    | ServerCalls(call: Call)
    | ServerLoses
    | ClientReceives
    | ClientProceeds
    | ConsumerFinishes
    | ConsumerStops
    | ConsumerResumes
    | ClientLoses

  /** The value of a 32-bit counter. */
  function Wrap(i: int): int {
    (i + 0x8000_0000) % 0x1_0000_0000 - 0x8000_0000
  }

  function Send(c: Channel, m: Message): Channel {
    c.(sent := c.sent + [m])
  }

  function Received(c: Channel): Channel {
    c.(read := c.read + 1)
  }

  function FailServer(s: State, reason: Failure): State {
    s.(server := ServerFailed(s.server, reason))
  }

  function FailClient(s: State, reason: Failure): State {
    s.(client := ClientFailed(s.client, reason))
  }

  /******* The server *******/

  /** acceptNegotiation up to the first answer. */
  function DoAccept(cfg: Config, s: State): State {
    if !s.server.Listening? then s
    else s.(server := AwaitVersion, toClient := Send(s.toClient, Negotiate(VersionsToJson(cfg.offered))))
  }

  /** A message answered while waiting in acceptNegotiation, negotiateCapabilities or awaitCycleResponse. */
  function DoServerReceive(cfg: Config, s: State): State {
    if s.toServer.read >= |s.toServer.sent| then s
    else
      var m, t := s.toServer.sent[s.toServer.read], s.(toServer := Received(s.toServer));
      match s.server
      case AwaitVersion => ReceiveVersion(cfg, t, m)
      case AwaitCaps(version) => ReceiveCaps(t, version, m)
      case AwaitResponse(version, caps, id) => ReceiveResponse(t, version, caps, id, m)
      case _ => s
  }

  function ReceiveVersion(cfg: Config, t: State, m: Message): State {
    if !(m.NegotiateResponse? && m.version.JNum? && Truncate(m.version.n) in cfg.offered) then FailServer(t, ProtocolError)
    else
      var version := Truncate(m.version.n);
      t.(server := if version > 0 then AwaitCaps(version) else Ready(version, None))
  }

  function ReceiveCaps(t: State, version: int, m: Message): State {
    if !m.CapsRequest? then FailServer(t, ProtocolError)
    else
      match ReadCaps(m.caps)
      case Err => FailServer(t, BadCapsRequested)
      case Ok(caps) => t.(server := Ready(version, Some(caps)), toClient := Send(t.toClient, CapsResponse(JObj(caps))))
  }

  function ReceiveResponse(t: State, version: int, caps: Option<Caps>, id: int, m: Message): State {
    if !(m.CycleStarted? || m.CycleCompleted? || m.CycleFailed? || m.CycleAborted?) then FailServer(t, ProtocolError)
    else if m.id != id then FailServer(t, ProtocolError)
    else if m.CycleStarted? then t
    else
      var returned := if m.CycleCompleted? then t.returned + [id] else t.returned;
      t.(server := Ready(version, caps), returned := returned)
  }

  /** Cycle, CycleReset and Exit: refused, with no effect, before the handshake is complete. */
  function DoCall(s: State, call: Call): State {
    if !s.server.Ready? then s
    else
      var id, version := Wrap(s.counter + 1), s.server.version;
      match call
      case CallCycle(scope, changes) => StartCycle(s, SourcesEvent(id, if version > 0 then scope else "", changes))
      case CallReset => if version >= 2 then StartCycle(s, ResetEvent(id)) else s
      case CallExit(description) => s.(toClient := Send(s.toClient, Exit(description)))
  }

  function StartCycle(s: State, event: CycleEvent): State
    requires s.server.Ready?
  {
    s.(server := AwaitResponse(s.server.version, s.server.caps, event.id), toClient := Send(s.toClient, Cyclic(event)),
       counter := event.id, calls := s.calls + 1)
  }

  /******* The client *******/

  /** A message received in negotiate, cap or AwaitCycle. */
  function DoClientReceive(cfg: Config, s: State): State {
    if s.toClient.read >= |s.toClient.sent| then s
    else
      var m, t := s.toClient.sent[s.toClient.read], s.(toClient := Received(s.toClient));
      match s.client
      case AwaitNegotiate => ReceiveNegotiate(cfg, t, m)
      case AwaitCapsResponse(version) => ReceiveCapsResponse(t, version, m)
      case Connected(version, caps) => ReceiveCycle(t, version, caps, m)
      case _ => s
  }

  function ReceiveNegotiate(cfg: Config, t: State, m: Message): State {
    if !m.Negotiate? then FailClient(t, ProtocolError)
    else
      match FirstAccepted(m.versions, cfg.supported)
      case None => FailClient(t, NoCommonVersion)
      case Some(version) =>
        t.(client := Negotiated(version), toServer := Send(t.toServer, NegotiateResponse(JNum(version as real))))
  }

  function ReceiveCapsResponse(t: State, version: int, m: Message): State {
    if !(m.CapsResponse? && ReadCaps(m.caps).Ok?) then FailClient(t, ProtocolError)
    else t.(client := Connected(version, Some(ReadCaps(m.caps).value)))
  }

  /** Anything but a cycle is ignored. */
  function ReceiveCycle(t: State, version: int, caps: Option<Caps>, m: Message): State {
    if !m.Cyclic? then t
    else
      match ConvertWireCycle(ToWire(m.event))
      case Got(event) =>
        t.(client := Consuming(version, caps, event), toServer := Send(t.toServer, CycleStarted(event.id)),
           seen := t.seen + [event])
      case _ => FailClient(t, ProtocolError)
  }

  /** Connect, once the version is negotiated. */
  function DoProceed(cfg: Config, s: State): State {
    if !s.client.Negotiated? then s
    else if s.client.version > 0 then
      s.(client := AwaitCapsResponse(s.client.version), toServer := Send(s.toServer, CapsRequest(JObj(cfg.requested))))
    else if cfg.requested != map[] then FailClient(s, CapsUnsupported)
    else s.(client := Connected(s.client.version, None))
  }

  /** The consumer goes on to the next event, or stops and leaves the socket open; either way the event is completed. */
  function DoFinish(s: State, stops: bool): State {
    if !s.client.Consuming? then s
    else
      var id, version, caps := s.client.event.id, s.client.version, s.client.caps;
      s.(client := if stops then Stopped(version, caps) else Connected(version, caps),
         toServer := Send(s.toServer, CycleCompleted(id)), finished := s.finished + [id])
  }

  /** AwaitCycle is called once more. */
  function DoResume(s: State): State {
    if s.client.Stopped? then s.(client := Connected(s.client.version, s.client.caps)) else s
  }

  /******* Runs *******/

  function Do(cfg: Config, s: State, a: Action): State {
    match a
    case ServerAccepts => DoAccept(cfg, s)
    case ServerReceives => DoServerReceive(cfg, s)
    case ServerCalls(call) => DoCall(s, call)
    case ServerLoses => if s.server.ServerFailed? then s else FailServer(s, ConnectionLost)
    case ClientReceives => DoClientReceive(cfg, s)
    case ClientProceeds => DoProceed(cfg, s)
    case ConsumerFinishes => DoFinish(s, false)
    case ConsumerStops => DoFinish(s, true)
    case ConsumerResumes => DoResume(s)
    case ClientLoses => if s.client.ClientFailed? then s else FailClient(s, ConnectionLost)
  }

  /** Any interleaving: an action that is not possible has no effect. */
  function Run(cfg: Config, actions: seq<Action>): State {
    if actions == [] then INITIAL else Do(cfg, Run(cfg, actions[..|actions| - 1]), actions[|actions| - 1])
  }

  /******* What both ends arrive at *******/

  function Agreed(cfg: Config): Option<int> {
    FirstCommon(cfg.offered, cfg.supported)
  }

  function AgreedCaps(cfg: Config): Option<Caps> {
    if Agreed(cfg).Some? && Agreed(cfg).value > 0 && ReadCaps(JObj(cfg.requested)).Ok?
    then Some(ReadCaps(JObj(cfg.requested)).value) else None
  }

  /** How many messages of the handshake each end sends. */
  function HelloLength(cfg: Config): nat {
    if Agreed(cfg).Some? && Agreed(cfg).value > 0 then 2 else 1
  }

  /** What the client sends in the handshake. */
  function Hello(cfg: Config): (r: seq<Message>)
    requires Agreed(cfg).Some?
    ensures |r| == HelloLength(cfg)
  {
    [NegotiateResponse(JNum(Agreed(cfg).value as real))]
    + if Agreed(cfg).value > 0 then [CapsRequest(JObj(cfg.requested))] else []
  }

  /** What the client sends for the first n events. */
  function Acks(n: nat): (r: seq<Message>)
    ensures |r| == 2 * n
  {
    if n == 0 then [] else Acks(n - 1) + [CycleStarted(Wrap(n)), CycleCompleted(Wrap(n))]
  }

  /** The cycles among the messages sent. */
  function Events(sent: seq<Message>): seq<CycleEvent> {
    if sent == [] then []
    else
      var last := sent[|sent| - 1];
      Events(sent[..|sent| - 1]) + if last.Cyclic? then [last.event] else []
  }

  ghost predicate Numbered(ids: seq<int>) {
    forall k :: 0 <= k < |ids| ==> ids[k] == Wrap(k + 1)
  }

  function Ids(events: seq<CycleEvent>): (r: seq<int>)
    ensures |r| == |events| && forall k :: 0 <= k < |r| ==> r[k] == events[k].id
  {
    seq(|events|, k requires 0 <= k < |events| => events[k].id)
  }

  /******* The invariant *******/

  function LiveServer(s: State): Server {
    if s.server.ServerFailed? then s.server.was else s.server
  }

  function LiveClient(s: State): Client {
    if s.client.ClientFailed? then s.client.was else s.client
  }

  /** What the client has sent, by how far it has come. */
  ghost predicate ClientLog(cfg: Config, s: State) {
    match LiveClient(s)
    case AwaitNegotiate => s.toServer.sent == [] && s.seen == [] && s.finished == []
    case Negotiated(v) =>
      Agreed(cfg) == Some(v) && s.toServer.sent == Hello(cfg)[..1] && s.seen == [] && s.finished == []
    case AwaitCapsResponse(v) =>
      Agreed(cfg) == Some(v) && v > 0 && s.toServer.sent == Hello(cfg) && s.seen == [] && s.finished == []
    case Connected(v, caps) =>
      && Agreed(cfg) == Some(v) && caps == AgreedCaps(cfg)
      && |s.finished| == |s.seen| && s.toServer.sent == Hello(cfg) + Acks(|s.seen|)
    case Stopped(v, caps) =>
      && Agreed(cfg) == Some(v) && caps == AgreedCaps(cfg)
      && |s.finished| == |s.seen| && s.toServer.sent == Hello(cfg) + Acks(|s.seen|)
    case Consuming(v, caps, event) =>
      && Agreed(cfg) == Some(v) && caps == AgreedCaps(cfg)
      && |s.seen| == |s.finished| + 1 && event == s.seen[|s.finished|]
      && s.toServer.sent == Hello(cfg) + Acks(|s.finished|) + [CycleStarted(Wrap(|s.seen|))]
    case ClientFailed(_, _) => false
  }

  /** Why the client may give up. */
  predicate ClientMayFail(cfg: Config, reason: Failure) {
    match reason
    case ConnectionLost => true
    case NoCommonVersion => forall v :: v in cfg.offered ==> v !in cfg.supported
    case CapsUnsupported => Agreed(cfg).Some? && Agreed(cfg).value <= 0 && cfg.requested != map[]
    case _ => false
  }

  /** Why the server may give up. */
  predicate ServerMayFail(cfg: Config, reason: Failure) {
    match reason
    case ConnectionLost => true
    case BadCapsRequested => Agreed(cfg).Some? && Agreed(cfg).value > 0 && ReadCaps(JObj(cfg.requested)).Err?
    case _ => false
  }

  /** What a working client has received. */
  ghost predicate ClientRead(cfg: Config, s: State) {
    match s.client
    case AwaitNegotiate => s.toClient.read == 0
    case Negotiated(_) => s.toClient.read == 1
    case AwaitCapsResponse(_) => s.toClient.read == 1
    case Connected(v, _) => s.toClient.read >= HelloLength(cfg) && (v <= 0 ==> cfg.requested == map[])
    case Consuming(v, _, _) => s.toClient.read >= HelloLength(cfg) && (v <= 0 ==> cfg.requested == map[])
    case Stopped(v, _) => s.toClient.read >= HelloLength(cfg) && (v <= 0 ==> cfg.requested == map[])
    case ClientFailed(_, reason) => ClientMayFail(cfg, reason)
  }

  /** What the server has sent when it is ready: its versions, its capabilities, then cycles and exits. */
  ghost predicate SentWhenReady(cfg: Config, sent: seq<Message>) {
    && Agreed(cfg).Some? && |sent| >= HelloLength(cfg) && sent[0] == Negotiate(VersionsToJson(cfg.offered))
    && (Agreed(cfg).value > 0 ==> AgreedCaps(cfg).Some? && sent[1] == CapsResponse(JObj(AgreedCaps(cfg).value)))
    && forall i :: HelloLength(cfg) <= i < |sent| ==> Allowed(Agreed(cfg).value, sent[i])
  }

  /** A message allowed after the handshake by the version. */
  predicate Allowed(version: int, m: Message) {
    || m.Exit?
    || (m.Cyclic? && (m.event.ResetEvent? ==> version >= 2) && (m.event.SourcesEvent? && version <= 0 ==> m.event.scope == ""))
  }

  ghost predicate ServerLog(cfg: Config, s: State) {
    match LiveServer(s)
    case Listening => s.toClient.sent == [] && s.calls == 0
    case AwaitVersion => s.toClient.sent == [Negotiate(VersionsToJson(cfg.offered))] && s.calls == 0
    case AwaitCaps(v) =>
      Agreed(cfg) == Some(v) && v > 0 && s.toClient.sent == [Negotiate(VersionsToJson(cfg.offered))] && s.calls == 0
    case Ready(v, caps) =>
      && Agreed(cfg) == Some(v) && caps == AgreedCaps(cfg) && s.toServer.read >= HelloLength(cfg)
      && SentWhenReady(cfg, s.toClient.sent)
    case AwaitResponse(v, caps, id) =>
      && Agreed(cfg) == Some(v) && caps == AgreedCaps(cfg) && s.toServer.read >= HelloLength(cfg)
      && s.calls > 0 && id == Wrap(s.calls)
      && SentWhenReady(cfg, s.toClient.sent)
    case ServerFailed(_, _) => false
  }

  /** What a working server has received; it waits for a cycle to complete before starting another. */
  ghost predicate ServerRead(cfg: Config, s: State) {
    match s.server
    case Listening => s.toServer.read == 0 && s.returned == []
    case AwaitVersion => s.toServer.read == 0 && s.returned == []
    case AwaitCaps(_) => s.toServer.read == 1 && s.returned == []
    case Ready(_, _) => s.toServer.read == HelloLength(cfg) + 2 * s.calls && |s.returned| == s.calls
    case AwaitResponse(_, _, _) =>
      && |s.returned| == s.calls - 1
      && HelloLength(cfg) + 2 * s.calls - 2 <= s.toServer.read < HelloLength(cfg) + 2 * s.calls
    case ServerFailed(_, reason) => ServerMayFail(cfg, reason)
  }

  ghost predicate CyclesInStep(s: State) {
    && s.toClient.read <= |s.toClient.sent| && s.toServer.read <= |s.toServer.sent|
    && s.counter == Wrap(s.calls)
    && |Events(s.toClient.sent)| == s.calls && Numbered(Ids(Events(s.toClient.sent)))
    && s.seen == Events(s.toClient.sent[..s.toClient.read])
    && Numbered(s.finished) && Numbered(s.returned)
    && |s.returned| <= |s.finished|
  }

  ghost predicate Inv(cfg: Config, s: State) {
    && ClientLog(cfg, s) && ClientRead(cfg, s)
    && ServerLog(cfg, s) && ServerRead(cfg, s)
    && CyclesInStep(s)
  }

  /******* Each action keeps the invariant *******/

  lemma EventsOfOneMore(sent: seq<Message>, m: Message)
    ensures Events(sent + [m]) == Events(sent) + if m.Cyclic? then [m.event] else []
  {
    assert (sent + [m])[..|sent|] == sent;
  }

  lemma {:induction false} EventsOfPrefix(sent: seq<Message>, n: nat)
    requires n <= |sent|
    ensures Events(sent[..n]) <= Events(sent)
  {
    if n < |sent| {
      EventsOfPrefix(sent[..|sent| - 1], n);
      assert sent[..|sent| - 1][..n] == sent[..n];
    } else {
      assert sent[..n] == sent;
    }
  }

  lemma SendingKeepsReceived(c: Channel, m: Message)
    requires c.read <= |c.sent|
    ensures Send(c, m).sent[..c.read] == c.sent[..c.read]
  {
  }

  /** The server's part of the invariant depends on the server's part of the state only; and the client's alike. */
  lemma ServerPartKept(cfg: Config, s: State, t: State)
    requires ServerLog(cfg, s) && ServerRead(cfg, s)
    requires t.server == s.server && t.toClient.sent == s.toClient.sent && t.toServer.read == s.toServer.read
    requires t.calls == s.calls && t.returned == s.returned
    ensures ServerLog(cfg, t) && ServerRead(cfg, t)
  {
  }

  lemma ClientPartKept(cfg: Config, s: State, t: State)
    requires ClientLog(cfg, s) && ClientRead(cfg, s)
    requires t.client == s.client && t.toServer.sent == s.toServer.sent && t.toClient.read == s.toClient.read
    requires t.seen == s.seen && t.finished == s.finished
    ensures ClientLog(cfg, t) && ClientRead(cfg, t)
  {
  }

  lemma AcceptKeepsInv(cfg: Config, s: State)
    requires Inv(cfg, s)
    ensures Inv(cfg, DoAccept(cfg, s))
  {
    if s.server.Listening? {
      var m := Negotiate(VersionsToJson(cfg.offered));
      EventsOfOneMore([], m);
      SendingKeepsReceived(s.toClient, m);
    }
  }

  /** What the client has sent begins with its part of the handshake. */
  lemma ClientSendsHelloFirst(cfg: Config, s: State)
    requires ClientLog(cfg, s)
    ensures s.toServer.sent != [] ==> Agreed(cfg).Some?
    ensures forall i :: 0 <= i < |s.toServer.sent| && i < HelloLength(cfg) ==> s.toServer.sent[i] == Hello(cfg)[i]
  {
  }

  /** What the client sends after it are the acknowledgements, in order. */
  lemma ClientSendsAcksNext(cfg: Config, s: State)
    requires ClientLog(cfg, s) && |s.toServer.sent| > HelloLength(cfg)
    ensures |s.seen| - 1 <= |s.finished| <= |s.seen|
    ensures s.toServer.sent == Hello(cfg) + Acks(|s.finished|)
      + if |s.seen| > |s.finished| then [CycleStarted(Wrap(|s.seen|))] else []
  {
  }

  lemma ReceiveVersionKeepsInv(cfg: Config, s: State)
    requires Inv(cfg, s) && s.server.AwaitVersion?
    ensures Inv(cfg, DoServerReceive(cfg, s))
  {
    if s.toServer.sent != [] {
      ClientSendsHelloFirst(cfg, s);
      TruncateOfInteger(Agreed(cfg).value);
    }
  }

  lemma ReceiveCapsKeepsInv(cfg: Config, s: State)
    requires Inv(cfg, s) && s.server.AwaitCaps?
    ensures Inv(cfg, DoServerReceive(cfg, s))
  {
    if |s.toServer.sent| > 1 {
      ClientSendsHelloFirst(cfg, s);
      assert s.toServer.sent[1] == CapsRequest(JObj(cfg.requested));
      if AgreedCaps(cfg).Some? {
        var m := CapsResponse(JObj(AgreedCaps(cfg).value));
        EventsOfOneMore(s.toClient.sent, m);
        SendingKeepsReceived(s.toClient, m);
      }
      ClientPartKept(cfg, s, DoServerReceive(cfg, s));
    }
  }

  lemma ReceiveResponseKeepsInv(cfg: Config, s: State)
    requires Inv(cfg, s) && s.server.AwaitResponse?
    ensures Inv(cfg, DoServerReceive(cfg, s))
  {
    if s.toServer.read < |s.toServer.sent| {
      AcknowledgedInStep(cfg, s);
      ClientPartKept(cfg, s, DoServerReceive(cfg, s));
    }
  }

  /** The message the server waits for acknowledges the cycle in progress. */
  lemma AcknowledgedInStep(cfg: Config, s: State)
    requires Inv(cfg, s) && s.server.AwaitResponse? && s.toServer.read < |s.toServer.sent|
    ensures var m := s.toServer.sent[s.toServer.read];
      if s.toServer.read == HelloLength(cfg) + 2 * s.calls - 2 then m == CycleStarted(Wrap(s.calls))
      else m == CycleCompleted(Wrap(s.calls)) && |s.finished| == s.calls
  {
    ClientSendsAcksNext(cfg, s);
    EventsOfPrefix(s.toClient.sent, s.toClient.read);
    assert |s.seen| <= s.calls;
    var n := |s.finished|;
    if n == s.calls {
      assert Acks(n) == Acks(n - 1) + [CycleStarted(Wrap(n)), CycleCompleted(Wrap(n))];
    } else {
      assert |s.toServer.sent| <= HelloLength(cfg) + 2 * s.calls - 1;
    }
  }

  lemma WrapOfNext(n: int)
    ensures Wrap(Wrap(n) + 1) == Wrap(n + 1)
  {
  }

  lemma StartCycleKeepsStep(s: State, event: CycleEvent)
    requires CyclesInStep(s) && s.server.Ready? && event.id == Wrap(s.counter + 1)
    ensures CyclesInStep(StartCycle(s, event))
  {
    WrapOfNext(s.calls);
    EventsOfOneMore(s.toClient.sent, Cyclic(event));
    SendingKeepsReceived(s.toClient, Cyclic(event));
  }

  lemma StartCycleKeepsServer(cfg: Config, s: State, event: CycleEvent)
    requires ServerLog(cfg, s) && ServerRead(cfg, s) && s.counter == Wrap(s.calls)
    requires s.server.Ready? && event.id == Wrap(s.counter + 1) && Allowed(s.server.version, Cyclic(event))
    ensures ServerLog(cfg, StartCycle(s, event)) && ServerRead(cfg, StartCycle(s, event))
  {
    WrapOfNext(s.calls);
  }

  lemma StartCycleKeepsInv(cfg: Config, s: State, event: CycleEvent)
    requires Inv(cfg, s) && s.server.Ready? && event.id == Wrap(s.counter + 1)
    requires Allowed(s.server.version, Cyclic(event))
    ensures Inv(cfg, StartCycle(s, event))
  {
    StartCycleKeepsStep(s, event);
    StartCycleKeepsServer(cfg, s, event);
    ClientPartKept(cfg, s, StartCycle(s, event));
  }

  lemma ExitKeepsInv(cfg: Config, s: State, description: string)
    requires Inv(cfg, s)
    ensures Inv(cfg, DoCall(s, CallExit(description)))
  {
    if s.server.Ready? {
      EventsOfOneMore(s.toClient.sent, Exit(description));
      SendingKeepsReceived(s.toClient, Exit(description));
    }
  }

  lemma CallKeepsInv(cfg: Config, s: State, call: Call)
    requires Inv(cfg, s)
    ensures Inv(cfg, DoCall(s, call))
  {
    if s.server.Ready? && call.CallExit? {
      ExitKeepsInv(cfg, s, call.description);
    } else if s.server.Ready? && DoCall(s, call) != s {
      var event := CalledEvent(s, call);
      CallStartsCycle(s, call);
      StartCycleKeepsInv(cfg, s, event);
    }
  }

  function CalledEvent(s: State, call: Call): CycleEvent
    requires s.server.Ready? && !call.CallExit?
  {
    match call
    case CallCycle(scope, changes) =>
      SourcesEvent(Wrap(s.counter + 1), if s.server.version > 0 then scope else "", changes)
    case CallReset => ResetEvent(Wrap(s.counter + 1))
  }

  lemma CallStartsCycle(s: State, call: Call)
    requires s.server.Ready? && !call.CallExit? && DoCall(s, call) != s
    ensures DoCall(s, call) == StartCycle(s, CalledEvent(s, call))
    ensures CalledEvent(s, call).id == Wrap(s.counter + 1) && Allowed(s.server.version, Cyclic(CalledEvent(s, call)))
  {
  }

  /** What the server has sent begins with its part of the handshake. */
  lemma ServerSendsHelloFirst(cfg: Config, s: State)
    requires ServerLog(cfg, s)
    ensures s.toClient.sent != [] ==> s.toClient.sent[0] == Negotiate(VersionsToJson(cfg.offered))
    ensures |s.toClient.sent| > 1 ==> SentWhenReady(cfg, s.toClient.sent)
  {
  }

  /** The first message names the versions, and the client answers with the first common one. */
  lemma NegotiateKeepsClient(cfg: Config, s: State)
    requires ClientLog(cfg, s) && s.client.AwaitNegotiate? && s.toClient.read == 0
    requires s.toClient.sent != [] && s.toClient.sent[0] == Negotiate(VersionsToJson(cfg.offered))
    ensures ClientLog(cfg, DoClientReceive(cfg, s)) && ClientRead(cfg, DoClientReceive(cfg, s))
  {
    NegotiatesFirstCommon(cfg.offered, cfg.supported);
  }

  lemma NegotiateKeepsStep(cfg: Config, s: State)
    requires CyclesInStep(s) && s.client.AwaitNegotiate? && s.toClient.read == 0
    requires s.toClient.sent != [] && s.toClient.sent[0] == Negotiate(VersionsToJson(cfg.offered))
    ensures CyclesInStep(DoClientReceive(cfg, s))
  {
    EventsOfOneMore([], s.toClient.sent[0]);
    assert s.toClient.sent[..1] == [] + [s.toClient.sent[0]];
  }

  lemma NegotiateLeavesServer(cfg: Config, s: State)
    requires s.client.AwaitNegotiate?
    ensures var t := DoClientReceive(cfg, s);
      && t.server == s.server && t.toClient.sent == s.toClient.sent && t.toServer.read == s.toServer.read
      && t.calls == s.calls && t.returned == s.returned
  {
  }

  lemma ReceiveNegotiateKeepsInv(cfg: Config, s: State)
    requires Inv(cfg, s) && s.client.AwaitNegotiate?
    ensures Inv(cfg, DoClientReceive(cfg, s))
  {
    if s.toClient.sent != [] {
      ServerSendsHelloFirst(cfg, s);
      NegotiateKeepsClient(cfg, s);
      NegotiateKeepsStep(cfg, s);
      NegotiateLeavesServer(cfg, s);
      ServerPartKept(cfg, s, DoClientReceive(cfg, s));
    }
  }

  lemma ReceiveNextSees(s: State)
    requires CyclesInStep(s) && s.toClient.read < |s.toClient.sent|
    ensures var m := s.toClient.sent[s.toClient.read];
      && Events(s.toClient.sent[..s.toClient.read + 1]) == s.seen + (if m.Cyclic? then [m.event] else [])
      && (m.Cyclic? ==> m.event.id == Wrap(|s.seen| + 1))
  {
    var n, m := s.toClient.read, s.toClient.sent[s.toClient.read];
    assert s.toClient.sent[..n + 1] == s.toClient.sent[..n] + [m];
    EventsOfOneMore(s.toClient.sent[..n], m);
    EventsOfPrefix(s.toClient.sent, n + 1);
    if m.Cyclic? {
      assert Events(s.toClient.sent)[|s.seen|] == m.event;
      assert Ids(Events(s.toClient.sent))[|s.seen|] == m.event.id;
    }
  }

  lemma ReceiveCapsResponseKeepsInv(cfg: Config, s: State)
    requires Inv(cfg, s) && s.client.AwaitCapsResponse?
    ensures Inv(cfg, DoClientReceive(cfg, s))
  {
    if |s.toClient.sent| > 1 {
      ServerSendsHelloFirst(cfg, s);
      ReadingCapsIsIdempotent(JObj(cfg.requested));
      ReceiveNextSees(s);
    }
  }

  lemma ReceiveCycleKeepsStep(cfg: Config, s: State)
    requires CyclesInStep(s) && s.client.Connected?
    ensures CyclesInStep(DoClientReceive(cfg, s))
  {
    if s.toClient.read < |s.toClient.sent| {
      var m := s.toClient.sent[s.toClient.read];
      ReceiveNextSees(s);
      if m.Cyclic? {
        WireKeepsEvent(m.event);
      }
    }
  }

  lemma ReceiveCycleKeepsClient(cfg: Config, s: State)
    requires ClientLog(cfg, s) && ClientRead(cfg, s) && CyclesInStep(s) && s.client.Connected?
    ensures ClientLog(cfg, DoClientReceive(cfg, s)) && ClientRead(cfg, DoClientReceive(cfg, s))
  {
    if s.toClient.read < |s.toClient.sent| {
      var m := s.toClient.sent[s.toClient.read];
      ReceiveNextSees(s);
      if m.Cyclic? {
        WireKeepsEvent(m.event);
      }
    }
  }

  lemma ReceiveCycleLeavesServer(cfg: Config, s: State)
    requires s.client.Connected?
    ensures var t := DoClientReceive(cfg, s);
      && t.server == s.server && t.toClient.sent == s.toClient.sent && t.toServer.read == s.toServer.read
      && t.calls == s.calls && t.returned == s.returned
  {
  }

  lemma ReceiveCycleKeepsServer(cfg: Config, s: State)
    requires ServerLog(cfg, s) && ServerRead(cfg, s) && s.client.Connected?
    ensures ServerLog(cfg, DoClientReceive(cfg, s)) && ServerRead(cfg, DoClientReceive(cfg, s))
  {
    ReceiveCycleLeavesServer(cfg, s);
    ServerPartKept(cfg, s, DoClientReceive(cfg, s));
  }

  lemma ReceiveCycleKeepsInv(cfg: Config, s: State)
    requires Inv(cfg, s) && s.client.Connected?
    ensures Inv(cfg, DoClientReceive(cfg, s))
  {
    ReceiveCycleKeepsStep(cfg, s);
    ReceiveCycleKeepsClient(cfg, s);
    ReceiveCycleKeepsServer(cfg, s);
  }

  lemma ProceedKeepsInv(cfg: Config, s: State)
    requires Inv(cfg, s)
    ensures Inv(cfg, DoProceed(cfg, s))
  {
  }

  lemma FinishedIdIsNext(s: State)
    requires CyclesInStep(s) && s.seen != []
    ensures s.seen[|s.seen| - 1].id == Wrap(|s.seen|)
  {
    EventsOfPrefix(s.toClient.sent, s.toClient.read);
    assert Ids(Events(s.toClient.sent))[|s.seen| - 1] == s.seen[|s.seen| - 1].id;
  }

  lemma FinishKeepsClient(cfg: Config, s: State, stops: bool)
    requires ClientLog(cfg, s) && ClientRead(cfg, s) && CyclesInStep(s) && s.client.Consuming?
    ensures ClientLog(cfg, DoFinish(s, stops)) && ClientRead(cfg, DoFinish(s, stops))
  {
    var n := |s.seen|;
    FinishedIdIsNext(s);
    var hello, before, started, completed := Hello(cfg), Acks(n - 1), CycleStarted(Wrap(n)), CycleCompleted(Wrap(n));
    assert (hello + before + [started]) + [completed] == hello + (before + [started, completed]);
  }

  lemma FinishKeepsInv(cfg: Config, s: State, stops: bool)
    requires Inv(cfg, s)
    ensures Inv(cfg, DoFinish(s, stops))
  {
    if s.client.Consuming? {
      FinishKeepsClient(cfg, s, stops);
      FinishedIdIsNext(s);
      ServerPartKept(cfg, s, DoFinish(s, stops));
    }
  }

  lemma ResumeKeepsInv(cfg: Config, s: State)
    requires Inv(cfg, s)
    ensures Inv(cfg, DoResume(s))
  {
    ServerPartKept(cfg, s, DoResume(s));
  }

  lemma ClientReceiveKeepsInv(cfg: Config, s: State)
    requires Inv(cfg, s)
    ensures Inv(cfg, DoClientReceive(cfg, s))
  {
    match s.client
    case AwaitNegotiate => ReceiveNegotiateKeepsInv(cfg, s);
    case AwaitCapsResponse(_) => ReceiveCapsResponseKeepsInv(cfg, s);
    case Connected(_, _) => ReceiveCycleKeepsInv(cfg, s);
    case _ =>
  }

  lemma ServerReceiveKeepsInv(cfg: Config, s: State)
    requires Inv(cfg, s)
    ensures Inv(cfg, DoServerReceive(cfg, s))
  {
    match s.server
    case AwaitVersion => ReceiveVersionKeepsInv(cfg, s);
    case AwaitCaps(_) => ReceiveCapsKeepsInv(cfg, s);
    case AwaitResponse(_, _, _) => ReceiveResponseKeepsInv(cfg, s);
    case _ =>
  }

  lemma InStepKept(s: State, t: State)
    requires CyclesInStep(s)
    requires t.toClient == s.toClient && t.toServer == s.toServer && t.counter == s.counter && t.calls == s.calls
    requires t.seen == s.seen && t.finished == s.finished && t.returned == s.returned
    ensures CyclesInStep(t)
  {
  }

  lemma ServerLosesKeepsInv(cfg: Config, s: State)
    requires Inv(cfg, s)
    ensures Inv(cfg, Do(cfg, s, ServerLoses))
  {
    if !s.server.ServerFailed? {
      var t := FailServer(s, ConnectionLost);
      InStepKept(s, t);
      ClientPartKept(cfg, s, t);
      LostServerKept(cfg, s);
    }
  }

  lemma LostServerKept(cfg: Config, s: State)
    requires ServerLog(cfg, s) && !s.server.ServerFailed?
    ensures ServerLog(cfg, FailServer(s, ConnectionLost)) && ServerRead(cfg, FailServer(s, ConnectionLost))
  {
  }

  lemma ClientLosesKeepsInv(cfg: Config, s: State)
    requires Inv(cfg, s)
    ensures Inv(cfg, Do(cfg, s, ClientLoses))
  {
    if !s.client.ClientFailed? {
      var t := FailClient(s, ConnectionLost);
      InStepKept(s, t);
      ServerPartKept(cfg, s, t);
      LostClientKept(cfg, s);
    }
  }

  lemma LostClientKept(cfg: Config, s: State)
    requires ClientLog(cfg, s) && !s.client.ClientFailed?
    ensures ClientLog(cfg, FailClient(s, ConnectionLost)) && ClientRead(cfg, FailClient(s, ConnectionLost))
  {
  }

  lemma ActionKeepsInv(cfg: Config, s: State, a: Action)
    requires Inv(cfg, s)
    ensures Inv(cfg, Do(cfg, s, a))
  {
    match a
    case ServerAccepts => AcceptKeepsInv(cfg, s);
    case ServerReceives => ServerReceiveKeepsInv(cfg, s);
    case ServerCalls(call) => CallKeepsInv(cfg, s, call);
    case ServerLoses => ServerLosesKeepsInv(cfg, s);
    case ClientReceives => ClientReceiveKeepsInv(cfg, s);
    case ClientProceeds => ProceedKeepsInv(cfg, s);
    case ConsumerFinishes => FinishKeepsInv(cfg, s, false);
    case ConsumerStops => FinishKeepsInv(cfg, s, true);
    case ConsumerResumes => ResumeKeepsInv(cfg, s);
    case ClientLoses => ClientLosesKeepsInv(cfg, s);
  }

  lemma {:induction false} RunKeepsInv(cfg: Config, actions: seq<Action>)
    ensures Inv(cfg, Run(cfg, actions))
  {
    if actions != [] {
      RunKeepsInv(cfg, actions[..|actions| - 1]);
      ActionKeepsInv(cfg, Run(cfg, actions[..|actions| - 1]), actions[|actions| - 1]);
    }
  }

  /******* What holds on every run *******/

  predicate ServerReady(s: State) {
    s.server.Ready? || s.server.AwaitResponse?
  }

  predicate ClientConnected(s: State) {
    s.client.Connected? || s.client.Consuming? || s.client.Stopped?
  }

  /** An end that finishes the handshake has the first offered version the other supports, and the same capabilities. */
  lemma HandshakeAgrees(cfg: Config, actions: seq<Action>)
    ensures var s := Run(cfg, actions);
      && (ServerReady(s) ==> FirstCommon(cfg.offered, cfg.supported) == Some(s.server.version))
      && (ClientConnected(s) ==> FirstCommon(cfg.offered, cfg.supported) == Some(s.client.version))
      && (ServerReady(s) && s.server.version > 0 ==>
          s.server.caps.Some? && Ok(s.server.caps.value) == ReadCaps(JObj(cfg.requested)))
      && (ServerReady(s) && ClientConnected(s) ==> s.server.version == s.client.version && s.server.caps == s.client.caps)
  {
    RunKeepsInv(cfg, actions);
  }

  /** Neither end ever takes a branch for an unexpected message, version, response kind or cycle id. */
  lemma NoProtocolError(cfg: Config, actions: seq<Action>)
    ensures var s := Run(cfg, actions);
      && (s.server.ServerFailed? ==> s.server.reason != ProtocolError)
      && (s.client.ClientFailed? ==> s.client.reason != ProtocolError)
  {
    RunKeepsInv(cfg, actions);
  }

  /** An end gives up for a reason only: no common version, or capabilities that the version or the server cannot take. */
  lemma FailuresAreJustified(cfg: Config, actions: seq<Action>)
    ensures var s := Run(cfg, actions);
      && (s.client.ClientFailed? ==> ClientMayFail(cfg, s.client.reason))
      && (s.server.ServerFailed? ==> ServerMayFail(cfg, s.server.reason))
  {
    RunKeepsInv(cfg, actions);
  }

  /** Below 2^31 cycles the ids are 1, 2, 3, ...; the 2^31st is the first that is not. */
  lemma WrapIsIdentity(n: nat)
    requires n < 0x1_0000_0000
    ensures Wrap(n) == n <==> n < 0x8000_0000
  {
  }

  lemma SeenInOrder(s: State)
    requires CyclesInStep(s)
    ensures s.seen <= Events(s.toClient.sent) && Numbered(Ids(s.seen))
  {
    EventsOfPrefix(s.toClient.sent, s.toClient.read);
    forall k | 0 <= k < |s.seen| ensures s.seen[k].id == Wrap(k + 1) {
      assert Ids(Events(s.toClient.sent))[k] == s.seen[k].id;
    }
  }

  /** The client sees the server's cycles in order, unchanged, with consecutive ids. */
  lemma CyclesArriveInOrder(cfg: Config, actions: seq<Action>)
    ensures var s := Run(cfg, actions);
      && s.seen <= Events(s.toClient.sent)
      && |Events(s.toClient.sent)| == s.calls
      && Numbered(Ids(s.seen))
      && (forall k :: 0 <= k < |s.seen| && k + 1 < 0x8000_0000 ==> s.seen[k].id == k + 1)
  {
    RunKeepsInv(cfg, actions);
    SeenInOrder(Run(cfg, actions));
    NumberedFromOne(Run(cfg, actions).seen);
  }

  lemma NumberedFromOne(events: seq<CycleEvent>)
    requires Numbered(Ids(events))
    ensures forall k :: 0 <= k < |events| && k + 1 < 0x8000_0000 ==> events[k].id == k + 1
  {
    forall k | 0 <= k < |events| && k + 1 < 0x8000_0000 ensures events[k].id == k + 1 {
      assert Ids(events)[k] == events[k].id;
      WrapIsIdentity(k + 1);
    }
  }

  /******* What is sent is what was called *******/

  /** A call made while the server is ready; below version 2 there are no resets. */
  predicate Accepts(s: State, a: Action) {
    a.ServerCalls? && s.server.Ready? && !(a.call.CallReset? && s.server.version < 2)
  }

  /** The calls accepted in a run. */
  function Accepted(cfg: Config, actions: seq<Action>): seq<Call> {
    if actions == [] then []
    else
      var before, last := actions[..|actions| - 1], actions[|actions| - 1];
      Accepted(cfg, before) + if Accepts(Run(cfg, before), last) then [last.call] else []
  }

  function Cycles(calls: seq<Call>): seq<Call> {
    if calls == [] then []
    else Cycles(calls[..|calls| - 1]) + if calls[|calls| - 1].CallExit? then [] else [calls[|calls| - 1]]
  }

  /** Cycles and exits among the messages sent. */
  function Told(sent: seq<Message>): seq<Message> {
    if sent == [] then []
    else
      var last := sent[|sent| - 1];
      Told(sent[..|sent| - 1]) + if last.Cyclic? || last.Exit? then [last] else []
  }

  /** The event says what the call was given; the scope is sent from version 1 on. */
  predicate EventCarries(version: int, call: Call, event: CycleEvent) {
    match call
    case CallCycle(scope, changes) =>
      event.SourcesEvent? && event.sources == changes && event.scope == if version > 0 then scope else ""
    case CallReset => event.ResetEvent?
    case CallExit(_) => false
  }

  predicate Carries(version: int, call: Call, m: Message) {
    match call
    case CallExit(description) => m == Exit(description)
    case _ => m.Cyclic? && EventCarries(version, call, m.event)
  }

  ghost predicate AllCarried(version: int, calls: seq<Call>, told: seq<Message>) {
    |told| == |calls| && forall n :: 0 <= n < |calls| ==> Carries(version, calls[n], told[n])
  }

  ghost predicate AllEventsCarried(version: int, cycles: seq<Call>, events: seq<CycleEvent>) {
    |events| == |cycles| && forall n :: 0 <= n < |cycles| ==> EventCarries(version, cycles[n], events[n])
  }

  lemma ToldOneMore(sent: seq<Message>, m: Message)
    ensures Told(sent + [m]) == Told(sent) + if m.Cyclic? || m.Exit? then [m] else []
  {
    assert (sent + [m])[..|sent|] == sent;
  }

  lemma CyclesOneMore(calls: seq<Call>, call: Call)
    ensures Cycles(calls + [call]) == Cycles(calls) + if call.CallExit? then [] else [call]
  {
    assert (calls + [call])[..|calls|] == calls;
  }

  ghost predicate TellsCalls(version: int, calls: seq<Call>, sent: seq<Message>) {
    AllCarried(version, calls, Told(sent)) && AllEventsCarried(version, Cycles(calls), Events(sent))
  }

  lemma OneMoreTold(version: int, calls: seq<Call>, sent: seq<Message>, call: Call, m: Message)
    requires AllCarried(version, calls, Told(sent)) && Carries(version, call, m)
    ensures AllCarried(version, calls + [call], Told(sent + [m]))
  {
    ToldOneMore(sent, m);
  }

  lemma EventsGrow(version: int, cycles: seq<Call>, events: seq<CycleEvent>, call: Call, event: CycleEvent)
    requires AllEventsCarried(version, cycles, events) && EventCarries(version, call, event)
    ensures AllEventsCarried(version, cycles + [call], events + [event])
  {
  }

  lemma OneMoreEvent(version: int, calls: seq<Call>, sent: seq<Message>, call: Call, m: Message)
    requires AllEventsCarried(version, Cycles(calls), Events(sent)) && Carries(version, call, m)
    ensures AllEventsCarried(version, Cycles(calls + [call]), Events(sent + [m]))
  {
    EventsOfOneMore(sent, m);
    CyclesOneMore(calls, call);
    if call.CallExit? {
      assert Cycles(calls) + [] == Cycles(calls) && Events(sent) + [] == Events(sent);
    } else {
      EventsGrow(version, Cycles(calls), Events(sent), call, m.event);
    }
  }

  lemma OneMoreCall(version: int, calls: seq<Call>, sent: seq<Message>, call: Call, m: Message)
    requires TellsCalls(version, calls, sent) && Carries(version, call, m)
    ensures TellsCalls(version, calls + [call], sent + [m])
  {
    OneMoreTold(version, calls, sent, call, m);
    OneMoreEvent(version, calls, sent, call, m);
  }

  lemma OneMoreMessage(version: int, calls: seq<Call>, sent: seq<Message>, m: Message)
    requires TellsCalls(version, calls, sent) && !m.Cyclic? && !m.Exit?
    ensures TellsCalls(version, calls, sent + [m])
  {
    ToldOneMore(sent, m);
    EventsOfOneMore(sent, m);
  }

  /** A ready server sends what it is called for, and nothing else sends a cycle or an exit. */
  lemma ActionTells(cfg: Config, s: State, a: Action)
    ensures var sent, sent' := s.toClient.sent, Do(cfg, s, a).toClient.sent;
      if Accepts(s, a) then
        |sent'| > |sent| && sent' == sent + [sent'[|sent|]] && Carries(s.server.version, a.call, sent'[|sent|])
      else
        sent' == sent
        || (|sent'| > |sent| && sent' == sent + [sent'[|sent|]] && !sent'[|sent|].Cyclic? && !sent'[|sent|].Exit?)
  {
  }

  lemma ActionKeepsTold(cfg: Config, s: State, a: Action, version: int, calls: seq<Call>)
    requires TellsCalls(version, calls, s.toClient.sent) && (s.server.Ready? ==> s.server.version == version)
    ensures TellsCalls(version, if Accepts(s, a) then calls + [a.call] else calls, Do(cfg, s, a).toClient.sent)
  {
    ActionTells(cfg, s, a);
    var sent, sent' := s.toClient.sent, Do(cfg, s, a).toClient.sent;
    if Accepts(s, a) {
      OneMoreCall(version, calls, sent, a.call, sent'[|sent|]);
    } else if sent' != sent {
      OneMoreMessage(version, calls, sent, sent'[|sent|]);
    }
  }

  /**
   On every run the cycles and exits that the server has sent are those it was called for while
   ready, in order, each with what it was given, and its events likewise the cycles and resets.
   */
  lemma {:induction false} EveryCallIsTold(cfg: Config, actions: seq<Action>)
    ensures var s, calls := Run(cfg, actions), Accepted(cfg, actions);
      && (calls != [] ==> Agreed(cfg).Some?)
      && (Agreed(cfg).Some? ==> TellsCalls(Agreed(cfg).value, calls, s.toClient.sent))
  {
    if actions != [] {
      var before, last := actions[..|actions| - 1], actions[|actions| - 1];
      EveryCallIsTold(cfg, before);
      ReadyIsAgreed(cfg, before);
      if Agreed(cfg).Some? {
        ActionKeepsTold(cfg, Run(cfg, before), last, Agreed(cfg).value, Accepted(cfg, before));
        assert Accepted(cfg, before) + [] == Accepted(cfg, before);
      }
    }
  }

  lemma ReadyIsAgreed(cfg: Config, actions: seq<Action>)
    ensures Run(cfg, actions).server.Ready? ==> Agreed(cfg) == Some(Run(cfg, actions).server.version)
  {
    RunKeepsInv(cfg, actions);
  }

  /** So the consumer is told what was called. */
  lemma ConsumerSeesCalls(cfg: Config, actions: seq<Action>, n: nat)
    requires n < |Run(cfg, actions).seen|
    ensures Agreed(cfg).Some? && n < |Cycles(Accepted(cfg, actions))|
    ensures EventCarries(Agreed(cfg).value, Cycles(Accepted(cfg, actions))[n], Run(cfg, actions).seen[n])
  {
    EveryCallIsTold(cfg, actions);
    CyclesArriveInOrder(cfg, actions);
    RunKeepsInv(cfg, actions);
  }

  /** A STARTED and a COMPLETED for each finished event, and a STARTED for the one being consumed. */
  function AcksSoFar(s: State): seq<Message> {
    Acks(|s.finished|) + if |s.seen| > |s.finished| then [CycleStarted(Wrap(|s.seen|))] else []
  }

  /**
   Apart from the handshake, the client sends one STARTED and then one COMPLETED for each event, in
   order; as long as it has seen no event, it has sent its part of the handshake at most.
   */
  lemma EachCycleIsAcknowledgedOnce(cfg: Config, actions: seq<Action>)
    ensures var s := Run(cfg, actions);
      && |s.seen| - 1 <= |s.finished| <= |s.seen|
      && (s.seen == [] ==> s.toServer.sent == [] || (Agreed(cfg).Some? && s.toServer.sent <= Hello(cfg)))
      && (s.seen != [] ==> Agreed(cfg).Some? && s.toServer.sent == Hello(cfg) + AcksSoFar(s))
  {
    RunKeepsInv(cfg, actions);
    SentIsAcknowledged(cfg, Run(cfg, actions));
  }

  lemma SentIsAcknowledged(cfg: Config, s: State)
    requires ClientLog(cfg, s)
    ensures |s.seen| - 1 <= |s.finished| <= |s.seen|
    ensures s.seen == [] ==> s.toServer.sent == [] || (Agreed(cfg).Some? && s.toServer.sent <= Hello(cfg))
    ensures s.seen != [] ==> Agreed(cfg).Some? && s.toServer.sent == Hello(cfg) + AcksSoFar(s)
  {
    if s.seen == [] && (LiveClient(s).Connected? || LiveClient(s).Stopped?) {
      assert Acks(0) == [];
    }
  }

  /** A server call that returned on COMPLETED is one whose event the client's consumer has finished. */
  lemma ReturnMeansFinished(cfg: Config, actions: seq<Action>)
    ensures var s := Run(cfg, actions); s.returned <= s.finished && s.finished <= Ids(s.seen)
    ensures var s := Run(cfg, actions); s.server.Ready? ==> |s.returned| == |s.finished| == |s.seen| == s.calls
  {
    RunKeepsInv(cfg, actions);
    var s := Run(cfg, actions);
    CyclesArriveInOrder(cfg, actions);
    if s.toServer.sent != [] && |s.toServer.sent| > HelloLength(cfg) {
      ClientSendsAcksNext(cfg, s);
    }
  }

  /** The server sends nothing else before the handshake is over, and no CYCLE_RESET below version 2. */
  lemma NothingBeforeHandshake(cfg: Config, actions: seq<Action>, i: nat)
    requires i < |Run(cfg, actions).toClient.sent|
    ensures var s := Run(cfg, actions); var m := s.toClient.sent[i];
      && (m.Cyclic? || m.Exit? <==> i >= HelloLength(cfg))
      && (m.Cyclic? || m.Exit? ==> Agreed(cfg).Some? && Hello(cfg) <= s.toServer.sent && Allowed(Agreed(cfg).value, m))
  {
    RunKeepsInv(cfg, actions);
    NothingBeforeHello(cfg, Run(cfg, actions), i);
  }

  lemma NothingBeforeHello(cfg: Config, s: State, i: nat)
    requires ServerLog(cfg, s) && ClientLog(cfg, s) && s.toServer.read <= |s.toServer.sent| && i < |s.toClient.sent|
    ensures var m := s.toClient.sent[i];
      && (m.Cyclic? || m.Exit? <==> i >= HelloLength(cfg))
      && (m.Cyclic? || m.Exit? ==> Agreed(cfg).Some? && Hello(cfg) <= s.toServer.sent && Allowed(Agreed(cfg).value, m))
  {
    ServerSendsHelloFirst(cfg, s);
    ClientSendsHelloFirst(cfg, s);
  }

  /******* Progress *******/

  /** The actions that neither end's user nor a lost connection causes. */
  predicate Internal(a: Action) {
    a.ServerAccepts? || a.ServerReceives? || a.ClientReceives? || a.ClientProceeds? || a.ConsumerFinishes?
  }

  function Unread(c: Channel): int {
    |c.sent| - c.read
  }

  function ServerWork(server: Server): nat {
    match server
    case Listening => 9
    case AwaitVersion => 4
    case AwaitCaps(_) => 4
    case _ => 0
  }

  function ClientWork(client: Client): nat {
    match client
    case Negotiated(_) => 2
    case Consuming(_, _, _) => 2
    case _ => 0
  }

  /** How many internal actions can still follow; a stopped consumer leaves its messages unread. */
  function Work(s: State): int {
    (if s.client.Stopped? then 0 else 4 * Unread(s.toClient))
    + Unread(s.toServer) + ServerWork(s.server) + ClientWork(s.client)
  }

  /** No call is pending, and everything has been received that will be. */
  predicate Quiet(s: State) {
    && s.server.Ready? && Unread(s.toServer) == 0
    && (s.client.Stopped? || (s.client.Connected? && Unread(s.toClient) == 0))
  }

  /** A call is pending, and the client's consumer has stopped without closing the socket. */
  predicate Abandoned(s: State) {
    s.server.AwaitResponse? && s.client.Stopped? && Unread(s.toServer) == 0
  }

  predicate Failed(s: State) {
    s.server.ServerFailed? || s.client.ClientFailed?
  }

  lemma ServerReceiveDoesWork(cfg: Config, s: State)
    requires DoServerReceive(cfg, s) != s
    ensures Work(DoServerReceive(cfg, s)) < Work(s)
  {
  }

  lemma ClientReceiveDoesWork(cfg: Config, s: State)
    requires DoClientReceive(cfg, s) != s
    ensures Work(DoClientReceive(cfg, s)) < Work(s)
  {
  }

  lemma InternalActionsDoWork(cfg: Config, s: State, a: Action)
    requires Internal(a) && Do(cfg, s, a) != s
    ensures Work(Do(cfg, s, a)) < Work(s)
  {
    match a
    case ServerReceives => ServerReceiveDoesWork(cfg, s);
    case ClientReceives => ClientReceiveDoesWork(cfg, s);
    case _ =>
  }

  /** A server call adds at most one message, and so at most four to the work. */
  lemma CallsAddLittle(s: State, call: Call)
    ensures Work(DoCall(s, call)) <= Work(s) + 4
  {
  }

  /** What an end that is past the handshake can still receive. */
  lemma ConnectedEndsMove(cfg: Config, s: State)
    requires Inv(cfg, s) && (s.server.Ready? || s.server.AwaitResponse?) && (s.client.Connected? || s.client.Stopped?)
    ensures s.server.Ready? ==> Unread(s.toServer) == 0
    ensures s.server.AwaitResponse? && Unread(s.toServer) == 0 ==> |s.seen| < s.calls
    ensures s.client.Connected? && Unread(s.toClient) == 0 ==> |s.seen| == s.calls
  {
    if Unread(s.toClient) == 0 {
      assert s.toClient.sent[..s.toClient.read] == s.toClient.sent;
    }
    EventsOfPrefix(s.toClient.sent, s.toClient.read);
  }

  lemma ServerCanReceive(cfg: Config, s: State)
    requires Unread(s.toServer) > 0 && (s.server.AwaitVersion? || s.server.AwaitCaps? || s.server.AwaitResponse?)
    ensures Do(cfg, s, ServerReceives) != s
  {
    assert Do(cfg, s, ServerReceives).toServer.read == s.toServer.read + 1;
  }

  lemma ClientCanReceive(cfg: Config, s: State)
    requires Unread(s.toClient) > 0 && (s.client.AwaitNegotiate? || s.client.AwaitCapsResponse? || s.client.Connected?)
    ensures Do(cfg, s, ClientReceives) != s
  {
    assert Do(cfg, s, ClientReceives).toClient.read == s.toClient.read + 1;
  }

  /** Nothing else blocks: unless an end has failed or the call is abandoned, some internal action changes the state. */
  lemma SomeActionMoves(cfg: Config, s: State) returns (a: Action)
    requires Inv(cfg, s) && !Failed(s) && !Quiet(s) && !Abandoned(s)
    ensures Internal(a) && Do(cfg, s, a) != s
  {
    if s.server.Listening? {
      a := ServerAccepts;
    } else if s.client.Negotiated? {
      a := ClientProceeds;
    } else if s.client.Consuming? {
      a := ConsumerFinishes;
    } else if Unread(s.toClient) > 0 && !s.client.Stopped? {
      a := ClientReceives;
      ClientCanReceive(cfg, s);
    } else {
      a := ServerReceives;
      OnlyServerCanMove(cfg, s);
      ServerCanReceive(cfg, s);
    }
  }

  lemma OnlyServerCanMove(cfg: Config, s: State)
    requires Inv(cfg, s) && !Failed(s) && !Quiet(s) && !Abandoned(s)
    requires s.client.Stopped? || Unread(s.toClient) == 0
    requires !s.server.Listening? && !s.client.Negotiated? && !s.client.Consuming?
    ensures Unread(s.toServer) > 0 && (s.server.AwaitVersion? || s.server.AwaitCaps? || s.server.AwaitResponse?)
  {
    if (s.client.Connected? || s.client.Stopped?) && (s.server.Ready? || s.server.AwaitResponse?) {
      ConnectedEndsMove(cfg, s);
    }
  }

  /** A run of internal actions, each of which changes the state. */
  ghost predicate Moves(cfg: Config, s: State, more: seq<Action>)
    decreases |more|
  {
    more == [] || (Internal(more[0]) && Do(cfg, s, more[0]) != s && Moves(cfg, Do(cfg, s, more[0]), more[1..]))
  }

  function After(cfg: Config, s: State, more: seq<Action>): State
    decreases |more|
  {
    if more == [] then s else After(cfg, Do(cfg, s, more[0]), more[1..])
  }

  lemma {:induction false} MovesAreBounded(cfg: Config, s: State, more: seq<Action>)
    requires Inv(cfg, s) && Moves(cfg, s, more)
    ensures Inv(cfg, After(cfg, s, more)) && |more| + Work(After(cfg, s, more)) <= Work(s)
    ensures 0 <= Work(After(cfg, s, more))
    decreases |more|
  {
    if more != [] {
      ActionKeepsInv(cfg, s, more[0]);
      InternalActionsDoWork(cfg, s, more[0]);
      MovesAreBounded(cfg, Do(cfg, s, more[0]), more[1..]);
    }
  }

  ghost predicate AtRest(cfg: Config, s: State) {
    forall a :: Internal(a) ==> Do(cfg, s, a) == s
  }

  /** With neither end failed, the ends are at rest exactly when all is quiet or the call is abandoned. */
  lemma RestsExactly(cfg: Config, s: State)
    requires Inv(cfg, s) && !Failed(s)
    ensures AtRest(cfg, s) <==> Quiet(s) || Abandoned(s)
  {
    if !Quiet(s) && !Abandoned(s) {
      var a := SomeActionMoves(cfg, s);
      assert Internal(a) && Do(cfg, s, a) != s;
    }
  }

  lemma ActionKeepsStop(cfg: Config, s: State, a: Action)
    requires Internal(a)
    ensures var t := Do(cfg, s, a);
      && (Failed(s) ==> Failed(t)) && t.calls == s.calls
      && (!Failed(t) ==> (t.client.Stopped? <==> s.client.Stopped?)) && (s.client.Stopped? ==> t.seen == s.seen)
  {
  }

  /** The ends alone start no call, and neither stop nor resume the consumer. */
  lemma {:induction false} MovesKeepStop(cfg: Config, s: State, more: seq<Action>)
    requires Moves(cfg, s, more) && !Failed(After(cfg, s, more))
    ensures var t := After(cfg, s, more);
      && !Failed(s) && t.calls == s.calls && (t.client.Stopped? <==> s.client.Stopped?)
      && (s.client.Stopped? ==> t.seen == s.seen)
    decreases |more|
  {
    if more != [] {
      ActionKeepsStop(cfg, s, more[0]);
      MovesKeepStop(cfg, Do(cfg, s, more[0]), more[1..]);
    }
  }

  /**
   From every reachable state, however the two ends take turns, they come to rest within Work(s)
   actions.  Unless one fails, the pending call has then returned, its event finished, exactly if the
   consumer had not stopped without seeing the event.
   */
  lemma CallsEnd(cfg: Config, actions: seq<Action>, more: seq<Action>)
    requires Moves(cfg, Run(cfg, actions), more)
    ensures var s := Run(cfg, actions); var t := After(cfg, s, more);
      && |more| <= Work(s)
      && (!Failed(t) && AtRest(cfg, t) ==>
          (t.server.Ready? && |t.returned| == |t.finished| == t.calls <==> !(s.client.Stopped? && |s.seen| < s.calls)))
  {
    var s, t := Run(cfg, actions), After(cfg, Run(cfg, actions), more);
    RunKeepsInv(cfg, actions);
    MovesAreBounded(cfg, s, more);
    if !Failed(t) && AtRest(cfg, t) {
      MovesKeepStop(cfg, s, more);
      RestReturns(cfg, t);
      if s.client.Stopped? {
        assert t.seen == s.seen;
      }
    }
  }

  lemma RestReturns(cfg: Config, t: State)
    requires Inv(cfg, t) && !Failed(t) && AtRest(cfg, t)
    ensures t.server.Ready? && |t.returned| == |t.finished| == t.calls <==> !(t.client.Stopped? && |t.seen| < t.calls)
  {
    RestsExactly(cfg, t);
    ConnectedEndsMove(cfg, t);
    if t.server.Ready? {
      ReadyMeansReturned(cfg, t);
    }
  }

  lemma ReadyMeansReturned(cfg: Config, s: State)
    requires Inv(cfg, s) && s.server.Ready?
    ensures |s.returned| == |s.finished| == |s.seen| == s.calls
  {
    EventsOfPrefix(s.toClient.sent, s.toClient.read);
    if |s.toServer.sent| > HelloLength(cfg) {
      ClientSendsAcksNext(cfg, s);
    }
  }

  lemma RunOfOneMore(cfg: Config, actions: seq<Action>, a: Action)
    ensures Run(cfg, actions + [a]) == Do(cfg, Run(cfg, actions), a)
  {
    assert (actions + [a])[..|actions|] == actions;
  }

  /** The handshake of two ends that only know version 0. */
  lemma HandshakeOfZero(cfg: Config) returns (actions: seq<Action>)
    requires cfg == Config([0], [0], map[])
    ensures var s := Run(cfg, actions); Quiet(s) && s.client.Connected? && s.calls == s.counter == 0
  {
    actions := [];
    RunOfOneMore(cfg, actions, ServerAccepts);
    actions := actions + [ServerAccepts];
    RunOfOneMore(cfg, actions, ClientReceives);
    actions := actions + [ClientReceives];
    NegotiatesFirstCommon(cfg.offered, cfg.supported);
    assert Run(cfg, actions).client == Negotiated(0);
    RunOfOneMore(cfg, actions, ServerReceives);
    TruncateOfInteger(0);
    actions := actions + [ServerReceives];
    assert Run(cfg, actions).server == Ready(0, None);
    RunOfOneMore(cfg, actions, ClientProceeds);
    actions := actions + [ClientProceeds];
  }

  /** One cycle whose consumer stops. */
  lemma StopAfterCycle(cfg: Config, s: State, call: Call) returns (t: State)
    requires Quiet(s) && s.client.Connected? && call.CallCycle?
    ensures t == DoServerReceive(cfg, DoServerReceive(cfg, DoFinish(DoClientReceive(cfg, DoCall(s, call)), true)))
    ensures Quiet(t) && t.client.Stopped?
  {
    var called := DoCall(s, call);
    var event := called.toClient.sent[called.toClient.read].event;
    WireKeepsEvent(event);
    var seen := DoClientReceive(cfg, called);
    assert seen.client.Consuming? && seen.client.event == event;
    var stopped := DoFinish(seen, true);
    t := DoServerReceive(cfg, DoServerReceive(cfg, stopped));
  }

  /** A run at whose end the call waits for a consumer that has stopped. */
  lemma StoppedConsumerAbandonsCall(cfg: Config, call: Call) returns (actions: seq<Action>)
    requires cfg == Config([0], [0], map[]) && call.CallCycle?
    ensures var s := Run(cfg, actions); Abandoned(s) && AtRest(cfg, s) && !Failed(s)
  {
    actions := HandshakeOfZero(cfg);
    var t := StopAfterCycle(cfg, Run(cfg, actions), call);
    RunOfOneMore(cfg, actions, ServerCalls(call));
    actions := actions + [ServerCalls(call)];
    RunOfOneMore(cfg, actions, ClientReceives);
    actions := actions + [ClientReceives];
    RunOfOneMore(cfg, actions, ConsumerStops);
    actions := actions + [ConsumerStops];
    RunOfOneMore(cfg, actions, ServerReceives);
    actions := actions + [ServerReceives];
    RunOfOneMore(cfg, actions, ServerReceives);
    actions := actions + [ServerReceives];
    assert Run(cfg, actions) == t;
    RunOfOneMore(cfg, actions, ServerCalls(call));
    actions := actions + [ServerCalls(call)];
    RunKeepsInv(cfg, actions);
    RestsExactly(cfg, Run(cfg, actions));
  }

  /** There is a common version, and the requested capabilities are fit for it. */
  predicate Compatible(cfg: Config) {
    && Agreed(cfg).Some?
    && if Agreed(cfg).value > 0 then ReadCaps(JObj(cfg.requested)).Ok? else cfg.requested == map[]
  }

  predicate Lost(s: State) {
    (s.client.ClientFailed? && s.client.reason == ConnectionLost) || (s.server.ServerFailed? && s.server.reason == ConnectionLost)
  }

  lemma ActionLosesNothing(cfg: Config, s: State, a: Action)
    requires !Lost(s) && !a.ServerLoses? && !a.ClientLoses?
    ensures !Lost(Do(cfg, s, a))
  {
  }

  lemma {:induction false} NothingIsLost(cfg: Config, actions: seq<Action>)
    requires ServerLoses !in actions && ClientLoses !in actions
    ensures !Lost(Run(cfg, actions))
  {
    if actions != [] {
      assert actions[|actions| - 1] in actions;
      NothingIsLost(cfg, actions[..|actions| - 1]);
      ActionLosesNothing(cfg, Run(cfg, actions[..|actions| - 1]), actions[|actions| - 1]);
    }
  }

  /** Without a lost connection both ends come through the handshake exactly if they are compatible. */
  lemma HandshakeSucceedsExactly(cfg: Config, actions: seq<Action>)
    requires ServerLoses !in actions && ClientLoses !in actions && AtRest(cfg, Run(cfg, actions))
    ensures var s := Run(cfg, actions); ServerReady(s) && ClientConnected(s) <==> Compatible(cfg)
  {
    var s := Run(cfg, actions);
    RunKeepsInv(cfg, actions);
    NothingIsLost(cfg, actions);
    if Compatible(cfg) {
      assert !Failed(s);
      RestsExactly(cfg, s);
    }
    if ServerReady(s) && ClientConnected(s) {
      HandshakeAgrees(cfg, actions);
    }
  }

  lemma CallTakesFour(cfg: Config, s: State, call: Call, more: seq<Action>)
    requires Inv(cfg, s) && Quiet(s) && Moves(cfg, DoCall(s, call), more)
    ensures |more| <= 4
  {
    assert Inv(cfg, DoCall(s, call)) by {
      ActionKeepsInv(cfg, s, ServerCalls(call));
    }
    CallsAddLittle(s, call);
    MovesAreBounded(cfg, DoCall(s, call), more);
  }

  /** Once all is quiet a further call comes to rest within four actions, whatever happened before. */
  lemma FourActionsPerCall(cfg: Config, actions: seq<Action>, call: Call, more: seq<Action>)
    requires Quiet(Run(cfg, actions)) && Moves(cfg, DoCall(Run(cfg, actions), call), more)
    ensures |more| <= 4
  {
    RunKeepsInv(cfg, actions);
    CallTakesFour(cfg, Run(cfg, actions), call, more);
  }

  /******* The two loops, on the messages that arrive *******/

  datatype Outcome = Returned(completed: bool) | Rejected | Waiting

  predicate IsResponse(m: Message, id: int) {
    (m.CycleStarted? || m.CycleCompleted? || m.CycleFailed? || m.CycleAborted?) && m.id == id
  }

  /**
   awaitCycleResponse: it skips STARTED messages of its cycle and ends with the first other message,
   returning normally exactly if that ends the cycle; it waits on if there is none.
   */
  method AwaitCycleResponse(responses: seq<Message>, id: int) returns (outcome: Outcome, n: nat)
    ensures n <= |responses| && forall i :: 0 <= i < n - 1 ==> responses[i] == CycleStarted(id)
    ensures outcome.Waiting? ==> n == |responses| && forall i :: 0 <= i < n ==> responses[i] == CycleStarted(id)
    ensures !outcome.Waiting? ==> n > 0 && responses[n - 1] != CycleStarted(id)
    ensures !outcome.Waiting? ==> (outcome.Rejected? <==> !IsResponse(responses[n - 1], id))
    ensures outcome.Returned? ==> (outcome.completed <==> responses[n - 1] == CycleCompleted(id))
  {
    n := 0;
    while n < |responses|
      invariant n <= |responses| && forall i :: 0 <= i < n ==> responses[i] == CycleStarted(id)
    {
      var resp := responses[n];
      n := n + 1;
      if !(resp.CycleStarted? || resp.CycleCompleted? || resp.CycleFailed? || resp.CycleAborted?) {
        return Rejected, n;
      }
      if resp.id != id {
        return Rejected, n;
      }
      match resp
      case CycleStarted(_) =>
      case CycleAborted(_) => return Returned(false), n;
      case CycleFailed(_) => return Returned(false), n;
      case CycleCompleted(_) => return Returned(true), n;
    }
    return Waiting, n;
  }

  /** Receiving one message after the other. */
  function ReceiveTimes(cfg: Config, s: State, n: nat): State {
    if n == 0 then s else DoServerReceive(cfg, ReceiveTimes(cfg, s, n - 1))
  }

  /** One round of the loop: what the server is after a response. */
  ghost predicate AwaitsThrough(s: State, t: State, m: Message)
    requires s.server.AwaitResponse?
  {
    && t.server == (if !IsResponse(m, s.server.id) then ServerFailed(s.server, ProtocolError)
                    else if m.CycleStarted? then s.server else Ready(s.server.version, s.server.caps))
    && t.returned == if m == CycleCompleted(s.server.id) then s.returned + [s.server.id] else s.returned
  }

  lemma ServerAwaitsOne(cfg: Config, s: State)
    requires s.server.AwaitResponse? && s.toServer.read < |s.toServer.sent|
    ensures AwaitsThrough(s, DoServerReceive(cfg, s), s.toServer.sent[s.toServer.read])
    ensures DoServerReceive(cfg, s).toServer == Received(s.toServer)
  {
  }

  /** The server of the composed system goes through that loop, one message a step. */
  lemma {:induction false} ServerAwaits(cfg: Config, s: State, n: nat)
    requires s.server.AwaitResponse? && 0 < n && s.toServer.read + n <= |s.toServer.sent|
    requires forall i :: s.toServer.read <= i < s.toServer.read + n - 1 ==> s.toServer.sent[i] == CycleStarted(s.server.id)
    ensures var t := ReceiveTimes(cfg, s, n);
      t.toServer == s.toServer.(read := s.toServer.read + n) && AwaitsThrough(s, t, s.toServer.sent[s.toServer.read + n - 1])
  {
    assert ReceiveTimes(cfg, s, 0) == s;
    if n > 1 {
      ServerAwaits(cfg, s, n - 1);
      assert s.toServer.sent[s.toServer.read + n - 2] == CycleStarted(s.server.id);
    }
    ServerAwaitsOne(cfg, ReceiveTimes(cfg, s, n - 1));
  }

  /** The acknowledgements of some events. */
  function AcksOf(events: seq<CycleEvent>): seq<Message> {
    if events == [] then []
    else
      var id := events[|events| - 1].id;
      AcksOf(events[..|events| - 1]) + [CycleStarted(id), CycleCompleted(id)]
  }

  /**
   AwaitCycle, for a consumer that takes up to wants events: every cycle read is handed to the
   consumer between its STARTED and its COMPLETED, and reading stops when the consumer does.
   */
  method AwaitCycle(messages: seq<Message>, wants: nat) returns (seen: seq<CycleEvent>, sent: seq<Message>, n: nat)
    requires wants > 0
    ensures n <= |messages| && seen == Events(messages[..n]) && sent == AcksOf(seen)
    ensures |seen| <= wants && (|seen| < wants ==> n == |messages|)
    ensures |seen| == wants ==> n > 0 && messages[n - 1].Cyclic?
  {
    seen, sent, n := [], [], 0;
    while n < |messages|
      invariant n <= |messages| && seen == Events(messages[..n]) && sent == AcksOf(seen) && |seen| < wants
    {
      var m := messages[n];
      assert messages[..n + 1] == messages[..n] + [m];
      EventsOfOneMore(messages[..n], m);
      n := n + 1;
      if m.Cyclic? {
        WireKeepsEvent(m.event);
        var converted := ConvertWireCycle(ToWire(m.event));
        var event := converted.value;
        sent := sent + [CycleStarted(event.id)];
        seen := seen + [event];
        sent := sent + [CycleCompleted(event.id)];
        assert seen[..|seen| - 1] == Events(messages[..n - 1]);
        if |seen| == wants {
          return;
        }
      }
    }
  }
}

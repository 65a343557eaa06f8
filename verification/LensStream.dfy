/** The Lens device stream: sessions of the GraphQL over WebSocket Protocol, one
    after another with a growing wait between them.  Everything the network, the
    token source and the emitter do is a script. */
module LensStream {
  import opened Basics
  import opened GoStrings
  import opened Backoff

  // ------------------------------------------------------------- outside world

  /** A device as a payload describes it. */
  datatype Device = Device(id: string, tenant: string, connected: bool)

  /** What a read gives: an error, or a frame.  A frame's payload may not decode, and
      of the points sent for it only so many may be accepted. */
  datatype Incoming = ReadFails | Frame(kind: string, payload: Option<Device>, accepted: nat)

  datatype SessionScript = SessionScript(
    token: Option<string>,
    dials: bool,
    handshakeCloses: bool,
    initWrites: bool,
    acknowledgement: Incoming,
    subscribeWrites: bool,
    gaugeAccepted: bool,
    frames: seq<Incoming>,
    closes: bool)

  /** One round of the reconnect loop: what happens before its session (except in
      the first round), the session, and whether the caller has cancelled by then. */
  datatype Round = Round(
    countAccepted: bool,
    cancelledWhileCounting: bool,
    waits: bool,
    session: SessionScript,
    cancelled: bool)

  // -------------------------------------------------------------------- traces

  datatype Metric = DeviceConnected | MessageCount | LastMessage

  datatype Event =
    | Begin
    | Dialed
    | SentInit
    | GotAck
    | SentSubscribe
    | Up
    | Point(metric: Metric, value: int, tenant: string, device: string)
    | Down
    | Closed
    | Reconnect
    | Waited(nanoseconds: int)

  datatype Error =
    | NoToken | DialFailed | HandshakeCloseFailed | InitFailed | NoAck | WrongAck | SubscribeFailed
    | GaugeFailed | ReadFailed | BadPayload | PointRejected | Completed | SubscriptionError | CloseFailed

  /** Two errors joined, of which the first is kept; none only if there is neither. */
  function JoinErrors(a: Option<Error>, b: Option<Error>): Option<Error> {
    if a.Some? then a else b
  }

  function CloseError(s: SessionScript): Option<Error> {
    if s.closes then None else Some(CloseFailed)
  }

  function Points(d: Device): seq<Event> {
    [Point(DeviceConnected, if d.connected then 1 else 0, d.tenant, d.id),
     Point(MessageCount, 1, d.tenant, d.id),
     Point(LastMessage, 0, d.tenant, d.id)]
  }

  /** The points sent for a device payload, and the error that ends the session. */
  function EmitTrace(payload: Option<Device>, accepted: nat): (seq<Event>, Option<Error>) {
    if payload.None? || payload.value.id == "" || payload.value.tenant == "" then ([], Some(BadPayload))
    else if accepted >= 3 then (Points(payload.value), None)
    else (Points(payload.value)[..accepted], Some(PointRejected))
  }

  /** The read loop of a subscribed session, with the error it returns. */
  function LiveTrace(frames: seq<Incoming>): (seq<Event>, Option<Error>) {
    if frames == [] || frames[0].ReadFails? then ([], Some(ReadFailed))
    else if frames[0].kind == "next" then
      var (points, err) := EmitTrace(frames[0].payload, frames[0].accepted);
      if err.Some? then (points, err)
      else
        var (more, last) := LiveTrace(frames[1..]);
        (points + more, last)
    else if frames[0].kind == "complete" then ([], Some(Completed))
    else if frames[0].kind == "error" then ([], Some(SubscriptionError))
    else LiveTrace(frames[1..])
  }

  /** A session from its open connection to the end of its subscription. */
  function OpenTrace(s: SessionScript): (seq<Event>, Option<Error>) {
    if !s.handshakeCloses then ([], Some(HandshakeCloseFailed))
    else if !s.initWrites then ([], Some(InitFailed))
    else if s.acknowledgement.ReadFails? then ([SentInit], Some(NoAck))
    else if s.acknowledgement.kind != "connection_ack" then ([SentInit], Some(WrongAck))
    else if !s.subscribeWrites then ([SentInit, GotAck], Some(SubscribeFailed))
    else if !s.gaugeAccepted then ([SentInit, GotAck, SentSubscribe], Some(GaugeFailed))
    else
      var (points, err) := LiveTrace(s.frames);
      ([SentInit, GotAck, SentSubscribe, Up] + points + [Down], err)
  }

  function SessionTrace(s: SessionScript): (seq<Event>, Option<Error>) {
    if s.token.None? || TrimSpace(s.token.value) == "" then ([Begin], Some(NoToken))
    else if !s.dials then ([Begin], Some(DialFailed))
    else
      var (events, err) := OpenTrace(s);
      ([Begin, Dialed] + events + [Closed], JoinErrors(err, CloseError(s)))
  }

  /** However many frames it reads, a subscription ends with an error. */
  lemma {:induction false} LiveErrs(frames: seq<Incoming>)
    ensures LiveTrace(frames).1.Some?
  {
    if frames != [] && !frames[0].ReadFails? {
      LiveErrs(frames[1..]);
    }
  }

  /** No session succeeds, whatever happens to it. */
  lemma SessionErrs(s: SessionScript)
    ensures SessionTrace(s).1.Some?
  {
    LiveErrs(s.frames);
  }

  datatype Ending = Running | Cancelled | CountRejected | SessionSucceeded

  /** What comes before the session of the n-th round, and whether it ends the loop. */
  function PauseTrace(min: int64, max: int64, r: Round, n: nat): (seq<Event>, Option<Ending>) {
    if n == 0 then ([], None)
    else if !r.countAccepted then ([], Some(if r.cancelledWhileCounting then Cancelled else CountRejected))
    else if !r.waits then ([Reconnect], Some(Cancelled))
    else ([Reconnect, Waited(Wait(min as int, max as int, n))], None)
  }

  /** The reconnect loop from its n-th round on; a script that is used up leaves it running. */
  function RunTrace(min: int64, max: int64, rounds: seq<Round>, n: nat): (seq<Event>, Ending)
    requires n <= |rounds|
    decreases |rounds| - n
  {
    if n == |rounds| then ([], Running)
    else
      var (pause, ended) := PauseTrace(min, max, rounds[n], n);
      if ended.Some? then (pause, ended.value)
      else
        var now := pause + SessionTrace(rounds[n].session).0;
        if rounds[n].cancelled then (now, Cancelled)
        else if SessionTrace(rounds[n].session).1.None? then (now, SessionSucceeded)
        else
          var (more, ending) := RunTrace(min, max, rounds, n + 1);
          (now + more, ending)
  }

  // ---------------------------------------------------------------- the stream

  datatype Config = Config(url: string, hasToken: bool, deviceCount: nat, hasEmitter: bool, ackTimeout: int,
                           min: int64, max: int64)

  /** What the settings must satisfy before anything is attempted. */
  predicate Validate(c: Config) {
    && TrimSpace(c.url) != "" && c.hasToken && c.deviceCount != 0 && c.hasEmitter && c.ackTimeout > 0
    && !(c.min <= 0 || c.max < c.min)
  }

  datatype Result = Invalid | Ended(ending: Ending)

  class Stream {
    const cfg: Config
    var trace: seq<Event>

    constructor (cfg: Config)
      ensures this.cfg == cfg && trace == []
    {
      this.cfg, trace := cfg, [];
    }

    /** Sends the three points of a device payload until one is rejected. */
    method EmitDevice(payload: Option<Device>, accepted: nat) returns (err: Option<Error>)
      modifies this
      ensures trace == old(trace) + EmitTrace(payload, accepted).0
      ensures err == EmitTrace(payload, accepted).1
      ensures payload.None? || payload.value.id == "" || payload.value.tenant == "" ==>
        err == Some(BadPayload) && trace == old(trace)
      ensures payload.Some? && payload.value.id != "" && payload.value.tenant != "" ==>
        var d := payload.value;
        var three := [Point(DeviceConnected, if d.connected then 1 else 0, d.tenant, d.id),
                      Point(MessageCount, 1, d.tenant, d.id), Point(LastMessage, 0, d.tenant, d.id)];
        && (accepted >= 3 ==> err == None && trace == old(trace) + three)
        && (accepted < 3 ==> err == Some(PointRejected) && trace == old(trace) + three[..accepted])
    {
      if payload.None? || payload.value.id == "" || payload.value.tenant == "" {
        return Some(BadPayload);
      }
      var d := payload.value;
      var points := Points(d);
      for i := 0 to |points|
        invariant trace == old(trace) + points[..i]
        invariant i <= accepted
      {
        if i == accepted {
          return Some(PointRejected);
        }
        trace := trace + [points[i]];
      }
      err := None;
    }

    /** Reads frames for as long as the subscription lives. */
    method Live(frames: seq<Incoming>) returns (err: Option<Error>)
      modifies this
      ensures trace == old(trace) + LiveTrace(frames).0
      ensures err == LiveTrace(frames).1
    {
      err := Some(ReadFailed);
      ghost var goal := trace + LiveTrace(frames).0;
      ghost var last := LiveTrace(frames).1;
      assert frames[0..] == frames;
      var i := 0;
      while i < |frames| && !frames[i].ReadFails?
        invariant i <= |frames|
        invariant err == Some(ReadFailed)
        invariant goal == trace + LiveTrace(frames[i..]).0
        invariant last == LiveTrace(frames[i..]).1
      {
        LiveUnfolds(frames, i, trace);
        if frames[i].kind == "next" {
          var rejected := EmitDevice(frames[i].payload, frames[i].accepted);
          if rejected.Some? {
            return rejected;
          }
        } else if frames[i].kind == "complete" {
          return Some(Completed);
        } else if frames[i].kind == "error" {
          return Some(SubscriptionError);
        }
        i := i + 1;
      }
      assert trace + [] == trace;
    }

    /** From an open connection to the end of the subscription. */
    method Converse(s: SessionScript) returns (err: Option<Error>)
      modifies this
      ensures trace == old(trace) + OpenTrace(s).0
      ensures err == OpenTrace(s).1
    {
      if !s.handshakeCloses {
        return Some(HandshakeCloseFailed);
      }
      if !s.initWrites {
        return Some(InitFailed);
      }
      trace := trace + [SentInit];
      if s.acknowledgement.ReadFails? {
        return Some(NoAck);
      }
      if s.acknowledgement.kind != "connection_ack" {
        return Some(WrongAck);
      }
      trace := trace + [GotAck];
      if !s.subscribeWrites {
        return Some(SubscribeFailed);
      }
      trace := trace + [SentSubscribe];
      if !s.gaugeAccepted {
        return Some(GaugeFailed);
      }
      trace := trace + [Up];
      assert trace == old(trace) + [SentInit, GotAck, SentSubscribe, Up];
      err := Live(s.frames);
      trace := trace + [Down];
    }

    /** One session, up to the closing of its connection. */
    method Session(s: SessionScript) returns (err: Option<Error>)
      modifies this
      ensures trace == old(trace) + SessionTrace(s).0
      ensures err == SessionTrace(s).1
    {
      trace := trace + [Begin];
      if s.token.None? || TrimSpace(s.token.value) == "" {
        return Some(NoToken);
      }
      if !s.dials {
        return Some(DialFailed);
      }
      trace := trace + [Dialed];
      err := Converse(s);
      trace := trace + [Closed];
      err := JoinErrors(err, CloseError(s));
    }

    /** Before every session but the first: count the reconnect, then wait. */
    method Pause(round: Round, failures: nat) returns (ended: Option<Ending>)
      requires Validate(cfg)
      modifies this
      ensures ended == PauseTrace(cfg.min, cfg.max, round, failures).1
      ensures trace == old(trace) + PauseTrace(cfg.min, cfg.max, round, failures).0
    {
      if failures == 0 {
        return None;
      }
      if !round.countAccepted {
        return Some(if round.cancelledWhileCounting then Cancelled else CountRejected);
      }
      trace := trace + [Reconnect];
      if !round.waits {
        return Some(Cancelled);
      }
      var wait, _ := Compute(cfg.min, cfg.max, failures);
      trace := trace + [Waited(wait as int)];
      ended := None;
    }

    /** Reconnects until the caller cancels or a reconnect cannot be counted. */
    method Run(rounds: seq<Round>) returns (r: Result)
      modifies this
      ensures r == Invalid <==>
        || TrimSpace(cfg.url) == "" || !cfg.hasToken || cfg.deviceCount == 0 || !cfg.hasEmitter
        || cfg.ackTimeout <= 0 || cfg.min <= 0 || cfg.max < cfg.min
      ensures !Validate(cfg) ==> r == Invalid && trace == old(trace)
      ensures Validate(cfg) ==>
        && trace == old(trace) + RunTrace(cfg.min, cfg.max, rounds, 0).0
        && r == Ended(RunTrace(cfg.min, cfg.max, rounds, 0).1)
    {
      if !Validate(cfg) {
        return Invalid;
      }
      var failures := 0;
      ghost var goal := trace + RunTrace(cfg.min, cfg.max, rounds, 0).0;
      ghost var ending := RunTrace(cfg.min, cfg.max, rounds, 0).1;
      while failures < |rounds|
        invariant failures <= |rounds|
        invariant goal == trace + RunTrace(cfg.min, cfg.max, rounds, failures).0
        invariant ending == RunTrace(cfg.min, cfg.max, rounds, failures).1
      {
        var round := rounds[failures];
        RunUnfolds(cfg.min, cfg.max, rounds, failures, trace);
        var ended := Pause(round, failures);
        if ended.Some? {
          return Ended(ended.value);
        }
        var err := Session(round.session);
        if round.cancelled {
          return Ended(Cancelled);
        }
        if err.None? {
          return Ended(SessionSucceeded);
        }
        failures := failures + 1;
      }
      assert trace + [] == trace;
      r := Ended(Running);
    }
  }

  /** One round of the loop, seen from what has been sent before it. */
  lemma RunUnfolds(min: int64, max: int64, rounds: seq<Round>, n: nat, sent: seq<Event>)
    requires n < |rounds|
    ensures
      var (pause, ended) := PauseTrace(min, max, rounds[n], n);
      var all := RunTrace(min, max, rounds, n);
      var after := sent + pause + SessionTrace(rounds[n].session).0;
      if ended.Some? then sent + all.0 == sent + pause && all.1 == ended.value
      else if rounds[n].cancelled then sent + all.0 == after && all.1 == Cancelled
      else if SessionTrace(rounds[n].session).1.None? then sent + all.0 == after && all.1 == SessionSucceeded
      else
        var rest := RunTrace(min, max, rounds, n + 1);
        sent + all.0 == after + rest.0 && all.1 == rest.1
  {
    var pause := PauseTrace(min, max, rounds[n], n).0;
    var session := SessionTrace(rounds[n].session).0;
    var more := RunTrace(min, max, rounds, n + 1).0;
    Associate(sent, pause, session);
    Associate(sent, pause + session, more);
  }

  /** One frame of the read loop, seen from what has been sent before it. */
  lemma LiveUnfolds(frames: seq<Incoming>, i: nat, sent: seq<Event>)
    requires i < |frames| && !frames[i].ReadFails?
    ensures
      var f := frames[i];
      var all, rest := LiveTrace(frames[i..]), LiveTrace(frames[i + 1..]);
      if f.kind == "next" then
        var (points, err) := EmitTrace(f.payload, f.accepted);
        if err.Some? then sent + all.0 == sent + points && all.1 == err
        else sent + all.0 == sent + points + rest.0 && all.1 == rest.1
      else if f.kind == "complete" then sent + all.0 == sent && all.1 == Some(Completed)
      else if f.kind == "error" then sent + all.0 == sent && all.1 == Some(SubscriptionError)
      else all == rest
  {
    assert frames[i..][1..] == frames[i + 1..];
    Associate(sent, EmitTrace(frames[i].payload, frames[i].accepted).0, LiveTrace(frames[i + 1..]).0);
    assert sent + [] == sent;
  }

}

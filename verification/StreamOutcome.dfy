/** What a stream does for each script, said of the script alone: how far a session gets,
    which points a subscription yields and what ends it, and which rounds a run has. */
module StreamOutcome {
  import opened Basics
  import opened GoStrings
  import opened Backoff
  import opened LensStream
  import opened StreamLanguage

  // ------------------------------------------------------------ a subscription

  /** A frame that brings a device update with all its points accepted. */
  predicate Updates(f: Incoming) {
    && f.Frame? && f.kind == "next" && f.payload.Some?
    && f.payload.value.id != "" && f.payload.value.tenant != "" && f.accepted >= 3
  }

  /** A frame that neither ends the subscription nor yields anything. */
  predicate Idles(f: Incoming) {
    f.Frame? && f.kind != "next" && f.kind != "complete" && f.kind != "error"
  }

  /** The i-th read ends the subscription, none before it does. */
  ghost predicate EndsAt(frames: seq<Incoming>, i: nat) {
    && i <= |frames|
    && (forall j :: 0 <= j < i ==> Updates(frames[j]) || Idles(frames[j]))
    && (i < |frames| ==> !Updates(frames[i]) && !Idles(frames[i]))
  }

  function ThreePoints(d: Device): seq<Event> {
    [Point(DeviceConnected, if d.connected then 1 else 0, d.tenant, d.id), Point(MessageCount, 1, d.tenant, d.id),
     Point(LastMessage, 0, d.tenant, d.id)]
  }

  /** The points of the updates among some frames. */
  function Yield(frames: seq<Incoming>): seq<Event> {
    if frames == [] then []
    else (if Updates(frames[0]) then ThreePoints(frames[0].payload.value) else []) + Yield(frames[1..])
  }

  /** What the frame that ends a subscription still yields, and the error it ends with. */
  function LastWords(frames: seq<Incoming>, i: nat): (seq<Event>, Error)
    requires i <= |frames|
  {
    if i == |frames| || frames[i].ReadFails? then ([], ReadFailed)
    else if frames[i].kind == "complete" then ([], Completed)
    else if frames[i].kind == "error" then ([], SubscriptionError)
    else if frames[i].payload.None? || frames[i].payload.value.id == "" || frames[i].payload.value.tenant == "" then
      ([], BadPayload)
    else
      var points := ThreePoints(frames[i].payload.value);
      (points[..if frames[i].accepted < 3 then frames[i].accepted else 3], PointRejected)
  }

  /** A subscription yields the three points of every update, in order, until the first
      frame that completes it, fails, or carries a bad or rejected update. */
  lemma {:induction false} LiveExact(frames: seq<Incoming>, i: nat)
    requires EndsAt(frames, i)
    ensures LiveTrace(frames) == (Yield(frames[..i]) + LastWords(frames, i).0, Some(LastWords(frames, i).1))
  {
    if i > 0 {
      var rest := frames[1..];
      assert forall j :: 0 <= j < i - 1 ==> rest[j] == frames[j + 1];
      LiveExact(rest, i - 1);
      LiveFirst(frames);
      YieldFirst(frames, i, LastWords(frames, i).0);
      assert LastWords(rest, i - 1) == LastWords(frames, i);
    } else {
      assert frames[..0] == [];
      LiveLast(frames);
    }
  }

  lemma LiveLast(frames: seq<Incoming>)
    requires EndsAt(frames, 0)
    ensures LiveTrace(frames) == ([] + LastWords(frames, 0).0, Some(LastWords(frames, 0).1))
  {
    assert [] + LastWords(frames, 0).0 == LastWords(frames, 0).0;
    if frames != [] && frames[0].Frame? && frames[0].kind == "next" && frames[0].payload.Some? {
      var points := ThreePoints(frames[0].payload.value);
      assert points[..3] == points;
    }
  }

  lemma YieldFirst(frames: seq<Incoming>, i: nat, last: seq<Event>)
    requires 0 < i <= |frames|
    ensures Yield(frames[..i]) + last
         == (if Updates(frames[0]) then ThreePoints(frames[0].payload.value) else [])
            + (Yield(frames[1..][..i - 1]) + last)
  {
    assert frames[..i][1..] == frames[1..][..i - 1] && frames[..i][0] == frames[0];
    Associate(if Updates(frames[0]) then ThreePoints(frames[0].payload.value)
              else [], Yield(frames[1..][..i - 1]), last);
  }

  lemma LiveFirst(frames: seq<Incoming>)
    requires frames != [] && (Updates(frames[0]) || Idles(frames[0]))
    ensures
      var (more, last) := LiveTrace(frames[1..]);
      LiveTrace(frames) == ((if Updates(frames[0]) then ThreePoints(frames[0].payload.value) else []) + more, last)
  {
    assert [] + LiveTrace(frames[1..]).0 == LiveTrace(frames[1..]).0;
  }

  lemma {:induction false} SomewhereEnds(frames: seq<Incoming>) returns (i: nat)
    ensures EndsAt(frames, i)
  {
    i := 0;
    if frames != [] && (Updates(frames[0]) || Idles(frames[0])) {
      i := SomewhereEnds(frames[1..]);
      assert forall j :: 0 < j < |frames| ==> frames[j] == frames[1..][j - 1];
      i := i + 1;
    }
  }

  // -------------------------------------------------------------- one session

  predicate HasToken(s: SessionScript) {
    s.token.Some? && TrimSpace(s.token.value) != ""
  }

  predicate Opens(s: SessionScript) {
    HasToken(s) && s.dials
  }

  predicate Initialises(s: SessionScript) {
    Opens(s) && s.handshakeCloses && s.initWrites
  }

  predicate Acknowledges(s: SessionScript) {
    Initialises(s) && s.acknowledgement.Frame? && s.acknowledgement.kind == "connection_ack"
  }

  predicate Subscribes(s: SessionScript) {
    Acknowledges(s) && s.subscribeWrites
  }

  predicate Lives(s: SessionScript) {
    Subscribes(s) && s.gaugeAccepted
  }

  /** The same from an open connection on. */
  lemma OpenReaches(s: SessionScript)
    requires Opens(s)
    ensures
      var t := OpenTrace(s).0;
      && Begin !in t && Dialed !in t && Closed !in t
      && (SentInit in t <==> Initialises(s))
      && (GotAck in t <==> Acknowledges(s))
      && (SentSubscribe in t <==> Subscribes(s))
      && (Up in t <==> Lives(s)) && (Down in t <==> Lives(s))
      && ((exists e :: e in t && e.Point?) ==> Lives(s))
  {
    if Lives(s) {
      LiveTraceIsPoints(s.frames);
      var points, early := LiveTrace(s.frames).0, [SentInit, GotAck, SentSubscribe, Up];
      assert forall e :: e in points ==> e.Point?;
      assert OpenTrace(s).0 == early + points + [Down];
      assert Up in early && GotAck in early && SentSubscribe in early;
    }
  }

  /** Each step of a session is taken if and only if all before it succeeded; the gauge is
      cleared exactly when it was set, and the connection closed exactly when it was open. */
  lemma SessionReaches(s: SessionScript)
    ensures
      var t := SessionTrace(s).0;
      && Begin in t
      && (Dialed in t <==> Opens(s)) && (Closed in t <==> Opens(s))
      && (SentInit in t <==> Initialises(s))
      && (GotAck in t <==> Acknowledges(s))
      && (SentSubscribe in t <==> Subscribes(s))
      && (Up in t <==> Lives(s)) && (Down in t <==> Lives(s))
      && ((exists e :: e in t && e.Point?) ==> Lives(s))
  {
    if Opens(s) {
      OpenReaches(s);
      Wrapped(OpenTrace(s).0);
      assert SessionTrace(s).0 == [Begin, Dialed] + OpenTrace(s).0 + [Closed];
    }
  }

  lemma Wrapped(events: seq<Event>)
    ensures forall e :: e in [Begin, Dialed] + events + [Closed] <==>
      e == Begin || e == Dialed || e in events || e == Closed
  {
  }

  /** The points of a session are those of its subscription, if it gets as far. */
  lemma SessionPoints(s: SessionScript, i: nat)
    requires Lives(s) && EndsAt(s.frames, i)
    ensures SessionTrace(s).0
         == [Begin, Dialed] + ([SentInit, GotAck, SentSubscribe, Up] + (Yield(s.frames[..i]) + LastWords(s.frames, i).0)
            + [Down]) + [Closed]
    ensures SessionTrace(s).1 == Some(LastWords(s.frames, i).1)
  {
    LiveExact(s.frames, i);
  }

  /** The error of a session that does not get as far as its subscription. */
  lemma SessionFailure(s: SessionScript)
    requires !Lives(s)
    ensures SessionTrace(s).1 == Some(
      if !HasToken(s) then NoToken
      else if !s.dials then DialFailed
      else if !s.handshakeCloses then HandshakeCloseFailed
      else if !s.initWrites then InitFailed
      else if s.acknowledgement.ReadFails? then NoAck
      else if !Acknowledges(s) then WrongAck
      else if !s.subscribeWrites then SubscribeFailed
      else GaugeFailed)
  {
  }

  // ------------------------------------------------------- the connected gauges

  function ConnectedPoints(trace: seq<Event>): seq<Event> {
    if trace == [] then []
    else
      var before := ConnectedPoints(trace[..|trace| - 1]);
      var e := trace[|trace| - 1];
      if e.Point? && e.metric == DeviceConnected then before + [e] else before
  }

  /** One connected point for each update, with its device's state, tenant and id. */
  function States(frames: seq<Incoming>): seq<Event> {
    if frames == [] then []
    else
      var f := frames[0];
      (if Updates(f) then [Point(DeviceConnected, if f.payload.value.connected then 1 else 0, f.payload.value.tenant,
                                 f.payload.value.id)] else []) + States(frames[1..])
  }

  lemma {:induction false} ConnectedConcat(a: seq<Event>, b: seq<Event>)
    ensures ConnectedPoints(a + b) == ConnectedPoints(a) + ConnectedPoints(b)
  {
    if b == [] {
      assert a + b == a;
    } else {
      ConnectedConcat(a, b[..|b| - 1]);
      assert (a + b)[..|a + b| - 1] == a + b[..|b| - 1];
    }
  }

  lemma ConnectedOfPrefix(d: Device, n: nat)
    requires n <= 3
    ensures ConnectedPoints(ThreePoints(d)[..n]) == if n == 0 then [] else [ThreePoints(d)[0]]
  {
    var p := ThreePoints(d);
    assert p[..1][..0] == [] && p[..2][..1] == p[..1] && p[..3][..2] == p[..2];
    assert ConnectedPoints(p[..1]) == [] + [p[0]];
  }

  lemma {:induction false} ConnectedOfYield(frames: seq<Incoming>)
    ensures ConnectedPoints(Yield(frames)) == States(frames)
  {
    if frames != [] {
      var rest := frames[1..];
      ConnectedOfYield(rest);
      if Updates(frames[0]) {
        var p := ThreePoints(frames[0].payload.value);
        assert p[..3] == p;
        ConnectedOfPrefix(frames[0].payload.value, 3);
        ConnectedConcat(p, Yield(rest));
      } else {
        assert [] + Yield(rest) == Yield(rest);
      }
    }
  }

  lemma {:induction false} NoneConnected(trace: seq<Event>)
    requires forall e :: e in trace ==> !e.Point?
    ensures ConnectedPoints(trace) == []
  {
    if trace != [] {
      assert trace[|trace| - 1] in trace;
      NoneConnected(trace[..|trace| - 1]);
    }
  }

  /** The connected points of a session are, in order, one for each update it processed,
      with that update's state, tenant and id, and one more if the update that ended it
      had its first point accepted; a session without a subscription has none. */
  lemma ConnectedExact(s: SessionScript, i: nat)
    requires EndsAt(s.frames, i)
    ensures ConnectedPoints(SessionTrace(s).0) ==
      if !Lives(s) then []
      else States(s.frames[..i]) + ConnectedPoints(LastWords(s.frames, i).0)
    ensures ConnectedPoints(LastWords(s.frames, i).0)
         == if LastWords(s.frames, i).0 == [] then [] else [ThreePoints(s.frames[i].payload.value)[0]]
  {
    var last := LastWords(s.frames, i).0;
    if last != [] {
      ConnectedOfPrefix(s.frames[i].payload.value, |last|);
    }
    if Lives(s) {
      var points := Yield(s.frames[..i]) + last;
      SessionPoints(s, i);
      ConnectedOfYield(s.frames[..i]);
      ConnectedConcat(Yield(s.frames[..i]), last);
      FramedPoints(points);
    } else {
      SessionReaches(s);
      assert forall e :: e in SessionTrace(s).0 ==> !e.Point?;
      NoneConnected(SessionTrace(s).0);
    }
  }

  lemma FramedPoints(points: seq<Event>)
    ensures ConnectedPoints([Begin, Dialed] + ([SentInit, GotAck, SentSubscribe, Up] + points + [Down]) + [Closed])
         == ConnectedPoints(points)
  {
    var open, early := [Begin, Dialed], [SentInit, GotAck, SentSubscribe, Up];
    NoneConnected(open);
    NoneConnected(early);
    NoneConnected([Down]);
    NoneConnected([Closed]);
    ConnectedConcat(early, points);
    ConnectedConcat(early + points, [Down]);
    ConnectedConcat(open, early + points + [Down]);
    ConnectedConcat(open + (early + points + [Down]), [Closed]);
  }

  // ---------------------------------------------------------------- one run

  /** A round that has its session: the pause before it, if it is not the first. */
  function RoundTrace(min: int64, max: int64, r: Round, k: nat): seq<Event> {
    (if k == 0 then [] else [Reconnect, Waited(Wait(min as int, max as int, k))]) + SessionTrace(r.session).0
  }

  /** Rounds n up to m, one after another. */
  function RoundsTrace(min: int64, max: int64, rounds: seq<Round>, n: nat, m: nat): seq<Event>
    requires n <= m <= |rounds|
    decreases m - n
  {
    if n == m then [] else RoundTrace(min, max, rounds[n], n) + RoundsTrace(min, max, rounds, n + 1, m)
  }

  /** What is left of the round that stops the run. */
  function StoppedTrace(min: int64, max: int64, r: Round, i: nat): seq<Event> {
    if i > 0 && !r.countAccepted then []
    else if i > 0 && !r.waits then [Reconnect]
    else RoundTrace(min, max, r, i)
  }

  /** A run has one session per round, each but the first after one count and the wait of
      that round's backoff, until a round stops it: before its count is taken, before its
      wait is over, or after its session. */
  lemma {:induction false} RunExact(min: int64, max: int64, rounds: seq<Round>, n: nat)
    requires n <= |rounds|
    ensures (forall i :: n <= i < |rounds| ==> !Stops(rounds[i], i)) ==>
      RunTrace(min, max, rounds, n) == (RoundsTrace(min, max, rounds, n, |rounds|), Running)
    ensures forall i: nat :: FirstStop(rounds, n, i) ==>
      RunTrace(min, max, rounds, n)
      == (RoundsTrace(min, max, rounds, n, i) + StoppedTrace(min, max, rounds[i], i),
          if Rejected(rounds[i], i) then CountRejected else Cancelled)
    decreases |rounds| - n
  {
    if n < |rounds| {
      SessionErrs(rounds[n].session);
      PauseExact(min, max, rounds[n], n);
      if Stops(rounds[n], n) {
        assert forall i: nat :: FirstStop(rounds, n, i) ==> i == n;
        assert [] + StoppedTrace(min, max, rounds[n], n) == StoppedTrace(min, max, rounds[n], n);
      } else {
        RunExact(min, max, rounds, n + 1);
        forall i: nat | FirstStop(rounds, n, i)
          ensures FirstStop(rounds, n + 1, i)
          ensures RoundTrace(min, max, rounds[n], n) + (RoundsTrace(min, max, rounds, n + 1, i)
                                                        + StoppedTrace(min, max, rounds[i], i))
               == RoundsTrace(min, max, rounds, n, i) + StoppedTrace(min, max, rounds[i], i)
        {
          Associate(RoundTrace(min, max, rounds[n], n), RoundsTrace(min, max, rounds, n + 1, i),
                    StoppedTrace(min, max, rounds[i], i));
        }
      }
    }
  }

  lemma PauseExact(min: int64, max: int64, r: Round, n: nat)
    ensures
      var (pause, ended) := PauseTrace(min, max, r, n);
      && (ended.None? <==> n == 0 || (r.countAccepted && r.waits))
      && (ended.None? ==> pause + SessionTrace(r.session).0 == RoundTrace(min, max, r, n))
      && (ended.Some? ==> pause == StoppedTrace(min, max, r, n)
                          && ended.value == if Rejected(r, n) then CountRejected else Cancelled)
  {
  }
}

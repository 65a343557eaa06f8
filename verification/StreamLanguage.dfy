/** The language of stream traces, as an automaton that does not look at scripts,
    and what every accepted trace satisfies. */
module StreamLanguage {
  import opened Basics
  import opened Backoff
  import opened LensStream

  /** Where a trace can be; n counts the sessions begun before. */
  datatype State =
    | Ready(n: nat)
    | Counted(n: nat)
    | Begun(n: nat)
    | Open(n: nat)
    | Initialised(n: nat)
    | Acknowledged(n: nat)
    | Subscribed(n: nat)
    | Live(n: nat)
    | Dropped(n: nat)
    | Over(n: nat)

  /** The events that may come next, and where they lead. */
  function Delta(min: int, max: int, s: State, e: Event): Option<State> {
    match e
    case Begin => if s.Ready? then Some(Begun(s.n)) else None
    case Dialed => if s.Begun? then Some(Open(s.n)) else None
    case SentInit => if s.Open? then Some(Initialised(s.n)) else None
    case GotAck => if s.Initialised? then Some(Acknowledged(s.n)) else None
    case SentSubscribe => if s.Acknowledged? then Some(Subscribed(s.n)) else None
    case Up => if s.Subscribed? then Some(Live(s.n)) else None
    case Point(_, _, _, _) => if s.Live? then Some(s) else None
    case Down => if s.Live? then Some(Dropped(s.n)) else None
    case Closed =>
      if s.Open? || s.Initialised? || s.Acknowledged? || s.Subscribed? || s.Dropped? then Some(Over(s.n)) else None
    case Reconnect => if s.Begun? || s.Over? then Some(Counted(s.n + 1)) else None
    case Waited(d) => if s.Counted? && d == Wait(min, max, s.n) then Some(Ready(s.n)) else None
  }

  function Walk(min: int, max: int, s: State, trace: seq<Event>): Option<State> {
    if trace == [] then Some(s)
    else
      match Walk(min, max, s, trace[..|trace| - 1])
      case None => None
      case Some(t) => Delta(min, max, t, trace[|trace| - 1])
  }

  lemma {:induction false} WalkConcat(min: int, max: int, s: State, a: seq<Event>, b: seq<Event>)
    requires Walk(min, max, s, a).Some?
    ensures Walk(min, max, s, a + b) == Walk(min, max, Walk(min, max, s, a).value, b)
  {
    if b == [] {
      assert a + b == a;
    } else {
      WalkConcat(min, max, s, a, b[..|b| - 1]);
      assert (a + b)[..|a + b| - 1] == a + b[..|b| - 1];
    }
  }

  lemma WalkOne(min: int, max: int, s: State, e: Event)
    ensures Walk(min, max, s, [e]) == Delta(min, max, s, e)
  {
    assert [e][..0] == [];
  }

  lemma WalkCons(min: int, max: int, s: State, e: Event, rest: seq<Event>)
    requires Delta(min, max, s, e).Some?
    ensures Walk(min, max, s, [e] + rest) == Walk(min, max, Delta(min, max, s, e).value, rest)
  {
    WalkOne(min, max, s, e);
    WalkConcat(min, max, s, [e], rest);
  }

  // -------------------------------------------------- every run is in the language

  lemma {:induction false} PointsWalk(min: int, max: int, n: nat, events: seq<Event>)
    requires forall i :: 0 <= i < |events| ==> events[i].Point?
    ensures Walk(min, max, Live(n), events) == Some(Live(n))
  {
    if events != [] {
      PointsWalk(min, max, n, events[..|events| - 1]);
    }
  }

  lemma {:induction false} LiveTraceIsPoints(frames: seq<Incoming>)
    ensures forall i :: 0 <= i < |LiveTrace(frames).0| ==> LiveTrace(frames).0[i].Point?
  {
    if frames != [] && !frames[0].ReadFails? {
      LiveTraceIsPoints(frames[1..]);
    }
  }

  lemma OpenTraceWalks(min: int, max: int, n: nat, s: SessionScript)
    ensures Walk(min, max, Open(n), OpenTrace(s).0 + [Closed]) == Some(Over(n))
  {
    var t := OpenTrace(s).0;
    var early := [SentInit, GotAck, SentSubscribe];
    EarlyWalk(min, max, n);
    if s.handshakeCloses && s.initWrites && s.acknowledgement.Frame? && s.acknowledgement.kind == "connection_ack"
       && s.subscribeWrites && s.gaugeAccepted {
      var points := LiveTrace(s.frames).0;
      LiveTraceIsPoints(s.frames);
      LiveWalk(min, max, n, points);
      assert t == early + ([Up] + points + [Down]);
      WalkConcat(min, max, Open(n), early, [Up] + points + [Down]);
    } else {
      assert t == early[..|t|];
    }
    WalkConcat(min, max, Open(n), t, [Closed]);
    WalkOne(min, max, Walk(min, max, Open(n), t).value, Closed);
  }

  /** The opening messages, however many of them were exchanged. */
  lemma EarlyWalk(min: int, max: int, n: nat)
    ensures
      var early := [SentInit, GotAck, SentSubscribe];
      && Walk(min, max, Open(n), early[..0]) == Some(Open(n))
      && Walk(min, max, Open(n), early[..1]) == Some(Initialised(n))
      && Walk(min, max, Open(n), early[..2]) == Some(Acknowledged(n))
      && Walk(min, max, Open(n), early[..3]) == Some(Subscribed(n))
      && early[..3] == early
  {
    var early := [SentInit, GotAck, SentSubscribe];
    assert early[..1][..0] == early[..0] && early[..2][..1] == early[..1] && early[..3][..2] == early[..2];
  }

  lemma LiveWalk(min: int, max: int, n: nat, points: seq<Event>)
    requires forall i :: 0 <= i < |points| ==> points[i].Point?
    ensures Walk(min, max, Subscribed(n), [Up] + points + [Down]) == Some(Dropped(n))
  {
    WalkCons(min, max, Subscribed(n), Up, points);
    PointsWalk(min, max, n, points);
    WalkConcat(min, max, Subscribed(n), [Up] + points, [Down]);
    WalkOne(min, max, Live(n), Down);
  }

  /** A session leads from ready to over, or ends before it ever dials. */
  lemma SessionWalks(min: int, max: int, n: nat, s: SessionScript)
    ensures
      var end := Walk(min, max, Ready(n), SessionTrace(s).0);
      end == Some(Begun(n)) || end == Some(Over(n))
  {
    WalkOne(min, max, Ready(n), Begin);
    OpenTraceWalks(min, max, n, s);
    DialledWalks(min, max, n, OpenTrace(s).0);
  }

  lemma DialledWalks(min: int, max: int, n: nat, events: seq<Event>)
    ensures Walk(min, max, Ready(n), [Begin, Dialed] + events + [Closed]) == Walk(min, max, Open(n), events + [Closed])
  {
    var inner := events + [Closed];
    WalkCons(min, max, Begun(n), Dialed, inner);
    WalkCons(min, max, Ready(n), Begin, [Dialed] + inner);
    assert [Begin, Dialed] + events + [Closed] == [Begin] + ([Dialed] + inner);
  }

  /** Where the loop stands before its n-th round. */
  ghost predicate Between(s: State, n: nat) {
    if n == 0 then s == Ready(0) else s == Begun(n - 1) || s == Over(n - 1)
  }

  lemma PauseWalks(min: int64, max: int64, r: Round, n: nat, s: State)
    requires Between(s, n)
    ensures
      var (pause, ended) := PauseTrace(min, max, r, n);
      var end := Walk(min as int, max as int, s, pause);
      end.Some? && (ended.None? ==> end.value == Ready(n))
  {
    if n > 0 {
      var wait := Waited(Wait(min as int, max as int, n));
      WalkOne(min as int, max as int, s, Reconnect);
      WalkOne(min as int, max as int, Counted(n), wait);
      WalkConcat(min as int, max as int, s, [Reconnect], [wait]);
      assert [Reconnect] + [wait] == [Reconnect, wait];
    }
  }

  /** One round that reaches its session. */
  lemma RoundWalks(min: int64, max: int64, r: Round, n: nat, s: State)
    requires Between(s, n) && PauseTrace(min, max, r, n).1.None?
    ensures
      var end := Walk(min as int, max as int, s, PauseTrace(min, max, r, n).0 + SessionTrace(r.session).0);
      end.Some? && Between(end.value, n + 1)
  {
    PauseWalks(min, max, r, n, s);
    SessionWalks(min as int, max as int, n, r.session);
    WalkConcat(min as int, max as int, s, PauseTrace(min, max, r, n).0, SessionTrace(r.session).0);
  }

  /** A run that its n-th round ends stays in the language. */
  lemma LastRoundWalks(min: int64, max: int64, rounds: seq<Round>, n: nat, s: State)
    requires n < |rounds| && Between(s, n)
    requires PauseTrace(min, max, rounds[n], n).1.Some? || rounds[n].cancelled
        || SessionTrace(rounds[n].session).1.None?
    ensures Walk(min as int, max as int, s, RunTrace(min, max, rounds, n).0).Some?
  {
    if PauseTrace(min, max, rounds[n], n).1.Some? {
      PauseWalks(min, max, rounds[n], n, s);
    } else {
      RoundWalks(min, max, rounds[n], n, s);
    }
  }

  /** A trace that may come from wherever the loop stands before its n-th round. */
  ghost predicate Fits(min: int, max: int, n: nat, trace: seq<Event>) {
    if n == 0 then Walk(min, max, Ready(0), trace).Some?
    else Walk(min, max, Begun(n - 1), trace).Some? && Walk(min, max, Over(n - 1), trace).Some?
  }

  /** A run that goes on after its n-th round stays in the language if what follows does. */
  lemma MoreRoundsWalk(min: int64, max: int64, rounds: seq<Round>, n: nat, s: State)
    requires n < |rounds| && Between(s, n)
    requires PauseTrace(min, max, rounds[n], n).1.None? && !rounds[n].cancelled
        && SessionTrace(rounds[n].session).1.Some?
    requires Fits(min as int, max as int, n + 1, RunTrace(min, max, rounds, n + 1).0)
    ensures Walk(min as int, max as int, s, RunTrace(min, max, rounds, n).0).Some?
  {
    var now := PauseTrace(min, max, rounds[n], n).0 + SessionTrace(rounds[n].session).0;
    RoundWalks(min, max, rounds[n], n, s);
    WalkConcat(min as int, max as int, s, now, RunTrace(min, max, rounds, n + 1).0);
  }

  lemma RoundWalksOn(min: int64, max: int64, rounds: seq<Round>, n: nat, s: State)
    requires n < |rounds| && Between(s, n)
    requires Fits(min as int, max as int, n + 1, RunTrace(min, max, rounds, n + 1).0)
    ensures Walk(min as int, max as int, s, RunTrace(min, max, rounds, n).0).Some?
  {
    if PauseTrace(min, max, rounds[n], n).1.Some? || rounds[n].cancelled || SessionTrace(rounds[n].session).1.None? {
      LastRoundWalks(min, max, rounds, n, s);
    } else {
      MoreRoundsWalk(min, max, rounds, n, s);
    }
  }

  lemma RoundFits(min: int64, max: int64, rounds: seq<Round>, n: nat)
    requires n < |rounds| && Fits(min as int, max as int, n + 1, RunTrace(min, max, rounds, n + 1).0)
    ensures Fits(min as int, max as int, n, RunTrace(min, max, rounds, n).0)
  {
    if n == 0 {
      RoundWalksOn(min, max, rounds, n, Ready(0));
    } else {
      RoundWalksOn(min, max, rounds, n, Begun(n - 1));
      RoundWalksOn(min, max, rounds, n, Over(n - 1));
    }
  }

  /** Every run from any round on stays in the language, whatever the script. */
  lemma {:induction false} RunWalks(min: int64, max: int64, rounds: seq<Round>, n: nat)
    requires n <= |rounds|
    ensures Fits(min as int, max as int, n, RunTrace(min, max, rounds, n).0)
    decreases |rounds| - n
  {
    if n < |rounds| {
      RunWalks(min, max, rounds, n + 1);
      RoundFits(min, max, rounds, n);
    }
  }

  lemma EveryRunIsInTheLanguage(min: int64, max: int64, rounds: seq<Round>)
    ensures Walk(min as int, max as int, Ready(0), RunTrace(min, max, rounds, 0).0).Some?
  {
    RunWalks(min, max, rounds, 0);
  }

  // ----------------------------------------------------- what the language implies

  lemma {:induction false} PrefixWalks(min: int, max: int, s: State, trace: seq<Event>, i: nat)
    requires Walk(min, max, s, trace).Some? && i <= |trace|
    ensures Walk(min, max, s, trace[..i]).Some?
  {
    if i == |trace| {
      assert trace[..i] == trace;
    } else {
      PrefixWalks(min, max, s, trace[..|trace| - 1], i);
      assert trace[..|trace| - 1][..i] == trace[..i];
    }
  }

  lemma StepAt(min: int, max: int, s: State, trace: seq<Event>, i: nat)
    requires Walk(min, max, s, trace).Some? && i < |trace|
    ensures Walk(min, max, s, trace[..i]).Some?
    ensures Walk(min, max, s, trace[..i + 1]) == Delta(min, max, Walk(min, max, s, trace[..i]).value, trace[i])
    ensures Walk(min, max, s, trace[..i + 1]).Some?
  {
    PrefixWalks(min, max, s, trace, i);
    PrefixWalks(min, max, s, trace, i + 1);
    assert trace[..i + 1][..i] == trace[..i];
  }

  /** Whether an event may directly follow another. */
  predicate MayFollow(e: Event, before: Event) {
    match e
    case Begin => before.Waited?
    case Dialed => before.Begin?
    case SentInit => before.Dialed?
    case GotAck => before.SentInit?
    case SentSubscribe => before.GotAck?
    case Up => before.SentSubscribe?
    case Point(_, _, _, _) => before.Up? || before.Point?
    case Down => before.Up? || before.Point?
    case Closed => before.Dialed? || before.SentInit? || before.GotAck? || before.SentSubscribe? || before.Down?
    case Reconnect => before.Begin? || before.Closed?
    case Waited(_) => before.Reconnect?
  }

  /** In an accepted trace a subscription directly follows the acknowledgement of
      the same connection, points directly follow the gauge or other points, and
      each session after the first directly follows one count and one wait. */
  lemma EachEventFollows(min: int, max: int, trace: seq<Event>, i: nat)
    requires Walk(min, max, Ready(0), trace).Some? && 0 < i < |trace|
    ensures MayFollow(trace[i], trace[i - 1])
  {
    StepAt(min, max, Ready(0), trace, i - 1);
    StepAt(min, max, Ready(0), trace, i);
  }

  lemma FirstIsBegin(min: int, max: int, trace: seq<Event>)
    requires Walk(min, max, Ready(0), trace).Some? && trace != []
    ensures trace[0].Begin?
  {
    StepAt(min, max, Ready(0), trace, 0);
    assert trace[..0] == [];
  }

  function CountIf(trace: seq<Event>, p: Event -> bool): nat {
    if trace == [] then 0
    else CountIf(trace[..|trace| - 1], p) + (if p(trace[|trace| - 1]) then 1 else 0)
  }

  function Ups(trace: seq<Event>): nat { CountIf(trace, (e: Event) => e.Up?) }
  function Downs(trace: seq<Event>): nat { CountIf(trace, (e: Event) => e.Down?) }
  function Reconnects(trace: seq<Event>): nat { CountIf(trace, (e: Event) => e.Reconnect?) }
  function Begins(trace: seq<Event>): nat { CountIf(trace, (e: Event) => e.Begin?) }

  /** The counts of events, read off the state a trace leads to. */
  lemma {:induction false} CountsMatchState(min: int, max: int, trace: seq<Event>)
    requires Walk(min, max, Ready(0), trace).Some?
    ensures
      var s := Walk(min, max, Ready(0), trace).value;
      && Ups(trace) == Downs(trace) + (if s.Live? then 1 else 0)
      && Reconnects(trace) == s.n
      && Begins(trace) == s.n + (if s.Ready? || s.Counted? then 0 else 1)
  {
    if trace != [] {
      CountsMatchState(min, max, trace[..|trace| - 1]);
    }
  }

  /** Connected gauges alternate: at every moment the ones exceed the zeros by at
      most one, and not at all outside a live subscription. */
  lemma GaugesAlternate(min: int, max: int, trace: seq<Event>, i: nat)
    requires Walk(min, max, Ready(0), trace).Some? && i <= |trace|
    ensures Downs(trace[..i]) <= Ups(trace[..i]) <= Downs(trace[..i]) + 1
    ensures i > 0 && (trace[i - 1].Closed? || trace[i - 1].Reconnect? || trace[i - 1].Begin?)
        ==> Ups(trace[..i]) == Downs(trace[..i])
  {
    PrefixWalks(min, max, Ready(0), trace, i);
    CountsMatchState(min, max, trace[..i]);
    if i > 0 {
      StepAt(min, max, Ready(0), trace, i - 1);
    }
  }

  /** The k-th wait is the k-th backoff, and it is the k-th session that follows. */
  lemma WaitsGrow(min: int, max: int, trace: seq<Event>, i: nat)
    requires Walk(min, max, Ready(0), trace).Some? && i < |trace|
    requires trace[i].Waited?
    ensures trace[i].nanoseconds == Wait(min, max, Reconnects(trace[..i]))
    ensures Begins(trace[..i]) == Reconnects(trace[..i])
  {
    StepAt(min, max, Ready(0), trace, i);
    CountsMatchState(min, max, trace[..i]);
  }

  // ------------------------------------------------------------ how a run can end

  /** What ends the loop in its i-th round: cancellation, seen after the session or
      while pausing, or a reconnect that cannot be counted. */
  predicate Stops(r: Round, i: nat) {
    r.cancelled || (i > 0 && (!r.countAccepted || !r.waits))
  }

  predicate Rejected(r: Round, i: nat) {
    i > 0 && !r.countAccepted && !r.cancelledWhileCounting
  }

  ghost predicate FirstStop(rounds: seq<Round>, n: nat, i: nat) {
    n <= i < |rounds| && Stops(rounds[i], i) && forall j :: n <= j < i ==> !Stops(rounds[j], j)
  }

  /** Sessions alone never end a run, for none of them succeeds: it goes on unless
      some round stops it, and then it fails exactly when the first round that does
      could not count its reconnect without having been cancelled. */
  lemma {:induction false} EndsOnlyIf(min: int64, max: int64, rounds: seq<Round>, n: nat)
    requires n <= |rounds|
    ensures RunTrace(min, max, rounds, n).1 == Running <==> forall i :: n <= i < |rounds| ==> !Stops(rounds[i], i)
    ensures RunTrace(min, max, rounds, n).1 == CountRejected
            <==> exists i: nat :: FirstStop(rounds, n, i) && Rejected(rounds[i], i)
    ensures RunTrace(min, max, rounds, n).1 != SessionSucceeded
    decreases |rounds| - n
  {
    if n < |rounds| {
      if Stops(rounds[n], n) {
        assert FirstStop(rounds, n, n);
        assert forall i: nat :: FirstStop(rounds, n, i) ==> i == n;
      } else {
        SessionErrs(rounds[n].session);
        EndsOnlyIf(min, max, rounds, n + 1);
        assert forall i: nat :: FirstStop(rounds, n, i) <==> FirstStop(rounds, n + 1, i);
      }
    }
  }
}

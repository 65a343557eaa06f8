/** The phone status collector: one gauge per possible state of each phone, then its
    network statistics if the phone answers. */
module PhoneStatus {
  import opened Basics
  import Handshake

  const STATES := ["ok", "api_disabled", "auth_failed", "unreachable"]

  predicate ValidState(state: string) {
    state == "ok" || state == "api_disabled" || state == "auth_failed" || state == "unreachable"
  }

  /** One phone: what its probe reports, how many state gauges are accepted, whether
      its statistics can be read and decoded, and how many of their points are
      accepted. */
  datatype Target = Target(state: string, probeFails: bool, gaugesAccepted: nat, statsOk: bool, pointsAccepted: nat)

  datatype Event =
    | StateGauge(target: nat, state: string, value: nat)
    | ReadStats(target: nat)
    | StatPoint(target: nat, stat: Stat)

  /** The statistics of a phone, in the order they are sent. */
  datatype Stat = Uptime | PacketsReceived | PacketsSent

  const STATS := [Uptime, PacketsReceived, PacketsSent]

  /** The state that is reported: failed probes and unknown states are unreachable. */
  function Effective(t: Target): (state: string)
    ensures ValidState(state)
  {
    if t.probeFails || !ValidState(t.state) then "unreachable" else t.state
  }

  function Gauges(n: nat, state: string, count: nat): seq<Event>
    requires count <= |STATES|
  {
    if count == 0 then []
    else Gauges(n, state, count - 1) + [StateGauge(n, STATES[count - 1], if STATES[count - 1] == state then 1 else 0)]
  }

  function StatPoints(n: nat, count: nat): seq<Event>
    requires count <= |STATS|
  {
    if count == 0 then [] else StatPoints(n, count - 1) + [StatPoint(n, STATS[count - 1])]
  }

  function Min(a: nat, b: nat): nat {
    if a < b then a else b
  }

  /** What is sent and read for a phone, and whether the run goes on to the next. */
  function TargetTrace(n: nat, t: Target): (seq<Event>, bool) {
    var gauges := Gauges(n, Effective(t), Min(t.gaugesAccepted, 4));
    if t.gaugesAccepted < 4 then (gauges, false)
    else if Effective(t) != "ok" then (gauges, true)
    else if !t.statsOk then (gauges + [ReadStats(n)], false)
    else (gauges + [ReadStats(n)] + StatPoints(n, Min(t.pointsAccepted, 3)), t.pointsAccepted >= 3)
  }

  function RunTrace(targets: seq<Target>): (seq<Event>, bool) {
    if targets == [] then ([], true)
    else
      var n := |targets| - 1;
      var (before, ok) := RunTrace(targets[..n]);
      if !ok then (before, false)
      else
        var (now, more) := TargetTrace(n, targets[n]);
        (before + now, more)
  }

  class Collector {
    var trace: seq<Event>

    constructor ()
      ensures trace == []
    {
      trace := [];
    }

    method CollectTarget(n: nat, t: Target) returns (ok: bool)
      modifies this
      ensures trace == old(trace) + TargetTrace(n, t).0
      ensures ok == TargetTrace(n, t).1
    {
      var state := t.state;
      if t.probeFails || !ValidState(state) {
        state := "unreachable";
      }
      ok := SendGauges(n, state, t.gaugesAccepted);
      if !ok || state != "ok" {
        return;
      }
      trace := trace + [ReadStats(n)];
      if !t.statsOk {
        return false;
      }
      ok := SendPoints(n, t.pointsAccepted);
    }

    /** One gauge for each state, until one is rejected. */
    method SendGauges(n: nat, state: string, accepted: nat) returns (ok: bool)
      modifies this
      ensures trace == old(trace) + Gauges(n, state, Min(accepted, 4))
      ensures ok == (accepted >= 4)
    {
      for i := 0 to |STATES|
        invariant i <= accepted
        invariant trace == old(trace) + Gauges(n, state, i)
      {
        if i == accepted {
          return false;
        }
        var value := 0;
        if STATES[i] == state {
          value := 1;
        }
        trace := trace + [StateGauge(n, STATES[i], value)];
      }
      ok := true;
    }

    /** The three points of the statistics, until one is rejected. */
    method SendPoints(n: nat, accepted: nat) returns (ok: bool)
      modifies this
      ensures trace == old(trace) + StatPoints(n, Min(accepted, 3))
      ensures ok == (accepted >= 3)
    {
      for i := 0 to |STATS|
        invariant i <= accepted
        invariant trace == old(trace) + StatPoints(n, i)
      {
        if i == accepted {
          return false;
        }
        trace := trace + [StatPoint(n, STATS[i])];
      }
      ok := true;
    }

    /** The targets one after another, until one of them ends the run. */
    method Collect(targets: seq<Target>) returns (ok: bool)
      modifies this
      ensures trace == old(trace) + RunTrace(targets).0
      ensures ok == RunTrace(targets).1
    {
      ok := true;
      for n := 0 to |targets|
        invariant trace == old(trace) + RunTrace(targets[..n]).0
        invariant ok == RunTrace(targets[..n]).1
      {
        RunTraceSnoc(targets, n, old(trace));
        if ok {
          ok := CollectTarget(n, targets[n]);
        }
      }
      assert targets[..|targets|] == targets;
    }
  }

  /** One more target, seen from what was sent before the run. */
  lemma RunTraceSnoc(targets: seq<Target>, n: nat, sent: seq<Event>)
    requires n < |targets|
    ensures
      var before, after := RunTrace(targets[..n]), RunTrace(targets[..n + 1]);
      var now := TargetTrace(n, targets[n]);
      if before.1 then sent + after.0 == sent + before.0 + now.0 && after.1 == now.1
      else after == before
  {
    assert targets[..n + 1][..n] == targets[..n];
    Associate(sent, RunTrace(targets[..n]).0, TargetTrace(n, targets[n]).0);
  }

  // ------------------------------------------------------------------ one-hot

  /** A phone whose gauges all went out, in a run that reached it. */
  ghost predicate Reported(targets: seq<Target>, i: nat) {
    i < |targets| && RunTrace(targets[..i]).1 && targets[i].gaugesAccepted >= 4
  }

  lemma ReportedIff(targets: seq<Target>, i: nat)
    ensures Reported(targets, i) <==>
      i < |targets| && targets[i].gaugesAccepted >= 4 && NoneEnds(targets[..i])
  {
    if i < |targets| {
      GoesOnIff(targets[..i]);
    }
  }

  function GaugesFor(trace: seq<Event>, i: nat): seq<Event> {
    if trace == [] then []
    else
      var before := GaugesFor(trace[..|trace| - 1], i);
      var e := trace[|trace| - 1];
      if e.StateGauge? && e.target == i then before + [e] else before
  }

  lemma {:induction false} GaugesForConcat(a: seq<Event>, b: seq<Event>, i: nat)
    ensures GaugesFor(a + b, i) == GaugesFor(a, i) + GaugesFor(b, i)
  {
    if b == [] {
      assert a + b == a;
    } else {
      GaugesForConcat(a, b[..|b| - 1], i);
      assert (a + b)[..|a + b| - 1] == a + b[..|b| - 1];
    }
  }

  lemma GaugesForSnoc(events: seq<Event>, e: Event, i: nat)
    ensures GaugesFor(events + [e], i) == GaugesFor(events, i) + (if e.StateGauge? && e.target == i then [e] else [])
  {
    assert (events + [e])[..|events|] == events;
  }

  lemma {:induction false} GaugesForGauges(n: nat, state: string, count: nat, i: nat)
    requires count <= |STATES|
    ensures GaugesFor(Gauges(n, state, count), i) == if i == n then Gauges(n, state, count) else []
  {
    if count > 0 {
      GaugesForGauges(n, state, count - 1, i);
      var value := if STATES[count - 1] == state then 1 else 0;
      GaugesForSnoc(Gauges(n, state, count - 1), StateGauge(n, STATES[count - 1], value), i);
    }
  }

  lemma {:induction false} GaugesForOthers(events: seq<Event>, i: nat)
    requires forall k :: 0 <= k < |events| ==> !events[k].StateGauge?
    ensures GaugesFor(events, i) == []
  {
    if events != [] {
      GaugesForOthers(events[..|events| - 1], i);
    }
  }

  lemma {:induction false} StatPointsAreNotGauges(n: nat, count: nat)
    requires count <= |STATS|
    ensures forall k :: 0 <= k < |StatPoints(n, count)| ==> StatPoints(n, count)[k].StatPoint?
  {
    if count > 0 {
      StatPointsAreNotGauges(n, count - 1);
    }
  }

  /** The gauges in a trace of gauges, a read and points. */
  lemma GaugesOfPart(n: nat, state: string, count: nat, points: nat, i: nat)
    requires count <= |STATES| && points <= |STATS|
    ensures
      var gauges := Gauges(n, state, count);
      var own := if i == n then gauges else [];
      && GaugesFor(gauges, i) == own && GaugesFor(gauges + [ReadStats(n)], i) == own
      && GaugesFor(gauges + [ReadStats(n)] + StatPoints(n, points), i) == own
  {
    var gauges := Gauges(n, state, count);
    GaugesForGauges(n, state, count, i);
    GaugesForSnoc(gauges, ReadStats(n), i);
    StatPointsAreNotGauges(n, points);
    GaugesForOthers(StatPoints(n, points), i);
    GaugesForConcat(gauges + [ReadStats(n)], StatPoints(n, points), i);
  }

  /** A phone's part of the trace holds its gauges and no one else's, and a read of
      its statistics exactly when its gauges went out and its state is ok. */
  lemma TargetPart(n: nat, t: Target, i: nat)
    ensures GaugesFor(TargetTrace(n, t).0, i)
         == if i == n then Gauges(n, Effective(t), Min(t.gaugesAccepted, 4)) else []
    ensures ReadStats(i) in TargetTrace(n, t).0 <==> i == n && t.gaugesAccepted >= 4 && Effective(t) == "ok"
  {
    GaugesOfPart(n, Effective(t), Min(t.gaugesAccepted, 4), Min(t.pointsAccepted, 3), i);
    GaugesAreGauges(n, Effective(t), Min(t.gaugesAccepted, 4));
    StatPointsAreNotGauges(n, Min(t.pointsAccepted, 3));
  }

  lemma {:induction false} GaugesAreGauges(n: nat, state: string, count: nat)
    requires count <= |STATES|
    ensures forall k :: 0 <= k < |Gauges(n, state, count)| ==> Gauges(n, state, count)[k].StateGauge?
  {
    if count > 0 {
      GaugesAreGauges(n, state, count - 1);
    }
  }

  /** In every run, each phone that is reported yields exactly the gauges of the
      four states for its effective state, and statistics are read exactly for the
      reported phones whose state is ok. */
  lemma {:induction false} StatusIsExact(targets: seq<Target>, i: nat)
    ensures Reported(targets, i) ==> GaugesFor(RunTrace(targets).0, i) == Gauges(i, Effective(targets[i]), 4)
    ensures i >= |targets| ==> GaugesFor(RunTrace(targets).0, i) == []
    ensures ReadStats(i) in RunTrace(targets).0 <==> Reported(targets, i) && Effective(targets[i]) == "ok"
  {
    if targets != [] {
      var n := |targets| - 1;
      StatusIsExact(targets[..n], i);
      if i < n {
        assert targets[..n][..i] == targets[..i];
      } else {
        assert targets[..n][..n] == targets[..n];
      }
      var before := RunTrace(targets[..n]);
      if before.1 {
        TargetPart(n, targets[n], i);
        GaugesForConcat(before.0, TargetTrace(n, targets[n]).0, i);
      } else if i < n && Reported(targets, i) {
        assert Reported(targets[..n], i);
      }
    }
  }

  function Ones(events: seq<Event>): nat {
    if events == [] then 0
    else
      var e := events[|events| - 1];
      Ones(events[..|events| - 1]) + (if e.StateGauge? && e.value == 1 then 1 else 0)
  }

  lemma OneHotPrefix(i: nat, state: string)
    requires ValidState(state)
    ensures
      var g := Gauges(i, state, 4);
      && g == [StateGauge(i, "ok", if state == "ok" then 1 else 0),
               StateGauge(i, "api_disabled", if state == "api_disabled" then 1 else 0),
               StateGauge(i, "auth_failed", if state == "auth_failed" then 1 else 0),
               StateGauge(i, "unreachable", if state == "unreachable" then 1 else 0)]
      && StateGauge(i, state, 1) in g
  {
    assert Gauges(i, state, 1) == Gauges(i, state, 0) + [StateGauge(i, STATES[0], if STATES[0] == state then 1 else 0)];
    assert Gauges(i, state, 2) == Gauges(i, state, 1) + [StateGauge(i, STATES[1], if STATES[1] == state then 1 else 0)];
    assert Gauges(i, state, 3) == Gauges(i, state, 2) + [StateGauge(i, STATES[2], if STATES[2] == state then 1 else 0)];
  }

  lemma OnesOfFour(a: Event, b: Event, c: Event, d: Event)
    requires a.StateGauge? && b.StateGauge? && c.StateGauge? && d.StateGauge?
    ensures Ones([a, b, c, d]) ==
      (if a.value == 1 then 1 else 0) + (if b.value == 1 then 1 else 0) + (if c.value == 1 then 1 else 0)
          + (if d.value == 1 then 1 else 0)
  {
    assert [a][..0] == [] && [a, b][..1] == [a] && [a, b, c][..2] == [a, b] && [a, b, c, d][..3] == [a, b, c];
    assert Ones([a]) == if a.value == 1 then 1 else 0;
    assert Ones([a, b]) == Ones([a]) + if b.value == 1 then 1 else 0;
    assert Ones([a, b, c]) == Ones([a, b]) + if c.value == 1 then 1 else 0;
  }

  lemma GaugesAreOneHot(i: nat, state: string)
    requires ValidState(state)
    ensures |Gauges(i, state, 4)| == 4 && Ones(Gauges(i, state, 4)) == 1
    ensures StateGauge(i, state, 1) in Gauges(i, state, 4)
  {
    OneHotPrefix(i, state);
    var g := Gauges(i, state, 4);
    OnesOfFour(g[0], g[1], g[2], g[3]);
    assert g == [g[0], g[1], g[2], g[3]];
  }

  /** Exactly one of a reported phone's four gauges is 1: that of its state. */
  lemma OneHot(targets: seq<Target>, i: nat)
    requires Reported(targets, i)
    ensures |GaugesFor(RunTrace(targets).0, i)| == 4 && Ones(GaugesFor(RunTrace(targets).0, i)) == 1
    ensures StateGauge(i, Effective(targets[i]), 1) in GaugesFor(RunTrace(targets).0, i)
  {
    StatusIsExact(targets, i);
    GaugesAreOneHot(i, Effective(targets[i]));
  }

  // ------------------------------------------------------------ what ends a run

  /** A phone that ends the run: a gauge is rejected or, for one that is ok, its statistics
      cannot be had or one of their points is rejected. */
  predicate EndsRun(t: Target) {
    || t.gaugesAccepted < 4
    || (!t.probeFails && t.state == "ok" && (!t.statsOk || t.pointsAccepted < 3))
  }

  /** What is sent and read for a phone that is reached: its gauges up to the first that is
      rejected, then for one that is ok a read and, if that succeeds, uptime, packets
      received and packets sent, up to the first that is rejected. */
  lemma TargetExact(n: nat, t: Target)
    ensures TargetTrace(n, t).1 <==> !EndsRun(t)
    ensures
      var gauges := Gauges(n, Effective(t), if t.gaugesAccepted < 4 then t.gaugesAccepted else 4);
      var three := [StatPoint(n, Uptime), StatPoint(n, PacketsReceived), StatPoint(n, PacketsSent)];
      TargetTrace(n, t).0 ==
        if t.gaugesAccepted < 4 || t.probeFails || t.state != "ok" then gauges
        else if !t.statsOk then gauges + [ReadStats(n)]
        else gauges + [ReadStats(n)] + three[..if t.pointsAccepted < 3 then t.pointsAccepted else 3]
  {
    var three := [StatPoint(n, Uptime), StatPoint(n, PacketsReceived), StatPoint(n, PacketsSent)];
    PointsInOrder(n);
    assert three[..0] == [] && three[..3] == three;
  }

  lemma PointsInOrder(n: nat)
    ensures
      var three := [StatPoint(n, Uptime), StatPoint(n, PacketsReceived), StatPoint(n, PacketsSent)];
      forall k :: 0 <= k <= 3 ==> StatPoints(n, k) == three[..k]
  {
    var three := [StatPoint(n, Uptime), StatPoint(n, PacketsReceived), StatPoint(n, PacketsSent)];
    assert StatPoints(n, 0) == three[..0];
    assert StatPoints(n, 1) == three[..1];
    assert StatPoints(n, 2) == three[..2];
    assert StatPoints(n, 3) == three[..3];
  }

  ghost predicate NoneEnds(targets: seq<Target>) {
    forall i :: 0 <= i < |targets| ==> !EndsRun(targets[i])
  }

  lemma NoneEndsSnoc(targets: seq<Target>, t: Target)
    ensures NoneEnds(targets + [t]) <==> NoneEnds(targets) && !EndsRun(t)
  {
    var all := targets + [t];
    assert all[|targets|] == t && forall i :: 0 <= i < |targets| ==> all[i] == targets[i];
  }

  lemma RunGoesOn(targets: seq<Target>)
    requires targets != []
    ensures
      var n := |targets| - 1;
      RunTrace(targets).1 <==> RunTrace(targets[..n]).1 && TargetTrace(n, targets[n]).1
  {
  }

  /** A phone is reached if and only if none before it ends the run, and the run succeeds
      if and only if none does. */
  lemma {:induction false} GoesOnIff(targets: seq<Target>)
    ensures RunTrace(targets).1 <==> NoneEnds(targets)
  {
    if targets != [] {
      var n := |targets| - 1;
      GoesOnIff(targets[..n]);
      RunGoesOn(targets);
      TargetExact(n, targets[n]);
      NoneEndsSnoc(targets[..n], targets[n]);
      assert targets == targets[..n] + [targets[n]];
    }
  }

  /** The trace is that of the phones reached, one after another. */
  lemma {:induction false} RunUpTo(targets: seq<Target>, n: nat)
    requires n <= |targets| && NoneEnds(targets[..n])
    ensures RunTrace(targets[..n]).1
    ensures n < |targets| ==> RunTrace(targets[..n + 1]).0 == RunTrace(targets[..n]).0 + TargetTrace(n, targets[n]).0
    ensures n < |targets| && EndsRun(targets[n]) ==> RunTrace(targets) == RunTrace(targets[..n + 1])
  {
    GoesOnIff(targets[..n]);
    if n < |targets| {
      assert targets[..n + 1][..n] == targets[..n];
      TargetExact(n, targets[n]);
      if EndsRun(targets[n]) {
        EndedStays(targets, n + 1);
      }
    }
  }

  lemma {:induction false} EndedStays(targets: seq<Target>, n: nat)
    requires n <= |targets| && !RunTrace(targets[..n]).1
    ensures RunTrace(targets) == RunTrace(targets[..n])
  {
    if n == |targets| {
      assert targets[..n] == targets;
    } else {
      var m := |targets| - 1;
      assert targets[..m][..n] == targets[..n];
      EndedStays(targets[..m], n);
    }
  }

  // --------------------------------------------------- told by the phones' replies

  /** A phone as the client meets it: how it answers challenges, what the phone replies
      to the probe, and what becomes of the gauges, the statistics and their points. */
  datatype Phone = Phone(answer: Handshake.Answerer, replies: seq<Handshake.Reply>, cnonce: Option<string>,
                         gaugesAccepted: nat, statsOk: bool, pointsAccepted: nat)

  function StateName(state: Handshake.State): string {
    match state
    case OK => "ok"
    case ApiDisabled => "api_disabled"
    case AuthFailed => "auth_failed"
    case PhoneUnreachable => "unreachable"
  }

  function ProbeOf(phone: Phone): Handshake.Probed {
    Handshake.ProbeRun(phone.answer, phone.replies, 0, phone.cnonce).result
  }

  function Met(phone: Phone): Target {
    var p := ProbeOf(phone);
    Target(StateName(p.state), p.err.Some?, phone.gaugesAccepted, phone.statsOk, phone.pointsAccepted)
  }

  function AllMet(phones: seq<Phone>): seq<Target> {
    seq(|phones|, i requires 0 <= i < |phones| => Met(phones[i]))
  }

  /** What makes a phone count as reachable: an accepted probe, or a challenged one that
      then succeeds. */
  ghost predicate Reachable(phone: Phone) {
    var first := Handshake.ReplyTo(phone.replies, 0);
    || Handshake.Has(first, 200) || Handshake.Has(first, 201) || Handshake.Has(first, 202) || Handshake.Has(first, 204)
    || (Handshake.Challenged(first) && first.challenge != ""
        && Handshake.Succeeds(Handshake.Deciding(phone.answer, phone.replies, 0, phone.cnonce)))
  }

  /** The state reported is the one the probe found, errors included. */
  lemma ReportedState(phone: Phone)
    ensures Effective(Met(phone)) == StateName(ProbeOf(phone).state)
    ensures Effective(Met(phone)) == "ok" <==> Reachable(phone)
    ensures Effective(Met(phone)) == "api_disabled" <==> Handshake.Has(Handshake.ReplyTo(phone.replies, 0), 404)
  {
    Handshake.ProbeStates(phone.answer, phone.replies, 0, phone.cnonce);
  }

  /** For every script of every phone's replies: of a reported phone's four gauges
      exactly one is 1, that of the state its replies amount to, and its statistics are
      read exactly when the probe was accepted, at once or after the challenge. */
  lemma StatusFollowsReplies(phones: seq<Phone>, i: nat)
    requires i < |phones|
    ensures
      var targets := AllMet(phones);
      var gauges := GaugesFor(RunTrace(targets).0, i);
      && (Reported(targets, i) ==>
            |gauges| == 4 && Ones(gauges) == 1 && StateGauge(i, StateName(ProbeOf(phones[i]).state), 1) in gauges)
      && (ReadStats(i) in RunTrace(targets).0 <==> Reported(targets, i) && Reachable(phones[i]))
  {
    ReportedState(phones[i]);
    StatusIsExact(AllMet(phones), i);
    if Reported(AllMet(phones), i) {
      OneHot(AllMet(phones), i);
    }
  }
}

/** What one phone's turn in a call-log run does, said of the three groups the phone
    lists and of what goes wrong, without the row loop. */
module CallLogOutcome {
  import opened Basics
  import opened Watermarks
  import opened AtomicFile
  import opened CallLogs

  // ------------------------------------------------------------ what is listed

  function Group(logs: Logs, d: Direction): seq<Record> {
    match d
    case Placed => logs.placed
    case Received => logs.received
    case Missed => logs.missed
  }

  /** The call a record of a group stands for, if its start time can be read. */
  function CallOf(loc: Locale, deviceId: string, d: Direction, r: Record): Option<Call> {
    if r.raw.Json? && loc.wall(r.raw.startTime).Some? then
      Some(Call(d, Item(deviceId + "\0" + r.raw.startTime, loc.zone(loc.wall(r.raw.startTime).value))))
    else None
  }

  function GroupCalls(loc: Locale, deviceId: string, d: Direction, records: seq<Record>): seq<Call> {
    if records == [] then []
    else
      var before := GroupCalls(loc, deviceId, d, records[..|records| - 1]);
      match CallOf(loc, deviceId, d, records[|records| - 1])
      case None => before
      case Some(call) => before + [call]
  }

  /** All calls a phone lists: the placed ones, then the received, then the missed. */
  function AllCalls(loc: Locale, deviceId: string, logs: Logs): seq<Call> {
    GroupCalls(loc, deviceId, Placed, logs.placed) + GroupCalls(loc, deviceId, Received, logs.received)
    + GroupCalls(loc, deviceId, Missed, logs.missed)
  }

  function EntryCalls(loc: Locale, deviceId: string, entries: seq<Entry>): seq<Call> {
    if entries == [] then []
    else
      var before := EntryCalls(loc, deviceId, entries[..|entries| - 1]);
      var e := entries[|entries| - 1];
      match CallOf(loc, deviceId, e.direction, e.record)
      case None => before
      case Some(call) => before + [call]
  }

  lemma {:induction false} EntryCallsConcat(loc: Locale, deviceId: string, a: seq<Entry>, b: seq<Entry>)
    ensures EntryCalls(loc, deviceId, a + b) == EntryCalls(loc, deviceId, a) + EntryCalls(loc, deviceId, b)
  {
    if b == [] {
      assert a + b == a;
    } else {
      EntryCallsConcat(loc, deviceId, a, b[..|b| - 1]);
      assert (a + b)[..|a + b| - 1] == a + b[..|b| - 1];
    }
  }

  lemma {:induction false} LabelledCalls(loc: Locale, deviceId: string, d: Direction, records: seq<Record>)
    ensures EntryCalls(loc, deviceId, Label(d, records)) == GroupCalls(loc, deviceId, d, records)
  {
    if records != [] {
      var n := |records| - 1;
      LabelledCalls(loc, deviceId, d, records[..n]);
      var before := Label(d, records[..n]);
      assert (before + [Entry(d, records[n])])[..|before|] == before;
    }
  }

  /** The joined list holds each group under its own direction, in this order. */
  lemma EntriesAreAllCalls(loc: Locale, deviceId: string, logs: Logs)
    ensures EntryCalls(loc, deviceId, Entries(logs)) == AllCalls(loc, deviceId, logs)
  {
    LabelledCalls(loc, deviceId, Placed, logs.placed);
    LabelledCalls(loc, deviceId, Received, logs.received);
    LabelledCalls(loc, deviceId, Missed, logs.missed);
    EntryCallsConcat(loc, deviceId, Label(Placed, logs.placed), Label(Received, logs.received));
    EntryCallsConcat(loc, deviceId, Label(Placed, logs.placed) + Label(Received, logs.received),
                     Label(Missed, logs.missed));
  }

  lemma ItemIsCall(loc: Locale, deviceId: string, e: Entry)
    ensures
      var x, call := ItemOf(loc, deviceId, e.record.raw), CallOf(loc, deviceId, e.direction, e.record);
      if x.None? then call.None? else call == Some(Call(e.direction, x.value))
  {
  }

  lemma {:induction false} EntryCallsItems(loc: Locale, deviceId: string, entries: seq<Entry>)
    ensures ItemsOf(EntryCalls(loc, deviceId, entries)) == Items(loc, deviceId, entries)
  {
    if entries != [] {
      var n := |entries| - 1;
      EntryCallsItems(loc, deviceId, entries[..n]);
      ItemIsCall(loc, deviceId, entries[n]);
      if CallOf(loc, deviceId, entries[n].direction, entries[n].record).Some? {
        ItemsOfSnoc(EntryCalls(loc, deviceId, entries[..n]),
                    CallOf(loc, deviceId, entries[n].direction, entries[n].record).value);
      }
    }
  }

  // ------------------------------------------------------------ what is logged

  lemma {:induction false} ScannedIsListed(c: Clock, loc: Locale, deviceId: string, wm: Watermark, entries: seq<Entry>)
    ensures forall call :: call in ScanEntries(c, loc, deviceId, wm, entries).calls ==>
      call in EntryCalls(loc, deviceId, entries)
  {
    if entries != [] {
      var n := |entries| - 1;
      ScannedIsListed(c, loc, deviceId, wm, entries[..n]);
      StepLogs(c, loc, deviceId, wm, ScanEntries(c, loc, deviceId, wm, entries[..n]), entries[n]);
    }
  }

  /** One row adds to the log at most the call it stands for. */
  lemma StepLogs(c: Clock, loc: Locale, deviceId: string, wm: Watermark, s: Scan, e: Entry)
    ensures
      var calls := StepEntry(c, loc, deviceId, wm, s, e).calls;
      calls == s.calls || exists call :: CallOf(loc, deviceId, e.direction, e.record) == Some(call)
                                         && calls == s.calls + [call]
  {
    ItemIsCall(loc, deviceId, e);
  }

  lemma {:induction false} GroupCallsAreListed(loc: Locale, deviceId: string, d: Direction, records: seq<Record>,
                                               call: Call)
    requires call in GroupCalls(loc, deviceId, d, records)
    ensures call.direction == d && exists r :: r in records && CallOf(loc, deviceId, d, r) == Some(call)
  {
    var n := |records| - 1;
    if CallOf(loc, deviceId, d, records[n]) == Some(call) {
      assert records[n] in records;
    } else {
      GroupCallsAreListed(loc, deviceId, d, records[..n], call);
    }
  }

  /** Whatever happens to a turn, each call it logs stands for a record of the group of
      its direction, under the phone's identifier and that record's start time. */
  lemma LoggedIsListed(c: Clock, wall: Layout, deviceId: string, persists: bool, file: PhoneFile, script: Script,
                       call: Call)
    requires call in Run(c, wall, deviceId, persists, file, script).calls
    ensures script.zone.Some? && script.logs.Some?
    ensures exists r :: r in Group(script.logs.value, call.direction)
                        && CallOf(Locale(wall, script.zone.value), deviceId, call.direction, r) == Some(call)
  {
    var loc, logs := Locale(wall, script.zone.value), script.logs.value;
    var wm := Loaded(c, persists, file, script).value;
    RunsScan(c, wall, deviceId, persists, file, script);
    ScannedIsListed(c, loc, deviceId, wm, Entries(logs));
    EntriesAreAllCalls(loc, deviceId, logs);
    if call in GroupCalls(loc, deviceId, Placed, logs.placed) {
      GroupCallsAreListed(loc, deviceId, Placed, logs.placed, call);
    } else if call in GroupCalls(loc, deviceId, Received, logs.received) {
      GroupCallsAreListed(loc, deviceId, Received, logs.received, call);
    } else {
      GroupCallsAreListed(loc, deviceId, Missed, logs.missed, call);
    }
  }

  lemma RunsScan(c: Clock, wall: Layout, deviceId: string, persists: bool, file: PhoneFile, script: Script)
    ensures
      var o, loaded := Run(c, wall, deviceId, persists, file, script), Loaded(c, persists, file, script);
      if loaded.None? || script.logs.None? then o == Outcome([], [], file, false, !script.reachable)
      else o.calls == ScanOf(c, wall, deviceId, loaded.value, script).calls
  {
  }

  lemma {:induction false} AllWanted(c: Clock, loc: Locale, deviceId: string, wm: Watermark, entries: seq<Entry>)
    requires forall call :: call in EntryCalls(loc, deviceId, entries) ==> Wants(c, wm, call.item)
    ensures WantedCalls(c, loc, deviceId, wm, entries) == EntryCalls(loc, deviceId, entries)
  {
    if entries != [] {
      var n := |entries| - 1;
      ItemIsCall(loc, deviceId, entries[n]);
      assert forall call :: call in EntryCalls(loc, deviceId, entries[..n]) ==>
        call in EntryCalls(loc, deviceId, entries);
      AllWanted(c, loc, deviceId, wm, entries[..n]);
    }
  }

  /** An undisturbed scan logs all readable entries exactly when they have distinct
      starts, none is stored or too old, and they come in time order. */
  lemma ScanLogsAllIff(c: Clock, loc: Locale, deviceId: string, wm: Watermark, entries: seq<Entry>)
    requires NulFree(loc.wall) && AllFaithful(c, Items(loc, deviceId, entries))
    requires !ScanEntries(c, loc, deviceId, wm, entries).stopped
    ensures
      var all := EntryCalls(loc, deviceId, entries);
      ScanEntries(c, loc, deviceId, wm, entries).calls == all <==>
        && DistinctKeys(ItemsOf(all)) && TimeOrdered(ItemsOf(all))
        && (forall call :: call in all ==> Wants(c, wm, call.item))
  {
    var all, calls := EntryCalls(loc, deviceId, entries), ScanEntries(c, loc, deviceId, wm, entries).calls;
    ScanLogsEveryCallIff(c, loc, deviceId, wm, entries);
    if forall call :: call in all ==> Wants(c, wm, call.item) {
      AllWanted(c, loc, deviceId, wm, entries);
    }
    if calls == all {
      ScanAdmissible(c, loc, deviceId, wm, entries);
      AdmissibleCallsAreWanted(c, wm, all);
      AllWanted(c, loc, deviceId, wm, entries);
    }
  }

  lemma AdmissibleCallsAreWanted(c: Clock, wm: Watermark, calls: seq<Call>)
    requires Admissible(c, wm, ItemsOf(calls))
    ensures forall call :: call in calls ==> Wants(c, wm, call.item)
  {
    forall call | call in calls
      ensures call.item in ItemsOf(calls)
    {
      ItemsOfHas(calls, call);
    }
  }

  lemma {:induction false} ItemsOfHas(calls: seq<Call>, call: Call)
    requires call in calls
    ensures call.item in ItemsOf(calls)
  {
    var n := |calls| - 1;
    if calls[n] != call {
      ItemsOfHas(calls[..n], call);
    }
  }

  /** A saved turn logs one call, under its group's direction, for every readable record
      of every group if and only if these have distinct start times, none is stored or
      older than the watermark, and time order holds within the groups and from one to
      the next: placed, received, missed. */
  lemma SavedTurnLogsAllIff(c: Clock, wall: Layout, deviceId: string, file: PhoneFile, script: Script)
    requires NulFree(wall) && AllFaithful(c, Offered(wall, deviceId, script))
    requires Run(c, wall, deviceId, true, file, script).saved
    ensures script.zone.Some? && script.logs.Some? && Loaded(c, true, file, script).Some?
    ensures
      var all := AllCalls(Locale(wall, script.zone.value), deviceId, script.logs.value);
      var wm := Loaded(c, true, file, script).value;
      Run(c, wall, deviceId, true, file, script).calls == all <==>
        && DistinctKeys(ItemsOf(all)) && TimeOrdered(ItemsOf(all))
        && (forall call :: call in all ==> Wants(c, wm, call.item))
  {
    var loc, logs := Locale(wall, script.zone.value), script.logs.value;
    SavedIsUndisturbed(c, wall, deviceId, file, script);
    RunIsScan(c, wall, deviceId, file, script);
    EntriesAreAllCalls(loc, deviceId, logs);
    ScanLogsAllIff(c, loc, deviceId, Loaded(c, true, file, script).value, Entries(logs));
  }

  lemma {:induction false} CallsOfConcat(d: Direction, a: seq<Call>, b: seq<Call>)
    ensures CallsOf(d, a + b) == CallsOf(d, a) + CallsOf(d, b)
  {
    if b == [] {
      assert a + b == a;
    } else {
      CallsOfConcat(d, a, b[..|b| - 1]);
      assert (a + b)[..|a + b| - 1] == a + b[..|b| - 1];
    }
  }

  lemma {:induction false} CallsOfGroup(loc: Locale, deviceId: string, d: Direction, g: Direction, records: seq<Record>)
    ensures CallsOf(d, GroupCalls(loc, deviceId, g, records)) == if d == g then |GroupCalls(loc, deviceId, g, records)|
        else 0
  {
    if records != [] {
      var n := |records| - 1;
      CallsOfGroup(loc, deviceId, d, g, records[..n]);
      var before, call := GroupCalls(loc, deviceId, g, records[..n]), CallOf(loc, deviceId, g, records[n]);
      if call.Some? {
        assert (before + [call.value])[..|before|] == before;
      }
    }
  }

  lemma CallsOfAll(loc: Locale, deviceId: string, d: Direction, logs: Logs)
    ensures CallsOf(d, AllCalls(loc, deviceId, logs)) == |GroupCalls(loc, deviceId, d, Group(logs, d))|
  {
    var p, r := GroupCalls(loc, deviceId, Placed, logs.placed), GroupCalls(loc, deviceId, Received, logs.received);
    CallsOfConcat(d, p, r);
    CallsOfConcat(d, p + r, GroupCalls(loc, deviceId, Missed, logs.missed));
    CallsOfGroup(loc, deviceId, d, Placed, logs.placed);
    CallsOfGroup(loc, deviceId, d, Received, logs.received);
    CallsOfGroup(loc, deviceId, d, Missed, logs.missed);
  }

  /** A saved turn that logged every listed call reports for each group with calls how
      many of its records could be read, and nothing for the others. */
  lemma CountsAreGroupSizes(c: Clock, wall: Layout, deviceId: string, persists: bool, file: PhoneFile, script: Script)
    requires Run(c, wall, deviceId, persists, file, script).saved && script.zone.Some? && script.logs.Some?
    requires Run(c, wall, deviceId, persists, file, script).calls
          == AllCalls(Locale(wall, script.zone.value), deviceId, script.logs.value)
    ensures forall k :: k in Run(c, wall, deviceId, persists, file, script).counts <==>
      k.value == |GroupCalls(Locale(wall, script.zone.value), deviceId, k.direction,
                             Group(script.logs.value, k.direction))| > 0
  {
    var o, loc := Run(c, wall, deviceId, persists, file, script), Locale(wall, script.zone.value);
    CountsAddUp(c, wall, deviceId, persists, file, script);
    forall k: Total
      ensures CallsOf(k.direction, o.calls) == |GroupCalls(loc, deviceId, k.direction,
                                                           Group(script.logs.value, k.direction))|
    {
      CallsOfAll(loc, deviceId, k.direction, script.logs.value);
    }
  }

  // ------------------------------------------------------------ when counts go out

  function Rank(d: Direction): nat {
    match d
    case Placed => 0
    case Received => 1
    case Missed => 2
  }

  /** A count that is sent and rejected. */
  predicate Rejected(calls: seq<Call>, fails: Option<Direction>, d: Direction) {
    fails == Some(d) && CallsOf(d, calls) > 0
  }

  /** What is sent for the first n directions: in order, for each with calls one count, up
      to the first that is rejected, and all of them if none is. */
  ghost predicate SentFor(n: nat, calls: seq<Call>, fails: Option<Direction>, sent: seq<Total>, ok: bool) {
    && (ok <==> forall d :: Rank(d) < n ==> !Rejected(calls, fails, d))
    && (forall k :: k in sent <==>
          && Rank(k.direction) < n && k.value == CallsOf(k.direction, calls) > 0
          && forall d :: Rank(d) <= Rank(k.direction) ==> !Rejected(calls, fails, d))
    && (forall i, j :: 0 <= i < j < |sent| ==> Rank(sent[i].direction) < Rank(sent[j].direction))
  }

  /** What one more direction adds to what was sent. */
  function NextCount(before: (seq<Total>, bool), d: Direction, calls: seq<Call>,
                     fails: Option<Direction>): (seq<Total>, bool) {
    if !before.1 || CallsOf(d, calls) == 0 then before
    else if Rejected(calls, fails, d) then (before.0, false)
    else (before.0 + [Total(d, CallsOf(d, calls))], true)
  }

  lemma SentForNext(n: nat, d: Direction, calls: seq<Call>, fails: Option<Direction>, before: (seq<Total>, bool))
    requires Rank(d) == n && SentFor(n, calls, fails, before.0, before.1)
    ensures
      var after := NextCount(before, d, calls, fails);
      SentFor(n + 1, calls, fails, after.0, after.1)
  {
    assert forall e :: Rank(e) == n ==> e == d;
    assert forall i :: 0 <= i < |before.0| ==> before.0[i] in before.0;
  }

  /** Counts are sent in the order placed, received, missed: for each direction with
      calls one count, up to the first that is rejected; all go out if none is. */
  lemma CountsExact(calls: seq<Call>, fails: Option<Direction>)
    ensures SentFor(3, calls, fails, Counts(DIRECTIONS, calls, fails).0, Counts(DIRECTIONS, calls, fails).1)
  {
    var one := NextCount(([], true), Placed, calls, fails);
    var two := NextCount(one, Received, calls, fails);
    SentForNext(0, Placed, calls, fails, ([], true));
    SentForNext(1, Received, calls, fails, one);
    SentForNext(2, Missed, calls, fails, two);
    CountsInTurn(calls, fails);
  }

  lemma CountsInTurn(calls: seq<Call>, fails: Option<Direction>)
    ensures Counts(DIRECTIONS, calls, fails)
         == NextCount(NextCount(NextCount(([], true), Placed, calls, fails), Received, calls, fails), Missed, calls,
                      fails)
  {
    CountStep([], Placed, calls, fails);
    CountStep([] + [Placed], Received, calls, fails);
    CountStep([] + [Placed] + [Received], Missed, calls, fails);
    assert [] + [Placed] + [Received] + [Missed] == DIRECTIONS;
  }

  lemma CountStep(ds: seq<Direction>, d: Direction, calls: seq<Call>, fails: Option<Direction>)
    ensures Counts(ds + [d], calls, fails) == NextCount(Counts(ds, calls, fails), d, calls, fails)
  {
    assert (ds + [d])[..|ds|] == ds;
  }

  // ------------------------------------------------------------ when a turn is saved

  /** A watermark is loaded if and only if the file is not corrupt and can be read, where
      there is one to keep; it is empty where there is no file, and a legacy one is
      re-read in the zone: its keys stay, and its start shows the same wall clock there. */
  lemma LoadExact(c: Clock, zone: Zone, persists: bool, file: PhoneFile, readFails: bool)
    ensures
      var loaded := Load(c, zone, persists, file, readFails);
      && (loaded.Some? <==> !persists || (!file.Corrupt? && !readFails))
      && (!persists || (file.Missing? && !readFails) ==> loaded == Some(EMPTY))
      && (persists && file.Stored? && !readFails ==>
            && loaded.value.keys == file.body.wm.keys
            && var legacy := c.parse(file.body.wm.startTime);
               loaded.value.startTime == if file.body.version == 0 && legacy.Some?
                 then c.format(zone(legacy.value.instant + legacy.value.offset)) else file.body.wm.startTime)
  {
  }

  /** An entry that ends the turn: the process dies there, or the call is new and its log
      fails. */
  ghost predicate Disturbs(c: Clock, loc: Locale, deviceId: string, wm: Watermark, entries: seq<Entry>, i: nat) {
    && i < |entries|
    && var call := CallOf(loc, deviceId, entries[i].direction, entries[i].record);
       var es := Advancing(c, wm, Items(loc, deviceId, entries[..i]));
       || entries[i].record.fate.Dies?
       || (!entries[i].record.fate.Accepted? && call.Some? && call.value.item.key !in SeenBy(wm, es)
           && AtOrAbove(call.value.item.start.instant, Floor(c, AdvanceAll(c, wm, es))))
  }

  /** A scan is stopped if and only if some entry disturbs it. */
  lemma {:induction false} StoppedIff(c: Clock, loc: Locale, deviceId: string, wm: Watermark, entries: seq<Entry>)
    ensures ScanEntries(c, loc, deviceId, wm, entries).stopped <==>
      exists i: nat :: Disturbs(c, loc, deviceId, wm, entries, i)
  {
    if entries != [] {
      var n := |entries| - 1;
      var most := entries[..n];
      StoppedIff(c, loc, deviceId, wm, most);
      DisturbsPrefix(c, loc, deviceId, wm, entries, n);
      LastDisturbs(c, loc, deviceId, wm, most, entries[n]);
      assert entries == most + [entries[n]];
      if i: nat :| Disturbs(c, loc, deviceId, wm, entries, i) {
        assert i < n ==> Disturbs(c, loc, deviceId, wm, most, i);
      }
      if i: nat :| Disturbs(c, loc, deviceId, wm, most, i) {
        assert Disturbs(c, loc, deviceId, wm, entries, i);
      }
    }
  }

  lemma DisturbsPrefix(c: Clock, loc: Locale, deviceId: string, wm: Watermark, entries: seq<Entry>, n: nat)
    requires n <= |entries|
    ensures forall i: nat :: i < n ==>
      (Disturbs(c, loc, deviceId, wm, entries, i) <==> Disturbs(c, loc, deviceId, wm, entries[..n], i))
  {
    forall i: nat | i < n
      ensures Disturbs(c, loc, deviceId, wm, entries, i) <==> Disturbs(c, loc, deviceId, wm, entries[..n], i)
    {
      assert entries[..n][..i] == entries[..i];
    }
  }

  lemma LastDisturbs(c: Clock, loc: Locale, deviceId: string, wm: Watermark, most: seq<Entry>, e: Entry)
    ensures
      var before, after := ScanEntries(c, loc, deviceId, wm, most), ScanEntries(c, loc, deviceId, wm, most + [e]);
      after.stopped <==> before.stopped || Disturbs(c, loc, deviceId, wm, most + [e], |most|)
  {
    var n := ScanIsAdvancing(c, loc, deviceId, wm, most);
    ScanSnoc(c, loc, deviceId, wm, most, e);
    assert (most + [e])[..|most|] == most;
    if !ScanEntries(c, loc, deviceId, wm, most).stopped {
      assert most[..n] == most;
      ItemIsCall(loc, deviceId, e);
    } else if Disturbs(c, loc, deviceId, wm, most + [e], |most|) {
      assert ScanEntries(c, loc, deviceId, wm, most).stopped;
    }
  }

  /** A turn is saved if and only if the phone answers with a zone and its calls, its file
      can be read, no entry disturbs it, no count is rejected and, where there is a file
      to keep, the rename takes effect.  The run goes on to the next phone exactly after a
      turn whose save completed or a phone that does not answer. */
  lemma TurnSavedIff(c: Clock, wall: Layout, deviceId: string, persists: bool, file: PhoneFile, script: Script)
    ensures
      var o := Run(c, wall, deviceId, persists, file, script);
      && (o.saved <==>
            && script.reachable && script.zone.Some? && script.logs.Some?
            && var loc := Locale(wall, script.zone.value);
               var loaded := Load(c, loc.zone, persists, file, script.readFails);
               && loaded.Some?
               && (forall i: nat :: !Disturbs(c, loc, deviceId, loaded.value, Entries(script.logs.value), i))
               && (forall d :: !Rejected(o.calls, script.countFails, d))
               && (persists ==> Renamed(script.save)))
      && (o.goesOn <==> !script.reachable || (o.saved && (persists ==> script.save.Completes?)))
      && (!o.saved || !persists ==> o.file == file)
  {
    var loaded := Loaded(c, persists, file, script);
    if loaded.Some? && script.logs.Some? {
      var loc, s := Locale(wall, script.zone.value), ScanOf(c, wall, deviceId, loaded.value, script);
      StoppedIff(c, loc, deviceId, loaded.value, Entries(script.logs.value));
      CountsExact(s.calls, script.countFails);
      FinishExact(c, persists, file, loaded.value, s, script);
    }
  }

  lemma FinishExact(c: Clock, persists: bool, file: PhoneFile, wm: Watermark, s: Scan, script: Script)
    ensures
      var o := Finish(c, persists, file, wm, s, script);
      && o.calls == s.calls
      && (o.saved <==>
            && !s.stopped && Counts(DIRECTIONS, s.calls, script.countFails).1
            && (persists ==> Renamed(script.save)))
      && (o.goesOn <==> o.saved && (persists ==> script.save.Completes?))
      && (!o.saved || !persists ==> o.file == file)
  {
  }
}

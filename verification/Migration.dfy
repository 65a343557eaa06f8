/** Version-0 watermarks were written by code that read the phone's wall clock as
    UTC.  Loading one re-reads the same wall clock in the phone's zone.  Migrating
    and then collecting in the zone commutes with collecting in UTC, exactly as
    long as the zone keeps the wall clocks in play in strict order. */
module Migration {
  import opened Basics
  import opened Watermarks
  import opened AtomicFile
  import opened CallLogs
  import opened CallLogHistory

  /** The zone keeps these wall clocks in strict order. */
  ghost predicate KeepsOrder(zone: Zone, walls: iset<int>) {
    forall a, b :: a in walls && b in walls && a < b ==> zone(a).instant < zone(b).instant
  }

  /** The times of these wall clocks print faithfully in both zones. */
  ghost predicate Prints(c: Clock, zone: Zone, walls: iset<int>) {
    && c.parse("") == None
    && forall w :: w in walls ==> Faithful(c, zone(w)) && Faithful(c, Time(w, 0))
  }

  /** A watermark the UTC code could have written: unreadable, or a UTC time. */
  ghost predicate WrittenInUtc(c: Clock, walls: iset<int>, wm: Watermark) {
    c.parse(wm.startTime).Some? ==>
      c.parse(wm.startTime).value.offset == 0 && c.parse(wm.startTime).value.instant in walls
  }

  ghost predicate UtcItem(walls: iset<int>, x: Item) {
    x.start.offset == 0 && x.start.instant in walls
  }

  function RezoneItem(zone: Zone, x: Item): Item {
    Item(x.key, zone(x.start.instant))
  }

  function Rezone(zone: Zone, calls: seq<Call>): seq<Call> {
    if calls == [] then []
    else
      var last := calls[|calls| - 1];
      Rezone(zone, calls[..|calls| - 1]) + [Call(last.direction, RezoneItem(zone, last.item))]
  }

  lemma RezoneSnoc(zone: Zone, calls: seq<Call>, call: Call)
    ensures Rezone(zone, calls + [call]) == Rezone(zone, calls) + [Call(call.direction, RezoneItem(zone, call.item))]
  {
    assert (calls + [call])[..|calls|] == calls;
  }

  lemma MigrateFloor(c: Clock, zone: Zone, walls: iset<int>, wm: Watermark)
    requires Prints(c, zone, walls) && WrittenInUtc(c, walls, wm)
    ensures Floor(c, wm).None? ==> Floor(c, Migrate(c, zone, wm)).None?
    ensures Floor(c, wm).Some? ==>
      && Floor(c, wm).value in walls
      && Floor(c, Migrate(c, zone, wm)) == Some(zone(Floor(c, wm).value).instant)
  {
  }

  lemma IsNewCommutes(c: Clock, zone: Zone, walls: iset<int>, wm: Watermark, seen: set<string>, x: Item)
    requires KeepsOrder(zone, walls) && Prints(c, zone, walls)
    requires WrittenInUtc(c, walls, wm) && UtcItem(walls, x)
    ensures IsNew(c, RezoneItem(zone, x), Migrate(c, zone, wm), seen) <==> IsNew(c, x, wm, seen)
  {
    MigrateFloor(c, zone, walls, wm);
    assert Floor(c, wm).Some? ==> (Floor(c, wm).value < x.start.instant || x.start.instant < Floor(c, wm).value
                                   || Floor(c, wm).value == x.start.instant);
  }

  lemma AdvanceCommutes(c: Clock, zone: Zone, walls: iset<int>, wm: Watermark, x: Item)
    requires KeepsOrder(zone, walls) && Prints(c, zone, walls)
    requires WrittenInUtc(c, walls, wm) && UtcItem(walls, x)
    ensures WrittenInUtc(c, walls, Advance(c, wm, x))
    ensures Migrate(c, zone, Advance(c, wm, x)) == Advance(c, Migrate(c, zone, wm), RezoneItem(zone, x))
  {
    MigrateFloor(c, zone, walls, wm);
    assert Faithful(c, x.start) && Faithful(c, zone(x.start.instant));
  }

  ghost predicate UtcCalls(walls: iset<int>, calls: seq<Call>) {
    forall call :: call in calls ==> UtcItem(walls, call.item)
  }

  /** The two loops' watermarks correspond after corresponding calls. */
  ghost predicate WatermarksMatch(c: Clock, zone: Zone, walls: iset<int>, wm: Watermark, calls: seq<Call>) {
    && WrittenInUtc(c, walls, AdvanceAll(c, wm, ItemsOf(calls)))
    && Migrate(c, zone, AdvanceAll(c, wm, ItemsOf(calls)))
        == AdvanceAll(c, Migrate(c, zone, wm), ItemsOf(Rezone(zone, calls)))
  }

  lemma WatermarksMatchSnoc(c: Clock, zone: Zone, walls: iset<int>, wm: Watermark, calls: seq<Call>, call: Call)
    requires KeepsOrder(zone, walls) && Prints(c, zone, walls)
    requires WatermarksMatch(c, zone, walls, wm, calls) && UtcItem(walls, call.item)
    ensures WatermarksMatch(c, zone, walls, wm, calls + [call])
  {
    AdvanceCommutes(c, zone, walls, AdvanceAll(c, wm, ItemsOf(calls)), call.item);
    AdvanceAllSnoc(c, wm, calls, call);
    RezoneSnoc(zone, calls, call);
    AdvanceAllSnoc(c, Migrate(c, zone, wm), Rezone(zone, calls), Call(call.direction, RezoneItem(zone, call.item)));
  }

  lemma {:induction false} AdvanceAllCommutes(c: Clock, zone: Zone, walls: iset<int>, wm: Watermark, calls: seq<Call>)
    requires KeepsOrder(zone, walls) && Prints(c, zone, walls)
    requires WrittenInUtc(c, walls, wm) && UtcCalls(walls, calls)
    ensures WatermarksMatch(c, zone, walls, wm, calls)
  {
    if calls != [] {
      var n := |calls| - 1;
      assert calls[n] in calls;
      AdvanceAllCommutes(c, zone, walls, wm, calls[..n]);
      WatermarksMatchSnoc(c, zone, walls, wm, calls[..n], calls[n]);
      assert calls == calls[..n] + [calls[n]];
    }
  }

  lemma {:induction false} RezoneKeepsKeys(zone: Zone, calls: seq<Call>)
    ensures Keys(ItemsOf(Rezone(zone, calls))) == Keys(ItemsOf(calls))
  {
    if calls != [] {
      var n := |calls| - 1;
      RezoneKeepsKeys(zone, calls[..n]);
      KeysSnoc(ItemsOf(calls[..n]), calls[n].item);
      KeysSnoc(ItemsOf(Rezone(zone, calls[..n])), RezoneItem(zone, calls[n].item));
      ItemsOfSnoc(Rezone(zone, calls[..n]), Call(calls[n].direction, RezoneItem(zone, calls[n].item)));
    }
  }

  lemma KeysSnoc(es: seq<Item>, x: Item)
    ensures Keys(es + [x]) == Keys(es) + {x.key}
  {
    assert forall y :: y in es + [x] <==> y in es || y == x;
  }

  lemma ItemCommutes(wall: Layout, zone: Zone, walls: iset<int>, deviceId: string, e: Entry)
    requires InPlay(wall, walls, [e])
    ensures
      var x := ItemOf(Locale(wall, Utc()), deviceId, e.record.raw);
      var y := ItemOf(Locale(wall, zone), deviceId, e.record.raw);
      if x.None? then y.None? else UtcItem(walls, x.value) && y == Some(RezoneItem(zone, x.value))
  {
    assert e in [e];
  }

  /** Whether an entry is new, asked of the loops after corresponding emissions. */
  lemma NewItemCommutes(c: Clock, wall: Layout, zone: Zone, walls: iset<int>, deviceId: string,
                        wm: Watermark, calls: seq<Call>, e: Entry)
    requires KeepsOrder(zone, walls) && Prints(c, zone, walls)
    requires WrittenInUtc(c, walls, wm) && UtcCalls(walls, calls) && InPlay(wall, walls, [e])
    ensures
      var x := NewItem(c, Locale(wall, Utc()), deviceId, wm, ItemsOf(calls), e.record.raw);
      var y := NewItem(c, Locale(wall, zone), deviceId, Migrate(c, zone, wm), ItemsOf(Rezone(zone, calls)),
                       e.record.raw);
      if x.None? then y.None? else UtcItem(walls, x.value) && y == Some(RezoneItem(zone, x.value))
  {
    ItemCommutes(wall, zone, walls, deviceId, e);
    var x := ItemOf(Locale(wall, Utc()), deviceId, e.record.raw);
    if x.Some? {
      AdvanceAllCommutes(c, zone, walls, wm, calls);
      RezoneKeepsKeys(zone, calls);
      IsNewCommutes(c, zone, walls, AdvanceAll(c, wm, ItemsOf(calls)), SeenBy(wm, ItemsOf(calls)), x.value);
    }
  }

  lemma SettleCommutes(zone: Zone, calls: seq<Call>, e: Entry, x: Option<Item>)
    ensures
      var s := Settle(Scan(calls, false), e, x);
      var y := if x.None? then None else Some(RezoneItem(zone, x.value));
      Settle(Scan(Rezone(zone, calls), false), e, y) == Scan(Rezone(zone, s.calls), s.stopped)
  {
    if x.Some? {
      RezoneSnoc(zone, calls, Call(e.direction, x.value));
    }
  }

  lemma StepCommutes(c: Clock, wall: Layout, zone: Zone, walls: iset<int>, deviceId: string,
                     wm: Watermark, calls: seq<Call>, e: Entry)
    requires KeepsOrder(zone, walls) && Prints(c, zone, walls)
    requires WrittenInUtc(c, walls, wm) && UtcCalls(walls, calls) && InPlay(wall, walls, [e])
    ensures
      var s := StepEntry(c, Locale(wall, Utc()), deviceId, wm, Scan(calls, false), e);
      var t := StepEntry(c, Locale(wall, zone), deviceId, Migrate(c, zone, wm), Scan(Rezone(zone, calls), false), e);
      UtcCalls(walls, s.calls) && t == Scan(Rezone(zone, s.calls), s.stopped)
  {
    NewItemCommutes(c, wall, zone, walls, deviceId, wm, calls, e);
    SettleCommutes(zone, calls, e, NewItem(c, Locale(wall, Utc()), deviceId, wm, ItemsOf(calls), e.record.raw));
  }

  /** The row loop in the zone, from the migrated watermark, emits call for call
      what the row loop in UTC emits. */
  lemma {:induction false} ScanCommutes(c: Clock, wall: Layout, zone: Zone, walls: iset<int>,
                                        deviceId: string, wm: Watermark, entries: seq<Entry>)
    requires KeepsOrder(zone, walls) && Prints(c, zone, walls)
    requires WrittenInUtc(c, walls, wm) && InPlay(wall, walls, entries)
    ensures
      var s := ScanEntries(c, Locale(wall, Utc()), deviceId, wm, entries);
      && UtcCalls(walls, s.calls)
      && ScanEntries(c, Locale(wall, zone), deviceId, Migrate(c, zone, wm), entries)
          == Scan(Rezone(zone, s.calls), s.stopped)
  {
    if entries != [] {
      var n := |entries| - 1;
      assert entries[n] in entries;
      ScanCommutes(c, wall, zone, walls, deviceId, wm, entries[..n]);
      var s := ScanEntries(c, Locale(wall, Utc()), deviceId, wm, entries[..n]);
      if !s.stopped {
        StepCommutes(c, wall, zone, walls, deviceId, wm, s.calls, entries[n]);
      }
    }
  }

  lemma {:induction false} RezoneKeepsCounts(zone: Zone, calls: seq<Call>, d: Direction)
    ensures |Rezone(zone, calls)| == |calls|
    ensures CallsOf(d, Rezone(zone, calls)) == CallsOf(d, calls)
  {
    if calls != [] {
      var n := |calls| - 1;
      RezoneKeepsCounts(zone, calls[..n], d);
      var before := Rezone(zone, calls[..n]);
      assert Rezone(zone, calls)[..|before|] == before;
    }
  }

  lemma {:induction false} SameCounts(a: seq<Call>, b: seq<Call>, ds: seq<Direction>, fails: Option<Direction>)
    requires forall d :: CallsOf(d, a) == CallsOf(d, b)
    ensures Counts(ds, a, fails) == Counts(ds, b, fails)
  {
    if ds != [] {
      SameCounts(a, b, ds[..|ds| - 1], fails);
    }
  }

  /** A run as it is, in another zone; one that never learns the zone stays so. */
  function In(zone: Zone, script: Script): Script {
    if script.zone.None? then script else script.(zone := Some(zone))
  }

  function AllIn(zone: Zone, scripts: seq<Script>): seq<Script> {
    if |scripts| == 0 then [] else AllIn(zone, scripts[..|scripts| - 1]) + [In(zone, scripts[|scripts| - 1])]
  }

  /** The new code's file is what the old code's becomes when migrated, or still
      waits to be. */
  ghost predicate FilesMatch(c: Clock, zone: Zone, walls: iset<int>, utc: PhoneFile, zoned: PhoneFile) {
    if utc.Stored? then
      && utc.body.version == VERSION && WrittenInUtc(c, walls, utc.body.wm)
      && (|| zoned == Stored(Versioned(0, utc.body.wm))
          || zoned == Stored(Versioned(VERSION, Migrate(c, zone, utc.body.wm))))
    else zoned == utc
  }

  lemma LoadsMatch(c: Clock, zone: Zone, walls: iset<int>, utc: PhoneFile, zoned: PhoneFile, readFails: bool)
    requires Prints(c, zone, walls) && FilesMatch(c, zone, walls, utc, zoned)
    ensures
      var u, z := Load(c, Utc(), true, utc, readFails), Load(c, zone, true, zoned, readFails);
      if u.None? then z.None? else WrittenInUtc(c, walls, u.value) && z == Some(Migrate(c, zone, u.value))
  {
  }

  /** The outcome of the old code in UTC and that of the new code in the zone agree. */
  ghost predicate Corresponds(c: Clock, zone: Zone, walls: iset<int>, utc: Outcome, zoned: Outcome) {
    && zoned.calls == Rezone(zone, utc.calls)
    && zoned.counts == utc.counts
    && zoned.saved == utc.saved && zoned.goesOn == utc.goesOn
    && FilesMatch(c, zone, walls, utc.file, zoned.file)
  }

  /** Migrating a legacy file and collecting in the zone reports the same calls,
      with the same counts, as the old code collecting in UTC; and the files left
      behind agree once the old one is migrated. */
  lemma MigrationCommutesWithCollection(c: Clock, wall: Layout, zone: Zone, walls: iset<int>,
                                        deviceId: string, utc: PhoneFile, zoned: PhoneFile, script: Script)
    requires KeepsOrder(zone, walls) && Prints(c, zone, walls)
    requires FilesMatch(c, zone, walls, utc, zoned) && Lists(wall, walls, script)
    ensures
      Corresponds(c, zone, walls,
                  Run(c, wall, deviceId, true, utc, In(Utc(), script)),
                  Run(c, wall, deviceId, true, zoned, In(zone, script)))
  {
    var u, z := In(Utc(), script), In(zone, script);
    LoadsMatch(c, zone, walls, utc, zoned, script.readFails);
    if Loaded(c, true, utc, u).Some? && script.logs.Some? {
      var wm := Loaded(c, true, utc, u).value;
      TurnsCommute(c, wall, zone, walls, deviceId, utc, zoned, wm, script);
      RunIsFinish(c, wall, deviceId, utc, u, wm);
      RunIsFinish(c, wall, deviceId, zoned, z, Migrate(c, zone, wm));
    } else {
      RunIsIdle(c, wall, deviceId, utc, u);
      RunIsIdle(c, wall, deviceId, zoned, z);
    }
  }

  /** Corresponding runs, once both have loaded their files. */
  lemma TurnsCommute(c: Clock, wall: Layout, zone: Zone, walls: iset<int>, deviceId: string,
                     utc: PhoneFile, zoned: PhoneFile, wm: Watermark, script: Script)
    requires KeepsOrder(zone, walls) && Prints(c, zone, walls)
    requires FilesMatch(c, zone, walls, utc, zoned) && Lists(wall, walls, script)
    requires WrittenInUtc(c, walls, wm) && script.zone.Some? && script.logs.Some?
    ensures
      Corresponds(c, zone, walls,
                  Finish(c, true, utc, wm, ScanOf(c, wall, deviceId, wm, In(Utc(), script)), In(Utc(), script)),
                  Finish(c, true, zoned, Migrate(c, zone, wm),
                         ScanOf(c, wall, deviceId, Migrate(c, zone, wm), In(zone, script)),
                         In(zone, script)))
  {
    RowsCommute(c, wall, zone, walls, deviceId, wm, Entries(script.logs.value), script.countFails);
    FinishCommutes(c, zone, walls, utc, zoned, wm, ScanOf(c, wall, deviceId, wm, In(Utc(), script)), script);
  }

  lemma FinishCommutes(c: Clock, zone: Zone, walls: iset<int>, utc: PhoneFile, zoned: PhoneFile, wm: Watermark,
                       s: Scan, script: Script)
    requires FilesMatch(c, zone, walls, utc, zoned)
    requires Counts(DIRECTIONS, Rezone(zone, s.calls), script.countFails)
        == Counts(DIRECTIONS, s.calls, script.countFails)
    requires WatermarksMatch(c, zone, walls, wm, s.calls)
    ensures
      Corresponds(c, zone, walls,
                  Finish(c, true, utc, wm, s, In(Utc(), script)),
                  Finish(c, true, zoned, Migrate(c, zone, wm), Scan(Rezone(zone, s.calls), s.stopped),
                         In(zone, script)))
  {
    ConcludeCommutes(c, zone, walls, utc, zoned, s.calls, Counts(DIRECTIONS, s.calls, script.countFails),
                     AdvanceAll(c, wm, ItemsOf(s.calls)), script.save);
  }

  lemma ConcludeCommutes(c: Clock, zone: Zone, walls: iset<int>, utc: PhoneFile, zoned: PhoneFile,
                         calls: seq<Call>, counts: (seq<Total>, bool), wm: Watermark, save: Ending)
    requires FilesMatch(c, zone, walls, utc, zoned) && WrittenInUtc(c, walls, wm)
    ensures
      Corresponds(c, zone, walls,
                  Conclude(true, utc, calls, counts, wm, save),
                  Conclude(true, zoned, Rezone(zone, calls), counts, Migrate(c, zone, wm), save))
  {
  }

  /** Whole histories agree as single runs do: whichever run is the first to be saved,
      and however many follow, the new code logs call for call what the old would. */
  lemma {:induction false} MigrationCommutesWithHistories(c: Clock, wall: Layout, zone: Zone, walls: iset<int>,
                                                          deviceId: string, utc: PhoneFile, zoned: PhoneFile,
                                                          scripts: seq<Script>)
    requires KeepsOrder(zone, walls) && Prints(c, zone, walls)
    requires FilesMatch(c, zone, walls, utc, zoned)
    requires forall i :: 0 <= i < |scripts| ==> Lists(wall, walls, scripts[i])
    ensures HistoriesMatch(c, zone, walls, Replay(c, wall, deviceId, utc, AllIn(Utc(), scripts)),
                           Replay(c, wall, deviceId, zoned, AllIn(zone, scripts)))
  {
    if |scripts| > 0 {
      var n := |scripts| - 1;
      MigrationCommutesWithHistories(c, wall, zone, walls, deviceId, utc, zoned, scripts[..n]);
      var u := Replay(c, wall, deviceId, utc, AllIn(Utc(), scripts[..n]));
      var z := Replay(c, wall, deviceId, zoned, AllIn(zone, scripts[..n]));
      MigrationCommutesWithCollection(c, wall, zone, walls, deviceId, u.file, z.file, scripts[n]);
      AfterMatches(c, zone, walls, u, z, Run(c, wall, deviceId, true, u.file, In(Utc(), scripts[n])),
                   Run(c, wall, deviceId, true, z.file, In(zone, scripts[n])));
      ReplaySnoc(c, wall, deviceId, utc, AllIn(Utc(), scripts[..n]), In(Utc(), scripts[n]));
      ReplaySnoc(c, wall, deviceId, zoned, AllIn(zone, scripts[..n]), In(zone, scripts[n]));
    }
  }

  /** The histories of the old code in UTC and of the new code in the zone agree. */
  ghost predicate HistoriesMatch(c: Clock, zone: Zone, walls: iset<int>, utc: History, zoned: History) {
    zoned.log == Rezone(zone, utc.log) && zoned.unsaved == utc.unsaved
        && FilesMatch(c, zone, walls, utc.file, zoned.file)
  }

  lemma AfterMatches(c: Clock, zone: Zone, walls: iset<int>, u: History, z: History, utc: Outcome, zoned: Outcome)
    requires HistoriesMatch(c, zone, walls, u, z) && Corresponds(c, zone, walls, utc, zoned)
    ensures HistoriesMatch(c, zone, walls, After(u, utc), After(z, zoned))
  {
    RezoneConcat(zone, u.log, utc.calls);
  }

  lemma {:induction false} RezoneConcat(zone: Zone, a: seq<Call>, b: seq<Call>)
    ensures Rezone(zone, a + b) == Rezone(zone, a) + Rezone(zone, b)
  {
    if b == [] {
      assert a + b == a;
    } else {
      RezoneConcat(zone, a, b[..|b| - 1]);
      assert (a + b)[..|a + b| - 1] == a + b[..|b| - 1];
    }
  }

  /** Rows, counts and the advanced watermark of corresponding runs. */
  lemma RowsCommute(c: Clock, wall: Layout, zone: Zone, walls: iset<int>,
                    deviceId: string, wm: Watermark, entries: seq<Entry>, fails: Option<Direction>)
    requires KeepsOrder(zone, walls) && Prints(c, zone, walls)
    requires WrittenInUtc(c, walls, wm) && InPlay(wall, walls, entries)
    ensures
      var s := ScanEntries(c, Locale(wall, Utc()), deviceId, wm, entries);
      var t := ScanEntries(c, Locale(wall, zone), deviceId, Migrate(c, zone, wm), entries);
      && t == Scan(Rezone(zone, s.calls), s.stopped)
      && Counts(DIRECTIONS, t.calls, fails) == Counts(DIRECTIONS, s.calls, fails)
      && WatermarksMatch(c, zone, walls, wm, s.calls)
  {
    ScanCommutes(c, wall, zone, walls, deviceId, wm, entries);
    var calls := ScanEntries(c, Locale(wall, Utc()), deviceId, wm, entries).calls;
    AdvanceAllCommutes(c, zone, walls, wm, calls);
    forall d
      ensures CallsOf(d, Rezone(zone, calls)) == CallsOf(d, calls)
    {
      RezoneKeepsCounts(zone, calls, d);
    }
    SameCounts(Rezone(zone, calls), calls, DIRECTIONS, fails);
  }

  /** What the old code stores after logging one call. */
  function LegacyAfter(c: Clock, deviceId: string, text: string, wall: int): Watermark {
    Watermark(c.format(Time(wall, 0)), [deviceId + "\0" + text])
  }

  /** Order is needed: if the zone does not keep two wall clocks in strict order (a
      clock set back), then after a call at the later one the two treat a call at the
      earlier one differently. */
  lemma OrderIsNeeded(c: Clock, wall: Layout, zone: Zone, walls: iset<int>, earlier: int, later: int,
                      deviceId: string, text: string, stored: string)
    requires Prints(c, zone, walls) && earlier in walls && later in walls
    requires earlier < later && zone(later).instant <= zone(earlier).instant
    requires wall(text) == Some(earlier) && wall(stored) == Some(later)
    ensures
      var wm := LegacyAfter(c, deviceId, stored, later);
      var entries := [Entry(Placed, Record(Json(text, ""), Accepted))];
      && WrittenInUtc(c, walls, wm)
      && InPlay(wall, walls, entries)
      && ScanEntries(c, Locale(wall, Utc()), deviceId, wm, entries).calls == []
      && ScanEntries(c, Locale(wall, zone), deviceId, Migrate(c, zone, wm), entries).calls
         == [Call(Placed, Item(deviceId + "\0" + text, zone(earlier)))]
  {
    var wm := LegacyAfter(c, deviceId, stored, later);
    var e := Entry(Placed, Record(Json(text, ""), Accepted));
    assert (deviceId + "\0" + text)[|deviceId| + 1..] == text && (deviceId + "\0" + stored)[|deviceId| + 1..] == stored;
    MigrateFloor(c, zone, walls, wm);
    assert [] + [e] == [e];
    ScanSnoc(c, Locale(wall, Utc()), deviceId, wm, [], e);
    ScanSnoc(c, Locale(wall, zone), deviceId, Migrate(c, zone, wm), [], e);
  }

  /** It is what the old code stores after logging that call. */
  lemma LegacyIsWritten(c: Clock, wall: Layout, deviceId: string, text: string, w: int)
    requires wall(text) == Some(w)
    ensures AdvanceAll(c, EMPTY, [ItemOf(Locale(wall, Utc()), deviceId, Json(text, "")).value])
        == LegacyAfter(c, deviceId, text, w)
  {
    AdvanceOne(c, EMPTY, ItemOf(Locale(wall, Utc()), deviceId, Json(text, "")).value);
  }

  /** The row loops correspond for one legacy watermark and one list of entries. */
  ghost predicate ScansCorrespond(c: Clock, wall: Layout, zone: Zone, deviceId: string,
                                  wm: Watermark, entries: seq<Entry>) {
    var s := ScanEntries(c, Locale(wall, Utc()), deviceId, wm, entries);
    ScanEntries(c, Locale(wall, zone), deviceId, Migrate(c, zone, wm), entries)
        == Scan(Rezone(zone, s.calls), s.stopped)
  }

  /** They correspond for every legacy watermark and every list over some wall clocks. */
  ghost predicate Commutes(c: Clock, wall: Layout, zone: Zone, walls: iset<int>, deviceId: string) {
    forall wm: Watermark, entries: seq<Entry> ::
      WrittenInUtc(c, walls, wm) && InPlay(wall, walls, entries) ==>
        ScansCorrespond(c, wall, zone, deviceId, wm, entries)
  }

  /** Migration commutes with collection on a set of wall clocks if and only if the
      zone keeps them in strict order. */
  lemma CommutesIffOrderKept(c: Clock, wall: Layout, zone: Zone, walls: iset<int>, deviceId: string)
    requires Prints(c, zone, walls)
    requires forall w :: w in walls ==> exists text :: wall(text) == Some(w)
    ensures Commutes(c, wall, zone, walls, deviceId) <==> KeepsOrder(zone, walls)
  {
    if KeepsOrder(zone, walls) {
      forall wm: Watermark, entries: seq<Entry> | WrittenInUtc(c, walls, wm) && InPlay(wall, walls, entries)
        ensures ScansCorrespond(c, wall, zone, deviceId, wm, entries)
      {
        ScanCommutes(c, wall, zone, walls, deviceId, wm, entries);
      }
    } else {
      UnorderedDoesNotCommute(c, wall, zone, walls, deviceId);
    }
  }

  lemma UnorderedDoesNotCommute(c: Clock, wall: Layout, zone: Zone, walls: iset<int>, deviceId: string)
    requires Prints(c, zone, walls) && !KeepsOrder(zone, walls)
    requires forall w :: w in walls ==> exists text :: wall(text) == Some(w)
    ensures !Commutes(c, wall, zone, walls, deviceId)
  {
    var a, b :| a in walls && b in walls && a < b && zone(b).instant <= zone(a).instant;
    var text :| wall(text) == Some(a);
    var stored :| wall(stored) == Some(b);
    OrderIsNeeded(c, wall, zone, walls, a, b, deviceId, text, stored);
    var entries := [Entry(Placed, Record(Json(text, ""), Accepted))];
    assert !ScansCorrespond(c, wall, zone, deviceId, LegacyAfter(c, deviceId, stored, b), entries);
  }
}

/** The phone call-log collector.  A phone lists its calls in three groups, placed,
    received and missed, with start times in its own wall clock.  One run joins the
    groups in that order, emits the calls that are new against the watermark it is
    advancing, reports a count per direction and replaces the watermark file. */
module CallLogs {
  import opened Basics
  import opened Watermarks
  import opened AtomicFile

  // ---------------------------------------------------------------- input rows

  /** A listed record; rest stands for the fields that are only passed on. */
  datatype Raw = Malformed | Json(startTime: string, rest: string)

  datatype Direction = Placed | Received | Missed

  datatype Fate = Accepted | EmitFails(delivered: bool) | Dies(delivered: bool)

  /** A listed call and what happens when the collector reaches it. */
  datatype Record = Record(raw: Raw, fate: Fate)

  datatype Logs = Logs(missed: seq<Record>, received: seq<Record>, placed: seq<Record>)

  datatype Entry = Entry(direction: Direction, record: Record)

  function Label(d: Direction, records: seq<Record>): seq<Entry> {
    if records == [] then [] else Label(d, records[..|records| - 1]) + [Entry(d, records[|records| - 1])]
  }

  function Entries(logs: Logs): seq<Entry> {
    Label(Placed, logs.placed) + Label(Received, logs.received) + Label(Missed, logs.missed)
  }

  /** The wall-clock layout of start times, and a time zone. */
  type Layout = string -> Option<int>
  type Zone = int -> Time

  /** How the start times of a listing are read. */
  datatype Locale = Locale(wall: Layout, zone: Zone)

  function Utc(): Zone {
    w => Time(w, 0)
  }

  function At(loc: Locale): string -> Option<Time> {
    (text: string) => match loc.wall(text) case None => None case Some(w) => Some(loc.zone(w))
  }

  /** No text that parses contains a NUL. */
  ghost predicate NulFree(wall: Layout) {
    forall s :: wall(s).Some? ==> '\0' !in s
  }

  function ItemOf(loc: Locale, deviceId: string, raw: Raw): Option<Item> {
    if raw.Malformed? then None
    else
      match At(loc)(raw.startTime)
      case None => None
      case Some(start) => Some(Item(deviceId + "\0" + raw.startTime, start))
  }

  lemma ItemIsKeyed(loc: Locale, deviceId: string, raw: Raw)
    requires NulFree(loc.wall) && ItemOf(loc, deviceId, raw).Some?
    ensures
      var x := ItemOf(loc, deviceId, raw).value;
      At(loc)(AfterNul(x.key)) == Some(x.start)
  {
    AfterNulOfKey(deviceId, raw.startTime);
  }

  function Items(loc: Locale, deviceId: string, entries: seq<Entry>): seq<Item> {
    if entries == [] then []
    else
      var before := Items(loc, deviceId, entries[..|entries| - 1]);
      match ItemOf(loc, deviceId, entries[|entries| - 1].record.raw)
      case None => before
      case Some(x) => before + [x]
  }

  lemma {:induction false} ItemsKeyed(loc: Locale, deviceId: string, entries: seq<Entry>)
    requires NulFree(loc.wall)
    ensures Keyed(At(loc), Items(loc, deviceId, entries))
  {
    if entries != [] {
      var n := |entries| - 1;
      ItemsKeyed(loc, deviceId, entries[..n]);
      if ItemOf(loc, deviceId, entries[n].record.raw).Some? {
        ItemIsKeyed(loc, deviceId, entries[n].record.raw);
      }
    }
  }

  lemma {:induction false} ItemsOfPrefix(loc: Locale, deviceId: string, entries: seq<Entry>, n: nat)
    requires n <= |entries|
    ensures forall x :: x in Items(loc, deviceId, entries[..n]) ==> x in Items(loc, deviceId, entries)
  {
    if n == |entries| {
      assert entries[..n] == entries;
    } else {
      var m := |entries| - 1;
      ItemsOfPrefix(loc, deviceId, entries[..m], n);
      assert entries[..m][..n] == entries[..n];
    }
  }

  /** Every start time listed is one of these wall clocks. */
  ghost predicate InPlay(wall: Layout, walls: iset<int>, entries: seq<Entry>) {
    forall e :: e in entries && e.record.raw.Json? && wall(e.record.raw.startTime).Some?
      ==> wall(e.record.raw.startTime).value in walls
  }

  lemma {:induction false} ItemsInPlay(loc: Locale, walls: iset<int>, deviceId: string, entries: seq<Entry>)
    requires NulFree(loc.wall) && InPlay(loc.wall, walls, entries)
    ensures forall x :: x in Items(loc, deviceId, entries) ==>
      exists w :: w in walls && loc.wall(AfterNul(x.key)) == Some(w) && x.start == loc.zone(w)
  {
    if entries != [] {
      var n := |entries| - 1;
      assert entries[n] in entries;
      ItemsInPlay(loc, walls, deviceId, entries[..n]);
      if ItemOf(loc, deviceId, entries[n].record.raw).Some? {
        ItemIsKeyed(loc, deviceId, entries[n].record.raw);
        AfterNulOfKey(deviceId, entries[n].record.raw.startTime);
      }
    }
  }

  // --------------------------------------------------------------- one phone

  /** An emitted call record. */
  datatype Call = Call(direction: Direction, item: Item)

  function ItemsOf(calls: seq<Call>): seq<Item> {
    if calls == [] then [] else ItemsOf(calls[..|calls| - 1]) + [calls[|calls| - 1].item]
  }

  datatype Scan = Scan(calls: seq<Call>, stopped: bool)

  /** The item of an entry, if it can be read and is new against the advanced watermark. */
  function NewItem(c: Clock, loc: Locale, deviceId: string, wm: Watermark, es: seq<Item>, raw: Raw): Option<Item> {
    match ItemOf(loc, deviceId, raw)
    case None => None
    case Some(x) => if IsNew(c, x, AdvanceAll(c, wm, es), SeenBy(wm, es)) then Some(x) else None
  }

  /** What becomes of a scan at an entry that is skipped (no item) or new. */
  function Settle(s: Scan, e: Entry, x: Option<Item>): Scan {
    if x.None? then Scan(s.calls, e.record.fate.Dies?)
    else if e.record.fate.Accepted? then Scan(s.calls + [Call(e.direction, x.value)], false)
    else Scan(if e.record.fate.delivered then s.calls + [Call(e.direction, x.value)] else s.calls, true)
  }

  function StepEntry(c: Clock, loc: Locale, deviceId: string, wm: Watermark, s: Scan, e: Entry): Scan {
    if s.stopped then s else Settle(s, e, NewItem(c, loc, deviceId, wm, ItemsOf(s.calls), e.record.raw))
  }

  function ScanEntries(c: Clock, loc: Locale, deviceId: string, wm: Watermark, entries: seq<Entry>): Scan {
    if entries == [] then Scan([], false)
    else StepEntry(c, loc, deviceId, wm, ScanEntries(c, loc, deviceId, wm, entries[..|entries| - 1]),
                   entries[|entries| - 1])
  }

  /** How many emitted calls have a direction. */
  function CallsOf(d: Direction, calls: seq<Call>): nat {
    if calls == [] then 0
    else CallsOf(d, calls[..|calls| - 1]) + (if calls[|calls| - 1].direction == d then 1 else 0)
  }

  /** Every emitted call is counted under exactly one direction. */
  lemma {:induction false} DirectionsAddUp(calls: seq<Call>)
    ensures CallsOf(Placed, calls) + CallsOf(Received, calls) + CallsOf(Missed, calls) == |calls|
  {
    if calls != [] {
      DirectionsAddUp(calls[..|calls| - 1]);
    }
  }

  datatype Total = Total(direction: Direction, value: nat)

  const DIRECTIONS := [Placed, Received, Missed]

  /** The counts sent for some directions in turn: none for a direction without
      calls, and nothing after one that is rejected. */
  function Counts(ds: seq<Direction>, calls: seq<Call>, fails: Option<Direction>): (seq<Total>, bool) {
    if ds == [] then ([], true)
    else
      var (sent, ok) := Counts(ds[..|ds| - 1], calls, fails);
      var d := ds[|ds| - 1];
      if !ok || CallsOf(d, calls) == 0 then (sent, ok)
      else if fails == Some(d) then (sent, false)
      else (sent + [Total(d, CallsOf(d, calls))], true)
  }

  lemma {:induction false} CountsAreRight(ds: seq<Direction>, calls: seq<Call>, fails: Option<Direction>)
    requires Counts(ds, calls, fails).1
    ensures forall k :: k in Counts(ds, calls, fails).0 <==>
      k.direction in ds && k.value == CallsOf(k.direction, calls) > 0
  {
    if ds != [] {
      CountsAreRight(ds[..|ds| - 1], calls, fails);
      assert ds == ds[..|ds| - 1] + [ds[|ds| - 1]];
    }
  }

  // ----------------------------------------------------------------- the file

  /** A watermark with the version of the code that wrote it. */
  datatype Versioned = Versioned(version: int, wm: Watermark)

  type PhoneFile = File<Versioned>

  const VERSION := 1

  /** Re-reads the wall clock of a legacy watermark in the phone's zone. */
  function Migrate(c: Clock, zone: Zone, wm: Watermark): Watermark {
    match c.parse(wm.startTime)
    case None => wm
    case Some(legacy) => wm.(startTime := c.format(zone(legacy.instant + legacy.offset)))
  }

  function Load(c: Clock, zone: Zone, persists: bool, file: PhoneFile, readFails: bool): Option<Watermark> {
    if !persists then Some(EMPTY)
    else
      match file
      case Missing => if readFails then None else Some(EMPTY)
      case Corrupt => None
      case Stored(body) =>
        if readFails then None
        else if body.version == 0 then Some(Migrate(c, zone, body.wm))
        else Some(body.wm)
  }

  /** One phone's part of a run: probe, zone, file, call list, rows, counts, save. */
  datatype Script = Script(
    reachable: bool,
    zone: Option<Zone>,
    readFails: bool,
    logs: Option<Logs>,
    countFails: Option<Direction>,
    save: Ending)

  /** What a turn sends and leaves behind, and whether the run goes on to the next phone. */
  datatype Outcome = Outcome(calls: seq<Call>, counts: seq<Total>, file: PhoneFile, saved: bool, goesOn: bool)

  /** The watermark a turn starts from, if it gets as far as that. */
  function Loaded(c: Clock, persists: bool, file: PhoneFile, script: Script): Option<Watermark> {
    if !script.reachable || script.zone.None? then None
    else Load(c, script.zone.value, persists, file, script.readFails)
  }

  /** The end of a turn, once its counts are sent: the save. */
  function Conclude(persists: bool, file: PhoneFile, calls: seq<Call>, counts: (seq<Total>, bool), wm: Watermark,
                    save: Ending): Outcome {
    if !counts.1 then Outcome(calls, counts.0, file, false, false)
    else if !persists then Outcome(calls, counts.0, file, true, true)
    else if !Renamed(save) then Outcome(calls, counts.0, file, false, false)
    else Outcome(calls, counts.0, Stored(Versioned(VERSION, wm)), true, save.Completes?)
  }

  /** The end of a turn, once its rows have been read. */
  function Finish(c: Clock, persists: bool, file: PhoneFile, wm: Watermark, s: Scan, script: Script): Outcome {
    if s.stopped then Outcome(s.calls, [], file, false, false)
    else Conclude(persists, file, s.calls, Counts(DIRECTIONS, s.calls, script.countFails),
                  AdvanceAll(c, wm, ItemsOf(s.calls)), script.save)
  }

  /** The row loop of a turn. */
  function ScanOf(c: Clock, wall: Layout, deviceId: string, wm: Watermark, script: Script): Scan
    requires script.zone.Some? && script.logs.Some?
  {
    ScanEntries(c, Locale(wall, script.zone.value), deviceId, wm, Entries(script.logs.value))
  }

  function Run(c: Clock, wall: Layout, deviceId: string, persists: bool, file: PhoneFile, script: Script): Outcome {
    var loaded := Loaded(c, persists, file, script);
    if loaded.None? || script.logs.None? then Outcome([], [], file, false, !script.reachable)
    else
      Finish(c, persists, file, loaded.value, ScanOf(c, wall, deviceId, loaded.value, script), script)
  }

  lemma ConcludeShape(file: PhoneFile, calls: seq<Call>, counts: (seq<Total>, bool), wm: Watermark, save: Ending)
    ensures
      var o := Conclude(true, file, calls, counts, wm, save);
      o.calls == calls && o.file == if o.saved then Stored(Versioned(VERSION, wm)) else file
  {
  }

  lemma FinishShape(c: Clock, file: PhoneFile, wm: Watermark, s: Scan, script: Script)
    ensures
      var o := Finish(c, true, file, wm, s, script);
      && o.calls == s.calls && (o.saved ==> !s.stopped)
      && o.file == if o.saved then Stored(Versioned(VERSION, AdvanceAll(c, wm, ItemsOf(s.calls)))) else file
  {
    if !s.stopped {
      ConcludeShape(file, s.calls, Counts(DIRECTIONS, s.calls, script.countFails), AdvanceAll(c, wm, ItemsOf(s.calls)),
                    script.save);
    }
  }

  /** A turn logs what its scan emits, and leaves the file as it was or, if saved,
      advanced over that. */
  lemma RunIsScan(c: Clock, wall: Layout, deviceId: string, file: PhoneFile, script: Script)
    ensures
      var o := Run(c, wall, deviceId, true, file, script);
      var loaded := Loaded(c, true, file, script);
      if loaded.None? || script.logs.None? then o.calls == [] && !o.saved && o.file == file
      else
        var calls := ScanOf(c, wall, deviceId, loaded.value, script).calls;
        && o.calls == calls
        && o.file == if o.saved then Stored(Versioned(VERSION, AdvanceAll(c, loaded.value, ItemsOf(calls)))) else file
  {
    var loaded := Loaded(c, true, file, script);
    if loaded.Some? && script.logs.Some? {
      FinishShape(c, file, loaded.value, ScanOf(c, wall, deviceId, loaded.value, script), script);
    }
  }

  /** A turn that got as far as its rows. */
  lemma RunIsFinish(c: Clock, wall: Layout, deviceId: string, file: PhoneFile, script: Script, wm: Watermark)
    requires Loaded(c, true, file, script) == Some(wm) && script.logs.Some?
    ensures Run(c, wall, deviceId, true, file, script)
         == Finish(c, true, file, wm, ScanOf(c, wall, deviceId, wm, script), script)
  {
  }

  /** A turn that did not. */
  lemma RunIsIdle(c: Clock, wall: Layout, deviceId: string, file: PhoneFile, script: Script)
    requires Loaded(c, true, file, script).None? || script.logs.None?
    ensures Run(c, wall, deviceId, true, file, script) == Outcome([], [], file, false, !script.reachable)
  {
  }

  lemma SavedIsUndisturbed(c: Clock, wall: Layout, deviceId: string, file: PhoneFile, script: Script)
    requires Run(c, wall, deviceId, true, file, script).saved
    ensures Loaded(c, true, file, script).Some? && script.logs.Some?
    ensures !ScanOf(c, wall, deviceId, Loaded(c, true, file, script).value, script).stopped
  {
    var wm := Loaded(c, true, file, script).value;
    FinishShape(c, file, wm, ScanOf(c, wall, deviceId, wm, script), script);
  }

  /** The readable calls that a turn is offered. */
  function Offered(wall: Layout, deviceId: string, script: Script): seq<Item> {
    if script.zone.None? || script.logs.None? then []
    else Items(Locale(wall, script.zone.value), deviceId, Entries(script.logs.value))
  }

  lemma ItemsOfSnoc(calls: seq<Call>, call: Call)
    ensures ItemsOf(calls + [call]) == ItemsOf(calls) + [call.item]
  {
    assert (calls + [call])[..|calls|] == calls;
  }

  lemma AdvanceAllSnoc(c: Clock, wm: Watermark, calls: seq<Call>, call: Call)
    ensures AdvanceAll(c, wm, ItemsOf(calls + [call])) == Advance(c, AdvanceAll(c, wm, ItemsOf(calls)), call.item)
  {
    ItemsOfSnoc(calls, call);
    assert (ItemsOf(calls) + [call.item])[..|ItemsOf(calls)|] == ItemsOf(calls);
  }

  lemma ScanSnoc(c: Clock, loc: Locale, deviceId: string, wm: Watermark, entries: seq<Entry>, e: Entry)
    ensures ScanEntries(c, loc, deviceId, wm, entries + [e])
         == StepEntry(c, loc, deviceId, wm, ScanEntries(c, loc, deviceId, wm, entries), e)
  {
    assert (entries + [e])[..|entries|] == entries;
  }

  lemma AdvancingSnoc(c: Clock, loc: Locale, deviceId: string, wm: Watermark, entries: seq<Entry>, e: Entry)
    ensures
      var es := Advancing(c, wm, Items(loc, deviceId, entries));
      var x := NewItem(c, loc, deviceId, wm, es, e.record.raw);
      Advancing(c, wm, Items(loc, deviceId, entries + [e])) == if x.Some? then es + [x.value] else es
  {
    assert (entries + [e])[..|entries|] == entries;
    var items := Items(loc, deviceId, entries);
    var x := ItemOf(loc, deviceId, e.record.raw);
    if x.Some? {
      assert (items + [x.value])[..|items|] == items;
    }
  }

  /** One more entry keeps the scan and the advancing loop together, unless it
      stops the scan without a delivery. */
  lemma StepIsAdvancing(c: Clock, loc: Locale, deviceId: string, wm: Watermark, entries: seq<Entry>, s: Scan, e: Entry)
    requires !s.stopped && ItemsOf(s.calls) == Advancing(c, wm, Items(loc, deviceId, entries))
    ensures
      var t := StepEntry(c, loc, deviceId, wm, s, e);
      t == Scan(s.calls, true) || ItemsOf(t.calls) == Advancing(c, wm, Items(loc, deviceId, entries + [e]))
  {
    AdvancingSnoc(c, loc, deviceId, wm, entries, e);
    var x := NewItem(c, loc, deviceId, wm, ItemsOf(s.calls), e.record.raw);
    if x.Some? {
      ItemsOfSnoc(s.calls, Call(e.direction, x.value));
    }
  }

  /** A scan has emitted what the advancing loop emits for the first n entries. */
  ghost predicate ReadUpTo(c: Clock, loc: Locale, deviceId: string, wm: Watermark, entries: seq<Entry>, s: Scan,
                           n: nat) {
    && n <= |entries|
    && ItemsOf(s.calls) == Advancing(c, wm, Items(loc, deviceId, entries[..n]))
    && (!s.stopped ==> n == |entries|)
  }

  lemma ReadOneMore(c: Clock, loc: Locale, deviceId: string, wm: Watermark, entries: seq<Entry>, s: Scan, n: nat,
                    e: Entry)
    returns (m: nat)
    requires ReadUpTo(c, loc, deviceId, wm, entries, s, n)
    ensures ReadUpTo(c, loc, deviceId, wm, entries + [e], StepEntry(c, loc, deviceId, wm, s, e), m)
  {
    assert (entries + [e])[..n] == entries[..n];
    assert (entries + [e])[..|entries| + 1] == entries + [e];
    m := n;
    if !s.stopped {
      assert entries[..n] == entries;
      StepIsAdvancing(c, loc, deviceId, wm, entries, s, e);
      m := if StepEntry(c, loc, deviceId, wm, s, e) == Scan(s.calls, true) then n else n + 1;
    }
  }

  /** Wherever a scan stops, it has emitted what the advancing loop emits for some
      prefix of the entries; an undisturbed scan has read all of them. */
  lemma {:induction false} ScanIsAdvancing(c: Clock, loc: Locale, deviceId: string, wm: Watermark, entries: seq<Entry>)
    returns (n: nat)
    ensures ReadUpTo(c, loc, deviceId, wm, entries, ScanEntries(c, loc, deviceId, wm, entries), n)
  {
    if entries == [] {
      n := 0;
    } else {
      var m := |entries| - 1;
      n := ScanIsAdvancing(c, loc, deviceId, wm, entries[..m]);
      n := ReadOneMore(c, loc, deviceId, wm, entries[..m], ScanEntries(c, loc, deviceId, wm, entries[..m]), n,
                       entries[m]);
      assert entries[..m] + [entries[m]] == entries;
    }
  }

  /** Wherever a scan stops, its emissions are admissible for the watermark it began
      with and are among the calls it was offered. */
  lemma ScanAdmissible(c: Clock, loc: Locale, deviceId: string, wm: Watermark, entries: seq<Entry>)
    requires NulFree(loc.wall) && AllKeepUp(c, Items(loc, deviceId, entries))
    ensures
      var es := ItemsOf(ScanEntries(c, loc, deviceId, wm, entries).calls);
      && Keyed(At(loc), es) && Admissible(c, wm, es)
      && (forall x :: x in es ==> x in Items(loc, deviceId, entries))
  {
    var n := ScanIsAdvancing(c, loc, deviceId, wm, entries);
    ItemsKeyed(loc, deviceId, entries);
    ItemsOfPrefix(loc, deviceId, entries, n);
    AdvancingAdmissible(c, wm, Items(loc, deviceId, entries[..n]));
  }

  /** A saved run leaves the watermark the frozen loop would leave, emits its calls
      in time order, and emits all that the frozen loop would exactly when those
      are in time order over the joined groups. */
  lemma SavedRunAgainstFrozen(c: Clock, wall: Layout, deviceId: string, file: PhoneFile, script: Script)
    requires NulFree(wall) && AllFaithful(c, Offered(wall, deviceId, script))
    requires Run(c, wall, deviceId, true, file, script).saved
    ensures Loaded(c, true, file, script).Some?
    ensures
      var o := Run(c, wall, deviceId, true, file, script);
      var wm := Loaded(c, true, file, script).value;
      var frozen := Frozen(c, wm, Offered(wall, deviceId, script));
      && o.file == Stored(Versioned(VERSION, AdvanceAll(c, wm, frozen)))
      && TimeOrdered(ItemsOf(o.calls)) && Subsequence(ItemsOf(o.calls), frozen)
      && (ItemsOf(o.calls) == frozen <==> TimeOrdered(frozen))
  {
    var wm := Loaded(c, true, file, script).value;
    var loc := Locale(wall, script.zone.value);
    var entries := Entries(script.logs.value);
    var n := ScanIsAdvancing(c, loc, deviceId, wm, entries);
    assert entries[..n] == entries;
    ItemsKeyed(loc, deviceId, entries);
    AdvancingAgainstFrozen(c, At(loc), wm, Items(loc, deviceId, entries));
    AdvancingEqualsFrozenIff(c, At(loc), wm, Items(loc, deviceId, entries));
  }

  // ------------------------------------------------------------- one log per call

  /** The calls the watermark lets through, repeats included. */
  function WantedCalls(c: Clock, loc: Locale, deviceId: string, wm: Watermark, entries: seq<Entry>): seq<Call> {
    if entries == [] then []
    else
      var before := WantedCalls(c, loc, deviceId, wm, entries[..|entries| - 1]);
      var e := entries[|entries| - 1];
      match ItemOf(loc, deviceId, e.record.raw)
      case None => before
      case Some(x) =>
        if Wants(c, wm, x) then before + [Call(e.direction, x)] else before
  }

  lemma {:induction false} WantedCallsItems(c: Clock, loc: Locale, deviceId: string, wm: Watermark, entries: seq<Entry>)
    ensures ItemsOf(WantedCalls(c, loc, deviceId, wm, entries)) == WantedItems(c, wm, Items(loc, deviceId, entries))
  {
    if entries != [] {
      var n := |entries| - 1;
      WantedCallsItems(c, loc, deviceId, wm, entries[..n]);
      var x := ItemOf(loc, deviceId, entries[n].record.raw);
      if x.Some? {
        var before := Items(loc, deviceId, entries[..n]);
        assert (before + [x.value])[..|before|] == before;
        ItemsOfSnoc(WantedCalls(c, loc, deviceId, wm, entries[..n]), Call(entries[n].direction, x.value));
      }
    }
  }

  lemma {:induction false} ItemsOfLength(calls: seq<Call>)
    ensures |ItemsOf(calls)| == |calls|
  {
    if calls != [] {
      ItemsOfLength(calls[..|calls| - 1]);
    }
  }

  /** One entry more: what is emitted is wanted. */
  lemma StepWithinWanted(c: Clock, loc: Locale, deviceId: string, wm: Watermark, s: Scan, e: Entry, wanted: seq<Call>)
    requires !s.stopped && !StepEntry(c, loc, deviceId, wm, s, e).stopped
    requires AllKeepUp(c, ItemsOf(s.calls))
    requires |s.calls| <= |wanted| && (|s.calls| == |wanted| ==> s.calls == wanted)
    ensures
      var x := ItemOf(loc, deviceId, e.record.raw);
      var more := if x.Some? && Wants(c, wm, x.value) then wanted + [Call(e.direction, x.value)] else wanted;
      var calls := StepEntry(c, loc, deviceId, wm, s, e).calls;
      |calls| <= |more| && (|calls| == |more| ==> calls == more)
  {
    FloorRises(c, wm, ItemsOf(s.calls));
    if NewItem(c, loc, deviceId, wm, ItemsOf(s.calls), e.record.raw).Some? {
      TakesEntry(c, loc, deviceId, wm, s, e, ItemOf(loc, deviceId, e.record.raw).value);
    } else {
      SkipsEntry(c, loc, deviceId, wm, s, e);
    }
  }

  /** An undisturbed scan emits wanted calls only, so as many of them is all of them. */
  lemma {:induction false} ScanWithinWanted(c: Clock, loc: Locale, deviceId: string, wm: Watermark, entries: seq<Entry>)
    requires NulFree(loc.wall) && AllKeepUp(c, Items(loc, deviceId, entries))
    requires !ScanEntries(c, loc, deviceId, wm, entries).stopped
    ensures
      var calls, wanted := ScanEntries(c, loc, deviceId, wm, entries).calls, WantedCalls(c, loc, deviceId, wm, entries);
      |calls| <= |wanted| && (|calls| == |wanted| ==> calls == wanted)
  {
    if entries != [] {
      var n := |entries| - 1;
      ItemsOfPrefix(loc, deviceId, entries, n);
      ScanWithinWanted(c, loc, deviceId, wm, entries[..n]);
      ScanAdmissible(c, loc, deviceId, wm, entries[..n]);
      StepWithinWanted(c, loc, deviceId, wm, ScanEntries(c, loc, deviceId, wm, entries[..n]), entries[n],
                       WantedCalls(c, loc, deviceId, wm, entries[..n]));
    }
  }

  /** An undisturbed scan logs every call the watermark lets through exactly when no two
      of them share a start time and they come in time order. */
  lemma ScanLogsEveryCallIff(c: Clock, loc: Locale, deviceId: string, wm: Watermark, entries: seq<Entry>)
    requires NulFree(loc.wall) && AllFaithful(c, Items(loc, deviceId, entries))
    requires !ScanEntries(c, loc, deviceId, wm, entries).stopped
    ensures
      var wanted := WantedCalls(c, loc, deviceId, wm, entries);
      ScanEntries(c, loc, deviceId, wm, entries).calls == wanted <==>
        DistinctKeys(ItemsOf(wanted)) && TimeOrdered(ItemsOf(wanted))
  {
    var n := ScanIsAdvancing(c, loc, deviceId, wm, entries);
    assert entries[..n] == entries;
    ItemsKeyed(loc, deviceId, entries);
    AdvancingIsWantedIff(c, At(loc), wm, Items(loc, deviceId, entries));
    WantedCallsItems(c, loc, deviceId, wm, entries);
    ScanWithinWanted(c, loc, deviceId, wm, entries);
    ItemsOfLength(WantedCalls(c, loc, deviceId, wm, entries));
    ItemsOfLength(ScanEntries(c, loc, deviceId, wm, entries).calls);
  }

  /** A saved run logs every call the watermark lets through, each on its own, exactly
      when no two of them share a start time and the joined groups hold them in time
      order. */
  lemma SavedRunLogsEveryCallIff(c: Clock, wall: Layout, deviceId: string, file: PhoneFile, script: Script)
    requires NulFree(wall) && AllFaithful(c, Offered(wall, deviceId, script))
    requires Run(c, wall, deviceId, true, file, script).saved
    ensures Loaded(c, true, file, script).Some?
    ensures
      var loc := Locale(wall, script.zone.value);
      var wanted := WantedCalls(c, loc, deviceId, Loaded(c, true, file, script).value, Entries(script.logs.value));
      Run(c, wall, deviceId, true, file, script).calls == wanted <==>
        DistinctKeys(ItemsOf(wanted)) && TimeOrdered(ItemsOf(wanted))
  {
    SavedIsUndisturbed(c, wall, deviceId, file, script);
    RunIsScan(c, wall, deviceId, file, script);
    ScanLogsEveryCallIff(c, Locale(wall, script.zone.value), deviceId, Loaded(c, true, file, script).value,
                         Entries(script.logs.value));
  }

  /** A saved run reported, for each direction that had any, how many calls it
      emitted, and these add up to all of them. */
  lemma CountsAddUp(c: Clock, wall: Layout, deviceId: string, persists: bool, file: PhoneFile, script: Script)
    requires Run(c, wall, deviceId, persists, file, script).saved
    ensures
      var o := Run(c, wall, deviceId, persists, file, script);
      && (forall k :: k in o.counts <==> k.value == CallsOf(k.direction, o.calls) > 0)
      && CallsOf(Placed, o.calls) + CallsOf(Received, o.calls) + CallsOf(Missed, o.calls) == |o.calls|
  {
    var o := Run(c, wall, deviceId, persists, file, script);
    SavedRunCounted(c, wall, deviceId, persists, file, script);
    AllCounted(o.calls, script.countFails, o.counts);
  }

  lemma AllCounted(calls: seq<Call>, fails: Option<Direction>, counts: seq<Total>)
    requires Counts(DIRECTIONS, calls, fails) == (counts, true)
    ensures forall k :: k in counts <==> k.value == CallsOf(k.direction, calls) > 0
    ensures CallsOf(Placed, calls) + CallsOf(Received, calls) + CallsOf(Missed, calls) == |calls|
  {
    DirectionsAddUp(calls);
    CountsAreRight(DIRECTIONS, calls, fails);
    assert DIRECTIONS[0] == Placed && DIRECTIONS[1] == Received && DIRECTIONS[2] == Missed;
  }

  lemma SavedRunCounted(c: Clock, wall: Layout, deviceId: string, persists: bool, file: PhoneFile, script: Script)
    requires Run(c, wall, deviceId, persists, file, script).saved
    ensures
      var o := Run(c, wall, deviceId, persists, file, script);
      Counts(DIRECTIONS, o.calls, script.countFails) == (o.counts, true)
  {
  }

  // ------------------------------------------------------------- the collector

  lemma {:induction false} StoppedStays(c: Clock, loc: Locale, deviceId: string, wm: Watermark, entries: seq<Entry>,
                                        more: seq<Entry>)
    requires ScanEntries(c, loc, deviceId, wm, entries).stopped
    ensures ScanEntries(c, loc, deviceId, wm, entries + more) == ScanEntries(c, loc, deviceId, wm, entries)
  {
    if more == [] {
      assert entries + more == entries;
    } else {
      var m := |more| - 1;
      StoppedStays(c, loc, deviceId, wm, entries, more[..m]);
      assert (entries + more)[..|entries + more| - 1] == entries + more[..m];
    }
  }

  lemma StepWithin(c: Clock, loc: Locale, deviceId: string, wm: Watermark, entries: seq<Entry>, i: nat)
    requires i < |entries|
    ensures ScanEntries(c, loc, deviceId, wm, entries[..i + 1])
         == StepEntry(c, loc, deviceId, wm, ScanEntries(c, loc, deviceId, wm, entries[..i]), entries[i])
    ensures ScanEntries(c, loc, deviceId, wm, entries[..i + 1]).stopped
            ==> ScanEntries(c, loc, deviceId, wm, entries) == ScanEntries(c, loc, deviceId, wm, entries[..i + 1])
  {
    assert entries[..i + 1] == entries[..i] + [entries[i]];
    ScanSnoc(c, loc, deviceId, wm, entries[..i], entries[i]);
    if ScanEntries(c, loc, deviceId, wm, entries[..i + 1]).stopped {
      StoppedStays(c, loc, deviceId, wm, entries[..i + 1], entries[i + 1..]);
      assert entries == entries[..i + 1] + entries[i + 1..];
    }
  }

  function Tally(byDirection: map<Direction, nat>, d: Direction): nat {
    if d in byDirection then byDirection[d] else 0
  }

  /** The per-direction map after some calls. */
  function TallyAll(calls: seq<Call>): map<Direction, nat> {
    if calls == [] then map[]
    else
      var before := TallyAll(calls[..|calls| - 1]);
      var d := calls[|calls| - 1].direction;
      before[d := Tally(before, d) + 1]
  }

  lemma {:induction false} TallyIsCount(d: Direction, calls: seq<Call>)
    ensures Tally(TallyAll(calls), d) == CallsOf(d, calls)
  {
    if calls != [] {
      TallyIsCount(d, calls[..|calls| - 1]);
    }
  }

  /** What the row loop keeps up to date as it emits calls. */
  datatype Progress = Progress(checkpoint: Watermark, seen: set<string>, byDirection: map<Direction, nat>)

  function ProgressOf(c: Clock, wm: Watermark, calls: seq<Call>): Progress {
    Progress(AdvanceAll(c, wm, ItemsOf(calls)), SeenBy(wm, ItemsOf(calls)), TallyAll(calls))
  }

  /** What one more emitted call does to it. */
  function Taking(c: Clock, p: Progress, call: Call): Progress {
    Progress(Advance(c, p.checkpoint, call.item), p.seen + {call.item.key},
             p.byDirection[call.direction := Tally(p.byDirection, call.direction) + 1])
  }

  lemma TallySnoc(calls: seq<Call>, call: Call)
    ensures TallyAll(calls + [call]) == TallyAll(calls)[call.direction := Tally(TallyAll(calls), call.direction) + 1]
  {
    assert (calls + [call])[..|calls|] == calls;
  }

  lemma TakeCall(c: Clock, wm: Watermark, calls: seq<Call>, call: Call)
    ensures ProgressOf(c, wm, calls + [call]) == Taking(c, ProgressOf(c, wm, calls), call)
  {
    TallySnoc(calls, call);
    ItemsOfSnoc(calls, call);
    TakeItem(c, wm, ItemsOf(calls), call.item);
  }

  /** A step over an entry that cannot be read or is not new. */
  lemma SkipsEntry(c: Clock, loc: Locale, deviceId: string, wm: Watermark, s: Scan, e: Entry)
    requires !s.stopped && NewItem(c, loc, deviceId, wm, ItemsOf(s.calls), e.record.raw).None?
    ensures StepEntry(c, loc, deviceId, wm, s, e) == Scan(s.calls, e.record.fate.Dies?)
  {
  }

  /** A step over a new entry. */
  lemma TakesEntry(c: Clock, loc: Locale, deviceId: string, wm: Watermark, s: Scan, e: Entry, x: Item)
    requires !s.stopped && NewItem(c, loc, deviceId, wm, ItemsOf(s.calls), e.record.raw) == Some(x)
    ensures
      var fate := e.record.fate;
      var more := if fate.Accepted? || fate.delivered then s.calls + [Call(e.direction, x)] else s.calls;
      StepEntry(c, loc, deviceId, wm, s, e) == Scan(more, !fate.Accepted?)
  {
  }

  /** One phone's collector: the disk with its file, the call records and the counts
      it has sent. */
  class Collector {
    const deviceId: string
    const persists: bool
    const codec: Codec<Versioned>
    const path: string
    const volume: Volume
    var log: seq<Call>
    var counters: seq<Total>

    constructor (deviceId: string, persists: bool, codec: Codec<Versioned>, path: string, volume: Volume)
      ensures this.deviceId == deviceId && this.persists == persists
      ensures this.codec == codec && this.path == path && this.volume == volume
      ensures log == [] && counters == []
    {
      this.deviceId, this.persists := deviceId, persists;
      this.codec, this.path, this.volume := codec, path, volume;
      log, counters := [], [];
    }

    /** What its file holds. */
    ghost function Contents(): PhoneFile
      reads this, volume
    {
      Read(codec, volume.files, path)
    }

    /** One entry: skipped, or emitted and then taken into the checkpoint. */
    method CollectEntry(c: Clock, loc: Locale, e: Entry, p: Progress, ghost wm: Watermark, ghost s: Scan,
                        ghost before: seq<Call>)
      returns (q: Progress, ok: bool)
      requires !s.stopped && p == ProgressOf(c, wm, s.calls)
      requires log == before + s.calls
      modifies this`log
      ensures ok <==> !StepEntry(c, loc, deviceId, wm, s, e).stopped
      ensures log == before + StepEntry(c, loc, deviceId, wm, s, e).calls
      ensures ok ==> q == ProgressOf(c, wm, StepEntry(c, loc, deviceId, wm, s, e).calls)
    {
      q := p;
      var fate := e.record.fate;
      var x := ItemOf(loc, deviceId, e.record.raw);
      if x.None? || !IsNew(c, x.value, p.checkpoint, p.seen) {
        SkipsEntry(c, loc, deviceId, wm, s, e);
        return q, !fate.Dies?;
      }
      var call := Call(e.direction, x.value);
      TakesEntry(c, loc, deviceId, wm, s, e, x.value);
      if fate.Accepted? || fate.delivered {
        log := log + [call];
        Associate(before, s.calls, [call]);
      }
      if !fate.Accepted? {
        return q, false;
      }
      TakeCall(c, wm, s.calls, call);
      q := Taking(c, p, call);
      ok := true;
    }

    /** The row loop: tests each entry against the checkpoint it advances. */
    method CollectEntries(c: Clock, loc: Locale, wm: Watermark, entries: seq<Entry>)
      returns (p: Progress, ok: bool)
      modifies this`log
      ensures log == old(log) + ScanEntries(c, loc, deviceId, wm, entries).calls
      ensures ok <==> !ScanEntries(c, loc, deviceId, wm, entries).stopped
      ensures ok ==> p == ProgressOf(c, wm, ScanEntries(c, loc, deviceId, wm, entries).calls)
    {
      p, ok := Progress(wm, set k | k in wm.keys, map[]), true;
      ghost var s := Scan([], false);
      assert p.seen == SeenBy(wm, []);
      assert entries[..0] == [];
      var i := 0;
      while i < |entries| && ok
        invariant i <= |entries|
        invariant s == ScanEntries(c, loc, deviceId, wm, entries[..i])
        invariant log == old(log) + s.calls
        invariant ok <==> !s.stopped
        invariant !ok ==> ScanEntries(c, loc, deviceId, wm, entries) == s
        invariant ok ==> p == ProgressOf(c, wm, s.calls)
      {
        StepWithin(c, loc, deviceId, wm, entries, i);
        p, ok := CollectEntry(c, loc, entries[i], p, wm, s, old(log));
        s := StepEntry(c, loc, deviceId, wm, s, entries[i]);
        i := i + 1;
      }
      assert entries[..|entries|] == entries;
    }

    /** The counter loop over the three directions, skipping those without calls. */
    method SendCounts(byDirection: map<Direction, nat>, fails: Option<Direction>, ghost calls: seq<Call>)
      returns (ok: bool)
      requires byDirection == TallyAll(calls)
      modifies this`counters
      ensures counters == old(counters) + Counts(DIRECTIONS, calls, fails).0
      ensures ok == Counts(DIRECTIONS, calls, fails).1
    {
      ok := true;
      for i := 0 to |DIRECTIONS|
        invariant ok == Counts(DIRECTIONS[..i], calls, fails).1
        invariant counters == old(counters) + Counts(DIRECTIONS[..i], calls, fails).0
      {
        var d := DIRECTIONS[i];
        TallyIsCount(d, calls);
        assert DIRECTIONS[..i + 1][..i] == DIRECTIONS[..i];
        if !ok || Tally(byDirection, d) == 0 {
          continue;
        }
        if fails == Some(d) {
          ok := false;
        } else {
          counters := counters + [Total(d, Tally(byDirection, d))];
        }
      }
      assert DIRECTIONS[..|DIRECTIONS|] == DIRECTIONS;
    }

    /** One phone's turn in a run; nothing but its own file and a temporary one
        changes on the disk. */
    method Collect(c: Clock, wall: Layout, script: Script, tmp: string) returns (goesOn: bool)
      requires RoundTrips(codec)
      requires tmp !in volume.files && tmp != path
      modifies this, volume
      ensures
        var o := Run(c, wall, deviceId, persists, old(Contents()), script);
        && log == old(log) + o.calls && counters == old(counters) + o.counts && Contents() == o.file
        && goesOn == o.goesOn
      ensures SameBut(volume.files, old(volume.files), {path, tmp})
    {
      if !script.reachable {
        return true;
      }
      if script.zone.None? {
        return false;
      }
      var loc := Locale(wall, script.zone.value);
      var loaded := Load(c, loc.zone, persists, Read(codec, volume.files, path), script.readFails);
      if loaded.None? || script.logs.None? {
        return false;
      }
      var entries := Entries(script.logs.value);
      var p, ok := CollectEntries(c, loc, loaded.value, entries);
      if !ok {
        return false;
      }
      ok := SendCounts(p.byDirection, script.countFails, ScanEntries(c, loc, deviceId, loaded.value, entries).calls);
      if !ok {
        return false;
      }
      if !persists {
        return true;
      }
      goesOn := volume.Replace(codec, path, Versioned(VERSION, p.checkpoint), tmp, script.save);
    }
  }
}

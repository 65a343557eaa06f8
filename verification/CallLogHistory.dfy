/** Whole histories of one phone's call-log collector.  The zone is asked of the
    phone in every run, so it may change from run to run. */
module CallLogHistory {
  import opened Basics
  import opened Watermarks
  import opened AtomicFile
  import opened CallLogs

  /** The file left behind, everything logged, what saved runs logged, and how many
      runs ended without replacing the file. */
  datatype History = History(file: PhoneFile, log: seq<Call>, savedLog: seq<Call>, unsaved: nat)

  function Replay(c: Clock, wall: Layout, deviceId: string, file: PhoneFile, scripts: seq<Script>): History {
    if |scripts| == 0 then History(file, [], [], 0)
    else
      var h := Replay(c, wall, deviceId, file, scripts[..|scripts| - 1]);
      After(h, Run(c, wall, deviceId, true, h.file, scripts[|scripts| - 1]))
  }

  function After(h: History, o: Outcome): History {
    History(o.file,
            h.log + o.calls,
            if o.saved then h.savedLog + o.calls else h.savedLog,
            if o.saved then h.unsaved else h.unsaved + 1)
  }

  function Times(k: string, calls: seq<Call>): nat {
    Count(k, ItemsOf(calls))
  }

  lemma {:induction false} ItemsOfConcat(a: seq<Call>, b: seq<Call>)
    ensures ItemsOf(a + b) == ItemsOf(a) + ItemsOf(b)
  {
    if b == [] {
      assert a + b == a;
    } else {
      ItemsOfConcat(a, b[..|b| - 1]);
      assert (a + b)[..|a + b| - 1] == a + b[..|b| - 1];
    }
  }

  lemma TimesConcat(k: string, a: seq<Call>, b: seq<Call>)
    ensures Times(k, a + b) == Times(k, a) + Times(k, b)
  {
    ItemsOfConcat(a, b);
    CountConcat(k, ItemsOf(a), ItemsOf(b));
  }

  ghost predicate BarredBy(c: Clock, loc: Locale, file: PhoneFile, k: string) {
    file.Stored? && file.body.version == VERSION && Barred(c, At(loc), file.body.wm, k)
  }

  /** Every start that some runs are offered prints as no earlier a time. */
  ghost predicate KeptUp(c: Clock, wall: Layout, deviceId: string, scripts: seq<Script>) {
    NulFree(wall) && forall script :: script in scripts ==> AllKeepUp(c, Offered(wall, deviceId, script))
  }

  lemma RunAndKey(c: Clock, wall: Layout, deviceId: string, file: PhoneFile, script: Script, k: string)
    requires NulFree(wall) && AllKeepUp(c, Offered(wall, deviceId, script))
    ensures
      var o := Run(c, wall, deviceId, true, file, script);
      && (!o.saved ==> o.file == file)
      && if script.zone.None? then o.calls == [] && !o.saved
         else
           var loc := Locale(wall, script.zone.value);
           && Times(k, o.calls) <= 1
           && (BarredBy(c, loc, file, k) ==> Times(k, o.calls) == 0 && BarredBy(c, loc, o.file, k))
           && (o.saved && Times(k, o.calls) > 0 ==> BarredBy(c, loc, o.file, k))
  {
    RunIsScan(c, wall, deviceId, file, script);
    var loaded := Loaded(c, true, file, script);
    if loaded.Some? && script.logs.Some? {
      var loc := Locale(wall, script.zone.value);
      ScanAdmissible(c, loc, deviceId, loaded.value, Entries(script.logs.value));
      AdmissibleTreatsKey(c, At(loc), loaded.value, ItemsOf(ScanOf(c, wall, deviceId, loaded.value, script).calls), k);
    }
  }

  // ------------------------------------------------------------- changes of zone

  /** The second zone does not put the start of a key later than the first does. */
  ghost predicate NotLater(wall: Layout, a: Option<Zone>, b: Option<Zone>, k: string) {
    var w := wall(AfterNul(k));
    a.Some? && b.Some? && w.Some? ==> b.value(w.value).instant <= a.value(w.value).instant
  }

  /** Through some runs and on to a last zone, the start of a key never moves later. */
  ghost predicate NeverLater(wall: Layout, scripts: seq<Script>, last: Option<Zone>, k: string) {
    && (forall i :: 0 <= i < |scripts| ==> NotLater(wall, scripts[i].zone, last, k))
    && (forall i, j :: 0 <= i < j < |scripts| ==> NotLater(wall, scripts[i].zone, scripts[j].zone, k))
  }

  lemma BarredCarries(c: Clock, wall: Layout, a: Zone, b: Zone, file: PhoneFile, k: string)
    requires NotLater(wall, Some(a), Some(b), k) && BarredBy(c, Locale(wall, a), file, k)
    ensures BarredBy(c, Locale(wall, b), file, k)
  {
  }

  /** The duplication bound for a key, as the zone that comes next sees it. */
  ghost predicate Bounded(c: Clock, wall: Layout, zone: Zone, h: History, k: string) {
    Times(k, h.log) <= h.unsaved + (if BarredBy(c, Locale(wall, zone), h.file, k) then 1 else 0)
  }

  /** The key has not been logged and is barred, as the zone that comes next sees it. */
  ghost predicate KeptOut(c: Clock, wall: Layout, zone: Zone, h: History, k: string) {
    Times(k, h.log) == 0 && BarredBy(c, Locale(wall, zone), h.file, k)
  }

  /** The zone of a run, or of the next if it never learns its own. */
  function ZoneOf(script: Script, next: Zone): Zone {
    if script.zone.Some? then script.zone.value else next
  }

  /** One more run, seen from a zone that puts the key no later. */
  lemma OneMoreRun(c: Clock, wall: Layout, deviceId: string, h: History, script: Script, next: Zone, k: string)
    requires NulFree(wall) && AllKeepUp(c, Offered(wall, deviceId, script))
    requires NotLater(wall, script.zone, Some(next), k)
    ensures
      var after := After(h, Run(c, wall, deviceId, true, h.file, script));
      && (Bounded(c, wall, ZoneOf(script, next), h, k) ==> Bounded(c, wall, next, after, k))
      && (KeptOut(c, wall, ZoneOf(script, next), h, k) ==> KeptOut(c, wall, next, after, k))
  {
    var zone, o := ZoneOf(script, next), Run(c, wall, deviceId, true, h.file, script);
    RunAndKey(c, wall, deviceId, h.file, script, k);
    TimesConcat(k, h.log, o.calls);
    if BarredBy(c, Locale(wall, zone), o.file, k) {
      BarredCarries(c, wall, zone, next, o.file, k);
    }
  }

  /** Over every history whose zones never move a call later, the call is logged at
      most once more than there are unsaved runs. */
  lemma {:induction false} BoundedDuplication(c: Clock, wall: Layout, deviceId: string, file: PhoneFile,
                                              scripts: seq<Script>, last: Zone, k: string)
    requires KeptUp(c, wall, deviceId, scripts) && NeverLater(wall, scripts, Some(last), k)
    ensures Bounded(c, wall, last, Replay(c, wall, deviceId, file, scripts), k)
  {
    if |scripts| > 0 {
      var n := |scripts| - 1;
      assert scripts[n] in scripts;
      BoundedDuplication(c, wall, deviceId, file, scripts[..n], ZoneOf(scripts[n], last), k);
      OneMoreRun(c, wall, deviceId, Replay(c, wall, deviceId, file, scripts[..n]), scripts[n], last, k);
    }
  }

  /** A barred call is not logged again, through any zones that never move it later. */
  lemma {:induction false} BarredForever(c: Clock, wall: Layout, deviceId: string, file: PhoneFile,
                                         first: Zone, scripts: seq<Script>, last: Zone, k: string)
    requires KeptUp(c, wall, deviceId, scripts)
    requires NeverLater(wall, scripts, Some(last), k) && NotLater(wall, Some(first), Some(last), k)
    requires forall i :: 0 <= i < |scripts| ==> NotLater(wall, Some(first), scripts[i].zone, k)
    requires BarredBy(c, Locale(wall, first), file, k)
    ensures KeptOut(c, wall, last, Replay(c, wall, deviceId, file, scripts), k)
  {
    if |scripts| == 0 {
      BarredCarries(c, wall, first, last, file, k);
    } else {
      var n := |scripts| - 1;
      assert scripts[n] in scripts;
      BarredForever(c, wall, deviceId, file, first, scripts[..n], ZoneOf(scripts[n], last), k);
      OneMoreRun(c, wall, deviceId, Replay(c, wall, deviceId, file, scripts[..n]), scripts[n], last, k);
    }
  }

  /** A file that no run has replaced yet, or one that every zone loads alike. */
  ghost predicate Settled(c: Clock, file: PhoneFile, h: History, runs: nat) {
    && h.unsaved <= runs
    && (h.unsaved == runs ==> h.file == file)
    && (h.unsaved < runs ==>
         && h.file.Stored? && h.file.body.version == VERSION
         && forall zone: Zone :: Load(c, zone, true, h.file, false) == Some(h.file.body.wm))
  }

  lemma SettledMore(c: Clock, wall: Layout, deviceId: string, file: PhoneFile, h: History, script: Script, runs: nat)
    requires Settled(c, file, h, runs)
    ensures Settled(c, file, After(h, Run(c, wall, deviceId, true, h.file, script)), runs + 1)
  {
    RunIsScan(c, wall, deviceId, h.file, script);
  }

  /** Once any run was saved the file has version 1, so whatever zone reads it next,
      nothing is migrated again. */
  lemma {:induction false} MigratesAtMostOnce(c: Clock, wall: Layout, deviceId: string, file: PhoneFile,
                                              scripts: seq<Script>)
    ensures Settled(c, file, Replay(c, wall, deviceId, file, scripts), |scripts|)
  {
    if |scripts| > 0 {
      var n := |scripts| - 1;
      MigratesAtMostOnce(c, wall, deviceId, file, scripts[..n]);
      SettledMore(c, wall, deviceId, file, Replay(c, wall, deviceId, file, scripts[..n]), scripts[n], n);
    }
  }

  // ------------------------------------------------------------- skipped calls

  /** Later runs, in zones that move a call of this zone nowhere later. */
  ghost predicate Later(c: Clock, wall: Layout, deviceId: string, zone: Zone, scripts: seq<Script>, k: string) {
    && KeptUp(c, wall, deviceId, scripts)
    && (forall i :: 0 <= i < |scripts| ==> NotLater(wall, Some(zone), scripts[i].zone, k))
    && (forall i, j :: 0 <= i < j < |scripts| ==> NotLater(wall, scripts[i].zone, scripts[j].zone, k))
  }

  lemma {:induction false} NeverLogged(c: Clock, wall: Layout, deviceId: string, file: PhoneFile, zone: Zone,
                                       scripts: seq<Script>, k: string)
    requires Later(c, wall, deviceId, zone, scripts, k) && BarredBy(c, Locale(wall, zone), file, k)
    ensures Times(k, Replay(c, wall, deviceId, file, scripts).log) == 0
  {
    if |scripts| > 0 {
      var n := |scripts| - 1;
      NeverLogged(c, wall, deviceId, file, zone, scripts[..n], k);
      var script := scripts[n];
      assert script in scripts;
      var h := Replay(c, wall, deviceId, file, scripts[..n]);
      RunAndKey(c, wall, deviceId, h.file, script, k);
      TimesConcat(k, h.log, Run(c, wall, deviceId, true, h.file, script).calls);
      if script.zone.Some? {
        BarredForever(c, wall, deviceId, file, zone, scripts[..n], script.zone.value, k);
      }
    }
  }

  /** A call that a saved run logged is never logged again. */
  lemma NeverAgainAfterSave(c: Clock, wall: Layout, deviceId: string, file: PhoneFile, script: Script,
                            later: seq<Script>, k: string)
    requires NulFree(wall) && AllKeepUp(c, Offered(wall, deviceId, script))
    requires Run(c, wall, deviceId, true, file, script).saved
    requires Times(k, Run(c, wall, deviceId, true, file, script).calls) > 0
    requires script.zone.Some? ==> Later(c, wall, deviceId, script.zone.value, later, k)
    ensures Times(k, Replay(c, wall, deviceId, Run(c, wall, deviceId, true, file, script).file, later).log) == 0
  {
    RunAndKey(c, wall, deviceId, file, script, k);
    NeverLogged(c, wall, deviceId, Run(c, wall, deviceId, true, file, script).file, script.zone.value, later, k);
  }

  /** A call the frozen loop would report but a saved run skipped is never reported
      by any later run. */
  lemma SkippedForGood(c: Clock, wall: Layout, deviceId: string, file: PhoneFile, script: Script, later: seq<Script>,
                       x: Item)
    requires NulFree(wall) && AllFaithful(c, Offered(wall, deviceId, script))
    requires Run(c, wall, deviceId, true, file, script).saved && Loaded(c, true, file, script).Some?
    requires Later(c, wall, deviceId, script.zone.value, later, x.key)
    requires x in Frozen(c, Loaded(c, true, file, script).value, Offered(wall, deviceId, script))
    requires x !in ItemsOf(Run(c, wall, deviceId, true, file, script).calls)
    ensures Times(x.key, Replay(c, wall, deviceId, Run(c, wall, deviceId, true, file, script).file, later).log) == 0
  {
    var loc := Locale(wall, script.zone.value);
    SkippedIsBarred(c, loc, deviceId, Loaded(c, true, file, script).value, Entries(script.logs.value), x);
    NeverLogged(c, wall, deviceId, Run(c, wall, deviceId, true, file, script).file, loc.zone, later, x.key);
  }

  /** What the frozen loop takes and an undisturbed scan skips is barred afterwards. */
  lemma SkippedIsBarred(c: Clock, loc: Locale, deviceId: string, wm: Watermark, entries: seq<Entry>, x: Item)
    requires NulFree(loc.wall) && AllFaithful(c, Items(loc, deviceId, entries))
    requires !ScanEntries(c, loc, deviceId, wm, entries).stopped
    requires x in Frozen(c, wm, Items(loc, deviceId, entries))
    requires x !in ItemsOf(ScanEntries(c, loc, deviceId, wm, entries).calls)
    ensures Barred(c, At(loc), AdvanceAll(c, wm, ItemsOf(ScanEntries(c, loc, deviceId, wm, entries).calls)), x.key)
  {
    var n := ScanIsAdvancing(c, loc, deviceId, wm, entries);
    assert entries[..n] == entries;
    var items := Items(loc, deviceId, entries);
    ItemsKeyed(loc, deviceId, entries);
    AdvancingAgainstFrozen(c, At(loc), wm, items);
    FrozenAdmissible(c, wm, items);
    assert x in items;
  }

  lemma AdvanceOne(c: Clock, wm: Watermark, x: Item)
    ensures AdvanceAll(c, wm, [x]) == Advance(c, wm, x)
  {
    assert [x][..0] == [];
  }

  lemma {:induction false} CountsUndisturbed(ds: seq<Direction>, calls: seq<Call>)
    ensures Counts(ds, calls, None).1
  {
    if ds != [] {
      CountsUndisturbed(ds[..|ds| - 1], calls);
    }
  }

  /** The end of a turn in which one call was logged and nothing went wrong. */
  lemma FinishOne(c: Clock, file: PhoneFile, wm: Watermark, call: Call, script: Script)
    requires script.countFails.None? && script.save.Completes?
    ensures
      var o := Finish(c, true, file, wm, Scan([call], false), script);
      o.saved && o.calls == [call] && o.file == Stored(Versioned(VERSION, Advance(c, wm, call.item)))
  {
    CountsUndisturbed(DIRECTIONS, [call]);
    ItemsOfSnoc([], call);
    assert [] + [call] == [call] && [] + [call.item] == [call.item];
    AdvanceOne(c, wm, call.item);
  }

  /** The first entry of a turn, if it is new. */
  lemma ScanOne(c: Clock, loc: Locale, deviceId: string, wm: Watermark, e: Entry, x: Item)
    requires e.record.fate.Accepted? && ItemOf(loc, deviceId, e.record.raw) == Some(x)
    requires x.key !in wm.keys && AtOrAbove(x.start.instant, Floor(c, wm))
    ensures ScanEntries(c, loc, deviceId, wm, [e]) == Scan([Call(e.direction, x)], false)
  {
    ScanSnoc(c, loc, deviceId, wm, [], e);
    assert [] + [e] == [e];
    assert NewItem(c, loc, deviceId, wm, [], e.record.raw) == Some(x);
    assert [] + [Call(e.direction, x)] == [Call(e.direction, x)];
  }

  // --------------------------------------------------- calls out of order in a listing

  /** Some calls followed by others, none of them with this key, which stays barred. */
  ghost predicate GoesPast(c: Clock, loc: Locale, wm: Watermark, first: seq<Call>, extra: seq<Call>, calls: seq<Call>,
                           k: string) {
    && calls == first + extra
    && (forall call :: call in extra ==> call.item.key != k)
    && Barred(c, At(loc), AdvanceAll(c, wm, ItemsOf(calls)), k)
  }

  /** A scan, told entry by entry. */
  ghost predicate Steps(c: Clock, loc: Locale, deviceId: string, wm: Watermark, entries: seq<Entry>, scans: seq<Scan>) {
    && |scans| == |entries| + 1
    && forall i :: 0 <= i < |entries| ==> scans[i + 1] == StepEntry(c, loc, deviceId, wm, scans[i], entries[i])
  }

  /** A scan goes on past a barred key without logging it. */
  lemma {:induction false} ScanSkips(c: Clock, loc: Locale, deviceId: string, wm: Watermark, entries: seq<Entry>,
                                     scans: seq<Scan>, m: nat, n: nat, k: string)
    returns (extra: seq<Call>)
    requires NulFree(loc.wall) && AllKeepUp(c, Items(loc, deviceId, entries))
    requires m <= n <= |entries| && Steps(c, loc, deviceId, wm, entries, scans) && !scans[n].stopped
    requires Barred(c, At(loc), AdvanceAll(c, wm, ItemsOf(scans[m].calls)), k)
    ensures GoesPast(c, loc, wm, scans[m].calls, extra, scans[n].calls, k)
  {
    if m == n {
      extra := [];
      assert scans[m].calls + [] == scans[m].calls;
    } else {
      StoppedSteps(c, loc, deviceId, wm, scans[n - 1], entries[n - 1]);
      extra := ScanSkips(c, loc, deviceId, wm, entries, scans, m, n - 1, k);
      EntryListed(loc, deviceId, entries, n - 1);
      extra := StepSkips(c, loc, deviceId, wm, scans[m].calls, extra, scans[n - 1], entries[n - 1], k,
                         Items(loc, deviceId, entries));
    }
  }

  lemma StoppedSteps(c: Clock, loc: Locale, deviceId: string, wm: Watermark, s: Scan, e: Entry)
    ensures s.stopped ==> StepEntry(c, loc, deviceId, wm, s, e).stopped
  {
  }

  lemma ScanSteps(c: Clock, loc: Locale, deviceId: string, wm: Watermark,
                  entries: seq<Entry>) returns (scans: seq<Scan>)
    ensures Steps(c, loc, deviceId, wm, entries, scans)
    ensures forall i :: 0 <= i <= |entries| ==> scans[i] == ScanEntries(c, loc, deviceId, wm, entries[..i])
  {
    scans := seq(|entries| + 1, i requires 0 <= i <= |entries| => ScanEntries(c, loc, deviceId, wm, entries[..i]));
    forall i | 0 <= i < |entries|
      ensures scans[i + 1] == StepEntry(c, loc, deviceId, wm, scans[i], entries[i])
    {
      StepWithin(c, loc, deviceId, wm, entries, i);
    }
  }

  lemma EntryListed(loc: Locale, deviceId: string, entries: seq<Entry>, i: nat)
    requires i < |entries|
    ensures
      var x := ItemOf(loc, deviceId, entries[i].record.raw);
      x.Some? ==> x.value in Items(loc, deviceId, entries)
  {
    var x := ItemOf(loc, deviceId, entries[i].record.raw);
    if x.Some? {
      ItemListed(loc, deviceId, entries, entries[i], x.value);
    }
  }

  /** One entry read against a watermark that bars a key. */
  lemma StepSkips(c: Clock, loc: Locale, deviceId: string, wm: Watermark, first: seq<Call>, extra: seq<Call>,
                  s: Scan, e: Entry, k: string, items: seq<Item>)
    returns (more: seq<Call>)
    requires NulFree(loc.wall) && AllKeepUp(c, items) && !s.stopped
    requires ItemOf(loc, deviceId, e.record.raw).Some? ==> ItemOf(loc, deviceId, e.record.raw).value in items
    requires !StepEntry(c, loc, deviceId, wm, s, e).stopped
    requires GoesPast(c, loc, wm, first, extra, s.calls, k)
    ensures GoesPast(c, loc, wm, first, more, StepEntry(c, loc, deviceId, wm, s, e).calls, k)
  {
    var x := NewItem(c, loc, deviceId, wm, ItemsOf(s.calls), e.record.raw);
    if x.None? {
      SkipsEntry(c, loc, deviceId, wm, s, e);
      more := extra;
    } else {
      var call := Call(e.direction, x.value);
      TakesEntry(c, loc, deviceId, wm, s, e, x.value);
      ItemIsKeyed(loc, deviceId, e.record.raw);
      KeysOfAdvance(c, wm, ItemsOf(s.calls));
      BarredStep(c, At(loc), AdvanceAll(c, wm, ItemsOf(s.calls)), x.value, k);
      AdvanceAllSnoc(c, wm, s.calls, call);
      Associate(first, extra, [call]);
      more := extra + [call];
    }
  }

  /** The item of an entry is among those of its list. */
  lemma {:induction false} ItemListed(loc: Locale, deviceId: string, entries: seq<Entry>, e: Entry, x: Item)
    requires e in entries && ItemOf(loc, deviceId, e.record.raw) == Some(x)
    ensures x in Items(loc, deviceId, entries)
  {
    var n := |entries| - 1;
    assert entries == entries[..n] + [entries[n]];
    if e in entries[..n] {
      ItemListed(loc, deviceId, entries[..n], e, x);
    }
  }

  /** What an undisturbed scan has read is barred after it. */
  lemma ScanBars(c: Clock, loc: Locale, deviceId: string, wm: Watermark, entries: seq<Entry>, e: Entry, x: Item)
    requires NulFree(loc.wall) && AllKeepUp(c, Items(loc, deviceId, entries)) && StoredBarred(c, At(loc), wm)
    requires !ScanEntries(c, loc, deviceId, wm, entries).stopped
    requires e in entries && ItemOf(loc, deviceId, e.record.raw) == Some(x)
    ensures Barred(c, At(loc), AdvanceAll(c, wm, ItemsOf(ScanEntries(c, loc, deviceId, wm, entries).calls)), x.key)
  {
    var n := ScanIsAdvancing(c, loc, deviceId, wm, entries);
    assert entries[..n] == entries;
    ItemsKeyed(loc, deviceId, entries);
    ItemListed(loc, deviceId, entries, e, x);
    AdvancingBars(c, At(loc), wm, Items(loc, deviceId, entries), x);
  }

  /** After an entry has been read, nothing older and nothing with its start time is
      logged by the rest of the scan. */
  lemma OutOfOrderIsSkipped(c: Clock, loc: Locale, deviceId: string, wm: Watermark,
                            entries: seq<Entry>, m: nat, read: Entry, x: Item, y: Item)
    returns (extra: seq<Call>)
    requires m <= |entries|
    requires NulFree(loc.wall) && AllKeepUp(c, Items(loc, deviceId, entries)) && StoredBarred(c, At(loc), wm)
    requires !ScanEntries(c, loc, deviceId, wm, entries).stopped
    requires read in entries[..m] && ItemOf(loc, deviceId, read.record.raw) == Some(x)
    requires At(loc)(AfterNul(y.key)) == Some(y.start) && (y.key == x.key || y.start.instant < x.start.instant)
    ensures GoesPast(c, loc, wm, ScanEntries(c, loc, deviceId, wm, entries[..m]).calls, extra,
                     ScanEntries(c, loc, deviceId, wm, entries).calls, y.key)
  {
    PrefixIsUndisturbed(c, loc, deviceId, wm, entries, m);
    ItemsOfPrefix(loc, deviceId, entries, m);
    ItemIsKeyed(loc, deviceId, read.record.raw);
    ScanBars(c, loc, deviceId, wm, entries[..m], read, x);
    var scans := ScanSteps(c, loc, deviceId, wm, entries);
    assert entries[..|entries|] == entries;
    extra := ScanSkips(c, loc, deviceId, wm, entries, scans, m, |entries|, y.key);
  }

  lemma PrefixIsUndisturbed(c: Clock, loc: Locale, deviceId: string, wm: Watermark, entries: seq<Entry>, m: nat)
    requires m <= |entries| && !ScanEntries(c, loc, deviceId, wm, entries).stopped
    ensures !ScanEntries(c, loc, deviceId, wm, entries[..m]).stopped
  {
    assert entries == entries[..m] + entries[m..];
    if ScanEntries(c, loc, deviceId, wm, entries[..m]).stopped {
      StoppedStays(c, loc, deviceId, wm, entries[..m], entries[m..]);
    }
  }

  lemma {:induction false} LabelMembers(d: Direction, records: seq<Record>)
    ensures forall r :: r in records ==> Entry(d, r) in Label(d, records)
    ensures forall e :: e in Label(d, records) ==> e.direction == d
  {
    if records != [] {
      LabelMembers(d, records[..|records| - 1]);
      assert records == records[..|records| - 1] + [records[|records| - 1]];
    }
  }

  /** A scan logs calls in the directions of the entries it reads. */
  lemma {:induction false} ScanDirections(c: Clock, loc: Locale, deviceId: string, wm: Watermark, entries: seq<Entry>,
                                          d: Direction)
    requires forall e :: e in entries ==> e.direction == d
    ensures forall call :: call in ScanEntries(c, loc, deviceId, wm, entries).calls ==> call.direction == d
  {
    if entries != [] {
      var n := |entries| - 1;
      assert entries[n] in entries;
      ScanDirections(c, loc, deviceId, wm, entries[..n], d);
      StepDirection(c, loc, deviceId, wm, ScanEntries(c, loc, deviceId, wm, entries[..n]), entries[n], d);
    }
  }

  lemma StepDirection(c: Clock, loc: Locale, deviceId: string, wm: Watermark, s: Scan, e: Entry, d: Direction)
    requires e.direction == d && forall call :: call in s.calls ==> call.direction == d
    ensures forall call :: call in StepEntry(c, loc, deviceId, wm, s, e).calls ==> call.direction == d
  {
    if !s.stopped && NewItem(c, loc, deviceId, wm, ItemsOf(s.calls), e.record.raw).Some? {
      TakesEntry(c, loc, deviceId, wm, s, e, NewItem(c, loc, deviceId, wm, ItemsOf(s.calls), e.record.raw).value);
    } else if !s.stopped {
      SkipsEntry(c, loc, deviceId, wm, s, e);
    }
  }

  /** The scan of a listing logs no received call that is older than a placed one or
      has its start time, and bars it. */
  lemma ReceivedIsSkipped(c: Clock, loc: Locale, deviceId: string, wm: Watermark, logs: Logs, placed: Record, x: Item,
                          y: Item)
    requires NulFree(loc.wall) && AllKeepUp(c, Items(loc, deviceId, Entries(logs))) && StoredBarred(c, At(loc), wm)
    requires !ScanEntries(c, loc, deviceId, wm, Entries(logs)).stopped
    requires placed in logs.placed && ItemOf(loc, deviceId, placed.raw) == Some(x)
    requires At(loc)(AfterNul(y.key)) == Some(y.start) && (y.key == x.key || y.start.instant < x.start.instant)
    ensures
      var calls := ScanEntries(c, loc, deviceId, wm, Entries(logs)).calls;
      && (forall call :: call in calls && call.direction == Received ==> call.item.key != y.key)
      && Barred(c, At(loc), AdvanceAll(c, wm, ItemsOf(calls)), y.key)
  {
    var entries, first := Entries(logs), Label(Placed, logs.placed);
    assert entries[..|first|] == first;
    LabelMembers(Placed, logs.placed);
    var extra := OutOfOrderIsSkipped(c, loc, deviceId, wm, entries, |first|, Entry(Placed, placed), x, y);
    ScanDirections(c, loc, deviceId, wm, first, Placed);
  }

  /** Although each group alone may be in time order, a received call is lost that is
      older than a placed one of the same listing or has the same start time: the saved
      run that saw it logs no received call at that time, and no later run does. */
  lemma ReceivedCallIsLost(c: Clock, loc: Locale, deviceId: string, file: PhoneFile, script: Script, wm: Watermark,
                           placed: Record, received: Record, x: Item, y: Item)
    requires NulFree(loc.wall) && AllKeepUp(c, Offered(loc.wall, deviceId, script)) && StoredBarred(c, At(loc), wm)
    requires Run(c, loc.wall, deviceId, true, file, script).saved
    requires script.zone == Some(loc.zone) && Loaded(c, true, file, script) == Some(wm) && script.logs.Some?
    requires placed in script.logs.value.placed && ItemOf(loc, deviceId, placed.raw) == Some(x)
    requires received in script.logs.value.received && ItemOf(loc, deviceId, received.raw) == Some(y)
    requires y.key == x.key || y.start.instant < x.start.instant
    ensures
      var o := Run(c, loc.wall, deviceId, true, file, script);
      && (forall call :: call in o.calls && call.direction == Received ==> call.item.key != y.key)
      && (forall later :: Later(c, loc.wall, deviceId, loc.zone, later, y.key) ==>
            Times(y.key, Replay(c, loc.wall, deviceId, o.file, later).log) == 0)
  {
    var o := Run(c, loc.wall, deviceId, true, file, script);
    ItemIsKeyed(loc, deviceId, received.raw);
    RunIsScan(c, loc.wall, deviceId, file, script);
    SavedIsUndisturbed(c, loc.wall, deviceId, file, script);
    ReceivedIsSkipped(c, loc, deviceId, wm, script.logs.value, placed, x, y);
    forall later | Later(c, loc.wall, deviceId, loc.zone, later, y.key)
      ensures Times(y.key, Replay(c, loc.wall, deviceId, o.file, later).log) == 0
    {
      NeverLogged(c, loc.wall, deviceId, o.file, loc.zone, later, y.key);
    }
  }

  /** Files written in one zone store no key that starts after them, so the premise of
      the above holds in every history that began without a file. */
  lemma {:induction false} HistoryStoresBarred(c: Clock, wall: Layout, deviceId: string, zone: Zone,
                                               scripts: seq<Script>)
    requires KeptUp(c, wall, deviceId, scripts)
    requires forall script :: script in scripts && script.zone.Some? ==> script.zone.value == zone
    ensures
      var loaded := Load(c, zone, true, Replay(c, wall, deviceId, Missing, scripts).file, false);
      loaded.Some? && StoredBarred(c, At(Locale(wall, zone)), loaded.value)
  {
    if |scripts| > 0 {
      var n := |scripts| - 1;
      assert scripts[n] in scripts;
      HistoryStoresBarred(c, wall, deviceId, zone, scripts[..n]);
      RunStoresBarred(c, wall, deviceId, zone, Replay(c, wall, deviceId, Missing, scripts[..n]).file, scripts[n]);
    }
  }

  lemma RunStoresBarred(c: Clock, wall: Layout, deviceId: string, zone: Zone, file: PhoneFile, script: Script)
    requires NulFree(wall) && AllKeepUp(c, Offered(wall, deviceId, script))
    requires script.zone.Some? ==> script.zone.value == zone
    requires Load(c, zone, true, file, false).Some?
    requires StoredBarred(c, At(Locale(wall, zone)), Load(c, zone, true, file, false).value)
    ensures
      var loaded := Load(c, zone, true, Run(c, wall, deviceId, true, file, script).file, false);
      loaded.Some? && StoredBarred(c, At(Locale(wall, zone)), loaded.value)
  {
    RunIsScan(c, wall, deviceId, file, script);
    if Run(c, wall, deviceId, true, file, script).saved {
      var loc, wm := Locale(wall, zone), Load(c, zone, true, file, false).value;
      var entries := Entries(script.logs.value);
      ScanAdmissible(c, loc, deviceId, wm, entries);
      StoredStayBarred(c, At(loc), wm, ItemsOf(ScanEntries(c, loc, deviceId, wm, entries).calls));
    }
  }

  // ------------------------------------------------- when the bound can be relied on

  /** Some runs that pass through these zones in order, run m being in zone at[m], and
      list calls at these wall clocks only. */
  ghost predicate Through(wall: Layout, walls: iset<int>, zones: seq<Zone>, at: seq<nat>, scripts: seq<Script>) {
    && |at| == |scripts|
    && (forall m :: 0 <= m < |at| ==> at[m] < |zones|)
    && (forall m, n :: 0 <= m < n < |at| ==> at[m] <= at[n])
    && (forall m :: 0 <= m < |at| ==> scripts[m].zone == Some(zones[at[m]]) && Lists(wall, walls, scripts[m]))
  }

  /** Every call a run lists is at one of these wall clocks. */
  ghost predicate Lists(wall: Layout, walls: iset<int>, script: Script) {
    script.logs.Some? ==> InPlay(wall, walls, Entries(script.logs.value))
  }

  ghost predicate WithinBound(c: Clock, wall: Layout, deviceId: string, file: PhoneFile, scripts: seq<Script>,
                              k: string) {
    var h := Replay(c, wall, deviceId, file, scripts);
    Times(k, h.log) <= 1 + h.unsaved
  }

  /** All runs through these zones, over these wall clocks, keep the bound. */
  ghost predicate BoundHolds(c: Clock, wall: Layout, walls: iset<int>, deviceId: string, zones: seq<Zone>) {
    forall file, at, scripts, k ::
      Through(wall, walls, zones, at, scripts) ==> WithinBound(c, wall, deviceId, file, scripts, k)
  }

  /** Each wall clock can be written in two ways, as with a fraction of zero. */
  ghost predicate TwoSpellings(wall: Layout, walls: iset<int>) {
    forall w :: w in walls ==> exists s, t :: s != t && wall(s) == Some(w) && wall(t) == Some(w)
  }

  ghost predicate ZoneKeepsUp(c: Clock, zone: Zone, walls: iset<int>) {
    forall w :: w in walls ==> KeepsUp(c, zone(w))
  }

  ghost predicate ZonePrints(c: Clock, zone: Zone, walls: iset<int>) {
    forall w :: w in walls ==> Faithful(c, zone(w))
  }

  /** No zone puts one of these wall clocks later than an earlier zone does. */
  ghost predicate ZonesNeverLater(zones: seq<Zone>, walls: iset<int>) {
    forall i, j :: 0 <= i < j < |zones| ==> NoneLater(zones[i], zones[j], walls)
  }

  ghost predicate NoneLater(a: Zone, b: Zone, walls: iset<int>) {
    forall w :: w in walls ==> b(w).instant <= a(w).instant
  }

  lemma ThroughKeepsUp(c: Clock, wall: Layout, walls: iset<int>, deviceId: string, zones: seq<Zone>, at: seq<nat>,
                       scripts: seq<Script>)
    requires NulFree(wall) && Through(wall, walls, zones, at, scripts)
    requires forall i :: 0 <= i < |zones| ==> ZoneKeepsUp(c, zones[i], walls)
    ensures KeptUp(c, wall, deviceId, scripts)
  {
    forall script | script in scripts
      ensures AllKeepUp(c, Offered(wall, deviceId, script))
    {
      var m :| 0 <= m < |scripts| && scripts[m] == script;
      if script.logs.Some? {
        assert ZoneKeepsUp(c, zones[at[m]], walls);
        ItemsInPlay(Locale(wall, zones[at[m]]), walls, deviceId, Entries(script.logs.value));
      }
    }
  }

  /** A call whose wall clock is never listed is never logged. */
  lemma {:induction false} UnlistedNeverLogged(c: Clock, wall: Layout, walls: iset<int>, deviceId: string,
                                               file: PhoneFile, scripts: seq<Script>, k: string)
    requires KeptUp(c, wall, deviceId, scripts)
    requires forall m :: 0 <= m < |scripts| ==> Lists(wall, walls, scripts[m])
    requires wall(AfterNul(k)).None? || wall(AfterNul(k)).value !in walls
    ensures Times(k, Replay(c, wall, deviceId, file, scripts).log) == 0
  {
    if |scripts| > 0 {
      var n := |scripts| - 1;
      var script := scripts[n];
      assert script in scripts;
      UnlistedNeverLogged(c, wall, walls, deviceId, file, scripts[..n], k);
      var h := Replay(c, wall, deviceId, file, scripts[..n]);
      UnlistedNotLogged(c, wall, walls, deviceId, h.file, script, k);
      TimesConcat(k, h.log, Run(c, wall, deviceId, true, h.file, script).calls);
    }
  }

  lemma UnlistedNotLogged(c: Clock, wall: Layout, walls: iset<int>, deviceId: string, file: PhoneFile, script: Script,
                          k: string)
    requires NulFree(wall) && AllKeepUp(c, Offered(wall, deviceId, script)) && Lists(wall, walls, script)
    requires wall(AfterNul(k)).None? || wall(AfterNul(k)).value !in walls
    ensures Times(k, Run(c, wall, deviceId, true, file, script).calls) == 0
  {
    RunIsScan(c, wall, deviceId, file, script);
    var loaded := Loaded(c, true, file, script);
    if loaded.Some? && script.logs.Some? {
      var loc := Locale(wall, script.zone.value);
      ScanAdmissible(c, loc, deviceId, loaded.value, Entries(script.logs.value));
      ItemsInPlay(loc, walls, deviceId, Entries(script.logs.value));
      CountPositive(k, ItemsOf(ScanOf(c, wall, deviceId, loaded.value, script).calls));
    }
  }

  lemma NeverLaterThrough(wall: Layout, walls: iset<int>, zones: seq<Zone>, at: seq<nat>, scripts: seq<Script>,
                          k: string)
    requires Through(wall, walls, zones, at, scripts) && ZonesNeverLater(zones, walls) && |scripts| > 0
    requires wall(AfterNul(k)).Some? && wall(AfterNul(k)).value in walls
    ensures NeverLater(wall, scripts, scripts[|scripts| - 1].zone, k)
  {
    var w := wall(AfterNul(k)).value;
    forall m, n | 0 <= m <= n < |scripts|
      ensures NotLater(wall, scripts[m].zone, scripts[n].zone, k)
    {
      if at[m] < at[n] {
        assert NoneLater(zones[at[m]], zones[at[n]], walls);
        assert w in walls;
      }
    }
  }

  /** Where all zones print as no earlier times and none puts a wall clock later than
      one before it, the bound holds. */
  lemma BoundThroughZones(c: Clock, wall: Layout, walls: iset<int>, deviceId: string, zones: seq<Zone>)
    requires NulFree(wall) && ZonesNeverLater(zones, walls)
    requires forall i :: 0 <= i < |zones| ==> ZoneKeepsUp(c, zones[i], walls)
    ensures BoundHolds(c, wall, walls, deviceId, zones)
  {
    forall file, at, scripts: seq<Script>, k | Through(wall, walls, zones, at, scripts)
      ensures WithinBound(c, wall, deviceId, file, scripts, k)
    {
      ThroughKeepsUp(c, wall, walls, deviceId, zones, at, scripts);
      if |scripts| > 0 && wall(AfterNul(k)).Some? && wall(AfterNul(k)).value in walls {
        NeverLaterThrough(wall, walls, zones, at, scripts, k);
        BoundedDuplication(c, wall, deviceId, file, scripts, scripts[|scripts| - 1].zone.value, k);
      } else if |scripts| > 0 {
        UnlistedNeverLogged(c, wall, walls, deviceId, file, scripts, k);
      }
    }
  }

  /** In one zone the bound holds for all histories over some wall clocks if and only
      if the zone prints each of them as no earlier a time. */
  lemma BoundHoldsIff(c: Clock, wall: Layout, walls: iset<int>, deviceId: string, zone: Zone)
    requires NulFree(wall) && TwoSpellings(wall, walls)
    ensures BoundHolds(c, wall, walls, deviceId, [zone]) <==> ZoneKeepsUp(c, zone, walls)
  {
    if ZoneKeepsUp(c, zone, walls) {
      BoundThroughZones(c, wall, walls, deviceId, [zone]);
    } else {
      var w :| w in walls && !KeepsUp(c, zone(w));
      LoggedAgain(c, wall, walls, deviceId, [zone], 0, 0, w);
    }
  }

  /** When a phone's zone changes, any number of times, the bound holds for all
      histories over some wall clocks if and only if no zone puts one of them later than
      an earlier zone did. */
  lemma ZoneChangesKeepBoundIff(c: Clock, wall: Layout, walls: iset<int>, deviceId: string, zones: seq<Zone>)
    requires NulFree(wall) && TwoSpellings(wall, walls)
    requires forall i :: 0 <= i < |zones| ==> ZonePrints(c, zones[i], walls)
    ensures BoundHolds(c, wall, walls, deviceId, zones) <==> ZonesNeverLater(zones, walls)
  {
    if ZonesNeverLater(zones, walls) {
      forall i | 0 <= i < |zones|
        ensures ZoneKeepsUp(c, zones[i], walls)
      {
        assert ZonePrints(c, zones[i], walls);
      }
      BoundThroughZones(c, wall, walls, deviceId, zones);
    } else {
      var i, j :| 0 <= i < j < |zones| && !NoneLater(zones[i], zones[j], walls);
      LaterZoneBreaksBound(c, wall, walls, deviceId, zones, i, j);
    }
  }

  lemma LaterZoneBreaksBound(c: Clock, wall: Layout, walls: iset<int>, deviceId: string, zones: seq<Zone>, i: nat,
                             j: nat)
    requires NulFree(wall) && TwoSpellings(wall, walls) && i < j < |zones|
    requires ZonePrints(c, zones[i], walls) && ZonePrints(c, zones[j], walls)
    requires !NoneLater(zones[i], zones[j], walls)
    ensures !BoundHolds(c, wall, walls, deviceId, zones)
  {
    var w :| w in walls && zones[i](w).instant < zones[j](w).instant;
    LoggedAgain(c, wall, walls, deviceId, zones, i, j, w);
  }

  // ---------------------------------------------------- a call that is logged again

  /** A run in a zone that lists one placed call. */
  function OneCall(zone: Zone, text: string): Script {
    Script(true, Some(zone), false, Some(Logs([], [], [Record(Json(text, ""), Accepted)])), None, Completes)
  }

  /** A history goes on with a run that lists a new call. */
  lemma OneCallMore(c: Clock, loc: Locale, deviceId: string, scripts: seq<Script>, h: History, text: string,
                    wm: Watermark, x: Item)
    requires Replay(c, loc.wall, deviceId, Missing, scripts) == h && Load(c, loc.zone, true, h.file, false) == Some(wm)
    requires ItemOf(loc, deviceId, Json(text, "")) == Some(x)
    requires x.key !in wm.keys && AtOrAbove(x.start.instant, Floor(c, wm))
    ensures Replay(c, loc.wall, deviceId, Missing, scripts + [OneCall(loc.zone, text)])
         == History(Stored(Versioned(VERSION, Advance(c, wm, x))), h.log + [Call(Placed, x)],
                    h.savedLog + [Call(Placed, x)], h.unsaved)
  {
    var script := OneCall(loc.zone, text);
    OneEntry(loc.zone, text);
    ScanOne(c, loc, deviceId, wm, Entry(Placed, Record(Json(text, ""), Accepted)), x);
    FinishOne(c, h.file, wm, Call(Placed, x), script);
    assert Run(c, loc.wall, deviceId, true, h.file, script)
        == Finish(c, true, h.file, wm, Scan([Call(Placed, x)], false), script);
    ReplaySnoc(c, loc.wall, deviceId, Missing, scripts, script);
  }

  lemma OneEntry(zone: Zone, text: string)
    ensures Entries(OneCall(zone, text).logs.value) == [Entry(Placed, Record(Json(text, ""), Accepted))]
  {
    var p := [Record(Json(text, ""), Accepted)];
    assert p[..0] == [];
    assert Label(Placed, p) == [Entry(Placed, p[0])];
  }

  /** A time printed in one zone reads as earlier than another time, or not at all. */
  ghost predicate ReadsBelow(c: Clock, t: Time, instant: int) {
    var floor := Floor(c, Watermark(c.format(t), []));
    floor.None? || floor.value < instant
  }

  ghost predicate ReadsAtMost(c: Clock, t: Time, instant: int) {
    var floor := Floor(c, Watermark(c.format(t), []));
    floor.None? || floor.value <= instant
  }

  /** The history that breaks the bound: a call is logged in the first zone, displaced
      from the stored keys by another spelling of its time in the second, and logged
      again there, with every run saved. */
  lemma LoggedAgain(c: Clock, wall: Layout, walls: iset<int>, deviceId: string, zones: seq<Zone>, i: nat, j: nat,
                    w: int)
    requires NulFree(wall) && TwoSpellings(wall, walls) && w in walls && i <= j < |zones|
    requires ReadsBelow(c, zones[i](w), zones[j](w).instant) && ReadsAtMost(c, zones[j](w), zones[j](w).instant)
    ensures !BoundHolds(c, wall, walls, deviceId, zones)
  {
    var s, t :| s != t && wall(s) == Some(w) && wall(t) == Some(w);
    AgainIsThrough(wall, walls, zones, i, j, s, t);
    AgainIsUnbounded(c, wall, deviceId, zones[i], zones[j], s, t, w);
  }

  /** The three runs. */
  function Again(a: Zone, b: Zone, s: string, t: string): seq<Script> {
    [OneCall(a, s)] + [OneCall(b, t)] + [OneCall(b, s)]
  }

  lemma AgainIsThrough(wall: Layout, walls: iset<int>, zones: seq<Zone>, i: nat, j: nat, s: string, t: string)
    requires i <= j < |zones| && wall(s).Some? && wall(s).value in walls && wall(t) == wall(s)
    ensures Through(wall, walls, zones, [i, j, j], Again(zones[i], zones[j], s, t))
  {
    OneCallLists(wall, walls, zones[i], s);
    OneCallLists(wall, walls, zones[j], t);
    OneCallLists(wall, walls, zones[j], s);
  }

  lemma AgainIsUnbounded(c: Clock, wall: Layout, deviceId: string, a: Zone, b: Zone, s: string, t: string, w: int)
    requires s != t && wall(s) == Some(w) && wall(t) == Some(w)
    requires ReadsBelow(c, a(w), b(w).instant) && ReadsAtMost(c, b(w), b(w).instant)
    ensures !WithinBound(c, wall, deviceId, Missing, Again(a, b, s, t), deviceId + "\0" + s)
  {
    ThreeRuns(c, wall, deviceId, a, b, s, t, w);
  }

  lemma OneCallLists(wall: Layout, walls: iset<int>, zone: Zone, text: string)
    requires wall(text).Some? && wall(text).value in walls
    ensures Lists(wall, walls, OneCall(zone, text))
  {
    OneEntry(zone, text);
  }

  lemma ReplaySnoc(c: Clock, wall: Layout, deviceId: string, file: PhoneFile, scripts: seq<Script>, script: Script)
    ensures
      var h := Replay(c, wall, deviceId, file, scripts);
      Replay(c, wall, deviceId, file, scripts + [script]) == After(h, Run(c, wall, deviceId, true, h.file, script))
  {
    assert (scripts + [script])[..|scripts|] == scripts;
  }

  /** Three such runs, told by what each adds. */
  lemma ThreeMore(c: Clock, wall: Layout, deviceId: string, a: Zone, b: Zone, s: string, t: string, wm1: Watermark,
                  wm2: Watermark, first: Item, other: Item, again: Item)
    requires ItemOf(Locale(wall, a), deviceId, Json(s, "")) == Some(first)
    requires ItemOf(Locale(wall, b), deviceId, Json(t, "")) == Some(other)
    requires ItemOf(Locale(wall, b), deviceId, Json(s, "")) == Some(again)
    requires wm1 == Advance(c, EMPTY, first) && wm2 == Advance(c, wm1, other)
    requires other.key !in wm1.keys && AtOrAbove(other.start.instant, Floor(c, wm1))
    requires again.key !in wm2.keys && AtOrAbove(again.start.instant, Floor(c, wm2))
    ensures
      var h := Replay(c, wall, deviceId, Missing, [] + [OneCall(a, s)] + [OneCall(b, t)] + [OneCall(b, s)]);
      h.unsaved == 0 && h.log == [] + [Call(Placed, first)] + [Call(Placed, other)] + [Call(Placed, again)]
  {
    var log1 := [] + [Call(Placed, first)];
    var log2 := log1 + [Call(Placed, other)];
    var h1 := History(Stored(Versioned(VERSION, wm1)), log1, log1, 0);
    var h2 := History(Stored(Versioned(VERSION, wm2)), log2, log2, 0);
    OneCallMore(c, Locale(wall, a), deviceId, [], History(Missing, [], [], 0), s, EMPTY, first);
    OneCallMore(c, Locale(wall, b), deviceId, [] + [OneCall(a, s)], h1, t, wm1, other);
    OneCallMore(c, Locale(wall, b), deviceId, [] + [OneCall(a, s)] + [OneCall(b, t)], h2, s, wm2, again);
  }

  lemma ThreeRuns(c: Clock, wall: Layout, deviceId: string, a: Zone, b: Zone, s: string, t: string, w: int)
    requires s != t && wall(s) == Some(w) && wall(t) == Some(w)
    requires ReadsBelow(c, a(w), b(w).instant) && ReadsAtMost(c, b(w), b(w).instant)
    ensures
      var h := Replay(c, wall, deviceId, Missing, [OneCall(a, s)] + [OneCall(b, t)] + [OneCall(b, s)]);
      h.unsaved == 0 && Times(deviceId + "\0" + s, h.log) >= 2
  {
    var first, other := Item(deviceId + "\0" + s, a(w)), Item(deviceId + "\0" + t, b(w));
    var again := Item(deviceId + "\0" + s, b(w));
    assert first.key[|deviceId| + 1..] == s && other.key[|deviceId| + 1..] == t;
    var wm1, wm2 := Watermark(c.format(a(w)), [first.key]), Watermark(c.format(b(w)), [other.key]);
    ThreeMore(c, wall, deviceId, a, b, s, t, wm1, wm2, first, other, again);
    assert [] + [OneCall(a, s)] == [OneCall(a, s)];
    LoggedTwice(Call(Placed, first), Call(Placed, other), Call(Placed, again));
    assert [] + [Call(Placed, first)] == [Call(Placed, first)];
  }

  lemma LoggedTwice(x: Call, y: Call, z: Call)
    requires x.item.key == z.item.key
    ensures Times(x.item.key, [x] + [y] + [z]) >= 2
  {
    TimesConcat(x.item.key, [x], [y]);
    TimesConcat(x.item.key, [x] + [y], [z]);
    assert ItemsOf([x]) == [x.item] && ItemsOf([z]) == [z.item];
    CountOne(x.item.key, x.item);
    CountOne(x.item.key, z.item);
  }
}

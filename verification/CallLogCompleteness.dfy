/** Which calls of a phone are logged over whole histories in one zone. */
module CallLogCompleteness {
  import opened Basics
  import opened Watermarks
  import opened AtomicFile
  import opened NewRows
  import opened CallLogs
  import opened CallLogHistory

  /** A listed call: the group it is listed in, and its record. */
  datatype Heard = Heard(direction: Direction, raw: Raw)

  /** The entries that can be read, with their items. */
  function ListEntries(loc: Locale, deviceId: string, entries: seq<Entry>): seq<Listed<Heard>> {
    if entries == [] then []
    else
      var e := entries[|entries| - 1];
      var before := ListEntries(loc, deviceId, entries[..|entries| - 1]);
      match ItemOf(loc, deviceId, e.record.raw)
      case None => before
      case Some(x) => before + [Listed(Heard(e.direction, e.record.raw), x)]
  }

  lemma {:induction false} ListEntriesItems(loc: Locale, deviceId: string, entries: seq<Entry>)
    ensures Bare(ListEntries(loc, deviceId, entries)) == Items(loc, deviceId, entries)
  {
    if entries != [] {
      var n := |entries| - 1;
      ListEntriesItems(loc, deviceId, entries[..n]);
      var before := ListEntries(loc, deviceId, entries[..n]);
      var x := ItemOf(loc, deviceId, entries[n].record.raw);
      if x.Some? {
        assert (before + [Listed(Heard(entries[n].direction, entries[n].record.raw), x.value)])[..|before|] == before;
      }
    }
  }

  function ToCalls(ls: seq<Listed<Heard>>): seq<Call> {
    if ls == [] then [] else ToCalls(ls[..|ls| - 1]) + [Call(ls[|ls| - 1].row.direction, ls[|ls| - 1].item)]
  }

  lemma {:induction false} ToCallsItems(ls: seq<Listed<Heard>>)
    ensures |ToCalls(ls)| == |ls| && ItemsOf(ToCalls(ls)) == Bare(ls)
  {
    if ls != [] {
      var n := |ls| - 1;
      ToCallsItems(ls[..n]);
      ItemsOfSnoc(ToCalls(ls[..n]), Call(ls[n].row.direction, ls[n].item));
    }
  }

  lemma {:induction false} ToCallsConcat(a: seq<Listed<Heard>>, b: seq<Listed<Heard>>)
    ensures ToCalls(a + b) == ToCalls(a) + ToCalls(b)
  {
    if b == [] {
      assert a + b == a;
    } else {
      ToCallsConcat(a, b[..|b| - 1]);
      assert (a + b)[..|a + b| - 1] == a + b[..|b| - 1];
    }
  }

  /** The calls a watermark lets through, either way of saying it. */
  lemma {:induction false} PassedCalls(c: Clock, loc: Locale, deviceId: string, wm: Watermark, entries: seq<Entry>)
    ensures ToCalls(Passed(c, wm, ListEntries(loc, deviceId, entries))) == WantedCalls(c, loc, deviceId, wm, entries)
  {
    if entries != [] {
      var n := |entries| - 1;
      PassedCalls(c, loc, deviceId, wm, entries[..n]);
      var before, x := ListEntries(loc, deviceId, entries[..n]), ItemOf(loc, deviceId, entries[n].record.raw);
      if x.Some? {
        var l := Listed(Heard(entries[n].direction, entries[n].record.raw), x.value);
        assert (before + [l])[..|before|] == before;
        var passed := Passed(c, wm, before);
        assert (passed + [l])[..|passed|] == passed;
      }
    }
  }

  // ---------------------------------------------------------------------- one run

  function Listing(wall: Layout, zone: Zone, deviceId: string, script: Script): seq<Listed<Heard>> {
    if script.logs.None? then [] else ListEntries(Locale(wall, zone), deviceId, Entries(script.logs.value))
  }

  /** An undisturbed run is one of the advancing loop over all it was offered, and
      leaves what the frozen loop would. */
  lemma SavedRunIsAdvancing(c: Clock, wall: Layout, deviceId: string, file: PhoneFile, script: Script)
    requires NulFree(wall) && AllFaithful(c, Offered(wall, deviceId, script))
    requires Run(c, wall, deviceId, true, file, script).saved
    ensures Loaded(c, true, file, script).Some? && script.logs.Some?
    ensures
      var o, wm := Run(c, wall, deviceId, true, file, script), Loaded(c, true, file, script).value;
      && ItemsOf(o.calls) == Advancing(c, wm, Offered(wall, deviceId, script))
      && o.file == Stored(Versioned(VERSION, AdvanceAll(c, wm, Frozen(c, wm, Offered(wall, deviceId, script)))))
  {
    SavedIsUndisturbed(c, wall, deviceId, file, script);
    SavedRunAgainstFrozen(c, wall, deviceId, file, script);
    RunIsScan(c, wall, deviceId, file, script);
    var loc, wm := Locale(wall, script.zone.value), Loaded(c, true, file, script).value;
    var n := ScanIsAdvancing(c, loc, deviceId, wm, Entries(script.logs.value));
    assert Entries(script.logs.value)[..n] == Entries(script.logs.value);
  }

  /** The file describes all that saved runs were offered. */
  ghost predicate FileCovers(c: Clock, loc: Locale, file: PhoneFile, listings: seq<seq<Listed<Heard>>>) {
    && Load(c, loc.zone, true, file, false).Some?
    && Covers(c, At(loc), Load(c, loc.zone, true, file, false).value, Bare(All(listings)))
  }

  /** A run that is asked for in this zone, of calls that print without loss. */
  ghost predicate Plain(c: Clock, loc: Locale, deviceId: string, script: Script) {
    && NulFree(loc.wall) && AllFaithful(c, Offered(loc.wall, deviceId, script))
    && (script.zone.Some? ==> script.zone.value == loc.zone)
  }

  lemma SavedRunCovers(c: Clock, loc: Locale, deviceId: string, file: PhoneFile, script: Script,
                       listings: seq<seq<Listed<Heard>>>)
    requires Plain(c, loc, deviceId, script)
    requires Run(c, loc.wall, deviceId, true, file, script).saved && FileCovers(c, loc, file, listings)
    ensures
      var ls, wm := Listing(loc.wall, loc.zone, deviceId, script), Load(c, loc.zone, true, file, false).value;
      && FileCovers(c, loc, Run(c, loc.wall, deviceId, true, file, script).file, listings + [ls])
      && Loaded(c, true, file, script) == Some(wm)
      && Bare(ls) == Offered(loc.wall, deviceId, script) && Keyed(At(loc), Bare(ls))
      && ItemsOf(Run(c, loc.wall, deviceId, true, file, script).calls) == Advancing(c, wm, Bare(ls))
  {
    var ls, wm := Listing(loc.wall, loc.zone, deviceId, script), Load(c, loc.zone, true, file, false).value;
    SavedRunIsAdvancing(c, loc.wall, deviceId, file, script);
    ListingItems(loc, deviceId, script);
    MoreCovered(c, loc, wm, listings, ls);
  }

  lemma ListingItems(loc: Locale, deviceId: string, script: Script)
    requires NulFree(loc.wall) && script.zone == Some(loc.zone) && script.logs.Some?
    ensures
      var ls := Listing(loc.wall, loc.zone, deviceId, script);
      Bare(ls) == Offered(loc.wall, deviceId, script) && Keyed(At(loc), Bare(ls))
  {
    ListEntriesItems(loc, deviceId, Entries(script.logs.value));
    ItemsKeyed(loc, deviceId, Entries(script.logs.value));
  }

  lemma MoreCovered(c: Clock, loc: Locale, wm: Watermark, listings: seq<seq<Listed<Heard>>>, ls: seq<Listed<Heard>>)
    requires Covers(c, At(loc), wm, Bare(All(listings))) && AllFaithful(c, Bare(ls)) && Keyed(At(loc), Bare(ls))
    ensures FileCovers(c, loc, Stored(Versioned(VERSION, AdvanceAll(c, wm, Frozen(c, wm, Bare(ls))))), listings + [ls])
  {
    var after := AdvanceAll(c, wm, Frozen(c, wm, Bare(ls)));
    CoversMore(c, At(loc), wm, Bare(All(listings)), Bare(ls));
    OneMoreListing(listings, ls);
    BareConcat(All(listings), ls);
    assert Load(c, loc.zone, true, Stored(Versioned(VERSION, after)), false) == Some(after);
  }

  /** A saved run logs each call that is new to it on its own exactly when these have
      distinct start times, none of them known, none older than a call offered before,
      and come in time order. */
  lemma SavedRunLogsNewIff(c: Clock, loc: Locale, deviceId: string, file: PhoneFile, script: Script,
                           listings: seq<seq<Listed<Heard>>>)
    requires Plain(c, loc, deviceId, script)
    requires Run(c, loc.wall, deviceId, true, file, script).saved && FileCovers(c, loc, file, listings)
    ensures
      var calls := Run(c, loc.wall, deviceId, true, file, script).calls;
      var news := Fresh(All(listings), Listing(loc.wall, loc.zone, deviceId, script));
      && |calls| <= |ToCalls(news)|
      && (calls == ToCalls(news) <==>
            DistinctKeys(Bare(news)) && AllTimely(Bare(All(listings)), Bare(news)) && TimeOrdered(Bare(news)))
  {
    var calls := Run(c, loc.wall, deviceId, true, file, script).calls;
    var ls, wm := Listing(loc.wall, loc.zone, deviceId, script), Load(c, loc.zone, true, file, false).value;
    var news := Fresh(All(listings), ls);
    SavedRunCovers(c, loc, deviceId, file, script, listings);
    AdvancingLogsFreshIff(c, At(loc), wm, All(listings), ls);
    ToCallsItems(news);
    ItemsOfLength(calls);
    BareMembers(news);
    if DistinctKeys(Bare(news)) && AllTimely(Bare(All(listings)), Bare(news)) && TimeOrdered(Bare(news)) {
      PassedWithinFresh(c, At(loc), wm, All(listings), ls);
      PassedCalls(c, loc, deviceId, wm, Entries(script.logs.value));
      SavedRunLogsEveryCallIff(c, loc.wall, deviceId, file, script);
    }
  }

  // ----------------------------------------------------------------- whole histories

  /** What the saved runs of a history that began without a file were offered. */
  function SavedListings(c: Clock, loc: Locale, deviceId: string, scripts: seq<Script>): seq<seq<Listed<Heard>>> {
    if |scripts| == 0 then []
    else
      var n := |scripts| - 1;
      var before := SavedListings(c, loc, deviceId, scripts[..n]);
      var file := Replay(c, loc.wall, deviceId, Missing, scripts[..n]).file;
      if Run(c, loc.wall, deviceId, true, file, scripts[n]).saved then
        before + [Listing(loc.wall, loc.zone, deviceId, scripts[n])]
      else before
  }

  ghost predicate AllPlain(c: Clock, loc: Locale, deviceId: string, scripts: seq<Script>) {
    forall script :: script in scripts ==> Plain(c, loc, deviceId, script)
  }

  lemma {:induction false} HistoryCovers(c: Clock, loc: Locale, deviceId: string, scripts: seq<Script>)
    requires AllPlain(c, loc, deviceId, scripts)
    ensures FileCovers(c, loc, Replay(c, loc.wall, deviceId, Missing, scripts).file,
                       SavedListings(c, loc, deviceId, scripts))
  {
    if |scripts| == 0 {
      NothingCovered(c, At(loc));
    } else {
      var n := |scripts| - 1;
      assert scripts[n] in scripts;
      HistoryCovers(c, loc, deviceId, scripts[..n]);
      var h := Replay(c, loc.wall, deviceId, Missing, scripts[..n]);
      RunIsScan(c, loc.wall, deviceId, h.file, scripts[n]);
      if Run(c, loc.wall, deviceId, true, h.file, scripts[n]).saved {
        SavedRunCovers(c, loc, deviceId, h.file, scripts[n], SavedListings(c, loc, deviceId, scripts[..n]));
      }
    }
  }

  /** No two new calls share a start time, none starts before a call an earlier run was
      offered, and each run lists its new ones in time order over the joined groups. */
  ghost predicate Complete(listings: seq<seq<Listed<Heard>>>) {
    DistinctKeys(Bare(New(listings))) && Punctual(listings) && Ordered(listings)
  }

  /** Over every history in one zone that began without a file, the saved runs log
      exactly the calls that were new to them, each on its own with its direction, if and
      only if these are complete in the sense above.  If every run was saved, that is the
      whole log. */
  lemma {:induction false} EachNewCallIsLoggedIff(c: Clock, loc: Locale, deviceId: string, scripts: seq<Script>)
    requires AllPlain(c, loc, deviceId, scripts)
    ensures
      var h, listings := Replay(c, loc.wall, deviceId, Missing, scripts), SavedListings(c, loc, deviceId, scripts);
      && |h.savedLog| <= |ToCalls(New(listings))|
      && (h.savedLog == ToCalls(New(listings)) <==> Complete(listings))
      && (h.unsaved == 0 ==> h.log == h.savedLog)
  {
    if |scripts| > 0 {
      var n := |scripts| - 1;
      assert scripts[n] in scripts;
      EachNewCallIsLoggedIff(c, loc, deviceId, scripts[..n]);
      HistoryCovers(c, loc, deviceId, scripts[..n]);
      var h := Replay(c, loc.wall, deviceId, Missing, scripts[..n]);
      if Run(c, loc.wall, deviceId, true, h.file, scripts[n]).saved {
        OneMoreRun(c, loc, deviceId, h, scripts[n], SavedListings(c, loc, deviceId, scripts[..n]));
      }
    }
  }

  lemma OneMoreRun(c: Clock, loc: Locale, deviceId: string, h: History, script: Script,
                   listings: seq<seq<Listed<Heard>>>)
    requires Plain(c, loc, deviceId, script)
    requires Run(c, loc.wall, deviceId, true, h.file, script).saved && FileCovers(c, loc, h.file, listings)
    requires |h.savedLog| <= |ToCalls(New(listings))|
    requires h.savedLog == ToCalls(New(listings)) <==> Complete(listings)
    ensures
      var log := h.savedLog + Run(c, loc.wall, deviceId, true, h.file, script).calls;
      var more := listings + [Listing(loc.wall, loc.zone, deviceId, script)];
      |log| <= |ToCalls(New(more))| && (log == ToCalls(New(more)) <==> Complete(more))
  {
    var ls := Listing(loc.wall, loc.zone, deviceId, script);
    var calls := Run(c, loc.wall, deviceId, true, h.file, script).calls;
    var news := Fresh(All(listings), ls);
    SavedRunLogsNewIff(c, loc, deviceId, h.file, script, listings);
    OneMoreListing(listings, ls);
    ToCallsConcat(New(listings), news);
    BothEqual(h.savedLog, ToCalls(New(listings)), calls, ToCalls(news));
  }

  // ------------------------------------------------------------------ late calls

  /** Once a saved run was offered a call, no call that starts before it is ever logged
      any more, however new it is. */
  lemma LateCallIsLost(c: Clock, loc: Locale, deviceId: string, scripts: seq<Script>, seen: Listed<Heard>,
                       later: seq<Script>, late: Raw)
    requires AllPlain(c, loc, deviceId, scripts) && NulFree(loc.wall)
    requires seen in All(SavedListings(c, loc, deviceId, scripts))
    requires ItemOf(loc, deviceId, late).Some?
    requires ItemOf(loc, deviceId, late).value.start.instant < seen.item.start.instant
    requires Later(c, loc.wall, deviceId, loc.zone, later, ItemOf(loc, deviceId, late).value.key)
    ensures
      var file := Replay(c, loc.wall, deviceId, Missing, scripts).file;
      Times(ItemOf(loc, deviceId, late).value.key, Replay(c, loc.wall, deviceId, file, later).log) == 0
  {
    var file := Replay(c, loc.wall, deviceId, Missing, scripts).file;
    HistoryCovers(c, loc, deviceId, scripts);
    BareHas(All(SavedListings(c, loc, deviceId, scripts)), seen);
    PeakIsMaximum(None, Bare(All(SavedListings(c, loc, deviceId, scripts))));
    ItemIsKeyed(loc, deviceId, late);
    MigratesAtMostOnce(c, loc.wall, deviceId, Missing, scripts);
    NeverLogged(c, loc.wall, deviceId, file, loc.zone, later, ItemOf(loc, deviceId, late).value.key);
  }
}

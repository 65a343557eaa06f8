/** Which rows the call-detail collector logs over whole histories. */
module CdrCompleteness {
  import opened Basics
  import opened Watermarks
  import opened AtomicFile
  import opened NewRows
  import opened LensCdr
  import opened CdrHistory

  /** The rows that can be read, with their items. */
  function ListRows(c: Clock, rows: seq<Row>): seq<Listed<Row>> {
    if rows == [] then []
    else
      var row := rows[|rows| - 1];
      var before := ListRows(c, rows[..|rows| - 1]);
      match ItemOf(c, row)
      case None => before
      case Some(x) => before + [Listed(row, x)]
  }

  lemma {:induction false} ListRowsItems(c: Clock, rows: seq<Row>)
    ensures Bare(ListRows(c, rows)) == Items(c, rows)
  {
    if rows != [] {
      var n := |rows| - 1;
      ListRowsItems(c, rows[..n]);
      var before := ListRows(c, rows[..n]);
      if ItemOf(c, rows[n]).Some? {
        assert (before + [Listed(rows[n], ItemOf(c, rows[n]).value)])[..|before|] == before;
      }
    }
  }

  function Listing(c: Clock, script: Script): seq<Listed<Row>> {
    ListRows(c, Rows(Flatten(script.replies).edges))
  }

  /** What the saved runs of a history that began without a file were offered. */
  function SavedListings(c: Clock, scripts: seq<Script>): seq<seq<Listed<Row>>> {
    if scripts == [] then []
    else
      var n := |scripts| - 1;
      var before := SavedListings(c, scripts[..n]);
      if Run(c, Replay(c, Missing, scripts[..n]).file, scripts[n]).saved then before + [Listing(c, scripts[n])]
      else before
  }

  /** The file describes all that saved runs were offered. */
  ghost predicate FileCovers(c: Clock, file: CdrFile, listings: seq<seq<Listed<Row>>>) {
    Load(file, false).Some? && Covers(c, c.parse, Load(file, false).value, Bare(All(listings)))
  }

  /** One more saved run: what it logs and what its file then describes. */
  lemma SavedRunCovers(c: Clock, file: CdrFile, script: Script, listings: seq<seq<Listed<Row>>>)
    requires NulFree(c) && AllFaithful(c, Offered(c, script))
    requires Run(c, file, script).saved && FileCovers(c, file, listings)
    ensures FileCovers(c, Run(c, file, script).file, listings + [Listing(c, script)])
    ensures Bare(Listing(c, script)) == Offered(c, script) && Keyed(c.parse, Offered(c, script))
    ensures Run(c, file, script).emitted == Frozen(c, Load(file, false).value, Offered(c, script))
  {
    SavedRunIsFrozen(c, file, script);
    ListRowsItems(c, Rows(Flatten(script.replies).edges));
    ItemsMembers(c, Rows(Flatten(script.replies).edges));
    CoversMore(c, c.parse, Load(file, false).value, Bare(All(listings)), Offered(c, script));
    OneMoreListing(listings, Listing(c, script));
    BareConcat(All(listings), Listing(c, script));
  }

  lemma {:induction false} HistoryCovers(c: Clock, scripts: seq<Script>)
    requires Printed(c, scripts)
    ensures FileCovers(c, Replay(c, Missing, scripts).file, SavedListings(c, scripts))
  {
    if scripts == [] {
      NothingCovered(c, c.parse);
    } else {
      var n := |scripts| - 1;
      assert scripts[n] in scripts;
      HistoryCovers(c, scripts[..n]);
      var h := Replay(c, Missing, scripts[..n]);
      if Run(c, h.file, scripts[n]).saved {
        SavedRunCovers(c, h.file, scripts[n], SavedListings(c, scripts[..n]));
      }
    }
  }

  /** Each row that is new to a saved run is logged on its own: no two of them share a
      device and a start time, and none starts before a row an earlier one was offered. */
  ghost predicate Complete(listings: seq<seq<Listed<Row>>>) {
    DistinctKeys(Bare(New(listings))) && Punctual(listings)
  }

  /** Over every history that began without a file, the saved runs log exactly the rows
      that were new to them, each on its own, if and only if no two of these share a
      device and a start time and none starts before a row offered earlier.  If every
      run was saved, that is the whole log. */
  lemma {:induction false} EachNewRowIsLoggedIff(c: Clock, scripts: seq<Script>)
    requires Printed(c, scripts)
    ensures
      var h, due := Replay(c, Missing, scripts), New(SavedListings(c, scripts));
      && |h.savedLog| <= |Bare(due)|
      && (h.savedLog == Bare(due) <==> Complete(SavedListings(c, scripts)))
      && (h.unsaved == 0 ==> h.log == h.savedLog)
  {
    if scripts != [] {
      var n := |scripts| - 1;
      assert scripts[n] in scripts;
      EachNewRowIsLoggedIff(c, scripts[..n]);
      HistoryCovers(c, scripts[..n]);
      var h, listings := Replay(c, Missing, scripts[..n]), SavedListings(c, scripts[..n]);
      if Run(c, h.file, scripts[n]).saved {
        OneMoreRun(c, h, scripts[n], listings);
      }
    }
  }

  lemma OneMoreRun(c: Clock, h: History, script: Script, listings: seq<seq<Listed<Row>>>)
    requires NulFree(c) && AllFaithful(c, Offered(c, script))
    requires Run(c, h.file, script).saved && FileCovers(c, h.file, listings)
    requires |h.savedLog| <= |Bare(New(listings))|
    requires h.savedLog == Bare(New(listings)) <==> Complete(listings)
    ensures
      var log, more := h.savedLog + Run(c, h.file, script).emitted, listings + [Listing(c, script)];
      |log| <= |Bare(New(more))| && (log == Bare(New(more)) <==> Complete(more))
  {
    var ls := Listing(c, script);
    SavedRunCovers(c, h.file, script, listings);
    FrozenLogsFreshIff(c, c.parse, Load(h.file, false).value, All(listings), ls);
    OneMoreListing(listings, ls);
    BothEqual(h.savedLog, Bare(New(listings)), Run(c, h.file, script).emitted, Bare(Fresh(All(listings), ls)));
  }

  // ---------------------------------------------------------------- key by key

  /** Every row offered was offered before by its key, or is not older than any row
      offered before. */
  ghost predicate NoneLate(listings: seq<seq<Listed<Row>>>) {
    |listings| == 0 ||
    var n := |listings| - 1;
    && NoneLate(listings[..n])
    && forall x :: x in Bare(listings[n]) ==>
         x.key in Keys(Bare(All(listings[..n]))) || NotOlder(Bare(All(listings[..n])), x)
  }

  /** Over every history that began without a file, every key that a saved run was
      offered is logged if and only if no row was late when its key was first offered. */
  lemma {:induction false} EachKeyIsLoggedIff(c: Clock, scripts: seq<Script>)
    requires Printed(c, scripts)
    ensures
      var logged, offered := Keys(Replay(c, Missing, scripts).savedLog), Keys(Bare(All(SavedListings(c, scripts))));
      logged <= offered && (logged == offered <==> NoneLate(SavedListings(c, scripts)))
  {
    if scripts != [] {
      var n := |scripts| - 1;
      assert scripts[n] in scripts;
      EachKeyIsLoggedIff(c, scripts[..n]);
      HistoryCovers(c, scripts[..n]);
      var h, listings := Replay(c, Missing, scripts[..n]), SavedListings(c, scripts[..n]);
      if Run(c, h.file, scripts[n]).saved {
        OneMoreRunByKey(c, h, scripts[n], listings);
      }
    }
  }

  lemma OneMoreRunByKey(c: Clock, h: History, script: Script, listings: seq<seq<Listed<Row>>>)
    requires NulFree(c) && AllFaithful(c, Offered(c, script))
    requires Run(c, h.file, script).saved && FileCovers(c, h.file, listings)
    requires Keys(h.savedLog) <= Keys(Bare(All(listings)))
    requires Keys(h.savedLog) == Keys(Bare(All(listings))) <==> NoneLate(listings)
    ensures
      var log, more := h.savedLog + Run(c, h.file, script).emitted, listings + [Listing(c, script)];
      && Keys(log) <= Keys(Bare(All(more)))
      && (Keys(log) == Keys(Bare(All(more))) <==> NoneLate(more))
  {
    var es, past := Run(c, h.file, script).emitted, Bare(All(listings));
    var ls := Listing(c, script);
    SavedRunCovers(c, h.file, script, listings);
    OneMoreListing(listings, ls);
    BareConcat(All(listings), ls);
    assert (listings + [ls])[..|listings|] == listings;
    KeysOfConcat(h.savedLog, es);
    KeysOfConcat(past, Bare(ls));
    EmittedKeys(c, Load(h.file, false).value, past, Offered(c, script));
    AllKeysIff(Keys(h.savedLog), Keys(past), Keys(es), Keys(Bare(ls)));
  }

  lemma AllKeysIff(logged: set<string>, past: set<string>, es: set<string>, listed: set<string>)
    requires logged <= past && es <= listed && es !! past
    ensures logged + es <= past + listed
    ensures logged + es == past + listed <==> logged == past && listed - past <= es
  {
    if logged + es == past + listed {
      assert forall k :: k in past ==> k in logged + es;
      assert forall k :: k in listed - past ==> k in logged + es;
    }
  }

  lemma KeysOfConcat(a: seq<Item>, b: seq<Item>)
    ensures Keys(a + b) == Keys(a) + Keys(b)
  {
  }

  /** The keys a run emits are new to the past, and are all of the new ones exactly
      when no row is late. */
  lemma EmittedKeys(c: Clock, wm: Watermark, past: seq<Item>, items: seq<Item>)
    requires Covers(c, c.parse, wm, past) && Keyed(c.parse, items)
    ensures
      var es := Frozen(c, wm, items);
      && Keys(es) <= Keys(items) && Keys(es) !! Keys(past)
      && (Keys(items) - Keys(past) <= Keys(es) <==> forall x :: x in items ==> x.key in Keys(past) || NotOlder(past, x))
  {
    var es := Frozen(c, wm, items);
    FrozenAdmissible(c, wm, items);
    AdmissibleIsTimely(c, c.parse, wm, past, items, es);
    forall x | x in items
      ensures x.key in Keys(es) <==> Timely(past, x)
    {
      WantsIffTimely(c, c.parse, wm, past, x);
      if x.key in Keys(es) {
        SameKeySameStart(c.parse, es, x);
      }
    }
    if Keys(items) - Keys(past) <= Keys(es) {
      forall x | x in items && x.key !in Keys(past)
        ensures NotOlder(past, x)
      {
        assert x.key in Keys(items);
      }
    }
  }

  // ------------------------------------------------------------------ late rows

  /** Once a saved run was offered a row, no row that starts before it is ever logged
      any more, however new it is. */
  lemma LateRowIsLost(c: Clock, scripts: seq<Script>, seen: Listed<Row>, later: seq<Script>, late: Row)
    requires Printed(c, scripts) && KeptUp(c, later)
    requires seen in All(SavedListings(c, scripts))
    requires ItemOf(c, late).Some? && ItemOf(c, late).value.start.instant < seen.item.start.instant
    ensures Count(ItemOf(c, late).value.key, Replay(c, Replay(c, Missing, scripts).file, later).log) == 0
  {
    var h, x := Replay(c, Missing, scripts), ItemOf(c, late).value;
    HistoryCovers(c, scripts);
    BareHas(All(SavedListings(c, scripts)), seen);
    PeakIsMaximum(None, Bare(All(SavedListings(c, scripts))));
    AfterNulOfKey(late.deviceId, late.startTime);
    BarredForever(c, h.file, later, x.key);
  }

  /** So a record that becomes listed only after one of a later call is not logged, with
      every run saved: two runs of one row each, no key repeated. */
  lemma LateRowExample(c: Clock, early: Row, late: Row)
    requires NulFree(c) && ItemOf(c, early).Some? && ItemOf(c, late).Some?
    requires Faithful(c, ItemOf(c, late).value.start)
    requires ItemOf(c, early).value.start.instant < ItemOf(c, late).value.start.instant
    ensures
      var h := Replay(c, Missing, [OneRow(late, true), OneRow(early, true)]);
      h.unsaved == 0 && h.log == [ItemOf(c, late).value]
  {
    var x := ItemOf(c, late).value;
    FirstRowRun(c, late);
    AdvanceExact(c, EMPTY, x);
    OldRowRun(c, Advance(c, EMPTY, x), early);
    ReplayTwo(c, OneRow(late, true), OneRow(early, true));
    assert [x] + [] == [x];
  }

  lemma FirstRowRun(c: Clock, row: Row)
    requires ItemOf(c, row).Some?
    ensures
      var x := ItemOf(c, row).value;
      Run(c, Missing, OneRow(row, true)) == Outcome([x], Stored(Advance(c, EMPTY, x)), true)
  {
    var x := ItemOf(c, row).value;
    OneRowRun(c, row, true);
    TakeItem(c, EMPTY, [], x);
    assert [] + [x] == [x];
  }

  lemma OldRowRun(c: Clock, wm: Watermark, row: Row)
    requires ItemOf(c, row).Some? && !AtOrAbove(ItemOf(c, row).value.start.instant, Floor(c, wm))
    ensures Run(c, Stored(wm), OneRow(row, true)) == Outcome([], Stored(wm), true)
  {
    var edges := [Edge(row, Accepted)];
    assert edges[..0] == [];
    assert ScanEdges(c, wm, edges) == StepEdge(c, wm, Scan([], false), edges[0]);
  }
}

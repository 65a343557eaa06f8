/** Whole histories of one call-detail collector: any number of runs, each with
    any script, over one persisted file. */
module CdrHistory {
  import opened Basics
  import opened Watermarks
  import opened AtomicFile
  import opened LensCdr

  /** The file left behind, everything emitted, what saved runs emitted, and how
      many runs ended without replacing the file. */
  datatype History = History(file: CdrFile, log: seq<Item>, savedLog: seq<Item>, unsaved: nat)

  function After(h: History, o: Outcome): History {
    History(o.file,
            h.log + o.emitted,
            if o.saved then h.savedLog + o.emitted else h.savedLog,
            if o.saved then h.unsaved else h.unsaved + 1)
  }

  function Replay(c: Clock, file: CdrFile, scripts: seq<Script>): History {
    if scripts == [] then History(file, [], [], 0)
    else
      var h := Replay(c, file, scripts[..|scripts| - 1]);
      After(h, Run(c, h.file, scripts[|scripts| - 1]))
  }

  /** Every start that some runs are offered prints as no earlier a time. */
  ghost predicate KeptUp(c: Clock, scripts: seq<Script>) {
    NulFree(c) && forall script :: script in scripts ==> AllKeepUp(c, Offered(c, script))
  }

  /** Every start that some runs are offered prints without loss. */
  ghost predicate Printed(c: Clock, scripts: seq<Script>) {
    NulFree(c) && forall script :: script in scripts ==> AllFaithful(c, Offered(c, script))
  }

  ghost predicate BarredBy(c: Clock, file: CdrFile, k: string) {
    file.Stored? && Barred(c, c.parse, file.body, k)
  }

  /** A scan of part of what a run is offered, as far as it has come. */
  lemma ScanFromFile(c: Clock, file: CdrFile, readFails: bool, edges: seq<Edge>, k: string)
    requires NulFree(c) && AllKeepUp(c, Items(c, Rows(edges)))
    requires Load(file, readFails).Some?
    ensures TreatsKey(c, c.parse, Load(file, readFails).value,
                      ScanEdges(c, Load(file, readFails).value, edges).emitted, k)
    ensures BarredBy(c, file, k) ==> Barred(c, c.parse, Load(file, readFails).value, k)
  {
    var wm := Load(file, readFails).value;
    RunAdmissible(c, wm, edges);
    AdmissibleTreatsKey(c, c.parse, wm, ScanEdges(c, wm, edges).emitted, k);
  }

  /** What one run does to a key: at most one log, none if barred; a saved log bars it. */
  lemma RunAndKey(c: Clock, file: CdrFile, script: Script, k: string)
    requires NulFree(c) && AllKeepUp(c, Offered(c, script))
    ensures Count(k, Run(c, file, script).emitted) <= if BarredBy(c, file, k) then 0 else 1
    ensures BarredBy(c, file, k) ==> BarredBy(c, Run(c, file, script).file, k)
    ensures Run(c, file, script).saved && Count(k, Run(c, file, script).emitted) > 0
        ==> BarredBy(c, Run(c, file, script).file, k)
  {
    if Load(file, script.readFails).Some? {
      ScanFromFile(c, file, script.readFails, Flatten(script.replies).edges, k);
    }
  }

  /** For every history, a key is emitted at most once more than there are
      unsaved runs; and not at all once a saved run has emitted it. */
  lemma {:induction false} BoundedDuplication(c: Clock, file: CdrFile, scripts: seq<Script>, k: string)
    requires KeptUp(c, scripts)
    ensures Count(k, Replay(c, file, scripts).log)
            <= Replay(c, file, scripts).unsaved + (if BarredBy(c, Replay(c, file, scripts).file, k) then 1 else 0)
    ensures k in Keys(Replay(c, file, scripts).savedLog) ==> BarredBy(c, Replay(c, file, scripts).file, k)
  {
    if scripts != [] {
      var n := |scripts| - 1;
      assert scripts[n] in scripts;
      BoundedDuplication(c, file, scripts[..n], k);
      var h := Replay(c, file, scripts[..n]);
      RunAndKey(c, h.file, scripts[n], k);
      CountPositive(k, Run(c, h.file, scripts[n]).emitted);
      CountConcat(k, h.log, Run(c, h.file, scripts[n]).emitted);
    }
  }

  lemma {:induction false} BarredForever(c: Clock, file: CdrFile, scripts: seq<Script>, k: string)
    requires KeptUp(c, scripts)
    requires BarredBy(c, file, k)
    ensures Count(k, Replay(c, file, scripts).log) == 0
    ensures BarredBy(c, Replay(c, file, scripts).file, k)
  {
    if scripts != [] {
      var n := |scripts| - 1;
      assert scripts[n] in scripts;
      BarredForever(c, file, scripts[..n], k);
      var h := Replay(c, file, scripts[..n]);
      RunAndKey(c, h.file, scripts[n], k);
      CountConcat(k, h.log, Run(c, h.file, scripts[n]).emitted);
    }
  }

  /** No run of any length of history emits a key again after a saved run emitted it. */
  lemma NeverAgainAfterSave(c: Clock, file: CdrFile, script: Script, later: seq<Script>, k: string)
    requires KeptUp(c, [script] + later)
    requires Run(c, file, script).saved && k in Keys(Run(c, file, script).emitted)
    ensures k !in Keys(Replay(c, Run(c, file, script).file, later).log)
  {
    assert ([script] + later)[0] == script;
    CountPositive(k, Run(c, file, script).emitted);
    RunAndKey(c, file, script, k);
    BarredForever(c, Run(c, file, script).file, later, k);
    CountPositive(k, Replay(c, Run(c, file, script).file, later).log);
  }

  /** A one-page script for one row whose run is saved or not, as asked. */
  function OneRow(row: Row, saved: bool): Script {
    Script(false, [Page([Edge(row, Accepted)], false, None)], if saved then Completes else Errs(Rename))
  }

  function Repeat(script: Script, n: nat): seq<Script> {
    if n == 0 then [] else Repeat(script, n - 1) + [script]
  }

  lemma OneRowRun(c: Clock, row: Row, saved: bool)
    requires ItemOf(c, row).Some?
    ensures Run(c, Missing, OneRow(row, saved)).emitted == [ItemOf(c, row).value]
    ensures Run(c, Missing, OneRow(row, saved)).saved == saved
    ensures !saved ==> Run(c, Missing, OneRow(row, saved)).file == Missing
  {
    var edges := [Edge(row, Accepted)];
    assert edges[..0] == [];
    assert ScanEdges(c, EMPTY, edges) == StepEdge(c, EMPTY, Scan([], false), edges[0]);
  }

  lemma ReplaySnoc(c: Clock, file: CdrFile, scripts: seq<Script>, script: Script)
    ensures Replay(c, file, scripts + [script]) == After(Replay(c, file, scripts),
                                                         Run(c, Replay(c, file, scripts).file, script))
  {
    assert (scripts + [script])[..|scripts|] == scripts;
  }

  /** The state after n runs that each logged an item and lost the save. */
  ghost predicate Lost(h: History, x: Item, n: nat) {
    h.file == Missing && h.unsaved == n && Count(x.key, h.log) == n
  }

  lemma LostOneMore(c: Clock, x: Item, script: Script, scripts: seq<Script>, n: nat)
    requires Run(c, Missing, script) == Outcome([x], Missing, false)
    requires Lost(Replay(c, Missing, scripts), x, n)
    ensures Lost(Replay(c, Missing, scripts + [script]), x, n + 1)
  {
    ReplaySnoc(c, Missing, scripts, script);
    AfterOne(Replay(c, Missing, scripts), x, Missing, false);
  }

  lemma {:induction false} LostSaves(c: Clock, x: Item, script: Script, n: nat)
    requires Run(c, Missing, script) == Outcome([x], Missing, false)
    ensures Lost(Replay(c, Missing, Repeat(script, n)), x, n)
  {
    if n > 0 {
      LostSaves(c, x, script, n - 1);
      LostOneMore(c, x, script, Repeat(script, n - 1), n - 1);
    }
  }

  lemma AfterOne(h: History, x: Item, file: CdrFile, saved: bool)
    ensures
      var h' := After(h, Outcome([x], file, saved));
      && h'.file == file && h'.unsaved == h.unsaved + (if saved then 0 else 1)
      && Count(x.key, h'.log) == Count(x.key, h.log) + 1
  {
    CountConcat(x.key, h.log, [x]);
    CountOne(x.key, x);
  }

  /** The bound is reached: with n saves lost and then one kept, the same row is
      logged n + 1 times. */
  lemma BoundIsReached(c: Clock, row: Row, n: nat)
    requires ItemOf(c, row).Some?
    ensures
      var h := Replay(c, Missing, Repeat(OneRow(row, false), n) + [OneRow(row, true)]);
      h.unsaved == n && Count(ItemOf(c, row).value.key, h.log) == n + 1
  {
    var lost := Repeat(OneRow(row, false), n);
    var x := ItemOf(c, row).value;
    OneRowRun(c, row, false);
    OneRowRun(c, row, true);
    LostSaves(c, x, OneRow(row, false), n);
    ReplaySnoc(c, Missing, lost, OneRow(row, true));
    AfterOne(Replay(c, Missing, lost), x, Run(c, Missing, OneRow(row, true)).file, true);
  }

  // ------------------------------------------------- when the bound can be relied on

  /** Every row of a history starts at one of these texts. */
  ghost predicate StartsAmong(starts: iset<string>, scripts: seq<Script>) {
    forall script, edge :: script in scripts && edge in Flatten(script.replies).edges ==> edge.row.startTime in starts
  }

  /** Whatever is listed at these start times, no key is logged more than once more
      than there are unsaved runs. */
  ghost predicate BoundHolds(c: Clock, starts: iset<string>) {
    forall file, scripts, k :: StartsAmong(starts, scripts) ==> WithinBound(Replay(c, file, scripts), k)
  }

  ghost predicate WithinBound(h: History, k: string) {
    Count(k, h.log) <= 1 + h.unsaved
  }

  /** The bound holds for all histories over some start times if and only if each
      of them that can be read prints as no earlier a time. */
  lemma BoundHoldsIff(c: Clock, starts: iset<string>)
    requires NulFree(c)
    ensures BoundHolds(c, starts) <==> forall s :: s in starts && c.parse(s).Some? ==> KeepsUp(c, c.parse(s).value)
  {
    if forall s :: s in starts && c.parse(s).Some? ==> KeepsUp(c, c.parse(s).value) {
      forall file, scripts, k | StartsAmong(starts, scripts)
        ensures WithinBound(Replay(c, file, scripts), k)
      {
        ReadableStartsKeepUp(c, starts, scripts);
        BoundedDuplication(c, file, scripts, k);
      }
    } else {
      var s :| s in starts && c.parse(s).Some? && !KeepsUp(c, c.parse(s).value);
      LoggedEveryOtherRun(c, s);
      assert StartsAmong(starts, [TwoDevices(s), TwoDevices(s)]);
    }
  }

  lemma ReadableStartsKeepUp(c: Clock, starts: iset<string>, scripts: seq<Script>)
    requires NulFree(c) && StartsAmong(starts, scripts)
    requires forall s :: s in starts && c.parse(s).Some? ==> KeepsUp(c, c.parse(s).value)
    ensures KeptUp(c, scripts)
  {
    forall script, x | script in scripts && x in Offered(c, script)
      ensures KeepsUp(c, x.start)
    {
      var edges := Flatten(script.replies).edges;
      ItemsMembers(c, Rows(edges));
      var row :| row in Rows(edges) && ItemOf(c, row) == Some(x);
      var edge := EdgeOfRow(edges, row);
      assert row.startTime in starts;
    }
  }

  lemma {:induction false} EdgeOfRow(edges: seq<Edge>, row: Row) returns (edge: Edge)
    requires row in Rows(edges)
    ensures edge in edges && edge.row == row
  {
    var n := |edges| - 1;
    edge := edges[n];
    assert edge in edges;
    if edge.row != row {
      assert row in Rows(edges[..n]);
      edge := EdgeOfRow(edges[..n], row);
    }
  }

  /** Calls of two devices that start at the same time. */
  function TwoDevices(s: string): Script {
    Script(false, [Page([Edge(Row("a", s, s, ""), Accepted), Edge(Row("b", s, s, ""), Accepted)], false, None)],
           Completes)
  }

  /** If a start prints as an earlier time, or as one that cannot be read, the second
      device displaces the first from the stored keys: the next run logs the first
      again although every run was saved. */
  lemma LoggedEveryOtherRun(c: Clock, s: string)
    requires c.parse(s).Some? && !KeepsUp(c, c.parse(s).value)
    ensures !WithinBound(Replay(c, Missing, [TwoDevices(s), TwoDevices(s)]), DedupeKey("a", s))
  {
    var script := TwoDevices(s);
    var t := c.parse(s).value;
    var a, b := Item(DedupeKey("a", s), t), Item(DedupeKey("b", s), t);
    TwoDevicesFirst(c, s);
    TwoDevicesAgain(c, s);
    ReplayTwo(c, script, script);
    LoggedTwice(a, b);
  }

  lemma ReplayTwo(c: Clock, one: Script, two: Script)
    ensures
      var o := Run(c, Missing, one);
      var p := Run(c, o.file, two);
      var h := Replay(c, Missing, [one, two]);
      h.log == o.emitted + p.emitted && (o.saved && p.saved ==> h.unsaved == 0)
  {
    ReplaySnoc(c, Missing, [], one);
    ReplaySnoc(c, Missing, [one], two);
    assert [] + [one] == [one] && [one] + [two] == [one, two];
  }

  lemma LoggedTwice(a: Item, b: Item)
    ensures Count(a.key, [a, b] + [a]) >= 2
  {
    CountConcat(a.key, [a, b], [a]);
    CountConcat(a.key, [a], [b]);
    assert [a] + [b] == [a, b];
    CountOne(a.key, a);
  }

  lemma TwoDevicesScan(c: Clock, wm: Watermark, s: string)
    ensures
      var first, second := Edge(Row("a", s, s, ""), Accepted), Edge(Row("b", s, s, ""), Accepted);
      && Flatten(TwoDevices(s).replies) == Feed([first, second], true)
      && ScanEdges(c, wm, [first, second]) == StepEdge(c, wm, StepEdge(c, wm, Scan([], false), first), second)
  {
    var first, second := Edge(Row("a", s, s, ""), Accepted), Edge(Row("b", s, s, ""), Accepted);
    ScanSnoc(c, wm, [], first);
    ScanSnoc(c, wm, [first], second);
    assert [] + [first] == [first] && [first] + [second] == [first, second];
  }

  /** The advance over both devices keeps only the second. */
  lemma SecondDisplacesFirst(c: Clock, a: Item, b: Item)
    requires a.start == b.start && !KeepsUp(c, a.start)
    ensures AdvanceAll(c, EMPTY, [a, b]) == Watermark(c.format(b.start), [b.key])
  {
    assert [] + [a] == [a] && [a] + [b] == [a, b];
    TakeItem(c, EMPTY, [], a);
    TakeItem(c, EMPTY, [a], b);
  }

  lemma TwoDevicesFirst(c: Clock, s: string)
    requires c.parse(s).Some? && !KeepsUp(c, c.parse(s).value)
    ensures
      var t := c.parse(s).value;
      var a, b := Item(DedupeKey("a", s), t), Item(DedupeKey("b", s), t);
      Run(c, Missing, TwoDevices(s)) == Outcome([a, b], Stored(Watermark(c.format(t), [b.key])), true)
  {
    var t := c.parse(s).value;
    var a, b := Item(DedupeKey("a", s), t), Item(DedupeKey("b", s), t);
    assert a.key[0] == 'a' && b.key[0] == 'b';
    SecondDisplacesFirst(c, a, b);
    BothDevicesScanned(c, s, a, b);
  }

  lemma BothDevicesScanned(c: Clock, s: string, a: Item, b: Item)
    requires c.parse(s) == Some(a.start) && a.start == b.start && a.key != b.key
    requires a.key == DedupeKey("a", s) && b.key == DedupeKey("b", s)
    ensures ScanEdges(c, EMPTY, Flatten(TwoDevices(s).replies).edges) == Scan([a, b], false)
    ensures Flatten(TwoDevices(s).replies).complete
  {
    TwoDevicesScan(c, EMPTY, s);
    assert NewItem(c, EMPTY, [], Row("a", s, s, "")) == Some(a);
    assert NewItem(c, EMPTY, [a], Row("b", s, s, "")) == Some(b);
    assert [] + [a] == [a] && [a] + [b] == [a, b];
  }

  lemma TwoDevicesAgain(c: Clock, s: string)
    requires c.parse(s).Some? && !KeepsUp(c, c.parse(s).value)
    ensures
      var t := c.parse(s).value;
      var a, b := Item(DedupeKey("a", s), t), Item(DedupeKey("b", s), t);
      var o := Run(c, Stored(Watermark(c.format(t), [b.key])), TwoDevices(s));
      o.emitted == [a] && o.saved
  {
    var t := c.parse(s).value;
    var a, b := Item(DedupeKey("a", s), t), Item(DedupeKey("b", s), t);
    assert a.key[0] == 'a' && b.key[0] == 'b';
    var wm := Watermark(c.format(t), [b.key]);
    TwoDevicesScan(c, wm, s);
    assert b.key in SeenBy(wm, [a]);
    assert NewItem(c, wm, [], Row("a", s, s, "")) == Some(a);
    assert NewItem(c, wm, [a], Row("b", s, s, "")) == None;
    assert [] + [a] == [a];
  }

  // -------------------------------------------------------- the stored watermark

  /** The file is the watermark advanced over all that saved runs emitted. */
  ghost predicate Describes(c: Clock, h: History) {
    && !h.file.Corrupt?
    && (h.file.Missing? ==> h.savedLog == [])
    && (h.file.Stored? ==> h.file.body == AdvanceAll(c, EMPTY, h.savedLog))
    && AllFaithful(c, h.savedLog) && Keyed(c.parse, h.savedLog) && DistinctKeys(h.savedLog)
  }

  lemma RunDescribes(c: Clock, h: History, script: Script)
    requires NulFree(c) && AllFaithful(c, Offered(c, script)) && Describes(c, h)
    requires Run(c, h.file, script).saved ==> DistinctKeys(h.savedLog + Run(c, h.file, script).emitted)
    ensures Describes(c, After(h, Run(c, h.file, script)))
  {
    var o := Run(c, h.file, script);
    if o.saved {
      var wm := Load(h.file, false).value;
      RunAdmissible(c, wm, Flatten(script.replies).edges);
      AdvanceAllConcat(c, EMPTY, h.savedLog, o.emitted);
    }
  }

  lemma {:induction false} WatermarkIsFold(c: Clock, scripts: seq<Script>)
    requires Printed(c, scripts)
    ensures Describes(c, Replay(c, Missing, scripts))
  {
    if scripts != [] {
      var n := |scripts| - 1;
      assert scripts[n] in scripts;
      WatermarkIsFold(c, scripts[..n]);
      SavedStaysDistinct(c, scripts[..n], scripts[n]);
      RunDescribes(c, Replay(c, Missing, scripts[..n]), scripts[n]);
    }
  }

  /** From an empty state the file always describes exactly what saved runs
      emitted: the latest start, and without repetition the keys at that start. */
  lemma WatermarkIsExact(c: Clock, scripts: seq<Script>)
    requires Printed(c, scripts)
    ensures
      var h := Replay(c, Missing, scripts);
      && !h.file.Corrupt? && DistinctKeys(h.savedLog)
      && (h.file.Missing? ==> h.savedLog == [])
      && (h.file.Stored? ==>
           && Floor(c, h.file.body) == Peak(None, h.savedLog)
           && h.file.body.keys == KeysAt(h.savedLog, Peak(None, h.savedLog)))
  {
    var h := Replay(c, Missing, scripts);
    WatermarkIsFold(c, scripts);
    AdvanceAllExact(c, EMPTY, h.savedLog);
    assert [] + KeysAt(h.savedLog, Peak(None, h.savedLog)) == KeysAt(h.savedLog, Peak(None, h.savedLog));
  }

  lemma {:induction false} AdvanceAllConcat(c: Clock, wm: Watermark, a: seq<Item>, b: seq<Item>)
    ensures AdvanceAll(c, wm, a + b) == AdvanceAll(c, AdvanceAll(c, wm, a), b)
  {
    if b == [] {
      assert a + b == a;
    } else {
      AdvanceAllConcat(c, wm, a, b[..|b| - 1]);
      assert (a + b)[..|a + b| - 1] == a + b[..|b| - 1];
    }
  }

  lemma SavedStaysDistinct(c: Clock, scripts: seq<Script>, script: Script)
    requires Printed(c, scripts) && AllFaithful(c, Offered(c, script))
    requires DistinctKeys(Replay(c, Missing, scripts).savedLog)
    ensures
      var h := Replay(c, Missing, scripts);
      var o := Run(c, h.file, script);
      o.saved ==> DistinctKeys(h.savedLog + o.emitted)
  {
    var h := Replay(c, Missing, scripts);
    var o := Run(c, h.file, script);
    if o.saved {
      RunAdmissible(c, Load(h.file, false).value, Flatten(script.replies).edges);
      var all := h.savedLog + o.emitted;
      forall i, j | 0 <= i < j < |all|
        ensures all[i].key != all[j].key
      {
        if i < |h.savedLog| <= j {
          var k := h.savedLog[i].key;
          assert k in Keys(h.savedLog);
          BoundedDuplication(c, Missing, scripts, k);
          RunAndKey(c, h.file, script, k);
          CountPositive(k, o.emitted);
          assert all[j] in o.emitted;
        }
      }
    }
  }

  /** A later file that does not lie below an earlier one. */
  ghost predicate NotBelow(c: Clock, early: CdrFile, late: CdrFile) {
    early.Stored? && Floor(c, early.body).Some? ==>
      && late.Stored? && Floor(c, late.body).Some?
      && Floor(c, early.body).value <= Floor(c, late.body).value
  }

  lemma RunNotBelow(c: Clock, file: CdrFile, script: Script)
    requires NulFree(c) && AllKeepUp(c, Offered(c, script))
    ensures NotBelow(c, file, Run(c, file, script).file)
  {
    if file.Stored? {
      var edges := Flatten(script.replies).edges;
      var es := ScanEdges(c, file.body, edges).emitted;
      RunAdmissible(c, file.body, edges);
      FloorRises(c, file.body, es);
    }
  }

  /** The stored start never moves back, whatever the file held at first. */
  lemma {:induction false} StoredStartNeverDecreases(c: Clock, file: CdrFile, scripts: seq<Script>, n: nat)
    requires KeptUp(c, scripts)
    requires n <= |scripts|
    ensures NotBelow(c, Replay(c, file, scripts[..n]).file, Replay(c, file, scripts).file)
  {
    if n == |scripts| {
      assert scripts[..n] == scripts;
    } else {
      var m := |scripts| - 1;
      assert scripts[m] in scripts;
      StoredStartNeverDecreases(c, file, scripts[..m], n);
      assert scripts[..m][..n] == scripts[..n];
      RunNotBelow(c, Replay(c, file, scripts[..m]).file, scripts[m]);
    }
  }
}

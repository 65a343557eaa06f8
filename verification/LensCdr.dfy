/** The Lens call-detail collector: one run pages through the records of a tenant,
    emits a log for each new row and replaces the persisted watermark.  Whatever
    the outside world does to a run (a page that fails, a log that is rejected, a
    crash, a save that stops half-way) is a script, and every script is allowed.
 */
module LensCdr {
  import opened Basics
  import opened Watermarks
  import opened AtomicFile

  // ---------------------------------------------------------------- input rows

  /** A record; rest stands for the fields that are only passed on. */
  datatype Row = Row(deviceId: string, startTime: string, endTime: string, rest: string)

  /** No text that parses as RFC 3339 contains a NUL. */
  ghost predicate NulFree(c: Clock) {
    forall s :: c.parse(s).Some? ==> '\0' !in s
  }

  function DedupeKey(deviceId: string, startTime: string): string {
    deviceId + "\0" + startTime
  }

  /** Two rows whose start times parse share a key only if they agree on both parts. */
  lemma DedupeKeyInjective(c: Clock, a: Row, b: Row)
    requires NulFree(c)
    requires c.parse(a.startTime).Some? && c.parse(b.startTime).Some?
    requires DedupeKey(a.deviceId, a.startTime) == DedupeKey(b.deviceId, b.startTime)
    ensures a.deviceId == b.deviceId && a.startTime == b.startTime
  {
    AfterNulOfKey(a.deviceId, a.startTime);
    AfterNulOfKey(b.deviceId, b.startTime);
    var key := DedupeKey(a.deviceId, a.startTime);
    assert a.deviceId == key[..|key| - 1 - |a.startTime|];
    assert b.deviceId == key[..|key| - 1 - |b.startTime|];
  }

  /** The start of a row, when both of its times can be read. */
  function EventTimes(c: Clock, row: Row): Option<(Time, Time)> {
    match c.parse(row.startTime)
    case None => None
    case Some(start) =>
      match c.parse(row.endTime)
      case None => None
      case Some(end) => Some((start, end))
  }

  function ItemOf(c: Clock, row: Row): Option<Item> {
    match EventTimes(c, row)
    case None => None
    case Some((start, _)) => Some(Item(DedupeKey(row.deviceId, row.startTime), start))
  }

  function Items(c: Clock, rows: seq<Row>): seq<Item> {
    if rows == [] then []
    else
      var before := Items(c, rows[..|rows| - 1]);
      match ItemOf(c, rows[|rows| - 1])
      case None => before
      case Some(x) => before + [x]
  }

  lemma {:induction false} ItemsMembers(c: Clock, rows: seq<Row>)
    requires NulFree(c)
    ensures Keyed(c.parse, Items(c, rows))
    ensures forall x :: x in Items(c, rows) <==> exists row :: row in rows && ItemOf(c, row) == Some(x)
  {
    if rows != [] {
      var n := |rows| - 1;
      ItemsMembers(c, rows[..n]);
      assert rows == rows[..n] + [rows[n]];
      assert rows[n] in rows;
      if ItemOf(c, rows[n]).Some? {
        AfterNulOfKey(rows[n].deviceId, rows[n].startTime);
      }
    }
  }

  // ------------------------------------------------------------ outside world

  /** What happens when a row is reached.  A rejected or interrupted log may or
      may not have been delivered. */
  datatype Fate =
    | Accepted
    | EncodeFails
    | EmitFails(delivered: bool)
    | Dies(delivered: bool)

  datatype Edge = Edge(row: Row, fate: Fate)

  datatype Reply =
    | QueryFails
    | Page(edges: seq<Edge>, hasNextPage: bool, endCursor: Option<string>)

  datatype Script = Script(readFails: bool, replies: seq<Reply>, save: Ending)

  type CdrFile = File<Watermark>

  /** What a read of the file gives, or none when the read or the decoding fails. */
  function Load(file: CdrFile, readFails: bool): Option<Watermark> {
    match file
    case Missing => if readFails then None else Some(EMPTY)
    case Corrupt => None
    case Stored(wm) => if readFails then None else Some(wm)
  }

  // ------------------------------------------------------------------ one run

  /** The rows a run is offered, and whether its last page said it was the last. */
  datatype Feed = Feed(edges: seq<Edge>, complete: bool)

  function Flatten(replies: seq<Reply>): Feed {
    if replies == [] then Feed([], false)
    else
      match replies[0]
      case QueryFails => Feed([], false)
      case Page(edges, hasNextPage, endCursor) =>
        if !hasNextPage then Feed(edges, true)
        else if endCursor.None? || endCursor.value == "" then Feed(edges, false)
        else
          var rest := Flatten(replies[1..]);
          Feed(edges + rest.edges, rest.complete)
  }

  datatype Scan = Scan(emitted: seq<Item>, stopped: bool)

  /** The item of a row, if the row can be read and is new to the run. */
  function NewItem(c: Clock, wm: Watermark, emitted: seq<Item>, row: Row): Option<Item> {
    match ItemOf(c, row)
    case None => None
    case Some(x) => if IsNew(c, x, wm, SeenBy(wm, emitted)) then Some(x) else None
  }

  /** What becomes of a scan at a row that is skipped (no item) or new. */
  function Settle(s: Scan, fate: Fate, x: Option<Item>): Scan {
    if x.None? then Scan(s.emitted, fate.Dies?)
    else
      match fate
      case Accepted => Scan(s.emitted + [x.value], false)
      case EncodeFails => Scan(s.emitted, true)
      case EmitFails(delivered) => Scan(if delivered then s.emitted + [x.value] else s.emitted, true)
      case Dies(delivered) => Scan(if delivered then s.emitted + [x.value] else s.emitted, true)
  }

  function StepEdge(c: Clock, wm: Watermark, s: Scan, edge: Edge): Scan {
    if s.stopped then s else Settle(s, edge.fate, NewItem(c, wm, s.emitted, edge.row))
  }

  function ScanEdges(c: Clock, wm: Watermark, edges: seq<Edge>): Scan {
    if edges == [] then Scan([], false)
    else StepEdge(c, wm, ScanEdges(c, wm, edges[..|edges| - 1]), edges[|edges| - 1])
  }

  datatype Outcome = Outcome(emitted: seq<Item>, file: CdrFile, saved: bool)

  function Run(c: Clock, file: CdrFile, script: Script): Outcome {
    match Load(file, script.readFails)
    case None => Outcome([], file, false)
    case Some(wm) =>
      var feed := Flatten(script.replies);
      var s := ScanEdges(c, wm, feed.edges);
      if s.stopped || !feed.complete || !Renamed(script.save) then Outcome(s.emitted, file, false)
      else Outcome(s.emitted, Stored(AdvanceAll(c, wm, s.emitted)), true)
  }

  function Rows(edges: seq<Edge>): seq<Row> {
    if edges == [] then [] else Rows(edges[..|edges| - 1]) + [edges[|edges| - 1].row]
  }

  lemma RowsSnoc(edges: seq<Edge>, edge: Edge)
    ensures Rows(edges + [edge]) == Rows(edges) + [edge.row]
  {
    assert (edges + [edge])[..|edges|] == edges;
  }

  /** One more row offered to the frozen loop. */
  lemma FrozenRowsSnoc(c: Clock, wm: Watermark, rows: seq<Row>, row: Row)
    ensures
      var es := Frozen(c, wm, Items(c, rows));
      var x := NewItem(c, wm, es, row);
      Frozen(c, wm, Items(c, rows + [row])) == if x.Some? then es + [x.value] else es
  {
    assert (rows + [row])[..|rows|] == rows;
    var items := Items(c, rows);
    if ItemOf(c, row).Some? {
      assert (items + [ItemOf(c, row).value])[..|items|] == items;
    }
  }

  lemma ScanSnoc(c: Clock, wm: Watermark, edges: seq<Edge>, edge: Edge)
    ensures ScanEdges(c, wm, edges + [edge]) == StepEdge(c, wm, ScanEdges(c, wm, edges), edge)
  {
    assert (edges + [edge])[..|edges|] == edges;
  }

  /** One more row keeps the scan and the frozen loop together, unless it stops
      the scan without a delivery. */
  lemma StepIsFrozen(c: Clock, wm: Watermark, edges: seq<Edge>, s: Scan, edge: Edge)
    requires !s.stopped && s.emitted == Frozen(c, wm, Items(c, Rows(edges)))
    ensures
      var t := StepEdge(c, wm, s, edge);
      t == Scan(s.emitted, true) || t.emitted == Frozen(c, wm, Items(c, Rows(edges + [edge])))
  {
    RowsSnoc(edges, edge);
    FrozenRowsSnoc(c, wm, Rows(edges), edge.row);
  }

  /** A scan has emitted what the frozen loop emits for the first n rows. */
  ghost predicate ReadUpTo(c: Clock, wm: Watermark, edges: seq<Edge>, s: Scan, n: nat) {
    && n <= |edges|
    && s.emitted == Frozen(c, wm, Items(c, Rows(edges[..n])))
    && (!s.stopped ==> n == |edges|)
  }

  lemma ReadOneMore(c: Clock, wm: Watermark, edges: seq<Edge>, s: Scan, n: nat, edge: Edge) returns (m: nat)
    requires ReadUpTo(c, wm, edges, s, n)
    ensures ReadUpTo(c, wm, edges + [edge], StepEdge(c, wm, s, edge), m)
  {
    assert (edges + [edge])[..n] == edges[..n];
    assert (edges + [edge])[..|edges| + 1] == edges + [edge];
    m := n;
    if !s.stopped {
      assert edges[..n] == edges;
      StepIsFrozen(c, wm, edges, s, edge);
      m := if StepEdge(c, wm, s, edge) == Scan(s.emitted, true) then n else n + 1;
    }
  }

  /** Wherever a scan stops, it has emitted what the frozen loop emits for some
      prefix of the rows; an undisturbed scan has read all of them. */
  lemma {:induction false} ScanIsFrozen(c: Clock, wm: Watermark, edges: seq<Edge>) returns (n: nat)
    ensures ReadUpTo(c, wm, edges, ScanEdges(c, wm, edges), n)
  {
    if edges == [] {
      n := 0;
    } else {
      var m := |edges| - 1;
      n := ScanIsFrozen(c, wm, edges[..m]);
      n := ReadOneMore(c, wm, edges[..m], ScanEdges(c, wm, edges[..m]), n, edges[m]);
      assert edges[..m] + [edges[m]] == edges;
    }
  }

  /** The readable rows that a run is offered. */
  function Offered(c: Clock, script: Script): seq<Item> {
    Items(c, Rows(Flatten(script.replies).edges))
  }

  lemma {:induction false} ItemsOfPrefix(c: Clock, edges: seq<Edge>, n: nat)
    requires n <= |edges|
    ensures forall x :: x in Items(c, Rows(edges[..n])) ==> x in Items(c, Rows(edges))
  {
    if n == |edges| {
      assert edges[..n] == edges;
    } else {
      var m := |edges| - 1;
      ItemsOfPrefix(c, edges[..m], n);
      assert edges[..m][..n] == edges[..n];
      var rows := Rows(edges);
      assert rows[..|rows| - 1] == Rows(edges[..m]);
    }
  }

  /** Whatever happens to a run, its emissions are admissible for the watermark it
      loaded and are among the rows it was offered. */
  lemma RunAdmissible(c: Clock, wm: Watermark, edges: seq<Edge>)
    requires NulFree(c)
    ensures Admissible(c, wm, ScanEdges(c, wm, edges).emitted)
    ensures Keyed(c.parse, ScanEdges(c, wm, edges).emitted)
    ensures forall x :: x in ScanEdges(c, wm, edges).emitted ==> x in Items(c, Rows(edges))
  {
    var n := ScanIsFrozen(c, wm, edges);
    var items := Items(c, Rows(edges[..n]));
    FrozenAdmissible(c, wm, items);
    ItemsMembers(c, Rows(edges[..n]));
    ItemsOfPrefix(c, edges, n);
  }

  lemma {:induction false} StoppedStays(c: Clock, wm: Watermark, edges: seq<Edge>, more: seq<Edge>)
    requires ScanEdges(c, wm, edges).stopped
    ensures ScanEdges(c, wm, edges + more) == ScanEdges(c, wm, edges)
  {
    if more == [] {
      assert edges + more == edges;
    } else {
      var m := |more| - 1;
      StoppedStays(c, wm, edges, more[..m]);
      assert (edges + more)[..|edges + more| - 1] == edges + more[..m];
    }
  }

  /** The scan of one row more than were read so far. */
  lemma ScanRow(c: Clock, wm: Watermark, edges: seq<Edge>, n: nat)
    requires n < |edges|
    ensures ScanEdges(c, wm, edges[..n + 1]) == StepEdge(c, wm, ScanEdges(c, wm, edges[..n]), edges[n])
    ensures ScanEdges(c, wm, edges[..n + 1]).stopped ==> ScanEdges(c, wm, edges) == ScanEdges(c, wm, edges[..n + 1])
  {
    assert edges[..n + 1] == edges[..n] + [edges[n]];
    ScanSnoc(c, wm, edges[..n], edges[n]);
    if ScanEdges(c, wm, edges[..n + 1]).stopped {
      StoppedStays(c, wm, edges[..n + 1], edges[n + 1..]);
      assert edges == edges[..n + 1] + edges[n + 1..];
    }
  }

  // ------------------------------------------------------- when a run is saved

  /** A watermark is loaded if and only if the file is not corrupt and can be read:
      an empty one where there is no file. */
  lemma LoadExact(file: CdrFile, readFails: bool)
    ensures Load(file, readFails).Some? <==> !file.Corrupt? && !readFails
    ensures Load(file, readFails).Some? ==> Load(file, readFails).value == if file.Stored? then file.body else EMPTY
  {
  }

  /** The pages before the n-th each lead to the next. */
  ghost predicate Chained(replies: seq<Reply>, n: nat) {
    n <= |replies| && forall i :: 0 <= i < n ==>
      replies[i].Page? && replies[i].hasNextPage && replies[i].endCursor.Some? && replies[i].endCursor.value != ""
  }

  /** The n-th page is reached and says it is the last. */
  ghost predicate LastPage(replies: seq<Reply>, n: nat) {
    n < |replies| && Chained(replies, n) && replies[n].Page? && !replies[n].hasNextPage
  }

  function EdgesOf(pages: seq<Reply>): seq<Edge> {
    if pages == [] || pages[0].QueryFails? then [] else pages[0].edges + EdgesOf(pages[1..])
  }

  /** A run is offered the rows of the pages up to the last one, and all of them if and
      only if a page that is reached says it is the last. */
  lemma {:induction false} FlattenExact(replies: seq<Reply>)
    ensures Flatten(replies).complete <==> exists n: nat :: LastPage(replies, n)
    ensures forall n: nat :: LastPage(replies, n) ==> Flatten(replies).edges == EdgesOf(replies[..n + 1])
  {
    if replies != [] && replies[0].Page? {
      FlattenExact(replies[1..]);
      LastPageTail(replies);
      forall n: nat | LastPage(replies, n)
        ensures Flatten(replies).edges == EdgesOf(replies[..n + 1])
      {
        EdgesOfTail(replies, n);
      }
    }
  }

  lemma EdgesOfTail(replies: seq<Reply>, n: nat)
    requires LastPage(replies, n)
    ensures EdgesOf(replies[..n + 1]) == replies[0].edges + if n == 0 then [] else EdgesOf(replies[1..][..n])
    ensures n > 0 ==> LastPage(replies[1..], n - 1)
  {
    assert replies[..n + 1][1..] == replies[1..][..n];
    if n > 0 {
      ChainedTail(replies, n);
    }
  }

  lemma ChainedTail(replies: seq<Reply>, n: nat)
    requires replies != [] && n > 0
    ensures Chained(replies, n) <==>
      && replies[0].Page? && replies[0].hasNextPage && replies[0].endCursor.Some? && replies[0].endCursor.value != ""
      && Chained(replies[1..], n - 1)
  {
    assert forall i :: 0 < i < |replies| ==> replies[i] == replies[1..][i - 1];
    if Chained(replies, n) {
      assert forall i :: 0 <= i < n - 1 ==> replies[1..][i] == replies[i + 1];
    }
  }

  lemma LastPageTail(replies: seq<Reply>)
    requires replies != [] && replies[0].Page?
    ensures
      var leads := replies[0].hasNextPage && replies[0].endCursor.Some? && replies[0].endCursor.value != "";
      (exists n: nat :: LastPage(replies, n)) <==>
        !replies[0].hasNextPage || (leads && exists n: nat :: LastPage(replies[1..], n))
  {
    if n: nat :| LastPage(replies, n) {
      if n > 0 {
        ChainedTail(replies, n);
        assert LastPage(replies[1..], n - 1);
      }
    }
    if !replies[0].hasNextPage {
      assert LastPage(replies, 0);
    } else if n: nat :| LastPage(replies[1..], n) {
      ChainedTail(replies, n + 1);
      assert replies[0].endCursor.Some? && replies[0].endCursor.value != "" ==> LastPage(replies, n + 1);
    }
  }

  /** A row that ends the run it is offered to: the process dies there, or the row is new
      and its log fails. */
  ghost predicate Disturbs(c: Clock, wm: Watermark, edges: seq<Edge>, i: nat) {
    && i < |edges|
    && (|| edges[i].fate.Dies?
        || (!edges[i].fate.Accepted? && TimesReadable(c, edges[i].row)
            && KeyOf(edges[i].row) !in SeenBy(wm, Frozen(c, wm, Items(c, Rows(edges[..i]))))
            && AtOrAbove(c.parse(edges[i].row.startTime).value.instant, Floor(c, wm))))
  }

  /** A scan is stopped if and only if some row disturbs it. */
  lemma {:induction false} StoppedIff(c: Clock, wm: Watermark, edges: seq<Edge>)
    ensures ScanEdges(c, wm, edges).stopped <==> exists i :: Disturbs(c, wm, edges, i)
  {
    if edges != [] {
      var n := |edges| - 1;
      var most := edges[..n];
      StoppedIff(c, wm, most);
      forall i: nat | i < n
        ensures Disturbs(c, wm, edges, i) <==> Disturbs(c, wm, most, i)
      {
        assert most[..i] == edges[..i];
      }
      if !ScanEdges(c, wm, most).stopped {
        var m := ScanIsFrozen(c, wm, most);
        assert most[..m] == most;
        ItemExact(c, edges[n].row);
        assert ScanEdges(c, wm, edges).stopped <==> Disturbs(c, wm, edges, n);
      } else {
        var i :| Disturbs(c, wm, most, i);
        assert Disturbs(c, wm, edges, i);
      }
    }
  }

  /** A run is saved if and only if its file can be read, some page it reaches is the
      last, no row up to there disturbs it and the rename takes effect; and unless it is
      saved the file stays. */
  lemma SavedIff(c: Clock, file: CdrFile, script: Script)
    ensures
      var wm := if file.Stored? then file.body else EMPTY;
      Run(c, file, script).saved <==>
        && !file.Corrupt? && !script.readFails
        && (exists n: nat :: LastPage(script.replies, n))
        && (forall i :: !Disturbs(c, wm, Flatten(script.replies).edges, i))
        && Renamed(script.save)
    ensures !Run(c, file, script).saved ==> Run(c, file, script).file == file
    ensures file.Corrupt? || script.readFails ==> Run(c, file, script) == Outcome([], file, false)
  {
    var wm := if file.Stored? then file.body else EMPTY;
    LoadExact(file, script.readFails);
    FlattenExact(script.replies);
    StoppedIff(c, wm, Flatten(script.replies).edges);
  }

  /** At the row that disturbs it first, a run has emitted what the frozen loop emits up
      to there, and that row besides if its log failed or was cut short once delivered. */
  lemma DisturbedAt(c: Clock, wm: Watermark, edges: seq<Edge>, i: nat)
    requires Disturbs(c, wm, edges, i) && forall j :: 0 <= j < i ==> !Disturbs(c, wm, edges, j)
    ensures
      var es := Frozen(c, wm, Items(c, Rows(edges[..i])));
      var row := edges[i].row;
      var news := TimesReadable(c, row) && KeyOf(row) !in SeenBy(wm, es)
                  && AtOrAbove(c.parse(row.startTime).value.instant, Floor(c, wm));
      ScanEdges(c, wm, edges).emitted ==
        if news && !edges[i].fate.EncodeFails? && edges[i].fate.delivered
        then es + [Item(KeyOf(row), c.parse(row.startTime).value)] else es
  {
    UndisturbedBefore(c, wm, edges, i);
    ScanRow(c, wm, edges, i);
    DisturbedStep(c, wm, Frozen(c, wm, Items(c, Rows(edges[..i]))), edges[i]);
  }

  lemma DisturbedStep(c: Clock, wm: Watermark, es: seq<Item>, edge: Edge)
    ensures
      var row := edge.row;
      var news := TimesReadable(c, row) && KeyOf(row) !in SeenBy(wm, es)
                  && AtOrAbove(c.parse(row.startTime).value.instant, Floor(c, wm));
      edge.fate.Dies? || (!edge.fate.Accepted? && news) ==>
        StepEdge(c, wm, Scan(es, false), edge) ==
          Scan(if news && !edge.fate.EncodeFails? && edge.fate.delivered
               then es + [Item(KeyOf(row), c.parse(row.startTime).value)] else es, true)
  {
    ItemExact(c, edge.row);
  }

  lemma UndisturbedBefore(c: Clock, wm: Watermark, edges: seq<Edge>, i: nat)
    requires i <= |edges| && forall j :: 0 <= j < i ==> !Disturbs(c, wm, edges, j)
    ensures ScanEdges(c, wm, edges[..i]) == Scan(Frozen(c, wm, Items(c, Rows(edges[..i]))), false)
  {
    var most := edges[..i];
    forall j: nat
      ensures !Disturbs(c, wm, most, j)
    {
      if j < i {
        assert most[..j] == edges[..j];
        assert !Disturbs(c, wm, edges, j);
      }
    }
    StoppedIff(c, wm, most);
    var m := ScanIsFrozen(c, wm, most);
    assert most[..m] == most;
  }

  // ----------------------------------------- completeness and order independence

  /** Both times of a row can be read. */
  predicate TimesReadable(c: Clock, row: Row) {
    c.parse(row.startTime).Some? && c.parse(row.endTime).Some?
  }

  function KeyOf(row: Row): string {
    row.deviceId + "\0" + row.startTime
  }

  /** What becomes of a row: its device and start time as written, and the start read. */
  lemma ItemExact(c: Clock, row: Row)
    ensures ItemOf(c, row)
         == if TimesReadable(c, row) then Some(Item(KeyOf(row), c.parse(row.startTime).value)) else None
  {
  }

  /** A row a run must report: both times readable, not older than the floor, not stored. */
  ghost predicate Wanted(c: Clock, wm: Watermark, row: Row) {
    && TimesReadable(c, row)
    && KeyOf(row) !in wm.keys
    && AtOrAbove(c.parse(row.startTime).value.instant, Floor(c, wm))
  }

  /** Whatever happens to a run, what it emits are rows it was offered whose two times
      can be read, under their device and start time. */
  lemma EmittedIsReadable(c: Clock, file: CdrFile, script: Script, x: Item)
    requires NulFree(c) && x in Run(c, file, script).emitted
    ensures exists row :: row in Rows(Flatten(script.replies).edges) && TimesReadable(c, row)
                          && x == Item(KeyOf(row), c.parse(row.startTime).value)
  {
    var wm := Load(file, script.readFails).value;
    var rows := Rows(Flatten(script.replies).edges);
    RunAdmissible(c, wm, Flatten(script.replies).edges);
    ItemsMembers(c, rows);
    var row :| row in rows && ItemOf(c, row) == Some(x);
    ItemExact(c, row);
  }

  /** A saved run emits exactly one log for each key that has a wanted row. */
  lemma SavedRunIsComplete(c: Clock, file: CdrFile, script: Script)
    requires NulFree(c)
    requires Run(c, file, script).saved
    ensures Load(file, script.readFails).Some?
    ensures
      var wm := Load(file, script.readFails).value;
      var rows := Rows(Flatten(script.replies).edges);
      forall k :: k in Keys(Run(c, file, script).emitted)
             <==> exists row :: row in rows && Wanted(c, wm, row) && KeyOf(row) == k
    ensures DistinctKeys(Run(c, file, script).emitted)
  {
    var wm := Load(file, script.readFails).value;
    var edges := Flatten(script.replies).edges;
    var rows := Rows(edges);
    var n := ScanIsFrozen(c, wm, edges);
    assert edges[..n] == edges;
    FrozenAdmissible(c, wm, Items(c, rows));
    var es := Run(c, file, script).emitted;
    forall k
      ensures k in Keys(es) <==> exists row :: row in rows && Wanted(c, wm, row) && KeyOf(row) == k
    {
      KeyLoggedIff(c, wm, rows, k);
    }
  }

  lemma KeyLoggedIff(c: Clock, wm: Watermark, rows: seq<Row>, k: string)
    requires NulFree(c)
    ensures k in Keys(Frozen(c, wm, Items(c, rows)))
       <==> exists row :: row in rows && Wanted(c, wm, row) && KeyOf(row) == k
  {
    var es := Frozen(c, wm, Items(c, rows));
    FrozenAdmissible(c, wm, Items(c, rows));
    ItemsMembers(c, rows);
    if k in Keys(es) {
      var x :| x in es && x.key == k;
      var row :| row in rows && ItemOf(c, row) == Some(x);
      ItemExact(c, row);
    }
    if row :| row in rows && Wanted(c, wm, row) && KeyOf(row) == k {
      ItemExact(c, row);
      assert ItemOf(c, row).value in Items(c, rows);
    }
  }

  /** An undisturbed run is one of the frozen loop over all it was offered. */
  lemma SavedRunIsFrozen(c: Clock, file: CdrFile, script: Script)
    requires Run(c, file, script).saved
    ensures Load(file, script.readFails).Some?
    ensures
      var wm := Load(file, script.readFails).value;
      var es := Frozen(c, wm, Offered(c, script));
      Run(c, file, script) == Outcome(es, Stored(AdvanceAll(c, wm, es)), true)
  {
    var wm := Load(file, script.readFails).value;
    var edges := Flatten(script.replies).edges;
    var n := ScanIsFrozen(c, wm, edges);
    assert edges[..n] == edges;
  }

  /** A saved run logs every row the watermark lets through, each on its own, exactly
      when no two of them share a device and a start time. */
  lemma SavedRunLogsEveryRowIff(c: Clock, file: CdrFile, script: Script)
    requires Run(c, file, script).saved
    ensures Load(file, script.readFails).Some?
    ensures
      var wanted := WantedItems(c, Load(file, script.readFails).value, Offered(c, script));
      Run(c, file, script).emitted == wanted <==> DistinctKeys(wanted)
  {
    SavedRunIsFrozen(c, file, script);
    FrozenIsWantedIff(c, Load(file, script.readFails).value, Offered(c, script));
  }

  lemma SameKeysSameItems(at: string -> Option<Time>, es: seq<Item>, fs: seq<Item>)
    requires Keyed(at, es) && Keyed(at, fs) && Keys(es) == Keys(fs)
    ensures forall x :: x in es <==> x in fs
  {
    forall x
      ensures x in es <==> x in fs
    {
      if x in es {
        assert x.key in Keys(fs);
        var y :| y in fs && y.key == x.key;
        assert y == x;
      }
      if x in fs {
        assert x.key in Keys(es);
        var y :| y in es && y.key == x.key;
        assert y == x;
      }
    }
  }

  lemma SameItemsSamePeak(floor: Option<int>, es: seq<Item>, fs: seq<Item>)
    requires forall x :: x in es <==> x in fs
    ensures Peak(floor, es) == Peak(floor, fs)
  {
    PeakIsMaximum(floor, es);
    PeakIsMaximum(floor, fs);
    if es == [] {
      if fs != [] {
        assert fs[0] in fs;
      }
    } else {
      assert es[0] in es;
    }
  }

  /** Reordering the rows or cutting the pages elsewhere changes neither which
      keys a saved run emits nor the watermark it leaves, up to the order of keys. */
  lemma OrderAndPagingDoNotMatter(c: Clock, file: CdrFile, a: Script, b: Script)
    requires NulFree(c) && AllFaithful(c, Offered(c, a)) && AllFaithful(c, Offered(c, b))
    requires Run(c, file, a).saved && Run(c, file, b).saved
    requires forall row :: row in Rows(Flatten(a.replies).edges) <==> row in Rows(Flatten(b.replies).edges)
    ensures Keys(Run(c, file, a).emitted) == Keys(Run(c, file, b).emitted)
    ensures Floor(c, Run(c, file, a).file.body) == Floor(c, Run(c, file, b).file.body)
    ensures forall k :: k in Run(c, file, a).file.body.keys <==> k in Run(c, file, b).file.body.keys
  {
    SavedRunIsComplete(c, file, a);
    SavedRunIsComplete(c, file, b);
    var wm := Load(file, false).value;
    var es, fs := Run(c, file, a).emitted, Run(c, file, b).emitted;
    assert Keys(es) == Keys(fs);
    RunAdmissible(c, wm, Flatten(a.replies).edges);
    RunAdmissible(c, wm, Flatten(b.replies).edges);
    SameKeysSameItems(c.parse, es, fs);
    SameItemsSamePeak(Floor(c, wm), es, fs);
    AdvanceAllExact(c, wm, es);
    AdvanceAllExact(c, wm, fs);
    KeysAtMembers(es, Peak(Floor(c, wm), es));
    KeysAtMembers(fs, Peak(Floor(c, wm), fs));
  }

  // ------------------------------------------------------------- the collector

  /** One tenant's collector, with the disk it keeps its file on and the logs it has sent. */
  class Collector {
    const codec: Codec<Watermark>
    const path: string
    const volume: Volume
    var log: seq<Item>
    var queries: seq<Option<string>>

    constructor (codec: Codec<Watermark>, path: string, volume: Volume)
      ensures this.codec == codec && this.path == path && this.volume == volume && log == [] && queries == []
    {
      this.codec, this.path, this.volume := codec, path, volume;
      log, queries := [], [];
    }

    /** What its file holds. */
    ghost function Contents(): CdrFile
      reads this, volume
    {
      Read(codec, volume.files, path)
    }

    /** What a run has done so far: the logs of a scan, and unless it was stopped the
        watermark and the seen keys that go with them. */
    ghost predicate Reads(c: Clock, checkpoint: Watermark, s: Scan, before: seq<Item>, wm: Watermark,
                          seen: set<string>, ok: bool)
      reads this
    {
      && log == before + s.emitted
      && (ok <==> !s.stopped)
      && (ok ==> wm == AdvanceAll(c, checkpoint, s.emitted) && seen == SeenBy(checkpoint, s.emitted))
    }

    /** One row: skipped, or emitted and then taken into the watermark. */
    method CollectEdge(c: Clock, checkpoint: Watermark, edge: Edge, wm0: Watermark, seen0: set<string>,
                       ghost s: Scan, ghost before: seq<Item>)
      returns (wm: Watermark, seen: set<string>, ok: bool)
      requires Reads(c, checkpoint, s, before, wm0, seen0, true)
      modifies this`log
      ensures Reads(c, checkpoint, StepEdge(c, checkpoint, s, edge), before, wm, seen, ok)
    {
      wm, seen, ok := wm0, seen0, true;
      var x := ItemOf(c, edge.row);
      if x.None? || !IsNew(c, x.value, checkpoint, seen) {
        assert NewItem(c, checkpoint, s.emitted, edge.row).None?;
        return wm, seen, !edge.fate.Dies?;
      }
      assert NewItem(c, checkpoint, s.emitted, edge.row) == x;
      if edge.fate.EncodeFails? {
        return wm, seen, false;
      }
      if edge.fate.Accepted? || edge.fate.delivered {
        log := log + [x.value];
        Associate(before, s.emitted, [x.value]);
      }
      if !edge.fate.Accepted? {
        return wm, seen, false;
      }
      TakeItem(c, checkpoint, s.emitted, x.value);
      wm := Advance(c, wm, x.value);
      seen := seen + {x.value.key};
    }

    /** The next row of a page. */
    method CollectRow(c: Clock, checkpoint: Watermark, edges: seq<Edge>, i: nat, wm0: Watermark, seen0: set<string>,
                      ghost done: seq<Edge>, ghost before: seq<Item>)
      returns (wm: Watermark, seen: set<string>, ok: bool)
      requires i < |edges|
      requires Reads(c, checkpoint, ScanEdges(c, checkpoint, done + edges[..i]), before, wm0, seen0, true)
      modifies this`log
      ensures Reads(c, checkpoint, ScanEdges(c, checkpoint, done + edges[..i + 1]), before, wm, seen, ok)
      ensures !ok ==> ScanEdges(c, checkpoint, done + edges) == ScanEdges(c, checkpoint, done + edges[..i + 1])
    {
      StepWithin(c, checkpoint, done, edges, i);
      wm, seen, ok := CollectEdge(c, checkpoint, edges[i], wm0, seen0, ScanEdges(c, checkpoint, done + edges[..i]),
                                  before);
    }

    /** One page, row by row, until something stops it. */
    method CollectPage(c: Clock, checkpoint: Watermark, edges: seq<Edge>, wm0: Watermark, seen0: set<string>,
                       ghost done: seq<Edge>, ghost before: seq<Item>)
      returns (wm: Watermark, seen: set<string>, ok: bool)
      requires Reads(c, checkpoint, ScanEdges(c, checkpoint, done), before, wm0, seen0, true)
      modifies this`log
      ensures Reads(c, checkpoint, ScanEdges(c, checkpoint, done + edges), before, wm, seen, ok)
    {
      wm, seen, ok := wm0, seen0, true;
      assert done + edges[..0] == done && edges[..|edges|] == edges;
      var i := 0;
      while i < |edges| && ok
        invariant i <= |edges|
        invariant Reads(c, checkpoint, ScanEdges(c, checkpoint, done + edges[..i]), before, wm, seen, ok)
        invariant !ok ==> ScanEdges(c, checkpoint, done + edges) == ScanEdges(c, checkpoint, done + edges[..i])
      {
        wm, seen, ok := CollectRow(c, checkpoint, edges, i, wm, seen, done, before);
        i := i + 1;
      }
    }

    /** Where the paging stands: the rows taken so far, and whether more are to come. */
    ghost predicate Paged(c: Clock, checkpoint: Watermark, replies: seq<Reply>, page: nat, done: seq<Edge>,
                          before: seq<Item>, wm: Watermark, seen: set<string>, ok: bool, more: bool)
      reads this
    {
      && page <= |replies|
      && Reads(c, checkpoint, ScanEdges(c, checkpoint, done), before, wm, seen, !ScanEdges(c, checkpoint, done).stopped)
      && if more then
           && ok && !ScanEdges(c, checkpoint, done).stopped
           && Flatten(replies) == Feed(done + Flatten(replies[page..]).edges, Flatten(replies[page..]).complete)
         else
           && ScanEdges(c, checkpoint, Flatten(replies).edges) == ScanEdges(c, checkpoint, done)
           && (ok <==> !ScanEdges(c, checkpoint, done).stopped && Flatten(replies).complete)
    }

    /** One reply: its rows, and whether and how the paging goes on. */
    method CollectReply(c: Clock, checkpoint: Watermark, replies: seq<Reply>, page: nat, wm0: Watermark,
                        seen0: set<string>, ghost done: seq<Edge>, ghost before: seq<Item>)
      returns (wm: Watermark, seen: set<string>, ok: bool, more: bool, ghost now: seq<Edge>)
      requires page < |replies| && replies[page].Page?
      requires Paged(c, checkpoint, replies, page, done, before, wm0, seen0, true, true)
      modifies this`log
      ensures Paged(c, checkpoint, replies, page + 1, now, before, wm, seen, ok, more)
    {
      FlattenUnfolds(replies, page, done);
      var reply := replies[page];
      now := done + reply.edges;
      wm, seen, ok := CollectPage(c, checkpoint, reply.edges, wm0, seen0, done, before);
      more := false;
      if !ok {
        StoppedStays(c, checkpoint, now, Flatten(replies).edges[|now|..]);
      } else if reply.hasNextPage {
        more := reply.endCursor.Some? && reply.endCursor.value != "";
        ok := more;
      }
    }

    /** One query, from the cursor given, and what comes of its reply. */
    method CollectNext(c: Clock, checkpoint: Watermark, replies: seq<Reply>, page: nat, after: Option<string>,
                       wm0: Watermark, seen0: set<string>, ghost done: seq<Edge>, ghost before: seq<Item>)
      returns (wm: Watermark, seen: set<string>, ok: bool, more: bool, ghost now: seq<Edge>)
      requires Paged(c, checkpoint, replies, page, done, before, wm0, seen0, true, true)
      modifies this`log, this`queries
      ensures page < |replies| && replies[page].Page?
              ==> Paged(c, checkpoint, replies, page + 1, now, before, wm, seen, ok, more)
      ensures !(page < |replies| && replies[page].Page?)
              ==> !more && Paged(c, checkpoint, replies, page, now, before, wm, seen, ok, more)
      ensures queries == old(queries) + [after]
    {
      queries := queries + [after];
      if page == |replies| || replies[page].QueryFails? {
        FlattenUnfolds(replies, page, done);
        wm, seen, ok, more, now := wm0, seen0, false, false, done;
      } else {
        wm, seen, ok, more, now := CollectReply(c, checkpoint, replies, page, wm0, seen0, done, before);
      }
    }

    /** Follows the cursor from page to page until one says it is the last; each query
        but the first asks for what follows the page before it. */
    method CollectPages(c: Clock, checkpoint: Watermark, replies: seq<Reply>)
      returns (wm: Watermark, ok: bool, ghost asked: seq<Option<string>>)
      modifies this`log, this`queries
      ensures log == old(log) + ScanEdges(c, checkpoint, Flatten(replies).edges).emitted
      ensures ok <==> !ScanEdges(c, checkpoint, Flatten(replies).edges).stopped && Flatten(replies).complete
      ensures ok ==> wm == AdvanceAll(c, checkpoint, ScanEdges(c, checkpoint, Flatten(replies).edges).emitted)
      ensures queries == old(queries) + asked && Follows(asked, replies)
    {
      wm, ok, asked := checkpoint, true, [];
      var seen := set k | k in wm.keys;
      var after: Option<string> := None;
      ghost var done: seq<Edge> := [];
      assert seen == SeenBy(checkpoint, []) && replies[0..] == replies;
      var page, more := 0, true;
      while more
        invariant Paged(c, checkpoint, replies, page, done, old(log), wm, seen, ok, more)
        invariant queries == old(queries) + asked && Follows(asked, replies)
        invariant more ==> Asks(asked, replies, page, after)
        decreases |replies| - page, more
      {
        wm, seen, ok, more, done := CollectNext(c, checkpoint, replies, page, after, wm, seen, done, old(log));
        FollowsMore(asked, replies, page, after);
        asked := asked + [after];
        if page < |replies| && replies[page].Page? {
          after, page := replies[page].endCursor, page + 1;
        }
      }
    }

    /** Loads the watermark, pages through the records, then replaces the file by way
        of a temporary one; nothing else on the disk changes. */
    method Collect(c: Clock, script: Script, tmp: string) returns (ok: bool)
      requires RoundTrips(codec)
      requires tmp !in volume.files && tmp != path
      modifies this`log, this`queries, volume
      ensures log == old(log) + Run(c, old(Contents()), script).emitted
      ensures Contents() == Run(c, old(Contents()), script).file
      ensures SameBut(volume.files, old(volume.files), {path, tmp})
      ensures ok <==> Run(c, old(Contents()), script).saved && script.save.Completes?
      ensures exists asked :: queries == old(queries) + asked && Follows(asked, script.replies)
    {
      assert queries == queries + [];
      var loaded := Load(Read(codec, volume.files, path), script.readFails);
      if loaded.None? {
        return false;
      }
      var wm;
      ghost var asked;
      wm, ok, asked := CollectPages(c, loaded.value, script.replies);
      if ok {
        ok := volume.Replace(codec, path, wm, tmp, script.save);
      }
    }
  }

  /** The query to come for a page, after those for the pages before it. */
  ghost predicate Asks(asked: seq<Option<string>>, replies: seq<Reply>, page: nat, after: Option<string>) {
    |asked| == page <= |replies| && AsksFor(replies, page, after)
  }

  lemma FollowsMore(asked: seq<Option<string>>, replies: seq<Reply>, page: nat, after: Option<string>)
    requires Follows(asked, replies) && Asks(asked, replies, page, after)
    ensures Follows(asked + [after], replies)
    ensures page < |replies| && replies[page].Page? ==>
      Asks(asked + [after], replies, page + 1, replies[page].endCursor)
  {
    var all := asked + [after];
    forall i | 0 <= i < |all|
      ensures i <= |replies| && AsksFor(replies, i, all[i])
    {
      if i < |asked| {
        assert all[i] == asked[i];
      }
    }
  }

  /** What the i-th query asks: for the start, or for what follows the cursor of the reply
      to the query before it. */
  ghost predicate AsksFor(replies: seq<Reply>, i: nat, after: Option<string>)
    requires i <= |replies|
  {
    if i == 0 then after == None else replies[i - 1].Page? && after == replies[i - 1].endCursor
  }

  ghost predicate Follows(asked: seq<Option<string>>, replies: seq<Reply>) {
    |asked| <= |replies| + 1 && forall i :: 0 <= i < |asked| ==> AsksFor(replies, i, asked[i])
  }

  /** What the replies from one page on contribute. */
  lemma FlattenStep(replies: seq<Reply>, page: nat)
    requires page <= |replies|
    ensures Flatten(replies[page..]) ==
      if page == |replies| || replies[page].QueryFails? then Feed([], false)
      else if !replies[page].hasNextPage then Feed(replies[page].edges, true)
      else if replies[page].endCursor.None? || replies[page].endCursor.value == "" then Feed(replies[page].edges, false)
      else
        var rest := Flatten(replies[page + 1..]);
        Feed(replies[page].edges + rest.edges, rest.complete)
  {
    if page < |replies| {
      assert replies[page..][1..] == replies[page + 1..];
    }
  }

  /** What the rest of the replies contributes, seen from the next page. */
  lemma FlattenUnfolds(replies: seq<Reply>, page: nat, done: seq<Edge>)
    requires page <= |replies|
    requires Flatten(replies) == Feed(done + Flatten(replies[page..]).edges, Flatten(replies[page..]).complete)
    ensures page == |replies| || replies[page].QueryFails? ==> Flatten(replies) == Feed(done, false)
    ensures page < |replies| && replies[page].Page? ==>
      var reply := replies[page];
      && done + reply.edges <= Flatten(replies).edges
      && Flatten(replies).edges == done + reply.edges + Flatten(replies).edges[|done + reply.edges|..]
      && if !reply.hasNextPage then Flatten(replies) == Feed(done + reply.edges, true)
         else if reply.endCursor.None? || reply.endCursor.value == "" then
           Flatten(replies) == Feed(done + reply.edges, false)
         else Flatten(replies) == Feed(done + reply.edges + Flatten(replies[page + 1..]).edges,
                                       Flatten(replies[page + 1..]).complete)
  {
    FlattenStep(replies, page);
    assert done + [] == done;
    if page < |replies| && replies[page].Page? && replies[page].hasNextPage {
      Associate(done, replies[page].edges, Flatten(replies[page + 1..]).edges);
    }
  }

  /** The scan after one more row of a page; if that stops it, the page ends there. */
  lemma StepWithin(c: Clock, wm: Watermark, done: seq<Edge>, edges: seq<Edge>, i: nat)
    requires i < |edges|
    ensures ScanEdges(c, wm, done + edges[..i + 1]) == StepEdge(c, wm, ScanEdges(c, wm, done + edges[..i]), edges[i])
    ensures ScanEdges(c, wm, done + edges[..i + 1]).stopped
            ==> ScanEdges(c, wm, done + edges) == ScanEdges(c, wm, done + edges[..i + 1])
  {
    assert done + edges[..i + 1] == done + edges[..i] + [edges[i]];
    ScanSnoc(c, wm, done + edges[..i], edges[i]);
    if ScanEdges(c, wm, done + edges[..i + 1]).stopped {
      StoppedStays(c, wm, done + edges[..i + 1], edges[i + 1..]);
      assert done + edges == done + edges[..i + 1] + edges[i + 1..];
    }
  }
}

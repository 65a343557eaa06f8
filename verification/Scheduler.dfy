/** The scheduler runs one loop per registered collector, all at once.  Every
    interleaving of their steps is a schedule: a sequence of collector numbers,
    each entry letting that collector take its next step.
 */
module Scheduler {
  import opened Basics
  import opened Watermarks
  import opened AtomicFile
  import opened LensCdr
  import opened CdrHistory
  import opened TaggedLogs

  // ----------------------------------------------------------- one collector

  /** Where a collector's loop is: between runs, or part-way through one. */
  datatype Proc =
    | Idle
    | Scanning(wm: Watermark, rest: seq<Edge>, complete: bool, save: Ending, scan: Scan)

  /** A collector's own state: scripts of the runs to come, its position, its file. */
  datatype Local = Local(queue: seq<Script>, proc: Proc, file: CdrFile)

  /** One step, and the logs it sends: load, handle a row, or finish. */
  function Step(c: Clock, l: Local): (Local, seq<Item>) {
    match l.proc
    case Idle =>
      if l.queue == [] then (l, [])
      else
        var script := l.queue[0];
        (match Load(l.file, script.readFails)
         case None => (Local(l.queue[1..], Idle, l.file), [])
         case Some(wm) =>
           var feed := Flatten(script.replies);
           (Local(l.queue[1..], Scanning(wm, feed.edges, feed.complete, script.save, Scan([], false)), l.file), []))
    case Scanning(wm, rest, complete, save, scan) =>
      if rest == [] then
        var file := if complete && Renamed(save) then Stored(AdvanceAll(c, wm, scan.emitted)) else l.file;
        (Local(l.queue, Idle, file), [])
      else
        var next := StepEdge(c, wm, scan, rest[0]);
        var sent := if |next.emitted| > |scan.emitted| then next.emitted[|scan.emitted|..] else [];
        (Local(l.queue, if next.stopped then Idle else Scanning(wm, rest[1..], complete, save, next), l.file), sent)
  }

  /** Any way for a collector to take a step. */
  type Stepper = Local -> (Local, seq<Item>)

  function Stepping(c: Clock): Stepper {
    (l: Local) => Step(c, l)
  }

  /** One more step of a collector, with everything it has sent. */
  function Onward(step: Stepper, a: (Local, seq<Item>)): (Local, seq<Item>) {
    (step(a.0).0, a.1 + step(a.0).1)
  }

  /** A collector left to itself for some steps, with everything it has sent. */
  function Alone(step: Stepper, l: Local, steps: nat): (Local, seq<Item>) {
    if steps == 0 then (l, []) else Onward(step, Alone(step, l, steps - 1))
  }

  /** How many runs have been started. */
  function Started(scripts: seq<Script>, l: Local): int {
    |scripts| - |l.queue|
  }

  /** A collector is where the sequential history of its own runs would be: at the
      end of one, or inside the next with that run's logs so far added. */
  ghost predicate Follows(c: Clock, file: CdrFile, scripts: seq<Script>, l: Local, log: seq<Item>) {
    var m := Started(scripts, l);
    && 0 <= m
    && l.queue == scripts[m..]
    && if l.proc.Idle? then Between(Replay(c, file, scripts[..m]), l, log)
       else m > 0 && Inside(c, Replay(c, file, scripts[..m - 1]), scripts[m - 1], l, log)
  }

  ghost predicate Between(h: History, l: Local, log: seq<Item>) {
    l.file == h.file && log == h.log
  }

  ghost predicate Inside(c: Clock, h: History, script: Script, l: Local, log: seq<Item>)
    requires l.proc.Scanning?
  {
    l.file == h.file && log == h.log + l.proc.scan.emitted && Midway(c, h.file, script, l.proc)
  }

  /** A position inside a run agrees with the scan of the rows read so far. */
  ghost predicate Midway(c: Clock, file: CdrFile, script: Script, p: Proc)
    requires p.Scanning?
  {
    var feed := Flatten(script.replies);
    && Load(file, script.readFails) == Some(p.wm)
    && p.complete == feed.complete && p.save == script.save
    && |p.rest| <= |feed.edges|
    && p.rest == feed.edges[|feed.edges| - |p.rest|..]
    && p.scan == ScanEdges(c, p.wm, feed.edges[..|feed.edges| - |p.rest|])
    && !p.scan.stopped
  }

  lemma StepEdgeExtends(c: Clock, wm: Watermark, s: Scan, edge: Edge)
    ensures s.emitted <= StepEdge(c, wm, s, edge).emitted
  {
  }

  lemma MidwayRow(c: Clock, file: CdrFile, script: Script, p: Proc)
    requires p.Scanning? && p.rest != []
    requires Midway(c, file, script, p)
    ensures
      var next := StepEdge(c, p.wm, p.scan, p.rest[0]);
      if next.stopped then Run(c, file, script) == Outcome(next.emitted, file, false)
      else Midway(c, file, script, p.(rest := p.rest[1..], scan := next))
  {
    var edges := Flatten(script.replies).edges;
    var n := |edges| - |p.rest|;
    assert p.rest[0] == edges[n] && p.rest[1..] == edges[n + 1..];
    ScanRow(c, p.wm, edges, n);
  }

  /** Starting a run from the end of the previous one. */
  lemma StartsRun(c: Clock, h: History, l: Local, log: seq<Item>)
    requires l.proc.Idle? && l.queue != [] && Between(h, l, log)
    ensures
      var (l', sent) := Step(c, l);
      && sent == [] && l'.queue == l.queue[1..]
      && if l'.proc.Idle? then Between(After(h, Run(c, h.file, l.queue[0])), l', log)
         else Inside(c, h, l.queue[0], l', log)
  {
    var edges := Flatten(l.queue[0].replies).edges;
    assert edges[..0] == [] && edges[0..] == edges;
    assert log + [] == log;
  }

  /** What a run comes to, once its rows have all been read undisturbed. */
  lemma RunFromScan(c: Clock, file: CdrFile, script: Script, p: Proc)
    requires p.Scanning? && p.rest == [] && Midway(c, file, script, p)
    ensures Run(c, file, script) ==
      if p.complete && Renamed(p.save) then Outcome(p.scan.emitted, Stored(AdvanceAll(c, p.wm, p.scan.emitted)), true)
      else Outcome(p.scan.emitted, file, false)
  {
    var edges := Flatten(script.replies).edges;
    assert edges[..|edges|] == edges;
  }

  /** Ending a run whose rows have all been read. */
  lemma FinishesRun(c: Clock, h: History, script: Script, l: Local, log: seq<Item>)
    requires l.proc.Scanning? && l.proc.rest == [] && Inside(c, h, script, l, log)
    ensures
      var (l', sent) := Step(c, l);
      l'.queue == l.queue && l'.proc.Idle? && Between(After(h, Run(c, h.file, script)), l', log + sent)
  {
    RunFromScan(c, h.file, script, l.proc);
    assert log + [] == log;
  }

  /** Continuing a run by a row. */
  lemma HandlesRow(c: Clock, h: History, script: Script, l: Local, log: seq<Item>)
    requires l.proc.Scanning? && l.proc.rest != [] && Inside(c, h, script, l, log)
    ensures
      var (l', sent) := Step(c, l);
      && l'.queue == l.queue
      && if l'.proc.Idle? then Between(After(h, Run(c, h.file, script)), l', log + sent)
         else Inside(c, h, script, l', log + sent)
  {
    var p := l.proc;
    MidwayRow(c, h.file, script, p);
    StepOfRow(c, l);
    Associate(h.log, p.scan.emitted, Step(c, l).1);
  }

  /** The step that handles a row sends what the scan then has more. */
  lemma StepOfRow(c: Clock, l: Local)
    requires l.proc.Scanning? && l.proc.rest != []
    ensures
      var p, (l', sent) := l.proc, Step(c, l);
      var next := StepEdge(c, p.wm, p.scan, p.rest[0]);
      && next.emitted == p.scan.emitted + sent
      && l' == l.(proc := if next.stopped then Idle else p.(rest := p.rest[1..], scan := next))
  {
    StepEdgeExtends(c, l.proc.wm, l.proc.scan, l.proc.rest[0]);
  }

  lemma ReplayNext(c: Clock, file: CdrFile, scripts: seq<Script>, m: nat)
    requires m < |scripts|
    ensures Replay(c, file, scripts[..m + 1])
         == After(Replay(c, file, scripts[..m]), Run(c, Replay(c, file, scripts[..m]).file, scripts[m]))
  {
    assert scripts[..m + 1] == scripts[..m] + [scripts[m]];
    ReplaySnoc(c, file, scripts[..m], scripts[m]);
  }

  lemma StartFollows(c: Clock, file: CdrFile, scripts: seq<Script>, l: Local, log: seq<Item>)
    requires Follows(c, file, scripts, l, log) && l.proc.Idle? && l.queue != []
    ensures Follows(c, file, scripts, Step(c, l).0, log) && Step(c, l).1 == []
  {
    var m := Started(scripts, l);
    StartsRun(c, Replay(c, file, scripts[..m]), l, log);
    ReplayNext(c, file, scripts, m);
  }

  lemma FinishFollows(c: Clock, file: CdrFile, scripts: seq<Script>, l: Local, log: seq<Item>)
    requires Follows(c, file, scripts, l, log) && l.proc.Scanning? && l.proc.rest == []
    ensures Follows(c, file, scripts, Step(c, l).0, log + Step(c, l).1)
  {
    var m := Started(scripts, l);
    FinishesRun(c, Replay(c, file, scripts[..m - 1]), scripts[m - 1], l, log);
    ReplayNext(c, file, scripts, m - 1);
  }

  lemma RowFollows(c: Clock, file: CdrFile, scripts: seq<Script>, l: Local, log: seq<Item>)
    requires Follows(c, file, scripts, l, log) && l.proc.Scanning? && l.proc.rest != []
    ensures Follows(c, file, scripts, Step(c, l).0, log + Step(c, l).1)
  {
    var m := Started(scripts, l);
    HandlesRow(c, Replay(c, file, scripts[..m - 1]), scripts[m - 1], l, log);
    ReplayNext(c, file, scripts, m - 1);
  }

  lemma StepFollows(c: Clock, file: CdrFile, scripts: seq<Script>, l: Local, log: seq<Item>)
    requires Follows(c, file, scripts, l, log)
    ensures Follows(c, file, scripts, Step(c, l).0, log + Step(c, l).1)
  {
    assert log + [] == log;
    if l.proc.Scanning? && l.proc.rest == [] {
      FinishFollows(c, file, scripts, l, log);
    } else if l.proc.Scanning? {
      RowFollows(c, file, scripts, l, log);
    } else if l.queue != [] {
      StartFollows(c, file, scripts, l, log);
    }
  }

  ghost predicate Accompanies(c: Clock, file: CdrFile, scripts: seq<Script>, a: (Local, seq<Item>)) {
    Follows(c, file, scripts, a.0, a.1)
  }

  lemma {:induction false} AloneFollows(c: Clock, file: CdrFile, scripts: seq<Script>, steps: nat)
    ensures
      Accompanies(c, file, scripts, Alone(Stepping(c), Local(scripts, Idle, file), steps))
  {
    if steps == 0 {
      assert scripts[..0] == [];
    } else {
      AloneFollows(c, file, scripts, steps - 1);
      OnwardFollows(c, file, scripts, Alone(Stepping(c), Local(scripts, Idle, file), steps - 1));
    }
  }

  lemma OnwardFollows(c: Clock, file: CdrFile, scripts: seq<Script>, a: (Local, seq<Item>))
    requires Accompanies(c, file, scripts, a)
    ensures Accompanies(c, file, scripts, Onward(Stepping(c), a))
  {
    StepFollows(c, file, scripts, a.0, a.1);
  }

  // ------------------------------------------------------------ all collectors

  /** The whole process: queues and positions per collector, one disk, one log. */
  datatype Global = Global(queues: seq<seq<Script>>, procs: seq<Proc>, disk: map<string, CdrFile>, log: seq<Sent<Item>>)

  /** The registered collectors: the tenant of each and the path of its file. */
  datatype Registry = Registry(tenants: seq<string>, path: string -> string)

  /** Two collectors keep their watermark in the same file. */
  predicate Shares(r: Registry, i: nat, j: nat) {
    i < |r.tenants| && j < |r.tenants| && i != j && r.path(r.tenants[i]) == r.path(r.tenants[j])
  }

  ghost predicate KeepsApart(r: Registry) {
    forall i, j :: !Shares(r, i, j)
  }

  /** Where tenants have files of their own, keeping apart is naming no tenant twice. */
  lemma KeepsApartIffDistinct(r: Registry)
    requires Injective(r.path)
    ensures KeepsApart(r) <==> DistinctTenants(r)
  {
    forall i, j | 0 <= i < j < |r.tenants|
      ensures Shares(r, i, j) <==> r.tenants[i] == r.tenants[j]
    {
    }
    assert forall i, j :: Shares(r, i, j) ==> Shares(r, j, i);
  }

  ghost predicate Injective(path: string -> string) {
    forall s, t :: path(s) == path(t) ==> s == t
  }

  ghost predicate DistinctTenants(r: Registry) {
    forall i, j :: 0 <= i < j < |r.tenants| ==> r.tenants[i] != r.tenants[j]
  }

  ghost predicate Fits(r: Registry, g: Global) {
    |g.queues| == |g.procs| == |r.tenants|
  }

  /** Every turn of a schedule goes to a registered collector. */
  ghost predicate Names(r: Registry, schedule: seq<nat>) {
    forall n :: 0 <= n < |schedule| ==> schedule[n] < |r.tenants|
  }

  function View(r: Registry, g: Global, i: nat): Local
    requires Fits(r, g) && i < |r.tenants|
  {
    Local(g.queues[i], g.procs[i], FileAt(g.disk, r.path(r.tenants[i])))
  }

  function GlobalStep(step: Stepper, r: Registry, g: Global, i: nat): (g': Global)
    requires Fits(r, g) && i < |r.tenants|
    ensures Fits(r, g')
  {
    var (l, sent) := step(View(r, g, i));
    Global(g.queues[i := l.queue], g.procs[i := l.proc], g.disk[r.path(r.tenants[i]) := l.file], g.log + Tag(i, sent))
  }

  function Interleave(step: Stepper, r: Registry, g: Global, schedule: seq<nat>): (g': Global)
    requires Fits(r, g) && Names(r, schedule)
    ensures Fits(r, g')
  {
    if schedule == [] then g
    else GlobalStep(step, r, Interleave(step, r, g, schedule[..|schedule| - 1]), schedule[|schedule| - 1])
  }

  function Turns(i: nat, schedule: seq<nat>): nat {
    if schedule == [] then 0
    else Turns(i, schedule[..|schedule| - 1]) + (if schedule[|schedule| - 1] == i then 1 else 0)
  }

  /** A step moves only its own collector. */
  lemma StepIsPrivate(step: Stepper, r: Registry, g: Global, i: nat, j: nat)
    requires Fits(r, g) && KeepsApart(r) && i < |r.tenants| && j < |r.tenants|
    ensures
      var g' := GlobalStep(step, r, g, j);
      if i == j then
        && View(r, g', i) == step(View(r, g, i)).0
        && LogOf(i, g'.log) == LogOf(i, g.log) + step(View(r, g, i)).1
      else View(r, g', i) == View(r, g, i) && LogOf(i, g'.log) == LogOf(i, g.log)
  {
    LogOfMore(i, j, g.log, step(View(r, g, j)).1);
    if i != j {
      assert !Shares(r, i, j);
    }
  }

  /** A collector's state and logs are those of a solitary run, after some earlier logs. */
  ghost predicate Agrees(r: Registry, g: Global, i: nat, earlier: seq<Item>, a: (Local, seq<Item>))
    requires Fits(r, g) && i < |r.tenants|
  {
    View(r, g, i) == a.0 && LogOf(i, g.log) == earlier + a.1
  }

  /** For every interleaving, each collector is where it would be had it taken its
      turns alone. */
  lemma {:induction false} NoInterference(step: Stepper, r: Registry, g: Global, schedule: seq<nat>, i: nat)
    requires Fits(r, g) && KeepsApart(r) && i < |r.tenants|
    requires Names(r, schedule)
    ensures Agrees(r, Interleave(step, r, g, schedule), i, LogOf(i, g.log),
                   Alone(step, View(r, g, i), Turns(i, schedule)))
  {
    if schedule == [] {
      assert LogOf(i, g.log) + [] == LogOf(i, g.log);
    } else {
      var n := |schedule| - 1;
      NoInterference(step, r, g, schedule[..n], i);
      OneMoreScheduled(step, r, g, schedule[..n], schedule[n], i);
      assert schedule == schedule[..n] + [schedule[n]];
    }
  }

  lemma OneMoreScheduled(step: Stepper, r: Registry, g: Global, schedule: seq<nat>, j: nat, i: nat)
    requires Fits(r, g) && KeepsApart(r) && i < |r.tenants| && j < |r.tenants| && Names(r, schedule)
    requires Agrees(r, Interleave(step, r, g, schedule), i, LogOf(i, g.log),
                    Alone(step, View(r, g, i), Turns(i, schedule)))
    ensures Names(r, schedule + [j])
    ensures Agrees(r, Interleave(step, r, g, schedule + [j]), i, LogOf(i, g.log),
                   Alone(step, View(r, g, i), Turns(i, schedule + [j])))
  {
    InterleaveSnoc(step, r, g, schedule, j);
    AloneSnoc(step, View(r, g, i), i, schedule, j);
    OneMoreTurn(step, r, Interleave(step, r, g, schedule), i, j, LogOf(i, g.log),
                Alone(step, View(r, g, i), Turns(i, schedule)));
  }

  lemma AloneSnoc(step: Stepper, l: Local, i: nat, schedule: seq<nat>, j: nat)
    ensures
      var a := Alone(step, l, Turns(i, schedule));
      Alone(step, l, Turns(i, schedule + [j])) == if i == j then Onward(step, a) else a
  {
    assert (schedule + [j])[..|schedule|] == schedule;
  }

  /** One turn, seen from a collector that agreed with its solitary run so far. */
  lemma OneMoreTurn(step: Stepper, r: Registry, g: Global, i: nat, j: nat, earlier: seq<Item>, a: (Local, seq<Item>))
    requires Fits(r, g) && KeepsApart(r) && i < |r.tenants| && j < |r.tenants|
    requires Agrees(r, g, i, earlier, a)
    ensures Agrees(r, GlobalStep(step, r, g, j), i, earlier, if i == j then Onward(step, a) else a)
  {
    StepIsPrivate(step, r, g, i, j);
    Associate(earlier, a.1, step(a.0).1);
  }

  /** A process that has just started: nothing sent, every collector between runs. */
  ghost predicate Fresh(r: Registry, g: Global) {
    Fits(r, g) && g.log == [] && forall i :: 0 <= i < |r.tenants| ==> g.procs[i] == Idle
  }

  /** The runs of collector i that have been started and ended. */
  function Ended(scripts: seq<Script>, l: Local): seq<Script>
    requires 0 <= Started(scripts, l) - (if l.proc.Idle? then 0 else 1)
  {
    scripts[..Started(scripts, l) - (if l.proc.Idle? then 0 else 1)]
  }

  /** A collector's logs and file are those of one sequential history of its own runs. */
  ghost predicate IsSequential(c: Clock, r: Registry, g: Global, schedule: seq<nat>, i: nat)
    requires Fresh(r, g) && Names(r, schedule) && i < |r.tenants|
  {
    var g' := Interleave(Stepping(c), r, g, schedule);
    Follows(c, FileAt(g.disk, r.path(r.tenants[i])), g.queues[i], View(r, g', i), LogOf(i, g'.log))
  }

  lemma EachTenantIsSequential(c: Clock, r: Registry, g: Global, schedule: seq<nat>, i: nat)
    requires Fresh(r, g) && KeepsApart(r) && i < |r.tenants|
    requires Names(r, schedule)
    ensures IsSequential(c, r, g, schedule, i)
  {
    var file, turns := FileAt(g.disk, r.path(r.tenants[i])), Turns(i, schedule);
    NoInterference(Stepping(c), r, g, schedule, i);
    AloneFollows(c, file, g.queues[i], turns);
    var a := Alone(Stepping(c), Local(g.queues[i], Idle, file), turns);
    assert View(r, g, i) == Local(g.queues[i], Idle, file);
    AgreesIsSequential(c, r, g, Interleave(Stepping(c), r, g, schedule), i, a);
  }

  lemma AgreesIsSequential(c: Clock, r: Registry, g: Global, g': Global, i: nat, a: (Local, seq<Item>))
    requires Fresh(r, g) && Fits(r, g') && i < |r.tenants|
    requires Agrees(r, g', i, LogOf(i, g.log), a)
    requires Accompanies(c, FileAt(g.disk, r.path(r.tenants[i])), g.queues[i], a)
    ensures Follows(c, FileAt(g.disk, r.path(r.tenants[i])), g.queues[i], View(r, g', i), LogOf(i, g'.log))
  {
    assert LogOf(i, g.log) + a.1 == a.1;
  }

  // ------------------------------------------------------------------ progress

  /** How many turns some runs take at most: one to load, one per row, one to finish. */
  function WorkOf(scripts: seq<Script>): nat {
    if scripts == [] then 0 else |Flatten(scripts[0].replies).edges| + 2 + WorkOf(scripts[1..])
  }

  function Work(l: Local): nat {
    WorkOf(l.queue) + if l.proc.Idle? then 0 else |l.proc.rest| + 1
  }

  /** A turn leaves no work, or less than there was. */
  lemma StepWorks(c: Clock, l: Local)
    ensures Work(Step(c, l).0) == 0 || Work(Step(c, l).0) < Work(l)
  {
  }

  lemma NoWorkLeft(l: Local)
    ensures Work(l) == 0 <==> l.queue == [] && l.proc.Idle?
  {
  }

  ghost predicate GetsOn(step: Stepper) {
    forall l :: Work(step(l).0) == 0 || Work(step(l).0) < Work(l)
  }

  lemma SteppingGetsOn(c: Clock)
    ensures GetsOn(Stepping(c))
  {
    forall l
      ensures Work(Stepping(c)(l).0) == 0 || Work(Stepping(c)(l).0) < Work(l)
    {
      StepWorks(c, l);
    }
  }

  lemma {:induction false} AloneWorks(step: Stepper, l: Local, steps: nat)
    requires GetsOn(step)
    ensures
      var left := Work(Alone(step, l, steps).0);
      left == 0 || left + steps <= Work(l)
  {
    if steps > 0 {
      AloneWorks(step, l, steps - 1);
      var a := Alone(step, l, steps - 1).0;
      assert Work(step(a).0) == 0 || Work(step(a).0) < Work(a);
    }
  }

  /** Given turns enough, each collector has ended all of its runs, and its file and logs
      are those of all of them in sequence. */
  lemma EachTenantFinishes(c: Clock, r: Registry, g: Global, schedule: seq<nat>, i: nat)
    requires Fresh(r, g) && KeepsApart(r) && i < |r.tenants| && Names(r, schedule)
    requires Turns(i, schedule) >= WorkOf(g.queues[i])
    ensures
      var g' := Interleave(Stepping(c), r, g, schedule);
      var h := Replay(c, FileAt(g.disk, r.path(r.tenants[i])), g.queues[i]);
      View(r, g', i) == Local([], Idle, h.file) && LogOf(i, g'.log) == h.log
  {
    var l := View(r, g, i);
    NoInterference(Stepping(c), r, g, schedule, i);
    SteppingGetsOn(c);
    AloneWorks(Stepping(c), l, Turns(i, schedule));
    NoWorkLeft(Alone(Stepping(c), l, Turns(i, schedule)).0);
    EachTenantIsSequential(c, r, g, schedule, i);
    AllEnded(c, FileAt(g.disk, r.path(r.tenants[i])), g.queues[i], View(r, Interleave(Stepping(c), r, g, schedule), i),
             LogOf(i, Interleave(Stepping(c), r, g, schedule).log));
  }

  lemma AllEnded(c: Clock, file: CdrFile, scripts: seq<Script>, l: Local, log: seq<Item>)
    requires Follows(c, file, scripts, l, log) && l.queue == [] && l.proc.Idle?
    ensures l.file == Replay(c, file, scripts).file && log == Replay(c, file, scripts).log
  {
    assert scripts[..|scripts|] == scripts;
  }

  /** A run under way adds at most one log of a key, and only if it is not barred. */
  lemma InsideIsBounded(c: Clock, h: History, script: Script, l: Local, log: seq<Item>, k: string)
    requires NulFree(c) && AllKeepUp(c, Offered(c, script))
    requires l.proc.Scanning? && Inside(c, h, script, l, log)
    ensures Count(k, log) <= Count(k, h.log) + (if BarredBy(c, h.file, k) then 0 else 1)
  {
    var edges := Flatten(script.replies).edges;
    var read := |edges| - |l.proc.rest|;
    ItemsOfPrefix(c, edges, read);
    ScanFromFile(c, h.file, script.readFails, edges[..read], k);
    CountConcat(k, h.log, l.proc.scan.emitted);
  }

  /** The duplication bound inside or between the runs of one collector. */
  lemma FollowerIsBounded(c: Clock, file: CdrFile, scripts: seq<Script>, l: Local, log: seq<Item>, k: string)
    requires KeptUp(c, scripts)
    requires Follows(c, file, scripts, l, log)
    ensures Count(k, log) <= 1 + Replay(c, file, Ended(scripts, l)).unsaved
  {
    BoundedDuplication(c, file, Ended(scripts, l), k);
    if l.proc.Scanning? {
      var script := scripts[Started(scripts, l) - 1];
      assert script in scripts;
      InsideIsBounded(c, Replay(c, file, Ended(scripts, l)), script, l, log, k);
    }
  }

  /** The duplication bound holds at every moment of every interleaving. */
  lemma BoundedDuplicationConcurrently(c: Clock, r: Registry, g: Global, schedule: seq<nat>, i: nat, k: string)
    requires Fresh(r, g) && KeepsApart(r) && i < |r.tenants|
    requires KeptUp(c, g.queues[i])
    requires Names(r, schedule)
    ensures
      var g' := Interleave(Stepping(c), r, g, schedule);
      var l := View(r, g', i);
      && 0 <= Started(g.queues[i], l) - (if l.proc.Idle? then 0 else 1)
      && Count(k, LogOf(i, g'.log))
         <= 1 + Replay(c, FileAt(g.disk, r.path(r.tenants[i])), Ended(g.queues[i], l)).unsaved
  {
    EachTenantIsSequential(c, r, g, schedule, i);
    var g' := Interleave(Stepping(c), r, g, schedule);
    FollowerIsBounded(c, FileAt(g.disk, r.path(r.tenants[i])), g.queues[i], View(r, g', i), LogOf(i, g'.log), k);
  }

  // ---------------------------------------------------------- a file that is shared

  /** A fresh process in which every collector has the same one run to do. */
  function Everyone(r: Registry, script: Script): Global {
    Global(seq(|r.tenants|, _ => [script]), seq(|r.tenants|, _ => Idle), map[], [])
  }

  /** A step of one of two collectors that share a file: the other sees the file it leaves. */
  lemma SharedStep(step: Stepper, r: Registry, g: Global, i: nat, j: nat)
    requires Fits(r, g) && Shares(r, i, j)
    ensures
      var g' := GlobalStep(step, r, g, i);
      var (l, sent) := step(View(r, g, i));
      && View(r, g', i) == l
      && View(r, g', j) == View(r, g, j).(file := l.file)
      && g'.log == g.log + Tag(i, sent)
  {
  }

  /** Where a schedule leads: the two collectors' own states, and everything sent. */
  ghost predicate Leads(step: Stepper, r: Registry, g: Global, schedule: seq<nat>, i: nat, j: nat, a: Local, b: Local,
                        log: seq<Sent<Item>>) {
    && Fits(r, g) && Names(r, schedule) && Shares(r, i, j)
    && var g' := Interleave(step, r, g, schedule);
       View(r, g', i) == a && View(r, g', j) == b && g'.log == log
  }

  /** One more turn, of the first of two collectors that share a file. */
  lemma Turn(step: Stepper, r: Registry, g: Global, schedule: seq<nat>, i: nat, j: nat, a: Local, b: Local,
             log: seq<Sent<Item>>)
    requires Leads(step, r, g, schedule, i, j, a, b, log)
    ensures
      var (l, sent) := step(a);
      && Leads(step, r, g, schedule + [i], i, j, l, b.(file := l.file), log + Tag(i, sent))
      && Leads(step, r, g, schedule + [i], j, i, b.(file := l.file), l, log + Tag(i, sent))
  {
    InterleaveSnoc(step, r, g, schedule, i);
    SharedStep(step, r, Interleave(step, r, g, schedule), i, j);
  }

  lemma BothReady(step: Stepper, r: Registry, i: nat, j: nat, script: Script)
    requires Shares(r, i, j)
    ensures
      var g, ready := Everyone(r, script), Local([script], Idle, Missing);
      Fresh(r, g) && Leads(step, r, g, [], i, j, ready, ready, [])
  {
  }

  /** The states of a collector with one run of one row to do: ready, loaded, with the
      row logged, and done. */
  function Ready(row: Row): Local {
    Local([OneRow(row, true)], Idle, Missing)
  }

  function Loaded(row: Row): Local {
    Local([], Scanning(EMPTY, [Edge(row, Accepted)], true, Completes, Scan([], false)), Missing)
  }

  function Logged(x: Item, file: CdrFile): Local {
    Local([], Scanning(EMPTY, [], true, Completes, Scan([x], false)), file)
  }

  function Done(c: Clock, x: Item): Local {
    Local([], Idle, Stored(Watermark(c.format(x.start), [x.key])))
  }

  /** A turn in which the missing file is loaded. */
  lemma LoadsFile(c: Clock, r: Registry, g: Global, schedule: seq<nat>, i: nat, j: nat, b: Local, row: Row)
    requires b.file == Missing && Leads(Stepping(c), r, g, schedule, i, j, Ready(row), b, [])
    ensures Leads(Stepping(c), r, g, schedule + [i], j, i, b, Loaded(row), [])
  {
    LoadStep(c, row);
    Turn(Stepping(c), r, g, schedule, i, j, Ready(row), b, []);
  }

  /** A turn in which the row is logged. */
  lemma LogsRow(c: Clock, r: Registry, g: Global, schedule: seq<nat>, i: nat, j: nat, b: Local, log: seq<Sent<Item>>,
                row: Row, x: Item)
    requires ItemOf(c, row) == Some(x) && b.file == Missing
    requires Leads(Stepping(c), r, g, schedule, i, j, Loaded(row), b, log)
    ensures Leads(Stepping(c), r, g, schedule + [i], j, i, b, Logged(x, Missing), log + [Sent(i, x)])
  {
    RowStep(c, row, x);
    TagOne(i, x);
    Turn(Stepping(c), r, g, schedule, i, j, Loaded(row), b, log);
  }

  /** A turn in which the run is saved, whatever the file holds by then. */
  lemma SavesRun(c: Clock, r: Registry, g: Global, schedule: seq<nat>, i: nat, j: nat, file: CdrFile, b: Local,
                 log: seq<Sent<Item>>, x: Item)
    requires Leads(Stepping(c), r, g, schedule, i, j, Logged(x, file), b, log)
    ensures Leads(Stepping(c), r, g, schedule + [i], j, i, b.(file := Done(c, x).file), Done(c, x), log)
  {
    SaveStep(c, x, file);
    Turn(Stepping(c), r, g, schedule, i, j, Logged(x, file), b, log);
  }

  /** Both collectors load the missing file, each logs the row, and the first saves,
      under the second. */
  lemma FirstSaves(c: Clock, r: Registry, i: nat, j: nat, row: Row, x: Item)
    requires Shares(r, i, j) && ItemOf(c, row) == Some(x)
    ensures
      var g := Everyone(r, OneRow(row, true));
      && Fresh(r, g)
      && Leads(Stepping(c), r, g, [] + [i] + [j] + [i] + [j] + [i], j, i,
               Logged(x, Done(c, x).file), Done(c, x), [] + [Sent(i, x)] + [Sent(j, x)])
  {
    var g := Everyone(r, OneRow(row, true));
    BothReady(Stepping(c), r, i, j, OneRow(row, true));
    LoadsFile(c, r, g, [], i, j, Ready(row), row);
    LoadsFile(c, r, g, [] + [i], j, i, Loaded(row), row);
    LogsRow(c, r, g, [] + [i] + [j], i, j, Loaded(row), [], row, x);
    LogsRow(c, r, g, [] + [i] + [j] + [i], j, i, Logged(x, Missing), [] + [Sent(i, x)], row, x);
    SavesRun(c, r, g, [] + [i] + [j] + [i] + [j], i, j, Missing, Logged(x, Missing), [] + [Sent(i, x)] + [Sent(j, x)],
             x);
  }

  /** Two collectors that share a file, whatever else is registered: with both runs
      saved the same row is logged twice. */
  lemma SharedFileDuplicates(c: Clock, r: Registry, i: nat, j: nat, row: Row)
    requires Shares(r, i, j) && ItemOf(c, row).Some?
    ensures
      var g := Everyone(r, OneRow(row, true));
      var x := ItemOf(c, row).value;
      Fresh(r, g) && Leads(Stepping(c), r, g, [i, j, i, j, i, j], i, j, Done(c, x), Done(c, x),
                           [Sent(i, x), Sent(j, x)])
  {
    var g := Everyone(r, OneRow(row, true));
    var x := ItemOf(c, row).value;
    FirstSaves(c, r, i, j, row, x);
    SavesRun(c, r, g, [] + [i] + [j] + [i] + [j] + [i], j, i, Done(c, x).file, Done(c, x),
             [] + [Sent(i, x)] + [Sent(j, x)], x);
    assert [] + [i] + [j] + [i] + [j] + [i] + [j] == [i, j, i, j, i, j];
    assert [] + [Sent(i, x)] + [Sent(j, x)] == [Sent(i, x), Sent(j, x)];
  }

  /** Before the second saves, it is inside a run over a file that has changed under it. */
  lemma NotSequential(c: Clock, r: Registry, i: nat, j: nat, row: Row)
    requires Shares(r, i, j) && ItemOf(c, row).Some?
    ensures
      var g, schedule := Everyone(r, OneRow(row, true)), [] + [i] + [j] + [i] + [j] + [i];
      Fresh(r, g) && Names(r, schedule) && !IsSequential(c, r, g, schedule, j)
  {
    FirstSaves(c, r, i, j, row, ItemOf(c, row).value);
  }

  /** Every collector is sequential in every process over a registry. */
  ghost predicate AlwaysSequential(c: Clock, r: Registry) {
    forall g: Global, schedule: seq<nat>, i: nat ::
      Fresh(r, g) && Names(r, schedule) && i < |r.tenants| ==> IsSequential(c, r, g, schedule, i)
  }

  lemma ApartIsSequential(c: Clock, r: Registry)
    requires KeepsApart(r)
    ensures AlwaysSequential(c, r)
  {
    forall g: Global, schedule: seq<nat>, i: nat | Fresh(r, g) && Names(r, schedule) && i < |r.tenants|
      ensures IsSequential(c, r, g, schedule, i)
    {
      EachTenantIsSequential(c, r, g, schedule, i);
    }
  }

  /** Collectors run as if alone, whatever they are given and however they are
      interleaved, if and only if no two of them share a file: with a path per
      tenant, if and only if no tenant is configured twice. */
  lemma SequentialIffApart(c: Clock, r: Registry, row: Row)
    requires ItemOf(c, row).Some?
    ensures AlwaysSequential(c, r) <==> KeepsApart(r)
    ensures Injective(r.path) ==> (AlwaysSequential(c, r) <==> DistinctTenants(r))
  {
    if Injective(r.path) {
      KeepsApartIffDistinct(r);
    }
    if KeepsApart(r) {
      ApartIsSequential(c, r);
    } else {
      var i, j :| Shares(r, i, j);
      NotSequential(c, r, i, j, row);
    }
  }

  lemma LoadStep(c: Clock, row: Row)
    ensures Step(c, Ready(row)) == (Loaded(row), [])
  {
    assert [OneRow(row, true)][1..] == [];
  }

  lemma RowStep(c: Clock, row: Row, x: Item)
    requires ItemOf(c, row) == Some(x)
    ensures Step(c, Loaded(row)) == (Logged(x, Missing), [x])
  {
    var next := StepEdge(c, EMPTY, Scan([], false), Edge(row, Accepted));
    assert next == Scan([x], false) && next.emitted[0..] == [x];
    assert [Edge(row, Accepted)][1..] == [];
  }

  lemma SaveStep(c: Clock, x: Item, file: CdrFile)
    ensures Step(c, Logged(x, file)) == (Done(c, x), [])
  {
    assert [] + [x] == [x];
    TakeItem(c, EMPTY, [], x);
  }

  lemma InterleaveSnoc(step: Stepper, r: Registry, g: Global, schedule: seq<nat>, i: nat)
    requires Fits(r, g) && Names(r, schedule + [i]) && Names(r, schedule)
    ensures Interleave(step, r, g, schedule + [i]) == GlobalStep(step, r, Interleave(step, r, g, schedule), i)
  {
    assert (schedule + [i])[|schedule|] == i;
    assert (schedule + [i])[..|schedule|] == schedule;
  }
}

/** One call-log run goes through all phones in turn and ends at the first error.
    Each phone has a file of its own. */
module PhoneFleet {
  import opened Basics
  import opened Watermarks
  import opened AtomicFile
  import opened CallLogs
  import opened CallLogHistory
  import opened TaggedLogs

  datatype Phone = Phone(deviceId: string, path: string)

  type Disk = map<string, PhoneFile>

  /** Where a run stands: the disk, what it has logged, and whether it goes on. */
  datatype Round = Round(disk: Disk, log: seq<Sent<Call>>, goesOn: bool)

  /** What a phone's turn comes to, from what its file holds. */
  type Turn = (Phone, PhoneFile, Script) -> Outcome

  function CallLogTurn(c: Clock, wall: Layout, persists: bool): Turn {
    (phone: Phone, file: PhoneFile, script: Script) => Run(c, wall, phone.deviceId, persists, file, script)
  }

  /** One phone's turn by itself. */
  function OwnTurn(turn: Turn, phone: Phone, disk: Disk, script: Script): Outcome {
    turn(phone, FileAt(disk, phone.path), script)
  }

  function TakeTurn(r: Round, i: nat, path: string, o: Outcome): Round {
    Round(r.disk[path := o.file], r.log + Tag(i, o.calls), o.goesOn)
  }

  /** The run after the turns of the first n phones. */
  function Turns(turn: Turn, phones: seq<Phone>, disk: Disk, scripts: seq<Script>, n: nat): Round
    requires n <= |phones| == |scripts|
  {
    if n == 0 then Round(disk, [], true)
    else
      var r := Turns(turn, phones, disk, scripts, n - 1);
      if !r.goesOn then r
      else TakeTurn(r, n - 1, phones[n - 1].path, OwnTurn(turn, phones[n - 1], r.disk, scripts[n - 1]))
  }

  /** A run that has ended takes no more turns. */
  lemma {:induction false} TurnsEnd(turn: Turn, phones: seq<Phone>, disk: Disk, scripts: seq<Script>, i: nat, n: nat)
    requires i <= n <= |phones| == |scripts|
    requires i == n || !Turns(turn, phones, disk, scripts, i).goesOn
    ensures Turns(turn, phones, disk, scripts, n) == Turns(turn, phones, disk, scripts, i)
  {
    if i < n {
      TurnsEnd(turn, phones, disk, scripts, i, n - 1);
    }
  }

  ghost predicate OwnFiles(phones: seq<Phone>) {
    forall i, j :: 0 <= i < j < |phones| ==> phones[i].path != phones[j].path
  }

  // --------------------------------------------------------------- each phone alone

  /** No phone before this one ends the run, each judged by its own file and script. */
  ghost predicate Reached(turn: Turn, phones: seq<Phone>, disk: Disk, scripts: seq<Script>, i: nat)
    requires i <= |phones| == |scripts|
  {
    forall j :: 0 <= j < i ==> OwnTurn(turn, phones[j], disk, scripts[j]).goesOn
  }

  /** What a phone has of a run after some turns: all of its own, or nothing. */
  ghost predicate Stands(r: Round, disk: Disk, phone: Phone, i: nat, o: Outcome, taken: bool) {
    if taken then FileAt(r.disk, phone.path) == o.file && LogOf(i, r.log) == o.calls
    else FileAt(r.disk, phone.path) == FileAt(disk, phone.path) && LogOf(i, r.log) == []
  }

  /** One more turn, seen from any phone, given what each phone's own turn comes to. */
  lemma TurnStands(r: Round, disk: Disk, phones: seq<Phone>, i: nat, m: nat, own: Outcome, o: Outcome, reached: bool)
    requires i < |phones| && m < |phones| && OwnFiles(phones)
    requires Stands(r, disk, phones[i], i, own, i < m && reached)
    requires i == m ==> own == o && reached
    ensures Stands(TakeTurn(r, m, phones[m].path, o), disk, phones[i], i, own, i < m + 1 && reached)
  {
    LogOfMore(i, m, r.log, o.calls);
    assert [] + o.calls == o.calls;
  }

  /** Whatever the others do, a phone that is reached has the turn it would have had
      alone, and one behind an error has none: its file is left and nothing logged. */
  lemma {:induction false} PhonesAreIndependent(turn: Turn, phones: seq<Phone>, disk: Disk, scripts: seq<Script>,
                                                n: nat, i: nat)
    requires n <= |phones| == |scripts| && i < |phones| && OwnFiles(phones)
    ensures
      var r := Turns(turn, phones, disk, scripts, n);
      && Stands(r, disk, phones[i], i, OwnTurn(turn, phones[i], disk, scripts[i]),
                i < n && Reached(turn, phones, disk, scripts, i))
      && (r.goesOn <==> Reached(turn, phones, disk, scripts, n))
  {
    if n > 0 {
      PhonesAreIndependent(turn, phones, disk, scripts, n - 1, i);
      PhonesAreIndependent(turn, phones, disk, scripts, n - 1, n - 1);
      var r := Turns(turn, phones, disk, scripts, n - 1);
      if r.goesOn {
        var o := OwnTurn(turn, phones[n - 1], disk, scripts[n - 1]);
        assert OwnTurn(turn, phones[n - 1], r.disk, scripts[n - 1]) == o;
        TurnStands(r, disk, phones, i, n - 1, OwnTurn(turn, phones[i], disk, scripts[i]), o,
                   Reached(turn, phones, disk, scripts, i));
      }
    }
  }

  // ------------------------------------------------------------------- whole histories

  datatype Fleet = Fleet(disk: Disk, log: seq<Sent<Call>>)

  function After(f: Fleet, r: Round): Fleet {
    Fleet(r.disk, f.log + r.log)
  }

  /** Any number of runs over all phones, each phone with a script in each. */
  function Rounds(turn: Turn, phones: seq<Phone>, disk: Disk, runs: seq<seq<Script>>): Fleet
    requires forall m :: 0 <= m < |runs| ==> |runs[m]| == |phones|
  {
    if |runs| == 0 then Fleet(disk, [])
    else
      var n := |runs| - 1;
      var f := Rounds(turn, phones, disk, runs[..n]);
      After(f, Turns(turn, phones, f.disk, runs[n], |phones|))
  }

  /** The scripts of the runs in which a phone had its turn. */
  ghost function Own(turn: Turn, phones: seq<Phone>, disk: Disk, runs: seq<seq<Script>>, i: nat): seq<Script>
    requires forall m :: 0 <= m < |runs| ==> |runs[m]| == |phones|
    requires i < |phones|
  {
    if |runs| == 0 then []
    else
      var n := |runs| - 1;
      var before := Own(turn, phones, disk, runs[..n], i);
      if Reached(turn, phones, Rounds(turn, phones, disk, runs[..n]).disk, runs[n], i) then before + [runs[n][i]]
      else before
  }

  /** Each phone's file and logs are those of the history of its own turns. */
  lemma {:induction false} EachPhoneIsSequential(c: Clock, wall: Layout, phones: seq<Phone>, disk: Disk,
                                                 runs: seq<seq<Script>>, i: nat)
    requires forall m :: 0 <= m < |runs| ==> |runs[m]| == |phones|
    requires i < |phones| && OwnFiles(phones)
    ensures
      var turn := CallLogTurn(c, wall, true);
      var f := Rounds(turn, phones, disk, runs);
      var h := Replay(c, wall, phones[i].deviceId, FileAt(disk, phones[i].path), Own(turn, phones, disk, runs, i));
      FileAt(f.disk, phones[i].path) == h.file && LogOf(i, f.log) == h.log
  {
    if |runs| > 0 {
      var turn := CallLogTurn(c, wall, true);
      var n := |runs| - 1;
      EachPhoneIsSequential(c, wall, phones, disk, runs[..n], i);
      var f := Rounds(turn, phones, disk, runs[..n]);
      RoundOfPhone(turn, phones, f, runs[n], i);
      ReplaySnoc(c, wall, phones[i].deviceId, FileAt(disk, phones[i].path), Own(turn, phones, disk, runs[..n], i),
                 runs[n][i]);
    }
  }

  /** One more run, seen from one phone. */
  lemma RoundOfPhone(turn: Turn, phones: seq<Phone>, f: Fleet, scripts: seq<Script>, i: nat)
    requires |scripts| == |phones| && i < |phones| && OwnFiles(phones)
    ensures
      var g := After(f, Turns(turn, phones, f.disk, scripts, |phones|));
      var o := OwnTurn(turn, phones[i], f.disk, scripts[i]);
      if Reached(turn, phones, f.disk, scripts, i) then
        FileAt(g.disk, phones[i].path) == o.file && LogOf(i, g.log) == LogOf(i, f.log) + o.calls
      else FileAt(g.disk, phones[i].path) == FileAt(f.disk, phones[i].path) && LogOf(i, g.log) == LogOf(i, f.log)
  {
    PhonesAreIndependent(turn, phones, f.disk, scripts, |phones|, i);
    LogOfConcat(i, f.log, Turns(turn, phones, f.disk, scripts, |phones|).log);
    assert LogOf(i, f.log) + [] == LogOf(i, f.log);
  }

  /** So the duplication bound holds for each phone, over the turns it had. */
  lemma EachPhoneIsBounded(c: Clock, wall: Layout, phones: seq<Phone>, disk: Disk, runs: seq<seq<Script>>, i: nat,
                           last: Zone, k: string)
    requires forall m :: 0 <= m < |runs| ==> |runs[m]| == |phones|
    requires i < |phones| && OwnFiles(phones)
    requires KeptUp(c, wall, phones[i].deviceId, Own(CallLogTurn(c, wall, true), phones, disk, runs, i))
    requires NeverLater(wall, Own(CallLogTurn(c, wall, true), phones, disk, runs, i), Some(last), k)
    ensures
      var turn := CallLogTurn(c, wall, true);
      Times(k, LogOf(i, Rounds(turn, phones, disk, runs).log))
      <= 1 + Replay(c, wall, phones[i].deviceId, FileAt(disk, phones[i].path), Own(turn, phones, disk, runs, i)).unsaved
  {
    var own := Own(CallLogTurn(c, wall, true), phones, disk, runs, i);
    EachPhoneIsSequential(c, wall, phones, disk, runs, i);
    BoundedDuplication(c, wall, phones[i].deviceId, FileAt(disk, phones[i].path), own, last, k);
  }

  /** A phone that is read, but whose zone or call list cannot be had, ends the run. */
  predicate AlwaysErrs(script: Script) {
    script.reachable && (script.zone.None? || script.logs.None?)
  }

  /** A phone behind one that errs in every run is never read: nothing is logged for
      it and its file stays as it was. */
  lemma StarvedBehindAnError(c: Clock, wall: Layout, phones: seq<Phone>, disk: Disk, runs: seq<seq<Script>>, j: nat,
                             i: nat)
    requires forall m :: 0 <= m < |runs| ==> |runs[m]| == |phones|
    requires j < i < |phones| && OwnFiles(phones)
    requires forall m :: 0 <= m < |runs| ==> AlwaysErrs(runs[m][j])
    ensures
      var f := Rounds(CallLogTurn(c, wall, true), phones, disk, runs);
      LogOf(i, f.log) == [] && FileAt(f.disk, phones[i].path) == FileAt(disk, phones[i].path)
  {
    NeverReached(c, wall, phones, disk, runs, j, i);
    EachPhoneIsSequential(c, wall, phones, disk, runs, i);
  }

  lemma {:induction false} NeverReached(c: Clock, wall: Layout, phones: seq<Phone>, disk: Disk, runs: seq<seq<Script>>,
                                        j: nat, i: nat)
    requires forall m :: 0 <= m < |runs| ==> |runs[m]| == |phones|
    requires j < i < |phones|
    requires forall m :: 0 <= m < |runs| ==> AlwaysErrs(runs[m][j])
    ensures Own(CallLogTurn(c, wall, true), phones, disk, runs, i) == []
  {
    if |runs| > 0 {
      var turn := CallLogTurn(c, wall, true);
      var n := |runs| - 1;
      NeverReached(c, wall, phones, disk, runs[..n], j, i);
      var before := Rounds(turn, phones, disk, runs[..n]).disk;
      assert AlwaysErrs(runs[n][j]);
      assert !OwnTurn(turn, phones[j], before, runs[n][j]).goesOn;
    }
  }

  // --------------------------------------------------------------- the collector

  /** What the phones' files hold. */
  function Files(codec: Codec<Versioned>, phones: seq<Phone>, files: map<string, string>): Disk {
    map path | path in Paths(phones) :: Read(codec, files, path)
  }

  function Paths(phones: seq<Phone>): set<string> {
    set phone | phone in phones :: phone.path
  }

  /** Names for the temporary files to come, which nothing else has. */
  ghost predicate Unused(tmps: seq<string>, i: nat, taken: set<string>) {
    && (forall k :: i <= k < |tmps| ==> tmps[k] !in taken)
    && (forall k, m :: i <= k < m < |tmps| ==> tmps[k] != tmps[m])
  }

  lemma FilesAfterTurn(codec: Codec<Versioned>, phones: seq<Phone>, before: map<string, string>,
                       after: map<string, string>, path: string, tmp: string)
    requires path in Paths(phones) && tmp !in Paths(phones)
    requires SameBut(after, before, {path, tmp})
    ensures Files(codec, phones, after) == Files(codec, phones, before)[path := Read(codec, after, path)]
  {
    forall p | p in Paths(phones) && p != path
      ensures Read(codec, after, p) == Read(codec, before, p)
    {
      SameFile(before, after, {path, tmp}, p);
    }
  }

  lemma SameFile(before: map<string, string>, after: map<string, string>, changed: set<string>, p: string)
    requires SameBut(after, before, changed) && p !in changed
    ensures p in after <==> p in before
    ensures p in after ==> after[p] == before[p]
  {
    assert p in after <==> p in after - changed;
    assert p in before <==> p in before - changed;
    assert p in after ==> after[p] == (after - changed)[p] == (before - changed)[p];
  }

  class CallLogsCollector {
    const phones: seq<Phone>
    const persists: bool
    const codec: Codec<Versioned>
    const volume: Volume
    var log: seq<Sent<Call>>

    constructor (phones: seq<Phone>, persists: bool, codec: Codec<Versioned>, volume: Volume)
      ensures this.phones == phones && this.persists == persists && this.codec == codec && this.volume == volume
          && log == []
    {
      this.phones, this.persists, this.codec, this.volume := phones, persists, codec, volume;
      log := [];
    }

    /** One run: the phones' turns in order, up to the first that ends it. */
    method Collect(c: Clock, wall: Layout, scripts: seq<Script>, tmps: seq<string>) returns (goesOn: bool)
      requires RoundTrips(codec)
      requires |scripts| == |tmps| == |phones|
      requires Unused(tmps, 0, volume.files.Keys + Paths(phones))
      modifies this, volume
      ensures
        var r := Turns(CallLogTurn(c, wall, persists), phones, old(Files(codec, phones, volume.files)), scripts,
                       |phones|);
        && log == old(log) + r.log
        && Files(codec, phones, volume.files) == r.disk
        && goesOn == r.goesOn
    {
      goesOn := CollectAll(c, wall, scripts, tmps, CallLogTurn(c, wall, persists));
    }

    method CollectAll(c: Clock, wall: Layout, scripts: seq<Script>, tmps: seq<string>, ghost turn: Turn)
      returns (goesOn: bool)
      requires RoundTrips(codec) && Takes(c, wall, turn)
      requires |scripts| == |tmps| == |phones|
      requires Unused(tmps, 0, volume.files.Keys + Paths(phones))
      modifies this, volume
      ensures
        var r := Turns(turn, phones, old(Files(codec, phones, volume.files)), scripts, |phones|);
        Holds(tmps, |phones|, r, old(log)) && goesOn == r.goesOn
    {
      ghost var start, before := Files(codec, phones, volume.files), log;
      assert Holds(tmps, 0, Turns(turn, phones, start, scripts, 0), before);
      var i;
      i, goesOn := Loop(c, wall, scripts, tmps, turn, start, before);
      TurnsEnd(turn, phones, start, scripts, i, |phones|);
    }

    /** Takes turns until there is no phone left or one ends the run. */
    method Loop(c: Clock, wall: Layout, scripts: seq<Script>, tmps: seq<string>, ghost turn: Turn, ghost start: Disk,
                ghost before: seq<Sent<Call>>)
      returns (i: nat, goesOn: bool)
      requires RoundTrips(codec) && Takes(c, wall, turn)
      requires |scripts| == |tmps| == |phones|
      requires Holds(tmps, 0, Turns(turn, phones, start, scripts, 0), before)
      modifies this, volume
      ensures i <= |phones| && (i == |phones| || !goesOn)
      ensures Holds(tmps, i, Turns(turn, phones, start, scripts, i), before)
      ensures goesOn == Turns(turn, phones, start, scripts, i).goesOn
    {
      i, goesOn := 0, true;
      while i < |phones| && goesOn
        invariant i <= |phones|
        invariant Holds(tmps, i, Turns(turn, phones, start, scripts, i), before)
        invariant goesOn == Turns(turn, phones, start, scripts, i).goesOn
      {
        goesOn := CollectNext(c, wall, i, scripts, tmps, turn, start, before);
        i := i + 1;
      }
    }

    method CollectNext(c: Clock, wall: Layout, i: nat, scripts: seq<Script>, tmps: seq<string>, ghost turn: Turn,
                       ghost start: Disk, ghost before: seq<Sent<Call>>)
      returns (goesOn: bool)
      requires RoundTrips(codec) && Takes(c, wall, turn)
      requires i < |phones| == |tmps| == |scripts|
      requires Turns(turn, phones, start, scripts, i).goesOn
      requires Holds(tmps, i, Turns(turn, phones, start, scripts, i), before)
      modifies this, volume
      ensures Holds(tmps, i + 1, Turns(turn, phones, start, scripts, i + 1), before)
      ensures goesOn == Turns(turn, phones, start, scripts, i + 1).goesOn
    {
      goesOn := CollectPhone(c, wall, i, scripts[i], tmps, turn, Turns(turn, phones, start, scripts, i), before);
    }

    /** The turns this collector takes. */
    ghost predicate Takes(c: Clock, wall: Layout, turn: Turn) {
      forall phone: Phone, file: PhoneFile, script: Script
        {:trigger Run(c, wall, phone.deviceId, persists, file, script)} ::
        turn(phone, file, script) == Run(c, wall, phone.deviceId, persists, file, script)
    }

    /** The log and the disk are those of a run that stands so, and the names of the
        temporary files to come are free. */
    ghost predicate Holds(tmps: seq<string>, i: nat, r: Round, before: seq<Sent<Call>>)
      reads this, volume
    {
      && log == before + r.log && Files(codec, phones, volume.files) == r.disk
      && Unused(tmps, i, volume.files.Keys + Paths(phones))
    }

    /** The turn of one phone within a run. */
    method CollectPhone(c: Clock, wall: Layout, i: nat, script: Script, tmps: seq<string>, ghost turn: Turn,
                        ghost r: Round, ghost before: seq<Sent<Call>>)
      returns (goesOn: bool)
      requires RoundTrips(codec) && Takes(c, wall, turn)
      requires i < |phones| == |tmps| && Holds(tmps, i, r, before)
      modifies this, volume
      ensures
        var s := TakeTurn(r, i, phones[i].path, OwnTurn(turn, phones[i], r.disk, script));
        Holds(tmps, i + 1, s, before) && goesOn == s.goesOn
    {
      var phone, tmp := phones[i], tmps[i];
      assert phone.path in Paths(phones);
      ghost var files := volume.files;
      assert Read(codec, files, phone.path) == FileAt(r.disk, phone.path);
      var calls;
      calls, goesOn := OneTurn(c, wall, phone, script, tmp);
      FilesAfterTurn(codec, phones, files, volume.files, phone.path, tmp);
      StillUnused(tmps, i, files, volume.files, phone.path, Paths(phones));
      log := log + Tag(i, calls);
      Associate(before, r.log, Tag(i, calls));
    }

    method OneTurn(c: Clock, wall: Layout, phone: Phone, script: Script, tmp: string)
      returns (calls: seq<Call>, goesOn: bool)
      requires RoundTrips(codec)
      requires tmp !in volume.files && tmp != phone.path
      modifies volume
      ensures
        var o := Run(c, wall, phone.deviceId, persists, old(Read(codec, volume.files, phone.path)), script);
        calls == o.calls && Read(codec, volume.files, phone.path) == o.file && goesOn == o.goesOn
      ensures SameBut(volume.files, old(volume.files), {phone.path, tmp})
    {
      var turn := new Collector(phone.deviceId, persists, codec, phone.path, volume);
      goesOn := turn.Collect(c, wall, script, tmp);
      calls := turn.log;
    }
  }

  lemma StillUnused(tmps: seq<string>, i: nat, before: map<string, string>, after: map<string, string>, path: string,
                    paths: set<string>)
    requires i < |tmps| && Unused(tmps, i, before.Keys + paths)
    requires path in paths && SameBut(after, before, {path, tmps[i]})
    ensures Unused(tmps, i + 1, after.Keys + paths)
  {
    forall k | i + 1 <= k < |tmps|
      ensures tmps[k] !in after.Keys
    {
      SameFile(before, after, {path, tmps[i]}, tmps[k]);
    }
  }
}

/** The disk a watermark file lies on, and its replacement: write a temporary file
    beside it, then rename.  The replacement may fail or the process may die at any
    point. */
module AtomicFile {
  import opened Basics

  /** The calls of a save that can go wrong, in order. */
  datatype Stage = Mkdir | Marshal | CreateTemp | Write | Chmod | Close | Rename

  function Rank(s: Stage): nat {
    match s
    case Mkdir => 0
    case Marshal => 1
    case CreateTemp => 2
    case Write => 3
    case Chmod => 4
    case Close => 5
    case Rename => 6
  }

  /** How a save ends.  An error lets the deferred removal of the temporary file
      run; a death does not.  Dying in the write leaves some prefix behind, and
      dying in the rename may come before or after the rename took effect. */
  datatype Ending =
    | Completes
    | Errs(stage: Stage)
    | DiesIn(stage: Stage, written: nat, renamed: bool)

  predicate Renamed(e: Ending) {
    e.Completes? || (e.DiesIn? && e.stage.Rename? && e.renamed)
  }

  predicate LeavesTemporary(e: Ending) {
    e.DiesIn? && (e.stage.Write? || e.stage.Chmod? || e.stage.Close? || (e.stage.Rename? && !e.renamed))
  }

  /** How a record is turned into the text of a file and back. */
  datatype Codec<!T> = Codec(encode: T -> string, decode: string -> Option<T>)

  ghost predicate RoundTrips<T(!new)>(codec: Codec<T>) {
    forall x :: codec.decode(codec.encode(x)) == Some(x)
  }

  /** What a reader finds at a path: no file, one it cannot decode, or a record. */
  datatype File<+T> = Missing | Corrupt | Stored(body: T)

  function Read<T>(codec: Codec<T>, files: map<string, string>, path: string): File<T> {
    if path !in files then Missing
    else
      match codec.decode(files[path])
      case None => Corrupt
      case Some(x) => Stored(x)
  }

  /** The same asked of a disk whose files have been read already. */
  function FileAt<T>(disk: map<string, File<T>>, path: string): File<T> {
    if path in disk then disk[path] else Missing
  }

  /** Two disks that differ at most in these files. */
  ghost predicate SameBut(a: map<string, string>, b: map<string, string>, changed: set<string>) {
    a - changed == b - changed
  }

  class Volume {
    var files: map<string, string>

    constructor (files: map<string, string>)
      ensures this.files == files
    {
      this.files := files;
    }

    /** However the save ends, every other file is untouched and the file at the
        path is the old one or the complete new one, the latter exactly when the
        rename took effect; a temporary file survives only a death. */
    method Save(path: string, body: string, tmp: string, ending: Ending) returns (ok: bool)
      requires tmp !in files && tmp != path
      modifies this
      ensures ok <==> ending.Completes?
      ensures files - {tmp} == if Renamed(ending) then old(files)[path := body] else old(files)
      ensures tmp in files <==> LeavesTemporary(ending)
      ensures tmp in files ==> files[tmp] <= body
    {
      ghost var before := files;
      ok := WriteTemporary(body, tmp, ending);
      if ok && Renamed(ending) {
        files := (files - {tmp})[path := body];
        ok := ending.Completes?;
      } else if ok && ending.Errs? {
        files := files - {tmp};
        ok := false;
      } else {
        ok := false;
      }
      assert before - {tmp} == before;
    }

    /** Everything up to the rename: a complete temporary file, or after a failure none,
        or after a death whatever was written. */
    method WriteTemporary(body: string, tmp: string, ending: Ending) returns (ok: bool)
      requires tmp !in files
      modifies this
      ensures ok <==> ending.Completes? || ending.stage.Rename?
      ensures files == old(files) || (tmp in files && files == old(files)[tmp := files[tmp]] && files[tmp] <= body)
      ensures ok ==> tmp in files && files[tmp] == body
      ensures !ok ==> (tmp in files <==> LeavesTemporary(ending))
    {
      if !ending.Completes? && Rank(ending.stage) <= Rank(CreateTemp) {
        return false;
      }
      var written := body;
      if ending.DiesIn? && ending.stage.Write? && ending.written <= |body| {
        written := body[..ending.written];
      }
      files := files[tmp := written];
      if ending.Errs? && !ending.stage.Rename? {
        files := files - {tmp};
        return false;
      }
      ok := ending.Completes? || ending.stage.Rename?;
    }

    /** A record saved so is the one read afterwards if the rename took effect, and
        otherwise the file reads as before; no other file but the temporary changes. */
    method Replace<T(!new)>(codec: Codec<T>, path: string, record: T, tmp: string, ending: Ending) returns (ok: bool)
      requires RoundTrips(codec)
      requires tmp !in files && tmp != path
      modifies this
      ensures ok <==> ending.Completes?
      ensures Read(codec, files, path) == if Renamed(ending) then Stored(record) else old(Read(codec, files, path))
      ensures SameBut(files, old(files), {path, tmp})
      ensures tmp in files <==> LeavesTemporary(ending)
    {
      ghost var before := files;
      ok := Save(path, codec.encode(record), tmp, ending);
      KeptBeside(before, files, path, codec.encode(record), tmp, Renamed(ending));
    }
  }

  lemma KeptBeside(before: map<string, string>, after: map<string, string>, path: string, body: string, tmp: string,
                   renamed: bool)
    requires tmp !in before && tmp != path
    requires after - {tmp} == if renamed then before[path := body] else before
    ensures SameBut(after, before, {path, tmp})
    ensures path in after <==> renamed || path in before
    ensures path in after ==> after[path] == if renamed then body else before[path]
  {
    var kept := after - {tmp};
    assert path in after <==> path in kept;
    assert path in after ==> after[path] == kept[path];
    assert after - {path, tmp} == kept - {path, tmp};
  }
}

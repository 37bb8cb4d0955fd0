/**
 Rotation of one agent's log: `agent.log` becomes `agent.log.1`, older files move up by one number,
 and a clean-up pass limits their count. Renames and compression always succeed here.
 */
module LogRotation {
  import opened Options

  type Content = string

  /** The names that matter in the log directory: agent.log, agent.log.N and agent.log.N.gz. */
  datatype Name = Current | Rotated(number: nat, gz: bool)

  type Files = map<Name, Content>

  /** Where the output of the agent goes: nowhere, to the file its descriptor now has, or to a deleted file. */
  datatype Handle = Closed | File(name: Name) | Lost

  function At(files: Files, f: Name): Option<Content> {
    if f in files then Some(files[f]) else None
  }

  // ---- What the renames do to an arbitrary directory, name by name ----

  /** After the descending loop: each number from 2 to maxFiles holds what its predecessor held. */
  function ShiftedAt(files: Files, maxFiles: nat, f: Name): Option<Content> {
    if f.Current? || maxFiles < 2 || f.number < 1 || f.number > maxFiles then At(files, f)
    else if f.number == 1 then None
    else if f.number == maxFiles && Rotated(f.number - 1, f.gz) !in files then At(files, f)
    else At(files, Rotated(f.number - 1, f.gz))
  }

  /** Every rotated file below maxFiles moves up by one, in any directory, and only number maxFiles is overwritten. */
  lemma ShiftMovesUp(files: Files, maxFiles: nat, n: nat, gz: bool)
    ensures 1 <= n < maxFiles && Rotated(n, gz) in files
            ==> ShiftedAt(files, maxFiles, Rotated(n + 1, gz)) == Some(files[Rotated(n, gz)])
    ensures n == 0 || n > maxFiles ==> ShiftedAt(files, maxFiles, Rotated(n, gz)) == At(files, Rotated(n, gz))
    ensures ShiftedAt(files, maxFiles, Current) == At(files, Current)
  {
  }

  /** After the current log has become number 1, compressed or not. */
  function RenamedAt(files: Files, maxFiles: nat, compress: bool, f: Name): Option<Content> {
    if f.Current? then None
    else if f == Rotated(1, compress) then At(files, Current)
    else if f == Rotated(1, false) then None
    else ShiftedAt(files, maxFiles, f)
  }

  // ---- What the clean-up pass sees and keeps ----

  /** The rotated files, highest number first; files with the same number come in any order. */
  ghost predicate Listing(names: seq<Name>, files: Files) {
    && (forall i :: 0 <= i < |names| ==> names[i] in files && names[i].Rotated?)
    && (forall f :: f in files && f.Rotated? ==> f in names)
    && (forall i, j :: 0 <= i < j < |names| ==> names[i] != names[j] && names[i].number >= names[j].number)
  }

  function Without(files: Files, names: seq<Name>): Files {
    map f | f in files && f !in names :: files[f]
  }

  function Excess(names: seq<Name>, maxFiles: nat): seq<Name> {
    if |names| <= maxFiles then [] else names[maxFiles..]
  }

  // ---- Directories that hold a list of rotated logs ----

  /** Exactly the slots 1..|logs|, all of one kind, slot 1 first. */
  ghost predicate Holds(files: Files, logs: seq<Content>, gz: bool) {
    && (forall f :: f in files && f.Rotated? ==> f.gz == gz && 1 <= f.number <= |logs|)
    && (forall n: nat :: 1 <= n <= |logs| ==> At(files, Rotated(n, gz)) == Some(logs[n - 1]))
  }

  /** The last `limit` logs of a history, most recent first. */
  function MostRecent(history: seq<Content>, limit: nat): seq<Content> {
    var n := if |history| < limit then |history| else limit;
    seq(n, i requires 0 <= i < n => history[|history| - 1 - i])
  }

  lemma {:induction false} ListedFrom(names: seq<Name>, files: Files, logs: seq<Content>, gz: bool, i: nat)
    requires Holds(files, logs, gz) && Listing(names, files) && i < |logs|
    ensures i < |names| && names[i] == Rotated(|logs| - i, gz)
    ensures forall j :: 0 <= j < i ==> names[j] == Rotated(|logs| - j, gz)
  {
    if i > 0 {
      ListedFrom(names, files, logs, gz, i - 1);
      forall j | 0 <= j < i ensures names[j] == Rotated(|logs| - j, gz) {
        ListedFrom(names, files, logs, gz, j);
      }
    }
    var wanted := Rotated(|logs| - i, gz);
    assert At(files, wanted).Some?;
    var k :| 0 <= k < |names| && names[k] == wanted;
    assert k >= i;
  }

  lemma SlotsAreListedBackwards(names: seq<Name>, files: Files, logs: seq<Content>, gz: bool)
    requires Holds(files, logs, gz) && Listing(names, files)
    ensures |names| == |logs|
    ensures forall i :: 0 <= i < |names| ==> names[i] == Rotated(|logs| - i, gz)
  {
    forall i | 0 <= i < |logs| ensures i < |names| && names[i] == Rotated(|logs| - i, gz) {
      ListedFrom(names, files, logs, gz, i);
    }
    assert |names| <= |logs| by {
      if |names| > |logs| {
        var last := names[|logs|];
        var k: nat := |logs| - last.number;
        ListedFrom(names, files, logs, gz, k);
        assert false;
      }
    }
    if |logs| > 0 {
      ListedFrom(names, files, logs, gz, |logs| - 1);
    }
  }

  /** The renames put the new log in front; the log in slot maxFiles is the one overwritten. */
  function Pushed(logs: seq<Content>, log: Content, maxFiles: nat): seq<Content> {
    if maxFiles == 0 then [log] + (if logs == [] then [] else logs[1..])
    else if |logs| < maxFiles then [log] + logs
    else [log] + logs[..maxFiles - 1] + logs[maxFiles..]
  }

  lemma RenamesPush(files: Files, mid: Files, logs: seq<Content>, maxFiles: nat, compress: bool)
    requires Holds(files, logs, compress) && Current in files
    requires forall f :: At(mid, f) == RenamedAt(files, maxFiles, compress, f)
    ensures Current !in mid && Holds(mid, Pushed(logs, files[Current], maxFiles), compress)
  {
    var out := Pushed(logs, files[Current], maxFiles);
    assert At(mid, Current) == RenamedAt(files, maxFiles, compress, Current);
    forall f | f in mid && f.Rotated?
      ensures f.gz == compress && 1 <= f.number <= |out|
    {
      assert At(mid, f) == RenamedAt(files, maxFiles, compress, f);
    }
    forall n: nat | 1 <= n <= |out|
      ensures At(mid, Rotated(n, compress)) == Some(out[n - 1])
    {
      var f := Rotated(n, compress);
      assert At(mid, f) == RenamedAt(files, maxFiles, compress, f);
      if n > 1 {
        assert n - 1 <= |logs| ==> At(files, Rotated(n - 1, compress)) == Some(logs[n - 2]);
        assert n <= |logs| ==> At(files, f) == Some(logs[n - 1]);
      }
    }
  }

  /** The clean-up keeps the highest numbers, which are the oldest logs. */
  lemma CleanupKeepsOldest(files: Files, names: seq<Name>, logs: seq<Content>, maxFiles: nat, gz: bool, n: nat)
    requires Holds(files, logs, gz) && Listing(names, files) && 1 <= n <= |logs|
    ensures Rotated(n, gz) in Without(files, Excess(names, maxFiles)) <==> |logs| - n < maxFiles
  {
    SlotsAreListedBackwards(names, files, logs, gz);
    assert At(files, Rotated(n, gz)).Some?;
    assert names[|logs| - n] == Rotated(n, gz);
    if |logs| - n >= maxFiles {
      assert Excess(names, maxFiles)[|logs| - n - maxFiles] == Rotated(n, gz);
    }
  }

  /** One whole rotation: renames giving `mid`, then the clean-up of `mid` as listed by `names`. */
  ghost predicate IsRotation(before: Files, mid: Files, names: seq<Name>, after: Files, maxFiles: nat, compress: bool) {
    && (forall f :: At(mid, f) == RenamedAt(before, maxFiles, compress, f))
    && Listing(names, mid)
    && after == Without(mid, Excess(names, maxFiles))
  }

  lemma {:induction false} PushedIsMostRecent(history: seq<Content>, log: Content, maxFiles: nat)
    requires maxFiles > 0
    ensures Pushed(MostRecent(history, maxFiles), log, maxFiles) == MostRecent(history + [log], maxFiles)
  {
    var logs := MostRecent(history, maxFiles);
    if |logs| == maxFiles {
      assert logs[maxFiles..] == [];
    }
  }

  /** The clean-up removes nothing from a list within the limit, and everything if the limit is 0. */
  lemma {:induction false} CleanupOfList(files: Files, names: seq<Name>, logs: seq<Content>, maxFiles: nat, gz: bool)
    requires Holds(files, logs, gz) && Listing(names, files)
    ensures 0 < maxFiles && |logs| <= maxFiles ==> Without(files, Excess(names, maxFiles)) == files
    ensures maxFiles == 0 ==> Holds(Without(files, Excess(names, maxFiles)), [], gz)
  {
    SlotsAreListedBackwards(names, files, logs, gz);
    if maxFiles == 0 {
      assert Excess(names, 0) == names;
    } else if |logs| <= maxFiles {
      assert Excess(names, maxFiles) == [];
    }
  }

  /**
   A rotation keeps the list of the most recent logs: the new log goes first, only a log beyond
   maxFiles is dropped, and the clean-up removes nothing unless maxFiles is 0.
   */
  lemma {:induction false} RotationRefinesList(before: Files, mid: Files, names: seq<Name>, after: Files,
                                               history: seq<Content>, maxFiles: nat, compress: bool)
    requires IsRotation(before, mid, names, after, maxFiles, compress) && Current in before
    requires Holds(before, MostRecent(history, maxFiles), compress)
    ensures Current !in after
    ensures Holds(after, MostRecent(history + [before[Current]], maxFiles), compress)
    ensures maxFiles > 0 ==> after == mid
  {
    var logs, log := MostRecent(history, maxFiles), before[Current];
    RenamesPush(before, mid, logs, maxFiles, compress);
    CleanupOfList(mid, names, Pushed(logs, log, maxFiles), maxFiles, compress);
    if maxFiles > 0 {
      PushedIsMostRecent(history, log, maxFiles);
    }
  }

  /** The log just rotated survives its own rotation iff there were no more rotated logs than maxFiles. */
  lemma NewestSurvivesIff(before: Files, mid: Files, names: seq<Name>, after: Files,
                          logs: seq<Content>, maxFiles: nat, compress: bool)
    requires IsRotation(before, mid, names, after, maxFiles, compress) && Current in before
    requires Holds(before, logs, compress)
    ensures Rotated(1, compress) in after <==> maxFiles > 0 && |logs| <= maxFiles
  {
    RenamesPush(before, mid, logs, maxFiles, compress);
    CleanupKeepsOldest(mid, names, Pushed(logs, before[Current], maxFiles), maxFiles, compress, 1);
  }

  /** The list spelled out: slot i exists for i up to the limit, and holds the i-th most recent log. */
  lemma SlotHoldsIthMostRecent(files: Files, history: seq<Content>, maxFiles: nat, gz: bool, f: Name)
    requires Holds(files, MostRecent(history, maxFiles), gz) && f.Rotated?
    ensures f in files <==> f.gz == gz && 1 <= f.number <= |history| && f.number <= maxFiles
    ensures f in files ==> files[f] == history[|history| - f.number]
  {
    assert f.gz == gz ==> f == Rotated(f.number, gz);
    if f.gz == gz && 1 <= f.number <= |MostRecent(history, maxFiles)| {
      assert At(files, f) == Some(MostRecent(history, maxFiles)[f.number - 1]);
    }
  }

  lemma CurrentIsNoSlot(files: Files, logs: seq<Content>, gz: bool, text: Content)
    requires Holds(files, logs, gz)
    ensures Holds(files[Current := text], logs, gz)
  {
    forall n: nat | 1 <= n <= |logs| ensures At(files[Current := text], Rotated(n, gz)) == Some(logs[n - 1]) {
      assert At(files, Rotated(n, gz)) == Some(logs[n - 1]);
    }
  }

  /** Output into the newest rotated log extends the newest entry of the history. */
  lemma LatestGrows(files: Files, after: Files, history: seq<Content>, maxFiles: nat, text: Content)
    requires Holds(files, MostRecent(history, maxFiles), false)
    requires Rotated(1, false) in files && after == files[Rotated(1, false) := files[Rotated(1, false)] + text]
    ensures history != []
    ensures Holds(after, MostRecent(history[|history| - 1 := history[|history| - 1] + text], maxFiles), false)
  {
    var h := history[|history| - 1 := history[|history| - 1] + text];
    assert At(files, Rotated(1, false)) == Some(MostRecent(history, maxFiles)[0]);
    forall n: nat | 1 <= n <= |MostRecent(h, maxFiles)|
      ensures At(after, Rotated(n, false)) == Some(MostRecent(h, maxFiles)[n - 1])
    {
      assert At(files, Rotated(n, false)) == Some(MostRecent(history, maxFiles)[n - 1]);
    }
  }

  lemma {:induction false} HighestExists(names: set<Name>)
    requires names != {} && forall f :: f in names ==> f.Rotated?
    ensures exists top :: top in names && forall f :: f in names ==> f.number <= top.number
  {
    var x :| x in names;
    if names != {x} {
      HighestExists(names - {x});
      var top :| top in names - {x} && forall f :: f in names - {x} ==> f.number <= top.number;
      assert forall f :: f in names ==> f == x || f in names - {x};
      if top.number < x.number {
        assert forall f :: f in names ==> f.number <= x.number;
      } else {
        assert forall f :: f in names ==> f.number <= top.number;
      }
    } else {
      assert forall f :: f in names ==> f.number <= x.number;
    }
  }

  class LogRotator {
    const maxSize: int
    const maxFiles: nat
    const rotateByTime: bool
    const rotateInterval: int
    const compressOldFiles: bool
    var lastRotateTime: int
    var files: Files
    var handle: Handle
    ghost var history: seq<Content>  // every log rotated so far, oldest first

    ghost predicate Valid()
      reads this
    {
      && Holds(files, MostRecent(history, maxFiles), compressOldFiles)
      && match handle
         case Closed => true
         case Lost => Current !in files
         case File(Current) => Current in files
         case File(f) => f == Rotated(1, false) && f in files && !compressOldFiles && Current !in files
    }

    constructor (maxSize: int, maxFiles: nat, rotateByTime: bool, rotateInterval: int, compressOldFiles: bool, now: int)
      ensures Valid() && history == [] && files == map[] && handle == Closed && lastRotateTime == now
      ensures this.maxSize == maxSize && this.maxFiles == maxFiles && this.rotateByTime == rotateByTime
      ensures this.rotateInterval == rotateInterval && this.compressOldFiles == compressOldFiles
    {
      this.maxSize, this.maxFiles := maxSize, maxFiles;
      this.rotateByTime, this.rotateInterval := rotateByTime, rotateInterval;
      this.compressOldFiles := compressOldFiles;
      lastRotateTime, files, handle, history := now, map[], Closed, [];
    }

    /** Compression of the newly rotated log writes the .gz file and removes the original. */
    method Compress()
      requires Rotated(1, false) in files
      modifies this`files, this`handle
      ensures forall f :: At(files, f) ==
                (if f == Rotated(1, true) then At(old(files), Rotated(1, false))
                 else if f == Rotated(1, false) then None
                 else At(old(files), f))
      ensures handle == if old(handle) in {File(Rotated(1, false)), File(Rotated(1, true))} then Lost else old(handle)
    {
      files := files[Rotated(1, true) := files[Rotated(1, false)]] - {Rotated(1, false)};
      if handle == File(Rotated(1, false)) || handle == File(Rotated(1, true)) {
        handle := Lost;
      }
    }

    /** Rename a file if it exists, overwriting the target; an open descriptor goes along. */
    method Rename(from: Name, to: Name)
      requires from != to
      modifies this`files, this`handle
      ensures handle == if from !in old(files) then old(handle)
                        else if old(handle) == File(from) then File(to)
                        else if old(handle) == File(to) then Lost
                        else old(handle)
      ensures forall f :: At(files, f) ==
                (if f == to && from in old(files) then At(old(files), from)
                 else if f == from then None
                 else At(old(files), f))
    {
      if from in files {
        files := files[to := files[from]] - {from};
        if handle == File(from) {
          handle := File(to);
        } else if handle == File(to) {
          handle := Lost;
        }
      }
    }

    method ShiftNumbers()
      modifies this`files, this`handle
      ensures !old(handle).File? || old(handle) == File(Current) ==> handle == old(handle)
      ensures forall f :: At(files, f) == ShiftedAt(old(files), maxFiles, f)
    {
      var i := maxFiles - 1;
      while i >= 1
        invariant !old(handle).File? || old(handle) == File(Current) ==> handle == old(handle)
        invariant -1 <= i <= maxFiles - 1 && (maxFiles >= 1 ==> 0 <= i)
        invariant At(files, Current) == At(old(files), Current)
        invariant forall f: Name :: f.Rotated? ==>
          At(files, f) ==
          (if f.number > i + 1 then ShiftedAt(old(files), maxFiles, f)
           else if f.number <= i || f.number == maxFiles then At(old(files), f)
           else None)
      {
        Rename(Rotated(i, true), Rotated(i + 1, true));
        Rename(Rotated(i, false), Rotated(i + 1, false));
        i := i - 1;
      }
    }

    /** Read the directory and sort by number, highest first; equal numbers may come in any order. */
    method ListDescending() returns (names: seq<Name>)
      ensures Listing(names, files)
    {
      names := [];
      var rest := set f | f in files && f.Rotated?;
      while rest != {}
        invariant forall f :: f in files && f.Rotated? <==> f in rest || f in names
        invariant forall f :: f in names ==> f !in rest
        invariant forall i, j :: 0 <= i < j < |names| ==> names[i] != names[j] && names[i].number >= names[j].number
        invariant forall f, g :: f in names && g in rest ==> f.number >= g.number
        decreases rest
      {
        HighestExists(rest);
        var top :| top in rest && forall f :: f in rest ==> f.number <= top.number;
        names, rest := names + [top], rest - {top};
      }
    }

    method CleanupOldFiles() returns (names: seq<Name>)
      modifies this`files, this`handle
      ensures Listing(names, old(files)) && files == Without(old(files), Excess(names, maxFiles))
      ensures handle == if old(handle).File? && old(handle).name in Excess(names, maxFiles) then Lost else old(handle)
    {
      names := ListDescending();
      ghost var excess := Excess(names, maxFiles);
      var i := maxFiles;
      while i < |names|
        invariant maxFiles <= i && (i <= |names| || i == maxFiles)
        invariant files == Without(old(files), excess[..i - maxFiles])
        invariant handle == if old(handle).File? && old(handle).name in excess[..i - maxFiles] then Lost
                            else old(handle)
      {
        files := files - {names[i]};
        if handle == File(names[i]) {
          handle := Lost;
        }
        i := i + 1;
        assert excess[..i - maxFiles] == excess[..i - 1 - maxFiles] + [names[i - 1]];
      }
      assert excess[..|excess|] == excess;
    }

    /** From any directory: what happens to every name is fixed. Without a current log only the shift is done. */
    method Rotate(now: int) returns (ok: bool, ghost mid: Files, ghost names: seq<Name>)
      modifies this`files, this`handle, this`lastRotateTime
      ensures ok == (Current in old(files))
      ensures ok ==> IsRotation(old(files), mid, names, files, maxFiles, compressOldFiles) && lastRotateTime == now
      ensures !ok ==> lastRotateTime == old(lastRotateTime)
      ensures !ok ==> forall f :: At(files, f) == ShiftedAt(old(files), maxFiles, f)
      ensures !old(handle).File? ==> handle == old(handle)
      ensures ok && old(handle) == File(Current) ==>
                handle == if !compressOldFiles && Rotated(1, false) in files then File(Rotated(1, false)) else Lost
    {
      mid, names := map[], [];
      ShiftNumbers();
      assert At(files, Current) == At(old(files), Current);
      if Current !in files {
        return false, mid, names;
      }
      Rename(Current, Rotated(1, false));
      assert At(files, Rotated(1, false)) == At(old(files), Current);
      if compressOldFiles {
        Compress();
      }
      mid := files;
      names := CleanupOldFiles();
      lastRotateTime := now;
      return true, mid, names;
    }

    /** If a running agent's log is rotated, its further output is lost if the log is compressed or none is kept. */
    method RotateIfNeeded(now: int) returns (rotated: bool)
      requires Valid()
      modifies this
      ensures Valid()
      ensures rotated == (Current in old(files)
                          && (|old(files)[Current]| >= maxSize
                              || (rotateByTime && now - old(lastRotateTime) >= rotateInterval)))
      ensures !rotated ==> files == old(files) && history == old(history) && lastRotateTime == old(lastRotateTime)
      ensures rotated ==> history == old(history) + [old(files)[Current]] && Current !in files && lastRotateTime == now
      ensures handle == if !rotated || old(handle) == Closed then old(handle)
                        else if compressOldFiles || maxFiles == 0 then Lost
                        else File(Rotated(1, false))
    {
      if Current !in files {
        return false;
      }
      rotated := false;
      if |files[Current]| >= maxSize {
        rotated := true;
      }
      if rotateByTime {
        if now - lastRotateTime >= rotateInterval {
          rotated := true;
        }
      }
      if !rotated {
        return;
      }
      var ok; ghost var mid, names;
      ok, mid, names := Rotate(now);
      RotationRefinesList(old(files), mid, names, files, history, maxFiles, compressOldFiles);
      history := history + [old(files)[Current]];
      SlotHoldsIthMostRecent(files, history, maxFiles, compressOldFiles, Rotated(1, false));
    }

    /** A launch: rotate if needed, then open the current log for appending. The process before is gone. */
    method Launch(now: int) returns (rotated: bool)
      requires Valid()
      modifies this
      ensures Valid() && handle == File(Current)
      ensures rotated == (Current in old(files)
                          && (|old(files)[Current]| >= maxSize
                              || (rotateByTime && now - old(lastRotateTime) >= rotateInterval)))
      ensures lastRotateTime == if rotated then now else old(lastRotateTime)
      ensures history == if rotated then old(history) + [old(files)[Current]] else old(history)
      ensures files[Current] == if rotated || Current !in old(files) then "" else old(files)[Current]
    {
      handle := Closed;
      rotated := RotateIfNeeded(now);
      CurrentIsNoSlot(files, MostRecent(history, maxFiles), compressOldFiles, "");
      if Current !in files {
        files := files[Current := ""];
      }
      handle := File(Current);
    }

    /**
     Output of the agent follows its descriptor: into the current log, into the log rotated away under it as long
     as that one is not compressed, or nowhere.
     */
    method Append(text: Content) returns (kept: bool)
      requires Valid()
      modifies this`files, this`history
      ensures Valid() && kept == handle.File?
      ensures !kept ==> files == old(files) && history == old(history)
      ensures handle == File(Current) ==>
                files == old(files)[Current := old(files)[Current] + text] && history == old(history)
      ensures kept && handle != File(Current) ==>
                && old(history) != [] && Current !in files
                && history == old(history)[|old(history)| - 1 := old(history)[|old(history)| - 1] + text]
    {
      kept := handle.File?;
      if !kept {
        return;
      }
      CurrentIsNoSlot(files, MostRecent(history, maxFiles), compressOldFiles, files[handle.name] + text);
      files := files[handle.name := files[handle.name] + text];
      if handle.name != Current {
        LatestGrows(old(files), files, history, maxFiles, text);
        history := history[|history| - 1 := history[|history| - 1] + text];
      }
    }
  }
}

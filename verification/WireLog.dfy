/**
 One size-rotated wire log: the live file is generation 0, older generations are numbered upwards and
 the oldest is dropped. File operations are taken to succeed; renaming or removing a file that is not
 there does nothing, as the original ignores those errors.
 */
module WireLog {
  type Files = map<nat, string>

  function Gen(files: Files, i: nat): string { if i in files then files[i] else "" }

  /** Generations n down to 0, oldest first: what a reader of the whole log sees. */
  function Concat(files: Files, n: nat): string {
    if n == 0 then Gen(files, 0) else Gen(files, n) + Concat(files, n - 1)
  }

  /** Every generation up to n moved up by one, generation n dropped, no live file left. Files numbered
      above n, from a time when more were kept, stay where they are. */
  function Shift(files: Files, n: nat): Files {
    (map i: nat | i <= n && HasLower(files, i) :: files[i - 1]) + Leftovers(files, n)
  }

  function Leftovers(files: Files, n: nat): Files { map i | i in files && i > n :: files[i] }

  predicate HasLower(files: Files, i: nat) { i >= 1 && i - 1 in files }

  function Opened(files: Files): Files { files[0 := Gen(files, 0)] }

  predicate Fits(files: Files, line: string, maxBytes: nat) { |Gen(files, 0)| + |line| <= maxBytes }

  function Written(files: Files, line: string, maxBytes: nat, maxFiles: nat): Files {
    if Fits(files, line, maxBytes) then files[0 := Gen(files, 0) + line] else Shift(Opened(files), maxFiles)[0 := line]
  }

  /** Partway through the renames: generations above i have moved up by one, the others have not. */
  ghost predicate MovedAbove(was: Files, files: Files, n: nat, i: nat) {
    && (forall k: nat {:trigger k in files} ::
          k in files <==> ((k <= i || k > n) && k in was) || (i + 1 < k <= n && HasLower(was, k)))
    && (forall k: nat {:trigger files[k]} ::
          k in files ==> files[k] == if k <= i || k > n then Gen(was, k) else GenBelow(was, k))
  }

  function GenBelow(files: Files, k: nat): string { if HasLower(files, k) then files[k - 1] else "" }

  function Renamed(files: Files, from: nat, to: nat): Files {
    if from in files then (files - {from})[to := files[from]] else files
  }

  lemma OldestRemoved(was: Files, n: nat)
    requires n >= 1
    ensures MovedAbove(was, was - {n}, n, n - 1)
  {
  }

  lemma RenameMoves(was: Files, files: Files, n: nat, i: nat)
    requires MovedAbove(was, files, n, i) && 1 <= i < n
    ensures MovedAbove(was, Renamed(files, i, i + 1), n, i - 1)
  {
    assert HasLower(was, i + 1) <==> i in was;
  }

  lemma LastRenameShifts(was: Files, files: Files, n: nat)
    requires MovedAbove(was, files, n, 0) && 1 <= n
    ensures Renamed(files, 0, 1) == Shift(was, n)
  {
    assert HasLower(was, 1) <==> 0 in was;
  }

  lemma LastRename(was: Files, n: nat)
    requires n >= 1
    ensures forall files :: MovedAbove(was, files, n, 0) ==> Renamed(files, 0, 1) == Shift(was, n)
  {
    forall files | MovedAbove(was, files, n, 0) ensures Renamed(files, 0, 1) == Shift(was, n) {
      LastRenameShifts(was, files, n);
    }
  }

  lemma NoLiveFile(files: Files, n: nat)
    ensures Opened(Shift(files, n)) == Shift(files, n)[0 := ""]
  {
  }

  /** The files after a write, one by one: appended to the live file if it fits, else every generation moves up. */
  ghost predicate Appends(was: Files, now: Files, line: string, maxBytes: nat, maxFiles: nat) {
    var live := if 0 in was then was[0] else "";
    if |live| + |line| <= maxBytes then now == was[0 := live + line]
    else
      && 0 in now && now[0] == line && 1 in now && now[1] == live
      && (forall i :: 2 <= i <= maxFiles ==> (i in now <==> i - 1 in was) && (i in now ==> now[i] == was[i - 1]))
      && forall i :: i > maxFiles ==> (i in now <==> i in was) && (i in now ==> now[i] == was[i])
  }

  lemma WrittenIs(files: Files, line: string, maxBytes: nat, maxFiles: nat)
    requires maxFiles >= 1
    ensures Appends(files, Written(files, line, maxBytes, maxFiles), line, maxBytes, maxFiles)
  {
    assert HasLower(Opened(files), 1);
    forall i: nat | 2 <= i <= maxFiles ensures HasLower(Opened(files), i) <==> i - 1 in files {}
  }

  class FileLogger {
    var files: Files           // the generations on disk
    var open: bool
    var size: nat
    const maxBytes: nat
    const maxFiles: nat

    ghost predicate Valid()
      reads this
    {
      maxFiles >= 1 && (open ==> 0 in files && size == |files[0]|)
    }

    /** A logger over whatever an earlier process left on disk. */
    constructor (files: Files, maxBytes: nat, maxFiles: nat)
      requires maxFiles >= 1
      ensures Valid() && this.files == files && this.maxBytes == maxBytes && this.maxFiles == maxFiles
    {
      this.files, this.maxBytes, this.maxFiles := files, maxBytes, maxFiles;
      open, size := false, 0;
    }

    method Rename(from: nat, to: nat)
      requires from != to
      modifies this`files
      ensures files == Renamed(old(files), from, to)
    {
      if from in files {
        var content := files[from];
        files := (files - {from})[to := content];
      }
    }

    /** Opens the live file for appending, creating it when missing. */
    method Open()
      requires maxFiles >= 1
      modifies this
      ensures Valid() && open && files == Opened(old(files))
    {
      if 0 !in files { files := files[0 := ""]; }
      size := |files[0]|;
      open := true;
    }

    method Rotate()
      requires Valid()
      modifies this
      ensures Valid() && open && files == Shift(old(files), maxFiles)[0 := ""]
    {
      open := false;
      NoLiveFile(files, maxFiles);
      RenameAll();
      size := 0;
      Open();
    }

    /** Removes the oldest generation and renames the others upwards, from the oldest down. */
    method RenameAll()
      requires maxFiles >= 1
      modifies this`files
      ensures files == Shift(old(files), maxFiles)
    {
      OldestRemoved(files, maxFiles);
      LastRename(files, maxFiles);
      ghost var was := files;
      files := files - {maxFiles};
      RenameOlder(was);
      Rename(0, 1);
    }

    method RenameOlder(ghost was: Files)
      requires maxFiles >= 1 && MovedAbove(was, files, maxFiles, maxFiles - 1)
      modifies this`files
      ensures MovedAbove(was, files, maxFiles, 0)
    {
      var i := maxFiles - 1;
      while i >= 1
        invariant 0 <= i < maxFiles && MovedAbove(was, files, maxFiles, i)
      {
        RenameMoves(was, files, maxFiles, i);
        Rename(i, i + 1);
        i := i - 1;
      }
    }

    /** Write: file by file what it leaves is in Appends. */
    method Write(line: string)
      requires Valid()
      modifies this
      ensures Valid() && open && files == Written(old(files), line, maxBytes, maxFiles)
      ensures Appends(old(files), files, line, maxBytes, maxFiles)
    {
      WrittenIs(files, line, maxBytes, maxFiles);
      WriteLine(line);
    }

    method WriteLine(line: string)
      requires Valid()
      modifies this
      ensures Valid() && open && files == Written(old(files), line, maxBytes, maxFiles)
    {
      ghost var was := files;
      if !open { Open(); }
      assert files == Opened(was);
      if size + |line| > maxBytes { Rotate(); }
      assert "" + line == line;
      files := files[0 := files[0] + line];
      size := size + |line|;
    }
  }

  // ---- what any sequence of writes keeps ----

  function WrittenAll(files: Files, lines: seq<string>, maxBytes: nat, maxFiles: nat): Files {
    if lines == [] then files
    else Written(WrittenAll(files, lines[..|lines| - 1], maxBytes, maxFiles), lines[|lines| - 1], maxBytes, maxFiles)
  }

  function Join(lines: seq<string>): string {
    if lines == [] then "" else Join(lines[..|lines| - 1]) + lines[|lines| - 1]
  }

  predicate IsSuffix(t: string, s: string) { |t| <= |s| && s[|s| - |t|..] == t }

  lemma ShiftedGen(files: Files, n: nat, i: nat, line: string)
    requires 1 <= i <= n
    ensures Gen(Shift(files, n)[0 := line], i) == Gen(files, i - 1)
    ensures Gen(Shift(files, n)[0 := line], 0) == line
  {
    assert HasLower(files, i) <==> i - 1 in files;
  }

  lemma {:induction false} ShiftConcat(files: Files, n: nat, i: nat, line: string)
    requires 1 <= i <= n
    ensures Concat(Shift(files, n)[0 := line], i) == Concat(files, i - 1) + line
  {
    ShiftedGen(files, n, i, line);
    if i > 1 { ShiftConcat(files, n, i - 1, line); }
    ConcatSteps(files, Shift(files, n)[0 := line], i, line);
  }

  lemma ConcatSteps(files: Files, t: Files, i: nat, line: string)
    requires i >= 1 && Gen(t, i) == Gen(files, i - 1) && Gen(t, 0) == line
    requires i > 1 ==> Concat(t, i - 1) == Concat(files, i - 2) + line
    ensures Concat(t, i) == Concat(files, i - 1) + line
  {
    if i > 1 {
      assert Gen(t, i) + (Concat(files, i - 2) + line) == (Gen(t, i) + Concat(files, i - 2)) + line;
    } else {
      assert Concat(t, 0) == line;
    }
  }

  lemma {:induction false} AppendConcat(files: Files, n: nat, line: string)
    ensures Concat(files[0 := Gen(files, 0) + line], n) == Concat(files, n) + line
  {
    var t := files[0 := Gen(files, 0) + line];
    if n > 0 {
      AppendConcat(files, n - 1, line);
      assert Gen(t, n) + (Concat(files, n - 1) + line) == (Gen(files, n) + Concat(files, n - 1)) + line;
    }
  }

  /** A write loses exactly the oldest generation when it rotates, and nothing otherwise. */
  lemma WriteLosesOldestOnly(files: Files, line: string, maxBytes: nat, maxFiles: nat)
    requires maxFiles >= 1
    ensures var lost := if |Gen(files, 0)| + |line| <= maxBytes then "" else Gen(files, maxFiles);
      lost + Concat(Written(files, line, maxBytes, maxFiles), maxFiles) == Concat(files, maxFiles) + line
  {
    if Fits(files, line, maxBytes) {
      AppendConcat(files, maxFiles, line);
      assert "" + Concat(files[0 := Gen(files, 0) + line], maxFiles) == Concat(files, maxFiles) + line;
    } else {
      RotationLosesOldest(files, line, maxFiles);
    }
  }

  lemma RotatedConcat(files: Files, line: string, n: nat)
    requires n >= 1
    ensures Concat(Shift(Opened(files), n)[0 := line], n) == Concat(files, n - 1) + line
  {
    OpenedConcat(files, n - 1);
    var live := Opened(files);
    ShiftedAsWell(files, live, line, n);
  }

  lemma ShiftedAsWell(files: Files, live: Files, line: string, n: nat)
    requires n >= 1 && Concat(live, n - 1) == Concat(files, n - 1)
    ensures Concat(Shift(live, n)[0 := line], n) == Concat(files, n - 1) + line
  {
    ShiftConcat(live, n, n, line);
  }

  lemma RotationLosesOldest(files: Files, line: string, n: nat)
    requires n >= 1
    ensures Gen(files, n) + Concat(Shift(Opened(files), n)[0 := line], n) == Concat(files, n) + line
  {
    RotatedConcat(files, line, n);
    Regroup(Gen(files, n), Concat(files, n - 1), line, Concat(files, n), Concat(Shift(Opened(files), n)[0 := line], n));
  }

  lemma Regroup(oldest: string, lower: string, line: string, whole: string, now: string)
    requires whole == oldest + lower && now == lower + line
    ensures oldest + now == whole + line
  {
  }

  lemma OpenedConcat(files: Files, n: nat)
    ensures Concat(Opened(files), n) == Concat(files, n)
  {
    AppendConcat(files, n, "");
    assert Gen(files, 0) + "" == Gen(files, 0) && Concat(files, n) + "" == Concat(files, n);
  }

  /** The generations together are always a suffix of all that was ever written. */
  lemma {:induction false} LogIsASuffix(files: Files, lines: seq<string>, maxBytes: nat, maxFiles: nat)
    requires maxFiles >= 1
    ensures IsSuffix(Concat(WrittenAll(files, lines, maxBytes, maxFiles), maxFiles),
      Concat(files, maxFiles) + Join(lines))
  {
    if lines == [] {
      assert Concat(files, maxFiles) + "" == Concat(files, maxFiles);
    } else {
      var front, line := lines[..|lines| - 1], lines[|lines| - 1];
      LogIsASuffix(files, front, maxBytes, maxFiles);
      var mid := WrittenAll(files, front, maxBytes, maxFiles);
      WriteLosesOldestOnly(mid, line, maxBytes, maxFiles);
      var all := Concat(files, maxFiles) + Join(front);
      assert Concat(files, maxFiles) + Join(lines) == all + line;
      SuffixGrows(Concat(mid, maxFiles), all, line,
                  if |Gen(mid, 0)| + |line| <= maxBytes then "" else Gen(mid, maxFiles),
                  Concat(Written(mid, line, maxBytes, maxFiles), maxFiles));
    }
  }

  lemma SuffixGrows(kept: string, all: string, line: string, lost: string, now: string)
    requires IsSuffix(kept, all) && lost + now == kept + line
    ensures IsSuffix(now, all + line)
  {
    assert all + line == all[..|all| - |kept|] + (kept + line);
    assert all + line == (all[..|all| - |kept|] + lost) + now;
  }

  /** The generations the logger manages. */
  function Managed(files: Files, n: nat): set<nat> { set i | i in files && i <= n }

  /** At most maxFiles + 1 managed files, none over the limit as long as no line is, and leftovers untouched. */
  lemma {:induction false} LogIsBounded(files: Files, lines: seq<string>, maxBytes: nat, maxFiles: nat)
    requires maxFiles >= 1 && forall i :: i in files && i <= maxFiles ==> |files[i]| <= maxBytes
    requires forall k :: 0 <= k < |lines| ==> |lines[k]| <= maxBytes
    ensures var t := WrittenAll(files, lines, maxBytes, maxFiles);
      && (forall i :: i in t && i <= maxFiles ==> |t[i]| <= maxBytes)
      && |Managed(t, maxFiles)| <= maxFiles + 1 && Leftovers(t, maxFiles) == Leftovers(files, maxFiles)
  {
    var t := WrittenAll(files, lines, maxBytes, maxFiles);
    if lines != [] {
      var front := lines[..|lines| - 1];
      LogIsBounded(files, front, maxBytes, maxFiles);
      assert forall k :: 0 <= k < |front| ==> |front[k]| <= maxBytes;
      WriteIsBounded(WrittenAll(files, front, maxBytes, maxFiles), lines[|lines| - 1], maxBytes, maxFiles);
    }
    BoundedKeys(Managed(t, maxFiles), maxFiles + 1);
  }

  lemma WriteIsBounded(files: Files, line: string, maxBytes: nat, maxFiles: nat)
    requires maxFiles >= 1 && |line| <= maxBytes && forall i :: i in files && i <= maxFiles ==> |files[i]| <= maxBytes
    ensures var t := Written(files, line, maxBytes, maxFiles);
      && (forall i :: i in t && i <= maxFiles ==> |t[i]| <= maxBytes)
      && Leftovers(t, maxFiles) == Leftovers(files, maxFiles)
  {
  }

  lemma {:induction false} BoundedKeys(keys: set<nat>, n: nat)
    requires forall i :: i in keys ==> i < n
    ensures |keys| <= n
  {
    if n > 0 {
      var rest := keys - {n - 1};
      BoundedKeys(rest, n - 1);
      if n - 1 in keys { assert keys == rest + {n - 1}; } else { assert keys == rest; }
    } else {
      assert keys == {};
    }
  }
}

/**
 * maildirreconstruct (src/maildirreconstruct.c): rebuilds a maildir from
 * fragments by hard-linking every non-empty message and metadata file of
 * each source into an initially empty target.  A name that is already
 * linked is compared with the source; mail never overwrites, metadata
 * replaces a strictly older target.  Every problem adds to an error count
 * that decides the exit status.
 */
module Reconstruct {
  import opened Wrappers
  import opened Fs
  import opened FileTools

  // ---------------------------------------------------------------------
  // timespec_cmp

  /** timespec_cmp(a, b): -1, 0 or 1 as `a` is before, equal to or after `b`, seconds first. */
  function TimespecCmp(a: Timespec, b: Timespec): (r: int)
    ensures -1 <= r <= 1
    ensures r == 0 <==> a == b
    ensures r < 0 <==> a.sec < b.sec || (a.sec == b.sec && a.nsec < b.nsec)
  {
    if a.sec < b.sec then -1
    else if a.sec > b.sec then 1
    else if a.nsec < b.nsec then -1
    else if a.nsec > b.nsec then 1
    else 0
  }

  /** Swapping the arguments negates the comparison. */
  lemma TimespecAntisymmetric(a: Timespec, b: Timespec)
    ensures TimespecCmp(a, b) == -TimespecCmp(b, a)
  {
  }

  /** The filesystem after a step of the copy, and the number of errors it counted. */
  datatype Done = Done(s: State, ec: int)

  /** The filesystem after the overlays, and each source's error count. */
  datatype Overlaid = Overlaid(s: State, errors: seq<int>)

  // ---------------------------------------------------------------------
  // Linking one file

  /**
   * Lines 246-282 (mdir) and 404-439 (overlay): link `name` from `from` into
   * `to`.  An existing target is compared with the source (the byte
   * comparison of files_identical, whose stat of the source is `st`).
   * Differing content counts an error, unless `replaceOlder` allows a
   * strictly older target to be unlinked and the link retried.
   */
  function LinkEntry(s: State, from: int, to: int, name: string, st: Stat, replaceOlder: bool): (r: Done)
    ensures 0 <= r.ec <= 1
  {
    var l := LinkAt(s, from, [name], to, [name]);
    if l.1.Ok? then Done(l.0, 0)
    else if l.1.errno != EEXIST then Done(s, 1)
    else match FilesIdentical(s, from, [name], Some(st), to, [name], None, false)
      case Identical => Done(s, 0)
      case Failed => Done(s, 1)
      case Different =>
        if !replaceOlder then Done(s, 1)
        else (match FStatAt(s, to, [name])
          case Err(_) => Done(s, 1)
          case Ok(st2) =>
            if TimespecCmp(st2.mtime, st.mtime) >= 0 then Done(s, 0)
            else
              var u := UnlinkAt(s, to, [name]);
              if u.1.Err? then Done(s, 1)
              else
                var l2 := LinkAt(u.0, from, [name], to, [name]);
                if l2.1.Ok? then Done(l2.0, 0) else Done(u.0, 1))
  }

  /**
   * The retried link after a successful unlink never meets EEXIST, so the
   * goto of lines 275 and 432 runs at most once and the model's single retry
   * is the whole loop.
   */
  lemma RetryNeverCollides(s: State, from: int, to: int, name: string)
    requires UnlinkAt(s, to, [name]).1.Ok?
    ensures LinkAt(UnlinkAt(s, to, [name]).0, from, [name], to, [name]).1 != Err(EEXIST)
  {
    var u := UnlinkAt(s, to, [name]).0;
    assert [name][..0] == [];
    var d := ParentDir(s, to, [name]).value;
    assert Resolve(s, to, []) == Ok(to);
    assert d == to;
    assert u == Drop(s, to, name);
    assert ParentDir(u, to, [name]) == Ok(to) by {
      assert Resolve(u, to, []) == Ok(to);
    }
    assert [name][1..] == [];
    assert Step(u, from, name).Err? ==> Step(u, from, name).errno != EEXIST;
    if from >= 0 && from in u.nodes && Step(u, from, name).Ok? {
      assert Walk(u, Step(u, from, name).value, []).Ok?;
    }
    assert Resolve(u, from, [name]).Err? ==> Resolve(u, from, [name]).errno != EEXIST;
    assert name !in DotNames && name !in u.nodes[to].entries;
  }

  /** The source and the target entry are the same inode (the file is already linked). */
  ghost predicate Linked(s: State, from: int, to: int, name: string)
  {
    Resolve(s, from, [name]).Ok? && Resolve(s, to, [name]) == Resolve(s, from, [name]) &&
    s.nodes[Resolve(s, from, [name]).value].meta.accessible
  }

  /**
   * A collision with the very same file changes nothing and counts no
   * error: running the reconstruction again over an already linked target
   * is error-free.
   */
  lemma LinkedIsQuiet(s: State, from: int, to: int, name: string, replaceOlder: bool)
    requires Linked(s, from, to, name)
    requires LinkAt(s, from, [name], to, [name]).1.Err?
    requires LinkAt(s, from, [name], to, [name]).1.errno == EEXIST
    ensures LinkEntry(s, from, to, name, FStatAt(s, from, [name]).value, replaceOlder) == Done(s, 0)
  {
    var x := Resolve(s, from, [name]).value;
    var st := FStatAt(s, from, [name]).value;
    assert FStatAt(s, to, [name]) == Ok(st);
    assert OpenAt(s, from, [name], false) == Ok(x) == OpenAt(s, to, [name], false);
    assert Contents(s, from, [name]) == Contents(s, to, [name]);
    assert FilesIdentical(s, from, [name], Some(st), to, [name], None, false) ==
           Decide(st, st, false, Contents(s, from, [name]), Contents(s, from, [name]));
  }

  /**
   * A mail file never overwrites: with differing content and without
   * `replaceOlder` the target is left untouched and one error is counted.
   * With `replaceOlder` the target is replaced only when its mtime is
   * strictly older than the source's, and left alone without error
   * otherwise.
   */
  lemma CollisionRules(s: State, from: int, to: int, name: string, st: Stat, replaceOlder: bool)
    requires LinkAt(s, from, [name], to, [name]).1 == Err(EEXIST)
    requires FilesIdentical(s, from, [name], Some(st), to, [name], None, false) == Different
    ensures !replaceOlder ==> LinkEntry(s, from, to, name, st, replaceOlder) == Done(s, 1)
    ensures replaceOlder && FStatAt(s, to, [name]).Ok? && TimespecCmp(FStatAt(s, to, [name]).value.mtime, st.mtime) >= 0 ==>
              LinkEntry(s, from, to, name, st, replaceOlder) == Done(s, 0)
    ensures LinkEntry(s, from, to, name, st, replaceOlder).s != s ==>
              replaceOlder && FStatAt(s, to, [name]).Ok? && FStatAt(s, to, [name]).value.mtime != st.mtime &&
              TimespecCmp(FStatAt(s, to, [name]).value.mtime, st.mtime) < 0 && UnlinkAt(s, to, [name]).1.Ok?
  {
  }

  // ---------------------------------------------------------------------
  // mdir

  /** Lines 221-283 for one entry of a base directory. */
  function MdirEntry(s: State, from: int, to: int, e: Dirent, extra: bool): (r: Done)
    ensures 0 <= r.ec <= 1
  {
    if e.name in DotNames then Done(s, 0)
    else if e.dtype != DT_REG && e.dtype != DT_UNKNOWN then Done(s, 1)
    else match FStatAt(s, from, [e.name])
      case Err(_) => Done(s, 1)
      case Ok(st) =>
        if st.kind != Regular then Done(s, 1)
        else if st.size == 0 then Done(s, 0)
        else LinkEntry(s, from, to, e.name, st, extra)
  }

  /** Lines 240-244: a zero-byte file (an unhealed fragment) is never linked and is not an error. */
  lemma EmptyFileSkipped(s: State, from: int, to: int, e: Dirent, extra: bool)
    requires FStatAt(s, from, [e.name]).Ok? && FStatAt(s, from, [e.name]).value.size == 0
    ensures MdirEntry(s, from, to, e, extra).s == s
  {
  }

  /** The readdir loop of lines 221-283. */
  function MdirEntries(s: State, from: int, to: int, es: seq<Dirent>, extra: bool): (r: Done)
    ensures 0 <= r.ec <= |es|
    decreases |es|
  {
    if es == [] then Done(s, 0)
    else
      var a := MdirEntry(s, from, to, es[0], extra);
      var b := MdirEntries(a.s, from, to, es[1..], extra);
      Done(b.s, a.ec + b.ec)
  }

  /** Lines 196-219: open the two directories of a base and link its entries. */
  function CopyBase(s: State, targetfd: int, sourcefd: int, base: string, extra: bool): (r: Done)
    ensures r.ec >= 0
  {
    match OpenAt(s, targetfd, [base], true)
      case Err(_) => Done(s, 1)
      case Ok(linkto) =>
        match OpenAt(s, sourcefd, [base], true)
          case Err(e) => Done(s, if e == ENOENT && !extra then 0 else 1)
          case Ok(linkfrom) => MdirEntries(s, linkfrom, linkto, Listing(s, linkfrom), extra)
  }

  /** The base name a phase works on: a leading `-` marks a directory that is created but not copied. */
  predicate NoCopy(b: string)
  {
    |b| > 0 && b[0] == '-'
  }

  function BaseName(b: string): string
  {
    if NoCopy(b) then b[1..] else b
  }

  /**
   * Lines 167-219 for one phase: make sure the target has the directory
   * (creating it when missing), then copy unless the phase is marked `-`.
   */
  function Phase(s: State, targetfd: int, sourcefd: int, b: string, extra: bool): (r: Done)
    ensures r.ec >= 0
  {
    var base := BaseName(b);
    match FStatAt(s, targetfd, [base])
      case Ok(st) =>
        if st.kind != Directory then Done(s, 1)
        else if NoCopy(b) then Done(s, 0)
        else CopyBase(s, targetfd, sourcefd, base, extra)
      case Err(e) =>
        if e != ENOENT then Done(s, 1)
        else
          var m := MkdirAt(s, targetfd, [base]);
          if m.1.Err? then Done(s, 1)
          else if NoCopy(b) then Done(m.0, 0)
          else CopyBase(m.0, targetfd, sourcefd, base, extra)
  }

  /** Lines 174-176 and 193-194: the tmp phase only ever creates the target's tmp; it links nothing. */
  lemma TmpNeverLinked(s: State, targetfd: int, sourcefd: int, extra: bool)
    ensures var r := Phase(s, targetfd, sourcefd, "-tmp", extra);
            (r.s == s || r.s == MkdirAt(s, targetfd, ["tmp"]).0) && r.ec <= 1
  {
    assert NoCopy("-tmp") && BaseName("-tmp") == "tmp";
  }

  /**
   * Lines 202-208: a message directory (not a metadata one) that the source
   * lacks is reported but nets no error.
   */
  lemma MissingSourceBaseIsNoError(s: State, targetfd: int, sourcefd: int, base: string)
    requires OpenAt(s, targetfd, [base], true).Ok?
    requires OpenAt(s, sourcefd, [base], true) == Err(ENOENT)
    ensures CopyBase(s, targetfd, sourcefd, base, false) == Done(s, 0)
    ensures CopyBase(s, targetfd, sourcefd, base, true) == Done(s, 1)
  {
  }

  /** The phases of a fragment's maildir, as `bases` of line 145. */
  const Bases: seq<string> := ["cur", "new", "-tmp"]

  /** The phases `bs` in order, each with the same `extra` flag. */
  function Phases(s: State, targetfd: int, sourcefd: int, bs: seq<string>, extra: bool): (r: Done)
    ensures r.ec >= 0
    decreases |bs|
  {
    if bs == [] then Done(s, 0)
    else
      var a := Phase(s, targetfd, sourcefd, bs[0], extra);
      var b := Phases(a.s, targetfd, sourcefd, bs[1..], extra);
      Done(b.s, a.ec + b.ec)
  }

  /** mdir(target, targetfd, source, sourcefd, rel, extra_folders): cur, new, tmp, then each deferred metadata directory. */
  function MdirSpec(s: State, targetfd: int, sourcefd: int, extraFolders: seq<string>): (r: Done)
    ensures r.ec >= 0
  {
    var a := Phases(s, targetfd, sourcefd, Bases, false);
    var b := Phases(a.s, targetfd, sourcefd, extraFolders, true);
    Done(b.s, a.ec + b.ec)
  }

  // ---------------------------------------------------------------------
  // overlay

  /** Line 314-319: names overlay never looks at (the maildir's own structure). */
  const OverlaySkips: set<string> := {".", "..", "new", "cur", "tmp", "maildirfolder", "maildirsize"}

  /** The file that marks a maildir as a sub-folder. */
  const FolderMark := "maildirfolder"

  /** The scan of a source's top directory: the filesystem, the error count, the deferred metadata directories. */
  datatype Scan = Scan(s: State, ec: int, deferred: seq<string>)

  /** What a listed, non-skipped entry is, from d_type or, when that is unknown, from the stat. */
  predicate IsDirEntry(e: Dirent, st: Option<Stat>)
  {
    e.dtype == DT_DIR || (st.Some? && st.value.kind == Directory)
  }

  predicate IsRegEntry(e: Dirent, st: Option<Stat>)
  {
    e.dtype == DT_REG || (st.Some? && st.value.kind == Regular)
  }

  /** The stat of lines 327-334: taken only for an unknown d_type. */
  function EntryStat(s: State, sourcefd: int, e: Dirent): Res<Option<Stat>>
  {
    if e.dtype != DT_UNKNOWN then Ok(None)
    else match FStatAt(s, sourcefd, [e.name])
      case Err(err) => Err(err)
      case Ok(st) => Ok(Some(st))
  }

  /**
   * Lines 313-445 for one entry.  A dot-directory is a sub-folder, followed
   * only from the root; a directory named like a metadata file is deferred
   * to mdir; a regular metadata file is linked under the newer-wins rule;
   * any other directory or file is ignored; anything else is an error.
   */
  function OverlayEntry(sc: Scan, cwd: int, targetfd: int, sourcefd: int, source: Path, e: Dirent,
                        metafiles: seq<string>, root: bool): (r: Scan)
    ensures r.ec >= sc.ec
    ensures r.deferred == sc.deferred ||
            (r.deferred == sc.deferred + [e.name] && e.name in metafiles && e.name !in OverlaySkips)
    decreases if root then 1 else 0, 0, 1
  {
    if e.name in OverlaySkips then sc
    else match EntryStat(sc.s, sourcefd, e)
      case Err(_) => sc.(ec := sc.ec + 1)
      case Ok(st) =>
        if IsDirEntry(e, st) then
          if |e.name| > 0 && e.name[0] == '.' then
            if root then SubFolder(sc, cwd, targetfd, source, e.name, metafiles) else sc
          else if e.name in metafiles then sc.(deferred := sc.deferred + [e.name])
          else sc
        else if IsRegEntry(e, st) then
          if e.name !in metafiles then sc
          else
            var full := if st.Some? then Ok(st.value) else FStatAt(sc.s, sourcefd, [e.name]);
            if full.Err? then sc.(ec := sc.ec + 1)
            else if full.value.size == 0 then sc
            else
              var l := LinkEntry(sc.s, sourcefd, targetfd, e.name, full.value, true);
              Scan(l.s, sc.ec + l.ec, sc.deferred)
        else sc.(ec := sc.ec + 1)
  }

  /** The sub-folder made and opened in the target, or the state in which that failed. */
  datatype Entered = NotEntered(s: State) | Entered(s: State, sub: int)

  /**
   * Lines 354-365: make the sub-folder in the target (an existing one is
   * fine), open it as a directory and mark it with maildirfolder (a failure
   * only warns).
   */
  function EnterSubFolder(s: State, targetfd: int, name: string): (r: Entered)
  {
    var m := MkdirAt(s, targetfd, [name]);
    if m.1.Err? && m.1.errno != EEXIST then NotEntered(s)
    else match OpenAt(m.0, targetfd, [name], true)
      case Err(_) => NotEntered(m.0)
      case Ok(sub) => Entered(CreateAt(m.0, sub, [FolderMark], false).0, sub)
  }

  /**
   * Lines 354-365: the sub-folder is entered exactly when mkdirat succeeds
   * or finds it there and it then opens as a directory; the directory
   * entered is that one, and it carries a maildirfolder entry.
   */
  lemma SubFolderMarked(s: State, targetfd: int, name: string)
    requires Fresh(s)
    ensures var m := MkdirAt(s, targetfd, [name]);
            var r := EnterSubFolder(s, targetfd, name);
            (r.Entered? <==> (m.1.Ok? || m.1.errno == EEXIST) && OpenAt(m.0, targetfd, [name], true).Ok?) &&
            (r.Entered? ==> OpenAt(m.0, targetfd, [name], true) == Ok(r.sub) &&
                            IsDir(r.s, r.sub) && FolderMark in r.s.nodes[r.sub].entries)
  {
    var m := MkdirAt(s, targetfd, [name]);
    if (m.1.Ok? || m.1.errno == EEXIST) && OpenAt(m.0, targetfd, [name], true).Ok? {
      CreateLeavesEntry(m.0, OpenAt(m.0, targetfd, [name], true).value, FolderMark);
    }
  }

  /** Lines 338-372: enter the sub-folder, then overlay the source's sub-folder onto it; failing to enter counts one error. */
  function SubFolder(sc: Scan, cwd: int, targetfd: int, source: Path, name: string, metafiles: seq<string>): (r: Scan)
    ensures r.ec >= sc.ec && r.deferred == sc.deferred
    decreases 1, 0, 0
  {
    match EnterSubFolder(sc.s, targetfd, name)
      case NotEntered(s1) => Scan(s1, sc.ec + 1, sc.deferred)
      case Entered(s2, sub) =>
        var r := OverlaySpec(s2, cwd, sub, source + [name], metafiles, false);
        Scan(r.s, sc.ec + r.ec, sc.deferred)
  }

  /** The readdir loop of lines 313-445. */
  function OverlayScan(sc: Scan, cwd: int, targetfd: int, sourcefd: int, source: Path, es: seq<Dirent>,
                       metafiles: seq<string>, root: bool): (r: Scan)
    ensures r.ec >= sc.ec
    decreases if root then 1 else 0, 1, |es|
  {
    if es == [] then sc
    else OverlayScan(OverlayEntry(sc, cwd, targetfd, sourcefd, source, es[0], metafiles, root),
                     cwd, targetfd, sourcefd, source, es[1..], metafiles, root)
  }

  /** overlay(target, targetfd, source, metafiles, root): the scan, then mdir with the deferred directories. */
  function OverlaySpec(s: State, cwd: int, targetfd: int, source: Path, metafiles: seq<string>, root: bool): (r: Done)
    ensures r.ec >= 0
    decreases if root then 1 else 0, 2, 0
  {
    match OpenAt(s, cwd, source, true)
      case Err(_) => Done(s, 1)
      case Ok(sourcefd) =>
        var sc := OverlayScan(Scan(s, 0, []), cwd, targetfd, sourcefd, source, Listing(s, sourcefd), metafiles, root);
        var m := MdirSpec(sc.s, targetfd, sourcefd, sc.deferred);
        Done(m.s, sc.ec + m.ec)
  }

  /**
   * The classification of lines 314-388: the maildir's own names, and below
   * the root every dot-directory, change nothing and count nothing; a
   * metadata directory is only deferred; a directory or regular file that
   * is not metadata is ignored.
   */
  lemma OverlayClassification(sc: Scan, cwd: int, targetfd: int, sourcefd: int, source: Path, e: Dirent,
                              metafiles: seq<string>, root: bool)
    ensures e.name in OverlaySkips ==> OverlayEntry(sc, cwd, targetfd, sourcefd, source, e, metafiles, root) == sc
    ensures e.name !in OverlaySkips && EntryStat(sc.s, sourcefd, e).Ok? ==>
              var st := EntryStat(sc.s, sourcefd, e).value;
              var r := OverlayEntry(sc, cwd, targetfd, sourcefd, source, e, metafiles, root);
              (IsDirEntry(e, st) && |e.name| > 0 && e.name[0] == '.' && !root ==> r == sc) &&
              (IsDirEntry(e, st) && !(|e.name| > 0 && e.name[0] == '.') ==>
                 r == if e.name in metafiles then sc.(deferred := sc.deferred + [e.name]) else sc) &&
              (!IsDirEntry(e, st) && IsRegEntry(e, st) && e.name !in metafiles ==> r == sc) &&
              (!IsDirEntry(e, st) && !IsRegEntry(e, st) ==> r == sc.(ec := sc.ec + 1))
    ensures e.name !in OverlaySkips && EntryStat(sc.s, sourcefd, e).Err? ==>
              OverlayEntry(sc, cwd, targetfd, sourcefd, source, e, metafiles, root) == sc.(ec := sc.ec + 1)
  {
  }

  /** Entries that are not dot-directories of the root never change the deferred list other than by appending their own name. */
  lemma {:induction false} DeferredAreMetafiles(sc: Scan, cwd: int, targetfd: int, sourcefd: int, source: Path,
                                                es: seq<Dirent>, metafiles: seq<string>, root: bool)
    ensures var r := OverlayScan(sc, cwd, targetfd, sourcefd, source, es, metafiles, root);
            |sc.deferred| <= |r.deferred| && r.deferred[..|sc.deferred|] == sc.deferred &&
            forall k | |sc.deferred| <= k < |r.deferred| :: r.deferred[k] in metafiles && r.deferred[k] !in OverlaySkips
    decreases |es|
  {
    if es != [] {
      var sc1 := OverlayEntry(sc, cwd, targetfd, sourcefd, source, es[0], metafiles, root);
      DeferredAreMetafiles(sc1, cwd, targetfd, sourcefd, source, es[1..], metafiles, root);
      var r := OverlayScan(sc1, cwd, targetfd, sourcefd, source, es[1..], metafiles, root);
      assert r.deferred[..|sc.deferred|] == r.deferred[..|sc1.deferred|][..|sc.deferred|];
    }
  }

  // ---------------------------------------------------------------------
  // main

  /** Lines 502-522: the target lists nothing but `.` and `..`. */
  ghost predicate ListsOnlyDots(s: State, d: int)
    requires IsDir(s, d)
  {
    forall i | 0 <= i < |Listing(s, d)| :: Listing(s, d)[i].name in DotNames
  }

  /** With a well-behaved readdir, the emptiness check holds exactly for a directory without entries. */
  lemma OnlyDotsIffEmpty(s: State, d: int)
    requires IsDir(s, d) && OrderOk(s)
    requires forall n | n in s.nodes[d].entries :: ProperName(n)
    ensures ListsOnlyDots(s, d) <==> s.nodes[d].entries == map[]
  {
    var names := s.order(s.nodes[d].entries.Keys + DotNames);
    assert Enumerates(names, s.nodes[d].entries.Keys + DotNames);
    if s.nodes[d].entries != map[] {
      var n :| n in s.nodes[d].entries;
      assert n in names;
      var i :| 0 <= i < |names| && names[i] == n;
      assert Listing(s, d)[i].name == n;
    }
  }

  /** The sum of the per-source error counts of line 527. */
  function Sum(xs: seq<int>): int
    decreases |xs|
  {
    if xs == [] then 0 else xs[0] + Sum(xs[1..])
  }

  /** With counts that are never negative, the sum is nonzero exactly when some count is. */
  lemma {:induction false} SumNonzero(xs: seq<int>)
    requires forall i | 0 <= i < |xs| :: xs[i] >= 0
    ensures Sum(xs) >= 0
    ensures Sum(xs) != 0 <==> exists i | 0 <= i < |xs| :: xs[i] > 0
    decreases |xs|
  {
    if xs != [] {
      SumNonzero(xs[1..]);
      if exists i | 0 <= i < |xs[1..]| :: xs[1..][i] > 0 {
        var i :| 0 <= i < |xs[1..]| && xs[1..][i] > 0;
        assert xs[i + 1] > 0;
      }
      if exists i | 0 <= i < |xs| :: xs[i] > 0 {
        var i :| 0 <= i < |xs| && xs[i] > 0;
        if i > 0 {
          assert xs[1..][i - 1] > 0;
        }
      }
    }
  }

  /** Lines 526-527: overlay each source onto the target in turn; one count per source. */
  function Overlays(s: State, cwd: int, targetfd: int, sources: seq<Path>, metafiles: seq<string>): (r: Overlaid)
    ensures |r.errors| == |sources| && forall i | 0 <= i < |r.errors| :: r.errors[i] >= 0
    decreases |sources|
  {
    if sources == [] then Overlaid(s, [])
    else
      var a := OverlaySpec(s, cwd, targetfd, sources[0], metafiles, true);
      var b := Overlays(a.s, cwd, targetfd, sources[1..], metafiles);
      Overlaid(b.s, [a.ec] + b.errors)
  }

  /** How main ends: the filesystem, the exit status, and each source's error count (empty when no overlay ran). */
  datatype RunResult = RunResult(s: State, code: int, errors: seq<int>)

  function Finish(s: State, cwd: int, targetfd: int, sources: seq<Path>, metafiles: seq<string>): RunResult
  {
    var o := Overlays(s, cwd, targetfd, sources, metafiles);
    RunResult(o.s, if Sum(o.errors) != 0 then 2 else 0, o.errors)
  }

  /**
   * main(argc, argv): `args` are the folders, target first, and `metafiles`
   * is maildir_get_all_metafiles().  A missing target is created; an
   * existing one must be empty.
   */
  function RunSpec(s: State, cwd: int, metafiles: seq<string>, args: seq<Path>): (r: RunResult)
    ensures r.code in {0, 1, 2}
    ensures r.code == 1 ==> r.errors == []
    ensures r.code != 1 ==> |args| > 0 && |r.errors| == |args| - 1
  {
    if args == [] then RunResult(s, 1, [])
    else match OpenAt(s, cwd, args[0], true)
      case Ok(targetfd) =>
        if !(forall i | 0 <= i < |Listing(s, targetfd)| :: Listing(s, targetfd)[i].name in DotNames)
        then RunResult(s, 1, [])
        else Finish(s, cwd, targetfd, args[1..], metafiles)
      case Err(e) =>
        if e != ENOENT then RunResult(s, 1, [])
        else
          var m := MkdirAt(s, cwd, args[0]);
          if m.1.Err? then RunResult(s, 1, [])
          else (match OpenAt(m.0, cwd, args[0], true)
            case Err(_) => RunResult(m.0, 1, [])
            case Ok(targetfd) => Finish(m.0, cwd, targetfd, args[1..], metafiles))
  }

  /**
   * Lines 525-531: once the overlays ran, the exit status is 2 exactly when
   * some source counted an error, and 0 otherwise.
   */
  lemma ExitStatusRule(s: State, cwd: int, metafiles: seq<string>, args: seq<Path>)
    ensures var r := RunSpec(s, cwd, metafiles, args);
            r.code != 1 ==> (r.code == 2 <==> exists i | 0 <= i < |r.errors| :: r.errors[i] > 0)
  {
    var r := RunSpec(s, cwd, metafiles, args);
    if r.code != 1 {
      SumNonzero(r.errors);
    }
  }

  /** Lines 502-522: an existing target that lists any entry besides `.` and `..` stops main with status 1, untouched. */
  lemma NonEmptyTargetRefused(s: State, cwd: int, metafiles: seq<string>, args: seq<Path>)
    requires |args| > 0 && OpenAt(s, cwd, args[0], true).Ok?
    requires !ListsOnlyDots(s, OpenAt(s, cwd, args[0], true).value)
    ensures RunSpec(s, cwd, metafiles, args) == RunResult(s, 1, [])
  {
  }

  // ---------------------------------------------------------------------
  // The operations on one mutable filesystem

  /** The linking of lines 246-282 and 404-439, with its single retry after the unlink. */
  method LinkOne(fs: FileSystem, from: int, to: int, name: string, st: Stat, replaceOlder: bool) returns (ec: int)
    modifies fs
    ensures Done(fs.s, ec) == LinkEntry(old(fs.s), from, to, name, st, replaceOlder)
  {
    var l := fs.Link(from, [name], to, [name]);
    if l.Ok? {
      return 0;
    }
    if l.errno != EEXIST {
      return 1;
    }
    var same, _, _ := FilesIdenticalSteps(fs.s, from, [name], Some(st), to, [name], None, false);
    if same == 1 {
      return 0;
    }
    if same < 0 || !replaceOlder {
      return 1;
    }
    var st2 := FStatAt(fs.s, to, [name]);
    if st2.Err? {
      return 1;
    }
    if TimespecCmp(st2.value.mtime, st.mtime) >= 0 {
      return 0;
    }
    var u := fs.Unlink(to, [name]);
    if u.Err? {
      return 1;
    }
    l := fs.Link(from, [name], to, [name]);
    ec := if l.Ok? then 0 else 1;
  }

  /** The readdir loop of lines 221-283 over the listing `es` of the source base. */
  method CopyEntries(fs: FileSystem, from: int, to: int, es: seq<Dirent>, extra: bool) returns (ec: int)
    modifies fs
    ensures Done(fs.s, ec) == MdirEntries(old(fs.s), from, to, es, extra)
  {
    ec := 0;
    var i := 0;
    while i < |es|
      invariant 0 <= i <= |es|
      invariant MdirEntries(old(fs.s), from, to, es, extra) ==
                Done(MdirEntries(fs.s, from, to, es[i..], extra).s, ec + MdirEntries(fs.s, from, to, es[i..], extra).ec)
    {
      ghost var before := fs.s;
      var k := CopyEntry(fs, from, to, es[i], extra);
      MdirEntriesStep(old(fs.s), before, fs.s, k, ec, from, to, es, i, extra);
      ec := ec + k;
      i := i + 1;
    }
  }

  /** The loop of lines 221-283 after one more entry. */
  lemma MdirEntriesStep(s0: State, s: State, s': State, k: int, ec: int, from: int, to: int, es: seq<Dirent>, i: nat,
                        extra: bool)
    requires i < |es|
    requires MdirEntries(s0, from, to, es, extra) ==
             Done(MdirEntries(s, from, to, es[i..], extra).s, ec + MdirEntries(s, from, to, es[i..], extra).ec)
    requires Done(s', k) == MdirEntry(s, from, to, es[i], extra)
    ensures MdirEntries(s0, from, to, es, extra) ==
            Done(MdirEntries(s', from, to, es[i + 1..], extra).s, ec + k + MdirEntries(s', from, to, es[i + 1..], extra).ec)
  {
    assert es[i..][0] == es[i] && es[i..][1..] == es[i + 1..];
  }

  /** Lines 221-283 for one entry. */
  method CopyEntry(fs: FileSystem, from: int, to: int, e: Dirent, extra: bool) returns (ec: int)
    modifies fs
    ensures Done(fs.s, ec) == MdirEntry(old(fs.s), from, to, e, extra)
  {
    ec := 0;
    if e.name !in DotNames {
      if e.dtype != DT_REG && e.dtype != DT_UNKNOWN {
        ec := 1;
      } else {
        var st := FStatAt(fs.s, from, [e.name]);
        if st.Err? || st.value.kind != Regular {
          ec := 1;
        } else if st.value.size > 0 {
          ec := LinkOne(fs, from, to, e.name, st.value, extra);
        }
      }
    }
  }

  /** Lines 196-219. */
  method Copy(fs: FileSystem, targetfd: int, sourcefd: int, base: string, extra: bool) returns (ec: int)
    modifies fs
    ensures Done(fs.s, ec) == CopyBase(old(fs.s), targetfd, sourcefd, base, extra)
  {
    var linkto := OpenAt(fs.s, targetfd, [base], true);
    if linkto.Err? {
      return 1;
    }
    var linkfrom := OpenAt(fs.s, sourcefd, [base], true);
    if linkfrom.Err? {
      ec := 1;
      if linkfrom.errno == ENOENT && !extra {
        ec := ec - 1;
      }
      return;
    }
    ec := CopyEntries(fs, linkfrom.value, linkto.value, Listing(fs.s, linkfrom.value), extra);
  }

  /** Lines 167-219 for the phase named by `b`. */
  method RunPhase(fs: FileSystem, targetfd: int, sourcefd: int, b: string, extra: bool) returns (ec: int)
    modifies fs
    ensures Done(fs.s, ec) == Phase(old(fs.s), targetfd, sourcefd, b, extra)
  {
    var nocopy := |b| > 0 && b[0] == '-';
    var base := if nocopy then b[1..] else b;
    var st := FStatAt(fs.s, targetfd, [base]);
    if st.Ok? {
      if st.value.kind != Directory {
        return 1;
      }
    } else if st.errno == ENOENT {
      var m := fs.Mkdir(targetfd, [base]);
      if m.Err? {
        return 1;
      }
    } else {
      return 1;
    }
    if nocopy {
      return 0;
    }
    ec := Copy(fs, targetfd, sourcefd, base, extra);
  }

  /** What is left of mdir: the phases `list[i..]` with flag `extra`, then the `pending` metadata directories. */
  ghost function Remaining(s: State, targetfd: int, sourcefd: int, list: seq<string>, extra: bool, pending: seq<string>): Done
  {
    var a := Phases(s, targetfd, sourcefd, list, extra);
    var b := Phases(a.s, targetfd, sourcefd, pending, true);
    Done(b.s, a.ec + b.ec)
  }

  /** `r` with `ec` errors counted before it. */
  function Offset(r: Done, ec: int): Done
  {
    Done(r.s, ec + r.ec)
  }

  lemma RemainingStep(s: State, targetfd: int, sourcefd: int, list: seq<string>, extra: bool, pending: seq<string>)
    requires list != []
    ensures var p := Phase(s, targetfd, sourcefd, list[0], extra);
            Remaining(s, targetfd, sourcefd, list, extra, pending) ==
            Offset(Remaining(p.s, targetfd, sourcefd, list[1..], extra, pending), p.ec)
  {
  }

  lemma RemainingSwitch(s: State, targetfd: int, sourcefd: int, pending: seq<string>)
    ensures Remaining(s, targetfd, sourcefd, [], false, pending) == Remaining(s, targetfd, sourcefd, pending, true, [])
  {
  }

  /** The cursor starts at the first of cur, new and -tmp. */
  lemma MdirStart(s: State, targetfd: int, sourcefd: int, extraFolders: seq<string>)
    ensures MdirSpec(s, targetfd, sourcefd, extraFolders) ==
            Offset(Remaining(s, targetfd, sourcefd, Bases[0..], false, extraFolders), 0)
  {
    assert Bases[0..] == Bases;
  }

  /** With the cursor past the end and nothing pending, everything has run. */
  lemma MdirDone(goal: Done, s: State, ec: int, targetfd: int, sourcefd: int, list: seq<string>, extra: bool)
    requires goal == Offset(Remaining(s, targetfd, sourcefd, list[|list|..], extra, []), ec)
    ensures goal == Done(s, ec)
  {
    assert list[|list|..] == [];
  }

  /** Past cur, new and -tmp the cursor moves, once, to the deferred metadata directories. */
  lemma MdirSwitch(goal: Done, s: State, ec: int, targetfd: int, sourcefd: int, list: seq<string>, extra: bool,
                   pending: seq<string>)
    requires pending != [] && (extra ==> pending == [])
    requires goal == Offset(Remaining(s, targetfd, sourcefd, list[|list|..], extra, pending), ec)
    ensures goal == Offset(Remaining(s, targetfd, sourcefd, pending[0..], true, []), ec)
  {
    assert list[|list|..] == [] && pending[0..] == pending;
    RemainingSwitch(s, targetfd, sourcefd, pending);
  }

  /** Running the phase under the cursor advances it by one. */
  lemma MdirAdvance(goal: Done, s: State, s': State, k: int, ec: int, targetfd: int, sourcefd: int,
                    list: seq<string>, i: int, extra: bool, pending: seq<string>)
    requires 0 <= i < |list|
    requires goal == Offset(Remaining(s, targetfd, sourcefd, list[i..], extra, pending), ec)
    requires Done(s', k) == Phase(s, targetfd, sourcefd, list[i], extra)
    ensures goal == Offset(Remaining(s', targetfd, sourcefd, list[i + 1..], extra, pending), ec + k)
  {
    assert list[i..][0] == list[i] && list[i..][1..] == list[i + 1..];
    RemainingStep(s, targetfd, sourcefd, list[i..], extra, pending);
  }

  /**
   * mdir: the cursor `bi` walks cur, new and -tmp and then, exactly once,
   * the deferred metadata directories (an empty list is the C NULL).
   */
  method Mdir(fs: FileSystem, targetfd: int, sourcefd: int, extraFolders: seq<string>) returns (ec: int)
    modifies fs
    ensures Done(fs.s, ec) == MdirSpec(old(fs.s), targetfd, sourcefd, extraFolders)
  {
    var list := Bases;
    var pending := extraFolders;
    var extra := false;
    var i := 0;
    ec := 0;
    ghost var goal := MdirSpec(fs.s, targetfd, sourcefd, extraFolders);
    MdirStart(fs.s, targetfd, sourcefd, extraFolders);
    while true
      invariant 0 <= i <= |list| && |list| > 0
      invariant extra ==> pending == []
      invariant goal == Offset(Remaining(fs.s, targetfd, sourcefd, list[i..], extra, pending), ec)
      decreases |pending|, |list| - i
    {
      if i == |list| {
        if pending == [] {
          MdirDone(goal, fs.s, ec, targetfd, sourcefd, list, extra);
          break;
        }
        MdirSwitch(goal, fs.s, ec, targetfd, sourcefd, list, extra, pending);
        list, pending, extra, i := pending, [], true, 0;
      }
      ghost var before := fs.s;
      var k := RunPhase(fs, targetfd, sourcefd, list[i], extra);
      MdirAdvance(goal, before, fs.s, k, ec, targetfd, sourcefd, list, i, extra, pending);
      ec := ec + k;
      i := i + 1;
    }
  }

  /** Lines 338-372. */
  method MakeSubFolder(fs: FileSystem, cwd: int, targetfd: int, source: Path, name: string, metafiles: seq<string>,
                       ec0: int, deferred0: seq<string>) returns (ec: int, deferred: seq<string>)
    modifies fs
    ensures Scan(fs.s, ec, deferred) == SubFolder(Scan(old(fs.s), ec0, deferred0), cwd, targetfd, source, name, metafiles)
    decreases 1, 0, 0
  {
    ec, deferred := ec0, deferred0;
    var m := fs.Mkdir(targetfd, [name]);
    if m.Err? && m.errno != EEXIST {
      ec := ec + 1;
      return;
    }
    var sub := OpenAt(fs.s, targetfd, [name], true);
    if sub.Err? {
      ec := ec + 1;
      return;
    }
    var _ := fs.Create(sub.value, [FolderMark], false);
    var k := Overlay(fs, cwd, sub.value, source + [name], metafiles, false);
    ec := ec + k;
  }

  /** Lines 313-445 for one entry. */
  method OverlayOne(fs: FileSystem, cwd: int, targetfd: int, sourcefd: int, source: Path, e: Dirent,
                    metafiles: seq<string>, root: bool, ec0: int, deferred0: seq<string>) returns (ec: int, deferred: seq<string>)
    modifies fs
    ensures Scan(fs.s, ec, deferred) ==
            OverlayEntry(Scan(old(fs.s), ec0, deferred0), cwd, targetfd, sourcefd, source, e, metafiles, root)
    decreases if root then 1 else 0, 0, 1
  {
    ec, deferred := ec0, deferred0;
    if e.name in OverlaySkips {
      return;
    }
    var st: Option<Stat> := None;
    if e.dtype == DT_UNKNOWN {
      var r := FStatAt(fs.s, sourcefd, [e.name]);
      if r.Err? {
        ec := ec + 1;
        return;
      }
      st := Some(r.value);
    }
    if e.dtype == DT_DIR || (st.Some? && st.value.kind == Directory) {
      if |e.name| > 0 && e.name[0] == '.' {
        if root {
          ec, deferred := MakeSubFolder(fs, cwd, targetfd, source, e.name, metafiles, ec, deferred);
        }
      } else if e.name in metafiles {
        deferred := deferred + [e.name];
      }
    } else if e.dtype == DT_REG || (st.Some? && st.value.kind == Regular) {
      if e.name in metafiles {
        var full := if st.Some? then Ok(st.value) else FStatAt(fs.s, sourcefd, [e.name]);
        if full.Err? {
          ec := ec + 1;
        } else if full.value.size > 0 {
          var k := LinkOne(fs, sourcefd, targetfd, e.name, full.value, true);
          ec := ec + k;
        }
      }
    } else {
      ec := ec + 1;
    }
  }

  /** overlay(target, targetfd, source, metafiles, root). */
  method Overlay(fs: FileSystem, cwd: int, targetfd: int, source: Path, metafiles: seq<string>, root: bool) returns (ec: int)
    modifies fs
    ensures Done(fs.s, ec) == OverlaySpec(old(fs.s), cwd, targetfd, source, metafiles, root)
    decreases if root then 1 else 0, 2, 0
  {
    var sfd := OpenAt(fs.s, cwd, source, true);
    if sfd.Err? {
      return 1;
    }
    var sourcefd := sfd.value;
    var deferred;
    ec, deferred := ScanEntries(fs, cwd, targetfd, sourcefd, source, Listing(fs.s, sourcefd), metafiles, root);
    var k := Mdir(fs, targetfd, sourcefd, deferred);
    ec := ec + k;
  }

  /** The readdir loop of lines 313-445 over the listing `es` of the source. */
  method ScanEntries(fs: FileSystem, cwd: int, targetfd: int, sourcefd: int, source: Path, es: seq<Dirent>,
                     metafiles: seq<string>, root: bool) returns (ec: int, deferred: seq<string>)
    modifies fs
    ensures Scan(fs.s, ec, deferred) == OverlayScan(Scan(old(fs.s), 0, []), cwd, targetfd, sourcefd, source, es, metafiles, root)
    decreases if root then 1 else 0, 1, |es|
  {
    deferred := [];
    ec := 0;
    var i := 0;
    while i < |es|
      invariant 0 <= i <= |es|
      invariant OverlayScan(Scan(old(fs.s), 0, []), cwd, targetfd, sourcefd, source, es, metafiles, root) ==
                OverlayScan(Scan(fs.s, ec, deferred), cwd, targetfd, sourcefd, source, es[i..], metafiles, root)
    {
      assert es[i..][0] == es[i] && es[i..][1..] == es[i + 1..];
      ec, deferred := OverlayOne(fs, cwd, targetfd, sourcefd, source, es[i], metafiles, root, ec, deferred);
      i := i + 1;
    }
  }

  /** main: returns the exit status. */
  method Run(fs: FileSystem, cwd: int, metafiles: seq<string>, args: seq<Path>) returns (code: int)
    modifies fs
    ensures fs.s == RunSpec(old(fs.s), cwd, metafiles, args).s
    ensures code == RunSpec(old(fs.s), cwd, metafiles, args).code
  {
    if args == [] {
      return 1;
    }
    var t := OpenAt(fs.s, cwd, args[0], true);
    var targetfd: int;
    if t.Ok? {
      targetfd := t.value;
      var l := Listing(fs.s, targetfd);
      var i := 0;
      while i < |l|
        invariant 0 <= i <= |l|
        invariant forall j | 0 <= j < i :: l[j].name in DotNames
      {
        if l[i].name !in DotNames {
          return 1;
        }
        i := i + 1;
      }
    } else {
      if t.errno != ENOENT {
        return 1;
      }
      var m := fs.Mkdir(cwd, args[0]);
      if m.Err? {
        return 1;
      }
      t := OpenAt(fs.s, cwd, args[0], true);
      if t.Err? {
        return 1;
      }
      targetfd := t.value;
    }
    var c := OverlayAll(fs, cwd, targetfd, args[1..], metafiles);
    code := if c != 0 then 2 else 0;
  }

  /** Lines 525-530: overlay every source in turn, adding up their error counts. */
  method OverlayAll(fs: FileSystem, cwd: int, targetfd: int, sources: seq<Path>, metafiles: seq<string>) returns (c: int)
    modifies fs
    ensures fs.s == Overlays(old(fs.s), cwd, targetfd, sources, metafiles).s
    ensures c == Sum(Overlays(old(fs.s), cwd, targetfd, sources, metafiles).errors)
  {
    c := 0;
    var i := 0;
    while i < |sources|
      invariant 0 <= i <= |sources|
      invariant Overlays(old(fs.s), cwd, targetfd, sources, metafiles).s == Overlays(fs.s, cwd, targetfd, sources[i..], metafiles).s
      invariant Sum(Overlays(old(fs.s), cwd, targetfd, sources, metafiles).errors) ==
                c + Sum(Overlays(fs.s, cwd, targetfd, sources[i..], metafiles).errors)
    {
      assert sources[i..][0] == sources[i] && sources[i..][1..] == sources[i + 1..];
      var k := Overlay(fs, cwd, targetfd, sources[i], metafiles, true);
      ghost var rest := Overlays(fs.s, cwd, targetfd, sources[i + 1..], metafiles).errors;
      assert ([k] + rest)[1..] == rest;
      c := c + k;
      i := i + 1;
    }
    assert sources[i..] == [];
  }
}

/**
 * maildirarchive (src/maildirarchive.c): moves messages older than a cut-off
 * from a maildir's new/ and cur/ into per-period archive folders whose names
 * come from a strftime format.  Opened archive folders are kept in a
 * most-recently-used cache.
 */
module Archive {
  import opened Wrappers
  import opened Strings
  import opened Fs

  // ---------------------------------------------------------------------
  // valid_foldername

  /** isprint in the C locale. */
  predicate Printable(c: char)
  {
    ' ' <= c <= '~'
  }

  /** A usable archive folder name: a leading `.`, no `/`, printable characters only. */
  predicate ValidFolderName(n: string)
  {
    |n| > 0 && n[0] == '.' && '/' !in n && forall i | 0 <= i < |n| :: Printable(n[i])
  }

  /** valid_foldername(fldrname): the scan of lines 87-97. */
  method CheckFolderName(n: string) returns (ok: bool)
    ensures ok == ValidFolderName(n)
  {
    if |n| == 0 || n[0] != '.' {
      return false;
    }
    var i := 0;
    while i < |n|
      invariant 0 <= i <= |n|
      invariant forall j | 0 <= j < i :: n[j] != '/'
    {
      if n[i] == '/' {
        return false;
      }
      i := i + 1;
    }
    i := 0;
    while i < |n|
      invariant 0 <= i <= |n|
      invariant forall j | 0 <= j < i :: Printable(n[j])
    {
      if !Printable(n[i]) {
        return false;
      }
      i := i + 1;
    }
    return true;
  }

  /**
   * A valid name other than `.` and `..` is a single path component naming a
   * child of the maildir; `.` and `..` pass the check as written and name
   * the maildir itself and its parent.
   */
  lemma ValidFolderNameIsChild(n: string)
    requires ValidFolderName(n)
    ensures ProperName(n) <==> n !in DotNames
  {
  }

  // ---------------------------------------------------------------------
  // get_folderfd

  /** One node of the cache list: a folder name and its open descriptor. */
  datatype CacheEntry = CacheEntry(name: string, fd: int)

  ghost predicate DistinctNames(c: seq<CacheEntry>)
  {
    forall i, j | 0 <= i < j < |c| :: c[i].name != c[j].name
  }

  /** The loop of lines 121-129: the position of `name` in the cache. */
  function Find(c: seq<CacheEntry>, name: string): (r: Option<nat>)
    ensures r.Some? ==> r.value < |c| && c[r.value].name == name && forall j | 0 <= j < r.value :: c[j].name != name
    ensures r.None? ==> forall j | 0 <= j < |c| :: c[j].name != name
    decreases |c|
  {
    if c == [] then None
    else if c[0].name == name then Some(0)
    else match Find(c[1..], name)
      case None => None
      case Some(i) => Some(i + 1)
  }

  /** Lines 124-126: unlink entry `i` and relink it at the head; the others keep their order. */
  function ToFront(c: seq<CacheEntry>, i: nat): (r: seq<CacheEntry>)
    requires i < |c|
    ensures |r| == |c| && r[0] == c[i] && multiset(r) == multiset(c)
  {
    assert c == c[..i] + [c[i]] + c[i + 1..];
    [c[i]] + c[..i] + c[i + 1..]
  }

  lemma ToFrontDistinct(c: seq<CacheEntry>, i: nat)
    requires i < |c| && DistinctNames(c)
    ensures DistinctNames(ToFront(c, i))
  {
    var r := ToFront(c, i);
    assert forall k | 0 <= k < |r| :: r[k] == (if k == 0 then c[i] else if k <= i then c[k - 1] else c[k]);
  }

  /** The filesystem after get_folderfd's open, and the descriptor (`None` for -1). */
  datatype Opened = Opened(s: State, fd: Option<int>)

  /** The filesystem, the cache and the descriptor after get_folderfd. */
  datatype Got = Got(s: State, cache: seq<CacheEntry>, fd: Option<int>)

  /**
   * Lines 131-161: open the folder; when it is missing, create it with cur,
   * new and tmp inside.  `None` is the C -1 (what was created before a
   * failure stays).
   */
  function OpenFolder(s: State, basefd: int, name: string): (r: Opened)
  {
    match OpenAt(s, basefd, [name], false)
      case Ok(fd) => Opened(s, Some(fd))
      case Err(e) =>
        if e != ENOENT then Opened(s, None)
        else
          var m := MkdirAt(s, basefd, [name]);
          if m.1.Err? then Opened(s, None)
          else (match OpenAt(m.0, basefd, [name], false)
            case Err(_) => Opened(m.0, None)
            case Ok(fd) =>
              var c := MkdirAt(m.0, fd, ["cur"]);
              if c.1.Err? then Opened(m.0, None)
              else
                var n := MkdirAt(c.0, fd, ["new"]);
                if n.1.Err? then Opened(c.0, None)
                else
                  var t := MkdirAt(n.0, fd, ["tmp"]);
                  if t.1.Err? then Opened(n.0, None) else Opened(t.0, Some(fd)))
  }

  /** get_folderfd(fldrname, basefd): the filesystem, the new cache and the descriptor. */
  function CacheGet(s: State, c: seq<CacheEntry>, name: string, basefd: int): (r: Got)
  {
    match Find(c, name)
      case Some(i) => Got(s, ToFront(c, i), Some(c[i].fd))
      case None =>
        var o := OpenFolder(s, basefd, name);
        if o.fd.None? then Got(o.s, c, None) else Got(o.s, [CacheEntry(name, o.fd.value)] + c, o.fd)
  }

  /** A hit returns the cached descriptor, touches no file and moves the entry to the head, the cache otherwise unchanged. */
  lemma CacheHit(s: State, c: seq<CacheEntry>, name: string, basefd: int)
    requires exists j | 0 <= j < |c| :: c[j].name == name
    ensures var r := CacheGet(s, c, name, basefd);
            r.s == s && r.fd.Some? && |r.cache| == |c| && multiset(r.cache) == multiset(c) &&
            r.cache[0].name == name && r.cache[0].fd == r.fd.value && CacheEntry(name, r.fd.value) in c
  {
    var i := Find(c, name).value;
    assert c[i] in multiset(c);
  }

  /** A miss adds the newly opened folder at the head, or on failure leaves the cache as it was. */
  lemma CacheMiss(s: State, c: seq<CacheEntry>, name: string, basefd: int)
    requires forall j | 0 <= j < |c| :: c[j].name != name
    ensures var r := CacheGet(s, c, name, basefd);
            (r.fd.None? && r.cache == c) || (r.fd.Some? && r.cache == [CacheEntry(name, r.fd.value)] + c)
    ensures var r := CacheGet(s, c, name, basefd);
            OpenAt(s, basefd, [name], false).Ok? ==> r.s == s && r.fd == Some(OpenAt(s, basefd, [name], false).value)
    ensures var r := CacheGet(s, c, name, basefd);
            OpenAt(s, basefd, [name], false).Err? && OpenAt(s, basefd, [name], false).errno != ENOENT ==> r == Got(s, c, None)
  {
  }

  /** The cache never holds two entries for one folder name. */
  lemma CacheDistinct(s: State, c: seq<CacheEntry>, name: string, basefd: int)
    requires DistinctNames(c)
    ensures DistinctNames(CacheGet(s, c, name, basefd).cache)
  {
    match Find(c, name)
      case Some(i) => ToFrontDistinct(c, i);
      case None =>
  }

  /** The static `head` list of get_folderfd. */
  class FolderCache {
    var entries: seq<CacheEntry>

    ghost predicate Valid()
      reads this
    {
      DistinctNames(entries)
    }

    constructor ()
      ensures entries == [] && Valid()
    {
      entries := [];
    }

    /** get_folderfd(fldrname, basefd) for a non-NULL name. */
    method Get(fs: FileSystem, name: string, basefd: int) returns (fd: Option<int>)
      requires Valid()
      modifies this, fs
      ensures Valid()
      ensures Got(fs.s, entries, fd) == CacheGet(old(fs.s), old(entries), name, basefd)
    {
      CacheDistinct(fs.s, entries, name, basefd);
      var i := 0;
      while i < |entries|
        invariant 0 <= i <= |entries|
        invariant forall j | 0 <= j < i :: entries[j].name != name
      {
        if entries[i].name == name {
          assert Find(entries, name) == Some(i);
          fd := Some(entries[i].fd);
          entries := ToFront(entries, i);
          return;
        }
        i := i + 1;
      }
      fd := Open(fs, basefd, name);
      if fd.Some? {
        entries := [CacheEntry(name, fd.value)] + entries;
      }
    }

    /** get_folderfd(NULL, -1): empty the cache (the descriptors are closed). */
    method Clear()
      modifies this
      ensures entries == [] && Valid()
    {
      entries := [];
    }
  }

  /** Lines 131-161 on the mutable filesystem. */
  method Open(fs: FileSystem, basefd: int, name: string) returns (fd: Option<int>)
    modifies fs
    ensures Opened(fs.s, fd) == OpenFolder(old(fs.s), basefd, name)
  {
    var o := OpenAt(fs.s, basefd, [name], false);
    if o.Ok? {
      return Some(o.value);
    }
    if o.errno != ENOENT {
      return None;
    }
    var m := fs.Mkdir(basefd, [name]);
    if m.Err? {
      return None;
    }
    o := OpenAt(fs.s, basefd, [name], false);
    if o.Err? {
      return None;
    }
    m := fs.Mkdir(o.value, ["cur"]);
    if m.Err? {
      return None;
    }
    m := fs.Mkdir(o.value, ["new"]);
    if m.Err? {
      return None;
    }
    m := fs.Mkdir(o.value, ["tmp"]);
    if m.Err? {
      return None;
    }
    return Some(o.value);
  }

  // ---------------------------------------------------------------------
  // The per-message loop of main

  /** The size of tfname2 (line 308). */
  const NameBuffer: nat := 256

  /**
   * What one run is told: the cut-off `maxage` (from date -d), the folder
   * name strftime gives for a timestamp (`None` when strftime yields nothing
   * or overflows its 256 bytes), `dryRun`, RENAME_NOREPLACE (`noReplace`,
   * cleared by -R) and the optional source sub-folder.
   */
  datatype Options = Options(maxage: nat, strftime: nat -> Option<string>, dryRun: bool, noReplace: bool,
                             sourcefolder: Option<Path>)

  /** The state threaded through the loops: the filesystem, the cache, and whether to leave through errout. */
  datatype Progress = Progress(s: State, cache: seq<CacheEntry>, errout: bool)

  /** The archive folder a file goes to, when every check of lines 310-339 passes before the cache is asked. */
  function Destination(o: Options, e: Dirent): (r: Option<(nat, string)>)
    ensures r.Some? ==> ValidFolderName(r.value.1) && r.value.0 < o.maxage && TimestampPrefix(e.name) == Some(r.value.0)
    ensures r.Some? ==> |e.name| > 0 && e.name[0] != '.' && (e.dtype == DT_UNKNOWN || e.dtype == DT_REG)
  {
    if |e.name| > 0 && e.name[0] == '.' then None
    else if e.dtype != DT_UNKNOWN && e.dtype != DT_REG then None
    else match TimestampPrefix(e.name)
      case None => None
      case Some(t) =>
        if t >= o.maxage then None
        else match o.strftime(t)
          case None => None
          case Some(f) => if ValidFolderName(f) then Some((t, f)) else None
  }

  /** Lines 341-382 for one message of sub-source `sfn` open as `cfd`, from `p`. */
  function ArchiveEntry(p: Progress, o: Options, basefd: int, cfd: int, sfn: string, e: Dirent): (r: Progress)
  {
    match Destination(o, e)
      case None => p
      case Some(d) =>
        if o.dryRun then p else Archived(p, o, basefd, cfd, sfn, e, d.1)
  }

  /** Lines 346-382: ask the cache for archive folder `folder` and rename the message into its `sfn`. */
  function Archived(p: Progress, o: Options, basefd: int, cfd: int, sfn: string, e: Dirent, folder: string): (r: Progress)
  {
    var g := CacheGet(p.s, p.cache, folder, basefd);
    if g.fd.None? then Progress(g.s, g.cache, false)
    else if |sfn| + 1 + |e.name| >= NameBuffer then Progress(g.s, g.cache, false)
    else
      var tfd := g.fd.value;
      var tname := [sfn, e.name];
      if !o.noReplace && (FStatAt(g.s, tfd, tname).Ok? || FStatAt(g.s, tfd, tname).errno != ENOENT)
      then Progress(g.s, g.cache, false)
      else
        var rn := RenameAt(g.s, cfd, [e.name], tfd, tname, o.noReplace);
        Progress(rn.0, g.cache,
                 rn.1.Err? && o.noReplace && rn.1.errno == EINVAL && FStatAt(g.s, tfd, tname) == Err(ENOENT))
  }

  /**
   * Only a regular (or untyped) file whose name starts with a timestamp
   * older than the cut-off, and for which strftime gives a valid folder
   * name, is ever acted on, and never in a dry run.
   */
  lemma OnlyOldMessagesMove(p: Progress, o: Options, basefd: int, cfd: int, sfn: string, e: Dirent)
    ensures ArchiveEntry(p, o, basefd, cfd, sfn, e) != p ==>
              !o.dryRun && TimestampPrefix(e.name).Some? && TimestampPrefix(e.name).value < o.maxage &&
              o.strftime(TimestampPrefix(e.name).value).Some? &&
              ValidFolderName(o.strftime(TimestampPrefix(e.name).value).value) &&
              e.name[0] != '.' && (e.dtype == DT_UNKNOWN || e.dtype == DT_REG)
  {
  }

  /**
   * An archived message already at the destination is never overwritten,
   * in either mode, and its source stays.
   */
  lemma ExistingTargetKept(p: Progress, o: Options, basefd: int, cfd: int, sfn: string, e: Dirent)
    requires Destination(o, e).Some? && !o.dryRun
    requires var g := CacheGet(p.s, p.cache, Destination(o, e).value.1, basefd);
             g.fd.Some? && FStatAt(g.s, g.fd.value, [sfn, e.name]).Ok?
    ensures ArchiveEntry(p, o, basefd, cfd, sfn, e).s == CacheGet(p.s, p.cache, Destination(o, e).value.1, basefd).s
  {
    var g := CacheGet(p.s, p.cache, Destination(o, e).value.1, basefd);
    if o.noReplace && |sfn| + 1 + |e.name| < NameBuffer {
      NoReplaceKeepsTarget(g.s, cfd, [e.name], g.fd.value, [sfn, e.name]);
    }
  }

  /** The readdir loop of lines 305-383; an errout ends it. */
  function ArchiveEntries(p: Progress, o: Options, basefd: int, cfd: int, sfn: string, es: seq<Dirent>): (r: Progress)
    ensures !p.errout || r == p
    decreases |es|
  {
    if es == [] || p.errout then p
    else ArchiveEntries(ArchiveEntry(p, o, basefd, cfd, sfn, es[0]), o, basefd, cfd, sfn, es[1..])
  }

  /** subsources: new/ first, then cur/. */
  const Subsources: seq<string> := ["new", "cur"]

  /** How a maildir pass ends: normally, through errout, or in readdir(NULL) after fdopendir failed. */
  datatype Ending = Done | ErrOut | Crash

  /** Where a pass over one of new/ and cur/ leaves the run, and whether readdir(NULL) crashed it. */
  datatype SubResult = SubResult(p: Progress, crashed: bool)

  function Sub(p: Progress, o: Options, basefd: int, sfd: int, sfn: string): (r: SubResult)
  {
    match OpenAt(p.s, sfd, [sfn], false)
      case Err(_) => SubResult(p, false)
      case Ok(cfd) =>
        if !IsDir(p.s, cfd) then SubResult(p, true)
        else SubResult(ArchiveEntries(p, o, basefd, cfd, sfn, Listing(p.s, cfd)), false)
  }

  /** Lines 293-385: new/ and cur/ in turn, stopping at errout or at a crash. */
  function Subs(p: Progress, o: Options, basefd: int, sfd: int, subs: seq<string>): (r: SubResult)
    decreases |subs|
  {
    if subs == [] || p.errout then SubResult(p, false)
    else
      var a := Sub(p, o, basefd, sfd, subs[0]);
      if a.crashed then a else Subs(a.p, o, basefd, sfd, subs[1..])
  }

  /** The result of main: the filesystem and how it ended (exit 0 for Done, 1 for ErrOut). */
  datatype RunResult = RunResult(s: State, ending: Ending)

  /** Lines 273-397: each maildir in turn, the cache emptied after each. */
  function Bases(s: State, cwd: int, o: Options, bases: seq<Path>): (r: RunResult)
    decreases |bases|
  {
    if bases == [] then RunResult(s, Done)
    else match OpenAt(s, cwd, bases[0], false)
      case Err(_) => RunResult(s, ErrOut)
      case Ok(basefd) =>
        var sfd := if o.sourcefolder.Some? then OpenAt(s, basefd, o.sourcefolder.value, false) else Ok(basefd);
        if sfd.Err? then RunResult(s, ErrOut)
        else
          var a := Subs(Progress(s, [], false), o, basefd, sfd.value, Subsources);
          if a.crashed then RunResult(a.p.s, Crash)
          else if a.p.errout then RunResult(a.p.s, ErrOut)
          else Bases(a.p.s, cwd, o, bases[1..])
  }

  /** main: a format is required, the cut-off must be nonzero and at least one maildir given, else usage(1). */
  function RunSpec(s: State, cwd: int, o: Options, formatGiven: bool, bases: seq<Path>): (r: RunResult)
    ensures !formatGiven || o.maxage == 0 || bases == [] ==> r == RunResult(s, ErrOut)
  {
    if !formatGiven || o.maxage == 0 || bases == [] then RunResult(s, ErrOut)
    else Bases(s, cwd, o, bases)
  }

  /** A dry run changes nothing on disk and never opens an archive folder. */
  lemma {:induction false} DryRunEntries(p: Progress, o: Options, basefd: int, cfd: int, sfn: string, es: seq<Dirent>)
    requires o.dryRun
    ensures ArchiveEntries(p, o, basefd, cfd, sfn, es) == p
    decreases |es|
  {
    if es != [] && !p.errout {
      assert ArchiveEntry(p, o, basefd, cfd, sfn, es[0]) == p;
      DryRunEntries(p, o, basefd, cfd, sfn, es[1..]);
    }
  }

  lemma {:induction false} DryRunSubs(p: Progress, o: Options, basefd: int, sfd: int, subs: seq<string>)
    requires o.dryRun
    ensures Subs(p, o, basefd, sfd, subs).p == p
    decreases |subs|
  {
    if subs != [] && !p.errout {
      var cfd := OpenAt(p.s, sfd, [subs[0]], false);
      if cfd.Ok? && IsDir(p.s, cfd.value) {
        DryRunEntries(p, o, basefd, cfd.value, subs[0], Listing(p.s, cfd.value));
      }
      DryRunSubs(Sub(p, o, basefd, sfd, subs[0]).p, o, basefd, sfd, subs[1..]);
    }
  }

  /** Line 341-345: with -n no file is moved and no folder created. */
  lemma {:induction false} DryRun(s: State, cwd: int, o: Options, bases: seq<Path>)
    requires o.dryRun
    ensures Bases(s, cwd, o, bases).s == s
    decreases |bases|
  {
    if bases != [] {
      match OpenAt(s, cwd, bases[0], false)
        case Err(_) =>
        case Ok(basefd) =>
          var sfd := if o.sourcefolder.Some? then OpenAt(s, basefd, o.sourcefolder.value, false) else Ok(basefd);
          if sfd.Ok? {
            DryRunSubs(Progress(s, [], false), o, basefd, sfd.value, Subsources);
            DryRun(s, cwd, o, bases[1..]);
          }
    }
  }

  // ---------------------------------------------------------------------
  // The operations on one mutable filesystem

  /** Lines 310-382 for one message. */
  method ArchiveOne(fs: FileSystem, cache: FolderCache, o: Options, basefd: int, cfd: int, sfn: string, e: Dirent)
    returns (errout: bool)
    requires cache.Valid()
    modifies fs, cache
    ensures cache.Valid()
    ensures Progress(fs.s, cache.entries, errout) == ArchiveEntry(Progress(old(fs.s), old(cache.entries), false), o, basefd, cfd, sfn, e)
  {
    errout := false;
    if |e.name| > 0 && e.name[0] == '.' {
      return;
    }
    if e.dtype != DT_UNKNOWN && e.dtype != DT_REG {
      return;
    }
    var filetime := TimestampPrefix(e.name);
    if filetime.None? || filetime.value >= o.maxage {
      return;
    }
    var tfname := o.strftime(filetime.value);
    if tfname.None? {
      return;
    }
    var valid := CheckFolderName(tfname.value);
    if !valid || o.dryRun {
      return;
    }
    errout := MoveInto(fs, cache, o, basefd, cfd, sfn, e, tfname.value);
  }

  /** Lines 346-382 on the mutable filesystem and cache. */
  method MoveInto(fs: FileSystem, cache: FolderCache, o: Options, basefd: int, cfd: int, sfn: string, e: Dirent,
                  folder: string) returns (errout: bool)
    requires cache.Valid()
    modifies fs, cache
    ensures cache.Valid()
    ensures Progress(fs.s, cache.entries, errout) == Archived(Progress(old(fs.s), old(cache.entries), false), o, basefd, cfd, sfn, e, folder)
  {
    errout := false;
    var tfd := cache.Get(fs, folder, basefd);
    if tfd.None? || |sfn| + 1 + |e.name| >= NameBuffer {
      return;
    }
    var tname := [sfn, e.name];
    if !o.noReplace {
      var st := FStatAt(fs.s, tfd.value, tname);
      if st.Ok? || st.errno != ENOENT {
        return;
      }
    }
    var r := fs.Rename(cfd, [e.name], tfd.value, tname, o.noReplace);
    if r.Err? && o.noReplace && r.errno == EINVAL && FStatAt(fs.s, tfd.value, tname) == Err(ENOENT) {
      errout := true;
    }
  }

  /** The readdir loop of lines 305-383. */
  method ArchiveDir(fs: FileSystem, cache: FolderCache, o: Options, basefd: int, cfd: int, sfn: string, es: seq<Dirent>)
    returns (errout: bool)
    requires cache.Valid()
    modifies fs, cache
    ensures cache.Valid()
    ensures Progress(fs.s, cache.entries, errout) == ArchiveEntries(Progress(old(fs.s), old(cache.entries), false), o, basefd, cfd, sfn, es)
  {
    errout := false;
    var i := 0;
    while i < |es| && !errout
      invariant 0 <= i <= |es|
      invariant cache.Valid()
      invariant ArchiveEntries(Progress(old(fs.s), old(cache.entries), false), o, basefd, cfd, sfn, es) ==
                ArchiveEntries(Progress(fs.s, cache.entries, errout), o, basefd, cfd, sfn, es[i..])
    {
      assert es[i..][0] == es[i] && es[i..][1..] == es[i + 1..];
      errout := ArchiveOne(fs, cache, o, basefd, cfd, sfn, es[i]);
      i := i + 1;
    }
  }

  /** Lines 293-385 for one maildir; `crashed` is the readdir(NULL) of line 305. */
  method ArchiveSubs(fs: FileSystem, cache: FolderCache, o: Options, basefd: int, sfd: int)
    returns (errout: bool, crashed: bool)
    requires cache.Valid()
    modifies fs, cache
    ensures cache.Valid()
    ensures SubResult(Progress(fs.s, cache.entries, errout), crashed) ==
            Subs(Progress(old(fs.s), old(cache.entries), false), o, basefd, sfd, Subsources)
  {
    errout, crashed := false, false;
    var k := 0;
    while k < |Subsources|
      invariant 0 <= k <= |Subsources|
      invariant cache.Valid()
      invariant !crashed
      invariant Subs(Progress(old(fs.s), old(cache.entries), false), o, basefd, sfd, Subsources) ==
                Subs(Progress(fs.s, cache.entries, errout), o, basefd, sfd, Subsources[k..])
    {
      assert Subsources[k..][0] == Subsources[k] && Subsources[k..][1..] == Subsources[k + 1..];
      if errout {
        return;
      }
      var sfn := Subsources[k];
      var cfd := OpenAt(fs.s, sfd, [sfn], false);
      if cfd.Ok? {
        if !IsDir(fs.s, cfd.value) {
          crashed := true;
          return;
        }
        errout := ArchiveDir(fs, cache, o, basefd, cfd.value, sfn, Listing(fs.s, cfd.value));
      }
      k := k + 1;
    }
  }

  /** main after option parsing: returns how the run ended. */
  method Run(fs: FileSystem, cwd: int, o: Options, formatGiven: bool, bases: seq<Path>) returns (ending: Ending)
    modifies fs
    ensures RunResult(fs.s, ending) == RunSpec(old(fs.s), cwd, o, formatGiven, bases)
  {
    if !formatGiven || o.maxage == 0 || bases == [] {
      return ErrOut;
    }
    var cache := new FolderCache();
    var i := 0;
    while i < |bases|
      invariant 0 <= i <= |bases|
      invariant cache.Valid() && cache.entries == []
      invariant RunSpec(old(fs.s), cwd, o, formatGiven, bases) == Bases(fs.s, cwd, o, bases[i..])
      modifies fs, cache
    {
      assert bases[i..][0] == bases[i] && bases[i..][1..] == bases[i + 1..];
      var basefd := OpenAt(fs.s, cwd, bases[i], false);
      if basefd.Err? {
        return ErrOut;
      }
      var sfd := if o.sourcefolder.Some? then OpenAt(fs.s, basefd.value, o.sourcefolder.value, false) else Ok(basefd.value);
      if sfd.Err? {
        return ErrOut;
      }
      var errout, crashed := ArchiveSubs(fs, cache, o, basefd.value, sfd.value);
      cache.Clear();
      if crashed {
        return Crash;
      }
      if errout {
        return ErrOut;
      }
      i := i + 1;
    }
    return Done;
  }
}

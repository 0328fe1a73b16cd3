/**
 * maildirpurge (src/maildirpurge.c): deletes messages older than a cut-off
 * from the new/ and cur/ of a maildir, of one of its sub-folders, or of a
 * sub-folder and its descendants.
 */
module Purge {
  import opened Wrappers
  import opened Strings
  import opened Fs

  // ---------------------------------------------------------------------
  // Selecting sub-folders

  /** A `.Name` entry of the maildir root (line 180). */
  predicate DotFolderName(n: string)
  {
    |n| > 0 && n[0] == '.' && n !in DotNames
  }

  /**
   * Lines 180-187: which root entries are purged; with -s only the named
   * sub-folder, the first `sflen` characters compared by strncmp, followed
   * by the end of the name or, with -r, by a `.`.
   */
  predicate Selected(n: string, sourcefolder: Option<string>, recursive: bool)
  {
    DotFolderName(n) &&
    (sourcefolder.None? ||
     (var sf := sourcefolder.value;
      |n| >= |sf| && n[..|sf|] == sf && (|n| == |sf| || (recursive && n[|sf|] == '.'))))
  }

  /** The selection is the folder itself or, with -r, one of its descendants `sf.X`. */
  lemma SelectedIff(n: string, sf: string, recursive: bool)
    requires DotFolderName(n)
    ensures Selected(n, Some(sf), recursive) <==> n == sf || (recursive && exists rest :: n == sf + "." + rest)
  {
    if recursive && |n| > |sf| && n[..|sf|] == sf && n[|sf|] == '.' {
      assert n == sf + "." + n[|sf| + 1..];
    }
    if exists rest :: n == sf + "." + rest {
      var rest :| n == sf + "." + rest;
      assert n[..|sf|] == sf && n[|sf|] == '.';
    }
  }

  // ---------------------------------------------------------------------
  // purge_sub

  /** Lines 139-149: a regular file whose `<seconds>.` prefix is before the cut-off. */
  predicate Doomed(e: Dirent, maxage: nat)
  {
    e.dtype == DT_REG && TimestampPrefix(e.name).Some? && TimestampPrefix(e.name).value < maxage
  }

  /** Lines 138-155 for one entry: unlink a doomed file unless this is a dry run (a failed unlink is ignored). */
  function PurgeEntry(s: State, dfd: int, e: Dirent, maxage: nat, dryRun: bool): (t: State)
    ensures SameEnv(s, t)
  {
    if Doomed(e, maxage) && !dryRun then UnlinkAt(s, dfd, [e.name]).0 else s
  }

  function PurgeDir(s: State, dfd: int, es: seq<Dirent>, maxage: nat, dryRun: bool): (t: State)
    decreases |es|
  {
    if es == [] then s else PurgeDir(PurgeEntry(s, dfd, es[0], maxage, dryRun), dfd, es[1..], maxage, dryRun)
  }

  /** subsources. */
  const Subsources: seq<string> := ["new", "cur"]

  /** Lines 125-136: openat(fd, sub) followed by fdopendir gives a directory stream, or fails. */
  function SubDir(s: State, fd: int, sub: string): (r: Option<int>)
    ensures r.Some? ==> OpenDir(s, r.value)
    ensures r.None? <==> OpenAt(s, fd, [sub], false).Err? || !IsDir(s, OpenAt(s, fd, [sub], false).value)
  {
    match OpenAt(s, fd, [sub], false)
      case Err(_) => None
      case Ok(d) => if IsDir(s, d) then Some(d) else None
  }

  /** Lines 125-156 for one of new/ and cur/: the new state and whether it failed to open as a directory. */
  function PurgeOne(s: State, fd: int, sub: string, maxage: nat, dryRun: bool): (r: (State, bool))
  {
    match SubDir(s, fd, sub)
      case None => (s, true)
      case Some(dfd) => (PurgeDir(s, dfd, Listing(s, dfd), maxage, dryRun), false)
  }

  function PurgeSubs(s: State, fd: int, subs: seq<string>, maxage: nat, dryRun: bool): (r: (State, int))
    ensures r.1 in {0, 1}
    decreases |subs|
  {
    if subs == [] then (s, 0)
    else
      var a := PurgeOne(s, fd, subs[0], maxage, dryRun);
      var b := PurgeSubs(a.0, fd, subs[1..], maxage, dryRun);
      (b.0, if a.1 then 1 else b.1)
  }

  /** purge_sub(name, fd): purges new/ and then cur/ of the folder open as `fd`; 1 when either does not open. */
  function PurgeSub(s: State, fd: int, maxage: nat, dryRun: bool): (r: (State, int))
  {
    PurgeSubs(s, fd, Subsources, maxage, dryRun)
  }

  /** Lines 124-136: purge_sub returns 1 exactly when new/ or cur/ cannot be opened as a directory. */
  lemma PurgeSubResult(s: State, fd: int, maxage: nat, dryRun: bool)
    ensures PurgeSub(s, fd, maxage, dryRun).1 == 1 <==> SubDir(s, fd, "new").None? || SubDir(s, fd, "cur").None?
  {
    assert Subsources[1..] == ["cur"] && Subsources[1..][1..] == [];
    PurgeSubWithin(s, fd, maxage, dryRun);
  }

  /** A directory entry that unlinkat can remove: present and not a directory. */
  ghost predicate Removable(s: State, d: int, n: string)
    requires IsDir(s, d)
  {
    ProperName(n) && n in s.nodes[d].entries &&
    !(s.nodes[d].entries[n] in s.nodes && s.nodes[s.nodes[d].entries[n]].Dir?)
  }

  /** Some entry of `es` named `n` is doomed. */
  ghost predicate DoomedName(es: seq<Dirent>, n: string, maxage: nat)
  {
    exists i | 0 <= i < |es| :: es[i].name == n && Doomed(es[i], maxage)
  }

  lemma DoomedNameTail(es: seq<Dirent>, n: string, maxage: nat)
    requires es != []
    ensures DoomedName(es[1..], n, maxage) ==> DoomedName(es, n, maxage)
  {
    if DoomedName(es[1..], n, maxage) {
      var i :| 0 <= i < |es[1..]| && es[1..][i].name == n && Doomed(es[1..][i], maxage);
      assert es[i + 1] == es[1..][i];
    }
  }

  lemma HeadNameNotInTail(es: seq<Dirent>, maxage: nat)
    requires es != []
    requires forall i, j | 0 <= i < j < |es| :: es[i].name != es[j].name
    ensures !DoomedName(es[1..], es[0].name, maxage)
  {
    forall j | 0 <= j < |es[1..]|
      ensures es[1..][j].name != es[0].name
    {
      assert es[1..][j] == es[j + 1];
    }
  }

  /** One unlinkat in the open directory `d`: it removes only `n`, and does remove a removable `n`. */
  lemma UnlinkStep(s: State, d: int, n: string)
    requires OpenDir(s, d) && d >= 0
    ensures var u := UnlinkAt(s, d, [n]).0;
            KeepsNodes(s, u) && OpenDir(u, d) &&
            (forall m | m != n :: KeepsEntry(s, u, d, m)) &&
            (Removable(s, d, n) ==> n !in u.nodes[d].entries) &&
            (n !in s.nodes[d].entries ==> n !in u.nodes[d].entries)
  {
    ParentOfName(s, d, n);
  }

  /**
   * Lines 138-155: in an open directory, every doomed file of the listing
   * is unlinked (unless this is a dry run), and every name that no doomed
   * entry carries keeps its entry.
   */
  lemma {:induction false} PurgeDirEffect(s: State, dfd: int, es: seq<Dirent>, maxage: nat, dryRun: bool)
    requires OpenDir(s, dfd) && dfd >= 0
    requires forall i, j | 0 <= i < j < |es| :: es[i].name != es[j].name
    ensures var t := PurgeDir(s, dfd, es, maxage, dryRun);
            KeepsNodes(s, t) && OpenDir(t, dfd) &&
            (forall n | dryRun || !DoomedName(es, n, maxage) :: KeepsEntry(s, t, dfd, n)) &&
            (forall i | 0 <= i < |es| && !dryRun && Doomed(es[i], maxage) && Removable(s, dfd, es[i].name) ::
               es[i].name !in t.nodes[dfd].entries)
    decreases |es|
  {
    if es != [] {
      var e := es[0];
      var s1 := PurgeEntry(s, dfd, e, maxage, dryRun);
      var t := PurgeDir(s1, dfd, es[1..], maxage, dryRun);
      PurgeEntryStep(s, dfd, e, maxage, dryRun);
      HeadNameApart(es);
      PurgeDirEffect(s1, dfd, es[1..], maxage, dryRun);
      forall n | dryRun || !DoomedName(es, n, maxage)
        ensures KeepsEntry(s, t, dfd, n)
      {
        if !dryRun {
          DoomedNameTail(es, n, maxage);
          assert !(e.name == n && Doomed(e, maxage));
        }
        assert KeepsEntry(s, s1, dfd, n) && KeepsEntry(s1, t, dfd, n);
      }
      forall i | 0 <= i < |es| && !dryRun && Doomed(es[i], maxage) && Removable(s, dfd, es[i].name)
        ensures es[i].name !in t.nodes[dfd].entries
      {
        if i == 0 {
          HeadNameNotInTail(es, maxage);
          assert KeepsEntry(s1, t, dfd, e.name);
        } else {
          assert es[1..][i - 1] == es[i];
          RemovableKept(s, s1, dfd, es[i].name);
        }
      }
    }
  }

  /** One entry of the purge loop: only its own name may change, and a doomed removable file goes. */
  lemma PurgeEntryStep(s: State, dfd: int, e: Dirent, maxage: nat, dryRun: bool)
    requires OpenDir(s, dfd) && dfd >= 0
    ensures var s1 := PurgeEntry(s, dfd, e, maxage, dryRun);
            KeepsNodes(s, s1) && OpenDir(s1, dfd) &&
            (forall n | dryRun || !Doomed(e, maxage) || n != e.name :: KeepsEntry(s, s1, dfd, n)) &&
            (!dryRun && Doomed(e, maxage) && Removable(s, dfd, e.name) ==> e.name !in s1.nodes[dfd].entries)
  {
    if Doomed(e, maxage) && !dryRun {
      UnlinkStep(s, dfd, e.name);
    }
  }

  /** The later names of a listing of distinct names differ from the first. */
  lemma HeadNameApart(es: seq<Dirent>)
    requires es != []
    requires forall i, j | 0 <= i < j < |es| :: es[i].name != es[j].name
    ensures forall i, j | 0 <= i < j < |es[1..]| :: es[1..][i].name != es[1..][j].name
    ensures forall i | 0 <= i < |es[1..]| :: es[1..][i].name != es[0].name
  {
    forall i, j | 0 <= i < j < |es[1..]| ensures es[1..][i].name != es[1..][j].name {
      assert es[1..][i] == es[i + 1] && es[1..][j] == es[j + 1];
    }
    forall i | 0 <= i < |es[1..]| ensures es[1..][i].name != es[0].name {
      assert es[1..][i] == es[i + 1];
    }
  }

  /** A kept entry that was removable still is. */
  lemma RemovableKept(s: State, s1: State, d: int, n: string)
    requires IsDir(s, d) && KeepsNodes(s, s1) && KeepsEntry(s, s1, d, n)
    ensures Removable(s, d, n) ==> Removable(s1, d, n)
  {
  }

  // ---------------------------------------------------------------------
  // What a purge may touch

  /** A name without a `<seconds>.` prefix is never unlinked; `cur` is such a name. */
  lemma CurNeverDoomed(es: seq<Dirent>, maxage: nat)
    ensures TimestampPrefix("cur").None? && !DoomedName(es, "cur", maxage)
  {
  }

  /**
   * The purge loop over directory `dfd` changes no other node, and keeps
   * every entry of `dfd` whose name carries no timestamp.
   */
  lemma {:induction false} PurgeDirWithin(s: State, dfd: int, es: seq<Dirent>, maxage: nat, dryRun: bool)
    ensures OthersKept(s, PurgeDir(s, dfd, es, maxage, dryRun), dfd)
    ensures IsDir(s, dfd) ==>
              forall n | TimestampPrefix(n).None? :: KeepsEntry(s, PurgeDir(s, dfd, es, maxage, dryRun), dfd, n)
    decreases |es|
  {
    if es != [] {
      var s1 := PurgeEntry(s, dfd, es[0], maxage, dryRun);
      var t := PurgeDir(s1, dfd, es[1..], maxage, dryRun);
      assert PurgeDir(s, dfd, es, maxage, dryRun) == t;
      PurgeEntryWithin(s, dfd, es[0], maxage, dryRun);
      PurgeDirWithin(s1, dfd, es[1..], maxage, dryRun);
      OthersKeptTrans(s, s1, t, dfd);
      if IsDir(s, dfd) {
        forall n | TimestampPrefix(n).None? ensures KeepsEntry(s, t, dfd, n) {
          assert KeepsEntry(s, s1, dfd, n) && KeepsEntry(s1, t, dfd, n);
        }
      }
    }
  }

  /** One entry of the purge loop changes no node but `dfd`, and no name of `dfd` without a timestamp. */
  lemma PurgeEntryWithin(s: State, dfd: int, e: Dirent, maxage: nat, dryRun: bool)
    ensures OthersKept(s, PurgeEntry(s, dfd, e, maxage, dryRun), dfd)
    ensures IsDir(s, dfd) ==>
              forall n | TimestampPrefix(n).None? :: KeepsEntry(s, PurgeEntry(s, dfd, e, maxage, dryRun), dfd, n)
  {
    var s1 := PurgeEntry(s, dfd, e, maxage, dryRun);
    if Doomed(e, maxage) && !dryRun {
      assert s1 == UnlinkAt(s, dfd, [e.name]).0;
      UnlinkWithin(s, dfd, e.name);
      assert forall n | TimestampPrefix(n).None? :: n != e.name;
    } else {
      assert s1 == s;
    }
  }

  /**
   * purge_sub changes only the directories new/ and cur/ of `fd` resolve
   * to, and the cur/ it opens after purging new/ is the cur/ of the state
   * it started from.
   */
  lemma PurgeSubWithin(s: State, fd: int, maxage: nat, dryRun: bool)
    ensures SubDir(PurgeOne(s, fd, "new", maxage, dryRun).0, fd, "cur") == SubDir(s, fd, "cur")
    ensures var t := PurgeSub(s, fd, maxage, dryRun).0;
            KeepsNodes(s, t) && SameEnv(s, t) &&
            forall x | x in s.nodes && SubDir(s, fd, "new") != Some(x) && SubDir(s, fd, "cur") != Some(x) ::
              t.nodes[x] == s.nodes[x]
  {
    assert Subsources[1..] == ["cur"] && Subsources[1..][1..] == [];
    var s1 := PurgeOne(s, fd, "new", maxage, dryRun).0;
    var t := PurgeSub(s, fd, maxage, dryRun).0;
    assert t == PurgeOne(s1, fd, "cur", maxage, dryRun).0;
    CurNeverDoomed([], maxage);
    if SubDir(s, fd, "new").Some? {
      var dn := SubDir(s, fd, "new").value;
      PurgeDirWithin(s, dn, Listing(s, dn), maxage, dryRun);
      OpenKept(s, s1, fd, "cur");
    }
    assert SubDir(s1, fd, "cur") == SubDir(s, fd, "cur");
    assert OthersKept(s, s1, if SubDir(s, fd, "new").Some? then SubDir(s, fd, "new").value else -1);
    if SubDir(s1, fd, "cur").Some? {
      var dc := SubDir(s1, fd, "cur").value;
      PurgeDirWithin(s1, dc, Listing(s1, dc), maxage, dryRun);
    } else {
      assert t == s1;
    }
  }

  /** The result a purge of one maildir gives main, or its crash in readdir(NULL). */
  datatype Outcome = Outcome(s: State, ret: int, crashed: bool)

  /** Lines 180-193: a root entry that purge hands to purge_sub (selected, and a directory or of unknown type). */
  predicate Chosen(e: Dirent, sourcefolder: Option<string>, recursive: bool)
  {
    Selected(e.name, sourcefolder, recursive) && (e.dtype == DT_UNKNOWN || e.dtype == DT_DIR)
  }

  /** Line 195: the descriptor of sub-folder `n`, -1 when it does not open. */
  function FolderFd(s: State, basefd: int, n: string): (fd: int)
    ensures fd == -1 || OpenAt(s, basefd, [n], false) == Ok(fd)
  {
    if OpenAt(s, basefd, [n], false).Ok? then OpenAt(s, basefd, [n], false).value else -1
  }

  /** Directory `x` is the new/ or cur/ of the chosen root entry `e`. */
  ghost predicate ReachedBy(s: State, basefd: int, e: Dirent, o: Options, x: int)
  {
    Chosen(e, o.sourcefolder, o.recursive) &&
    (SubDir(s, FolderFd(s, basefd, e.name), "new") == Some(x) || SubDir(s, FolderFd(s, basefd, e.name), "cur") == Some(x))
  }

  /** Directory `x` is purged by the loop over the root entries `es`. */
  ghost predicate Reached(s: State, basefd: int, es: seq<Dirent>, o: Options, x: int)
  {
    exists i | 0 <= i < |es| :: ReachedBy(s, basefd, es[i], o, x)
  }

  /**
   * No directory the loop purges is the root or one of the chosen
   * sub-folders themselves; this holds whenever the directories form a
   * tree (no `.Name` entry leads back up through a link).
   */
  ghost predicate Separate(s: State, basefd: int, es: seq<Dirent>, o: Options)
  {
    forall x | Reached(s, basefd, es, o, x) ::
      x != basefd && forall i | 0 <= i < |es| && Chosen(es[i], o.sourcefolder, o.recursive) :: FolderFd(s, basefd, es[i].name) != x
  }

  lemma ReachedTail(s: State, basefd: int, es: seq<Dirent>, o: Options)
    requires es != []
    ensures forall x | Reached(s, basefd, es[1..], o, x) :: Reached(s, basefd, es, o, x)
    ensures Separate(s, basefd, es, o) ==> Separate(s, basefd, es[1..], o)
  {
    forall x | Reached(s, basefd, es[1..], o, x) ensures Reached(s, basefd, es, o, x) {
      var i :| 0 <= i < |es[1..]| && ReachedBy(s, basefd, es[1..][i], o, x);
      assert es[i + 1] == es[1..][i];
    }
    if Separate(s, basefd, es, o) {
      forall x, i | Reached(s, basefd, es[1..], o, x) && 0 <= i < |es[1..]| && Chosen(es[1..][i], o.sourcefolder, o.recursive)
        ensures FolderFd(s, basefd, es[1..][i].name) != x
      {
        assert es[i + 1] == es[1..][i];
      }
    }
  }

  /**
   * A state that keeps the root directory and the chosen sub-folders'
   * nodes resolves the same sub-folders and the same new/ and cur/.
   */
  lemma ReachedKept(s: State, s1: State, basefd: int, fs: seq<Dirent>, o: Options)
    requires KeepsNodes(s, s1)
    requires basefd in s.nodes ==> s1.nodes[basefd] == s.nodes[basefd]
    requires forall i | 0 <= i < |fs| && Chosen(fs[i], o.sourcefolder, o.recursive) ::
               FolderFd(s, basefd, fs[i].name) in s.nodes ==>
                 s1.nodes[FolderFd(s, basefd, fs[i].name)] == s.nodes[FolderFd(s, basefd, fs[i].name)]
    ensures forall i | 0 <= i < |fs| && Chosen(fs[i], o.sourcefolder, o.recursive) ::
              FolderFd(s1, basefd, fs[i].name) == FolderFd(s, basefd, fs[i].name)
    ensures forall x :: Reached(s1, basefd, fs, o, x) <==> Reached(s, basefd, fs, o, x)
    ensures Separate(s1, basefd, fs, o) <==> Separate(s, basefd, fs, o)
  {
    forall i | 0 <= i < |fs| && Chosen(fs[i], o.sourcefolder, o.recursive)
      ensures FolderFd(s1, basefd, fs[i].name) == FolderFd(s, basefd, fs[i].name)
      ensures SubDir(s1, FolderFd(s1, basefd, fs[i].name), "new") == SubDir(s, FolderFd(s, basefd, fs[i].name), "new")
      ensures SubDir(s1, FolderFd(s1, basefd, fs[i].name), "cur") == SubDir(s, FolderFd(s, basefd, fs[i].name), "cur")
    {
      OpenKept(s, s1, basefd, fs[i].name);
      var f := FolderFd(s, basefd, fs[i].name);
      OpenKept(s, s1, f, "new");
      OpenKept(s, s1, f, "cur");
    }
    forall x ensures Reached(s1, basefd, fs, o, x) <==> Reached(s, basefd, fs, o, x) {
      if Reached(s1, basefd, fs, o, x) {
        var i :| 0 <= i < |fs| && ReachedBy(s1, basefd, fs[i], o, x);
        assert ReachedBy(s, basefd, fs[i], o, x);
      }
      if Reached(s, basefd, fs, o, x) {
        var i :| 0 <= i < |fs| && ReachedBy(s, basefd, fs[i], o, x);
        assert ReachedBy(s1, basefd, fs[i], o, x);
      }
    }
  }

  /**
   * Lines 176-203: when the directories the loop purges are apart from the
   * root and the sub-folders, the loop changes no directory but those.
   */
  lemma {:induction false} PurgeFoldersWithin(s: State, basefd: int, es: seq<Dirent>, o: Options, ret: int)
    requires ret in {0, 1} && Separate(s, basefd, es, o)
    ensures var t := PurgeFolders(s, basefd, es, o.sourcefolder, o.recursive, o.maxage, o.dryRun, ret).0;
            KeepsNodes(s, t) && SameEnv(s, t) &&
            forall x | x in s.nodes && !Reached(s, basefd, es, o, x) :: t.nodes[x] == s.nodes[x]
    decreases |es|
  {
    if es != [] {
      var e := es[0];
      ReachedTail(s, basefd, es, o);
      if !Chosen(e, o.sourcefolder, o.recursive) {
        PurgeFoldersWithin(s, basefd, es[1..], o, ret);
      } else {
        var f := FolderFd(s, basefd, e.name);
        var p := PurgeSub(s, f, o.maxage, o.dryRun);
        var s1 := p.0;
        PurgeSubWithin(s, f, o.maxage, o.dryRun);
        assert forall x | x in s.nodes && !Reached(s, basefd, es, o, x) :: s1.nodes[x] == s.nodes[x] by {
          forall x | x in s.nodes && !Reached(s, basefd, es, o, x) ensures s1.nodes[x] == s.nodes[x] {
            assert !ReachedBy(s, basefd, es[0], o, x);
          }
        }
        var tail := es[1..];
        forall i | 0 <= i < |tail| && Chosen(tail[i], o.sourcefolder, o.recursive)
          ensures FolderFd(s, basefd, tail[i].name) in s.nodes ==>
                    s1.nodes[FolderFd(s, basefd, tail[i].name)] == s.nodes[FolderFd(s, basefd, tail[i].name)]
        {
          assert tail[i] == es[i + 1];
        }
        ReachedKept(s, s1, basefd, tail, o);
        PurgeFoldersWithin(s1, basefd, tail, o, if p.1 == 1 then 1 else ret);
      }
    }
  }

  /** Lines 176-203: the selected sub-folders of the root; an unopenable one is purged through descriptor -1. */
  function PurgeFolders(s: State, basefd: int, es: seq<Dirent>, sourcefolder: Option<string>, recursive: bool,
                        maxage: nat, dryRun: bool, ret: int): (r: (State, int))
    requires ret in {0, 1}
    ensures r.1 in {0, 1} && (ret == 1 ==> r.1 == 1)
    decreases |es|
  {
    if es == [] then (s, ret)
    else
      var e := es[0];
      if !Chosen(e, sourcefolder, recursive) then
        PurgeFolders(s, basefd, es[1..], sourcefolder, recursive, maxage, dryRun, ret)
      else
        var p := PurgeSub(s, FolderFd(s, basefd, e.name), maxage, dryRun);
        PurgeFolders(p.0, basefd, es[1..], sourcefolder, recursive, maxage, dryRun, if p.1 == 1 then 1 else ret)
  }

  /** What one run is told: the cut-off, -s, -r and -n. */
  datatype Options = Options(maxage: nat, sourcefolder: Option<string>, recursive: bool, dryRun: bool)

  /**
   * purge(base): the maildir itself only without -s (its purge_sub result
   * is not looked at), then the selected sub-folders with -s or -r.
   */
  function PurgeBase(s: State, cwd: int, base: Path, o: Options): (r: Outcome)
    ensures r.ret in {0, 1}
  {
    match OpenAt(s, cwd, base, false)
      case Err(_) => Outcome(s, 1, false)
      case Ok(basefd) =>
        var s1 := if o.sourcefolder.None? then PurgeSub(s, basefd, o.maxage, o.dryRun).0 else s;
        if o.sourcefolder.None? && !o.recursive then Outcome(s1, 0, false)
        else if !IsDir(s1, basefd) then Outcome(s1, 0, true)
        else
          var f := PurgeFolders(s1, basefd, Listing(s1, basefd), o.sourcefolder, o.recursive, o.maxage, o.dryRun, 0);
          Outcome(f.0, f.1, false)
  }

  /** Lines 172-173: a plain purge of a maildir reports success even when its new/ or cur/ cannot be opened. */
  lemma BaseFailureNotReported(s: State, cwd: int, base: Path, o: Options)
    requires o.sourcefolder.None? && !o.recursive && OpenAt(s, cwd, base, false).Ok?
    ensures PurgeBase(s, cwd, base, o).ret == 0
  {
  }

  /**
   * Lines 172-187: with -s the maildir's own new/ and cur/ are left as they
   * were, so long as the sub-folders' new/ and cur/ are other directories.
   */
  lemma SourceFolderSparesBase(s: State, cwd: int, base: Path, o: Options)
    requires o.sourcefolder.Some? && OpenAt(s, cwd, base, false).Ok?
    requires var b := OpenAt(s, cwd, base, false).value;
             IsDir(s, b) ==>
               Separate(s, b, Listing(s, b), o) &&
               (SubDir(s, b, "new").Some? ==> !Reached(s, b, Listing(s, b), o, SubDir(s, b, "new").value)) &&
               (SubDir(s, b, "cur").Some? ==> !Reached(s, b, Listing(s, b), o, SubDir(s, b, "cur").value))
    ensures var b := OpenAt(s, cwd, base, false).value;
            var t := PurgeBase(s, cwd, base, o).s;
            KeepsNodes(s, t) &&
            (SubDir(s, b, "new").Some? ==> t.nodes[SubDir(s, b, "new").value] == s.nodes[SubDir(s, b, "new").value]) &&
            (SubDir(s, b, "cur").Some? ==> t.nodes[SubDir(s, b, "cur").value] == s.nodes[SubDir(s, b, "cur").value])
  {
    var b := OpenAt(s, cwd, base, false).value;
    if IsDir(s, b) {
      PurgeFoldersWithin(s, b, Listing(s, b), o, 0);
    }
  }

  /** With -s and no root entry selected, nothing changes at all. */
  lemma SourceFolderUnmatched(s: State, cwd: int, base: Path, o: Options)
    requires o.sourcefolder.Some? && OpenAt(s, cwd, base, false).Ok?
    requires !IsDir(s, OpenAt(s, cwd, base, false).value) ||
             forall i | 0 <= i < |Listing(s, OpenAt(s, cwd, base, false).value)| ::
               !Selected(Listing(s, OpenAt(s, cwd, base, false).value)[i].name, o.sourcefolder, o.recursive)
    ensures PurgeBase(s, cwd, base, o).s == s
  {
    var basefd := OpenAt(s, cwd, base, false).value;
    if IsDir(s, basefd) {
      NothingSelected(s, basefd, Listing(s, basefd), o, 0);
    }
  }

  /**
   * Lines 138-155 as seen from outside: in directory `d` every doomed file
   * of its listing is gone (unless this is a dry run) and every other name
   * keeps its entry.
   */
  ghost predicate PurgedDir(s: State, t: State, d: int, maxage: nat, dryRun: bool)
    requires IsDir(s, d)
  {
    var es := Listing(s, d);
    KeepsNodes(s, t) && IsDir(t, d) &&
    (forall n | dryRun || !DoomedName(es, n, maxage) :: KeepsEntry(s, t, d, n)) &&
    (forall i | 0 <= i < |es| && !dryRun && Doomed(es[i], maxage) && Removable(s, d, es[i].name) ::
       es[i].name !in t.nodes[d].entries)
  }

  /** purge_sub purges new/ and cur/ of `fd` as the listings of the state it starts from say, when they are two directories. */
  lemma PurgeSubEffect(s: State, fd: int, maxage: nat, dryRun: bool)
    requires Fresh(s) && OrderOk(s)
    requires SubDir(s, fd, "new").None? || SubDir(s, fd, "new") != SubDir(s, fd, "cur")
    ensures var t := PurgeSub(s, fd, maxage, dryRun).0;
            (SubDir(s, fd, "new").Some? ==> PurgedDir(s, t, SubDir(s, fd, "new").value, maxage, dryRun)) &&
            (SubDir(s, fd, "cur").Some? ==> PurgedDir(s, t, SubDir(s, fd, "cur").value, maxage, dryRun))
  {
    assert Subsources[1..] == ["cur"] && Subsources[1..][1..] == [];
    var s1 := PurgeOne(s, fd, "new", maxage, dryRun).0;
    var t := PurgeSub(s, fd, maxage, dryRun).0;
    assert t == PurgeOne(s1, fd, "cur", maxage, dryRun).0;
    PurgeSubWithin(s, fd, maxage, dryRun);
    if SubDir(s, fd, "new").Some? {
      var dn := SubDir(s, fd, "new").value;
      PurgeOneEffect(s, fd, "new", maxage, dryRun);
      if SubDir(s, fd, "cur").Some? {
        PurgeDirWithin(s1, SubDir(s, fd, "cur").value, Listing(s1, SubDir(s, fd, "cur").value), maxage, dryRun);
      }
      PurgedDirLater(s, s1, t, dn, maxage, dryRun);
    }
    if SubDir(s, fd, "cur").Some? {
      var dc := SubDir(s, fd, "cur").value;
      if SubDir(s, fd, "new").Some? {
        PurgeDirWithin(s, SubDir(s, fd, "new").value, Listing(s, SubDir(s, fd, "new").value), maxage, dryRun);
      }
      PurgeOneEffect(s1, fd, "cur", maxage, dryRun);
      PurgedDirEarlier(s, s1, t, dc, maxage, dryRun);
    }
  }

  /** One pass of purge_sub purges the directory it opens. */
  lemma PurgeOneEffect(s: State, fd: int, sub: string, maxage: nat, dryRun: bool)
    requires OrderOk(s) && SubDir(s, fd, sub).Some? && SubDir(s, fd, sub).value >= 0
    ensures PurgedDir(s, PurgeOne(s, fd, sub, maxage, dryRun).0, SubDir(s, fd, sub).value, maxage, dryRun)
  {
    var d := SubDir(s, fd, sub).value;
    ListingDistinct(s, d);
    PurgeDirEffect(s, d, Listing(s, d), maxage, dryRun);
  }

  /** A purged directory stays purged through a step that keeps its node. */
  lemma PurgedDirLater(s: State, s1: State, t: State, d: int, maxage: nat, dryRun: bool)
    requires IsDir(s, d) && PurgedDir(s, s1, d, maxage, dryRun) && KeepsNodes(s1, t) && t.nodes[d] == s1.nodes[d]
    ensures PurgedDir(s, t, d, maxage, dryRun)
  {
    forall n | dryRun || !DoomedName(Listing(s, d), n, maxage) ensures KeepsEntry(s, t, d, n) {
      assert KeepsEntry(s, s1, d, n);
    }
  }

  /** A directory purged after a step that kept its node is purged as its listing before that step says. */
  lemma PurgedDirEarlier(s: State, s1: State, t: State, d: int, maxage: nat, dryRun: bool)
    requires IsDir(s, d) && KeepsNodes(s, s1) && SameEnv(s, s1) && s1.nodes[d] == s.nodes[d]
    requires PurgedDir(s1, t, d, maxage, dryRun)
    ensures PurgedDir(s, t, d, maxage, dryRun)
  {
    ListingKept(s, s1, d);
    forall n | dryRun || !DoomedName(Listing(s, d), n, maxage) ensures KeepsEntry(s, t, d, n) {
      assert KeepsEntry(s1, t, d, n);
    }
  }

  /** Lines 172-173: a plain purge (no -s, no -r) purges the maildir's own new/ and cur/. */
  lemma PlainPurge(s: State, cwd: int, base: Path, o: Options)
    requires o.sourcefolder.None? && !o.recursive && OpenAt(s, cwd, base, false).Ok?
    requires Fresh(s) && OrderOk(s)
    requires var b := OpenAt(s, cwd, base, false).value;
             SubDir(s, b, "new").None? || SubDir(s, b, "new") != SubDir(s, b, "cur")
    ensures var b := OpenAt(s, cwd, base, false).value;
            var t := PurgeBase(s, cwd, base, o).s;
            (SubDir(s, b, "new").Some? ==> PurgedDir(s, t, SubDir(s, b, "new").value, o.maxage, o.dryRun)) &&
            (SubDir(s, b, "cur").Some? ==> PurgedDir(s, t, SubDir(s, b, "cur").value, o.maxage, o.dryRun))
  {
    PurgeSubEffect(s, OpenAt(s, cwd, base, false).value, o.maxage, o.dryRun);
  }

  lemma {:induction false} NothingSelected(s: State, basefd: int, es: seq<Dirent>, o: Options, ret: int)
    requires ret in {0, 1}
    requires forall i | 0 <= i < |es| :: !Selected(es[i].name, o.sourcefolder, o.recursive)
    ensures PurgeFolders(s, basefd, es, o.sourcefolder, o.recursive, o.maxage, o.dryRun, ret) == (s, ret)
    decreases |es|
  {
    if es != [] {
      assert forall i | 0 <= i < |es[1..]| :: es[1..][i] == es[i + 1];
      NothingSelected(s, basefd, es[1..], o, ret);
    }
  }

  /** main: each maildir in turn until one reports a failure; 1 for a zero cut-off or no maildir. */
  function RunSpec(s: State, cwd: int, o: Options, bases: seq<Path>): (r: Outcome)
  {
    if o.maxage == 0 || bases == [] then Outcome(s, 1, false) else Loop(s, cwd, o, bases)
  }

  function Loop(s: State, cwd: int, o: Options, bases: seq<Path>): (r: Outcome)
    ensures r.ret in {0, 1}
    decreases |bases|
  {
    if bases == [] then Outcome(s, 0, false)
    else
      var p := PurgeBase(s, cwd, bases[0], o);
      if p.crashed || p.ret != 0 then p else Loop(p.s, cwd, o, bases[1..])
  }

  /** Lines 265-269: once a maildir fails, none after it is touched. */
  lemma {:induction false} StopsAtFirstFailure(s: State, cwd: int, o: Options, bases: seq<Path>, more: seq<Path>)
    requires Loop(s, cwd, o, bases).ret != 0 || Loop(s, cwd, o, bases).crashed
    ensures Loop(s, cwd, o, bases + more) == Loop(s, cwd, o, bases)
    decreases |bases|
  {
    assert bases != [];
    assert (bases + more)[0] == bases[0] && (bases + more)[1..] == bases[1..] + more;
    var p := PurgeBase(s, cwd, bases[0], o);
    if !(p.crashed || p.ret != 0) {
      StopsAtFirstFailure(p.s, cwd, o, bases[1..], more);
    }
  }

  /** A dry run unlinks nothing. */
  lemma {:induction false} DryRunDir(s: State, dfd: int, es: seq<Dirent>, maxage: nat)
    ensures PurgeDir(s, dfd, es, maxage, true) == s
    decreases |es|
  {
    if es != [] {
      DryRunDir(s, dfd, es[1..], maxage);
    }
  }

  lemma {:induction false} DryRunSubs(s: State, fd: int, subs: seq<string>, maxage: nat)
    ensures PurgeSubs(s, fd, subs, maxage, true).0 == s
    decreases |subs|
  {
    if subs != [] {
      var d := OpenAt(s, fd, [subs[0]], false);
      if d.Ok? && IsDir(s, d.value) {
        DryRunDir(s, d.value, Listing(s, d.value), maxage);
      }
      DryRunSubs(s, fd, subs[1..], maxage);
    }
  }

  lemma {:induction false} DryRunFolders(s: State, basefd: int, es: seq<Dirent>, o: Options, ret: int)
    requires o.dryRun && ret in {0, 1}
    ensures PurgeFolders(s, basefd, es, o.sourcefolder, o.recursive, o.maxage, o.dryRun, ret).0 == s
    decreases |es|
  {
    if es != [] {
      var e := es[0];
      if Selected(e.name, o.sourcefolder, o.recursive) && (e.dtype == DT_UNKNOWN || e.dtype == DT_DIR) {
        var d := OpenAt(s, basefd, [e.name], false);
        var sfd := if d.Ok? then d.value else -1;
        DryRunSubs(s, sfd, Subsources, o.maxage);
        DryRunFolders(s, basefd, es[1..], o, if PurgeSub(s, sfd, o.maxage, o.dryRun).1 == 1 then 1 else ret);
      } else {
        DryRunFolders(s, basefd, es[1..], o, ret);
      }
    }
  }

  /** Lines 151-152: with -n nothing on disk changes. */
  lemma {:induction false} DryRun(s: State, cwd: int, o: Options, bases: seq<Path>)
    requires o.dryRun
    ensures Loop(s, cwd, o, bases).s == s
    decreases |bases|
  {
    if bases != [] {
      var b := OpenAt(s, cwd, bases[0], false);
      if b.Ok? {
        if o.sourcefolder.None? {
          DryRunSubs(s, b.value, Subsources, o.maxage);
        }
        if IsDir(s, b.value) && (o.sourcefolder.Some? || o.recursive) {
          DryRunFolders(s, b.value, Listing(s, b.value), o, 0);
        }
      }
      DryRun(s, cwd, o, bases[1..]);
    }
  }

  // ---------------------------------------------------------------------
  // The operations on one mutable filesystem

  /** The readdir loop of lines 138-155. */
  method PurgeDirM(fs: FileSystem, dfd: int, es: seq<Dirent>, maxage: nat, dryRun: bool)
    modifies fs
    ensures fs.s == PurgeDir(old(fs.s), dfd, es, maxage, dryRun)
  {
    var i := 0;
    while i < |es|
      invariant 0 <= i <= |es|
      invariant PurgeDir(old(fs.s), dfd, es, maxage, dryRun) == PurgeDir(fs.s, dfd, es[i..], maxage, dryRun)
    {
      assert es[i..][0] == es[i] && es[i..][1..] == es[i + 1..];
      var e := es[i];
      i := i + 1;
      if e.dtype != DT_REG {
        continue;
      }
      var filetime := TimestampPrefix(e.name);
      if filetime.None? || filetime.value >= maxage {
        continue;
      }
      if !dryRun {
        var _ := fs.Unlink(dfd, [e.name]);
      }
    }
  }

  /** purge_sub(name, fd). */
  method PurgeSubM(fs: FileSystem, fd: int, maxage: nat, dryRun: bool) returns (ret: int)
    modifies fs
    ensures (fs.s, ret) == PurgeSub(old(fs.s), fd, maxage, dryRun)
  {
    ret := 0;
    var k := 0;
    while k < |Subsources|
      invariant 0 <= k <= |Subsources| && ret in {0, 1}
      invariant var rest := PurgeSubs(fs.s, fd, Subsources[k..], maxage, dryRun);
                PurgeSub(old(fs.s), fd, maxage, dryRun) == (rest.0, if ret == 1 then 1 else rest.1)
    {
      assert Subsources[k..][0] == Subsources[k] && Subsources[k..][1..] == Subsources[k + 1..];
      var dfd := OpenAt(fs.s, fd, [Subsources[k]], false);
      if dfd.Err? || !IsDir(fs.s, dfd.value) {
        ret := 1;
      } else {
        PurgeDirM(fs, dfd.value, Listing(fs.s, dfd.value), maxage, dryRun);
      }
      k := k + 1;
    }
  }

  /** Lines 176-203. */
  method PurgeFoldersM(fs: FileSystem, basefd: int, es: seq<Dirent>, o: Options) returns (ret: int)
    modifies fs
    ensures (fs.s, ret) == PurgeFolders(old(fs.s), basefd, es, o.sourcefolder, o.recursive, o.maxage, o.dryRun, 0)
  {
    ret := 0;
    var i := 0;
    while i < |es|
      invariant 0 <= i <= |es| && ret in {0, 1}
      invariant PurgeFolders(old(fs.s), basefd, es, o.sourcefolder, o.recursive, o.maxage, o.dryRun, 0) ==
                PurgeFolders(fs.s, basefd, es[i..], o.sourcefolder, o.recursive, o.maxage, o.dryRun, ret)
    {
      assert es[i..][0] == es[i] && es[i..][1..] == es[i + 1..];
      var e := es[i];
      i := i + 1;
      if !Selected(e.name, o.sourcefolder, o.recursive) {
        continue;
      }
      if e.dtype != DT_UNKNOWN && e.dtype != DT_DIR {
        continue;
      }
      var sfd := OpenAt(fs.s, basefd, [e.name], false);
      var r := PurgeSubM(fs, if sfd.Ok? then sfd.value else -1, o.maxage, o.dryRun);
      ret := if r == 1 then 1 else ret;
    }
  }

  /** purge(base). */
  method PurgeBaseM(fs: FileSystem, cwd: int, base: Path, o: Options) returns (ret: int, crashed: bool)
    modifies fs
    ensures Outcome(fs.s, ret, crashed) == PurgeBase(old(fs.s), cwd, base, o)
  {
    crashed := false;
    var basefd := OpenAt(fs.s, cwd, base, false);
    if basefd.Err? {
      return 1, false;
    }
    if o.sourcefolder.None? {
      var _ := PurgeSubM(fs, basefd.value, o.maxage, o.dryRun);
    }
    ret := 0;
    if o.sourcefolder.Some? || o.recursive {
      if !IsDir(fs.s, basefd.value) {
        return 0, true;
      }
      ret := PurgeFoldersM(fs, basefd.value, Listing(fs.s, basefd.value), o);
    }
  }

  /** main after option parsing: the exit status, or a crash. */
  method Run(fs: FileSystem, cwd: int, o: Options, bases: seq<Path>) returns (ret: int, crashed: bool)
    modifies fs
    ensures Outcome(fs.s, ret, crashed) == RunSpec(old(fs.s), cwd, o, bases)
  {
    if o.maxage == 0 || bases == [] {
      return 1, false;
    }
    var i := 0;
    while i < |bases|
      invariant 0 <= i <= |bases|
      invariant RunSpec(old(fs.s), cwd, o, bases) == Loop(fs.s, cwd, o, bases[i..])
    {
      assert bases[i..][0] == bases[i] && bases[i..][1..] == bases[i + 1..];
      ret, crashed := PurgeBaseM(fs, cwd, bases[i], o);
      if crashed || ret != 0 {
        return;
      }
      i := i + 1;
    }
    return 0, false;
  }
}

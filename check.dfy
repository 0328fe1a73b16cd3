/**
 * maildircheck (src/maildircheck.c): checks that every folder, message
 * directory and message of a maildir has the ownership of the maildir's
 * root, counting one error per problem.  Nothing on disk is changed.
 */
module Check {
  import opened Wrappers
  import opened Fs

  // ---------------------------------------------------------------------
  // Counting

  /** The sum of a sequence of error counts. */
  function SumOf(xs: seq<int>): int
    decreases |xs|
  {
    if xs == [] then 0 else SumOf(xs[..|xs| - 1]) + xs[|xs| - 1]
  }

  /** Counts that are never negative sum to zero exactly when each of them is zero. */
  lemma {:induction false} SumOfZero(xs: seq<int>)
    requires forall i | 0 <= i < |xs| :: xs[i] >= 0
    ensures SumOf(xs) >= 0
    ensures SumOf(xs) == 0 <==> forall i | 0 <= i < |xs| :: xs[i] == 0
    decreases |xs|
  {
    if xs != [] {
      var init := xs[..|xs| - 1];
      assert forall i | 0 <= i < |init| :: init[i] == xs[i];
      SumOfZero(init);
    }
  }

  /** The running sum of a loop that adds the counts one at a time. */
  lemma SumOfSnoc(xs: seq<int>, i: nat)
    requires i < |xs|
    ensures SumOf(xs[..i + 1]) == SumOf(xs[..i]) + xs[i]
  {
    assert xs[..i + 1][..i] == xs[..i];
  }

  // ---------------------------------------------------------------------
  // myfstatat

  /** MAX_STAT_ENOENT_RETRY. */
  const MaxStatEnoentRetry: nat := 10

  /**
   * myfstatat from attempt `k` on, where `attempt(j)` is what the `j`-th
   * fstatat call returns (a flaky filesystem may report ENOENT for an entry
   * it has just listed).  The second component is the number of ENOENT
   * failures the warning reports.
   */
  function Retry(attempt: nat -> Res<Stat>, k: nat): (r: (Res<Stat>, nat))
    requires k < MaxStatEnoentRetry
    ensures k <= r.1 <= MaxStatEnoentRetry
    decreases MaxStatEnoentRetry - k
  {
    if attempt(k) == Err(ENOENT) then
      if k + 1 < MaxStatEnoentRetry then Retry(attempt, k + 1) else (attempt(k), k + 1)
    else (attempt(k), k)
  }

  /**
   * Lines 40-47: the result is the first attempt that does not fail with
   * ENOENT, among at most ten attempts, or the tenth ENOENT; every other
   * error ends the loop at once.  The reported count is exactly the number
   * of ENOENT failures seen, so the warning appears only after one.
   */
  lemma {:induction false} RetryFirst(attempt: nat -> Res<Stat>, j: nat, k: nat)
    requires k <= j < MaxStatEnoentRetry
    requires forall i | k <= i < j :: attempt(i) == Err(ENOENT)
    requires attempt(j) != Err(ENOENT) || j == MaxStatEnoentRetry - 1
    ensures Retry(attempt, k) == (attempt(j), if attempt(j) == Err(ENOENT) then j + 1 else j)
    decreases j - k
  {
    if k < j {
      RetryFirst(attempt, j, k + 1);
    }
  }

  /** On a filesystem whose answer does not change, myfstatat is one fstatat, and warns only when that is ENOENT. */
  lemma RetryStable(s: State, fd: int, path: Path)
    ensures Retry(_ => FStatAt(s, fd, path), 0) ==
            (FStatAt(s, fd, path), if FStatAt(s, fd, path) == Err(ENOENT) then MaxStatEnoentRetry else 0)
  {
    var attempt: nat -> Res<Stat> := _ => FStatAt(s, fd, path);
    RetryFirst(attempt, if FStatAt(s, fd, path) == Err(ENOENT) then MaxStatEnoentRetry - 1 else 0, 0);
  }

  /** myfstatat(dirfd, pathname, statbuf, flags): the countdown of `retries`. */
  method MyFStatAt(attempt: nat -> Res<Stat>) returns (r: Res<Stat>, reported: nat)
    ensures (r, reported) == Retry(attempt, 0)
  {
    var retries := MaxStatEnoentRetry;
    r := attempt(0);
    while r == Err(ENOENT)
      invariant 0 < retries <= MaxStatEnoentRetry
      invariant r == attempt(MaxStatEnoentRetry - retries)
      invariant Retry(attempt, 0) == Retry(attempt, MaxStatEnoentRetry - retries)
      decreases retries
    {
      retries := retries - 1;
      if retries == 0 {
        break;
      }
      r := attempt(MaxStatEnoentRetry - retries);
    }
    reported := MaxStatEnoentRetry - retries;
  }

  // ---------------------------------------------------------------------
  // check_ownership

  /** The entry stats and has the reference owner and group. */
  ghost predicate Owned(s: State, fd: int, path: Path, uid: nat, gid: nat)
  {
    FStatAt(s, fd, path).Ok? && FStatAt(s, fd, path).value.uid == uid && FStatAt(s, fd, path).value.gid == gid
  }

  /** check_ownership(fd, path, ec, ...): the number of errors it adds. */
  function Ownership(s: State, fd: int, path: Path, uid: nat, gid: nat): (r: int)
    ensures 0 <= r <= 2
    ensures r == 0 <==> Owned(s, fd, path, uid, gid)
    ensures FStatAt(s, fd, path).Err? ==> r == 1
    ensures FStatAt(s, fd, path).Ok? ==>
              (r == 2 <==> FStatAt(s, fd, path).value.uid != uid && FStatAt(s, fd, path).value.gid != gid)
  {
    match FStatAt(s, fd, path)
      case Err(_) => 1
      case Ok(st) => (if st.uid != uid then 1 else 0) + (if st.gid != gid then 1 else 0)
  }

  /** Lines 53-63, through myfstatat. */
  method CheckOwnership(s: State, fd: int, path: Path, uid: nat, gid: nat) returns (ec: int)
    ensures ec == Ownership(s, fd, path, uid, gid)
  {
    RetryStable(s, fd, path);
    var st, _ := MyFStatAt(_ => FStatAt(s, fd, path));
    ec := 0;
    if st.Err? {
      ec := ec + 1;
    } else {
      if st.value.uid != uid {
        ec := ec + 1;
      }
      if st.value.gid != gid {
        ec := ec + 1;
      }
    }
  }

  // ---------------------------------------------------------------------
  // check_fdpath

  /** maildir_subs: the message directories; a leading `-` marks one whose entries are not scanned. */
  const Subs: seq<string> := ["cur", "new", "-tmp"]

  predicate NoScan(sub: string)
  {
    |sub| > 0 && sub[0] == '-'
  }

  function SubName(sub: string): string
  {
    if NoScan(sub) then sub[1..] else sub
  }

  /** The ownership errors of each readdir entry of `sfd` (`.` and `..` included). */
  function EntryCounts(s: State, sfd: int, es: seq<Dirent>, uid: nat, gid: nat): (r: seq<int>)
    ensures |r| == |es| && forall i | 0 <= i < |es| :: r[i] == Ownership(s, sfd, [es[i].name], uid, gid)
  {
    seq(|es|, i requires 0 <= i < |es| => Ownership(s, sfd, [es[i].name], uid, gid))
  }

  /** Lines 78-104 for one message directory. */
  function SubCheck(s: State, fd: int, sub: string, uid: nat, gid: nat): (r: int)
    ensures r >= 0
  {
    match OpenAt(s, fd, [SubName(sub)], false)
      case Err(_) => 1
      case Ok(sfd) =>
        Ownership(s, sfd, [], uid, gid) +
        (if NoScan(sub) then 0
         else if !IsDir(s, sfd) then 1
         else (SumOfZero(EntryCounts(s, sfd, Listing(s, sfd), uid, gid));
               SumOf(EntryCounts(s, sfd, Listing(s, sfd), uid, gid))))
  }

  function SubCounts(s: State, fd: int, uid: nat, gid: nat): (r: seq<int>)
    ensures |r| == |Subs| && forall k | 0 <= k < |Subs| :: r[k] == SubCheck(s, fd, Subs[k], uid, gid)
  {
    seq(|Subs|, k requires 0 <= k < |Subs| => SubCheck(s, fd, Subs[k], uid, gid))
  }

  /** check_fdpath(fd, rpath, uid, gid): the number of errors found in one maildir folder. */
  function FdPath(s: State, fd: int, uid: nat, gid: nat): (r: int)
    ensures r >= 0
  {
    SumOfZero(SubCounts(s, fd, uid, gid));
    Ownership(s, fd, [], uid, gid) + SumOf(SubCounts(s, fd, uid, gid))
  }

  /**
   * A message directory is clean: it opens, has the reference ownership and,
   * unless it is tmp, is a directory every entry of which has it too.
   */
  ghost predicate SubClean(s: State, fd: int, sub: string, uid: nat, gid: nat)
  {
    OpenAt(s, fd, [SubName(sub)], false).Ok? &&
    var sfd := OpenAt(s, fd, [SubName(sub)], false).value;
    Owned(s, sfd, [], uid, gid) &&
    (!NoScan(sub) ==>
       IsDir(s, sfd) && forall i | 0 <= i < |Listing(s, sfd)| :: Owned(s, sfd, [Listing(s, sfd)[i].name], uid, gid))
  }

  lemma SubCheckZero(s: State, fd: int, sub: string, uid: nat, gid: nat)
    ensures SubCheck(s, fd, sub, uid, gid) == 0 <==> SubClean(s, fd, sub, uid, gid)
  {
    if OpenAt(s, fd, [SubName(sub)], false).Ok? {
      var sfd := OpenAt(s, fd, [SubName(sub)], false).value;
      if !NoScan(sub) && IsDir(s, sfd) {
        SumOfZero(EntryCounts(s, sfd, Listing(s, sfd), uid, gid));
      }
    }
  }

  /**
   * Lines 76-105: a folder counts no error exactly when the folder itself,
   * cur and new with all their entries, and tmp itself (but nothing in it)
   * have the reference ownership.
   */
  lemma FdPathZero(s: State, fd: int, uid: nat, gid: nat)
    ensures FdPath(s, fd, uid, gid) == 0 <==>
            Owned(s, fd, [], uid, gid) && SubClean(s, fd, "cur", uid, gid) &&
            SubClean(s, fd, "new", uid, gid) && SubClean(s, fd, "-tmp", uid, gid)
  {
    SumOfZero(SubCounts(s, fd, uid, gid));
    SubCheckZero(s, fd, "cur", uid, gid);
    SubCheckZero(s, fd, "new", uid, gid);
    SubCheckZero(s, fd, "-tmp", uid, gid);
    assert Subs[0] == "cur" && Subs[1] == "new" && Subs[2] == "-tmp";
  }

  /** Lines 100-102: the ownership loop over the listing of a message directory. */
  method CheckEntries(s: State, sfd: int, es: seq<Dirent>, uid: nat, gid: nat) returns (ec: int)
    ensures ec == SumOf(EntryCounts(s, sfd, es, uid, gid))
  {
    ghost var counts := EntryCounts(s, sfd, es, uid, gid);
    ec := 0;
    var i := 0;
    while i < |es|
      invariant 0 <= i <= |es|
      invariant ec == SumOf(counts[..i])
    {
      var k := CheckOwnership(s, sfd, [es[i].name], uid, gid);
      SumOfSnoc(counts, i);
      ec := ec + k;
      i := i + 1;
    }
    assert counts[..|es|] == counts;
  }

  /** check_fdpath(fd, rpath, uid, gid). */
  method CheckFdPath(s: State, fd: int, uid: nat, gid: nat) returns (ec: int)
    ensures ec == FdPath(s, fd, uid, gid)
  {
    ghost var counts := SubCounts(s, fd, uid, gid);
    ec := CheckOwnership(s, fd, [], uid, gid);
    ghost var own := ec;
    var k := 0;
    while k < |Subs|
      invariant 0 <= k <= |Subs|
      invariant ec == own + SumOf(counts[..k])
    {
      SumOfSnoc(counts, k);
      var sub := Subs[k];
      var noscan := |sub| > 0 && sub[0] == '-';
      var name := if noscan then sub[1..] else sub;
      var sfd := OpenAt(s, fd, [name], false);
      if sfd.Err? {
        ec := ec + 1;
      } else {
        var e := CheckOwnership(s, sfd.value, [], uid, gid);
        ec := ec + e;
        if !noscan {
          if !IsDir(s, sfd.value) {
            ec := ec + 1;
          } else {
            e := CheckEntries(s, sfd.value, Listing(s, sfd.value), uid, gid);
            ec := ec + e;
          }
        }
      }
      k := k + 1;
    }
    assert counts[..|Subs|] == counts;
  }

  // ---------------------------------------------------------------------
  // check_path

  /** Whether a root entry is a `.Name` sub-folder candidate (lines 150-151). */
  predicate DotFolderName(n: string)
  {
    |n| > 0 && n[0] == '.' && n !in DotNames
  }

  /** Lines 153-167: the entry's kind, when it can be told; `None` when its stat failed. */
  function IsFolder(s: State, fd: int, e: Dirent): Option<bool>
  {
    if e.dtype != DT_UNKNOWN then Some(e.dtype == DT_DIR)
    else match FStatAt(s, fd, [e.name])
      case Err(_) => None
      case Ok(st) => Some(st.kind == Directory)
  }

  /** Lines 149-175 for one root entry: a `.Name` entry must be a folder, which is then checked against the root's owner. */
  function DotEntry(s: State, fd: int, e: Dirent, uid: nat, gid: nat): (r: int)
    ensures r >= 0
    ensures DotFolderName(e.name) && IsFolder(s, fd, e) != Some(true) ==> r == 1
    ensures !DotFolderName(e.name) ==> r == 0
  {
    if !DotFolderName(e.name) then 0
    else if IsFolder(s, fd, e) != Some(true) then 1
    else match OpenAt(s, fd, [e.name], false)
      case Err(_) => 0
      case Ok(sfd) => FdPath(s, sfd, uid, gid)
  }

  function DotCounts(s: State, fd: int, es: seq<Dirent>, uid: nat, gid: nat): (r: seq<int>)
    ensures |r| == |es| && forall i | 0 <= i < |es| :: r[i] == DotEntry(s, fd, es[i], uid, gid)
  {
    seq(|es|, i requires 0 <= i < |es| => DotEntry(s, fd, es[i], uid, gid))
  }

  /** check_path(path): the errors of a maildir and its sub-folders, or 1 when it cannot be opened or stat'ed. */
  function CheckPath(s: State, cwd: int, path: Path): (r: int)
    ensures r >= 0
  {
    match OpenAt(s, cwd, path, false)
      case Err(_) => 1
      case Ok(fd) =>
        match FStatAt(s, fd, [])
          case Err(_) => 1
          case Ok(st) =>
            FdPath(s, fd, st.uid, st.gid) +
            (if !IsDir(s, fd) then 1
             else (SumOfZero(DotCounts(s, fd, Listing(s, fd), st.uid, st.gid));
                   SumOf(DotCounts(s, fd, Listing(s, fd), st.uid, st.gid))))
  }

  /** A root entry counts nothing: it is no sub-folder candidate, or a folder that does not open or checks clean. */
  ghost predicate DotClean(s: State, fd: int, e: Dirent, uid: nat, gid: nat)
  {
    !DotFolderName(e.name) ||
    (IsFolder(s, fd, e) == Some(true) &&
     (OpenAt(s, fd, [e.name], false).Ok? ==> FdPath(s, OpenAt(s, fd, [e.name], false).value, uid, gid) == 0))
  }

  /**
   * Lines 132-176: the reference owner is the root's, and a maildir checks
   * clean exactly when its root folder does and every `.Name` entry is a
   * folder that, when it opens, checks clean against the root's owner.
   * A `.Name` entry that is not a folder costs one error.
   */
  lemma CheckPathZero(s: State, cwd: int, path: Path)
    requires OpenAt(s, cwd, path, false).Ok?
    requires FStatAt(s, OpenAt(s, cwd, path, false).value, []).Ok?
    ensures var fd := OpenAt(s, cwd, path, false).value;
            var st := FStatAt(s, fd, []).value;
            CheckPath(s, cwd, path) == 0 <==>
            FdPath(s, fd, st.uid, st.gid) == 0 && IsDir(s, fd) &&
            forall i | 0 <= i < |Listing(s, fd)| :: DotClean(s, fd, Listing(s, fd)[i], st.uid, st.gid)
  {
    var fd := OpenAt(s, cwd, path, false).value;
    var st := FStatAt(s, fd, []).value;
    if IsDir(s, fd) {
      var es := Listing(s, fd);
      SumOfZero(DotCounts(s, fd, es, st.uid, st.gid));
      assert forall i | 0 <= i < |es| :: (DotEntry(s, fd, es[i], st.uid, st.gid) == 0 <==> DotClean(s, fd, es[i], st.uid, st.gid));
    }
  }

  /** Lines 149-176: the loop over the root's entries. */
  method CheckDotEntries(s: State, fd: int, es: seq<Dirent>, uid: nat, gid: nat) returns (ec: int)
    ensures ec == SumOf(DotCounts(s, fd, es, uid, gid))
  {
    ghost var counts := DotCounts(s, fd, es, uid, gid);
    ec := 0;
    var i := 0;
    while i < |es|
      invariant 0 <= i <= |es|
      invariant ec == SumOf(counts[..i])
    {
      SumOfSnoc(counts, i);
      var e := es[i];
      i := i + 1;
      if |e.name| == 0 || e.name[0] != '.' || e.name in DotNames {
        continue;
      }
      var folder := e.dtype == DT_DIR;
      if e.dtype == DT_UNKNOWN {
        RetryStable(s, fd, [e.name]);
        var st, _ := MyFStatAt(_ => FStatAt(s, fd, [e.name]));
        if st.Err? {
          ec := ec + 1;
          continue;
        }
        folder := st.value.kind == Directory;
      }
      if !folder {
        ec := ec + 1;
        continue;
      }
      var sfd := OpenAt(s, fd, [e.name], false);
      if sfd.Err? {
        continue;
      }
      var k := CheckFdPath(s, sfd.value, uid, gid);
      ec := ec + k;
    }
    assert counts[..|es|] == counts;
  }

  /** check_path(path). */
  method CheckPathM(s: State, cwd: int, path: Path) returns (ec: int)
    ensures ec == CheckPath(s, cwd, path)
  {
    var fd := OpenAt(s, cwd, path, false);
    if fd.Err? {
      return 1;
    }
    RetryStable(s, fd.value, []);
    var st, _ := MyFStatAt(_ => FStatAt(s, fd.value, []));
    if st.Err? {
      return 1;
    }
    ec := CheckFdPath(s, fd.value, st.value.uid, st.value.gid);
    if !IsDir(s, fd.value) {
      ec := ec + 1;
    } else {
      var k := CheckDotEntries(s, fd.value, Listing(s, fd.value), st.value.uid, st.value.gid);
      ec := ec + k;
    }
  }

  // ---------------------------------------------------------------------
  // main

  function PathCounts(s: State, cwd: int, paths: seq<Path>): (r: seq<int>)
    ensures |r| == |paths| && forall i | 0 <= i < |paths| :: r[i] == CheckPath(s, cwd, paths[i])
  {
    seq(|paths|, i requires 0 <= i < |paths| => CheckPath(s, cwd, paths[i]))
  }

  /** main(argc, argv) with the folders `paths`: the exit status. */
  function ExitCode(s: State, cwd: int, paths: seq<Path>): (code: int)
  {
    if paths == [] then 1 else if SumOf(PathCounts(s, cwd, paths)) != 0 then 2 else 0
  }

  /**
   * Lines 191-194 and 222-228: the exit status is 1 exactly for a missing
   * folder argument, 0 exactly when every folder checks without error, and
   * 2 otherwise.
   */
  lemma ExitCodeRule(s: State, cwd: int, paths: seq<Path>)
    ensures ExitCode(s, cwd, paths) in {0, 1, 2}
    ensures ExitCode(s, cwd, paths) == 1 <==> paths == []
    ensures ExitCode(s, cwd, paths) == 0 <==> paths != [] && forall i | 0 <= i < |paths| :: CheckPath(s, cwd, paths[i]) == 0
  {
    SumOfZero(PathCounts(s, cwd, paths));
  }

  method Run(s: State, cwd: int, paths: seq<Path>) returns (code: int)
    ensures code == ExitCode(s, cwd, paths)
  {
    if paths == [] {
      return 1;
    }
    ghost var counts := PathCounts(s, cwd, paths);
    var c := 0;
    var i := 0;
    while i < |paths|
      invariant 0 <= i <= |paths|
      invariant c == SumOf(counts[..i])
    {
      SumOfSnoc(counts, i);
      var k := CheckPathM(s, cwd, paths[i]);
      c := c + k;
      i := i + 1;
    }
    assert counts[..|paths|] == counts;
    code := if c != 0 then 2 else 0;
  }
}

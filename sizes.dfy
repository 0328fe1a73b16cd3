/**
 * maildirsizes (src/maildirsizes.c): adds up the `S=<bytes>` size hints
 * and counts the messages in new/ and cur/ of a maildir and of each of its
 * `.Name` sub-folders.  It only reads the filesystem.
 */
module Sizes {
  import opened Wrappers
  import opened Strings
  import opened Fs

  /** maildir_subs: new/ and cur/, never tmp/. */
  const Subs: seq<string> := ["new", "cur"]

  // ---------------------------------------------------------------------
  // One file name

  /** Lines 85-86: names starting with `.` (`.` and `..` among them) are not messages. */
  predicate Ignored(name: string)
  {
    |name| > 0 && name[0] == '.'
  }

  /**
   * Lines 87-93: the size a message name announces, the digits after its
   * first `S=` (none read as 0); None for an ignored name or one without
   * `S=`.
   */
  function SizeHint(name: string): (r: Option<nat>)
    ensures r.Some? ==> !Ignored(name) && IndexOfPair(name, 'S', '=').Some?
    ensures r.None? ==> Ignored(name) || IndexOfPair(name, 'S', '=').None?
  {
    if Ignored(name) then None
    else match IndexOfPair(name, 'S', '=')
      case None => None
      case Some(i) => Some(LeadingValue(name[i + 2..]))
  }

  /** A name `pre S=<n> rest` whose prefix holds no `S` announces `n` bytes. */
  lemma SizeHintOf(pre: string, n: nat, rest: string)
    requires 'S' !in pre && !Ignored(pre + "S=")
    requires rest == [] || !IsDigit(rest[0])
    ensures SizeHint(pre + "S=" + Decimal(n) + rest) == Some(n)
  {
    var ds := Decimal(n);
    SizeHintOfDigits(pre, ds, rest, pre + "S=" + ds + rest);
    ParseDecimal(n, rest);
    LeadingValueParses(ds + rest);
  }

  lemma SizeHintOfDigits(pre: string, ds: string, rest: string, name: string)
    requires 'S' !in pre && !Ignored(pre + "S=")
    requires name == pre + "S=" + ds + rest
    ensures SizeHint(name) == Some(LeadingValue(ds + rest))
  {
    var tail := ds + rest;
    assert name == pre + ("S=" + tail);
    PairAfter(pre, tail);
    assert name[|pre| + 2..] == tail;
    assert !Ignored(name) by {
      assert name[0] == (pre + "S=")[0];
    }
    HintAt(name, |pre|);
  }

  lemma HintAt(name: string, i: nat)
    requires !Ignored(name) && IndexOfPair(name, 'S', '=') == Some(i)
    ensures SizeHint(name) == Some(LeadingValue(name[i + 2..]))
  {
  }

  /** In `pre S= tail` with no `S` in `pre`, the first `S=` is the one after `pre`. */
  lemma PairAfter(pre: string, tail: string)
    requires 'S' !in pre
    ensures IndexOfPair(pre + ("S=" + tail), 'S', '=') == Some(|pre|)
  {
    var name := pre + ("S=" + tail);
    assert name[|pre|] == 'S' && name[|pre| + 1] == '=';
    forall j | 0 <= j < |pre|
      ensures !(name[j] == 'S' && name[j + 1] == '=')
    {
      assert name[j] == pre[j];
    }
    IndexOfPairIs(name, 'S', '=', |pre|);
  }

  /** The first occurrence of the pair is at `i` when it occurs there and nowhere earlier. */
  lemma {:induction false} IndexOfPairIs(s: string, a: char, b: char, i: nat)
    requires i + 1 < |s| && s[i] == a && s[i + 1] == b
    requires forall j | 0 <= j < i :: !(s[j] == a && s[j + 1] == b)
    ensures IndexOfPair(s, a, b) == Some(i)
  {
    if i > 0 {
      assert !(s[0] == a && s[1] == b);
      forall j | 0 <= j < i - 1
        ensures !(s[1..][j] == a && s[1..][j + 1] == b)
      {
        assert s[1..][j] == s[j + 1] && s[1..][j + 1] == s[j + 2];
      }
      IndexOfPairIs(s[1..], a, b, i - 1);
    }
  }

  function HintOr0(e: Dirent): nat
  {
    match SizeHint(e.name)
      case None => 0
      case Some(n) => n
  }

  // ---------------------------------------------------------------------
  // One directory

  /** A total size in bytes and a number of messages. */
  datatype Sum = Sum(size: nat, count: nat)

  /** The size and count a readdir loop (lines 81-99) accumulates over `es`. */
  function Tally(es: seq<Dirent>): (r: Sum)
    ensures r.count <= |es|
    decreases |es|
  {
    if es == [] then Sum(0, 0)
    else
      var t := Tally(es[..|es| - 1]);
      match SizeHint(es[|es| - 1].name)
        case None => t
        case Some(n) => Sum(t.size + n, t.count + 1)
  }

  /** The messages of `es`, in order: the entries that announce a size. */
  function Counted(es: seq<Dirent>): (cs: seq<Dirent>)
    decreases |es|
  {
    if es == [] then []
    else Counted(es[..|es| - 1]) + if SizeHint(es[|es| - 1].name).Some? then [es[|es| - 1]] else []
  }

  /** The sum of the sizes the entries `cs` announce. */
  function HintTotal(cs: seq<Dirent>): nat
    decreases |cs|
  {
    if cs == [] then 0 else HintTotal(cs[..|cs| - 1]) + HintOr0(cs[|cs| - 1])
  }

  /** Exactly the names that neither start with `.` nor lack `S=` are counted. */
  lemma {:induction false} CountedExactly(es: seq<Dirent>, e: Dirent)
    ensures e in Counted(es) <==> e in es && !Ignored(e.name) && IndexOfPair(e.name, 'S', '=').Some?
    decreases |es|
  {
    if es != [] {
      var init, x := es[..|es| - 1], es[|es| - 1];
      CountedExactly(init, e);
      assert es == init + [x];
    }
  }

  /** Appending one counted entry adds its announced size. */
  lemma HintTotalSnoc(cs: seq<Dirent>, x: Dirent)
    ensures HintTotal(cs + [x]) == HintTotal(cs) + HintOr0(x)
  {
    assert (cs + [x])[..|cs|] == cs;
  }

  /**
   * Lines 93-98: the size is the sum of the announced sizes of the counted
   * messages, and the count is their number.
   */
  lemma {:induction false} TallyIsCounted(es: seq<Dirent>)
    ensures Tally(es) == Sum(HintTotal(Counted(es)), |Counted(es)|)
    decreases |es|
  {
    if es != [] {
      var init, x := es[..|es| - 1], es[|es| - 1];
      TallyIsCounted(init);
      var c := Counted(init);
      match SizeHint(x.name) {
        case None =>
          assert Counted(es) == c + [];
          assert c + [] == c;
          assert Tally(es) == Tally(init);
        case Some(n) =>
          assert Counted(es) == c + [x];
          HintTotalSnoc(c, x);
          assert Tally(es) == Sum(Tally(init).size + n, Tally(init).count + 1);
      }
    }
  }

  /** The size and count of one of new/ and cur/; one that does not open as a directory adds nothing (lines 69-80). */
  function SubTally(s: State, dirfd: int, sub: string): (r: Sum)
  {
    match OpenAt(s, dirfd, [sub], false)
      case Err(_) => Sum(0, 0)
      case Ok(subfd) => if IsDir(s, subfd) then Tally(Listing(s, subfd)) else Sum(0, 0)
  }

  /** The loop over new/ and cur/ after one more of them. */
  lemma SubsTallyStep(s: State, dirfd: int, subs: seq<string>, k: nat)
    requires k < |subs|
    ensures var a, b := SubsTally(s, dirfd, subs[..k]), SubTally(s, dirfd, subs[k]);
            SubsTally(s, dirfd, subs[..k + 1]) == Sum(a.size + b.size, a.count + b.count)
  {
    assert subs[..k + 1][..k] == subs[..k] && subs[..k + 1][k] == subs[k];
  }

  function SubsTally(s: State, dirfd: int, subs: seq<string>): (r: Sum)
    decreases |subs|
  {
    if subs == [] then Sum(0, 0)
    else
      var a, b := SubsTally(s, dirfd, subs[..|subs| - 1]), SubTally(s, dirfd, subs[|subs| - 1]);
      Sum(a.size + b.size, a.count + b.count)
  }

  /** calc_size: what one maildir adds to the totals, new/ and cur/ together. */
  function FolderTally(s: State, dirfd: int): (r: Sum)
  {
    SubsTally(s, dirfd, Subs)
  }

  /** A maildir's totals are those of its new/ plus those of its cur/. */
  lemma FolderTallyParts(s: State, dirfd: int)
    ensures var r := FolderTally(s, dirfd);
            r.size == SubTally(s, dirfd, "new").size + SubTally(s, dirfd, "cur").size &&
            r.count == SubTally(s, dirfd, "new").count + SubTally(s, dirfd, "cur").count
  {
    assert Subs[..|Subs| - 1] == ["new"] && Subs[|Subs| - 1] == "cur";
    assert ["new"][..0] == [] && ["new"][0] == "new";
  }

  /** The accumulators proc_path passes to calc_size by pointer. */
  class Totals {
    var size: nat
    var count: nat

    constructor()
      ensures size == 0 && count == 0
    {
      size, count := 0, 0;
    }
  }

  /** The readdir loop of lines 81-99. */
  method TallyEntries(es: seq<Dirent>) returns (size: nat, count: nat)
    ensures Sum(size, count) == Tally(es)
  {
    size, count := 0, 0;
    var i := 0;
    while i < |es|
      invariant 0 <= i <= |es|
      invariant Sum(size, count) == Tally(es[..i])
    {
      assert es[..i + 1][..i] == es[..i];
      var name := es[i].name;
      if Ignored(name) {
        i := i + 1;
        continue;
      }
      var at := IndexOfPair(name, 'S', '=');
      if at.None? {
        i := i + 1;
        continue;
      }
      var msgsize := LeadingValue(name[at.value + 2..]);
      size := size + msgsize;
      count := count + 1;
      i := i + 1;
    }
    assert es[..|es|] == es;
  }

  /** Lines 69-100 for one of new/ and cur/. */
  method SubDirTally(s: State, dirfd: int, sub: string) returns (size: nat, count: nat)
    ensures Sum(size, count) == SubTally(s, dirfd, sub)
  {
    var subfd := OpenAt(s, dirfd, [sub], false);
    if subfd.Err? || !IsDir(s, subfd.value) {
      return 0, 0;
    }
    size, count := TallyEntries(Listing(s, subfd.value));
  }

  /** calc_size(dir_fd, &total_size, &total_count, rpath): adds exactly this maildir's size and count to the totals. */
  method CalcSize(s: State, dirfd: int, t: Totals)
    modifies t
    ensures t.size == old(t.size) + FolderTally(s, dirfd).size
    ensures t.count == old(t.count) + FolderTally(s, dirfd).count
  {
    var size, count := 0, 0;
    var k := 0;
    while k < |Subs|
      invariant 0 <= k <= |Subs|
      invariant Sum(size, count) == SubsTally(s, dirfd, Subs[..k])
      invariant t.size == old(t.size) && t.count == old(t.count)
    {
      SubsTallyStep(s, dirfd, Subs, k);
      var sz, ct := SubDirTally(s, dirfd, Subs[k]);
      size, count := size + sz, count + ct;
      k := k + 1;
    }
    assert Subs[..|Subs|] == Subs;
    t.size := t.size + size;
    t.count := t.count + count;
  }

  // ---------------------------------------------------------------------
  // One path

  /** Lines 160-164: a `.Name` entry of the directory type, or of unknown type. */
  predicate SubFolderEntry(e: Dirent)
  {
    |e.name| > 0 && e.name[0] == '.' && e.name !in DotNames && (e.dtype == DT_DIR || e.dtype == DT_UNKNOWN)
  }

  /** The sub-folders' share of the totals (lines 158-173); one that does not open is skipped. */
  function SubFolders(s: State, fd: int, es: seq<Dirent>): (r: Sum)
    decreases |es|
  {
    if es == [] then Sum(0, 0)
    else
      var rest, f := SubFolders(s, fd, es[..|es| - 1]), SubFolderShare(s, fd, es[|es| - 1]);
      Sum(rest.size + f.size, rest.count + f.count)
  }

  /** What one entry adds: the totals of the sub-folder it names, or nothing when it is none or does not open. */
  function SubFolderShare(s: State, fd: int, e: Dirent): (r: Sum)
  {
    if !SubFolderEntry(e) then Sum(0, 0)
    else match OpenAt(s, fd, [e.name], false)
      case Err(_) => Sum(0, 0)
      case Ok(sfd) => FolderTally(s, sfd)
  }

  /** The loop of lines 158-173 after one more entry. */
  lemma SubFoldersStep(s: State, fd: int, pre: seq<Dirent>, e: Dirent)
    ensures var rest, f := SubFolders(s, fd, pre), SubFolderShare(s, fd, e);
            SubFolders(s, fd, pre + [e]) == Sum(rest.size + f.size, rest.count + f.count)
  {
    assert (pre + [e])[..|pre|] == pre;
  }

  lemma SubFoldersPrefix(s: State, fd: int, es: seq<Dirent>, i: nat)
    requires i < |es|
    ensures var rest, f := SubFolders(s, fd, es[..i]), SubFolderShare(s, fd, es[i]);
            SubFolders(s, fd, es[..i + 1]) == Sum(rest.size + f.size, rest.count + f.count)
  {
    assert es[..i + 1] == es[..i] + [es[i]];
    SubFoldersStep(s, fd, es[..i], es[i]);
  }

  /** What proc_path reports for one path: nothing (a perror) or the totals it prints. */
  datatype Report = Unreadable | Totals(size: nat, count: nat)

  /**
   * proc_path(path): the totals of the maildir and of its sub-folders.  A
   * path that opens but is not a directory has its descriptor closed and
   * falls through (lines 141-144): calc_size's openat calls then fail with
   * EBADF, fdopendir fails, and closedir(NULL) fails with EINVAL as glibc
   * implements it, so zero totals are printed.
   */
  function PathTotals(s: State, cwd: int, path: Path): (r: Report)
  {
    match OpenAt(s, cwd, path, false)
      case Err(_) => Unreadable
      case Ok(fd) =>
        match FStatAt(s, fd, [])
          case Err(_) => Unreadable
          case Ok(st) =>
            if st.kind != Directory then Totals(0, 0)
            else
              var root := FolderTally(s, fd);
              var subs := SubFolders(s, fd, Listing(s, fd));
              Totals(root.size + subs.size, root.count + subs.count)
  }

  /** Size or messages are reported only for a path that opens as a directory. */
  lemma TotalsNeedDirectory(s: State, cwd: int, path: Path)
    requires PathTotals(s, cwd, path).Totals?
    requires PathTotals(s, cwd, path).size > 0 || PathTotals(s, cwd, path).count > 0
    ensures OpenAt(s, cwd, path, false).Ok? && IsDir(s, OpenAt(s, cwd, path, false).value)
  {
  }

  /**
   * A directory without `.Name` sub-folders reports exactly the messages of
   * its new/ plus those of its cur/.
   */
  lemma PlainMaildirTotals(s: State, cwd: int, path: Path)
    requires OpenAt(s, cwd, path, false).Ok?
    requires var st := FStatAt(s, OpenAt(s, cwd, path, false).value, []); st.Ok? && st.value.kind == Directory
    requires var fd := OpenAt(s, cwd, path, false).value;
             forall i | 0 <= i < |Listing(s, fd)| :: !SubFolderEntry(Listing(s, fd)[i])
    ensures var fd := OpenAt(s, cwd, path, false).value;
            PathTotals(s, cwd, path) ==
              Totals(SubTally(s, fd, "new").size + SubTally(s, fd, "cur").size,
                     SubTally(s, fd, "new").count + SubTally(s, fd, "cur").count)
  {
    var fd := OpenAt(s, cwd, path, false).value;
    NoSubFoldersAddNothing(s, fd, Listing(s, fd));
    FolderTallyParts(s, fd);
  }

  /** A path whose listing holds no `.Name` sub-folder reports exactly the maildir's own size and count. */
  lemma {:induction false} NoSubFoldersAddNothing(s: State, fd: int, es: seq<Dirent>)
    requires forall i | 0 <= i < |es| :: !SubFolderEntry(es[i])
    ensures SubFolders(s, fd, es) == Sum(0, 0)
    decreases |es|
  {
    if es != [] {
      NoSubFoldersAddNothing(s, fd, es[..|es| - 1]);
    }
  }

  /** Lines 159-172 for one entry: a `.Name` sub-folder that opens adds its totals. */
  method AddSubFolder(s: State, fd: int, e: Dirent, t: Totals)
    modifies t
    ensures t.size == old(t.size) + SubFolderShare(s, fd, e).size
    ensures t.count == old(t.count) + SubFolderShare(s, fd, e).count
  {
    if !SubFolderEntry(e) {
      return;
    }
    var sfd := OpenAt(s, fd, [e.name], false);
    if sfd.Err? {
      return;
    }
    CalcSize(s, sfd.value, t);
  }

  /** The readdir loop of lines 158-173. */
  method SubFolderTotals(s: State, fd: int, es: seq<Dirent>) returns (size: nat, count: nat)
    ensures Sum(size, count) == SubFolders(s, fd, es)
  {
    var t := new Totals();
    var i := 0;
    while i < |es|
      invariant 0 <= i <= |es|
      invariant Sum(t.size, t.count) == SubFolders(s, fd, es[..i])
    {
      SubFoldersPrefix(s, fd, es, i);
      AddSubFolder(s, fd, es[i], t);
      i := i + 1;
    }
    assert es[..|es|] == es;
    return t.size, t.count;
  }

  /** proc_path(path). */
  method ProcPath(s: State, cwd: int, path: Path) returns (r: Report)
    ensures r == PathTotals(s, cwd, path)
  {
    var fd := OpenAt(s, cwd, path, false);
    if fd.Err? {
      return Unreadable;
    }
    var st := FStatAt(s, fd.value, []);
    if st.Err? {
      return Unreadable;
    }
    if st.value.kind != Directory {
      return Totals(0, 0);
    }
    var t := new Totals();
    CalcSize(s, fd.value, t);
    var size, count := SubFolderTotals(s, fd.value, Listing(s, fd.value));
    return Totals(t.size + size, t.count + count);
  }

  // ---------------------------------------------------------------------
  // main

  /** Line 237 as written: it looks at argv[0], the program's own name, so it fires only when argc is 0. */
  predicate MissingPathsAsWritten(argv: seq<Path>, optind: nat)
  {
    argv == []
  }

  /** The intended test: no argument is left after the options. */
  predicate MissingPaths(argv: seq<Path>, optind: nat)
  {
    optind >= |argv|
  }

  datatype RunResult = RunResult(reports: seq<Report>, code: int)

  /** proc_path for each argument in turn. */
  function Reports(s: State, cwd: int, args: seq<Path>): (r: seq<Report>)
    ensures |r| == |args|
    decreases |args|
  {
    if args == [] then []
    else [PathTotals(s, cwd, args[0])] + Reports(s, cwd, args[1..])
  }

  /** main: usage(1) without a path, otherwise one report per path and status 0. */
  function RunSpec(s: State, cwd: int, argv: seq<Path>, optind: nat): (r: RunResult)
    requires optind <= |argv|
    ensures r.code == 1 <==> MissingPaths(argv, optind)
    ensures r.code == 0 ==> |r.reports| == |argv| - optind
    ensures r.code == 1 ==> r.reports == []
  {
    if MissingPaths(argv, optind) then RunResult([], 1)
    else RunResult(Reports(s, cwd, argv[optind..]), 0)
  }

  /** main as written: the test of line 237 on the program name, then a report per remaining argument. */
  function RunAsWritten(s: State, cwd: int, argv: seq<Path>, optind: nat): (r: RunResult)
    requires optind <= |argv|
  {
    if MissingPathsAsWritten(argv, optind) then RunResult([], 1)
    else RunResult(Reports(s, cwd, argv[optind..]), 0)
  }

  /**
   * A run with nothing after the program name passes the check as written
   * and exits 0 without a single report, where the intended check refuses
   * it with status 1.
   */
  lemma NoPathsAccepted(s: State, cwd: int, prog: Path)
    ensures !MissingPathsAsWritten([prog], 1) && MissingPaths([prog], 1)
    ensures RunAsWritten(s, cwd, [prog], 1) == RunResult([], 0)
    ensures RunSpec(s, cwd, [prog], 1) == RunResult([], 1)
  {
    assert [prog][1..] == [];
  }

  /** Each report is the totals of the path in that position. */
  lemma {:induction false} ReportsArePathTotals(s: State, cwd: int, args: seq<Path>, i: nat)
    requires i < |args|
    ensures Reports(s, cwd, args)[i] == PathTotals(s, cwd, args[i])
    decreases |args|
  {
    if i > 0 {
      ReportsArePathTotals(s, cwd, args[1..], i - 1);
    }
  }

  /** One path's report does not depend on the other arguments: the loop goes on past every path. */
  lemma ReportsAppend(s: State, cwd: int, args: seq<Path>, p: Path)
    ensures Reports(s, cwd, args + [p]) == Reports(s, cwd, args) + [PathTotals(s, cwd, p)]
  {
    var r := Reports(s, cwd, args + [p]);
    forall i | 0 <= i < |r|
      ensures r[i] == (Reports(s, cwd, args) + [PathTotals(s, cwd, p)])[i]
    {
      ReportsArePathTotals(s, cwd, args + [p], i);
      if i < |args| {
        ReportsArePathTotals(s, cwd, args, i);
      }
    }
  }

  method Run(s: State, cwd: int, argv: seq<Path>, optind: nat) returns (r: RunResult)
    requires optind <= |argv|
    ensures r == RunSpec(s, cwd, argv, optind)
  {
    if MissingPaths(argv, optind) {
      return RunResult([], 1);
    }
    var args := argv[optind..];
    var reports: seq<Report> := [];
    var i := 0;
    while i < |args|
      invariant 0 <= i <= |args|
      invariant reports == Reports(s, cwd, args[..i])
    {
      var p := ProcPath(s, cwd, args[i]);
      ReportsAppend(s, cwd, args[..i], args[i]);
      assert args[..i + 1] == args[..i] + [args[i]];
      reports := reports + [p];
      i := i + 1;
    }
    assert args[..|args|] == args;
    return RunResult(reports, 0);
  }

  // ---------------------------------------------------------------------
  // pretty_size

  /** The unit letters, one per shift by 10 bits. */
  const Units: string := "kMGTPEZY"

  /** `input >> (10 * k)`. */
  function Shifted(input: nat, k: nat): nat
  {
    if k == 0 then input else Shifted(input, k - 1) / 1024
  }

  /**
   * pretty_size's loop (lines 27-35): the integer part after `k` shifts,
   * the ten bits shifted out last, and the unit letter.  At most eight
   * shifts happen; the value is below 1024 unless all eight letters were
   * used; each shift was taken only while the value was at least 1024; and
   * no shift means plain bytes (no unit).
   */
  method PrettySize(input: nat) returns (value: nat, rem: nat, unit: Option<char>)
    ensures exists k: nat | k <= |Units| ::
              value == Shifted(input, k) &&
              (value < 1024 || k == |Units|) &&
              (k > 0 ==> Shifted(input, k - 1) >= 1024 && rem == Shifted(input, k - 1) % 1024) &&
              (k == 0 <==> unit.None?) &&
              (k > 0 ==> unit == Some(Units[k - 1]))
  {
    rem, unit := 0, None;
    value := input;
    var k: nat := 0;
    while k < |Units| && value >= 1024
      invariant k <= |Units|
      invariant value == Shifted(input, k)
      invariant k > 0 ==> Shifted(input, k - 1) >= 1024 && rem == Shifted(input, k - 1) % 1024
      invariant (k == 0 <==> unit.None?) && (k > 0 ==> unit == Some(Units[k - 1]))
    {
      rem := value % 1024;
      value := value / 1024;
      unit := Some(Units[k]);
      k := k + 1;
    }
  }
}

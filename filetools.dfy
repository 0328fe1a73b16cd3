/**
 * files_identical: whether two files hold the same bytes (src/filetools.c),
 * and the copy in src/maildirreconstruct.c that lacks the same-inode
 * shortcut.
 *
 * The verdict is a pure function of the two stat records and of the bytes
 * the two files expose; FilesIdenticalSteps reaches it the way the C code
 * does, through stat, open, map and close steps with early returns.
 */
module FileTools {
  import opened Wrappers
  import opened Fs

  /** The C results 0, 1 and -1. */
  datatype Verdict = Different | Identical | Failed

  function Code(v: Verdict): (c: int)
    ensures -1 <= c <= 1
  {
    match v
      case Different => 0
      case Identical => 1
      case Failed => -1
  }

  /** The first `n` bytes of `c` (a mapping of `n` bytes of the file). */
  function Window(c: seq<Byte>, n: nat): (w: seq<Byte>)
    ensures |w| <= n
  {
    if n <= |c| then c[..n] else c
  }

  /**
   * The bytes a successful openat exposes: the file's data; the other kinds
   * report size 0, so nothing of theirs is ever compared.
   */
  function Contents(s: State, fd: int, path: Path): (r: Res<seq<Byte>>)
    ensures r.Ok? <==> OpenAt(s, fd, path, false).Ok?
  {
    match OpenAt(s, fd, path, false)
      case Err(e) => Err(e)
      case Ok(x) => if s.nodes[x].File? then Ok(s.nodes[x].data) else Ok([])
  }

  /**
   * The verdict from two stat records and the two files' bytes (`Err` when
   * the file could not be opened): a size difference decides first, then
   * (when `shortcut`) the same device and inode, then a byte comparison
   * over the first file's size.
   */
  function Decide(st1: Stat, st2: Stat, shortcut: bool, c1: Res<seq<Byte>>, c2: Res<seq<Byte>>): Verdict
  {
    if st1.size != st2.size then Different
    else if shortcut && st1.dev == st2.dev && st1.ino == st2.ino then Identical
    else if c1.Err? then Failed
    else if c2.Err? then Failed
    else if Window(c1.value, st1.size) == Window(c2.value, st1.size) then Identical
    else Different
  }

  /** The stat record to use: the caller's, or a fresh fstatat. */
  function StatFor(s: State, fd: int, path: Path, st: Option<Stat>): Res<Stat>
  {
    if st.Some? then Ok(st.value) else FStatAt(s, fd, path)
  }

  /** files_identical(fd1, path1, st1, fd2, path2, st2). */
  function FilesIdentical(s: State, fd1: int, p1: Path, st1: Option<Stat>,
                          fd2: int, p2: Path, st2: Option<Stat>, shortcut: bool): Verdict
  {
    match StatFor(s, fd1, p1, st1)
      case Err(_) => Failed
      case Ok(a) =>
        match StatFor(s, fd2, p2, st2)
          case Err(_) => Failed
          case Ok(b) => Decide(a, b, shortcut, Contents(s, fd1, p1), Contents(s, fd2, p2))
  }

  /** A failed stat of either file gives -1; a caller-supplied record is used without a stat. */
  lemma StatErrors(s: State, fd1: int, p1: Path, st1: Option<Stat>, fd2: int, p2: Path, st2: Option<Stat>, shortcut: bool)
    ensures st1.None? && FStatAt(s, fd1, p1).Err? ==> FilesIdentical(s, fd1, p1, st1, fd2, p2, st2, shortcut) == Failed
    ensures StatFor(s, fd1, p1, st1).Ok? && st2.None? && FStatAt(s, fd2, p2).Err? ==>
              FilesIdentical(s, fd1, p1, st1, fd2, p2, st2, shortcut) == Failed
    ensures st1.Some? && st2.Some? ==>
              FilesIdentical(s, fd1, p1, st1, fd2, p2, st2, shortcut)
              == Decide(st1.value, st2.value, shortcut, Contents(s, fd1, p1), Contents(s, fd2, p2))
  {
  }

  /** The size check and the identity check do not depend on the bytes. */
  lemma SizeAndIdentity(st1: Stat, st2: Stat, shortcut: bool, c1: Res<seq<Byte>>, c2: Res<seq<Byte>>)
    ensures st1.size != st2.size ==> Decide(st1, st2, shortcut, c1, c2) == Different
    ensures st1.size == st2.size && shortcut && st1.dev == st2.dev && st1.ino == st2.ino ==>
              Decide(st1, st2, shortcut, c1, c2) == Identical
  {
  }

  /** The verdict is symmetric in the two argument triples. */
  lemma DecideSymmetric(st1: Stat, st2: Stat, shortcut: bool, c1: Res<seq<Byte>>, c2: Res<seq<Byte>>)
    ensures Decide(st1, st2, shortcut, c1, c2) == Decide(st2, st1, shortcut, c2, c1)
  {
  }

  /** Byte comparison: with equal sizes and both files open, the verdict is 1 exactly when the mapped bytes agree. */
  lemma DecideCompares(st1: Stat, st2: Stat, shortcut: bool, c1: seq<Byte>, c2: seq<Byte>)
    requires st1.size == st2.size
    requires !(shortcut && st1.dev == st2.dev && st1.ino == st2.ino)
    ensures Decide(st1, st2, shortcut, Ok(c1), Ok(c2)) == Identical <==> Window(c1, st1.size) == Window(c2, st1.size)
    ensures Decide(st1, st2, shortcut, Ok(c1), Ok(c2)) != Failed
  {
  }

  /** A file compared with a second name of itself is judged identical, with or without the shortcut. */
  lemma {:induction false} SameInodeIdentical(s: State, fd1: int, p1: Path, fd2: int, p2: Path, shortcut: bool)
    requires Resolve(s, fd1, p1).Ok? && Resolve(s, fd1, p1) == Resolve(s, fd2, p2)
    requires s.nodes[Resolve(s, fd1, p1).value].meta.accessible
    ensures FilesIdentical(s, fd1, p1, None, fd2, p2, None, shortcut) == Identical
  {
    var x := Resolve(s, fd1, p1).value;
    assert FStatAt(s, fd1, p1) == Ok(StatOf(s, x)) == FStatAt(s, fd2, p2);
    assert OpenAt(s, fd1, p1, false) == Ok(x) == OpenAt(s, fd2, p2, false);
    assert Contents(s, fd1, p1) == Contents(s, fd2, p2);
  }

  /**
   * The second mapping as written at src/filetools.c:84 and
   * src/maildirreconstruct.c:120: it maps the first file again, so the
   * bytes compared are the first file's twice.
   */
  function DecideAsWritten(st1: Stat, st2: Stat, shortcut: bool, c1: Res<seq<Byte>>, c2: Res<seq<Byte>>): Verdict
  {
    if st1.size != st2.size then Different
    else if shortcut && st1.dev == st2.dev && st1.ino == st2.ino then Identical
    else if c1.Err? then Failed
    else if c2.Err? then Failed
    else if Window(c1.value, st1.size) == Window(c1.value, st1.size) then Identical
    else Different
  }

  /** As written, equal sizes and two successful opens always give 1, whatever the second file holds. */
  lemma AsWrittenIgnoresSecondFile(st1: Stat, st2: Stat, shortcut: bool, c1: seq<Byte>, c2: seq<Byte>)
    requires st1.size == st2.size
    ensures DecideAsWritten(st1, st2, shortcut, Ok(c1), Ok(c2)) == Identical
  {
  }

  /** Two one-byte files that differ: the code as written calls them identical, the corrected verdict does not. */
  lemma AsWrittenCounterexample()
    ensures var st1 := Stat(Regular, 1, DEV, 1, 0, 0, Timespec(0, 0));
            var st2 := Stat(Regular, 1, DEV, 2, 0, 0, Timespec(0, 0));
            DecideAsWritten(st1, st2, true, Ok([0]), Ok([1])) == Identical &&
            Decide(st1, st2, true, Ok([0]), Ok([1])) == Different
  {
    assert Window([0], 1) != Window([1], 1) by { assert Window([0], 1)[0] == 0; }
  }

  /**
   * The resource steps of files_identical.  `opens` counts the openat
   * calls made and `leftOpen` the descriptors still open on return; content
   * is never mapped before both stat records agree on the size.
   */
  method FilesIdenticalSteps(s: State, fd1: int, p1: Path, st1: Option<Stat>,
                             fd2: int, p2: Path, st2: Option<Stat>, shortcut: bool)
    returns (r: int, opens: nat, leftOpen: nat)
    ensures r == Code(FilesIdentical(s, fd1, p1, st1, fd2, p2, st2, shortcut))
    ensures leftOpen == 0
    ensures opens <= 2
    ensures opens > 0 ==> StatFor(s, fd1, p1, st1).Ok? && StatFor(s, fd2, p2, st2).Ok?
                           && StatFor(s, fd1, p1, st1).value.size == StatFor(s, fd2, p2, st2).value.size
    ensures opens > 0 && shortcut ==> StatFor(s, fd1, p1, st1).value.ino != StatFor(s, fd2, p2, st2).value.ino
                                       || StatFor(s, fd1, p1, st1).value.dev != StatFor(s, fd2, p2, st2).value.dev
  {
    opens, leftOpen := 0, 0;
    var a := StatFor(s, fd1, p1, st1);
    if a.Err? {
      return -1, opens, leftOpen;
    }
    var b := StatFor(s, fd2, p2, st2);
    if b.Err? {
      return -1, opens, leftOpen;
    }
    if a.value.size != b.value.size {
      return 0, opens, leftOpen;
    }
    if shortcut && a.value.dev == b.value.dev && a.value.ino == b.value.ino {
      return 1, opens, leftOpen;
    }
    var f1 := OpenAt(s, fd1, p1, false);
    opens := opens + 1;
    if f1.Err? {
      return -1, opens, leftOpen;
    }
    leftOpen := leftOpen + 1;
    var f2 := OpenAt(s, fd2, p2, false);
    opens := opens + 1;
    if f2.Err? {
      leftOpen := leftOpen - 1;
      return -1, opens, leftOpen;
    }
    leftOpen := leftOpen + 1;
    var m1 := Window(if s.nodes[f1.value].File? then s.nodes[f1.value].data else [], a.value.size);
    var m2 := Window(if s.nodes[f2.value].File? then s.nodes[f2.value].data else [], a.value.size);
    leftOpen := leftOpen - 2;
    r := if m1 == m2 then 1 else 0;
  }
}

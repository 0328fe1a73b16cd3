/**
 * The POSIX filesystem as the maildir tools see it through the `*at()` calls.
 *
 * The filesystem is an inode table.  A directory inode maps entry names to
 * inode numbers and remembers its parent (for `..`); a regular file holds its
 * bytes.  A descriptor obtained from `openat` is represented by the inode it
 * refers to, so a descriptor keeps naming the same inode after the entry that
 * led to it is renamed or unlinked, as in POSIX.  Permissions are reduced to
 * one flag per inode: an inaccessible directory cannot be searched or changed
 * and an inaccessible inode cannot be opened (EACCES).
 *
 * Every call is a pure function from the old state to the new state and a
 * result; class FileSystem wraps those functions as state-changing methods.
 * A failed call never changes the state.
 */
module Fs {
  import opened Wrappers

  type Byte = b: int | 0 <= b < 256

  /** A path relative to a descriptor, one component per element. */
  type Path = seq<string>

  datatype Errno = ENOENT | EEXIST | ENOTDIR | EISDIR | ENOTEMPTY | EPERM | EACCES | EBADF | EINVAL | EIO

  datatype Res<T> = Ok(value: T) | Err(errno: Errno)

  datatype Timespec = Timespec(sec: int, nsec: int)

  datatype Meta = Meta(uid: nat, gid: nat, mtime: Timespec, accessible: bool)

  datatype Node =
    | File(data: seq<Byte>, meta: Meta)
    | Dir(entries: map<string, int>, parent: int, meta: Meta)
    | Special(meta: Meta)

  datatype Kind = Regular | Directory | Other

  /** The `d_type` a directory entry reports. */
  datatype DType = DT_REG | DT_DIR | DT_OTHER | DT_UNKNOWN

  datatype Stat = Stat(kind: Kind, size: nat, dev: nat, ino: int, uid: nat, gid: nat, mtime: Timespec)

  datatype Dirent = Dirent(name: string, dtype: DType)

  /**
   * `newMeta` is the metadata a newly created inode gets (the caller's uid and
   * gid, the current time); `dtypes` says whether readdir fills in `d_type`;
   * `order` is the order in which readdir enumerates a set of names.
   */
  datatype State = State(nodes: map<int, Node>, nextIno: int, newMeta: Meta, dtypes: bool,
                         order: set<string> -> seq<string>)

  /** All inodes live on one device. */
  const DEV: nat := 1

  /** The entries `.` and `..` of every directory. */
  const DotNames: set<string> := {".", ".."}

  predicate ProperName(n: string)
  {
    n != "" && n != "." && n != ".." && '/' !in n
  }

  predicate IsDir(s: State, d: int)
  {
    d in s.nodes && s.nodes[d].Dir?
  }

  predicate IsFile(s: State, f: int)
  {
    f in s.nodes && s.nodes[f].File?
  }

  /** A directory that can be searched and changed. */
  predicate OpenDir(s: State, d: int)
  {
    IsDir(s, d) && s.nodes[d].meta.accessible
  }

  /** Inode numbers handed out so far, and every number a directory refers to, are below `nextIno`. */
  ghost predicate Fresh(s: State)
  {
    (forall i | i in s.nodes :: 0 <= i < s.nextIno) &&
    (forall i | i in s.nodes && s.nodes[i].Dir? :: s.nodes[i].parent < s.nextIno) &&
    (forall i, n | i in s.nodes && s.nodes[i].Dir? && n in s.nodes[i].entries :: s.nodes[i].entries[n] < s.nextIno)
  }

  ghost predicate Enumerates(l: seq<string>, names: set<string>)
  {
    (forall i, j | 0 <= i < j < |l| :: l[i] != l[j]) && (forall x :: x in l <==> x in names)
  }

  /** readdir enumerates every set of names once each. */
  ghost predicate OrderOk(s: State)
  {
    forall names: set<string> :: Enumerates(s.order(names), names)
  }

  /** The directory entry `name` of directory `d`, if any (`.` and `..` included). */
  function Entry(s: State, d: int, name: string): (r: Option<int>)
    requires IsDir(s, d)
    ensures ProperName(name) ==> (r.Some? <==> name in s.nodes[d].entries)
  {
    if name == "." then Some(d)
    else if name == ".." then Some(s.nodes[d].parent)
    else if name in s.nodes[d].entries then Some(s.nodes[d].entries[name])
    else None
  }

  /** One step of path resolution from `cur` through component `comp`. */
  function Step(s: State, cur: int, comp: string): (r: Res<int>)
    ensures r.Ok? ==> r.value in s.nodes
  {
    if cur !in s.nodes then Err(EBADF)
    else if !s.nodes[cur].Dir? then Err(ENOTDIR)
    else if !s.nodes[cur].meta.accessible then Err(EACCES)
    else match Entry(s, cur, comp)
      case Some(x) => if x in s.nodes then Ok(x) else Err(ENOENT)
      case None => Err(ENOENT)
  }

  function Walk(s: State, cur: int, path: Path): (r: Res<int>)
    ensures r.Ok? ==> r.value in s.nodes
    decreases |path|
  {
    if path == [] then (if cur in s.nodes then Ok(cur) else Err(EBADF))
    else match Step(s, cur, path[0])
      case Err(e) => Err(e)
      case Ok(next) => Walk(s, next, path[1..])
  }

  /** Resolves `path` relative to descriptor `fd`; the empty path names `fd` itself (AT_EMPTY_PATH). */
  function Resolve(s: State, fd: int, path: Path): (r: Res<int>)
    ensures r.Ok? ==> r.value in s.nodes
  {
    if fd < 0 || fd !in s.nodes then Err(EBADF) else Walk(s, fd, path)
  }

  /** The directory that holds the last component of a non-empty `path`. */
  function ParentDir(s: State, fd: int, path: Path): (r: Res<int>)
    requires |path| > 0
    ensures r.Ok? ==> OpenDir(s, r.value)
  {
    match Resolve(s, fd, path[..|path| - 1])
      case Err(e) => Err(e)
      case Ok(d) =>
        if !s.nodes[d].Dir? then Err(ENOTDIR)
        else if !s.nodes[d].meta.accessible then Err(EACCES)
        else Ok(d)
  }

  function Last(path: Path): string
    requires |path| > 0
  {
    path[|path| - 1]
  }

  function KindOf(n: Node): Kind
  {
    match n
      case File(_, _) => Regular
      case Dir(_, _, _) => Directory
      case Special(_) => Other
  }

  function StatOf(s: State, x: int): (st: Stat)
    requires x in s.nodes
    ensures st.ino == x && st.dev == DEV && st.kind == KindOf(s.nodes[x])
  {
    var n := s.nodes[x];
    Stat(KindOf(n), if n.File? then |n.data| else 0, DEV, x, n.meta.uid, n.meta.gid, n.meta.mtime)
  }

  /** fstatat(fd, path); the empty path stats `fd` itself. */
  function FStatAt(s: State, fd: int, path: Path): (r: Res<Stat>)
    ensures r.Ok? ==> r.value.dev == DEV
  {
    match Resolve(s, fd, path)
      case Err(e) => Err(e)
      case Ok(x) => Ok(StatOf(s, x))
  }

  /** openat(fd, path, O_RDONLY), or with O_DIRECTORY when `directory` is set.  Opening changes nothing. */
  function OpenAt(s: State, fd: int, path: Path, directory: bool): (r: Res<int>)
    ensures r.Ok? ==> r.value in s.nodes && s.nodes[r.value].meta.accessible
    ensures r.Ok? && directory ==> OpenDir(s, r.value)
  {
    match Resolve(s, fd, path)
      case Err(e) => Err(e)
      case Ok(x) =>
        if directory && !s.nodes[x].Dir? then Err(ENOTDIR)
        else if !s.nodes[x].meta.accessible then Err(EACCES)
        else Ok(x)
  }

  /** The contents of the regular file open as `fd` (mmap, read, sendfile). */
  function ReadAll(s: State, fd: int): (r: Res<seq<Byte>>)
    ensures r.Ok? <==> IsFile(s, fd)
  {
    if fd !in s.nodes then Err(EBADF)
    else match s.nodes[fd]
      case File(data, _) => Ok(data)
      case Dir(_, _, _) => Err(EISDIR)
      case Special(_) => Err(EINVAL)
  }

  /** Adds entry `name -> ino` to directory `d`. */
  function Put(s: State, d: int, name: string, ino: int): (t: State)
    requires IsDir(s, d)
    ensures IsDir(t, d) && t.nodes.Keys == s.nodes.Keys
  {
    s.(nodes := s.nodes[d := s.nodes[d].(entries := s.nodes[d].entries[name := ino])])
  }

  /** Removes entry `name` from directory `d`. */
  function Drop(s: State, d: int, name: string): (t: State)
    requires IsDir(s, d)
    ensures IsDir(t, d) && t.nodes.Keys == s.nodes.Keys
  {
    s.(nodes := s.nodes[d := s.nodes[d].(entries := s.nodes[d].entries - {name})])
  }

  lemma PutKeepsFresh(s: State, d: int, name: string, ino: int)
    requires IsDir(s, d)
    ensures Fresh(s) && ino < s.nextIno ==> Fresh(Put(s, d, name, ino))
  {
  }

  lemma DropKeepsFresh(s: State, d: int, name: string)
    requires IsDir(s, d)
    ensures Fresh(s) ==> Fresh(Drop(s, d, name))
  {
  }

  /** Node `b` is node `a` except, when both are directories, for entry `name`. */
  ghost predicate SameBut(a: Node, b: Node, name: string)
  {
    if a.Dir? then
      b.Dir? && b.meta == a.meta && b.parent == a.parent &&
      (forall n | n != name :: n in a.entries <==> n in b.entries) &&
      (forall n | n != name && n in a.entries :: b.entries[n] == a.entries[n])
    else b == a
  }

  /**
   * `u` is `s` with at most entry `name` of directory `d` changed, the
   * contents of files `s` never allocated, and new inodes numbered from
   * `s.nextIno` on.
   */
  ghost predicate AgreesExcept(s: State, u: State, d: int, name: string)
  {
    (forall k | k in u.nodes && k !in s.nodes :: k >= s.nextIno) &&
    (forall k | k in s.nodes :: k in u.nodes) &&
    (forall k | k in s.nodes && k != d :: u.nodes[k] == s.nodes[k]) &&
    (d in s.nodes ==> SameBut(s.nodes[d], u.nodes[d], name))
  }

  /** A path that never passes through entry `name` resolves the same way in both states. */
  lemma {:induction false} WalkAgrees(s: State, u: State, d: int, name: string, cur: int, path: Path)
    requires Fresh(s) && AgreesExcept(s, u, d, name)
    requires cur in s.nodes && name !in path
    ensures Walk(u, cur, path) == Walk(s, cur, path)
    decreases |path|
  {
    if path != [] {
      assert Step(u, cur, path[0]) == Step(s, cur, path[0]);
      if Step(s, cur, path[0]).Ok? {
        assert path == [path[0]] + path[1..];
        WalkAgrees(s, u, d, name, Step(s, cur, path[0]).value, path[1..]);
      }
    }
  }

  /** Resolution that succeeds in `s` without passing through entry `name` succeeds the same way in `u`. */
  lemma ResolveAgrees(s: State, u: State, d: int, name: string, fd: int, path: Path)
    requires Fresh(s) && AgreesExcept(s, u, d, name)
    requires Resolve(s, fd, path).Ok? && name !in path
    ensures Resolve(u, fd, path) == Resolve(s, fd, path)
  {
    WalkAgrees(s, u, d, name, fd, path);
  }

  /** A character that fits in one byte. */
  predicate ByteChar(c: char)
  {
    (c as int) < 256
  }

  /** Bytes read as text, one character per byte. */
  function ToText(b: seq<Byte>): (t: string)
    ensures |t| == |b| && forall i | 0 <= i < |t| :: ByteChar(t[i]) && t[i] as int == b[i]
  {
    seq(|b|, i requires 0 <= i < |b| => b[i] as char)
  }

  /** Text written as bytes, one byte per character. */
  function ToBytes(t: string): (b: seq<Byte>)
    requires forall i | 0 <= i < |t| :: ByteChar(t[i])
    ensures |b| == |t| && ToText(b) == t
  {
    var b: seq<Byte> := seq(|t|, i requires 0 <= i < |t| && ByteChar(t[i]) => t[i] as int);
    assert forall i | 0 <= i < |t| :: ToText(b)[i] == t[i];
    b
  }

  lemma TextOfConcat(a: seq<Byte>, b: seq<Byte>)
    ensures ToText(a + b) == ToText(a) + ToText(b)
  {
  }

  /** The environment (readdir order, d_type support, new-inode metadata) never changes. */
  ghost predicate SameEnv(s: State, t: State)
  {
    t.order == s.order && t.dtypes == s.dtypes && t.newMeta == s.newMeta
  }

  /** mkdirat(fd, path); on success the result is the new directory's inode. */
  function MkdirAt(s: State, fd: int, path: Path): (r: (State, Res<int>))
    ensures SameEnv(s, r.0)
    ensures r.1.Err? ==> r.0 == s
    ensures Fresh(s) ==> Fresh(r.0)
    ensures r.1.Ok? && Fresh(s) ==>
              IsDir(r.0, r.1.value) && r.1.value !in s.nodes &&
              r.0.nodes[r.1.value].entries == map[] && r.0.nodes[r.1.value].meta == s.newMeta
  {
    if |path| == 0 then (s, Err(ENOENT))
    else match ParentDir(s, fd, path)
      case Err(e) => (s, Err(e))
      case Ok(d) =>
        var name := Last(path);
        if name in DotNames || name in s.nodes[d].entries then (s, Err(EEXIST))
        else if !ProperName(name) then (s, Err(ENOENT))
        else
          var ino := s.nextIno;
          var s1 := Put(s, d, name, ino);
          (s1.(nodes := s1.nodes[ino := Dir(map[], d, s.newMeta)], nextIno := ino + 1), Ok(ino))
  }

  /**
   * openat(fd, path, O_WRONLY | O_CREAT), or with O_EXCL when `excl` is set:
   * an existing file is opened unchanged, a missing one is created empty.
   */
  function CreateAt(s: State, fd: int, path: Path, excl: bool): (r: (State, Res<int>))
    ensures SameEnv(s, r.0)
    ensures r.1.Err? ==> r.0 == s
    ensures Fresh(s) ==> Fresh(r.0)
    ensures r.1.Ok? ==> r.1.value in r.0.nodes
  {
    if |path| == 0 then (s, Err(ENOENT))
    else match ParentDir(s, fd, path)
      case Err(e) => (s, Err(e))
      case Ok(d) =>
        var name := Last(path);
        if name in DotNames || name in s.nodes[d].entries then
          if excl then (s, Err(EEXIST))
          else match Step(s, d, name)
            case Err(e) => (s, Err(e))
            case Ok(x) =>
              if s.nodes[x].Dir? then (s, Err(EISDIR))
              else if !s.nodes[x].meta.accessible then (s, Err(EACCES))
              else (s, Ok(x))
        else if !ProperName(name) then (s, Err(ENOENT))
        else
          var ino := s.nextIno;
          var s1 := Put(s, d, name, ino);
          (s1.(nodes := s1.nodes[ino := File([], s.newMeta)], nextIno := ino + 1), Ok(ino))
  }

  /** After openat(d, n, O_CREAT) on an open directory, with or without success, `n` is an entry of `d`. */
  lemma CreateLeavesEntry(s: State, d: int, n: string)
    requires Fresh(s) && OpenDir(s, d) && d >= 0 && ProperName(n)
    ensures var r := CreateAt(s, d, [n], false);
            IsDir(r.0, d) && n in r.0.nodes[d].entries &&
            (n !in s.nodes[d].entries ==> r.1.Ok? && r.0.nodes[d].entries[n] == r.1.value)
  {
    assert [n][..0] == [];
  }

  /** Appends `data` to the regular file open as `fd` (write). */
  function AppendAt(s: State, fd: int, data: seq<Byte>): (r: (State, Res<int>))
    ensures SameEnv(s, r.0)
    ensures r.1.Err? ==> r.0 == s
    ensures Fresh(s) ==> Fresh(r.0)
    ensures r.0.nodes.Keys == s.nodes.Keys && r.0.nextIno == s.nextIno
  {
    if fd !in s.nodes then (s, Err(EBADF))
    else match s.nodes[fd]
      case File(prev, meta) => (s.(nodes := s.nodes[fd := File(prev + data, meta)]), Ok(|data|))
      case Dir(_, _, _) => (s, Err(EISDIR))
      case Special(_) => (s, Err(EINVAL))
  }

  /** linkat(fd1, p1, fd2, p2): a second name for an existing non-directory. */
  function LinkAt(s: State, fd1: int, p1: Path, fd2: int, p2: Path): (r: (State, Res<int>))
    ensures SameEnv(s, r.0)
    ensures r.1.Err? ==> r.0 == s
    ensures Fresh(s) ==> Fresh(r.0)
    ensures r.0.nodes.Keys == s.nodes.Keys && r.0.nextIno == s.nextIno
  {
    if |p1| == 0 || |p2| == 0 then (s, Err(ENOENT))
    else match Resolve(s, fd1, p1)
      case Err(e) => (s, Err(e))
      case Ok(src) =>
        match ParentDir(s, fd2, p2)
          case Err(e) => (s, Err(e))
          case Ok(d) =>
            var name := Last(p2);
            if name in DotNames || name in s.nodes[d].entries then (s, Err(EEXIST))
            else if !ProperName(name) then (s, Err(ENOENT))
            else if s.nodes[src].Dir? then (s, Err(EPERM))
            else (Put(s, d, name, src), Ok(src))
  }

  /**
   * renameat2(fd1, p1, fd2, p2, flags).  Without `noReplace` an existing
   * target of a compatible kind is replaced; with it an existing target
   * fails with EEXIST.  Renaming a name onto another name of the same inode
   * does nothing.
   */
  function RenameAt(s: State, fd1: int, p1: Path, fd2: int, p2: Path, noReplace: bool): (r: (State, Res<int>))
    ensures SameEnv(s, r.0)
    ensures r.1.Err? ==> r.0 == s
    ensures Fresh(s) ==> Fresh(r.0)
    ensures r.0.nodes.Keys == s.nodes.Keys && r.0.nextIno == s.nextIno
  {
    if |p1| == 0 || |p2| == 0 then (s, Err(ENOENT))
    else match ParentDir(s, fd1, p1)
      case Err(e) => (s, Err(e))
      case Ok(d1) =>
        match ParentDir(s, fd2, p2)
          case Err(e) => (s, Err(e))
          case Ok(d2) =>
            var n1, n2 := Last(p1), Last(p2);
            if n1 in DotNames || n2 in DotNames then (s, Err(EINVAL))
            else if n1 !in s.nodes[d1].entries || s.nodes[d1].entries[n1] !in s.nodes then (s, Err(ENOENT))
            else
              var src := s.nodes[d1].entries[n1];
              var srcDir := s.nodes[src].Dir?;
              if n2 in s.nodes[d2].entries && noReplace then (s, Err(EEXIST))
              else if n2 in s.nodes[d2].entries && s.nodes[d2].entries[n2] == src then (s, Ok(src))
              else if n2 in s.nodes[d2].entries && s.nodes[d2].entries[n2] in s.nodes
                      && srcDir && !s.nodes[s.nodes[d2].entries[n2]].Dir? then (s, Err(ENOTDIR))
              else if n2 in s.nodes[d2].entries && s.nodes[d2].entries[n2] in s.nodes
                      && !srcDir && s.nodes[s.nodes[d2].entries[n2]].Dir? then (s, Err(EISDIR))
              else if n2 in s.nodes[d2].entries && s.nodes[d2].entries[n2] in s.nodes
                      && srcDir && s.nodes[s.nodes[d2].entries[n2]].entries != map[] then (s, Err(ENOTEMPTY))
              else if !ProperName(n2) then (s, Err(ENOENT))
              else (Relink(s, d1, n1, d2, n2), Ok(src))
  }

  /** The successful rename of entry `n1` of `d1` to `n2` of `d2`: the entry moves and a moved directory gets its new parent. */
  function Relink(s: State, d1: int, n1: string, d2: int, n2: string): (t: State)
    requires IsDir(s, d1) && IsDir(s, d2) && n1 in s.nodes[d1].entries
    ensures SameEnv(s, t) && t.nodes.Keys == s.nodes.Keys && t.nextIno == s.nextIno
    ensures Fresh(s) ==> Fresh(t)
  {
    var src := s.nodes[d1].entries[n1];
    var s0 := Drop(s, d1, n1);
    DropKeepsFresh(s, d1, n1);
    var s1 := Put(s0, d2, n2, src);
    PutKeepsFresh(s0, d2, n2, src);
    var s2 := if src in s1.nodes && s1.nodes[src].Dir? then s1.(nodes := s1.nodes[src := s1.nodes[src].(parent := d2)]) else s1;
    assert Fresh(s1) ==> Fresh(s2);
    s2
  }

  /** Relinking changes no entry other than the two it names. */
  lemma RelinkFrame(s: State, d1: int, n1: string, d2: int, n2: string, d: int, n: string)
    requires IsDir(s, d1) && IsDir(s, d2) && n1 in s.nodes[d1].entries
    requires IsDir(s, d) && n != n1 && n != n2
    ensures KeepsEntry(s, Relink(s, d1, n1, d2, n2), d, n)
  {
    var src := s.nodes[d1].entries[n1];
    var s0 := Drop(s, d1, n1);
    assert KeepsEntry(s, s0, d, n);
    var s1 := Put(s0, d2, n2, src);
    assert KeepsEntry(s0, s1, d, n);
    if src in s1.nodes && s1.nodes[src].Dir? {
      var s2 := s1.(nodes := s1.nodes[src := s1.nodes[src].(parent := d2)]);
      assert KeepsEntry(s1, s2, d, n);
    }
  }

  /** Relinking only re-points directory entries. */
  lemma RelinkNodes(s: State, d1: int, n1: string, d2: int, n2: string)
    requires IsDir(s, d1) && IsDir(s, d2) && n1 in s.nodes[d1].entries
    ensures KeepsNodes(s, Relink(s, d1, n1, d2, n2))
  {
  }

  /** A rename that changes anything relinks the entry its first path names. */
  lemma RenameRelinks(s: State, fd1: int, p1: Path, fd2: int, p2: Path, noReplace: bool)
    requires RenameAt(s, fd1, p1, fd2, p2, noReplace).0 != s
    ensures |p1| > 0 && |p2| > 0 && ParentDir(s, fd1, p1).Ok? && ParentDir(s, fd2, p2).Ok?
    ensures var d1, d2 := ParentDir(s, fd1, p1).value, ParentDir(s, fd2, p2).value;
            IsDir(s, d1) && IsDir(s, d2) && Last(p1) in s.nodes[d1].entries &&
            RenameAt(s, fd1, p1, fd2, p2, noReplace).0 == Relink(s, d1, Last(p1), d2, Last(p2))
  {
  }

  /** Renaming a regular file over a missing name or another non-directory moves the entry and nothing else. */
  lemma RenameFile(s: State, fd1: int, p1: Path, fd2: int, p2: Path, d1: int, d2: int)
    requires |p1| > 0 && |p2| > 0
    requires ParentDir(s, fd1, p1) == Ok(d1) && ParentDir(s, fd2, p2) == Ok(d2)
    requires Last(p1) !in DotNames && ProperName(Last(p2))
    requires Last(p1) in s.nodes[d1].entries && IsFile(s, s.nodes[d1].entries[Last(p1)])
    requires Last(p2) in s.nodes[d2].entries ==>
               var x := s.nodes[d2].entries[Last(p2)];
               x != s.nodes[d1].entries[Last(p1)] && !(x in s.nodes && s.nodes[x].Dir?)
    ensures var src := s.nodes[d1].entries[Last(p1)];
            RenameAt(s, fd1, p1, fd2, p2, false).0 == Put(Drop(s, d1, Last(p1)), d2, Last(p2), src) &&
            RenameAt(s, fd1, p1, fd2, p2, false).1 == Ok(src)
  {
  }

  /** Unlinking a regular file's entry drops just that entry. */
  lemma UnlinkFile(s: State, fd: int, path: Path, d: int)
    requires |path| > 0 && ParentDir(s, fd, path) == Ok(d) && Last(path) !in DotNames
    requires Last(path) in s.nodes[d].entries && IsFile(s, s.nodes[d].entries[Last(path)])
    ensures UnlinkAt(s, fd, path).0 == Drop(s, d, Last(path)) && UnlinkAt(s, fd, path).1 == Ok(0)
  {
  }

  /** Every node of `s` is still there, directories stay directories with their permissions, and every other node is unchanged. */
  ghost predicate KeepsNodes(s: State, t: State)
  {
    t.nodes.Keys == s.nodes.Keys &&
    forall x | x in s.nodes ::
      x in t.nodes && (s.nodes[x].Dir? <==> t.nodes[x].Dir?) &&
      (s.nodes[x].Dir? ==> t.nodes[x].meta == s.nodes[x].meta) &&
      (!s.nodes[x].Dir? ==> t.nodes[x] == s.nodes[x])
  }

  /** Directory `d` keeps its permissions and its entry `n` (present or absent) from `s` to `t`. */
  ghost predicate KeepsEntry(s: State, t: State, d: int, n: string)
  {
    IsDir(s, d) && IsDir(t, d) && t.nodes[d].meta == s.nodes[d].meta &&
    (n in t.nodes[d].entries <==> n in s.nodes[d].entries) &&
    (n in s.nodes[d].entries ==> t.nodes[d].entries[n] == s.nodes[d].entries[n])
  }

  /** A rename only re-points directory entries. */
  lemma RenameNodes(s: State, fd1: int, p1: Path, fd2: int, p2: Path, noReplace: bool)
    ensures KeepsNodes(s, RenameAt(s, fd1, p1, fd2, p2, noReplace).0)
  {
    if RenameAt(s, fd1, p1, fd2, p2, noReplace).0 != s {
      RenameRelinks(s, fd1, p1, fd2, p2, noReplace);
      RelinkNodes(s, ParentDir(s, fd1, p1).value, Last(p1), ParentDir(s, fd2, p2).value, Last(p2));
    }
  }

  /** A single name is looked up in the open directory `d` itself. */
  lemma ParentOfName(s: State, d: int, n: string)
    requires OpenDir(s, d) && d >= 0
    ensures ParentDir(s, d, [n]) == Ok(d) && Last([n]) == n
  {
    assert [n][..0] == [];
  }

  /** A rename changes no entry other than the two names it moves. */
  lemma RenameFrame(s: State, fd1: int, p1: Path, fd2: int, p2: Path, noReplace: bool, d: int, n: string)
    requires IsDir(s, d) && |p1| > 0 && |p2| > 0 && n != Last(p1) && n != Last(p2)
    ensures KeepsEntry(s, RenameAt(s, fd1, p1, fd2, p2, noReplace).0, d, n)
  {
    if RenameAt(s, fd1, p1, fd2, p2, noReplace).0 != s {
      RenameRelinks(s, fd1, p1, fd2, p2, noReplace);
      RelinkFrame(s, ParentDir(s, fd1, p1).value, Last(p1), ParentDir(s, fd2, p2).value, Last(p2), d, n);
    }
  }

  /** With RENAME_NOREPLACE a rename onto a name that exists changes nothing. */
  lemma NoReplaceKeepsTarget(s: State, fd1: int, p1: Path, fd2: int, p2: Path)
    requires |p2| > 0 && Last(p2) !in DotNames
    requires FStatAt(s, fd2, p2).Ok?
    ensures RenameAt(s, fd1, p1, fd2, p2, true).0 == s
  {
    var n := Last(p2);
    assert p2 == p2[..|p2| - 1] + [n];
    WalkLast(s, fd2, p2[..|p2| - 1], n);
  }

  /** The last step of a path walk: the parent resolves and holds the name. */
  lemma {:induction false} WalkLast(s: State, cur: int, init: Path, n: string)
    requires Walk(s, cur, init + [n]).Ok? && n !in DotNames
    ensures Walk(s, cur, init).Ok? && OpenDir(s, Walk(s, cur, init).value) &&
            n in s.nodes[Walk(s, cur, init).value].entries
    decreases |init|
  {
    if init == [] {
      assert [n][1..] == [];
    } else {
      assert (init + [n])[0] == init[0] && (init + [n])[1..] == init[1..] + [n];
      WalkLast(s, Step(s, cur, init[0]).value, init[1..], n);
    }
  }

  /** A rename between two single names of one directory changes the entries of no other directory. */
  lemma RenameWithin(s: State, d: int, n1: string, n2: string, noReplace: bool)
    ensures forall x, n | IsDir(s, x) && x != d :: KeepsEntry(s, RenameAt(s, d, [n1], d, [n2], noReplace).0, x, n)
  {
    if OpenDir(s, d) && d >= 0 {
      ParentOfName(s, d, n1);
      ParentOfName(s, d, n2);
    }
  }

  /** Only directory `d` may differ from `s` to `t`: every other node is as it was, and the environment too. */
  ghost predicate OthersKept(s: State, t: State, d: int)
  {
    KeepsNodes(s, t) && SameEnv(s, t) && forall x | x in s.nodes && x != d :: t.nodes[x] == s.nodes[x]
  }

  lemma OthersKeptTrans(s: State, s1: State, t: State, d: int)
    requires OthersKept(s, s1, d) && OthersKept(s1, t, d)
    ensures OthersKept(s, t, d)
  {
  }

  /** unlinkat(fd, name) changes at most the entry `name` of `fd`. */
  lemma UnlinkWithin(s: State, fd: int, n: string)
    ensures OthersKept(s, UnlinkAt(s, fd, [n]).0, fd)
    ensures IsDir(s, fd) ==> forall m | m != n :: KeepsEntry(s, UnlinkAt(s, fd, [n]).0, fd, m)
  {
    assert [n][..0] == [];
  }

  /** readdir of a directory whose node is unchanged, in a state that keeps the kind of every node, lists the same. */
  lemma ListingKept(s: State, t: State, d: int)
    requires KeepsNodes(s, t) && SameEnv(s, t) && IsDir(s, d) && t.nodes[d] == s.nodes[d]
    ensures Listing(t, d) == Listing(s, d)
  {
    var names := s.order(s.nodes[d].entries.Keys + DotNames);
    forall i | 0 <= i < |names| ensures DTypeOf(t, d, names[i]) == DTypeOf(s, d, names[i]) {
      assert Entry(t, d, names[i]) == Entry(s, d, names[i]);
    }
  }

  /** An openat of one name resolves alike in a state that keeps the nodes and that entry of the directory. */
  lemma OpenKept(s: State, t: State, fd: int, n: string)
    requires KeepsNodes(s, t) && n !in DotNames
    requires IsDir(s, fd) ==> KeepsEntry(s, t, fd, n)
    ensures OpenAt(t, fd, [n], false) == OpenAt(s, fd, [n], false)
  {
    assert [n][1..] == [];
    if fd >= 0 && fd in s.nodes {
      assert Step(t, fd, n) == Step(s, fd, n);
      match Step(s, fd, n)
        case Err(_) =>
        case Ok(x) =>
          assert Walk(t, fd, [n]) == Walk(t, x, []) == Ok(x);
          assert Walk(s, fd, [n]) == Walk(s, x, []) == Ok(x);
          assert t.nodes[x].meta == s.nodes[x].meta;
    }
  }

  /** readdir lists every name once. */
  lemma ListingDistinct(s: State, d: int)
    requires IsDir(s, d) && OrderOk(s)
    ensures forall j, k | 0 <= j < k < |Listing(s, d)| :: Listing(s, d)[j].name != Listing(s, d)[k].name
  {
    assert Enumerates(s.order(s.nodes[d].entries.Keys + DotNames), s.nodes[d].entries.Keys + DotNames);
  }

  /** unlinkat(fd, path, 0): removes a non-directory name. */
  function UnlinkAt(s: State, fd: int, path: Path): (r: (State, Res<int>))
    ensures SameEnv(s, r.0)
    ensures r.1.Err? ==> r.0 == s
    ensures Fresh(s) ==> Fresh(r.0)
    ensures r.0.nodes.Keys == s.nodes.Keys && r.0.nextIno == s.nextIno
  {
    if |path| == 0 then (s, Err(ENOENT))
    else match ParentDir(s, fd, path)
      case Err(e) => (s, Err(e))
      case Ok(d) =>
        var name := Last(path);
        if name in DotNames then (s, Err(EISDIR))
        else if name !in s.nodes[d].entries then (s, Err(ENOENT))
        else if s.nodes[d].entries[name] in s.nodes && s.nodes[s.nodes[d].entries[name]].Dir? then (s, Err(EISDIR))
        else (Drop(s, d, name), Ok(0))
  }

  function DTypeOf(s: State, d: int, name: string): DType
    requires IsDir(s, d)
  {
    if !s.dtypes then DT_UNKNOWN
    else match Entry(s, d, name)
      case None => DT_UNKNOWN
      case Some(x) =>
        if x !in s.nodes then DT_UNKNOWN
        else match s.nodes[x]
          case File(_, _) => DT_REG
          case Dir(_, _, _) => DT_DIR
          case Special(_) => DT_OTHER
  }

  /** What readdir yields for directory `d`, `.` and `..` included, in the filesystem's order. */
  function Listing(s: State, d: int): (l: seq<Dirent>)
    requires IsDir(s, d)
    ensures |l| == |s.order(s.nodes[d].entries.Keys + DotNames)|
  {
    var names := s.order(s.nodes[d].entries.Keys + DotNames);
    seq(|names|, i requires 0 <= i < |names| => Dirent(names[i], DTypeOf(s, d, names[i])))
  }

  /** The system calls as operations on one mutable filesystem. */
  class FileSystem {
    var s: State

    constructor (init: State)
      ensures s == init
    {
      s := init;
    }

    method Mkdir(fd: int, path: Path) returns (r: Res<int>)
      modifies this
      ensures s == MkdirAt(old(s), fd, path).0 && r == MkdirAt(old(s), fd, path).1
    {
      var o := MkdirAt(s, fd, path);
      s, r := o.0, o.1;
    }

    method Create(fd: int, path: Path, excl: bool) returns (r: Res<int>)
      modifies this
      ensures s == CreateAt(old(s), fd, path, excl).0 && r == CreateAt(old(s), fd, path, excl).1
    {
      var o := CreateAt(s, fd, path, excl);
      s, r := o.0, o.1;
    }

    method Append(fd: int, data: seq<Byte>) returns (r: Res<int>)
      modifies this
      ensures s == AppendAt(old(s), fd, data).0 && r == AppendAt(old(s), fd, data).1
    {
      var o := AppendAt(s, fd, data);
      s, r := o.0, o.1;
    }

    method Link(fd1: int, p1: Path, fd2: int, p2: Path) returns (r: Res<int>)
      modifies this
      ensures s == LinkAt(old(s), fd1, p1, fd2, p2).0 && r == LinkAt(old(s), fd1, p1, fd2, p2).1
    {
      var o := LinkAt(s, fd1, p1, fd2, p2);
      s, r := o.0, o.1;
    }

    method Rename(fd1: int, p1: Path, fd2: int, p2: Path, noReplace: bool) returns (r: Res<int>)
      modifies this
      ensures s == RenameAt(old(s), fd1, p1, fd2, p2, noReplace).0 && r == RenameAt(old(s), fd1, p1, fd2, p2, noReplace).1
    {
      var o := RenameAt(s, fd1, p1, fd2, p2, noReplace);
      s, r := o.0, o.1;
    }

    method Unlink(fd: int, path: Path) returns (r: Res<int>)
      modifies this
      ensures s == UnlinkAt(old(s), fd, path).0 && r == UnlinkAt(old(s), fd, path).1
    {
      var o := UnlinkAt(s, fd, path);
      s, r := o.0, o.1;
    }
  }
}

/**
 * maildirmerge (src/maildirmerge.c): moves the messages of one or more
 * source maildirs into a target maildir.  Everything in the source's new/
 * moves; each message of cur/ is moved, redirected into a sub-folder or
 * left behind, depending on whether the target serves POP3 and on the
 * message's seen flag.
 */
module Merge {
  import opened Wrappers
  import opened Strings
  import opened Fs
  import opened TypeRecord
  import opened ServerTypes
  import Courier
  import Dovecot

  // ---------------------------------------------------------------------
  // message_seen

  /** The flag scan of message_seen after the version's comma: an `S` before the next comma or the end. */
  function ScanFlags(f: string): bool
  {
    if f == [] then false
    else if f[0] == 'S' then true
    else if f[0] == ',' then false
    else ScanFlags(f[1..])
  }

  /** The scan finds an `S` exactly when the flags before the next comma hold one. */
  lemma {:induction false} ScanFlagsIsS(f: string)
    ensures ScanFlags(f) <==> 'S' in Before(f, ',')
  {
    if f != [] {
      if f[0] == ',' {
        assert Before(f, ',') == [] by {
          BeforeIs(f, ',', 0);
        }
      } else {
        var b := Before(f[1..], ',');
        assert Before(f, ',') == [f[0]] + b by {
          assert f == [f[0]] + f[1..];
          assert ',' !in ([f[0]] + b);
          assert ([f[0]] + b) == f[..|b| + 1];
          BeforeIs(f, ',', |b| + 1);
        }
        if f[0] != 'S' {
          ScanFlagsIsS(f[1..]);
        }
      }
    }
  }

  /**
   * message_seen(filename): the info part starts after the first `:`, its
   * version ends at the following `,`, and the message is seen when the
   * flags after that comma hold `S` before any further comma.  A name
   * without a colon, or without a comma after it, is not seen.
   */
  function MessageSeen(name: string): (seen: bool)
    ensures seen ==> ':' in name
    ensures seen ==> ',' in name[IndexOf(name, ':').value + 1..]
  {
    match IndexOf(name, ':')
      case None => false
      case Some(p) =>
        var info := name[p + 1..];
        match IndexOf(info, ',')
          case None => false
          case Some(c) => ScanFlags(info[c + 1..])
  }

  /**
   * For a name `pre:ver,flags` the result depends only on the flags: any
   * version is accepted (an unknown one only draws a warning), and the
   * message is seen iff `S` occurs among the flags before another comma.
   */
  lemma SeenOf(pre: string, ver: string, flags: string)
    requires ':' !in pre && ',' !in ver
    ensures MessageSeen(pre + ":" + ver + "," + flags) <==> 'S' in Before(flags, ',')
  {
    var name := pre + ":" + ver + "," + flags;
    assert name[..|pre|] == pre;
    IndexOfIs(name, ':', |pre|);
    var info := name[|pre| + 1..];
    assert info == ver + "," + flags;
    assert info[..|ver|] == ver;
    IndexOfIs(info, ',', |ver|);
    assert info[|ver| + 1..] == flags;
    ScanFlagsIsS(flags);
  }

  // ---------------------------------------------------------------------
  // is_maildir, get_maildir_fd_at, maildir_create_sub

  /** The three sub-directories of a maildir, in the order is_maildir checks them. */
  const Subs: seq<string> := ["new", "cur", "tmp"]

  predicate SubIsDir(s: State, fd: int, sub: string)
  {
    FStatAt(s, fd, [sub]).Ok? && FStatAt(s, fd, [sub]).value.kind == Directory
  }

  predicate IsMaildir(s: State, fd: int)
  {
    forall i | 0 <= i < |Subs| :: SubIsDir(s, fd, Subs[i])
  }

  /**
   * is_maildir(fd): stat new, cur and tmp in turn, stopping at the first
   * that is missing or not a directory.  `checked` is the number of
   * fstatat calls made.
   */
  method CheckMaildir(s: State, fd: int) returns (r: bool, checked: nat)
    ensures r <==> IsMaildir(s, fd)
    ensures 1 <= checked <= |Subs|
    ensures r ==> checked == |Subs|
    ensures !r ==> !SubIsDir(s, fd, Subs[checked - 1])
    ensures forall i | 0 <= i < checked - 1 :: SubIsDir(s, fd, Subs[i])
  {
    var i := 0;
    while i < |Subs|
      invariant i <= |Subs|
      invariant forall j | 0 <= j < i :: SubIsDir(s, fd, Subs[j])
    {
      var st := FStatAt(s, fd, [Subs[i]]);
      if st.Err? || st.value.kind != Directory {
        return false, i + 1;
      }
      i := i + 1;
    }
    return true, i;
  }

  /**
   * get_maildir_fd_at(bfd, folder): a descriptor for `folder` when it is a
   * directory that can be opened and is a maildir; None (-1) otherwise.
   */
  function MaildirFdAt(s: State, bfd: int, folder: Path): (r: Option<int>)
    ensures r.Some? <==> Resolve(s, bfd, folder).Ok? && OpenDir(s, Resolve(s, bfd, folder).value) &&
                         IsMaildir(s, Resolve(s, bfd, folder).value)
    ensures r.Some? ==> r.value == Resolve(s, bfd, folder).value
  {
    match FStatAt(s, bfd, folder)
      case Err(_) => None
      case Ok(st) =>
        if st.kind != Directory then None
        else match OpenAt(s, bfd, folder, false)
          case Err(_) => None
          case Ok(fd) => if IsMaildir(s, fd) then Some(fd) else None
  }

  /** The file that marks a maildir as a sub-folder. */
  const FolderMark := "maildirfolder"

  /**
   * maildir_create_sub(bfd, foldername): make `foldername` under `bfd` a
   * maildir sub-folder.  In a dry run nothing is created; an existing
   * maildir is opened, otherwise `bfd` itself is duplicated.  Otherwise the
   * folder is made with new, cur, tmp and the marker file (their own
   * failures are ignored); a folder that already exists is opened and
   * validated as a maildir.
   */
  function CreateSubSpec(s: State, bfd: int, name: string, dry: bool): (r: (State, Option<int>))
    ensures dry ==> r.0 == s
  {
    if FStatAt(s, bfd, []).Err? then (s, None)
    else if dry then
      (s, match MaildirFdAt(s, bfd, [name]) case None => Some(bfd) case Some(fd) => Some(fd))
    else
      var m := MkdirAt(s, bfd, [name]);
      match m.1
        case Ok(_) =>
          var s1 := m.0;
          (match OpenAt(s1, bfd, [name], false)
            case Err(_) => (s1, None)
            case Ok(fd) => (Populate(s1, fd), Some(fd)))
        case Err(e) =>
          if e == EEXIST then (s, MaildirFdAt(s, bfd, [name])) else (s, None)
  }

  /** Lines 179-184: new, cur, tmp and the marker file made in the new folder, failures ignored. */
  function Populate(s1: State, fd: int): State
  {
    var s2 := MkdirAt(s1, fd, ["new"]).0;
    var s3 := MkdirAt(s2, fd, ["cur"]).0;
    var s4 := MkdirAt(s3, fd, ["tmp"]).0;
    CreateAt(s4, fd, [FolderMark], false).0
  }

  /**
   * Outside a dry run, a descriptor is returned either for the folder mkdir
   * has just made, or, when the name already exists, only after the existing
   * folder has been validated as a maildir under `bfd`; any other mkdir
   * failure gives none.
   */
  lemma CreateSubOutcomes(s: State, bfd: int, name: string)
    requires FStatAt(s, bfd, []).Ok?
    ensures var m := MkdirAt(s, bfd, [name]);
            var r := CreateSubSpec(s, bfd, name, false);
            (r.1.Some? ==> m.1.Ok? || (m.1 == Err(EEXIST) && r.0 == s &&
                                       Resolve(s, bfd, [name]) == Ok(r.1.value) && IsMaildir(s, r.1.value))) &&
            (m.1 == Err(EEXIST) ==> r == (s, MaildirFdAt(s, bfd, [name]))) &&
            (m.1.Err? && m.1 != Err(EEXIST) ==> r == (s, None))
  {
  }

  /** maildir_create_sub as the calls it makes. */
  method CreateSub(fs: FileSystem, bfd: int, name: string, dry: bool) returns (r: Option<int>)
    modifies fs
    ensures (fs.s, r) == CreateSubSpec(old(fs.s), bfd, name, dry)
  {
    if FStatAt(fs.s, bfd, []).Err? {
      return None;
    }
    if dry {
      r := MaildirFdAt(fs.s, bfd, [name]);
      if r.None? {
        // dup(bfd)
        r := Some(bfd);
      }
      return;
    }
    var m := fs.Mkdir(bfd, [name]);
    if m.Ok? {
      var fd := OpenAt(fs.s, bfd, [name], false);
      if fd.Err? {
        return None;
      }
      var _ := fs.Mkdir(fd.value, ["new"]);
      var _ := fs.Mkdir(fd.value, ["cur"]);
      var _ := fs.Mkdir(fd.value, ["tmp"]);
      var _ := fs.Create(fd.value, [FolderMark], false);
      return Some(fd.value);
    }
    if m.errno == EEXIST {
      return MaildirFdAt(fs.s, bfd, [name]);
    }
    return None;
  }

  // ---------------------------------------------------------------------
  // Routing of cur/ messages

  /** The command-line options: -n, --pop3-merge-seen, --pop3-uidl, --pop3-redirect. */
  datatype Options = Options(dryRun: bool, mergeSeen: bool, uidl: bool, redirect: Option<string>)

  datatype Route = ToTarget | ToRedirect | LeftBehind

  /** Line 361 and its else branches: where a message of cur/ goes. */
  function RouteOf(pop3: bool, o: Options, name: string): (r: Route)
    ensures r == ToTarget <==> !pop3 || o.mergeSeen || !MessageSeen(name)
    ensures r == ToRedirect <==> pop3 && !o.mergeSeen && MessageSeen(name) && o.redirect.Some?
  {
    if !pop3 || o.mergeSeen || !MessageSeen(name) then ToTarget
    else if o.redirect.Some? then ToRedirect
    else LeftBehind
  }

  /**
   * With a POP3 target and without --pop3-merge-seen, a message `pre:ver,flags`
   * reaches the target's cur/ exactly when its flags (before any further
   * comma) carry no `S`; a seen one is redirected when a redirect folder is
   * configured and left behind otherwise.
   */
  lemma SeenRouting(o: Options, pre: string, ver: string, flags: string)
    requires ':' !in pre && ',' !in ver && !o.mergeSeen
    ensures var r := RouteOf(true, o, pre + ":" + ver + "," + flags);
            (r == ToTarget <==> 'S' !in Before(flags, ',')) &&
            (r == ToRedirect <==> 'S' in Before(flags, ',') && o.redirect.Some?) &&
            (r == LeftBehind <==> 'S' in Before(flags, ',') && o.redirect.None?)
  {
    SeenOf(pre, ver, flags);
  }

  // ---------------------------------------------------------------------
  // The target's POP3 flag

  /** The target node's private data is what its is_pop3 callback needs. */
  predicate Callable(n: TypeNode)
  {
    n.t.isPop3 == Some(CourierIsPop3) ==> n.pvt.Some? && n.pvt.value.CourierData?
  }

  /** ti->type->is_pop3 && ti->type->is_pop3(ti->pvt). */
  predicate Pop3At(s: State, n: TypeNode)
    requires Callable(n)
  {
    n.t.isPop3.Some? && n.pvt.Some? && IsPop3Call(s, n.t.isPop3.value, n.pvt.value)
  }

  predicate AllCallable(targets: seq<TypeNode>)
  {
    forall i | 0 <= i < |targets| :: Callable(targets[i])
  }

  /** Some target type reports POP3. */
  predicate AnyPop3(s: State, targets: seq<TypeNode>)
    requires AllCallable(targets)
  {
    exists i | 0 <= i < |targets| :: Pop3At(s, targets[i])
  }

  /** Lines 284-286: ask each target type until one reports POP3. */
  method TargetIsPop3(s: State, targets: seq<TypeNode>) returns (pop3: bool, asked: nat)
    requires AllCallable(targets)
    ensures pop3 == AnyPop3(s, targets)
    ensures asked <= |targets| && forall i | 0 <= i < asked - 1 :: !Pop3At(s, targets[i])
    ensures pop3 ==> asked > 0 && Pop3At(s, targets[asked - 1])
  {
    pop3 := false;
    asked := 0;
    while asked < |targets| && !pop3
      invariant asked <= |targets|
      invariant forall i | 0 <= i < asked - 1 :: !Pop3At(s, targets[i])
      invariant pop3 ==> asked > 0 && Pop3At(s, targets[asked - 1])
      invariant !pop3 ==> forall i | 0 <= i < asked :: !Pop3At(s, targets[i])
    {
      pop3 := Pop3At(s, targets[asked]);
      asked := asked + 1;
    }
  }

  // ---------------------------------------------------------------------
  // UIDL transfer

  /** Lines 367-370: the message name truncated at its first colon. */
  function UidlKey(name: string): (k: string)
    ensures ':' !in k && k <= name
    ensures ':' in name ==> |k| < |name| && name[|k|] == ':'
    ensures ':' !in name ==> k == name
  {
    Before(name, ':')
  }

  /** One pop3_set_uidl call: the target node's index, the base name, the UIDL. */
  datatype UidlSet = UidlSet(node: nat, basename: string, uidl: string)

  /** Lines 377-380: the calls made on the target types that can set a UIDL, in list order. */
  function SetsFor(targets: seq<TypeNode>, key: string, uidl: string): seq<UidlSet>
  {
    if targets == [] then []
    else
      var n := |targets| - 1;
      SetsFor(targets[..n], key, uidl) + if targets[n].t.setUidl.Some? then [UidlSet(n, key, uidl)] else []
  }

  /** Every target type with pop3_set_uidl gets the one UIDL once, in list order, and no other type does. */
  lemma {:induction false} SetsForExact(targets: seq<TypeNode>, key: string, uidl: string, x: UidlSet)
    ensures x in SetsFor(targets, key, uidl) <==>
            x.node < |targets| && targets[x.node].t.setUidl.Some? && x.basename == key && x.uidl == uidl
    ensures var r := SetsFor(targets, key, uidl);
            forall i, j | 0 <= i < j < |r| :: r[i].node < r[j].node
    ensures forall y | y in SetsFor(targets, key, uidl) :: y.node < |targets|
  {
    if targets != [] {
      var n := |targets| - 1;
      SetsForExact(targets[..n], key, uidl, x);
      if x.node < n {
        assert targets[..n][x.node] == targets[x.node];
      }
    }
  }

  /** Lines 377-380 as the loop over the target list. */
  method Broadcast(targets: seq<TypeNode>, key: string, uidl: string) returns (calls: seq<UidlSet>)
    ensures calls == SetsFor(targets, key, uidl)
  {
    calls := [];
    var i := 0;
    while i < |targets|
      invariant i <= |targets|
      invariant calls == SetsFor(targets[..i], key, uidl)
    {
      assert targets[..i + 1][..i] == targets[..i];
      if targets[i].t.setUidl.Some? {
        calls := calls + [UidlSet(i, key, uidl)];
      }
      i := i + 1;
    }
    assert targets[..i] == targets;
  }

  // ---------------------------------------------------------------------
  // The two passes

  /** The entry is handled as a regular file: d_type says so, or it is unknown and fstatat says so. */
  predicate Movable(s: State, sfd: int, e: Dirent)
  {
    e.dtype == DT_REG ||
    (e.dtype == DT_UNKNOWN && FStatAt(s, sfd, [e.name]).Ok? && FStatAt(s, sfd, [e.name]).value.kind == Regular)
  }

  /** maildir_move: renameat(sfd, fname, tfd, fname) unless in a dry run; a failure is only reported. */
  function Move(s: State, dry: bool, sfd: int, tfd: int, name: string): (t: State)
    ensures dry ==> t == s
  {
    if dry then s else RenameAt(s, sfd, [name], tfd, [name], false).0
  }

  method MaildirMove(fs: FileSystem, dry: bool, sfd: int, tfd: int, name: string)
    modifies fs
    ensures fs.s == Move(old(fs.s), dry, sfd, tfd, name)
  {
    if !dry {
      var _ := fs.Rename(sfd, [name], tfd, [name], false);
    }
  }

  /** Lines 301-319: every entry of new/ that is a regular file is moved. */
  function NewPass(s: State, dry: bool, sfd: int, tfd: int, es: seq<Dirent>): State
    decreases |es|
  {
    if es == [] then s
    else NewPass(if Movable(s, sfd, es[0]) then Move(s, dry, sfd, tfd, es[0].name) else s, dry, sfd, tfd, es[1..])
  }

  /** Lines 301-319 as the readdir loop over a listing of new/. */
  method MoveNew(fs: FileSystem, dry: bool, sfd: int, tfd: int, es: seq<Dirent>)
    modifies fs
    ensures fs.s == NewPass(old(fs.s), dry, sfd, tfd, es)
  {
    var i := 0;
    while i < |es|
      invariant i <= |es|
      invariant NewPass(old(fs.s), dry, sfd, tfd, es) == NewPass(fs.s, dry, sfd, tfd, es[i..])
    {
      assert es[i..][0] == es[i] && es[i..][1..] == es[i + 1..];
      var e := es[i];
      var regular := e.dtype == DT_REG;
      if e.dtype == DT_UNKNOWN {
        var st := FStatAt(fs.s, sfd, [e.name]);
        regular := st.Ok? && st.value.kind == Regular;
      }
      if regular {
        MaildirMove(fs, dry, sfd, tfd, e.name);
      }
      i := i + 1;
    }
  }

  /** Dry runs: the new/ pass changes nothing. */
  lemma {:induction false} NewPassDry(s: State, sfd: int, tfd: int, es: seq<Dirent>)
    ensures NewPass(s, true, sfd, tfd, es) == s
    decreases |es|
  {
    if es != [] {
      NewPassDry(s, sfd, tfd, es[1..]);
    }
  }

  /** The new/ pass keeps every node, and every entry whose name it does not list. */
  lemma {:induction false} NewPassFrame(s: State, dry: bool, sfd: int, tfd: int, es: seq<Dirent>, d: int, n: string)
    requires IsDir(s, d)
    requires forall i | 0 <= i < |es| :: es[i].name != n
    ensures KeepsNodes(s, NewPass(s, dry, sfd, tfd, es))
    ensures KeepsEntry(s, NewPass(s, dry, sfd, tfd, es), d, n)
    decreases |es|
  {
    if es != [] {
      var e := es[0];
      var s1 := if Movable(s, sfd, e) then Move(s, dry, sfd, tfd, e.name) else s;
      if Movable(s, sfd, e) && !dry {
        RenameNodes(s, sfd, [e.name], tfd, [e.name], false);
        RenameFrame(s, sfd, [e.name], tfd, [e.name], false, d, n);
      }
      assert KeepsNodes(s, s1) && KeepsEntry(s, s1, d, n);
      NewPassFrame(s1, dry, sfd, tfd, es[1..], d, n);
    }
  }

  /** Entry `n` of directory `d` is a regular file with a name rename accepts. */
  ghost predicate FileAt(s: State, d: int, n: string)
    requires IsDir(s, d)
  {
    ProperName(n) && n in s.nodes[d].entries && IsFile(s, s.nodes[d].entries[n])
  }

  /** The d_type of a listed name still in the directory says "regular" exactly for regular files, or is unknown. */
  ghost predicate Honest(s: State, d: int, e: Dirent)
    requires IsDir(s, d)
  {
    ProperName(e.name) && e.name in s.nodes[d].entries ==>
      e.dtype == DT_UNKNOWN || (e.dtype == DT_REG <==> IsFile(s, s.nodes[d].entries[e.name]))
  }

  /** A regular file `n` of `sfd` can be renamed over `tfd`'s entry of that name: none, or another non-directory. */
  ghost predicate Clear(s: State, sfd: int, tfd: int, n: string)
    requires IsDir(s, sfd) && IsDir(s, tfd)
  {
    FileAt(s, sfd, n) && n in s.nodes[tfd].entries ==>
      var x := s.nodes[tfd].entries[n];
      x != s.nodes[sfd].entries[n] && !IsDir(s, x)
  }

  /** With an honest d_type, a listed proper name is handled as a regular file exactly when it is one. */
  lemma MovableIsFile(s: State, sfd: int, e: Dirent)
    requires OpenDir(s, sfd) && sfd >= 0 && Honest(s, sfd, e)
    requires ProperName(e.name) && e.name in s.nodes[sfd].entries
    ensures Movable(s, sfd, e) <==> FileAt(s, sfd, e.name)
  {
    var x := s.nodes[sfd].entries[e.name];
    assert Entry(s, sfd, e.name) == Some(x);
    assert [e.name][1..] == [];
    if x in s.nodes {
      assert Step(s, sfd, e.name) == Ok(x);
      assert Walk(s, sfd, [e.name]) == Walk(s, x, []) == Ok(x);
      assert FStatAt(s, sfd, [e.name]) == Ok(StatOf(s, x));
    } else {
      assert Walk(s, sfd, [e.name]) == Err(ENOENT);
    }
  }

  /**
   * One step of the new/ pass: a listed regular file is renamed into the
   * target; under any other listed name nothing changes; no other name of
   * either directory changes.
   */
  lemma NewStep(s: State, sfd: int, tfd: int, e: Dirent)
    requires OpenDir(s, sfd) && OpenDir(s, tfd) && sfd != tfd && sfd >= 0 && tfd >= 0
    requires Honest(s, sfd, e) && Clear(s, sfd, tfd, e.name)
    ensures var s1 := if Movable(s, sfd, e) then Move(s, false, sfd, tfd, e.name) else s;
            KeepsNodes(s, s1) && IsDir(s1, sfd) && IsDir(s1, tfd) &&
            (FileAt(s, sfd, e.name) ==>
               e.name !in s1.nodes[sfd].entries && e.name in s1.nodes[tfd].entries &&
               s1.nodes[tfd].entries[e.name] == s.nodes[sfd].entries[e.name]) &&
            (e.name in s.nodes[sfd].entries && !FileAt(s, sfd, e.name) ==> KeepsEntry(s, s1, sfd, e.name)) &&
            (forall n | n != e.name :: KeepsEntry(s, s1, sfd, n) && KeepsEntry(s, s1, tfd, n))
  {
    var s1 := if Movable(s, sfd, e) then Move(s, false, sfd, tfd, e.name) else s;
    if ProperName(e.name) && e.name in s.nodes[sfd].entries {
      MovableIsFile(s, sfd, e);
    }
    if Movable(s, sfd, e) {
      RenameNodes(s, sfd, [e.name], tfd, [e.name], false);
      forall n | n != e.name ensures KeepsEntry(s, s1, sfd, n) && KeepsEntry(s, s1, tfd, n) {
        RenameFrame(s, sfd, [e.name], tfd, [e.name], false, sfd, n);
        RenameFrame(s, sfd, [e.name], tfd, [e.name], false, tfd, n);
      }
      ParentOfName(s, sfd, e.name);
      ParentOfName(s, tfd, e.name);
      if FileAt(s, sfd, e.name) {
        RenameFile(s, sfd, [e.name], tfd, [e.name], sfd, tfd);
      }
    }
  }

  /** After the first step of the new/ pass the rest of the listing still meets the pass's preconditions. */
  lemma NewRestReady(s: State, s1: State, sfd: int, tfd: int, es: seq<Dirent>)
    requires es != []
    requires OpenDir(s, sfd) && OpenDir(s, tfd) && OpenDir(s1, sfd) && OpenDir(s1, tfd) && KeepsNodes(s, s1)
    requires forall i, j | 0 <= i < j < |es| :: es[i].name != es[j].name
    requires forall i | 0 <= i < |es| :: Honest(s, sfd, es[i]) && Clear(s, sfd, tfd, es[i].name)
    requires forall n | n != es[0].name :: KeepsEntry(s, s1, sfd, n) && KeepsEntry(s, s1, tfd, n)
    ensures forall j | 0 <= j < |es[1..]| :: es[1..][j].name != es[0].name
    ensures forall j | 0 <= j < |es[1..]| :: Honest(s1, sfd, es[1..][j]) && Clear(s1, sfd, tfd, es[1..][j].name)
  {
    var rest := es[1..];
    forall j | 0 <= j < |rest| ensures rest[j].name != es[0].name {
      assert rest[j] == es[j + 1];
    }
    forall j | 0 <= j < |rest| ensures Honest(s1, sfd, rest[j]) && Clear(s1, sfd, tfd, rest[j].name) {
      assert rest[j] == es[j + 1];
      assert KeepsEntry(s, s1, sfd, rest[j].name) && KeepsEntry(s, s1, tfd, rest[j].name);
    }
  }

  /**
   * Outside a dry run, the new/ pass over distinct names moves every listed
   * regular file of the source to the same name in the target (the same
   * inode), provided no target entry of that name is a directory or the
   * file itself; every other listed entry of the source stays as it was.
   */
  lemma {:induction false} NewPassMoves(s: State, sfd: int, tfd: int, es: seq<Dirent>)
    requires OpenDir(s, sfd) && OpenDir(s, tfd) && sfd != tfd && sfd >= 0 && tfd >= 0
    requires forall i, j | 0 <= i < j < |es| :: es[i].name != es[j].name
    requires forall i | 0 <= i < |es| :: Honest(s, sfd, es[i]) && Clear(s, sfd, tfd, es[i].name)
    ensures var t := NewPass(s, false, sfd, tfd, es);
            KeepsNodes(s, t) && IsDir(t, sfd) && IsDir(t, tfd) &&
            (forall i | 0 <= i < |es| && FileAt(s, sfd, es[i].name) ::
               es[i].name !in t.nodes[sfd].entries && es[i].name in t.nodes[tfd].entries &&
               t.nodes[tfd].entries[es[i].name] == s.nodes[sfd].entries[es[i].name]) &&
            (forall i | 0 <= i < |es| && es[i].name in s.nodes[sfd].entries && !FileAt(s, sfd, es[i].name) ::
               KeepsEntry(s, t, sfd, es[i].name))
    decreases |es|
  {
    if es != [] {
      var e := es[0];
      var rest := es[1..];
      var s1 := if Movable(s, sfd, e) then Move(s, false, sfd, tfd, e.name) else s;
      NewStep(s, sfd, tfd, e);
      NewRestReady(s, s1, sfd, tfd, es);
      NewPassMoves(s1, sfd, tfd, rest);
      var t := NewPass(s1, false, sfd, tfd, rest);
      assert t == NewPass(s, false, sfd, tfd, es);
      NewPassFrame(s1, false, sfd, tfd, rest, sfd, e.name);
      NewPassFrame(s1, false, sfd, tfd, rest, tfd, e.name);
      forall i | 0 <= i < |es| && FileAt(s, sfd, es[i].name)
        ensures es[i].name !in t.nodes[sfd].entries && es[i].name in t.nodes[tfd].entries &&
                t.nodes[tfd].entries[es[i].name] == s.nodes[sfd].entries[es[i].name]
      {
        if i > 0 {
          assert es[i] == rest[i - 1];
          SettledLater(s, s1, t, sfd, tfd, es[i].name);
        }
      }
      forall i | 0 <= i < |es| && es[i].name in s.nodes[sfd].entries && !FileAt(s, sfd, es[i].name)
        ensures KeepsEntry(s, t, sfd, es[i].name)
      {
        if i > 0 {
          assert es[i] == rest[i - 1];
          SettledLater(s, s1, t, sfd, tfd, es[i].name);
        }
      }
    }
  }

  /** A name the first step left alone ends the rest of the pass as it would have from the start. */
  lemma SettledLater(s: State, s1: State, t: State, sfd: int, tfd: int, n: string)
    requires IsDir(s, sfd) && IsDir(s, tfd) && KeepsNodes(s, s1)
    requires KeepsEntry(s, s1, sfd, n) && KeepsEntry(s, s1, tfd, n) && IsDir(t, sfd) && IsDir(t, tfd)
    requires FileAt(s1, sfd, n) ==>
               n !in t.nodes[sfd].entries && n in t.nodes[tfd].entries && t.nodes[tfd].entries[n] == s1.nodes[sfd].entries[n]
    requires n in s1.nodes[sfd].entries && !FileAt(s1, sfd, n) ==> KeepsEntry(s1, t, sfd, n)
    ensures FileAt(s, sfd, n) ==>
              n !in t.nodes[sfd].entries && n in t.nodes[tfd].entries && t.nodes[tfd].entries[n] == s.nodes[sfd].entries[n]
    ensures n in s.nodes[sfd].entries && !FileAt(s, sfd, n) ==> KeepsEntry(s, t, sfd, n)
  {
    if n in s.nodes[sfd].entries {
      var x := s.nodes[sfd].entries[n];
      assert x in s.nodes ==> (IsFile(s, x) <==> IsFile(s1, x));
    }
  }

  /** readdir's d_type is DTypeOf, which is honest about regular files. */
  lemma ListingHonest(s: State, d: int)
    requires IsDir(s, d)
    ensures forall i | 0 <= i < |Listing(s, d)| :: Honest(s, d, Listing(s, d)[i])
  {
  }

  /** Every entry of a directory appears once in its listing. */
  lemma ListingNames(s: State, d: int, n: string) returns (i: nat)
    requires IsDir(s, d) && OrderOk(s) && n in s.nodes[d].entries
    ensures var l := Listing(s, d);
            i < |l| && l[i].name == n && forall j, k | 0 <= j < k < |l| :: l[j].name != l[k].name
  {
    var names := s.order(s.nodes[d].entries.Keys + DotNames);
    assert Enumerates(names, s.nodes[d].entries.Keys + DotNames);
    assert n in names;
    i :| 0 <= i < |names| && names[i] == n;
  }

  /**
   * The new/ phase of a merge that is not a dry run: every regular file of
   * the source's new/ ends up under the same name, as the same inode, in
   * the target's new/, unless the target already had a directory or that
   * very file under the name; every other entry of the source's new/ stays.
   */
  lemma NewPhaseMovesAll(s: State, sourcefd: int, targetfd: int)
    requires Fresh(s) && OrderOk(s)
    requires NewPhase(s, sourcefd, targetfd, false).Some?
    requires var sfd := OpenAt(s, sourcefd, ["new"], false).value;
             var tfd := OpenAt(s, targetfd, ["new"], false).value;
             sfd != tfd && IsDir(s, tfd) && forall n | FileAt(s, sfd, n) :: Clear(s, sfd, tfd, n)
    ensures var sfd := OpenAt(s, sourcefd, ["new"], false).value;
            var tfd := OpenAt(s, targetfd, ["new"], false).value;
            var t := NewPhase(s, sourcefd, targetfd, false).value;
            IsDir(t, sfd) && IsDir(t, tfd) &&
            (forall n | FileAt(s, sfd, n) ::
               n !in t.nodes[sfd].entries && n in t.nodes[tfd].entries && t.nodes[tfd].entries[n] == s.nodes[sfd].entries[n]) &&
            (forall n | n in s.nodes[sfd].entries && !FileAt(s, sfd, n) :: KeepsEntry(s, t, sfd, n))
  {
    var sfd := OpenAt(s, sourcefd, ["new"], false).value;
    var tfd := OpenAt(s, targetfd, ["new"], false).value;
    var es := Listing(s, sfd);
    ListingHonest(s, sfd);
    assert forall i, j | 0 <= i < j < |es| :: es[i].name != es[j].name by {
      var names := s.order(s.nodes[sfd].entries.Keys + DotNames);
      assert Enumerates(names, s.nodes[sfd].entries.Keys + DotNames);
    }
    NewPassMoves(s, sfd, tfd, es);
    var t := NewPass(s, false, sfd, tfd, es);
    forall n | n in s.nodes[sfd].entries
      ensures FileAt(s, sfd, n) ==> n !in t.nodes[sfd].entries && n in t.nodes[tfd].entries && t.nodes[tfd].entries[n] == s.nodes[sfd].entries[n]
      ensures !FileAt(s, sfd, n) ==> KeepsEntry(s, t, sfd, n)
    {
      var i := ListingNames(s, sfd, n);
    }
  }

  datatype Halt = Running | Exited | Crashed

  /** The cur/ pass so far: the filesystem, the redirect folder once opened, the UIDL calls, and whether the process ended. */
  datatype Pass = Pass(s: State, rfd: Option<int>, sets: seq<UidlSet>, halt: Halt)

  /** What the cur/ pass works with: options, the POP3 flag, the descriptors, the source type and the target types. */
  datatype Ctx = Ctx(o: Options, pop3: bool, sfd: int, tfd: int, stype: Option<MaildirType>, targets: seq<TypeNode>)

  /**
   * Lines 345-398 for one entry.  A message for the target is moved and, with
   * --pop3-uidl, its UIDL is looked up through the source type (none detected:
   * the NULL `stype` is dereferenced) and set on every target type.  A message
   * for the redirect folder creates that folder first if it is not open yet
   * (failure exits the process).
   */
  function CurStep(p: Pass, c: Ctx, e: Dirent): (q: Pass)
    requires p.halt == Running
    ensures q.rfd == p.rfd || (p.rfd.None? && RouteOf(c.pop3, c.o, e.name) == ToRedirect && Movable(p.s, c.sfd, e))
    ensures q.halt == Crashed <==>
              Movable(p.s, c.sfd, e) && RouteOf(c.pop3, c.o, e.name) == ToTarget && c.o.uidl && c.stype.None?
    ensures q.halt == Exited ==> p.rfd.None? && RouteOf(c.pop3, c.o, e.name) == ToRedirect
    ensures RouteOf(c.pop3, c.o, e.name) == LeftBehind ==> q == p
  {
    if !Movable(p.s, c.sfd, e) then p
    else match RouteOf(c.pop3, c.o, e.name)
      case ToTarget =>
        var s1 := Move(p.s, c.o.dryRun, c.sfd, c.tfd, e.name);
        if !c.o.uidl then p.(s := s1)
        else if c.stype.None? then p.(s := s1, halt := Crashed)
        else if c.stype.value.getUidl.None? then p.(s := s1)
        else
          var key := UidlKey(e.name);
          (match GetUidlCall(c.stype.value.getUidl.value, key)
            case None => p.(s := s1)
            case Some(u) => if c.o.dryRun then p.(s := s1) else p.(s := s1, sets := p.sets + SetsFor(c.targets, key, u)))
      case ToRedirect =>
        if p.rfd.Some? then p.(s := Move(p.s, c.o.dryRun, c.sfd, p.rfd.value, e.name))
        else
          var cs := CreateSubSpec(p.s, c.tfd, c.o.redirect.value, c.o.dryRun);
          if cs.1.None? then p.(s := cs.0, halt := Exited)
          else p.(s := Move(cs.0, c.o.dryRun, c.sfd, cs.1.value, e.name), rfd := cs.1)
      case LeftBehind => p
  }

  /** The cur/ pass over the listing, stopping when the process ends. */
  function CurPass(p: Pass, c: Ctx, es: seq<Dirent>): Pass
    decreases |es|
  {
    if es == [] || p.halt != Running then p else CurPass(CurStep(p, c, es[0]), c, es[1..])
  }

  /** Lines 345-398 as the readdir loop over a listing of cur/, returning when the process would end. */
  method MoveCur(fs: FileSystem, c: Ctx, es: seq<Dirent>) returns (p: Pass)
    modifies fs
    ensures p == CurPass(Pass(old(fs.s), None, [], Running), c, es)
    ensures fs.s == p.s
  {
    var rfd: Option<int> := None;
    var sets: seq<UidlSet> := [];
    var i := 0;
    while i < |es|
      invariant i <= |es|
      invariant CurPass(Pass(old(fs.s), None, [], Running), c, es) == CurPass(Pass(fs.s, rfd, sets, Running), c, es[i..])
    {
      assert es[i..][0] == es[i] && es[i..][1..] == es[i + 1..];
      ghost var before := Pass(fs.s, rfd, sets, Running);
      var e := es[i];
      var regular := e.dtype == DT_REG;
      if e.dtype == DT_UNKNOWN {
        var st := FStatAt(fs.s, c.sfd, [e.name]);
        regular := st.Ok? && st.value.kind == Regular;
      }
      if regular {
        var route := RouteOf(c.pop3, c.o, e.name);
        if route == ToTarget {
          MaildirMove(fs, c.o.dryRun, c.sfd, c.tfd, e.name);
          if c.o.uidl {
            if c.stype.None? {
              p := Pass(fs.s, rfd, sets, Crashed);
              assert p == CurStep(before, c, e);
              return;
            }
            if c.stype.value.getUidl.Some? {
              var key := UidlKey(e.name);
              var u := GetUidlCall(c.stype.value.getUidl.value, key);
              if u.Some? && !c.o.dryRun {
                var calls := Broadcast(c.targets, key, u.value);
                sets := sets + calls;
              }
            }
          }
        } else if route == ToRedirect {
          if rfd.None? {
            var fd := CreateSub(fs, c.tfd, c.o.redirect.value, c.o.dryRun);
            if fd.None? {
              p := Pass(fs.s, rfd, sets, Exited);
              assert p == CurStep(before, c, e);
              return;
            }
            rfd := fd;
          }
          MaildirMove(fs, c.o.dryRun, c.sfd, rfd.value, e.name);
        }
      }
      assert Pass(fs.s, rfd, sets, Running) == CurStep(before, c, e);
      i := i + 1;
    }
    p := Pass(fs.s, rfd, sets, Running);
  }

  /** Dry runs: the cur/ pass changes no file and makes no UIDL call, whatever the routes. */
  lemma {:induction false} CurPassDry(p: Pass, c: Ctx, es: seq<Dirent>)
    requires c.o.dryRun
    ensures CurPass(p, c, es).s == p.s
    ensures CurPass(p, c, es).sets == p.sets
    decreases |es|
  {
    if es != [] && p.halt == Running {
      var q := CurStep(p, c, es[0]);
      assert q.s == p.s && q.sets == p.sets;
      CurPassDry(q, c, es[1..]);
    }
  }

  /** The redirect folder, once open, stays the one used: maildir_create_sub runs at most once per merge. */
  lemma {:induction false} CurPassKeepsRedirect(p: Pass, c: Ctx, es: seq<Dirent>)
    ensures p.rfd.Some? ==> CurPass(p, c, es).rfd == p.rfd
    ensures CurPass(p, c, es).rfd.Some? && p.rfd.None? ==> c.o.redirect.Some?
    decreases |es|
  {
    if es != [] && p.halt == Running {
      CurPassKeepsRedirect(CurStep(p, c, es[0]), c, es[1..]);
    }
  }

  /**
   * A pop3_set_uidl call is made only with --pop3-uidl outside a dry run,
   * on a target type that has the callback, for the key of a listed message
   * routed to the target, with the UIDL the source type reports for it.
   */
  ghost predicate Justified(c: Ctx, es: seq<Dirent>, x: UidlSet)
  {
    exists i | 0 <= i < |es| :: JustifiedBy(c, es[i], x)
  }

  /** The call `x` is one that the entry `e` gives rise to. */
  ghost predicate JustifiedBy(c: Ctx, e: Dirent, x: UidlSet)
  {
    c.o.uidl && !c.o.dryRun && c.stype.Some? && c.stype.value.getUidl.Some? &&
    x.node < |c.targets| && c.targets[x.node].t.setUidl.Some? &&
    GetUidlCall(c.stype.value.getUidl.value, x.basename) == Some(x.uidl) &&
    UidlKey(e.name) == x.basename && RouteOf(c.pop3, c.o, e.name) == ToTarget
  }

  /** One step of the cur/ pass only appends UIDL calls, each one due to its entry. */
  lemma StepSets(p: Pass, c: Ctx, e: Dirent)
    requires p.halt == Running
    ensures var q := CurStep(p, c, e);
            |p.sets| <= |q.sets| && q.sets[..|p.sets|] == p.sets &&
            forall k | |p.sets| <= k < |q.sets| :: JustifiedBy(c, e, q.sets[k])
  {
    var q := CurStep(p, c, e);
    if q.sets != p.sets {
      var key := UidlKey(e.name);
      var u := GetUidlCall(c.stype.value.getUidl.value, key).value;
      assert q.sets == p.sets + SetsFor(c.targets, key, u);
      forall k | |p.sets| <= k < |q.sets| ensures JustifiedBy(c, e, q.sets[k]) {
        var x := q.sets[k];
        assert x in SetsFor(c.targets, key, u);
        SetsForExact(c.targets, key, u, x);
      }
    }
  }

  /** The cur/ pass only appends UIDL calls, and each one it appends is justified by the listing. */
  lemma {:induction false} CurPassSets(p: Pass, c: Ctx, es: seq<Dirent>)
    ensures var q := CurPass(p, c, es);
            |p.sets| <= |q.sets| && q.sets[..|p.sets|] == p.sets &&
            forall k | |p.sets| <= k < |q.sets| :: Justified(c, es, q.sets[k])
    decreases |es|
  {
    if es != [] && p.halt == Running {
      var q := CurStep(p, c, es[0]);
      StepSets(p, c, es[0]);
      CurPassSets(q, c, es[1..]);
      var r := CurPass(q, c, es[1..]);
      assert r == CurPass(p, c, es);
      forall k | |p.sets| <= k < |r.sets| ensures Justified(c, es, r.sets[k]) {
        if k < |q.sets| {
          assert r.sets[k] == r.sets[..|q.sets|][k];
          assert JustifiedBy(c, es[0], r.sets[k]);
        } else {
          var i :| 0 <= i < |es[1..]| && JustifiedBy(c, es[1..][i], r.sets[k]);
          assert es[1..][i] == es[i + 1];
        }
      }
      assert r.sets[..|p.sets|] == r.sets[..|q.sets|][..|p.sets|];
    }
  }

  /** Without a redirect folder the cur/ pass keeps every node, and every entry whose name it does not list. */
  lemma {:induction false} CurPassFrame(p: Pass, c: Ctx, es: seq<Dirent>, d: int, n: string)
    requires c.o.redirect.None? && IsDir(p.s, d)
    requires forall i | 0 <= i < |es| :: es[i].name != n
    ensures KeepsNodes(p.s, CurPass(p, c, es).s)
    ensures KeepsEntry(p.s, CurPass(p, c, es).s, d, n)
    decreases |es|
  {
    if es != [] && p.halt == Running {
      var e := es[0];
      var q := CurStep(p, c, e);
      if Movable(p.s, c.sfd, e) && RouteOf(c.pop3, c.o, e.name) == ToTarget && !c.o.dryRun {
        RenameNodes(p.s, c.sfd, [e.name], c.tfd, [e.name], false);
        RenameFrame(p.s, c.sfd, [e.name], c.tfd, [e.name], false, d, n);
      }
      assert KeepsNodes(p.s, q.s) && KeepsEntry(p.s, q.s, d, n);
      CurPassFrame(q, c, es[1..], d, n);
    }
  }

  /** Without a redirect folder one step of the cur/ pass touches at most its own entry of the source, and none when it leaves the message behind. */
  lemma LeftBehindStep(p: Pass, c: Ctx, e: Dirent)
    requires c.o.redirect.None? && IsDir(p.s, c.sfd) && p.halt == Running
    ensures var q := CurStep(p, c, e);
            IsDir(q.s, c.sfd) && (RouteOf(c.pop3, c.o, e.name) == LeftBehind ==> q.s == p.s) &&
            forall n | n != e.name :: KeepsEntry(p.s, q.s, c.sfd, n)
  {
    var q := CurStep(p, c, e);
    if Movable(p.s, c.sfd, e) && RouteOf(c.pop3, c.o, e.name) == ToTarget && !c.o.dryRun {
      RenameNodes(p.s, c.sfd, [e.name], c.tfd, [e.name], false);
      forall n | n != e.name ensures KeepsEntry(p.s, q.s, c.sfd, n) {
        RenameFrame(p.s, c.sfd, [e.name], c.tfd, [e.name], false, c.sfd, n);
      }
    }
  }

  /**
   * Without a redirect folder, a message the routing leaves behind (seen,
   * POP3 target, no --pop3-merge-seen) keeps its entry in the source cur/.
   */
  lemma {:induction false} CurPassLeavesBehind(p: Pass, c: Ctx, es: seq<Dirent>)
    requires c.o.redirect.None? && IsDir(p.s, c.sfd)
    requires forall i, j | 0 <= i < j < |es| :: es[i].name != es[j].name
    ensures forall i | 0 <= i < |es| && RouteOf(c.pop3, c.o, es[i].name) == LeftBehind ::
              KeepsEntry(p.s, CurPass(p, c, es).s, c.sfd, es[i].name)
    decreases |es|
  {
    if es != [] && p.halt == Running {
      var e := es[0];
      var q := CurStep(p, c, e);
      var rest := es[1..];
      LeftBehindStep(p, c, e);
      forall i, j | 0 <= i < j < |rest| ensures rest[i].name != rest[j].name {
        assert rest[i] == es[i + 1] && rest[j] == es[j + 1];
      }
      CurPassLeavesBehind(q, c, rest);
      var r := CurPass(q, c, rest);
      assert r == CurPass(p, c, es);
      forall i | 0 <= i < |es| && RouteOf(c.pop3, c.o, es[i].name) == LeftBehind
        ensures KeepsEntry(p.s, r.s, c.sfd, es[i].name)
      {
        if i == 0 {
          forall j | 0 <= j < |rest| ensures rest[j].name != e.name {
            assert rest[j] == es[j + 1];
          }
          CurPassFrame(q, c, rest, c.sfd, e.name);
        } else {
          var n := es[i].name;
          assert es[i] == rest[i - 1] && n != e.name;
          assert KeepsEntry(p.s, q.s, c.sfd, n) && KeepsEntry(q.s, r.s, c.sfd, n);
        }
      }
    }
  }

  // ---------------------------------------------------------------------
  // maildir_merge

  datatype Outcome =
    | NotMaildir      // the source is not an openable maildir
    | DetectExit      // a detect callback exits the process
    | MultipleTypes   // more than one type detected: nothing done
    | OpenFailed      // a new/ or cur/ descriptor or listing could not be had
    | RedirectExit    // the redirect folder could not be made: exit(1)
    | Crash           // --pop3-uidl with no source type: NULL dereference
    | Merged

  /** The filesystem afterwards, how the merge ended, the UIDL calls and the source type's close call (with its data) if one was made. */
  datatype MergeResult = MergeResult(s: State, outcome: Outcome, sets: seq<UidlSet>, closed: Option<(CloseImpl, Option<Pvt>)>)

  /** Lines 292-321: the new/ pass, or None when a descriptor or the listing cannot be had. */
  function NewPhase(s: State, sourcefd: int, targetfd: int, dry: bool): Option<State>
  {
    match OpenAt(s, sourcefd, ["new"], false)
      case Err(_) => None
      case Ok(sfd) =>
        match OpenAt(s, targetfd, ["new"], false)
          case Err(_) => None
          case Ok(tfd) =>
            if !IsDir(s, sfd) then None
            else Some(NewPass(s, dry, sfd, tfd, Listing(s, sfd)))
  }

  /** Lines 335-399: the cur/ pass, or None when a descriptor or the listing cannot be had. */
  function CurPhase(s: State, sourcefd: int, targetfd: int, o: Options, pop3: bool,
                    stype: Option<MaildirType>, targets: seq<TypeNode>): Option<Pass>
  {
    match OpenAt(s, sourcefd, ["cur"], false)
      case Err(_) => None
      case Ok(sfd) =>
        match OpenAt(s, targetfd, ["cur"], false)
          case Err(_) => None
          case Ok(tfd) =>
            if !IsDir(s, sfd) then None
            else Some(CurPass(Pass(s, None, [], Running), Ctx(o, pop3, sfd, tfd, stype, targets), Listing(s, sfd)))
  }

  /** The source type's close call at `out:` (line 402). */
  function CloseOf(stype: Option<MaildirType>, pvt: Option<Pvt>): Option<(CloseImpl, Option<Pvt>)>
  {
    if stype.Some? && stype.value.close.Some? then Some((stype.value.close.value, pvt)) else None
  }

  /** maildir_merge(target, targetfd, target_types, source) of lines 248-412. */
  function MergeSpec(s: State, cwd: int, registry: seq<TypeNode>, targets: seq<TypeNode>, targetfd: int,
                     source: Path, o: Options): (r: MergeResult)
    requires AllCallable(targets)
    ensures r.outcome == MultipleTypes <==>
              MaildirFdAt(s, cwd, source).Some? && FindTypeSpec(s, cwd, source, registry).Some? &&
              |FindTypeSpec(s, cwd, source, registry).value| > 1
    ensures r.outcome == NotMaildir <==> MaildirFdAt(s, cwd, source).None?
    ensures r.outcome in {NotMaildir, DetectExit, MultipleTypes} ==> r.s == s && r.sets == [] && r.closed.None?
    ensures r.outcome == OpenFailed ==> r.sets == []
  {
    match MaildirFdAt(s, cwd, source)
      case None => MergeResult(s, NotMaildir, [], None)
      case Some(sourcefd) =>
        match FindTypeSpec(s, cwd, source, registry)
          case None => MergeResult(s, DetectExit, [], None)
          case Some(found) =>
            if |found| > 1 then MergeResult(s, MultipleTypes, [], None)
            else
              var stype := if found == [] then None else Some(found[0].t);
              var pvt := if stype.Some? && stype.value.open.Some? then Some(OpenCall(stype.value.open.value, source, sourcefd)) else None;
              Phases(s, sourcefd, targetfd, o, AnyPop3(s, targets), stype, CloseOf(stype, pvt), targets)
  }

  /** Lines 292-412: the new/ and cur/ passes of a detected source, then `out:`. */
  function Phases(s: State, sourcefd: int, targetfd: int, o: Options, pop3: bool, stype: Option<MaildirType>,
                  closed: Option<(CloseImpl, Option<Pvt>)>, targets: seq<TypeNode>): (r: MergeResult)
    ensures r.outcome !in {NotMaildir, DetectExit, MultipleTypes}
    ensures r.outcome == OpenFailed ==> r.sets == []
  {
    match NewPhase(s, sourcefd, targetfd, o.dryRun)
      case None => MergeResult(s, OpenFailed, [], closed)
      case Some(s1) =>
        match CurPhase(s1, sourcefd, targetfd, o, pop3, stype, targets)
          case None => MergeResult(s1, OpenFailed, [], closed)
          case Some(p) =>
            match p.halt
              case Exited => MergeResult(p.s, RedirectExit, p.sets, None)
              case Crashed => MergeResult(p.s, Crash, p.sets, None)
              case Running => MergeResult(p.s, Merged, p.sets, closed)
  }

  /** -n: the new/ phase, when it runs, leaves the state as it was. */
  lemma NewPhaseDry(s: State, sourcefd: int, targetfd: int)
    ensures var r := NewPhase(s, sourcefd, targetfd, true); r.Some? ==> r.value == s
  {
    var sfd := OpenAt(s, sourcefd, ["new"], false);
    var tfd := OpenAt(s, targetfd, ["new"], false);
    if sfd.Ok? && tfd.Ok? && IsDir(s, sfd.value) {
      NewPassDry(s, sfd.value, tfd.value, Listing(s, sfd.value));
    }
  }

  /** -n: the cur/ phase, when it runs, leaves the state as it was and makes no UIDL call. */
  lemma CurPhaseDry(s: State, sourcefd: int, targetfd: int, o: Options, pop3: bool,
                    stype: Option<MaildirType>, targets: seq<TypeNode>)
    requires o.dryRun
    ensures var r := CurPhase(s, sourcefd, targetfd, o, pop3, stype, targets);
            r.Some? ==> r.value.s == s && r.value.sets == []
  {
    var sfd := OpenAt(s, sourcefd, ["cur"], false);
    var tfd := OpenAt(s, targetfd, ["cur"], false);
    if sfd.Ok? && tfd.Ok? && IsDir(s, sfd.value) {
      CurPassDry(Pass(s, None, [], Running), Ctx(o, pop3, sfd.value, tfd.value, stype, targets), Listing(s, sfd.value));
    }
  }

  /** -n: the two passes change nothing and make no UIDL call. */
  lemma PhasesDry(s: State, sourcefd: int, targetfd: int, o: Options, pop3: bool, stype: Option<MaildirType>,
                  closed: Option<(CloseImpl, Option<Pvt>)>, targets: seq<TypeNode>)
    requires o.dryRun
    ensures Phases(s, sourcefd, targetfd, o, pop3, stype, closed, targets).s == s
    ensures Phases(s, sourcefd, targetfd, o, pop3, stype, closed, targets).sets == []
  {
    NewPhaseDry(s, sourcefd, targetfd);
    CurPhaseDry(s, sourcefd, targetfd, o, pop3, stype, targets);
  }

  /** -n: a dry-run merge renames, creates and changes nothing, and makes no UIDL call. */
  lemma MergeDryRun(s: State, cwd: int, registry: seq<TypeNode>, targets: seq<TypeNode>, targetfd: int,
                    source: Path, o: Options)
    requires AllCallable(targets) && o.dryRun
    ensures MergeSpec(s, cwd, registry, targets, targetfd, source, o).s == s
    ensures MergeSpec(s, cwd, registry, targets, targetfd, source, o).sets == []
  {
    var sourcefd := MaildirFdAt(s, cwd, source);
    var found := FindTypeSpec(s, cwd, source, registry);
    if sourcefd.Some? && found.Some? && |found.value| <= 1 {
      var stype := if found.value == [] then None else Some(found.value[0].t);
      var pvt := if stype.Some? && stype.value.open.Some? then Some(OpenCall(stype.value.open.value, source, sourcefd.value)) else None;
      PhasesDry(s, sourcefd.value, targetfd, o, AnyPop3(s, targets), stype, CloseOf(stype, pvt), targets);
    }
  }

  /** maildir_merge as the calls it makes. */
  method MergeFolder(fs: FileSystem, reg: Registry, cwd: int, targets: seq<TypeNode>, targetfd: int,
                     source: Path, o: Options) returns (r: MergeResult)
    requires AllCallable(targets)
    modifies fs
    ensures r == MergeSpec(old(fs.s), cwd, reg.types, targets, targetfd, source, o)
    ensures fs.s == r.s
  {
    var sourcefd := MaildirFdAt(fs.s, cwd, source);
    if sourcefd.None? {
      return MergeResult(fs.s, NotMaildir, [], None);
    }
    var found := reg.FindType(fs.s, cwd, source);
    if found.None? {
      return MergeResult(fs.s, DetectExit, [], None);
    }
    if |found.value| > 1 {
      return MergeResult(fs.s, MultipleTypes, [], None);
    }
    var stype: Option<MaildirType> := None;
    var pvt: Option<Pvt> := None;
    if found.value != [] {
      stype := Some(found.value[0].t);
      if stype.value.open.Some? {
        pvt := Some(OpenCall(stype.value.open.value, source, sourcefd.value));
      }
    }
    var pop3, _ := TargetIsPop3(fs.s, targets);
    r := MergePhases(fs, sourcefd.value, targetfd, o, pop3, stype, CloseOf(stype, pvt), targets);
  }

  /** Lines 292-412 as the calls they make. */
  method MergePhases(fs: FileSystem, sourcefd: int, targetfd: int, o: Options, pop3: bool, stype: Option<MaildirType>,
                     closed: Option<(CloseImpl, Option<Pvt>)>, targets: seq<TypeNode>) returns (r: MergeResult)
    modifies fs
    ensures r == Phases(old(fs.s), sourcefd, targetfd, o, pop3, stype, closed, targets)
    ensures fs.s == r.s
  {
    var ok := RunNewPhase(fs, sourcefd, targetfd, o.dryRun);
    if !ok {
      return MergeResult(fs.s, OpenFailed, [], closed);
    }
    var cur := RunCurPhase(fs, sourcefd, targetfd, o, pop3, stype, targets);
    if cur.None? {
      return MergeResult(fs.s, OpenFailed, [], closed);
    }
    var p := cur.value;
    match p.halt
      case Exited => r := MergeResult(p.s, RedirectExit, p.sets, None);
      case Crashed => r := MergeResult(p.s, Crash, p.sets, None);
      case Running => r := MergeResult(p.s, Merged, p.sets, closed);
  }

  /** Lines 292-333: open both new/ directories and run the new/ pass; false when a descriptor cannot be had. */
  method RunNewPhase(fs: FileSystem, sourcefd: int, targetfd: int, dry: bool) returns (ok: bool)
    modifies fs
    ensures ok <==> NewPhase(old(fs.s), sourcefd, targetfd, dry).Some?
    ensures ok ==> fs.s == NewPhase(old(fs.s), sourcefd, targetfd, dry).value
    ensures !ok ==> fs.s == old(fs.s)
  {
    var sfd := OpenAt(fs.s, sourcefd, ["new"], false);
    if sfd.Err? {
      return false;
    }
    var tfd := OpenAt(fs.s, targetfd, ["new"], false);
    if tfd.Err? || !IsDir(fs.s, sfd.value) {
      return false;
    }
    MoveNew(fs, dry, sfd.value, tfd.value, Listing(fs.s, sfd.value));
    return true;
  }

  /** Lines 335-399: open both cur/ directories and run the cur/ pass; None when a descriptor cannot be had. */
  method RunCurPhase(fs: FileSystem, sourcefd: int, targetfd: int, o: Options, pop3: bool,
                     stype: Option<MaildirType>, targets: seq<TypeNode>) returns (r: Option<Pass>)
    modifies fs
    ensures r == CurPhase(old(fs.s), sourcefd, targetfd, o, pop3, stype, targets)
    ensures r.Some? ==> fs.s == r.value.s
    ensures r.None? ==> fs.s == old(fs.s)
  {
    var sfd := OpenAt(fs.s, sourcefd, ["cur"], false);
    if sfd.Err? {
      return None;
    }
    var tfd := OpenAt(fs.s, targetfd, ["cur"], false);
    if tfd.Err? || !IsDir(fs.s, sfd.value) {
      return None;
    }
    var p := MoveCur(fs, Ctx(o, pop3, sfd.value, tfd.value, stype, targets), Listing(fs.s, sfd.value));
    return Some(p);
  }

  // ---------------------------------------------------------------------
  // main

  /** How the process ends: an exit status, or the NULL dereference of line 364. */
  datatype Ending = ExitStatus(code: int) | Segfault

  /** The filesystem afterwards, how the process ended, the UIDL calls and the close calls made, in order. */
  datatype RunResult = RunResult(s: State, ending: Ending, sets: seq<UidlSet>, closes: seq<(CloseImpl, Option<Pvt>)>)

  /** A type whose is_pop3 is Courier's gets Courier's data from its own open. */
  predicate Coherent(t: MaildirType)
  {
    t.isPop3 == Some(CourierIsPop3) ==> t.open == Some(CourierOpen)
  }

  predicate AllCoherent(list: seq<TypeNode>)
  {
    forall i | 0 <= i < |list| :: Coherent(list[i].t)
  }

  /** Both shipped backends are coherent. */
  lemma ShippedCoherent()
    ensures Coherent(Courier.Descriptor) && Coherent(Dovecot.Descriptor)
  {
  }

  /** The types found for a folder are registered types, fresh with no data. */
  lemma FoundCoherent(s: State, cwd: int, folder: Path, registry: seq<TypeNode>)
    requires AllCoherent(registry) && FindTypeSpec(s, cwd, folder, registry).Some?
    ensures var found := FindTypeSpec(s, cwd, folder, registry).value;
            AllCoherent(found) && forall i | 0 <= i < |found| :: found[i].pvt.None?
  {
    var found := FindTypeSpec(s, cwd, folder, registry).value;
    forall i | 0 <= i < |found| ensures Coherent(found[i].t) && found[i].pvt.None? {
      FindTypeExact(s, cwd, folder, registry, found[i].t);
    }
  }

  /** Lines 480-484 for one node: ti->pvt = open(target, targetfd) where the type has an open callback. */
  function OpenNode(n: TypeNode, target: Path, targetfd: int): TypeNode
  {
    if n.t.open.Some? then n.(pvt := Some(OpenCall(n.t.open.value, target, targetfd))) else n
  }

  function OpenTargets(found: seq<TypeNode>, target: Path, targetfd: int): (r: seq<TypeNode>)
    decreases |found|
  {
    if found == [] then [] else [OpenNode(found[0], target, targetfd)] + OpenTargets(found[1..], target, targetfd)
  }

  /**
   * After the open loop, each target node keeps its type and holds that
   * type's own data for the target (or what it had, without an open
   * callback), so every is_pop3 call gets data it can use.
   */
  lemma {:induction false} OpenTargetsCallable(found: seq<TypeNode>, target: Path, targetfd: int)
    requires AllCoherent(found)
    requires forall i | 0 <= i < |found| :: found[i].pvt.None?
    ensures var r := OpenTargets(found, target, targetfd);
            |r| == |found| && AllCallable(r) &&
            forall i | 0 <= i < |r| :: r[i].t == found[i].t &&
              (r[i].pvt.Some? <==> found[i].t.open.Some?) &&
              (r[i].pvt.Some? ==> Fits(r[i].t, r[i].pvt.value) && r[i].pvt.value.folder == target &&
                                  r[i].pvt.value.dirfd == targetfd)
    decreases |found|
  {
    if found != [] {
      var rest := found[1..];
      forall i | 0 <= i < |rest| ensures Coherent(rest[i].t) && rest[i].pvt.None? {
        assert rest[i] == found[i + 1];
      }
      OpenTargetsCallable(rest, target, targetfd);
      var r := OpenTargets(found, target, targetfd);
      forall i | 0 <= i < |r|
        ensures Callable(r[i]) && r[i].t == found[i].t && (r[i].pvt.Some? <==> found[i].t.open.Some?) &&
                (r[i].pvt.Some? ==> Fits(r[i].t, r[i].pvt.value) && r[i].pvt.value.folder == target &&
                                    r[i].pvt.value.dirfd == targetfd)
      {
        if i > 0 {
          assert r[i] == OpenTargets(rest, target, targetfd)[i - 1];
          assert found[i] == rest[i - 1];
        } else {
          assert Coherent(found[0].t);
        }
      }
    }
  }

  /** Lines 489-492: one close call per target node whose type has close, with its data (NULL included). */
  function TargetCloses(targets: seq<TypeNode>): (r: seq<(CloseImpl, Option<Pvt>)>)
    decreases |targets|
  {
    if targets == [] then []
    else (if targets[0].t.close.Some? then [(targets[0].t.close.value, targets[0].pvt)] else []) +
         TargetCloses(targets[1..])
  }

  /** How a merge's outcome ends the process, if it does: detect's exit(1), exit(1) at line 390, or the crash. */
  function StopOf(outcome: Outcome): (e: Option<Ending>)
    ensures e.Some? <==> outcome in {DetectExit, RedirectExit, Crash}
  {
    match outcome
      case DetectExit => Some(ExitStatus(1))
      case RedirectExit => Some(ExitStatus(1))
      case Crash => Some(Segfault)
      case _ => None
  }

  /** The merges so far: the filesystem, the ending if the process ended, the UIDL calls and the close calls. */
  datatype Progress = Progress(s: State, stop: Option<Ending>, sets: seq<UidlSet>, closes: seq<(CloseImpl, Option<Pvt>)>)

  /** Lines 486-487: maildir_merge on each source in turn, until one ends the process. */
  function MergeAll(p: Progress, cwd: int, registry: seq<TypeNode>, targets: seq<TypeNode>, targetfd: int,
                    sources: seq<Path>, o: Options): Progress
    requires AllCallable(targets)
    decreases |sources|
  {
    if sources == [] || p.stop.Some? then p
    else
      var r := MergeSpec(p.s, cwd, registry, targets, targetfd, sources[0], o);
      var q := Progress(r.s, StopOf(r.outcome), p.sets + r.sets,
                        p.closes + if r.closed.Some? then [r.closed.value] else []);
      MergeAll(q, cwd, registry, targets, targetfd, sources[1..], o)
  }

  /**
   * main(argc, argv) after option parsing: `args` are the folders, target
   * first.  The usage errors and an unusable target exit 1 before any merge;
   * a detect callback exits 1; without types the target is used as a bare
   * maildir only with --force.
   */
  function RunSpec(s: State, cwd: int, registry: seq<TypeNode>, o: Options, force: bool, args: seq<Path>): (r: RunResult)
    requires AllCoherent(registry)
    ensures o.mergeSeen && o.redirect.Some? ==> r == RunResult(s, ExitStatus(1), [], [])
    ensures r.ending == ExitStatus(0) ==>
              !(o.mergeSeen && o.redirect.Some?) && |args| > 0 && MaildirFdAt(s, cwd, args[0]).Some? &&
              FindTypeSpec(s, cwd, args[0], registry).Some? && (force || FindTypeSpec(s, cwd, args[0], registry).value != [])
  {
    if o.mergeSeen && o.redirect.Some? then RunResult(s, ExitStatus(1), [], [])
    else if args == [] then RunResult(s, ExitStatus(1), [], [])
    else match MaildirFdAt(s, cwd, args[0])
      case None => RunResult(s, ExitStatus(1), [], [])
      case Some(targetfd) =>
        match FindTypeSpec(s, cwd, args[0], registry)
          case None => RunResult(s, ExitStatus(1), [], [])
          case Some(found) =>
            if found == [] && !force then RunResult(s, ExitStatus(1), [], [])
            else
              FoundCoherent(s, cwd, args[0], registry);
              OpenTargetsCallable(found, args[0], targetfd);
              var targets := OpenTargets(found, args[0], targetfd);
              var m := MergeAll(Progress(s, None, [], []), cwd, registry, targets, targetfd, args[1..], o);
              if m.stop.Some? then RunResult(m.s, m.stop.value, m.sets, m.closes)
              else RunResult(m.s, ExitStatus(0), m.sets, m.closes + TargetCloses(targets))
  }

  /** The close calls of lines 489-492: exactly the target nodes whose type has close, each with its own data. */
  lemma {:induction false} TargetClosesExact(targets: seq<TypeNode>, c: CloseImpl, pvt: Option<Pvt>)
    ensures (c, pvt) in TargetCloses(targets) <==>
            exists i | 0 <= i < |targets| :: targets[i].t.close == Some(c) && targets[i].pvt == pvt
    ensures |TargetCloses(targets)| <= |targets|
    decreases |targets|
  {
    if targets != [] {
      var rest := targets[1..];
      TargetClosesExact(rest, c, pvt);
      if exists i | 0 <= i < |targets| :: targets[i].t.close == Some(c) && targets[i].pvt == pvt {
        var i :| 0 <= i < |targets| && targets[i].t.close == Some(c) && targets[i].pvt == pvt;
        if i > 0 {
          assert rest[i - 1] == targets[i];
        }
      }
      if (c, pvt) in TargetCloses(rest) {
        var i :| 0 <= i < |rest| && rest[i].t.close == Some(c) && rest[i].pvt == pvt;
        assert targets[i + 1] == rest[i];
      }
    }
  }

  /** Dry runs of all the merges change nothing and make no UIDL call. */
  lemma {:induction false} MergeAllDry(p: Progress, cwd: int, registry: seq<TypeNode>, targets: seq<TypeNode>, targetfd: int,
                                       sources: seq<Path>, o: Options)
    requires AllCallable(targets) && o.dryRun
    ensures MergeAll(p, cwd, registry, targets, targetfd, sources, o).s == p.s
    ensures MergeAll(p, cwd, registry, targets, targetfd, sources, o).sets == p.sets
    decreases |sources|
  {
    if sources != [] && p.stop.None? {
      MergeDryRun(p.s, cwd, registry, targets, targetfd, sources[0], o);
      var r := MergeSpec(p.s, cwd, registry, targets, targetfd, sources[0], o);
      var q := Progress(r.s, StopOf(r.outcome), p.sets + r.sets,
                        p.closes + if r.closed.Some? then [r.closed.value] else []);
      assert p.sets + r.sets == p.sets;
      MergeAllDry(q, cwd, registry, targets, targetfd, sources[1..], o);
    }
  }

  /** maildirmerge -n leaves the filesystem as it was and sets no UIDL, however it ends. */
  lemma RunDryRun(s: State, cwd: int, registry: seq<TypeNode>, o: Options, force: bool, args: seq<Path>)
    requires AllCoherent(registry) && o.dryRun
    ensures RunSpec(s, cwd, registry, o, force, args).s == s
    ensures RunSpec(s, cwd, registry, o, force, args).sets == []
  {
    if !(o.mergeSeen && o.redirect.Some?) && args != [] && MaildirFdAt(s, cwd, args[0]).Some? &&
       FindTypeSpec(s, cwd, args[0], registry).Some? {
      var targetfd := MaildirFdAt(s, cwd, args[0]).value;
      var found := FindTypeSpec(s, cwd, args[0], registry).value;
      FoundCoherent(s, cwd, args[0], registry);
      OpenTargetsCallable(found, args[0], targetfd);
      var targets := OpenTargets(found, args[0], targetfd);
      MergeAllDry(Progress(s, None, [], []), cwd, registry, targets, targetfd, args[1..], o);
    }
  }

  /** Lines 480-484: the open loop over the target types. */
  method OpenTargetList(found: seq<TypeNode>, target: Path, targetfd: int) returns (targets: seq<TypeNode>)
    ensures targets == OpenTargets(found, target, targetfd)
  {
    targets := [];
    var k := 0;
    while k < |found|
      invariant k <= |found|
      invariant OpenTargets(found, target, targetfd) == targets + OpenTargets(found[k..], target, targetfd)
    {
      assert found[k..][1..] == found[k + 1..];
      targets := targets + [OpenNode(found[k], target, targetfd)];
      k := k + 1;
    }
  }

  /** Lines 486-487: the loop over the source folders. */
  method MergeSources(fs: FileSystem, reg: Registry, cwd: int, targets: seq<TypeNode>, targetfd: int,
                      sources: seq<Path>, o: Options) returns (p: Progress)
    requires AllCallable(targets)
    modifies fs
    ensures p == MergeAll(Progress(old(fs.s), None, [], []), cwd, reg.types, targets, targetfd, sources, o)
    ensures fs.s == p.s
  {
    p := Progress(fs.s, None, [], []);
    var i := 0;
    while i < |sources| && p.stop.None?
      invariant i <= |sources| && fs.s == p.s
      invariant MergeAll(Progress(old(fs.s), None, [], []), cwd, reg.types, targets, targetfd, sources, o) ==
                MergeAll(p, cwd, reg.types, targets, targetfd, sources[i..], o)
    {
      assert sources[i..][0] == sources[i] && sources[i..][1..] == sources[i + 1..];
      var m := MergeFolder(fs, reg, cwd, targets, targetfd, sources[i], o);
      p := Progress(m.s, StopOf(m.outcome), p.sets + m.sets, p.closes + if m.closed.Some? then [m.closed.value] else []);
      i := i + 1;
    }
  }

  /** Lines 489-492: the close loop over the target types. */
  method CloseTargets(targets: seq<TypeNode>) returns (closes: seq<(CloseImpl, Option<Pvt>)>)
    ensures closes == TargetCloses(targets)
  {
    closes := [];
    var j := 0;
    while j < |targets|
      invariant j <= |targets|
      invariant TargetCloses(targets) == closes + TargetCloses(targets[j..])
    {
      assert targets[j..][1..] == targets[j + 1..];
      if targets[j].t.close.Some? {
        closes := closes + [(targets[j].t.close.value, targets[j].pvt)];
      }
      j := j + 1;
    }
  }

  /** main as the calls it makes. */
  method Run(fs: FileSystem, reg: Registry, cwd: int, o: Options, force: bool, args: seq<Path>) returns (r: RunResult)
    requires AllCoherent(reg.types)
    modifies fs
    ensures r == RunSpec(old(fs.s), cwd, reg.types, o, force, args)
    ensures fs.s == r.s
  {
    if o.mergeSeen && o.redirect.Some? {
      return RunResult(fs.s, ExitStatus(1), [], []);
    }
    if args == [] {
      return RunResult(fs.s, ExitStatus(1), [], []);
    }
    var targetfd := MaildirFdAt(fs.s, cwd, args[0]);
    if targetfd.None? {
      return RunResult(fs.s, ExitStatus(1), [], []);
    }
    var found := reg.FindType(fs.s, cwd, args[0]);
    if found.None? || (found.value == [] && !force) {
      return RunResult(fs.s, ExitStatus(1), [], []);
    }
    FoundCoherent(fs.s, cwd, args[0], reg.types);
    OpenTargetsCallable(found.value, args[0], targetfd.value);
    var targets := OpenTargetList(found.value, args[0], targetfd.value);
    var p := MergeSources(fs, reg, cwd, targets, targetfd.value, args[1..], o);
    if p.stop.Some? {
      return RunResult(p.s, p.stop.value, p.sets, p.closes);
    }
    var closes := CloseTargets(targets);
    r := RunResult(p.s, ExitStatus(0), p.sets, p.closes + closes);
  }
}

/**
 * The Dovecot backend (src/server_dovecot.c): detection, the list of
 * Dovecot's metadata files, and the IMAP subscription file, a sequence of
 * lines read through a 2048-byte fgets buffer and extended by writing a
 * temporary copy and renaming it over the original.
 */
module Dovecot {
  import opened Wrappers
  import opened Strings
  import opened Fs
  import opened TypeRecord

  const UidDb := "courierimapuiddb"
  const SubsName := "subscriptions"
  const TempPrefix := "dovecot-subscriptions-"

  /** The size of the line buffer handed to fgets. */
  const LineBufSize := 2048

  /** dovecot_detect(folder): None when the folder cannot be opened (exit 1), otherwise whether Courier's uid database is there. */
  function Detect(s: State, cwd: int, folder: Path): (r: Option<bool>)
    ensures r.None? <==> OpenAt(s, cwd, folder, false).Err?
    ensures r.Some? ==> (r.value <==> FStatAt(s, OpenAt(s, cwd, folder, false).value, [UidDb]).Ok?)
  {
    match OpenAt(s, cwd, folder, false)
      case Err(_) => None
      case Ok(d) => Some(FStatAt(s, d, [UidDb]).Ok?)
  }

  /** dovecot_metafiles: the index, cache, log, keyword and uid files Dovecot keeps beside the mail. */
  const Metafiles: seq<string> := [
    "dovecot.index", "dovecot.index.cache", "dovecot.index.log", "dovecot.index.log.2",
    "dovecot-keywords", "dovecot.list.index", "dovecot.list.index.log",
    "dovecot-uidlist", "dovecot-uidvalidity"]

  /** Nine distinct names. */
  lemma MetafilesDistinct()
    ensures |Metafiles| == 9
    ensures forall i, j | 0 <= i < j < |Metafiles| :: Metafiles[i] != Metafiles[j]
  {
  }

  /** dovecot_open: the folder, the descriptor, and no UIDL list yet. */
  function Open(folder: Path, dirfd: int): (p: Pvt)
    ensures p.DovecotData? && p.folder == folder && p.dirfd == dirfd && p.uidl == []
  {
    DovecotData(folder, dirfd, [])
  }

  /** dovecot_is_pop3: never; POP3 state follows IMAP under Dovecot. */
  predicate IsPop3(p: Pvt)
  {
    false
  }

  /** The descriptor registered at start-up. */
  const Descriptor := MaildirType(
    "Dovecot", DovecotDetect, Some(Metafiles), Some(DovecotOpen), Some(DovecotIsPop3),
    None, None, Some(DovecotIsSubscribed), Some(DovecotSubscribe), Some(DovecotClose))

  // ---------------------------------------------------------------------
  // The subscription file as text

  /** How much of `t` one fgets call reads: up to and including the first newline, at most 2047 bytes. */
  function ChunkLen(t: string): (k: nat)
    requires t != []
    ensures 1 <= k <= |t| && k <= LineBufSize - 1
  {
    var upto := match IndexOf(t, '\n') case Some(i) => i + 1 case None => |t|;
    if upto < LineBufSize - 1 then upto else LineBufSize - 1
  }

  /** A buffer as strcmp sees it once strchr has cut it at its newline: up to the first NUL or newline. */
  function LineOf(chunk: string): string
  {
    Before(Before(chunk, '\0'), '\n')
  }

  /** Whether the fgets loop over `t` meets a buffer equal to `name`. */
  predicate Listed(t: string, name: string)
    decreases |t|
  {
    t != [] && (LineOf(t[..ChunkLen(t)]) == name || Listed(t[ChunkLen(t)..], name))
  }

  /** The lines of `t`, split at each newline; a final line may lack its newline. */
  function Lines(t: string): (ls: seq<string>)
    decreases |t|
  {
    if t == [] then []
    else match IndexOf(t, '\n')
      case None => [t]
      case Some(i) => [t[..i]] + Lines(t[i + 1..])
  }

  /** Every line fits the buffer together with its newline and the terminating NUL. */
  predicate LinesFit(t: string)
  {
    forall i | 0 <= i < |Lines(t)| :: |Lines(t)[i]| <= LineBufSize - 2
  }

  /** A line that fits is read by one fgets call and compared without its newline. */
  lemma ChunkIsLine(t: string, i: nat)
    requires '\0' !in t && IndexOf(t, '\n') == Some(i) && i <= LineBufSize - 2
    ensures ChunkLen(t) == i + 1 && LineOf(t[..i + 1]) == t[..i]
  {
    var chunk := t[..i + 1];
    BeforeIs(chunk, '\0', |chunk|);
    assert chunk[..|chunk|] == chunk;
    assert chunk[..i] == t[..i];
    BeforeIs(chunk, '\n', i);
  }

  /** A last line without newline that fits is read whole. */
  lemma ChunkIsLastLine(t: string)
    requires t != [] && '\0' !in t && IndexOf(t, '\n').None? && |t| <= LineBufSize - 2
    ensures ChunkLen(t) == |t| && t[..ChunkLen(t)] == t && LineOf(t) == t
  {
    BeforeIs(t, '\0', |t|);
    BeforeIs(t, '\n', |t|);
    assert t[..|t|] == t;
  }

  /** When no line outgrows the buffer and there is no NUL byte, the loop finds exactly the lines of the file. */
  lemma {:induction false} ListedIsLine(t: string, name: string)
    requires '\0' !in t && LinesFit(t)
    ensures Listed(t, name) <==> name in Lines(t)
    decreases |t|
  {
    if t != [] {
      match IndexOf(t, '\n')
      case None =>
        assert Lines(t) == [t];
        assert Lines(t)[0] == t;
        ChunkIsLastLine(t);
        assert Listed(t, name) == (t == name);
      case Some(i) =>
        LinesRest(t, i);
        ListedIsLine(t[i + 1..], name);
        ListedCons(t, name, i);
    }
  }

  /** After the first line, the rest of the text still has no NUL byte and lines that fit, and the first line fits. */
  lemma LinesRest(t: string, i: nat)
    requires '\0' !in t && LinesFit(t) && IndexOf(t, '\n') == Some(i)
    ensures '\0' !in t[i + 1..] && LinesFit(t[i + 1..]) && i <= LineBufSize - 2
    ensures Lines(t) == [t[..i]] + Lines(t[i + 1..])
  {
    LinesCons(t, i);
    FitsSplit(Lines(t), t[..i], Lines(t[i + 1..]));
    NoCharAfter(t, '\0', i + 1);
  }

  /** A list of lines that fit, split into its first line and the rest. */
  lemma FitsSplit(ls: seq<string>, head: string, rest: seq<string>)
    requires ls == [head] + rest && forall j | 0 <= j < |ls| :: |ls[j]| <= LineBufSize - 2
    ensures |head| <= LineBufSize - 2 && forall j | 0 <= j < |rest| :: |rest[j]| <= LineBufSize - 2
  {
    assert ls[0] == head;
    forall j | 0 <= j < |rest|
      ensures |rest[j]| <= LineBufSize - 2
    {
      assert rest[j] == ls[j + 1];
    }
  }

  /** A character missing from text is missing from every suffix of it. */
  lemma NoCharAfter(t: string, c: char, k: nat)
    requires c !in t && k <= |t|
    ensures c !in t[k..]
  {
  }

  /** One step of the fgets loop over a first line that fits. */
  lemma ListedCons(t: string, name: string, i: nat)
    requires '\0' !in t && IndexOf(t, '\n') == Some(i) && i <= LineBufSize - 2
    requires Lines(t) == [t[..i]] + Lines(t[i + 1..])
    ensures Listed(t, name) == (t[..i] == name || Listed(t[i + 1..], name))
    ensures (name in Lines(t)) == (name == t[..i] || name in Lines(t[i + 1..]))
  {
    ChunkIsLine(t, i);
  }

  /** A single line with its newline. */
  lemma OneLine(line: string)
    requires '\n' !in line
    ensures Lines(line + "\n") == [line]
  {
    var u := line + "\n";
    assert u[..|line|] == line;
    IndexOfIs(u, '\n', |line|);
    assert u[|line| + 1..] == [];
  }

  /** Text whose first newline is at `i` splits there. */
  lemma LinesCons(t: string, i: nat)
    requires IndexOf(t, '\n') == Some(i)
    ensures Lines(t) == [t[..i]] + Lines(t[i + 1..])
  {
  }

  /** Appending a line to text that is empty or ends in a newline adds exactly that line. */
  lemma LinesAppend(t: string, line: string)
    requires t == [] || t[|t| - 1] == '\n'
    requires '\n' !in line
    ensures Lines(t + line + "\n") == Lines(t) + [line]
  {
    assert t + line + "\n" == t + (line + "\n");
    LinesAppendTail(t, line, line + "\n");
  }

  /** LinesAppend with the appended line and its newline as one piece `tail`. */
  lemma {:induction false} LinesAppendTail(t: string, line: string, tail: string)
    requires t == [] || t[|t| - 1] == '\n'
    requires '\n' !in line && tail == line + "\n"
    ensures Lines(t + tail) == Lines(t) + [line]
    decreases |t|
  {
    if t == [] {
      assert t + tail == tail;
      OneLine(line);
    } else {
      var i := LastIsNewline(t);
      var r := t[i + 1..];
      IndexOfConcat(t, tail, '\n');
      SplitAfter(t, tail, i);
      LinesAppendTail(r, line, tail);
      calc {
        Lines(t + tail);
        { LinesCons(t + tail, i); }
        [(t + tail)[..i]] + Lines((t + tail)[i + 1..]);
        [t[..i]] + (Lines(r) + [line]);
        { ConcatAssoc([t[..i]], Lines(r), [line]); }
        ([t[..i]] + Lines(r)) + [line];
        { LinesCons(t, i); }
        Lines(t) + [line];
      }
    }
  }

  /** Text ending in a newline has a first newline, and what follows it is empty or ends in a newline too. */
  lemma LastIsNewline(t: string) returns (i: nat)
    requires t != [] && t[|t| - 1] == '\n'
    ensures IndexOf(t, '\n') == Some(i)
    ensures var r := t[i + 1..]; r == [] || r[|r| - 1] == '\n'
  {
    assert t[|t| - 1] in t;
    i := IndexOf(t, '\n').value;
  }

  lemma ConcatAssoc(a: seq<string>, b: seq<string>, c: seq<string>)
    ensures a + (b + c) == (a + b) + c
  {
  }

  /** Cutting `t + tail` around a position `i` of `t`. */
  lemma SplitAfter(t: string, tail: string, i: nat)
    requires i < |t|
    ensures (t + tail)[..i] == t[..i] && (t + tail)[i + 1..] == t[i + 1..] + tail
  {
  }

  /**
   * After a subscription is appended, the loop finds it, and it still finds
   * every name it found before, as long as the old text was empty or ended
   * in a newline and every line fits the buffer.
   */
  lemma AppendedIsListed(t: string, name: string, other: string)
    requires t == [] || t[|t| - 1] == '\n'
    requires '\0' !in t && LinesFit(t)
    requires '\n' !in name && '\0' !in name && |name| <= LineBufSize - 2
    ensures Listed(t + name + "\n", name)
    ensures Listed(t, other) ==> Listed(t + name + "\n", other)
  {
    var u := t + name + "\n";
    LinesAppend(t, name);
    assert '\0' !in u;
    assert LinesFit(u) by {
      forall j | 0 <= j < |Lines(u)|
        ensures |Lines(u)[j]| <= LineBufSize - 2
      {
        if j < |Lines(t)| {
          assert Lines(u)[j] == Lines(t)[j];
        }
      }
    }
    ListedIsLine(u, name);
    ListedIsLine(u, other);
    ListedIsLine(t, other);
    assert Lines(u)[|Lines(t)|] == name;
  }

  /** The fgets loop of dovecot_imap_is_subscribed over the file's text. */
  method ScanLines(t: string, name: string) returns (found: bool)
    ensures found == Listed(t, name)
  {
    var rest := t;
    while rest != []
      invariant Listed(t, name) == Listed(rest, name)
      decreases |rest|
    {
      var k := ChunkLen(rest);
      var line := LineOf(rest[..k]);
      if line == name {
        return true;
      }
      rest := rest[k..];
    }
    return false;
  }

  // ---------------------------------------------------------------------
  // The subscription file in the folder

  /** What fgets reads from `subscriptions`: None when it cannot be opened; an unreadable kind reads as nothing. */
  function SubscriptionsText(s: State, dirfd: int): Option<string>
  {
    match OpenAt(s, dirfd, [SubsName], false)
      case Err(_) => None
      case Ok(f) => match ReadAll(s, f)
        case Err(_) => Some([])
        case Ok(b) => Some(ToText(b))
  }

  /** dovecot_imap_is_subscribed: 1 when some line of the file is `fldrname`; a missing or unopenable file gives 0. */
  predicate Subscribed(s: State, p: Pvt, fldrname: string)
  {
    match SubscriptionsText(s, p.dirfd)
      case None => false
      case Some(t) => Listed(t, fldrname)
  }

  method IsSubscribed(s: State, p: Pvt, fldrname: string) returns (r: bool)
    requires p.DovecotData?
    ensures r == Subscribed(s, p, fldrname)
    ensures SubscriptionsText(s, p.dirfd).None? ==> !r
  {
    var text := SubscriptionsText(s, p.dirfd);
    if text.None? {
      return false;
    }
    r := ScanLines(text.value, fldrname);
  }

  /** Where a subscribe ends up: installed, or one of the early returns. */
  datatype SubscribeOutcome = Installed | OpenFailed | TempFailed | CopyFailed | RenameFailed | DrawsExhausted

  /** The temporary name made from one rand() draw. */
  function TempPath(r: nat): Path
  {
    ["tmp", TempPrefix + Decimal(r)]
  }

  /** A temporary name is neither `tmp` nor `subscriptions`. */
  lemma TempNameApart(r: nat)
    ensures var nm := TempPrefix + Decimal(r);
            TempPath(r) == ["tmp", nm] && nm != "tmp" && nm != SubsName
  {
    var nm := TempPrefix + Decimal(r);
    assert |nm| > |SubsName| > 3;
  }

  /** The bytes the temporary copy starts from: the old file's, or none when there is no file. */
  function Prior(s: State, dirfd: int): seq<Byte>
  {
    match OpenAt(s, dirfd, [SubsName], false)
      case Err(_) => []
      case Ok(f) => match ReadAll(s, f) case Ok(b) => b case Err(_) => []
  }

  /** The sendfile loop: copy `data` to the file open as `t`, in pieces of at most 16384 bytes. */
  method CopyInto(fs: FileSystem, t: int, data: seq<Byte>)
    requires IsFile(fs.s, t)
    modifies fs
    ensures fs.s == old(fs.s).(nodes := old(fs.s).nodes[t := File(old(fs.s).nodes[t].data + data, old(fs.s).nodes[t].meta)])
  {
    ghost var s0 := fs.s;
    var pos := 0;
    assert s0.nodes[t := File(s0.nodes[t].data + data[..0], s0.nodes[t].meta)] == s0.nodes by {
      assert s0.nodes[t].data + data[..0] == s0.nodes[t].data;
    }
    while pos < |data|
      invariant pos <= |data|
      invariant fs.s == s0.(nodes := s0.nodes[t := File(s0.nodes[t].data + data[..pos], s0.nodes[t].meta)])
      decreases |data| - pos
    {
      var n := if |data| - pos < 16384 then |data| - pos else 16384;
      var _ := fs.Append(t, data[pos..pos + n]);
      assert data[..pos + n] == data[..pos] + data[pos..pos + n];
      assert s0.nodes[t].data + data[..pos + n] == s0.nodes[t].data + data[..pos] + data[pos..pos + n];
      pos := pos + n;
    }
    assert data[..pos] == data;
  }

  /** An exclusive create of `tmp/<nm>` enters a new empty file, inode `s.nextIno`, in the folder's tmp directory and changes nothing else. */
  lemma TempCreated(s: State, d: int, nm: string)
    requires Fresh(s) && nm != "tmp"
    requires CreateAt(s, d, ["tmp", nm], true).1.Ok?
    ensures ParentDir(s, d, ["tmp", nm]).Ok? && OpenDir(s, d)
    ensures var td := ParentDir(s, d, ["tmp", nm]).value;
            var t := s.nextIno;
            var u := CreateAt(s, d, ["tmp", nm], true).0;
            CreateAt(s, d, ["tmp", nm], true).1.value == t && t !in s.nodes &&
            ProperName(nm) && nm !in s.nodes[td].entries && OpenDir(s, td) &&
            t in u.nodes && u.nodes[t] == File([], s.newMeta) && u.nextIno == t + 1 &&
            u.newMeta == s.newMeta &&
            u.nodes[td] == s.nodes[td].(entries := s.nodes[td].entries[nm := t]) &&
            (forall k | k in s.nodes && k != td :: u.nodes[k] == s.nodes[k]) &&
            u.nodes.Keys == s.nodes.Keys + {t}
  {
    assert ["tmp", nm][..1] == ["tmp"];
    assert ["tmp"][1..] == [];
    var td := ParentDir(s, d, ["tmp", nm]).value;
    assert Step(s, d, "tmp") == Ok(td);
  }

  /** The same bytes are read from every old inode after the temporary file is created. */
  lemma ReadAfterCreate(s: State, d: int, nm: string, f: int)
    requires Fresh(s) && nm != "tmp"
    requires CreateAt(s, d, ["tmp", nm], true).1.Ok?
    requires f in s.nodes
    ensures ReadAll(CreateAt(s, d, ["tmp", nm], true).0, f) == ReadAll(s, f)
  {
    TempCreated(s, d, nm);
  }

  /** The state once the temporary file `s.nextIno` holds `data`. */
  function Filled(s: State, d: int, nm: string, data: seq<Byte>): State
    requires CreateAt(s, d, ["tmp", nm], true).1.Ok?
  {
    var u := CreateAt(s, d, ["tmp", nm], true).0;
    u.(nodes := u.nodes[s.nextIno := File(data, s.newMeta)])
  }

  /** The created state is the filled state with no data yet. */
  lemma CreatedIsFilled(s: State, d: int, nm: string)
    requires Fresh(s) && nm != "tmp"
    requires CreateAt(s, d, ["tmp", nm], true).1.Ok?
    ensures CreateAt(s, d, ["tmp", nm], true).0 == Filled(s, d, nm, [])
    ensures Fresh(Filled(s, d, nm, [])) && SameEnv(s, Filled(s, d, nm, []))
  {
    TempCreated(s, d, nm);
    var u := CreateAt(s, d, ["tmp", nm], true).0;
    assert u.nodes[s.nextIno := File([], s.newMeta)] == u.nodes;
  }

  /** Appending to the temporary file extends its data and keeps every invariant. */
  lemma FilledAppend(s: State, d: int, nm: string, data: seq<Byte>, more: seq<Byte>)
    requires Fresh(s) && nm != "tmp"
    requires CreateAt(s, d, ["tmp", nm], true).1.Ok?
    ensures AppendAt(Filled(s, d, nm, data), s.nextIno, more) == (Filled(s, d, nm, data + more), Ok(|more|))
    ensures Fresh(Filled(s, d, nm, data)) && SameEnv(s, Filled(s, d, nm, data))
  {
    CreatedIsFilled(s, d, nm);
    var u := CreateAt(s, d, ["tmp", nm], true).0;
    var t := s.nextIno;
    var w := Filled(s, d, nm, data);
    assert w.nodes[t] == File(data, s.newMeta);
    assert w.nodes[t := File(data + more, s.newMeta)] == u.nodes[t := File(data + more, s.newMeta)];
    assert Fresh(u);
  }

  /** The sendfile copy, seen on the filled state. */
  lemma FilledExtend(s: State, d: int, nm: string, data: seq<Byte>, more: seq<Byte>)
    requires CreateAt(s, d, ["tmp", nm], true).1.Ok?
    ensures var w := Filled(s, d, nm, data);
            w.(nodes := w.nodes[s.nextIno := File(w.nodes[s.nextIno].data + more, w.nodes[s.nextIno].meta)])
            == Filled(s, d, nm, data + more)
  {
  }

  /** Unlinking the temporary file again restores every old inode. */
  lemma TempRemoved(s: State, d: int, nm: string, data: seq<Byte>)
    requires Fresh(s) && nm != "tmp"
    requires CreateAt(s, d, ["tmp", nm], true).1.Ok?
    ensures var r := UnlinkAt(Filled(s, d, nm, data), d, ["tmp", nm]);
            r.1.Ok? && forall k | k in s.nodes :: k in r.0.nodes && r.0.nodes[k] == s.nodes[k]
  {
    TempCreated(s, d, nm);
    RenameEnds(s, d, nm, data);
    var td := ParentDir(s, d, ["tmp", nm]).value;
    var w := Filled(s, d, nm, data);
    assert w.nodes[td].entries[nm] == s.nextIno && IsFile(w, s.nextIno);
    UnlinkFile(w, d, ["tmp", nm], td);
    assert s.nodes[td].entries[nm := s.nextIno] - {nm} == s.nodes[td].entries;
  }

  /** An old `subscriptions` that open and read both accept is a regular file; a dangling entry names no inode. */
  lemma SubsFileOrMissing(s: State, d: int)
    requires OpenDir(s, d) && d >= 0
    requires var o := OpenAt(s, d, [SubsName], false);
             (o.Err? ==> o.errno == ENOENT) && (o.Ok? ==> ReadAll(s, o.value).Ok?)
    ensures SubsName in s.nodes[d].entries && s.nodes[d].entries[SubsName] in s.nodes ==>
              IsFile(s, s.nodes[d].entries[SubsName])
  {
    if SubsName in s.nodes[d].entries && s.nodes[d].entries[SubsName] in s.nodes {
      var x := s.nodes[d].entries[SubsName];
      assert Step(s, d, SubsName) == Ok(x);
      assert [SubsName][1..] == [];
      assert Walk(s, x, []) == Ok(x);
      assert Walk(s, d, [SubsName]) == Walk(s, x, []);
    }
  }

  /** In the filled state both paths of the rename resolve as they did before the create. */
  lemma RenameEnds(s: State, d: int, nm: string, data: seq<Byte>)
    requires Fresh(s) && nm != "tmp"
    requires CreateAt(s, d, ["tmp", nm], true).1.Ok?
    ensures ParentDir(s, d, ["tmp", nm]).Ok?
    ensures var w := Filled(s, d, nm, data);
            ParentDir(w, d, ["tmp", nm]) == ParentDir(s, d, ["tmp", nm]) &&
            ParentDir(w, d, [SubsName]) == Ok(d) &&
            OpenDir(w, d) && w.nodes[d].entries == (if ParentDir(s, d, ["tmp", nm]).value == d
                                                     then s.nodes[d].entries[nm := s.nextIno] else s.nodes[d].entries)
  {
    TempCreated(s, d, nm);
    var td := ParentDir(s, d, ["tmp", nm]).value;
    var w := Filled(s, d, nm, data);
    assert AgreesExcept(s, w, td, nm);
    ResolveAgrees(s, w, td, nm, d, ["tmp"]);
    assert ["tmp", nm][..1] == ["tmp"];
    assert [SubsName][..0] == [];
  }

  /** In the filled state the rename of `tmp/<nm>` over `subscriptions` meets every condition of a plain file move. */
  lemma TempRenameReady(s: State, d: int, nm: string, data: seq<Byte>)
    requires Fresh(s) && nm != "tmp" && nm != SubsName
    requires CreateAt(s, d, ["tmp", nm], true).1.Ok?
    requires var o := OpenAt(s, d, [SubsName], false);
             (o.Err? ==> o.errno == ENOENT) && (o.Ok? ==> ReadAll(s, o.value).Ok?)
    ensures ParentDir(s, d, ["tmp", nm]).Ok?
    ensures var td := ParentDir(s, d, ["tmp", nm]).value;
            var w := Filled(s, d, nm, data);
            ParentDir(w, d, ["tmp", nm]) == Ok(td) && ParentDir(w, d, [SubsName]) == Ok(d) &&
            IsDir(w, td) && IsDir(w, d) && nm in w.nodes[td].entries && w.nodes[td].entries[nm] == s.nextIno &&
            IsFile(w, s.nextIno) &&
            (SubsName in w.nodes[d].entries ==>
               var x := w.nodes[d].entries[SubsName];
               x != s.nextIno && !(x in w.nodes && w.nodes[x].Dir?))
  {
    TempCreated(s, d, nm);
    RenameEnds(s, d, nm, data);
    SubsFileOrMissing(s, d);
    var td := ParentDir(s, d, ["tmp", nm]).value;
    var w := Filled(s, d, nm, data);
    assert w.nodes[td].entries[nm] == s.nextIno;
    assert SubsName in w.nodes[d].entries ==> w.nodes[d].entries[SubsName] == s.nodes[d].entries[SubsName] != s.nextIno;
  }

  /** The rename of the filled temporary file over `subscriptions` is a plain move of its entry. */
  lemma TempMoved(s: State, d: int, nm: string, data: seq<Byte>)
    requires Fresh(s) && nm != "tmp" && nm != SubsName
    requires CreateAt(s, d, ["tmp", nm], true).1.Ok?
    requires var o := OpenAt(s, d, [SubsName], false);
             (o.Err? ==> o.errno == ENOENT) && (o.Ok? ==> ReadAll(s, o.value).Ok?)
    ensures ParentDir(s, d, ["tmp", nm]).Ok?
    ensures var td := ParentDir(s, d, ["tmp", nm]).value;
            var w := Filled(s, d, nm, data);
            IsDir(w, td) && IsDir(Drop(w, td, nm), d) &&
            RenameAt(w, d, ["tmp", nm], d, [SubsName], false).0 == Put(Drop(w, td, nm), d, SubsName, s.nextIno) &&
            RenameAt(w, d, ["tmp", nm], d, [SubsName], false).1 == Ok(s.nextIno)
  {
    TempRenameReady(s, d, nm, data);
    var td := ParentDir(s, d, ["tmp", nm]).value;
    var w := Filled(s, d, nm, data);
    assert Last(["tmp", nm]) == nm && Last([SubsName]) == SubsName && ProperName(SubsName);
    RenameFile(w, d, ["tmp", nm], d, [SubsName], td, d);
  }

  /**
   * Renaming the filled temporary file over `subscriptions` succeeds when the
   * old file is missing or readable, and changes only the folder's entry.
   */
  lemma TempInstalled(s: State, d: int, nm: string, data: seq<Byte>)
    requires Fresh(s) && nm != "tmp" && nm != SubsName
    requires CreateAt(s, d, ["tmp", nm], true).1.Ok?
    requires var o := OpenAt(s, d, [SubsName], false);
             (o.Err? ==> o.errno == ENOENT) && (o.Ok? ==> ReadAll(s, o.value).Ok?)
    ensures var r := RenameAt(Filled(s, d, nm, data), d, ["tmp", nm], d, [SubsName], false);
            var t := s.nextIno;
            r.1 == Ok(t) && t !in s.nodes && IsDir(s, d) && IsDir(r.0, d) && t in r.0.nodes &&
            r.0.nodes[d] == s.nodes[d].(entries := s.nodes[d].entries[SubsName := t]) &&
            r.0.nodes[t] == File(data, s.newMeta) &&
            forall k | k in s.nodes && k != d :: k in r.0.nodes && r.0.nodes[k] == s.nodes[k]
  {
    TempMoved(s, d, nm, data);
    FilledMoved(s, d, nm, data);
  }

  /** Moving the filled temporary file's entry to `subscriptions` leaves every other old inode as it was. */
  lemma FilledMoved(s: State, d: int, nm: string, data: seq<Byte>)
    requires Fresh(s) && nm != "tmp" && nm != SubsName
    requires CreateAt(s, d, ["tmp", nm], true).1.Ok?
    ensures ParentDir(s, d, ["tmp", nm]).Ok?
    ensures var td := ParentDir(s, d, ["tmp", nm]).value;
            var w := Filled(s, d, nm, data);
            var t := s.nextIno;
            IsDir(w, td) && IsDir(Drop(w, td, nm), d) &&
            var w2 := Put(Drop(w, td, nm), d, SubsName, t);
            t !in s.nodes && IsDir(s, d) && IsDir(w2, d) && t in w2.nodes &&
            w2.nodes[d] == s.nodes[d].(entries := s.nodes[d].entries[SubsName := t]) &&
            w2.nodes[t] == File(data, s.newMeta) &&
            forall k | k in s.nodes && k != d :: k in w2.nodes && w2.nodes[k] == s.nodes[k]
  {
    TempCreated(s, d, nm);
    var td := ParentDir(s, d, ["tmp", nm]).value;
    var t := s.nextIno;
    var w := Filled(s, d, nm, data);
    var w1 := Drop(w, td, nm);
    var w2 := Put(w1, d, SubsName, t);
    assert s.nodes[td].entries[nm := t] - {nm} == s.nodes[td].entries;
    assert w1.nodes[td] == s.nodes[td];
    assert w2.nodes[d] == s.nodes[d].(entries := s.nodes[d].entries[SubsName := t]);
    forall k | k in s.nodes && k != d
      ensures k in w2.nodes && w2.nodes[k] == s.nodes[k]
    {
      if k != td {
        assert w.nodes[k] == s.nodes[k];
      }
    }
    assert w2.nodes[t] == File(data, s.newMeta);
  }


  /**
   * `s` is `s0` with the subscriptions file of folder `d` replaced by a new
   * inode holding the old bytes, `fldrname` and a newline; no other old
   * inode changed.
   */
  ghost predicate InstalledFrom(s0: State, s: State, d: int, fldrname: string)
    requires forall i | 0 <= i < |fldrname| :: ByteChar(fldrname[i])
  {
    var x := s0.nextIno;
    OpenDir(s0, d) && IsDir(s, d) && x !in s0.nodes && x in s.nodes &&
    s.nodes[d] == s0.nodes[d].(entries := s0.nodes[d].entries[SubsName := x]) &&
    s.nodes[x] == File(Prior(s0, d) + ToBytes(fldrname) + [10], s0.newMeta) &&
    forall y | y in s0.nodes && y != d :: y in s.nodes && s.nodes[y] == s0.nodes[y]
  }

  /** Every inode of `s0` is in `s` unchanged (new inodes may exist). */
  ghost predicate Restored(s0: State, s: State)
  {
    forall x | x in s0.nodes :: x in s.nodes && s.nodes[x] == s0.nodes[x]
  }

  /**
   * Once installed, the name is subscribed, and every name subscribed
   * before still is, provided the old file was empty or ended in a
   * newline, its lines fit the buffer, and new files are readable.
   */
  lemma InstalledIsSubscribed(s0: State, s: State, p: Pvt, fldrname: string, other: string)
    requires p.DovecotData? && Fresh(s0)
    requires forall i | 0 <= i < |fldrname| :: ByteChar(fldrname[i])
    requires InstalledFrom(s0, s, p.dirfd, fldrname) && s0.newMeta.accessible
    requires var t := ToText(Prior(s0, p.dirfd)); (t == [] || t[|t| - 1] == '\n') && '\0' !in t && LinesFit(t)
    requires '\n' !in fldrname && '\0' !in fldrname && |fldrname| <= LineBufSize - 2
    ensures Subscribed(s, p, fldrname)
    ensures Subscribed(s0, p, other) ==> Subscribed(s, p, other)
  {
    var d := p.dirfd;
    var x := s0.nextIno;
    var before := ToText(Prior(s0, d));
    assert Step(s, d, SubsName) == Ok(x);
    assert [SubsName][1..] == [];
    assert Walk(s, x, []) == Ok(x);
    assert Walk(s, d, [SubsName]) == Walk(s, x, []);
    assert OpenAt(s, d, [SubsName], false) == Ok(x);
    var b := ToBytes(fldrname);
    TextOfConcat(Prior(s0, d), b);
    TextOfConcat(Prior(s0, d) + b, [10]);
    assert ToText([10]) == "\n";
    assert SubscriptionsText(s, d) == Some(before + fldrname + "\n");
    AppendedIsListed(before, fldrname, other);
    if Subscribed(s0, p, other) {
      assert SubscriptionsText(s0, d) == Some(before);
    }
  }

  /**
   * The part of dovecot_imap_subscribe after the temporary file `tmp/<nm>`
   * was created in state `s0`: copy the old file, append the name and a
   * newline, rename over `subscriptions`, and unlink the temporary file when
   * the copy or the rename fails.
   */
  method FillAndInstall(fs: FileSystem, ghost s0: State, d: int, nm: string, sfd: Res<int>, t: int, fldrname: string, renameFault: bool)
    returns (o: SubscribeOutcome)
    requires Fresh(s0) && nm != "tmp" && nm != SubsName
    requires CreateAt(s0, d, ["tmp", nm], true).0 == fs.s && CreateAt(s0, d, ["tmp", nm], true).1 == Ok(t)
    requires sfd == OpenAt(s0, d, [SubsName], false) && (sfd.Err? ==> sfd.errno == ENOENT)
    requires forall i | 0 <= i < |fldrname| :: ByteChar(fldrname[i])
    modifies fs
    ensures o == Installed || o == CopyFailed || o == RenameFailed
    ensures Fresh(fs.s) && SameEnv(s0, fs.s)
    ensures o == RenameFailed ==> renameFault
    ensures o == CopyFailed || o == RenameFailed ==> Restored(s0, fs.s)
    ensures o == Installed ==> InstalledFrom(s0, fs.s, d, fldrname)
  {
    var temp := ["tmp", nm];
    TempCreated(s0, d, nm);
    CreatedIsFilled(s0, d, nm);
    var data: seq<Byte> := [];
    if sfd.Ok? {
      ReadAfterCreate(s0, d, nm, sfd.value);
      var content := ReadAll(fs.s, sfd.value);
      if content.Err? {
        TempRemoved(s0, d, nm, []);
        var _ := fs.Unlink(d, temp);
        return CopyFailed;
      }
      // the sendfile loop
      CopyInto(fs, t, content.value);
      FilledExtend(s0, d, nm, [], content.value);
      data := content.value;
      assert [] + data == data;
    }
    assert data == Prior(s0, d);
    assert fs.s == Filled(s0, d, nm, data);
    var b := ToBytes(fldrname);
    FilledAppend(s0, d, nm, data, b);
    var _ := fs.Append(t, b);
    FilledAppend(s0, d, nm, data + b, [10]);
    var _ := fs.Append(t, [10]);
    ghost var filled := data + b + [10];
    assert fs.s == Filled(s0, d, nm, filled);
    FilledAppend(s0, d, nm, filled, []);
    var rr: Res<int>;
    if renameFault {
      rr := Err(EIO);
    } else {
      TempInstalled(s0, d, nm, filled);
      rr := fs.Rename(d, temp, d, [SubsName], false);
    }
    if rr.Err? {
      TempRemoved(s0, d, nm, filled);
      var _ := fs.Unlink(d, temp);
      return RenameFailed;
    }
    return Installed;
  }

  /**
   * The temp-name loop: the exclusive create of `tmp/dovecot-subscriptions-<r>`
   * is retried with the next draw while it fails with EEXIST.  `tries`
   * counts the draws used; a failed create changes nothing.
   */
  method CreateTemp(fs: FileSystem, d: int, draws: seq<nat>) returns (tfd: Res<int>, tries: nat)
    modifies fs
    ensures tries <= |draws|
    ensures forall i | 0 <= i < tries - 1 :: CreateAt(old(fs.s), d, TempPath(draws[i]), true).1 == Err(EEXIST)
    ensures tries == 0 ==> |draws| == 0 && tfd == Err(EEXIST)
    ensures tries > 0 ==> fs.s == CreateAt(old(fs.s), d, TempPath(draws[tries - 1]), true).0 &&
                          tfd == CreateAt(old(fs.s), d, TempPath(draws[tries - 1]), true).1
    ensures tfd == Err(EEXIST) ==> tries == |draws|
    ensures tfd.Err? ==> fs.s == old(fs.s)
  {
    tfd := Err(EEXIST);
    tries := 0;
    while tries < |draws| && tfd == Err(EEXIST)
      invariant tries <= |draws|
      invariant forall i | 0 <= i < tries - 1 :: CreateAt(old(fs.s), d, TempPath(draws[i]), true).1 == Err(EEXIST)
      invariant tries == 0 ==> tfd == Err(EEXIST)
      invariant tries > 0 ==> fs.s == CreateAt(old(fs.s), d, TempPath(draws[tries - 1]), true).0 &&
                                tfd == CreateAt(old(fs.s), d, TempPath(draws[tries - 1]), true).1
      invariant tfd.Err? ==> fs.s == old(fs.s)
    {
      tfd := fs.Create(d, TempPath(draws[tries]), true);
      tries := tries + 1;
    }
  }

  /**
   * dovecot_imap_subscribe.  `draws` are the values rand() returns, in
   * order, and `tries` says how many were used; `renameFault` stands for a
   * renameat failure the filesystem model does not produce (an I/O error,
   * a full disk).
   */
  method Subscribe(fs: FileSystem, p: Pvt, fldrname: string, draws: seq<nat>, renameFault: bool)
    returns (o: SubscribeOutcome, tries: nat)
    requires p.DovecotData?
    requires forall i | 0 <= i < |fldrname| :: ByteChar(fldrname[i])
    requires Fresh(fs.s)
    modifies fs
    ensures Fresh(fs.s) && SameEnv(old(fs.s), fs.s)
    ensures tries <= |draws|
    ensures forall i | 0 <= i < tries - 1 :: CreateAt(old(fs.s), p.dirfd, TempPath(draws[i]), true).1 == Err(EEXIST)
    ensures o == OpenFailed <==> var e := OpenAt(old(fs.s), p.dirfd, [SubsName], false); e.Err? && e.errno != ENOENT
    ensures o == OpenFailed || o == TempFailed || o == DrawsExhausted ==> fs.s == old(fs.s)
    ensures o == DrawsExhausted ==> tries == |draws| && (tries > 0 ==> CreateAt(old(fs.s), p.dirfd, TempPath(draws[tries - 1]), true).1 == Err(EEXIST))
    ensures o == TempFailed ==> tries > 0 && var e := CreateAt(old(fs.s), p.dirfd, TempPath(draws[tries - 1]), true).1;
                                 e.Err? && e.errno != EEXIST
    ensures o == Installed || o == CopyFailed || o == RenameFailed ==>
              tries > 0 && CreateAt(old(fs.s), p.dirfd, TempPath(draws[tries - 1]), true).1.Ok?
    ensures o == RenameFailed ==> renameFault
    ensures o == CopyFailed || o == RenameFailed ==> Restored(old(fs.s), fs.s)
    ensures o == Installed ==> InstalledFrom(old(fs.s), fs.s, p.dirfd, fldrname)
  {
    var sfd := OpenAt(fs.s, p.dirfd, [SubsName], false);
    if sfd.Err? && sfd.errno != ENOENT {
      return OpenFailed, 0;
    }
    o, tries := SubscribeOpen(fs, p.dirfd, sfd, fldrname, draws, renameFault);
  }

  /** dovecot_imap_subscribe once the old file opened or is missing (`sfd`). */
  method SubscribeOpen(fs: FileSystem, d: int, sfd: Res<int>, fldrname: string, draws: seq<nat>, renameFault: bool)
    returns (o: SubscribeOutcome, tries: nat)
    requires sfd == OpenAt(fs.s, d, [SubsName], false) && (sfd.Err? ==> sfd.errno == ENOENT)
    requires forall i | 0 <= i < |fldrname| :: ByteChar(fldrname[i])
    requires Fresh(fs.s)
    modifies fs
    ensures Fresh(fs.s) && SameEnv(old(fs.s), fs.s)
    ensures tries <= |draws| && o != OpenFailed
    ensures forall i | 0 <= i < tries - 1 :: CreateAt(old(fs.s), d, TempPath(draws[i]), true).1 == Err(EEXIST)
    ensures o == TempFailed || o == DrawsExhausted ==> fs.s == old(fs.s)
    ensures o == DrawsExhausted ==> tries == |draws| && (tries > 0 ==> CreateAt(old(fs.s), d, TempPath(draws[tries - 1]), true).1 == Err(EEXIST))
    ensures o == TempFailed ==> tries > 0 && var e := CreateAt(old(fs.s), d, TempPath(draws[tries - 1]), true).1;
                                 e.Err? && e.errno != EEXIST
    ensures o == Installed || o == CopyFailed || o == RenameFailed ==>
              tries > 0 && CreateAt(old(fs.s), d, TempPath(draws[tries - 1]), true).1.Ok?
    ensures o == RenameFailed ==> renameFault
    ensures o == CopyFailed || o == RenameFailed ==> Restored(old(fs.s), fs.s)
    ensures o == Installed ==> InstalledFrom(old(fs.s), fs.s, d, fldrname)
  {
    ghost var s0 := fs.s;
    var tfd;
    tfd, tries := CreateTemp(fs, d, draws);
    if tfd == Err(EEXIST) {
      return DrawsExhausted, tries;
    }
    if tfd.Err? {
      return TempFailed, tries;
    }
    ghost var created := CreateAt(s0, d, TempPath(draws[tries - 1]), true);
    assert tries > 0 && created.0 == fs.s && created.1 == tfd;
    var nm := TempPrefix + Decimal(draws[tries - 1]);
    TempNameApart(draws[tries - 1]);
    o := FillAndInstall(fs, s0, d, nm, sfd, tfd.value, fldrname, renameFault);
  }
}

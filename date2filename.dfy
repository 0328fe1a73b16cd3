/**
 * maildirdate2filename (src/maildirdate2filename.c): renames the messages
 * of cur/ and new/ whose `<seconds>.` file-name prefix is later than their
 * Date: header by at least a minimum, so that the prefix becomes the
 * header's time.  Reading the header and running date(1) are inputs.
 */
module Date2Filename {
  import opened Wrappers
  import opened Strings
  import opened Fs
  import Merge

  /** maildir_subs: cur/ and new/, never tmp/. */
  const Subs: seq<string> := ["cur", "new"]

  /** The default of -m: one week, in seconds. */
  const DefaultMintime: nat := 86400 * 7

  /** unsigned long long arithmetic wraps modulo 2^64. */
  const U64: nat := 0x1_0000_0000_0000_0000

  // ---------------------------------------------------------------------
  // The pure decisions

  /**
   * Line 239-241: strtoull over the leading digits (none gives 0), which
   * must be followed by a `.`; the suffix from that `.` on is kept.
   */
  function FilenameStamp(name: string): (r: Option<(nat, string)>)
    ensures r.Some? ==> |r.value.1| > 0 && r.value.1[0] == '.' && |r.value.1| <= |name| &&
                        name == name[..|name| - |r.value.1|] + r.value.1 &&
                        AllDigits(name[..|name| - |r.value.1|]) &&
                        r.value.0 == DigitsValue(name[..|name| - |r.value.1|])
    ensures r.None? ==> DigitSpan(name) == |name| || name[DigitSpan(name)] != '.'
  {
    var p := ParseNumber(name);
    var k := DigitSpan(name);
    assert name[k..] == p.1 && name[..k] == name[..|name| - |p.1|];
    if p.1 != [] && p.1[0] == '.' then Some(p) else None
  }

  /** Line 251: the bound a file-name time must reach, `header_ts + mintime` in 64-bit arithmetic. */
  function Threshold(headerTs: nat, mintime: nat): (t: nat)
    ensures t < U64
    ensures headerTs + mintime < U64 ==> t == headerTs + mintime
  {
    (headerTs + mintime) % U64
  }

  /** Line 257: the decimal header time followed by the old suffix. */
  function NewName(headerTs: nat, suffix: string): (n: string)
    ensures |n| > |suffix| && n[|n| - |suffix|..] == suffix
  {
    Decimal(headerTs) + suffix
  }

  /** The new name reads back as the header time with the same suffix. */
  lemma NewNameRoundTrip(headerTs: nat, suffix: string)
    requires |suffix| > 0 && suffix[0] == '.'
    ensures FilenameStamp(NewName(headerTs, suffix)) == Some((headerTs, suffix))
  {
    ParseDecimal(headerTs, suffix);
  }

  /** Renaming `name` and renaming the result again with the same time finds the same name: the rewrite is idempotent. */
  lemma NewNameIdempotent(name: string, headerTs: nat)
    requires FilenameStamp(name).Some?
    ensures var t := NewName(headerTs, FilenameStamp(name).value.1);
            NewName(headerTs, FilenameStamp(t).value.1) == t
  {
    NewNameRoundTrip(headerTs, FilenameStamp(name).value.1);
  }

  /** The most date(1) output one read takes: sizeof(bfr) - 1. */
  const OutputLimit: nat := 63

  /**
   * Lines 79-83: the output of `date -d … +%s` is accepted when it is not
   * empty and its leading digits are followed by a newline or the end.
   */
  function DateOutput(bfr: string): (r: Option<nat>)
    ensures r.Some? ==> bfr != [] && (DigitSpan(bfr) == |bfr| || bfr[DigitSpan(bfr)] == '\n') &&
                        r.value == DigitsValue(bfr[..DigitSpan(bfr)])
    ensures r.None? ==> bfr == [] || (DigitSpan(bfr) < |bfr| && bfr[DigitSpan(bfr)] != '\n')
  {
    var p := ParseNumber(bfr);
    var k := DigitSpan(bfr);
    assert bfr[k..] == p.1 && bfr[..k] == bfr[..|bfr| - |p.1|];
    if bfr == [] || (p.1 != [] && p.1[0] != '\n') then None else Some(p.0)
  }

  /** A printed time, with or without its newline, is accepted as that time. */
  lemma DateOutputOf(t: nat)
    ensures DateOutput(Decimal(t) + "\n") == Some(t)
    ensures DateOutput(Decimal(t)) == Some(t)
  {
    ParseDecimal(t, "\n");
    ParseDecimal(t, "");
    assert Decimal(t) + "" == Decimal(t);
  }

  /** A lone newline passes the check as the time 0, since strtoull consumes nothing. */
  lemma EmptyLineIsEpoch()
    ensures DateOutput("\n") == Some(0)
  {
    assert DigitSpan("\n") == 0;
  }

  /** convert_date: None when date(1) did not exit normally with status 0, or its output was refused; the tool then exits. */
  function ConvertDate(output: Option<string>): (r: Option<nat>)
    ensures output.None? ==> r.None?
    ensures output.Some? && |output.value| <= OutputLimit ==> r == DateOutput(output.value)
  {
    match output
      case None => None
      case Some(out) => DateOutput(if |out| <= OutputLimit then out else out[..OutputLimit])
  }

  // ---------------------------------------------------------------------
  // One message

  /** What get_mail_header and find_mail_header give: a failure, or the values of the Date: headers in order. */
  datatype Header = HeaderFailed | Dates(values: seq<string>)

  /** The outside world: the header parser over a file's bytes, and date(1) for a header value. */
  datatype Env = Env(headerOf: seq<Byte> -> Header, date: string -> Option<string>)

  /** What a run is told: -m, -n and whether -R dropped RENAME_NOREPLACE. */
  datatype Options = Options(mintime: nat, dryRun: bool, noReplace: bool)

  /** Line 212: get_mail_header reads the file `name` of the directory open as `subfd`. */
  function HeaderOf(s: State, subfd: int, name: string, env: Env): (h: Header)
  {
    match OpenAt(s, subfd, [name], false)
      case Err(_) => HeaderFailed
      case Ok(fd) =>
        match ReadAll(s, fd)
          case Err(_) => HeaderFailed
          case Ok(data) => env.headerOf(data)
  }

  /** Lines 199-209: a regular file, by d_type or, when that is unknown, by fstatat. */
  predicate RegularEntry(s: State, subfd: int, e: Dirent)
  {
    if e.dtype == DT_UNKNOWN then FStatAt(s, subfd, [e.name]).Ok? && FStatAt(s, subfd, [e.name]).value.kind == Regular
    else e.dtype == DT_REG
  }

  datatype Action = Skip | Exit | Rename(target: string, stamp: nat)

  /**
   * Lines 198-257 for one entry: skip it, exit the program because date(1)
   * failed, or rename it to the header's time.  Note that the date is
   * converted before the file name is examined.
   */
  function Plan(s: State, subfd: int, e: Dirent, o: Options, env: Env): (a: Action)
    ensures a.Rename? ==> RegularEntry(s, subfd, e) && FilenameStamp(e.name).Some? &&
                          FilenameStamp(e.name).value.0 >= Threshold(a.stamp, o.mintime) &&
                          FilenameStamp(a.target) == Some((a.stamp, FilenameStamp(e.name).value.1))
    ensures a.Exit? ==> RegularEntry(s, subfd, e)
  {
    if !RegularEntry(s, subfd, e) then Skip
    else match HeaderOf(s, subfd, e.name, env)
      case HeaderFailed => Skip
      case Dates(values) =>
        if values == [] then Skip
        else match ConvertDate(env.date(values[0]))
          case None => Exit
          case Some(h) =>
            match FilenameStamp(e.name)
              case None => Skip
              case Some(p) =>
                if p.0 < Threshold(h, o.mintime) then Skip
                else
                  NewNameRoundTrip(h, p.1);
                  Rename(NewName(h, p.1), h)
  }

  /** Line 251: without wrap-around a file more recent than its header by less than mintime, or older than it, is never renamed. */
  lemma RecentFilesStay(s: State, subfd: int, e: Dirent, o: Options, env: Env, h: nat)
    requires h + o.mintime < U64
    requires Plan(s, subfd, e, o, env).Rename? && Plan(s, subfd, e, o, env).stamp == h
    ensures FilenameStamp(e.name).value.0 >= h + o.mintime
  {
  }

  /**
   * Lines 261-283: the rename itself; true when the program exits because
   * RENAME_NOREPLACE gave EINVAL for a target that does not exist.
   */
  function Apply(s: State, subfd: int, name: string, target: string, o: Options): (r: (State, bool))
    ensures o.dryRun ==> r == (s, false)
    ensures r.0 == s || r.0 == RenameAt(s, subfd, [name], subfd, [target], o.noReplace).0
  {
    if o.dryRun then (s, false)
    else if !o.noReplace && FStatAt(s, subfd, [target]).Ok? then (s, false)
    else if !o.noReplace && FStatAt(s, subfd, [target]).errno != ENOENT then (s, false)
    else
      var m := RenameAt(s, subfd, [name], subfd, [target], o.noReplace);
      if m.1.Ok? then (m.0, false)
      else (m.0, o.noReplace && m.1.errno == EINVAL && FStatAt(m.0, subfd, [target]) == Err(ENOENT))
  }

  /**
   * Line 276: a rename stays inside the one sub-directory and touches only
   * the old and the new name there.
   */
  lemma ApplyFrame(s: State, subfd: int, name: string, target: string, o: Options)
    ensures var t := Apply(s, subfd, name, target, o).0;
            KeepsNodes(s, t) &&
            (forall x, n | IsDir(s, x) && x != subfd :: KeepsEntry(s, t, x, n)) &&
            (forall n | IsDir(s, subfd) && n != name && n != target :: KeepsEntry(s, t, subfd, n))
  {
    RenameNodes(s, subfd, [name], subfd, [target], o.noReplace);
    RenameWithin(s, subfd, name, target, o.noReplace);
    forall n | IsDir(s, subfd) && n != name && n != target
      ensures KeepsEntry(s, RenameAt(s, subfd, [name], subfd, [target], o.noReplace).0, subfd, n)
    {
      RenameFrame(s, subfd, [name], subfd, [target], o.noReplace, subfd, n);
    }
  }

  /**
   * Lines 265-276: an existing target is never replaced, in either mode;
   * without RENAME_NOREPLACE the rename happens only after stat said ENOENT.
   */
  lemma NeverReplaces(s: State, subfd: int, name: string, target: string, o: Options)
    ensures FStatAt(s, subfd, [target]).Ok? && target !in DotNames ==> Apply(s, subfd, name, target, o).0 == s
    ensures !o.noReplace && !o.dryRun && Apply(s, subfd, name, target, o).0 != s ==>
              FStatAt(s, subfd, [target]) == Err(ENOENT)
  {
    if FStatAt(s, subfd, [target]).Ok? && target !in DotNames && o.noReplace {
      NoReplaceKeepsTarget(s, subfd, [name], subfd, [target]);
    }
  }

  /** The per-entry work: the new state and whether the program exits. */
  function Entry(s: State, subfd: int, e: Dirent, o: Options, env: Env): (r: (State, bool))
  {
    match Plan(s, subfd, e, o, env)
      case Skip => (s, false)
      case Exit => (s, true)
      case Rename(target, _) => Apply(s, subfd, e.name, target, o)
  }

  /** The readdir loop of lines 198-287; an exit ends it. */
  function Entries(s: State, subfd: int, es: seq<Dirent>, o: Options, env: Env): (r: (State, bool))
    decreases |es|
  {
    if es == [] then (s, false)
    else
      var a := Entry(s, subfd, es[0], o, env);
      if a.1 then a else Entries(a.0, subfd, es[1..], o, env)
  }

  /** Lines 183-195: one of cur/ and new/; one that does not open as a directory is skipped. */
  function SubPass(s: State, dirfd: int, sub: string, o: Options, env: Env): (r: (State, bool))
  {
    match OpenAt(s, dirfd, [sub], false)
      case Err(_) => (s, false)
      case Ok(subfd) =>
        if !IsDir(s, subfd) then (s, false) else Entries(s, subfd, Listing(s, subfd), o, env)
  }

  function SubPasses(s: State, dirfd: int, subs: seq<string>, o: Options, env: Env): (r: (State, bool))
    decreases |subs|
  {
    if subs == [] then (s, false)
    else
      var a := SubPass(s, dirfd, subs[0], o, env);
      if a.1 then a else SubPasses(a.0, dirfd, subs[1..], o, env)
  }

  /** Lines 179-181: a folder that is not a maildir is skipped. */
  function Folder(s: State, cwd: int, folder: Path, o: Options, env: Env): (r: (State, bool))
  {
    match Merge.MaildirFdAt(s, cwd, folder)
      case None => (s, false)
      case Some(dirfd) => SubPasses(s, dirfd, Subs, o, env)
  }

  function Folders(s: State, cwd: int, folders: seq<Path>, o: Options, env: Env): (r: (State, bool))
    decreases |folders|
  {
    if folders == [] then (s, false)
    else
      var a := Folder(s, cwd, folders[0], o, env);
      if a.1 then a else Folders(a.0, cwd, folders[1..], o, env)
  }

  datatype RunResult = RunResult(s: State, code: int)

  /** main after option parsing: 1 without folders or on an exit from convert_date or the EINVAL check, else 0. */
  function RunSpec(s: State, cwd: int, folders: seq<Path>, o: Options, env: Env): (r: RunResult)
    ensures r.code in {0, 1}
    ensures r.code == 0 <==> folders != [] && !Folders(s, cwd, folders, o, env).1
  {
    if folders == [] then RunResult(s, 1)
    else
      var f := Folders(s, cwd, folders, o, env);
      RunResult(f.0, if f.1 then 1 else 0)
  }

  // ---------------------------------------------------------------------
  // Dry run

  lemma {:induction false} DryEntries(s: State, subfd: int, es: seq<Dirent>, o: Options, env: Env)
    requires o.dryRun
    ensures Entries(s, subfd, es, o, env).0 == s
    decreases |es|
  {
    if es != [] {
      DryEntries(s, subfd, es[1..], o, env);
    }
  }

  lemma {:induction false} DrySubs(s: State, dirfd: int, subs: seq<string>, o: Options, env: Env)
    requires o.dryRun
    ensures SubPasses(s, dirfd, subs, o, env).0 == s
    decreases |subs|
  {
    if subs != [] {
      var d := OpenAt(s, dirfd, [subs[0]], false);
      if d.Ok? && IsDir(s, d.value) {
        DryEntries(s, d.value, Listing(s, d.value), o, env);
      }
      DrySubs(s, dirfd, subs[1..], o, env);
    }
  }

  /** Lines 262 and 168-169: -n renames nothing. */
  lemma {:induction false} DryRun(s: State, cwd: int, folders: seq<Path>, o: Options, env: Env)
    requires o.dryRun
    ensures Folders(s, cwd, folders, o, env).0 == s
    decreases |folders|
  {
    if folders != [] {
      var d := Merge.MaildirFdAt(s, cwd, folders[0]);
      if d.Some? {
        DrySubs(s, d.value, Subs, o, env);
      }
      DryRun(s, cwd, folders[1..], o, env);
    }
  }

  // ---------------------------------------------------------------------
  // The operations on one mutable filesystem

  /** Lines 261-283. */
  method RenameMessage(fs: FileSystem, subfd: int, name: string, target: string, o: Options) returns (exit: bool)
    modifies fs
    ensures (fs.s, exit) == Apply(old(fs.s), subfd, name, target, o)
  {
    exit := false;
    if o.dryRun {
      return;
    }
    if !o.noReplace {
      var st := FStatAt(fs.s, subfd, [target]);
      if st.Ok? || st.errno != ENOENT {
        return;
      }
    }
    var r := fs.Rename(subfd, [name], subfd, [target], o.noReplace);
    if r.Err? {
      exit := o.noReplace && r.errno == EINVAL && FStatAt(fs.s, subfd, [target]) == Err(ENOENT);
    }
  }

  /** The readdir loop of lines 198-287. */
  method RenameEntries(fs: FileSystem, subfd: int, es: seq<Dirent>, o: Options, env: Env) returns (exit: bool)
    modifies fs
    ensures (fs.s, exit) == Entries(old(fs.s), subfd, es, o, env)
  {
    var i := 0;
    while i < |es|
      invariant 0 <= i <= |es|
      invariant Entries(old(fs.s), subfd, es, o, env) == Entries(fs.s, subfd, es[i..], o, env)
    {
      assert es[i..][0] == es[i] && es[i..][1..] == es[i + 1..];
      var a := Plan(fs.s, subfd, es[i], o, env);
      if a.Exit? {
        return true;
      }
      if a.Rename? {
        exit := RenameMessage(fs, subfd, es[i].name, a.target, o);
        if exit {
          return;
        }
      }
      i := i + 1;
    }
    return false;
  }

  /** Lines 183-290. */
  method RenameSubs(fs: FileSystem, dirfd: int, o: Options, env: Env) returns (exit: bool)
    modifies fs
    ensures (fs.s, exit) == SubPasses(old(fs.s), dirfd, Subs, o, env)
  {
    var k := 0;
    while k < |Subs|
      invariant 0 <= k <= |Subs|
      invariant SubPasses(old(fs.s), dirfd, Subs, o, env) == SubPasses(fs.s, dirfd, Subs[k..], o, env)
    {
      assert Subs[k..][0] == Subs[k] && Subs[k..][1..] == Subs[k + 1..];
      var subfd := OpenAt(fs.s, dirfd, [Subs[k]], false);
      if subfd.Ok? && IsDir(fs.s, subfd.value) {
        exit := RenameEntries(fs, subfd.value, Listing(fs.s, subfd.value), o, env);
        if exit {
          return;
        }
      }
      k := k + 1;
    }
    return false;
  }

  /** main after option parsing. */
  method Run(fs: FileSystem, cwd: int, folders: seq<Path>, o: Options, env: Env) returns (code: int)
    modifies fs
    ensures RunResult(fs.s, code) == RunSpec(old(fs.s), cwd, folders, o, env)
  {
    if folders == [] {
      return 1;
    }
    var i := 0;
    while i < |folders|
      invariant 0 <= i <= |folders|
      invariant Folders(old(fs.s), cwd, folders, o, env) == Folders(fs.s, cwd, folders[i..], o, env)
    {
      assert folders[i..][0] == folders[i] && folders[i..][1..] == folders[i + 1..];
      var dirfd := Merge.MaildirFdAt(fs.s, cwd, folders[i]);
      if dirfd.Some? {
        var exit := RenameSubs(fs, dirfd.value, o, env);
        if exit {
          return 1;
        }
      }
      i := i + 1;
    }
    return 0;
  }
}

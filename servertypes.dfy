/**
 * The registry of server types (src/servertypes.c): registration by
 * prepending, detection of a folder's types, the cached concatenation of
 * every type's metadata files, and the dispatch from a capability to the
 * backend function it names.
 */
module ServerTypes {
  import opened Wrappers
  import opened Fs
  import opened TypeRecord
  import Courier
  import Dovecot

  // ---------------------------------------------------------------------
  // Dispatch

  /** test->type->detect(folder). */
  function DetectCall(s: State, cwd: int, folder: Path, impl: DetectImpl): (r: Option<bool>)
    ensures r.None? <==> OpenAt(s, cwd, folder, false).Err?
  {
    match impl
      case CourierDetect => Courier.Detect(s, cwd, folder)
      case DovecotDetect => Dovecot.Detect(s, cwd, folder)
  }

  /** Every folder Dovecot detects, Courier detects too. */
  lemma DovecotImpliesCourier(s: State, cwd: int, folder: Path)
    ensures DetectCall(s, cwd, folder, DovecotDetect) == Some(true) ==>
              DetectCall(s, cwd, folder, CourierDetect) == Some(true)
  {
  }

  /** type->open(folder, dirfd). */
  function OpenCall(impl: OpenImpl, folder: Path, dirfd: int): (p: Pvt)
    ensures p.folder == folder && p.dirfd == dirfd
  {
    match impl
      case CourierOpen => Courier.Open(folder, dirfd)
      case DovecotOpen => Dovecot.Open(folder, dirfd)
  }

  /** The data `pvt` is what the type's own open returns. */
  predicate Fits(t: MaildirType, pvt: Pvt)
  {
    t.open.Some? && pvt == OpenCall(t.open.value, pvt.folder, pvt.dirfd)
  }

  /** type->is_pop3(pvt), for data the type's own open made. */
  function IsPop3Call(s: State, impl: Pop3Impl, pvt: Pvt): bool
    requires impl == CourierIsPop3 ==> pvt.CourierData?
  {
    match impl
      case CourierIsPop3 => Courier.IsPop3(s, pvt)
      case DovecotIsPop3 => Dovecot.IsPop3(pvt)
  }

  /** type->pop3_get_uidl(pvt, basename): a UIDL, or None for NULL. */
  function GetUidlCall(impl: UidlGetImpl, basename: string): (r: Option<string>)
    ensures r.Some? <==> basename in impl.table
  {
    if basename in impl.table then Some(impl.table[basename]) else None
  }

  // ---------------------------------------------------------------------
  // Detection

  /**
   * maildir_find_type(folder) over the registry `list`, head first: None
   * when a detect callback exits the process, otherwise a fresh list
   * holding the detected types, each prepended as it is met.
   */
  function FindTypeSpec(s: State, cwd: int, folder: Path, list: seq<TypeNode>): Option<seq<TypeNode>>
  {
    if list == [] then Some([])
    else match DetectCall(s, cwd, folder, list[0].t.detect)
      case None => None
      case Some(hit) =>
        match FindTypeSpec(s, cwd, folder, list[1..])
          case None => None
          case Some(rest) => Some(rest + if hit then [TypeNode(list[0].t, None)] else [])
  }

  /** Detected by its own detect callback. */
  predicate Hit(s: State, cwd: int, folder: Path, t: MaildirType)
  {
    DetectCall(s, cwd, folder, t.detect) == Some(true)
  }

  /** The process exits exactly when the registry is not empty and the folder cannot be opened. */
  lemma {:induction false} FindTypeExits(s: State, cwd: int, folder: Path, list: seq<TypeNode>)
    ensures FindTypeSpec(s, cwd, folder, list).None? <==> list != [] && OpenAt(s, cwd, folder, false).Err?
  {
    if list != [] {
      FindTypeExits(s, cwd, folder, list[1..]);
    }
  }

  /**
   * Otherwise the result holds exactly the detected types, each with no
   * private data, and no more nodes than the registry.
   */
  lemma FindTypeExact(s: State, cwd: int, folder: Path, list: seq<TypeNode>, t: MaildirType)
    requires FindTypeSpec(s, cwd, folder, list).Some?
    ensures var r := FindTypeSpec(s, cwd, folder, list).value;
            |r| <= |list| &&
            (forall i | 0 <= i < |r| :: r[i].pvt.None? && Hit(s, cwd, folder, r[i].t)) &&
            ((exists j | 0 <= j < |r| :: r[j].t == t) <==>
             (exists i | 0 <= i < |list| :: list[i].t == t && Hit(s, cwd, folder, t)))
  {
    FindTypeSound(s, cwd, folder, list);
    FindTypeComplete(s, cwd, folder, list, t);
  }

  /** Every node of the result is a detected type with no private data. */
  lemma {:induction false} FindTypeSound(s: State, cwd: int, folder: Path, list: seq<TypeNode>)
    requires FindTypeSpec(s, cwd, folder, list).Some?
    ensures var r := FindTypeSpec(s, cwd, folder, list).value;
            |r| <= |list| && forall i | 0 <= i < |r| :: r[i].pvt.None? && Hit(s, cwd, folder, r[i].t)
  {
    if list != [] {
      FindTypeSound(s, cwd, folder, list[1..]);
    }
  }

  /** A type is in the result exactly when the registry holds it and it is detected. */
  lemma {:induction false} FindTypeComplete(s: State, cwd: int, folder: Path, list: seq<TypeNode>, t: MaildirType)
    requires FindTypeSpec(s, cwd, folder, list).Some?
    ensures var r := FindTypeSpec(s, cwd, folder, list).value;
            (exists j | 0 <= j < |r| :: r[j].t == t) <==>
            (exists i | 0 <= i < |list| :: list[i].t == t && Hit(s, cwd, folder, t))
  {
    if list != [] {
      FindTypeComplete(s, cwd, folder, list[1..], t);
      var hit := Hit(s, cwd, folder, list[0].t);
      assert FindTypeSpec(s, cwd, folder, list).value ==
             FindTypeSpec(s, cwd, folder, list[1..]).value + if hit then [TypeNode(list[0].t, None)] else [];
      HasAfterStep(list, FindTypeSpec(s, cwd, folder, list[1..]).value, FindTypeSpec(s, cwd, folder, list).value,
                   t, hit, Hit(s, cwd, folder, t));
    }
  }

  /** The step of FindTypeComplete on the lists alone: `hit` says whether the head is detected, `hitT` whether `t` is. */
  lemma HasAfterStep(list: seq<TypeNode>, rest: seq<TypeNode>, r: seq<TypeNode>, t: MaildirType, hit: bool, hitT: bool)
    requires list != [] && r == rest + if hit then [TypeNode(list[0].t, None)] else []
    requires list[0].t == t ==> hit == hitT
    requires (exists j | 0 <= j < |rest| :: rest[j].t == t) <==>
             (exists i | 0 <= i < |list[1..]| :: list[1..][i].t == t && hitT)
    ensures (exists j | 0 <= j < |r| :: r[j].t == t) <==> (exists i | 0 <= i < |list| :: list[i].t == t && hitT)
  {
    var tail := list[1..];
    if exists j | 0 <= j < |r| :: r[j].t == t {
      var j :| 0 <= j < |r| && r[j].t == t;
      if j < |rest| {
        assert rest[j] == r[j];
      }
    }
    if exists j | 0 <= j < |rest| :: rest[j].t == t {
      var j :| 0 <= j < |rest| && rest[j].t == t;
      assert r[j] == rest[j];
    }
    if exists i | 0 <= i < |list| :: list[i].t == t && hitT {
      var i :| 0 <= i < |list| && list[i].t == t && hitT;
      if i > 0 {
        assert tail[i - 1] == list[i];
      } else {
        assert r[|rest|].t == t;
      }
    }
    if exists i | 0 <= i < |tail| :: tail[i].t == t && hitT {
      var i :| 0 <= i < |tail| && tail[i].t == t && hitT;
      assert list[i + 1] == tail[i];
    }
  }

  /** The result so far, `done`, behind what the rest of the walk finds. */
  function Behind(rest: Option<seq<TypeNode>>, done: seq<TypeNode>): Option<seq<TypeNode>>
  {
    if rest.None? then None else Some(rest.value + done)
  }

  /** One more node of the walk: an exit ends it, otherwise a detected type joins the front of the result. */
  lemma FindTypeStep(s: State, cwd: int, folder: Path, list: seq<TypeNode>, i: nat, result: seq<TypeNode>)
    requires i < |list|
    ensures var hit := DetectCall(s, cwd, folder, list[i].t.detect);
            (hit.None? ==> FindTypeSpec(s, cwd, folder, list[i..]).None?) &&
            (hit.Some? ==>
               Behind(FindTypeSpec(s, cwd, folder, list[i..]), result) ==
               Behind(FindTypeSpec(s, cwd, folder, list[i + 1..]), (if hit.value then [TypeNode(list[i].t, None)] else []) + result))
  {
    assert list[i..][0] == list[i] && list[i..][1..] == list[i + 1..];
    var hit := DetectCall(s, cwd, folder, list[i].t.detect);
    if hit.Some? {
      var found := if hit.value then [TypeNode(list[i].t, None)] else [];
      var later := FindTypeSpec(s, cwd, folder, list[i + 1..]);
      if later.Some? {
        assert (later.value + found) + result == later.value + (found + result);
      }
    }
  }

  /** The registry that registering `regs` in order builds: the last one registered at the head. */
  function Prepended(regs: seq<MaildirType>): (list: seq<TypeNode>)
    ensures |list| == |regs|
  {
    if regs == [] then [] else [TypeNode(regs[|regs| - 1], None)] + Prepended(regs[..|regs| - 1])
  }

  /** The detected types of `regs`, in registration order. */
  function Detected(s: State, cwd: int, folder: Path, regs: seq<MaildirType>): seq<TypeNode>
  {
    if regs == [] then []
    else
      var t := regs[|regs| - 1];
      Detected(s, cwd, folder, regs[..|regs| - 1]) + if Hit(s, cwd, folder, t) then [TypeNode(t, None)] else []
  }

  /** Walking the prepend-built registry head to tail and prepending again gives registration order. */
  lemma {:induction false} FindTypeInRegistrationOrder(s: State, cwd: int, folder: Path, regs: seq<MaildirType>)
    requires OpenAt(s, cwd, folder, false).Ok?
    ensures FindTypeSpec(s, cwd, folder, Prepended(regs)) == Some(Detected(s, cwd, folder, regs))
  {
    if regs != [] {
      var list := Prepended(regs);
      assert list[1..] == Prepended(regs[..|regs| - 1]);
      FindTypeInRegistrationOrder(s, cwd, folder, regs[..|regs| - 1]);
    }
  }

  // ---------------------------------------------------------------------
  // Metadata files

  /** The metadata files of every type in `list`, in list order, duplicates kept. */
  function AllMetafiles(list: seq<TypeNode>): seq<string>
  {
    if list == [] then []
    else
      var n := list[|list| - 1];
      AllMetafiles(list[..|list| - 1]) + if n.t.metafiles.Some? then n.t.metafiles.value else []
  }

  /** A name is listed exactly when one of the types lists it. */
  lemma {:induction false} AllMetafilesExact(list: seq<TypeNode>, x: string)
    ensures x in AllMetafiles(list) <==>
            exists i | 0 <= i < |list| :: list[i].t.metafiles.Some? && x in list[i].t.metafiles.value
  {
    if list != [] {
      var init := list[..|list| - 1];
      AllMetafilesExact(init, x);
      if exists i | 0 <= i < |list| :: list[i].t.metafiles.Some? && x in list[i].t.metafiles.value {
        var i :| 0 <= i < |list| && list[i].t.metafiles.Some? && x in list[i].t.metafiles.value;
        if i < |init| {
          assert init[i] == list[i];
        }
      }
      if exists i | 0 <= i < |init| :: init[i].t.metafiles.Some? && x in init[i].t.metafiles.value {
        var i :| 0 <= i < |init| && init[i].t.metafiles.Some? && x in init[i].t.metafiles.value;
        assert list[i] == init[i];
      }
    }
  }

  /** The names of a prefix of the registry are no more than all of them. */
  lemma {:induction false} AllMetafilesPrefix(list: seq<TypeNode>, i: nat)
    requires i <= |list|
    ensures |AllMetafiles(list[..i])| <= |AllMetafiles(list)|
  {
    if i < |list| {
      var init := list[..|list| - 1];
      assert init[..i] == list[..i];
      AllMetafilesPrefix(init, i);
      var n := list[|list| - 1];
      assert AllMetafiles(list) == AllMetafiles(init) + if n.t.metafiles.Some? then n.t.metafiles.value else [];
    } else {
      assert list[..i] == list;
    }
  }

  /** With the two shipped backends, the metadata files are Dovecot's nine. */
  lemma ShippedMetafiles()
    ensures AllMetafiles(Prepended([Courier.Descriptor, Dovecot.Descriptor])) == Dovecot.Metafiles
    ensures AllMetafiles(Prepended([Dovecot.Descriptor, Courier.Descriptor])) == Dovecot.Metafiles
  {
    var cn := TypeNode(Courier.Descriptor, None);
    var dn := TypeNode(Dovecot.Descriptor, None);
    assert Prepended([Courier.Descriptor]) == [cn];
    assert Prepended([Dovecot.Descriptor]) == [dn];
    assert AllMetafiles([cn]) == [];
    assert AllMetafiles([dn]) == Dovecot.Metafiles;
    assert [Courier.Descriptor, Dovecot.Descriptor][..1] == [Courier.Descriptor];
    assert [Dovecot.Descriptor, Courier.Descriptor][..1] == [Dovecot.Descriptor];
    assert [TypeNode(Dovecot.Descriptor, None), TypeNode(Courier.Descriptor, None)][..1] == [TypeNode(Dovecot.Descriptor, None)];
    assert [TypeNode(Courier.Descriptor, None), TypeNode(Dovecot.Descriptor, None)][..1] == [TypeNode(Courier.Descriptor, None)];
  }

  /** A NULL-terminated array holding `l`. */
  predicate Terminated(a: seq<Option<string>>, l: seq<string>)
  {
    |a| == |l| + 1 && a[|l|].None? && forall k | 0 <= k < |l| :: a[k] == Some(l[k])
  }

  /**
   * The slots of `ptr` bytes that the allocation at src/servertypes.c:56
   * provides for `count` names: the extra one is a byte, not a pointer.
   */
  function SlotsAsWritten(count: nat, ptr: nat): nat
    requires ptr > 0
  {
    (ptr * count + 1) / ptr
  }

  /**
   * As written, with 4- or 8-byte pointers, there is no slot for the
   * terminator stored at index `count`.
   */
  lemma TerminatorOutOfBounds(count: nat)
    ensures SlotsAsWritten(count, 8) == count && !(count < SlotsAsWritten(count, 8))
    ensures SlotsAsWritten(count, 4) == count && !(count < SlotsAsWritten(count, 4))
  {
  }

  /** The slots the array needs: one per name and one for the terminator. */
  function SlotsNeeded(count: nat): (n: nat)
    ensures n > count
  {
    count + 1
  }

  /** The counting loop of maildir_get_all_metafiles: one per name of every type. */
  method CountMetafiles(list: seq<TypeNode>) returns (c: nat)
    ensures c == |AllMetafiles(list)|
  {
    c := 0;
    var i := 0;
    while i < |list|
      invariant i <= |list|
      invariant c == |AllMetafiles(list[..i])|
    {
      assert list[..i + 1][..i] == list[..i];
      if list[i].t.metafiles.Some? {
        var l := list[i].t.metafiles.value;
        var j := 0;
        while j < |l|
          invariant j <= |l|
          invariant c == |AllMetafiles(list[..i])| + j
        {
          c := c + 1;
          j := j + 1;
        }
      }
      i := i + 1;
    }
    assert list[..i] == list;
  }

  /** The copying loop for one type: its names `l` go into the slots after the `before` already stored. */
  method CopyNames(a: array<Option<string>>, c0: nat, l: seq<string>, ghost before: seq<string>) returns (c: nat)
    requires c0 == |before| && |before| + |l| < a.Length
    requires forall k | 0 <= k < c0 :: a[k] == Some(before[k])
    modifies a
    ensures c == |before| + |l|
    ensures forall k | 0 <= k < c :: a[k] == Some((before + l)[k])
  {
    c := c0;
    var j := 0;
    while j < |l|
      invariant j <= |l|
      invariant c == |before| + j
      invariant forall k | 0 <= k < c :: a[k] == Some((before + l)[k])
    {
      a[c] := Some(l[j]);
      c := c + 1;
      j := j + 1;
    }
  }

  class Registry {
    /** type_list, head first. */
    var types: seq<TypeNode>
    /** The static metafile array; null until first computed. */
    var cache: array?<Option<string>>

    constructor ()
      ensures types == [] && cache == null
    {
      types := [];
      cache := null;
    }

    /** register_maildir_type: prepend a node with no private data. */
    method Register(t: MaildirType)
      modifies this`types
      ensures types == [TypeNode(t, None)] + old(types)
    {
      types := [TypeNode(t, None)] + types;
    }

    /** maildir_find_type(folder): walk the registry, prepending each detected type to the result. */
    method FindType(s: State, cwd: int, folder: Path) returns (r: Option<seq<TypeNode>>)
      ensures r == FindTypeSpec(s, cwd, folder, types)
    {
      var result: seq<TypeNode> := [];
      assert Behind(FindTypeSpec(s, cwd, folder, types[0..]), result) == FindTypeSpec(s, cwd, folder, types) by {
        assert types[0..] == types;
        var all := FindTypeSpec(s, cwd, folder, types);
        if all.Some? {
          assert all.value + [] == all.value;
        }
      }
      var i := 0;
      while i < |types|
        invariant i <= |types|
        invariant FindTypeSpec(s, cwd, folder, types) == Behind(FindTypeSpec(s, cwd, folder, types[i..]), result)
      {
        var hit := DetectCall(s, cwd, folder, types[i].t.detect);
        FindTypeStep(s, cwd, folder, types, i, result);
        if hit.None? {
          // detect exits the process
          return None;
        }
        var found := if hit.value then [TypeNode(types[i].t, None)] else [];
        result := found + result;
        i := i + 1;
      }
      assert types[i..] == [];
      assert [] + result == result;
      r := Some(result);
    }

    /**
     * maildir_get_all_metafiles: on the first call count the names, allocate
     * the array, copy the names in registry order and terminate it; later
     * calls return the cached array.
     */
    method GetAllMetafiles() returns (a: array<Option<string>>)
      modifies this`cache
      ensures old(cache) != null ==> a == old(cache) && cache == old(cache)
      ensures old(cache) == null ==> fresh(a) && cache == a && Terminated(a[..], AllMetafiles(types))
    {
      if cache != null {
        return cache;
      }
      var c := CountMetafiles(types);
      a := new Option<string>[SlotsNeeded(c)](_ => None);
      c := 0;
      var i := 0;
      while i < |types|
        invariant i <= |types|
        invariant c == |AllMetafiles(types[..i])| && a.Length == |AllMetafiles(types)| + 1
        invariant c <= |AllMetafiles(types)|
        invariant forall k | 0 <= k < c :: a[k] == Some(AllMetafiles(types[..i])[k])
      {
        assert types[..i + 1][..i] == types[..i];
        ghost var before := AllMetafiles(types[..i]);
        AllMetafilesPrefix(types, i + 1);
        if types[i].t.metafiles.Some? {
          var l := types[i].t.metafiles.value;
          assert AllMetafiles(types[..i + 1]) == before + l;
          c := CopyNames(a, c, l, before);
        } else {
          assert AllMetafiles(types[..i + 1]) == before;
        }
        i := i + 1;
      }
      assert types[..i] == types;
      a[c] := None;
      cache := a;
    }
  }
}

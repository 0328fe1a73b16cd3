/**
 * The server-type record of include/servertypes.h: a label (`name`), a detect
 * callback every type has, and optional capabilities (a C function pointer
 * that may be NULL becomes an Option).  A callback is named by the backend
 * function it points to; ServerTypes dispatches on that name.
 */
module TypeRecord {
  import opened Wrappers
  import opened Fs

  datatype DetectImpl = CourierDetect | DovecotDetect
  datatype OpenImpl = CourierOpen | DovecotOpen
  datatype Pop3Impl = CourierIsPop3 | DovecotIsPop3
  datatype SubscribedImpl = DovecotIsSubscribed
  datatype SubscribeImpl = DovecotSubscribe
  datatype CloseImpl = CourierClose | DovecotClose

  /**
   * No shipped backend supplies the UIDL callbacks.  A type that did is
   * described by the UIDL its get callback reports for each message name,
   * and by whether it has a set callback (whose calls the merge records).
   */
  datatype UidlGetImpl = UidlTable(table: map<string, string>)
  datatype UidlSetImpl = UidlRecorder

  datatype MaildirType = MaildirType(
    name: string,
    detect: DetectImpl,
    metafiles: Option<seq<string>>,
    open: Option<OpenImpl>,
    isPop3: Option<Pop3Impl>,
    getUidl: Option<UidlGetImpl>,
    setUidl: Option<UidlSetImpl>,
    isSubscribed: Option<SubscribedImpl>,
    subscribe: Option<SubscribeImpl>,
    close: Option<CloseImpl>)

  /** The private data an open callback returns (a NULL pointer is None in TypeNode). */
  datatype Pvt =
    | CourierData(folder: Path, dirfd: int)
    | DovecotData(folder: Path, dirfd: int, uidl: seq<(string, string)>)

  /** One node of a maildir_type_list: a type and its private data. */
  datatype TypeNode = TypeNode(t: MaildirType, pvt: Option<Pvt>)

  /** The close calls maildir_type_list_free makes, in list order: one per node with both data and a close callback. */
  function ClosedBy(list: seq<TypeNode>): seq<(CloseImpl, Pvt)>
  {
    if list == [] then []
    else
      var n := list[|list| - 1];
      ClosedBy(list[..|list| - 1]) + (if n.pvt.Some? && n.t.close.Some? then [(n.t.close.value, n.pvt.value)] else [])
  }

  /** Exactly the nodes with data and a close callback are closed, each with its own data. */
  lemma {:induction false} ClosedByExact(list: seq<TypeNode>, c: CloseImpl, p: Pvt)
    ensures (c, p) in ClosedBy(list) <==>
            exists i | 0 <= i < |list| :: list[i].pvt == Some(p) && list[i].t.close == Some(c)
    ensures |ClosedBy(list)| <= |list|
  {
    if list != [] {
      var init := list[..|list| - 1];
      ClosedByExact(init, c, p);
      var n := list[|list| - 1];
      if (c, p) in ClosedBy(list) && (c, p) !in ClosedBy(init) {
        assert n.pvt == Some(p) && n.t.close == Some(c);
      }
      if exists i | 0 <= i < |list| :: list[i].pvt == Some(p) && list[i].t.close == Some(c) {
        var i :| 0 <= i < |list| && list[i].pvt == Some(p) && list[i].t.close == Some(c);
        if i < |init| {
          assert init[i] == list[i];
        }
      }
    }
  }

  /** maildir_type_list_free: walk the list, closing each node's data where the type can. */
  method ListFree(list: seq<TypeNode>) returns (closed: seq<(CloseImpl, Pvt)>)
    ensures closed == ClosedBy(list)
  {
    closed := [];
    var i := 0;
    while i < |list|
      invariant i <= |list|
      invariant closed == ClosedBy(list[..i])
    {
      var n := list[i];
      assert list[..i + 1][..i] == list[..i];
      if n.pvt.Some? && n.t.close.Some? {
        closed := closed + [(n.t.close.value, n.pvt.value)];
      }
      i := i + 1;
    }
    assert list[..i] == list;
  }
}

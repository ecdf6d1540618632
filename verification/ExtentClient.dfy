/**
  The write-back cache of the extent client: data and attributes. Each function is
  one mutex-held section of get, getattr, put, remove or flush; the RPC to the extent
  server is made between sections.
 */
module ExtentClient {
  import opened Common

  type Data = string

  datatype Entry = Entry(buf: Data, dirty: bool, deleted: bool)

  type Cache = map<nat, Entry>

  datatype Attr = Attr(kind: nat, atime: nat, mtime: nat, ctime: nat, size: nat)

  const FreshAttr := Attr(0, 0, 0, 0, 0)

  const FreshEntry := Entry("", false, false)

  function EntryOf(cache: Cache, eid: nat): Entry
  {
    if eid in cache then cache[eid] else FreshEntry
  }

  /** get, after the server has answered. */
  function Filled(cache: Cache, eid: nat, buf: Data): Cache
  {
    cache[eid := EntryOf(cache, eid).(buf := buf, dirty := false)]
  }

  function Written(cache: Cache, eid: nat, buf: Data): Cache
  {
    cache[eid := EntryOf(cache, eid).(buf := buf, dirty := true)]
  }

  function Removed(cache: Cache, eid: nat): Cache
  {
    cache[eid := EntryOf(cache, eid).(deleted := true)]
  }

  /** What flush sends to the server after it has dropped the entry. */
  datatype FlushRpc = NoRpc | RemoveRpc | PutRpc(buf: Data)

  function FlushOf(cache: Cache, eid: nat): FlushRpc
  {
    if eid !in cache then NoRpc
    else if cache[eid].deleted then RemoveRpc
    else if cache[eid].dirty then PutRpc(cache[eid].buf)
    else NoRpc
  }

  type AttrCache = map<nat, Attr>

  function AttrOf(acache: AttrCache, eid: nat): Attr
  {
    if eid in acache then acache[eid] else FreshAttr
  }

  /** put creates the attributes when they are not cached, and sets the size only. */
  function Sized(acache: AttrCache, eid: nat, size: nat): AttrCache
  {
    acache[eid := AttrOf(acache, eid).(size := size)]
  }

  /** flush drops the attributes only together with data. */
  function AttrsFlushed(cache: Cache, acache: AttrCache, eid: nat): AttrCache
  {
    if eid in cache then acache - {eid} else acache
  }

  class ExtentCache {
    var bcache: Cache
    var acache: AttrCache

    constructor ()
      ensures bcache == map[] && acache == map[]
    {
      bcache, acache := map[], map[];
    }

    /** get, up to the return of a hit or the RPC of a miss. */
    method Lookup(eid: nat) returns (hit: Option<Data>)
      ensures hit == if eid in bcache then Some(bcache[eid].buf) else None
    {
      if eid in bcache { hit := Some(bcache[eid].buf); } else { hit := None; }
    }

    method Fill(eid: nat, buf: Data)
      modifies this`bcache
      ensures bcache == Filled(old(bcache), eid, buf)
    {
      var e := if eid in bcache then bcache[eid] else FreshEntry;
      bcache := bcache[eid := Entry(buf, false, e.deleted)];
    }

    /** getattr, up to the return of a hit or the RPC of a miss. */
    method LookupAttr(eid: nat) returns (hit: Option<Attr>)
      ensures hit == if eid in acache then Some(acache[eid]) else None
    {
      if eid in acache { hit := Some(acache[eid]); } else { hit := None; }
    }

    method FillAttr(eid: nat, a: Attr)
      modifies this`acache
      ensures acache == old(acache)[eid := a]
    {
      acache := acache[eid := a];
    }

    method Put(eid: nat, buf: Data)
      modifies this
      ensures bcache == Written(old(bcache), eid, buf)
      ensures acache == Sized(old(acache), eid, |buf|)
    {
      var a := if eid in acache then acache[eid] else FreshAttr;
      acache := acache[eid := a.(size := |buf|)];
      var e := if eid in bcache then bcache[eid] else FreshEntry;
      bcache := bcache[eid := Entry(buf, true, e.deleted)];
    }

    method Remove(eid: nat)
      modifies this`bcache
      ensures bcache == Removed(old(bcache), eid)
    {
      var e := if eid in bcache then bcache[eid] else FreshEntry;
      bcache := bcache[eid := Entry(e.buf, e.dirty, true)];
    }

    /** flush, up to its RPC: the entry leaves the cache whatever is sent. The
        attributes leave it only together with data. */
    method Flush(eid: nat) returns (rpc: FlushRpc)
      modifies this
      ensures bcache == old(bcache) - {eid}
      ensures acache == AttrsFlushed(old(bcache), old(acache), eid)
      ensures rpc == FlushOf(old(bcache), eid)
    {
      rpc := NoRpc;
      if eid in bcache {
        var bce := bcache[eid];
        bcache := bcache - {eid};
        acache := acache - {eid};
        if bce.deleted { rpc := RemoveRpc; }
        else if bce.dirty { rpc := PutRpc(bce.buf); }
      }
    }
  }
}

/**
  One client's data and attribute caches over any run of calls. A client reads its own
  writes, data and size, up to the flush. A flush drops cached attributes exactly when
  data was cached, so attributes asked for without touching the data outlive it.
 */
module ExtentAttributes {
  import opened Common
  import opened ExtentClient

  datatype Caches = Caches(data: Cache, attrs: AttrCache)

  /** `answer` is what the server would say, if it is asked. */
  datatype Call =
    | Get(eid: nat, answer: Data)
    | GetAttr(eid: nat, attr: Attr)
    | Put(eid: nat, buf: Data)
    | Remove(eid: nat)
    | Flush(eid: nat)

  function After(c: Caches, call: Call): Caches
  {
    match call
    case Get(eid, answer) => if eid in c.data then c else c.(data := Filled(c.data, eid, answer))
    case GetAttr(eid, attr) => if eid in c.attrs then c else c.(attrs := c.attrs[eid := attr])
    case Put(eid, buf) => Caches(Written(c.data, eid, buf), Sized(c.attrs, eid, |buf|))
    case Remove(eid) => c.(data := Removed(c.data, eid))
    case Flush(eid) => Caches(c.data - {eid}, AttrsFlushed(c.data, c.attrs, eid))
  }

  function AfterAll(calls: seq<Call>): Caches
    decreases |calls|
  {
    if calls == [] then Caches(map[], map[])
    else After(AfterAll(calls[..|calls| - 1]), calls[|calls| - 1])
  }

  /** What get and getattr return. */
  function GetResult(c: Caches, eid: nat, answer: Data): Data
  {
    if eid in c.data then c.data[eid].buf else answer
  }

  function GetAttrResult(c: Caches, eid: nat, answer: Attr): Attr
  {
    if eid in c.attrs then c.attrs[eid] else answer
  }

  /** Between a put and the flush, whatever else is called and whatever the server would
      say, get returns the data put and getattr its size. */
  lemma {:induction false} ReadsOwnWrites(before: seq<Call>, eid: nat, buf: Data, mid: seq<Call>,
                                          answer: Data, attr: Attr)
    requires forall k | 0 <= k < |mid| :: mid[k].eid == eid ==> !mid[k].Put? && !mid[k].Flush?
    ensures var c := AfterAll(before + [Put(eid, buf)] + mid);
            && eid in c.data && eid in c.attrs
            && GetResult(c, eid, answer) == buf && GetAttrResult(c, eid, attr).size == |buf|
    decreases |mid|
  {
    var all := before + [Put(eid, buf)] + mid;
    if mid == [] {
      assert all[..|all| - 1] == before;
    } else {
      assert all[..|all| - 1] == before + [Put(eid, buf)] + mid[..|mid| - 1];
      ReadsOwnWrites(before, eid, buf, mid[..|mid| - 1], answer, attr);
      assert all[|all| - 1] == mid[|mid| - 1];
    }
  }

  /** The data of the extent was read, written or removed since its last flush. */
  predicate Touched(calls: seq<Call>, eid: nat)
    decreases |calls|
  {
    && calls != []
    && var last := calls[|calls| - 1];
       if last.eid == eid && !last.GetAttr? then !last.Flush? else Touched(calls[..|calls| - 1], eid)
  }

  /** The attributes were asked for or the extent written, since a flush dropped them. */
  predicate Known(calls: seq<Call>, eid: nat)
    decreases |calls|
  {
    && calls != []
    && var last, rest := calls[|calls| - 1], calls[..|calls| - 1];
       || (last.eid == eid && (last.GetAttr? || last.Put?))
       || (Known(rest, eid) && !(last == Flush(eid) && Touched(rest, eid)))
  }

  /** Data is cached exactly when it was touched since the last flush, and attributes
      exactly when they became known since the last flush that found data. */
  lemma {:induction false} CachedIff(calls: seq<Call>, eid: nat)
    ensures eid in AfterAll(calls).data <==> Touched(calls, eid)
    ensures eid in AfterAll(calls).attrs <==> Known(calls, eid)
    decreases |calls|
  {
    if calls != [] { CachedIff(calls[..|calls| - 1], eid); }
  }

  /** After a flush getattr asks the server exactly when nothing was cached or data was
      touched since the flush before; otherwise it repeats the old attributes. */
  lemma {:induction false} StaleAttrIff(calls: seq<Call>, eid: nat, attr: Attr)
    ensures var c, f := AfterAll(calls), AfterAll(calls + [Flush(eid)]);
            if Known(calls, eid) && !Touched(calls, eid)
            then eid in c.attrs && GetAttrResult(f, eid, attr) == c.attrs[eid]
            else GetAttrResult(f, eid, attr) == attr
  {
    CachedIff(calls, eid);
    assert (calls + [Flush(eid)])[..|calls + [Flush(eid)]| - 1] == calls;
  }
}

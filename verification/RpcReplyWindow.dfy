/**
  The server side of at-most-once RPC: the reply list kept per client, with
  `checkduplicate_and_update`, `add_reply` and `free_reply_window`. The list is
  sorted and trimmed; it stands for an unbounded log of executed requests and a
  watermark of acknowledged xids.
 */
module RpcReplyWindow {
  import opened Common

  /** A reply buffer: where it is allocated and what it holds. */
  datatype Buffer = Buffer(address: nat, content: string)

  /** `reply_t`: a reply buffer is present exactly when cb_present holds. */
  datatype Entry = Entry(xid: nat, reply: Option<Buffer>)

  datatype Verdict = New | InProgress | Done(buf: Buffer) | Forgotten | Failed

  /** List, verdict and freed buffers after one request. */
  datatype Checked = Checked(list: seq<Entry>, verdict: Verdict, freed: seq<Buffer>)

  function BufOf(e: Entry): seq<Buffer>
  {
    if e.reply.Some? then [e.reply.value] else []
  }

  /** The buffers stored in a list, in order. */
  function Buffers(list: seq<Entry>): seq<Buffer>
  {
    if list == [] then [] else BufOf(list[0]) + Buffers(list[1..])
  }

  /** Number of leading entries below x. */
  function Below(list: seq<Entry>, x: nat): (k: nat)
    ensures k <= |list|
    ensures forall j | 0 <= j < k :: list[j].xid < x
    ensures k < |list| ==> list[k].xid >= x
  {
    if list == [] || list[0].xid >= x then 0 else 1 + Below(list[1..], x)
  }

  function Trim(list: seq<Entry>, xidRep: nat): seq<Entry>
  {
    var rest := list[Below(list, xidRep)..];
    if rest == [] || rest[0].xid != xidRep then [Entry(xidRep, None)] + rest else rest
  }

  /** The answer for xid in a list whose front is below it. */
  function Find(list: seq<Entry>, xid: nat): Checked
  {
    var k := Below(list, xid);
    if k < |list| && list[k].xid == xid then
      Checked(list, if list[k].reply.Some? then Done(list[k].reply.value) else InProgress, [])
    else Checked(list[..k] + [Entry(xid, None)] + list[k..], New, [])
  }

  function Check(list: seq<Entry>, xid: nat, xidRep: nat): Checked
  {
    if xidRep >= xid then Checked(list, Failed, [])
    else if list == [] then Checked([Entry(xidRep, None), Entry(xid, None)], New, [])
    else if xid <= list[0].xid then Checked(list, Forgotten, [])
    else
      var c := Find(Trimmed(list, xidRep), xid);
      if xidRep > list[0].xid then c.(freed := Buffers(list[..Below(list, xidRep)])) else c
  }

  /** An acknowledgement at or below the front trims nothing. */
  function Trimmed(list: seq<Entry>, xidRep: nat): seq<Entry>
    requires list != []
  {
    if xidRep > list[0].xid then Trim(list, xidRep) else list
  }

  /** Index of the entry with this xid; the length when there is none. */
  function IndexOf(list: seq<Entry>, xid: nat): (k: nat)
    ensures k <= |list|
    ensures k < |list| ==> list[k].xid == xid
    ensures forall j | 0 <= j < k :: list[j].xid != xid
  {
    if list == [] || list[0].xid == xid then 0 else 1 + IndexOf(list[1..], xid)
  }

  /** None when the source's assertion fails. */
  function AddReply(list: seq<Entry>, xid: nat, buf: Buffer): Option<seq<Entry>>
  {
    var k := IndexOf(list, xid);
    if k == |list| || list[k].reply.Some? then None
    else Some(list[k := Entry(xid, Some(buf))])
  }

  class ReplyWindow {
    var window: map<nat, seq<Entry>>

    constructor ()
      ensures window == map[]
    {
      window := map[];
    }

    function ListOf(nonce: nat): seq<Entry>
      reads this
    {
      if nonce in window then window[nonce] else []
    }

    ghost predicate Valid()
      reads this
    {
      forall n | n in window :: Increasing(window[n])
    }

    method CheckDuplicateAndUpdate(nonce: nat, xid: nat, xidRep: nat) returns (verdict: Verdict, freed: seq<Buffer>)
      requires Valid()
      modifies this
      ensures Valid()
      ensures var c := Check(old(ListOf(nonce)), xid, xidRep);
              && verdict == c.verdict && freed == c.freed
              && (!verdict.Failed? ==> window == old(window)[nonce := c.list])
    {
      freed := [];
      if xidRep >= xid { return Failed, freed; }
      var list := ListOf(nonce);
      if list == [] {
        window := window[nonce := [Entry(xidRep, None), Entry(xid, None)]];
        return New, freed;
      }
      if xid <= list[0].xid {
        window := window[nonce := list];
        return Forgotten, freed;
      }
      CheckIncreasing(list, xid, xidRep);
      if xidRep > list[0].xid {
        TrimIncreasing(list, xidRep);
        list, freed := FreeAcknowledged(list, xidRep);
      }
      list, verdict := FindOrInsert(list, xid);
      window := window[nonce := list];
    }

    /** The trimming loop: free every buffer below xidRep, then erase them. */
    static method FreeAcknowledged(list: seq<Entry>, xidRep: nat) returns (rest: seq<Entry>, freed: seq<Buffer>)
      ensures rest == Trim(list, xidRep)
      ensures freed == Buffers(list[..Below(list, xidRep)])
    {
      freed := [];
      var it := 0;
      while it < |list| && list[it].xid < xidRep
        invariant 0 <= it <= |list| && forall j | 0 <= j < it :: list[j].xid < xidRep
        invariant freed == Buffers(list[..it])
      {
        BuffersSnoc(list, it);
        freed := freed + BufOf(list[it]);
        it := it + 1;
      }
      BelowExact(list, xidRep, it);
      rest := list[it..];
      if rest != [] {
        if rest[0].xid != xidRep { rest := [Entry(xidRep, None)] + rest; }
      } else {
        rest := [Entry(xidRep, None)] + rest;
      }
    }

    /** The last part: append, find or insert the entry of xid. */
    static method FindOrInsert(list: seq<Entry>, xid: nat) returns (list': seq<Entry>, verdict: Verdict)
      requires list != [] && Increasing(list)
      ensures var c := Find(list, xid); list' == c.list && verdict == c.verdict
    {
      if xid > list[|list| - 1].xid {
        BelowExact(list, xid, |list|);
        assert list[..|list|] == list && list[|list|..] == [];
        return list + [Entry(xid, None)], New;
      }
      var it := 0;
      while it < |list|
        invariant 0 <= it <= |list|
        invariant forall j | 0 <= j < it :: list[j].xid < xid
      {
        if list[it].xid == xid {
          BelowExact(list, xid, it);
          return list, if list[it].reply.Some? then Done(list[it].reply.value) else InProgress;
        } else if list[it].xid > xid {
          break;
        }
        it := it + 1;
      }
      BelowExact(list, xid, it);
      return list[..it] + [Entry(xid, None)] + list[it..], New;
    }
  
    method RecordReply(nonce: nat, xid: nat, buf: Buffer) returns (ok: bool)
      requires Valid()
      modifies this
      ensures Valid()
      ensures var r := AddReply(old(ListOf(nonce)), xid, buf);
              && ok == r.Some?
              && (ok ==> window == old(window)[nonce := r.value])
    {
      var list := ListOf(nonce);
      var it := 0;
      while it < |list|
        invariant 0 <= it <= |list|
        invariant forall j | 0 <= j < it :: list[j].xid != xid
      {
        if list[it].xid == xid {
          IndexExact(list, xid, it);
          if list[it].reply.Some? { return false; }
          window := window[nonce := list[it := Entry(xid, Some(buf))]];
          return true;
        }
        it := it + 1;
      }
      IndexExact(list, xid, |list|);
      return false;
    }

    /** Every stored buffer of every client is freed once, and no list is left. */
    method FreeReplyWindow() returns (freed: map<nat, seq<Buffer>>)
      modifies this
      ensures window == map[]
      ensures freed.Keys == old(window).Keys
      ensures forall n | n in freed :: freed[n] == Buffers(old(window)[n])
    {
      freed := map[];
      var todo := window.Keys;
      while todo != {}
        invariant window == old(window) && todo + freed.Keys == window.Keys && todo !! freed.Keys
        invariant forall n | n in freed :: freed[n] == Buffers(window[n])
        decreases todo
      {
        var clt :| clt in todo;
        var buffers := [];
        var list := window[clt];
        for it := 0 to |list|
          invariant window == old(window) && buffers == Buffers(list[..it])
        {
          BuffersSnoc(list, it);
          buffers := buffers + BufOf(list[it]);
        }
        assert list[..|list|] == list;
        ghost var done := freed.Keys;
        freed := freed[clt := buffers];
        todo := todo - {clt};
        assert freed.Keys == done + {clt};
      }
      window := map[];
    }
  }

  /** Strictly increasing xids. */
  predicate Increasing(list: seq<Entry>)
  {
    forall i, j | 0 <= i < j < |list| :: list[i].xid < list[j].xid
  }

  lemma {:induction false} BelowExact(list: seq<Entry>, x: nat, k: nat)
    requires k <= |list| && forall j | 0 <= j < k :: list[j].xid < x
    requires k < |list| ==> list[k].xid >= x
    ensures Below(list, x) == k
    decreases k
  {
    if k > 0 { BelowExact(list[1..], x, k - 1); }
  }

  lemma {:induction false} IndexExact(list: seq<Entry>, x: nat, k: nat)
    requires k <= |list| && forall j | 0 <= j < k :: list[j].xid != x
    requires k < |list| ==> list[k].xid == x
    ensures IndexOf(list, x) == k
    decreases k
  {
    if k > 0 { IndexExact(list[1..], x, k - 1); }
  }

  lemma {:induction false} BuffersConcat(a: seq<Entry>, b: seq<Entry>)
    ensures Buffers(a + b) == Buffers(a) + Buffers(b)
  {
    if a == [] {
      assert a + b == b;
    } else {
      BuffersConcat(a[1..], b);
      assert (a + b)[1..] == a[1..] + b && (a + b)[0] == a[0];
      assert BufOf(a[0]) + (Buffers(a[1..]) + Buffers(b)) == (BufOf(a[0]) + Buffers(a[1..])) + Buffers(b);
    }
  }

  lemma {:induction false} BuffersSnoc(list: seq<Entry>, k: nat)
    requires k < |list|
    ensures Buffers(list[..k + 1]) == Buffers(list[..k]) + BufOf(list[k])
  {
    BuffersConcat(list[..k], [list[k]]);
    assert list[..k] + [list[k]] == list[..k + 1];
    assert [list[k]][1..] == [];
  }

  lemma {:induction false} TrimIncreasing(list: seq<Entry>, xidRep: nat)
    requires Increasing(list)
    ensures Increasing(Trim(list, xidRep)) && Trim(list, xidRep)[0].xid == xidRep
  {
  }

  lemma {:induction false} FindIncreasing(list: seq<Entry>, xid: nat)
    requires Increasing(list)
    ensures Increasing(Find(list, xid).list)
  {
  }

  lemma {:induction false} CheckIncreasing(list: seq<Entry>, xid: nat, xidRep: nat)
    requires Increasing(list)
    ensures Increasing(Check(list, xid, xidRep).list)
  {
    if list != [] {
      TrimIncreasing(list, xidRep);
      FindIncreasing(Trim(list, xidRep), xid);
      FindIncreasing(list, xid);
    }
  }

  // ----- refinement of an unbounded log -----

  /** Every request ever executed, with its reply once finished, and the largest
      acknowledgement received (None before the first request). */
  datatype Log = Log(watermark: Option<nat>, executed: map<nat, Option<Buffer>>)

  function Max(a: nat, b: nat): nat
  {
    if a < b then b else a
  }

  function LogVerdict(log: Log, xid: nat): Verdict
  {
    if log.watermark.Some? && xid <= log.watermark.value then Forgotten
    else if xid !in log.executed then New
    else if log.executed[xid].Some? then Done(log.executed[xid].value)
    else InProgress
  }

  function LogCheck(log: Log, xid: nat, xidRep: nat): Log
  {
    var v := LogVerdict(log, xid);
    Log(Some(if log.watermark.Some? then Max(log.watermark.value, xidRep) else xidRep),
        if v.New? then log.executed[xid := None] else log.executed)
  }

  ghost predicate EntriesLogged(list: seq<Entry>, executed: map<nat, Option<Buffer>>)
  {
    forall k | 1 <= k < |list| :: list[k].xid in executed && list[k].reply == executed[list[k].xid]
  }

  ghost predicate AllListed(list: seq<Entry>, executed: map<nat, Option<Buffer>>, w: nat)
  {
    forall x | x in executed && x > w :: Lists(list, x)
  }

  ghost predicate Lists(list: seq<Entry>, x: nat)
  {
    exists k :: 1 <= k < |list| && list[k].xid == x
  }

  /** The list is the watermark followed by exactly the executed requests above
      it, in increasing order. */
  ghost predicate Refines(list: seq<Entry>, log: Log)
  {
    && (list == [] ==> log == Log(None, map[]))
    && (list != [] ==>
          && log.watermark == Some(list[0].xid)
          && (list[0].xid in log.executed ==> list[0].reply == log.executed[list[0].xid])
          && (list[0].xid !in log.executed ==> list[0].reply == None)
          && EntriesLogged(list, log.executed)
          && AllListed(list, log.executed, list[0].xid))
    && Increasing(list)
  }

  /** Dropping entries keeps those that are left, whatever is put in front. */
  lemma {:induction false} DropListed(list: seq<Entry>, k: nat, t: seq<Entry>, x: nat)
    requires k <= |list| && Lists(list, x) && forall j | 0 <= j < k :: list[j].xid < x
    requires (t == list[k..] && t != [] && t[0].xid != x) || (|t| == |list| - k + 1 && t[1..] == list[k..])
    ensures Lists(t, x)
  {
    var j :| 1 <= j < |list| && list[j].xid == x;
    if t == list[k..] && t != [] && t[0].xid != x {
      assert t[j - k].xid == x;
    } else {
      assert t[j - k + 1] == t[1..][j - k];
    }
  }

  lemma {:induction false} TrimListed(list: seq<Entry>, executed: map<nat, Option<Buffer>>, xidRep: nat)
    requires list != [] && xidRep > list[0].xid && Increasing(list)
    requires EntriesLogged(list, executed) && AllListed(list, executed, list[0].xid)
    ensures EntriesLogged(Trim(list, xidRep), executed) && AllListed(Trim(list, xidRep), executed, xidRep)
  {
    var k := Below(list, xidRep);
    var t := Trim(list, xidRep);
    assert k >= 1;
    forall x | x in executed && x > xidRep ensures Lists(t, x) {
      assert Lists(list, x);
      DropListed(list, k, t, x);
    }
  }

  lemma {:induction false} TrimRefines(list: seq<Entry>, log: Log, xidRep: nat)
    requires Refines(list, log) && list != [] && xidRep > list[0].xid
    ensures Refines(Trim(list, xidRep), log.(watermark := Some(xidRep)))
  {
    TrimIncreasing(list, xidRep);
    TrimListed(list, log.executed, xidRep);
    var k := Below(list, xidRep);
    if xidRep in log.executed {
      var j :| 1 <= j < |list| && list[j].xid == xidRep;
      assert j == k;
      assert Trim(list, xidRep)[0] == list[k];
    } else if k < |list| {
      assert list[k].xid in log.executed;
    }
  }

  lemma {:induction false} InsertListed(list: seq<Entry>, executed: map<nat, Option<Buffer>>, xid: nat, k: nat)
    requires 1 <= k <= |list| && xid !in executed
    requires EntriesLogged(list, executed) && AllListed(list, executed, list[0].xid)
    ensures var t := list[..k] + [Entry(xid, None)] + list[k..];
            EntriesLogged(t, executed[xid := None]) && AllListed(t, executed[xid := None], list[0].xid)
  {
    var t := list[..k] + [Entry(xid, None)] + list[k..];
    var e := executed[xid := None];
    assert t[k] == Entry(xid, None);
    forall x | x in e && x > list[0].xid ensures Lists(t, x) {
      if x == xid {
        assert t[k].xid == x;
      } else {
        assert Lists(list, x);
        var j :| 1 <= j < |list| && list[j].xid == x;
        assert t[if j < k then j else j + 1] == list[j];
      }
    }
  }

  lemma {:induction false} FindRefines(list: seq<Entry>, log: Log, xid: nat)
    requires Refines(list, log) && list != [] && xid > list[0].xid
    ensures Find(list, xid).verdict == LogVerdict(log, xid)
    ensures Refines(Find(list, xid).list,
                    if Find(list, xid).verdict.New? then log.(executed := log.executed[xid := None]) else log)
  {
    FindIncreasing(list, xid);
    var k := Below(list, xid);
    if !(k < |list| && list[k].xid == xid) {
      assert !Lists(list, xid);
      InsertListed(list, log.executed, xid, k);
    }
  }

  /** The server's answer and its new list are those of the log: forgotten exactly
      at or below the watermark, new exactly when never executed, and otherwise
      the recorded reply or in progress. */
  lemma {:induction false} CheckRefines(list: seq<Entry>, log: Log, xid: nat, xidRep: nat)
    requires Refines(list, log) && xidRep < xid
    ensures var c := Check(list, xid, xidRep);
            && c.verdict == LogVerdict(log, xid)
            && Refines(c.list, if c.verdict.Forgotten? then log else LogCheck(log, xid, xidRep))
  {
    if list == [] {
      var t := Check(list, xid, xidRep).list;
      assert t[1].xid == xid;
    } else if xid > list[0].xid {
      LaterRefines(list, log, xid, xidRep);
    }
  }

  lemma {:induction false} LaterRefines(list: seq<Entry>, log: Log, xid: nat, xidRep: nat)
    requires Refines(list, log) && xidRep < xid && list != [] && xid > list[0].xid
    ensures var f := Find(Trimmed(list, xidRep), xid);
            f.verdict == LogVerdict(log, xid) && Refines(f.list, LogCheck(log, xid, xidRep))
  {
    var log' := log.(watermark := Some(Max(list[0].xid, xidRep)));
    TrimmedRefines(list, log, xidRep);
    FindRefines(Trimmed(list, xidRep), log', xid);
    assert LogVerdict(log, xid) == LogVerdict(log', xid);
    assert LogCheck(log, xid, xidRep) ==
           if LogVerdict(log, xid).New? then log'.(executed := log.executed[xid := None]) else log';
  }

  lemma {:induction false} TrimmedRefines(list: seq<Entry>, log: Log, xidRep: nat)
    requires Refines(list, log) && list != []
    ensures var trimmed := Trimmed(list, xidRep);
            var w := Max(list[0].xid, xidRep);
            trimmed != [] && trimmed[0].xid == w && Refines(trimmed, log.(watermark := Some(w)))
  {
    if xidRep > list[0].xid {
      TrimRefines(list, log, xidRep);
      TrimIncreasing(list, xidRep);
    }
  }

  /** add_reply finds the slot of a running request exactly when no client
      acknowledgement beyond that request has arrived. */
  lemma {:induction false} AddReplyRefines(list: seq<Entry>, log: Log, xid: nat, buf: Buffer)
    requires Refines(list, log) && xid in log.executed && log.executed[xid].None?
    ensures AddReply(list, xid, buf).Some? <==> log.watermark.value <= xid
    ensures AddReply(list, xid, buf).Some? ==>
              Refines(AddReply(list, xid, buf).value, log.(executed := log.executed[xid := Some(buf)]))
  {
    var k := IndexOf(list, xid);
    if xid > list[0].xid {
      var j :| 1 <= j < |list| && list[j].xid == xid;
      assert j == k;
    }
    if AddReply(list, xid, buf).Some? { RecordListed(list, log.executed, k, buf); }
  }

  lemma {:induction false} RecordListed(list: seq<Entry>, executed: map<nat, Option<Buffer>>, k: nat, buf: Buffer)
    requires k < |list| && Increasing(list)
    requires EntriesLogged(list, executed) && AllListed(list, executed, list[0].xid)
    ensures var t := list[k := Entry(list[k].xid, Some(buf))];
            var e := executed[list[k].xid := Some(buf)];
            EntriesLogged(t, e) && AllListed(t, e, list[0].xid)
  {
    var t := list[k := Entry(list[k].xid, Some(buf))];
    var e := executed[list[k].xid := Some(buf)];
    forall x | x in e && x > list[0].xid ensures Lists(t, x) {
      var j :| 0 <= j < |list| && list[j].xid == x && (j >= 1 || j == k);
      assert t[j].xid == x;
    }
  }
}

/**
  Runs of one client's reply list: any sequence of requests, whatever they
  acknowledge, and of finished executions.
 */
module RpcServerRuns {
  import opened Common
  import opened RpcReplyWindow

  datatype Event =
    | Request(xid: nat, xidRep: nat)     // checkduplicate_and_update
    | Finished(xid: nat, buf: Buffer)    // add_reply for a running request

  /** The list, and the history of the run: the log it stands for, the requests
      handed to a handler, the buffers stored and the buffers freed, in order. */
  datatype Server = Server(list: seq<Entry>, log: Log, news: seq<nat>, stored: seq<Buffer>, freed: seq<Buffer>)

  const FreshServer := Server([], Log(None, map[]), [], [], [])

  /** None: an assertion of the source fails, or the request was not running. */
  function Step(s: Server, e: Event): Option<Server>
  {
    match e
    case Request(xid, xidRep) =>
      var c := Check(s.list, xid, xidRep);
      if c.verdict.Failed? then None
      else Some(After(s, c, xid, xidRep))
    case Finished(xid, buf) =>
      if xid !in s.log.executed || s.log.executed[xid].Some? || AddReply(s.list, xid, buf).None? then None
      else Some(s.(list := AddReply(s.list, xid, buf).value,
                   log := s.log.(executed := s.log.executed[xid := Some(buf)]),
                   stored := s.stored + [buf]))
  }

  function After(s: Server, c: Checked, xid: nat, xidRep: nat): Server
  {
    Server(c.list,
           if c.verdict.Forgotten? then s.log else LogCheck(s.log, xid, xidRep),
           if c.verdict.New? then s.news + [xid] else s.news,
           s.stored,
           s.freed + c.freed)
  }

  function Run(events: seq<Event>): Option<Server>
  {
    if events == [] then Some(FreshServer)
    else
      var before := Run(events[..|events| - 1]);
      if before.Some? then Step(before.value, events[|events| - 1]) else None
  }

  ghost predicate SameSet(news: seq<nat>, executed: map<nat, Option<Buffer>>)
  {
    forall x :: x in news <==> x in executed
  }

  ghost predicate Inv(s: Server)
  {
    && Refines(s.list, s.log)
    && Distinct(s.news)
    && SameSet(s.news, s.log.executed)
    && multiset(s.stored) == multiset(s.freed) + multiset(Buffers(s.list))
  }

  lemma {:induction false} ThreeParts(a: seq<Entry>, e: Entry, b: seq<Entry>)
    ensures Buffers(a + [e] + b) == Buffers(a) + BufOf(e) + Buffers(b)
  {
    BuffersConcat(a + [e], b);
    BuffersConcat(a, [e]);
    assert [e][1..] == [];
  }

  lemma {:induction false} NoBuffer(xid: nat, rest: seq<Entry>)
    ensures Buffers([Entry(xid, None)] + rest) == Buffers(rest)
  {
    assert ([Entry(xid, None)] + rest)[1..] == rest;
  }

  lemma {:induction false} TrimBuffers(list: seq<Entry>, xidRep: nat)
    ensures Buffers(list) == Buffers(list[..Below(list, xidRep)]) + Buffers(Trim(list, xidRep))
  {
    var k := Below(list, xidRep);
    assert list == list[..k] + list[k..];
    BuffersConcat(list[..k], list[k..]);
    NoBuffer(xidRep, list[k..]);
  }

  lemma {:induction false} FindBuffers(list: seq<Entry>, xid: nat)
    ensures Buffers(Find(list, xid).list) == Buffers(list)
  {
    var k := Below(list, xid);
    assert list == list[..k] + list[k..];
    BuffersConcat(list[..k], list[k..]);
    ThreeParts(list[..k], Entry(xid, None), list[k..]);
  }

  /** A request moves buffers from the list to the freed ones, and loses none. */
  lemma {:induction false} CheckBuffers(list: seq<Entry>, xid: nat, xidRep: nat)
    ensures var c := Check(list, xid, xidRep); Buffers(list) == c.freed + Buffers(c.list)
  {
    if xidRep < xid && list != [] && xid > list[0].xid {
      if xidRep > list[0].xid {
        TrimBuffers(list, xidRep);
        FindBuffers(Trim(list, xidRep), xid);
      } else {
        FindBuffers(list, xid);
      }
    } else if xidRep < xid && list == [] {
      assert Check(list, xid, xidRep).list[1..][1..] == [];
    }
  }

  lemma {:induction false} AddReplyBuffers(list: seq<Entry>, xid: nat, buf: Buffer)
    requires AddReply(list, xid, buf).Some?
    ensures multiset(Buffers(AddReply(list, xid, buf).value)) == multiset(Buffers(list)) + multiset{buf}
  {
    var k := IndexOf(list, xid);
    var t := AddReply(list, xid, buf).value;
    assert list == list[..k] + [list[k]] + list[k + 1..];
    assert t == list[..k] + [Entry(xid, Some(buf))] + list[k + 1..];
    ThreeParts(list[..k], list[k], list[k + 1..]);
    ThreeParts(list[..k], Entry(xid, Some(buf)), list[k + 1..]);
  }

  lemma {:induction false} NewsGrow(news: seq<nat>, executed: map<nat, Option<Buffer>>, xid: nat)
    requires Distinct(news) && SameSet(news, executed) && xid !in executed
    ensures Distinct(news + [xid]) && SameSet(news + [xid], executed[xid := None])
  {
  }

  lemma {:induction false} BuffersMove(stored: seq<Buffer>, freed: seq<Buffer>, more: seq<Buffer>,
                                       was: seq<Buffer>, left: seq<Buffer>)
    requires multiset(stored) == multiset(freed) + multiset(was) && was == more + left
    ensures multiset(stored) == multiset(freed + more) + multiset(left)
  {
  }

  /** Whatever list the server computes, as long as it answers like the log. */
  lemma {:induction false} RequestKeeps(s: Server, c: Checked, xid: nat, xidRep: nat)
    requires Inv(s) && c.verdict == LogVerdict(s.log, xid)
    requires Refines(c.list, if c.verdict.Forgotten? then s.log else LogCheck(s.log, xid, xidRep))
    requires Buffers(s.list) == c.freed + Buffers(c.list)
    ensures Inv(After(s, c, xid, xidRep))
  {
    if c.verdict.New? { NewsGrow(s.news, s.log.executed, xid); }
    BuffersMove(s.stored, s.freed, c.freed, Buffers(s.list), Buffers(c.list));
  }

  lemma {:induction false} FinishedKeeps(s: Server, xid: nat, buf: Buffer)
    requires Inv(s) && Step(s, Finished(xid, buf)).Some?
    ensures Inv(Step(s, Finished(xid, buf)).value)
  {
    AddReplyRefines(s.list, s.log, xid, buf);
    AddReplyBuffers(s.list, xid, buf);
  }

  lemma {:induction false} StepKeeps(s: Server, e: Event)
    requires Inv(s) && Step(s, e).Some?
    ensures Inv(Step(s, e).value)
  {
    match e
    case Request(xid, xidRep) =>
      CheckRefines(s.list, s.log, xid, xidRep);
      CheckBuffers(s.list, xid, xidRep);
      RequestKeeps(s, Check(s.list, xid, xidRep), xid, xidRep);
    case Finished(xid, buf) => FinishedKeeps(s, xid, buf);
  }

  lemma {:induction false} RunInv(events: seq<Event>)
    requires Run(events).Some?
    ensures Inv(Run(events).value)
  {
    if events != [] {
      RunInv(events[..|events| - 1]);
      StepKeeps(Run(events[..|events| - 1]).value, events[|events| - 1]);
    }
  }

  /** At most once: over the whole life of the server no request is handed to a
      handler twice, whatever the client acknowledges. */
  lemma {:induction false} AtMostOnce(events: seq<Event>)
    requires Run(events).Some?
    ensures Distinct(Run(events).value.news)
  {
    RunInv(events);
  }

  /** Each stored reply buffer has been freed, or is still in the list, exactly
      once; freeing the buffers of the list then frees every buffer exactly once. */
  lemma {:induction false} BuffersFreedOnce(events: seq<Event>)
    requires Run(events).Some?
    ensures var s := Run(events).value; multiset(s.stored) == multiset(s.freed + Buffers(s.list))
  {
    RunInv(events);
  }
}

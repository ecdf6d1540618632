/**
  One RPC client, one server instance and a network that loses, duplicates and
  reorders messages: a message that was sent can be delivered any number of times, at
  any later moment, until it is lost. A retransmission sends the same bytes again.
 */
module RpcSystem {
  import opened Common
  import opened RpcClientWindow
  import opened RpcReplyWindow
  import S = RpcServerRuns

  datatype RequestMsg = RequestMsg(xid: nat, xidRep: nat)

  /** The result of the handler, or atmostonce_failure. */
  datatype Answer = Result(content: string) | TooOld

  datatype ReplyMsg = ReplyMsg(xid: nat, answer: Answer)

  /** An entry of calls_, with the acknowledgement its request carries. */
  datatype Call = Pending(xidRep: nat) | Answered(xidRep: nat, answer: Answer)

  datatype State = State(
    next: nat,                       // xid_
    window: seq<nat>,                // xid_rep_window_
    reported: set<nat>,              // history: every xid ever reported to the window
    calls: map<nat, Call>,           // calls_
    requests: set<RequestMsg>,       // in the network
    replies: set<ReplyMsg>,          // in the network
    server: S.Server)

  const Init := State(1, [0], {}, map[], {}, {}, S.FreshServer)

  datatype Step =
    | Send                               // call1 picks an xid and sends
    | Receive(request: RequestMsg)       // dispatch of a delivered request
    | Finish(xid: nat, buf: Buffer)      // the handler returns
    | GotReply(reply: ReplyMsg)          // rpcc::got_pdu
    | Return(xid: nat)                   // call1 returns an answer
    | Timeout(xid: nat)                  // call1 gives up
    | Resend(xid: nat)                   // call1 sends its request again
    | LoseRequest(request: RequestMsg)
    | LoseReply(reply: ReplyMsg)

  datatype Outcome = Disabled | Crash | Go(state: State)

  function Reported(s: State, xid: nat): State
    requires s.window != []
  {
    s.(window := Report(s.window, xid), reported := s.reported + {xid})
  }

  /** What the server does with a delivered request, given its verdict. */
  function Received(s: State, r: RequestMsg, c: Checked): State
  {
    s.(server := S.After(s.server, c, r.xid, r.xidRep),
       replies := if c.verdict.Done? then s.replies + {ReplyMsg(r.xid, Result(c.verdict.buf.content))}
                  else if c.verdict.Forgotten? then s.replies + {ReplyMsg(r.xid, TooOld)}
                  else s.replies)
  }

  function Next(s: State, step: Step): Outcome
    requires s.window != []
  {
    match step
    case Send =>
      Go(s.(next := s.next + 1,
            calls := s.calls[s.next := Pending(s.window[0])],
            requests := s.requests + {RequestMsg(s.next, s.window[0])}))
    case Receive(r) =>
      if r !in s.requests then Disabled
      else
        var c := Check(s.server.list, r.xid, r.xidRep);
        if c.verdict.Failed? then Crash else Go(Received(s, r, c))
    case Finish(xid, buf) =>
      if !Running(s, xid) then Disabled
      else if S.Step(s.server, S.Finished(xid, buf)).None? then Crash
      else Go(s.(server := S.Step(s.server, S.Finished(xid, buf)).value,
                 replies := s.replies + {ReplyMsg(xid, Result(buf.content))}))
    case GotReply(r) =>
      if r !in s.replies then Disabled
      else
        var t := Reported(s, r.xid);
        Go(if r.xid in s.calls && s.calls[r.xid].Pending?
           then t.(calls := s.calls[r.xid := Answered(s.calls[r.xid].xidRep, r.answer)]) else t)
    case Return(xid) =>
      if xid !in s.calls || s.calls[xid].Pending? then Disabled
      else Go(Reported(s, xid).(calls := s.calls - {xid}))
    case Timeout(xid) =>
      if xid !in s.calls || !s.calls[xid].Pending? then Disabled
      else Go(Reported(s, xid).(calls := s.calls - {xid}))
    case Resend(xid) =>
      if xid !in s.calls then Disabled
      else Go(s.(requests := s.requests + {RequestMsg(xid, s.calls[xid].xidRep)}))
    case LoseRequest(r) =>
      if r !in s.requests then Disabled else Go(s.(requests := s.requests - {r}))
    case LoseReply(r) =>
      if r !in s.replies then Disabled else Go(s.(replies := s.replies - {r}))
  }

  /** Handed to a handler that has not returned. */
  predicate Running(s: State, xid: nat)
  {
    xid in s.server.log.executed && s.server.log.executed[xid].None?
  }

  function RunAll(steps: seq<Step>): (o: Outcome)
    ensures o.Go? ==> o.state.window != []
  {
    if steps == [] then Go(Init)
    else
      var before := RunAll(steps[..|steps| - 1]);
      if before.Go? then Next(before.state, steps[|steps| - 1]) else before
  }

  // ----- invariant -----

  predicate Executed(s: State, xid: nat, content: string)
  {
    && xid in s.server.log.executed && s.server.log.executed[xid].Some?
    && s.server.log.executed[xid].value.content == content
  }

  predicate Acknowledged(s: State, xid: nat)
  {
    s.server.log.watermark.Some? && xid <= s.server.log.watermark.value
  }

  predicate AnswerOk(s: State, xid: nat, answer: Answer)
  {
    match answer
    case Result(content) => Executed(s, xid, content)
    case TooOld => Acknowledged(s, xid)
  }

  predicate CallOk(s: State, xid: nat)
    requires xid in s.calls
  {
    && 1 <= xid < s.next
    && match s.calls[xid]
       case Pending(_) => xid !in s.reported
       case Answered(_, answer) => answer.Result? && Executed(s, xid, answer.content)
  }

  ghost predicate ClientOk(s: State)
  {
    && s.next >= 1
    && Represents(s.window, s.reported)
    && (forall x | x in s.reported :: 1 <= x < s.next)
    && (forall x | x in s.calls :: CallOk(s, x))
  }

  ghost predicate NetworkOk(s: State)
    requires s.window != []
  {
    && (forall r | r in s.requests :: r.xidRep < r.xid < s.next && r.xidRep <= s.window[0])
    && (forall x | x in s.calls :: s.calls[x].xidRep < x && s.calls[x].xidRep <= s.window[0])
    && (forall r | r in s.replies :: 1 <= r.xid < s.next && AnswerOk(s, r.xid, r.answer))
  }

  ghost predicate ServerOk(s: State)
    requires s.window != []
  {
    && S.Inv(s.server)
    && (s.server.log.watermark.Some? ==> s.server.log.watermark.value <= s.window[0])
    && (forall x | x in s.server.log.executed :: 1 <= x < s.next)
  }

  ghost predicate Inv(s: State)
  {
    ClientOk(s) && NetworkOk(s) && ServerOk(s)
  }

  lemma {:induction false} InvInit()
    ensures Inv(Init)
  {
  }

  /** Reporting an xid never moves the front back. */
  lemma {:induction false} FrontGrows(w: seq<nat>, reported: set<nat>, xid: nat)
    requires Represents(w, reported)
    ensures Represents(Report(w, xid), reported + {xid}) && w[0] <= Report(w, xid)[0]
  {
    ReportRepresents(w, reported, xid);
    assert forall x | 1 <= x <= w[0] :: x in reported + {xid};
  }

  lemma {:induction false} FrontIsIssued(s: State)
    requires ClientOk(s)
    ensures s.window[0] < s.next
  {
    if s.window[0] >= 1 { assert s.window[0] in s.reported; }
  }

  lemma {:induction false} SendKeeps(s: State)
    requires Inv(s)
    ensures Next(s, Send).Go? && Inv(Next(s, Send).state)
  {
    FrontIsIssued(s);
    var t := Next(s, Send).state;
    forall x | x in t.calls ensures CallOk(t, x) {
      if x in s.calls { assert CallOk(s, x); }
    }
  }

  /** A log only grows: requests stay executed, results stay, and the watermark
      does not go back. */
  ghost predicate Grows(a: Log, b: Log)
  {
    && (forall x | x in a.executed :: x in b.executed && (a.executed[x].Some? ==> b.executed[x] == a.executed[x]))
    && (a.watermark.Some? ==> b.watermark.Some? && a.watermark.value <= b.watermark.value)
  }

  /** A server step keeps the invariant when its log grows within bounds and it
      sends only justified replies. */
  lemma {:induction false} ServerMoves(s: State, t: State)
    requires Inv(s) && t == s.(server := t.server, replies := t.replies)
    requires ServerOk(t) && Grows(s.server.log, t.server.log)
    requires forall r | r in t.replies && r !in s.replies :: 1 <= r.xid < s.next && AnswerOk(t, r.xid, r.answer)
    ensures Inv(t)
  {
    forall x | x in t.calls ensures CallOk(t, x) { assert CallOk(s, x); }
    forall r | r in t.replies ensures 1 <= r.xid < t.next && AnswerOk(t, r.xid, r.answer) {
      if r in s.replies { assert AnswerOk(s, r.xid, r.answer); }
    }
  }

  lemma {:induction false} LogGrows(log: Log, xid: nat, xidRep: nat)
    requires xidRep < xid
    ensures Grows(log, LogCheck(log, xid, xidRep))
    ensures forall x | x in LogCheck(log, xid, xidRep).executed :: x in log.executed || x == xid
  {
  }

  lemma {:induction false} ReceivedReplies(s: State, r: RequestMsg, c: Checked)
    requires c.verdict == LogVerdict(s.server.log, r.xid) && r.xidRep < r.xid
    ensures var t := Received(s, r, c);
            forall m | m in t.replies && m !in s.replies :: m.xid == r.xid && AnswerOk(t, m.xid, m.answer)
  {
  }

  lemma {:induction false} ReceivedKeeps(s: State, r: RequestMsg, c: Checked)
    requires Inv(s) && r in s.requests && c.verdict == LogVerdict(s.server.log, r.xid)
    requires S.Inv(S.After(s.server, c, r.xid, r.xidRep))
    ensures Inv(Received(s, r, c))
  {
    LogGrows(s.server.log, r.xid, r.xidRep);
    ReceivedReplies(s, r, c);
    ServerMoves(s, Received(s, r, c));
  }

  lemma {:induction false} ReceiveKeeps(s: State, r: RequestMsg)
    requires Inv(s) && r in s.requests
    ensures Next(s, Receive(r)).Go? && Inv(Next(s, Receive(r)).state)
  {
    var c := Check(s.server.list, r.xid, r.xidRep);
    CheckRefines(s.server.list, s.server.log, r.xid, r.xidRep);
    S.StepKeeps(s.server, S.Request(r.xid, r.xidRep));
    ReceivedKeeps(s, r, c);
  }

  lemma {:induction false} FinishedKeeps(s: State, server: S.Server, xid: nat, buf: Buffer)
    requires Inv(s) && Running(s, xid) && S.Inv(server)
    requires server.log == s.server.log.(executed := s.server.log.executed[xid := Some(buf)])
    ensures Inv(s.(server := server, replies := s.replies + {ReplyMsg(xid, Result(buf.content))}))
  {
    ServerMoves(s, s.(server := server, replies := s.replies + {ReplyMsg(xid, Result(buf.content))}));
  }

  lemma {:induction false} FinishKeeps(s: State, xid: nat, buf: Buffer)
    requires Inv(s) && Next(s, Finish(xid, buf)).Go?
    ensures Inv(Next(s, Finish(xid, buf)).state)
  {
    S.StepKeeps(s.server, S.Finished(xid, buf));
    FinishedKeeps(s, S.Step(s.server, S.Finished(xid, buf)).value, xid, buf);
  }

  lemma {:induction false} SameServerAnswer(s: State, t: State, xid: nat, answer: Answer)
    requires AnswerOk(s, xid, answer) && t.server == s.server
    ensures AnswerOk(t, xid, answer)
  {
  }

  lemma {:induction false} GotReplyKeeps(s: State, r: ReplyMsg)
    requires Inv(s) && r in s.replies
    ensures Inv(Next(s, GotReply(r)).state)
  {
    hide S.Inv, Report, AnswerOk;
    FrontGrows(s.window, s.reported, r.xid);
    var t := Next(s, GotReply(r)).state;
    forall m | m in t.replies ensures AnswerOk(t, m.xid, m.answer) { SameServerAnswer(s, t, m.xid, m.answer); }
    forall x | x in t.calls ensures CallOk(t, x) {
      assert CallOk(s, x);
      if x == r.xid && s.calls[x].Pending? { PendingAnswer(s, r); }
    }
  }

  /** The only answer that reaches a pending call is the result of its execution. */
  lemma {:induction false} PendingAnswer(s: State, r: ReplyMsg)
    requires Inv(s) && r in s.replies && r.xid in s.calls && s.calls[r.xid].Pending?
    ensures r.answer.Result? && Executed(s, r.xid, r.answer.content)
  {
    assert CallOk(s, r.xid) && AnswerOk(s, r.xid, r.answer);
    assert r.answer.TooOld? ==> r.xid in s.reported;
  }

  lemma {:induction false} LeaveKeeps(s: State, xid: nat)
    requires Inv(s) && xid in s.calls
    ensures Inv(Reported(s, xid).(calls := s.calls - {xid}))
  {
    FrontGrows(s.window, s.reported, xid);
    assert CallOk(s, xid);
    var t := Reported(s, xid).(calls := s.calls - {xid});
    forall x | x in t.calls ensures CallOk(t, x) { assert CallOk(s, x); }
  }

  lemma {:induction false} NetworkKeeps(s: State, step: Step)
    requires Inv(s) && Next(s, step).Go? && (step.Resend? || step.LoseRequest? || step.LoseReply?)
    ensures Inv(Next(s, step).state)
  {
    var t := Next(s, step).state;
    forall x | x in t.calls ensures CallOk(t, x) { assert CallOk(s, x); }
    forall r | r in t.replies ensures AnswerOk(t, r.xid, r.answer) { assert AnswerOk(s, r.xid, r.answer); }
  }

  lemma {:induction false} StepKeeps(s: State, step: Step)
    requires Inv(s) && Next(s, step).Go?
    ensures Inv(Next(s, step).state)
  {
    match step
    case Send => SendKeeps(s);
    case Receive(r) => ReceiveKeeps(s, r);
    case Finish(xid, buf) => FinishKeeps(s, xid, buf);
    case GotReply(r) => GotReplyKeeps(s, r);
    case Return(xid) => LeaveKeeps(s, xid);
    case Timeout(xid) => LeaveKeeps(s, xid);
    case Resend(_) => NetworkKeeps(s, step);
    case LoseRequest(_) => NetworkKeeps(s, step);
    case LoseReply(_) => NetworkKeeps(s, step);
  }

  lemma {:induction false} RunInv(steps: seq<Step>)
    requires RunAll(steps).Go?
    ensures Inv(RunAll(steps).state)
  {
    if steps == [] {
      InvInit();
    } else {
      RunInv(steps[..|steps| - 1]);
      StepKeeps(RunAll(steps[..|steps| - 1]).state, steps[|steps| - 1]);
    }
  }

  // ----- what every run guarantees -----

  /** Every delivered request acknowledges only smaller xids, so the server's
      assertion on arrival never fails. */
  lemma {:induction false} RequestsNeverCrash(steps: seq<Step>, r: RequestMsg)
    requires RunAll(steps).Go?
    ensures r in RunAll(steps).state.requests ==> r.xidRep < r.xid
    ensures !Next(RunAll(steps).state, Receive(r)).Crash?
  {
    RunInv(steps);
    if r in RunAll(steps).state.requests { ReceiveKeeps(RunAll(steps).state, r); }
  }

  /** A call that is still pending is never told that its request is too old: no
      delivered copy of the request is answered so, and no such reply exists. */
  lemma {:induction false} PendingIsNeverForgotten(steps: seq<Step>, xid: nat)
    requires RunAll(steps).Go?
    requires xid in RunAll(steps).state.calls && RunAll(steps).state.calls[xid].Pending?
    ensures ReplyMsg(xid, TooOld) !in RunAll(steps).state.replies
    ensures forall xidRep: nat | xidRep < xid ::
              !Check(RunAll(steps).state.server.list, xid, xidRep).verdict.Forgotten?
  {
    RunInv(steps);
    var s := RunAll(steps).state;
    assert CallOk(s, xid);
    if ReplyMsg(xid, TooOld) in s.replies { PendingAnswer(s, ReplyMsg(xid, TooOld)); }
    forall xidRep: nat | xidRep < xid ensures !Check(s.server.list, xid, xidRep).verdict.Forgotten? {
      CheckRefines(s.server.list, s.server.log, xid, xidRep);
    }
  }

  lemma {:induction false} ReturnsAt(s: State, xid: nat)
    requires Inv(s) && Next(s, Return(xid)).Go?
    ensures s.calls[xid].answer.Result?
    ensures Executed(s, xid, s.calls[xid].answer.content)
    ensures multiset(s.server.news)[xid] == 1
  {
    assert CallOk(s, xid);
    assert xid in s.server.news;
    DistinctCount(s.server.news, xid);
  }

  /** The answer a call returns is the recorded result of its execution, and its
      request was handed to a handler exactly once. */
  lemma {:induction false} ReturnsItsOnlyExecution(steps: seq<Step>, xid: nat)
    requires RunAll(steps).Go? && Next(RunAll(steps).state, Return(xid)).Go?
    ensures var s := RunAll(steps).state;
            && s.calls[xid].answer.Result?
            && Executed(s, xid, s.calls[xid].answer.content)
            && multiset(s.server.news)[xid] == 1
  {
    RunInv(steps);
    ReturnsAt(RunAll(steps).state, xid);
  }

  lemma {:induction false} DistinctCount(xs: seq<nat>, x: nat)
    requires Distinct(xs)
    ensures multiset(xs)[x] == if x in xs then 1 else 0
  {
    if xs != [] {
      assert xs == xs[..|xs| - 1] + [xs[|xs| - 1]];
      DistinctCount(xs[..|xs| - 1], x);
    }
  }

  // ----- add_reply and timeouts -----

  /** When a handler returns, the reply slot is missing exactly when the server
      has seen an acknowledgement beyond the request. */
  lemma {:induction false} FinishCrashes(steps: seq<Step>, xid: nat, buf: Buffer)
    requires RunAll(steps).Go? && Running(RunAll(steps).state, xid)
    ensures var s := RunAll(steps).state;
            Next(s, Finish(xid, buf)).Crash? <==> s.server.log.watermark.Some? && s.server.log.watermark.value > xid
  {
    RunInv(steps);
    FinishCrashesAt(RunAll(steps).state, xid, buf);
  }

  /** Every reported xid has been executed and answered. */
  ghost predicate OnlyAnsweredReported(s: State)
  {
    forall x | x in s.reported :: x in s.server.log.executed && s.server.log.executed[x].Some?
  }

  lemma {:induction false} AnsweredStep(s: State, step: Step)
    requires Inv(s) && OnlyAnsweredReported(s) && !step.Timeout? && Next(s, step).Go?
    ensures OnlyAnsweredReported(Next(s, step).state)
  {
    var t := Next(s, step).state;
    match step
    case GotReply(r) =>
      assert AnswerOk(s, r.xid, r.answer);
      assert r.answer.TooOld? ==> r.xid in s.reported;
    case Return(xid) => assert CallOk(s, xid);
    case Receive(r) => CheckRefines(s.server.list, s.server.log, r.xid, r.xidRep);
    case _ =>
  }

  lemma {:induction false} AnsweredRun(steps: seq<Step>)
    requires RunAll(steps).Go? && forall k | 0 <= k < |steps| :: !steps[k].Timeout?
    ensures OnlyAnsweredReported(RunAll(steps).state)
  {
    if steps != [] {
      RunInv(steps[..|steps| - 1]);
      AnsweredRun(steps[..|steps| - 1]);
      AnsweredStep(RunAll(steps[..|steps| - 1]).state, steps[|steps| - 1]);
    }
  }

  /** In a run without timeouts no assertion of the server ever fails: add_reply
      always finds one unfilled slot. */
  lemma {:induction false} WithoutTimeoutsNoCrash(steps: seq<Step>)
    requires forall k | 0 <= k < |steps| :: !steps[k].Timeout?
    ensures !RunAll(steps).Crash?
  {
    if steps != [] {
      var before := steps[..|steps| - 1];
      WithoutTimeoutsNoCrash(before);
      if RunAll(before).Go? {
        var s := RunAll(before).state;
        RunInv(before);
        AnsweredRun(before);
        match steps[|steps| - 1]
        case Receive(r) => RequestsNeverCrash(before, r);
        case Finish(xid, buf) =>
          if Running(s, xid) {
            AddReplyRefines(s.server.list, s.server.log, xid, buf);
            assert xid !in s.reported;
          }
        case _ =>
      }
    }
  }

  lemma {:induction false} OneMore(steps: seq<Step>, step: Step)
    requires RunAll(steps).Go?
    ensures RunAll(steps + [step]) == Next(RunAll(steps).state, step)
  {
    assert (steps + [step])[..|steps + [step]| - 1] == steps;
  }

  lemma {:induction false} ReportNext(n: nat)
    ensures Report([n], n + 1) == [n + 1]
  {
    InsertAt([n], n + 1, 1);
    assert [n][..1] + [n + 1] + [n][1..] == [n, n + 1];
    CompressPop([n, n + 1], 1);
    assert [n, n + 1][1..] == [n + 1];
    CompressDone([n + 1]);
  }

  lemma {:induction false} FinishCrashesAt(s: State, xid: nat, buf: Buffer)
    requires Inv(s) && Running(s, xid)
    ensures Next(s, Finish(xid, buf)).Crash? <==>
            s.server.log.watermark.Some? && s.server.log.watermark.value > xid
  {
    AddReplyRefines(s.server.list, s.server.log, xid, buf);
  }

  /** Once a request that acknowledges more than a running one is accepted, the
      slot of the running one is dropped and its add_reply fails. */
  lemma {:induction false} SlotDropped(s: State, r: RequestMsg, xid: nat, buf: Buffer)
    requires Inv(s) && r in s.requests && Running(s, xid) && r.xidRep > xid
    requires LogVerdict(s.server.log, r.xid).New?
    ensures Next(s, Receive(r)).Go?
    ensures Next(Next(s, Receive(r)).state, Finish(xid, buf)).Crash?
  {
    ReceiveKeeps(s, r);
    CheckRefines(s.server.list, s.server.log, r.xid, r.xidRep);
    var u := Next(s, Receive(r)).state;
    assert u.server.log == LogCheck(s.server.log, r.xid, r.xidRep);
    FinishCrashesAt(u, xid, buf);
  }

  lemma {:induction false} TimeoutMovesFront(s: State, n: nat)
    requires Inv(s) && s.window == [n] && n + 1 in s.calls && s.calls[n + 1].Pending?
    ensures Next(s, Timeout(n + 1)).Go?
    ensures var t := Next(s, Timeout(n + 1)).state;
            && Inv(t) && t.next == s.next && t.window == [n + 1] && t.server == s.server
            && t.calls == s.calls - {n + 1}
  {
    ReportNext(n);
    LeaveKeeps(s, n + 1);
  }

  lemma {:induction false} FirstReceived(s: State)
    requires Inv(s) && s.server == S.FreshServer && RequestMsg(1, 0) in s.requests
    ensures Next(s, Receive(RequestMsg(1, 0))).Go?
    ensures var u := Next(s, Receive(RequestMsg(1, 0))).state;
            && Inv(u) && u == s.(server := u.server)
            && u.server.log == Log(Some(0), map[1 := None])
  {
    ReceiveKeeps(s, RequestMsg(1, 0));
  }

  lemma {:induction false} TwoCallsOneExecuting() returns (steps: seq<Step>)
    ensures RunAll(steps).Go?
    ensures var s := RunAll(steps).state;
            && Inv(s) && s.next == 3 && s.window == [0] && s.calls == map[1 := Pending(0), 2 := Pending(0)]
            && s.server.log == Log(Some(0), map[1 := None])
  {
    steps := [];
    InvInit();
    SendKeeps(Init);
    OneMore(steps, Send);
    steps := steps + [Send];
    SendKeeps(RunAll(steps).state);
    OneMore(steps, Send);
    steps := steps + [Send];
    FirstReceived(RunAll(steps).state);
    OneMore(steps, Receive(RequestMsg(1, 0)));
    steps := steps + [Receive(RequestMsg(1, 0))];
  }

  lemma {:induction false} ThenTimeout(steps: seq<Step>, n: nat)
    requires RunAll(steps).Go?
    requires var s := RunAll(steps).state; Inv(s) && s.window == [n] && n + 1 in s.calls && s.calls[n + 1].Pending?
    ensures RunAll(steps + [Timeout(n + 1)]).Go?
    ensures var s, t := RunAll(steps).state, RunAll(steps + [Timeout(n + 1)]).state;
            && Inv(t) && t.next == s.next && t.window == [n + 1] && t.server == s.server
            && t.calls == s.calls - {n + 1}
  {
    TimeoutMovesFront(RunAll(steps).state, n);
    OneMore(steps, Timeout(n + 1));
  }

  lemma {:induction false} BothTimedOut() returns (steps: seq<Step>)
    ensures RunAll(steps).Go?
    ensures var s := RunAll(steps).state;
            Inv(s) && s.next == 3 && s.window == [2] && s.server.log == Log(Some(0), map[1 := None])
  {
    steps := TwoCallsOneExecuting();
    ThenTimeout(steps, 0);
    steps := steps + [Timeout(1)];
    ThenTimeout(steps, 1);
    steps := steps + [Timeout(2)];
  }

  /** With timeouts the server's assertion can fail: two calls are sent, the first
      one reaches its handler, both time out, a third call arrives, and then the
      handler of the first one returns. */
  lemma {:induction false} TimeoutCanCrash(buf: Buffer) returns (steps: seq<Step>)
    ensures RunAll(steps).Crash? && |steps| > 0 && steps[|steps| - 1] == Finish(1, buf)
  {
    steps := BothTimedOut();
    SendKeeps(RunAll(steps).state);
    OneMore(steps, Send);
    steps := steps + [Send];
    SlotDropped(RunAll(steps).state, RequestMsg(3, 2), 1, buf);
    OneMore(steps, Receive(RequestMsg(3, 2)));
    steps := steps + [Receive(RequestMsg(3, 2))];
    OneMore(steps, Finish(1, buf));
    steps := steps + [Finish(1, buf)];
  }
}

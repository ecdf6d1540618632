/**
  Calls complete. Whatever the network lost so far, retransmission, one delivery, the
  handler's return and one delivered reply bring a pending call to its recorded result;
  and in every infinite run in which these things are not put off for ever, every call
  ends.
 */
module RpcCompletion {
  import opened Common
  import opened RpcReplyWindow
  import opened RpcSystem
  import S = RpcServerRuns

  predicate IsPending(s: State, xid: nat)
  {
    xid in s.calls && s.calls[xid].Pending?
  }

  predicate IsAnswered(s: State, xid: nat)
  {
    xid in s.calls && s.calls[xid].Answered?
  }

  /** A handler has returned for xid. */
  predicate Finished(s: State, xid: nat)
  {
    xid in s.server.log.executed && s.server.log.executed[xid].Some?
  }

  function ResultOf(s: State, xid: nat): string
    requires Finished(s, xid)
  {
    s.server.log.executed[xid].value.content
  }

  // ----- one step at a time -----

  /** The server has not seen a pending call acknowledged. */
  lemma {:induction false} PendingIsAboveWatermark(s: State, xid: nat)
    requires Inv(s) && IsPending(s, xid)
    ensures !Acknowledged(s, xid)
  {
    assert CallOk(s, xid);
  }

  /** The server answers a delivered request as its log says: with the recorded result,
      with a refusal if the request is acknowledged, and not yet if it is new or running. */
  lemma {:induction false} AnswersAsLogged(s: State, r: RequestMsg)
    requires Inv(s) && r in s.requests
    ensures Next(s, Receive(r)).Go?
    ensures var t := Next(s, Receive(r)).state;
            && t.calls == s.calls && t.requests == s.requests
            && (Acknowledged(s, r.xid) ==> ReplyMsg(r.xid, TooOld) in t.replies && t.server.log == s.server.log)
            && (!Acknowledged(s, r.xid) && Finished(s, r.xid) ==>
                  && ReplyMsg(r.xid, Result(ResultOf(s, r.xid))) in t.replies
                  && t.server.log.executed == s.server.log.executed)
            && (!Acknowledged(s, r.xid) && !Finished(s, r.xid) ==> t.replies == s.replies && Running(t, r.xid))
  {
    hide S.Inv, Check;
    ReceiveKeeps(s, r);
    assert Refines(s.server.list, s.server.log) by { ListRefines(s); }
    CheckRefines(s.server.list, s.server.log, r.xid, r.xidRep);
  }

  lemma {:induction false} ListRefines(s: State)
    requires Inv(s)
    ensures Refines(s.server.list, s.server.log)
  {
  }

  lemma {:induction false} HandlerReturns(s: State, xid: nat, buf: Buffer)
    requires Inv(s) && IsPending(s, xid) && Running(s, xid)
    ensures Next(s, Finish(xid, buf)).Go?
    ensures var t := Next(s, Finish(xid, buf)).state;
            && t.calls == s.calls && Finished(t, xid) && ResultOf(t, xid) == buf.content
            && ReplyMsg(xid, Result(buf.content)) in t.replies
  {
    PendingIsAboveWatermark(s, xid);
    FinishCrashesAt(s, xid, buf);
  }

  /** A reply that arrives for a pending call is taken in. */
  lemma {:induction false} ReplyArrives(s: State, r: ReplyMsg)
    requires Inv(s) && IsPending(s, r.xid) && r in s.replies
    ensures Next(s, GotReply(r)).Go?
    ensures var t := Next(s, GotReply(r)).state;
            && t.calls == s.calls[r.xid := Answered(s.calls[r.xid].xidRep, r.answer)]
            && Finished(t, r.xid) && r.answer == Result(ResultOf(t, r.xid))
  {
    PendingAnswer(s, r);
  }

  lemma {:induction false} CanReturn(s: State, xid: nat)
    requires Inv(s) && IsAnswered(s, xid)
    ensures Next(s, Return(xid)).Go? && xid !in Next(s, Return(xid)).state.calls
    ensures s.calls[xid].answer.Result? && Executed(s, xid, s.calls[xid].answer.content)
  {
    assert CallOk(s, xid);
  }

  // ----- completion from every reachable state -----

  /** What is left to do for a pending call, when the handler, if it has not returned
      yet, will return `buf`. */
  function Completion(s: State, xid: nat, buf: Buffer): seq<Step>
    requires IsPending(s, xid)
  {
    var again := [Resend(xid), Receive(RequestMsg(xid, s.calls[xid].xidRep))];
    var content := if Finished(s, xid) then ResultOf(s, xid) else buf.content;
    (if Running(s, xid) then [Finish(xid, buf)]
     else if Finished(s, xid) then again
     else again + [Finish(xid, buf)])
    + [GotReply(ReplyMsg(xid, Result(content)))]
  }

  /** After a retransmission and its delivery the call is running or answered. */
  lemma {:induction false} SentAgain(steps: seq<Step>, xid: nat)
    requires RunAll(steps).Go? && IsPending(RunAll(steps).state, xid)
    ensures var s := RunAll(steps).state;
            var o := RunAll(steps + [Resend(xid), Receive(RequestMsg(xid, s.calls[xid].xidRep))]);
            && o.Go? && o.state.calls == s.calls
            && if Finished(s, xid)
               then Finished(o.state, xid) && ResultOf(o.state, xid) == ResultOf(s, xid) &&
                    ReplyMsg(xid, Result(ResultOf(s, xid))) in o.state.replies
               else Running(o.state, xid)
  {
    var s := RunAll(steps).state;
    var r := RequestMsg(xid, s.calls[xid].xidRep);
    OneMore(steps, Resend(xid));
    var t := RunAll(steps + [Resend(xid)]).state;
    RunInv(steps + [Resend(xid)]);
    PendingIsAboveWatermark(t, xid);
    AnswersAsLogged(t, r);
    OneMore(steps + [Resend(xid)], Receive(r));
    assert steps + [Resend(xid)] + [Receive(r)] == steps + [Resend(xid), Receive(r)];
  }

  lemma {:induction false} RunToFinish(steps: seq<Step>, xid: nat, buf: Buffer)
    requires RunAll(steps).Go? && IsPending(RunAll(steps).state, xid) && Running(RunAll(steps).state, xid)
    ensures var o := RunAll(steps + [Finish(xid, buf)]);
            && o.Go? && o.state.calls == RunAll(steps).state.calls
            && ReplyMsg(xid, Result(buf.content)) in o.state.replies
  {
    RunInv(steps);
    HandlerReturns(RunAll(steps).state, xid, buf);
    OneMore(steps, Finish(xid, buf));
  }

  lemma {:induction false} RunToAnswer(steps: seq<Step>, r: ReplyMsg)
    requires RunAll(steps).Go? && IsPending(RunAll(steps).state, r.xid) && r in RunAll(steps).state.replies
    ensures var o := RunAll(steps + [GotReply(r)]);
            && o.Go? && IsAnswered(o.state, r.xid)
            && o.state.calls[r.xid].answer == r.answer && r.answer.Result?
            && Executed(o.state, r.xid, r.answer.content)
            && Next(o.state, Return(r.xid)).Go? && r.xid !in Next(o.state, Return(r.xid)).state.calls
  {
    hide Inv, Next, Executed;
    RunInv(steps);
    ReplyArrives(RunAll(steps).state, r);
    OneMore(steps, GotReply(r));
    RunInv(steps + [GotReply(r)]);
    CanReturn(RunAll(steps + [GotReply(r)]).state, r.xid);
  }

  /** In every reachable state every pending call can be completed, whatever was lost:
      its answer is then the recorded result, the one recorded before if the handler had
      returned, and the call can leave with it. */
  lemma {:induction false} PendingCanComplete(steps: seq<Step>, xid: nat, buf: Buffer)
    requires RunAll(steps).Go? && IsPending(RunAll(steps).state, xid)
    ensures var s := RunAll(steps).state;
            var o := RunAll(steps + Completion(s, xid, buf));
            && o.Go? && IsAnswered(o.state, xid)
            && o.state.calls[xid].answer ==
                 Result(if Finished(s, xid) then ResultOf(s, xid) else buf.content)
            && Executed(o.state, xid, o.state.calls[xid].answer.content)
            && Next(o.state, Return(xid)).Go? && xid !in Next(o.state, Return(xid)).state.calls
  {
    hide RunAll, Next;
    var s := RunAll(steps).state;
    var again := [Resend(xid), Receive(RequestMsg(xid, s.calls[xid].xidRep))];
    var reply := ReplyMsg(xid, Result(if Finished(s, xid) then ResultOf(s, xid) else buf.content));
    var first := steps;
    if !Running(s, xid) {
      SentAgain(steps, xid);
      first := steps + again;
    }
    if !Finished(s, xid) {
      RunToFinish(first, xid, buf);
      first := first + [Finish(xid, buf)];
    }
    RunToAnswer(first, reply);
    assert first + [GotReply(reply)] == steps + Completion(s, xid, buf);
  }

  lemma {:induction false} SentOnce(steps: seq<Step>)
    requires RunAll(steps).Go?
    ensures var s := RunAll(steps).state;
            var o := RunAll(steps + [Send, Receive(RequestMsg(s.next, s.window[0]))]);
            && o.Go? && o.state.calls == s.calls[s.next := Pending(s.window[0])]
            && Running(o.state, s.next)
  {
    var s := RunAll(steps).state;
    var r := RequestMsg(s.next, s.window[0]);
    RunInv(steps);
    OneMore(steps, Send);
    var t := RunAll(steps + [Send]).state;
    RunInv(steps + [Send]);
    PendingIsAboveWatermark(t, s.next);
    AnswersAsLogged(t, r);
    OneMore(steps + [Send], Receive(r));
    assert steps + [Send] + [Receive(r)] == steps + [Send, Receive(r)];
  }

  /** One call without loss: the request is sent and delivered once, the handler returns,
      and the delivered reply is what the call returns. */
  lemma {:induction false} OneCall(steps: seq<Step>, buf: Buffer)
    requires RunAll(steps).Go?
    ensures var s := RunAll(steps).state;
            var o := RunAll(steps + [Send, Receive(RequestMsg(s.next, s.window[0])), Finish(s.next, buf),
                                     GotReply(ReplyMsg(s.next, Result(buf.content)))]);
            && o.Go? && IsAnswered(o.state, s.next)
            && o.state.calls[s.next].answer == Result(buf.content)
            && Next(o.state, Return(s.next)).Go? && s.next !in Next(o.state, Return(s.next)).state.calls
  {
    hide RunAll, Next;
    var s := RunAll(steps).state;
    var xid, r := s.next, ReplyMsg(s.next, Result(buf.content));
    SentOnce(steps);
    var sent := [Send, Receive(RequestMsg(s.next, s.window[0]))];
    RunToFinish(steps + sent, xid, buf);
    RunToAnswer(steps + sent + [Finish(xid, buf)], r);
    assert steps + sent + [Finish(xid, buf)] + [GotReply(r)] ==
           steps + [Send, Receive(RequestMsg(s.next, s.window[0])), Finish(xid, buf), GotReply(r)];
  }

  // ----- acknowledgements -----

  /** Exactly the calls that are not waiting any more have been reported. */
  ghost predicate AllReported(s: State)
  {
    forall x | 1 <= x < s.next :: x in s.reported <==> !IsPending(s, x)
  }

  lemma {:induction false} ReportedStep(s: State, step: Step)
    requires Inv(s) && AllReported(s) && Next(s, step).Go?
    ensures AllReported(Next(s, step).state)
  {
    hide S.Inv, AnswerOk;
    var t := Next(s, step).state;
    forall x | 1 <= x < t.next ensures x in t.reported <==> !IsPending(t, x) {
      if x < s.next { assert x in s.reported <==> !IsPending(s, x); }
    }
  }

  lemma {:induction false} ReportedRun(steps: seq<Step>)
    requires RunAll(steps).Go?
    ensures AllReported(RunAll(steps).state)
  {
    if steps != [] {
      RunInv(steps[..|steps| - 1]);
      ReportedRun(steps[..|steps| - 1]);
      ReportedStep(RunAll(steps[..|steps| - 1]).state, steps[|steps| - 1]);
    }
  }

  lemma {:induction false} FrontIsExact(s: State)
    requires ClientOk(s) && AllReported(s)
    ensures s.window[0] < s.next
    ensures forall x | x <= s.window[0] :: !IsPending(s, x)
    ensures s.window[0] + 1 == s.next || IsPending(s, s.window[0] + 1)
  {
    FrontIsIssued(s);
    forall x | x <= s.window[0] ensures !IsPending(s, x) {
      if x in s.calls { assert CallOk(s, x); }
    }
  }

  /** The acknowledgement that the next request carries is exact: every call up to it is
      answered or over, and the one after it is still waiting, if there is one. */
  lemma {:induction false} AcknowledgesExactly(steps: seq<Step>)
    requires RunAll(steps).Go?
    ensures var s := RunAll(steps).state;
            && s.window[0] < s.next
            && (forall x | x <= s.window[0] :: !IsPending(s, x))
            && (s.window[0] + 1 == s.next || IsPending(s, s.window[0] + 1))
  {
    hide RunAll, ClientOk, AllReported, NetworkOk, ServerOk;
    RunInv(steps);
    ReportedRun(steps);
    FrontIsExact(RunAll(steps).state);
  }

  // ----- infinite runs -----

  ghost predicate StepAt(states: nat -> State, steps: nat -> Step, n: nat)
  {
    states(n).window != [] && Next(states(n), steps(n)) == Go(states(n + 1))
  }

  /** A run in which no assertion of the server ever fails. */
  ghost predicate InfiniteRun(states: nat -> State, steps: nat -> Step)
  {
    states(0) == Init && forall n: nat :: StepAt(states, steps, n)
  }

  predicate Delivers(step: Step, xid: nat)
  {
    step.Receive? && step.request.xid == xid
  }

  predicate Replies(step: Step, xid: nat)
  {
    step.GotReply? && step.reply.xid == xid
  }

  predicate Ends(step: Step, xid: nat)
  {
    step == Return(xid) || step == Timeout(xid)
  }

  ghost predicate ReplyUnderWay(s: State, xid: nat)
  {
    exists r :: r in s.replies && r.xid == xid
  }

  ghost predicate PendingFrom(states: nat -> State, xid: nat, n: nat)
  {
    forall m: nat | m >= n :: IsPending(states(m), xid)
  }

  ghost predicate AnsweredFrom(states: nat -> State, xid: nat, n: nat)
  {
    forall m: nat | m >= n :: IsAnswered(states(m), xid)
  }

  ghost predicate RunningFrom(states: nat -> State, xid: nat, n: nat)
  {
    forall m: nat | m >= n :: Running(states(m), xid)
  }

  ghost predicate DeliveredFrom(steps: nat -> Step, xid: nat, n: nat)
  {
    exists m: nat :: m >= n && Delivers(steps(m), xid)
  }

  ghost predicate ReplyDeliveredFrom(steps: nat -> Step, xid: nat, n: nat)
  {
    exists m: nat :: m >= n && Replies(steps(m), xid)
  }

  ghost predicate ReplySentFrom(states: nat -> State, xid: nat, n: nat)
  {
    exists m: nat :: m >= n && ReplyUnderWay(states(m), xid)
  }

  ghost predicate ReplySentAgain(states: nat -> State, xid: nat, n: nat)
  {
    forall k: nat | k >= n :: ReplySentFrom(states, xid, k)
  }

  /** A call that stays pending is retransmitted until a copy arrives, and one of the
      replies that are sent to it again and again arrives. Handlers return, and so does
      a caller that has its answer. */
  ghost predicate Fair(states: nat -> State, steps: nat -> Step)
  {
    && (forall xid: nat, n: nat :: PendingFrom(states, xid, n) ==> DeliveredFrom(steps, xid, n))
    && (forall xid: nat, n: nat ::
          PendingFrom(states, xid, n) && ReplySentAgain(states, xid, n) ==> ReplyDeliveredFrom(steps, xid, n))
    && (forall xid: nat, n: nat :: !RunningFrom(states, xid, n))
    && (forall xid: nat, n: nat :: !AnsweredFrom(states, xid, n))
  }

  lemma {:induction false} InvAt(states: nat -> State, steps: nat -> Step, n: nat)
    requires InfiniteRun(states, steps)
    ensures Inv(states(n)) && StepAt(states, steps, n)
  {
    if n == 0 {
      InvInit();
    } else {
      InvAt(states, steps, n - 1);
      StepKeeps(states(n - 1), steps(n - 1));
    }
  }

  lemma {:induction false} LogStep(s: State, step: Step)
    requires Inv(s) && Next(s, step).Go?
    ensures Grows(s.server.log, Next(s, step).state.server.log)
  {
    hide S.Inv, ClientOk, AnswerOk, Check;
    if step.Receive? {
      LogGrows(s.server.log, step.request.xid, step.request.xidRep);
    }
  }

  /** A call changes only by the reply it takes in and by its end. */
  lemma {:induction false} CallStep(s: State, step: Step, xid: nat)
    requires Inv(s) && Next(s, step).Go? && xid in s.calls && !Ends(step, xid)
    ensures var t := Next(s, step).state;
            && xid in t.calls
            && (IsAnswered(s, xid) || Replies(step, xid) ==> IsAnswered(t, xid))
  {
    hide S.Inv, S.After, S.Step, Check, AnswerOk, NetworkOk;
    assert CallOk(s, xid);
  }

  ghost predicate NeverEnds(steps: nat -> Step, xid: nat, n: nat)
  {
    forall m: nat | m >= n :: !Ends(steps(m), xid)
  }

  /** A call that does not end stays, and stays answered once it is. */
  lemma {:induction false} CallStays(states: nat -> State, steps: nat -> Step, xid: nat, n: nat, m: nat)
    requires InfiniteRun(states, steps) && NeverEnds(steps, xid, n) && xid in states(n).calls && n <= m
    ensures xid in states(m).calls && (IsAnswered(states(n), xid) ==> IsAnswered(states(m), xid))
    decreases m - n
  {
    if n < m {
      CallStays(states, steps, xid, n, m - 1);
      InvAt(states, steps, m - 1);
      CallStep(states(m - 1), steps(m - 1), xid);
    }
  }

  /** Under fair scheduling a call that does not end stays pending for ever. */
  lemma {:induction false} NeverAnswered(states: nat -> State, steps: nat -> Step, xid: nat, n: nat)
    requires InfiniteRun(states, steps) && Fair(states, steps) && NeverEnds(steps, xid, n) && xid in states(n).calls
    ensures PendingFrom(states, xid, n)
  {
    forall m: nat | m >= n ensures IsPending(states(m), xid) {
      CallStays(states, steps, xid, n, m);
      if IsAnswered(states(m), xid) {
        forall k: nat | k >= m ensures IsAnswered(states(k), xid) { CallStays(states, steps, xid, m, k); }
        assert AnsweredFrom(states, xid, m);
      }
    }
  }

  lemma {:induction false} LogStays(states: nat -> State, steps: nat -> Step, n: nat, m: nat)
    requires InfiniteRun(states, steps) && n <= m
    ensures Grows(states(n).server.log, states(m).server.log)
    decreases m - n
  {
    if n < m {
      LogStays(states, steps, n, m - 1);
      InvAt(states, steps, m - 1);
      LogStep(states(m - 1), steps(m - 1));
    }
  }

  /** A pending call whose request is delivered has been handed to a handler. */
  lemma {:induction false} DeliveredOnce(states: nat -> State, steps: nat -> Step, xid: nat, k: nat)
    requires InfiniteRun(states, steps) && IsPending(states(k), xid) && Delivers(steps(k), xid)
    ensures xid in states(k + 1).server.log.executed
    ensures Finished(states(k), xid) ==> ReplyUnderWay(states(k + 1), xid)
  {
    InvAt(states, steps, k);
    PendingIsAboveWatermark(states(k), xid);
    AnswersAsLogged(states(k), steps(k).request);
  }

  /** A call that stays pending is executed, and its handler returns. */
  lemma {:induction false} IsFinished(states: nat -> State, steps: nat -> Step, xid: nat, n: nat) returns (m: nat)
    requires InfiniteRun(states, steps) && Fair(states, steps) && PendingFrom(states, xid, n)
    ensures m >= n && Finished(states(m), xid)
  {
    hide InfiniteRun;
    assert DeliveredFrom(steps, xid, n);
    var k: nat :| k >= n && Delivers(steps(k), xid);
    DeliveredOnce(states, steps, xid, k);
    assert !RunningFrom(states, xid, k + 1);
    m :| m >= k + 1 && !Running(states(m), xid);
    LogStays(states, steps, k + 1, m);
  }

  /** From then on its result is sent again whenever its request is delivered. */
  lemma {:induction false} SendsAgain(states: nat -> State, steps: nat -> Step, xid: nat, n: nat)
    requires InfiniteRun(states, steps) && Fair(states, steps) && PendingFrom(states, xid, n)
    requires Finished(states(n), xid)
    ensures ReplySentAgain(states, xid, n)
  {
    forall k: nat | k >= n ensures ReplySentFrom(states, xid, k) {
      assert PendingFrom(states, xid, k);
      var m: nat :| m >= k && Delivers(steps(m), xid);
      LogStays(states, steps, n, m);
      DeliveredOnce(states, steps, xid, m);
    }
  }

  lemma {:induction false} SomeCallEnds(states: nat -> State, steps: nat -> Step, xid: nat, n: nat)
    requires InfiniteRun(states, steps) && Fair(states, steps) && xid in states(n).calls
    ensures !NeverEnds(steps, xid, n)
  {
    if NeverEnds(steps, xid, n) {
      NeverAnswered(states, steps, xid, n);
      var m := IsFinished(states, steps, xid, n);
      SendsAgain(states, steps, xid, m);
      assert PendingFrom(states, xid, m);
      var k: nat :| k >= m && Replies(steps(k), xid);
      InvAt(states, steps, k);
      CallStep(states(k), steps(k), xid);
      assert false;
    }
  }

  /** In every infinite run with fair scheduling every call ends: it returns the recorded
      result of its only execution, or times out. */
  lemma {:induction false} EveryCallEnds(states: nat -> State, steps: nat -> Step, xid: nat, n: nat)
    returns (m: nat)
    requires InfiniteRun(states, steps) && Fair(states, steps) && xid in states(n).calls
    ensures m >= n && Ends(steps(m), xid)
    ensures steps(m) == Return(xid) ==>
              && IsAnswered(states(m), xid) && states(m).calls[xid].answer.Result?
              && Executed(states(m), xid, states(m).calls[xid].answer.content)
              && multiset(states(m).server.news)[xid] == 1
  {
    SomeCallEnds(states, steps, xid, n);
    m :| m >= n && Ends(steps(m), xid);
    InvAt(states, steps, m);
    if steps(m) == Return(xid) {
      ReturnsAt(states(m), xid);
    }
  }
}

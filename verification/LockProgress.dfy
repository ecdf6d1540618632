/**
  No waiter is forgotten. From every reachable state, moves of activities that
  are already under way bring every queued client to the lock; nested callback
  RPCs never wait for each other in a circle.
 */
module LockProgress {
  import opened Common
  import opened LockServer
  import opened LockClient
  import opened LockProtocol
  import opened LockInvariant
  import opened LockTheorems

  /** What an answer can be waiting for: an acquire for a revoke (that may be
      releasing), a release for a retry (that may be acquiring), and the acquire
      after a retry only for a revoke of its own client. */
  predicate WaitOk(s: State, i: nat)
    requires i in s.acts
  {
    HasRpc(s.acts[i].pc) && s.acts[i].pc.rpc.Answered? && s.acts[i].pc.rpc.after.Some? ==>
      var a := s.acts[i].pc.rpc.after.value;
      && a < s.next
      && (s.acts[i].pc.FirstAcquire? ==> s.acts[i].pc.rpc.reply == Retry)
      && (a in s.acts ==>
            match s.acts[i].pc
            case FirstAcquire(_) => s.acts[a].pc.RevokeSent? || s.acts[a].pc.RevokeRelease?
            case SecondAcquire(_) => s.acts[a] == Activity(s.acts[i].client, RevokeSent)
            case RetryAcquire(_) => s.acts[a] == Activity(s.acts[i].client, RevokeSent)
            case _ => s.acts[a].pc.RetrySent? || s.acts[a].pc.RetryAcquire?)
  }

  ghost predicate WaitsOk(s: State)
  {
    forall i | i in s.acts :: WaitOk(s, i)
  }

  lemma {:induction false} WaitsStep(s: State, step: Step)
    requires Inv(s) && WaitsOk(s) && Next(s, step).Go?
    ensures WaitsOk(Next(s, step).state)
  {
    assert s.next !in s.acts;
    match step
    case CallAcquire(c) =>
      WithThreadKeeps(s, c);
      EnterAsResume(s, c);
      var r := WithThread(s, c);
      forall j | j in r.acts ensures WaitOk(r, j) { if j in s.acts { assert WaitOk(s, j); } }
      ResumeWaits(r, s.next);
    case Resume(i) => ResumeWaits(s, i);
    case Serve(i) => ServeWaits(s, i);
  }

  /** What the activity that runs turns into. */
  lemma {:induction false} OwnSection(s: State, t: State, c: ClientId, i: nat)
    requires Resumed(s, t, c, i)
    ensures i in t.acts && HasRpc(t.acts[i].pc) ==> t.acts[i].pc.rpc.Sent?
    ensures i in t.acts && (s.acts[i].pc.RevokeSent? || s.acts[i].pc.RevokeRelease?) ==> t.acts[i].pc.RevokeRelease?
    ensures i in t.acts && (s.acts[i].pc.RetrySent? || s.acts[i].pc.RetryAcquire?) ==> t.acts[i].pc.RetryAcquire?
    ensures i in t.acts && s.acts[i].pc.RevokeSent? ==> LockAt(s, c).status == Owned
  {
  }

  lemma {:induction false} ResumeWaits(s: State, i: nat)
    requires Inv(s) && WaitsOk(s) && Next(s, Resume(i)).Go?
    ensures WaitsOk(Next(s, Resume(i)).state)
  {
    hide ClientOk, ServerOk;
    var t := Next(s, Resume(i)).state;
    var c := s.acts[i].client;
    RunFrame(s, t, c, i, SectionOf(LockAt(s, c), s.acts[i].pc));
    OwnSection(s, t, c, i);
    forall j | j in t.acts ensures WaitOk(t, j) {
      if j != i { OtherWait(s, t, i, c, j); }
    }
  }

  lemma {:induction false} OtherWait(s: State, t: State, i: nat, c: ClientId, j: nat)
    requires ClientFrame(s, t, c, i) && j in s.acts && j in t.acts && j != i
    requires WaitOk(s, j) && ActOk(s, j) && i in s.acts
    requires i in t.acts && (s.acts[i].pc.RevokeSent? || s.acts[i].pc.RevokeRelease?) ==>
               t.acts[i].pc.RevokeRelease?
    requires i in t.acts && (s.acts[i].pc.RetrySent? || s.acts[i].pc.RetryAcquire?) ==>
               t.acts[i].pc.RetryAcquire?
    requires i in t.acts && s.acts[i].pc.RevokeSent? ==> LockAt(s, c).status == Owned
    ensures WaitOk(t, j)
  {
    if HasRpc(t.acts[j].pc) && t.acts[j].pc.rpc.Answered? && t.acts[j].pc.rpc.after.Some? {
      assert t.acts[j] == s.acts[j];
      var a := s.acts[j].pc.rpc.after.value;
      if a in t.acts { assert a in s.acts; }
    }
  }

  lemma {:induction false} AcquireWaits(s: State, t: State, i: nat)
    requires ServerOk(s) && EachActOk(s) && Next(s, Serve(i)) == Go(t) && AsksToAcquire(s.acts[i].pc)
    ensures WaitOk(t, i)
  {
    assert s.next !in s.acts && ActOk(s, i);
  }

  lemma {:induction false} ReleaseWaits(s: State, t: State, i: nat)
    requires ServerOk(s) && EachActOk(s) && Next(s, Serve(i)) == Go(t) && !AsksToAcquire(s.acts[i].pc)
    ensures WaitOk(t, i)
  {
    assert s.next !in s.acts && ActOk(s, i);
  }

  lemma {:induction false} CallbackFrame(s: State, t: State, i: nat)
    requires EachActOk(s) && Next(s, Serve(i)) == Go(t)
    ensures forall j | j in s.acts && j != i :: j in t.acts && t.acts[j] == s.acts[j]
    ensures forall j | j in t.acts && j !in s.acts :: j == s.next && !HasRpc(t.acts[j].pc)
    ensures s.next <= t.next && i in s.acts && i in t.acts && HasRpc(s.acts[i].pc) && s.acts[i].pc.rpc.Sent?
  {
    assert s.next !in s.acts;
  }

  /** The callback of another activity is not the activity served, which is still
      waiting for its own answer, unless it is making its RPC. */
  lemma {:induction false} ServeWaitsOther(s: State, t: State, i: nat, j: nat)
    requires j in s.acts && WaitOk(s, j) && j in t.acts && t.acts[j] == s.acts[j]
    requires i in s.acts && i in t.acts && s.next <= t.next
    requires forall k | k in s.acts && k != i :: k in t.acts && t.acts[k] == s.acts[k]
    requires forall k | k in t.acts && k !in s.acts :: k == s.next
    requires t.acts[i].client == s.acts[i].client && HasRpc(s.acts[i].pc)
    requires s.acts[i].pc.RevokeRelease? <==> t.acts[i].pc.RevokeRelease?
    requires s.acts[i].pc.RetryAcquire? <==> t.acts[i].pc.RetryAcquire?
    ensures WaitOk(t, j)
  {
  }

  lemma {:induction false} ServeWaits(s: State, i: nat)
    requires Inv(s) && WaitsOk(s) && Next(s, Serve(i)).Go?
    ensures WaitsOk(Next(s, Serve(i)).state)
  {
    var t := Next(s, Serve(i)).state;
    CallbackFrame(s, t, i);
    if AsksToAcquire(s.acts[i].pc) { AcquireWaits(s, t, i); } else { ReleaseWaits(s, t, i); }
    forall j | j in t.acts ensures WaitOk(t, j) {
      if j in s.acts && j != i { ServeWaitsOther(s, t, i, j); }
    }
  }

  ghost predicate Good(s: State)
  {
    Inv(s) && WaitsOk(s)
  }

  lemma {:induction false} RunGood(s: State, steps: seq<Step>)
    requires Good(s) && RunAll(s, steps).Go?
    ensures Good(RunAll(s, steps).state)
    decreases |steps|
  {
    if steps != [] {
      var last := |steps| - 1;
      RunGood(s, steps[..last]);
      StepKeeps(RunAll(s, steps[..last]).state, steps[last]);
      WaitsStep(RunAll(s, steps[..last]).state, steps[last]);
    }
  }

  lemma {:induction false} ReachableGood(s: State)
    requires Reachable(s)
    ensures Good(s)
  {
    var steps :| RunAll(Init, steps) == Go(s);
    InvInit();
    RunGood(Init, steps);
  }

  /** Somebody waits for the server to hand the lock over. */
  predicate Contended(s: State)
  {
    s.server.status == Expecting || (s.server.status == Locked && s.server.waiting != [])
  }

  ghost predicate HasRetry(s: State)
  {
    exists i :: i in s.acts && s.acts[i].pc.RetrySent?
  }

  ghost predicate HasRevoke(s: State)
  {
    exists i :: i in s.acts && s.acts[i].pc.RevokeSent?
  }

  ghost predicate AnswerHeldBack(s: State, c: ClientId)
  {
    exists i :: i in s.acts && s.acts[i].client == c && s.acts[i].pc.FirstAcquire? && Blocked(s, s.acts[i].pc.rpc)
  }

  /** How many moves the present holder still owes at most before the server
      hears from it. */
  ghost function Owed(s: State): nat
    requires Inv(s) && Contended(s)
  {
    var h := s.server.holder.value;
    var l := LockAt(s, h);
    if s.server.status == Expecting then
      if l.pending == RetryMark then (if AnswerHeldBack(s, h) then 3 else 2)
      else if HasRetry(s) then 4 else 1
    else if l.pending == RevokeMark then
      match l.status
      case InUse => 2
      case Owned => 3
      case _ => 4
    else if HasRevoke(s) then 5 else 1
  }

  /** The server's record after it has heard from the present holder. */
  function HandedOver(sv: ServerLock): ServerLock
    requires sv.status == Expecting || (sv.status == Locked && sv.waiting != [])
  {
    if sv.status == Expecting then sv.(status := Locked)
    else ServerLock(Expecting, Some(sv.waiting[0]), sv.waiting[1..] != [], sv.waiting[1..])
  }

  /** A step of an activity under way, other than an unsignalled return from the
      condition wait. */
  predicate OwnMove(s: State, step: Step)
  {
    !step.CallAcquire? && step.act in s.acts && s.acts[step.act].pc != Sleeping(false)
  }

  ghost predicate Advances(s: State, step: Step)
    requires Inv(s) && Contended(s)
  {
    && OwnMove(s, step) && Next(s, step).Go?
    && var t := Next(s, step).state;
       && Inv(t)
       && (|| t.server == HandedOver(s.server)
           || (t.server == s.server && Owed(t) < Owed(s)))
  }

  /** Activity i holds back the answer to the first acquire of client h. */
  ghost predicate HoldsBack(s: State, h: ClientId, i: nat)
  {
    exists f :: f in s.acts && s.acts[f].client == h && s.acts[f].pc.FirstAcquire? &&
                Blocked(s, s.acts[f].pc.rpc) && s.acts[f].pc.rpc.after == Some(i)
  }

  /** The step that is owed next. */
  ghost predicate Due(s: State, step: Step)
    requires Inv(s) && Contended(s)
  {
    var h := s.server.holder.value;
    var l := LockAt(s, h);
    && !step.CallAcquire? && step.act in s.acts
    && var a := s.acts[step.act];
       if s.server.status == Expecting then
         if l.pending == RetryMark then
           step.Resume? && if AnswerHeldBack(s, h) then HoldsBack(s, h, step.act)
                           else a.client == h && a.pc.FirstAcquire?
         else if HasRetry(s) then step.Resume? && a.pc.RetrySent?
         else step.Serve? && GrantToken(a.pc)
       else if l.pending == RevokeMark then
         step.Resume? && a.client == h &&
         match l.status
         case InUse => a.pc.Holding?
         case Owned => a.pc == Sleeping(true)
         case _ => AsksToAcquire(a.pc)
       else if HasRevoke(s) then step.Resume? && a.pc.RevokeSent?
       else step.Serve? && RevokeToken(a.pc)
  }

  /** Whenever somebody waits, an activity under way owes the next move ... */
  lemma {:induction false} SomeDue(s: State) returns (step: Step)
    requires Inv(s) && Contended(s)
    ensures Due(s, step)
  {
    var h := s.server.holder.value;
    assert ClientOk(s, h);
    if s.server.status == Expecting { step := SomeGrantDue(s, h); } else { step := SomeRevokeDue(s, h); }
  }

  lemma {:induction false} SomeGrantDue(s: State, h: ClientId) returns (step: Step)
    requires Inv(s) && ExpectedFrom(s, h)
    ensures Due(s, step)
  {
    assert ClientOk(s, h);
    if LockAt(s, h).pending == RetryMark {
      if AnswerHeldBack(s, h) {
        var f :| f in s.acts && s.acts[f].client == h && s.acts[f].pc.FirstAcquire? && Blocked(s, s.acts[f].pc.rpc);
        step := Resume(s.acts[f].pc.rpc.after.value);
      } else {
        var f :| f in s.acts && s.acts[f].client == h && s.acts[f].pc.FirstAcquire?;
        step := Resume(f);
      }
    } else if HasRetry(s) {
      var i :| i in s.acts && s.acts[i].pc.RetrySent?;
      step := Resume(i);
    } else {
      var i :| i in s.acts && GrantToken(s.acts[i].pc);
      step := Serve(i);
    }
  }

  lemma {:induction false} SomeRevokeDue(s: State, h: ClientId) returns (step: Step)
    requires Inv(s) && LockedBy(s, h) && s.server.waiting != []
    ensures Due(s, step)
  {
    assert ClientOk(s, h);
    if LockAt(s, h).pending == RevokeMark {
      if LockAt(s, h).status == InUse {
        var i :| i in s.acts && s.acts[i].client == h && s.acts[i].pc.Holding?;
        step := Resume(i);
      } else if LockAt(s, h).status == Owned {
        var i :| i in s.acts && s.acts[i].client == h && s.acts[i].pc == Sleeping(true);
        step := Resume(i);
      } else {
        var i :| i in s.acts && s.acts[i].client == h && AsksToAcquire(s.acts[i].pc);
        step := Resume(i);
      }
    } else if HasRevoke(s) {
      var i :| i in s.acts && s.acts[i].pc.RevokeSent?;
      step := Resume(i);
    } else {
      var i :| i in s.acts && RevokeToken(s.acts[i].pc);
      step := Serve(i);
    }
  }

  /** ... can make it at once, and the moves owed become fewer. */
  lemma {:induction false} DueAdvances(s: State, step: Step)
    requires Good(s) && Contended(s) && Due(s, step)
    ensures Advances(s, step)
  {
    if s.server.status == Expecting { ExpectedMove(s, step); } else { RevokedMove(s, step); }
  }

  lemma {:induction false} SomeoneOwesTheNextMove(s: State) returns (step: Step)
    requires Good(s) && Contended(s)
    ensures Due(s, step) && Advances(s, step)
  {
    step := SomeDue(s);
    DueAdvances(s, step);
  }

  lemma {:induction false} ExpectedMove(s: State, step: Step)
    requires Good(s) && s.server.status == Expecting && Due(s, step)
    ensures Advances(s, step)
  {
    var h := s.server.holder.value;
    assert ClientOk(s, h) && ActOk(s, step.act);
    if LockAt(s, h).pending == RetryMark {
      MarkedMove(s, h, step);
    } else if HasRetry(s) {
      StepKeeps(s, step);
      var t := Next(s, step).state;
      if LockAt(s, h).status == Waiting { assert GrantToken(t.acts[step.act].pc); }
    } else {
      StepKeeps(s, step);
    }
  }

  /** The retry overtook the answer to the first acquire. */
  lemma {:induction false} MarkedMove(s: State, h: ClientId, step: Step)
    requires Good(s) && ExpectedFrom(s, h) && LockAt(s, h).pending == RetryMark && Due(s, step)
    ensures Advances(s, step)
  {
    assert ClientOk(s, h);
    if AnswerHeldBack(s, h) {
      var f :| f in s.acts && s.acts[f].client == h && s.acts[f].pc.FirstAcquire? &&
               Blocked(s, s.acts[f].pc.rpc) && s.acts[f].pc.rpc.after == Some(step.act);
      CallbackReturns(s, h, f);
    } else {
      var f := step.act;
      assert ActOk(s, f) && WaitOk(s, f);
      StepKeeps(s, step);
      assert GrantToken(Next(s, step).state.acts[f].pc);
    }
  }

  /** The callback that holds the answer back is a revoke handler whose release
      has been answered, and nothing holds that answer back any more. */
  lemma {:induction false} CallbackDone(s: State, h: ClientId, f: nat)
    requires Good(s) && ExpectedFrom(s, h) && LockAt(s, h).pending == RetryMark
    requires f in s.acts && s.acts[f].pc.FirstAcquire? && Blocked(s, s.acts[f].pc.rpc)
    ensures var a := s.acts[f].pc.rpc.after.value;
            && s.acts[a].pc.RevokeRelease? && s.acts[a].pc.rpc.Answered? && !Blocked(s, s.acts[a].pc.rpc)
            && LockAt(s, s.acts[a].client).status == Releasing
  {
    assert ClientOk(s, h) && WaitOk(s, f);
    var a := s.acts[f].pc.rpc.after.value;
    assert ActOk(s, a) && WaitOk(s, a);
  }

  lemma {:induction false} CallbackReturns(s: State, h: ClientId, f: nat)
    requires Good(s) && ExpectedFrom(s, h) && LockAt(s, h).pending == RetryMark
    requires f in s.acts && s.acts[f].client == h && s.acts[f].pc.FirstAcquire? && Blocked(s, s.acts[f].pc.rpc)
    ensures Advances(s, Resume(s.acts[f].pc.rpc.after.value))
  {
    CallbackDone(s, h, f);
    assert ClientOk(s, h);
    var a := s.acts[f].pc.rpc.after.value;
    var c := s.acts[a].client;
    StepKeeps(s, Resume(a));
    var t := Next(s, Resume(a)).state;
    RunFrame(s, t, c, a, FinishRevoke(LockAt(s, c), s.acts[a].pc.rpc.reply));
    assert AnswerHeldBack(s, h);
    forall j | j in t.acts && t.acts[j].client == h && t.acts[j].pc.FirstAcquire?
      ensures !Blocked(t, t.acts[j].pc.rpc)
    {
      assert t.acts[j] == s.acts[j];
      assert Busy(s.acts[j].pc) && Busy(s.acts[f].pc);
      assert j == f;
    }
  }

  lemma {:induction false} RevokedMove(s: State, step: Step)
    requires Good(s) && s.server.status == Locked && s.server.waiting != [] && Due(s, step)
    ensures Advances(s, step)
  {
    var h := s.server.holder.value;
    assert ClientOk(s, h) && ActOk(s, step.act);
    if LockAt(s, h).pending == RevokeMark {
      GivingUpMove(s, h, step);
    } else if HasRevoke(s) {
      StepKeeps(s, step);
      var t := Next(s, step).state;
      if LockAt(s, h).status == Owned { assert RevokeToken(t.acts[step.act].pc); }
    } else {
      StepKeeps(s, step);
    }
  }

  /** The holder has taken note of the revoke. */
  lemma {:induction false} GivingUpMove(s: State, h: ClientId, step: Step)
    requires Good(s) && LockedBy(s, h) && s.server.waiting != [] && LockAt(s, h).pending == RevokeMark && Due(s, step)
    ensures Advances(s, step)
  {
    assert ClientOk(s, h);
    match LockAt(s, h).status
    case InUse =>
      StepKeeps(s, step);
      assert RevokeToken(Next(s, step).state.acts[step.act].pc);
    case Owned =>
      StepKeeps(s, step);
    case _ => AnsweredMove(s, h, step);
  }

  /** ... while its acquire was already answered but not yet delivered. */
  lemma {:induction false} AnsweredMove(s: State, h: ClientId, step: Step)
    requires Good(s) && LockedBy(s, h) && s.server.waiting != [] && LockAt(s, h).pending == RevokeMark
    requires LockAt(s, h).status == Acquiring || LockAt(s, h).status == Waiting
    requires step.Resume? && step.act in s.acts && s.acts[step.act].client == h && AsksToAcquire(s.acts[step.act].pc)
    ensures Advances(s, step)
  {
    var i := step.act;
    assert ClientOk(s, h) && ActOk(s, i) && WaitOk(s, i) && NoRevoke(s);
    StepKeeps(s, step);
    assert LockAt(Next(s, step).state, h).status == if s.acts[i].pc.RetryAcquire? then Owned else InUse;
  }

  lemma {:induction false} RunAppend(s: State, a: seq<Step>, b: seq<Step>)
    requires RunAll(s, a).Go?
    ensures RunAll(s, a + b) == RunAll(RunAll(s, a).state, b)
    decreases |b|
  {
    if b == [] {
      assert a + b == a;
    } else {
      var last := |b| - 1;
      RunAppend(s, a, b[..last]);
      assert (a + b)[..|a + b| - 1] == a + b[..last];
    }
  }

  /** Every step of the run is a move of an activity under way. */
  ghost predicate Driven(s: State, steps: seq<Step>)
    decreases |steps|
  {
    steps == [] ||
    var last := |steps| - 1;
    && Driven(s, steps[..last])
    && RunAll(s, steps[..last]).Go? && OwnMove(RunAll(s, steps[..last]).state, steps[last])
  }

  lemma {:induction false} DrivenAppend(s: State, a: seq<Step>, b: seq<Step>)
    requires RunAll(s, a).Go? && Driven(s, a) && Driven(RunAll(s, a).state, b)
    ensures Driven(s, a + b)
    decreases |b|
  {
    if b == [] {
      assert a + b == a;
    } else {
      var last := |b| - 1;
      DrivenAppend(s, a, b[..last]);
      RunAppend(s, a, b[..last]);
      assert (a + b)[..|a + b| - 1] == a + b[..last];
    }
  }

  lemma {:induction false} RunOne(s: State, step: Step)
    requires OwnMove(s, step)
    ensures RunAll(s, [step]) == Next(s, step) && Driven(s, [step])
  {
    assert [step][..0] == [];
    assert RunAll(s, []) == Go(s);
  }

  /** Moves under way always lead to the next hand-over. */
  lemma {:induction false} HandOverReachable(s: State) returns (steps: seq<Step>, t: State)
    requires Good(s) && Contended(s)
    ensures RunAll(s, steps) == Go(t) && Driven(s, steps)
    ensures Good(t) && t.server == HandedOver(s.server)
    decreases Owed(s)
  {
    var step := SomeoneOwesTheNextMove(s);
    WaitsStep(s, step);
    t := Next(s, step).state;
    RunOne(s, step);
    steps := [step];
    if t.server != HandedOver(s.server) {
      var more;
      more, t := HandOverReachable(t);
      RunAppend(s, [step], more);
      DrivenAppend(s, [step], more);
      steps := [step] + more;
    }
  }

  /** From every reachable state, every queued client can still get the lock
      by moves of activities under way, none of them an unsignalled wake-up. */
  lemma {:induction false} EveryWaiterCanBeServed(s: State, c: ClientId) returns (steps: seq<Step>, t: State)
    requires Reachable(s) && (c in s.server.waiting || ExpectedFrom(s, c))
    ensures RunAll(s, steps) == Go(t) && Driven(s, steps) && LockedBy(t, c)
  {
    ReachableGood(s);
    steps, t := WaiterServed(s, c);
  }

  lemma {:induction false} WaiterServed(s: State, c: ClientId) returns (steps: seq<Step>, t: State)
    requires Good(s) && (c in s.server.waiting || ExpectedFrom(s, c))
    ensures RunAll(s, steps) == Go(t) && Driven(s, steps) && LockedBy(t, c)
    decreases |s.server.waiting|, s.server.status == Expecting
  {
    steps, t := HandOverReachable(s);
    if !LockedBy(t, c) {
      var more, mid := [], t;
      more, t := WaiterServed(mid, c);
      RunAppend(s, steps, more);
      DrivenAppend(s, steps, more);
      steps := steps + more;
    }
  }
}

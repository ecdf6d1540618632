/**
  Threads that sleep in acquire. A client never keeps the lock cached while a thread of
  its own sleeps without a signal. The one gap is the end of a release that goes back to
  the server: it does not signal, so a thread that sleeps then is forgotten until another
  thread of its client calls acquire.
 */
module LockSleepers {
  import opened Common
  import opened LockServer
  import opened LockClient
  import opened LockProtocol
  import opened LockInvariant
  import opened LockTheorems

  // ----- a free lock is had for the asking -----

  /** From every reachable state in which the lock is free at the server and unheld at
      client c, a thread that enters acquire has the lock after one RPC. */
  lemma {:induction false} FreeLockIsAcquired(s: State, c: ClientId)
    requires Reachable(s) && s.server.status == Free && LockAt(s, c).status == Unheld
    ensures var o := RunAll(s, [CallAcquire(c), Serve(s.next), Resume(s.next)]);
            && o.Go? && s.next in o.state.acts && o.state.acts[s.next] == Activity(c, Holding)
            && LockedBy(o.state, c)
  {
    ReachableInv(s);
    var i := s.next;
    var t := Next(s, CallAcquire(c)).state;
    StepKeeps(s, CallAcquire(c));
    StepKeeps(t, Serve(i));
    var u := Next(t, Serve(i)).state;
    StepKeeps(u, Resume(i));
    var steps := [CallAcquire(c), Serve(i), Resume(i)];
    assert steps[..2][..1][..0] == [];
    assert steps[..2][..1] == [CallAcquire(c)] && steps[..2] == [CallAcquire(c), Serve(i)];
    assert RunAll(s, steps[..2][..1]) == Go(t);
    assert RunAll(s, steps[..2]) == Go(u);
  }

  // ----- who sleeps -----

  /** A thread of client c sleeps and nobody has signalled it. */
  ghost predicate Sleeps(s: State, c: ClientId)
  {
    exists j :: j in s.acts && s.acts[j] == Activity(c, Sleeping(false))
  }

  ghost predicate OwnedAwake(s: State)
  {
    forall c | LockAt(s, c).status == Owned :: !Sleeps(s, c)
  }

  /** What a section of client c for activity i does to the sleepers of client d. */
  lemma {:induction false} SectionSleepers(s: State, t: State, c: ClientId, i: nat, sec: Section, d: ClientId)
    requires Ran(s, t, c, i, sec)
    ensures d != c ==> (Sleeps(t, d) <==> Sleeps(s, d)) && LockAt(t, d) == LockAt(s, d)
    ensures d == c && sec.broadcast ==> !Sleeps(t, d)
    ensures d == c && !sec.broadcast ==>
              (Sleeps(t, d) <==> sec.pc == Some(Sleeping(false)) ||
                                 exists j :: j in s.acts && j != i && s.acts[j] == Activity(c, Sleeping(false)))
  {
  }

  lemma {:induction false} AnswerSleepers(s: State, t: State, c: ClientId, i: nat, out: Served, callback: Pc,
                                          d: ClientId)
    requires Replied(s, t, c, i, out, callback) && !callback.Sleeping?
    ensures (Sleeps(t, d) <==> Sleeps(s, d)) && LockAt(t, d) == LockAt(s, d)
  {
    if j :| j in s.acts && s.acts[j] == Activity(d, Sleeping(false)) { assert t.acts[j] == s.acts[j]; }
  }

  lemma {:induction false} ServeSleepers(s: State, i: nat, d: ClientId)
    requires Inv(s) && Next(s, Serve(i)).Go?
    ensures var t := Next(s, Serve(i)).state; (Sleeps(t, d) <==> Sleeps(s, d)) && LockAt(t, d) == LockAt(s, d)
  {
    hide Sleeps, Replied, ClientOk, ServerOk, AcquireSection, ReleaseSection;
    var t, c := Next(s, Serve(i)).state, s.acts[i].client;
    if AsksToAcquire(s.acts[i].pc) {
      AnswerFrame(s, t, c, i, AcquireSection(s.server, c), RevokeSent);
      AnswerSleepers(s, t, c, i, AcquireSection(s.server, c), RevokeSent, d);
    } else {
      AnswerFrame(s, t, c, i, ReleaseSection(s.server, c), RetrySent);
      AnswerSleepers(s, t, c, i, ReleaseSection(s.server, c), RetrySent, d);
    }
  }

  /** The section that a step runs at client c, and for which activity. */
  lemma {:induction false} StepRan(s: State, step: Step) returns (c: ClientId, i: nat, sec: Section)
    requires Inv(s) && Next(s, step).Go? && !step.Serve?
    ensures Ran(s, Next(s, step).state, c, i, sec)
    ensures if step.CallAcquire? then c == step.client && i == s.next && sec == EnterAcquire(LockAt(s, c))
            else i == step.act && i in s.acts && c == s.acts[i].client && Ready(s.acts[i].pc) &&
                 sec == SectionOf(LockAt(s, c), s.acts[i].pc)
    ensures s.next !in s.acts
  {
    var t := Next(s, step).state;
    assert s.next !in s.acts;
    if step.CallAcquire? {
      c, i := step.client, s.next;
      sec := EnterAcquire(LockAt(s, c));
    } else {
      i := step.act;
      c := s.acts[i].client;
      sec := SectionOf(LockAt(s, c), s.acts[i].pc);
    }
    RunFrame(s, t, c, i, sec);
  }

  lemma {:induction false} OwnedAwakeSection(s: State, t: State, c: ClientId, i: nat, pc: Pc, d: ClientId)
    requires Ready(pc) && Ran(s, t, c, i, SectionOf(LockAt(s, c), pc))
    requires LockAt(s, d).status == Owned ==> !Sleeps(s, d)
    ensures LockAt(t, d).status == Owned ==> !Sleeps(t, d)
  {
    SectionSleepers(s, t, c, i, SectionOf(LockAt(s, c), pc), d);
  }

  lemma {:induction false} OwnedAwakeStep(s: State, step: Step)
    requires Inv(s) && OwnedAwake(s) && Next(s, step).Go?
    ensures OwnedAwake(Next(s, step).state)
  {
    hide Inv, Next, Sleeps;
    var t := Next(s, step).state;
    forall d | LockAt(t, d).status == Owned ensures !Sleeps(t, d) {
      if step.Serve? {
        ServeSleepers(s, step.act, d);
      } else {
        var c, i, sec := StepRan(s, step);
        OwnedAwakeSection(s, t, c, i, if step.CallAcquire? then Sleeping(false) else s.acts[i].pc, d);
      }
    }
  }

  /** While a client has the lock cached, every sleeping thread of it has been signalled. */
  lemma {:induction false} OwnedHasNoSleeper(steps: seq<Step>)
    requires RunAll(Init, steps).Go?
    ensures OwnedAwake(RunAll(Init, steps).state)
    decreases |steps|
  {
    if steps != [] {
      var last := |steps| - 1;
      RunNeverCrashes(steps[..last]);
      OwnedHasNoSleeper(steps[..last]);
      OwnedAwakeStep(RunAll(Init, steps[..last]).state, steps[last]);
    }
  }

  // ----- forgotten threads -----

  /** A thread of client c sleeps, and nothing of the client is under way for it. */
  ghost predicate Forgets(s: State, c: ClientId)
  {
    LockAt(s, c).status == Unheld && Sleeps(s, c)
  }

  /** The closing section of a release of client c that went to the server. */
  predicate EndsRelease(s: State, step: Step, c: ClientId)
  {
    step.Resume? && step.act in s.acts && s.acts[step.act].client == c && s.acts[step.act].pc.ReleaseCall?
  }

  lemma {:induction false} ForgetsSection(s: State, t: State, c: ClientId, i: nat, pc: Pc, d: ClientId)
    requires Ready(pc) && Ran(s, t, c, i, SectionOf(LockAt(s, c), pc)) && !Forgets(s, d)
    requires i in s.acts ==> s.acts[i].pc == pc
    ensures Forgets(t, d) <==> pc.ReleaseCall? && c == d && Sleeps(s, d)
  {
    SectionSleepers(s, t, c, i, SectionOf(LockAt(s, c), pc), d);
  }

  /** A step forgets a thread exactly when it ends a release that went to the server
      while a thread of the same client sleeps. */
  lemma {:induction false} ForgetsIffReleaseEnds(s: State, step: Step, d: ClientId)
    requires Reachable(s) && !Forgets(s, d) && Next(s, step).Go?
    ensures Forgets(Next(s, step).state, d) <==> EndsRelease(s, step, d) && Sleeps(s, d)
  {
    hide Next, Reachable, Inv, Ran, Sleeps;
    ReachableInv(s);
    var t := Next(s, step).state;
    if step.Serve? {
      ServeSleepers(s, step.act, d);
    } else {
      var c, i, sec := StepRan(s, step);
      ForgetsSection(s, t, c, i, if step.CallAcquire? then Sleeping(false) else s.acts[i].pc, d);
    }
  }

  /** A forgotten thread stays forgotten until a thread of its client enters acquire or
      returns from its condition wait. */
  lemma {:induction false} StaysForgotten(s: State, step: Step, d: ClientId)
    requires Reachable(s) && Forgets(s, d) && Next(s, step).Go? && step != CallAcquire(d)
    requires step.Resume? ==> !(s.acts[step.act].client == d && s.acts[step.act].pc.Sleeping?)
    ensures Forgets(Next(s, step).state, d)
  {
    ReachableInv(s);
    var t := Next(s, step).state;
    if step.Serve? {
      ServeSleepers(s, step.act, d);
    } else {
      var c, i, sec := StepRan(s, step);
      if step.Resume? { assert ActOk(s, i) && ClientOk(s, d); }
      SectionSleepers(s, t, c, i, sec, d);
    }
  }

  // ----- a run that forgets a thread -----

  lemma {:induction false} OneMore(steps: seq<Step>, step: Step)
    requires RunAll(Init, steps).Go?
    ensures RunAll(Init, steps + [step]) == Next(RunAll(Init, steps).state, step)
  {
    assert (steps + [step])[..|steps + [step]| - 1] == steps;
  }

  /** Thread 0 of client 0 has the lock and thread 1 of the same client sleeps. */
  lemma {:induction false} TwoThreads() returns (steps: seq<Step>)
    ensures RunAll(Init, steps) ==
            Go(State(ServerLock(Locked, Some(0), false, []), map[0 := ClientLock(InUse, NoMark)],
                     map[0 := Activity(0, Holding), 1 := Activity(0, Sleeping(false))], 2))
  {
    steps := [];
    OneMore(steps, CallAcquire(0));
    steps := steps + [CallAcquire(0)];
    OneMore(steps, Serve(0));
    steps := steps + [Serve(0)];
    OneMore(steps, Resume(0));
    steps := steps + [Resume(0)];
    OneMore(steps, CallAcquire(0));
    steps := steps + [CallAcquire(0)];
  }

  /** Client 1 asks for the lock, and the revoke finds it in use. */
  lemma {:induction false} ThenRevoked() returns (steps: seq<Step>)
    ensures RunAll(Init, steps) ==
            Go(State(ServerLock(Locked, Some(0), true, [1]),
                     map[0 := ClientLock(InUse, RevokeMark), 1 := ClientLock(Acquiring, NoMark)],
                     map[0 := Activity(0, Holding), 1 := Activity(0, Sleeping(false)),
                         2 := Activity(1, FirstAcquire(Answered(Retry, Some(3))))], 4))
  {
    hide RunAll;
    steps := TwoThreads();
    OneMore(steps, CallAcquire(1));
    steps := steps + [CallAcquire(1)];
    OneMore(steps, Serve(2));
    steps := steps + [Serve(2)];
    OneMore(steps, Resume(3));
    steps := steps + [Resume(3)];
  }

  /** Thread 0 gives the lock back, and the server tells client 1 to try again. */
  lemma {:induction false} ThenHandedOver() returns (steps: seq<Step>)
    ensures RunAll(Init, steps) ==
            Go(State(ServerLock(Expecting, Some(1), false, []),
                     map[0 := ClientLock(Releasing, NoMark), 1 := ClientLock(Acquiring, NoMark)],
                     map[0 := Activity(0, ReleaseCall(Answered(Ok, Some(4)))), 1 := Activity(0, Sleeping(false)),
                         2 := Activity(1, FirstAcquire(Answered(Retry, Some(3)))), 4 := Activity(1, RetrySent)], 5))
  {
    hide RunAll;
    steps := ThenRevoked();
    OneMore(steps, Resume(0));
    steps := steps + [Resume(0)];
    OneMore(steps, Serve(0));
    steps := steps + [Serve(0)];
  }

  /** Client 1 has its retry, and the release ends without a signal to thread 1. */
  lemma {:induction false} SleeperForgotten() returns (steps: seq<Step>)
    ensures RunAll(Init, steps).Go? && Forgets(RunAll(Init, steps).state, 0)
  {
    hide RunAll;
    steps := ThenHandedOver();
    OneMore(steps, Resume(4));
    steps := steps + [Resume(4)];
    OneMore(steps, Resume(0));
    steps := steps + [Resume(0)];
    assert RunAll(Init, steps).state.acts[1] == Activity(0, Sleeping(false));
  }
}

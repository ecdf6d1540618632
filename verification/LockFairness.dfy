/**
  Under fair scheduling every waiting client gets the lock. No step undoes the
  progress towards the next hand-over, a step that is owed stays owed until it is
  taken or something better happens, and so in every infinite run in which owed steps
  are not put off for ever each client in the queue becomes the holder.
 */
module LockFairness {
  import opened Common
  import opened LockServer
  import opened LockClient
  import opened LockProtocol
  import opened LockInvariant
  import opened LockTheorems
  import opened LockProgress

  /** The same contention, not further from its hand-over, with nobody gone from the
      queue and nobody let in before its end. */
  ghost predicate NoFurther(s: State, t: State)
    requires Inv(s) && Contended(s) && Inv(t)
  {
    && Contended(t) && t.server.status == s.server.status && t.server.holder == s.server.holder
    && s.server.waiting <= t.server.waiting
    && Owed(t) <= Owed(s)
  }

  /** A step of an activity that is not about activity j leaves j as it is, but may
      signal it when it sleeps. */
  lemma {:induction false} OthersStay(s: State, step: Step, j: nat)
    requires Inv(s) && Next(s, step).Go? && j in s.acts && (step.CallAcquire? || step.act != j)
    ensures var t := Next(s, step).state;
            && j in t.acts
            && (t.acts[j] == s.acts[j] || (s.acts[j].pc.Sleeping? && t.acts[j] == s.acts[j].(pc := Sleeping(true))))
  {
    assert s.next !in s.acts;
  }

  // ----- no step undoes progress -----

  /** No callback is sent, and no answer to h newly held back. */
  ghost predicate NothingNew(s: State, t: State, h: ClientId)
  {
    && (HasRetry(t) ==> HasRetry(s)) && (HasRevoke(t) ==> HasRevoke(s))
    && (AnswerHeldBack(t, h) ==> AnswerHeldBack(s, h))
  }

  lemma {:induction false} ResumeNothingNew(s: State, t: State, c: ClientId, i: nat, h: ClientId)
    requires Resumed(s, t, c, i)
    ensures NothingNew(s, t, h)
  {
    if AnswerHeldBack(t, h) {
      var f :| f in t.acts && t.acts[f].client == h && t.acts[f].pc.FirstAcquire? && Blocked(t, t.acts[f].pc.rpc);
      assert f != i && t.acts[f] == s.acts[f];
      assert Blocked(s, s.acts[f].pc.rpc);
    }
  }

  /** What a section of client c does to the moves that h still owes, given that nothing
      new is sent or held back. */
  lemma {:induction false} OwedFalls(s: State, t: State, c: ClientId, i: nat, h: ClientId)
    requires Inv(s) && Inv(t) && Contended(s) && h == s.server.holder.value && Resumed(s, t, c, i)
    requires NothingNew(s, t, h)
    ensures Owed(t) <= Owed(s)
  {
    assert ActOk(s, i) && ClientOk(s, c) && ClientOk(s, h) && ClientOk(t, h);
  }

  lemma {:induction false} ResumeNoFurther(s: State, i: nat)
    requires Inv(s) && Contended(s) && Next(s, Resume(i)).Go?
    ensures var t := Next(s, Resume(i)).state; Inv(t) && NoFurther(s, t)
  {
    StepKeeps(s, Resume(i));
    var t := Next(s, Resume(i)).state;
    var c := s.acts[i].client;
    RunFrame(s, t, c, i, SectionOf(LockAt(s, c), s.acts[i].pc));
    ResumeNothingNew(s, t, c, i, s.server.holder.value);
    OwedFalls(s, t, c, i, s.server.holder.value);
  }

  lemma {:induction false} ThreadNothingNew(s: State, c: ClientId, h: ClientId)
    requires WaitsOk(s) && s.next !in s.acts
    ensures NothingNew(s, WithThread(s, c), h) && NothingNew(WithThread(s, c), s, h)
  {
    var r := WithThread(s, c);
    assert forall j | j in s.acts :: j in r.acts && r.acts[j] == s.acts[j];
    if AnswerHeldBack(r, h) {
      var f :| f in r.acts && r.acts[f].client == h && r.acts[f].pc.FirstAcquire? && Blocked(r, r.acts[f].pc.rpc);
      assert r.acts[f] == s.acts[f] && WaitOk(s, f);
      assert Blocked(s, s.acts[f].pc.rpc);
    }
  }

  /** A thread about to enter acquire changes nothing by itself. */
  lemma {:induction false} ThreadNoFurther(s: State, c: ClientId)
    requires Good(s) && Contended(s)
    ensures Inv(WithThread(s, c)) && s.next !in s.acts && NoFurther(s, WithThread(s, c))
  {
    hide WaitsOk, HasRetry, HasRevoke, AnswerHeldBack, ActsOk, ClientOk;
    WithThreadKeeps(s, c);
    ThreadNothingNew(s, c, s.server.holder.value);
  }

  lemma {:induction false} CallNoFurther(s: State, c: ClientId)
    requires Good(s) && Contended(s)
    ensures var o := Next(s, CallAcquire(c)); o.Go? && Inv(o.state) && NoFurther(s, o.state)
  {
    StepKeeps(s, CallAcquire(c));
    ThreadNoFurther(s, c);
    EnterAsResume(s, c);
    ResumeNoFurther(WithThread(s, c), s.next);
  }

  /** The server hears from the holder, or queues somebody. */
  lemma {:induction false} ServeNoFurther(s: State, i: nat)
    requires Good(s) && Contended(s) && Next(s, Serve(i)).Go?
    ensures var t := Next(s, Serve(i)).state;
            Inv(t) && (t.server == HandedOver(s.server) || NoFurther(s, t))
  {
    StepKeeps(s, Serve(i));
    var t := Next(s, Serve(i)).state;
    var c, h := s.acts[i].client, s.server.holder.value;
    assert ActOk(s, i) && ClientOk(s, c) && ClientOk(s, h);
    if t.server != HandedOver(s.server) {
      assert s.acts[i].pc.FirstAcquire? && c != h && Outside(s, c);
      QueuedNothingNew(s, t, i, h);
    }
  }

  /** A first acquire of another client during contention is told to wait, without any
      callback. */
  lemma {:induction false} QueuedNothingNew(s: State, t: State, i: nat, h: ClientId)
    requires Good(s) && Contended(s) && Next(s, Serve(i)) == Go(t) && h == s.server.holder.value
    requires s.acts[i].pc.FirstAcquire? && Outside(s, s.acts[i].client)
    ensures NothingNew(s, t, h) && t.clients == s.clients
    ensures t.server == s.server.(waiting := s.server.waiting + [s.acts[i].client], sendRpc := true)
  {
    hide ClientOk, WaitsOk;
    var c := s.acts[i].client;
    AnswerFrame(s, t, c, i, AcquireSection(s.server, c), RevokeSent);
    if AnswerHeldBack(t, h) {
      var f :| f in t.acts && t.acts[f].client == h && t.acts[f].pc.FirstAcquire? && Blocked(t, t.acts[f].pc.rpc);
      assert f != i && t.acts[f] == s.acts[f];
      assert Blocked(s, s.acts[f].pc.rpc);
    }
  }

  /** No step undoes progress: it brings the hand-over, or leaves the contention as it
      is and no further from its hand-over. */
  lemma {:induction false} NoStepUndoesProgress(s: State, step: Step)
    requires Good(s) && Contended(s) && Next(s, step).Go?
    ensures var t := Next(s, step).state;
            Good(t) && (t.server == HandedOver(s.server) || NoFurther(s, t))
  {
    StepKeeps(s, step);
    WaitsStep(s, step);
    match step
    case CallAcquire(c) => CallNoFurther(s, c);
    case Resume(i) => ResumeNoFurther(s, i);
    case Serve(i) => ServeNoFurther(s, i);
  }

  // ----- an owed step stays owed -----

  lemma {:induction false} OnlyItself(s: State, step: Step, other: Step)
    requires !step.CallAcquire? && Next(s, step).Go? && Next(s, other).Go? && other != step
    ensures other.CallAcquire? || other.act != step.act
  {
  }

  lemma {:induction false} HeldBackStays(s: State, t: State, other: Step, h: ClientId, i: nat)
    requires Inv(s) && HoldsBack(s, h, i) && Next(s, other) == Go(t) && (other.CallAcquire? || other.act != i)
    ensures HoldsBack(t, h, i)
  {
    var f :| f in s.acts && s.acts[f].client == h && s.acts[f].pc.FirstAcquire? &&
             Blocked(s, s.acts[f].pc.rpc) && s.acts[f].pc.rpc.after == Some(i);
    OthersStay(s, other, f);
    OthersStay(s, other, i);
    assert t.acts[f] == s.acts[f];
  }

  /** Unless another step brings the hand-over nearer, the step that is owed is still
      owed after it. */
  lemma {:induction false} DueStays(s: State, step: Step, other: Step)
    requires Good(s) && Contended(s) && Due(s, step) && other != step && Next(s, other).Go?
    requires var t := Next(s, other).state; Inv(t) && NoFurther(s, t) && Owed(t) == Owed(s)
    ensures Due(Next(s, other).state, step)
  {
    DueAdvances(s, step);
    OnlyItself(s, step, other);
    var t, h := Next(s, other).state, s.server.holder.value;
    OthersStay(s, other, step.act);
    assert ClientOk(s, h) && ClientOk(t, h);
    if s.server.status == Expecting && LockAt(s, h).pending == RetryMark && AnswerHeldBack(s, h) {
      HeldBackStays(s, t, other, h, step.act);
    }
  }

  // ----- infinite runs -----

  ghost predicate StepAt(states: nat -> State, steps: nat -> Step, n: nat)
  {
    Next(states(n), steps(n)) == Go(states(n + 1))
  }

  ghost predicate InfiniteRun(states: nat -> State, steps: nat -> Step)
  {
    states(0) == Init && forall n: nat :: StepAt(states, steps, n)
  }

  predicate Offered(s: State, step: Step)
  {
    OwnMove(s, step) && Next(s, step).Go?
  }

  ghost predicate OfferedFrom(states: nat -> State, step: Step, n: nat)
  {
    forall m: nat | m >= n :: Offered(states(m), step)
  }

  ghost predicate TakenFrom(steps: nat -> Step, step: Step, n: nat)
  {
    exists m: nat :: m >= n && steps(m) == step
  }

  /** A move of an activity under way that is possible for ever is made at some time:
      threads that can run do, RPCs are executed and answered, and a thread that holds
      the lock calls release. Nothing is asked of new threads and unsignalled sleepers. */
  ghost predicate Fair(states: nat -> State, steps: nat -> Step)
  {
    forall n: nat, step :: OfferedFrom(states, step, n) ==> TakenFrom(steps, step, n)
  }

  lemma {:induction false} GoodAt(states: nat -> State, steps: nat -> Step, n: nat)
    requires InfiniteRun(states, steps)
    ensures Good(states(n))
  {
    if n == 0 {
      InvInit();
    } else {
      GoodAt(states, steps, n - 1);
      assert StepAt(states, steps, n - 1);
      StepKeeps(states(n - 1), steps(n - 1));
      WaitsStep(states(n - 1), steps(n - 1));
    }
  }

  /** The step after states(n) hands the lock over. */
  ghost predicate HandsOver(states: nat -> State, n: nat)
  {
    Contended(states(n)) && states(n + 1).server == HandedOver(states(n).server)
  }

  ghost predicate Handed(states: nat -> State, n: nat, m: nat)
  {
    exists k: nat :: n <= k < m && HandsOver(states, k)
  }

  ghost predicate StillWaiting(s: State, t: State)
  {
    Inv(s) && Contended(s) && Inv(t) && NoFurther(s, t)
  }

  /** Up to the hand-over the contention stays and gets no further from it. */
  lemma {:induction false} Walk(states: nat -> State, steps: nat -> Step, n: nat, m: nat)
    requires InfiniteRun(states, steps) && Contended(states(n)) && n <= m
    ensures Handed(states, n, m) || StillWaiting(states(n), states(m))
    decreases m - n
  {
    hide Inv, WaitsOk, Owed;
    GoodAt(states, steps, n);
    if n < m {
      Walk(states, steps, n, m - 1);
      GoodAt(states, steps, m - 1);
      assert StepAt(states, steps, m - 1);
      if StillWaiting(states(n), states(m - 1)) {
        NoStepUndoesProgress(states(m - 1), steps(m - 1));
        assert states(m).server == HandedOver(states(m - 1).server) ==> HandsOver(states, m - 1);
      }
    }
  }

  /** The hand-over has come, or come nearer. */
  ghost predicate Nearer(states: nat -> State, n: nat, m: nat)
  {
    || Handed(states, n, m)
    || (StillWaiting(states(n), states(m)) && Owed(states(m)) < Owed(states(n)))
  }

  ghost predicate DueAt(states: nat -> State, step: Step, n: nat)
  {
    Inv(states(n)) && Contended(states(n)) && Due(states(n), step)
  }

  /** Taking the owed step brings the hand-over nearer. */
  lemma {:induction false} TakenIsNearer(states: nat -> State, steps: nat -> Step, n: nat, k: nat)
    requires InfiniteRun(states, steps) && n <= k && StillWaiting(states(n), states(k)) && DueAt(states, steps(k), k)
    ensures Nearer(states, n, k + 1)
  {
    hide Inv, Due, Owed;
    GoodAt(states, steps, k);
    DueAdvances(states(k), steps(k));
    assert StepAt(states, steps, k);
    Walk(states, steps, n, k + 1);
    if HandsOver(states, k) { assert Handed(states, n, k + 1); }
  }

  /** As far from the hand-over as at n, with the same step owed. */
  ghost predicate Level(states: nat -> State, step: Step, n: nat, k: nat)
  {
    StillWaiting(states(n), states(k)) && DueAt(states, step, k) && Owed(states(k)) == Owed(states(n))
  }

  lemma {:induction false} OneMoreLevel(states: nat -> State, steps: nat -> Step, step: Step, n: nat, k: nat)
    requires InfiniteRun(states, steps) && n <= k && Level(states, step, n, k) && !Nearer(states, n, k + 1)
    ensures Level(states, step, n, k + 1) && steps(k) != step
  {
    hide Inv, Due, Owed;
    if steps(k) == step { TakenIsNearer(states, steps, n, k); }
    GoodAt(states, steps, k);
    assert StepAt(states, steps, k);
    Walk(states, steps, n, k + 1);
    NoStepUndoesProgress(states(k), steps(k));
    if HandsOver(states, k) { HandedNow(states, n, k); }
    DueStays(states(k), step, steps(k));
  }

  lemma {:induction false} HandedNow(states: nat -> State, n: nat, k: nat)
    requires n <= k && HandsOver(states, k)
    ensures Handed(states, n, k + 1) && Nearer(states, n, k + 1)
  {
  }

  /** As long as nothing gets better, the owed step stays owed. */
  lemma {:induction false} StaysLevel(states: nat -> State, steps: nat -> Step, step: Step, n: nat, k: nat)
    requires InfiniteRun(states, steps) && DueAt(states, step, n) && n <= k
    requires forall j: nat | n <= j <= k :: !Nearer(states, n, j)
    ensures Level(states, step, n, k)
    decreases k - n
  {
    hide Inv, Due, Owed, Nearer;
    if n < k {
      StaysLevel(states, steps, step, n, k - 1);
      OneMoreLevel(states, steps, step, n, k - 1);
    }
  }

  lemma {:induction false} ComesNearer(states: nat -> State, steps: nat -> Step, n: nat) returns (m: nat)
    requires InfiniteRun(states, steps) && Fair(states, steps) && Contended(states(n))
    ensures n <= m && Nearer(states, n, m)
  {
    GoodAt(states, steps, n);
    var step := SomeDue(states(n));
    if m0: nat :| n <= m0 && Nearer(states, n, m0) {
      m := m0;
    } else {
      forall k: nat | k >= n ensures Offered(states(k), step) && steps(k) != step {
        StaysLevel(states, steps, step, n, k);
        OneMoreLevel(states, steps, step, n, k);
        GoodAt(states, steps, k);
        DueAdvances(states(k), step);
      }
      assert OfferedFrom(states, step, n);
      assert false;
    }
  }

  /** Under fair scheduling every contention ends with a hand-over. */
  lemma {:induction false} HandOverInevitable(states: nat -> State, steps: nat -> Step, n: nat) returns (m: nat)
    requires InfiniteRun(states, steps) && Fair(states, steps) && Inv(states(n)) && Contended(states(n))
    ensures n <= m && HandsOver(states, m) && StillWaiting(states(n), states(m))
    decreases Owed(states(n))
  {
    var k := ComesNearer(states, steps, n);
    if Handed(states, n, k) {
      m := FirstHandOver(states, n, k);
      Walk(states, steps, n, m);
    } else {
      m := HandOverInevitable(states, steps, k);
    }
  }

  lemma {:induction false} FirstHandOver(states: nat -> State, n: nat, k: nat) returns (m: nat)
    requires Handed(states, n, k)
    ensures n <= m < k && HandsOver(states, m) && !Handed(states, n, m)
    decreases k
  {
    m :| n <= m < k && HandsOver(states, m);
    if Handed(states, n, m) {
      m := FirstHandOver(states, n, m);
    }
  }

  /** Where client c stands: position p in the queue, or next. */
  predicate InLine(s: State, c: ClientId, p: nat)
  {
    Contended(s) && if p == 0 then ExpectedFrom(s, c) else p <= |s.server.waiting| && s.server.waiting[p - 1] == c
  }

  /** No starvation: in every infinite run with fair scheduling, a client in the queue
      becomes the holder. */
  lemma {:induction false} EveryWaiterIsServed(states: nat -> State, steps: nat -> Step, n: nat, c: ClientId, p: nat)
    returns (m: nat)
    requires InfiniteRun(states, steps) && Fair(states, steps) && InLine(states(n), c, p)
    ensures n <= m && LockedBy(states(m), c)
    decreases p, states(n).server.status == Expecting
  {
    hide WaitsOk, Owed;
    GoodAt(states, steps, n);
    var k := HandOverInevitable(states, steps, n);
    var s, t := states(k), states(k + 1);
    GoodAt(states, steps, k);
    if LockedBy(t, c) {
      m := k + 1;
    } else if s.server.status == Expecting {
      assert InLine(t, c, p);
      m := EveryWaiterIsServed(states, steps, k + 1, c, p);
    } else {
      assert InLine(t, c, p - 1);
      m := EveryWaiterIsServed(states, steps, k + 1, c, p - 1);
    }
  }

  // ----- entering acquire -----

  /** Thread i has asked the server for its client, and the server has not heard it. */
  predicate Asking(s: State, i: nat, c: ClientId)
  {
    i in s.acts && s.acts[i] == Activity(c, FirstAcquire(Sent))
  }

  ghost predicate ServedBetween(steps: nat -> Step, i: nat, n: nat, m: nat)
  {
    exists k: nat :: n <= k < m && steps(k) == Serve(i)
  }

  /** A thread goes on asking until the server hears it. */
  lemma {:induction false} GoesOnAsking(states: nat -> State, steps: nat -> Step, n: nat, m: nat, i: nat, c: ClientId)
    requires InfiniteRun(states, steps) && Asking(states(n), i, c) && n <= m
    ensures ServedBetween(steps, i, n, m) || Asking(states(m), i, c)
    decreases m - n
  {
    hide Inv, WaitsOk;
    if n < m {
      GoesOnAsking(states, steps, n, m - 1, i, c);
      GoodAt(states, steps, m - 1);
      assert StepAt(states, steps, m - 1);
      if Asking(states(m - 1), i, c) && steps(m - 1) != Serve(i) {
        OnlyServed(states(m - 1), steps(m - 1), i, c);
      }
    }
  }

  lemma {:induction false} OnlyServed(s: State, step: Step, i: nat, c: ClientId)
    requires Inv(s) && Next(s, step).Go? && Asking(s, i, c) && step != Serve(i)
    ensures Asking(Next(s, step).state, i, c)
  {
    OthersStay(s, step, i);
  }

  /** A thread that is never heard could be heard at any time. */
  lemma {:induction false} CouldBeHeard(states: nat -> State, steps: nat -> Step, n: nat, i: nat, c: ClientId)
    requires InfiniteRun(states, steps) && Asking(states(n), i, c) && !TakenFrom(steps, Serve(i), n)
    ensures OfferedFrom(states, Serve(i), n)
  {
    hide Inv, WaitsOk;
    forall k: nat | k >= n ensures Offered(states(k), Serve(i)) {
      GoesOnAsking(states, steps, n, k, i, c);
      GoodAt(states, steps, k);
      StepKeeps(states(k), Serve(i));
    }
  }

  lemma {:induction false} FirstServed(states: nat -> State, steps: nat -> Step, n: nat, m: nat, i: nat, c: ClientId)
    returns (k: nat)
    requires InfiniteRun(states, steps) && Asking(states(n), i, c) && n <= m && steps(m) == Serve(i)
    ensures n <= k <= m && steps(k) == Serve(i) && Asking(states(k), i, c)
    decreases m
  {
    k := m;
    if !Asking(states(m), i, c) {
      GoesOnAsking(states, steps, n, m, i, c);
      k :| n <= k < m && steps(k) == Serve(i);
      k := FirstServed(states, steps, n, k, i, c);
    }
  }

  lemma {:induction false} HeardIsListed(s: State, i: nat, c: ClientId)
    requires Inv(s) && Asking(s, i, c) && Next(s, Serve(i)).Go?
    ensures var t := Next(s, Serve(i)).state; LockedBy(t, c) || c in t.server.waiting
  {
    assert ActOk(s, i);
  }

  /** The server hears every thread that asks, and then has its client as the holder or
      in the queue. */
  lemma {:induction false} AskingIsHeard(states: nat -> State, steps: nat -> Step, n: nat, i: nat, c: ClientId)
    returns (m: nat)
    requires InfiniteRun(states, steps) && Fair(states, steps) && Asking(states(n), i, c)
    ensures n < m && (LockedBy(states(m), c) || c in states(m).server.waiting)
  {
    hide WaitsOk;
    if !TakenFrom(steps, Serve(i), n) { CouldBeHeard(states, steps, n, i, c); }
    var k: nat :| k >= n && steps(k) == Serve(i);
    k := FirstServed(states, steps, n, k, i, c);
    m := k + 1;
    GoodAt(states, steps, k);
    assert StepAt(states, steps, k);
    HeardIsListed(states(k), i, c);
  }

  /** Client c has the lock, waits for it at the server, or is asking for it. */
  ghost predicate Wants(s: State, c: ClientId)
  {
    LockedBy(s, c) || ExpectedFrom(s, c) || c in s.server.waiting || exists i :: Asking(s, i, c)
  }

  /** A client wants the lock whatever its record says, but for the end of a release. */
  lemma {:induction false} BusyWants(s: State, c: ClientId)
    requires Inv(s) && LockAt(s, c).status != Unheld && LockAt(s, c).status != Releasing
    ensures Wants(s, c)
  {
    assert ClientOk(s, c);
    if LockAt(s, c).status == Acquiring {
      var i :| i in s.acts && s.acts[i].client == c && s.acts[i].pc.FirstAcquire?;
      assert ActOk(s, i);
      if s.acts[i].pc.rpc.Sent? { assert Asking(s, i, c); }
    } else if LockAt(s, c).status == Waiting && (HasSecond(s, c) || HasRetryAcquire(s, c)) {
      var i :| i in s.acts && s.acts[i].client == c && (s.acts[i].pc.SecondAcquire? || s.acts[i].pc.RetryAcquire?);
      assert ActOk(s, i);
    }
  }

  /** Under fair scheduling a client that wants the lock becomes the holder. */
  lemma {:induction false} WantingIsServed(states: nat -> State, steps: nat -> Step, n: nat, c: ClientId)
    returns (m: nat)
    requires InfiniteRun(states, steps) && Fair(states, steps) && Wants(states(n), c)
    ensures n <= m && LockedBy(states(m), c)
  {
    hide WaitsOk, Fair;
    m := n;
    if !LockedBy(states(m), c) && !ExpectedFrom(states(m), c) && c !in states(m).server.waiting {
      var i :| Asking(states(n), i, c);
      m := AskingIsHeard(states, steps, n, i, c);
    }
    GoodAt(states, steps, m);
    if !LockedBy(states(m), c) {
      var p := if ExpectedFrom(states(m), c) then 0 else PlaceOf(states(m).server.waiting, c) + 1;
      assert InLine(states(m), c, p);
      m := EveryWaiterIsServed(states, steps, m, c, p);
    }
  }

  function PlaceOf(waiting: seq<ClientId>, c: ClientId): (p: nat)
    requires c in waiting
    ensures p < |waiting| && waiting[p] == c
  {
    if waiting[0] == c then 0 else PlaceOf(waiting[1..], c) + 1
  }

  /** In every infinite run with fair scheduling, when a thread enters acquire at a client
      that is not just giving the lock back, the client becomes the holder. */
  lemma {:induction false} EnteringIsServed(states: nat -> State, steps: nat -> Step, n: nat, c: ClientId)
    returns (m: nat)
    requires InfiniteRun(states, steps) && Fair(states, steps)
    requires steps(n) == CallAcquire(c) && LockAt(states(n), c).status != Releasing
    ensures n < m && LockedBy(states(m), c)
  {
    hide Fair, WaitsOk;
    GoodAt(states, steps, n);
    GoodAt(states, steps, n + 1);
    assert StepAt(states, steps, n);
    BusyWants(states(n + 1), c);
    m := WantingIsServed(states, steps, n + 1, c);
  }
}

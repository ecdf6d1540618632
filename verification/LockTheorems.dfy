/** What the lock service guarantees in every run, from its invariant. */
module LockTheorems {
  import opened Common
  import opened LockServer
  import opened LockClient
  import opened LockProtocol
  import opened LockInvariant

  /** No run ever fails an assertion of the client or of the server. */
  lemma {:induction false} RunNeverCrashes(steps: seq<Step>)
    ensures !RunAll(Init, steps).Crash?
    ensures RunAll(Init, steps).Go? ==> Inv(RunAll(Init, steps).state)
    decreases |steps|
  {
    if steps == [] {
      InvInit();
    } else {
      var last := |steps| - 1;
      RunNeverCrashes(steps[..last]);
      var before := RunAll(Init, steps[..last]);
      if before.Go? { StepKeeps(before.state, steps[last]); }
    }
  }

  lemma {:induction false} ReachableInv(s: State)
    requires Reachable(s)
    ensures Inv(s)
  {
    var steps :| RunAll(Init, steps) == Go(s);
    RunNeverCrashes(steps);
  }

  /** Client c has the lock: cached, in use, or given back but not yet processed. */
  ghost predicate HasTenure(s: State, c: ClientId)
  {
    || LockAt(s, c).status == Owned
    || LockAt(s, c).status == InUse
    || exists i :: i in s.acts && s.acts[i].client == c && RevokeToken(s.acts[i].pc) && !s.acts[i].pc.RevokeSent?
  }

  /** Mutual exclusion: at most one client has the lock, the server knows it as
      the holder, and at most one thread of the whole system is between the return
      of acquire and the call of release. */
  lemma {:induction false} MutualExclusion(s: State)
    requires Reachable(s)
    ensures forall c | HasTenure(s, c) :: LockedBy(s, c)
    ensures forall c, d | HasTenure(s, c) && HasTenure(s, d) :: c == d
    ensures forall i, j | i in s.acts && j in s.acts && s.acts[i].pc.Holding? && s.acts[j].pc.Holding? :: i == j
  {
    ReachableInv(s);
    forall c | HasTenure(s, c) ensures LockedBy(s, c) {
      assert ClientOk(s, c);
    }
    forall i, j | i in s.acts && j in s.acts && s.acts[i].pc.Holding? && s.acts[j].pc.Holding?
      ensures i == j
    {
      assert ActOk(s, i) && ActOk(s, j);
      assert HasTenure(s, s.acts[i].client) && HasTenure(s, s.acts[j].client);
    }
  }

  /** Bookkeeping of the server: the queue has no duplicates and never holds the
      holder, and send_rpc means exactly that somebody waits. */
  lemma {:induction false} QueueIsClean(s: State)
    requires Reachable(s)
    ensures Distinct(s.server.waiting)
    ensures s.server.holder.Some? ==> s.server.holder.value !in s.server.waiting
    ensures s.server.sendRpc <==> s.server.waiting != []
    ensures s.server.status == Free <==> s.server.holder.None?
  {
    ReachableInv(s);
  }

  // ----- order of grants -----

  /** The client the server tells to wait in this step, if any. */
  function ToldToWait(s: State, step: Step): seq<ClientId>
  {
    var o := Next(s, step);
    if step.Serve? && o.Go? && step.act in s.acts && step.act in o.state.acts &&
       HasRpc(o.state.acts[step.act].pc) && o.state.acts[step.act].pc.rpc.Answered? &&
       o.state.acts[step.act].pc.rpc.reply == Retry
    then [s.acts[step.act].client] else []
  }

  /** The client that becomes the expected next holder in this step, if any. */
  function Granted(s: State, step: Step): seq<ClientId>
  {
    var o := Next(s, step);
    if o.Go? && o.state.server.status == Expecting && s.server.status != Expecting &&
       o.state.server.holder.Some?
    then [o.state.server.holder.value] else []
  }

  function AllToldToWait(steps: seq<Step>): seq<ClientId>
    decreases |steps|
  {
    if steps == [] || !RunAll(Init, steps[..|steps| - 1]).Go? then []
    else AllToldToWait(steps[..|steps| - 1]) +
         ToldToWait(RunAll(Init, steps[..|steps| - 1]).state, steps[|steps| - 1])
  }

  function AllGranted(steps: seq<Step>): seq<ClientId>
    decreases |steps|
  {
    if steps == [] || !RunAll(Init, steps[..|steps| - 1]).Go? then []
    else AllGranted(steps[..|steps| - 1]) +
         Granted(RunAll(Init, steps[..|steps| - 1]).state, steps[|steps| - 1])
  }

  /** First come, first served over every run: the clients that were told to wait
      are, in the same order, those granted the lock so far followed by the queue. */
  lemma {:induction false} GrantsInOrder(steps: seq<Step>)
    requires RunAll(Init, steps).Go?
    ensures AllToldToWait(steps) == AllGranted(steps) + RunAll(Init, steps).state.server.waiting
    decreases |steps|
  {
    if steps != [] {
      var last := |steps| - 1;
      var s := RunAll(Init, steps[..last]).state;
      RunNeverCrashes(steps[..last]);
      GrantsInOrder(steps[..last]);
      QueueStep(s, steps[last]);
      Shift(AllGranted(steps[..last]), s.server.waiting, ToldToWait(s, steps[last]),
            Granted(s, steps[last]), RunAll(Init, steps).state.server.waiting);
    }
  }

  lemma {:induction false} Shift(before: seq<ClientId>, queue: seq<ClientId>, told: seq<ClientId>,
              granted: seq<ClientId>, queue': seq<ClientId>)
    requires queue + told == granted + queue'
    ensures (before + queue) + told == (before + granted) + queue'
  {
    assert (before + queue) + told == before + (queue + told);
    assert (before + granted) + queue' == before + (granted + queue');
  }

  /** One step of the queue: it grows only at the back by a client told to wait,
      shrinks only at the front by the client granted the lock. */
  lemma {:induction false} QueueStep(s: State, step: Step)
    requires Inv(s) && Next(s, step).Go?
    ensures s.server.waiting + ToldToWait(s, step) == Granted(s, step) + Next(s, step).state.server.waiting
  {
    if step.Serve? {
      var i := step.act;
      assert ActOk(s, i) && ClientOk(s, s.acts[i].client);
    }
  }

  /** No newcomer overtakes: a client becomes holder only when nobody held or
      waited for the lock, or when it was at the head of the queue. */
  lemma {:induction false} NoOvertaking(s: State, step: Step, c: ClientId)
    requires Reachable(s) && Next(s, step).Go?
    requires Next(s, step).state.server.holder == Some(c) && s.server.holder != Some(c)
    ensures || (s.server.holder.None? && s.server.waiting == [])
            || (s.server.waiting != [] && s.server.waiting[0] == c &&
                Next(s, step).state.server.waiting == s.server.waiting[1..])
  {
    ReachableInv(s);
    if step.Serve? { assert ActOk(s, step.act); }
  }

  // ----- revokes -----

  function RevokesIssued(s: State, step: Step): nat
  {
    var o := Next(s, step);
    if o.Go? && s.next !in s.acts && s.next in o.state.acts && o.state.acts[s.next].pc.RevokeSent? then 1 else 0
  }

  /** Revokes sent since the present holder got the lock; 0 while nobody has it. */
  function TenureRevokes(steps: seq<Step>): nat
    decreases |steps|
  {
    if steps == [] || !RunAll(Init, steps).Go? then 0
    else
      var before := RunAll(Init, steps[..|steps| - 1]);
      if !before.Go? || !RunAll(Init, steps).state.server.status.Locked? then 0
      else RevokesIssued(before.state, steps[|steps| - 1]) +
           if before.state.server.status.Locked? then TenureRevokes(steps[..|steps| - 1]) else 0
  }

  /** Exactly one revoke is sent per contended tenure, none per uncontended one. */
  lemma {:induction false} OneRevokePerTenure(steps: seq<Step>)
    requires RunAll(Init, steps).Go?
    ensures var sv := RunAll(Init, steps).state.server;
            TenureRevokes(steps) == if sv.status == Locked && sv.waiting != [] then 1 else 0
    decreases |steps|
  {
    if steps != [] {
      var last := |steps| - 1;
      var s := RunAll(Init, steps[..last]).state;
      RunNeverCrashes(steps[..last]);
      OneRevokePerTenure(steps[..last]);
      RevokeStep(s, steps[last]);
      StepKeeps(s, steps[last]);
    }
  }

  lemma {:induction false} RevokeStep(s: State, step: Step)
    requires Inv(s) && Next(s, step).Go?
    ensures var t := Next(s, step).state;
            && (t.server.status == Locked && s.server.status == Locked ==>
                  RevokesIssued(s, step) == if t.server.sendRpc && !s.server.sendRpc then 1 else 0)
            && (s.server.sendRpc && t.server.status == Locked && s.server.status == Locked ==> t.server.sendRpc)
            && (t.server.status == Locked && s.server.status != Locked ==>
                  RevokesIssued(s, step) == if t.server.sendRpc then 1 else 0)
  {
    assert s.next !in s.acts;
    if step.Serve? {
      var i := step.act;
      assert ActOk(s, i) && ClientOk(s, s.acts[i].client);
    }
  }
}

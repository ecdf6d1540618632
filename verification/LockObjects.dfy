/**
  The protocol run by the objects: a server object, one client object per client, and
  the activities between their sections. Every step of the protocol is one method call
  on one of these objects, so what is proved of every run holds of them.
 */
module LockObjects {
  import opened Common
  import opened LockServer
  import opened LockClient
  import opened LockProtocol
  import opened LockInvariant
  import opened LockTheorems

  class LockService {
    const lid: nat
    const server: LockServerCache
    var clients: map<ClientId, LockClientCache>
    var acts: map<nat, Activity>
    var next: nat

    /** Every client has an object of its own. */
    ghost predicate Valid()
      reads this
    {
      forall c, d | c in clients && d in clients && c != d :: clients[c] != clients[d]
    }

    /** The state of the protocol that the objects are in. */
    ghost function View(): State
      reads this, server, clients.Values
    {
      State(server.LockOf(lid), map c | c in clients :: clients[c].LockOf(lid), acts, next)
    }

    constructor (lid: nat)
      ensures Valid() && fresh(server) && clients == map[] && View() == Init
    {
      this.lid := lid;
      server := new LockServerCache();
      clients, acts, next := map[], map[], 0;
    }

    /** The object of a client, made on first use. */
    method Client(c: ClientId) returns (o: LockClientCache)
      requires Valid()
      modifies this`clients
      ensures Valid() && c in clients && clients[c] == o && o.LockOf(lid) == LockAt(old(View()), c)
      ensures c in old(clients) ==> clients == old(clients)
      ensures c !in old(clients) ==> fresh(o) && clients == old(clients)[c := o]
    {
      if c !in clients {
        var made := new LockClientCache();
        clients := clients[c := made];
      }
      o := clients[c];
    }

    /** Client c runs the section that a thread at pc runs next. */
    method RunSection(c: ClientId, pc: Pc) returns (sec: Section)
      requires Valid() && Ready(pc)
      modifies this`clients, clients.Values
      ensures Valid() && sec == SectionOf(LockAt(old(View()), c), pc) && fresh(clients.Values - old(clients.Values))
      ensures !sec.Failed? ==> View() == old(View()).(clients := old(View()).clients[c := sec.lock])
    {
      hide SectionOf;
      var o := Client(c);
      sec := SectionOn(o, lid, pc);
      if !sec.Failed? {
        assert View().clients == old(View()).clients[c := sec.lock];
      }
    }

    /** One step of the protocol. */
    method Perform(step: Step) returns (ran: bool)
      requires Valid() && Reachable(View())
      modifies this, server, clients.Values
      ensures Valid() && Reachable(View()) && fresh(clients.Values - old(clients.Values))
      ensures ran <==> Next(old(View()), step).Go?
      ensures View() == if ran then Next(old(View()), step).state else old(View())
    {
      hide Reachable, SectionOf, EnterAcquire, AcquireSection, ReleaseSection, MoveThread, Broadcast;
      NeverCrashes(View(), step);
      ran := true;
      match step {
        case CallAcquire(c) =>
          Call(c);
        case Resume(i) =>
          if i !in acts || !Ready(acts[i].pc) || (HasRpc(acts[i].pc) && HeldBack(acts[i].pc.rpc)) {
            return false;
          }
          GoOn(i);
        case Serve(i) =>
          if i !in acts || Ready(acts[i].pc) {
            return false;
          }
          ServeRpc(i);
      }
    }

    /** A new thread enters acquire. */
    method Call(c: ClientId)
      requires Valid() && !Next(View(), CallAcquire(c)).Crash?
      modifies this`clients, this`acts, this`next, clients.Values
      ensures Valid() && Go(View()) == Next(old(View()), CallAcquire(c))
      ensures fresh(clients.Values - old(clients.Values))
    {
      hide SectionOf, EnterAcquire, MoveThread, Broadcast;
      var i := next;
      next := next + 1;
      assert View() == old(View()).(next := next);
      ghost var s := View();
      ThreadStarts(s, c);
      var sec := RunSection(c, Sleeping(false));
      Move(s, c, i, sec);
    }

    /** An activity runs its next client section. */
    method GoOn(i: nat)
      requires Valid() && i in acts && Ready(acts[i].pc) && Next(View(), Resume(i)).Go?
      modifies this`clients, this`acts, clients.Values
      ensures Valid() && Go(View()) == Next(old(View()), Resume(i))
      ensures fresh(clients.Values - old(clients.Values))
    {
      hide SectionOf, MoveThread, Broadcast;
      var c := acts[i].client;
      ghost var s := View();
      var sec := RunSection(c, acts[i].pc);
      Move(s, c, i, sec);
    }

    predicate HeldBack(rpc: Rpc)
      reads this
    {
      rpc.Answered? && rpc.after.Some? && rpc.after.value in acts
    }

    /** The thread goes on, and the sleepers of its client are woken. */
    method Move(ghost s: State, c: ClientId, i: nat, sec: Section)
      requires !sec.Failed? && View() == s.(clients := s.clients[c := sec.lock])
      modifies this`acts
      ensures Go(View()) == Run(s, c, i, sec)
    {
      var moved := MoveThread(acts, i, c, sec.pc);
      acts := if sec.broadcast then Broadcast(moved, c) else moved;
      assert View().clients == old(View()).clients;
    }

    /** The server object executes an RPC. */
    method ServeRpc(i: nat)
      requires Valid() && i in acts && !Ready(acts[i].pc) && Next(View(), Serve(i)).Go?
      modifies this`acts, this`next, server
      ensures Valid() && Go(View()) == Next(old(View()), Serve(i))
    {
      var a := acts[i];
      var out, callback;
      if AsksToAcquire(a.pc) {
        out := server.Acquire(lid, a.client);
        callback := RevokeSent;
      } else {
        out := server.Release(lid, a.client);
        callback := RetrySent;
      }
      if out.notify.None? {
        acts := acts[i := a.(pc := WithRpc(a.pc, Answered(out.reply, None)))];
      } else {
        acts := acts[i := a.(pc := WithRpc(a.pc, Answered(out.reply, Some(next))))]
                    [next := Activity(out.notify.value, callback)];
        next := next + 1;
      }
      assert View().clients == old(View()).clients;
    }
  }

  /** The method of a client object for a thread at pc. */
  method SectionOn(o: LockClientCache, lid: nat, pc: Pc) returns (sec: Section)
    requires Ready(pc)
    modifies o
    ensures sec == SectionOf(old(o.LockOf(lid)), pc)
    ensures !sec.Failed? ==> o.locks == old(o.locks)[lid := sec.lock]
  {
    match pc
    case Sleeping(_) => sec := o.Enter(lid);
    case Holding => sec := o.Release(lid);
    case RevokeSent => sec := o.Revoke(lid);
    case RetrySent => sec := o.RetryCall(lid);
    case FirstAcquire(rpc) => sec := o.AfterFirstAcquire(lid, rpc.reply);
    case SecondAcquire(rpc) => sec := o.AfterRpc(lid, pc, rpc.reply);
    case ReleaseCall(rpc) => sec := o.AfterRpc(lid, pc, rpc.reply);
    case RevokeRelease(rpc) => sec := o.AfterRpc(lid, pc, rpc.reply);
    case RetryAcquire(rpc) => sec := o.AfterRpc(lid, pc, rpc.reply);
  }

  lemma {:induction false} ThreadStarts(s: State, c: ClientId)
    ensures SectionOf(LockAt(s, c), Sleeping(false)) == EnterAcquire(LockAt(s, c))
    ensures !SectionOf(LockAt(s, c), Sleeping(false)).Failed?
  {
  }

  /** No step from a reachable state fails, and it leads to a reachable state. */
  lemma {:induction false} NeverCrashes(s: State, step: Step)
    requires Reachable(s)
    ensures !Next(s, step).Crash?
    ensures Next(s, step).Go? ==> Reachable(Next(s, step).state)
  {
    var steps :| RunAll(Init, steps) == Go(s);
    var more := steps + [step];
    assert more[..|more| - 1] == steps;
    RunNeverCrashes(more);
    assert RunAll(Init, more) == Next(s, step);
  }
}

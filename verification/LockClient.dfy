/**
  The caching lock client. Each function is one mutex-held section of
  `acquire`, `release`, `revoke_handler` or `retry_handler`: it runs from
  taking the client mutex to dropping it (for an RPC, for a condition wait, or
  to return).
 */
module LockClient {
  import opened Common
  import opened LockServer

  /** NONE, OWNED, LOCKED, ACQUIRING, WAITING and RELEASING of the source. */
  datatype ClientStatus = Unheld | Owned | InUse | Acquiring | Waiting | Releasing

  /** The `pending` mark: 0, revoke or retry. */
  datatype Pending = NoMark | RevokeMark | RetryMark

  datatype ClientLock = ClientLock(status: ClientStatus, pending: Pending)

  const FreshClientLock := ClientLock(Unheld, NoMark)

  /** An RPC from a client to the lock server. `after` is the callback RPC the
      server makes before it sends the answer. */
  datatype Rpc = Sent | Answered(reply: Reply, after: Option<nat>)

  /** Where an application thread or an RPC handler stands while it does not
      hold the client mutex. */
  datatype Pc =
    | Sleeping(notified: bool)     // in pthread_cond_wait inside acquire
    | FirstAcquire(rpc: Rpc)       // acquire, first RPC
    | SecondAcquire(rpc: Rpc)      // acquire, RPC repeated after a retry mark
    | Holding                      // returned from acquire, release not called
    | ReleaseCall(rpc: Rpc)        // release, RPC
    | RevokeSent                   // revoke on its way from the server
    | RevokeRelease(rpc: Rpc)      // revoke_handler, release RPC
    | RetrySent                    // retry on its way from the server
    | RetryAcquire(rpc: Rpc)       // retry_handler, acquire RPC

  /** Result of a section: the new lock record, where the thread goes on (`None`
      when it is finished) and whether it broadcasts on the condition variable. */
  datatype Section =
    | Failed
    | Section(lock: ClientLock, pc: Option<Pc>, broadcast: bool)

  /** Entering `acquire`, and also each return from the condition wait. */
  function EnterAcquire(l: ClientLock): Section
  {
    match l.status
    case Owned => Section(l.(status := InUse), Some(Holding), false)
    case Unheld => Section(l.(status := Acquiring), Some(FirstAcquire(Sent)), false)
    case _ => Section(l, Some(Sleeping(false)), false)
  }

  function FinishFirstAcquire(l: ClientLock, r: Reply): Section
  {
    if l.status != Acquiring then Failed
    else if r == Ok then Section(l.(status := InUse), Some(Holding), false)
    else if l.pending == RevokeMark then Failed
    else if l.pending == RetryMark then
      Section(ClientLock(Waiting, NoMark), Some(SecondAcquire(Sent)), false)
    else Section(l.(status := Waiting), Some(Sleeping(false)), false)
  }

  function FinishSecondAcquire(l: ClientLock, r: Reply): Section
  {
    if r != Ok then Failed
    else Section(l.(status := InUse), Some(Holding), false)
  }

  function BeginRelease(l: ClientLock): Section
  {
    if l.status != InUse || l.pending == RetryMark then Failed
    else if l.pending == NoMark then Section(l.(status := Owned), None, true)
    else Section(ClientLock(Releasing, NoMark), Some(ReleaseCall(Sent)), false)
  }

  function FinishRelease(l: ClientLock, r: Reply): Section
  {
    if r != Ok || l.status != Releasing then Failed
    else Section(l.(status := Unheld), None, false)
  }

  function BeginRevoke(l: ClientLock): Section
  {
    if l.status == Unheld || l.pending != NoMark then Failed
    else if l.status == Owned then
      Section(l.(status := Releasing), Some(RevokeRelease(Sent)), false)
    else Section(l.(pending := RevokeMark), None, false)
  }

  function FinishRevoke(l: ClientLock, r: Reply): Section
  {
    if r != Ok then Failed
    else Section(l.(status := Unheld), None, true)
  }

  function BeginRetry(l: ClientLock): Section
  {
    if l.pending != NoMark || !(l.status == Acquiring || l.status == Waiting) then Failed
    else if l.status == Acquiring then Section(l.(pending := RetryMark), None, false)
    else Section(l, Some(RetryAcquire(Sent)), false)
  }

  function FinishRetry(l: ClientLock, r: Reply): Section
  {
    if r != Ok then Failed
    else Section(l.(status := Owned), None, true)
  }

  /** The client object: one lock record per lock id, changed in place. */
  class LockClientCache {
    var locks: map<nat, ClientLock>

    constructor ()
      ensures locks == map[]
    {
      locks := map[];
    }

    function LockOf(lid: nat): ClientLock
      reads this
    {
      if lid in locks then locks[lid] else FreshClientLock
    }

    /** Sections of `acquire` up to the first RPC, sleep or return, and after a wait. */
    method Enter(lid: nat) returns (out: Section)
      modifies this
      ensures out == EnterAcquire(old(LockOf(lid))) && !out.Failed?
      ensures locks == old(locks)[lid := out.lock]
    {
      var l := LockOf(lid);
      var pc := Sleeping(false);
      if l.status == Owned {
        l := l.(status := InUse);
        pc := Holding;
      } else if l.status == Unheld {
        l := l.(status := Acquiring);
        pc := FirstAcquire(Sent);
      }
      locks := locks[lid := l];
      out := Section(l, Some(pc), false);
    }

    /** The section of `acquire` that follows its first RPC. */
    method AfterFirstAcquire(lid: nat, r: Reply) returns (out: Section)
      modifies this
      ensures out == FinishFirstAcquire(old(LockOf(lid)), r)
      ensures !out.Failed? ==> locks == old(locks)[lid := out.lock]
    {
      var l := LockOf(lid);
      if l.status != Acquiring { return Failed; }
      var pc := Holding;
      if r == Ok {
        l := l.(status := InUse);
      } else {
        l := l.(status := Waiting);
        if l.pending == RevokeMark { return Failed; }
        if l.pending == RetryMark {
          l := l.(pending := NoMark);
          pc := SecondAcquire(Sent);
        } else {
          pc := Sleeping(false);
        }
      }
      locks := locks[lid := l];
      out := Section(l, Some(pc), false);
    }

    /** `release` up to its RPC or its return. */
    method Release(lid: nat) returns (out: Section)
      modifies this
      ensures out == BeginRelease(old(LockOf(lid)))
      ensures !out.Failed? ==> locks == old(locks)[lid := out.lock]
    {
      var l := LockOf(lid);
      if l.status != InUse || l.pending == RetryMark { return Failed; }
      var pc: Option<Pc> := None;
      var needToWakeup := false;
      if l.pending == NoMark {
        l := l.(status := Owned);
        needToWakeup := true;
      } else {
        l := l.(status := Releasing);
        l := l.(pending := NoMark);
        pc := Some(ReleaseCall(Sent));
      }
      locks := locks[lid := l];
      out := Section(l, pc, needToWakeup);
    }

    /** `revoke_handler` up to its RPC or its return. */
    method Revoke(lid: nat) returns (out: Section)
      modifies this
      ensures out == BeginRevoke(old(LockOf(lid)))
      ensures !out.Failed? ==> locks == old(locks)[lid := out.lock]
    {
      var l := LockOf(lid);
      if l.status == Unheld || l.pending != NoMark { return Failed; }
      var pc: Option<Pc> := None;
      if l.status == Owned {
        l := l.(status := Releasing);
        pc := Some(RevokeRelease(Sent));
      } else {
        l := l.(pending := RevokeMark);
      }
      locks := locks[lid := l];
      out := Section(l, pc, false);
    }

    /** `retry_handler` up to its RPC or its return. */
    method RetryCall(lid: nat) returns (out: Section)
      modifies this
      ensures out == BeginRetry(old(LockOf(lid)))
      ensures !out.Failed? ==> locks == old(locks)[lid := out.lock]
    {
      var l := LockOf(lid);
      if l.pending != NoMark { return Failed; }
      if l.status != Acquiring && l.status != Waiting { return Failed; }
      var pc: Option<Pc> := None;
      if l.status == Acquiring {
        l := l.(pending := RetryMark);
      } else {
        pc := Some(RetryAcquire(Sent));
      }
      locks := locks[lid := l];
      out := Section(l, pc, false);
    }

    /** The last section of `acquire` (repeated RPC), `release`, `revoke_handler`
        and `retry_handler`: what the reply to its RPC does to the record. */
    method AfterRpc(lid: nat, pc: Pc, r: Reply) returns (out: Section)
      requires pc.SecondAcquire? || pc.ReleaseCall? || pc.RevokeRelease? || pc.RetryAcquire?
      modifies this
      ensures out == match pc
                     case SecondAcquire(_) => FinishSecondAcquire(old(LockOf(lid)), r)
                     case ReleaseCall(_) => FinishRelease(old(LockOf(lid)), r)
                     case RevokeRelease(_) => FinishRevoke(old(LockOf(lid)), r)
                     case _ => FinishRetry(old(LockOf(lid)), r)
      ensures !out.Failed? ==> locks == old(locks)[lid := out.lock]
    {
      var l := LockOf(lid);
      if r != Ok { return Failed; }
      var next: Option<Pc> := None;
      var needToWakeup := false;
      if pc.SecondAcquire? {
        l := l.(status := InUse);
        next := Some(Holding);
      } else if pc.ReleaseCall? {
        if l.status != Releasing { return Failed; }
        l := l.(status := Unheld);
      } else if pc.RevokeRelease? {
        l := l.(status := Unheld);
        needToWakeup := true;
      } else {
        l := l.(status := Owned);
        needToWakeup := true;
      }
      locks := locks[lid := l];
      out := Section(l, next, needToWakeup);
    }
  }
}

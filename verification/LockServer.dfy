/**
  The caching lock server: one mutex-held section of `acquire` and one of
  `release`. The callback RPC (revoke or retry) is made after the mutex is
  dropped, so a section returns the client to call instead of calling it.
 */
module LockServer {
  import opened Common

  /** Client ids are unique and non-empty; the empty holder id is `None`. */
  type ClientId = nat

  datatype ServerStatus = Free | Locked | Expecting

  datatype Reply = Ok | Retry

  datatype ServerLock = ServerLock(
    status: ServerStatus,
    holder: Option<ClientId>,
    sendRpc: bool,
    waiting: seq<ClientId>)

  const FreshServerLock := ServerLock(Free, None, false, [])

  /** `Abort` is a failed assertion of the source. `notify` is the client that
      must be sent a revoke (acquire) or a retry (release). */
  datatype Served =
    | Abort
    | Served(lock: ServerLock, reply: Reply, notify: Option<ClientId>)

  function AcquireSection(l: ServerLock, id: ClientId): Served
  {
    if l.status.Free? then
      if l.waiting != [] then Abort
      else Served(ServerLock(Locked, Some(id), false, []), Ok, None)
    else if l.holder.None? then Abort
    else if l.status.Expecting? then
      if l.holder == Some(id) then
        Served(l.(status := Locked), Ok, if l.sendRpc then l.holder else None)
      else
        Served(l.(waiting := l.waiting + [id], sendRpc := true), Retry, None)
    else if l.holder == Some(id) then Abort
    else
      Served(l.(waiting := l.waiting + [id], sendRpc := true), Retry,
             if l.sendRpc then None else l.holder)
  }

  function ReleaseSection(l: ServerLock, id: ClientId): Served
  {
    if !l.status.Locked? || l.holder != Some(id) then Abort
    else if l.waiting == [] then Served(FreshServerLock, Ok, None)
    else
      var rest := l.waiting[1..];
      Served(ServerLock(Expecting, Some(l.waiting[0]), rest != [], rest), Ok, Some(l.waiting[0]))
  }

  class LockServerCache {
    var locks: map<nat, ServerLock>

    constructor ()
      ensures locks == map[]
    {
      locks := map[];
    }

    /** `lock_states_server[lid]`, default-constructed when absent. */
    function LockOf(lid: nat): ServerLock
      reads this
    {
      if lid in locks then locks[lid] else FreshServerLock
    }

    method Acquire(lid: nat, id: ClientId) returns (out: Served)
      modifies this
      ensures out == AcquireSection(old(LockOf(lid)), id)
      ensures locks == if out.Abort? then old(locks) else old(locks)[lid := out.lock]
    {
      var l := LockOf(lid);
      var reply := Ok;
      var revoke: Option<ClientId> := None;
      if l.status.Free? {
        if l.waiting != [] { return Abort; }
        l := l.(status := Locked, holder := Some(id), sendRpc := false);
      } else {
        if l.holder.None? { return Abort; }
        if l.status.Expecting? {
          if l.holder == Some(id) {
            l := l.(status := Locked);
            if l.sendRpc { revoke := l.holder; }
          } else {
            l := l.(waiting := l.waiting + [id]);
            l := l.(sendRpc := true);
            reply := Retry;
          }
        } else {
          if l.holder == Some(id) { return Abort; }
          l := l.(waiting := l.waiting + [id]);
          reply := Retry;
          if !l.sendRpc {
            revoke := l.holder;
            l := l.(sendRpc := true);
          }
        }
      }
      locks := locks[lid := l];
      out := Served(l, reply, revoke);
    }

    method Release(lid: nat, id: ClientId) returns (out: Served)
      modifies this
      ensures out == ReleaseSection(old(LockOf(lid)), id)
      ensures locks == if out.Abort? then old(locks) else old(locks)[lid := out.lock]
    {
      var l := LockOf(lid);
      if !l.status.Locked? || l.holder != Some(id) { return Abort; }
      var retry: Option<ClientId> := None;
      if l.waiting == [] {
        l := ServerLock(Free, None, false, l.waiting);
      } else {
        var dest := l.waiting[0];
        l := l.(waiting := l.waiting[1..]);
        l := ServerLock(Expecting, Some(dest), l.waiting != [], l.waiting);
        retry := Some(dest);
      }
      locks := locks[lid := l];
      out := Served(l, Ok, retry);
    }
  }
}

/**
  The extent caches of all clients and the extent server, run together with the
  lock service, for one extent that the server may hold or lack. Threads read, write
  and remove the extent only while they hold its lock; a lock is flushed before its
  release RPC is sent. Many caches and one server then behave like a single variable
  until the extent is removed, and the removal reaches the server before the lock
  leaves the client that asked for it.
 */
module Coherence {
  import opened Common
  import opened LockServer
  import opened LockClient
  import opened LockProtocol
  import opened LockInvariant
  import opened ExtentClient

  /** The RPC of a flush that the server has not executed, then nothing more to do. A
      release RPC that still has to flush has no entry in `flushing`. */
  datatype Flushing = Sending(buf: Data) | Removing | Flushed

  /** A get that missed: waiting for the server, then holding its answer. */
  datatype Reading = Asked | Fetched(buf: Data)

  datatype System = System(
    lock: State,
    eid: nat,
    caches: map<ClientId, Cache>,
    store: Option<Data>,            // the server's copy of the extent, if it has the extent
    flushing: map<nat, Flushing>,   // by activity
    reading: map<nat, Reading>)     // by activity

  function Start(eid: nat, store: Option<Data>): System
  {
    System(Init, eid, map[], store, map[], map[])
  }

  datatype Action =
    | LockStep(step: Step)
    | FlushEntry(act: nat)          // flush drops the cache entry
    | FlushPut(act: nat)            // the server executes the put of a flush
    | FlushRemove(act: nat)         // the server executes the remove of a flush
    | Put(act: nat, buf: Data)      // put by a thread that holds the lock
    | Remove(act: nat)              // remove by a thread that holds the lock
    | GetHit(act: nat)              // get answered by the cache
    | GetMiss(act: nat)             // get finds no entry and asks the server
    | ServeGet(act: nat)            // the server executes the get
    | GetFill(act: nat)             // get stores and returns the answer

  function CacheAt(s: System, c: ClientId): Cache
  {
    if c in s.caches then s.caches[c] else map[]
  }

  /** A release RPC that the server has not executed. */
  predicate ReleaseSent(pc: Pc)
  {
    (pc.ReleaseCall? || pc.RevokeRelease?) && pc.rpc.Sent?
  }

  predicate MayAccess(s: System, i: nat)
  {
    i in s.lock.acts && s.lock.acts[i].pc.Holding? && i !in s.reading
  }

  /** The release RPC is sent only after the flush, and a thread in the middle of
      a get does not release. */
  predicate LockStepAllowed(s: System, step: Step)
  {
    && (step.Serve? && step.act in s.lock.acts && ReleaseSent(s.lock.acts[step.act].pc) ==>
          step.act in s.flushing && s.flushing[step.act] == Flushed)
    && (step.Resume? ==> step.act !in s.reading)
  }

  function FlushStart(rpc: FlushRpc): Flushing
  {
    match rpc
    case NoRpc => Flushed
    case RemoveRpc => Removing
    case PutRpc(buf) => Sending(buf)
  }

  /** A server that lacks the extent ignores a put and answers a get with no data. */
  function Act(s: System, a: Action): Option<System>
  {
    match a
    case LockStep(step) =>
      if LockStepAllowed(s, step) && Next(s.lock, step).Go? then Some(s.(lock := Next(s.lock, step).state)) else None
    case FlushEntry(i) =>
      if i !in s.lock.acts || !ReleaseSent(s.lock.acts[i].pc) || i in s.flushing then None
      else
        var c := s.lock.acts[i].client;
        Some(s.(caches := s.caches[c := CacheAt(s, c) - {s.eid}],
                flushing := s.flushing[i := FlushStart(FlushOf(CacheAt(s, c), s.eid))]))
    case FlushPut(i) =>
      if i !in s.flushing || !s.flushing[i].Sending? then None
      else Some(s.(store := if s.store.Some? then Some(s.flushing[i].buf) else None,
                   flushing := s.flushing[i := Flushed]))
    case FlushRemove(i) =>
      if i !in s.flushing || !s.flushing[i].Removing? then None
      else Some(s.(store := None, flushing := s.flushing[i := Flushed]))
    case Put(i, buf) =>
      if !MayAccess(s, i) then None
      else
        var c := s.lock.acts[i].client;
        Some(s.(caches := s.caches[c := Written(CacheAt(s, c), s.eid, buf)]))
    case Remove(i) =>
      if !MayAccess(s, i) then None
      else
        var c := s.lock.acts[i].client;
        Some(s.(caches := s.caches[c := Removed(CacheAt(s, c), s.eid)]))
    case GetHit(i) =>
      if !MayAccess(s, i) || s.eid !in CacheAt(s, s.lock.acts[i].client) then None else Some(s)
    case GetMiss(i) =>
      if !MayAccess(s, i) || s.eid in CacheAt(s, s.lock.acts[i].client) then None
      else Some(s.(reading := s.reading[i := Asked]))
    case ServeGet(i) =>
      if i !in s.reading || !s.reading[i].Asked? then None
      else Some(s.(reading := s.reading[i := Fetched(if s.store.Some? then s.store.value else "")]))
    case GetFill(i) =>
      if i !in s.reading || !s.reading[i].Fetched? || i !in s.lock.acts then None
      else
        var c := s.lock.acts[i].client;
        Some(s.(caches := s.caches[c := Filled(CacheAt(s, c), s.eid, s.reading[i].buf)],
                reading := s.reading - {i}))
  }

  /** The value a get returns in this action, if one returns. */
  function Got(s: System, a: Action): Option<Data>
  {
    if a.GetHit? && Act(s, a).Some? then Some(CacheAt(s, s.lock.acts[a.act].client)[s.eid].buf)
    else if a.GetFill? && Act(s, a).Some? then Some(s.reading[a.act].buf)
    else None
  }

  /** The state after a list of actions, None if one of them is not possible. */
  function ActAll(s: System, actions: seq<Action>): Option<System>
    decreases |actions|
  {
    if actions == [] then Some(s)
    else
      var before := ActAll(s, actions[..|actions| - 1]);
      if before.Some? then Act(before.value, actions[|actions| - 1]) else None
  }

  // ----- what a run means -----

  /** The data of the last put, or, once the extent is removed, every data put since. */
  datatype Life = Live(data: Data) | Gone(since: set<Data>)

  function Begun(store: Option<Data>): Life
  {
    if store.Some? then Live(store.value) else Gone({})
  }

  function Moved(life: Life, a: Action): Life
  {
    if a.Put? then (if life.Live? then Live(a.buf) else Gone(life.since + {a.buf}))
    else if a.Remove? then (if life.Live? then Gone({}) else life)
    else life
  }

  function LifeAfter(store: Option<Data>, actions: seq<Action>): Life
    decreases |actions|
  {
    if actions == [] then Begun(store)
    else Moved(LifeAfter(store, actions[..|actions| - 1]), actions[|actions| - 1])
  }

  /** The data of the last put in a run, by whatever client. */
  function LastPut(initial: Data, actions: seq<Action>): Data
    decreases |actions|
  {
    if actions == [] then initial
    else if actions[|actions| - 1].Put? then actions[|actions| - 1].buf
    else LastPut(initial, actions[..|actions| - 1])
  }

  predicate NoRemove(actions: seq<Action>)
  {
    forall k | 0 <= k < |actions| :: !actions[k].Remove?
  }

  lemma {:induction false} LifeIs(store: Option<Data>, actions: seq<Action>)
    ensures LifeAfter(store, actions).Live? <==> store.Some? && NoRemove(actions)
    ensures LifeAfter(store, actions).Live? ==> LifeAfter(store, actions).data == LastPut(store.value, actions)
    decreases |actions|
  {
    if actions != [] {
      var last := |actions| - 1;
      LifeIs(store, actions[..last]);
      assert actions == actions[..last] + [actions[last]];
    }
  }

  // ----- invariant -----

  predicate Keeping(status: ClientStatus)
  {
    status == Owned || status == InUse || status == Releasing
  }

  /** A cached entry of a live extent is current, and a clean one agrees with the
      server. An entry of a removed one is marked, unless the server has already
      dropped the extent; then it holds nothing or data put since. */
  predicate EntryFits(store: Option<Data>, life: Life, e: Entry)
  {
    match life
    case Live(data) => e.buf == data && !e.deleted && (!e.dirty ==> store == Some(data))
    case Gone(since) =>
      && (!e.deleted ==> store.None?)
      && (store.None? ==> if e.dirty then e.buf in since else e.buf == "")
  }

  /** A live extent is never removed; a removed one is put only after the server has
      dropped it, with data put since. */
  predicate FlushFits(store: Option<Data>, life: Life, f: Flushing)
  {
    match life
    case Live(data) => !f.Removing? && (f.Sending? ==> f.buf == data)
    case Gone(since) => f.Sending? ==> store.None? && f.buf in since
  }

  predicate ReadFits(store: Option<Data>, life: Life, r: Reading)
  {
    r.Fetched? ==>
      match life
      case Live(data) => r.buf == data
      case Gone(since) => store.None? && r.buf == ""
  }

  /** A cached entry fits, its client holds the lock at the server and has not begun
      to flush. */
  ghost predicate EntryOk(s: System, life: Life, c: ClientId)
  {
    s.eid in CacheAt(s, c) ==>
      && EntryFits(s.store, life, CacheAt(s, c)[s.eid])
      && LockedBy(s.lock, c) && Keeping(LockAt(s.lock, c).status)
      && NotFlushing(s, c)
  }

  ghost predicate NotFlushing(s: System, c: ClientId)
  {
    forall i | i in s.flushing && i in s.lock.acts :: s.lock.acts[i].client == c ==> !ReleaseSent(s.lock.acts[i].pc)
  }

  predicate FlushOk(s: System, life: Life, i: nat)
    requires i in s.flushing
  {
    && i < s.lock.next
    && (i in s.lock.acts ==> s.lock.acts[i].pc.ReleaseCall? || s.lock.acts[i].pc.RevokeRelease?)
    && (s.flushing[i] != Flushed ==> i in s.lock.acts && ReleaseSent(s.lock.acts[i].pc))
    && FlushFits(s.store, life, s.flushing[i])
  }

  predicate ReadOk(s: System, life: Life, i: nat)
    requires i in s.reading
  {
    && i in s.lock.acts && s.lock.acts[i].pc.Holding?
    && s.eid !in CacheAt(s, s.lock.acts[i].client)
    && ReadFits(s.store, life, s.reading[i])
  }

  /** Client c has the extent marked as removed, or is asking the server to remove it. */
  ghost predicate RemovalPending(s: System, c: ClientId)
  {
    || (s.eid in CacheAt(s, c) && CacheAt(s, c)[s.eid].deleted)
    || (exists j :: j in s.flushing && s.flushing[j].Removing? && j in s.lock.acts && s.lock.acts[j].client == c)
  }

  /** A server copy that is out of date is about to be overwritten or removed. */
  ghost predicate StoreOk(s: System, life: Life)
  {
    match life
    case Live(data) =>
      && s.store.Some?
      && (|| s.store.value == data
          || (exists c :: s.eid in CacheAt(s, c))
          || (exists i :: i in s.flushing && s.flushing[i].Sending?))
    case Gone(since) => s.store.None? || exists c :: RemovalPending(s, c)
  }

  ghost predicate Coherent(s: System, life: Life)
  {
    && Inv(s.lock)
    && (forall c :: EntryOk(s, life, c))
    && (forall i | i in s.flushing :: FlushOk(s, life, i))
    && (forall i | i in s.reading :: ReadOk(s, life, i))
    && StoreOk(s, life)
  }

  lemma {:induction false} StartCoherent(eid: nat, store: Option<Data>)
    ensures Coherent(Start(eid, store), Begun(store))
  {
    InvInit();
  }

  /** While thread i holds the lock, nobody else caches, reads or flushes. */
  lemma {:induction false} HolderAlone(s: System, life: Life, i: nat)
    requires Coherent(s, life) && i in s.lock.acts && s.lock.acts[i].pc.Holding?
    ensures var c := s.lock.acts[i].client;
            && LockedBy(s.lock, c) && LockAt(s.lock, c).status == InUse && NotFlushing(s, c)
            && (forall d | d != c :: s.eid !in CacheAt(s, d))
            && (forall j | j in s.reading :: j == i)
            && (forall j | j in s.flushing :: s.flushing[j] == Flushed)
  {
    var c := s.lock.acts[i].client;
    assert ActOk(s.lock, i) && ClientOk(s.lock, c);
    forall d | d != c ensures s.eid !in CacheAt(s, d) {
      assert EntryOk(s, life, d);
    }
    forall j | j in s.reading ensures j == i {
      assert ReadOk(s, life, j) && ActOk(s.lock, j) && ClientOk(s.lock, s.lock.acts[j].client);
      assert Busy(s.lock.acts[i].pc) && Busy(s.lock.acts[j].pc);
    }
    forall j | j in s.flushing ensures s.flushing[j] == Flushed {
      assert FlushOk(s, life, j);
    }
  }

  /** What the server holds when nothing is on its way to it. */
  predicate UpToDate(store: Option<Data>, life: Life)
  {
    match life
    case Live(data) => store == Some(data)
    case Gone(_) => store.None?
  }

  /** The holding thread of a client without an entry finds the server up to date. */
  lemma {:induction false} StoreIsCurrent(s: System, life: Life, i: nat)
    requires Coherent(s, life) && i in s.lock.acts && s.lock.acts[i].pc.Holding?
    requires s.eid !in CacheAt(s, s.lock.acts[i].client)
    ensures UpToDate(s.store, life)
  {
    HolderAlone(s, life, i);
    forall d ensures s.eid !in CacheAt(s, d) {}
  }

  lemma {:induction false} PutKeeps(s: System, life: Life, i: nat, buf: Data)
    requires Coherent(s, life) && Act(s, Put(i, buf)).Some?
    ensures Coherent(Act(s, Put(i, buf)).value, Moved(life, Put(i, buf)))
  {
    HolderAlone(s, life, i);
    var c := s.lock.acts[i].client;
    assert EntryOk(s, life, c);
    if s.eid !in CacheAt(s, c) { StoreIsCurrent(s, life, i); }
    var t, now := Act(s, Put(i, buf)).value, Moved(life, Put(i, buf));
    assert s.eid in CacheAt(t, c);
    forall d ensures EntryOk(t, now, d) {
      if d != c { assert CacheAt(t, d) == CacheAt(s, d); }
    }
    forall j | j in t.flushing ensures FlushOk(t, now, j) {
      assert FlushOk(s, life, j);
    }
    if life.Gone? && s.store.Some? { assert RemovalPending(t, c); }
  }

  lemma {:induction false} RemoveKeeps(s: System, life: Life, i: nat)
    requires Coherent(s, life) && Act(s, Remove(i)).Some?
    ensures Coherent(Act(s, Remove(i)).value, Moved(life, Remove(i)))
    ensures RemovalPending(Act(s, Remove(i)).value, s.lock.acts[i].client)
  {
    HolderAlone(s, life, i);
    var c := s.lock.acts[i].client;
    assert EntryOk(s, life, c);
    var t, now := Act(s, Remove(i)).value, Moved(life, Remove(i));
    assert RemovalPending(t, c);
    forall d ensures EntryOk(t, now, d) {
      if d != c { assert CacheAt(t, d) == CacheAt(s, d); }
    }
    forall j | j in t.flushing ensures FlushOk(t, now, j) {
      assert FlushOk(s, life, j);
    }
  }

  lemma {:induction false} GetFillKeeps(s: System, life: Life, i: nat)
    requires Coherent(s, life) && Act(s, GetFill(i)).Some?
    ensures Coherent(Act(s, GetFill(i)).value, life)
  {
    assert ReadOk(s, life, i);
    HolderAlone(s, life, i);
    StoreIsCurrent(s, life, i);
    var c := s.lock.acts[i].client;
    var t := Act(s, GetFill(i)).value;
    forall d ensures EntryOk(t, life, d) {
      if d != c { assert CacheAt(t, d) == CacheAt(s, d); }
    }
    forall j | j in t.flushing ensures FlushOk(t, life, j) {
      assert FlushOk(s, life, j);
    }
  }

  /** Nothing that StoreOk looks at changes. */
  lemma {:induction false} StoreStaysOk(s: System, t: System, life: Life)
    requires StoreOk(s, life) && t == s.(lock := t.lock, reading := t.reading)
    requires forall j | j in s.flushing && s.flushing[j].Removing? && j in s.lock.acts ::
               j in t.lock.acts && t.lock.acts[j].client == s.lock.acts[j].client
    ensures StoreOk(t, life)
  {
    assert forall c :: CacheAt(t, c) == CacheAt(s, c);
    match life
    case Live(_) =>
      if c :| s.eid in CacheAt(s, c) { assert t.eid in CacheAt(t, c); }
    case Gone(_) =>
      if c :| RemovalPending(s, c) { assert RemovalPending(t, c); }
  }

  lemma {:induction false} ReadingKeeps(s: System, life: Life, a: Action)
    requires Coherent(s, life) && Act(s, a).Some? && (a.GetMiss? || a.ServeGet?)
    ensures Coherent(Act(s, a).value, life)
  {
    hide Next, Inv, StoreOk;
    var t := Act(s, a).value;
    if a.ServeGet? {
      assert ReadOk(s, life, a.act);
      StoreIsCurrent(s, life, a.act);
    }
    forall d ensures EntryOk(t, life, d) {
      assert EntryOk(s, life, d) && CacheAt(t, d) == CacheAt(s, d);
    }
    forall j | j in t.flushing ensures FlushOk(t, life, j) {
      assert FlushOk(s, life, j);
    }
    forall j | j in t.reading ensures ReadOk(t, life, j) {
      if j in s.reading { assert ReadOk(s, life, j); }
    }
    StoreStaysOk(s, t, life);
  }

  /** A client that is releasing is the only one with an entry or an unfinished flush. */
  lemma {:induction false} ReleaserAlone(s: System, life: Life, i: nat)
    requires Coherent(s, life) && i in s.lock.acts && ReleaseSent(s.lock.acts[i].pc)
    ensures forall d | d != s.lock.acts[i].client :: s.eid !in CacheAt(s, d)
    ensures forall j | j in s.flushing && s.flushing[j] != Flushed :: j == i
  {
    var c := s.lock.acts[i].client;
    assert ActOk(s.lock, i) && ClientOk(s.lock, c);
    forall d | d != c ensures s.eid !in CacheAt(s, d) {
      assert EntryOk(s, life, d);
    }
    forall j | j in s.flushing && s.flushing[j] != Flushed ensures j == i {
      assert FlushOk(s, life, j) && ActOk(s.lock, j) && ClientOk(s.lock, s.lock.acts[j].client);
    }
  }

  lemma {:induction false} FlushEntryKeeps(s: System, life: Life, i: nat)
    requires Coherent(s, life) && Act(s, FlushEntry(i)).Some?
    ensures Coherent(Act(s, FlushEntry(i)).value, life)
  {
    var c := s.lock.acts[i].client;
    var t := Act(s, FlushEntry(i)).value;
    ReleaserAlone(s, life, i);
    assert ActOk(s.lock, i) && EntryOk(s, life, c);
    forall d ensures s.eid !in CacheAt(t, d) {
      if d != c { assert CacheAt(t, d) == CacheAt(s, d); }
    }
    forall j | j in t.flushing ensures FlushOk(t, life, j) {
      if j != i { assert FlushOk(s, life, j); }
    }
    forall j | j in t.reading ensures ReadOk(t, life, j) {
      assert ReadOk(s, life, j);
    }
    FlushEntryStore(s, life, i);
  }

  lemma {:induction false} FlushEntryStore(s: System, life: Life, i: nat)
    requires Coherent(s, life) && Act(s, FlushEntry(i)).Some?
    ensures StoreOk(Act(s, FlushEntry(i)).value, life)
  {
    var c := s.lock.acts[i].client;
    var t := Act(s, FlushEntry(i)).value;
    ReleaserAlone(s, life, i);
    assert EntryOk(s, life, c);
    if t.flushing[i].Removing? { assert RemovalPending(t, c); }
  }

  /** Only the flush of thread i is unfinished, and nobody has an entry any more. */
  lemma {:induction false} FlusherAlone(s: System, life: Life, i: nat)
    requires Coherent(s, life) && i in s.flushing && s.flushing[i] != Flushed
    ensures i in s.lock.acts && forall d :: s.eid !in CacheAt(s, d)
    ensures forall j | j in s.flushing && s.flushing[j] != Flushed :: j == i
    ensures forall j :: j !in s.reading
  {
    assert FlushOk(s, life, i);
    ReleaserAlone(s, life, i);
    assert EntryOk(s, life, s.lock.acts[i].client);
    forall j ensures j !in s.reading {
      if j in s.reading {
        assert ReadOk(s, life, j);
        HolderAlone(s, life, j);
      }
    }
  }

  lemma {:induction false} FlushedKeeps(s: System, life: Life, a: Action)
    requires Coherent(s, life) && Act(s, a).Some? && (a.FlushPut? || a.FlushRemove?)
    ensures Coherent(Act(s, a).value, life) && UpToDate(Act(s, a).value.store, life)
  {
    var t := Act(s, a).value;
    assert FlushOk(s, life, a.act);
    FlusherAlone(s, life, a.act);
    forall d ensures EntryOk(t, life, d) {
      assert CacheAt(t, d) == CacheAt(s, d);
    }
    forall j | j in t.flushing ensures FlushOk(t, life, j) {
      assert FlushOk(s, life, j);
    }
  }

  // ----- lock steps -----

  /** What a lock step does to the activities it is not about. */
  ghost predicate ActsFrame(s: State, t: State, i: nat)
  {
    && (forall j | j in s.acts && j != i :: j in t.acts && (t.acts[j] == s.acts[j] || s.acts[j].pc.Sleeping?))
    && (forall j | j in t.acts && j != i :: j in s.acts || !ReleaseSent(t.acts[j].pc))
    && s.next <= t.next
    && s.next !in s.acts
    && (forall j | j in t.acts && j != i && j in s.acts && s.acts[j].pc.Sleeping? :: t.acts[j].pc.Sleeping?)
  }

  function ActOf(s: State, step: Step): nat
  {
    if step.CallAcquire? then s.next else step.act
  }

  lemma {:induction false} LockStepFrame(s: State, step: Step)
    requires Inv(s) && Next(s, step).Go?
    ensures ActsFrame(s, Next(s, step).state, ActOf(s, step))
  {
    var t := Next(s, step).state;
    assert s.next !in s.acts;
    match step
    case CallAcquire(c) => RunFrame(s, t, c, s.next, EnterAcquire(LockAt(s, c)));
    case Resume(i) =>
      var c := s.acts[i].client;
      RunFrame(s, t, c, i, SectionOf(LockAt(s, c), s.acts[i].pc));
    case Serve(i) =>
      var c := s.acts[i].client;
      if AsksToAcquire(s.acts[i].pc) {
        AnswerFrame(s, t, c, i, AcquireSection(s.server, c), RevokeSent);
      } else {
        AnswerFrame(s, t, c, i, ReleaseSection(s.server, c), RetrySent);
      }
  }

  /** A client that keeps the lock goes on keeping it, until the server executes
      its release. */
  lemma {:induction false} KeepsKeeping(s: State, step: Step, c: ClientId)
    requires Inv(s) && Next(s, step).Go? && LockedBy(s, c) && Keeping(LockAt(s, c).status)
    requires step.Serve? && step.act in s.acts && ReleaseSent(s.acts[step.act].pc) ==> s.acts[step.act].client != c
    ensures var t := Next(s, step).state; LockedBy(t, c) && Keeping(LockAt(t, c).status)
  {
    assert ClientOk(s, c);
    if !step.CallAcquire? { assert ActOk(s, step.act); }
  }
  /** A release RPC stays one until its activity is finished. */
  lemma {:induction false} StillReleasing(s: State, step: Step)
    requires Inv(s) && Next(s, step).Go? && !step.CallAcquire? && step.act in s.acts
    requires s.acts[step.act].pc.ReleaseCall? || s.acts[step.act].pc.RevokeRelease?
    ensures var t := Next(s, step).state;
            step.act in t.acts ==>
              && (t.acts[step.act].pc.ReleaseCall? || t.acts[step.act].pc.RevokeRelease?)
              && !ReleaseSent(t.acts[step.act].pc)
  {
    assert ActOk(s, step.act);
  }

  lemma {:induction false} LockStepEntries(s: System, life: Life, step: Step, c: ClientId)
    requires Coherent(s, life) && Act(s, LockStep(step)).Some?
    ensures EntryOk(Act(s, LockStep(step)).value, life, c)
  {
    var t := Act(s, LockStep(step)).value;
    assert EntryOk(s, life, c) && CacheAt(t, c) == CacheAt(s, c);
    if s.eid in CacheAt(s, c) {
      KeepsKeeping(s.lock, step, c);
      LockStepFrame(s.lock, step);
      var i := ActOf(s.lock, step);
      forall j | j in t.flushing && j in t.lock.acts && t.lock.acts[j].client == c
        ensures !ReleaseSent(t.lock.acts[j].pc)
      {
        assert FlushOk(s, life, j);
        if j == i { StillReleasing(s.lock, step); }
      }
    }
  }

  lemma {:induction false} LockStepFlush(s: System, life: Life, step: Step, j: nat)
    requires Coherent(s, life) && Act(s, LockStep(step)).Some? && j in s.flushing
    ensures FlushOk(Act(s, LockStep(step)).value, life, j)
    ensures s.flushing[j] != Flushed ==> Act(s, LockStep(step)).value.lock.acts[j] == s.lock.acts[j]
  {
    LockStepFrame(s.lock, step);
    assert FlushOk(s, life, j);
    if j in s.lock.acts && j == ActOf(s.lock, step) { StillReleasing(s.lock, step); }
  }

  lemma {:induction false} LockStepRead(s: System, life: Life, step: Step, j: nat)
    requires Coherent(s, life) && Act(s, LockStep(step)).Some? && j in s.reading
    ensures ReadOk(Act(s, LockStep(step)).value, life, j)
  {
    LockStepFrame(s.lock, step);
    assert ReadOk(s, life, j);
  }

  lemma {:induction false} LockStepKeeps(s: System, life: Life, step: Step)
    requires Coherent(s, life) && Act(s, LockStep(step)).Some?
    ensures Coherent(Act(s, LockStep(step)).value, life)
  {
    var t := Act(s, LockStep(step)).value;
    StepKeeps(s.lock, step);
    forall c ensures EntryOk(t, life, c) { LockStepEntries(s, life, step, c); }
    forall j | j in t.flushing
      ensures FlushOk(t, life, j) && (s.flushing[j] != Flushed ==> t.lock.acts[j] == s.lock.acts[j])
    {
      LockStepFlush(s, life, step, j);
    }
    forall j | j in t.reading ensures ReadOk(t, life, j) { LockStepRead(s, life, step, j); }
    StoreStaysOk(s, t, life);
  }

  /** What a get may return: the last put, or, once the server has dropped the extent,
      nothing or data put since its removal. */
  predicate GetFits(store: Option<Data>, life: Life, got: Data)
  {
    match life
    case Live(data) => got == data
    case Gone(since) => store.None? ==> got == "" || got in since
  }

  lemma {:induction false} GetFitting(s: System, life: Life, a: Action)
    requires Coherent(s, life) && Got(s, a).Some?
    ensures GetFits(s.store, life, Got(s, a).value)
  {
    hide Next, Inv;
    if a.GetHit? {
      assert EntryOk(s, life, s.lock.acts[a.act].client);
    } else {
      assert ReadOk(s, life, a.act);
    }
  }

  lemma {:induction false} ActionKeeps(s: System, life: Life, a: Action)
    requires Coherent(s, life) && Act(s, a).Some?
    ensures Coherent(Act(s, a).value, Moved(life, a))
    ensures Got(s, a).Some? ==> GetFits(s.store, life, Got(s, a).value)
  {
    hide Coherent, Got, GetFits, Next;
    if Got(s, a).Some? { GetFitting(s, life, a); }
    match a
    case LockStep(step) => LockStepKeeps(s, life, step);
    case FlushEntry(i) => FlushEntryKeeps(s, life, i);
    case FlushPut(i) => FlushedKeeps(s, life, a);
    case FlushRemove(i) => FlushedKeeps(s, life, a);
    case Put(i, buf) => PutKeeps(s, life, i, buf);
    case Remove(i) => RemoveKeeps(s, life, i);
    case GetHit(i) =>
    case GetMiss(i) => ReadingKeeps(s, life, a);
    case ServeGet(i) => ReadingKeeps(s, life, a);
    case GetFill(i) => GetFillKeeps(s, life, i);
  }

  lemma {:induction false} RunsStayCoherent(eid: nat, store: Option<Data>, actions: seq<Action>)
    requires ActAll(Start(eid, store), actions).Some?
    ensures Coherent(ActAll(Start(eid, store), actions).value, LifeAfter(store, actions))
    decreases |actions|
  {
    if actions == [] {
      StartCoherent(eid, store);
    } else {
      var last := |actions| - 1;
      RunsStayCoherent(eid, store, actions[..last]);
      ActionKeeps(ActAll(Start(eid, store), actions[..last]).value, LifeAfter(store, actions[..last]), actions[last]);
    }
  }

  // ----- an extent that is not removed -----

  /** In every run without a remove, every get at any client returns the data of the
      last put by any client, or the initial data when there was none. */
  lemma {:induction false} EveryGetReturnsTheLastPut(eid: nat, data: Data, actions: seq<Action>, a: Action)
    requires NoRemove(actions) && ActAll(Start(eid, Some(data)), actions).Some?
    requires Got(ActAll(Start(eid, Some(data)), actions).value, a).Some?
    ensures Got(ActAll(Start(eid, Some(data)), actions).value, a).value == LastPut(data, actions)
  {
    RunsStayCoherent(eid, Some(data), actions);
    LifeIs(Some(data), actions);
    ActionKeeps(ActAll(Start(eid, Some(data)), actions).value, LifeAfter(Some(data), actions), a);
  }

  /** An extent that no thread removed stays at the server, and no flush asks for its
      removal. */
  lemma {:induction false} NotRemovedUnasked(eid: nat, data: Data, actions: seq<Action>)
    requires NoRemove(actions) && ActAll(Start(eid, Some(data)), actions).Some?
    ensures var s := ActAll(Start(eid, Some(data)), actions).value;
            s.store.Some? && forall i :: Act(s, FlushRemove(i)).None?
  {
    RunsStayCoherent(eid, Some(data), actions);
    LifeIs(Some(data), actions);
    var s := ActAll(Start(eid, Some(data)), actions).value;
    forall i ensures Act(s, FlushRemove(i)).None? {
      if i in s.flushing { assert FlushOk(s, LifeAfter(Some(data), actions), i); }
    }
  }

  /** In every run only the holder of the lock caches the extent. Without a remove its
      entry is the last put, and a clean one agrees with the server. */
  lemma {:induction false} OnlyTheHolderCaches(eid: nat, store: Option<Data>, actions: seq<Action>, c: ClientId)
    requires ActAll(Start(eid, store), actions).Some?
    requires eid in CacheAt(ActAll(Start(eid, store), actions).value, c)
    ensures var s := ActAll(Start(eid, store), actions).value;
            && LockedBy(s.lock, c)
            && (store.Some? && NoRemove(actions) ==>
                  && CacheAt(s, c)[eid].buf == LastPut(store.value, actions)
                  && (!CacheAt(s, c)[eid].dirty ==> s.store == Some(CacheAt(s, c)[eid].buf)))
  {
    RunsStayCoherent(eid, store, actions);
    LifeIs(store, actions);
    SameExtent(eid, store, actions);
    assert EntryOk(ActAll(Start(eid, store), actions).value, LifeAfter(store, actions), c);
  }

  lemma {:induction false} SameExtent(eid: nat, store: Option<Data>, actions: seq<Action>)
    requires ActAll(Start(eid, store), actions).Some?
    ensures ActAll(Start(eid, store), actions).value.eid == eid
    decreases |actions|
  {
    if actions != [] { SameExtent(eid, store, actions[..|actions| - 1]); }
  }

  // ----- what is written back -----

  /** There was a put since the last flush. */
  predicate Unsaved(actions: seq<Action>)
    decreases |actions|
  {
    && actions != []
    && var last := |actions| - 1;
       actions[last].Put? || (!actions[last].FlushEntry? && Unsaved(actions[..last]))
  }

  /** Entries are dirty exactly when something is unsaved, and then there is one. */
  ghost predicate DirtOk(s: System, unsaved: bool)
  {
    && (forall c | s.eid in CacheAt(s, c) :: CacheAt(s, c)[s.eid].dirty <==> unsaved)
    && (unsaved ==> exists c :: s.eid in CacheAt(s, c))
  }

  /** The only entry is that of client c. */
  lemma {:induction false} DirtAlone(s: System, unsaved: bool, c: ClientId)
    requires forall d | d != c :: s.eid !in CacheAt(s, d)
    requires if s.eid in CacheAt(s, c) then CacheAt(s, c)[s.eid].dirty == unsaved else !unsaved
    ensures DirtOk(s, unsaved)
  {
  }

  /** Client c changes or drops its entry, while nobody else has one. */
  lemma {:induction false} DirtChange(s: System, t: System, c: ClientId, unsaved: bool, now: bool)
    requires DirtOk(s, unsaved) && t.eid == s.eid && t.caches == s.caches[c := CacheAt(t, c)]
    requires forall d | d != c :: s.eid !in CacheAt(s, d)
    requires s.eid in CacheAt(s, c) || !unsaved ==>
               if s.eid in CacheAt(t, c) then CacheAt(t, c)[s.eid].dirty == now else !now
    ensures DirtOk(t, now)
  {
    forall d | d != c ensures s.eid !in CacheAt(t, d) {
      assert CacheAt(t, d) == CacheAt(s, d);
    }
    DirtAlone(t, now, c);
  }

  lemma {:induction false} DirtStep(s: System, life: Life, unsaved: bool, a: Action)
    requires Coherent(s, life) && DirtOk(s, unsaved) && Act(s, a).Some?
    ensures DirtOk(Act(s, a).value, a.Put? || (!a.FlushEntry? && unsaved))
  {
    hide Next, Inv, EntryOk, FlushOk, StoreOk, DirtOk;
    var t := Act(s, a).value;
    if a.Put? || a.Remove? || a.GetFill? {
      if a.GetFill? { assert ReadOk(s, life, a.act); }
      HolderAlone(s, life, a.act);
      DirtMove(s, unsaved, a);
    } else if a.FlushEntry? {
      ReleaserAlone(s, life, a.act);
      DirtMove(s, unsaved, a);
    } else {
      DirtSame(s, t, unsaved);
    }
  }

  lemma {:induction false} DirtSame(s: System, t: System, unsaved: bool)
    requires DirtOk(s, unsaved) && t.eid == s.eid && t.caches == s.caches
    ensures DirtOk(t, unsaved)
  {
    assert forall c :: CacheAt(t, c) == CacheAt(s, c);
    if c :| s.eid in CacheAt(s, c) { assert t.eid in CacheAt(t, c); }
  }

  lemma {:induction false} DirtMove(s: System, unsaved: bool, a: Action)
    requires DirtOk(s, unsaved) && Act(s, a).Some? && (a.Put? || a.Remove? || a.GetFill? || a.FlushEntry?)
    requires forall d | d != s.lock.acts[a.act].client :: s.eid !in CacheAt(s, d)
    requires a.GetFill? ==> s.eid !in CacheAt(s, s.lock.acts[a.act].client)
    ensures DirtOk(Act(s, a).value, a.Put? || (!a.FlushEntry? && unsaved))
  {
    DirtChange(s, Act(s, a).value, s.lock.acts[a.act].client, unsaved, a.Put? || (!a.FlushEntry? && unsaved));
  }

  lemma {:induction false} DirtRun(eid: nat, store: Option<Data>, actions: seq<Action>)
    requires ActAll(Start(eid, store), actions).Some?
    ensures DirtOk(ActAll(Start(eid, store), actions).value, Unsaved(actions))
    decreases |actions|
  {
    hide Act, Coherent, DirtOk;
    if actions == [] {
      assert DirtOk(Start(eid, store), false) by { DirtAlone(Start(eid, store), false, 0); }
    } else {
      var before := actions[..|actions| - 1];
      RunsStayCoherent(eid, store, before);
      DirtRun(eid, store, before);
      DirtStep(ActAll(Start(eid, store), before).value, LifeAfter(store, before), Unsaved(before),
               actions[|actions| - 1]);
    }
  }

  /** A flush writes back only after a put since the last flush, and always then, unless
      the extent is removed. */
  lemma {:induction false} WritesBackIffPut(eid: nat, store: Option<Data>, actions: seq<Action>, i: nat)
    requires ActAll(Start(eid, store), actions).Some?
    requires Act(ActAll(Start(eid, store), actions).value, FlushEntry(i)).Some?
    ensures var t := Act(ActAll(Start(eid, store), actions).value, FlushEntry(i)).value;
            && i in t.flushing && (t.flushing[i].Sending? ==> Unsaved(actions))
            && (store.Some? && NoRemove(actions) ==>
                  t.flushing[i] == if Unsaved(actions) then Sending(LastPut(store.value, actions)) else Flushed)
  {
    hide Next;
    var s, life := ActAll(Start(eid, store), actions).value, LifeAfter(store, actions);
    RunsStayCoherent(eid, store, actions);
    DirtRun(eid, store, actions);
    LifeIs(store, actions);
    ReleaserAlone(s, life, i);
    assert EntryOk(s, life, s.lock.acts[i].client);
  }

  // ----- a removed extent -----

  /** Whoever has a removal pending holds the lock at the server. */
  lemma {:induction false} PendingAtHolder(s: System, life: Life, c: ClientId)
    requires Coherent(s, life) && RemovalPending(s, c)
    ensures LockedBy(s.lock, c)
  {
    assert EntryOk(s, life, c);
    if s.eid !in CacheAt(s, c) {
      var j :| j in s.flushing && s.flushing[j].Removing? && j in s.lock.acts && s.lock.acts[j].client == c;
      assert FlushOk(s, life, j) && ActOk(s.lock, j) && ClientOk(s.lock, c);
    }
  }

  /** Once removed, the extent is gone from the server, or on its way out at the client
      that holds the lock; and the server is sent no put of data from before the removal:
      it ignores every put that is still to come, and each carries data put since. */
  lemma {:induction false} RemovedIsGoneOrPending(eid: nat, store: Option<Data>, actions: seq<Action>)
    requires ActAll(Start(eid, store), actions).Some? && !NoRemove(actions)
    ensures LifeAfter(store, actions).Gone?
    ensures var s := ActAll(Start(eid, store), actions).value;
            && (s.store.None? || exists c :: LockedBy(s.lock, c) && RemovalPending(s, c))
            && (forall i | i in s.flushing && s.flushing[i].Sending? ::
                  s.store.None? && s.flushing[i].buf in LifeAfter(store, actions).since)
  {
    RunsStayCoherent(eid, store, actions);
    LifeIs(store, actions);
    var s, life := ActAll(Start(eid, store), actions).value, LifeAfter(store, actions);
    if s.store.Some? {
      var c :| RemovalPending(s, c);
      PendingAtHolder(s, life, c);
    }
    forall i | i in s.flushing && s.flushing[i].Sending? ensures s.store.None? && s.flushing[i].buf in life.since {
      assert FlushOk(s, life, i);
    }
  }

  /** After a removal, at the server or on its way there from client c. */
  ghost predicate LeavingBy(s: System, life: Life, c: ClientId)
  {
    Coherent(s, life) && life.Gone? && (s.store.None? || RemovalPending(s, c))
  }

  /** No action calls a removal off, and none brings the extent back. */
  lemma {:induction false} LeavingStep(s: System, life: Life, a: Action, c: ClientId)
    requires LeavingBy(s, life, c) && Act(s, a).Some?
    ensures LeavingBy(Act(s, a).value, Moved(life, a), c)
    ensures s.store.None? ==> Act(s, a).value.store.None?
  {
    var t := Act(s, a).value;
    ActionKeeps(s, life, a);
    if s.store.Some? && t.store.Some? {
      PendingAtHolder(s, life, c);
      var d :| RemovalPending(t, d);
      PendingStays(s, life, a, d);
    }
  }

  /** A removal that is pending after an action is pending at the client that held the
      lock before it. */
  lemma {:induction false} PendingStays(s: System, life: Life, a: Action, d: ClientId)
    requires Coherent(s, life) && Act(s, a).Some? && RemovalPending(Act(s, a).value, d)
    ensures LockedBy(s.lock, d)
  {
    var t := Act(s, a).value;
    if s.eid in CacheAt(t, d) && CacheAt(t, d)[s.eid].deleted {
      EntryWas(s, life, a, d);
    } else {
      var j :| j in t.flushing && t.flushing[j].Removing? && j in t.lock.acts && t.lock.acts[j].client == d;
      RemovingWas(s, life, a, j);
    }
  }

  lemma {:induction false} EntryWas(s: System, life: Life, a: Action, d: ClientId)
    requires Coherent(s, life) && Act(s, a).Some? && s.eid in CacheAt(Act(s, a).value, d)
    ensures LockedBy(s.lock, d)
  {
    hide Next, Inv;
    assert EntryOk(s, life, d);
    if s.eid !in CacheAt(s, d) {
      if a.GetFill? { assert ReadOk(s, life, a.act); }
      assert a.Put? || a.Remove? || a.GetFill?;
      HolderAlone(s, life, a.act);
    }
  }

  lemma {:induction false} RemovingWas(s: System, life: Life, a: Action, j: nat)
    requires Coherent(s, life) && Act(s, a).Some?
    requires var t := Act(s, a).value; j in t.flushing && t.flushing[j].Removing? && j in t.lock.acts
    ensures LockedBy(s.lock, Act(s, a).value.lock.acts[j].client)
  {
    hide Next;
    if j in s.flushing {
      assert FlushOk(s, life, j);
      if a.LockStep? { LockStepFlush(s, life, a.step, j); }
    }
    ReleaserHolds(s.lock, j);
  }

  lemma {:induction false} ReleaserHolds(s: State, j: nat)
    requires Inv(s) && j in s.acts && ReleaseSent(s.acts[j].pc)
    ensures LockedBy(s, s.acts[j].client)
  {
    assert ActOk(s, j) && ClientOk(s, s.acts[j].client);
  }

  lemma {:induction false} LeavingRun(eid: nat, store: Option<Data>, before: seq<Action>, i: nat, mid: seq<Action>)
    requires ActAll(Start(eid, store), before + [Remove(i)] + mid).Some?
    ensures ActAll(Start(eid, store), before).Some? && i in ActAll(Start(eid, store), before).value.lock.acts
    ensures LeavingBy(ActAll(Start(eid, store), before + [Remove(i)] + mid).value,
                      LifeAfter(store, before + [Remove(i)] + mid),
                      ActAll(Start(eid, store), before).value.lock.acts[i].client)
    decreases |mid|
  {
    var all := before + [Remove(i)] + mid;
    var last := |all| - 1;
    if mid == [] {
      assert all[..last] == before;
      RunsStayCoherent(eid, store, before);
      RunsStayCoherent(eid, store, all);
      RemoveKeeps(ActAll(Start(eid, store), before).value, LifeAfter(store, before), i);
    } else {
      assert all[..last] == before + [Remove(i)] + mid[..|mid| - 1];
      LeavingRun(eid, store, before, i, mid[..|mid| - 1]);
      LeavingStep(ActAll(Start(eid, store), all[..last]).value, LifeAfter(store, all[..last]), all[last],
                  ActAll(Start(eid, store), before).value.lock.acts[i].client);
    }
  }

  lemma {:induction false} GoneForGood(eid: nat, store: Option<Data>, actions: seq<Action>, after: seq<Action>)
    requires ActAll(Start(eid, store), actions + after).Some?
    ensures ActAll(Start(eid, store), actions).Some?
    ensures LifeAfter(store, actions).Gone? && ActAll(Start(eid, store), actions).value.store.None? ==>
              ActAll(Start(eid, store), actions + after).value.store.None?
    decreases |after|
  {
    hide Next;
    var all := actions + after;
    if after == [] {
      assert all == actions;
    } else {
      var last := |all| - 1;
      assert all[..last] == actions + after[..|after| - 1];
      GoneForGood(eid, store, actions, after[..|after| - 1]);
    }
  }

  /** A removal by a thread of client c has reached the server by the time the server
      no longer has c as the holder, and the extent never comes back. */
  lemma {:induction false} RemovedBeforeReleased(eid: nat, store: Option<Data>, before: seq<Action>, i: nat,
                                                 mid: seq<Action>, after: seq<Action>)
    requires ActAll(Start(eid, store), before + [Remove(i)] + mid + after).Some?
    ensures ActAll(Start(eid, store), before).Some? && i in ActAll(Start(eid, store), before).value.lock.acts
    ensures ActAll(Start(eid, store), before + [Remove(i)] + mid).Some?
    ensures var c := ActAll(Start(eid, store), before).value.lock.acts[i].client;
            !LockedBy(ActAll(Start(eid, store), before + [Remove(i)] + mid).value.lock, c) ==>
              ActAll(Start(eid, store), before + [Remove(i)] + mid + after).value.store.None?
  {
    var upto := before + [Remove(i)] + mid;
    GoneForGood(eid, store, upto, after);
    LeavingRun(eid, store, before, i, mid);
    var s, life := ActAll(Start(eid, store), upto).value, LifeAfter(store, upto);
    var c := ActAll(Start(eid, store), before).value.lock.acts[i].client;
    if s.store.Some? { PendingAtHolder(s, life, c); }
  }

  // ----- gets and releases can always be completed -----

  lemma {:induction false} OneMore(eid: nat, store: Option<Data>, actions: seq<Action>, a: Action)
    requires ActAll(Start(eid, store), actions).Some?
    ensures ActAll(Start(eid, store), actions + [a]) == Act(ActAll(Start(eid, store), actions).value, a)
    ensures LifeAfter(store, actions + [a]) == Moved(LifeAfter(store, actions), a)
  {
    assert (actions + [a])[..|actions + [a]| - 1] == actions;
  }

  /** A get that misses can be completed through the server. */
  lemma {:induction false} MissCanFill(eid: nat, store: Option<Data>, actions: seq<Action>, i: nat)
    requires ActAll(Start(eid, store), actions).Some? && Act(ActAll(Start(eid, store), actions).value, GetMiss(i)).Some?
    ensures var all := actions + [GetMiss(i), ServeGet(i)];
            && ActAll(Start(eid, store), all).Some? && LifeAfter(store, all) == LifeAfter(store, actions)
            && Act(ActAll(Start(eid, store), all).value, GetFill(i)).Some?
  {
    OneMore(eid, store, actions, GetMiss(i));
    OneMore(eid, store, actions + [GetMiss(i)], ServeGet(i));
    assert actions + [GetMiss(i)] + [ServeGet(i)] == actions + [GetMiss(i), ServeGet(i)];
  }

  /** A thread that holds the lock can read, from its cache or through the server, and
      then gets the last put of an extent that was not removed. */
  lemma {:induction false} HolderCanGet(eid: nat, store: Option<Data>, actions: seq<Action>, i: nat)
    returns (more: seq<Action>, a: Action)
    requires ActAll(Start(eid, store), actions).Some? && MayAccess(ActAll(Start(eid, store), actions).value, i)
    ensures ActAll(Start(eid, store), actions + more).Some?
    ensures more == [] || more == [GetMiss(i), ServeGet(i)]
    ensures a == GetHit(i) || a == GetFill(i)
    ensures var got := Got(ActAll(Start(eid, store), actions + more).value, a);
            got.Some? && (store.Some? && NoRemove(actions) ==> got.value == LastPut(store.value, actions))
  {
    hide LifeAfter, ActAll, LastPut, Coherent, Next;
    var s := ActAll(Start(eid, store), actions).value;
    if s.eid in CacheAt(s, s.lock.acts[i].client) {
      more, a := [], GetHit(i);
      assert actions + more == actions;
    } else {
      more, a := [GetMiss(i), ServeGet(i)], GetFill(i);
      MissCanFill(eid, store, actions, i);
    }
    LifeIs(store, actions);
    RunsStayCoherent(eid, store, actions + more);
    ActionKeeps(ActAll(Start(eid, store), actions + more).value, LifeAfter(store, actions), a);
  }

  /** A release whose flush is over finds the server up to date and no entry left. */
  lemma {:induction false} FlushedIsCurrent(s: System, life: Life, i: nat)
    requires Coherent(s, life) && i in s.lock.acts && ReleaseSent(s.lock.acts[i].pc)
    requires i in s.flushing && s.flushing[i] == Flushed
    ensures UpToDate(s.store, life) && forall d :: s.eid !in CacheAt(s, d)
    ensures Act(s, LockStep(Serve(i))).Some?
  {
    ReleaserAlone(s, life, i);
    assert EntryOk(s, life, s.lock.acts[i].client);
    forall d ensures s.eid !in CacheAt(s, d) {}
    StepKeeps(s.lock, Serve(i));
  }

  /** The next thing a flush has to do. */
  function FlushAction(s: System, i: nat): Action
  {
    if i !in s.flushing then FlushEntry(i) else if s.flushing[i].Removing? then FlushRemove(i) else FlushPut(i)
  }

  function FlushLeft(s: System, i: nat): nat
  {
    if i !in s.flushing then 2 else if s.flushing[i] == Flushed then 0 else 1
  }

  /** A release RPC can always be sent and executed: its flush ends, and leaves the server
      up to date and no client with an entry. */
  lemma {:induction false} ReleaseCanFlush(eid: nat, store: Option<Data>, actions: seq<Action>, i: nat)
    returns (more: seq<Action>)
    requires ActAll(Start(eid, store), actions).Some?
    requires var s := ActAll(Start(eid, store), actions).value; i in s.lock.acts && ReleaseSent(s.lock.acts[i].pc)
    ensures ActAll(Start(eid, store), actions + more).Some?
    ensures forall k | 0 <= k < |more| :: more[k] in {FlushEntry(i), FlushPut(i), FlushRemove(i)}
    ensures var s, t := ActAll(Start(eid, store), actions).value, ActAll(Start(eid, store), actions + more).value;
            && t.lock == s.lock && Act(t, LockStep(Serve(i))).Some?
            && UpToDate(t.store, LifeAfter(store, actions)) && forall d :: eid !in CacheAt(t, d)
    decreases FlushLeft(ActAll(Start(eid, store), actions).value, i)
  {
    hide Coherent, Next, UpToDate, LifeAfter;
    var s := ActAll(Start(eid, store), actions).value;
    if FlushLeft(s, i) == 0 {
      more := [];
      assert actions + more == actions;
      RunsStayCoherent(eid, store, actions);
      SameExtent(eid, store, actions);
      FlushedIsCurrent(s, LifeAfter(store, actions), i);
    } else {
      var a := FlushAction(s, i);
      OneMore(eid, store, actions, a);
      var rest := ReleaseCanFlush(eid, store, actions + [a], i);
      more := [a] + rest;
      assert actions + [a] + rest == actions + more;
    }
  }
}

/** The inductive invariant of the lock service and its preservation. */
module LockInvariant {
  import opened Common
  import opened LockServer
  import opened LockClient
  import opened LockProtocol

  /** A thread that has the client's record in its hands. */
  predicate Busy(pc: Pc)
  {
    HasRpc(pc) || pc.Holding?
  }

  /** The retry of a grant, or the second acquire it causes, on its way. */
  predicate GrantToken(pc: Pc)
  {
    pc.RetrySent? || ((pc.SecondAcquire? || pc.RetryAcquire?) && pc.rpc.Sent?)
  }

  /** The revoke of a tenure, or the release it causes, on its way. */
  predicate RevokeToken(pc: Pc)
  {
    pc.RevokeSent? || ((pc.ReleaseCall? || pc.RevokeRelease?) && pc.rpc.Sent?)
  }

  predicate LockedBy(s: State, c: ClientId)
  {
    s.server.status == Locked && s.server.holder == Some(c)
  }

  predicate ExpectedFrom(s: State, c: ClientId)
  {
    s.server.status == Expecting && s.server.holder == Some(c)
  }

  /** The server has no record of client c. */
  predicate Outside(s: State, c: ClientId)
  {
    s.server.holder != Some(c) && c !in s.server.waiting
  }

  predicate ActOk(s: State, i: nat)
    requires i in s.acts
  {
    var c := s.acts[i].client;
    var l := LockAt(s, c);
    && i < s.next
    && match s.acts[i].pc
       case Sleeping(_) => true
       case Holding => l.status == InUse
       case FirstAcquire(rpc) =>
         && l.status == Acquiring
         && (match rpc
             case Sent => Outside(s, c)
             case Answered(Ok, _) => LockedBy(s, c)
             case Answered(Retry, _) => c in s.server.waiting || ExpectedFrom(s, c))
       case SecondAcquire(rpc) =>
         l.status == Waiting && if rpc.Sent? then ExpectedFrom(s, c) else rpc.reply == Ok && LockedBy(s, c)
       case RetryAcquire(rpc) =>
         l.status == Waiting && if rpc.Sent? then ExpectedFrom(s, c) else rpc.reply == Ok && LockedBy(s, c)
       case ReleaseCall(rpc) =>
         && l.status == Releasing
         && if rpc.Sent? then LockedBy(s, c) && s.server.sendRpc else rpc.reply == Ok && Outside(s, c)
       case RevokeRelease(rpc) =>
         && l.status == Releasing
         && if rpc.Sent? then LockedBy(s, c) && s.server.sendRpc else rpc.reply == Ok && Outside(s, c)
       case RevokeSent => LockedBy(s, c) && s.server.sendRpc
       case RetrySent => ExpectedFrom(s, c) && (l.status == Acquiring || l.status == Waiting)
  }

  ghost predicate EachActOk(s: State)
  {
    forall i | i in s.acts :: ActOk(s, i)
  }

  ghost predicate OneBusy(s: State)
  {
    forall i, j | i in s.acts && j in s.acts && Busy(s.acts[i].pc) && Busy(s.acts[j].pc) &&
                  s.acts[i].client == s.acts[j].client :: i == j
  }

  ghost predicate OneGrant(s: State)
  {
    forall i, j | i in s.acts && j in s.acts && GrantToken(s.acts[i].pc) && GrantToken(s.acts[j].pc) :: i == j
  }

  ghost predicate OneRevoke(s: State)
  {
    forall i, j | i in s.acts && j in s.acts && RevokeToken(s.acts[i].pc) && RevokeToken(s.acts[j].pc) :: i == j
  }

  ghost predicate ActsOk(s: State)
  {
    EachActOk(s) && OneBusy(s) && OneGrant(s) && OneRevoke(s)
  }

  ghost predicate HasSleeper(s: State, c: ClientId)
  {
    exists i :: i in s.acts && s.acts[i].client == c && s.acts[i].pc.Sleeping?
  }

  ghost predicate HasSignalled(s: State, c: ClientId)
  {
    exists i :: i in s.acts && s.acts[i].client == c && s.acts[i].pc == Sleeping(true)
  }

  ghost predicate HasHolding(s: State, c: ClientId)
  {
    exists i :: i in s.acts && s.acts[i].client == c && s.acts[i].pc.Holding?
  }

  ghost predicate HasFirst(s: State, c: ClientId)
  {
    exists i :: i in s.acts && s.acts[i].client == c && s.acts[i].pc.FirstAcquire?
  }

  ghost predicate HasSecond(s: State, c: ClientId)
  {
    exists i :: i in s.acts && s.acts[i].client == c && s.acts[i].pc.SecondAcquire?
  }

  ghost predicate HasRetryAcquire(s: State, c: ClientId)
  {
    exists i :: i in s.acts && s.acts[i].client == c && s.acts[i].pc.RetryAcquire?
  }

  ghost predicate HasReleasing(s: State, c: ClientId)
  {
    exists i :: i in s.acts && s.acts[i].client == c && (s.acts[i].pc.ReleaseCall? || s.acts[i].pc.RevokeRelease?)
  }

  ghost predicate NoGrant(s: State)
  {
    forall i | i in s.acts :: !GrantToken(s.acts[i].pc)
  }

  ghost predicate NoRevoke(s: State)
  {
    forall i | i in s.acts :: !RevokeToken(s.acts[i].pc)
  }

  /** What each client status says about the server and about the activities of
      the client. */
  ghost predicate ClientOk(s: State, c: ClientId)
  {
    var l := LockAt(s, c);
    && (l.status == Unheld ==> l.pending == NoMark && Outside(s, c))
    && (l.status == Owned ==> LockedBy(s, c) && (l.pending == RevokeMark ==> HasSignalled(s, c)))
    && (l.status == InUse ==> LockedBy(s, c) && HasHolding(s, c))
    && (l.status == Acquiring ==> HasFirst(s, c))
    && (l.status == Waiting ==>
          || HasSecond(s, c)
          || (HasSleeper(s, c) && (HasRetryAcquire(s, c) || c in s.server.waiting || ExpectedFrom(s, c))))
    && (l.status == Releasing ==> l.pending == NoMark && HasReleasing(s, c))
    && (l.pending == RetryMark ==> l.status == Acquiring && ExpectedFrom(s, c) && NoGrant(s))
    && (l.pending == RevokeMark ==> LockedBy(s, c) && s.server.sendRpc && NoRevoke(s))
    && (c in s.server.waiting ==> l.status == Acquiring || l.status == Waiting)
  }

  ghost predicate ServerOk(s: State)
  {
    var sv := s.server;
    && Distinct(sv.waiting)
    && (sv.status == Free ==> sv.holder.None? && sv.waiting == [] && !sv.sendRpc)
    && (sv.status != Free ==>
          && sv.holder.Some? && sv.holder.value !in sv.waiting
          && (sv.sendRpc <==> sv.waiting != []))
    && (sv.status == Locked && sv.sendRpc ==>
          || LockAt(s, sv.holder.value).pending == RevokeMark
          || !NoRevoke(s))
    && (sv.status == Expecting ==>
          || LockAt(s, sv.holder.value).pending == RetryMark
          || !NoGrant(s))
  }

  ghost predicate Inv(s: State)
  {
    ServerOk(s) && ActsOk(s) && forall c :: ClientOk(s, c)
  }

  // ----- client sections -----

  predicate SameThread(a: Activity, b: Activity, c: ClientId)
  {
    a == b || (a.client == b.client == c && a.pc.Sleeping? && b.pc.Sleeping?)
  }

  /** What a client section for activity i of client c may change: the record of
      c, activity i, and the signalled flag of the sleepers of c. */
  ghost predicate ClientFrame(s: State, t: State, c: ClientId, i: nat)
  {
    && t.server == s.server
    && s.next <= t.next
    && (forall d | d != c :: LockAt(t, d) == LockAt(s, d))
    && (forall j | j in s.acts && j != i :: j in t.acts && SameThread(s.acts[j], t.acts[j], c))
    && (forall j | j in t.acts && j != i :: j in s.acts && SameThread(s.acts[j], t.acts[j], c))
    && (i in s.acts ==> s.acts[i].client == c)
    && (i in t.acts ==> t.acts[i].client == c)
  }

  /** The effect of a section, without the maps it is computed with. */
  ghost predicate Ran(s: State, t: State, c: ClientId, i: nat, sec: Section)
  {
    && sec.Section?
    && ClientFrame(s, t, c, i)
    && LockAt(t, c) == sec.lock
    && (i in t.acts <==> sec.pc.Some?)
    && (sec.pc.Some? && !sec.broadcast ==> t.acts[i].pc == sec.pc.value)
    && (sec.broadcast ==> forall j | j in t.acts && t.acts[j].client == c && t.acts[j].pc.Sleeping? ::
                            t.acts[j].pc == Sleeping(true))
    && (!sec.broadcast ==> forall j | j in s.acts && j != i :: t.acts[j] == s.acts[j])
  }

  /** Activity i of client c has run its next section. */
  ghost predicate Resumed(s: State, t: State, c: ClientId, i: nat)
  {
    i in s.acts && Ready(s.acts[i].pc) && Ran(s, t, c, i, SectionOf(LockAt(s, c), s.acts[i].pc))
  }

  lemma {:induction false} RunFrame(s: State, t: State, c: ClientId, i: nat, sec: Section)
    requires s.next <= t.next && Run(s.(next := t.next), c, i, sec) == Go(t)
    requires i in s.acts ==> s.acts[i].client == c
    ensures Ran(s, t, c, i, sec)
  {
  }

  lemma {:induction false} LiftOther(s: State, t: State, c: ClientId, i: nat, d: ClientId)
    requires ClientOk(s, d) && ClientFrame(s, t, c, i) && d != c
    requires i in t.acts ==> ActOk(t, i)
    ensures ClientOk(t, d)
  {
  }

  /** The invariant around one section: its own activity, the other activities of
      its client, and the client record. */
  ghost predicate SectionOk(s: State, t: State, c: ClientId, i: nat)
  {
    && (i in t.acts ==> ActOk(t, i))
    && (forall j | j in t.acts && j != i && t.acts[j].client == c :: ActOk(t, j))
    && (i in t.acts && Busy(t.acts[i].pc) ==>
          forall j | j in s.acts && j != i && s.acts[j].client == c :: !Busy(s.acts[j].pc))
    && ClientOk(t, c)
  }

  /** No token appears beside another of its kind. */
  ghost predicate TokensAlone(s: State, t: State, i: nat)
  {
    && (i in t.acts && GrantToken(t.acts[i].pc) ==> forall j | j in s.acts && j != i :: !GrantToken(s.acts[j].pc))
    && (i in t.acts && RevokeToken(t.acts[i].pc) ==> forall j | j in s.acts && j != i :: !RevokeToken(s.acts[j].pc))
  }

  /** A token may turn into a mark of the holder and back, but must not vanish. */
  predicate TokensMove(s: State, t: State, c: ClientId, i: nat)
  {
    && (Revoking(s, c, i) && LockedBy(s, c) ==> Revoking(t, c, i))
    && (Granting(s, c, i) && ExpectedFrom(s, c) ==> Granting(t, c, i))
  }

  predicate Revoking(s: State, c: ClientId, i: nat)
  {
    LockAt(s, c).pending == RevokeMark || (i in s.acts && RevokeToken(s.acts[i].pc))
  }

  predicate Granting(s: State, c: ClientId, i: nat)
  {
    LockAt(s, c).pending == RetryMark || (i in s.acts && GrantToken(s.acts[i].pc))
  }

  lemma {:induction false} LiftActs(s: State, t: State, c: ClientId, i: nat)
    requires EachActOk(s) && ClientFrame(s, t, c, i) && SectionOk(s, t, c, i)
    ensures EachActOk(t)
  {
    forall j | j in t.acts ensures ActOk(t, j) {
      if j != i && t.acts[j].client != c { assert ActOk(s, j); }
    }
  }

  lemma {:induction false} LiftBusy(s: State, t: State, c: ClientId, i: nat)
    requires OneBusy(s) && ClientFrame(s, t, c, i)
    requires i in t.acts && Busy(t.acts[i].pc) ==>
               forall j | j in s.acts && j != i && s.acts[j].client == c :: !Busy(s.acts[j].pc)
    ensures OneBusy(t)
  {
  }

  lemma {:induction false} LiftTokens(s: State, t: State, c: ClientId, i: nat)
    requires OneGrant(s) && OneRevoke(s) && ClientFrame(s, t, c, i) && TokensAlone(s, t, i)
    ensures OneGrant(t) && OneRevoke(t)
  {
  }

  lemma {:induction false} LiftServer(s: State, t: State, c: ClientId, i: nat)
    requires ServerOk(s) && EachActOk(s) && ClientFrame(s, t, c, i) && TokensMove(s, t, c, i)
    ensures ServerOk(t)
  {
    if i in s.acts { assert ActOk(s, i); }
  }

  lemma {:induction false} Lift(s: State, t: State, c: ClientId, i: nat)
    requires Inv(s) && ClientFrame(s, t, c, i) && SectionOk(s, t, c, i)
    requires TokensAlone(s, t, i) && TokensMove(s, t, c, i)
    ensures Inv(t)
  {
    LiftActs(s, t, c, i);
    LiftBusy(s, t, c, i);
    LiftTokens(s, t, c, i);
    LiftServer(s, t, c, i);
    forall d ensures ClientOk(t, d) {
      if d != c { LiftOther(s, t, c, i, d); }
    }
  }

  lemma {:induction false} InvInit()
    ensures Inv(Init)
  {
  }

  lemma {:induction false} OtherActs(s: State, t: State, c: ClientId, i: nat)
    requires ActsOk(s) && ClientOk(s, c) && Resumed(s, t, c, i)
    ensures forall j | j in t.acts && j != i && t.acts[j].client == c :: ActOk(t, j)
  {
    assert ActOk(s, i);
    forall j | j in t.acts && j != i && t.acts[j].client == c ensures ActOk(t, j) { assert ActOk(s, j); }
  }

  /** A thread that carries a token had it before, or finds a mark in its place. */
  lemma {:induction false} GrantTokenFrom(s: State, t: State, c: ClientId, i: nat)
    requires ClientOk(s, c) && Resumed(s, t, c, i)
    ensures i in t.acts && GrantToken(t.acts[i].pc) ==> GrantToken(s.acts[i].pc) || NoGrant(s)
  {
    hide NoGrant, NoRevoke, HasSleeper, HasSignalled, HasHolding, HasFirst, HasSecond, HasRetryAcquire, HasReleasing;
  }

  lemma {:induction false} RevokeTokenFrom(s: State, t: State, c: ClientId, i: nat)
    requires ClientOk(s, c) && Resumed(s, t, c, i)
    ensures i in t.acts && RevokeToken(t.acts[i].pc) ==> RevokeToken(s.acts[i].pc) || NoRevoke(s)
  {
    hide NoGrant, NoRevoke, HasSleeper, HasSignalled, HasHolding, HasFirst, HasSecond, HasRetryAcquire, HasReleasing;
  }

  lemma {:induction false} SectionGrantAlone(s: State, t: State, c: ClientId, i: nat)
    requires OneGrant(s) && ClientOk(s, c) && Resumed(s, t, c, i)
    ensures i in t.acts && GrantToken(t.acts[i].pc) ==> forall j | j in s.acts && j != i :: !GrantToken(s.acts[j].pc)
  {
    hide ClientOk, SectionOf, ClientFrame;
    GrantTokenFrom(s, t, c, i);
  }

  lemma {:induction false} SectionRevokeAlone(s: State, t: State, c: ClientId, i: nat)
    requires OneRevoke(s) && ClientOk(s, c) && Resumed(s, t, c, i)
    ensures i in t.acts && RevokeToken(t.acts[i].pc) ==> forall j | j in s.acts && j != i :: !RevokeToken(s.acts[j].pc)
  {
    hide ClientOk, SectionOf, ClientFrame;
    RevokeTokenFrom(s, t, c, i);
  }

  lemma {:induction false} SectionTokensMove(s: State, t: State, c: ClientId, i: nat)
    requires ClientOk(s, c) && Resumed(s, t, c, i)
    ensures TokensMove(s, t, c, i)
  {
  }

  lemma {:induction false} OwnAct(s: State, t: State, c: ClientId, i: nat)
    requires ActsOk(s) && ServerOk(s) && ClientOk(s, c) && Resumed(s, t, c, i)
    ensures i in t.acts ==> ActOk(t, i)
  {
    assert ActOk(s, i);
  }

  lemma {:induction false} OwnBusy(s: State, t: State, c: ClientId, i: nat)
    requires ActsOk(s) && ClientOk(s, c) && Resumed(s, t, c, i)
    ensures i in t.acts && Busy(t.acts[i].pc) ==>
              forall j | j in s.acts && j != i && s.acts[j].client == c :: !Busy(s.acts[j].pc)
  {
    assert ActOk(s, i);
  }

  lemma {:induction false} SleeperClient(s: State, t: State, c: ClientId, i: nat)
    requires EachActOk(s) && ClientOk(s, c) && Resumed(s, t, c, i) && s.acts[i].pc.Sleeping?
    ensures ClientOk(t, c)
  {
  }

  lemma {:induction false} AcquirerClient(s: State, t: State, c: ClientId, i: nat)
    requires ActsOk(s) && ServerOk(s) && ClientOk(s, c) && Resumed(s, t, c, i)
    requires s.acts[i].pc.FirstAcquire? || s.acts[i].pc.SecondAcquire?
    ensures ClientOk(t, c)
  {
    assert ActOk(s, i);
  }

  lemma {:induction false} ReleaserClient(s: State, t: State, c: ClientId, i: nat)
    requires ActsOk(s) && ServerOk(s) && ClientOk(s, c) && Resumed(s, t, c, i)
    requires || s.acts[i].pc.Holding? || s.acts[i].pc.ReleaseCall?
             || s.acts[i].pc.RevokeSent? || s.acts[i].pc.RevokeRelease?
    ensures ClientOk(t, c)
  {
    assert ActOk(s, i);
  }

  lemma {:induction false} RetryClient(s: State, t: State, c: ClientId, i: nat)
    requires ActsOk(s) && ServerOk(s) && ClientOk(s, c) && Resumed(s, t, c, i)
    requires s.acts[i].pc.RetrySent? || s.acts[i].pc.RetryAcquire?
    ensures ClientOk(t, c)
  {
    assert ActOk(s, i);
  }

  /** Every client section keeps the invariant. */
  lemma {:induction false} SectionKeeps(s: State, t: State, c: ClientId, i: nat)
    requires Inv(s) && Resumed(s, t, c, i)
    ensures Inv(t)
  {
    assert ClientOk(s, c);
    OtherActs(s, t, c, i);
    SectionGrantAlone(s, t, c, i);
    SectionRevokeAlone(s, t, c, i);
    SectionTokensMove(s, t, c, i);
    OwnAct(s, t, c, i);
    OwnBusy(s, t, c, i);
    match s.acts[i].pc {
      case RetrySent => RetryClient(s, t, c, i);
      case RetryAcquire(_) => RetryClient(s, t, c, i);
      case Sleeping(_) => SleeperClient(s, t, c, i);
      case FirstAcquire(_) => AcquirerClient(s, t, c, i);
      case SecondAcquire(_) => AcquirerClient(s, t, c, i);
      case _ => ReleaserClient(s, t, c, i);
    }
    Lift(s, t, c, i);
  }

  /** No client section fails an assertion. */
  lemma {:induction false} SectionNeverFails(s: State, i: nat)
    requires Inv(s) && i in s.acts && Ready(s.acts[i].pc)
    ensures !SectionOf(LockAt(s, s.acts[i].client), s.acts[i].pc).Failed?
  {
    assert ActOk(s, i) && ClientOk(s, s.acts[i].client);
  }

  lemma {:induction false} ResumeKeeps(s: State, i: nat)
    requires Inv(s)
    ensures var o := Next(s, Resume(i)); o.Disabled? || (o.Go? && Inv(o.state))
  {
    var o := Next(s, Resume(i));
    if !o.Disabled? {
      SectionNeverFails(s, i);
      var c := s.acts[i].client;
      RunFrame(s, o.state, c, i, SectionOf(LockAt(s, c), s.acts[i].pc));
      SectionKeeps(s, o.state, c, i);
    }
  }

  /** A thread about to enter acquire counts as one returning from its wait. */
  function WithThread(s: State, c: ClientId): State
  {
    s.(acts := s.acts[s.next := Activity(c, Sleeping(false))], next := s.next + 1)
  }

  lemma {:induction false} ThreadSectionOk(s: State, t: State, c: ClientId, i: nat)
    requires EachActOk(s) && ClientOk(s, c) && i !in s.acts && i < t.next && s.next <= t.next
    requires t == s.(acts := s.acts[i := Activity(c, Sleeping(false))], next := t.next)
    ensures SectionOk(s, t, c, i)
  {
    hide ClientOk;
    forall j | j in t.acts && j != i && t.acts[j].client == c ensures ActOk(t, j) { assert ActOk(s, j); }
    MoreSleepers(s, t, c, i);
  }

  lemma {:induction false} WithThreadKeeps(s: State, c: ClientId)
    requires Inv(s)
    ensures Inv(WithThread(s, c)) && s.next !in s.acts
  {
    hide ServerOk, ClientOk, SectionOk, TokensAlone, TokensMove, ClientFrame;
    var t := WithThread(s, c);
    assert s.next !in s.acts;
    ThreadSectionOk(s, t, c, s.next);
    NewSleeper(s, t, c, s.next);
    Lift(s, t, c, s.next);
  }

  lemma {:induction false} NewSleeper(s: State, t: State, c: ClientId, i: nat)
    requires i !in s.acts && i < t.next && s.next <= t.next
    requires t == s.(acts := s.acts[i := Activity(c, Sleeping(false))], next := t.next)
    ensures ClientFrame(s, t, c, i) && TokensAlone(s, t, i) && TokensMove(s, t, c, i) && ActOk(t, i)
  {
  }

  lemma {:induction false} MoreSleepers(s: State, t: State, c: ClientId, i: nat)
    requires ClientOk(s, c) && i !in s.acts
    requires t == s.(acts := s.acts[i := Activity(c, Sleeping(false))], next := t.next)
    ensures ClientOk(t, c)
  {
    assert forall j | j in s.acts :: j in t.acts && t.acts[j] == s.acts[j];
  }

  lemma {:induction false} EnterAsResume(s: State, c: ClientId)
    requires s.next !in s.acts
    ensures Next(s, CallAcquire(c)) == Next(WithThread(s, c), Resume(s.next))
  {
    var t := Next(s, CallAcquire(c)).state;
    assert WithThread(s, c).acts[s.next := t.acts[s.next]] == t.acts;
  }

  lemma {:induction false} CallAcquireKeeps(s: State, c: ClientId)
    requires Inv(s)
    ensures var o := Next(s, CallAcquire(c)); o.Go? && Inv(o.state)
  {
    WithThreadKeeps(s, c);
    ResumeKeeps(WithThread(s, c), s.next);
    EnterAsResume(s, c);
  }

  // ----- server sections -----

  /** What the server changes: its own record, the answered activity, and at most
      one new callback. */
  ghost predicate Replied(s: State, t: State, c: ClientId, i: nat, out: Served, callback: Pc)
  {
    && out.Served?
    && i in s.acts && s.acts[i].client == c && HasRpc(s.acts[i].pc)
    && t.clients == s.clients && t.server == out.lock && s.next !in s.acts
    && (forall j | j in s.acts && j != i :: j in t.acts && t.acts[j] == s.acts[j])
    && (forall j | j in t.acts :: j in s.acts || (j == s.next && out.notify.Some?))
    && i in t.acts && t.acts[i].client == c && HasRpc(t.acts[i].pc) && t.acts[i].pc.rpc.Answered?
    && t.acts[i].pc == WithRpc(s.acts[i].pc, Answered(out.reply, t.acts[i].pc.rpc.after))
    && (out.notify.Some? ==> s.next in t.acts && t.acts[s.next] == Activity(out.notify.value, callback))
    && t.next == s.next + if out.notify.Some? then 1 else 0
  }

  lemma {:induction false} AnswerFrame(s: State, t: State, c: ClientId, i: nat, out: Served, callback: Pc)
    requires EachActOk(s) && i in s.acts && s.acts[i].client == c && HasRpc(s.acts[i].pc)
    requires Answer(s, i, out, callback) == Go(t)
    ensures Replied(s, t, c, i, out, callback)
  {
    assert s.next !in s.acts;
  }

  /** The server frees the token of the RPC it answers, so one new callback token
      can be issued when no other token of its kind is left. */
  lemma {:induction false} AnswerTokens(s: State, t: State, c: ClientId, i: nat, out: Served, callback: Pc)
    requires ActsOk(s) && Replied(s, t, c, i, out, callback)
    requires callback.RevokeSent? || callback.RetrySent?
    requires out.notify.Some? && callback.RevokeSent? ==>
               forall j | j in s.acts && j != i :: !RevokeToken(s.acts[j].pc)
    requires out.notify.Some? && callback.RetrySent? ==>
               forall j | j in s.acts && j != i :: !GrantToken(s.acts[j].pc)
    ensures OneGrant(t) && OneRevoke(t)
  {
    assert !GrantToken(t.acts[i].pc) && !RevokeToken(t.acts[i].pc);
  }

  lemma {:induction false} AnswerBusy(s: State, t: State, c: ClientId, i: nat, out: Served, callback: Pc)
    requires OneBusy(s) && Replied(s, t, c, i, out, callback)
    requires callback.RevokeSent? || callback.RetrySent?
    ensures OneBusy(t)
  {
  }

  /** The server executes a first acquire. */
  lemma {:induction false} ServeFirstKeeps(s: State, t: State, c: ClientId, i: nat)
    requires Inv(s) && i in s.acts && s.acts[i].pc == FirstAcquire(Sent)
    requires Replied(s, t, c, i, AcquireSection(s.server, c), RevokeSent)
    ensures Inv(t)
  {
    hide ClientOk, ServerOk, Replied, AcquireSection;
    ServeFirstServer(s, t, c, i);
    ServeFirstTokens(s, t, c, i);
    forall d ensures ClientOk(t, d) {
      assert ClientOk(s, d);
      ServeFirstClient(s, t, c, i, d);
    }
    forall j | j in t.acts ensures ActOk(t, j) {
      assert ClientOk(s, t.acts[j].client);
      if j in s.acts { assert ActOk(s, j); }
      ServeFirstAct(s, t, c, i, j);
    }
  }

  lemma {:induction false} ServeFirstTokens(s: State, t: State, c: ClientId, i: nat)
    requires ServerOk(s) && ActsOk(s) && ClientOk(s, c) && i in s.acts && s.acts[i].pc == FirstAcquire(Sent)
    requires Replied(s, t, c, i, AcquireSection(s.server, c), RevokeSent)
    ensures OneGrant(t) && OneRevoke(t) && OneBusy(t)
  {
    assert ActOk(s, i);
    AnswerBusy(s, t, c, i, AcquireSection(s.server, c), RevokeSent);
    AnswerTokens(s, t, c, i, AcquireSection(s.server, c), RevokeSent);
  }

  lemma {:induction false} ServeFirstServer(s: State, t: State, c: ClientId, i: nat)
    requires ServerOk(s) && EachActOk(s) && ClientOk(s, c) && i in s.acts && s.acts[i].pc == FirstAcquire(Sent)
    requires Replied(s, t, c, i, AcquireSection(s.server, c), RevokeSent)
    ensures ServerOk(t)
  {
    assert ActOk(s, i);
  }

  lemma {:induction false} ServeFirstAct(s: State, t: State, c: ClientId, i: nat, j: nat)
    requires ServerOk(s) && ActsOk(s) && i in s.acts && ActOk(s, i) && s.acts[i].pc == FirstAcquire(Sent)
    requires Replied(s, t, c, i, AcquireSection(s.server, c), RevokeSent)
    requires j in t.acts && ClientOk(s, t.acts[j].client) && (j in s.acts ==> ActOk(s, j))
    ensures ActOk(t, j)
  {
  }

  lemma {:induction false} ServeFirstClient(s: State, t: State, c: ClientId, i: nat, d: ClientId)
    requires ServerOk(s) && EachActOk(s) && ClientOk(s, c) && ClientOk(s, d)
    requires i in s.acts && s.acts[i].pc == FirstAcquire(Sent)
    requires Replied(s, t, c, i, AcquireSection(s.server, c), RevokeSent)
    ensures ClientOk(t, d)
  {
    assert ActOk(s, i);
  }

  /** The server executes the acquire that answers a retry. */
  lemma {:induction false} ServeSecondKeeps(s: State, t: State, c: ClientId, i: nat)
    requires Inv(s)
    requires i in s.acts && (s.acts[i].pc == SecondAcquire(Sent) || s.acts[i].pc == RetryAcquire(Sent))
    requires Replied(s, t, c, i, AcquireSection(s.server, c), RevokeSent)
    ensures Inv(t)
  {
    hide ClientOk, ServerOk, Replied, AcquireSection;
    ServeSecondServer(s, t, c, i);
    ServeSecondTokens(s, t, c, i);
    forall d ensures ClientOk(t, d) {
      assert ClientOk(s, d);
      ServeSecondClient(s, t, c, i, d);
    }
    forall j | j in t.acts ensures ActOk(t, j) {
      assert ClientOk(s, t.acts[j].client);
      if j in s.acts { assert ActOk(s, j); }
      ServeSecondAct(s, t, c, i, j);
    }
  }

  lemma {:induction false} ServeSecondTokens(s: State, t: State, c: ClientId, i: nat)
    requires ServerOk(s) && ActsOk(s) && ClientOk(s, c) && i in s.acts
    requires s.acts[i].pc == SecondAcquire(Sent) || s.acts[i].pc == RetryAcquire(Sent)
    requires Replied(s, t, c, i, AcquireSection(s.server, c), RevokeSent)
    ensures OneGrant(t) && OneRevoke(t) && OneBusy(t)
  {
    assert ActOk(s, i);
    AnswerBusy(s, t, c, i, AcquireSection(s.server, c), RevokeSent);
    AnswerTokens(s, t, c, i, AcquireSection(s.server, c), RevokeSent);
  }

  lemma {:induction false} ServeSecondServer(s: State, t: State, c: ClientId, i: nat)
    requires ServerOk(s) && EachActOk(s) && ClientOk(s, c)
    requires i in s.acts && (s.acts[i].pc == SecondAcquire(Sent) || s.acts[i].pc == RetryAcquire(Sent))
    requires Replied(s, t, c, i, AcquireSection(s.server, c), RevokeSent)
    ensures ServerOk(t)
  {
    assert ActOk(s, i);
  }

  lemma {:induction false} ServeSecondAct(s: State, t: State, c: ClientId, i: nat, j: nat)
    requires ServerOk(s) && ActsOk(s) && i in s.acts && ActOk(s, i)
    requires s.acts[i].pc == SecondAcquire(Sent) || s.acts[i].pc == RetryAcquire(Sent)
    requires Replied(s, t, c, i, AcquireSection(s.server, c), RevokeSent)
    requires j in t.acts && ClientOk(s, t.acts[j].client) && (j in s.acts ==> ActOk(s, j))
    ensures ActOk(t, j)
  {
  }

  lemma {:induction false} ServeSecondClient(s: State, t: State, c: ClientId, i: nat, d: ClientId)
    requires ServerOk(s) && EachActOk(s) && ClientOk(s, c) && ClientOk(s, d)
    requires i in s.acts && (s.acts[i].pc == SecondAcquire(Sent) || s.acts[i].pc == RetryAcquire(Sent))
    requires Replied(s, t, c, i, AcquireSection(s.server, c), RevokeSent)
    ensures ClientOk(t, d)
  {
    assert ActOk(s, i);
  }

  /** The server executes a release. */
  lemma {:induction false} ServeReleaseKeeps(s: State, t: State, c: ClientId, i: nat)
    requires Inv(s)
    requires i in s.acts && (s.acts[i].pc == ReleaseCall(Sent) || s.acts[i].pc == RevokeRelease(Sent))
    requires Replied(s, t, c, i, ReleaseSection(s.server, c), RetrySent)
    ensures Inv(t)
  {
    hide ClientOk, ServerOk, Replied, ReleaseSection;
    ServeReleaseServer(s, t, c, i);
    ServeReleaseTokens(s, t, c, i);
    forall d ensures ClientOk(t, d) {
      assert ClientOk(s, d);
      ServeReleaseClient(s, t, c, i, d);
    }
    forall j | j in t.acts ensures ActOk(t, j) {
      assert ClientOk(s, t.acts[j].client);
      if j in s.acts { assert ActOk(s, j); }
      ServeReleaseAct(s, t, c, i, j);
    }
  }

  lemma {:induction false} ServeReleaseTokens(s: State, t: State, c: ClientId, i: nat)
    requires ServerOk(s) && ActsOk(s) && ClientOk(s, c) && i in s.acts
    requires s.acts[i].pc == ReleaseCall(Sent) || s.acts[i].pc == RevokeRelease(Sent)
    requires Replied(s, t, c, i, ReleaseSection(s.server, c), RetrySent)
    ensures OneGrant(t) && OneRevoke(t) && OneBusy(t)
  {
    assert ActOk(s, i);
    AnswerBusy(s, t, c, i, ReleaseSection(s.server, c), RetrySent);
    AnswerTokens(s, t, c, i, ReleaseSection(s.server, c), RetrySent);
  }

  lemma {:induction false} ServeReleaseServer(s: State, t: State, c: ClientId, i: nat)
    requires ServerOk(s) && EachActOk(s) && ClientOk(s, c)
    requires i in s.acts && (s.acts[i].pc == ReleaseCall(Sent) || s.acts[i].pc == RevokeRelease(Sent))
    requires Replied(s, t, c, i, ReleaseSection(s.server, c), RetrySent)
    ensures ServerOk(t)
  {
    assert ActOk(s, i);
  }

  lemma {:induction false} ServeReleaseAct(s: State, t: State, c: ClientId, i: nat, j: nat)
    requires ServerOk(s) && ActsOk(s) && i in s.acts && ActOk(s, i)
    requires s.acts[i].pc == ReleaseCall(Sent) || s.acts[i].pc == RevokeRelease(Sent)
    requires Replied(s, t, c, i, ReleaseSection(s.server, c), RetrySent)
    requires j in t.acts && ClientOk(s, t.acts[j].client) && (j in s.acts ==> ActOk(s, j))
    ensures ActOk(t, j)
  {
  }

  lemma {:induction false} ServeReleaseClient(s: State, t: State, c: ClientId, i: nat, d: ClientId)
    requires ServerOk(s) && EachActOk(s) && ClientOk(s, c) && ClientOk(s, d)
    requires i in s.acts && (s.acts[i].pc == ReleaseCall(Sent) || s.acts[i].pc == RevokeRelease(Sent))
    requires Replied(s, t, c, i, ReleaseSection(s.server, c), RetrySent)
    ensures ClientOk(t, d)
  {
    assert ActOk(s, i);
  }

  lemma {:induction false} ServeKeeps(s: State, i: nat)
    requires Inv(s)
    ensures var o := Next(s, Serve(i)); o.Disabled? || (o.Go? && Inv(o.state))
  {
    var o := Next(s, Serve(i));
    if !o.Disabled? {
      var c := s.acts[i].client;
      assert ActOk(s, i) && ClientOk(s, c);
      if AsksToAcquire(s.acts[i].pc) {
        AnswerFrame(s, o.state, c, i, AcquireSection(s.server, c), RevokeSent);
        if s.acts[i].pc.FirstAcquire? {
          ServeFirstKeeps(s, o.state, c, i);
        } else {
          ServeSecondKeeps(s, o.state, c, i);
        }
      } else {
        AnswerFrame(s, o.state, c, i, ReleaseSection(s.server, c), RetrySent);
        ServeReleaseKeeps(s, o.state, c, i);
      }
    }
  }

  /** Every step keeps the invariant and none fails an assertion. */
  lemma {:induction false} StepKeeps(s: State, step: Step)
    requires Inv(s)
    ensures Next(s, step).Disabled? || (Next(s, step).Go? && Inv(Next(s, step).state))
  {
    match step
    case CallAcquire(c) => CallAcquireKeeps(s, c);
    case Resume(i) => ResumeKeeps(s, i);
    case Serve(i) => ServeKeeps(s, i);
  }
}

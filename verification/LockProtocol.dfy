/**
  The whole lock service for one lock: the server record, the record of every
  client, and every activity that is between two mutex-held sections. A step
  is one mutex-held section on one side. Each RPC is executed once; messages of
  different activities overtake each other freely.
 */
module LockProtocol {
  import opened Common
  import opened LockServer
  import opened LockClient

  datatype Activity = Activity(client: ClientId, pc: Pc)

  datatype State = State(
    server: ServerLock,
    clients: map<ClientId, ClientLock>,
    acts: map<nat, Activity>,
    next: nat)                      // the next unused activity number

  const Init := State(FreshServerLock, map[], map[], 0)

  /** A resumed thread enters release (when it holds the lock), returns from its
      condition wait, signalled or not (when it sleeps), gets the answer to its RPC,
      or starts a revoke or retry handler. */
  datatype Step =
    | CallAcquire(client: ClientId) // a new application thread enters acquire
    | Resume(act: nat)              // an activity runs its next client section
    | Serve(act: nat)               // the server executes the RPC of an activity

  datatype Outcome = Disabled | Crash | Go(state: State)

  function LockAt(s: State, c: ClientId): ClientLock
  {
    if c in s.clients then s.clients[c] else FreshClientLock
  }

  predicate HasRpc(pc: Pc)
  {
    pc.FirstAcquire? || pc.SecondAcquire? || pc.ReleaseCall? || pc.RevokeRelease? || pc.RetryAcquire?
  }

  predicate AsksToAcquire(pc: Pc)
  {
    pc.FirstAcquire? || pc.SecondAcquire? || pc.RetryAcquire?
  }

  function WithRpc(pc: Pc, rpc: Rpc): Pc
    requires HasRpc(pc)
  {
    match pc
    case FirstAcquire(_) => FirstAcquire(rpc)
    case SecondAcquire(_) => SecondAcquire(rpc)
    case ReleaseCall(_) => ReleaseCall(rpc)
    case RevokeRelease(_) => RevokeRelease(rpc)
    case RetryAcquire(_) => RetryAcquire(rpc)
  }

  /** The answer is held back until the server's callback has returned. */
  predicate Blocked(s: State, rpc: Rpc)
  {
    rpc.Answered? && rpc.after.Some? && rpc.after.value in s.acts
  }

  function Broadcast(acts: map<nat, Activity>, c: ClientId): map<nat, Activity>
  {
    map j | j in acts ::
      if acts[j].client == c && acts[j].pc.Sleeping? then Activity(c, Sleeping(true)) else acts[j]
  }

  function MoveThread(acts: map<nat, Activity>, i: nat, c: ClientId, pc: Option<Pc>): map<nat, Activity>
  {
    if pc.Some? then acts[i := Activity(c, pc.value)] else map j | j in acts && j != i :: acts[j]
  }

  /** Client c runs a section for activity i. */
  function Run(s: State, c: ClientId, i: nat, sec: Section): Outcome
  {
    if sec.Failed? then Crash
    else
      var moved := MoveThread(s.acts, i, c, sec.pc);
      Go(s.(clients := s.clients[c := sec.lock],
            acts := if sec.broadcast then Broadcast(moved, c) else moved))
  }

  /** The server answers activity i and starts its callback, if any. */
  function Answer(s: State, i: nat, out: Served, callback: Pc): Outcome
    requires i in s.acts && HasRpc(s.acts[i].pc)
  {
    if out.Abort? then Crash
    else if out.notify.None? then
      Go(s.(server := out.lock,
            acts := s.acts[i := s.acts[i].(pc := WithRpc(s.acts[i].pc, Answered(out.reply, None)))]))
    else
      Go(s.(server := out.lock,
            acts := s.acts[i := s.acts[i].(pc := WithRpc(s.acts[i].pc, Answered(out.reply, Some(s.next))))]
                    [s.next := Activity(out.notify.value, callback)],
            next := s.next + 1))
  }

  /** Not waiting for the server to execute an RPC. */
  predicate Ready(pc: Pc)
  {
    HasRpc(pc) ==> pc.rpc.Answered?
  }

  /** The section a thread runs when it goes on from pc. */
  function SectionOf(l: ClientLock, pc: Pc): Section
    requires Ready(pc)
  {
    match pc
    case Sleeping(_) => EnterAcquire(l)
    case Holding => BeginRelease(l)
    case RevokeSent => BeginRevoke(l)
    case RetrySent => BeginRetry(l)
    case FirstAcquire(rpc) => FinishFirstAcquire(l, rpc.reply)
    case SecondAcquire(rpc) => FinishSecondAcquire(l, rpc.reply)
    case ReleaseCall(rpc) => FinishRelease(l, rpc.reply)
    case RevokeRelease(rpc) => FinishRevoke(l, rpc.reply)
    case RetryAcquire(rpc) => FinishRetry(l, rpc.reply)
  }

  function Next(s: State, step: Step): Outcome
  {
    match step
    case CallAcquire(c) =>
      Run(s.(next := s.next + 1), c, s.next, EnterAcquire(LockAt(s, c)))
    case Resume(i) =>
      if i !in s.acts || !Ready(s.acts[i].pc) || (HasRpc(s.acts[i].pc) && Blocked(s, s.acts[i].pc.rpc))
      then Disabled
      else Run(s, s.acts[i].client, i, SectionOf(LockAt(s, s.acts[i].client), s.acts[i].pc))
    case Serve(i) =>
      if i !in s.acts || Ready(s.acts[i].pc) then Disabled
      else if AsksToAcquire(s.acts[i].pc) then
        Answer(s, i, AcquireSection(s.server, s.acts[i].client), RevokeSent)
      else Answer(s, i, ReleaseSection(s.server, s.acts[i].client), RetrySent)
  }

  /** The state after a list of steps, in order; a step that is not enabled or
      fails an assertion ends the run with that outcome. */
  function RunAll(s: State, steps: seq<Step>): Outcome
    decreases |steps|
  {
    if steps == [] then Go(s)
    else
      var last := |steps| - 1;
      var before := RunAll(s, steps[..last]);
      if before.Go? then Next(before.state, steps[last]) else before
  }

  ghost predicate Reachable(s: State)
  {
    exists steps :: RunAll(Init, steps) == Go(s)
  }
}

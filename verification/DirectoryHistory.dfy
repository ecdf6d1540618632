/**
  When a create splits an entry, told from the history of the directory: exactly when
  a name at least 13 bytes longer has been removed from it.
 */
module DirectoryHistory {
  import opened Common
  import opened DiskLayout
  import opened Directory
  import opened DirectorySlots
  import opened DirectoryRuns

  /** The names that a run takes out of the dictionary, in order. */
  function RemovedNames(list: seq<Pair>, ops: seq<Op>): seq<Name>
    decreases |ops|
  {
    if ops == [] then [] else Gone(list, ops[0]) + RemovedNames(Meant(list, ops[0]), ops[1..])
  }

  function Gone(list: seq<Pair>, op: Op): seq<Name>
  {
    if op.Remove? && !op.isDir && Listed(list, op.name) then [op.name] else []
  }

  predicate LongerThan(names: seq<Name>, m: nat)
  {
    exists k | 0 <= k < |names| :: |names[k]| > m
  }

  /** Some entry is longer than its header and name by more than m bytes. */
  ghost predicate HasSpare(slots: seq<Slot>, m: nat)
    requires AllSound(slots)
  {
    exists k | 0 <= k < |slots| :: slots[k].e.len > |slots[k].e.name| + 12 + m
  }

  /** Live entries are no longer than they need to be. */
  ghost predicate LiveTight(slots: seq<Slot>)
    requires AllSound(slots)
  {
    forall k | 0 <= k < |slots| && slots[k].e.inum != 0 :: slots[k].e.len == |slots[k].e.name| + 12
  }

  lemma {:induction false} SplitIffSpare(slots: seq<Slot>, at: nat, n: nat)
    requires AllSound(slots)
    ensures SpotFor(ChainOf(slots, at, Stop), n).Split? <==> HasSpare(slots, n + 12)
  {
    if slots != [] {
      var rest := slots[1..];
      SplitIffSpare(rest, at + |slots[0].bytes|, n);
      if HasSpare(rest, n + 12) {
        var k :| 0 <= k < |rest| && rest[k].e.len > |rest[k].e.name| + 12 + (n + 12);
        assert slots[k + 1] == rest[k];
      }
      if HasSpare(slots, n + 12) && !Room(slots[0].e.name, slots[0].e.len, n) {
        var k :| 0 <= k < |slots| && slots[k].e.len > |slots[k].e.name| + 12 + (n + 12);
        assert rest[k - 1] == slots[k];
      }
    }
  }

  /** An operation makes room exactly by removing a name. */
  lemma {:induction false} SpareStep(slots: seq<Slot>, op: Op, after: seq<Slot>, m: nat)
    requires AllSound(slots) && AllSound(after) && LiveTight(slots) && Evolves(slots, op, after)
    ensures LiveTight(after)
    ensures HasSpare(after, m) <==> HasSpare(slots, m) || LongerThan(Gone(Live(slots), op), m)
  {
    hide Sound, Live;
    if op.Make? && after != slots {
      assert forall k | 0 <= k < |slots| :: after[k] == after[..|slots|][k] == slots[k];
    } else if after != slots || (op.Remove? && !op.isDir && Listed(Live(slots), op.name)) {
      BlankSpare(slots, op.name, after, m);
      assert Gone(Live(slots), op) == [op.name];
    }
  }

  lemma {:induction false} BlankSpare(slots: seq<Slot>, name: Name, after: seq<Slot>, m: nat)
    requires AllSound(slots) && AllSound(after) && LiveTight(slots) && OneBlanked(slots, name, after)
    ensures LiveTight(after) && (HasSpare(after, m) <==> HasSpare(slots, m) || |name| > m)
    ensures LongerThan([name], m) <==> |name| > m
  {
    var k :| 0 <= k < |slots| && Names(slots[k].e, name) && Hollow(slots[k], after[k]) && after == slots[k := after[k]];
    assert |name| > m ==> after[k].e.len > |after[k].e.name| + 12 + m;
    if HasSpare(slots, m) {
      var j :| 0 <= j < |slots| && slots[j].e.len > |slots[j].e.name| + 12 + m;
      assert j != k && after[j] == slots[j];
    }
    assert |name| > m ==> |[name][0]| > m;
  }

  lemma {:induction false} LongerSplit(a: seq<Name>, b: seq<Name>, m: nat)
    ensures LongerThan(a + b, m) <==> LongerThan(a, m) || LongerThan(b, m)
  {
    if LongerThan(a, m) {
      var k :| 0 <= k < |a| && |a[k]| > m;
      assert (a + b)[k] == a[k];
    }
    if LongerThan(b, m) {
      var k :| 0 <= k < |b| && |b[k]| > m;
      assert (a + b)[|a| + k] == b[k];
    }
  }

  lemma {:induction false} RunSpare(slots: seq<Slot>, ops: seq<Op>, m: nat) returns (after: seq<Slot>)
    requires AllSound(slots) && NamesDiffer(Live(slots)) && LiveTight(slots) && AlwaysAppends(Bytes(slots), ops)
    ensures AllSound(after) && Run(Bytes(slots), ops) == Bytes(after)
    ensures HasSpare(after, m) <==> HasSpare(slots, m) || LongerThan(RemovedNames(Live(slots), ops), m)
    decreases |ops|
  {
    hide Bytes, Live, Sound, Evolves, Proper, UsualDir, LongerThan, HasSpare;
    after := slots;
    if ops == [] {
      NoneLonger(m);
    } else {
      var mid := StepKeeps(slots, ops[0]);
      SpareStep(slots, ops[0], mid, m);
      after := RunSpare(mid, ops[1..], m);
      LongerSplit(Gone(Live(slots), ops[0]), RemovedNames(Live(mid), ops[1..]), m);
    }
  }

  lemma {:induction false} NoneLonger(m: nat)
    ensures !LongerThan([], m)
  {
  }

  /** After any run of appending creates and removals, a create appends if and only if no
      name more than 12 bytes longer has been removed. */
  lemma {:induction false} AppendsIffNoLongerNameRemoved(empty: seq<Byte>, ops: seq<Op>, name: Name, inum: Word)
    requires empty == NewDir() && AlwaysAppends(empty, ops)
    ensures Appends(Run(empty, ops), Make(name, inum)) <==> !LongerThan(RemovedNames([], ops), |name| + 12)
  {
    hide Bytes, Live, Sound, NewDir, LongerThan, ChainAt;
    var x := Beginning(empty);
    assert [x][0] == x;
    var after := RunSpare([x], ops, |name| + 12);
    WholeChain(after);
    SplitIffSpare(after, 0, |name|);
  }
}

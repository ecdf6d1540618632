/**
  Directories under use. Starting from an empty directory, creating and removing
  entries keeps the list of (name, inode) pairs exactly as an ordered dictionary
  would, as long as every create appends; and a create that splits an entry instead
  ruins the directory.
 */
module DirectoryRuns {
  import opened Common
  import opened DiskLayout
  import opened Directory
  import opened DirectorySlots

  // ----- the dictionary -----

  function Without(list: seq<Pair>, name: seq<Byte>): seq<Pair>
  {
    if list == [] then []
    else if list[0].name == name then list[1..]
    else [list[0]] + Without(list[1..], name)
  }

  datatype Op = Make(name: Name, inum: Word) | Remove(name: Name, isDir: bool)

  /** The intended effect. Inode number 0 (no inode left) leaves no visible entry. */
  function Meant(list: seq<Pair>, op: Op): seq<Pair>
  {
    match op
    case Make(name, inum) =>
      if Listed(list, name) || inum == 0 then list else list + [Pair(inum, name)]
    case Remove(name, isDir) => if isDir then list else Without(list, name)
  }

  ghost predicate NamesDiffer(list: seq<Pair>)
  {
    forall i, j | 0 <= i < j < |list| :: list[i].name != list[j].name
  }

  // ----- the client -----

  ghost function ReplyTo(content: seq<Byte>, op: Op): Reply
  {
    match op
    case Make(name, inum) => Creating(content, name, inum)
    case Remove(name, isDir) => Unlinking(content, name, isDir)
  }

  ghost function Next(content: seq<Byte>, op: Op): seq<Byte>
  {
    var r := ReplyTo(content, op);
    if r.Done? then r.content else content
  }

  /** The operation does not split an entry. */
  predicate Appends(content: seq<Byte>, op: Op)
  {
    op.Make? ==> !SpotFor(ChainAt(content, 0), |op.name|).Split?
  }

  // ----- one step -----

  lemma {:induction false} SpotSlots(slots: seq<Slot>, at: nat, n: nat)
    requires AllSound(slots) && !SpotFor(ChainOf(slots, at, Stop), n).Split?
    ensures SpotFor(ChainOf(slots, at, Stop), n) == Append
  {
    if slots != [] {
      SpotSlots(slots[1..], at + |slots[0].bytes|, n);
    }
  }

  lemma {:induction false} MakeStep(slots: seq<Slot>, name: Name, inum: Word)
    requires AllSound(slots) && Appends(Bytes(slots), Make(name, inum)) && !Listed(Live(slots), name)
    ensures Creating(Bytes(slots), name, inum) == Done(Bytes(slots + [Whole(inum, name)]))
  {
    var s, x := Bytes(slots), Whole(inum, name);
    WholeChain(slots);
    ReadSlots(slots, 0);
    SpotSlots(slots, 0, |name|);
    BytesSplit(slots, [x]);
    AppendBytes(s, x);
    WriteEnd(s, x.bytes);
  }

  lemma {:induction false} AppendBytes(s: seq<Byte>, x: Slot)
    ensures s + Bytes([x]) == s + x.bytes
  {
    assert Bytes([x]) == x.bytes + [];
  }

  lemma {:induction false} WriteEnd(s: seq<Byte>, data: seq<Byte>)
    ensures Write(s, |s|, data) == s + data
  {
    var r, t := Write(s, |s|, data), s + data;
    assert |r| == |t| && forall i | 0 <= i < |t| :: r[i] == t[i];
  }

  lemma {:induction false} FirstNamed(slots: seq<Slot>, name: seq<Byte>) returns (k: nat)
    requires Listed(Live(slots), name)
    ensures k < |slots| && Names(slots[k].e, name) && forall j | 0 <= j < k :: !Names(slots[j].e, name)
  {
    var x, rest := slots[0], slots[1..];
    if Names(x.e, name) {
      k := 0;
    } else {
      OneMore(Shown(x.e), Live(rest), name);
      var j := FirstNamed(rest, name);
      k := j + 1;
      assert forall i | 1 <= i < k :: slots[i] == rest[i - 1];
    }
  }

  lemma {:induction false} SizeCons(slots: seq<Slot>, k: nat)
    requires 0 < k <= |slots|
    ensures |Bytes(slots[..k])| == |slots[0].bytes| + |Bytes(slots[1..][..k - 1])|
  {
    assert slots[..k][0] == slots[0] && slots[..k][1..] == slots[1..][..k - 1];
  }

  lemma {:induction false} FindAt(slots: seq<Slot>, at: nat, name: seq<Byte>, k: nat)
    requires k < |slots| && Names(slots[k].e, name) && forall j | 0 <= j < k :: !Names(slots[j].e, name)
    ensures Find(ChainOf(slots, at, Stop), name) == At(at + |Bytes(slots[..k])|, slots[k].e.inum, slots[k].e.len)
  {
    hide Bytes;
    if k == 0 {
      NoBytes(slots[..k]);
    } else {
      FindAt(slots[1..], at + |slots[0].bytes|, name, k - 1);
      SizeCons(slots, k);
    }
  }

  lemma {:induction false} NoBytes(slots: seq<Slot>)
    requires slots == []
    ensures Bytes(slots) == []
  {
  }

  /** The slot that unlink stops at. */
  lemma {:induction false} FindSlot(slots: seq<Slot>, at: nat, name: seq<Byte>) returns (k: nat)
    requires Listed(Live(slots), name)
    ensures k < |slots| && Names(slots[k].e, name) && forall j | 0 <= j < k :: !Names(slots[j].e, name)
    ensures Find(ChainOf(slots, at, Stop), name) == At(at + |Bytes(slots[..k])|, slots[k].e.inum, slots[k].e.len)
  {
    k := FirstNamed(slots, name);
    FindAt(slots, at, name, k);
  }

  lemma {:induction false} NoneNamed(slots: seq<Slot>, name: seq<Byte>)
    requires forall j | 0 <= j < |slots| :: !Names(slots[j].e, name)
    ensures !Listed(Live(slots), name)
  {
    if slots != [] {
      NoneNamed(slots[1..], name);
      OneMore(Shown(slots[0].e), Live(slots[1..]), name);
    }
  }

  lemma {:induction false} BlankBytes(slots: seq<Slot>, k: nat, y: Slot, tomb: seq<Byte>)
    requires k < |slots| && |tomb| <= |slots[k].bytes| && y.bytes == tomb + slots[k].bytes[|tomb|..]
    ensures Write(Bytes(slots), |Bytes(slots[..k])|, tomb) == Bytes(slots[k := y])
  {
    var after := slots[k := y];
    BytesAround(slots, k);
    BytesAround(after, k);
    assert after[..k] == slots[..k] && after[k + 1..] == slots[k + 1..];
    WriteMid(Bytes(slots[..k]), slots[k].bytes, Bytes(slots[k + 1..]), tomb);
  }

  lemma {:induction false} UnlinkAt(s: seq<Byte>, name: Name, c: Chain, off: nat, i: Word, l: Word)
    requires c == ChainAt(s, 0) && ReadAll(c).Some? && Listed(ReadAll(c).value, name)
    requires Find(c, name) == At(off, i, l)
    ensures Unlinking(s, name, false) == Done(Write(s, off, FillDir(0, [], l, 0)))
  {
  }

  lemma {:induction false} RemoveStep(slots: seq<Slot>, name: Name, k: nat)
    requires AllSound(slots) && k < |slots| && Listed(Live(slots), name)
    requires Find(ChainOf(slots, 0, Stop), name) == At(|Bytes(slots[..k])|, slots[k].e.inum, slots[k].e.len)
    ensures Unlinking(Bytes(slots), name, false) == Done(Bytes(slots[k := Blanked(slots[k])]))
  {
    var x := slots[k];
    WholeChain(slots);
    ReadSlots(slots, 0);
    UnlinkAt(Bytes(slots), name, ChainOf(slots, 0, Stop), |Bytes(slots[..k])|, x.e.inum, x.e.len);
    BlankBytes(slots, k, Blanked(x), FillDir(0, [], x.e.len, 0));
  }

  // ----- the list -----

  lemma {:induction false} WithoutSplit(a: seq<Pair>, b: seq<Pair>, name: seq<Byte>)
    requires !Listed(a, name)
    ensures Without(a + b, name) == a + Without(b, name)
  {
    if a == [] {
      assert a + b == b;
    } else {
      assert a[0].name != name && forall k | 0 <= k < |a[1..]| :: a[1..][k] == a[k + 1];
      WithoutSplit(a[1..], b, name);
      assert (a + b)[1..] == a[1..] + b;
      assert [a[0]] + (a[1..] + Without(b, name)) == a + Without(b, name);
    }
  }

  lemma {:induction false} WithoutUnlisted(list: seq<Pair>, name: seq<Byte>)
    requires !Listed(list, name)
    ensures Without(list, name) == list
  {
    WithoutSplit(list, [], name);
    assert list + [] == list;
  }

  lemma {:induction false} WithoutMid(a: seq<Pair>, p: Pair, b: seq<Pair>)
    requires !Listed(a, p.name)
    ensures Without(a + [p] + b, p.name) == a + b
  {
    Assoc(a, [p], b);
    WithoutSplit(a, [p] + b, p.name);
    assert ([p] + b)[1..] == b;
  }

  /** Blanking the first live slot with a name removes that pair and no other. */
  lemma {:induction false} BlankLive(slots: seq<Slot>, k: nat, y: Slot, p: Pair)
    requires k < |slots| && Shown(slots[k].e) == [p] && Shown(y.e) == [] && !Listed(Live(slots[..k]), p.name)
    ensures Live(slots[k := y]) == Without(Live(slots), p.name)
  {
    var after := slots[k := y];
    var a, b := Live(slots[..k]), Live(slots[k + 1..]);
    LiveAround(slots, k);
    LiveAround(after, k);
    assert after[..k] == slots[..k] && after[k + 1..] == slots[k + 1..];
    WithoutMid(a, p, b);
    assert a + [] == a;
  }

  lemma {:induction false} DiffersCons(p: Pair, t: seq<Pair>)
    ensures NamesDiffer([p] + t) <==> NamesDiffer(t) && !Listed(t, p.name)
  {
    var list := [p] + t;
    if NamesDiffer(list) {
      forall i, j | 0 <= i < j < |t| ensures t[i].name != t[j].name {
        assert t[i] == list[i + 1] && t[j] == list[j + 1];
      }
      forall i | 0 <= i < |t| ensures t[i].name != p.name {
        assert t[i] == list[i + 1] && p == list[0];
      }
    } else {
      var i, j :| 0 <= i < j < |list| && list[i].name == list[j].name;
      assert list[j] == t[j - 1];
      assert i > 0 ==> list[i] == t[i - 1];
    }
  }

  lemma {:induction false} DiffersSnoc(list: seq<Pair>, p: Pair)
    requires NamesDiffer(list) && !Listed(list, p.name)
    ensures NamesDiffer(list + [p])
  {
  }

  lemma {:induction false} WithoutListed(list: seq<Pair>, name: seq<Byte>, other: seq<Byte>)
    requires NamesDiffer(list)
    ensures Listed(Without(list, name), other) <==> other != name && Listed(list, other)
  {
    if list != [] {
      var p, t := list[0], list[1..];
      assert list == [p] + t;
      DiffersCons(p, t);
      OneMore([p], t, other);
      if p.name != name {
        WithoutListed(t, name, other);
        OneMore([p], Without(t, name), other);
      }
    }
  }

  lemma {:induction false} WithoutDiffers(list: seq<Pair>, name: seq<Byte>)
    requires NamesDiffer(list)
    ensures NamesDiffer(Without(list, name))
  {
    if list != [] {
      var p, t := list[0], list[1..];
      assert list == [p] + t;
      DiffersCons(p, t);
      if p.name != name {
        WithoutDiffers(t, name);
        WithoutListed(t, name, p.name);
        DiffersCons(p, Without(t, name));
      }
    }
  }

  // ----- the shape of a slot -----

  /** A C string: no zero byte. */
  predicate CString(s: seq<Byte>)
  {
    forall k | 0 <= k < |s| :: s[k] != 0
  }

  /** An entry as create appends it: no longer than it needs to be. */
  ghost predicate Tight(x: Slot)
  {
    x.e.Item? && |x.bytes| == |x.e.name| + 12 && CString(x.e.name)
  }

  /** An entry as unlink leaves it: nameless, followed by the end of the old name and
      the old length. */
  ghost predicate Slack(x: Slot)
  {
    && x.e.Item? && x.e.inum == 0 && x.e.name == [] && |x.bytes| >= 12
    && (forall j | 12 <= j < |x.bytes| - 4 :: x.bytes[j] != 0)
    && (|x.bytes| >= 16 ==> WordAt(x.bytes, |x.bytes| - 4) == |x.bytes|)
    && (|x.bytes| < 16 ==> forall j | 12 <= j < |x.bytes| :: x.bytes[j] == 0)
  }

  /** The empty entry first, and only entries as create and unlink leave them. */
  ghost predicate Proper(slots: seq<Slot>)
  {
    && slots != [] && |slots[0].bytes| == 12
    && forall k | 0 <= k < |slots| :: Tight(slots[k]) || Slack(slots[k])
  }

  /** An inode number of the store, and a name the kernel passes on. */
  predicate Usual(p: Pair)
  {
    1 <= p.inum < INODE_NUM && 1 <= |p.name| <= 255 && CString(p.name)
  }

  predicate UsualOp(op: Op)
  {
    CString(op.name) && 1 <= |op.name| <= 255 && (op.Make? ==> 1 <= op.inum < INODE_NUM)
  }

  ghost predicate UsualSlot(x: Slot)
  {
    x.e.Item? && ((Tight(x) && Usual(Pair(x.e.inum, x.e.name))) || (Slack(x) && 13 <= |x.bytes| <= 267))
  }

  /** Behind the empty entry, only entries as usual operations leave them. */
  ghost predicate UsualDir(slots: seq<Slot>)
  {
    && Proper(slots) && slots[0].e == Item(0, [], 12)
    && forall k | 1 <= k < |slots| :: UsualSlot(slots[k])
  }

  /** One live entry with this name has been blanked. */
  ghost predicate OneBlanked(slots: seq<Slot>, name: Name, after: seq<Slot>)
  {
    |after| == |slots| &&
    exists k :: 0 <= k < |slots| && Names(slots[k].e, name) &&
                Hollow(slots[k], after[k]) && after == slots[k := after[k]]
  }

  /** What an operation does to the entries: nothing, one more at the end, or one blanked. */
  ghost predicate Evolves(slots: seq<Slot>, op: Op, after: seq<Slot>)
  {
    if op.Make? then
      after == slots ||
      (|after| == |slots| + 1 && after[..|slots|] == slots &&
       after[|slots|].e == Item(op.inum, op.name, |op.name| + 12))
    else if op.isDir || !Listed(Live(slots), op.name) then after == slots
    else OneBlanked(slots, op.name, after)
  }

  /** The first entry is still there and as long as before. */
  predicate SameFirst(slots: seq<Slot>, after: seq<Slot>)
  {
    slots != [] ==> after != [] && |after[0].bytes| == |slots[0].bytes|
  }

  /** y is x with its first 12 bytes blanked. */
  ghost predicate Hollow(x: Slot, y: Slot)
  {
    && x.e.Item? && y.e == Item(0, [], x.e.len) && |y.bytes| == |x.bytes|
    && forall j | 12 <= j < |x.bytes| :: y.bytes[j] == x.bytes[j]
  }

  lemma {:induction false} BlankedHollow(x: Slot)
    requires Sound(x)
    ensures Sound(Blanked(x)) && Hollow(x, Blanked(x))
  {
    BlankedSound(x);
    var tomb := FillDir(0, [], x.e.len, 0);
    Overlay(tomb, x.bytes);
  }

  lemma {:induction false} Overlay(a: seq<Byte>, b: seq<Byte>)
    requires |a| <= |b|
    ensures |a + b[|a|..]| == |b| && forall j | |a| <= j < |b| :: (a + b[|a|..])[j] == b[j]
  {
  }

  lemma {:induction false} NameByte(x: Slot, k: nat)
    requires Sound(x) && k < |x.e.name|
    ensures x.bytes[8 + k] == x.e.name[k]
  {
    Fields(x);
    assert x.bytes[8..8 + |x.e.name|][k] == x.bytes[8 + k];
  }

  /** The words of a sound slot. */
  lemma {:induction false} Fields(x: Slot)
    requires Sound(x)
    ensures WordAt(x.bytes, 0) == x.e.inum && WordAt(x.bytes, 4) == |x.e.name|
    ensures x.bytes[8..8 + |x.e.name|] == x.e.name
    ensures WordAt(x.bytes, 8 + |x.e.name|) == x.e.len
  {
    assert ReadsBack(x, x.bytes, 0);
    assert Occurs(x.bytes, 0, x.bytes);
  }

  lemma {:induction false} SmallWord(s: seq<Byte>, k: nat)
    requires k + 4 <= |s| && WordAt(s, k) < 0x1_0000
    ensures s[k + 2] == 0 && s[k + 3] == 0 && WordAt(s, k) == (s[k] as int) + 0x100 * (s[k + 1] as int)
  {
  }

  lemma {:induction false} SmallerWord(s: seq<Byte>, k: nat)
    requires k + 4 <= |s| && WordAt(s, k) < 0x100
    ensures s[k] == WordAt(s, k) && s[k + 1] == 0 && s[k + 2] == 0 && s[k + 3] == 0
  {
  }

  lemma {:induction false} HollowWord(x: Slot, y: Slot, k: nat)
    requires Hollow(x, y) && 12 <= k && k + 4 <= |x.bytes|
    ensures WordAt(y.bytes, k) == WordAt(x.bytes, k)
  {
  }

  lemma {:induction false} HollowSlack(x: Slot, y: Slot, name: Name)
    requires Tight(x) || Slack(x)
    requires Sound(x) && Names(x.e, name) && Hollow(x, y)
    ensures Slack(y)
  {
    var n, l := |name|, |x.bytes|;
    Fields(x);
    forall j | 12 <= j < l - 4 ensures y.bytes[j] != 0 {
      NameByte(x, j - 8);
    }
    if l >= 16 {
      HollowWord(x, y, l - 4);
    } else {
      SmallWord(x.bytes, 8 + n);
    }
  }

  // ----- every run -----

  ghost function Run(content: seq<Byte>, ops: seq<Op>): seq<Byte>
    decreases |ops|
  {
    if ops == [] then content else Run(Next(content, ops[0]), ops[1..])
  }

  ghost predicate AlwaysAppends(content: seq<Byte>, ops: seq<Op>)
    decreases |ops|
  {
    ops != [] ==> Appends(content, ops[0]) && AlwaysAppends(Next(content, ops[0]), ops[1..])
  }

  function MeantAll(list: seq<Pair>, ops: seq<Op>): seq<Pair>
    decreases |ops|
  {
    if ops == [] then list else MeantAll(Meant(list, ops[0]), ops[1..])
  }

  /** Entries laid end to end, each long enough for its header and name. */
  predicate Tiled(c: Chain)
  {
    match c
    case Stop => true
    case Fail => false
    case Link(_, e, rest) => e.Item? && |e.name| + 12 <= e.len && Tiled(rest)
  }

  lemma {:induction false} TiledSlots(slots: seq<Slot>, at: nat, tail: Chain)
    requires AllSound(slots)
    ensures Tiled(ChainOf(slots, at, tail)) <==> Tiled(tail)
  {
    if slots != [] {
      TiledSlots(slots[1..], at + |slots[0].bytes|, tail);
    }
  }

  lemma {:induction false} MakeKeeps(slots: seq<Slot>, name: Name, inum: Word, x: Slot)
    requires !Listed(Live(slots), name) && NamesDiffer(Live(slots)) && x.e == Item(inum, name, |name| + 12)
    ensures Live(slots + [x]) == Meant(Live(slots), Make(name, inum)) && NamesDiffer(Live(slots + [x]))
  {
    LiveSplit(slots, [x]);
    assert Live([x]) == Shown(x.e) + [] == Shown(x.e);
    DiffersSnoc(Live(slots), Pair(inum, name));
    assert Live(slots) + [] == Live(slots);
  }

  lemma {:induction false} BlankStep(slots: seq<Slot>, name: Name) returns (k: nat, y: Slot)
    requires AllSound(slots) && Listed(Live(slots), name)
    ensures k < |slots| && Names(slots[k].e, name) && !Listed(Live(slots[..k]), name)
    ensures Sound(y) && Shown(y.e) == [] && Hollow(slots[k], y)
    ensures Unlinking(Bytes(slots), name, false) == Done(Bytes(slots[k := y]))
  {
    k := FindSlot(slots, 0, name);
    NoneNamed(slots[..k], name);
    RemoveStep(slots, name, k);
    y := Blanked(slots[k]);
    BlankedHollow(slots[k]);
  }

  lemma {:induction false} RemoveKeeps(slots: seq<Slot>, name: Name) returns (after: seq<Slot>)
    requires AllSound(slots) && Listed(Live(slots), name)
    ensures AllSound(after) && Unlinking(Bytes(slots), name, false) == Done(Bytes(after))
    ensures Live(after) == Without(Live(slots), name)
    ensures Proper(slots) ==> Proper(after)
    ensures UsualDir(slots) ==> UsualDir(after)
    ensures after != [] && |after[0].bytes| == |slots[0].bytes| && OneBlanked(slots, name, after)
  {
    hide Bytes, Unlinking, Live, Without;
    var k, y := BlankStep(slots, name);
    BlankLive(slots, k, y, Pair(slots[k].e.inum, name));
    after := slots[k := y];
    if Proper(slots) { HollowSlack(slots[k], y, name); }
  }

  lemma {:induction false} AppendStep(slots: seq<Slot>, name: Name, inum: Word) returns (x: Slot)
    requires AllSound(slots) && Appends(Bytes(slots), Make(name, inum)) && !Listed(Live(slots), name)
    ensures Sound(x) && x.e == Item(inum, name, |name| + 12) && |x.bytes| == |name| + 12
    ensures Creating(Bytes(slots), name, inum) == Done(Bytes(slots + [x]))
  {
    x := Whole(inum, name);
    MakeStep(slots, name, inum);
    WholeSound(inum, name);
  }

  lemma {:induction false} AfterMake(slots: seq<Slot>, op: Op) returns (after: seq<Slot>)
    requires AllSound(slots) && NamesDiffer(Live(slots)) && Appends(Bytes(slots), op) && op.Make?
    requires Listing(Bytes(slots)) == Some(Live(slots))
    ensures AllSound(after) && Next(Bytes(slots), op) == Bytes(after) && !ReplyTo(Bytes(slots), op).Failed?
    ensures Live(after) == Meant(Live(slots), op) && NamesDiffer(Live(after))
    ensures Proper(slots) && CString(op.name) ==> Proper(after)
    ensures UsualDir(slots) && UsualOp(op) ==> UsualDir(after)
    ensures SameFirst(slots, after) && Evolves(slots, op, after)
  {
    hide Bytes, Live, Listing;
    after := slots;
    if !Listed(Live(slots), op.name) {
      var x := AppendStep(slots, op.name, op.inum);
      MakeKeeps(slots, op.name, op.inum, x);
      after := slots + [x];
    }
  }

  lemma {:induction false} AfterRemove(slots: seq<Slot>, op: Op) returns (after: seq<Slot>)
    requires AllSound(slots) && NamesDiffer(Live(slots)) && Appends(Bytes(slots), op) && op.Remove?
    requires Listing(Bytes(slots)) == Some(Live(slots))
    ensures AllSound(after) && Next(Bytes(slots), op) == Bytes(after) && !ReplyTo(Bytes(slots), op).Failed?
    ensures Live(after) == Meant(Live(slots), op) && NamesDiffer(Live(after))
    ensures Proper(slots) && CString(op.name) ==> Proper(after)
    ensures UsualDir(slots) && UsualOp(op) ==> UsualDir(after)
    ensures SameFirst(slots, after) && Evolves(slots, op, after)
  {
    hide Bytes, Live, Without, Listing, Removed;
    after := slots;
    WithoutDiffers(Live(slots), op.name);
    if !Listed(Live(slots), op.name) {
      WithoutUnlisted(Live(slots), op.name);
    } else if !op.isDir {
      after := RemoveKeeps(slots, op.name);
    }
  }

  lemma {:induction false} ReadsLive(slots: seq<Slot>)
    requires AllSound(slots)
    ensures Listing(Bytes(slots)) == Some(Live(slots))
  {
    WholeChain(slots);
    ReadSlots(slots, 0);
  }

  lemma {:induction false} StepKeeps(slots: seq<Slot>, op: Op) returns (after: seq<Slot>)
    requires AllSound(slots) && NamesDiffer(Live(slots)) && Appends(Bytes(slots), op)
    ensures AllSound(after) && Next(Bytes(slots), op) == Bytes(after) && !ReplyTo(Bytes(slots), op).Failed?
    ensures Live(after) == Meant(Live(slots), op) && NamesDiffer(Live(after))
    ensures Proper(slots) && CString(op.name) ==> Proper(after)
    ensures UsualDir(slots) && UsualOp(op) ==> UsualDir(after)
    ensures SameFirst(slots, after) && Evolves(slots, op, after)
  {
    ReadsLive(slots);
    if op.Make? {
      after := AfterMake(slots, op);
    } else {
      after := AfterRemove(slots, op);
    }
  }

  lemma {:induction false} RunKeeps(slots: seq<Slot>, ops: seq<Op>) returns (after: seq<Slot>)
    requires AllSound(slots) && NamesDiffer(Live(slots)) && AlwaysAppends(Bytes(slots), ops)
    ensures AllSound(after) && Run(Bytes(slots), ops) == Bytes(after)
    ensures Live(after) == MeantAll(Live(slots), ops) && NamesDiffer(Live(after))
    ensures Proper(slots) && (forall k | 0 <= k < |ops| :: CString(ops[k].name)) ==> Proper(after)
    ensures UsualDir(slots) && (forall k | 0 <= k < |ops| :: UsualOp(ops[k])) ==> UsualDir(after)
    ensures SameFirst(slots, after)
    decreases |ops|
  {
    after := slots;
    if ops != [] {
      var mid := StepKeeps(slots, ops[0]);
      after := RunKeeps(mid, ops[1..]);
    }
  }

  lemma {:induction false} SingleSlot(x: Slot)
    requires Sound(x) && x.e.name == [] && x.e.inum == 0 && x.e.len == 12
    ensures AllSound([x]) && Bytes([x]) == x.bytes && Live([x]) == [] && Proper([x])
  {
    assert [x][1..] == [];
    assert Bytes([x]) == x.bytes + [] && Live([x]) == Shown(x.e) + [];
  }

  lemma {:induction false} NewDirFilled(i: Word, n: Name, l: Word)
    requires i == 0 && n == [] && l == 12
    ensures NewDir() == FillDir(i, n, l, i)
  {
  }

  lemma {:induction false} EmptySlot(empty: seq<Byte>, i: Word, n: Name, l: Word) returns (x: Slot)
    requires i == 0 && n == [] && l == 12 && empty == FillDir(i, n, l, 0)
    ensures Sound(x) && x.e == Item(i, n, l) && x.bytes == empty
  {
    x := Slot(Item(i, n, l), empty);
    FillSound(i, n, l, n);
    assert empty + n == empty;
  }

  lemma {:induction false} Beginning(empty: seq<Byte>) returns (x: Slot)
    requires empty == NewDir()
    ensures AllSound([x]) && Bytes([x]) == empty && Live([x]) == [] && Proper([x]) && x.e == Item(0, [], 12)
  {
    NewDirFilled(0, [], 12);
    x := EmptySlot(empty, 0, [], 12);
    SingleSlot(x);
  }

  /** From an empty directory, every run of creates that append and of removals reads
      back as the dictionary it was meant to be, tiles its bytes and repeats no name. */
  lemma {:induction false} RunsAreDictionaries(empty: seq<Byte>, ops: seq<Op>)
    requires empty == NewDir() && AlwaysAppends(empty, ops)
    ensures var content, list := Run(empty, ops), MeantAll([], ops);
            Listing(content) == Some(list) && NamesDiffer(list) && Tiled(ChainAt(content, 0))
  {
    var x := Beginning(empty);
    var after := RunKeeps([x], ops);
    WholeChain(after);
    ReadSlots(after, 0);
    TiledSlots(after, 0, Stop);
  }

  // ----- replies -----

  lemma {:induction false} SpotBehindFirst(slots: seq<Slot>, at: nat, n: nat)
    requires AllSound(slots)
    ensures var spot := SpotFor(ChainOf(slots, at, Stop), n);
            !spot.Broken? && (spot.Split? ==> spot.at >= at)
  {
    if slots != [] { SpotBehindFirst(slots[1..], at + |slots[0].bytes|, n); }
  }

  /** The entry in front is too short to be split, so a create always has a place. */
  lemma {:induction false} SpotIsFine(slots: seq<Slot>, n: nat)
    requires AllSound(slots) && slots != [] && |slots[0].bytes| == 12
    ensures var spot := SpotFor(ChainAt(Bytes(slots), 0), n); !spot.Broken? && (spot.Split? ==> spot.at >= 4)
  {
    WholeChain(slots);
    SpotBehindFirst(slots[1..], |slots[0].bytes|, n);
  }

  /** What the client is told, said of the dictionary. */
  predicate RightReply(list: seq<Pair>, op: Op, r: Reply)
  {
    match op
    case Make(name, _) => if Listed(list, name) then r == Exists else r.Done?
    case Remove(name, isDir) =>
      if !Listed(list, name) then r == NoEntry else if isDir then r == NotEmpty else r.Done?
  }

  lemma {:induction false} ReplyIsRight(slots: seq<Slot>, op: Op)
    requires AllSound(slots) && slots != [] && |slots[0].bytes| == 12
    ensures RightReply(Live(slots), op, ReplyTo(Bytes(slots), op))
  {
    hide ChainAt, Bytes, Live, Write, Removed;
    ReadsLive(slots);
    SpotIsFine(slots, |op.name|);
  }

  /** After every run of appending creates and removals, create answers EXIST if and only
      if the name is in the dictionary; unlink answers NOENT if and only if it is not,
      ENOTEMPTY if and only if it is and names a directory; all else succeeds. */
  lemma {:induction false} RepliesAreRight(empty: seq<Byte>, ops: seq<Op>, op: Op)
    requires empty == NewDir() && AlwaysAppends(empty, ops)
    ensures RightReply(MeantAll([], ops), op, ReplyTo(Run(empty, ops), op))
  {
    hide ChainAt, Bytes, NewDir, Live, Sound;
    var x := Beginning(empty);
    var slots := RunKeeps([x], ops);
    ReplyIsRight(slots, op);
  }
}

/**
  Creating a name by splitting an entry. The client looks for an entry with room
  behind its name and writes the new entry four bytes before that entry instead of
  behind its name. A create that appends keeps the format; one that splits keeps it
  only when a 13-byte blank stands before the split entry and the scan happens to go
  on well from 3085 bytes behind the start of that blank.
 */
module DirectorySplit {
  import opened Common
  import opened DiskLayout
  import opened Directory
  import opened DirectorySlots
  import opened DirectoryRuns

  // ----- the bytes written -----

  lemma {:induction false} WriteAt(s: seq<Byte>, off: nat, data: seq<Byte>)
    requires off + |data| <= |s|
    ensures var r := Write(s, off, data);
            && |r| == |s| && Occurs(r, off, data)
            && forall j | 0 <= j < |s| && !(off <= j < off + |data|) :: r[j] == s[j]
  {
  }

  lemma {:induction false} SlotOccurs(slots: seq<Slot>, k: nat)
    requires k < |slots|
    ensures Occurs(Bytes(slots), 0, Bytes(slots[..k]))
    ensures Occurs(Bytes(slots), |Bytes(slots[..k])|, slots[k].bytes)
  {
    var s, a, b := Bytes(slots), Bytes(slots[..k]), slots[k].bytes;
    var c := Bytes(slots[k + 1..]);
    BytesAround(slots, k);
    assert Occurs(s, 0, s);
    OccursSplit(s, 0, a + b, c);
    OccursSplit(s, 0, a, b);
  }

  // ----- what the parser makes of them -----

  lemma {:induction false} SameWord(c: seq<Byte>, q: nat, b: seq<Byte>, j: nat)
    requires q + j + 4 <= |c| && j + 4 <= |b| && forall i | j <= i < j + 4 :: c[q + i] == b[i]
    ensures WordAt(c, q + j) == WordAt(b, j)
  {
    assert c[q + j] == b[j] && c[q + (j + 1)] == b[j + 1] && c[q + (j + 2)] == b[j + 2] && c[q + (j + 3)] == b[j + 3];
  }

  /** The entry before, as create left it: its length field becomes 12. */
  lemma {:induction false} TightBefore(c: seq<Byte>, q: nat, x: Slot, w: seq<Byte>)
    requires Sound(x) && Tight(x) && q + |x.bytes| <= |c| && |w| == 4
    requires forall j | 0 <= j < |x.bytes| - 4 :: c[q + j] == x.bytes[j]
    requires Occurs(c, q + |x.bytes| - 4, w)
    ensures Parse(c, q) == Item(x.e.inum, x.e.name, WordAt(w, 0))
  {
    var n := |x.e.name|;
    Fields(x);
    SameWord(c, q, x.bytes, 0);
    SameWord(c, q, x.bytes, 4);
    WordOccurs(c, q + 8 + n, w);
    assert c[q + 8..q + 8 + n] == x.e.name by {
      forall j | 0 <= j < n ensures c[q + 8..q + 8 + n][j] == x.e.name[j] {
        assert c[q + (8 + j)] == x.bytes[8 + j] == x.bytes[8..8 + n][j];
      }
    }
  }

  /** The entry before, blanked and at least 16 bytes long: unharmed. */
  lemma {:induction false} SlackBefore(c: seq<Byte>, q: nat, x: Slot)
    requires Sound(x) && x.e.name == [] && q + 12 <= |c|
    requires forall j | 0 <= j < 12 :: c[q + j] == x.bytes[j]
    ensures Parse(c, q) == x.e
  {
    Fields(x);
    SameWord(c, q, x.bytes, 0);
    SameWord(c, q, x.bytes, 4);
    SameWord(c, q, x.bytes, 8);
    assert c[q + 8..q + 8] == [];
  }

  /** The entry before, blanked and 14 or 15 bytes long: its length field, of which the
      upper bytes are overwritten, becomes larger than any file. */
  lemma {:induction false} ShortBefore(c: seq<Byte>, q: nat, x: Slot, w: seq<Byte>)
    requires Sound(x) && x.e.name == [] && 14 <= |x.bytes| <= 15 && q + |x.bytes| <= |c| && |w| == 4 && w[0] == 12
    requires forall j | 0 <= j < |x.bytes| - 4 :: c[q + j] == x.bytes[j]
    requires Occurs(c, q + |x.bytes| - 4, w)
    ensures var e := Parse(c, q); e.Item? && e.len >= 0xC_0000
  {
    Fields(x);
    SameWord(c, q, x.bytes, 4);
    Nameless(c, q);
    assert c[q + |x.bytes| - 4 + 0] == w[0];
    LargeWord(c, q + 8);
  }

  /** The length that a 13-byte blank before the split entry is left with: its lowest
      byte, 13, and the lowest byte of the length written over the others, 12. */
  const SKIP := 3085

  /** The entry before, blanked and 13 bytes long. */
  lemma {:induction false} GapBefore(c: seq<Byte>, q: nat, x: Slot, w: seq<Byte>)
    requires Sound(x) && x.e == Item(0, [], 13) && q + 13 <= |c| && |w| == 4 && w[0] == 12 && WordAt(w, 0) == 12
    requires forall j | 0 <= j < 9 :: c[q + j] == x.bytes[j]
    requires Occurs(c, q + 9, w)
    ensures Parse(c, q) == Item(0, [], SKIP)
  {
    hide WordAt, Parse;
    Fields(x);
    SameWord(c, q, x.bytes, 0);
    SameWord(c, q, x.bytes, 4);
    Nameless(c, q);
    SmallerWord(x.bytes, 8);
    SmallerWord(w, 0);
    assert c[q + 9 + 0] == w[0] && c[q + 9 + 1] == w[1] && c[q + 9 + 2] == w[2];
    GapWord(c, q + 8);
  }

  lemma {:induction false} GapWord(c: seq<Byte>, k: nat)
    requires k + 4 <= |c| && c[k] == 13 && c[k + 1] == 12 && c[k + 2] == 0 && c[k + 3] == 0
    ensures WordAt(c, k) == SKIP
  {
  }

  lemma {:induction false} Nameless(c: seq<Byte>, q: nat)
    requires q + 12 <= |c| && WordAt(c, q + 4) == 0
    ensures Parse(c, q) == Item(WordAt(c, q), [], WordAt(c, q + 8))
  {
  }

  lemma {:induction false} LargeWord(c: seq<Byte>, r: nat)
    requires r + 4 <= |c| && (c[r + 2] == 12 || c[r + 3] == 12)
    ensures WordAt(c, r) >= 0xC_0000
  {
  }

  /** The end of an old name is no entry. */
  lemma {:induction false} GarbageBehind(c: seq<Byte>, r: nat)
    requires r + 12 <= |c| < 0x100_0000 && c[r + 7] != 0
    ensures Parse(c, r) == Bad
  {
    assert WordAt(c, r + 4) >= 0x100_0000;
  }

  // ----- one scan step -----

  lemma {:induction false} StepOver(c: seq<Byte>, q: nat, e: Parsed)
    requires q <= |c| && Parse(c, q) == e && Steps(e, |c| - q) && |e.name| + 12 <= e.len
    ensures Tiled(ChainAt(c, q)) <==> Tiled(ChainAt(c, q + e.len))
    ensures ReadAll(ChainAt(c, q)).None? <==> ReadAll(ChainAt(c, q + e.len)).None?
  {
  }

  lemma {:induction false} StepFails(c: seq<Byte>, q: nat, e: Parsed)
    requires q <= |c| && Parse(c, q) == e && !e.End? && !Steps(e, |c| - q)
    ensures !Tiled(ChainAt(c, q)) && ReadAll(ChainAt(c, q)).None?
  {
  }

  lemma {:induction false} StepOverlaps(c: seq<Byte>, q: nat, e: Parsed)
    requires q <= |c| && Parse(c, q) == e && e.Item? && e.len < |e.name| + 12
    ensures !Tiled(ChainAt(c, q))
  {
  }

  lemma {:induction false} ReadTail(slots: seq<Slot>, at: nat, tail: Chain)
    ensures ReadAll(ChainOf(slots, at, tail)).None? <==> ReadAll(tail).None?
  {
    if slots != [] {
      ReadTail(slots[1..], at + |slots[0].bytes|, tail);
    }
  }

  lemma {:induction false} SlotsBefore(c: seq<Byte>, slots: seq<Slot>)
    requires AllSound(slots) && Occurs(c, 0, Bytes(slots))
    ensures Tiled(ChainAt(c, 0)) <==> Tiled(ChainAt(c, |Bytes(slots)|))
    ensures ReadAll(ChainAt(c, 0)).None? <==> ReadAll(ChainAt(c, |Bytes(slots)|)).None?
  {
    var tail := ChainAt(c, |Bytes(slots)|);
    SlotChain(c, slots, 0);
    TiledSlots(slots, 0, tail);
    ReadTail(slots, 0, tail);
  }

  // ----- the split -----

  /** c is s with `w` and then `f` written from p - 4 on. */
  ghost predicate Patched(s: seq<Byte>, c: seq<Byte>, p: nat, w: seq<Byte>, f: seq<Byte>)
  {
    && |w| == 4 <= p && p + |f| <= |s| == |c| && Occurs(c, p - 4, w) && Occurs(c, p, f)
    && forall j | 0 <= j < |s| && !(p - 4 <= j < p + |f|) :: c[j] == s[j]
  }

  ghost predicate AlwaysReads(n: Slot)
  {
    forall s, p: nat :: ReadsBack(n, s, p)
  }

  /** The entry n that replaces the front of slot t claims all of t but 12 bytes. */
  ghost predicate Takes(n: Slot, t: Slot)
  {
    && AlwaysReads(n) && n.e.Item? && |n.bytes| == |n.e.name| + 12
    && n.e.len == |t.bytes| - 12 && |n.e.name| + 24 < |t.bytes|
  }

  /** From the split entry on, nothing can be read. */
  lemma {:induction false} SplitEntry(s: seq<Byte>, c: seq<Byte>, p: nat, w: seq<Byte>, n: Slot, t: Slot)
    requires |s| < 0x100_0000 && Slack(t) && Occurs(s, p, t.bytes) && Takes(n, t) && Patched(s, c, p, w, n.bytes)
    ensures !Tiled(ChainAt(c, p)) && ReadAll(ChainAt(c, p)).None?
  {
    var len := n.e.len;
    assert ReadsBack(n, c, p);
    assert c[p + len + 7] == s[p + (len + 7)] == t.bytes[len + 7];
    GarbageBehind(c, p + len);
    StepFails(c, p + len, Bad);
    StepOver(c, p, n.e);
  }

  /** The scan from the entry before on. */
  ghost predicate BrokenFrom(c: seq<Byte>, q: nat, x: Slot)
    requires q <= |c| && x.e.Item?
  {
    if x.e == Item(0, [], 13) then Parse(c, q) == Item(0, [], SKIP)
    else !Tiled(ChainAt(c, q)) && (x.e.name == [] ==> ReadAll(ChainAt(c, q)).None?)
  }

  lemma {:induction false} EntryBefore(s: seq<Byte>, c: seq<Byte>, q: nat, x: Slot, w: seq<Byte>, f: seq<Byte>)
    requires |s| < 0xC_0000 && Sound(x) && (Tight(x) || Slack(x)) && Occurs(s, q, x.bytes)
    requires Patched(s, c, q + |x.bytes|, w, f) && w[0] == 12 && WordAt(w, 0) == 12
    requires !Tiled(ChainAt(c, q + |x.bytes|)) && ReadAll(ChainAt(c, q + |x.bytes|)).None?
    ensures BrokenFrom(c, q, x)
  {
    forall j | 0 <= j < |x.bytes| - 4 ensures c[q + j] == x.bytes[j] {
      assert s[q + j] == x.bytes[j];
    }
    if Tight(x) {
      TightBefore(c, q, x, w);
      var e := Item(x.e.inum, x.e.name, 12);
      if x.e.name == [] {
        StepOver(c, q, e);
      } else {
        StepOverlaps(c, q, e);
      }
    } else if |x.bytes| == 13 {
      GapBefore(c, q, x, w);
    } else if |x.bytes| < 16 {
      ShortBefore(c, q, x, w);
      StepFails(c, q, Parse(c, q));
    } else {
      SlackBefore(c, q, x);
      StepOver(c, q, x.e);
    }
  }

  lemma {:induction false} SplitSlot(slots: seq<Slot>, at: nat, n: nat) returns (k: nat)
    requires AllSound(slots) && SpotFor(ChainOf(slots, at, Stop), n).Split?
    ensures k < |slots| && Room(slots[k].e.name, slots[k].e.len, n)
    ensures SpotFor(ChainOf(slots, at, Stop), n) ==
            Split(at + |Bytes(slots[..k])|, |slots[k].e.name|, slots[k].e.len)
  {
    var x, rest := slots[0], slots[1..];
    if Room(x.e.name, x.e.len, n) {
      k := 0;
    } else {
      var j := SplitSlot(rest, at + |x.bytes|, n);
      k := j + 1;
      assert slots[..k][1..] == rest[..j] && slots[..k][0] == x;
    }
  }

  lemma {:induction false} PatchedBy(s: seq<Byte>, c: seq<Byte>, p: nat, w: seq<Byte>, f: seq<Byte>)
    requires |w| == 4 <= p && p + |f| <= |s| == |c| && Occurs(c, p - 4, w + f)
    requires forall j | 0 <= j < |s| && !(p - 4 <= j < p + |f|) :: c[j] == s[j]
    ensures Patched(s, c, p, w, f)
  {
    OccursSplit(c, p - 4, w, f);
  }

  lemma {:induction false} FillPrevious(inum: Word, name: Name, l: Word, prev: Word)
    requires prev != 0
    ensures FillDir(inum, name, l, prev) == WordBytes(prev) + FillDir(inum, name, l, 0)
  {
    var a, b, c, d := WordBytes(prev), WordBytes(inum), WordBytes(|name|), WordBytes(l);
    assert a + b + c + name + d == a + (b + c + name + d);
    assert [] + b + c + name + d == b + c + name + d;
  }

  lemma {:induction false} FrontKept(s: seq<Byte>, c: seq<Byte>, p: nat, w: seq<Byte>, f: seq<Byte>, a: seq<Byte>)
    requires Patched(s, c, p, w, f) && Occurs(s, 0, a) && |a| + 4 <= p
    ensures Occurs(c, 0, a)
  {
    forall k | 0 <= k < |a| ensures c[0 + k] == a[k] {
      assert s[0 + k] == a[k];
    }
  }

  /** The outcome of a split behind slots a and slot x. */
  ghost predicate Damaged(c: seq<Byte>, a: seq<Slot>, x: Slot)
    requires x.e.Item?
  {
    var q := |Bytes(a)|;
    && Occurs(c, 0, Bytes(a))
    && if x.e == Item(0, [], 13) then
         Parse(c, q) == Item(0, [], SKIP) &&
         (Tiled(ChainAt(c, 0)) <==> q + SKIP <= |c| && Tiled(ChainAt(c, q + SKIP)))
       else !Tiled(ChainAt(c, 0)) && (x.e.name == [] ==> Listing(c).None?)
  }

  lemma {:induction false} GapScan(c: seq<Byte>, q: nat)
    requires q <= |c| && Parse(c, q) == Item(0, [], SKIP)
    ensures Tiled(ChainAt(c, q)) <==> q + SKIP <= |c| && Tiled(ChainAt(c, q + SKIP))
  {
    var e := Item(0, [], SKIP);
    if Steps(e, |c| - q) {
      StepOver(c, q, e);
    } else {
      StepFails(c, q, e);
    }
  }

  lemma {:induction false} BrokenThere(c: seq<Byte>, a: seq<Slot>, x: Slot)
    requires AllSound(a) && x.e.Item? && Occurs(c, 0, Bytes(a)) && BrokenFrom(c, |Bytes(a)|, x)
    ensures Damaged(c, a, x)
  {
    SlotsBefore(c, a);
    if x.e == Item(0, [], 13) { GapScan(c, |Bytes(a)|); }
  }

  /** Three stretches: slots a, the entry before, the entry that is split. */
  lemma {:induction false} BreaksThere(s: seq<Byte>, c: seq<Byte>, a: seq<Slot>, x: Slot, t: Slot,
                                       w: seq<Byte>, n: Slot)
    requires AllSound(a) && Sound(x) && (Tight(x) || Slack(x)) && Slack(t) && Takes(n, t)
    requires |s| < 0xC_0000 && |w| == 4 && w[0] == 12 && WordAt(w, 0) == 12
    requires Occurs(s, 0, Bytes(a)) && Occurs(s, |Bytes(a)|, x.bytes) && Occurs(s, |Bytes(a)| + |x.bytes|, t.bytes)
    requires Patched(s, c, |Bytes(a)| + |x.bytes|, w, n.bytes)
    ensures Damaged(c, a, x)
  {
    hide Damaged, BrokenFrom;
    var q := |Bytes(a)|;
    SplitEntry(s, c, q + |x.bytes|, w, n, t);
    EntryBefore(s, c, q, x, w, n.bytes);
    FrontKept(s, c, q + |x.bytes|, w, n.bytes, Bytes(a));
    BrokenThere(c, a, x);
  }

  /** Only a blanked entry, and never the first, has room for another. */
  lemma {:induction false} RoomIsSlack(slots: seq<Slot>, k: nat, n: nat)
    requires AllSound(slots) && Proper(slots) && k < |slots| && Room(slots[k].e.name, slots[k].e.len, n)
    ensures k > 0 && Slack(slots[k]) && n + 24 < |slots[k].bytes|
  {
  }

  /** Slots up to k stand in s where the list puts them. */
  ghost predicate Stands(s: seq<Byte>, slots: seq<Slot>, k: nat)
    requires 0 < k < |slots|
  {
    var q := |Bytes(slots[..k - 1])|;
    && Occurs(s, 0, Bytes(slots[..k - 1])) && Occurs(s, q, slots[k - 1].bytes)
    && Occurs(s, q + |slots[k - 1].bytes|, slots[k].bytes)
    && |Bytes(slots[..k])| == q + |slots[k - 1].bytes|
  }

  lemma {:induction false} Placement(slots: seq<Slot>, k: nat)
    requires 0 < k < |slots|
    ensures Stands(Bytes(slots), slots, k)
  {
    hide Bytes, Occurs;
    SizeUpTo(slots, k);
    SlotOccurs(slots, k);
    SlotOccurs(slots, k - 1);
  }

  lemma {:induction false} BreaksAt(slots: seq<Slot>, k: nat, w: seq<Byte>, n: Slot, s: seq<Byte>, c: seq<Byte>)
    requires AllSound(slots) && |s| < 0xC_0000 && 0 < k < |slots| && Stands(s, slots, k)
    requires |w| == 4 && w[0] == 12 && WordAt(w, 0) == 12
    requires Slack(slots[k]) && Takes(n, slots[k]) && (Tight(slots[k - 1]) || Slack(slots[k - 1]))
    requires Patched(s, c, |Bytes(slots[..k])|, w, n.bytes)
    ensures Damaged(c, slots[..k - 1], slots[k - 1])
  {
    hide Damaged;
    BreaksThere(s, c, slots[..k - 1], slots[k - 1], slots[k], w, n);
  }

  lemma {:induction false} SplitOutcome(slots: seq<Slot>, k: nat, w: seq<Byte>, n: Slot, s: seq<Byte>, data: seq<Byte>)
    requires AllSound(slots) && |s| < 0xC_0000 && 0 < k < |slots| && Stands(s, slots, k)
    requires |w| == 4 && w[0] == 12 && WordAt(w, 0) == 12 && data == w + n.bytes
    requires Slack(slots[k]) && Takes(n, slots[k]) && (Tight(slots[k - 1]) || Slack(slots[k - 1]))
    ensures var p := |Bytes(slots[..k])|;
            && p >= 4 && Damaged(Write(s, p - 4, data), slots[..k - 1], slots[k - 1])
            && Patched(s, Write(s, p - 4, data), p, w, n.bytes)
  {
    hide Bytes, Write, ChainAt, Tiled, ReadAll, Patched, Damaged;
    PatchWrite(s, |Bytes(slots[..k])|, data, w, n.bytes);
    BreaksAt(slots, k, w, n, s, Write(s, |Bytes(slots[..k])| - 4, data));
  }

  lemma {:induction false} FillReads(inum: Word, name: Name, l: Word)
    ensures AlwaysReads(Slot(Item(inum, name, l), FillDir(inum, name, l, 0)))
  {
    var n := Slot(Item(inum, name, l), FillDir(inum, name, l, 0));
    forall s, p: nat ensures ReadsBack(n, s, p) {
      if Occurs(s, p, n.bytes) { ParseFill(s, p, inum, name, l); }
    }
  }

  lemma {:induction false} TwelveBytes(w: Word)
    requires w == 12
    ensures WordBytes(w)[0] == 12
  {
  }

  lemma {:induction false} PatchWrite(s: seq<Byte>, p: nat, data: seq<Byte>, w: seq<Byte>, f: seq<Byte>)
    requires |w| == 4 <= p && p + |f| <= |s| && data == w + f
    ensures Patched(s, Write(s, p - 4, data), p, w, f)
  {
    var c := Write(s, p - 4, data);
    WriteAt(s, p - 4, data);
    PatchedBy(s, c, p, w, f);
  }

  lemma {:induction false} PlacedSplit(s: seq<Byte>, name: Name, inum: Word, spot: Spot, l: Word, prev: Word)
    requires spot.Split? && spot.namelen + 24 < spot.len && 4 <= spot.at
    requires l == spot.len - spot.namelen - 12 && prev == spot.namelen + 12
    ensures Placed(s, name, inum, spot) == Some(Write(s, spot.at - 4, FillDir(inum, name, l, prev)))
  {
  }

  lemma {:induction false} NewHead(inum: Word, name: Name, l: Word, prev: Word) returns (w: seq<Byte>, n: Slot)
    requires prev == 12
    ensures |w| == 4 && w[0] == 12 && WordAt(w, 0) == 12 && FillDir(inum, name, l, prev) == w + n.bytes
    ensures AlwaysReads(n) && n.e == Item(inum, name, l) && |n.bytes| == |name| + 12
  {
    n := Slot(Item(inum, name, l), FillDir(inum, name, l, 0));
    w := WordBytes(prev);
    FillReads(inum, name, l);
    TwelveBytes(prev);
    FillPrevious(inum, name, l, prev);
  }

  /** What create writes when it splits an entry that has no name. */
  lemma {:induction false} SplitData(s: seq<Byte>, name: Name, inum: Word, spot: Spot)
    returns (data: seq<Byte>, w: seq<Byte>, n: Slot)
    requires spot.Split? && spot.namelen == 0 && 24 < spot.len && 4 <= spot.at
    ensures Placed(s, name, inum, spot) == Some(Write(s, spot.at - 4, data)) && data == w + n.bytes
    ensures |w| == 4 && w[0] == 12 && WordAt(w, 0) == 12
    ensures AlwaysReads(n) && n.e == Item(inum, name, spot.len - 12) && |n.bytes| == |name| + 12
  {
    var l, prev: Word := spot.len - spot.namelen - 12, spot.namelen + 12;
    w, n := NewHead(inum, name, l, prev);
    PlacedSplit(s, name, inum, spot, l, prev);
    data := FillDir(inum, name, l, prev);
  }

  lemma {:induction false} SplitAt(slots: seq<Slot>, n: nat, spot: Spot) returns (k: nat)
    requires AllSound(slots) && Proper(slots) && spot == SpotFor(ChainAt(Bytes(slots), 0), n) && spot.Split?
    ensures 0 < k < |slots| && Slack(slots[k]) && n + 24 < |slots[k].bytes|
    ensures spot == Split(|Bytes(slots[..k])|, 0, slots[k].e.len) && spot.at >= 4
    ensures Stands(Bytes(slots), slots, k)
  {
    WholeChain(slots);
    k := SplitSlot(slots, 0, n);
    RoomIsSlack(slots, k, n);
    Placement(slots, k);
  }

  lemma {:induction false} SizeUpTo(slots: seq<Slot>, k: nat)
    requires 0 < k <= |slots|
    ensures |Bytes(slots[..k])| == |Bytes(slots[..k - 1])| + |slots[k - 1].bytes|
  {
    var a, x := slots[..k - 1], slots[k - 1];
    assert slots[..k] == a + [x];
    BytesSplit(a, [x]);
    AppendBytes(Bytes(a), x);
  }

  lemma {:induction false} AppendKeepsFormat(slots: seq<Slot>, op: Op)
    requires AllSound(slots) && NamesDiffer(Live(slots)) && Appends(Bytes(slots), op)
    ensures Tiled(ChainAt(Next(Bytes(slots), op), 0)) && !ReplyTo(Bytes(slots), op).Failed?
  {
    var after := StepKeeps(slots, op);
    WholeChain(after);
    TiledSlots(after, 0, Stop);
  }

  /** Slot k is split: it stands where the room test stops, and c is s with a length of
      12 and the new entry written from four bytes before it on. */
  ghost predicate SplitInto(slots: seq<Slot>, s: seq<Byte>, name: Name, inum: Word, k: nat, c: seq<Byte>,
                            w: seq<Byte>, n: Slot)
  {
    && 0 < k < |slots| && slots[k - 1].e.Item? && Slack(slots[k]) && Stands(s, slots, k) && Takes(n, slots[k])
    && SpotFor(ChainAt(s, 0), |name|) == Split(|Bytes(slots[..k])|, 0, |slots[k].bytes|)
    && n.e == Item(inum, name, |slots[k].bytes| - 12)
    && |w| == 4 && w[0] == 12 && WordAt(w, 0) == 12 && Patched(s, c, |Bytes(slots[..k])|, w, n.bytes)
  }

  /** What splitting an entry does to a directory that creates and removals have built:
      it no longer tiles, and if the entry before has no name it cannot be read at all,
      unless the entry before is a 13-byte blank: then the scan skips 3085 bytes. */
  lemma {:induction false} SplitBreaks(slots: seq<Slot>, s: seq<Byte>, name: Name, inum: Word)
    returns (k: nat, c: seq<Byte>, w: seq<Byte>, n: Slot)
    requires AllSound(slots) && Proper(slots) && s == Bytes(slots) && |s| <= MAXFILE * BLOCK_SIZE
    requires !Listed(Live(slots), name) && SpotFor(ChainAt(s, 0), |name|).Split?
    ensures Creating(s, name, inum) == Done(c) && SplitInto(slots, s, name, inum, k, c, w, n)
    ensures Damaged(c, slots[..k - 1], slots[k - 1])
  {
    hide ChainAt, Write, Bytes, Placed, Damaged, Patched, Stands;
    var spot := SpotFor(ChainAt(s, 0), |name|);
    k := SplitAt(slots, |name|, spot);
    var data;
    data, w, n := SplitData(s, name, inum, spot);
    c := Write(s, spot.at - 4, data);
    SplitOutcome(slots, k, w, n, s, data);
    ReadsLive(slots);
  }

  // ----- when a create keeps the format -----

  /** The entry right before offset p is a 13-byte blank. */
  predicate GapAt(c: Chain, p: nat)
  {
    c.Link? && ((c.rest.Link? && c.rest.at == p && c.e == Item(0, [], 13)) || GapAt(c.rest, p))
  }

  lemma {:induction false} NoGapBefore(slots: seq<Slot>, at: nat, p: nat)
    requires AllSound(slots) && p <= at
    ensures !GapAt(ChainOf(slots, at, Stop), p)
  {
    if slots != [] { NoGapBefore(slots[1..], at + |slots[0].bytes|, p); }
  }

  lemma {:induction false} GapSlots(slots: seq<Slot>, at: nat, k: nat)
    requires AllSound(slots) && 0 < k < |slots|
    ensures GapAt(ChainOf(slots, at, Stop), at + |Bytes(slots[..k])|) <==> slots[k - 1].e == Item(0, [], 13)
  {
    var x, rest := slots[0], slots[1..];
    assert slots[..k][0] == x && slots[..k][1..] == rest[..k - 1];
    if k == 1 {
      NoGapBefore(rest, at + |x.bytes|, at + |x.bytes|);
    } else {
      assert rest[..k - 1][0] == rest[0];
      GapSlots(rest, at + |x.bytes|, k - 1);
    }
  }

  /** The entry to be split stands behind a 13-byte blank, and in c the scan tiles from
      where the length that this blank is left with leads: 3085 bytes behind its start. */
  predicate SkipsWell(content: seq<Byte>, op: Op, c: seq<Byte>)
  {
    var spot := SpotFor(ChainAt(content, 0), |op.name|);
    && spot.Split? && GapAt(ChainAt(content, 0), spot.at)
    && spot.at + (SKIP - 13) <= |c| && Tiled(ChainAt(c, spot.at + (SKIP - 13)))
  }

  lemma {:induction false} GapAtSplit(slots: seq<Slot>, s: seq<Byte>, k: nat)
    requires AllSound(slots) && Proper(slots) && s == Bytes(slots) && 0 < k < |slots|
    ensures GapAt(ChainAt(s, 0), |Bytes(slots[..k])|) <==> slots[k - 1].e == Item(0, [], 13)
    ensures |Bytes(slots[..k])| == |Bytes(slots[..k - 1])| + |slots[k - 1].bytes|
    ensures slots[k - 1].e == Item(0, [], 13) ==> |Bytes(slots[..k])| >= 25
  {
    WholeChain(slots);
    GapSlots(slots, 0, k);
    SizeUpTo(slots, k);
    if k > 1 {
      assert slots[..k - 1][0] == slots[0];
    }
  }

  lemma {:induction false} BrokenTiles(slots: seq<Slot>, s: seq<Byte>, k: nat, p: nat, c: seq<Byte>)
    requires AllSound(slots) && Proper(slots) && s == Bytes(slots) && 0 < k < |slots| && slots[k - 1].e.Item?
    requires p == |Bytes(slots[..k])| && Damaged(c, slots[..k - 1], slots[k - 1])
    ensures Tiled(ChainAt(c, 0)) <==>
            GapAt(ChainAt(s, 0), p) && p + (SKIP - 13) <= |c| && Tiled(ChainAt(c, p + (SKIP - 13)))
    ensures GapAt(ChainAt(s, 0), p) ==> p >= 25
  {
    hide ChainAt, Bytes, GapAt, Tiled, ReadAll, Occurs, Parse;
    GapAtSplit(slots, s, k);
  }

  lemma {:induction false} SplitKeepsFormat(slots: seq<Slot>, s: seq<Byte>, op: Op)
    requires AllSound(slots) && Proper(slots) && s == Bytes(slots) && |s| <= MAXFILE * BLOCK_SIZE
    requires op.Make? && !Listed(Live(slots), op.name) && !Appends(s, op)
    ensures ReplyTo(s, op).Done? && |Next(s, op)| == |s|
    ensures Tiled(ChainAt(Next(s, op), 0)) <==> SkipsWell(s, op, Next(s, op))
    ensures SkipsWell(s, op, Next(s, op)) ==> |s| >= SKIP + 12
  {
    hide ChainAt, Bytes, Creating, GapAt, Stands, Tiled, ReadAll, Damaged, Slack, Takes, Occurs, AllSound, Proper;
    var k, c, w, n := SplitBreaks(slots, s, op.name, op.inum);
    BrokenTiles(slots, s, k, |Bytes(slots[..k])|, c);
  }

  lemma {:induction false} KeepsFormat(slots: seq<Slot>, content: seq<Byte>, op: Op)
    requires AllSound(slots) && Proper(slots) && NamesDiffer(Live(slots))
    requires content == Bytes(slots) && |content| <= MAXFILE * BLOCK_SIZE
    requires op.Make? && !Listed(Live(slots), op.name)
    ensures !ReplyTo(content, op).Failed?
    ensures Tiled(ChainAt(Next(content, op), 0)) <==> Appends(content, op) || SkipsWell(content, op, Next(content, op))
    ensures SkipsWell(content, op, Next(content, op)) ==> |content| >= SKIP + 12
  {
    hide ChainAt, Bytes, GapAt, Tiled;
    if Appends(content, op) {
      AppendKeepsFormat(slots, op);
    } else {
      SplitKeepsFormat(slots, content, op);
    }
  }

  /** After any run of appending creates and removals of C-string names, a further create
      keeps the format if and only if it appends, or a 13-byte blank stands before the
      entry it splits and the scan tiles from 3085 bytes behind the start of that blank. */
  lemma {:induction false} CreateKeepsFormat(empty: seq<Byte>, ops: seq<Op>, op: Op)
    requires empty == NewDir() && AlwaysAppends(empty, ops) && forall k | 0 <= k < |ops| :: CString(ops[k].name)
    requires |Run(empty, ops)| <= MAXFILE * BLOCK_SIZE && op.Make? && !Listed(MeantAll([], ops), op.name)
    ensures var content := Run(empty, ops);
            && !ReplyTo(content, op).Failed?
            && (Tiled(ChainAt(Next(content, op), 0)) <==>
                Appends(content, op) || SkipsWell(content, op, Next(content, op)))
            && (SkipsWell(content, op, Next(content, op)) ==> |content| >= SKIP + 12)
  {
    hide ChainAt, Bytes, SkipsWell, Tiled, NewDir, Appends;
    var x := Beginning(empty);
    var slots := RunKeeps([x], ops);
    KeepsFormat(slots, Run(empty, ops), op);
  }

  /** So in a directory of less than 3097 bytes it does if and only if it appends. */
  lemma {:induction false} ShortDirectoryKeepsFormatIffAppends(empty: seq<Byte>, ops: seq<Op>, op: Op)
    requires empty == NewDir() && AlwaysAppends(empty, ops) && forall k | 0 <= k < |ops| :: CString(ops[k].name)
    requires |Run(empty, ops)| < SKIP + 12 && op.Make? && !Listed(MeantAll([], ops), op.name)
    ensures var content := Run(empty, ops);
            Tiled(ChainAt(Next(content, op), 0)) <==> Appends(content, op)
  {
    hide ChainAt, SkipsWell, Tiled, NewDir, Appends, Next, Run;
    CreateKeepsFormat(empty, ops, op);
  }

  // ----- looking before the call -----

  ghost predicate SameFrom(s: seq<Byte>, c: seq<Byte>, r: nat)
  {
    |s| == |c| && forall j | r <= j < |s| :: s[j] == c[j]
  }

  lemma {:induction false} ParseSame(s: seq<Byte>, c: seq<Byte>, r: nat)
    requires r <= |s| && SameFrom(s, c, r)
    ensures Parse(s, r) == Parse(c, r)
  {
    if r + 8 <= |s| {
      var n := WordAt(s, r + 4);
      assert n == WordAt(c, r + 4);
      if r + n + 12 <= |s| {
        assert s[r + 8..r + 8 + n] == c[r + 8..r + 8 + n];
      }
    }
  }

  lemma {:induction false} ScanSame(s: seq<Byte>, c: seq<Byte>, r: nat)
    requires r <= |s| && SameFrom(s, c, r)
    ensures ChainAt(s, r) == ChainAt(c, r)
    decreases |s| - r
  {
    ParseSame(s, c, r);
    var e := Parse(s, r);
    if Steps(e, |s| - r) {
      ScanSame(s, c, r + e.len);
    }
  }

  /** For names of up to 3060 bytes the outcome can be told from the old content. */
  lemma {:induction false} SkipsWellBefore(slots: seq<Slot>, s: seq<Byte>, op: Op)
    requires AllSound(slots) && Proper(slots) && s == Bytes(slots) && |s| <= MAXFILE * BLOCK_SIZE
    requires op.Make? && !Listed(Live(slots), op.name) && !Appends(s, op) && |op.name| <= 3060
    ensures SkipsWell(s, op, Next(s, op)) <==> SkipsWell(s, op, s)
  {
    hide ChainAt, Bytes, Creating, GapAt, Stands, Tiled, ReadAll, Damaged;
    var k, c, w, n := SplitBreaks(slots, s, op.name, op.inum);
    var r := SpotFor(ChainAt(s, 0), |op.name|).at + (SKIP - 13);
    assert SameFrom(s, c, r);
    if r <= |s| { ScanSame(s, c, r); }
  }

  /** The condition on the content before the call, for names of up to 3060 bytes. */
  lemma {:induction false} CreateKeepsFormatFromOld(empty: seq<Byte>, ops: seq<Op>, op: Op)
    requires empty == NewDir() && AlwaysAppends(empty, ops) && forall k | 0 <= k < |ops| :: CString(ops[k].name)
    requires |Run(empty, ops)| <= MAXFILE * BLOCK_SIZE && op.Make? && !Listed(MeantAll([], ops), op.name)
    requires |op.name| <= 3060
    ensures var content := Run(empty, ops);
            Tiled(ChainAt(Next(content, op), 0)) <==> Appends(content, op) || SkipsWell(content, op, content)
  {
    hide ChainAt, Bytes, SkipsWell, Tiled, NewDir, Next;
    CreateKeepsFormat(empty, ops, op);
    var content := Run(empty, ops);
    if !Appends(content, op) {
      var x := Beginning(empty);
      var slots := RunKeeps([x], ops);
      SkipsWellBefore(slots, content, op);
    } else {
      NoSkip(content, op, content);
    }
  }

  lemma {:induction false} NoSkip(content: seq<Byte>, op: Op, c: seq<Byte>)
    requires op.Make? && Appends(content, op)
    ensures !SkipsWell(content, op, c)
  {
  }

  // ----- an example -----

  /** Two slots: the empty entry and a blanked one with room. */
  lemma {:induction false} TwoSlots(x: Slot, y: Slot, s: seq<Byte>, n: nat)
    requires AllSound([x, y]) && s == Bytes([x, y]) && |x.bytes| == 12
    requires y.e.Item? && y.e.name == [] && n + 24 < |y.bytes|
    ensures SpotFor(ChainAt(s, 0), n).Split?
  {
    WholeChain([x, y]);
    assert [x, y][1..] == [y];
    var c := ChainOf([y], |x.bytes|, Stop);
    assert ChainOf([x, y], 0, Stop) == Link(0, x.e, c);
    assert SpotFor(c, n).Split?;
  }

  lemma {:induction false} OneSlot(x: Slot, s: seq<Byte>, op: Op)
    requires AllSound([x]) && s == Bytes([x]) && |x.bytes| == 12
    ensures Appends(s, op)
  {
    WholeChain([x]);
    assert [x][1..] == [];
    assert ChainOf([x], 0, Stop) == Link(0, x.e, Stop);
  }

  /** Create a name, remove it, create a name at least 13 bytes shorter: from then on
      the directory cannot be read. */
  lemma {:induction false} ShorterNameAfterRemovalFails(empty: seq<Byte>, long: Name, short: Name, i: Word, j: Word)
    requires empty == NewDir() && CString(long) && |short| + 12 < |long| <= MAXFILE * BLOCK_SIZE - 24 && i != 0
    ensures var c1 := Next(empty, Make(long, i));
            var c2 := Next(c1, Remove(long, false));
            var c3 := Next(c2, Make(short, j));
            && Listing(c1) == Some([Pair(i, long)]) && Listing(c2) == Some([])
            && ReplyTo(c2, Make(short, j)) == Done(c3) && Listing(c3).None?
  {
    hide ChainAt, Write, Bytes, Placed, NewDir, ReadAll, Live, Tiled, Parse, Patched, Stands;
    var x := Beginning(empty);
    OneSlot(x, empty, Make(long, i));
    ReadsLive([x]);
    var x1 := AppendStep([x], long, i);
    MakeKeeps([x], long, i, x1);
    var slots1 := [x] + [x1];
    ReadsLive(slots1);
    var y := RemoveSecond(x, x1, long);
    ReadsLive([x, y]);
    SizeOfTwo(x, y);
    TwoSlots(x, y, Bytes([x, y]), |short|);
    var k, c, w, n := SplitBreaks([x, y], Bytes([x, y]), short, j);
  }

  lemma {:induction false} SizeOfTwo(x: Slot, y: Slot)
    ensures |Bytes([x, y])| == |x.bytes| + |y.bytes|
  {
    assert [x, y][1..] == [y] && [y][1..] == [];
    assert Bytes([y]) == y.bytes + [];
  }

  lemma {:induction false} RemoveSecond(x: Slot, x1: Slot, name: Name) returns (y: Slot)
    requires AllSound([x] + [x1]) && |x.bytes| == 12 && Shown(x.e) == [] && Tight(x1) && x1.e.name == name
    requires Live([x] + [x1]) == [Pair(x1.e.inum, name)] && |name| > 12
    ensures Sound(y) && |y.bytes| == |x1.bytes| && y.e.name == [] && AllSound([x, y]) && Proper([x, y])
    ensures Unlinking(Bytes([x] + [x1]), name, false) == Done(Bytes([x, y])) && Live([x, y]) == []
  {
    hide ChainAt, Write, Bytes, Live;
    var slots := [x] + [x1];
    assert Live(slots)[0].name == name;
    var k, z := BlankStep(slots, name);
    y := z;
    BlankLive(slots, k, y, Pair(x1.e.inum, name));
    HollowSlack(x1, y, name);
    assert slots[1 := y] == [x, y];
  }

  // ----- a split that tiles -----

  lemma {:induction false} NoRoom(slots: seq<Slot>, at: nat, n: nat)
    requires AllSound(slots) && forall k | 0 <= k < |slots| :: |slots[k].bytes| == |slots[k].e.name| + 12
    ensures !SpotFor(ChainOf(slots, at, Stop), n).Split?
  {
    if slots != [] { NoRoom(slots[1..], at + |slots[0].bytes|, n); }
  }

  lemma {:induction false} TightAppends(slots: seq<Slot>, op: Op)
    requires AllSound(slots) && forall k | 0 <= k < |slots| :: |slots[k].bytes| == |slots[k].e.name| + 12
    ensures Appends(Bytes(slots), op)
  {
    WholeChain(slots);
    NoRoom(slots, 0, |op.name|);
  }

  /** Append one more tight entry. */
  lemma {:induction false} MakeTight(slots: seq<Slot>, name: Name, i: Word) returns (x: Slot)
    requires AllSound(slots) && forall k | 0 <= k < |slots| :: |slots[k].bytes| == |slots[k].e.name| + 12
    requires NamesDiffer(Live(slots)) && !Listed(Live(slots), name) && CString(name) && Proper(slots) && i != 0
    ensures Sound(x) && x.e == Item(i, name, |name| + 12) && |x.bytes| == |name| + 12 && Proper(slots + [x])
    ensures Next(Bytes(slots), Make(name, i)) == Bytes(slots + [x])
    ensures Live(slots + [x]) == Live(slots) + [Pair(i, name)] && NamesDiffer(Live(slots + [x]))
  {
    hide Bytes, Sound;
    TightAppends(slots, Make(name, i));
    x := AppendStep(slots, name, i);
    MakeKeeps(slots, name, i, x);
  }

  /** Blank the only entry with this name. */
  lemma {:induction false} BlankOnly(slots: seq<Slot>, k: nat, name: Name) returns (y: Slot)
    requires AllSound(slots) && Proper(slots) && NamesDiffer(Live(slots)) && Listed(Live(slots), name) && k < |slots|
    requires forall j | 0 <= j < |slots| && j != k :: slots[j].e.inum == 0 || slots[j].e.name != name
    ensures Sound(y) && y.e == Item(0, [], slots[k].e.len) && Proper(slots[k := y])
    ensures Next(Bytes(slots), Remove(name, false)) == Bytes(slots[k := y])
    ensures Live(slots[k := y]) == Without(Live(slots), name) && NamesDiffer(Live(slots[k := y]))
  {
    hide Bytes, Live, Without, Sound;
    var j;
    j, y := BlankStep(slots, name);
    BlankLive(slots, j, y, Pair(slots[j].e.inum, name));
    HollowSlack(slots[j], y, name);
    WithoutDiffers(Live(slots), name);
  }

  lemma {:induction false} ThreeSlots(x: Slot, y: Slot, z: Slot)
    ensures |Bytes([x, y, z][..2])| == |x.bytes| + |y.bytes|
    ensures |Bytes([x, y, z])| == |x.bytes| + |y.bytes| + |z.bytes|
  {
    var s := [x, y, z];
    assert s[..2] == [x, y] && s[..3] == s;
    SizeOfTwo(x, y);
    SizeUpTo(s, 3);
  }

  lemma {:induction false} RoomInThird(x: Slot, y: Slot, z: Slot, n: nat)
    requires AllSound([x, y, z]) && x.e == Item(0, [], 12) && y.e == Item(0, [], 13)
    requires z.e.Item? && z.e.name == [] && n + 24 < |z.bytes|
    ensures SpotFor(ChainAt(Bytes([x, y, z]), 0), n).Split?
    ensures SpotFor(ChainAt(Bytes([x, y, z]), 0), n).at == 25
  {
    var s := [x, y, z];
    WholeChain(s);
    assert s[1..] == [y, z] && [y, z][1..] == [z];
    var c := ChainOf([z], 25, Stop);
    assert SpotFor(c, n).Split? && SpotFor(c, n).at == 25;
    assert ChainOf([y, z], 12, Stop) == Link(12, y.e, c);
    assert ChainOf(s, 0, Stop) == Link(0, x.e, Link(12, y.e, c));
  }

  lemma {:induction false} EndsWell(x: Slot, y: Slot, z: Slot, op: Op)
    requires AllSound([x, y, z]) && Proper([x, y, z]) && Live([x, y, z]) == [] && op.Make?
    requires x.e == Item(0, [], 12) && y.e == Item(0, [], 13) && z.e == Item(0, [], 3072) && |op.name| < 3048
    ensures !Appends(Bytes([x, y, z]), op) && Tiled(ChainAt(Next(Bytes([x, y, z]), op), 0))
  {
    hide Bytes, Live, ChainAt, Next, SpotFor;
    var slots := [x, y, z];
    var s := Bytes(slots);
    assert slots[0] == x && slots[1] == y && slots[2] == z;
    assert |s| == 3097 && |Bytes(slots[..2])| == 25 by { ThreeSlots(x, y, z); }
    RoomInThird(x, y, z, |op.name|);
    SplitKeepsFormat(slots, s, op);
    GapAtSplit(slots, s, 2);
    AtEnd(Next(s, op));
  }

  lemma {:induction false} AtEnd(c: seq<Byte>)
    ensures Tiled(ChainAt(c, |c|))
  {
  }

  lemma {:induction false} BothMade(empty: seq<Byte>, p: Pair, q: Pair) returns (slots: seq<Slot>)
    requires empty == NewDir() && CString(p.name) && CString(q.name) && |p.name| == 1 && |q.name| == 3060
    requires p.inum != 0 && q.inum != 0
    ensures |slots| == 3 && AllSound(slots) && Proper(slots) && Live(slots) == [p, q] && NamesDiffer(Live(slots))
    ensures slots[0].e == Item(0, [], 12) && slots[1].e == Item(p.inum, p.name, 13)
    ensures slots[2].e == Item(q.inum, q.name, 3072)
    ensures Next(Next(empty, Make(p.name, p.inum)), Make(q.name, q.inum)) == Bytes(slots)
  {
    hide Bytes, Next, NewDir, Sound, Live, Listed, CString, NamesDiffer, Tight, Slack;
    var x := Beginning(empty);
    NoneListed(p.name);
    var y := MakeTight([x], p.name, p.inum);
    OneListed(p, q.name);
    var z := MakeTight([x] + [y], q.name, q.inum);
    slots := [x] + [y] + [z];
    assert [p] + [q] == [p, q];
  }

  lemma {:induction false} BothBlanked(slots: seq<Slot>, p: Pair, q: Pair) returns (after: seq<Slot>)
    requires |slots| == 3 && AllSound(slots) && Proper(slots) && Live(slots) == [p, q] && NamesDiffer(Live(slots))
    requires slots[0].e == Item(0, [], 12) && slots[1].e == Item(p.inum, p.name, 13)
    requires slots[2].e == Item(q.inum, q.name, 3072) && |p.name| == 1 && |q.name| == 3060
    ensures |after| == 3 && AllSound(after) && Proper(after) && Live(after) == []
    ensures after[0].e == Item(0, [], 12) && after[1].e == Item(0, [], 13) && after[2].e == Item(0, [], 3072)
    ensures Next(Next(Bytes(slots), Remove(p.name, false)), Remove(q.name, false)) == Bytes(after)
  {
    hide Bytes, Next, Sound, Live, Listed, Without;
    WithoutFirst(p, q);
    var y := BlankOnly(slots, 1, p.name);
    var mid := slots[1 := y];
    var z := BlankOnly(mid, 2, q.name);
    WithoutOnly(q);
    after := mid[2 := z];
  }

  /** Create a one-byte name and one of 3060 bytes, remove both, create a shorter one: it
      splits the long blank, and the damaged blank before leads to the very end, so the
      content tiles. */
  lemma {:induction false} SplitCanTile(empty: seq<Byte>, p: Pair, q: Pair, short: Name, i: Word)
    requires empty == NewDir() && CString(p.name) && CString(q.name) && |p.name| == 1 && |q.name| == 3060
    requires p.inum != 0 && q.inum != 0 && |short| < 3048
    ensures var made := Next(Next(empty, Make(p.name, p.inum)), Make(q.name, q.inum));
            var content := Next(Next(made, Remove(p.name, false)), Remove(q.name, false));
            !Appends(content, Make(short, i)) && Tiled(ChainAt(Next(content, Make(short, i)), 0))
  {
    hide Bytes, ChainAt, Next, NewDir, Sound, Appends, Tiled, Live;
    var slots := BothMade(empty, p, q);
    var after := BothBlanked(slots, p, q);
    assert after == [after[0], after[1], after[2]];
    EndsWell(after[0], after[1], after[2], Make(short, i));
  }

  lemma {:induction false} WithoutFirst(p: Pair, q: Pair)
    ensures Without([p, q], p.name) == [q] && Listed([p, q], p.name) && Listed([q], q.name)
  {
    assert [p, q][0] == p && [p, q][1..] == [q] && [q][0] == q;
  }

  lemma {:induction false} NoneListed(name: seq<Byte>)
    ensures !Listed([], name) && NamesDiffer([])
  {
  }

  lemma {:induction false} OneListed(p: Pair, name: seq<Byte>)
    requires p.name != name
    ensures [] + [p] == [p] && !Listed([p], name)
  {
  }

  lemma {:induction false} WithoutOnly(p: Pair)
    ensures Without([p], p.name) == []
  {
  }
}

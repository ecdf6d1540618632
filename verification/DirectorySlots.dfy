/**
  Directories as lists of slots. Every directory that creating and removing entries
  produces is the concatenation of its slots; the scans of the client visit exactly
  the slots.
 */
module DirectorySlots {
  import opened Common
  import opened DiskLayout
  import opened Directory

  /** The bytes of an entry and what the parser makes of them. */
  datatype Slot = Slot(e: Parsed, bytes: seq<Byte>)

  ghost predicate ReadsBack(x: Slot, s: seq<Byte>, p: nat)
  {
    Occurs(s, p, x.bytes) ==> Parse(s, p) == x.e
  }

  /** Long enough for its own header and name, and read back wherever it stands. */
  ghost predicate Sound(x: Slot)
  {
    && x.e.Item? && |x.e.name| + 12 <= x.e.len == |x.bytes|
    && forall s, p: nat :: ReadsBack(x, s, p)
  }

  ghost predicate AllSound(slots: seq<Slot>)
  {
    forall k | 0 <= k < |slots| :: Sound(slots[k])
  }

  /** An entry as create appends it. */
  function Whole(inum: Word, name: Name): Slot
  {
    Slot(Item(inum, name, |name| + 12), FillDir(inum, name, |name| + 12, 0))
  }

  /** An entry after unlink: it keeps its length and its bytes behind the first 12. */
  function Blanked(x: Slot): Slot
    requires x.e.Item? && |x.bytes| >= 12
  {
    Slot(Item(0, [], x.e.len), FillDir(0, [], x.e.len, 0) + x.bytes[12..])
  }

  function Bytes(slots: seq<Slot>): seq<Byte>
  {
    if slots == [] then [] else slots[0].bytes + Bytes(slots[1..])
  }

  function ChainOf(slots: seq<Slot>, at: nat, tail: Chain): Chain
  {
    if slots == [] then tail else Link(at, slots[0].e, ChainOf(slots[1..], at + |slots[0].bytes|, tail))
  }

  /** The live entries. */
  function Live(slots: seq<Slot>): seq<Pair>
  {
    if slots == [] then [] else Shown(slots[0].e) + Live(slots[1..])
  }

  // ----- bytes -----

  lemma {:induction false} WordOccurs(s: seq<Byte>, p: nat, w: seq<Byte>)
    requires |w| == 4 && Occurs(s, p, w)
    ensures WordAt(s, p) == WordAt(w, 0)
  {
    assert s[p + 0] == w[0] && s[p + 1] == w[1] && s[p + 2] == w[2] && s[p + 3] == w[3];
  }

  lemma {:induction false} ParseParts(s: seq<Byte>, p: nat, wi: seq<Byte>, wn: seq<Byte>, n: seq<Byte>, wl: seq<Byte>)
    requires |wi| == |wn| == |wl| == 4 && WordAt(wn, 0) == |n|
    requires Occurs(s, p, wi) && Occurs(s, p + 4, wn) && Occurs(s, p + 8, n) && Occurs(s, p + 8 + |n|, wl)
    ensures Parse(s, p) == Item(WordAt(wi, 0), n, WordAt(wl, 0))
  {
    WordOccurs(s, p, wi);
    WordOccurs(s, p + 4, wn);
    WordOccurs(s, p + 8 + |n|, wl);
    assert s[p + 8..p + 8 + |n|] == n;
  }

  /** The parser reads back what was filled in. */
  lemma {:induction false} ParseFill(s: seq<Byte>, p: nat, i: Word, n: Name, l: Word)
    requires Occurs(s, p, FillDir(i, n, l, 0))
    ensures Parse(s, p) == Item(i, n, l)
  {
    var wi, wn, wl := WordBytes(i), WordBytes(|n|), WordBytes(l);
    assert FillDir(i, n, l, 0) == wi + wn + n + wl;
    Parts(s, p, wi, wn, n, wl);
    ParseParts(s, p, wi, wn, n, wl);
  }

  lemma {:induction false} Parts(s: seq<Byte>, p: nat, a: seq<Byte>, b: seq<Byte>, c: seq<Byte>, d: seq<Byte>)
    requires Occurs(s, p, a + b + c + d)
    ensures Occurs(s, p, a) && Occurs(s, p + |a|, b) && Occurs(s, p + |a| + |b|, c)
    ensures Occurs(s, p + |a| + |b| + |c|, d)
  {
    OccursSplit(s, p, a + b + c, d);
    OccursSplit(s, p, a + b, c);
    OccursSplit(s, p, a, b);
  }

  lemma {:induction false} FillSound(i: Word, n: Name, l: Word, rest: seq<Byte>)
    requires l == |n| + 12 + |rest|
    ensures Sound(Slot(Item(i, n, l), FillDir(i, n, l, 0) + rest))
  {
    var f := FillDir(i, n, l, 0);
    var x := Slot(Item(i, n, l), f + rest);
    forall s, p: nat ensures ReadsBack(x, s, p) {
      if Occurs(s, p, x.bytes) {
        OccursSplit(s, p, f, rest);
        ParseFill(s, p, i, n, l);
      }
    }
  }

  lemma {:induction false} WholeSound(i: Word, n: Name)
    ensures Sound(Whole(i, n))
  {
    FillSound(i, n, |n| + 12, []);
    assert FillDir(i, n, |n| + 12, 0) + [] == FillDir(i, n, |n| + 12, 0);
  }

  lemma {:induction false} BlankedSound(x: Slot)
    requires Sound(x)
    ensures Sound(Blanked(x))
  {
    FillSound(0, [], x.e.len, x.bytes[12..]);
  }

  /** The parser finds the slots one behind the other from `at` on. */
  ghost predicate Laid(parse: nat -> Parsed, slots: seq<Slot>, at: nat)
  {
    slots != [] ==> parse(at) == slots[0].e && Laid(parse, slots[1..], at + |slots[0].bytes|)
  }

  lemma {:induction false} BytesLaid(s: seq<Byte>, slots: seq<Slot>, p: nat)
    requires AllSound(slots) && Occurs(s, p, Bytes(slots))
    ensures Laid(Reader(s), slots, p)
    decreases |slots|
  {
    if slots != [] {
      var x, rest := slots[0], slots[1..];
      OccursSplit(s, p, x.bytes, Bytes(rest));
      assert ReadsBack(x, s, p);
      BytesLaid(s, rest, p + |x.bytes|);
    }
  }

  lemma {:induction false} LaidChain(parse: nat -> Parsed, size: nat, slots: seq<Slot>, at: nat)
    requires AllSound(slots) && Laid(parse, slots, at) && at + |Bytes(slots)| <= size
    ensures ScanFrom(parse, size, at) == ChainOf(slots, at, ScanFrom(parse, size, at + |Bytes(slots)|))
    decreases |slots|
  {
    if slots != [] {
      LaidChain(parse, size, slots[1..], at + |slots[0].bytes|);
    }
  }

  /** A scan visits the slots one by one. */
  lemma {:induction false} SlotChain(s: seq<Byte>, slots: seq<Slot>, p: nat)
    requires AllSound(slots) && Occurs(s, p, Bytes(slots))
    ensures ChainAt(s, p) == ChainOf(slots, p, ChainAt(s, p + |Bytes(slots)|))
  {
    BytesLaid(s, slots, p);
    LaidChain(Reader(s), |s|, slots, p);
  }

  lemma {:induction false} WholeChain(slots: seq<Slot>)
    requires AllSound(slots)
    ensures ChainAt(Bytes(slots), 0) == ChainOf(slots, 0, Stop)
  {
    SlotChain(Bytes(slots), slots, 0);
  }

  lemma {:induction false} ReadSlots(slots: seq<Slot>, at: nat)
    ensures ReadAll(ChainOf(slots, at, Stop)) == Some(Live(slots))
  {
    if slots != [] {
      ReadSlots(slots[1..], at + |slots[0].bytes|);
    }
  }

  lemma {:induction false} Assoc<T>(a: seq<T>, b: seq<T>, c: seq<T>)
    ensures a + (b + c) == a + b + c
  {
  }

  lemma {:induction false} BytesSplit(a: seq<Slot>, b: seq<Slot>)
    ensures Bytes(a + b) == Bytes(a) + Bytes(b)
  {
    if a == [] {
      assert a + b == b;
    } else {
      BytesSplit(a[1..], b);
      assert (a + b)[0] == a[0] && (a + b)[1..] == a[1..] + b;
      Assoc(a[0].bytes, Bytes(a[1..]), Bytes(b));
    }
  }

  lemma {:induction false} LiveSplit(a: seq<Slot>, b: seq<Slot>)
    ensures Live(a + b) == Live(a) + Live(b)
  {
    if a == [] {
      assert a + b == b;
    } else {
      LiveSplit(a[1..], b);
      assert (a + b)[0] == a[0] && (a + b)[1..] == a[1..] + b;
      Assoc(Shown(a[0].e), Live(a[1..]), Live(b));
    }
  }

  lemma {:induction false} BytesAround(slots: seq<Slot>, k: nat)
    requires k < |slots|
    ensures Bytes(slots) == Bytes(slots[..k]) + slots[k].bytes + Bytes(slots[k + 1..])
  {
    assert slots == slots[..k] + slots[k..];
    BytesSplit(slots[..k], slots[k..]);
    assert slots[k..][1..] == slots[k + 1..];
  }

  lemma {:induction false} LiveAround(slots: seq<Slot>, k: nat)
    requires k < |slots|
    ensures Live(slots) == Live(slots[..k]) + Shown(slots[k].e) + Live(slots[k + 1..])
  {
    assert slots == slots[..k] + slots[k..];
    LiveSplit(slots[..k], slots[k..]);
    assert slots[k..][1..] == slots[k + 1..];
  }

  /** Overwriting the front of the middle part. */
  lemma {:induction false} WriteMid(a: seq<Byte>, x: seq<Byte>, b: seq<Byte>, data: seq<Byte>)
    requires |data| <= |x|
    ensures Write(a + x + b, |a|, data) == a + (data + x[|data|..]) + b
  {
    var r, s := Write(a + x + b, |a|, data), a + (data + x[|data|..]) + b;
    assert |r| == |s| && forall i | 0 <= i < |s| :: r[i] == s[i];
  }
}

/**
  What readdir shows after a create, for inode numbers of the store and names of 1 to
  255 bytes without a zero byte: the intended listing if and only if the create
  appended. A scan that has lost the entries after a split reads no usual entry that
  is not there.
 */
module DirectoryListing {
  import opened Common
  import opened DiskLayout
  import opened Directory
  import opened DirectorySlots
  import opened DirectoryRuns
  import opened DirectorySplit

  // ----- a usual entry, byte by byte -----

  /** A scan reads a usual live entry at r and can step over it. */
  ghost predicate ReadsUsual(c: seq<Byte>, r: nat)
    requires r <= |c|
  {
    var e := Parse(c, r);
    Steps(e, |c| - r) && Usual(Pair(e.inum, e.name))
  }

  lemma {:induction false} UsualBytes(c: seq<Byte>, r: nat)
    requires r <= |c| <= MAXFILE * BLOCK_SIZE && ReadsUsual(c, r)
    ensures r + 13 <= |c| && (c[r] != 0 || c[r + 1] != 0) && c[r + 2] == 0 && c[r + 3] == 0
    ensures c[r + 4] != 0 && c[r + 5] == 0 && c[r + 6] == 0 && c[r + 7] == 0
    ensures r + 12 + c[r + 4] <= |c| && forall i | r + 8 <= i < r + 8 + c[r + 4] :: c[i] != 0
    ensures c[r + 4] == 1 ==> c[r + 12] == 0
  {
    var e := Parse(c, r);
    SmallWord(c, r);
    SmallerWord(c, r + 4);
    forall i | r + 8 <= i < r + 8 + |e.name| ensures c[i] != 0 {
      assert e.name[i - r - 8] == c[i];
    }
  }

  /** What can stand at a boundary B: the end, a live entry or a blank. */
  ghost predicate Boundary(c: seq<Byte>, B: nat)
  {
    || B == |c|
    || (B + 9 <= |c| && c[B + 2] == 0 && c[B + 3] == 0 && c[B + 5] == 0 && c[B + 6] == 0 && c[B + 7] == 0 &&
        if c[B + 4] != 0 then (c[B] != 0 || c[B + 1] != 0) && c[B + 8] != 0 else c[B] == 0 && c[B + 1] == 0)
  }

  ghost predicate NonZero(c: seq<Byte>, lo: nat, hi: int)
    requires hi <= |c|
  {
    forall i | lo <= i < hi :: c[i] != 0
  }

  ghost predicate Zero(c: seq<Byte>, lo: nat, hi: int)
    requires hi <= |c|
  {
    forall i | lo <= i < hi :: c[i] == 0
  }

  /** A length of 12 to 267 in two bytes. */
  ghost predicate LengthAt(c: seq<Byte>, k: nat, l: nat)
  {
    && k + 4 <= |c| && l == (c[k] as int) + 0x100 * (c[k + 1] as int) && 12 <= l <= 267
    && c[k + 2] == 0 && c[k + 3] == 0
  }

  /** In the last bytes of an entry, which end with its length, no usual entry begins. */
  lemma {:induction false} NoneInTail(c: seq<Byte>, B: nat, l: nat, r: nat)
    requires 6 <= B <= |c| <= MAXFILE * BLOCK_SIZE && B - 6 <= r < B && Boundary(c, B) && LengthAt(c, B - 4, l)
    ensures !ReadsUsual(c, r)
  {
    if ReadsUsual(c, r) {
      UsualBytes(c, r);
      assert false;
    }
  }

  lemma {:induction false} NoneInWhole(c: seq<Byte>, at: nat, n: nat, r: nat)
    requires at < r < at + n + 12 <= |c| <= MAXFILE * BLOCK_SIZE && 1 <= n && Boundary(c, at + n + 12)
    requires c[at + 4] != 0 && Zero(c, at + 5, at + 8) && NonZero(c, at + 8, at + 8 + n)
    requires LengthAt(c, at + 8 + n, n + 12)
    ensures !ReadsUsual(c, r)
  {
    if r >= at + n + 6 {
      NoneInTail(c, at + n + 12, n + 12, r);
    } else if ReadsUsual(c, r) {
      UsualBytes(c, r);
      assert false;
    }
  }

  /** The bytes of a blank. */
  ghost predicate BlankBytes(c: seq<Byte>, at: nat, l: nat)
  {
    && 13 <= l && at + l <= |c| && Zero(c, at, at + 8) && LengthAt(c, at + 8, l) && NonZero(c, at + 12, at + l - 4)
    && if l >= 16 then LengthAt(c, at + l - 4, l) else Zero(c, at + 12, at + l)
  }

  lemma {:induction false} NoneInBlank(c: seq<Byte>, at: nat, l: nat, r: nat)
    requires at < r < at + l <= |c| <= MAXFILE * BLOCK_SIZE && Boundary(c, at + l) && BlankBytes(c, at, l)
    ensures !ReadsUsual(c, r)
  {
    if l < 16 {
      NoneInShort(c, at, l, r);
    } else if r >= at + l - 6 {
      NoneInTail(c, at + l, l, r);
    } else if ReadsUsual(c, r) {
      UsualBytes(c, r);
      assert false;
    }
  }

  lemma {:induction false} NoneInShort(c: seq<Byte>, at: nat, l: nat, r: nat)
    requires at < r < at + l <= |c| <= MAXFILE * BLOCK_SIZE && l < 16
    requires Boundary(c, at + l) && BlankBytes(c, at, l)
    ensures !ReadsUsual(c, r)
  {
    if ReadsUsual(c, r) {
      UsualBytes(c, r);
      assert false;
    }
  }

  // ----- entries where they stand -----

  lemma {:induction false} WordThere(c: seq<Byte>, at: nat, b: seq<Byte>, k: nat)
    requires Occurs(c, at, b) && k + 4 <= |b|
    ensures WordAt(c, at + k) == WordAt(b, k)
  {
    assert c[at + k] == b[k] && c[at + (k + 1)] == b[k + 1];
    assert c[at + (k + 2)] == b[k + 2] && c[at + (k + 3)] == b[k + 3];
  }

  lemma {:induction false} LengthThere(c: seq<Byte>, at: nat, b: seq<Byte>, k: nat, l: nat)
    requires Occurs(c, at, b) && k + 4 <= |b| && WordAt(b, k) == l && 12 <= l <= 267
    ensures LengthAt(c, at + k, l)
  {
    WordThere(c, at, b, k);
    SmallWord(c, at + k);
  }

  /** A live entry of the directory, byte by byte. */
  ghost predicate WholeBytes(c: seq<Byte>, at: nat, n: nat)
  {
    && 1 <= n && at + n + 12 <= |c| && (c[at] != 0 || c[at + 1] != 0) && c[at + 2] == 0 && c[at + 3] == 0
    && c[at + 4] != 0 && Zero(c, at + 5, at + 8) && NonZero(c, at + 8, at + 8 + n) && LengthAt(c, at + 8 + n, n + 12)
  }

  lemma {:induction false} WholeThere(c: seq<Byte>, at: nat, x: Slot)
    requires Sound(x) && Tight(x) && Usual(Pair(x.e.inum, x.e.name)) && Occurs(c, at, x.bytes)
    ensures WholeBytes(c, at, |x.e.name|)
  {
    var n := |x.e.name|;
    Fields(x);
    WordThere(c, at, x.bytes, 0);
    WordThere(c, at, x.bytes, 4);
    SmallWord(c, at);
    SmallerWord(c, at + 4);
    LengthThere(c, at, x.bytes, 8 + n, n + 12);
    forall i | at + 8 <= i < at + 8 + n ensures c[i] != 0 {
      NameByte(x, i - at - 8);
      assert c[at + (i - at)] == x.bytes[i - at];
    }
  }

  lemma {:induction false} BlankHead(c: seq<Byte>, at: nat, x: Slot)
    requires Sound(x) && Slack(x) && 13 <= |x.bytes| <= 267 && Occurs(c, at, x.bytes)
    ensures Zero(c, at, at + 8) && LengthAt(c, at + 8, |x.bytes|)
  {
    hide WordAt, Occurs;
    Fields(x);
    WordThere(c, at, x.bytes, 0);
    WordThere(c, at, x.bytes, 4);
    LengthThere(c, at, x.bytes, 8, |x.bytes|);
    ZeroWord(c, at, WordAt(c, at));
    ZeroWord(c, at + 4, WordAt(c, at + 4));
  }

  lemma {:induction false} ZeroWord(s: seq<Byte>, k: nat, w: Word)
    requires k + 4 <= |s| && w == WordAt(s, k) && w == 0
    ensures s[k] == 0 && s[k + 1] == 0 && s[k + 2] == 0 && s[k + 3] == 0
  {
    SmallerWord(s, k);
  }

  lemma {:induction false} ByteThere(c: seq<Byte>, at: nat, b: seq<Byte>, i: nat)
    requires Occurs(c, at, b) && at <= i < at + |b|
    ensures c[i] == b[i - at]
  {
    assert c[at + (i - at)] == b[i - at];
  }

  lemma {:induction false} BlankThere(c: seq<Byte>, at: nat, x: Slot)
    requires Sound(x) && Slack(x) && 13 <= |x.bytes| <= 267 && Occurs(c, at, x.bytes)
    ensures BlankBytes(c, at, |x.bytes|)
  {
    hide Sound, WordAt;
    var l := |x.bytes|;
    BlankHead(c, at, x);
    if l >= 16 { LengthThere(c, at, x.bytes, l - 4, l); }
    forall i | at + 12 <= i < at + l - 4 ensures c[i] != 0 {
      ByteThere(c, at, x.bytes, i);
    }
    if l < 16 {
      forall i | at + 12 <= i < at + l ensures c[i] == 0 {
        ByteThere(c, at, x.bytes, i);
      }
    }
  }

  lemma {:induction false} BoundaryThere(c: seq<Byte>, at: nat, x: Slot)
    requires Sound(x) && UsualSlot(x) && Occurs(c, at, x.bytes)
    ensures Boundary(c, at)
  {
    if Tight(x) && Usual(Pair(x.e.inum, x.e.name)) {
      WholeThere(c, at, x);
    } else {
      BlankThere(c, at, x);
    }
  }

  lemma {:induction false} NoneInside(c: seq<Byte>, at: nat, x: Slot, r: nat)
    requires Sound(x) && UsualSlot(x) && Occurs(c, at, x.bytes) && |c| <= MAXFILE * BLOCK_SIZE
    requires Boundary(c, at + |x.bytes|) && at < r < at + |x.bytes|
    ensures !ReadsUsual(c, r)
  {
    hide ReadsUsual, Sound, Boundary;
    if Tight(x) && Usual(Pair(x.e.inum, x.e.name)) {
      WholeThere(c, at, x);
      NoneInWhole(c, at, |x.e.name|, r);
    } else {
      BlankThere(c, at, x);
      NoneInBlank(c, at, |x.bytes|, r);
    }
  }

  ghost predicate AllUsual(slots: seq<Slot>)
  {
    forall k | 0 <= k < |slots| :: UsualSlot(slots[k])
  }

  /** Wherever a scan reads behind offset `at`, it does not read a usual pair that is
      not listed there. */
  lemma {:induction false} NotReadAt(c: seq<Byte>, slots: seq<Slot>, at: nat, r: nat, p: Pair)
    requires AllSound(slots) && AllUsual(slots) && Occurs(c, at, Bytes(slots))
    requires at <= r <= |c| <= MAXFILE * BLOCK_SIZE && at + |Bytes(slots)| == |c|
    requires Usual(p) && !Listed(Live(slots), p.name)
    ensures Steps(Parse(c, r), |c| - r) ==> p !in Shown(Parse(c, r))
    decreases |slots|
  {
    hide Parse, Occurs, Sound;
    if slots != [] {
      var x, rest := slots[0], slots[1..];
      OccursSplit(c, at, x.bytes, Bytes(rest));
      OneMore(Shown(x.e), Live(rest), p.name);
      if r >= at + |x.bytes| {
        NotReadAt(c, rest, at + |x.bytes|, r, p);
      } else if r == at {
        ReadThere(c, at, x);
      } else {
        NextBoundary(c, rest, at + |x.bytes|);
        NoneInside(c, at, x, r);
      }
    }
  }

  lemma {:induction false} ReadThere(c: seq<Byte>, at: nat, x: Slot)
    requires Sound(x) && Occurs(c, at, x.bytes)
    ensures Parse(c, at) == x.e
  {
    assert ReadsBack(x, c, at);
  }

  lemma {:induction false} NextBoundary(c: seq<Byte>, slots: seq<Slot>, at: nat)
    requires AllSound(slots) && AllUsual(slots) && Occurs(c, at, Bytes(slots)) && at + |Bytes(slots)| == |c|
    ensures Boundary(c, at)
  {
    if slots != [] {
      OccursSplit(c, at, slots[0].bytes, Bytes(slots[1..]));
      BoundaryThere(c, at, slots[0]);
    }
  }

  /** So no scan that starts there lists it. */
  lemma {:induction false} NotListedFrom(c: seq<Byte>, slots: seq<Slot>, at: nat, r: nat, p: Pair)
    requires AllSound(slots) && AllUsual(slots) && Occurs(c, at, Bytes(slots))
    requires at <= r <= |c| <= MAXFILE * BLOCK_SIZE && at + |Bytes(slots)| == |c|
    requires Usual(p) && !Listed(Live(slots), p.name)
    ensures var l := ReadAll(ChainAt(c, r)); l.Some? ==> p !in l.value
    decreases |c| - r
  {
    hide Occurs, Bytes, Live, AllSound, AllUsual, Parse;
    NotReadAt(c, slots, at, r, p);
    var e := Parse(c, r);
    if Steps(e, |c| - r) {
      NotListedFrom(c, slots, at, r + e.len, p);
    }
  }

  // ----- behind a named entry -----

  /** An entry with a name of n bytes whose length has become 12, and an entry with an
      inode number and a name right behind it. */
  ghost predicate Shortened(c: seq<Byte>, q: nat, n: nat)
  {
    && 1 <= n && q + n + 25 <= |c| <= MAXFILE * BLOCK_SIZE && NonZero(c, q + 8, q + 8 + n)
    && c[q + 8 + n] == 12 && Zero(c, q + 9 + n, q + 12 + n)
    && Boundary(c, q + 12 + n) && c[q + 16 + n] != 0
  }

  /** The scan goes on inside the name and reads no usual entry there ... */
  lemma {:induction false} OddEntry(c: seq<Byte>, q: nat, n: nat)
    requires Shortened(c, q, n)
    ensures !ReadsUsual(c, q + 12)
  {
    if ReadsUsual(c, q + 12) {
      UsualBytes(c, q + 12);
      OddBytes(c, q, n);
      assert false;
    }
  }

  lemma {:induction false} OddBytes(c: seq<Byte>, q: nat, n: nat)
    requires Shortened(c, q, n) && c[q + 14] == 0 && c[q + 15] == 0
    requires c[q + 16] != 0 && c[q + 17] == 0 && c[q + 18] == 0 && c[q + 19] == 0
    ensures n == 4 && c[q + 21] == 0 && c[q + 24] != 0
  {
  }

  /** ... but a live one, if it reads one at all. */
  lemma {:induction false} OddIsShown(c: seq<Byte>, q: nat, n: nat)
    requires Shortened(c, q, n) && Steps(Parse(c, q + 12), |c| - (q + 12))
    ensures Parse(c, q + 12).inum != 0
  {
    hide Shortened, WordAt;
    if Parse(c, q + 12).inum == 0 {
      OddZeros(c, q, n);
      GarbageBehind(c, q + 12);
      assert false;
    }
  }

  lemma {:induction false} OddZeros(c: seq<Byte>, q: nat, n: nat)
    requires Shortened(c, q, n) && WordAt(c, q + 12) == 0
    ensures n == 3 && q + 24 <= |c| < 0x100_0000 && c[q + 19] != 0
  {
    hide WordAt;
    ZeroWord(c, q + 12, WordAt(c, q + 12));
  }

  lemma {:induction false} ReadBehind(slots: seq<Slot>, at: nat, tail: Chain)
    ensures ReadAll(ChainOf(slots, at, tail)) == After(Live(slots), ReadAll(tail))
  {
    if slots == [] {
      ReadStart(ReadAll(tail));
    } else {
      ReadBehind(slots[1..], at + |slots[0].bytes|, tail);
      if ReadAll(tail).Some? {
        Assoc(Shown(slots[0].e), Live(slots[1..]), ReadAll(tail).value);
      }
    }
  }

  /** The listing of a string that begins with the slots a. */
  lemma {:induction false} ListingBehind(c: seq<Byte>, a: seq<Slot>)
    requires AllSound(a) && Occurs(c, 0, Bytes(a))
    ensures Listing(c) == After(Live(a), ReadAll(ChainAt(c, |Bytes(a)|)))
  {
    SlotChain(c, a, 0);
    ReadBehind(a, 0, ChainAt(c, |Bytes(a)|));
  }

  lemma {:induction false} ReadOne(c: seq<Byte>, q: nat)
    requires q <= |c|
    ensures var e := Parse(c, q);
            !e.End? ==> ReadAll(ChainAt(c, q)) ==
                        if Steps(e, |c| - q) then After(Shown(e), ReadAll(ChainAt(c, q + e.len))) else None
  {
  }

  lemma {:induction false} HeadThere(c: seq<Byte>, p: nat, n: Slot)
    requires AlwaysReads(n) && Occurs(c, p, n.bytes) && n.e.Item? && |n.bytes| == |n.e.name| + 12
    requires Usual(Pair(n.e.inum, n.e.name))
    ensures p + 13 <= |c| && Boundary(c, p) && c[p + 4] != 0
  {
    hide WordAt;
    assert ReadsBack(n, c, p);
    SmallWord(c, p);
    SmallerWord(c, p + 4);
    assert n.e.name[0] == c[p + 8];
  }

  lemma {:induction false} NameKept(s: seq<Byte>, c: seq<Byte>, q: nat, x: Slot, w: seq<Byte>, f: seq<Byte>)
    requires Sound(x) && Tight(x) && Occurs(s, q, x.bytes) && Patched(s, c, q + |x.bytes|, w, f)
    ensures NonZero(c, q + 8, q + 8 + |x.e.name|)
  {
    forall i | q + 8 <= i < q + 8 + |x.e.name| ensures c[i] != 0 {
      NameByte(x, i - q - 8);
      ByteThere(s, q, x.bytes, i);
    }
  }

  lemma {:induction false} LengthTwelve(c: seq<Byte>, k: nat, w: seq<Byte>)
    requires |w| == 4 && w[0] == 12 && WordAt(w, 0) == 12 && Occurs(c, k, w)
    ensures c[k] == 12 && Zero(c, k + 1, k + 4)
  {
    SmallerWord(w, 0);
    forall i | k <= i < k + 4 ensures c[i] == w[i - k] {
      ByteThere(c, k, w, i);
    }
  }

  lemma {:induction false} ShortenedThere(s: seq<Byte>, c: seq<Byte>, q: nat, x: Slot, w: seq<Byte>, n: Slot)
    requires Sound(x) && Tight(x) && x.e.name != [] && Occurs(s, q, x.bytes) && |c| <= MAXFILE * BLOCK_SIZE
    requires Patched(s, c, q + |x.bytes|, w, n.bytes) && |w| == 4 && w[0] == 12 && WordAt(w, 0) == 12
    requires AlwaysReads(n) && n.e.Item? && |n.bytes| == |n.e.name| + 12 && Usual(Pair(n.e.inum, n.e.name))
    ensures Shortened(c, q, |x.e.name|)
    ensures Parse(c, q) == Item(x.e.inum, x.e.name, 12)
  {
    hide Boundary, Parse, WordAt, Sound, AlwaysReads, Occurs, NonZero, Zero;
    var p := q + |x.bytes|;
    HeadThere(c, p, n);
    NameKept(s, c, q, x, w, n.bytes);
    LengthTwelve(c, p - 4, w);
    forall j | 0 <= j < |x.bytes| - 4 ensures c[q + j] == x.bytes[j] {
      ByteThere(s, q, x.bytes, q + j);
    }
    TightBefore(c, q, x, w);
  }

  ghost predicate AllPairsUsual(list: seq<Pair>)
  {
    forall k | 0 <= k < |list| :: Usual(list[k])
  }

  /** A scan that meets the shortened entry lists no usual directory. */
  lemma {:induction false} ShortenedListing(c: seq<Byte>, q: nat, n: nat)
    requires Shortened(c, q, n) && Parse(c, q).Item? && Parse(c, q).len == 12
    ensures var l := ReadAll(ChainAt(c, q)); l.Some? ==> !AllPairsUsual(l.value)
  {
    hide ChainAt, Parse;
    OddEntry(c, q, n);
    ReadOne(c, q);
    ReadOne(c, q + 12);
    var e := Parse(c, q + 12);
    if Steps(e, |c| - (q + 12)) {
      OddIsShown(c, q, n);
      var l, first, more := ReadAll(ChainAt(c, q)), Shown(Parse(c, q)), ReadAll(ChainAt(c, q + 12 + e.len));
      if more.Some? {
        assert l.value[|first|] == Pair(e.inum, e.name);
      }
    }
  }

  lemma {:induction false} NotUsualBehind(a: seq<Pair>, r: Option<seq<Pair>>)
    requires r.Some? ==> !AllPairsUsual(r.value)
    ensures After(a, r).Some? ==> !AllPairsUsual(After(a, r).value)
  {
    if r.Some? {
      var k :| 0 <= k < |r.value| && !Usual(r.value[k]);
      assert (a + r.value)[|a| + k] == r.value[k];
    }
  }

  lemma {:induction false} LiveUsual(slots: seq<Slot>)
    requires AllUsual(slots)
    ensures AllPairsUsual(Live(slots))
  {
    if slots != [] {
      LiveUsual(slots[1..]);
    }
  }

  lemma {:induction false} DirUsual(slots: seq<Slot>)
    requires UsualDir(slots)
    ensures AllUsual(slots[1..]) && AllPairsUsual(Live(slots)) && Live(slots) == Live(slots[1..])
  {
    LiveUsual(slots[1..]);
  }

  // ----- the listing after a split -----

  /** Behind a named entry. */
  lemma {:induction false} NamedListing(slots: seq<Slot>, s: seq<Byte>, name: Name, inum: Word, k: nat, c: seq<Byte>,
                                        w: seq<Byte>, n: Slot)
    requires AllSound(slots) && UsualDir(slots) && |s| <= MAXFILE * BLOCK_SIZE && Usual(Pair(inum, name))
    requires SplitInto(slots, s, name, inum, k, c, w, n) && Damaged(c, slots[..k - 1], slots[k - 1])
    requires slots[k - 1].e.name != []
    ensures Listing(c).Some? ==> !AllPairsUsual(Listing(c).value)
  {
    hide Bytes, ChainAt, SpotFor, Sound, Occurs, Tiled;
    var a, x := slots[..k - 1], slots[k - 1];
    var q := |Bytes(a)|;
    ShortenedThere(s, c, q, x, w, n);
    ShortenedListing(c, q, |x.e.name|);
    ListingBehind(c, a);
    NotUsualBehind(Live(a), ReadAll(ChainAt(c, q)));
  }

  lemma {:induction false} TailKept(s: seq<Byte>, c: seq<Byte>, p: nat, w: seq<Byte>, f: seq<Byte>,
                                    at: nat, b: seq<Byte>)
    requires Patched(s, c, p, w, f) && Occurs(s, at, b) && p + |f| <= at
    ensures Occurs(c, at, b)
  {
    forall j | 0 <= j < |b| ensures c[at + j] == b[j] {
      assert s[at + j] == b[j];
    }
  }

  lemma {:induction false} TailOccurs(slots: seq<Slot>, k: nat)
    requires k < |slots|
    ensures var at := |Bytes(slots[..k])| + |slots[k].bytes|;
            Occurs(Bytes(slots), at, Bytes(slots[k + 1..])) && at + |Bytes(slots[k + 1..])| == |Bytes(slots)|
  {
    var s, a, b, t := Bytes(slots), Bytes(slots[..k]), slots[k].bytes, Bytes(slots[k + 1..]);
    BytesAround(slots, k);
    assert Occurs(s, 0, s);
    OccursSplit(s, 0, a + b, t);
  }

  lemma {:induction false} ListedAmong(a: seq<Pair>, b: seq<Pair>, c: seq<Pair>, name: seq<Byte>)
    ensures Listed(a, name) || Listed(c, name) ==> Listed(a + b + c, name)
  {
    if Listed(a, name) {
      var i :| 0 <= i < |a| && a[i].name == name;
      assert (a + b + c)[i] == a[i];
    } else if Listed(c, name) {
      var i :| 0 <= i < |c| && c[i].name == name;
      assert (a + b + c)[|a| + |b| + i] == c[i];
    }
  }

  lemma {:induction false} LiveAroundListed(slots: seq<Slot>, k: nat, name: seq<Byte>)
    requires k < |slots| && !Listed(Live(slots), name)
    ensures !Listed(Live(slots[..k]), name) && !Listed(Live(slots[k + 1..]), name)
  {
    LiveAround(slots, k);
    ListedAmong(Live(slots[..k]), Shown(slots[k].e), Live(slots[k + 1..]), name);
  }

  /** The entries from the skipped-to offset on do not include the new one. */
  lemma {:induction false} SkippedListing(slots: seq<Slot>, s: seq<Byte>, k: nat, c: seq<Byte>,
                                          w: seq<Byte>, f: seq<Byte>, r: nat, pr: Pair)
    requires AllSound(slots) && UsualDir(slots) && s == Bytes(slots) && |s| <= MAXFILE * BLOCK_SIZE && 0 < k < |slots|
    requires Patched(s, c, |Bytes(slots[..k])|, w, f) && |f| <= |slots[k].bytes| <= 267
    requires |Bytes(slots[..k])| + 267 <= r <= |c| && Usual(pr) && !Listed(Live(slots), pr.name)
    ensures var l := ReadAll(ChainAt(c, r)); l.Some? ==> pr !in l.value
  {
    hide Bytes, ChainAt, Live, Sound, ReadAll;
    var p, b := |Bytes(slots[..k])|, slots[k + 1..];
    var at := p + |slots[k].bytes|;
    TailOccurs(slots, k);
    TailKept(s, c, p, w, f, at, Bytes(b));
    LiveAroundListed(slots, k, pr.name);
    NotListedFrom(c, b, at, r, pr);
  }

  /** Behind a 13-byte blank. */
  lemma {:induction false} GapListing(slots: seq<Slot>, s: seq<Byte>, name: Name, inum: Word, k: nat, c: seq<Byte>,
                                      w: seq<Byte>, n: Slot)
    requires AllSound(slots) && UsualDir(slots) && s == Bytes(slots) && |s| <= MAXFILE * BLOCK_SIZE
    requires Usual(Pair(inum, name)) && !Listed(Live(slots), name)
    requires SplitInto(slots, s, name, inum, k, c, w, n) && Damaged(c, slots[..k - 1], slots[k - 1])
    requires slots[k - 1].e == Item(0, [], 13)
    ensures Listing(c).Some? ==> Pair(inum, name) !in Listing(c).value
  {
    hide Bytes, ChainAt, SpotFor, Sound, Occurs, Tiled, Live, ReadAll;
    var a, pr := slots[..k - 1], Pair(inum, name);
    var q := |Bytes(a)|;
    ListingBehind(c, a);
    ReadOne(c, q);
    LiveAroundListed(slots, k - 1, name);
    if q + SKIP <= |c| {
      SkippedListing(slots, s, k, c, w, n.bytes, q + SKIP, pr);
      ReadStart(ReadAll(ChainAt(c, q + SKIP)));
      assert pr !in Live(a);
    }
  }

  lemma {:induction false} MeantHas(list: seq<Pair>, op: Op)
    requires op.Make? && op.inum != 0 && !Listed(list, op.name) && AllPairsUsual(list) && UsualOp(op)
    ensures AllPairsUsual(Meant(list, op)) && Pair(op.inum, op.name) in Meant(list, op)
  {
    assert Meant(list, op)[|list|] == Pair(op.inum, op.name);
  }

  /** After a split the listing is not the intended one. */
  lemma {:induction false} SplitMissesMeaning(slots: seq<Slot>, s: seq<Byte>, op: Op)
    requires AllSound(slots) && UsualDir(slots) && s == Bytes(slots) && |s| <= MAXFILE * BLOCK_SIZE
    requires op.Make? && UsualOp(op) && !Listed(Live(slots), op.name) && !Appends(s, op)
    ensures Listing(Next(s, op)) != Some(Meant(Live(slots), op))
  {
    hide Bytes, ChainAt, Sound, Occurs, Tiled, Live, ReadAll, Creating, Meant, Patched, Stands, Takes;
    var k, c, w, n := SplitBreaks(slots, s, op.name, op.inum);
    DirUsual(slots);
    MeantHas(Live(slots), op);
    if slots[k - 1].e == Item(0, [], 13) {
      GapListing(slots, s, op.name, op.inum, k, c, w, n);
    } else if slots[k - 1].e.name != [] {
      NamedListing(slots, s, op.name, op.inum, k, c, w, n);
    }
  }

  /** Create does what it is meant to if and only if it appends: after any run of
      appending creates and removals, with inode numbers of the store and names of 1 to
      255 bytes, readdir shows the old entries and the new one exactly when no entry
      passes the room test. */
  lemma {:induction false} CreateListsIffAppends(empty: seq<Byte>, ops: seq<Op>, op: Op)
    requires empty == NewDir() && AlwaysAppends(empty, ops) && forall k | 0 <= k < |ops| :: UsualOp(ops[k])
    requires |Run(empty, ops)| <= MAXFILE * BLOCK_SIZE && op.Make? && UsualOp(op)
    requires !Listed(MeantAll([], ops), op.name)
    ensures var content, list := Run(empty, ops), MeantAll([], ops);
            Listing(Next(content, op)) == Some(Meant(list, op)) <==> Appends(content, op)
  {
    hide ChainAt, Bytes, Tiled, NewDir, Sound, Live, ReadAll, Meant;
    var x := Beginning(empty);
    var slots := RunKeeps([x], ops);
    if Appends(Bytes(slots), op) {
      var after := StepKeeps(slots, op);
      ReadsLive(after);
    } else {
      SplitMissesMeaning(slots, Bytes(slots), op);
    }
  }
}

/**
  The wire format of RPC arguments: numbers with the high byte first, strings,
  vectors and maps behind a 32-bit count. Decoding is driven by the type expected
  and keeps a position and an ok flag.
 */
module Codec {
  import opened Common
  import opened DiskLayout

  /** The types that can be marshalled. The entries of a map are pairs. */
  datatype Shape =
    | Number(width: nat)
    | Text
    | Both(first: Shape, second: Shape)
    | Vector(elem: Shape)
    | Table(entry: Shape)

  datatype Value = Num(n: nat) | Str(s: seq<Byte>) | Two(a: Value, b: Value) | Many(items: seq<Value>)

  function Pow256(w: nat): nat
  {
    if w == 0 then 1 else 256 * Pow256(w - 1)
  }

  /** v has the given type. The items of a map are its entries in key order, so no
      key occurs twice. */
  ghost predicate HasShape(v: Value, sh: Shape)
    decreases sh
  {
    match sh
    case Number(w) => v.Num? && v.n < Pow256(w)
    case Text => v.Str? && |v.s| < 0x1_0000_0000
    case Both(x, y) => v.Two? && HasShape(v.a, x) && HasShape(v.b, y)
    case Vector(e) => v.Many? && |v.items| < 0x1_0000_0000 && forall k | 0 <= k < |v.items| :: HasShape(v.items[k], e)
    case Table(e) =>
      && v.Many? && |v.items| < 0x1_0000_0000 && e.Both? && KeysDiffer(v.items)
      && forall k | 0 <= k < |v.items| :: HasShape(v.items[k], e)
  }

  ghost predicate KeysDiffer(items: seq<Value>)
  {
    && (forall k | 0 <= k < |items| :: items[k].Two?)
    && forall k, l | 0 <= k < l < |items| :: items[k].a != items[l].a
  }

  // ----- encoding -----

  /** The low w bytes of n, high byte first. */
  function BigEndian(n: nat, w: nat): (s: seq<Byte>)
    ensures |s| == w
  {
    if w == 0 then [] else BigEndian(n / 256, w - 1) + [n % 256]
  }

  function Encode(v: Value, sh: Shape): seq<Byte>
    requires HasShape(v, sh)
    decreases sh, 0
  {
    match sh
    case Number(w) => BigEndian(v.n, w)
    case Text => BigEndian(|v.s|, 4) + v.s
    case Both(x, y) => Encode(v.a, x) + Encode(v.b, y)
    case Vector(e) => BigEndian(|v.items|, 4) + EncodeAll(v.items, e)
    case Table(e) => BigEndian(|v.items|, 4) + EncodeAll(v.items, e)
  }

  function EncodeAll(items: seq<Value>, e: Shape): seq<Byte>
    requires forall k | 0 <= k < |items| :: HasShape(items[k], e)
    decreases e, |items| + 1
  {
    if items == [] then []
    else EncodeAll(items[..|items| - 1], e) + Encode(items[|items| - 1], e)
  }

  // ----- decoding -----

  datatype In = In(ind: nat, ok: bool)

  /** One byte; past the end 0, and not ok from then on. */
  function TakeByte(buf: seq<Byte>, st: In): (Byte, In)
  {
    if st.ind >= |buf| then (0, In(st.ind, false)) else (buf[st.ind], In(st.ind + 1, st.ok))
  }

  function TakeNumber(buf: seq<Byte>, st: In, w: nat): (r: (nat, In))
    ensures r.0 < Pow256(w)
  {
    if w == 0 then (0, st)
    else
      var (hi, st1) := TakeNumber(buf, st, w - 1);
      var (lo, st2) := TakeByte(buf, st1);
      (hi * 256 + lo, st2)
  }

  function TakeText(buf: seq<Byte>, st: In, n: nat): (seq<Byte>, In)
  {
    if !st.ok then ([], st)
    else if st.ind + n > |buf| then ([], In(st.ind, false))
    else (buf[st.ind..st.ind + n], In(st.ind + n, true))
  }

  /** Assignment to a map: the entry with the same key is replaced. */
  function Insert(items: seq<Value>, p: Value): seq<Value>
  {
    if items == [] then [p]
    else if p.Two? && items[0].Two? && items[0].a == p.a then [p] + items[1..]
    else [items[0]] + Insert(items[1..], p)
  }

  function Decode(buf: seq<Byte>, st: In, sh: Shape): (Value, In)
    decreases sh, 0
  {
    match sh
    case Number(w) =>
      var (n, st1) := TakeNumber(buf, st, w);
      (Num(n), st1)
    case Text =>
      var (n, st1) := TakeNumber(buf, st, 4);
      var (s, st2) := TakeText(buf, st1, n);
      (Str(s), st2)
    case Both(x, y) =>
      var (a, st1) := Decode(buf, st, x);
      var (b, st2) := Decode(buf, st1, y);
      (Two(a, b), st2)
    case Vector(e) =>
      var (n, st1) := TakeNumber(buf, st, 4);
      var (items, st2) := DecodeAll(buf, st1, e, n, false);
      (Many(items), st2)
    case Table(e) =>
      var (n, st1) := TakeNumber(buf, st, 4);
      var (items, st2) := DecodeAll(buf, st1, e, n, true);
      (Many(items), st2)
  }

  /** n items into an empty container. */
  function DecodeAll(buf: seq<Byte>, st: In, e: Shape, n: nat, asMap: bool): (seq<Value>, In)
    decreases e, n + 1
  {
    if n == 0 then ([], st)
    else
      var (items, st1) := DecodeAll(buf, st, e, n - 1, asMap);
      var (v, st2) := Decode(buf, st1, e);
      (if asMap then Insert(items, v) else items + [v], st2)
  }

  // ----- round trip -----

  lemma {:induction false} NumberBack(buf: seq<Byte>, p: nat, n: nat, w: nat)
    requires n < Pow256(w) && Occurs(buf, p, BigEndian(n, w))
    ensures TakeNumber(buf, In(p, true), w) == (n, In(p + w, true))
  {
    if w > 0 {
      OccursSplit(buf, p, BigEndian(n / 256, w - 1), [n % 256]);
      NumberBack(buf, p, n / 256, w - 1);
      assert buf[p + (w - 1) + 0] == [n % 256][0];
    }
  }

  lemma {:induction false} CountBack(buf: seq<Byte>, p: nat, n: nat, w: nat)
    requires w == 4 && n < 0x1_0000_0000 && Occurs(buf, p, BigEndian(n, w))
    ensures TakeNumber(buf, In(p, true), w) == (n, In(p + 4, true))
  {
    assert Pow256(4) == 0x1_0000_0000;
    NumberBack(buf, p, n, w);
  }

  lemma {:induction false} TextBack(buf: seq<Byte>, p: nat, s: seq<Byte>)
    requires Occurs(buf, p, s)
    ensures TakeText(buf, In(p, true), |s|) == (s, In(p + |s|, true))
  {
    assert buf[p..p + |s|] == s;
  }

  lemma {:induction false} InsertNew(items: seq<Value>, p: Value)
    requires p.Two? && forall k | 0 <= k < |items| :: items[k].Two? && items[k].a != p.a
    ensures Insert(items, p) == items + [p]
  {
    if items != [] {
      assert forall k | 0 <= k < |items[1..]| :: items[1..][k] == items[k + 1];
      InsertNew(items[1..], p);
      assert [items[0]] + (items[1..] + [p]) == items + [p];
    }
  }

  /** Decoding what was encoded gives the value back and stops right behind it. */
  lemma {:induction false} RoundTrip(buf: seq<Byte>, p: nat, v: Value, sh: Shape)
    requires HasShape(v, sh) && Occurs(buf, p, Encode(v, sh))
    ensures Decode(buf, In(p, true), sh) == (v, In(p + |Encode(v, sh)|, true))
    decreases sh, 0
  {
    hide Occurs, BigEndian, TakeNumber, TakeText;
    match sh
    case Number(w) =>
      NumberBack(buf, p, v.n, w);
    case Text =>
      OccursSplit(buf, p, BigEndian(|v.s|, 4), v.s);
      CountBack(buf, p, |v.s|, 4);
      TextBack(buf, p + 4, v.s);
    case Both(x, y) =>
      OccursSplit(buf, p, Encode(v.a, x), Encode(v.b, y));
      RoundTrip(buf, p, v.a, x);
      RoundTrip(buf, p + |Encode(v.a, x)|, v.b, y);
    case Vector(e) =>
      OccursSplit(buf, p, BigEndian(|v.items|, 4), EncodeAll(v.items, e));
      CountBack(buf, p, |v.items|, 4);
      RoundTripAll(buf, p + 4, v.items, e, false);
    case Table(e) =>
      OccursSplit(buf, p, BigEndian(|v.items|, 4), EncodeAll(v.items, e));
      CountBack(buf, p, |v.items|, 4);
      RoundTripAll(buf, p + 4, v.items, e, true);
  }

  lemma {:induction false} RoundTripAll(buf: seq<Byte>, p: nat, items: seq<Value>, e: Shape, asMap: bool)
    requires forall k | 0 <= k < |items| :: HasShape(items[k], e)
    requires Occurs(buf, p, EncodeAll(items, e)) && (asMap ==> KeysDiffer(items))
    ensures DecodeAll(buf, In(p, true), e, |items|, asMap) == (items, In(p + |EncodeAll(items, e)|, true))
    decreases e, |items| + 1
  {
    hide Occurs, Insert, Decode, Encode, HasShape, KeysDiffer;
    if items != [] {
      var front, last := items[..|items| - 1], items[|items| - 1];
      OccursSplit(buf, p, EncodeAll(front, e), Encode(last, e));
      if asMap { InsertLast(items); }
      RoundTripAll(buf, p, front, e, asMap);
      RoundTrip(buf, p + |EncodeAll(front, e)|, last, e);
      assert items == front + [last];
    }
  }

  lemma {:induction false} InsertLast(items: seq<Value>)
    requires items != [] && KeysDiffer(items)
    ensures KeysDiffer(items[..|items| - 1]) && Insert(items[..|items| - 1], items[|items| - 1]) == items
  {
    var front, last := items[..|items| - 1], items[|items| - 1];
    InsertNew(front, last);
    assert items == front + [last];
  }

  // ----- the wire format of numbers -----

  /** The number written in base 256 with the most significant digit first. */
  function Positional(s: seq<Byte>): nat
  {
    if s == [] then 0 else s[0] * Pow256(|s| - 1) + Positional(s[1..])
  }

  lemma {:induction false} PositionalSnoc(a: seq<Byte>, b: Byte)
    ensures Positional(a + [b]) == 256 * Positional(a) + b
  {
    var s := a + [b];
    if a == [] {
      assert s == [b] && s[1..] == [];
    } else {
      PositionalSnoc(a[1..], b);
      assert s[0] == a[0] && s[1..] == a[1..] + [b];
      Scaled(a[0], Pow256(|a| - 1));
    }
  }

  lemma {:induction false} Scaled(d: nat, p: nat)
    ensures d * (256 * p) == 256 * (d * p)
  {
  }

  /** Numbers travel with the high byte first. */
  lemma {:induction false} HighByteFirst(n: nat, w: nat)
    requires n < Pow256(w)
    ensures Positional(BigEndian(n, w)) == n
  {
    if w > 0 {
      HighByteFirst(n / 256, w - 1);
      PositionalSnoc(BigEndian(n / 256, w - 1), n % 256);
    }
  }

  // ----- truncated messages -----

  lemma {:induction false} NotOkNumber(buf: seq<Byte>, st: In, w: nat)
    requires !st.ok
    ensures !TakeNumber(buf, st, w).1.ok
  {
    if w > 0 { NotOkNumber(buf, st, w - 1); }
  }

  /** Once not ok, never ok again. */
  lemma {:induction false} NotOkStays(buf: seq<Byte>, st: In, sh: Shape)
    requires !st.ok
    ensures !Decode(buf, st, sh).1.ok
    decreases sh, 0
  {
    match sh
    case Number(w) => NotOkNumber(buf, st, w);
    case Text => NotOkNumber(buf, st, 4);
    case Both(x, y) =>
      NotOkStays(buf, st, x);
      NotOkStays(buf, Decode(buf, st, x).1, y);
    case Vector(e) =>
      NotOkNumber(buf, st, 4);
      var (n, st1) := TakeNumber(buf, st, 4);
      NotOkStaysAll(buf, st1, e, n, false);
    case Table(e) =>
      NotOkNumber(buf, st, 4);
      var (n, st1) := TakeNumber(buf, st, 4);
      NotOkStaysAll(buf, st1, e, n, true);
  }

  lemma {:induction false} NotOkStaysAll(buf: seq<Byte>, st: In, e: Shape, n: nat, asMap: bool)
    requires !st.ok
    ensures !DecodeAll(buf, st, e, n, asMap).1.ok
    decreases e, n + 1
  {
    if n > 0 {
      NotOkStaysAll(buf, st, e, n - 1, asMap);
      NotOkStays(buf, DecodeAll(buf, st, e, n - 1, asMap).1, e);
    }
  }

  /** `piece` begins at p but the string ends before it does. */
  ghost predicate CutShort(s: seq<Byte>, p: nat, piece: seq<Byte>)
  {
    p <= |s| < p + |piece| && forall k | p <= k < |s| :: s[k] == piece[k - p]
  }

  lemma {:induction false} CutShortSplit(s: seq<Byte>, p: nat, a: seq<Byte>, b: seq<Byte>)
    requires CutShort(s, p, a + b)
    ensures CutShort(s, p, a) || (Occurs(s, p, a) && CutShort(s, p + |a|, b))
  {
    if |s| >= p + |a| {
      forall k | 0 <= k < |a| ensures s[p + k] == a[k] {
        assert s[p + k] == (a + b)[p + k - p];
      }
    }
  }

  lemma {:induction false} NumberCut(buf: seq<Byte>, p: nat, n: nat, w: nat)
    requires n < Pow256(w) && CutShort(buf, p, BigEndian(n, w))
    ensures !TakeNumber(buf, In(p, true), w).1.ok
  {
    if w > 0 {
      CutShortSplit(buf, p, BigEndian(n / 256, w - 1), [n % 256]);
      if CutShort(buf, p, BigEndian(n / 256, w - 1)) {
        NumberCut(buf, p, n / 256, w - 1);
      } else {
        NumberBack(buf, p, n / 256, w - 1);
      }
    }
  }

  lemma {:induction false} CountCut(buf: seq<Byte>, p: nat, n: nat, w: nat)
    requires w == 4 && n < 0x1_0000_0000 && CutShort(buf, p, BigEndian(n, w))
    ensures !TakeNumber(buf, In(p, true), w).1.ok
  {
    assert Pow256(4) == 0x1_0000_0000;
    NumberCut(buf, p, n, w);
  }

  /** A message that ends before its last value does is never decoded as ok. */
  lemma {:induction false} TruncatedIsNotOk(buf: seq<Byte>, p: nat, v: Value, sh: Shape)
    requires HasShape(v, sh) && CutShort(buf, p, Encode(v, sh))
    ensures !Decode(buf, In(p, true), sh).1.ok
    decreases sh, 0
  {
    hide Occurs, BigEndian, TakeNumber;
    match sh
    case Number(w) =>
      NumberCut(buf, p, v.n, w);
    case Text =>
      CutShortSplit(buf, p, BigEndian(|v.s|, 4), v.s);
      if CutShort(buf, p, BigEndian(|v.s|, 4)) { CountCut(buf, p, |v.s|, 4); } else { CountBack(buf, p, |v.s|, 4); }
    case Both(x, y) =>
      CutShortSplit(buf, p, Encode(v.a, x), Encode(v.b, y));
      if CutShort(buf, p, Encode(v.a, x)) {
        TruncatedIsNotOk(buf, p, v.a, x);
        NotOkStays(buf, Decode(buf, In(p, true), x).1, y);
      } else {
        RoundTrip(buf, p, v.a, x);
        TruncatedIsNotOk(buf, p + |Encode(v.a, x)|, v.b, y);
      }
    case Vector(e) =>
      ItemsCut(buf, p, v.items, e, false);
    case Table(e) =>
      ItemsCut(buf, p, v.items, e, true);
  }

  lemma {:induction false} ItemsCut(buf: seq<Byte>, p: nat, items: seq<Value>, e: Shape, asMap: bool)
    requires forall k | 0 <= k < |items| :: HasShape(items[k], e)
    requires |items| < 0x1_0000_0000 && CutShort(buf, p, BigEndian(|items|, 4) + EncodeAll(items, e))
    requires asMap ==> KeysDiffer(items)
    ensures var (n, st) := TakeNumber(buf, In(p, true), 4); !DecodeAll(buf, st, e, n, asMap).1.ok
    decreases e, |items| + 2
  {
    hide Occurs, BigEndian, TakeNumber, DecodeAll, EncodeAll;
    CutShortSplit(buf, p, BigEndian(|items|, 4), EncodeAll(items, e));
    var (n, st) := TakeNumber(buf, In(p, true), 4);
    if CutShort(buf, p, BigEndian(|items|, 4)) {
      CountCut(buf, p, |items|, 4);
      NotOkStaysAll(buf, st, e, n, asMap);
    } else {
      CountBack(buf, p, |items|, 4);
      AllCut(buf, p + 4, items, e, asMap);
    }
  }

  lemma {:induction false} AllCut(buf: seq<Byte>, p: nat, items: seq<Value>, e: Shape, asMap: bool)
    requires forall k | 0 <= k < |items| :: HasShape(items[k], e)
    requires CutShort(buf, p, EncodeAll(items, e)) && (asMap ==> KeysDiffer(items))
    ensures !DecodeAll(buf, In(p, true), e, |items|, asMap).1.ok
    decreases e, |items| + 1
  {
    hide Occurs, Decode, Encode, HasShape, Insert;
    if items != [] {
      var front, last := items[..|items| - 1], items[|items| - 1];
      CutShortSplit(buf, p, EncodeAll(front, e), Encode(last, e));
      if CutShort(buf, p, EncodeAll(front, e)) {
        AllCut(buf, p, front, e, asMap);
        NotOkStays(buf, DecodeAll(buf, In(p, true), e, |front|, asMap).1, e);
      } else {
        RoundTripAll(buf, p, front, e, asMap);
        TruncatedIsNotOk(buf, p + |EncodeAll(front, e)|, last, e);
      }
    }
  }
}

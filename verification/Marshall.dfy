/**
  The marshalling buffers: a growing buffer with a write position, into which the
  header is packed in front of a body that is already there, and the buffer read on
  the other side.
 */
module Marshall {
  import opened Common
  import opened DiskLayout
  import opened Codec

  const HEADER := 24                  // five 32-bit fields and the 32-bit size
  const DEFAULT_SIZE := 1024

  datatype RequestHeader = RequestHeader(xid: Word, proc: Word, clientNonce: Word, serverNonce: Word, xidRep: Word)
  datatype ReplyHeader = ReplyHeader(xid: Word, ret: Word)

  function RequestBytes(h: RequestHeader): (s: seq<Byte>)
    ensures |s| == 20
  {
    BigEndian(h.xid, 4) + BigEndian(h.proc, 4) + BigEndian(h.clientNonce, 4) + BigEndian(h.serverNonce, 4) +
    BigEndian(h.xidRep, 4)
  }

  function ReplyBytes(h: ReplyHeader): (s: seq<Byte>)
    ensures |s| == 8
  {
    BigEndian(h.xid, 4) + BigEndian(h.ret, 4)
  }

  /** t is s with `piece` written at p, possibly longer. */
  ghost predicate Stored(s: seq<Byte>, t: seq<Byte>, p: nat, piece: seq<Byte>)
  {
    && |s| <= |t| && Occurs(t, p, piece)
    && forall j | 0 <= j < |s| && !(p <= j < p + |piece|) :: t[j] == s[j]
  }

  lemma {:induction false} StoredTwice(s: seq<Byte>, t: seq<Byte>, u: seq<Byte>, p: nat, a: seq<Byte>, b: seq<Byte>)
    requires Stored(s, t, p, a) && Stored(t, u, p + |a|, b)
    ensures Stored(s, u, p, a + b)
  {
    forall k | 0 <= k < |a| ensures u[p + k] == a[k] {
      assert t[p + k] == a[k];
    }
    OccursSplit(u, p, a, b);
  }

  class Writer {
    var buf: array<Byte>
    var capa: nat
    var ind: nat

    ghost predicate Valid()
      reads this
    {
      capa == buf.Length && DEFAULT_SIZE <= capa && ind <= capa
    }

    /** The bytes written behind the header. */
    ghost function Body(): seq<Byte>
      requires Valid() && HEADER <= ind
      reads this, buf
    {
      buf[HEADER..ind]
    }

    constructor ()
      ensures Valid() && fresh(buf) && ind == HEADER && Body() == []
    {
      buf := new Byte[DEFAULT_SIZE];
      capa := DEFAULT_SIZE;
      ind := HEADER;
    }

    method Realloc(size: nat)
      requires Valid() && capa <= size
      modifies this
      ensures Valid() && capa == size && ind == old(ind) && fresh(buf)
      ensures buf[..old(capa)] == old(buf[..])
    {
      var bigger := new Byte[size];
      forall k | 0 <= k < capa {
        bigger[k] := buf[k];
      }
      buf, capa := bigger, size;
    }

    method RawByte(x: Byte)
      requires Valid()
      modifies this, buf
      ensures Valid() && ind == old(ind) + 1 && (buf == old(buf) || fresh(buf))
      ensures Stored(old(buf[..]), buf[..], old(ind), [x])
    {
      if ind >= capa {
        Realloc(capa * 2);
      }
      buf[ind] := x;
      ind := ind + 1;
    }

    method RawBytes(p: seq<Byte>)
      requires Valid()
      modifies this, buf
      ensures Valid() && ind == old(ind) + |p| && (buf == old(buf) || fresh(buf))
      ensures Stored(old(buf[..]), buf[..], old(ind), p)
    {
      if ind + |p| > capa {
        Realloc(if capa > |p| then 2 * capa else capa + |p|);
      }
      forall k | 0 <= k < |p| {
        buf[ind + k] := p[k];
      }
      ind := ind + |p|;
    }

    /** A number of w bytes, high byte first. */
    method PutNumber(n: nat, w: nat)
      requires Valid()
      modifies this, buf
      ensures Valid() && ind == old(ind) + w && (buf == old(buf) || fresh(buf))
      ensures Stored(old(buf[..]), buf[..], old(ind), BigEndian(n, w))
    {
      if w > 0 {
        PutNumber(n / 256, w - 1);
        ghost var mid := buf[..];
        RawByte(n % 256);
        StoredTwice(old(buf[..]), mid, buf[..], old(ind), BigEndian(n / 256, w - 1), [n % 256]);
      }
    }

    method Put(v: Value, sh: Shape)
      requires Valid() && HasShape(v, sh)
      modifies this, buf
      ensures Valid() && ind == old(ind) + |Encode(v, sh)| && (buf == old(buf) || fresh(buf))
      ensures Stored(old(buf[..]), buf[..], old(ind), Encode(v, sh))
      decreases sh, 0
    {
      match sh
      case Number(w) =>
        PutNumber(v.n, w);
      case Text =>
        PutNumber(|v.s|, 4);
        ghost var mid := buf[..];
        RawBytes(v.s);
        StoredTwice(old(buf[..]), mid, buf[..], old(ind), BigEndian(|v.s|, 4), v.s);
      case Both(x, y) =>
        Put(v.a, x);
        ghost var mid := buf[..];
        Put(v.b, y);
        StoredTwice(old(buf[..]), mid, buf[..], old(ind), Encode(v.a, x), Encode(v.b, y));
      case Vector(e) =>
        PutItems(v.items, e);
      case Table(e) =>
        PutItems(v.items, e);
    }

    method PutItems(items: seq<Value>, e: Shape)
      requires Valid() && |items| < 0x1_0000_0000 && forall k | 0 <= k < |items| :: HasShape(items[k], e)
      modifies this, buf
      ensures var s := BigEndian(|items|, 4) + EncodeAll(items, e);
              && Valid() && ind == old(ind) + |s| && (buf == old(buf) || fresh(buf))
              && Stored(old(buf[..]), buf[..], old(ind), s)
      decreases e, |items| + 2
    {
      PutNumber(|items|, 4);
      ghost var mid, p := buf[..], ind;
      assert items[..0] == [];
      for i := 0 to |items|
        invariant Valid() && ind == p + |EncodeAll(items[..i], e)| && (buf == old(buf) || fresh(buf))
        invariant Stored(mid, buf[..], p, EncodeAll(items[..i], e))
      {
        ghost var before := buf[..];
        Put(items[i], e);
        StoredTwice(mid, before, buf[..], p, EncodeAll(items[..i], e), Encode(items[i], e));
        assert items[..i + 1][..i] == items[..i];
      }
      assert items[..|items|] == items;
      StoredTwice(old(buf[..]), mid, buf[..], old(ind), BigEndian(|items|, 4), EncodeAll(items, e));
    }

    /** The header goes in front of the body, which stays as it is. */
    method PackRequestHeader(h: RequestHeader)
      requires Valid() && HEADER <= ind
      modifies this, buf
      ensures Valid() && ind == old(ind) && Body() == old(Body()) && (buf == old(buf) || fresh(buf))
      ensures Occurs(buf[..], 4, RequestBytes(h))
    {
      hide BigEndian, Stored, Occurs;
      var saved := ind;
      ghost var s0 := buf[..];
      ind := 4;
      PutNumber(h.xid, 4);
      ghost var s1 := buf[..];
      PutNumber(h.proc, 4);
      ghost var s2 := buf[..];
      PutNumber(h.clientNonce, 4);
      ghost var s3 := buf[..];
      PutNumber(h.serverNonce, 4);
      ghost var s4 := buf[..];
      PutNumber(h.xidRep, 4);
      ind := saved;
      FiveStored([s0, s1, s2, s3, s4, buf[..]], BigEndian(h.xid, 4), BigEndian(h.proc, 4),
                 BigEndian(h.clientNonce, 4), BigEndian(h.serverNonce, 4), BigEndian(h.xidRep, 4));
      BodyKept(s0, buf[..], RequestBytes(h), saved);
    }

    method PackReplyHeader(h: ReplyHeader)
      requires Valid() && HEADER <= ind
      modifies this, buf
      ensures Valid() && ind == old(ind) && Body() == old(Body()) && (buf == old(buf) || fresh(buf))
      ensures Occurs(buf[..], 4, ReplyBytes(h))
    {
      var saved := ind;
      ghost var s0 := buf[..];
      ind := 4;
      PutNumber(h.xid, 4);
      ghost var s1 := buf[..];
      PutNumber(h.ret, 4);
      ind := saved;
      StoredTwice(s0, s1, buf[..], 4, BigEndian(h.xid, 4), BigEndian(h.ret, 4));
      BodyKept(s0, buf[..], ReplyBytes(h), saved);
    }
  }

  lemma {:induction false} FiveStored(t: seq<seq<Byte>>, a: seq<Byte>, b: seq<Byte>, c: seq<Byte>,
                                      d: seq<Byte>, e: seq<Byte>)
    requires |t| == 6 && |a| == |b| == |c| == |d| == |e| == 4
    requires Stored(t[0], t[1], 4, a) && Stored(t[1], t[2], 8, b) && Stored(t[2], t[3], 12, c)
    requires Stored(t[3], t[4], 16, d) && Stored(t[4], t[5], 20, e)
    ensures Stored(t[0], t[5], 4, a + b + c + d + e)
  {
    StoredTwice(t[0], t[1], t[2], 4, a, b);
    StoredTwice(t[0], t[2], t[3], 4, a + b, c);
    StoredTwice(t[0], t[3], t[4], 4, a + b + c, d);
    StoredTwice(t[0], t[4], t[5], 4, a + b + c + d, e);
  }

  lemma {:induction false} BodyKept(s: seq<Byte>, t: seq<Byte>, header: seq<Byte>, ind: nat)
    requires Stored(s, t, 4, header) && |header| <= 20 && HEADER <= ind <= |s|
    ensures |s| <= |t| && t[HEADER..ind] == s[HEADER..ind] && Occurs(t, 4, header)
  {
  }

  class Reader {
    const buf: seq<Byte>
    var ind: nat
    var ok: bool

    ghost function State(): In
      reads this
    {
      In(ind, ok)
    }

    /** A message as it arrives; reading starts behind the header. */
    constructor (message: seq<Byte>)
      ensures buf == message && ind == HEADER && ok == (|message| >= HEADER)
    {
      buf, ind, ok := message, HEADER, |message| >= HEADER;
    }

    method RawByte() returns (b: Byte)
      modifies this
      ensures (b, State()) == TakeByte(buf, old(State()))
    {
      b := 0;
      if ind >= |buf| {
        ok := false;
      } else {
        b := buf[ind];
        ind := ind + 1;
      }
    }

    method RawBytes(n: nat) returns (s: seq<Byte>)
      requires ok
      modifies this
      ensures (s, State()) == TakeText(buf, old(State()), n)
    {
      s := [];
      if ind + n > |buf| {
        ok := false;
      } else {
        s := buf[ind..ind + n];
        ind := ind + n;
      }
    }

    method GetNumber(w: nat) returns (n: nat)
      modifies this
      ensures (n, State()) == TakeNumber(buf, old(State()), w)
    {
      n := 0;
      if w > 0 {
        n := GetNumber(w - 1);
        var b := RawByte();
        n := n * 256 + b;
      }
    }

    method Get(sh: Shape) returns (v: Value)
      modifies this
      ensures (v, State()) == Decode(buf, old(State()), sh)
      decreases sh, 0
    {
      match sh
      case Number(w) =>
        var n := GetNumber(w);
        v := Num(n);
      case Text =>
        var n := GetNumber(4);
        var s := [];
        if ok {
          s := RawBytes(n);
        }
        v := Str(s);
      case Both(x, y) =>
        var a := Get(x);
        var b := Get(y);
        v := Two(a, b);
      case Vector(e) =>
        var items := GetItems(e, false);
        v := Many(items);
      case Table(e) =>
        var items := GetItems(e, true);
        v := Many(items);
    }

    method GetItems(e: Shape, asMap: bool) returns (items: seq<Value>)
      modifies this
      ensures var (n, st) := TakeNumber(buf, old(State()), 4);
              (items, State()) == DecodeAll(buf, st, e, n, asMap)
      decreases e, 1
    {
      var n := GetNumber(4);
      ghost var st := State();
      items := [];
      for i := 0 to n
        invariant (items, State()) == DecodeAll(buf, st, e, i, asMap)
      {
        var v := Get(e);
        items := if asMap then Insert(items, v) else items + [v];
      }
    }

    method OkDone() returns (done: bool)
      ensures done <==> State() == In(|buf|, true)
    {
      done := ok && ind == |buf|;
    }

    method GetWord() returns (n: Word)
      modifies this
      ensures (n, State()) == TakeWord(buf, old(State()))
    {
      assert Pow256(4) == 0x1_0000_0000;
      n := GetNumber(4);
    }

    method UnpackRequestHeader() returns (h: RequestHeader)
      modifies this
      ensures (h, State()) == TakeRequestHeader(buf, old(ok))
    {
      ind := 4;
      var a := GetWord();
      var b := GetWord();
      var c := GetWord();
      var d := GetWord();
      var e := GetWord();
      ind := HEADER;
      h := RequestHeader(a, b, c, d, e);
    }

    method UnpackReplyHeader() returns (h: ReplyHeader)
      modifies this
      ensures (h, State()) == TakeReplyHeader(buf, old(ok))
    {
      ind := 4;
      var a := GetWord();
      var b := GetWord();
      ind := HEADER;
      h := ReplyHeader(a, b);
    }
  }

  function TakeWord(buf: seq<Byte>, st: In): (Word, In)
  {
    assert Pow256(4) == 0x1_0000_0000;
    TakeNumber(buf, st, 4)
  }

  function TakeRequestHeader(buf: seq<Byte>, ok: bool): (RequestHeader, In)
  {
    var (a, s1) := TakeWord(buf, In(4, ok));
    var (b, s2) := TakeWord(buf, s1);
    var (c, s3) := TakeWord(buf, s2);
    var (d, s4) := TakeWord(buf, s3);
    var (e, s5) := TakeWord(buf, s4);
    (RequestHeader(a, b, c, d, e), In(HEADER, s5.ok))
  }

  function TakeReplyHeader(buf: seq<Byte>, ok: bool): (ReplyHeader, In)
  {
    var (a, s1) := TakeWord(buf, In(4, ok));
    var (b, s2) := TakeWord(buf, s1);
    (ReplyHeader(a, b), In(HEADER, s2.ok))
  }

  // ----- whole messages -----

  lemma {:induction false} WordBack(buf: seq<Byte>, p: nat, n: Word, w: nat)
    requires w == 4 && Occurs(buf, p, BigEndian(n, w))
    ensures TakeWord(buf, In(p, true)) == (n, In(p + 4, true))
  {
    CountBack(buf, p, n, w);
  }

  lemma {:induction false} FiveParts(s: seq<Byte>, p: nat, a: seq<Byte>, b: seq<Byte>, c: seq<Byte>,
                                     d: seq<Byte>, e: seq<Byte>)
    requires |a| == |b| == |c| == |d| == |e| == 4 && Occurs(s, p, a + b + c + d + e)
    ensures Occurs(s, p, a) && Occurs(s, p + 4, b) && Occurs(s, p + 8, c)
    ensures Occurs(s, p + 12, d) && Occurs(s, p + 16, e)
  {
    hide Occurs;
    OccursSplit(s, p, a + b + c + d, e);
    OccursSplit(s, p, a + b + c, d);
    OccursSplit(s, p, a + b, c);
    OccursSplit(s, p, a, b);
  }

  lemma {:induction false} RequestHeaderBack(m: seq<Byte>, h: RequestHeader)
    requires Occurs(m, 4, RequestBytes(h))
    ensures TakeRequestHeader(m, true) == (h, In(HEADER, true))
  {
    hide Occurs, BigEndian, TakeWord;
    FiveParts(m, 4, BigEndian(h.xid, 4), BigEndian(h.proc, 4), BigEndian(h.clientNonce, 4),
              BigEndian(h.serverNonce, 4), BigEndian(h.xidRep, 4));
    WordBack(m, 4, h.xid, 4);
    WordBack(m, 8, h.proc, 4);
    WordBack(m, 12, h.clientNonce, 4);
    WordBack(m, 16, h.serverNonce, 4);
    WordBack(m, 20, h.xidRep, 4);
  }

  lemma {:induction false} ReplyHeaderBack(m: seq<Byte>, h: ReplyHeader)
    requires Occurs(m, 4, ReplyBytes(h))
    ensures TakeReplyHeader(m, true) == (h, In(HEADER, true))
  {
    hide Occurs, BigEndian, TakeWord;
    OccursSplit(m, 4, BigEndian(h.xid, 4), BigEndian(h.ret, 4));
    WordBack(m, 4, h.xid, 4);
    WordBack(m, 8, h.ret, 4);
  }

  /** A request with this header and these arguments, whatever its size field, is read
      back in full: header, arguments, and nothing left over. */
  lemma {:induction false} RequestBack(m: seq<Byte>, h: RequestHeader, v: Value, sh: Shape)
    requires HasShape(v, sh) && |m| >= HEADER && Occurs(m, 4, RequestBytes(h)) && m[HEADER..] == Encode(v, sh)
    ensures TakeRequestHeader(m, true) == (h, In(HEADER, true))
    ensures Decode(m, In(HEADER, true), sh) == (v, In(|m|, true))
  {
    hide RequestBytes, TakeRequestHeader, Decode, Encode, HasShape;
    RequestHeaderBack(m, h);
    BodyOccurs(m, Encode(v, sh));
    RoundTrip(m, HEADER, v, sh);
  }

  lemma {:induction false} BodyOccurs(m: seq<Byte>, body: seq<Byte>)
    requires |m| >= HEADER && m[HEADER..] == body
    ensures Occurs(m, HEADER, body)
  {
    forall k | 0 <= k < |body| ensures m[HEADER + k] == body[k] {
      assert m[HEADER..][k] == body[k];
    }
  }

  lemma {:induction false} BodyGrows(s: seq<Byte>, t: seq<Byte>, ind: nat, piece: seq<Byte>)
    requires HEADER <= ind <= |s| && Stored(s, t, ind, piece)
    ensures t[HEADER..ind + |piece|] == s[HEADER..ind] + piece
  {
    var u, v := t[HEADER..ind + |piece|], s[HEADER..ind] + piece;
    forall k | 0 <= k < |v| ensures u[k] == v[k] {
      if HEADER + k >= ind { assert t[ind + (HEADER + k - ind)] == piece[HEADER + k - ind]; }
    }
  }

  lemma {:induction false} Cut(s: seq<Byte>, n: nat, p: nat, piece: seq<Byte>)
    requires Occurs(s, p, piece) && p + |piece| <= n <= |s|
    ensures Occurs(s[..n], p, piece)
  {
    forall k | 0 <= k < |piece| ensures s[..n][p + k] == piece[k] {
      assert s[p + k] == piece[k];
    }
  }

  /** Arguments first, then the header in front of them: the receiver gets both back,
      and nothing is left over. */
  method Request(h: RequestHeader, v: Value, sh: Shape) returns (m: seq<Byte>)
    requires HasShape(v, sh)
    ensures TakeRequestHeader(m, true) == (h, In(HEADER, true))
    ensures Decode(m, In(HEADER, true), sh) == (v, In(|m|, true))
  {
    var w := new Writer();
    ghost var empty := w.buf[..];
    w.Put(v, sh);
    BodyGrows(empty, w.buf[..], HEADER, Encode(v, sh));
    assert w.Body() == Encode(v, sh);
    w.PackRequestHeader(h);
    m := w.buf[..w.ind];
    Cut(w.buf[..], w.ind, 4, RequestBytes(h));
    assert m[HEADER..] == w.Body();
    RequestBack(m, h, v, sh);
  }
}

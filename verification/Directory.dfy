/**
  The directory format. A directory is a byte string of entries laid end to end:
  inode number, name length, name, entry length (three 32-bit words around the
  name). An entry with inode number 0 is free. The loops of the file system client
  over such strings are methods, each proved against a function of the string.
 */
module Directory {
  import opened Common
  import opened DiskLayout

  /** A C string whose length fits an int with room for a header. */
  type Name = s: seq<Byte> | |s| < 0x4000_0000 witness []

  datatype Pair = Pair(inum: Word, name: seq<Byte>)

  // ----- words -----

  function WordBytes(w: Word): (s: seq<Byte>)
    ensures |s| == 4 && WordAt(s, 0) == w
  {
    var u := w / 0x100;
    var v := u / 0x100;
    [w % 0x100, u % 0x100, v % 0x100, v / 0x100]
  }

  function WordAt(s: seq<Byte>, k: nat): Word
    requires k + 4 <= |s|
  {
    WordOf(s[k], s[k + 1], s[k + 2], s[k + 3])
  }

  // ----- entries -----

  /** `Bad`: the parser's assertion fails or it reads outside the string. */
  datatype Parsed = End | Bad | Item(inum: Word, name: seq<Byte>, len: Word)

  /** The entry at offset p. */
  function Parse(s: seq<Byte>, p: nat): (e: Parsed)
    requires p <= |s|
    ensures e.End? <==> p == |s|
    ensures e.Item? ==> p + 12 + |e.name| <= |s|
  {
    var remain := |s| - p;
    if remain < 8 then
      if remain == 0 then End else Bad
    else
      var n := WordAt(s, p + 4);
      if remain < n + 12 then Bad
      else Item(WordAt(s, p), s[p + 8..p + 8 + n], WordAt(s, p + 8 + n))
  }

  /** The scan can go on behind this entry. */
  predicate Steps(e: Parsed, remain: nat)
  {
    e.Item? && 0 < e.len <= remain
  }

  /** The bytes of an entry, after the entry length of the one before it if given. */
  function FillDir(inum: Word, name: Name, len: Word, prev: Word): seq<Byte>
  {
    (if prev != 0 then WordBytes(prev) else []) + WordBytes(inum) + WordBytes(|name|) + name + WordBytes(len)
  }

  function NewDir(): seq<Byte>
  {
    FillDir(0, [], 12, 0)
  }

  /** Writing bytes at an offset, with zeros filling a hole. */
  function Write(content: seq<Byte>, off: nat, data: seq<Byte>): (r: seq<Byte>)
    ensures |r| == if off + |data| > |content| then off + |data| else |content|
  {
    var end := off + |data|;
    seq(if end > |content| then end else |content|,
        i requires 0 <= i =>
          if off <= i < end then data[i - off] else if i < |content| then content[i] else 0)
  }

  /** The entries a scan meets from some offset on. */
  datatype Chain = Stop | Fail | Link(at: nat, e: Parsed, rest: Chain)

  function Reader(s: seq<Byte>): nat -> Parsed
  {
    (p: nat) => if p <= |s| then Parse(s, p) else Bad
  }

  /** `Fail` when the scan reads a bad entry, leaves the string or stays where it is. */
  function ScanFrom(parse: nat -> Parsed, size: nat, p: nat): Chain
    requires p <= size
    decreases size - p
  {
    var e := parse(p);
    if e.End? then Stop
    else if e.Bad? then Fail
    else Link(p, e, if Steps(e, size - p) then ScanFrom(parse, size, p + e.len) else Fail)
  }

  function ChainAt(s: seq<Byte>, p: nat): Chain
    requires p <= |s|
  {
    ScanFrom(Reader(s), |s|, p)
  }

  // ----- reading -----

  /** The live entries in order; None when the scan fails. */
  function ReadAll(c: Chain): Option<seq<Pair>>
  {
    match c
    case Stop => Some([])
    case Fail => None
    case Link(_, e, rest) => After(Shown(e), ReadAll(rest))
  }

  function Shown(e: Parsed): seq<Pair>
  {
    if e.Item? && e.inum != 0 then [Pair(e.inum, e.name)] else []
  }

  function After(a: seq<Pair>, r: Option<seq<Pair>>): Option<seq<Pair>>
  {
    if r.Some? then Some(a + r.value) else None
  }

  lemma {:induction false} ReadStart(r: Option<seq<Pair>>)
    ensures r == After([], r)
  {
    if r.Some? { assert [] + r.value == r.value; }
  }

  lemma {:induction false} ReadStep(c: Chain, list: seq<Pair>)
    ensures After(list, ReadAll(c)) ==
            match c
            case Stop => Some(list)
            case Fail => None
            case Link(_, e, rest) => After(list + Shown(e), ReadAll(rest))
  {
    if c.Stop? {
      assert list + [] == list;
    } else if c.Link? && ReadAll(c.rest).Some? {
      var r := ReadAll(c.rest).value;
      assert list + (Shown(c.e) + r) == list + Shown(c.e) + r;
    }
  }

  function Listing(s: seq<Byte>): Option<seq<Pair>>
  {
    ReadAll(ChainAt(s, 0))
  }

  method ReadDir(content: seq<Byte>) returns (r: Option<seq<Pair>>)
    ensures r == Listing(content)
  {
    var p, list := 0, [];
    ghost var c := ChainAt(content, 0);
    ghost var all := ReadAll(c);
    ReadStart(all);
    while true
      invariant p <= |content| && c == ChainAt(content, p) && all == After(list, ReadAll(c))
      decreases |content| - p
    {
      ReadStep(c, list);
      var e := Parse(content, p);
      if e.End? {
        return Some(list);
      }
      if !Steps(e, |content| - p) {
        return None;
      }
      list, p, c := list + Shown(e), p + e.len, c.rest;
    }
  }

  /** The inode number of the first entry with this name, 0 when there is none. */
  function InumOf(list: seq<Pair>, name: seq<Byte>): Word
  {
    if list == [] then 0 else if list[0].name == name then list[0].inum else InumOf(list[1..], name)
  }

  predicate Listed(list: seq<Pair>, name: seq<Byte>)
  {
    exists k | 0 <= k < |list| :: list[k].name == name
  }

  method Lookup(content: seq<Byte>, name: seq<Byte>) returns (ok: bool, found: bool, inum: Word)
    ensures ok <==> Listing(content).Some?
    ensures ok ==> (found <==> Listed(Listing(content).value, name))
    ensures ok ==> inum == InumOf(Listing(content).value, name)
  {
    var r := ReadDir(content);
    ok, found, inum := r.Some?, false, 0;
    if ok {
      var list, k := r.value, 0;
      assert list[0..] == list;
      while k < |list|
        invariant 0 <= k <= |list| && forall j | 0 <= j < k :: list[j].name != name
        invariant InumOf(list, name) == InumOf(list[k..], name)
      {
        if list[k].name == name {
          return true, true, list[k].inum;
        }
        assert list[k..][1..] == list[k + 1..];
        k := k + 1;
      }
    }
  }

  // ----- creating -----

  /** Where the scan of create stops: at the end, or at the first entry that looks
      long enough to be split. */
  datatype Spot = Broken | Append | Split(at: nat, namelen: nat, len: Word)

  predicate Room(name: seq<Byte>, len: Word, n: nat)
  {
    n + |name| + 24 < len
  }

  function SpotFor(c: Chain, n: nat): (spot: Spot)
    ensures spot.Split? ==> spot.namelen + 24 < spot.len
  {
    match c
    case Stop => Append
    case Fail => Broken
    case Link(at, e, rest) =>
      if e.Item? && Room(e.name, e.len, n) then Split(at, |e.name|, e.len) else SpotFor(rest, n)
  }

  /** The directory after create has added the entry. A split writes the length of
      the shortened entry and the new entry four bytes before the entry found. */
  function Placed(content: seq<Byte>, name: Name, inum: Word, spot: Spot): Option<seq<Byte>>
    requires spot.Split? ==> spot.namelen + 24 < spot.len
  {
    match spot
    case Broken => None
    case Append => Some(Write(content, |content|, FillDir(inum, name, |name| + 12, 0)))
    case Split(at, m, l) =>
      if at < 4 then None else Some(Write(content, at - 4, FillDir(inum, name, l - m - 12, m + 12)))
  }

  datatype Reply = Failed | Exists | NoEntry | NotEmpty | Done(content: seq<Byte>)

  /** `inum` is the inode number the extent server has given out. */
  method Create(content: seq<Byte>, name: Name, inum: Word) returns (r: Reply)
    ensures r == Creating(content, name, inum)
  {
    var ok, found, _ := Lookup(content, name);
    if !ok {
      return Failed;
    }
    if found {
      return Exists;
    }
    var spot := FindSpot(content, |name|);
    var c := Placed(content, name, inum, spot);
    r := if c.Some? then Done(c.value) else Failed;
  }

  method FindSpot(content: seq<Byte>, n: nat) returns (spot: Spot)
    ensures spot == SpotFor(ChainAt(content, 0), n)
  {
    var p := 0;
    ghost var c := ChainAt(content, 0);
    while true
      invariant p <= |content| && c == ChainAt(content, p) && SpotFor(ChainAt(content, 0), n) == SpotFor(c, n)
      decreases |content| - p
    {
      var e := Parse(content, p);
      if e.End? {
        return Append;
      }
      if e.Item? && Room(e.name, e.len, n) {
        return Split(p, |e.name|, e.len);
      }
      if !Steps(e, |content| - p) {
        return Broken;
      }
      p, c := p + e.len, c.rest;
    }
  }

  ghost function Creating(content: seq<Byte>, name: Name, inum: Word): Reply
  {
    var spot := SpotFor(ChainAt(content, 0), |name|);
    CreateReply(Listing(content), name, Placed(content, name, inum, spot))
  }

  function CreateReply(list: Option<seq<Pair>>, name: Name, placed: Option<seq<Byte>>): Reply
  {
    if list.None? then Failed
    else if Listed(list.value, name) then Exists
    else if placed.None? then Failed
    else Done(placed.value)
  }

  // ----- removing -----

  /** The first live entry with this name: its offset, inode number and length. */
  datatype Found = Missing | At(at: nat, inum: Word, len: Word)

  predicate Names(e: Parsed, name: seq<Byte>)
  {
    e.Item? && e.inum != 0 && e.name == name
  }

  function Find(c: Chain, name: seq<Byte>): Found
  {
    match c
    case Stop => Missing
    case Fail => Missing
    case Link(at, e, rest) => if Names(e, name) then At(at, e.inum, e.len) else Find(rest, name)
  }

  /** The directory after unlink has blanked the entry. */
  function Removed(content: seq<Byte>, name: seq<Byte>): seq<Byte>
  {
    var f := Find(ChainAt(content, 0), name);
    if f.At? then Write(content, f.at, FillDir(0, [], f.len, 0)) else content
  }

  method Unlink(content: seq<Byte>, name: seq<Byte>, isDir: bool) returns (r: Reply)
    ensures r == Unlinking(content, name, isDir)
  {
    var ok, found, inum := Lookup(content, name);
    if !ok {
      return Failed;
    }
    if !found {
      return NoEntry;
    }
    if isDir {
      return NotEmpty;
    }
    FindAgrees(ChainAt(content, 0), name);
    var f := FindEntry(content, name);
    r := Done(if f.At? && f.inum == inum then Write(content, f.at, FillDir(0, [], f.len, 0)) else content);
  }

  method FindEntry(content: seq<Byte>, name: seq<Byte>) returns (f: Found)
    ensures f == Find(ChainAt(content, 0), name)
  {
    var p := 0;
    ghost var c := ChainAt(content, 0);
    while true
      invariant p <= |content| && c == ChainAt(content, p) && Find(ChainAt(content, 0), name) == Find(c, name)
      decreases |content| - p
    {
      var e := Parse(content, p);
      if Names(e, name) {
        return At(p, e.inum, e.len);
      }
      if !Steps(e, |content| - p) {
        return Missing;
      }
      p, c := p + e.len, c.rest;
    }
  }

  ghost function Unlinking(content: seq<Byte>, name: seq<Byte>, isDir: bool): Reply
  {
    var list := Listing(content);
    if list.None? then Failed
    else if !Listed(list.value, name) then NoEntry
    else if isDir then NotEmpty
    else Done(Removed(content, name))
  }

  /** The scan of unlink stops at the entry that lookup reports. */
  lemma {:induction false} FindAgrees(c: Chain, name: seq<Byte>)
    requires ReadAll(c).Some?
    ensures Find(c, name).At? <==> Listed(ReadAll(c).value, name)
    ensures Find(c, name).At? ==> Find(c, name).inum == InumOf(ReadAll(c).value, name)
  {
    if c.Link? {
      FindAgrees(c.rest, name);
      OneMore(Shown(c.e), ReadAll(c.rest).value, name);
    }
  }

  lemma {:induction false} OneMore(a: seq<Pair>, rest: seq<Pair>, name: seq<Byte>)
    requires |a| <= 1
    ensures Listed(a + rest, name) <==> (a != [] && a[0].name == name) || Listed(rest, name)
    ensures InumOf(a + rest, name) == if a != [] && a[0].name == name then a[0].inum else InumOf(rest, name)
  {
    if a == [] {
      assert a + rest == rest;
    } else {
      assert (a + rest)[1..] == rest;
      if Listed(rest, name) {
        var k :| 0 <= k < |rest| && rest[k].name == name;
        assert (a + rest)[k + 1].name == name;
      }
    }
  }
}

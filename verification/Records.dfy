/** The trace record of trfs/tr_types.h: its in-memory header, its on-disk bytes, and the whole log. */
module Records {
  import opened Bytes

  // rec_type_t
  const TR_FCREAT: nat := 0x1
  const TR_FWRITE: nat := 0x4
  const TR_DCREAT: nat := 0x400
  const TR_RENAME: nat := 0x10_0000
  const TR_LINK: nat := 0x20_0000
  const TR_SYMLINK: nat := 0x40_0000
  const TR_UNLINK: nat := 0x80_0000

  /** sizeof(struct tr_record) less its two pointers: what precedes the path in the file. */
  const HEADER: nat := 32
  const PATH_MAX: nat := 4096

  /** The fields of `struct tr_record` that reach the file; the lengths are `short`s. */
  datatype Header = Header(
    id: nat, flags: nat, perm: nat, result: int, recSize: int, pathLen: int, kind: nat, auxLen: int)
  {
    predicate InRange() {
      && id < 0x1_0000_0000 && flags < 0x1_0000_0000 && perm < 0x1_0000_0000 && kind < 0x1_0000_0000
      && -0x8000_0000 <= result < 0x8000_0000
      && -0x8000 <= recSize < 0x8000 && -0x8000 <= pathLen < 0x8000 && -0x8000 <= auxLen < 0x8000
    }
  }

  /** Field widths: rec_id, rec_flags, perm_flags, result, rec_size, path_len, type, aux_len. */
  const LAYOUT: seq<nat> := [4, 4, 4, 4, 2, 2, 4, 2]

  lemma LayoutSum()
    ensures Sum(LAYOUT) == HEADER - 6
  {
    assert LAYOUT[1..] == [4, 4, 4, 2, 2, 4, 2] && LAYOUT[1..][1..] == [4, 4, 2, 2, 4, 2];
    assert [4, 4, 2, 2, 4, 2][1..] == [4, 2, 2, 4, 2] && [4, 2, 2, 4, 2][1..] == [2, 2, 4, 2];
    assert [2, 2, 4, 2][1..] == [2, 4, 2] && [2, 4, 2][1..] == [4, 2] && [4, 2][1..] == [2];
    assert Sum([4, 2]) == 6;
    assert Sum([2, 4, 2]) == 8;
    assert Sum([2, 2, 4, 2]) == 10;
    assert Sum([4, 2, 2, 4, 2]) == 14;
    assert Sum([4, 4, 2, 2, 4, 2]) == 18;
    assert Sum([4, 4, 4, 2, 2, 4, 2]) == 22;
  }

  /** The 32 header bytes: the fields at 0, 4, 8, 12, 16, 18, 20 and 24, then six zero padding bytes. */
  function HeaderBytes(h: Header): (s: seq<byte>)
    ensures |s| == HEADER
  {
    LayoutSum();
    Pack(Unsigned(h), LAYOUT) + [0, 0, 0, 0, 0, 0]
  }

  /** The fields as they are stored: two's complement. */
  function Unsigned(h: Header): seq<nat> {
    [h.id, h.flags, h.perm, h.result % 0x1_0000_0000,
     h.recSize % 0x10000, h.pathLen % 0x10000, h.kind, h.auxLen % 0x10000]
  }

  /** What the replayer sees through its `struct tr_record *`. */
  function ParseHeader(s: seq<byte>): Header {
    var v := Unpack(s, LAYOUT);
    Header(v[0], v[1], v[2], ToInt32(v[3]), ToShort(v[4]), ToShort(v[5]), v[6], ToShort(v[7]))
  }

  lemma UnsignedFits(h: Header)
    requires h.InRange()
    ensures InWidths(Unsigned(h), LAYOUT)
  {
    assert Pow256(4) == 256 * Pow256(3) && Pow256(3) == 256 * Pow256(2);
    assert Pow256(2) == 256 * Pow256(1) && Pow256(1) == 256 * Pow256(0);
  }

  lemma HeaderRoundTrip(h: Header, rest: seq<byte>)
    requires h.InRange()
    ensures ParseHeader(HeaderBytes(h) + rest) == h
  {
    var tail := [0, 0, 0, 0, 0, 0] + rest;
    assert HeaderBytes(h) + rest == Pack(Unsigned(h), LAYOUT) + tail;
    UnsignedFits(h);
    UnpackPack(Unsigned(h), LAYOUT, tail);
    SignedBack(h.result, h.recSize);
    SignedBack(h.result, h.pathLen);
    SignedBack(h.result, h.auxLen);
  }

  // ----- the bytes, one by one -----

  /** The value of two, or four, bytes from `at` on, least significant first. */
  function Two(s: seq<byte>, at: nat): int
    requires at + 2 <= |s|
  {
    (s[at] as int) + 0x100 * (s[at + 1] as int)
  }

  function Four(s: seq<byte>, at: nat): int
    requires at + 4 <= |s|
  {
    (s[at] as int) + 0x100 * (s[at + 1] as int) + 0x1_0000 * (s[at + 2] as int) + 0x100_0000 * (s[at + 3] as int)
  }

  /** What a signed field reads as without its sign: two's complement in `width` values. */
  function Wrapped(v: int, width: int): int { if v >= 0 then v else v + width }

  lemma TwoBytes(n: nat)
    requires n < 0x1_0000
    ensures Two(LE(n, 2), 0) == n
  {
    assert LE(n, 2) == [n % 256] + LE(n / 256, 1);
    assert LE(n / 256, 1) == [n / 256 % 256] + LE(n / 256 / 256, 0);
  }

  lemma FourBytes(n: nat)
    requires n < 0x1_0000_0000
    ensures Four(LE(n, 4), 0) == n
  {
    var high := n / 256 / 256;
    assert LE(n, 4) == [n % 256] + LE(n / 256, 3);
    assert LE(n / 256, 3) == [n / 256 % 256] + LE(high, 2);
    TwoBytes(high);
    assert LE(n, 4)[2] == LE(high, 2)[0] && LE(n, 4)[3] == LE(high, 2)[1];
  }

  /** Where the i-th field starts. */
  function FieldOffset(widths: seq<nat>, i: nat): nat
    requires i <= |widths|
  {
    if i == 0 then 0 else widths[0] + FieldOffset(widths[1..], i - 1)
  }

  lemma {:induction false} FieldAt(values: seq<nat>, widths: seq<nat>, i: nat)
    requires |values| == |widths| && i < |widths|
    ensures var at, s := FieldOffset(widths, i), Pack(values, widths);
            at + widths[i] <= |s| && s[at..at + widths[i]] == LE(values[i], widths[i])
  {
    var head, tail := LE(values[0], widths[0]), Pack(values[1..], widths[1..]);
    if i > 0 {
      FieldAt(values[1..], widths[1..], i - 1);
      var at := FieldOffset(widths[1..], i - 1);
      BehindHead(head, tail, at, at + widths[i]);
    }
  }

  lemma BehindHead(head: seq<byte>, tail: seq<byte>, i: nat, j: nat)
    requires i <= j <= |tail|
    ensures (head + tail)[|head| + i..|head| + j] == tail[i..j]
  {
  }

  lemma LayoutOffsets()
    ensures FieldOffset(LAYOUT, 0) == 0 && FieldOffset(LAYOUT, 1) == 4 && FieldOffset(LAYOUT, 2) == 8
    ensures FieldOffset(LAYOUT, 3) == 12 && FieldOffset(LAYOUT, 4) == 16 && FieldOffset(LAYOUT, 5) == 18
    ensures FieldOffset(LAYOUT, 6) == 20 && FieldOffset(LAYOUT, 7) == 24
  {
    NextOffset(LAYOUT, 0);
    NextOffset(LAYOUT, 1);
    NextOffset(LAYOUT, 2);
    NextOffset(LAYOUT, 3);
    NextOffset(LAYOUT, 4);
    NextOffset(LAYOUT, 5);
    NextOffset(LAYOUT, 6);
  }

  lemma {:induction false} NextOffset(widths: seq<nat>, i: nat)
    requires i < |widths|
    ensures FieldOffset(widths, i + 1) == FieldOffset(widths, i) + widths[i]
  {
    if i > 0 {
      NextOffset(widths[1..], i - 1);
    }
  }

  /** A field of the header bytes. */
  lemma HeaderField(h: Header, i: nat, at: nat)
    requires i < 8 && FieldOffset(LAYOUT, i) == at && at + LAYOUT[i] <= 26
    ensures HeaderBytes(h)[at..at + LAYOUT[i]] == LE(Unsigned(h)[i], LAYOUT[i])
  {
    LayoutSum();
    FieldAt(Unsigned(h), LAYOUT, i);
    var packed := Pack(Unsigned(h), LAYOUT);
    assert (packed + [0, 0, 0, 0, 0, 0])[at..at + LAYOUT[i]] == packed[at..at + LAYOUT[i]];
  }

  lemma FourAt(s: seq<byte>, at: nat, n: nat)
    requires at + 4 <= |s| && s[at..at + 4] == LE(n, 4) && n < 0x1_0000_0000
    ensures Four(s, at) == n
  {
    FourBytes(n);
    assert forall i :: 0 <= i < 4 ==> s[at + i] == LE(n, 4)[i];
  }

  lemma TwoAt(s: seq<byte>, at: nat, n: nat)
    requires at + 2 <= |s| && s[at..at + 2] == LE(n, 2) && n < 0x1_0000
    ensures Two(s, at) == n
  {
    TwoBytes(n);
    assert forall i :: 0 <= i < 2 ==> s[at + i] == LE(n, 2)[i];
  }

  lemma UnsignedIs(h: Header)
    requires h.InRange()
    ensures Unsigned(h)[3] == Wrapped(h.result, 0x1_0000_0000) < 0x1_0000_0000
    ensures Unsigned(h)[4] == Wrapped(h.recSize, 0x1_0000) < 0x1_0000
    ensures Unsigned(h)[5] == Wrapped(h.pathLen, 0x1_0000) < 0x1_0000
    ensures Unsigned(h)[7] == Wrapped(h.auxLen, 0x1_0000) < 0x1_0000
  {
  }

  /** The layout: each field at its offset, least significant byte first, and six zero bytes behind them. */
  lemma HeaderLayout(h: Header)
    requires h.InRange()
    ensures var s := HeaderBytes(h);
            && Four(s, 0) == h.id && Four(s, 4) == h.flags && Four(s, 8) == h.perm
            && Four(s, 12) == Wrapped(h.result, 0x1_0000_0000)
            && Two(s, 16) == Wrapped(h.recSize, 0x1_0000) && Two(s, 18) == Wrapped(h.pathLen, 0x1_0000)
            && Four(s, 20) == h.kind && Two(s, 24) == Wrapped(h.auxLen, 0x1_0000)
            && |s| == 32 && s[26..] == [0, 0, 0, 0, 0, 0]
  {
    var s := HeaderBytes(h);
    LayoutOffsets();
    LayoutSum();
    UnsignedIs(h);
    assert s[26..] == [0, 0, 0, 0, 0, 0];
    HeaderField(h, 0, 0);
    HeaderField(h, 1, 4);
    HeaderField(h, 2, 8);
    HeaderField(h, 3, 12);
    HeaderField(h, 4, 16);
    HeaderField(h, 5, 18);
    HeaderField(h, 6, 20);
    HeaderField(h, 7, 24);
    assert Unsigned(h)[0] == h.id && Unsigned(h)[1] == h.flags && Unsigned(h)[2] == h.perm && Unsigned(h)[6] == h.kind;
    hide HeaderBytes, Unsigned, LE, Four, Two, Wrapped;
    FourAt(s, 0, h.id);
    FourAt(s, 4, h.flags);
    FourAt(s, 8, h.perm);
    FourAt(s, 12, Unsigned(h)[3]);
    TwoAt(s, 16, Unsigned(h)[4]);
    TwoAt(s, 18, Unsigned(h)[5]);
    FourAt(s, 20, h.kind);
    TwoAt(s, 24, Unsigned(h)[7]);
  }

  lemma SignedBack(v: int, w: int)
    requires -0x8000_0000 <= v < 0x8000_0000 && -0x8000 <= w < 0x8000
    ensures ToInt32(v % 0x1_0000_0000) == v && ToShort(w % 0x10000) == w
  {
  }

  /** A record as it is meant: the path and the auxiliary bytes in full. */
  datatype Record = Record(
    id: nat, flags: nat, perm: nat, result: int, kind: nat, path: seq<byte>, aux: seq<byte>)
  {
    function Size(): nat { HEADER + |path| + |aux| }

    function ToHeader(): Header {
      Header(id, flags, perm, result, Size(), |path|, kind, |aux|)
    }

    /** Every length fits its `short`, and the path is a C string of one page. */
    predicate WellFormed() {
      ToHeader().InRange() && 1 <= |path| < PATH_MAX && NUL !in path
    }
  }

  function Encode(r: Record): (s: seq<byte>)
    ensures |s| == r.Size()
  {
    HeaderBytes(r.ToHeader()) + r.path + r.aux
  }

  function EncodeAll(rs: seq<Record>): seq<byte> {
    if rs == [] then [] else Encode(rs[0]) + EncodeAll(rs[1..])
  }

  /** A whole record in the file: the header, at 32 the path, and behind it the aux bytes. */
  lemma RecordLayout(r: Record)
    ensures var s := Encode(r);
            && s[..32] == HeaderBytes(r.ToHeader())
            && s[32..32 + |r.path|] == r.path && s[32 + |r.path|..] == r.aux
  {
  }

  ghost predicate AllWellFormed(rs: seq<Record>) {
    forall r :: r in rs ==> r.WellFormed()
  }

  /** The bytes of a record whose lengths are non-negative and lie inside `s`. */
  predicate Holds(s: seq<byte>) {
    && |s| >= HEADER
    && var h := ParseHeader(s);
       0 <= h.pathLen && 0 <= h.auxLen && HEADER + h.pathLen + h.auxLen <= |s|
  }

  function DecodeAt(s: seq<byte>): (r: Record)
    requires Holds(s)
  {
    var h := ParseHeader(s);
    Record(h.id, h.flags, h.perm, h.result, h.kind,
           s[HEADER..HEADER + h.pathLen], s[HEADER + h.pathLen..HEADER + h.pathLen + h.auxLen])
  }

  datatype Option<+T> = None | Some(value: T)

  /** Reads a whole log, record after record, by the sizes the headers announce. */
  function Decode(s: seq<byte>): Option<seq<Record>> {
    if s == [] then Some([])
    else if !Holds(s) || DecodeAt(s).Size() != ParseHeader(s).recSize then None
    else
      var rest := Decode(s[ParseHeader(s).recSize..]);
      if rest.None? then None else Some([DecodeAt(s)] + rest.value)
  }

  lemma DecodeEncode(r: Record, rest: seq<byte>)
    requires r.WellFormed()
    ensures Holds(Encode(r) + rest)
    ensures ParseHeader(Encode(r) + rest) == r.ToHeader()
    ensures DecodeAt(Encode(r) + rest) == r
    ensures (Encode(r) + rest)[r.Size()..] == rest
  {
    var s := Encode(r) + rest;
    assert s == HeaderBytes(r.ToHeader()) + (r.path + r.aux + rest);
    HeaderRoundTrip(r.ToHeader(), r.path + r.aux + rest);
    assert s[HEADER..HEADER + |r.path|] == r.path;
    assert s[HEADER + |r.path|..r.Size()] == r.aux;
  }

  lemma DecodeCons(r: Record, rest: seq<byte>)
    requires r.WellFormed() && Decode(rest).Some?
    ensures Decode(Encode(r) + rest) == Some([r] + Decode(rest).value)
  {
    DecodeEncode(r, rest);
    var s := Encode(r) + rest;
    assert s != [] && DecodeAt(s).Size() == ParseHeader(s).recSize;
  }

  /** Decoding the concatenation of any well-formed records gives back every field of every record. */
  lemma {:induction false} StreamRoundTrip(rs: seq<Record>)
    requires AllWellFormed(rs)
    ensures Decode(EncodeAll(rs)) == Some(rs)
  {
    if rs != [] {
      assert rs[0] in rs;
      StreamRoundTrip(rs[1..]);
      DecodeCons(rs[0], EncodeAll(rs[1..]));
      assert rs == [rs[0]] + rs[1..];
    }
  }

  /** Two different record lists never leave the same log. */
  lemma LogIsInjective(rs: seq<Record>, qs: seq<Record>)
    requires AllWellFormed(rs) && AllWellFormed(qs)
    requires EncodeAll(rs) == EncodeAll(qs)
    ensures rs == qs
  {
    StreamRoundTrip(rs);
    StreamRoundTrip(qs);
  }

  lemma Associate(a: seq<byte>, b: seq<byte>, c: seq<byte>)
    ensures a + b + c == a + (b + c)
  {
  }

  lemma EncodeAllCons(rs: seq<Record>)
    requires rs != []
    ensures EncodeAll(rs) == Encode(rs[0]) + EncodeAll(rs[1..])
  {
  }

  lemma AppendTail(rs: seq<Record>, qs: seq<Record>)
    requires rs != []
    ensures rs + qs != [] && (rs + qs)[0] == rs[0] && (rs + qs)[1..] == rs[1..] + qs
  {
  }

  lemma EncodeAllNil(qs: seq<Record>)
    ensures EncodeAll([] + qs) == EncodeAll([]) + EncodeAll(qs)
  {
    assert [] + qs == qs;
  }

  lemma {:induction false} EncodeAllAppend(rs: seq<Record>, qs: seq<Record>)
    ensures EncodeAll(rs + qs) == EncodeAll(rs) + EncodeAll(qs)
  {
    hide *;
    if rs == [] {
      EncodeAllNil(qs);
    } else {
      EncodeAllAppend(rs[1..], qs);
      AppendTail(rs, qs);
      EncodeAllCons(rs);
      EncodeAllCons(rs + qs);
      Associate(Encode(rs[0]), EncodeAll(rs[1..]), EncodeAll(qs));
    }
  }

  lemma EncodeAllSnoc(rs: seq<Record>, r: Record)
    ensures EncodeAll(rs + [r]) == EncodeAll(rs) + Encode(r)
  {
    EncodeAllAppend(rs, [r]);
    assert EncodeAll([r]) == Encode(r) + EncodeAll([]);
  }
}

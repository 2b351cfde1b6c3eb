/** The logging half of trfs: fill_record and append_record (trfs/trdump.c) over a mount's log file. */
module TraceLog {
  import opened Bytes
  import opened Records

  const MASK_ALL: nat := 0xFFFF_FFFF_FFFF_FFFF
  const EFAULT: int := 14
  const EINVAL: int := 22

  /** `kind & mask`, for a kind that is a single bit. */
  function Selected(kind: nat, mask: nat): nat {
    if kind != 0 && (mask / kind) % 2 == 1 then kind else 0
  }

  /** The kinds that carry an auxiliary part. */
  predicate HasAux(kind: nat) {
    kind == TR_FWRITE || kind == TR_RENAME || kind == TR_LINK || kind == TR_SYMLINK
  }

  predicate Known(kind: nat) {
    kind == TR_FCREAT || kind == TR_DCREAT || kind == TR_UNLINK || HasAux(kind)
  }

  /** The header fill_record leaves behind; every length is narrowed to a `short`. */
  function Filled(id: nat, kind: nat, flags: nat, perm: nat, err: int, path: seq<byte>, aux: seq<byte>): Header {
    var pathLen := ToShort(|path|);
    var auxLen := if HasAux(kind) then ToShort(|aux|) else 0;
    var recSize := if Known(kind) then ToShort(HEADER + pathLen + auxLen) else 0;
    Header(id, flags, perm, err, recSize, pathLen, kind, auxLen)
  }

  /** What kernel_write returns for `n` bytes: a short count or an error if that is all it is granted. */
  function WriteReturn(n: int, granted: int): int {
    if n >= 0 then (if granted < n then granted else n)
    else if granted == -EFAULT then -EFAULT
    else -EINVAL
  }

  /**
   * How append_record ends; `log` is the file up to f_pos. `Bug` is a BUG_ON. `Rewound` is a refused aux
   * write whose errno happens to equal a wrapped `aux_len`: the code takes it for success and moves f_pos
   * back by that errno, a state the model does not continue from.
   */
  datatype Appended = Bug(log: seq<byte>) | Wrote(log: seq<byte>, ret: int) | Rewound(log: seq<byte>, ret: int)

  /**
   * What append_record makes of the log when the two writes are granted `g1` and `g2` bytes; `held` tells
   * whether the record's aux pointer is other than NULL.
   */
  function Appending(log: seq<byte>, h: Header, path: seq<byte>, aux: seq<byte>, held: bool, g1: int, g2: int): (r: Appended)
    requires 0 < |path| < PATH_MAX && h.pathLen == |path|
    requires h.auxLen <= |aux| && h.recSize == ToShort(HEADER + h.pathLen + h.auxLen)
    requires -0x8000 <= h.auxLen < 0x8000
  {
    var n1 := h.recSize - h.auxLen;
    var r1 := WriteReturn(n1, g1);
    var log1 := if r1 == n1 then log + (HeaderBytes(h) + path) else log;
    if h.auxLen == 0 then
      if held then Bug(log1) else Wrote(log1, if r1 == n1 then r1 else -1)
    else
      var r2 := WriteReturn(h.auxLen, g2);
      if r2 != h.auxLen then Wrote(log1, -1)
      else if r2 > 0 then Wrote(log1 + aux[..r2], r2)
      else Rewound(log1, r2)
  }

  /** The header always occupies 32 bytes, however `rec_size` and `aux_len` have wrapped. */
  lemma CommonSizeIsHeader(pathLen: int, auxLen: int)
    requires -0x8000 <= pathLen < 0x8000 && -0x8000 <= auxLen < 0x8000
    ensures ToShort(ToShort(HEADER + pathLen + auxLen) - pathLen - auxLen) == HEADER
  {
    var size := ToShort(HEADER + pathLen + auxLen);
    assert (size - pathLen - auxLen - HEADER) % 0x10000 == 0 by {
      assert size - pathLen - auxLen - HEADER == -((HEADER + pathLen + auxLen) - size);
    }
  }

  /** `rec_size` is the true size for every kind but a write; for a write, up to a limit on its count. */
  lemma RecSizeExact(kind: nat, path: seq<byte>, aux: seq<byte>)
    requires Known(kind) && 0 < |path| < PATH_MAX && |aux| < 0x8000
    requires kind != TR_FWRITE ==> |aux| < PATH_MAX
    ensures var size := HEADER + |path| + (if HasAux(kind) then |aux| else 0);
            Filled(0, kind, 0, 0, 0, path, aux).recSize == size
            <==> (kind == TR_FWRITE ==> |aux| <= 32735 - |path|)
  {
  }

  /** The record an operation means to log. */
  function Meant(id: nat, kind: nat, flags: nat, perm: nat, err: int, path: seq<byte>, aux: seq<byte>): Record {
    Record(id, flags, perm, err, kind, path, if HasAux(kind) then aux else [])
  }

  lemma FilledIsMeant(id: nat, kind: nat, flags: nat, perm: nat, err: int, path: seq<byte>, aux: seq<byte>)
    requires Known(kind) && 0 < |path| < PATH_MAX && |path| + |aux| <= 32735
    ensures Filled(id, kind, flags, perm, err, path, aux) == Meant(id, kind, flags, perm, err, path, aux).ToHeader()
  {
  }

  /** A positive count within the limit. */
  lemma WriteFits(log: seq<byte>, id: nat, flags: nat, err: int, path: seq<byte>, data: seq<byte>, g1: int, g2: int)
    requires 0 < |path| < PATH_MAX && g1 >= 0x1_0000 && g2 >= 0x1_0000
    requires 1 <= |data| <= 32735 - |path|
    ensures var h := Filled(id, TR_FWRITE, flags, 0, err, path, data);
            var r := Meant(id, TR_FWRITE, flags, 0, err, path, data);
            Appending(log, h, path, data, true, g1, g2) == Wrote(log + Encode(r), |data|)
  {
    FilledIsMeant(id, TR_FWRITE, flags, 0, err, path, data);
    assert data[..|data|] == data;
    Associate(log, HeaderBytes(Filled(id, TR_FWRITE, flags, 0, err, path, data)) + path, data);
  }

  /** No bytes at all. */
  lemma WriteOfNothing(log: seq<byte>, id: nat, flags: nat, err: int, path: seq<byte>, held: bool, g1: int, g2: int)
    requires 0 < |path| < PATH_MAX && g1 >= 0x1_0000 && g2 >= 0x1_0000
    ensures var h := Filled(id, TR_FWRITE, flags, 0, err, path, []);
            var r := Meant(id, TR_FWRITE, flags, 0, err, path, []);
            var a := Appending(log, h, path, [], held, g1, g2);
            if held then a.Bug? else a == Wrote(log + Encode(r), HEADER + |path|)
  {
    FilledIsMeant(id, TR_FWRITE, flags, 0, err, path, []);
    var head := HeaderBytes(Filled(id, TR_FWRITE, flags, 0, err, path, [])) + path;
    assert head + [] == head;
  }

  /** A larger one: if it is not already cut to another value as a `short`, the header is not written. */
  lemma WriteOverflows(log: seq<byte>, h: Header, path: seq<byte>, data: seq<byte>, g1: int, g2: int)
    requires 0 < |path| < PATH_MAX && g1 >= 0x1_0000 && g2 >= 0x1_0000
    requires h.pathLen == |path| && h.auxLen == ToShort(|data|) && h.recSize == ToShort(HEADER + h.pathLen + h.auxLen)
    requires |data| > 32735 - |path|
    ensures var a := Appending(log, h, path, data, true, g1, g2);
            a.Wrote? && a.ret == |data| ==> |a.log| < |log| + HEADER + |path| + |data|
  {
    if h.auxLen == |data| {
      assert h.recSize == HEADER + |path| + |data| - 0x1_0000;
    }
  }

  /**
   * With full writes, a write of `data` (any count a size_t can hold) is logged as it was meant exactly when
   * its count leaves room in the 16-bit record size and is positive, or it is zero and the buffer is NULL.
   */
  lemma WriteLoggedIff(log: seq<byte>, id: nat, flags: nat, err: int, path: seq<byte>, data: seq<byte>, held: bool,
                       g1: int, g2: int)
    requires 0 < |path| < PATH_MAX && g1 >= 0x1_0000 && g2 >= 0x1_0000
    requires data != [] ==> held
    ensures var h := Filled(id, TR_FWRITE, flags, 0, err, path, data);
            var r := Meant(id, TR_FWRITE, flags, 0, err, path, data);
            var written := if data == [] then HEADER + |path| else |data|;
            && h.auxLen <= |data|
            && (Appending(log, h, path, data, held, g1, g2) == Wrote(log + Encode(r), written)
                <==> if data == [] then !held else |data| <= 32735 - |path|)
  {
    if data == [] {
      WriteOfNothing(log, id, flags, err, path, held, g1, g2);
    } else if |data| <= 32735 - |path| {
      WriteFits(log, id, flags, err, path, data, g1, g2);
    } else {
      var h := Filled(id, TR_FWRITE, flags, 0, err, path, data);
      var r := Meant(id, TR_FWRITE, flags, 0, err, path, data);
      WriteOverflows(log, h, path, data, g1, g2);
      hide Appending, Encode;
      assert |log + Encode(r)| == |log| + HEADER + |path| + |data|;
    }
  }

  /** A record that can be logged whole: only a write, of no bytes from NULL, may lack the aux part of its kind. */
  predicate Complete(r: Record) {
    && r.WellFormed() && Known(r.kind) && (r.aux != [] ==> HasAux(r.kind))
    && (HasAux(r.kind) && r.kind != TR_FWRITE ==> r.aux != [])
  }

  /** A record whose lengths fit is appended whole when both writes are full. */
  lemma FullAppend(log: seq<byte>, r: Record, g1: int, g2: int)
    requires Complete(r)
    requires g1 >= 0x8000 && g2 >= 0x8000
    ensures Appending(log, r.ToHeader(), r.path, r.aux, r.aux != [], g1, g2).Wrote?
    ensures Appending(log, r.ToHeader(), r.path, r.aux, r.aux != [], g1, g2).log == log + Encode(r)
  {
    AppendCases(log, r, g1, g2);
  }

  /** The four outcomes of the two writes. Nothing is rolled back. */
  lemma AppendCases(log: seq<byte>, r: Record, g1: int, g2: int)
    requires Complete(r)
    ensures var first := g1 >= HEADER + |r.path|;
            var second := g2 >= |r.aux|;
            var a := Appending(log, r.ToHeader(), r.path, r.aux, r.aux != [], g1, g2);
            && a.Wrote?
            && a.log == (if first then log + (HeaderBytes(r.ToHeader()) + r.path) else log)
                        + (if second then r.aux else [])
            && a.ret == (if r.aux != [] then (if second then |r.aux| else -1)
                         else if first then HEADER + |r.path| else -1)
            && (first && second ==> a.log == log + Encode(r))
            && (first && r.aux == [] ==> a.log == log + Encode(r))
  {
    var head := HeaderBytes(r.ToHeader()) + r.path;
    assert r.aux[..|r.aux|] == r.aux;
    assert log + head + r.aux == log + (head + r.aux);
    assert log + head + [] == log + head && log + [] == log;
    assert head + [] == head;
  }

  /** An append is all-or-nothing exactly when its two writes agree, or there is no second one. */
  lemma AppendAtomicIff(log: seq<byte>, r: Record, g1: int, g2: int)
    requires Complete(r)
    ensures var a := Appending(log, r.ToHeader(), r.path, r.aux, r.aux != [], g1, g2).log;
            (a == log || a == log + Encode(r))
            <==> (r.aux == [] || (g1 >= HEADER + |r.path| <==> g2 >= |r.aux|))
  {
    AppendCases(log, r, g1, g2);
    assert |Encode(r)| == HEADER + |r.path| + |r.aux|;
  }

  datatype Attempt = Attempt(record: Record, g1: int, g2: int)
  {
    predicate Fit() {
      Complete(record)
    }

    predicate Atomic() {
      record.aux == [] || (g1 >= HEADER + |record.path| <==> g2 >= |record.aux|)
    }
  }

  /** The log after a run of append_record calls. */
  function AppendRun(log: seq<byte>, run: seq<Attempt>): seq<byte>
    requires forall a :: a in run ==> a.Fit()
    decreases run
  {
    if run == [] then log
    else
      var a := run[0];
      assert a in run && a.Fit() && a.record.WellFormed();
      AppendRun(Appending(log, a.record.ToHeader(), a.record.path, a.record.aux, a.record.aux != [], a.g1, a.g2).log, run[1..])
  }

  /** The records whose append went through; without an aux part only the first write counts. */
  function Kept(run: seq<Attempt>): seq<Record> {
    if run == [] then []
    else (if run[0].g1 >= HEADER + |run[0].record.path| then [run[0].record] else []) + Kept(run[1..])
  }

  lemma AppendOne(done: seq<Record>, a: Attempt)
    requires a.Fit() && a.Atomic()
    ensures Appending(EncodeAll(done), a.record.ToHeader(), a.record.path, a.record.aux, a.record.aux != [], a.g1, a.g2).log
         == EncodeAll(done + Kept([a]))
  {
    AppendCases(EncodeAll(done), a.record, a.g1, a.g2);
    hide Appending, EncodeAll, Encode;
    KeptOne(a);
    EncodeAllSnoc(done, a.record);
    assert EncodeAll(done) + [] == EncodeAll(done) && done + [] == done;
  }

  lemma KeptOne(a: Attempt)
    ensures Kept([a]) == if a.g1 >= HEADER + |a.record.path| then [a.record] else []
  {
    assert [a][1..] == [];
  }

  lemma AppendRunNil(done: seq<Record>)
    ensures AppendRun(EncodeAll(done), []) == EncodeAll(done + Kept([]))
  {
    assert done + [] == done;
  }

  lemma AppendRunOne(log: seq<byte>, a: Attempt)
    requires a.Fit()
    ensures AppendRun(log, [a]) == Appending(log, a.record.ToHeader(), a.record.path, a.record.aux, a.record.aux != [], a.g1, a.g2).log
  {
    assert [a][1..] == [];
  }

  lemma AppendRunCons(log: seq<byte>, run: seq<Attempt>)
    requires run != [] && forall a :: a in run ==> a.Fit()
    ensures var a := run[0];
            && a in run
            && AppendRun(log, run) == AppendRun(Appending(log, a.record.ToHeader(), a.record.path, a.record.aux, a.record.aux != [], a.g1, a.g2).log, run[1..])
            && Kept(run) == Kept([a]) + Kept(run[1..])
  {
    hide Appending;
    assert [run[0]][1..] == [];
  }

  /** In every run of atomic appends the log is a concatenation of whole records: those that went through. */
  lemma {:induction false} LogOfRun(done: seq<Record>, run: seq<Attempt>)
    requires forall a :: a in run ==> a.Fit() && a.Atomic()
    ensures AppendRun(EncodeAll(done), run) == EncodeAll(done + Kept(run))
    decreases run
  {
    hide *;
    if run == [] {
      AppendRunNil(done);
    } else {
      AppendRunCons(EncodeAll(done), run);
      AppendOne(done, run[0]);
      LogOfRun(done + Kept([run[0]]), run[1..]);
      assert done + Kept([run[0]]) + Kept(run[1..]) == done + (Kept([run[0]]) + Kept(run[1..]));
    }
  }

  /** So such a log always decodes, to exactly those records. */
  lemma LogAlwaysDecodes(run: seq<Attempt>)
    requires forall a :: a in run ==> a.Fit() && a.Atomic()
    ensures Decode(AppendRun([], run)) == Some(Kept(run))
  {
    LogOfRun([], run);
    assert [] + Kept(run) == Kept(run);
    KeptWellFormed(run);
    StreamRoundTrip(Kept(run));
  }

  lemma {:induction false} KeptWellFormed(run: seq<Attempt>)
    requires forall a :: a in run ==> a.Fit()
    ensures AllWellFormed(Kept(run))
  {
    if run != [] {
      assert run[0] in run;
      KeptWellFormed(run[1..]);
    }
  }

  /** The logging state of one mount: log file, f_pos, staging page and mask, with the record counter. */
  class Log {
    var file: seq<byte>
    var fPos: nat
    const page: array<byte>
    var mask: nat
    var recordId: int

    ghost predicate Valid()
      reads this
    {
      page.Length == 48 + PATH_MAX && fPos <= |file| && recordId >= -1
    }

    function Contents(): seq<byte>
      requires Valid()
      reads this
    {
      file[..fPos]
    }

    /** trfs_read_super on a log file opened with O_EXCL, after trfs_mount has reset the counter. */
    constructor ()
      ensures Valid() && fresh(page)
      ensures Contents() == [] && mask == MASK_ALL && recordId == -1
    {
      page := new byte[48 + PATH_MAX];
      file, fPos, mask, recordId := [], 0, MASK_ALL, -1;
    }

    method SetMask(bitmap: nat)
      requires Valid()
      modifies this`mask
      ensures Valid() && mask == bitmap
    {
      mask := bitmap;
    }

    /** A zero kind is refused before an id is drawn. */
    method FillRecord(kind: nat, flags: nat, perm: nat, err: int, path: seq<byte>, aux: seq<byte>)
      returns (ret: int, record: Header)
      requires Valid()
      modifies this`recordId
      ensures Valid()
      ensures ret == 0 <==> kind != 0
      ensures kind == 0 ==> recordId == old(recordId)
      ensures kind != 0 ==>
                && record.kind == kind && record.flags == flags && record.perm == perm && record.result == err
                && (record.id - recordId) % 0x1_0000_0000 == 0 && (record.pathLen - |path|) % 0x1_0000 == 0
      ensures kind != 0 ==>
                && recordId == old(recordId) + 1
                && record == Filled(recordId % 0x1_0000_0000, kind, flags, perm, err, path, aux)
    {
      record := Header(0, 0, 0, 0, 0, 0, 0, 0);
      if kind == 0 {
        return -1, record;
      }
      recordId := recordId + 1;
      record := record.(id := recordId % 0x1_0000_0000, kind := kind, perm := perm, flags := flags);
      record := record.(pathLen := ToShort(|path|), result := err);
      if kind == TR_FCREAT || kind == TR_DCREAT || kind == TR_UNLINK {
        record := record.(recSize := ToShort(HEADER + record.pathLen));
      } else if kind == TR_FWRITE || kind == TR_RENAME || kind == TR_LINK || kind == TR_SYMLINK {
        record := record.(auxLen := ToShort(|aux|));
        record := record.(recSize := ToShort(HEADER + record.pathLen + record.auxLen));
      }
      ret := 0;
    }

    /** kernel_write at f_pos: a prefix of the data lands there and f_pos stays. */
    method KernelWrite(data: seq<byte>, granted: int) returns (ret: int)
      requires Valid()
      modifies this`file
      ensures Valid() && Contents() == old(Contents())
      ensures ret == WriteReturn(|data|, granted)
      ensures ret > 0 ==> fPos + ret <= |file| && file[fPos..fPos + ret] == data[..ret]
    {
      ret := if granted < |data| then granted else |data|;
      if ret > 0 {
        var tail := if fPos + ret <= |file| then file[fPos + ret..] else [];
        file := file[..fPos] + data[..ret] + tail;
      }
    }

    /** memcpy of `s` into the staging page. */
    method Stage(at: nat, s: seq<byte>)
      requires Valid() && at + |s| <= page.Length
      modifies page
      ensures page[at..at + |s|] == s
      ensures page[..at] == old(page[..at])
    {
      for i := 0 to |s|
        invariant page[at..at + i] == s[..i]
        invariant page[..at] == old(page[..at])
      {
        page[at + i] := s[i];
      }
    }

    /** The header, cut to its common size, and the path with its NUL. */
    method StageRecord(h: Header, path: seq<byte>)
      requires Valid()
      requires |path| < PATH_MAX && h.pathLen == |path|
      requires -0x8000 <= h.auxLen < 0x8000 && h.recSize == ToShort(HEADER + h.pathLen + h.auxLen)
      modifies page
      ensures page[..HEADER + |path|] == HeaderBytes(h) + path
    {
      var common := ToShort(h.recSize - h.pathLen - h.auxLen);
      CommonSizeIsHeader(h.pathLen, h.auxLen);
      Stage(0, HeaderBytes(h));
      Stage(common, path + [NUL]);
      assert page[common..common + |path|] == (path + [NUL])[..|path|];
      assert page[..common] == HeaderBytes(h);
    }

    /** The first write, of the staged page, and the move of f_pos when it is full. */
    method WriteHead(h: Header, path: seq<byte>, g1: int) returns (ret: int)
      requires Valid() && |path| < PATH_MAX && h.pathLen == |path|
      requires -0x8000 <= h.auxLen < 0x8000 && h.recSize == ToShort(HEADER + h.pathLen + h.auxLen)
      requires page[..HEADER + |path|] == HeaderBytes(h) + path
      modifies this`file, this`fPos
      ensures Valid()
      ensures var n := h.recSize - h.auxLen;
              if WriteReturn(n, g1) == n
              then ret == n && Contents() == old(Contents()) + (HeaderBytes(h) + path)
              else ret == -1 && Contents() == old(Contents())
    {
      var n := h.recSize - h.auxLen;
      if n < 0 {
        ret := WriteReturn(n, g1);
      } else {
        assert n == HEADER + |path|;
        ret := KernelWrite(page[..n], g1);
      }
      if ret == n {
        fPos := fPos + ret;
      } else {
        ret := -1;
      }
    }

    method AppendRecord(h: Header, path: seq<byte>, aux: seq<byte>, held: bool, g1: int, g2: int) returns (r: Appended)
      requires Valid()
      requires 0 < |path| < PATH_MAX && h.pathLen == |path|
      requires h.auxLen <= |aux| && h.recSize == ToShort(HEADER + h.pathLen + h.auxLen)
      requires -0x8000 <= h.auxLen < 0x8000
      modifies this`file, this`fPos, page
      ensures Valid()
      ensures r == Appending(old(Contents()), h, path, aux, held, g1, g2)
      ensures Contents() == r.log
    {
      StageRecord(h, path);
      var r1 := WriteHead(h, path, g1);
      if h.auxLen == 0 {
        if held {
          return Bug(file[..fPos]);
        }
        return Wrote(file[..fPos], r1);
      }
      ghost var middle := Contents();
      var r2 := WriteReturn(h.auxLen, g2);
      if h.auxLen > 0 {
        r2 := KernelWrite(aux[..h.auxLen], g2);
      }
      if r2 == h.auxLen {
        if r2 < 0 {
          return Rewound(file[..fPos], r2);
        }
        fPos := fPos + r2;
        assert Contents() == middle + aux[..r2];
      } else {
        r2 := -1;
      }
      return Wrote(file[..fPos], r2);
    }

    /**
     * The logging block every traced operation runs under trfs_lock: mask, fill, append. A write may have any
     * count, and a NULL buffer if it has no bytes. `done` is how the append ended, if there was one; a record
     * that fits is appended as it was meant.
     */
    method LogOperation(kind: nat, flags: nat, perm: nat, err: int, path: seq<byte>, aux: seq<byte>, buffer: bool,
                        g1: int, g2: int) returns (done: Option<Appended>)
      requires Valid() && Known(kind) && 0 < |path| < PATH_MAX
      requires HasAux(kind) && kind != TR_FWRITE ==> 0 < |aux| < PATH_MAX
      requires aux != [] ==> buffer
      modifies this`file, this`fPos, this`recordId, page
      ensures Valid() && (done.None? <==> Selected(kind, mask) == 0)
      ensures done.None? ==> Contents() == old(Contents()) && recordId == old(recordId)
      ensures var id := (old(recordId) + 1) % 0x1_0000_0000;
              var h := Filled(id, kind, flags, perm, err, path, aux);
              done.Some? ==>
                && recordId == old(recordId) + 1 && h.auxLen <= |aux|
                && done.value == Appending(old(Contents()), h, path, aux, HasAux(kind) && buffer, g1, g2)
                && Contents() == done.value.log
      ensures var r := Meant((old(recordId) + 1) % 0x1_0000_0000, kind, flags, perm, err, path, aux);
              done.Some? && r.WellFormed() && (HasAux(kind) && buffer ==> aux != []) ==>
                Contents() == AppendRun(old(Contents()), [Attempt(r, g1, g2)])
    {
      hide Appending, AppendRun;
      done := None;
      var selected := Selected(kind, mask);
      var ret, record := FillRecord(selected, flags, perm, err, path, aux);
      if ret == 0 {
        ghost var log := Contents();
        FilledForAppend(recordId % 0x1_0000_0000, kind, flags, perm, err, path, aux);
        var a := AppendRecord(record, path, aux, HasAux(kind) && buffer, g1, g2);
        done := Some(a);
        AppendedAsMeant(log, record.id, kind, flags, perm, err, path, aux, buffer, g1, g2);
      }
    }
  }

  lemma FilledForAppend(id: nat, kind: nat, flags: nat, perm: nat, err: int, path: seq<byte>, aux: seq<byte>)
    requires Known(kind) && 0 < |path| < PATH_MAX
    ensures var h := Filled(id, kind, flags, perm, err, path, aux);
            && h.pathLen == |path| && h.auxLen <= |aux| && -0x8000 <= h.auxLen < 0x8000
            && h.recSize == ToShort(HEADER + h.pathLen + h.auxLen)
  {
  }

  /** A record that fits is filled, and appended, as it was meant. */
  lemma AppendedAsMeant(log: seq<byte>, id: nat, kind: nat, flags: nat, perm: nat, err: int, path: seq<byte>,
                        aux: seq<byte>, buffer: bool, g1: int, g2: int)
    requires Known(kind) && 0 < |path| < PATH_MAX && (aux != [] ==> buffer)
    requires HasAux(kind) && kind != TR_FWRITE ==> aux != []
    ensures var h := Filled(id, kind, flags, perm, err, path, aux);
            var r := Meant(id, kind, flags, perm, err, path, aux);
            && h.auxLen <= |aux|
            && (r.WellFormed() && (HasAux(kind) && buffer ==> aux != []) ==>
                  Appending(log, h, path, aux, HasAux(kind) && buffer, g1, g2).log == AppendRun(log, [Attempt(r, g1, g2)]))
  {
    hide Appending, AppendRun;
    FilledForAppend(id, kind, flags, perm, err, path, aux);
    var r := Meant(id, kind, flags, perm, err, path, aux);
    if r.WellFormed() && (HasAux(kind) && buffer ==> aux != []) {
      var h := Filled(id, kind, flags, perm, err, path, aux);
      assert h == r.ToHeader();
      AuxIgnored(log, h, path, aux, r.aux, HasAux(kind) && buffer, g1, g2);
      assert (HasAux(kind) && buffer) == (r.aux != []);
      AppendRunOne(log, Attempt(r, g1, g2));
    }
  }

  /** A kind without an aux part never looks at the aux argument. */
  lemma AuxIgnored(log: seq<byte>, h: Header, path: seq<byte>, aux: seq<byte>, aux': seq<byte>, held: bool, g1: int, g2: int)
    requires 0 < |path| < PATH_MAX && h.pathLen == |path| && h.recSize == ToShort(HEADER + h.pathLen + h.auxLen)
    requires aux == aux' || h.auxLen == 0
    requires -0x8000 <= h.auxLen < 0x8000 && h.auxLen <= |aux'|
    ensures Appending(log, h, path, aux, held, g1, g2) == Appending(log, h, path, aux', held, g1, g2)
  {
  }
}

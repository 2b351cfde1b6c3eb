/** The chunked scan of treplay against whole-log decoding. */
module Scan {
  import opened Bytes
  import opened Records
  import opened FileSystem
  import opened Replay
  import opened Treplay

  /** The file offsets at which the records start, the first one at `pos`. */
  function Offsets(pos: nat, rs: seq<Record>): (s: seq<nat>)
    ensures |s| == |rs|
    decreases rs
  {
    if rs == [] then [] else [pos] + Offsets(pos + rs[0].Size(), rs[1..])
  }

  /** How many records come before the first one that crosses the end of a chunk. */
  function Whole(pos: nat, size: nat, rs: seq<Record>): (k: nat)
    ensures k <= |rs|
    decreases rs
  {
    if rs == [] || pos + rs[0].Size() > ChunkEnd(pos, size) then 0
    else 1 + Whole(pos + rs[0].Size(), size, rs[1..])
  }

  /** The record fits the path buffers of a replay from `env.cwd`, and a kind with a second path has one. */
  predicate Replayable(env: Env, r: Record) {
    && r.WellFormed() && Dispatched(r.kind)
    && |env.cwd| + |r.path| < PATH_MAX
    && (r.kind == TR_RENAME || r.kind == TR_LINK || r.kind == TR_SYMLINK ==> r.aux != [])
    && (r.kind != TR_FWRITE && r.aux != [] ==>
          |r.aux| < PATH_MAX && (r.kind != TR_SYMLINK ==> |env.cwd| + |r.aux| < PATH_MAX))
  }

  ghost predicate AllReplayable(env: Env, rs: seq<Record>) {
    forall r :: r in rs ==> Replayable(env, r)
  }

  /** A record cut short by the end of the chunk is not inside the bytes that were read. */
  lemma CutRecord(r: Record, rest: seq<byte>, n: nat)
    requires r.WellFormed() && n < r.Size()
    ensures !Holds((Encode(r) + rest)[..n])
  {
    var s := (Encode(r) + rest)[..n];
    if n >= HEADER {
      var tail := s[HEADER..];
      assert s == HeaderBytes(r.ToHeader()) + tail;
      HeaderRoundTrip(r.ToHeader(), tail);
    }
  }

  lemma WholeRecord(env: Env, r: Record, rest: seq<byte>, n: nat)
    requires Replayable(env, r) && r.Size() <= n <= r.Size() + |rest|
    ensures var s := (Encode(r) + rest)[..n];
            Fits(env, s) && ParseHeader(s).recSize == r.Size() && DecodeAt(s) == r
  {
    assert (Encode(r) + rest)[..n] == Encode(r) + rest[..n - r.Size()];
    DecodeEncode(r, rest[..n - r.Size()]);
  }

  lemma AtRecord(pre: seq<byte>, r: Record, more: seq<byte>, end: nat)
    requires |pre| <= end <= |pre| + r.Size() + |more|
    ensures (pre + (Encode(r) + more))[|pre|..end] == (Encode(r) + more)[..end - |pre|]
    ensures pre + (Encode(r) + more) == (pre + Encode(r)) + more
  {
  }

  lemma ChunkAhead(pos: nat, size: nat)
    requires pos < size
    ensures pos < ChunkEnd(pos, size) <= size
  {
  }

  /** How the program ends when `k` of `n` records lie before the first crossing one. */
  function EndOf(halted: bool, k: nat, n: nat): End {
    if halted then Halted else if k == n then AtEnd else Undefined
  }

  /** One turn of the program at a record boundary. */
  lemma ScanStep(env: Env, pre: seq<byte>, r: Record, more: seq<byte>, fs: FileSys, seen: seq<nat>)
    requires Replayable(env, r)
    ensures var file := pre + (Encode(r) + more);
            var here := ReplayFrom(env, file, |pre|, fs, seen);
            if |pre| + r.Size() > ChunkEnd(|pre|, |file|) then here == Outcome(fs, seen, Undefined)
            else
              var d := Perform(env, r, fs);
              if d.halt then here == Outcome(d.fs, seen + [|pre|], Halted)
              else here == ReplayFrom(env, file, |pre| + r.Size(), d.fs, seen + [|pre|])
  {
    hide *;
    var file := pre + (Encode(r) + more);
    var end := ChunkEnd(|pre|, |file|);
    SizePositive(r);
    ChunkAhead(|pre|, |file|);
    AtRecord(pre, r, more, end);
    AtFront(env, file, |pre|, (Encode(r) + more)[..end - |pre|], fs, seen);
    if |pre| + r.Size() > end {
      CutRecordMisfits(env, r, more, end - |pre|);
    } else {
      WholeRecord(env, r, more, end - |pre|);
      assert Min(|pre| + r.Size(), end) == |pre| + r.Size() by { MinLeft(|pre| + r.Size(), end); }
    }
  }

  lemma SizePositive(r: Record)
    ensures r.Size() > 0
  {
  }

  lemma MinLeft(a: int, b: int)
    requires a <= b
    ensures Min(a, b) == a
  {
  }

  /** What the scan of the records `rs`, from file position `pos` on, should come to. */
  function Scanned(env: Env, pos: nat, size: nat, rs: seq<Record>, fs: FileSys, seen: seq<nat>): Outcome {
    var k := Whole(pos, size, rs);
    var r := ReplayList(env, rs[..k], fs);
    Outcome(r.fs, seen + Offsets(pos, rs[..r.count]), EndOf(r.halted, k, |rs|))
  }

  lemma ScannedCons(env: Env, pos: nat, size: nat, rs: seq<Record>, fs: FileSys, seen: seq<nat>)
    requires rs != []
    ensures var next := pos + rs[0].Size();
            var d := Perform(env, rs[0], fs);
            Scanned(env, pos, size, rs, fs, seen)
            == if next > ChunkEnd(pos, size) then Outcome(fs, seen, Undefined)
               else if d.halt then Outcome(d.fs, seen + [pos], Halted)
               else Scanned(env, next, size, rs[1..], d.fs, seen + [pos])
  {
    hide Perform, ChunkEnd;
    assert rs[..0] == [] && seen + [] == seen;
    var next := pos + rs[0].Size();
    if next <= ChunkEnd(pos, size) {
      var d := Perform(env, rs[0], fs);
      var k := Whole(next, size, rs[1..]);
      assert rs[..k + 1][1..] == rs[1..][..k] && rs[..k + 1][0] == rs[0];
      if d.halt {
        assert rs[..1] == [rs[0]];
        assert Offsets(pos, [rs[0]]) == [pos];
      } else {
        OffsetsCons(pos, rs, ReplayList(env, rs[1..][..k], d.fs).count, seen);
      }
    }
  }

  /**
   * On any log of whole records the chunked program performs, in order and at their true offsets, exactly
   * the records before the first one that crosses a chunk end (or up to the one that halts it), and it is
   * undefined at the crossing record.
   */
  lemma {:induction false} ScanExact(env: Env, pre: seq<byte>, rs: seq<Record>, fs: FileSys, seen: seq<nat>)
    requires AllReplayable(env, rs)
    ensures var file := pre + EncodeAll(rs);
            ReplayFrom(env, file, |pre|, fs, seen) == Scanned(env, |pre|, |file|, rs, fs, seen)
    decreases rs
  {
    hide *;
    if rs == [] {
      ScanEnd(env, pre, fs, seen);
    } else {
      var r0, more := rs[0], EncodeAll(rs[1..]);
      assert Replayable(env, r0) by { InList(env, rs); }
      var file := pre + EncodeAll(rs);
      EncodeAllCons(rs);
      ScanStep(env, pre, r0, more, fs, seen);
      ScannedCons(env, |pre|, |file|, rs, fs, seen);
      InList(env, rs);
      var next := |pre| + r0.Size();
      var d := Perform(env, r0, fs);
      if next <= ChunkEnd(|pre|, |file|) && !d.halt {
        assert pre + Encode(r0) + more == file && |pre + Encode(r0)| == next;
        ScanExact(env, pre + Encode(r0), rs[1..], d.fs, seen + [|pre|]);
      }
    }
  }

  lemma ScanEnd(env: Env, file: seq<byte>, fs: FileSys, seen: seq<nat>)
    ensures file + EncodeAll([]) == file
    ensures ReplayFrom(env, file, |file|, fs, seen) == Scanned(env, |file|, |file|, [], fs, seen)
  {
    assert seen + [] == seen && file + [] == file;
  }

  lemma InList(env: Env, rs: seq<Record>)
    requires rs != [] && AllReplayable(env, rs)
    ensures Replayable(env, rs[0]) && AllReplayable(env, rs[1..])
  {
    assert rs[0] in rs;
  }

  lemma OffsetsCons(pos: nat, rs: seq<Record>, c: nat, seen: seq<nat>)
    requires rs != [] && c < |rs|
    ensures seen + [pos] + Offsets(pos + rs[0].Size(), rs[1..][..c]) == seen + Offsets(pos, rs[..c + 1])
  {
    assert rs[..c + 1][1..] == rs[1..][..c] && rs[..c + 1][0] == rs[0];
  }

  lemma CutRecordMisfits(env: Env, r: Record, rest: seq<byte>, n: nat)
    requires Replayable(env, r) && n < r.Size()
    ensures !Fits(env, (Encode(r) + rest)[..n])
  {
    CutRecord(r, rest, n);
  }

  // ----- alignment -----

  /** The file offset at which the m-th chunk starts. */
  function ChunkStart(m: nat): nat { m * 16384 }

  lemma {:induction false} OffsetsFrom(pos: nat, rs: seq<Record>, x: nat)
    requires x in Offsets(pos, rs)
    ensures x >= pos
    decreases rs
  {
    if rs != [] && x != pos {
      OffsetsFrom(pos + rs[0].Size(), rs[1..], x);
    }
  }

  /** The first chunk start after `pos`. */
  lemma NextChunk(pos: nat)
    ensures pos < ChunkStart(pos / CHUNK + 1) <= pos + CHUNK
    ensures forall m: nat :: pos < ChunkStart(m) ==> ChunkStart(pos / CHUNK + 1) <= ChunkStart(m)
  {
  }

  lemma ChunkEndStart(pos: nat, size: nat)
    ensures ChunkEnd(pos, size) == Min(ChunkStart(pos / CHUNK + 1), size)
  {
  }

  /** An offset inside the first record is none at which a record starts. */
  lemma InsideRecord(pos: nat, rs: seq<Record>, x: nat)
    requires rs != [] && pos < x < pos + rs[0].Size()
    ensures x !in Offsets(pos, rs)
  {
    if x in Offsets(pos + rs[0].Size(), rs[1..]) {
      OffsetsFrom(pos + rs[0].Size(), rs[1..], x);
    }
  }

  /** Every chunk that starts at or after `pos` and before `size` starts with a record. */
  ghost predicate ChunksStart(pos: nat, size: nat, rs: seq<Record>) {
    forall m: nat :: pos <= ChunkStart(m) < size ==> ChunkStart(m) in Offsets(pos, rs)
  }

  /** A first record that crosses the end of its chunk leaves the next chunk without a record at its start. */
  lemma Crossing(pos: nat, size: nat, rs: seq<Record>)
    requires rs != [] && ChunkEnd(pos, size) < pos + rs[0].Size() <= size
    ensures ChunkEnd(pos, size) !in Offsets(pos, rs) && !ChunksStart(pos, size, rs)
  {
    NextChunk(pos);
    ChunkEndStart(pos, size);
    InsideRecord(pos, rs, ChunkStart(pos / CHUNK + 1));
  }

  lemma OffsetsSplit(pos: nat, rs: seq<Record>)
    requires rs != []
    ensures forall x :: x in Offsets(pos, rs) <==> x == pos || x in Offsets(pos + rs[0].Size(), rs[1..])
  {
  }

  /** Past a first record that stays in its chunk, the condition is the one on the rest. */
  lemma NotCrossing(pos: nat, size: nat, rs: seq<Record>)
    requires rs != [] && pos + rs[0].Size() <= ChunkEnd(pos, size)
    ensures ChunksStart(pos, size, rs) <==> ChunksStart(pos + rs[0].Size(), size, rs[1..])
  {
    hide Offsets, ChunkEnd, ChunkStart;
    NextChunk(pos);
    ChunkEndStart(pos, size);
    OffsetsSplit(pos, rs);
    SizePositive(rs[0]);
    MinAtMost(ChunkStart(pos / CHUNK + 1), size);
    forall m: nat | ChunkStart(m) == pos ensures ChunkStart(m) in Offsets(pos, rs) {
    }
  }

  lemma MinAtMost(a: int, b: int)
    ensures Min(a, b) <= a && Min(a, b) <= b
  {
  }

  lemma SizeOfRest(pos: nat, rs: seq<Record>)
    requires rs != []
    ensures pos + |EncodeAll(rs)| == pos + rs[0].Size() + |EncodeAll(rs[1..])|
  {
  }

  lemma WholeCons(pos: nat, size: nat, rs: seq<Record>)
    requires rs != []
    ensures if pos + rs[0].Size() > ChunkEnd(pos, size) then Whole(pos, size, rs) == 0
            else Whole(pos, size, rs) == 1 + Whole(pos + rs[0].Size(), size, rs[1..])
  {
  }

  lemma AlignedNil(pos: nat)
    ensures Whole(pos, pos, []) == 0 && ChunksStart(pos, pos, []) && |EncodeAll([])| == 0
  {
  }

  /** No record crosses a chunk end exactly when every chunk starts with a record. */
  lemma {:induction false} AlignedIff(pos: nat, rs: seq<Record>)
    ensures var size := pos + |EncodeAll(rs)|;
            Whole(pos, size, rs) == |rs| <==> ChunksStart(pos, size, rs)
    decreases rs
  {
    hide *;
    if rs == [] {
      AlignedNil(pos);
    } else {
      var size := pos + |EncodeAll(rs)|;
      SizeOfRest(pos, rs);
      WholeCons(pos, size, rs);
      if pos + rs[0].Size() > ChunkEnd(pos, size) {
        Crossing(pos, size, rs);
      } else {
        NotCrossing(pos, size, rs);
        AlignedIff(pos + rs[0].Size(), rs[1..]);
      }
    }
  }

  /**
   * The offsets at the first record that crosses a chunk end: it ends beyond the chunk, and no record starts at
   * the offset at which the next chunk does.
   */
  lemma {:induction false} LosesPlace(pos: nat, rs: seq<Record>)
    requires var size := pos + |EncodeAll(rs)|; Whole(pos, size, rs) < |rs|
    ensures var size := pos + |EncodeAll(rs)|;
            var k := Whole(pos, size, rs);
            var at := Offsets(pos, rs)[k];
            && Min(at + rs[k].Size(), ChunkEnd(at, size)) == ChunkEnd(at, size)
            && ChunkEnd(at, size) < size && ChunkEnd(at, size) !in Offsets(pos, rs)
    decreases rs
  {
    hide *;
    SomeRecord(pos, rs);
    var size := pos + |EncodeAll(rs)|;
    SizeOfRest(pos, rs);
    WholeCons(pos, size, rs);
    OffsetsHead(pos, rs);
    if pos + rs[0].Size() > ChunkEnd(pos, size) {
      Crossing(pos, size, rs);
      MinRight(pos + rs[0].Size(), ChunkEnd(pos, size));
    } else {
      var next, k := pos + rs[0].Size(), Whole(pos, size, rs);
      LosesPlace(next, rs[1..]);
      OffsetsSplit(pos, rs);
      var at := Offsets(next, rs[1..])[k - 1];
      OffsetsFrom(next, rs[1..], at);
      SizePositive(rs[0]);
      ChunkEndStart(at, size);
      NextChunk(at);
      MinWhich(ChunkStart(at / CHUNK + 1), size);
    }
  }

  lemma SomeRecord(pos: nat, rs: seq<Record>)
    requires Whole(pos, pos + |EncodeAll(rs)|, rs) < |rs|
    ensures rs != []
  {
  }

  lemma OffsetsHead(pos: nat, rs: seq<Record>)
    requires rs != []
    ensures Offsets(pos, rs)[0] == pos
    ensures forall k :: 0 < k < |rs| ==> Offsets(pos, rs)[k] == Offsets(pos + rs[0].Size(), rs[1..])[k - 1]
  {
  }

  lemma MinWhich(a: int, b: int)
    ensures Min(a, b) == a || Min(a, b) == b
  {
  }

  lemma MinRight(a: int, b: int)
    requires b <= a
    ensures Min(a, b) == b
  {
  }

  /** A log within one chunk is always read whole. */
  lemma SmallLogIsWhole(rs: seq<Record>)
    requires |EncodeAll(rs)| <= 16384
    ensures Whole(0, |EncodeAll(rs)|, rs) == |rs|
  {
    AlignedIff(0, rs);
    if rs != [] {
      hide EncodeAll;
      OffsetsHead(0, rs);
      forall m: nat | 0 <= ChunkStart(m) < |EncodeAll(rs)| ensures ChunkStart(m) in Offsets(0, rs) {
        assert m == 0;
      }
    }
  }

  /**
   * Without halting, treplay reaches the end of a log having visited exactly its record offsets if and
   * only if every multiple of the chunk size below the file length is the offset of a record. Otherwise the
   * chunk after the first crossing record is read from the middle of a record.
   */
  lemma ChunkedScanIff(env: Env, rs: seq<Record>, fs: FileSys)
    requires AllReplayable(env, rs) && env.mode != Strict
    ensures var file := EncodeAll(rs);
            var out := ReplayFrom(env, file, 0, fs, []);
            && (out.end == AtEnd <==> ChunksStart(0, |file|, rs))
            && (out.end == AtEnd ==> out.offsets == Offsets(0, rs) && out.fs == ReplayList(env, rs, fs).fs)
            && (out.end == AtEnd || out.end == Undefined)
  {
    hide *;
    var size := |EncodeAll(rs)|;
    assert [] + EncodeAll(rs) == EncodeAll(rs);
    ScanExact(env, [], rs, fs, []);
    AlignedIff(0, rs);
    ScannedWithoutHalt(env, size, rs, fs);
  }

  lemma ScannedWithoutHalt(env: Env, size: nat, rs: seq<Record>, fs: FileSys)
    requires AllReplayable(env, rs) && env.mode != Strict
    ensures var out := Scanned(env, 0, size, rs, fs, []);
            && (out.end == AtEnd <==> Whole(0, size, rs) == |rs|)
            && (out.end == AtEnd ==> out.offsets == Offsets(0, rs) && out.fs == ReplayList(env, rs, fs).fs)
            && (out.end == AtEnd || out.end == Undefined)
  {
    hide Perform;
    var k := Whole(0, size, rs);
    forall r | r in rs[..k] ensures Dispatched(r.kind) {
      assert r in rs && Replayable(env, r);
    }
    OnlyStrictHalts(env, rs[..k], fs);
    assert rs[..|rs|] == rs;
    assert [] + Offsets(0, rs) == Offsets(0, rs);
  }

  lemma {:induction false} OnlyStrictHalts(env: Env, rs: seq<Record>, fs: FileSys)
    requires env.mode != Strict && forall r :: r in rs ==> Dispatched(r.kind)
    ensures !ReplayList(env, rs, fs).halted
    decreases rs
  {
    if rs != [] {
      assert rs[0] in rs;
      OnlyStrictHalts(env, rs[1..], Perform(env, rs[0], fs).fs);
    }
  }

  /** Every record takes at least 33 bytes. */
  lemma {:induction false} RecordsBounded(env: Env, rs: seq<Record>)
    requires AllReplayable(env, rs)
    ensures 33 * |rs| <= |EncodeAll(rs)|
  {
    if rs != [] {
      InList(env, rs);
      RecordsBounded(env, rs[1..]);
    }
  }

  /** So the walk over a log of whole records makes at most a 33rd as many turns as the log has bytes. */
  lemma TurnsBounded(env: Env, rs: seq<Record>, fs: FileSys)
    requires AllReplayable(env, rs)
    ensures 33 * |ReplayFrom(env, EncodeAll(rs), 0, fs, []).offsets| <= |EncodeAll(rs)|
  {
    hide *;
    assert [] + EncodeAll(rs) == EncodeAll(rs);
    ScanExact(env, [], rs, fs, []);
    ScannedOffsets(env, |EncodeAll(rs)|, rs, fs);
    RecordsBounded(env, rs);
  }

  lemma ScannedOffsets(env: Env, size: nat, rs: seq<Record>, fs: FileSys)
    ensures |Scanned(env, 0, size, rs, fs, []).offsets| <= |rs|
  {
    hide ReplayList, Whole, Offsets;
  }

  // ----- ids -----

  /** The same records, numbered differently. */
  ghost predicate SameButIds(rs: seq<Record>, qs: seq<Record>) {
    |rs| == |qs| && forall i :: 0 <= i < |rs| ==> qs[i] == rs[i].(id := qs[i].id)
  }

  lemma SameRest(rs: seq<Record>, qs: seq<Record>)
    requires SameButIds(rs, qs) && rs != []
    ensures qs != [] && SameButIds(rs[1..], qs[1..]) && rs[0].Size() == qs[0].Size()
    ensures qs[0] == rs[0].(id := qs[0].id)
  {
    forall i | 0 <= i < |rs[1..]| ensures qs[1..][i] == rs[1..][i].(id := qs[1..][i].id) {
      assert qs[i + 1] == rs[i + 1].(id := qs[i + 1].id);
    }
  }

  lemma {:induction false} LengthIgnoresIds(rs: seq<Record>, qs: seq<Record>)
    requires SameButIds(rs, qs)
    ensures |EncodeAll(rs)| == |EncodeAll(qs)|
    decreases rs
  {
    hide *;
    if rs == [] {
      NoRecords(rs, qs);
    } else {
      SameRest(rs, qs);
      SizeOfRest(0, rs);
      SizeOfRest(0, qs);
      LengthIgnoresIds(rs[1..], qs[1..]);
    }
  }

  lemma {:induction false} OffsetsIgnoreIds(pos: nat, rs: seq<Record>, qs: seq<Record>)
    requires SameButIds(rs, qs)
    ensures Offsets(pos, rs) == Offsets(pos, qs)
    decreases rs
  {
    hide Record.Size, SameButIds;
    if rs == [] {
      NoRecords(rs, qs);
    } else {
      SameRest(rs, qs);
      OffsetsIgnoreIds(pos + rs[0].Size(), rs[1..], qs[1..]);
    }
  }

  lemma {:induction false} WholeIgnoresIds(pos: nat, size: nat, rs: seq<Record>, qs: seq<Record>)
    requires SameButIds(rs, qs)
    ensures Whole(pos, size, rs) == Whole(pos, size, qs)
    decreases rs
  {
    hide *;
    if rs == [] {
      NoRecords(rs, qs);
    } else {
      SameRest(rs, qs);
      WholeCons(pos, size, rs);
      WholeCons(pos, size, qs);
      WholeIgnoresIds(pos + rs[0].Size(), size, rs[1..], qs[1..]);
    }
  }

  lemma NoRecords(rs: seq<Record>, qs: seq<Record>)
    requires SameButIds(rs, qs) && rs == []
    ensures qs == []
  {
  }

  lemma PerformIgnoresId(env: Env, r: Record, id: nat, fs: FileSys)
    ensures Perform(env, r.(id := id), fs) == Perform(env, r, fs)
  {
    hide Dispatch, FirstName, SecondName;
    NamesIgnoreId(env, r, id);
  }

  lemma NamesIgnoreId(env: Env, r: Record, id: nat)
    ensures FirstName(env, r.(id := id)) == FirstName(env, r) && SecondName(env, r.(id := id)) == SecondName(env, r)
  {
  }

  lemma {:induction false} ListIgnoresIds(env: Env, rs: seq<Record>, qs: seq<Record>, fs: FileSys)
    requires SameButIds(rs, qs)
    ensures ReplayList(env, rs, fs) == ReplayList(env, qs, fs)
    decreases rs
  {
    hide Perform, SameButIds;
    if rs == [] {
      NoRecords(rs, qs);
    } else {
      SameRest(rs, qs);
      PerformIgnoresId(env, rs[0], qs[0].id, fs);
      ListIgnoresIds(env, rs[1..], qs[1..], Perform(env, rs[0], fs).fs);
    }
  }

  lemma SamePrefix(rs: seq<Record>, qs: seq<Record>, k: nat)
    requires SameButIds(rs, qs) && k <= |rs|
    ensures SameButIds(rs[..k], qs[..k])
  {
  }

  /** A replay takes no notice of the ids: a log whose counter was reset on the way replays like any other. */
  lemma ReplayIgnoresIds(env: Env, rs: seq<Record>, qs: seq<Record>, fs: FileSys)
    requires AllReplayable(env, rs) && AllReplayable(env, qs) && SameButIds(rs, qs)
    ensures ReplayFrom(env, EncodeAll(rs), 0, fs, []) == ReplayFrom(env, EncodeAll(qs), 0, fs, [])
  {
    hide *;
    assert [] + EncodeAll(rs) == EncodeAll(rs) && [] + EncodeAll(qs) == EncodeAll(qs);
    ScanExact(env, [], rs, fs, []);
    ScanExact(env, [], qs, fs, []);
    var size := |EncodeAll(rs)|;
    LengthIgnoresIds(rs, qs);
    WholeIgnoresIds(0, size, rs, qs);
    SamePrefix(rs, qs, Whole(0, size, rs));
    ListIgnoresIds(env, rs[..Whole(0, size, rs)], qs[..Whole(0, size, rs)], fs);
    SameScanned(env, size, rs, qs, fs);
  }

  lemma SameScanned(env: Env, size: nat, rs: seq<Record>, qs: seq<Record>, fs: FileSys)
    requires SameButIds(rs, qs) && Whole(0, size, rs) == Whole(0, size, qs)
    requires var k := Whole(0, size, rs); ReplayList(env, rs[..k], fs) == ReplayList(env, qs[..k], fs)
    ensures Scanned(env, 0, size, rs, fs, []) == Scanned(env, 0, size, qs, fs, [])
  {
    hide ReplayList, Whole;
    var k := Whole(0, size, rs);
    var r := ReplayList(env, rs[..k], fs);
    SamePrefix(rs, qs, r.count);
    OffsetsIgnoreIds(0, rs[..r.count], qs[..r.count]);
  }
}

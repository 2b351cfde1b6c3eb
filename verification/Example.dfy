/** One trace, from the first operation to the replayed tree: the premises of the end-to-end theorem are met. */
module Example {
  import opened Bytes
  import opened Records
  import opened FileSystem
  import opened FsLaws
  import opened Resolve
  import opened Syscalls
  import opened Replay
  import opened Treplay
  import opened Scan
  import opened Replaying
  import opened EndToEnd
  import opened ConcurrentReplay
  import opened OpLaws

  /** A file system with nothing but its root directory, of mode 0755. */
  const ROOT: FileSys := FileSys(map[[] := 0], map[0 := Dir(0x1ED)], 1)

  /** treplay without options in that root, under umask 0. */
  const HERE: Env := Env([47], 0, 0, Normal, Linux())

  const A: Name := [97]
  const B: Name := [98]

  /** mkdir /a, create /a/b, write "xy" to it, link it as /b, remove /a/b. */
  const TRACE: seq<Op> := [
    Mkdir([A], 0x1ED), Create([A, B], 0x1A4), Write([A, B], 1, false, 0, [120, 121]),
    Hardlink([A, B], [B]), Unlink([A, B])]

  lemma Premises()
    ensures RunsIn(HERE, []) && ROOT.Sound() && ROOT.Rooted()
    ensures forall op :: op in TRACE ==> Traceable(op) && Rebasable(HERE, op)
  {
    assert PlainName(A) && PlainName(B);
    assert Plain([A]) && Plain([B]) && Plain([A, B]);
    RenderShort(A, B);
  }

  lemma RenderShort(a: Name, b: Name)
    ensures Render([a]) == [SLASH] + a && Render([a, b]) == [SLASH] + a + [SLASH] + b
  {
    RenderMeans([a], a);
    RenderMeans([a], b);
    assert [a] + [b] == [a, b];
  }

  /** What the trace makes: the file is at /b, with its two bytes, and no longer at /a/b. */
  const MADE: FileSys := FileSys(map[[] := 0, [A] := 1, [B] := 2],
                                 map[0 := Dir(0x1ED), 1 := Dir(0x1ED), 2 := File(0x1A4, [120, 121])], 3)

  lemma ModeBits()
    ensures Bits(0x1ED, 0, 10) == 0x1ED && Bits(0x1A4, 0, 12) == 0x1A4
  {
    LowBits(0x1ED, 10);
    LowBits(0x1A4, 12);
  }

  function Pow2(k: nat): nat { if k == 0 then 1 else 2 * Pow2(k - 1) }

  lemma {:induction false} LowBits(mode: nat, k: nat)
    ensures mode < Pow2(k) ==> Bits(mode, 0, k) == mode
  {
    if k > 0 {
      LowBits(mode / 2, k - 1);
    }
  }

  // The trees in between.
  const F1: FileSys := FileSys(map[[] := 0, [A] := 1], map[0 := Dir(0x1ED), 1 := Dir(0x1ED)], 2)
  const F2: FileSys := FileSys(map[[] := 0, [A] := 1, [A, B] := 2],
                               map[0 := Dir(0x1ED), 1 := Dir(0x1ED), 2 := File(0x1A4, [])], 3)
  const F3: FileSys := FileSys(map[[] := 0, [A] := 1, [A, B] := 2],
                               map[0 := Dir(0x1ED), 1 := Dir(0x1ED), 2 := File(0x1A4, [120, 121])], 3)
  const F4: FileSys := FileSys(map[[] := 0, [A] := 1, [A, B] := 2, [B] := 2],
                               map[0 := Dir(0x1ED), 1 := Dir(0x1ED), 2 := File(0x1A4, [120, 121])], 3)

  lemma Different()
    ensures [A] != [B] && [A] != [A, B] && [B] != [A, B]
    ensures Parent([A]) == [] && Parent([B]) == [] && Parent([A, B]) == [A]
  {
    assert [A][0] != [B][0] && |[A]| == 1 && |[A, B]| == 2;
  }

  lemma Step1()
    ensures Apply(ROOT, TRACE[0]) == Ok(F1)
  {
    Different();
    ModeBits();
    hide Bits;
    assert ROOT.Enter([A], Dir(0x1ED)) == F1;
  }

  lemma Step2()
    ensures Apply(F1, TRACE[1]) == Ok(F2)
  {
    Different();
    ModeBits();
    hide Bits;
    assert F1.Enter([A, B], File(0x1A4, [])) == F2;
  }

  lemma Step3()
    ensures Apply(F2, TRACE[2]) == Ok(F3)
  {
    Different();
    assert Splice([], 0, [120, 121]) == [120, 121];
    hide Splice;
    assert F2.Put([A, B], [120, 121]) == F3;
  }

  lemma Step4()
    ensures Apply(F3, TRACE[3]) == Ok(F4)
  {
    Different();
    assert F3.(names := F3.names[[B] := 2]) == F4;
  }

  lemma Step5()
    ensures Apply(F4, TRACE[4]) == Ok(MADE)
  {
    Different();
    assert F4.Remove([A, B]) == MADE;
  }

  lemma FiveSteps(f: FileSys, ops: seq<Op>, f1: FileSys, f2: FileSys, f3: FileSys, f4: FileSys, f5: FileSys)
    requires |ops| == 5 && Apply(f, ops[0]) == Ok(f1) && Apply(f1, ops[1]) == Ok(f2) && Apply(f2, ops[2]) == Ok(f3)
    requires Apply(f3, ops[3]) == Ok(f4) && Apply(f4, ops[4]) == Ok(f5)
    ensures Run(f, ops) == Ok(f5)
  {
    hide Apply;
    assert ops[1..][0] == ops[1] && ops[1..][1..] == ops[2..] && ops[2..][0] == ops[2] && ops[2..][1..] == ops[3..];
    assert ops[3..][0] == ops[3] && ops[3..][1..] == ops[4..] && ops[4..][0] == ops[4] && ops[4..][1..] == [];
    assert Run(f5, []) == Ok(f5);
    assert Run(f4, ops[4..]) == Ok(f5);
    assert Run(f3, ops[3..]) == Ok(f5);
    assert Run(f2, ops[2..]) == Ok(f5);
    assert Run(f1, ops[1..]) == Ok(f5);
  }

  lemma TraceRuns()
    ensures Run(ROOT, TRACE) == Ok(MADE)
  {
    Step1();
    Step2();
    Step3();
    Step4();
    Step5();
    hide Apply, ROOT, F1, F2, F3, F4, MADE;
    FiveSteps(ROOT, TRACE, F1, F2, F3, F4, MADE);
  }

  /** A short trace fits one chunk. */
  lemma {:induction false} ShortRecords(ops: seq<Op>, id: nat)
    requires forall op :: op in ops ==> |Render(op.path)| <= 64 && |Aux(op)| <= 64
    ensures |EncodeAll(RecordsOf(ops, id))| <= 160 * |ops|
    decreases ops
  {
    hide Render, Aux;
    if ops != [] {
      assert ops[0] in ops;
      ShortRecords(ops[1..], id + 1);
      assert RecordsOf(ops, id)[1..] == RecordsOf(ops[1..], id + 1);
      EncodeAllCons(RecordsOf(ops, id));
      assert RecordOf(ops[0], id).Size() <= 160;
    }
  }

  lemma NamesAreShort()
    ensures forall op :: op in TRACE ==> |Render(op.path)| <= 64 && |Aux(op)| <= 64
  {
    RenderShort(A, B);
    RenderShort(B, A);
    hide Render;
    assert |Render([A])| == 2 && |Render([B])| == 2 && |Render([A, B])| == 4;
  }

  lemma FiveOperations()
    ensures |TRACE| == 5
  {
  }

  lemma TraceIsShort()
    ensures forall op :: op in TRACE ==> Traceable(op)
    ensures Aligned(TRACE)
  {
    hide *;
    Premises();
    NamesAreShort();
    ShortRecords(TRACE, 0);
    FiveOperations();
    LogIsEncoding(TRACE);
    SmallLogAligned(TRACE);
  }

  lemma PremisesShifted()
    ensures RunsIn(HERE, []) && AllTraceable(HERE, TRACE) && Aligned(TRACE)
    ensures Twin(ROOT, [], ROOT, []) && Run(ROOT, ShiftAll([], TRACE)) == Ok(MADE)
  {
    Premises();
    TraceIsShort();
    TraceRuns();
    hide Run, TRACE, MADE, HERE, Traceable, Rebasable, RunsIn, Aligned, Render;
    WholeTree(ROOT);
    ShiftNothing(TRACE);
  }

  /** The end-to-end theorem at work: replaying the bytes of the trace makes the same tree. */
  lemma Replayed()
    ensures forall op :: op in TRACE ==> Traceable(op)
    ensures var out := ReplayFrom(HERE, LogOf(TRACE), 0, ROOT, []);
            out.end == AtEnd && Iso(MADE, out.fs)
  {
    TraceIsShort();
    PremisesShifted();
    hide *;
    ReplayRebuildsTree(HERE, [], ROOT, [], ROOT, TRACE);
    var out := ReplayFrom(HERE, LogOf(TRACE), 0, ROOT, []);
    WholeTree(MADE);
    WholeTree(out.fs);
    TwinIso(MADE, [], out.fs, []);
  }
}

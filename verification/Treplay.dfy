/** The main loop of hw2/treplay.c: chunked reading, the record walk and the two path buffers. */
module Treplay {
  import opened Bytes
  import opened Records
  import opened FileSystem
  import opened Replay

  /** Four buffers of 4 KB are read at a time. */
  const CHUNK: nat := 16384

  /** `Undefined` stands for what C leaves undefined: a read or a copy outside a buffer, or a walk that
      does not advance. */
  datatype End = AtEnd | Halted | Undefined

  /** Final file system, file offsets of the records performed, and how the program ended. */
  datatype Outcome = Outcome(fs: FileSys, offsets: seq<nat>, end: End)

  function Min(a: int, b: int): int { if a < b then a else b }

  /** Where the chunk that contains file position `pos` ends. */
  function ChunkEnd(pos: nat, size: nat): nat { Min((pos / CHUNK + 1) * CHUNK, size) }

  /** The record at the front of `s`, the rest of the chunk, lies inside it and fits the path buffers. */
  predicate Fits(env: Env, s: seq<byte>) {
    && Holds(s)
    && var h := ParseHeader(s);
       && h.recSize > 0
       && h.pathLen < PATH_MAX && |env.cwd| + h.pathLen < PATH_MAX
       && (h.kind == TR_RENAME || h.kind == TR_LINK || h.kind == TR_SYMLINK ==> h.auxLen > 0)
       && (h.kind != TR_FWRITE && h.auxLen > 0 ==>
             h.auxLen < PATH_MAX && (h.kind != TR_SYMLINK ==> |env.cwd| + h.auxLen < PATH_MAX))
  }

  /** The program from file position `pos` on: one record, then the next of this chunk or the next chunk. */
  function ReplayFrom(env: Env, file: seq<byte>, pos: nat, fs: FileSys, seen: seq<nat>): Outcome
    requires pos <= |file|
    decreases |file| - pos
  {
    if pos == |file| then Outcome(fs, seen, AtEnd)
    else
      var end := ChunkEnd(pos, |file|);
      var s := file[pos..end];
      if !Fits(env, s) then Outcome(fs, seen, Undefined)
      else
        var d := Perform(env, DecodeAt(s), fs);
        if d.halt then Outcome(d.fs, seen + [pos], Halted)
        else ReplayFrom(env, file, Min(pos + ParseHeader(s).recSize, end), d.fs, seen + [pos])
  }

  // ----- string.h on the buffers -----

  lemma CStringOfTerminated(s: seq<byte>, rest: seq<byte>)
    ensures CString(s + [NUL] + rest) == CString(s)
  {
    var n := |CString(s)|;
    var t := s + [NUL] + rest;
    assert t[..n] == s[..n];
    assert t[n] == NUL;
    CStringIs(t, n);
  }

  method Memcpy(dst: array<byte>, src: array<byte>, from: nat, n: nat)
    requires dst != src && n <= dst.Length && from + n <= src.Length
    modifies dst
    ensures dst[..n] == src[from..from + n]
  {
    for i := 0 to n
      invariant dst[..i] == src[from..from + i]
    {
      dst[i] := src[from + i];
    }
  }

  /** Copies `n` bytes and closes them with a NUL. */
  method CopyString(dst: array<byte>, src: array<byte>, from: nat, n: nat)
    requires dst != src && n < dst.Length && from + n <= src.Length
    modifies dst
    ensures NUL in dst[..]
    ensures CString(dst[..]) == CString(src[from..from + n])
  {
    Memcpy(dst, src, from, n);
    dst[n] := NUL;
    assert dst[..] == src[from..from + n] + [NUL] + dst[n + 1..];
    CStringOfTerminated(src[from..from + n], dst[n + 1..]);
  }

  method Getcwd(buf: array<byte>, cwd: seq<byte>)
    requires |cwd| < buf.Length && NUL !in cwd
    modifies buf
    ensures NUL in buf[..] && CString(buf[..]) == cwd
  {
    for i := 0 to |cwd|
      invariant buf[..i] == cwd[..i]
    {
      buf[i] := cwd[i];
    }
    buf[|cwd|] := NUL;
    assert buf[..|cwd|] == cwd;
    CStringIs(buf[..], |cwd|);
  }

  method Strcat(dst: array<byte>, src: array<byte>)
    requires dst != src && NUL in dst[..] && NUL in src[..]
    requires |CString(dst[..])| + |CString(src[..])| < dst.Length
    modifies dst
    ensures NUL in dst[..]
    ensures CString(dst[..]) == old(CString(dst[..])) + CString(src[..])
  {
    ghost var head, tail := CString(dst[..]), CString(src[..]);
    Terminated(src[..]);
    NoNulInTwo(dst[..], src[..]);
    hide CString;
    var n := Strlen(dst);
    var i := 0;
    while src[i] != NUL
      invariant 0 <= i <= |tail| < src.Length && src[|tail|] == NUL
      invariant forall k :: 0 <= k < |tail| ==> src[k] == tail[k] != NUL
      invariant dst[..n + i] == head + tail[..i]
      decreases |tail| - i
    {
      dst[n + i] := src[i];
      i := i + 1;
    }
    dst[n + i] := NUL;
    assert dst[..n + i] == head + tail;
    CStringIs(dst[..], n + i);
  }

  lemma NoNulInTwo(s: seq<byte>, t: seq<byte>)
    ensures NUL !in CString(s) + CString(t)
  {
  }

  lemma Terminated(s: seq<byte>)
    requires NUL in s
    ensures |CString(s)| < |s| && s[|CString(s)|] == NUL
    ensures forall k :: 0 <= k < |CString(s)| ==> s[k] == CString(s)[k] != NUL
  {
    var r := CString(s);
    assert |r| < |s| by {
      assert s[..|s|] == s;
    }
    forall k | 0 <= k < |r| ensures r[k] != NUL {
      assert r[k] in r;
    }
  }

  method Strlen(s: array<byte>) returns (n: nat)
    requires NUL in s[..]
    ensures n == |CString(s[..])| && n < s.Length && s[n] == NUL && s[..n] == CString(s[..])
  {
    ghost var len := |CString(s[..])|;
    Terminated(s[..]);
    n := 0;
    while s[n] != NUL
      invariant n <= len < s.Length
      invariant s[len] == NUL && forall k :: 0 <= k < len ==> s[k] != NUL
      decreases len - n
    {
      n := n + 1;
    }
  }

  /** A path below the working directory: getcwd into `dst`, then the string in `rel`. */
  method Rebase(env: Env, dst: array<byte>, rel: array<byte>)
    requires env.Valid() && dst != rel && dst.Length == PATH_MAX
    requires NUL in rel[..] && |env.cwd| + |CString(rel[..])| < PATH_MAX
    modifies dst
    ensures CString(dst[..]) == env.cwd + CString(rel[..])
  {
    Getcwd(dst, env.cwd);
    Strcat(dst, rel);
  }

  // ----- the loops -----

  /** read(2) of the next chunk into `buf`. */
  method Read(buf: array<byte>, file: seq<byte>, size: nat) returns (n: nat)
    requires size <= |file| && buf.Length >= Min(|file|, CHUNK)
    modifies buf
    ensures n == Min(|file| - size, CHUNK) && n <= buf.Length
    ensures buf[..n] == file[size..size + n]
  {
    n := Min(|file| - size, CHUNK);
    for i := 0 to n
      invariant buf[..i] == file[size..size + i]
    {
      buf[i] := file[size + i];
    }
  }

  /** The body of the inner loop: both paths are built in the buffers, then the record is dispatched. */
  method OneRecord(env: Env, buf: array<byte>, at: nat, limit: nat, pathbuf: array<byte>, resolvebuf: array<byte>,
                   auxbuf: array<byte>, fs: FileSys) returns (fits: bool, recSize: int, d: Did)
    requires env.Valid() && at < limit <= buf.Length
    requires pathbuf.Length == resolvebuf.Length == auxbuf.Length == PATH_MAX
    requires buf != pathbuf && buf != resolvebuf && buf != auxbuf
    requires pathbuf != resolvebuf && pathbuf != auxbuf && resolvebuf != auxbuf
    modifies pathbuf, resolvebuf, auxbuf
    ensures fits <==> Fits(env, buf[at..limit])
    ensures fits ==> recSize == ParseHeader(buf[at..limit]).recSize > 0
    ensures fits ==> d == Perform(env, DecodeAt(buf[at..limit]), fs)
  {
    hide *;
    fits, recSize, d := Fits(env, buf[at..limit]), 0, Did(fs, false, false);
    if fits {
      FitsMeans(env, buf[at..limit]);
      recSize := ParseHeader(buf[at..limit]).recSize;
      d := FittingRecord(env, buf, at, limit, pathbuf, resolvebuf, auxbuf, fs);
    }
  }

  method FittingRecord(env: Env, buf: array<byte>, at: nat, limit: nat, pathbuf: array<byte>, resolvebuf: array<byte>,
                       auxbuf: array<byte>, fs: FileSys) returns (d: Did)
    requires env.Valid() && at < limit <= buf.Length && Fits(env, buf[at..limit])
    requires pathbuf.Length == resolvebuf.Length == auxbuf.Length == PATH_MAX
    requires buf != pathbuf && buf != resolvebuf && buf != auxbuf
    requires pathbuf != resolvebuf && pathbuf != auxbuf && resolvebuf != auxbuf
    modifies pathbuf, resolvebuf, auxbuf
    ensures d == Perform(env, DecodeAt(buf[at..limit]), fs)
  {
    hide *;
    RecordInBuffer(env, buf, at, limit);
    ghost var r := DecodeAt(buf[at..limit]);
    var h := ParseHeader(buf[at..limit]);
    var path := at + HEADER;
    var data := buf[path + h.pathLen..path + h.pathLen + h.auxLen];
    var second := Arguments(env, buf, path, h, pathbuf, resolvebuf, auxbuf);
    var name := CString(pathbuf[..]);
    KindsDiffer();
    Performed(env, r, name, second, fs);
    d := Dispatch(env, h.kind, h.flags, h.perm, h.result, name, second, data, fs);
  }

  /** Both arguments: the first path stays in `pathbuf` while `resolvebuf` is used again for the second. */
  method Arguments(env: Env, buf: array<byte>, path: nat, h: Header, pathbuf: array<byte>, resolvebuf: array<byte>,
                   auxbuf: array<byte>) returns (second: seq<byte>)
    requires env.Valid() && 0 <= h.pathLen && 0 <= h.auxLen && path + h.pathLen + h.auxLen <= buf.Length
    requires |env.cwd| + h.pathLen < PATH_MAX
    requires h.kind != TR_FWRITE && h.auxLen > 0 ==>
               h.auxLen < PATH_MAX && (h.kind != TR_SYMLINK ==> |env.cwd| + h.auxLen < PATH_MAX)
    requires pathbuf.Length == resolvebuf.Length == auxbuf.Length == PATH_MAX
    requires buf != pathbuf && buf != resolvebuf && buf != auxbuf
    requires pathbuf != resolvebuf && pathbuf != auxbuf && resolvebuf != auxbuf
    modifies pathbuf, resolvebuf, auxbuf
    ensures CString(pathbuf[..]) == env.cwd + CString(buf[path..path + h.pathLen])
    ensures var aux := path + h.pathLen;
            h.kind != TR_FWRITE && h.auxLen > 0 ==>
              second == if h.kind == TR_SYMLINK then CString(buf[aux..aux + h.auxLen])
                        else env.cwd + CString(buf[aux..aux + h.auxLen])
  {
    hide CString;
    var aux := path + h.pathLen;
    ghost var name, text := CString(buf[path..aux]), CString(buf[aux..aux + h.auxLen]);
    FirstArgument(env, buf, path, h.pathLen, pathbuf, resolvebuf);
    ghost var first := pathbuf[..];
    second := [];
    if h.auxLen != 0 && h.kind != TR_FWRITE {
      assert CString(buf[aux..aux + h.auxLen]) == text;
      SecondArgument(env, buf, aux, h.auxLen, h.kind, resolvebuf, auxbuf);
      if h.kind == TR_SYMLINK {
        second := CString(resolvebuf[..]);
      } else {
        second := CString(auxbuf[..]);
      }
    }
    assert pathbuf[..] == first && CString(buf[path..aux]) == name && CString(buf[aux..aux + h.auxLen]) == text;
  }

  /** What a fitting record gives the copies to rely on. */
  lemma FitsMeans(env: Env, s: seq<byte>)
    requires Fits(env, s)
    ensures var h := ParseHeader(s);
            && Holds(s) && 0 <= h.pathLen && 0 <= h.auxLen && HEADER + h.pathLen + h.auxLen <= |s|
            && h.recSize > 0 && |env.cwd| + h.pathLen < PATH_MAX
            && (h.kind == TR_RENAME || h.kind == TR_LINK || h.kind == TR_SYMLINK ==> h.auxLen > 0)
            && (h.kind != TR_FWRITE && h.auxLen > 0 ==>
                  h.auxLen < PATH_MAX && (h.kind != TR_SYMLINK ==> |env.cwd| + h.auxLen < PATH_MAX))
    ensures var h, r := ParseHeader(s), DecodeAt(s);
            r.kind == h.kind && r.flags == h.flags && r.perm == h.perm && r.result == h.result
  {
  }

  lemma RecordInBuffer(env: Env, buf: array<byte>, at: nat, limit: nat)
    requires at < limit <= buf.Length && Fits(env, buf[at..limit])
    ensures var h, r := ParseHeader(buf[at..limit]), DecodeAt(buf[at..limit]);
            var aux := at + HEADER + h.pathLen;
            && 0 <= h.pathLen && 0 <= h.auxLen && aux + h.auxLen <= buf.Length && |env.cwd| + h.pathLen < PATH_MAX
            && (h.kind != TR_FWRITE && h.auxLen > 0 ==>
                  h.auxLen < PATH_MAX && (h.kind != TR_SYMLINK ==> |env.cwd| + h.auxLen < PATH_MAX))
            && (h.kind == TR_RENAME || h.kind == TR_LINK || h.kind == TR_SYMLINK ==> h.auxLen > 0)
            && Holds(buf[at..limit]) && r.path == buf[at + HEADER..aux] && r.aux == buf[aux..aux + h.auxLen]
            && r.kind == h.kind && r.flags == h.flags && r.perm == h.perm && r.result == h.result
  {
    FitsMeans(env, buf[at..limit]);
    PartsOf(buf, at, limit);
  }

  lemma KindsDiffer()
    ensures TR_RENAME != TR_FWRITE && TR_LINK != TR_FWRITE && TR_SYMLINK != TR_FWRITE
    ensures TR_RENAME != TR_SYMLINK && TR_LINK != TR_SYMLINK
  {
  }

  /** A record is performed by the call on its two names; kinds with one path ignore the second. */
  lemma Performed(env: Env, r: Record, name: seq<byte>, second: seq<byte>, fs: FileSys)
    requires name == env.cwd + CString(r.path)
    requires r.kind == TR_RENAME || r.kind == TR_LINK ==> second == env.cwd + CString(r.aux)
    requires r.kind == TR_SYMLINK ==> second == CString(r.aux)
    ensures Dispatch(env, r.kind, r.flags, r.perm, r.result, name, second, r.aux, fs) == Perform(env, r, fs)
  {
  }

  lemma PartsOf(buf: array<byte>, at: nat, limit: nat)
    requires at <= limit <= buf.Length && Holds(buf[at..limit])
    ensures var h, r := ParseHeader(buf[at..limit]), DecodeAt(buf[at..limit]);
            var path := at + HEADER;
            && r.path == buf[path..path + h.pathLen]
            && r.aux == buf[path + h.pathLen..path + h.pathLen + h.auxLen]
  {
    var h := ParseHeader(buf[at..limit]);
    var s := buf[..];
    assert s[at..limit] == buf[at..limit];
    Subslice(s, at, limit, HEADER, HEADER + h.pathLen);
    Subslice(s, at, limit, HEADER + h.pathLen, HEADER + h.pathLen + h.auxLen);
  }

  lemma Subslice(s: seq<byte>, at: nat, limit: nat, i: nat, j: nat)
    requires at <= limit <= |s| && i <= j <= limit - at
    ensures s[at..limit][i..j] == s[at + i..at + j]
  {
    var a, b := s[at..limit][i..j], s[at + i..at + j];
    assert forall k :: 0 <= k < j - i ==> a[k] == s[at..limit][i + k] == s[at + i + k];
    assert a == b;
  }

  /** The first path, in `pathbuf`. */
  method FirstArgument(env: Env, buf: array<byte>, from: nat, n: nat, pathbuf: array<byte>, resolvebuf: array<byte>)
    requires env.Valid() && from + n <= buf.Length && |env.cwd| + n < PATH_MAX
    requires resolvebuf.Length == pathbuf.Length == PATH_MAX
    requires buf != resolvebuf && buf != pathbuf && resolvebuf != pathbuf
    modifies resolvebuf, pathbuf
    ensures CString(pathbuf[..]) == env.cwd + CString(buf[from..from + n])
  {
    CopyString(resolvebuf, buf, from, n);
    Rebase(env, pathbuf, resolvebuf);
  }

  /** The aux as a string, in the buffer the first path was resolved in; rebased in a buffer of its own unless
      it is a symlink's text. */
  method SecondArgument(env: Env, buf: array<byte>, from: nat, n: nat, kind: nat, resolvebuf: array<byte>,
                        auxbuf: array<byte>)
    requires env.Valid() && from + n <= buf.Length && n < PATH_MAX
    requires kind != TR_SYMLINK ==> |env.cwd| + n < PATH_MAX
    requires resolvebuf.Length == auxbuf.Length == PATH_MAX
    requires buf != resolvebuf && buf != auxbuf && resolvebuf != auxbuf
    modifies resolvebuf, auxbuf
    ensures kind == TR_SYMLINK ==> CString(resolvebuf[..]) == CString(buf[from..from + n])
    ensures kind != TR_SYMLINK ==> CString(auxbuf[..]) == env.cwd + CString(buf[from..from + n])
  {
    CopyString(resolvebuf, buf, from, n);
    if kind != TR_SYMLINK {
      Rebase(env, auxbuf, resolvebuf);
    }
  }

  lemma ChunkEndIs(size: nat, at: nat, fsize: nat)
    requires size % CHUNK == 0 && size < fsize && at < Min(fsize - size, CHUNK)
    ensures ChunkEnd(size + at, fsize) == size + Min(fsize - size, CHUNK)
  {
    assert (size + at) / CHUNK == size / CHUNK;
  }

  lemma SliceOfSlice(s: seq<byte>, file: seq<byte>, size: nat, at: nat, limit: nat)
    requires at <= limit <= |s| && size + limit <= |file| && s[..limit] == file[size..size + limit]
    ensures s[at..limit] == file[size + at..size + limit]
  {
    assert s[at..limit] == s[..limit][at..];
  }

  /** `ReplayFrom` unfolded at a position inside the file; `s` is what is left of its chunk. */
  lemma AtFront(env: Env, file: seq<byte>, pos: nat, s: seq<byte>, fs: FileSys, seen: seq<nat>)
    requires pos < |file| && pos < ChunkEnd(pos, |file|) <= |file| && s == file[pos..ChunkEnd(pos, |file|)]
    ensures var here := ReplayFrom(env, file, pos, fs, seen);
            if !Fits(env, s) then here == Outcome(fs, seen, Undefined)
            else
              var d := Perform(env, DecodeAt(s), fs);
              var next := Min(pos + ParseHeader(s).recSize, ChunkEnd(pos, |file|));
              if d.halt then here == Outcome(d.fs, seen + [pos], Halted)
              else pos < next <= |file| && here == ReplayFrom(env, file, next, d.fs, seen + [pos])
  {
    hide Perform;
  }

  /** One turn of the inner loop, in terms of the file; `rest` is what is left of the chunk. */
  lemma Turn(env: Env, file: seq<byte>, size: nat, at: nat, limit: nat, rest: seq<byte>, fs: FileSys, seen: seq<nat>)
    requires size % CHUNK == 0 && size < |file| && limit == Min(|file| - size, CHUNK) && at < limit
    requires rest == file[size + at..size + limit]
    ensures var here := ReplayFrom(env, file, size + at, fs, seen);
            if !Fits(env, rest) then here == Outcome(fs, seen, Undefined)
            else
              var d := Perform(env, DecodeAt(rest), fs);
              var seen' := seen + [size + at];
              if d.halt then here == Outcome(d.fs, seen', Halted)
              else here == ReplayFrom(env, file, size + Min(at + ParseHeader(rest).recSize, limit), d.fs, seen')
  {
    hide ReplayFrom, Perform, ParseHeader, DecodeAt, Holds;
    ChunkEndIs(size, at, |file|);
    AtFront(env, file, size + at, rest, fs, seen);
  }

  /** The inner loop: the records of one chunk, which starts at file position `size`. */
  method ReplayChunk(env: Env, ghost file: seq<byte>, buf: array<byte>, size: nat, limit: nat, pathbuf: array<byte>,
                     resolvebuf: array<byte>, auxbuf: array<byte>, fs0: FileSys, seen: seq<nat>)
    returns (more: bool, out: Outcome)
    requires env.Valid() && size % CHUNK == 0 && size < |file| && limit == Min(|file| - size, CHUNK)
    requires limit <= buf.Length && buf[..limit] == file[size..size + limit]
    requires pathbuf.Length == resolvebuf.Length == auxbuf.Length == PATH_MAX
    requires buf != pathbuf && buf != resolvebuf && buf != auxbuf
    requires pathbuf != resolvebuf && pathbuf != auxbuf && resolvebuf != auxbuf
    modifies pathbuf, resolvebuf, auxbuf
    ensures more ==> out.end == AtEnd
    ensures var result := ReplayFrom(env, file, size, fs0, seen);
            if more then result == ReplayFrom(env, file, size + limit, out.fs, out.offsets) else result == out
  {
    hide Perform, Fits, ReplayFrom, DecodeAt;
    var at, fs := 0, fs0;
    var offsets: seq<nat> := seen;
    ghost var result := ReplayFrom(env, file, size, fs0, seen);
    while at < limit
      invariant 0 <= at && buf[..limit] == file[size..size + limit]
      invariant result == ReplayFrom(env, file, size + Min(at, limit), fs, offsets)
      decreases limit - at
    {
      SliceOfSlice(buf[..], file, size, at, limit);
      Turn(env, file, size, at, limit, buf[at..limit], fs, offsets);
      var fits, recSize, d := OneRecord(env, buf, at, limit, pathbuf, resolvebuf, auxbuf, fs);
      if !fits {
        return false, Outcome(fs, offsets, Undefined);
      }
      fs, offsets := d.fs, offsets + [size + at];
      if d.halt {
        return false, Outcome(fs, offsets, Halted);
      }
      at := at + recSize;
    }
    return true, Outcome(fs, offsets, AtEnd);
  }

  lemma AtFileEnd(env: Env, file: seq<byte>, fs: FileSys, seen: seq<nat>)
    ensures ReplayFrom(env, file, |file|, fs, seen) == Outcome(fs, seen, AtEnd)
  {
  }

  /** treplay on a trace file: chunk after chunk, it computes exactly `ReplayFrom`. */
  method ReplayFile(env: Env, file: seq<byte>, fs0: FileSys) returns (out: Outcome)
    requires env.Valid()
    ensures out == ReplayFrom(env, file, 0, fs0, [])
  {
    hide ReplayFrom, Env.Valid;
    var fsize := |file|;
    var buf := new byte[Min(fsize, CHUNK)];
    var pathbuf, resolvebuf, auxbuf := new byte[PATH_MAX], new byte[PATH_MAX], new byte[PATH_MAX];
    var size := 0;
    out := Outcome(fs0, [], AtEnd);
    while size < fsize
      invariant 0 <= size <= fsize && (size % CHUNK == 0 || size == fsize)
      invariant out.end == AtEnd
      invariant ReplayFrom(env, file, 0, fs0, []) == ReplayFrom(env, file, size, out.fs, out.offsets)
    {
      var bytesRead := Read(buf, file, size);
      var more;
      more, out := ReplayChunk(env, file, buf, size, bytesRead, pathbuf, resolvebuf, auxbuf, out.fs, out.offsets);
      if !more {
        return;
      }
      size := size + bytesRead;
    }
    AtFileEnd(env, file, out.fs, out.offsets);
  }
}

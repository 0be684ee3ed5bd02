/** Cutting a byte stream that arrives in arbitrary chunks into delimited frames, and running a
    per-frame transducer over them. The gateway's three stream processors are instances: the
    elicitation rewriter and the A2A observer cut at "\n", the event filter at "\n\n". */
module Framing {

  import opened Text

  const LF: Bytes := [NEWLINE]
  /** "data:" */
  const DATA: Bytes := [100, 97, 116, 97, COLON]

  /** p is what a data line carries: everything after the field name but one optional space. */
  predicate IsPayload(line: Bytes, p: Bytes) {
    line == DATA + [SPACE] + p || (line == DATA + p && (p == [] || p[0] != SPACE))
  }

  predicate At(s: Bytes, sep: Bytes, j: nat) {
    j + |sep| <= |s| && s[j..j + |sep|] == sep
  }

  /** bytes.Index: the first position of sep in s, or -1. */
  function Find(s: Bytes, sep: Bytes): (i: int)
    requires sep != []
    ensures -1 <= i
    ensures i >= 0 ==> At(s, sep, i)
    ensures forall j: nat :: j < i || i < 0 ==> !At(s, sep, j)
  {
    if At(s, sep, 0) then 0
    else if s == [] then -1
    else
      var i := Find(s[1..], sep);
      assert forall j: nat :: j > 0 && At(s, sep, j) ==> At(s[1..], sep, j - 1) by {
        forall j: nat | j > 0 && At(s, sep, j)
          ensures At(s[1..], sep, j - 1)
        {
          AtShifts(s, sep, j);
        }
      }
      if i < 0 then -1
      else
        AtShifts(s, sep, i + 1);
        i + 1
  }

  lemma AtShifts(s: Bytes, sep: Bytes, j: nat)
    requires 0 < j && s != []
    ensures At(s, sep, j) <==> At(s[1..], sep, j - 1)
  {
    assert j + |sep| <= |s| ==> s[1..][j - 1..j - 1 + |sep|] == s[j..j + |sep|];
  }

  /** The contract of Find pins its result down. */
  lemma FindIs(s: Bytes, sep: Bytes, i: nat)
    requires sep != [] && At(s, sep, i)
    requires forall j: nat :: j < i ==> !At(s, sep, j)
    ensures Find(s, sep) == i
  {
  }

  datatype Framed = Framed(frames: seq<Bytes>, rest: Bytes)

  /** The complete frames at the front of s, each with its delimiter, and what is left over. */
  function Frames(sep: Bytes, s: Bytes): (f: Framed)
    requires sep != []
    ensures |f.rest| <= |s|
    decreases |s|
  {
    var i := Find(s, sep);
    if i < 0 then Framed([], s)
    else
      var f := Frames(sep, s[i + |sep|..]);
      Framed([s[..i + |sep|]] + f.frames, f.rest)
  }

  function Flatten(ps: seq<Bytes>): (r: Bytes) {
    if ps == [] then [] else ps[0] + Flatten(ps[1..])
  }

  /** A frame ends in the delimiter and holds no earlier occurrence of it. */
  predicate IsFrame(sep: Bytes, f: Bytes)
    requires sep != []
  {
    |f| >= |sep| && Find(f, sep) == |f| - |sep|
  }

  lemma AtPrefix(a: Bytes, b: Bytes, sep: Bytes, j: nat)
    requires j + |sep| <= |a|
    ensures At(a + b, sep, j) == At(a, sep, j)
  {
    assert (a + b)[j..j + |sep|] == a[j..j + |sep|];
  }

  /** More bytes behind the first delimiter do not move it. */
  lemma FindPrefix(a: Bytes, b: Bytes, sep: Bytes)
    requires sep != [] && Find(a, sep) >= 0
    ensures Find(a + b, sep) == Find(a, sep)
  {
    var i := Find(a, sep);
    AtPrefix(a, b, sep, i);
    forall j: nat | j < i
      ensures !At(a + b, sep, j)
    {
      AtPrefix(a, b, sep, j);
    }
    FindIs(a + b, sep, i);
  }

  lemma {:induction false} FlattenConcat(ps: seq<Bytes>, qs: seq<Bytes>)
    ensures Flatten(ps + qs) == Flatten(ps) + Flatten(qs)
  {
    if ps == [] {
      assert ps + qs == qs;
    } else {
      FlattenConcat(ps[1..], qs);
      assert (ps + qs)[1..] == ps[1..] + qs;
      assert Flatten(ps + qs) == ps[0] + (Flatten(ps[1..]) + Flatten(qs));
    }
  }

  function Unframe(f: Framed): Bytes {
    Flatten(f.frames) + f.rest
  }

  lemma UnframeCons(p: Bytes, f: Framed)
    ensures Unframe(Framed([p] + f.frames, f.rest)) == p + Unframe(f)
  {
    FlattenCons(p, f.frames);
    Assoc(p, Flatten(f.frames), f.rest);
  }

  /** Framing loses nothing. */
  lemma {:induction false} FramesLossless(sep: Bytes, s: Bytes)
    requires sep != []
    ensures Unframe(Frames(sep, s)) == s
    decreases |s|
  {
    var i := Find(s, sep);
    if i >= 0 {
      var head, tail := s[..i + |sep|], s[i + |sep|..];
      FramesLossless(sep, tail);
      UnframeCons(head, Frames(sep, tail));
      Rejoin(s, i + |sep|);
    } else {
      assert Frames(sep, s) == Framed([], s);
      EmptyLeft(s);
    }
  }

  lemma Rejoin(s: Bytes, k: nat)
    requires k <= |s|
    ensures s[..k] + s[k..] == s
  {
  }

  lemma EmptyLeft(s: Bytes)
    ensures Flatten([]) + s == s
  {
  }

  lemma Assoc(a: Bytes, b: Bytes, c: Bytes)
    ensures a + b + c == a + (b + c)
  {
  }

  lemma FlattenCons(p: Bytes, ps: seq<Bytes>)
    ensures Flatten([p] + ps) == p + Flatten(ps)
  {
    assert ([p] + ps)[1..] == ps;
  }

  ghost predicate WellFramed(sep: Bytes, r: Framed)
    requires sep != []
  {
    (forall f :: f in r.frames ==> IsFrame(sep, f)) && Find(r.rest, sep) < 0
  }

  lemma WellFramedCons(sep: Bytes, f: Bytes, r: Framed)
    requires sep != [] && IsFrame(sep, f) && WellFramed(sep, r)
    ensures WellFramed(sep, Framed([f] + r.frames, r.rest))
  {
    InCons(f, r.frames);
  }

  /** Every frame is well formed and no delimiter is left over. */
  lemma {:induction false} FramesWellFormed(sep: Bytes, s: Bytes)
    requires sep != []
    ensures WellFramed(sep, Frames(sep, s))
    decreases |s|
  {
    var i := Find(s, sep);
    if i < 0 {
      assert Frames(sep, s) == Framed([], s);
    } else {
      FramesWellFormed(sep, s[i + |sep|..]);
      WellFramedNext(sep, s, s[..i + |sep|], s[i + |sep|..]);
    }
  }

  lemma WellFramedNext(sep: Bytes, s: Bytes, head: Bytes, tail: Bytes)
    requires sep != [] && Find(s, sep) >= 0 && head == s[..Find(s, sep) + |sep|] && tail == s[Find(s, sep) + |sep|..]
    requires WellFramed(sep, Frames(sep, tail))
    ensures WellFramed(sep, Frames(sep, s))
  {
    FirstFrame(s, sep);
    Rejoin(s, |head|);
    FramesOfFrame(sep, head, tail);
    WellFramedCons(sep, head, Frames(sep, tail));
  }

  lemma InCons(p: Bytes, ps: seq<Bytes>)
    ensures forall q :: q in [p] + ps <==> q == p || q in ps
  {
  }

  lemma FirstFrame(s: Bytes, sep: Bytes)
    requires sep != [] && Find(s, sep) >= 0
    ensures IsFrame(sep, s[..Find(s, sep) + |sep|])
  {
    var i := Find(s, sep);
    var head := s[..i + |sep|];
    assert head + s[i + |sep|..] == s;
    forall j: nat | j <= i
      ensures At(head, sep, j) == At(s, sep, j)
    {
      AtPrefix(head, s[i + |sep|..], sep, j);
    }
    FindIs(head, sep, i);
  }

  /** The decomposition is unique: nothing else is a list of frames plus a delimiter-free rest. */
  lemma {:induction false} FramesUnique(sep: Bytes, fs: seq<Bytes>, rest: Bytes)
    requires sep != [] && WellFramed(sep, Framed(fs, rest))
    ensures Frames(sep, Flatten(fs) + rest) == Framed(fs, rest)
  {
    if fs == [] {
      EmptyLeft(rest);
    } else {
      WellFramedTail(sep, fs, rest);
      FramesUnique(sep, fs[1..], rest);
      UniqueNext(sep, fs[0], fs[1..], rest);
      assert fs == [fs[0]] + fs[1..];
    }
  }

  lemma WellFramedTail(sep: Bytes, fs: seq<Bytes>, rest: Bytes)
    requires sep != [] && fs != [] && WellFramed(sep, Framed(fs, rest))
    ensures IsFrame(sep, fs[0]) && WellFramed(sep, Framed(fs[1..], rest))
  {
  }

  lemma UniqueNext(sep: Bytes, f: Bytes, fs: seq<Bytes>, rest: Bytes)
    requires sep != [] && IsFrame(sep, f) && Frames(sep, Flatten(fs) + rest) == Framed(fs, rest)
    ensures Frames(sep, Flatten([f] + fs) + rest) == Framed([f] + fs, rest)
  {
    FramesOfFrame(sep, f, Flatten(fs) + rest);
    FlattenCons(f, fs);
    Assoc(f, Flatten(fs), rest);
  }

  lemma FramesOfFrame(sep: Bytes, f: Bytes, tail: Bytes)
    requires sep != [] && IsFrame(sep, f)
    ensures Frames(sep, f + tail) == Framed([f] + Frames(sep, tail).frames, Frames(sep, tail).rest)
  {
    FindPrefix(f, tail, sep);
    assert (f + tail)[..|f|] == f && (f + tail)[|f|..] == tail;
  }

  /** Framing what is held back plus the next chunk continues the framing of the whole stream. */
  lemma {:induction false} FramesAppend(sep: Bytes, a: Bytes, b: Bytes)
    requires sep != []
    ensures Frames(sep, a + b) == Then(Frames(sep, a).frames, Frames(sep, Frames(sep, a).rest + b))
    decreases |a|
  {
    var i := Find(a, sep);
    if i < 0 {
      assert Frames(sep, a) == Framed([], a);
      assert [] + Frames(sep, a + b).frames == Frames(sep, a + b).frames;
    } else {
      var head, tail := a[..i + |sep|], a[i + |sep|..];
      FirstFrame(a, sep);
      assert a == head + tail;
      assert a + b == head + (tail + b);
      FramesOfFrame(sep, head, tail + b);
      FramesAppend(sep, tail, b);
      ThenCons(head, Frames(sep, tail).frames, Frames(sep, Frames(sep, tail).rest + b));
    }
  }

  function Then(fs: seq<Bytes>, f: Framed): Framed {
    Framed(fs + f.frames, f.rest)
  }

  lemma ThenCons(p: Bytes, fs: seq<Bytes>, f: Framed)
    ensures Then([p] + fs, f) == Framed([p] + Then(fs, f).frames, f.rest)
  {
    assert [p] + fs + f.frames == [p] + (fs + f.frames);
  }

  // ---- transducers ----

  /** What a processor does with one complete frame: a new state and the bytes to emit. */
  type Step<!S> = (S, Bytes) -> (S, Bytes)

  function Run<S>(step: Step<S>, st: S, fs: seq<Bytes>): (r: (S, Bytes)) {
    if fs == [] then (st, [])
    else
      var (st1, out1) := step(st, fs[0]);
      var (st2, out2) := Run(step, st1, fs[1..]);
      (st2, out1 + out2)
  }

  lemma {:induction false} RunConcat<S>(step: Step<S>, st: S, fs: seq<Bytes>, gs: seq<Bytes>)
    ensures var (st1, out1) := Run(step, st, fs); var (st2, out2) := Run(step, st1, gs);
            Run(step, st, fs + gs) == (st2, out1 + out2)
  {
    if fs == [] {
      assert fs + gs == gs;
      assert [] + Run(step, st, gs).1 == Run(step, st, gs).1;
    } else {
      var (st1, out1) := step(st, fs[0]);
      RunConcat(step, st1, fs[1..], gs);
      assert (fs + gs)[1..] == fs[1..] + gs;
      var (st2, out2) := Run(step, st1, fs[1..]);
      var (st3, out3) := Run(step, st2, gs);
      assert out1 + out2 + out3 == out1 + (out2 + out3);
    }
  }

  /** A processor between chunks: its own state and the bytes of the unfinished frame. */
  datatype Held<S> = Held(st: S, buf: Bytes)

  /** One call of Process or Write. */
  function Feed<S>(sep: Bytes, step: Step<S>, h: Held<S>, chunk: Bytes): (r: (Held<S>, Bytes))
    requires sep != []
  {
    var f := Frames(sep, h.buf + chunk);
    var (st, out) := Run(step, h.st, f.frames);
    (Held(st, f.rest), out)
  }

  function FeedAll<S>(sep: Bytes, step: Step<S>, h: Held<S>, chunks: seq<Bytes>): (r: (Held<S>, Bytes))
    requires sep != []
    decreases |chunks|
  {
    if chunks == [] then (h, [])
    else
      var (h1, out1) := Feed(sep, step, h, chunks[0]);
      var (h2, out2) := FeedAll(sep, step, h1, chunks[1..]);
      (h2, out1 + out2)
  }

  lemma FeedAppend<S>(sep: Bytes, step: Step<S>, h: Held<S>, a: Bytes, b: Bytes)
    requires sep != []
    ensures var (h1, out1) := Feed(sep, step, h, a); var (h2, out2) := Feed(sep, step, h1, b);
            Feed(sep, step, h, a + b) == (h2, out1 + out2)
  {
    var fa := Frames(sep, h.buf + a);
    Assoc(h.buf, a, b);
    FramesAppend(sep, h.buf + a, b);
    RunConcat(step, h.st, fa.frames, Frames(sep, fa.rest + b).frames);
  }

  /** Chunk independence: however the stream is split, even inside a delimiter, the state, the
      bytes held back and the bytes emitted are those of the whole stream taken at once. */
  lemma {:induction false} ChunkIndependence<S>(sep: Bytes, step: Step<S>, h: Held<S>, chunks: seq<Bytes>)
    requires sep != []
    requires Find(h.buf, sep) < 0
    ensures FeedAll(sep, step, h, chunks) == Feed(sep, step, h, Flatten(chunks))
    decreases |chunks|
  {
    if chunks == [] {
      assert h.buf + [] == h.buf;
    } else {
      FramesWellFormed(sep, h.buf + chunks[0]);
      ChunkIndependence(sep, step, Feed(sep, step, h, chunks[0]).0, chunks[1..]);
      FeedAppend(sep, step, h, chunks[0], Flatten(chunks[1..]));
    }
  }

  // ---- line-based processors that also handle an unterminated last line ----

  /** The lines of a stream, the unterminated last one included. */
  function Lines(s: Bytes): (ls: seq<Bytes>) {
    var f := Frames(LF, s);
    if f.rest == [] then f.frames else f.frames + [f.rest]
  }

  /** What Flush does with the bytes still held. */
  function LastLine<S>(step: Step<S>, h: Held<S>): (S, Bytes) {
    if h.buf == [] then (h.st, []) else step(h.st, h.buf)
  }

  lemma RunOne<S>(step: Step<S>, st: S, line: Bytes)
    ensures Run(step, st, [line]) == step(st, line)
  {
    var (st1, out) := step(st, line);
    assert [line][1..] == [];
    assert out + [] == out;
  }

  /** However the stream is chunked, feeding it and then flushing is the run over its lines. */
  lemma LinesChunkIndependence<S>(step: Step<S>, st: S, chunks: seq<Bytes>)
    ensures var (h, out) := FeedAll(LF, step, Held(st, []), chunks);
            var (done, tail) := LastLine(step, h);
            (done, out + tail) == Run(step, st, Lines(Flatten(chunks)))
  {
    var s := Flatten(chunks);
    ChunkIndependence(LF, step, Held(st, []), chunks);
    assert [] + s == s;
    var f := Frames(LF, s);
    var (mid, out) := Run(step, st, f.frames);
    if f.rest == [] {
      assert out + [] == out;
    } else {
      RunConcat(step, st, f.frames, [f.rest]);
      RunOne(step, mid, f.rest);
    }
  }

  /** Lines put together again give the stream. */
  lemma LinesLossless(s: Bytes)
    ensures Flatten(Lines(s)) == s
  {
    var f := Frames(LF, s);
    FramesLossless(LF, s);
    if f.rest == [] {
      assert Flatten(f.frames) + [] == Flatten(f.frames);
    } else {
      FlattenConcat(f.frames, [f.rest]);
      FlattenCons(f.rest, []);
      assert [f.rest] + [] == [f.rest];
    }
  }
}

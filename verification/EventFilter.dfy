/** sseFilterWriter of internal/broker/http_compat.go: reframing the server's event stream, event
    by event, with SSEEventData of internal/transport/transport.go. */
module EventFilter {

  import opened Text
  import opened Framing

  const BLANK: Bytes := [NEWLINE, NEWLINE]
  /** "event: message\ndata: " */
  const HEAD: Bytes := [101, 118, 101, 110, 116, 58, 32, 109, 101, 115, 115, 97, 103, 101, 10, 100, 97, 116, 97, 58, 32]

  /** stripEmptyNotificationParams: Some for a notification whose params are {}, re-encoded. */
  type Strip = Bytes -> Option<Bytes>

  /** json.Marshal writes no raw newline. */
  ghost predicate Compact(strip: Strip) {
    forall p :: strip(p).Some? ==> NEWLINE !in strip(p).value
  }

  /** bytes.Split at newlines. */
  function Split(s: Bytes): (ls: seq<Bytes>)
    ensures ls != []
  {
    if s == [] then [[]]
    else
      var ls := Split(s[1..]);
      if s[0] == NEWLINE then [[]] + ls else [[s[0]] + ls[0]] + ls[1..]
  }

  predicate Quiet(line: Bytes) {
    line == [] || line[0] == COLON
  }

  predicate AllQuiet(ls: seq<Bytes>) {
    forall i :: 0 <= i < |ls| ==> Quiet(ls[i])
  }

  function Value(line: Bytes): Bytes
    requires DATA <= line
  {
    var rest := line[|DATA|..];
    if rest != [] && rest[0] == SPACE then rest[1..] else rest
  }

  /** The payloads of the data lines, in order. */
  function DataOf(ls: seq<Bytes>): seq<Bytes> {
    if ls == [] then []
    else (if DATA <= ls[0] then [Value(ls[0])] else []) + DataOf(ls[1..])
  }

  function Join(ps: seq<Bytes>): Bytes
    requires ps != []
  {
    if |ps| == 1 then ps[0] else ps[0] + [NEWLINE] + Join(ps[1..])
  }

  lemma {:induction false} DataOfNext(ls: seq<Bytes>, l: Bytes)
    ensures DataOf(ls + [l]) == DataOf(ls) + (if DATA <= l then [Value(l)] else [])
  {
    if ls == [] {
      assert [] + [l] == [l] && [l][1..] == [];
    } else {
      DataOfNext(ls[1..], l);
      assert (ls + [l])[1..] == ls[1..] + [l];
    }
  }

  lemma QuietNext(ls: seq<Bytes>, l: Bytes)
    ensures AllQuiet(ls + [l]) <==> AllQuiet(ls) && Quiet(l)
    ensures DATA <= l ==> !Quiet(l)
  {
    assert DATA <= l ==> l[0] == DATA[0];
    assert (ls + [l])[|ls|] == l && forall i :: 0 <= i < |ls| ==> (ls + [l])[i] == ls[i];
  }

  lemma PayloadIsValue(line: Bytes)
    requires DATA <= line
    ensures IsPayload(line, Value(line))
  {
    var rest := line[|DATA|..];
    assert line == DATA + rest;
    if rest != [] && rest[0] == SPACE {
      assert rest == [SPACE] + rest[1..];
      assert line == DATA + [SPACE] + rest[1..];
    }
  }

  /** One payload per data line, in order, and nothing from other lines. */
  lemma DataOfMeans(line: Bytes, a: seq<Bytes>, b: seq<Bytes>)
    ensures if DATA <= line then exists p :: IsPayload(line, p) && DataOf([line]) == [p] else DataOf([line]) == []
    ensures DataOf(a + b) == DataOf(a) + DataOf(b)
  {
    if DATA <= line {
      PayloadIsValue(line);
      assert DataOf([line]) == [Value(line)] + DataOf([line][1..]);
    }
    assert [line][1..] == [];
    DataOfAppend(a, b);
  }

  lemma {:induction false} DataOfAppend(a: seq<Bytes>, b: seq<Bytes>)
    ensures DataOf(a + b) == DataOf(a) + DataOf(b)
  {
    if a == [] {
      assert a + b == b;
    } else {
      assert (a + b)[1..] == a[1..] + b;
      DataOfAppend(a[1..], b);
    }
  }

  /** Splitting loses nothing but the newlines between the lines. */
  lemma {:induction false} SplitMeans(s: Bytes)
    ensures Join(Split(s)) == s && forall l :: l in Split(s) ==> NEWLINE !in l
  {
    if s != [] {
      SplitMeans(s[1..]);
      var ls := Split(s[1..]);
      assert s == [s[0]] + s[1..];
      if s[0] == NEWLINE {
        assert ([[]] + ls)[1..] == ls;
      } else {
        assert ([[s[0]] + ls[0]] + ls[1..])[1..] == ls[1..];
        assert ls == [ls[0]] + ls[1..];
      }
    }
  }

  method SSEEventData(event: Bytes) returns (data: seq<Bytes>, commentOnly: bool)
    ensures data == DataOf(Split(event))
    ensures commentOnly <==> AllQuiet(Split(event))
    ensures commentOnly <==> forall i :: 0 <= i < |Split(event)| ==> Split(event)[i] == [] || Split(event)[i][0] == COLON
  {
    var lines := Split(event);
    data, commentOnly := [], true;
    for i := 0 to |lines|
      invariant data == DataOf(lines[..i])
      invariant commentOnly <==> AllQuiet(lines[..i])
    {
      assert lines[..i + 1] == lines[..i] + [lines[i]];
      DataOfNext(lines[..i], lines[i]);
      QuietNext(lines[..i], lines[i]);
      if DATA <= lines[i] {
        data := data + [Value(lines[i])];
        commentOnly := false;
      } else if |lines[i]| > 0 && lines[i][0] != COLON {
        commentOnly := false;
      }
    }
    assert lines[..|lines|] == lines;
  }

  /** One complete event; the empty result drops it. */
  function FilterEvent(strip: Strip, event: Bytes): Bytes {
    var ls := Split(event);
    var data := DataOf(ls);
    if AllQuiet(ls) then []
    else if data == [] then event
    else
      match strip(Join(data))
      case None => event
      case Some(rewritten) => HEAD + rewritten + BLANK
  }

  method FilterSSEEvent(strip: Strip, event: Bytes) returns (out: Bytes)
    ensures out == FilterEvent(strip, event)
  {
    var data, commentOnly := SSEEventData(event);
    if commentOnly {
      return [];
    }
    if |data| == 0 {
      return event;
    }
    var rewritten := strip(Join(data));
    if rewritten.None? {
      return event;
    }
    return HEAD + rewritten.value + BLANK;
  }

  function EventStep(strip: Strip): Step<()> {
    (st: (), event: Bytes) => ((), FilterEvent(strip, event))
  }

  class SseFilterWriter {
    var buf: Bytes
    var sent: Bytes
    const strip: Strip

    constructor (strip: Strip)
      ensures this.strip == strip && buf == [] && sent == []
    {
      this.strip, buf, sent := strip, [], [];
    }

    method Write(b: Bytes)
      modifies this
      ensures var (h, out) := Feed(BLANK, EventStep(strip), Held((), old(buf)), b);
              buf == h.buf && sent == old(sent) + out
    {
      buf := buf + b;
      ghost var whole := Frames(BLANK, buf);
      ghost var goal := old(sent) + Run(EventStep(strip), (), whole.frames).1;
      var idx := Find(buf, BLANK);
      while idx >= 0
        invariant idx == Find(buf, BLANK)
        invariant Frames(BLANK, buf).rest == whole.rest
        invariant goal == sent + Run(EventStep(strip), (), Frames(BLANK, buf).frames).1
        decreases |buf|
      {
        ghost var fs, before := Frames(BLANK, buf).frames, sent;
        var event := buf[..idx + 2];
        assert fs[0] == event && fs[1..] == Frames(BLANK, buf[idx + 2..]).frames;
        buf := buf[idx + 2..];
        var out := FilterSSEEvent(strip, event);
        assert ((), out) == EventStep(strip)((), fs[0]);
        Assoc(before, out, Run(EventStep(strip), (), fs[1..]).1);
        if |out| > 0 {
          sent := sent + out;
        }
        assert sent == before + out;
        idx := Find(buf, BLANK);
      }
      assert sent + [] == sent;
    }

    method FlushResidue()
      modifies this
      ensures buf == [] && sent == old(sent) + old(buf)
    {
      if |buf| > 0 {
        sent := sent + buf;
        buf := [];
      }
    }
  }

  // ---- what the writer does to a whole stream ----

  function FilterAll(strip: Strip, es: seq<Bytes>): (r: seq<Bytes>) {
    if es == [] then []
    else
      var out := FilterEvent(strip, es[0]);
      (if out == [] then [] else [out]) + FilterAll(strip, es[1..])
  }

  /** However the stream is cut into writes, even inside a blank line, what is sent is the filtered
      complete events in order and then the unfinished last one, unfiltered. */
  lemma FilterIsChunkIndependent(strip: Strip, chunks: seq<Bytes>)
    ensures var (h, out) := FeedAll(BLANK, EventStep(strip), Held((), []), chunks);
            var f := Frames(BLANK, Flatten(chunks));
            out + h.buf == Flatten(FilterAll(strip, f.frames)) + f.rest
  {
    ChunkIndependence(BLANK, EventStep(strip), Held((), []), chunks);
    assert [] + Flatten(chunks) == Flatten(chunks);
    RunIsFilterAll(strip, Frames(BLANK, Flatten(chunks)).frames);
  }

  lemma {:induction false} RunIsFilterAll(strip: Strip, es: seq<Bytes>)
    ensures Run(EventStep(strip), (), es) == ((), Flatten(FilterAll(strip, es)))
    decreases |es|
  {
    if es != [] {
      var out := FilterEvent(strip, es[0]);
      RunIsFilterAll(strip, es[1..]);
      if out == [] {
        assert [] + FilterAll(strip, es[1..]) == FilterAll(strip, es[1..]);
        assert [] + Flatten(FilterAll(strip, es[1..])) == Flatten(FilterAll(strip, es[1..]));
      } else {
        FlattenCons(out, FilterAll(strip, es[1..]));
      }
    }
  }

  /** A receiver that frames the filtered stream again finds exactly the filtered events: no event
      is split, merged or left hanging. */
  lemma ReceiverSeesFilteredEvents(strip: Strip, s: Bytes)
    requires Compact(strip)
    ensures var f := Frames(BLANK, s); var es := FilterAll(strip, f.frames);
            Frames(BLANK, Flatten(es) + f.rest) == Framed(es, f.rest)
  {
    var f := Frames(BLANK, s);
    FramesWellFormed(BLANK, s);
    FilteredAreFrames(strip, f.frames);
    FramesUnique(BLANK, FilterAll(strip, f.frames), f.rest);
  }

  lemma {:induction false} FilteredAreFrames(strip: Strip, es: seq<Bytes>)
    requires Compact(strip) && forall e :: e in es ==> IsFrame(BLANK, e)
    ensures forall e :: e in FilterAll(strip, es) ==> IsFrame(BLANK, e)
  {
    if es != [] {
      FilteredAreFrames(strip, es[1..]);
      assert es[0] in es;
      if FilterEvent(strip, es[0]) != [] && FilterEvent(strip, es[0]) != es[0] {
        RebuiltIsFrame(strip(Join(DataOf(Split(es[0])))).value);
      }
    }
  }

  lemma RebuiltIsFrame(r: Bytes)
    requires NEWLINE !in r
    ensures IsFrame(BLANK, HEAD + r + BLANK)
  {
    var f := HEAD + r + BLANK;
    var n := |HEAD + r|;
    assert f[n..n + 2] == BLANK;
    assert forall j :: 0 <= j < n && j != 14 ==> f[j] != NEWLINE;
    assert f[15] == 100;
    forall j: nat | j < n
      ensures !At(f, BLANK, j)
    {
      assert j + 2 <= |f| ==> f[j..j + 2][0] == f[j] && f[j..j + 2][1] == f[j + 1];
    }
    FindIs(f, BLANK, n);
  }

  /** An event disappears exactly when all its lines are comments or blank, and one that carries no
      strippable notification goes out byte for byte. */
  lemma FilterEventMeans(strip: Strip, event: Bytes)
    requires event != []
    ensures FilterEvent(strip, event) == [] <==> forall l :: l in Split(event) ==> l == [] || l[0] == COLON
    ensures FilterEvent(strip, event) != [] && DataOf(Split(event)) == [] ==> FilterEvent(strip, event) == event
    ensures FilterEvent(strip, event) != [] && DataOf(Split(event)) != [] && strip(Join(DataOf(Split(event)))).None? ==> FilterEvent(strip, event) == event
  {
    assert |HEAD| > 0;
    var ls := Split(event);
    assert forall i :: 0 <= i < |ls| ==> ls[i] in ls;
  }

  lemma {:induction false} SplitLine(l: Bytes, rest: Bytes)
    requires NEWLINE !in l
    ensures Split(l + ([NEWLINE] + rest)) == [l] + Split(rest)
    decreases |l|
  {
    if l == [] {
      assert l + ([NEWLINE] + rest) == [NEWLINE] + rest;
      assert ([NEWLINE] + rest)[1..] == rest;
    } else {
      var s := l + ([NEWLINE] + rest);
      SplitLine(l[1..], rest);
      assert s[0] == l[0] && s[1..] == l[1..] + ([NEWLINE] + rest);
      assert l == [l[0]] + l[1..];
    }
  }

  /** A stripped notification reaches the receiver as one event whose one payload is the stripped
      one. */
  lemma StrippedEventCarriesPayload(strip: Strip, event: Bytes)
    requires Compact(strip) && !AllQuiet(Split(event)) && DataOf(Split(event)) != [] && strip(Join(DataOf(Split(event)))).Some?
    ensures DataOf(Split(FilterEvent(strip, event))) == [strip(Join(DataOf(Split(event)))).value]
  {
    RebuiltCarries(strip(Join(DataOf(Split(event)))).value);
  }

  lemma RebuiltCarries(r: Bytes)
    requires NEWLINE !in r
    ensures DataOf(Split(HEAD + r + BLANK)) == [r]
  {
    var kind, line := HEAD[..14], DATA + [SPACE] + r;
    assert HEAD == kind + ([NEWLINE] + (DATA + [SPACE]));
    assert HEAD + r + BLANK == kind + ([NEWLINE] + (line + ([NEWLINE] + [NEWLINE])));
    SplitLine(kind, line + ([NEWLINE] + [NEWLINE]));
    SplitLine(line, [NEWLINE]);
    assert Split([NEWLINE]) == [[], []] by {
      assert [NEWLINE][1..] == [];
    }
    RebuiltData(kind, line, r);
  }

  lemma RebuiltData(kind: Bytes, line: Bytes, r: Bytes)
    requires !(DATA <= kind) && line == DATA + [SPACE] + r
    ensures DataOf([kind] + ([line] + [[], []])) == [r]
  {
    assert line[|DATA|..] == [SPACE] + r && ([SPACE] + r)[1..] == r;
    var none: Bytes := [];
    DataOfCons(kind, [line] + [none, none]);
    DataOfCons(line, [none, none]);
    DataOfCons(none, [none]);
    DataOfCons(none, []);
    assert [none] + [none] == [none, none] && [none] + [] == [none];
  }

  lemma DataOfCons(l: Bytes, ls: seq<Bytes>)
    ensures DataOf([l] + ls) == (if DATA <= l then [Value(l)] else []) + DataOf(ls)
  {
    assert ([l] + ls)[1..] == ls;
  }
}

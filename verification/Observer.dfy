/** a2aSSEObserver of internal/mcp-router/a2a_sse.go: reading the task life cycle out of a streamed
    A2A response without changing it. */
module Observer {

  import opened Text
  import opened Framing

  /** The oneof of a StreamResponse event, ids and state only. */
  datatype Result =
    | Task(id: string, contextID: string, state: string)
    | StatusUpdate(taskID: string, contextID: string, state: string)
    | ArtifactUpdate(taskID: string, contextID: string)
    | Other

  /** bytes.TrimSpace and json.Unmarshal of the envelope. */
  datatype Codec = Codec(trimSpace: Bytes -> Bytes, parse: Bytes -> Option<Result>)

  /** An event the observer takes note of. */
  datatype Sighting = Sighting(taskID: string, contextID: string, state: string)

  datatype Seen = Seen(taskID: string, contextID: string, lastState: string)

  const NOTHING := Seen("", "", "")

  function Json(codec: Codec, line: Bytes): Bytes {
    var t := codec.trimSpace(line);
    codec.trimSpace(if DATA <= t then t[|DATA|..] else t)
  }

  function Decode(codec: Codec, line: Bytes): Option<Sighting> {
    if !(DATA <= codec.trimSpace(line)) then None else
    match codec.parse(Json(codec, line))
    case None => None
    case Some(Other) => None
    case Some(Task(id, ctx, state)) => if id == "" && ctx == "" then None else Some(Sighting(id, ctx, state))
    case Some(StatusUpdate(id, ctx, state)) => if id == "" && ctx == "" then None else Some(Sighting(id, ctx, state))
    case Some(ArtifactUpdate(id, ctx)) => if id == "" && ctx == "" then None else Some(Sighting(id, ctx, ""))
  }

  /** The line is a data line whose JSON is a task, status or artifact event with these ids, not both
      empty, and this state; artifact events have none. */
  ghost predicate Shows(codec: Codec, line: Bytes, s: Sighting) {
    && (s.taskID != "" || s.contextID != "")
    && exists payload ::
         && codec.trimSpace(line) == DATA + payload
         && var r := codec.parse(codec.trimSpace(payload));
            || r == Some(Task(s.taskID, s.contextID, s.state))
            || r == Some(StatusUpdate(s.taskID, s.contextID, s.state))
            || (r == Some(ArtifactUpdate(s.taskID, s.contextID)) && s.state == "")
  }

  lemma DecodeMeans(codec: Codec, line: Bytes, s: Sighting)
    ensures Decode(codec, line) == Some(s) <==> Shows(codec, line, s)
  {
    var t := codec.trimSpace(line);
    if DATA <= t {
      assert t == DATA + t[|DATA|..];
      assert forall payload :: t == DATA + payload ==> payload == t[|DATA|..];
    }
  }

  /** The field updates of observe, in the order the code makes them. */
  function Note(seen: Seen, s: Sighting): Seen {
    var a := if seen.taskID == "" && s.taskID != "" then seen.(taskID := s.taskID) else seen;
    var b := if a.contextID == "" && s.contextID != "" then a.(contextID := s.contextID) else a;
    if s.state != "" && s.state == b.lastState then b else b.(lastState := s.state)
  }

  function ObserveLine(codec: Codec, seen: Seen, line: Bytes): (Seen, Bytes) {
    var s := Decode(codec, line);
    (if s.None? then seen else Note(seen, s.value), line)
  }

  function ObserveStep(codec: Codec): Step<Seen> {
    (seen: Seen, line: Bytes) => ObserveLine(codec, seen, line)
  }

  class A2AObserver {
    var buf: Bytes
    var seen: Seen
    const codec: Codec

    constructor (codec: Codec)
      ensures this.codec == codec && buf == [] && seen == NOTHING
    {
      this.codec, buf, seen := codec, [], NOTHING;
    }

    method Observe(line: Bytes)
      requires DATA <= codec.trimSpace(line)
      modifies this`seen
      ensures seen == ObserveLine(codec, old(seen), line).0
    {
      var parsed := codec.parse(Json(codec, line));
      if parsed.None? {
        return;
      }
      var taskID, contextID, state;
      match parsed.value {
        case Task(id, ctx, st) => taskID, contextID, state := id, ctx, st;
        case StatusUpdate(id, ctx, st) => taskID, contextID, state := id, ctx, st;
        case ArtifactUpdate(id, ctx) => taskID, contextID, state := id, ctx, "";
        case Other => return;
      }
      if taskID == "" && contextID == "" {
        return;
      }
      if seen.taskID == "" && taskID != "" {
        seen := seen.(taskID := taskID);
      }
      if seen.contextID == "" && contextID != "" {
        seen := seen.(contextID := contextID);
      }
      if state != "" && state == seen.lastState {
        return;
      }
      seen := seen.(lastState := state);
    }

    method Process(chunk: Bytes)
      modifies this
      ensures Held(seen, buf) == Feed(LF, ObserveStep(codec), old(Held(seen, buf)), chunk).0
    {
      buf := buf + chunk;
      ghost var whole := Frames(LF, buf);
      ghost var goal := Run(ObserveStep(codec), seen, whole.frames).0;
      var idx := Find(buf, LF);
      while idx != -1
        invariant idx == Find(buf, LF)
        invariant Frames(LF, buf).rest == whole.rest
        invariant goal == Run(ObserveStep(codec), seen, Frames(LF, buf).frames).0
        decreases |buf|
      {
        ghost var fs, before := Frames(LF, buf).frames, seen;
        var line := buf[..idx + 1];
        assert fs[0] == line && fs[1..] == Frames(LF, buf[idx + 1..]).frames;
        buf := buf[idx + 1..];
        if DATA <= codec.trimSpace(line) {
          Observe(line);
        }
        assert (seen, line) == ObserveStep(codec)(before, fs[0]);
        idx := Find(buf, LF);
      }
    }

    method Flush()
      modifies this
      ensures buf == [] && seen == LastLine(ObserveStep(codec), old(Held(seen, buf))).0
    {
      var remaining := buf;
      buf := [];
      if |remaining| > 0 && DATA <= codec.trimSpace(remaining) {
        Observe(remaining);
      }
    }
  }

  // ---- what the observer has seen at the end of a stream ----

  function Sightings(codec: Codec, ls: seq<Bytes>): seq<Sighting> {
    if ls == [] then []
    else
      var d := Decode(codec, ls[0]);
      (if d.Some? then [d.value] else []) + Sightings(codec, ls[1..])
  }

  /** v is the first non-empty string of xs, or empty when there is none. */
  ghost predicate IsFirst(xs: seq<string>, v: string) {
    if v == "" then forall i :: 0 <= i < |xs| ==> xs[i] == ""
    else exists i :: 0 <= i < |xs| && xs[i] == v && forall j :: 0 <= j < i ==> xs[j] == ""
  }

  function Tasks(ss: seq<Sighting>): (r: seq<string>)
    ensures |r| == |ss| && forall i :: 0 <= i < |ss| ==> r[i] == ss[i].taskID
  {
    seq(|ss|, i requires 0 <= i < |ss| => ss[i].taskID)
  }

  function Contexts(ss: seq<Sighting>): (r: seq<string>)
    ensures |r| == |ss| && forall i :: 0 <= i < |ss| ==> r[i] == ss[i].contextID
  {
    seq(|ss|, i requires 0 <= i < |ss| => ss[i].contextID)
  }

  /** However the response is chunked, the observer notes the sightings of its lines, in order. */
  lemma ObserveIsChunkIndependent(codec: Codec, chunks: seq<Bytes>)
    ensures LastLine(ObserveStep(codec), FeedAll(LF, ObserveStep(codec), Held(NOTHING, []), chunks).0).0
         == Noted(NOTHING, Sightings(codec, Lines(Flatten(chunks))))
  {
    LinesChunkIndependence(ObserveStep(codec), NOTHING, chunks);
    RunNotes(codec, NOTHING, Lines(Flatten(chunks)));
  }

  /** The observer ends with the first task id and the first context id any event named, and with
      the state of the last event that named either. */
  lemma ObservesFirstAndLast(codec: Codec, chunks: seq<Bytes>)
    ensures var seen := LastLine(ObserveStep(codec), FeedAll(LF, ObserveStep(codec), Held(NOTHING, []), chunks).0).0;
            var ss := Sightings(codec, Lines(Flatten(chunks)));
            && IsFirst(Tasks(ss), seen.taskID)
            && IsFirst(Contexts(ss), seen.contextID)
            && seen.lastState == (if ss == [] then "" else ss[|ss| - 1].state)
  {
    ObserveIsChunkIndependent(codec, chunks);
    NoteAll(Sightings(codec, Lines(Flatten(chunks))));
  }

  function Noted(seen: Seen, ss: seq<Sighting>): Seen
    decreases |ss|
  {
    if ss == [] then seen else Noted(Note(seen, ss[0]), ss[1..])
  }

  lemma {:induction false} RunNotes(codec: Codec, seen: Seen, ls: seq<Bytes>)
    ensures Run(ObserveStep(codec), seen, ls).0 == Noted(seen, Sightings(codec, ls))
    decreases |ls|
  {
    if ls != [] {
      RunNotes(codec, ObserveLine(codec, seen, ls[0]).0, ls[1..]);
      var d := Decode(codec, ls[0]);
      var rest := Sightings(codec, ls[1..]);
      if d.Some? {
        assert ([d.value] + rest)[1..] == rest;
      } else {
        assert [] + rest == rest;
      }
    }
  }

  lemma {:induction false} NoteAll(ss: seq<Sighting>)
    ensures var seen := Noted(NOTHING, ss);
            && IsFirst(Tasks(ss), seen.taskID)
            && IsFirst(Contexts(ss), seen.contextID)
            && seen.lastState == (if ss == [] then "" else ss[|ss| - 1].state)
  {
    if ss != [] {
      var init, last := ss[..|ss| - 1], ss[|ss| - 1];
      NoteAll(init);
      assert ss == init + [last];
      NotedNext(NOTHING, init, last);
      NoteOne(init, last, Noted(NOTHING, init));
    }
  }

  lemma NoteOne(init: seq<Sighting>, last: Sighting, seen: Seen)
    requires IsFirst(Tasks(init), seen.taskID) && IsFirst(Contexts(init), seen.contextID)
    ensures IsFirst(Tasks(init + [last]), Note(seen, last).taskID) && IsFirst(Contexts(init + [last]), Note(seen, last).contextID)
  {
    FirstNext(Tasks(init), seen.taskID, last.taskID);
    FirstNext(Contexts(init), seen.contextID, last.contextID);
    assert Tasks(init + [last]) == Tasks(init) + [last.taskID];
    assert Contexts(init + [last]) == Contexts(init) + [last.contextID];
  }

  lemma {:induction false} NotedNext(seen: Seen, ss: seq<Sighting>, s: Sighting)
    ensures Noted(seen, ss + [s]) == Note(Noted(seen, ss), s)
    decreases |ss|
  {
    if ss == [] {
      assert [] + [s] == [s] && [s][1..] == [];
    } else {
      NotedNext(Note(seen, ss[0]), ss[1..], s);
      assert (ss + [s])[1..] == ss[1..] + [s];
    }
  }

  lemma FirstNext(xs: seq<string>, v: string, x: string)
    requires IsFirst(xs, v)
    ensures IsFirst(xs + [x], if v == "" && x != "" then x else v)
  {
    var ys := xs + [x];
    assert forall i :: 0 <= i < |xs| ==> ys[i] == xs[i];
    assert ys[|xs|] == x;
    if v != "" {
      var i :| 0 <= i < |xs| && xs[i] == v && forall j :: 0 <= j < i ==> xs[j] == "";
      assert ys[i] == v;
    }
  }
}

/** White space of text held as UTF-8 bytes. */
module Text {
  import opened Bytes

  const NEWLINE: Byte := 10
  const RETURN: Byte := 13

  predicate NarrowSpace(a: Byte) {
    9 <= a <= 13 || a == 32
  }

  predicate MiddleSpace(a: Byte, b: Byte) {
    a == 0xC2 && (b == 0x85 || b == 0xA0)
  }

  predicate WideSpace(a: Byte, b: Byte, c: Byte) {
    || (a == 0xE1 && b == 0x9A && c == 0x80)
    || (a == 0xE2 && b == 0x80 && (0x80 <= c <= 0x8A || c == 0xA8 || c == 0xA9 || c == 0xAF))
    || (a == 0xE2 && b == 0x81 && c == 0x9F)
    || (a == 0xE3 && b == 0x80 && c == 0x80)
  }

  /** The length of the white-space character at the start of `s`, or 0. */
  function SpaceLength(s: Bytes): (n: nat)
    ensures n <= |s|
  {
    if |s| >= 1 && NarrowSpace(s[0]) then 1
    else if |s| >= 2 && MiddleSpace(s[0], s[1]) then 2
    else if |s| >= 3 && WideSpace(s[0], s[1], s[2]) then 3
    else 0
  }

  /** The length of the one at its end. */
  function LastSpaceLength(s: Bytes): (n: nat)
    ensures n <= |s|
  {
    if |s| >= 1 && NarrowSpace(s[|s| - 1]) then 1
    else if |s| >= 2 && MiddleSpace(s[|s| - 2], s[|s| - 1]) then 2
    else if |s| >= 3 && WideSpace(s[|s| - 3], s[|s| - 2], s[|s| - 1]) then 3
    else 0
  }

  function TrimLeft(s: Bytes): Bytes
    decreases |s|
  {
    if SpaceLength(s) == 0 then s else TrimLeft(s[SpaceLength(s)..])
  }

  function TrimRight(s: Bytes): Bytes
    decreases |s|
  {
    if LastSpaceLength(s) == 0 then s else TrimRight(s[..|s| - LastSpaceLength(s)])
  }

  function TrimSpace(s: Bytes): Bytes {
    TrimRight(TrimLeft(s))
  }

  function Concat(pieces: seq<Bytes>): Bytes {
    if pieces == [] then [] else pieces[0] + Concat(pieces[1..])
  }

  lemma {:induction false} ConcatAppend(a: seq<Bytes>, b: seq<Bytes>)
    ensures Concat(a + b) == Concat(a) + Concat(b)
  {
    if a == [] {
      assert a + b == b;
    } else {
      assert (a + b)[1..] == a[1..] + b;
      ConcatAppend(a[1..], b);
    }
  }
}

/** The writer that cuts an event stream into frames, journals each one and forwards it. */
module Journal {
  import opened Bytes
  import opened Text

  const DATA_PREFIX: Bytes := [100, 97, 116, 97, 58, 32]
  const DONE: Bytes := [91, 68, 79, 78, 69, 93]

  datatype Terminal = Succeeded | Failed

  /** The journal behind the writer: whether it takes a frame after those already forwarded, and the
      event type that decoding finds in a payload (empty when there is none). */
  datatype Backend = Backend(accepts: (seq<Bytes>, string, Bytes) -> bool, typeOf: Bytes -> string)

  datatype Writer = Writer(pending: Bytes, frames: seq<Bytes>, failed: bool, terminal: Option<Terminal>)

  /** The position of the first blank line, or -1. */
  function BlankAt(s: Bytes): (i: int)
    ensures i < 0 ==> i == -1
    ensures i >= 0 ==> i + 2 <= |s|
  {
    if |s| < 2 then -1
    else if s[0] == NEWLINE && s[1] == NEWLINE then 0
    else if BlankAt(s[1..]) < 0 then -1
    else BlankAt(s[1..]) + 1
  }

  ghost predicate BlankHere(s: Bytes, i: int) {
    0 <= i && i + 2 <= |s| && s[i] == NEWLINE && s[i + 1] == NEWLINE
  }

  /** The position found is the first: there is a blank line there and none before, or none at all. */
  lemma {:induction false} BlankIsFirst(s: Bytes)
    ensures BlankAt(s) >= 0 ==> BlankHere(s, BlankAt(s))
    ensures forall i :: BlankHere(s, i) ==> 0 <= BlankAt(s) <= i
  {
    if |s| >= 2 && !(s[0] == NEWLINE && s[1] == NEWLINE) {
      BlankIsFirst(s[1..]);
      forall i | BlankHere(s, i)
        ensures 0 <= BlankAt(s) <= i
      {
        assert BlankHere(s[1..], i - 1);
      }
    }
  }

  lemma BlankOfAppend(a: Bytes, b: Bytes)
    requires BlankAt(a) >= 0
    ensures BlankAt(a + b) == BlankAt(a)
  {
    BlankIsFirst(a);
    BlankIsFirst(a + b);
    var i, j := BlankAt(a), BlankAt(a + b);
    assert BlankHere(a + b, i);
    assert BlankHere(a, j);
  }

  /** What follows the data prefix, or nothing when there is no such prefix. */
  function Payload(frame: Bytes): Bytes {
    if |frame| >= 2 && DATA_PREFIX <= frame[..|frame| - 2] then TrimSpace(frame[|DATA_PREFIX|..|frame| - 2]) else []
  }

  function EventType(b: Backend, payload: Bytes): string {
    if payload == DONE then "stream.done" else if b.typeOf(payload) != "" then b.typeOf(payload) else "sse.event"
  }

  predicate Deliverable(b: Backend, forwarded: seq<Bytes>, frame: Bytes) {
    Payload(frame) != [] && b.accepts(forwarded, EventType(b, Payload(frame)), frame)
  }

  function TerminalOf(eventType: string): Option<Terminal> {
    if eventType == "stream.done" then Some(Succeeded)
    else if eventType == "error" || "response.failed" <= eventType then Some(Failed)
    else None
  }

  /** A request's first terminal mark stays. */
  function Marked(before: Option<Terminal>, eventType: string): Option<Terminal> {
    if before.Some? then before else TerminalOf(eventType)
  }

  function Forward(b: Backend, w: Writer, frame: Bytes, rest: Bytes): Writer {
    Writer(rest, w.frames + [frame], false, Marked(w.terminal, EventType(b, Payload(frame))))
  }

  /** Forward what is pending, frame by frame. */
  function Drain(b: Backend, w: Writer): Writer
    decreases |w.pending|
  {
    var i := BlankAt(w.pending);
    if w.failed || i < 0 then w
    else
      var frame, rest := w.pending[..i + 2], w.pending[i + 2..];
      if !Deliverable(b, w.frames, frame) then w.(pending := rest, failed := true)
      else Drain(b, Forward(b, w, frame, rest))
  }

  function Written(b: Backend, w: Writer, payload: Bytes): Writer {
    if w.failed then w else Drain(b, w.(pending := w.pending + payload))
  }

  function Flushed(w: Writer): Writer {
    w.(failed := w.failed || w.pending != [])
  }

  function WriteAll(b: Backend, w: Writer, payloads: seq<Bytes>): Writer
    decreases |payloads|
  {
    if payloads == [] then w else WriteAll(b, Written(b, w, payloads[0]), payloads[1..])
  }

  // ----- However the stream is cut -----

  /** Equal, but for what a failed writer keeps pending. */
  predicate Alike(a: Writer, b: Writer) {
    a.frames == b.frames && a.failed == b.failed && a.terminal == b.terminal && (!a.failed ==> a.pending == b.pending)
  }

  lemma {:induction false} DrainAppend(b: Backend, w: Writer, more: Bytes)
    requires !w.failed
    ensures Alike(Drain(b, w.(pending := w.pending + more)), Written(b, Drain(b, w), more))
    decreases |w.pending|
  {
    var i := BlankAt(w.pending);
    if i >= 0 {
      BlankOfAppend(w.pending, more);
      var frame, rest := w.pending[..i + 2], w.pending[i + 2..];
      assert (w.pending + more)[..i + 2] == frame && (w.pending + more)[i + 2..] == rest + more;
      if Deliverable(b, w.frames, frame) {
        DrainAppend(b, Forward(b, w, frame, rest), more);
      }
    }
  }

  lemma WriteTwice(b: Backend, w: Writer, first: Bytes, more: Bytes)
    ensures Alike(Written(b, w, first + more), Written(b, Written(b, w, first), more))
  {
    if !w.failed {
      assert w.pending + (first + more) == w.pending + first + more;
      DrainAppend(b, w.(pending := w.pending + first), more);
    }
  }

  /** No blank line is left pending. */
  predicate Settled(w: Writer) {
    w.failed || BlankAt(w.pending) < 0
  }

  /** For every way of cutting a stream into writes, the frames forwarded, the terminal mark, the failure
      and (unless failed) the bytes left pending are those of writing it all at once. */
  lemma {:induction false} CuttingDoesNotMatter(b: Backend, w: Writer, payloads: seq<Bytes>)
    requires Settled(w)
    ensures Alike(WriteAll(b, w, payloads), Written(b, w, Concat(payloads)))
    decreases |payloads|
  {
    if payloads == [] {
      assert w.pending + [] == w.pending;
    } else {
      var next := Written(b, w, payloads[0]);
      DrainSettles(b, w.(pending := w.pending + payloads[0]));
      CuttingDoesNotMatter(b, next, payloads[1..]);
      WriteTwice(b, w, payloads[0], Concat(payloads[1..]));
    }
  }

  lemma {:induction false} DrainSettles(b: Backend, w: Writer)
    ensures Settled(Drain(b, w))
    decreases |w.pending|
  {
    var i := BlankAt(w.pending);
    if !w.failed && i >= 0 {
      var frame, rest := w.pending[..i + 2], w.pending[i + 2..];
      if Deliverable(b, w.frames, frame) {
        DrainSettles(b, Forward(b, w, frame, rest));
      }
    }
  }

  // ----- What is forwarded -----

  /** The frame is cut at the first blank line. */
  predicate IsFrame(frame: Bytes) {
    |frame| >= 2 && BlankAt(frame) == |frame| - 2
  }

  /** Every frame ends at its only blank line, carries data, and was taken by the journal after the
      frames before it. */
  ghost predicate Forwarded(b: Backend, frames: seq<Bytes>) {
    forall i :: 0 <= i < |frames| ==> IsFrame(frames[i]) && Deliverable(b, frames[..i], frames[i])
  }

  /** The first terminal event among the frames decides. */
  function TerminalIn(b: Backend, frames: seq<Bytes>): Option<Terminal> {
    if frames == [] then None
    else
      var before := TerminalIn(b, frames[..|frames| - 1]);
      Marked(before, EventType(b, Payload(frames[|frames| - 1])))
  }

  /** `w` is what writing `bytes` to a new writer leaves. */
  ghost predicate Kept(b: Backend, w: Writer, bytes: Bytes) {
    && Forwarded(b, w.frames) && w.terminal == TerminalIn(b, w.frames)
    && (!w.failed ==> Concat(w.frames) + w.pending == bytes)
    && (w.failed ==> exists frame: Bytes ::
          IsFrame(frame) && Concat(w.frames) + frame <= bytes && !Deliverable(b, w.frames, frame))
  }

  lemma FrameIsFrame(s: Bytes)
    requires BlankAt(s) >= 0
    ensures IsFrame(s[..BlankAt(s) + 2])
  {
    var i := BlankAt(s);
    BlankIsFirst(s);
    BlankIsFirst(s[..i + 2]);
    assert BlankHere(s[..i + 2], i);
    assert BlankHere(s, BlankAt(s[..i + 2]));
  }

  lemma ForwardedGrows(b: Backend, frames: seq<Bytes>, frame: Bytes)
    requires Forwarded(b, frames) && IsFrame(frame) && Deliverable(b, frames, frame)
    ensures Forwarded(b, frames + [frame])
  {
    var longer := frames + [frame];
    forall i | 0 <= i < |longer|
      ensures IsFrame(longer[i]) && Deliverable(b, longer[..i], longer[i])
    {
      if i < |frames| {
        assert longer[..i] == frames[..i];
      } else {
        assert longer[..i] == frames;
      }
    }
  }

  lemma ConcatOne(frames: seq<Bytes>, frame: Bytes)
    ensures Concat(frames + [frame]) == Concat(frames) + frame
  {
    ConcatAppend(frames, [frame]);
    assert Concat([frame]) == frame + Concat([]);
  }

  lemma ForwardOne(b: Backend, frames: seq<Bytes>, frame: Bytes)
    requires Forwarded(b, frames) && IsFrame(frame) && Deliverable(b, frames, frame)
    ensures Forwarded(b, frames + [frame]) && Concat(frames + [frame]) == Concat(frames) + frame
    ensures TerminalIn(b, frames + [frame]) == Marked(TerminalIn(b, frames), EventType(b, Payload(frame)))
  {
    ForwardedGrows(b, frames, frame);
    ConcatOne(frames, frame);
    TerminalOfAppend(b, frames, frame);
  }

  /** Draining takes the first frame off what is pending. */
  lemma DrainStep(b: Backend, w: Writer, frame: Bytes, rest: Bytes)
    requires !w.failed && IsFrame(frame) && w.pending == frame + rest
    ensures Drain(b, w) == if Deliverable(b, w.frames, frame) then Drain(b, Forward(b, w, frame, rest))
                           else w.(pending := rest, failed := true)
  {
    BlankOfAppend(frame, rest);
    assert w.pending[..|frame|] == frame && w.pending[|frame|..] == rest;
  }

  lemma KeptForward(b: Backend, w: Writer, bytes: Bytes, frame: Bytes, rest: Bytes)
    requires Kept(b, w, bytes) && !w.failed && IsFrame(frame) && w.pending == frame + rest
    requires Deliverable(b, w.frames, frame)
    ensures Kept(b, Forward(b, w, frame, rest), bytes)
  {
    ForwardOne(b, w.frames, frame);
    Associative(Concat(w.frames), frame, rest);
  }

  lemma IsPrefix(a: Bytes, b: Bytes)
    ensures a <= a + b
  {
  }

  lemma KeptRefused(b: Backend, w: Writer, bytes: Bytes, frame: Bytes, rest: Bytes)
    requires Kept(b, w, bytes) && !w.failed && IsFrame(frame) && w.pending == frame + rest
    requires !Deliverable(b, w.frames, frame)
    ensures Kept(b, w.(pending := rest, failed := true), bytes)
  {
    Associative(Concat(w.frames), frame, rest);
    IsPrefix(Concat(w.frames) + frame, rest);
  }

  lemma {:induction false} DrainKeeps(b: Backend, w: Writer, bytes: Bytes)
    requires Kept(b, w, bytes)
    ensures Kept(b, Drain(b, w), bytes)
    decreases |w.pending|
  {
    var i := BlankAt(w.pending);
    if !w.failed && i >= 0 {
      var frame, rest := w.pending[..i + 2], w.pending[i + 2..];
      FrameIsFrame(w.pending);
      assert w.pending == frame + rest;
      DrainStep(b, w, frame, rest);
      if Deliverable(b, w.frames, frame) {
        KeptForward(b, w, bytes, frame, rest);
        DrainKeeps(b, Forward(b, w, frame, rest), bytes);
      } else {
        KeptRefused(b, w, bytes, frame, rest);
      }
    }
  }

  const FRESH := Writer([], [], false, None)

  lemma AppendKeeps(b: Backend, w: Writer, bytes: Bytes, payload: Bytes)
    requires Kept(b, w, bytes) && !w.failed
    ensures Kept(b, w.(pending := w.pending + payload), bytes + payload)
  {
    Associative(Concat(w.frames), w.pending, payload);
  }

  lemma WriteKeeps(b: Backend, w: Writer, bytes: Bytes, payload: Bytes)
    requires Kept(b, w, bytes) && Settled(w)
    ensures Kept(b, Written(b, w, payload), bytes + payload) && Settled(Written(b, w, payload))
  {
    if w.failed {
      FailedKept(b, w, bytes, payload);
    } else {
      AppendKeeps(b, w, bytes, payload);
      DrainKeeps(b, w.(pending := w.pending + payload), bytes + payload);
      DrainSettles(b, w.(pending := w.pending + payload));
    }
  }

  /** After any writes: what was forwarded and what is pending are together the bytes written, with no
      blank line pending; or the writer failed on the first frame that could not be delivered. */
  lemma {:induction false} WritesAreConserved(b: Backend, w: Writer, bytes: Bytes, payloads: seq<Bytes>)
    requires Kept(b, w, bytes) && Settled(w)
    ensures Kept(b, WriteAll(b, w, payloads), bytes + Concat(payloads)) && Settled(WriteAll(b, w, payloads))
    decreases |payloads|
  {
    if payloads == [] {
      assert bytes + [] == bytes;
    } else {
      WriteKeeps(b, w, bytes, payloads[0]);
      WritesAreConserved(b, Written(b, w, payloads[0]), bytes + payloads[0], payloads[1..]);
      Associative(bytes, payloads[0], Concat(payloads[1..]));
    }
  }

  lemma FailedKept(b: Backend, w: Writer, bytes: Bytes, more: Bytes)
    requires Kept(b, w, bytes) && w.failed
    ensures Kept(b, w, bytes + more)
  {
    var frame :| IsFrame(frame) && Concat(w.frames) + frame <= bytes && !Deliverable(b, w.frames, frame);
    assert bytes <= bytes + more;
    assert Concat(w.frames) + frame <= bytes + more;
  }

  /** The split is unique: frames that each end at their only blank line, with no blank line after them,
      are determined by the bytes they make up. */
  lemma {:induction false} SplitIsUnique(v: seq<Bytes>, p: Bytes, w: seq<Bytes>, q: Bytes)
    requires forall i :: 0 <= i < |v| ==> IsFrame(v[i])
    requires forall i :: 0 <= i < |w| ==> IsFrame(w[i])
    requires BlankAt(p) < 0 && BlankAt(q) < 0 && Concat(v) + p == Concat(w) + q
    ensures v == w && p == q
    decreases |v| + |w|
  {
    if v != [] {
      BlankOfAppend(v[0], Concat(v[1..]) + p);
      assert Concat(v) + p == v[0] + (Concat(v[1..]) + p);
    }
    if w != [] {
      BlankOfAppend(w[0], Concat(w[1..]) + q);
      assert Concat(w) + q == w[0] + (Concat(w[1..]) + q);
    }
    if v == [] || w == [] {
      assert [] + p == p && [] + q == q;
    } else {
      var all := Concat(v) + p;
      assert all[..|v[0]|] == v[0] && all[..|w[0]|] == w[0];
      assert all[|v[0]|..] == Concat(v[1..]) + p && all[|w[0]|..] == Concat(w[1..]) + q;
      SplitIsUnique(v[1..], p, w[1..], q);
      assert v == [v[0]] + v[1..] && w == [w[0]] + w[1..];
    }
  }

  /** A stream of deliverable frames, however it is cut into writes, is forwarded frame by frame as it is. */
  lemma WellFormedStreamPasses(b: Backend, frames: seq<Bytes>, payloads: seq<Bytes>)
    requires Forwarded(b, frames) && Concat(payloads) == Concat(frames)
    ensures WriteAll(b, FRESH, payloads) == Writer([], frames, false, TerminalIn(b, frames))
    ensures Flushed(WriteAll(b, FRESH, payloads)) == WriteAll(b, FRESH, payloads)
  {
    CuttingDoesNotMatter(b, FRESH, payloads);
    assert [] + Concat(payloads) == Concat(frames);
    assert [] + frames == frames;
    DrainFrames(b, [], frames, None);
  }

  lemma {:induction false} DrainFrames(b: Backend, before: seq<Bytes>, frames: seq<Bytes>, terminal: Option<Terminal>)
    requires Forwarded(b, before + frames) && terminal == TerminalIn(b, before)
    ensures Drain(b, Writer(Concat(frames), before, false, terminal))
            == Writer([], before + frames, false, TerminalIn(b, before + frames))
    decreases |frames|
  {
    if frames == [] {
      assert before + frames == before;
    } else {
      var frame := frames[0];
      NextForwarded(b, before, frames);
      DrainStep(b, Writer(Concat(frames), before, false, terminal), frame, Concat(frames[1..]));
      Associative(before, [frame], frames[1..]);
      assert frames == [frame] + frames[1..];
      TerminalOfAppend(b, before, frame);
      DrainFrames(b, before + [frame], frames[1..], Marked(terminal, EventType(b, Payload(frame))));
    }
  }

  lemma TerminalOfAppend(b: Backend, frames: seq<Bytes>, frame: Bytes)
    ensures TerminalIn(b, frames + [frame]) == Marked(TerminalIn(b, frames), EventType(b, Payload(frame)))
  {
    assert (frames + [frame])[..|frames|] == frames;
  }

  lemma NextForwarded(b: Backend, before: seq<Bytes>, frames: seq<Bytes>)
    requires Forwarded(b, before + frames) && frames != []
    ensures IsFrame(frames[0]) && Deliverable(b, before, frames[0])
  {
    var all := before + frames;
    assert all[|before|] == frames[0] && all[..|before|] == before;
  }

  lemma StreamIsConserved(b: Backend, payloads: seq<Bytes>)
    ensures var w := WriteAll(b, FRESH, payloads);
            Kept(b, w, Concat(payloads)) && Settled(w)
  {
    assert [] + Concat(payloads) == Concat(payloads);
    WritesAreConserved(b, FRESH, [], payloads);
  }

  ghost predicate IsFrameStream(b: Backend, bytes: Bytes) {
    exists frames :: Forwarded(b, frames) && Concat(frames) == bytes
  }

  /** Writing and then flushing succeeds exactly for the streams that consist of deliverable frames. */
  lemma AcceptedExactly(b: Backend, payloads: seq<Bytes>)
    ensures !Flushed(WriteAll(b, FRESH, payloads)).failed <==> IsFrameStream(b, Concat(payloads))
  {
    var w := WriteAll(b, FRESH, payloads);
    StreamIsConserved(b, payloads);
    if !Flushed(w).failed {
      assert Concat(w.frames) + [] == Concat(w.frames);
      assert Forwarded(b, w.frames) && Concat(w.frames) == Concat(payloads);
    }
    if IsFrameStream(b, Concat(payloads)) {
      var frames :| Forwarded(b, frames) && Concat(frames) == Concat(payloads);
      WellFormedStreamPasses(b, frames, payloads);
    }
  }

  // ----- The writer in place -----

  class SseWriter {
    const backend: Backend
    var pending: Bytes
    var frames: seq<Bytes>
    var failed: bool
    var terminal: Option<Terminal>

    function Value(): Writer
      reads this
    {
      Writer(pending, frames, failed, terminal)
    }

    constructor (backend: Backend)
      ensures Value() == FRESH && this.backend == backend
    {
      this.backend := backend;
      pending, frames, failed, terminal := [], [], false, None;
    }

    method Write(payload: Bytes) returns (count: nat)
      modifies this
      ensures Value() == Written(backend, old(Value()), payload)
      ensures count == if failed then 0 else |payload|
    {
      if failed {
        return 0;
      }
      pending := pending + payload;
      ghost var final := Drain(backend, Value());
      while true
        invariant !failed && Drain(backend, Value()) == final
        decreases |pending|
      {
        var separator := IndexOfBlank(pending);
        if separator < 0 {
          break;
        }
        var end := separator + 2;
        var frame := pending[..end];
        pending := pending[end..];
        var ok := ForwardFrame(frame);
        if !ok {
          failed := true;
          return 0;
        }
      }
      count := |payload|;
    }

    method Flush()
      modifies this
      ensures Value() == Flushed(old(Value()))
    {
      if failed {
        return;
      }
      if |pending| != 0 {
        failed := true;
      }
    }

    /** Check one frame, hand it to the journal and note a terminal event. */
    method ForwardFrame(frame: Bytes) returns (ok: bool)
      requires |frame| >= 2
      modifies this`frames, this`terminal
      ensures ok == Deliverable(backend, old(frames), frame)
      ensures frames == if ok then old(frames) + [frame] else old(frames)
      ensures terminal == if ok then Marked(old(terminal), EventType(backend, Payload(frame))) else old(terminal)
    {
      var body := frame[..|frame| - 2];
      if !(DATA_PREFIX <= body) {
        return false;
      }
      var payload := TrimSpace(body[|DATA_PREFIX|..]);
      if |payload| == 0 {
        return false;
      }
      var eventType := "sse.event";
      if payload == DONE {
        eventType := "stream.done";
      } else if backend.typeOf(payload) != "" {
        eventType := backend.typeOf(payload);
      }
      if !backend.accepts(frames, eventType, frame) {
        return false;
      }
      frames := frames + [frame];
      if eventType == "stream.done" {
        MarkTerminal(Succeeded);
      } else if eventType == "error" || "response.failed" <= eventType {
        MarkTerminal(Failed);
      }
      ok := true;
    }

    method MarkTerminal(state: Terminal)
      modifies this`terminal
      ensures terminal == if old(terminal).Some? then old(terminal) else Some(state)
    {
      if terminal.None? {
        terminal := Some(state);
      }
    }
  }

  method IndexOfBlank(s: Bytes) returns (index: int)
    ensures index == BlankAt(s)
  {
    BlankIsFirst(s);
    index := 0;
    while index + 2 <= |s|
      invariant 0 <= index
      invariant forall i :: BlankHere(s, i) ==> index <= i
    {
      if s[index] == NEWLINE && s[index + 1] == NEWLINE {
        assert BlankHere(s, index);
        return;
      }
      index := index + 1;
    }
    index := -1;
  }
}

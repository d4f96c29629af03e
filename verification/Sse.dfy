/** The decoder of an upstream event stream, and the parser of its server-sent-events form. */
module Sse {
  import opened Bytes
  import opened Text

  const MAX_LINE_BYTES := 256 * 1024
  const MAX_EVENTS := 8192
  const MAX_PAYLOAD_BYTES := 4 * 1024 * 1024
  const DATA_FIELD: Bytes := [100, 97, 116, 97, 58]
  const SPACE: Byte := 32
  const COLON: Byte := 58
  const DONE_MARK: Bytes := [91, 68, 79, 78, 69, 93]

  /** An event's type; `Blank` is one that trims to nothing. */
  datatype Kind = Completed | Done | Incomplete | ResponseFailed | ErrorEvent | Blank | Plain(name: string)

  datatype Response = Response(status: string, error: Option<string>)

  datatype Event = Event(kind: Kind, response: Option<Response>, error: Option<string>, code: string, raw: Bytes)

  /** JSON decoding, and the caller's callback: whether it takes the last of the events so far. */
  datatype Context = Context(decode: Bytes -> Option<Event>, takes: seq<Event> -> bool)

  datatype Error =
    | DuplicateTerminal | Malformed | AbruptClose | CallbackFailed | ReadFailed
    | StreamFailed(kind: Kind, status: string, code: string)

  datatype Decoder = Decoder(events: seq<Event>, terminal: Option<Event>, failed: bool, code: string, done: bool,
                             payloadBytes: nat)

  const NEW_DECODER := Decoder([], None, false, "", false, 0)

  predicate ResponseTerminal(k: Kind) {
    k.Completed? || k.Done? || k.Incomplete? || k.ResponseFailed?
  }

  predicate Terminal(k: Kind) {
    ResponseTerminal(k) || k.ErrorEvent?
  }

  /** An event that may enter the stream at all. */
  predicate ValidEvent(e: Event) {
    !e.kind.Blank? && (ResponseTerminal(e.kind) ==> e.response.Some?)
  }

  predicate CarriesError(e: Event) {
    e.error.Some? || (e.response.Some? && e.response.value.error.Some?)
  }

  predicate FailedTerminal(e: Event) {
    e.kind.ResponseFailed? || e.kind.ErrorEvent? || (e.response.Some? && e.response.value.status == "failed")
  }

  function TerminalCode(before: string, e: Event): string {
    if e.code != "" then e.code
    else if e.error.Some? then e.error.value
    else if e.response.Some? && e.response.value.error.Some? then e.response.value.error.value
    else before
  }

  datatype Step<T> = Go(value: T) | Stop(decoder: Decoder, error: Error)

  function Reserve(d: Decoder, size: nat): Step<Decoder> {
    if d.payloadBytes > MAX_PAYLOAD_BYTES - size then Stop(d, Malformed)
    else Go(d.(payloadBytes := d.payloadBytes + size))
  }

  function Add(d: Decoder, e: Event): Step<Decoder> {
    if e.kind.Blank? then Stop(d, Malformed)
    else if d.terminal.Some? then Stop(d, DuplicateTerminal)
    else if |d.events| >= MAX_EVENTS then Stop(d, Malformed)
    else if ResponseTerminal(e.kind) && e.response.None? then Stop(d, Malformed)
    else
      var added := d.(events := d.events + [e], failed := d.failed || CarriesError(e));
      if !Terminal(e.kind) then Go(added)
      else Go(added.(terminal := Some(e), code := TerminalCode(d.code, e), failed := added.failed || FailedTerminal(e)))
  }

  /** One complete payload of the stream. */
  function Accept(x: Context, d: Decoder, payload: Bytes): Step<Decoder> {
    if payload == DONE_MARK then
      if d.done then Stop(d, DuplicateTerminal)
      else if d.terminal.None? then Stop(d, Malformed)
      else Go(d.(done := true))
    else if d.done then Stop(d, DuplicateTerminal)
    else match x.decode(payload)
      case None => Stop(d, Malformed)
      case Some(event) =>
        match Reserve(d, |payload|)
        case Stop(_, e) => Stop(d, e)
        case Go(reserved) =>
          match Add(reserved, event.(raw := payload))
          case Stop(_, e) => Stop(reserved, e)
          case Go(added) => if x.takes(added.events) then Go(added) else Stop(added, CallbackFailed)
  }

  function KnownStatus(e: Event): string {
    if e.response.Some? && e.response.value.status in {"completed", "failed", "incomplete", "in_progress"}
    then e.response.value.status else ""
  }

  function Finish(d: Decoder): Option<Error> {
    if d.terminal.None? then Some(AbruptClose)
    else if d.failed then Some(StreamFailed(d.terminal.value.kind, KnownStatus(d.terminal.value), d.code))
    else None
  }

  // ----- The text form -----

  /** The decoder and the data lines of the event under way. */
  datatype Parser = Parser(decoder: Decoder, data: Bytes)

  function FlushData(x: Context, p: Parser): Step<Parser> {
    if p.data == [] then Go(p)
    else match Accept(x, p.decoder, TrimSpace(p.data))
      case Stop(d, e) => Stop(d, e)
      case Go(d) => Go(Parser(d, []))
  }

  function FieldValue(line: Bytes): Bytes
    requires DATA_FIELD <= line
  {
    var value := line[|DATA_FIELD|..];
    if value != [] && value[0] == SPACE then value[1..] else value
  }

  function Joined(data: Bytes, value: Bytes): Bytes {
    if data == [] then value else data + [NEWLINE] + value
  }

  function ConsumeLine(x: Context, p: Parser, line: Bytes): Step<Parser> {
    if p.decoder.done && line != [] && line[0] != COLON then Stop(p.decoder, DuplicateTerminal)
    else if line == [] then FlushData(x, p)
    else if DATA_FIELD <= line then
      var data := Joined(p.data, FieldValue(line));
      if |data| > MAX_LINE_BYTES then Stop(p.decoder, Malformed) else Go(p.(data := data))
    else Go(p)
  }

  /** The number of bytes before the first newline, or all of them. */
  function LineLength(s: Bytes): (n: nat)
    ensures n <= |s|
    ensures n < |s| ==> s[n] == NEWLINE
  {
    if s == [] || s[0] == NEWLINE then 0 else 1 + LineLength(s[1..])
  }

  /** The line without its ending, which is a newline or a return and a newline. */
  function LineText(s: Bytes): Bytes {
    var n := LineLength(s);
    if n < |s| && n > 0 && s[n - 1] == RETURN then s[..n - 1] else s[..n]
  }

  function AfterLine(s: Bytes): (rest: Bytes)
    ensures s != [] ==> |rest| < |s|
  {
    var n := LineLength(s);
    if n < |s| then s[n + 1..] else []
  }

  /** Read and consume the lines of `s`. */
  function ConsumeText(x: Context, p: Parser, s: Bytes): Step<Parser>
    decreases |s|
  {
    if s == [] then Go(p)
    else if LineLength(s) > MAX_LINE_BYTES then Stop(p.decoder, Malformed)
    else match ConsumeLine(x, p, LineText(s))
      case Stop(d, e) => Stop(d, e)
      case Go(next) => ConsumeText(x, next, AfterLine(s))
  }

  datatype Outcome = Outcome(decoder: Decoder, error: Option<Error>)

  function Finished(x: Context, p: Step<Parser>, broken: bool): Outcome {
    match p
    case Stop(d, e) => Outcome(d, Some(e))
    case Go(last) =>
      if broken then Outcome(last.decoder, Some(ReadFailed))
      else match FlushData(x, last)
        case Stop(d, e) => Outcome(d, Some(e))
        case Go(end) => Outcome(end.decoder, Finish(end.decoder))
  }

  /** Parse a body that ends after `s`, by its end or (`broken`) by a read error. */
  function Parse(x: Context, s: Bytes, broken: bool): Outcome {
    Finished(x, ConsumeText(x, Parser(NEW_DECODER, []), s), broken)
  }

  // ----- Feeding payloads -----

  function Feed(x: Context, d: Decoder, payloads: seq<Bytes>): Step<Decoder>
    decreases |payloads|
  {
    if payloads == [] then Go(d)
    else match Accept(x, d, payloads[0])
      case Stop(e, error) => Stop(e, error)
      case Go(next) => Feed(x, next, payloads[1..])
  }

  function FeedAll(x: Context, payloads: seq<Bytes>): Outcome {
    match Feed(x, NEW_DECODER, payloads)
    case Stop(d, e) => Outcome(d, Some(e))
    case Go(d) => Outcome(d, Finish(d))
  }

  // ----- Rendering -----

  datatype Line =
    | Data(spaced: bool, value: Bytes)
    | Comment(text: Bytes)
    | Field(text: Bytes)

  datatype Ending = Lf | CrLf

  function LineBytes(l: Line): Bytes {
    match l
    case Data(spaced, value) => if spaced then DATA_FIELD + [SPACE] + value else DATA_FIELD + value
    case Comment(text) => [COLON] + text
    case Field(text) => text
  }

  function EndingBytes(e: Ending): Bytes {
    match e
    case Lf => [NEWLINE]
    case CrLf => [RETURN, NEWLINE]
  }

  /** A line that the form can carry: a value that does not lose a leading space, a field that is neither
      blank, nor data, nor a comment, and no line breaks inside. */
  predicate Renderable(l: Line, e: Ending) {
    var text := LineBytes(l);
    && NEWLINE !in text && |text| + (if e == CrLf then 1 else 0) <= MAX_LINE_BYTES
    && (e == Lf ==> text != [] && text[|text| - 1] != RETURN)
    && match l
       case Data(spaced, value) => !spaced ==> value == [] || value[0] != SPACE
       case Comment(_) => true
       case Field(_) => text != [] && text[0] != COLON && !(DATA_FIELD <= text)
  }

  type Message = seq<(Line, Ending)>

  predicate RenderableAll(m: Message) {
    forall i :: 0 <= i < |m| ==> Renderable(m[i].0, m[i].1)
  }

  function LinesBytes(m: Message): Bytes {
    if m == [] then [] else LineBytes(m[0].0) + EndingBytes(m[0].1) + LinesBytes(m[1..])
  }

  /** Every message ends with a blank line, which has an ending of its own. */
  function MessagesBytes(ms: seq<Message>, blanks: seq<Ending>): Bytes
    requires |blanks| == |ms|
  {
    if ms == [] then [] else LinesBytes(ms[0]) + EndingBytes(blanks[0]) + MessagesBytes(ms[1..], blanks[1..])
  }

  /** The data lines joined by newlines; empty ones before the first text add nothing. */
  function DataOf(data: Bytes, m: Message): Bytes
    decreases |m|
  {
    if m == [] then data
    else DataOf(if m[0].0.Data? then Joined(data, m[0].0.value) else data, m[1..])
  }

  function PayloadsOf(ms: seq<Message>): seq<Bytes> {
    if ms == [] then []
    else (if DataOf([], ms[0]) == [] then [] else [TrimSpace(DataOf([], ms[0]))]) + PayloadsOf(ms[1..])
  }

  predicate OnlyComments(m: Message) {
    forall i :: 0 <= i < |m| ==> m[i].0.Comment?
  }
}

/** The text form carries its payloads unchanged, and exactly the complete streams are accepted. */
module SseProofs {
  import opened Bytes
  import opened Text
  import opened Sse

  // ----- Lines -----

  lemma {:induction false} LineLengthOf(text: Bytes, rest: Bytes)
    requires NEWLINE !in text && (rest == [] || rest[0] == NEWLINE)
    ensures LineLength(text + rest) == |text|
  {
    if text == [] {
      assert text + rest == rest;
    } else {
      assert (text + rest)[1..] == text[1..] + rest;
      LineLengthOf(text[1..], rest);
    }
  }

  /** A line under either ending is read back without it. */
  lemma LineUnder(s: Bytes, text: Bytes, raw: Bytes, e: Ending, rest: Bytes)
    requires NEWLINE !in text && (e == Lf && text != [] ==> text[|text| - 1] != RETURN)
    requires raw == (if e == CrLf then text + [RETURN] else text) && s == raw + ([NEWLINE] + rest)
    ensures s != [] && LineLength(s) == |raw| && LineText(s) == text && AfterLine(s) == rest
  {
    LineLengthOf(raw, [NEWLINE] + rest);
    assert s[..|raw|] == raw && s[|raw| + 1..] == rest;
    if e == CrLf {
      assert s[|text|] == RETURN && s[..|text|] == text;
    } else if text != [] {
      assert s[|text| - 1] == text[|text| - 1];
    }
  }

  lemma EndingSplit(text: Bytes, e: Ending, rest: Bytes)
    ensures text + EndingBytes(e) + rest == (if e == CrLf then text + [RETURN] else text) + ([NEWLINE] + rest)
  {
  }

  lemma RenderedLine(l: Line, e: Ending, rest: Bytes)
    requires Renderable(l, e)
    ensures var s := LineBytes(l) + EndingBytes(e) + rest;
            && s != [] && LineLength(s) <= MAX_LINE_BYTES && LineText(s) == LineBytes(l) && AfterLine(s) == rest
  {
    var text := LineBytes(l);
    EndingSplit(text, e, rest);
    LineUnder(text + EndingBytes(e) + rest, text, if e == CrLf then text + [RETURN] else text, e, rest);
  }

  lemma RenderedValue(l: Line, e: Ending)
    requires Renderable(l, e)
    ensures l.Data? ==> DATA_FIELD <= LineBytes(l) && FieldValue(LineBytes(l)) == l.value
    ensures !l.Data? ==> !(DATA_FIELD <= LineBytes(l))
    ensures LineBytes(l) != [] && (LineBytes(l)[0] == COLON <==> l.Comment?)
  {
    if l.Data? {
      var value := LineBytes(l)[|DATA_FIELD|..];
      assert l.spaced ==> value == [SPACE] + l.value;
      assert !l.spaced ==> value == l.value;
    }
    assert DATA_FIELD <= LineBytes(l) ==> LineBytes(l)[0] == DATA_FIELD[0];
  }

  /** The data after one more line. */
  function DataAfter(data: Bytes, l: Line): Bytes {
    if l.Data? then Joined(data, l.value) else data
  }

  lemma LineStep(x: Context, p: Parser, l: Line, e: Ending, rest: Bytes)
    requires Renderable(l, e) && (p.decoder.done ==> l.Comment?) && |DataAfter(p.data, l)| <= MAX_LINE_BYTES
    ensures ConsumeText(x, p, LineBytes(l) + EndingBytes(e) + rest)
            == ConsumeText(x, p.(data := DataAfter(p.data, l)), rest)
  {
    RenderedLine(l, e, rest);
    RenderedValue(l, e);
  }

  predicate Fits(data: Bytes, m: Message)
    decreases |m|
  {
    m == [] || (|DataAfter(data, m[0].0)| <= MAX_LINE_BYTES && Fits(DataAfter(data, m[0].0), m[1..]))
  }

  lemma {:induction false} LinesStep(x: Context, p: Parser, m: Message, rest: Bytes)
    requires RenderableAll(m) && Fits(p.data, m) && (p.decoder.done ==> OnlyComments(m))
    ensures ConsumeText(x, p, LinesBytes(m) + rest) == ConsumeText(x, p.(data := DataOf(p.data, m)), rest)
    decreases |m|
  {
    if m == [] {
      assert LinesBytes(m) + rest == rest;
    } else {
      var (l, e) := m[0];
      Associative(LineBytes(l) + EndingBytes(e), LinesBytes(m[1..]), rest);
      LineStep(x, p, l, e, LinesBytes(m[1..]) + rest);
      LinesStep(x, p.(data := DataAfter(p.data, l)), m[1..], rest);
    }
  }

  function ThenText(x: Context, s: Step<Parser>, rest: Bytes): Step<Parser> {
    match s
    case Stop(d, e) => Stop(d, e)
    case Go(p) => ConsumeText(x, p, rest)
  }

  lemma BlankStep(x: Context, p: Parser, e: Ending, rest: Bytes)
    ensures ConsumeText(x, p, EndingBytes(e) + rest) == ThenText(x, FlushData(x, p), rest)
  {
    BlankLine(EndingBytes(e) + rest, e, rest);
  }

  /** A line that is only its ending, of either kind, is blank. */
  lemma BlankLine(s: Bytes, e: Ending, rest: Bytes)
    requires s == EndingBytes(e) + rest
    ensures s != [] && LineLength(s) <= 1 && LineText(s) == [] && AfterLine(s) == rest
  {
    EndingSplit([], e, rest);
    assert [] + EndingBytes(e) + rest == s;
    LineUnder(s, [], if e == CrLf then [RETURN] else [], e, rest);
  }

  // ----- Messages -----

  /** Messages after a [DONE] hold comments only. */
  predicate DoneLast(ms: seq<Message>) {
    forall i, j :: 0 <= i < j < |ms| ==> TrimSpace(DataOf([], ms[i])) == DONE_MARK ==> OnlyComments(ms[j])
  }

  predicate Carried(ms: seq<Message>) {
    forall i :: 0 <= i < |ms| ==> RenderableAll(ms[i]) && Fits([], ms[i])
  }

  predicate AllComments(ms: seq<Message>) {
    forall i :: 0 <= i < |ms| ==> OnlyComments(ms[i])
  }

  /** Go on with the text when the step went well. */
  function Then(x: Context, s: Step<Decoder>, rest: Bytes): Step<Parser> {
    match s
    case Stop(d, e) => Stop(d, e)
    case Go(d) => ConsumeText(x, Parser(d, []), rest)
  }

  lemma MessageStep(x: Context, d: Decoder, m: Message, e: Ending, rest: Bytes)
    requires RenderableAll(m) && Fits([], m) && (d.done ==> OnlyComments(m))
    ensures ConsumeText(x, Parser(d, []), LinesBytes(m) + EndingBytes(e) + rest)
            == Then(x, Feed(x, d, PayloadsOf([m])), rest)
  {
    Associative(LinesBytes(m), EndingBytes(e), rest);
    LinesStep(x, Parser(d, []), m, EndingBytes(e) + rest);
    BlankStep(x, Parser(d, DataOf([], m)), e, rest);
    FeedMessage(x, d, m);
  }

  lemma FeedMessage(x: Context, d: Decoder, m: Message)
    ensures Feed(x, d, PayloadsOf([m]))
            == if DataOf([], m) == [] then Go(d) else Accept(x, d, TrimSpace(DataOf([], m)))
  {
    assert [m][1..] == [];
    if DataOf([], m) != [] {
      var payload := TrimSpace(DataOf([], m));
      assert PayloadsOf([m]) == [payload];
      var one := [payload];
      assert one[1..] == [];
    }
  }

  function ThenFeed(x: Context, s: Step<Decoder>, payloads: seq<Bytes>): Step<Decoder> {
    match s
    case Stop(d, e) => Stop(d, e)
    case Go(d) => Feed(x, d, payloads)
  }

  lemma {:induction false} FeedAppend(x: Context, d: Decoder, a: seq<Bytes>, b: seq<Bytes>)
    ensures Feed(x, d, a + b) == ThenFeed(x, Feed(x, d, a), b)
    decreases |a|
  {
    if a == [] {
      assert a + b == b;
    } else {
      assert (a + b)[1..] == a[1..] + b;
      if Accept(x, d, a[0]).Go? {
        FeedAppend(x, Accept(x, d, a[0]).value, a[1..], b);
      }
    }
  }

  lemma {:induction false} PayloadsAppend(a: seq<Message>, b: seq<Message>)
    ensures PayloadsOf(a + b) == PayloadsOf(a) + PayloadsOf(b)
  {
    if a == [] {
      assert a + b == b;
    } else {
      assert (a + b)[1..] == a[1..] + b;
      PayloadsAppend(a[1..], b);
      Associative(PayloadsOf([a[0]]), PayloadsOf(a[1..]), PayloadsOf(b));
      assert [a[0]][1..] == [];
    }
  }

  lemma AcceptDone(x: Context, d: Decoder, payload: Bytes)
    requires Accept(x, d, payload).Go?
    ensures Accept(x, d, payload).value.done <==> payload == DONE_MARK
  {
  }

  /** One message and then the others, whose text and payloads are known to agree. */
  lemma MessageThenOthers(x: Context, d: Decoder, m: Message, others: seq<Message>, e: Ending, later: Bytes,
                          rest: Bytes)
    requires RenderableAll(m) && Fits([], m) && (d.done ==> OnlyComments(m))
    requires var first := Feed(x, d, PayloadsOf([m]));
             first.Go? ==>
               ConsumeText(x, Parser(first.value, []), later + rest)
               == Then(x, Feed(x, first.value, PayloadsOf(others)), rest)
    ensures ConsumeText(x, Parser(d, []), LinesBytes(m) + EndingBytes(e) + later + rest)
            == Then(x, Feed(x, d, PayloadsOf([m] + others)), rest)
  {
    Associative(LinesBytes(m) + EndingBytes(e), later, rest);
    MessageStep(x, d, m, e, later + rest);
    PayloadsAppend([m], others);
    FeedAppend(x, d, PayloadsOf([m]), PayloadsOf(others));
  }

  lemma {:induction false} MessagesStep(x: Context, d: Decoder, ms: seq<Message>, blanks: seq<Ending>, rest: Bytes)
    requires |blanks| == |ms| && Carried(ms) && DoneLast(ms) && (d.done ==> AllComments(ms))
    ensures ConsumeText(x, Parser(d, []), MessagesBytes(ms, blanks) + rest) == Then(x, Feed(x, d, PayloadsOf(ms)), rest)
    decreases |ms|
  {
    if ms == [] {
      assert MessagesBytes(ms, blanks) + rest == rest;
    } else {
      var m, others := ms[0], ms[1..];
      FeedMessage(x, d, m);
      var first := Feed(x, d, PayloadsOf([m]));
      if first.Go? {
        OthersCarried(x, d, ms, first.value);
        MessagesStep(x, first.value, others, blanks[1..], rest);
      }
      MessageThenOthers(x, d, m, others, blanks[0], MessagesBytes(others, blanks[1..]), rest);
      assert ms == [m] + others;
    }
  }

  lemma OthersCarried(x: Context, d: Decoder, ms: seq<Message>, next: Decoder)
    requires ms != [] && Carried(ms) && DoneLast(ms) && (d.done ==> AllComments(ms))
    requires Go(next) == if DataOf([], ms[0]) == [] then Go(d) else Accept(x, d, TrimSpace(DataOf([], ms[0])))
    ensures Carried(ms[1..]) && DoneLast(ms[1..]) && (next.done ==> AllComments(ms[1..]))
  {
    forall i, j | 0 <= i < j < |ms[1..]| && TrimSpace(DataOf([], ms[1..][i])) == DONE_MARK
      ensures OnlyComments(ms[1..][j])
    {
      assert ms[1..][i] == ms[i + 1] && ms[1..][j] == ms[j + 1];
    }
    if DataOf([], ms[0]) != [] {
      AcceptDone(x, d, TrimSpace(DataOf([], ms[0])));
    }
  }

  /** Any list of messages, each of data lines mixed with comments and unknown fields, every line (blank ones
      included) under either ending, the last message with or without its blank line, parses to the decoding
      of exactly its payloads. */
  lemma RoundTrip(x: Context, ms: seq<Message>, blanks: seq<Ending>, last: Message)
    requires |blanks| == |ms| && Carried(ms + [last]) && DoneLast(ms + [last])
    ensures Parse(x, MessagesBytes(ms, blanks) + LinesBytes(last), false) == FeedAll(x, PayloadsOf(ms + [last]))
  {
    var all := ms + [last];
    assert all[..|ms|] == ms && all[|ms|] == last;
    PrefixCarried(all, |ms|);
    MessagesStep(x, NEW_DECODER, ms, blanks, LinesBytes(last));
    PayloadsAppend(ms, [last]);
    FeedAppend(x, NEW_DECODER, PayloadsOf(ms), PayloadsOf([last]));
    var d := Feed(x, NEW_DECODER, PayloadsOf(ms));
    if d.Go? {
      DoneIsLast(x, NEW_DECODER, ms, last);
      LinesStep(x, Parser(d.value, []), last, []);
      assert LinesBytes(last) + [] == LinesBytes(last);
      FeedMessage(x, d.value, last);
    }
  }

  lemma PrefixCarried(ms: seq<Message>, n: nat)
    requires n <= |ms| && Carried(ms) && DoneLast(ms)
    ensures Carried(ms[..n]) && DoneLast(ms[..n])
  {
    forall i, j | 0 <= i < j < |ms[..n]| && TrimSpace(DataOf([], ms[..n][i])) == DONE_MARK
      ensures OnlyComments(ms[..n][j])
    {
      assert ms[..n][i] == ms[i] && ms[..n][j] == ms[j];
    }
  }

  lemma DoneLastTail(ms: seq<Message>, rest: seq<Message>)
    requires ms != [] && DoneLast(ms) && rest == ms[1..]
    ensures DoneLast(rest)
  {
    forall i, j | 0 <= i < j < |rest| && TrimSpace(DataOf([], rest[i])) == DONE_MARK
      ensures OnlyComments(rest[j])
    {
      assert rest[i] == ms[i + 1] && rest[j] == ms[j + 1];
    }
  }

  lemma DoneMeans(ms: seq<Message>, i: nat, j: nat)
    requires DoneLast(ms) && i < j < |ms| && TrimSpace(DataOf([], ms[i])) == DONE_MARK
    ensures OnlyComments(ms[j])
  {
  }

  /** The others after the first message, and what a first [DONE] means for the last one. */
  lemma DoneFirst(all: seq<Message>, m: Message, others: seq<Message>, last: Message)
    requires all == [m] + others + [last] && DoneLast(all)
    ensures DoneLast(others + [last])
    ensures TrimSpace(DataOf([], m)) == DONE_MARK ==> OnlyComments(last)
  {
    assert all[1..] == others + [last] && all[0] == m && all[|others| + 1] == last;
    DoneLastTail(all, others + [last]);
    if TrimSpace(DataOf([], m)) == DONE_MARK {
      DoneMeans(all, 0, |others| + 1);
    }
  }

  lemma FeedFirst(x: Context, d: Decoder, m: Message, others: seq<Message>)
    ensures Feed(x, d, PayloadsOf([m] + others)) == ThenFeed(x, Feed(x, d, PayloadsOf([m])), PayloadsOf(others))
  {
    PayloadsAppend([m], others);
    FeedAppend(x, d, PayloadsOf([m]), PayloadsOf(others));
  }

  lemma FirstDone(x: Context, d: Decoder, m: Message)
    requires Feed(x, d, PayloadsOf([m])).Go?
    ensures Feed(x, d, PayloadsOf([m])).value.done ==> d.done || TrimSpace(DataOf([], m)) == DONE_MARK
  {
    FeedMessage(x, d, m);
    if DataOf([], m) != [] {
      AcceptDone(x, d, TrimSpace(DataOf([], m)));
    }
  }

  lemma {:induction false} DoneIsLast(x: Context, d: Decoder, ms: seq<Message>, last: Message)
    requires DoneLast(ms + [last]) && (d.done ==> OnlyComments(last)) && Feed(x, d, PayloadsOf(ms)).Go?
    ensures Feed(x, d, PayloadsOf(ms)).value.done ==> OnlyComments(last)
    decreases |ms|
  {
    if ms != [] {
      var m, others := ms[0], ms[1..];
      assert ms == [m] + others;
      FeedFirst(x, d, m, others);
      FirstDone(x, d, m);
      DoneFirst(ms + [last], m, others, last);
      DoneIsLast(x, Feed(x, d, PayloadsOf([m])).value, others, last);
    }
  }

  /** The newline after the very last line may be missing. */
  lemma {:induction false} FinalNewlineIsOptional(x: Context, p: Parser, s: Bytes)
    requires s != [] && s[|s| - 1] != NEWLINE && s[|s| - 1] != RETURN
    ensures ConsumeText(x, p, s + [NEWLINE]) == ConsumeText(x, p, s)
    decreases |s|
  {
    var n := LineLength(s);
    LineOfLonger(s);
    if n < |s| && n <= MAX_LINE_BYTES && ConsumeLine(x, p, LineText(s)).Go? {
      assert AfterLine(s) != [] && AfterLine(s)[|AfterLine(s)| - 1] == s[|s| - 1];
      FinalNewlineIsOptional(x, ConsumeLine(x, p, LineText(s)).value, AfterLine(s));
    }
  }

  lemma LengthOfLonger(s: Bytes)
    ensures LineLength(s + [NEWLINE]) == LineLength(s)
  {
    var n := LineLength(s);
    NoNewlineBefore(s);
    LineLengthOf(s[..n], s[n..] + [NEWLINE]);
    Associative(s[..n], s[n..], [NEWLINE]);
    assert s[..n] + s[n..] == s;
  }

  lemma LineOfLonger(s: Bytes)
    requires s != [] && s[|s| - 1] != NEWLINE && s[|s| - 1] != RETURN
    ensures LineLength(s + [NEWLINE]) == LineLength(s) && LineText(s + [NEWLINE]) == LineText(s)
    ensures LineLength(s) < |s| ==> AfterLine(s + [NEWLINE]) == AfterLine(s) + [NEWLINE]
    ensures LineLength(s) == |s| ==> AfterLine(s + [NEWLINE]) == []
  {
    LengthOfLonger(s);
    LineTextOfLonger(s, s + [NEWLINE], LineLength(s));
    AfterLineOfLonger(s, s + [NEWLINE], LineLength(s));
  }

  lemma LineTextOfLonger(s: Bytes, longer: Bytes, n: nat)
    requires s != [] && s[|s| - 1] != RETURN && longer == s + [NEWLINE]
    requires n == LineLength(s) == LineLength(longer) && n <= |s|
    ensures LineText(longer) == LineText(s)
  {
    assert longer[..n] == s[..n];
    if n > 0 {
      assert longer[n - 1] == s[n - 1] && longer[..n - 1] == s[..n - 1];
    }
  }

  lemma AfterLineOfLonger(s: Bytes, longer: Bytes, n: nat)
    requires longer == s + [NEWLINE] && n == LineLength(s) == LineLength(longer) && n <= |s|
    ensures n < |s| ==> AfterLine(longer) == AfterLine(s) + [NEWLINE]
    ensures n == |s| ==> AfterLine(longer) == []
  {
    if n < |s| {
      assert longer[n + 1..] == s[n + 1..] + [NEWLINE];
    }
  }

  lemma {:induction false} NoNewlineBefore(s: Bytes)
    ensures NEWLINE !in s[..LineLength(s)]
  {
    if s != [] && s[0] != NEWLINE {
      NoNewlineBefore(s[1..]);
      assert s[..LineLength(s)] == [s[0]] + s[1..][..LineLength(s[1..])];
    }
  }
}

/**
 The interceptor that takes APC strings (`ESC _ ... ST`, ECMA-48 section 8.3.2, terminated by ST,
 section 8.3.143) out of a byte stream (`rust-core/src/kitty_graphics.rs:64-185`).
 */
module Apc {
  import opened Bytes

  const ESC: Byte := 0x1b
  const UNDERSCORE: Byte := 0x5f
  const BACKSLASH: Byte := 0x5c
  const C1_ST: Byte := 0x9c

  const MAX_APC_PAYLOAD: nat := 32 * 1024 * 1024

  datatype ApcStep = Pass(byte: Byte) | PassTwo(first: Byte, second: Byte) | Consume | Completed(payload: seq<Byte>)

  datatype ApcState = Ground | EscSeen | Collecting | CollectingEsc

  datatype Interceptor = Interceptor(state: ApcState, buf: seq<Byte>, truncated: bool)

  const NEW_INTERCEPTOR := Interceptor(Ground, [], false)

  function Finish(ic: Interceptor): (Interceptor, ApcStep) {
    (Interceptor(Ground, [], ic.truncated), Completed(if ic.truncated then [] else ic.buf))
  }

  function FeedEscSeen(ic: Interceptor, byte: Byte): (Interceptor, ApcStep) {
    if byte == UNDERSCORE then (Interceptor(Collecting, [], false), Consume)
    else if byte == ESC then (ic.(state := EscSeen), Pass(ESC))
    else (ic.(state := Ground), PassTwo(ESC, byte))
  }

  function FeedByte(ic: Interceptor, byte: Byte): (Interceptor, ApcStep) {
    match ic.state
    case Ground => if byte == ESC then (ic.(state := EscSeen), Consume) else (ic, Pass(byte))
    case EscSeen => FeedEscSeen(ic, byte)
    case Collecting =>
      if byte == ESC then (ic.(state := CollectingEsc), Consume)
      else if byte == C1_ST then Finish(ic)
      else if |ic.buf| < MAX_APC_PAYLOAD then (ic.(buf := ic.buf + [byte]), Consume)
      else (ic.(truncated := true), Consume)
    case CollectingEsc =>
      if byte == BACKSLASH then Finish(ic)
      else FeedEscSeen(Interceptor(EscSeen, [], false), byte)
  }

  /** The mutable interceptor. */
  class ApcInterceptor {
    var state: ApcState
    var buf: seq<Byte>
    var truncated: bool

    ghost function View(): Interceptor
      reads this
    {
      Interceptor(state, buf, truncated)
    }

    constructor ()
      ensures View() == NEW_INTERCEPTOR
    {
      state, buf, truncated := Ground, [], false;
    }

    method TakePayload() returns (step: ApcStep)
      modifies this
      ensures (View(), step) == Finish(old(View()))
    {
      state := Ground;
      if truncated {
        buf := [];
      }
      step := Completed(buf);
      buf := [];
    }

    method Feed(byte: Byte) returns (step: ApcStep)
      modifies this
      ensures (View(), step) == FeedByte(old(View()), byte)
      decreases if state == CollectingEsc then 1 else 0
    {
      match state {
        case Ground =>
          if byte != ESC {
            return Pass(byte);
          }
          state := EscSeen;
          return Consume;
        case EscSeen =>
          if byte == UNDERSCORE {
            state, buf, truncated := Collecting, [], false;
            return Consume;
          } else if byte == ESC {
            return Pass(ESC);
          }
          state := Ground;
          return PassTwo(ESC, byte);
        case Collecting =>
          if byte == ESC {
            state := CollectingEsc;
            return Consume;
          } else if byte == C1_ST {
            step := TakePayload();
            return;
          }
          if |buf| < MAX_APC_PAYLOAD {
            buf := buf + [byte];
          } else {
            truncated := true;
          }
          return Consume;
        case CollectingEsc =>
          if byte == BACKSLASH {
            step := TakePayload();
            return;
          }
          buf, truncated, state := [], false, EscSeen;
          step := Feed(byte);
      }
    }
  }

  // ---- Whole streams through the interceptor ----

  /** What leaves the interceptor, in order. */
  datatype Output = Through(byte: Byte) | Payload(payload: seq<Byte>)

  function OutputsOf(step: ApcStep): seq<Output> {
    match step
    case Pass(b) => [Through(b)]
    case PassTwo(a, b) => [Through(a), Through(b)]
    case Consume => []
    case Completed(p) => [Payload(p)]
  }

  function Run(ic: Interceptor, input: seq<Byte>): (Interceptor, seq<Output>)
    decreases |input|
  {
    if input == [] then (ic, [])
    else
      var (ic1, step) := FeedByte(ic, input[0]);
      var (ic2, outputs) := Run(ic1, input[1..]);
      (ic2, OutputsOf(step) + outputs)
  }

  // ---- A whole-stream parser ----

  datatype Segment =
    | Plain(byte: Byte)
    | Frame(body: seq<Byte>, c1: bool)   // a complete APC string and its terminator
    | Aborted(body: seq<Byte>)           // an APC string cut off by another escape sequence

  /** The unfinished end of a stream. */
  datatype Pending = Nothing | LoneEsc | OpenApc(body: seq<Byte>) | OpenApcEsc(body: seq<Byte>)

  datatype Parsed = Parsed(segments: seq<Segment>, pending: Pending)

  /** Length of the longest prefix without ESC and without ST. */
  function BodyLength(input: seq<Byte>): (n: nat)
    ensures n <= |input|
    ensures forall i :: 0 <= i < n ==> input[i] != ESC && input[i] != C1_ST
    ensures n < |input| ==> input[n] == ESC || input[n] == C1_ST
  {
    if input == [] || input[0] == ESC || input[0] == C1_ST then 0 else 1 + BodyLength(input[1..])
  }

  datatype Head = Cut(segment: Segment, rest: seq<Byte>) | Tail(pending: Pending)

  /** The head of a stream that begins with `ESC _`, given what follows. */
  function ApcHead(rest: seq<Byte>): Head {
    var n := BodyLength(rest);
    if n == |rest| then Tail(OpenApc(rest))
    else if rest[n] == C1_ST then Cut(Frame(rest[..n], true), rest[n + 1..])
    else if n + 1 == |rest| then Tail(OpenApcEsc(rest[..n]))
    else if rest[n + 1] == BACKSLASH then Cut(Frame(rest[..n], false), rest[n + 2..])
    else Cut(Aborted(rest[..n]), rest[n..])
  }

  /** Cut the first segment off a stream, looking ahead for the end of an APC string. */
  function HeadOf(input: seq<Byte>): (h: Head)
    ensures h.Cut? ==> |h.rest| < |input|
  {
    if input == [] then Tail(Nothing)
    else if input[0] != ESC then Cut(Plain(input[0]), input[1..])
    else if |input| == 1 then Tail(LoneEsc)
    else if input[1] != UNDERSCORE then Cut(Plain(ESC), input[1..])
    else ApcHead(input[2..])
  }

  function Parse(input: seq<Byte>): Parsed
    decreases |input|
  {
    match HeadOf(input)
    case Tail(pending) => Parsed([], pending)
    case Cut(segment, rest) => var p := Parse(rest); p.(segments := [segment] + p.segments)
  }

  /** The bytes a segment was cut from. */
  function Render(s: Segment): seq<Byte> {
    match s
    case Plain(b) => [b]
    case Frame(body, c1) => [ESC, UNDERSCORE] + body + (if c1 then [C1_ST] else [ESC, BACKSLASH])
    case Aborted(body) => [ESC, UNDERSCORE] + body
  }

  function RenderPending(p: Pending): seq<Byte> {
    match p
    case Nothing => []
    case LoneEsc => [ESC]
    case OpenApc(body) => [ESC, UNDERSCORE] + body
    case OpenApcEsc(body) => [ESC, UNDERSCORE] + body + [ESC]
  }

  function RenderAll(segments: seq<Segment>): seq<Byte> {
    if segments == [] then [] else Render(segments[0]) + RenderAll(segments[1..])
  }

  /** Bodies longer than the cap are delivered empty. */
  function Deliver(body: seq<Byte>): seq<Byte> {
    if |body| <= MAX_APC_PAYLOAD then body else []
  }

  function Emitted(s: Segment): seq<Output> {
    match s
    case Plain(b) => [Through(b)]
    case Frame(body, _) => [Payload(Deliver(body))]
    case Aborted(_) => []
  }

  function EmittedAll(segments: seq<Segment>): seq<Output> {
    if segments == [] then [] else Emitted(segments[0]) + EmittedAll(segments[1..])
  }

  /** The interceptor's state while `pending` is unfinished. */
  ghost predicate Holds(ic: Interceptor, pending: Pending) {
    match pending
    case Nothing => ic.state == Ground
    case LoneEsc => ic.state == EscSeen
    case OpenApc(body) => Holding(ic, Collecting, body)
    case OpenApcEsc(body) => Holding(ic, CollectingEsc, body)
  }

  ghost predicate Holding(ic: Interceptor, state: ApcState, body: seq<Byte>) {
    && ic.state == state
    && ic.truncated == (|body| > MAX_APC_PAYLOAD)
    && ic.buf == body[..if |body| <= MAX_APC_PAYLOAD then |body| else MAX_APC_PAYLOAD]
  }

  // ---- The input is the in-order merge of its segments and the pending end ----

  lemma RenderPrepend(s: Segment, segments: seq<Segment>)
    ensures RenderAll([s] + segments) == Render(s) + RenderAll(segments)
  {
    assert ([s] + segments)[1..] == segments;
  }

  lemma EmittedPrepend(s: Segment, segments: seq<Segment>)
    ensures EmittedAll([s] + segments) == Emitted(s) + EmittedAll(segments)
  {
    assert ([s] + segments)[1..] == segments;
  }

  lemma AppendAssociates<T>(a: seq<T>, b: seq<T>, c: seq<T>)
    ensures (a + b) + c == a + (b + c)
  {
  }

  /** A segment that is body and terminator, followed by the rest. */
  lemma BodyAndEnd(rest: seq<Byte>, n: nat, end: seq<Byte>)
    requires n + |end| <= |rest| && rest[n..n + |end|] == end
    ensures [ESC, UNDERSCORE] + rest[..n] + end + rest[n + |end|..] == [ESC, UNDERSCORE] + rest
  {
    assert rest == rest[..n] + end + rest[n + |end|..];
  }

  lemma {:induction false} ApcCutRenders(rest: seq<Byte>)
    requires ApcHead(rest).Cut?
    ensures Render(ApcHead(rest).segment) + ApcHead(rest).rest == [ESC, UNDERSCORE] + rest
  {
    var n := BodyLength(rest);
    match ApcHead(rest).segment {
      case Frame(_, true) => BodyAndEnd(rest, n, [C1_ST]);
      case Frame(_, false) => BodyAndEnd(rest, n, [ESC, BACKSLASH]);
      case Aborted(body) =>
        var none: seq<Byte> := [];
        BodyAndEnd(rest, n, none);
        assert [ESC, UNDERSCORE] + body + none == [ESC, UNDERSCORE] + body;
    }
  }

  lemma {:induction false} ApcTailRenders(rest: seq<Byte>)
    requires ApcHead(rest).Tail?
    ensures RenderPending(ApcHead(rest).pending) == [ESC, UNDERSCORE] + rest
  {
    var n := BodyLength(rest);
    if n < |rest| {
      assert rest == rest[..n] + [ESC];
    }
  }

  lemma HeadRenders(input: seq<Byte>)
    ensures match HeadOf(input)
            case Cut(s, rest) => Render(s) + rest == input
            case Tail(p) => RenderPending(p) == input
  {
    if |input| >= 2 && input[0] == ESC && input[1] == UNDERSCORE {
      assert input == [ESC, UNDERSCORE] + input[2..];
      if HeadOf(input).Cut? {
        ApcCutRenders(input[2..]);
      } else {
        ApcTailRenders(input[2..]);
      }
    }
  }

  /** Every input is the in-order merge of its segments and its pending end. */
  lemma {:induction false} ParseLosesNothing(input: seq<Byte>)
    ensures RenderAll(Parse(input).segments) + RenderPending(Parse(input).pending) == input
    decreases |input|
  {
    HeadRenders(input);
    match HeadOf(input) {
      case Tail(_) =>
      case Cut(s, rest) =>
        ParseLosesNothing(rest);
        var p := Parse(rest);
        RenderPrepend(s, p.segments);
        AppendAssociates(Render(s), RenderAll(p.segments), RenderPending(p.pending));
    }
  }

  // ---- The interceptor agrees with the parser ----

  lemma {:induction false} RunAppend(ic: Interceptor, a: seq<Byte>, b: seq<Byte>)
    ensures var (ic1, out1) := Run(ic, a);
            var (ic2, out2) := Run(ic1, b);
            Run(ic, a + b) == (ic2, out1 + out2)
    decreases |a|
  {
    if a == [] {
      assert a + b == b;
      var outputs := Run(ic, b).1;
      assert [] + outputs == outputs;
    } else {
      var (ic1, step) := FeedByte(ic, a[0]);
      assert (a + b)[1..] == a[1..] + b;
      RunAppend(ic1, a[1..], b);
      var mid := Run(ic1, a[1..]);
      AppendAssociates(OutputsOf(step), mid.1, Run(mid.0, b).1);
    }
  }

  lemma RunOne(ic: Interceptor, byte: Byte)
    ensures Run(ic, [byte]) == (FeedByte(ic, byte).0, OutputsOf(FeedByte(ic, byte).1))
  {
    assert [byte][1..] == [];
    var outputs := OutputsOf(FeedByte(ic, byte).1);
    assert outputs + [] == outputs;
  }

  lemma RunTwo(ic: Interceptor, a: Byte, b: Byte)
    ensures var (ic1, s1) := FeedByte(ic, a);
            var (ic2, s2) := FeedByte(ic1, b);
            Run(ic, [a, b]) == (ic2, OutputsOf(s1) + OutputsOf(s2))
  {
    RunOne(ic, a);
    RunOne(FeedByte(ic, a).0, b);
    RunAppend(ic, [a], [b]);
    assert [a] + [b] == [a, b];
  }

  /** Collecting a body: nothing leaves, and the buffer is the body up to the cap. */
  lemma {:induction false} CollectBody(ic: Interceptor, body: seq<Byte>)
    requires Holding(ic, Collecting, [])
    requires forall i :: 0 <= i < |body| ==> body[i] != ESC && body[i] != C1_ST
    ensures Holding(Run(ic, body).0, Collecting, body) && Run(ic, body).1 == []
    decreases |body|
  {
    if body != [] {
      var n := |body| - 1;
      CollectBody(ic, body[..n]);
      assert body == body[..n] + [body[n]];
      RunAppend(ic, body[..n], [body[n]]);
      RunOne(Run(ic, body[..n]).0, body[n]);
      assert n < MAX_APC_PAYLOAD ==> body[..n] + [body[n]] == body;
    }
  }

  /** `ESC _` and a body, from the ground state. */
  lemma OpenBody(ic: Interceptor, body: seq<Byte>)
    requires ic.state == Ground
    requires forall i :: 0 <= i < |body| ==> body[i] != ESC && body[i] != C1_ST
    ensures Holding(Run(ic, [ESC, UNDERSCORE] + body).0, Collecting, body) && Run(ic, [ESC, UNDERSCORE] + body).1 == []
  {
    RunTwo(ic, ESC, UNDERSCORE);
    RunAppend(ic, [ESC, UNDERSCORE], body);
    CollectBody(Run(ic, [ESC, UNDERSCORE]).0, body);
  }

  lemma CloseBody(ic: Interceptor, body: seq<Byte>, c1: bool)
    requires Holding(ic, Collecting, body)
    ensures var r := Run(ic, if c1 then [C1_ST] else [ESC, BACKSLASH]);
            r.0.state == Ground && r.1 == [Payload(Deliver(body))]
  {
    assert body[..|body|] == body;
    RunOne(ic, C1_ST);
    RunTwo(ic, ESC, BACKSLASH);
    assert [] + [Payload(Deliver(body))] == [Payload(Deliver(body))];
  }

  lemma FrameThrough(ic: Interceptor, body: seq<Byte>, c1: bool)
    requires ic.state == Ground
    requires forall i :: 0 <= i < |body| ==> body[i] != ESC && body[i] != C1_ST
    ensures var r := Run(ic, Render(Frame(body, c1))); r.0.state == Ground && r.1 == [Payload(Deliver(body))]
  {
    var end := if c1 then [C1_ST] else [ESC, BACKSLASH];
    OpenBody(ic, body);
    var mid := Run(ic, [ESC, UNDERSCORE] + body).0;
    CloseBody(mid, body, c1);
    RunAppend(ic, [ESC, UNDERSCORE] + body, end);
    assert Run(ic, [ESC, UNDERSCORE] + body).1 + Run(mid, end).1 == Run(mid, end).1;
  }

  /** After an abort the interceptor continues exactly as if the ESC had come in the ground state. */
  lemma AbortContinues(ic: Interceptor, body: seq<Byte>, next: Byte, after: seq<Byte>)
    requires ic.state == Ground && next != BACKSLASH
    requires forall i :: 0 <= i < |body| ==> body[i] != ESC && body[i] != C1_ST
    ensures Run(ic, Render(Aborted(body)) + ([ESC, next] + after)) == Run(NEW_INTERCEPTOR, [ESC, next] + after)
  {
    OpenBody(ic, body);
    var open := Render(Aborted(body));
    var mid := Run(ic, open).0;
    RunAppend(ic, open, [ESC, next] + after);
    RunTwo(mid, ESC, next);
    RunTwo(NEW_INTERCEPTOR, ESC, next);
    assert Run(mid, [ESC, next]) == Run(NEW_INTERCEPTOR, [ESC, next]);
    RunAppend(mid, [ESC, next], after);
    RunAppend(NEW_INTERCEPTOR, [ESC, next], after);
    var r := Run(mid, [ESC, next] + after);
    assert [] + r.1 == r.1;
  }

  /** A plain byte, and an ESC that does not open an APC string, go through. */
  lemma PlainContinues(ic: Interceptor, byte: Byte, rest: seq<Byte>)
    requires ic.state == Ground && (byte == ESC ==> rest != [] && rest[0] != UNDERSCORE)
    ensures Run(ic, [byte] + rest) == (Run(ic, rest).0, [Through(byte)] + Run(ic, rest).1)
  {
    if byte != ESC {
      RunOne(ic, byte);
      RunAppend(ic, [byte], rest);
    } else {
      EscContinues(ic, rest[0], rest[1..]);
      assert rest == [rest[0]] + rest[1..] && [ESC] + rest == [ESC, rest[0]] + rest[1..];
    }
  }

  lemma EscContinues(ic: Interceptor, next: Byte, after: seq<Byte>)
    requires ic.state == Ground && next != UNDERSCORE
    ensures Run(ic, [ESC, next] + after) == (Run(ic, [next] + after).0, [Through(ESC)] + Run(ic, [next] + after).1)
  {
    RunTwo(ic, ESC, next);
    RunOne(ic, next);
    var (ic1, out1) := Run(ic, [next]);
    assert [] + [Through(ESC)] == [Through(ESC)] + [];
    assert [] + [Through(ESC), Through(next)] == [Through(ESC)] + [Through(next)];
    assert Run(ic, [ESC, next]) == (ic1, [Through(ESC)] + out1);
    RunAppend(ic, [ESC, next], after);
    RunAppend(ic, [next], after);
    AppendAssociates([Through(ESC)], out1, Run(ic1, after).1);
  }

  lemma TailHolds(ic: Interceptor, input: seq<Byte>)
    requires ic.state == Ground && HeadOf(input).Tail?
    ensures Holds(Run(ic, input).0, HeadOf(input).pending) && Run(ic, input).1 == []
  {
    HeadRenders(input);
    match HeadOf(input).pending {
      case Nothing =>
      case LoneEsc => RunOne(ic, ESC);
      case OpenApc(body) => OpenBody(ic, body);
      case OpenApcEsc(body) =>
        OpenBody(ic, body);
        RunAppend(ic, [ESC, UNDERSCORE] + body, [ESC]);
        RunOne(Run(ic, [ESC, UNDERSCORE] + body).0, ESC);
    }
  }

  /**
   For every byte stream the interceptor, fed byte by byte, emits exactly what the whole-stream
   parser finds, in the same order, and ends up holding exactly the pending end of the stream.
   */
  lemma {:induction false} InterceptorAgreesWithParser(ic: Interceptor, input: seq<Byte>)
    requires ic.state == Ground
    ensures Run(ic, input).1 == EmittedAll(Parse(input).segments)
    ensures Holds(Run(ic, input).0, Parse(input).pending)
    decreases |input|
  {
    HeadRenders(input);
    match HeadOf(input) {
      case Tail(_) => TailHolds(ic, input);
      case Cut(s, rest) =>
        EmittedPrepend(s, Parse(rest).segments);
        SegmentAgrees(ic, input, s, rest);
    }
  }

  lemma {:induction false} SegmentAgrees(ic: Interceptor, input: seq<Byte>, s: Segment, rest: seq<Byte>)
    requires ic.state == Ground && HeadOf(input) == Cut(s, rest) && Render(s) + rest == input
    ensures Run(ic, input).1 == Emitted(s) + EmittedAll(Parse(rest).segments)
    ensures Holds(Run(ic, input).0, Parse(rest).pending)
    decreases |input|, 1
  {
    match s {
      case Plain(b) =>
        PlainContinues(ic, b, rest);
        InterceptorAgreesWithParser(ic, rest);
      case Frame(body, c1) =>
        FrameContinues(ic, body, c1, rest);
        InterceptorAgreesWithParser(Run(ic, Render(s)).0, rest);
      case Aborted(body) => AbortedAgrees(ic, input, body, rest);
    }
  }

  lemma {:induction false} FrameContinues(ic: Interceptor, body: seq<Byte>, c1: bool, rest: seq<Byte>)
    requires ic.state == Ground && forall i :: 0 <= i < |body| ==> body[i] != ESC && body[i] != C1_ST
    ensures var s := Frame(body, c1);
            var ic1 := Run(ic, Render(s)).0;
            && ic1.state == Ground
            && Run(ic, Render(s) + rest) == (Run(ic1, rest).0, Emitted(s) + Run(ic1, rest).1)
  {
    FrameThrough(ic, body, c1);
    RunAppend(ic, Render(Frame(body, c1)), rest);
  }

  lemma {:induction false} AbortedAgrees(ic: Interceptor, input: seq<Byte>, body: seq<Byte>, rest: seq<Byte>)
    requires ic.state == Ground && HeadOf(input) == Cut(Aborted(body), rest) && Render(Aborted(body)) + rest == input
    ensures Run(ic, input).1 == Emitted(Aborted(body)) + EmittedAll(Parse(rest).segments)
    ensures Holds(Run(ic, input).0, Parse(rest).pending)
    decreases |input|, 0
  {
    assert rest == [ESC, rest[1]] + rest[2..];
    AbortContinues(ic, body, rest[1], rest[2..]);
    InterceptorAgreesWithParser(NEW_INTERCEPTOR, rest);
    assert [] + EmittedAll(Parse(rest).segments) == EmittedAll(Parse(rest).segments);
  }

  // ---- Transparency and round trip ----

  function ThroughAll(bytes: seq<Byte>): seq<Output> {
    seq(|bytes|, i requires 0 <= i < |bytes| => Through(bytes[i]))
  }

  ghost predicate OpensNoApc(input: seq<Byte>) {
    forall i :: 0 <= i < |input| - 1 ==> !(input[i] == ESC && input[i + 1] == UNDERSCORE)
  }

  predicate EndsWithEsc(input: seq<Byte>) {
    input != [] && input[|input| - 1] == ESC
  }

  /** All but a final ESC. */
  function WithoutFinalEsc(input: seq<Byte>): seq<Byte> {
    if EndsWithEsc(input) then input[..|input| - 1] else input
  }

  lemma ThroughFirst(b: Byte, rest: seq<Byte>)
    requires b != ESC || rest != []
    ensures ThroughAll(WithoutFinalEsc([b] + rest)) == [Through(b)] + ThroughAll(WithoutFinalEsc(rest))
    ensures EndsWithEsc([b] + rest) <==> EndsWithEsc(rest)
  {
    assert WithoutFinalEsc([b] + rest) == [b] + WithoutFinalEsc(rest);
  }

  /** A stream without `ESC _` passes byte for byte, except that a final ESC is still held back. */
  lemma {:induction false} StreamWithoutApcPasses(ic: Interceptor, input: seq<Byte>)
    requires ic.state == Ground && OpensNoApc(input)
    ensures Run(ic, input).1 == ThroughAll(WithoutFinalEsc(input))
    ensures Run(ic, input).0.state == if EndsWithEsc(input) then EscSeen else Ground
    decreases |input|
  {
    if input == [ESC] {
      RunOne(ic, ESC);
    } else if input != [] {
      var b, rest := input[0], input[1..];
      assert input == [b] + rest;
      assert rest != [] ==> rest[0] == input[1];
      PlainContinues(ic, b, rest);
      StreamWithoutApcPasses(ic, rest);
      ThroughFirst(b, rest);
    }
  }

  /** A terminal stream as its author meant it. */
  datatype Item = Text(bytes: seq<Byte>) | Graphic(payload: seq<Byte>)

  ghost predicate Encodable(item: Item) {
    match item
    case Text(bytes) => OpensNoApc(bytes) && !EndsWithEsc(bytes)
    case Graphic(payload) =>
      |payload| <= MAX_APC_PAYLOAD && forall i :: 0 <= i < |payload| ==> payload[i] != ESC && payload[i] != C1_ST
  }

  function Encode(items: seq<Item>): seq<Byte> {
    if items == [] then []
    else (match items[0]
          case Text(bytes) => bytes
          case Graphic(payload) => Render(Frame(payload, false))) + Encode(items[1..])
  }

  function Meaning(items: seq<Item>): seq<Output> {
    if items == [] then []
    else (match items[0]
          case Text(bytes) => ThroughAll(bytes)
          case Graphic(payload) => [Payload(payload)]) + Meaning(items[1..])
  }

  /** Interleaved text and graphics come back exactly, in order, with nothing left pending. */
  lemma {:induction false} EncodedStreamComesBack(ic: Interceptor, items: seq<Item>)
    requires ic.state == Ground && forall i :: 0 <= i < |items| ==> Encodable(items[i])
    ensures Run(ic, Encode(items)).1 == Meaning(items) && Run(ic, Encode(items)).0.state == Ground
    decreases |items|
  {
    if items != [] {
      var first := match items[0]
                   case Text(bytes) => bytes
                   case Graphic(payload) => Render(Frame(payload, false));
      assert Encodable(items[0]);
      match items[0] {
        case Text(bytes) => StreamWithoutApcPasses(ic, bytes);
        case Graphic(payload) => FrameThrough(ic, payload, false);
      }
      RunAppend(ic, first, Encode(items[1..]));
      EncodedStreamComesBack(Run(ic, first).0, items[1..]);
    }
  }
}

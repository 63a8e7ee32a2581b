/**
 SSH agent forwarding: the string encoding of section 5 of RFC 4251, the messages and the frame
 loop (`rust-core/src/agent_forward.rs:28-213`).

 Signing is a parameter, and so is the user's answer to each confirmation. Writes succeed.
 */
module AgentForward {
  import opened Wrappers
  import opened Bytes

  const SSH_AGENT_FAILURE: Byte := 5
  const SSH_AGENTC_REQUEST_IDENTITIES: Byte := 11
  const SSH_AGENT_IDENTITIES_ANSWER: Byte := 12
  const SSH_AGENTC_SIGN_REQUEST: Byte := 13
  const SSH_AGENT_SIGN_RESPONSE: Byte := 14
  const MAX_FRAME_LEN: nat := 256 * 1024
  const U32_RANGE: nat := 0x1_0000_0000

  // ---- Numbers and strings ----

  function Pow256(n: nat): nat {
    if n == 0 then 1 else 256 * Pow256(n - 1)
  }

  /** The number that bytes denote, most significant first. */
  function FromBeBytes(b: seq<Byte>): nat {
    if b == [] then 0 else FromBeBytes(b[..|b| - 1]) * 256 + b[|b| - 1] as nat
  }

  /** The `n` low bytes of a number, most significant first. */
  function ToBeBytes(v: nat, n: nat): (b: seq<Byte>)
    ensures |b| == n
  {
    if n == 0 then [] else ToBeBytes(v / 256, n - 1) + [(v % 256) as Byte]
  }

  /** What writing a 32-bit number appends. */
  function U32Bytes(v: nat): (b: seq<Byte>)
    ensures |b| == 4
  {
    ToBeBytes(v, 4)
  }

  predicate BeginsWith(buf: seq<Byte>, piece: seq<Byte>) {
    |piece| <= |buf| && buf[..|piece|] == piece
  }

  /** What writing a string appends; the length is cut to 32 bits. */
  function Str(s: seq<Byte>): (out: seq<Byte>)
    ensures |out| == 4 + |s|
  {
    U32Bytes(|s| % U32_RANGE) + s
  }

  function U32At(buf: seq<Byte>, pos: nat): Option<nat> {
    if pos + 4 <= |buf| then Some(FromBeBytes(buf[pos..pos + 4])) else None
  }

  function StringAt(buf: seq<Byte>, pos: nat): Option<seq<Byte>> {
    var len := U32At(buf, pos);
    if len.None? || pos + 4 + len.value > |buf| then None else Some(buf[pos + 4..pos + 4 + len.value])
  }

  /** Reads a number and advances the cursor past it. */
  method ReadU32(buf: seq<Byte>, pos: nat) returns (v: Option<nat>, next: nat)
    ensures v == U32At(buf, pos)
    ensures next == if v.Some? then pos + 4 else pos
  {
    if pos + 4 > |buf| {
      return None, pos;
    }
    return Some(FromBeBytes(buf[pos..pos + 4])), pos + 4;
  }

  /** Reads a string and advances the cursor past it. */
  method ReadString(buf: seq<Byte>, pos: nat) returns (s: Option<seq<Byte>>, next: nat)
    ensures s == StringAt(buf, pos)
    ensures s.Some? ==> next == pos + 4 + |s.value| <= |buf|
  {
    var len, start := ReadU32(buf, pos);
    if len.None? || start + len.value > |buf| {
      return None, start;
    }
    return Some(buf[start..start + len.value]), start + len.value;
  }

  datatype SignRequest = SignRequest(keyBlob: seq<Byte>, data: seq<Byte>)

  function SignRequestIn(payload: seq<Byte>): Option<SignRequest> {
    var keyBlob := StringAt(payload, 0);
    if keyBlob.None? then None
    else
      var data := StringAt(payload, 4 + |keyBlob.value|);
      if data.None? then None else Some(SignRequest(keyBlob.value, data.value))
  }

  method ParseSignRequest(payload: seq<Byte>) returns (request: Option<SignRequest>)
    ensures request == SignRequestIn(payload)
  {
    var keyBlob, pos := ReadString(payload, 0);
    if keyBlob.None? {
      return None;
    }
    var data, end := ReadString(payload, pos);
    if data.None? {
      return None;
    }
    request := Some(SignRequest(keyBlob.value, data.value));
  }

  // ---- Messages ----

  /** The forwarded key: its public blob, and the encoded signature of some data if signing succeeds. */
  datatype PrivateKey = PrivateKey(publicBytes: seq<Byte>, sign: seq<Byte> -> Option<seq<Byte>>)

  function IdentitiesAnswer(key: Option<PrivateKey>): seq<Byte> {
    [SSH_AGENT_IDENTITIES_ANSWER] +
    if key.Some? then U32Bytes(1) + Str(key.value.publicBytes) + Str([]) else U32Bytes(0)
  }

  /** The answer, appended piece by piece. */
  method BuildIdentitiesAnswer(key: Option<PrivateKey>) returns (out: seq<Byte>)
    ensures out == IdentitiesAnswer(key)
  {
    out := [SSH_AGENT_IDENTITIES_ANSWER];
    if key.Some? {
      out := out + U32Bytes(1);
      out := out + Str(key.value.publicBytes);
      out := out + Str([]);
    } else {
      out := out + U32Bytes(0);
    }
  }

  function HandleSignRequest(key: Option<PrivateKey>, rest: seq<Byte>, approved: bool): seq<Byte> {
    var request := SignRequestIn(rest);
    if key.None? || request.None? || request.value.keyBlob != key.value.publicBytes || !approved
    then [SSH_AGENT_FAILURE]
    else
      var signature := key.value.sign(request.value.data);
      if signature.None? then [SSH_AGENT_FAILURE] else [SSH_AGENT_SIGN_RESPONSE] + Str(signature.value)
  }

  function HandleMessage(key: Option<PrivateKey>, payload: seq<Byte>, approved: bool): seq<Byte> {
    if payload != [] && payload[0] == SSH_AGENTC_REQUEST_IDENTITIES then IdentitiesAnswer(key)
    else if payload != [] && payload[0] == SSH_AGENTC_SIGN_REQUEST then HandleSignRequest(key, payload[1..], approved)
    else [SSH_AGENT_FAILURE]
  }

  // ---- Frame loop ----

  /** `handle(n, payload)` is the response to the payload of frame `n`. */
  type Handler = (nat, seq<Byte>) -> seq<Byte>

  /** The length of the complete valid frame that comes first. */
  function FrameLength(input: seq<Byte>): (r: Option<nat>)
    ensures r.Some? ==> 4 + r.value <= |input|
  {
    if |input| < 4 then None
    else
      var len := FromBeBytes(input[..4]);
      if len == 0 || len > MAX_FRAME_LEN || 4 + len > |input| then None else Some(len)
  }

  /** The bytes written while reading the frames of `input`, of which the first is number `n`. */
  function Serve(handle: Handler, input: seq<Byte>, n: nat): seq<Byte>
    decreases |input|
  {
    var len := FrameLength(input);
    if len.None? then []
    else Str(handle(n, input[4..4 + len.value])) + Serve(handle, input[4 + len.value..], n + 1)
  }

  /** One turn of the loop at a position of the input. */
  lemma {:induction false} ServeAt(handle: Handler, input: seq<Byte>, pos: nat, n: nat)
    requires pos <= |input|
    ensures pos + 4 > |input| ==> Serve(handle, input[pos..], n) == []
    ensures pos + 4 <= |input| ==>
              var len := FromBeBytes(input[pos..pos + 4]);
              if len == 0 || len > MAX_FRAME_LEN || pos + 4 + len > |input| then Serve(handle, input[pos..], n) == []
              else Serve(handle, input[pos..], n)
                   == Str(handle(n, input[pos + 4..pos + 4 + len])) + Serve(handle, input[pos + 4 + len..], n + 1)
  {
    var left := input[pos..];
    if pos + 4 <= |input| {
      assert left[..4] == input[pos..pos + 4];
      var len := FromBeBytes(left[..4]);
      if pos + 4 + len <= |input| {
        assert left[4..4 + len] == input[pos + 4..pos + 4 + len] && left[4 + len..] == input[pos + 4 + len..];
      }
    }
  }

  lemma AppendAssociates(a: seq<Byte>, b: seq<Byte>, c: seq<Byte>)
    ensures a + (b + c) == a + b + c
  {
  }

  method ServeAgentStream(handle: Handler, input: seq<Byte>) returns (out: seq<Byte>)
    ensures out == Serve(handle, input, 0)
  {
    out := [];
    var pos, n: nat := 0, 0;
    assert input[0..] == input;
    while true
      invariant pos <= |input|
      invariant out + Serve(handle, input[pos..], n) == Serve(handle, input, 0)
      decreases |input| - pos
    {
      ServeAt(handle, input, pos, n);
      if pos + 4 > |input| {
        return;
      }
      var len := FromBeBytes(input[pos..pos + 4]);
      if len == 0 || len > MAX_FRAME_LEN {
        return;
      }
      if pos + 4 + len > |input| {
        return;
      }
      var response := handle(n, input[pos + 4..pos + 4 + len]);
      var frame := U32Bytes(|response| % U32_RANGE);
      frame := frame + response;
      AppendAssociates(out, frame, Serve(handle, input[pos + 4 + len..], n + 1));
      out := out + frame;
      pos, n := pos + 4 + len, n + 1;
    }
  }

  // ---- Strings: reading undoes writing ----

  lemma {:induction false} BeBytesRoundTrip(v: nat, n: nat)
    requires v < Pow256(n)
    ensures FromBeBytes(ToBeBytes(v, n)) == v
    decreases n
  {
    if n > 0 {
      BeBytesRoundTrip(v / 256, n - 1);
      var b := ToBeBytes(v, n);
      assert b[..n - 1] == ToBeBytes(v / 256, n - 1);
    }
  }

  lemma {:induction false} BeBytesInverse(b: seq<Byte>)
    ensures ToBeBytes(FromBeBytes(b), |b|) == b && FromBeBytes(b) < Pow256(|b|)
    decreases |b|
  {
    if b != [] {
      BeBytesInverse(b[..|b| - 1]);
      assert FromBeBytes(b) / 256 == FromBeBytes(b[..|b| - 1]);
      assert b == b[..|b| - 1] + [b[|b| - 1]];
    }
  }

  lemma FourBytes()
    ensures Pow256(4) == U32_RANGE
  {
    assert Pow256(2) == 0x1_0000;
  }

  /** Numbers of 32 bits and four bytes correspond. */
  lemma U32BytesAre(b: seq<Byte>, v: nat)
    requires |b| == 4 && v < U32_RANGE
    ensures FromBeBytes(b) < U32_RANGE
    ensures b == U32Bytes(v) <==> FromBeBytes(b) == v
  {
    FourBytes();
    BeBytesInverse(b);
    BeBytesRoundTrip(v, 4);
  }

  /** A string is read at a position exactly when it was written there, with a 32-bit length. */
  lemma StringAtIffWritten(head: seq<Byte>, buf: seq<Byte>, s: seq<Byte>)
    ensures StringAt(head + buf, |head|) == Some(s) <==> |s| < U32_RANGE && BeginsWith(buf, Str(s))
  {
    var whole, pos := head + buf, |head|;
    if |buf| >= 4 {
      assert whole[pos..pos + 4] == buf[..4];
      var len := FromBeBytes(buf[..4]);
      if 4 + |s| <= |buf| {
        assert whole[pos + 4..pos + 4 + |s|] == buf[4..4 + |s|];
      }
      U32BytesAre(buf[..4], 0);
      if |s| < U32_RANGE {
        U32BytesAre(buf[..4], |s|);
        StrIsPrefix(s, buf);
      }
    }
  }

  lemma StrIsPrefix(s: seq<Byte>, buf: seq<Byte>)
    requires |s| < U32_RANGE
    ensures BeginsWith(buf, Str(s)) <==> 4 + |s| <= |buf| && buf[..4] == U32Bytes(|s|) && buf[4..4 + |s|] == s
  {
    AppendIsPrefix(U32Bytes(|s|), s, buf);
  }

  /** Two pieces come first exactly when one does and the other follows. */
  lemma AppendIsPrefix(a: seq<Byte>, b: seq<Byte>, buf: seq<Byte>)
    ensures BeginsWith(buf, a + b) <==> |a| + |b| <= |buf| && buf[..|a|] == a && buf[|a|..|a| + |b|] == b
    ensures BeginsWith(buf, a + b) <==> BeginsWith(buf, a) && BeginsWith(buf[|a|..], b)
  {
    if |a| + |b| <= |buf| {
      assert buf[..|a| + |b|] == buf[..|a|] + buf[|a|..|a| + |b|];
      assert buf[|a|..][..|b|] == buf[|a|..|a| + |b|];
      if BeginsWith(buf, a + b) {
        assert (a + b)[..|a|] == a && (a + b)[|a|..] == b;
      }
    }
  }

  /** A sign request parses to a blob and data exactly when it starts with the two as written strings. */
  lemma SignRequestParsesIff(payload: seq<Byte>, a: seq<Byte>, b: seq<Byte>)
    ensures SignRequestIn(payload) == Some(SignRequest(a, b))
       <==> |a| < U32_RANGE && |b| < U32_RANGE && BeginsWith(payload, Str(a) + Str(b))
  {
    var none: seq<Byte> := [];
    StringAtIffWritten(none, payload, a);
    assert none + payload == payload;
    AppendIsPrefix(Str(a), Str(b), payload);
    if BeginsWith(payload, Str(a)) {
      var head, tail := payload[..4 + |a|], payload[4 + |a|..];
      StringAtIffWritten(head, tail, b);
      assert head + tail == payload;
    }
  }

  /** Two written strings and any tail read back, if and only if their lengths fit 32 bits. */
  lemma WrittenStringsReadBackIff(a: seq<Byte>, b: seq<Byte>, tail: seq<Byte>)
    ensures SignRequestIn(Str(a) + Str(b) + tail) == Some(SignRequest(a, b)) <==> |a| < U32_RANGE && |b| < U32_RANGE
  {
    SignRequestParsesIff(Str(a) + Str(b) + tail, a, b);
  }

  /** Every input that ends inside the two strings is rejected. */
  lemma TruncatedRequestIsRejected(a: seq<Byte>, b: seq<Byte>, k: nat)
    requires |a| < U32_RANGE && |b| < U32_RANGE && k < |Str(a) + Str(b)|
    ensures SignRequestIn((Str(a) + Str(b))[..k]) == None
  {
    var whole := Str(a) + Str(b);
    var cut := SignRequestIn(whole[..k]);
    if cut.Some? {
      var c, d := cut.value.keyBlob, cut.value.data;
      SignRequestParsesIff(whole[..k], c, d);
      assert BeginsWith(whole, Str(c) + Str(d));
      SignRequestParsesIff(whole, c, d);
      SignRequestParsesIff(whole, a, b);
    }
  }

  // ---- Messages: what they mean to the peer ----

  /** The peer reads exactly the forwarded key's blob, or no key. */
  lemma IdentitiesAnswerReadsBack(key: Option<PrivateKey>)
    requires key.Some? ==> |key.value.publicBytes| < U32_RANGE
    ensures var answer := IdentitiesAnswer(key);
            && answer[0] == SSH_AGENT_IDENTITIES_ANSWER
            && U32At(answer, 1) == Some(if key.Some? then 1 else 0)
            && (key.Some? ==> SignRequestIn(answer[5..]) == Some(SignRequest(key.value.publicBytes, [])))
            && (key.None? ==> |answer| == 5)
  {
    var answer := IdentitiesAnswer(key);
    var count := if key.Some? then 1 else 0;
    assert answer[1..5] == U32Bytes(count);
    U32BytesAre(answer[1..5], count);
    if key.Some? {
      var blob := key.value.publicBytes;
      var none: seq<Byte> := [];
      WrittenStringsReadBackIff(blob, none, none);
      assert answer[5..] == Str(blob) + Str(none) + none;
    }
  }

  /** A peer reads the answer as listing exactly the forwarded key, or no key. */
  predicate ListsKey(answer: seq<Byte>, key: Option<PrivateKey>) {
    && answer != [] && answer[0] == SSH_AGENT_IDENTITIES_ANSWER
    && U32At(answer, 1) == Some(if key.Some? then 1 else 0)
    && (key.Some? ==> |answer| >= 5 && SignRequestIn(answer[5..]) == Some(SignRequest(key.value.publicBytes, [])))
    && (key.None? ==> |answer| == 5)
  }

  /**
   A request for identities is answered with the forwarded key, approved or not; anything that is
   neither that nor a request to sign is answered with a failure.
   */
  lemma IdentitiesAreListed(key: Option<PrivateKey>, payload: seq<Byte>, approved: bool)
    requires key.Some? ==> |key.value.publicBytes| < U32_RANGE
    ensures payload != [] && payload[0] == SSH_AGENTC_REQUEST_IDENTITIES ==>
              ListsKey(HandleMessage(key, payload, approved), key)
    ensures payload == [] || (payload[0] != SSH_AGENTC_REQUEST_IDENTITIES && payload[0] != SSH_AGENTC_SIGN_REQUEST) ==>
              HandleMessage(key, payload, approved) == [SSH_AGENT_FAILURE]
  {
    IdentitiesAnswerReadsBack(key);
  }

  /** Every response to a request to sign is a signature or a failure. */
  lemma SignRequestIsSignedOrRefused(key: Option<PrivateKey>, payload: seq<Byte>, approved: bool)
    requires payload != [] && payload[0] == SSH_AGENTC_SIGN_REQUEST
    ensures var response := HandleMessage(key, payload, approved);
            || response == [SSH_AGENT_FAILURE]
            || exists signature :: response == [SSH_AGENT_SIGN_RESPONSE] + Str(signature)
  {
  }

  /** The message asks for a signature of `data` by the key. */
  predicate AsksToSign(key: Option<PrivateKey>, payload: seq<Byte>, data: seq<Byte>) {
    && key.Some? && |key.value.publicBytes| < U32_RANGE && |data| < U32_RANGE
    && BeginsWith(payload, [SSH_AGENTC_SIGN_REQUEST] + (Str(key.value.publicBytes) + Str(data)))
  }

  /**
   The response is a signature if and only if the message asks for one by this very key, the user
   approved it and signing succeeded; then it holds the signature of the data in the message.
   */
  lemma SignsIffAskedAndApproved(key: Option<PrivateKey>, payload: seq<Byte>, approved: bool, signature: seq<Byte>)
    ensures HandleMessage(key, payload, approved) == [SSH_AGENT_SIGN_RESPONSE] + Str(signature) <==>
            approved && exists data :: AsksToSign(key, payload, data) && key.value.sign(data) == Some(signature)
  {
    var response := HandleMessage(key, payload, approved);
    if response == [SSH_AGENT_SIGN_RESPONSE] + Str(signature) {
      assert response[0] == SSH_AGENT_SIGN_RESPONSE;
      var request := SignRequestIn(payload[1..]).value;
      SignRequestParsesIff(payload[1..], request.keyBlob, request.data);
      AskedMeansParsed(key, payload, request.data);
      assert AsksToSign(key, payload, request.data);
      assert Str(key.value.sign(request.data).value) == response[1..] == Str(signature);
      StrIsInjective(key.value.sign(request.data).value, signature);
    }
    if data :| approved && AsksToSign(key, payload, data) && key.value.sign(data) == Some(signature) {
      SignRequestParsesIff(payload[1..], key.value.publicBytes, data);
      AskedMeansParsed(key, payload, data);
    }
  }

  lemma StrIsInjective(a: seq<Byte>, b: seq<Byte>)
    requires Str(a) == Str(b)
    ensures a == b
  {
    assert Str(a)[4..] == a && Str(b)[4..] == b;
  }

  lemma AskedMeansParsed(key: Option<PrivateKey>, payload: seq<Byte>, data: seq<Byte>)
    requires key.Some? && |key.value.publicBytes| < U32_RANGE && |data| < U32_RANGE
    ensures AsksToSign(key, payload, data)
       <==> (payload != [] && payload[0] == SSH_AGENTC_SIGN_REQUEST
             && BeginsWith(payload[1..], Str(key.value.publicBytes) + Str(data)))
  {
    var body := Str(key.value.publicBytes) + Str(data);
    var whole := [SSH_AGENTC_SIGN_REQUEST] + body;
    if BeginsWith(payload, whole) {
      assert payload[0] == whole[0];
      assert payload[1..][..|body|] == payload[1..1 + |body|] == whole[1..] == body;
    }
    if payload != [] && payload[0] == SSH_AGENTC_SIGN_REQUEST && BeginsWith(payload[1..], body) {
      assert payload == [SSH_AGENTC_SIGN_REQUEST] + payload[1..];
      assert payload[..1 + |body|] == whole;
    }
  }

  // ---- The stream: frames in, responses out ----

  predicate ValidFrame(frame: seq<Byte>) {
    0 < |frame| <= MAX_FRAME_LEN
  }

  predicate ValidFrames(frames: seq<seq<Byte>>) {
    forall i :: 0 <= i < |frames| ==> ValidFrame(frames[i])
  }

  /** Payloads on the wire, each with its length. */
  function Wire(payloads: seq<seq<Byte>>): seq<Byte> {
    if payloads == [] then [] else Str(payloads[0]) + Wire(payloads[1..])
  }

  /** No complete valid frame comes first. */
  ghost predicate Stops(input: seq<Byte>) {
    forall frame :: ValidFrame(frame) ==> !BeginsWith(input, Str(frame))
  }

  function Responses(handle: Handler, frames: seq<seq<Byte>>, n: nat): seq<seq<Byte>> {
    seq(|frames|, i requires 0 <= i < |frames| => handle(n + i, frames[i]))
  }

  /** The first frame, when there is one, is the one whose encoding comes first. */
  lemma FirstFrame(input: seq<Byte>, frame: seq<Byte>)
    requires ValidFrame(frame)
    ensures BeginsWith(input, Str(frame)) <==>
            |input| >= 4 + |frame| && FromBeBytes(input[..4]) == |frame| && input[4..4 + |frame|] == frame
  {
    StrIsPrefix(frame, input);
    if |input| >= 4 {
      U32BytesAre(input[..4], |frame|);
    }
  }

  lemma FrameLengthIs(input: seq<Byte>, frame: seq<Byte>)
    requires ValidFrame(frame)
    ensures BeginsWith(input, Str(frame)) <==> FrameLength(input) == Some(|frame|) && input[4..4 + |frame|] == frame
  {
    FirstFrame(input, frame);
  }

  /** The loop goes no further exactly on the inputs that start with no complete valid frame. */
  lemma {:induction false} StopsIff(input: seq<Byte>)
    ensures Stops(input) <==> FrameLength(input).None?
  {
    var len := FrameLength(input);
    if len.Some? {
      var frame := input[4..4 + len.value];
      FrameLengthIs(input, frame);
      assert ValidFrame(frame) && BeginsWith(input, Str(frame));
    } else {
      forall frame | ValidFrame(frame) ensures !BeginsWith(input, Str(frame)) {
        FrameLengthIs(input, frame);
      }
    }
  }

  /** Every input is a sequence of complete valid frames followed by something that is not one. */
  lemma {:induction false} EveryInputIsFramesAndRest(input: seq<Byte>) returns (frames: seq<seq<Byte>>, rest: seq<Byte>)
    ensures ValidFrames(frames) && Stops(rest) && input == Wire(frames) + rest
    decreases |input|
  {
    StopsIff(input);
    if Stops(input) {
      frames, rest := [], input;
    } else {
      var len := FrameLength(input).value;
      var frame := input[4..4 + len];
      FrameLengthIs(input, frame);
      assert input == Str(frame) + input[4 + len..];
      frames, rest := EveryInputIsFramesAndRest(input[4 + len..]);
      assert ([frame] + frames)[1..] == frames;
      frames := [frame] + frames;
      assert input == Wire(frames) + rest;
    }
  }

  /** One turn of the loop. */
  lemma {:induction false} ServeFirst(handle: Handler, frame: seq<Byte>, next: seq<Byte>, n: nat)
    requires ValidFrame(frame)
    ensures Serve(handle, Str(frame) + next, n) == Str(handle(n, frame)) + Serve(handle, next, n + 1)
  {
    var input := Str(frame) + next;
    assert BeginsWith(input, Str(frame));
    FrameLengthIs(input, frame);
    assert input[4 + |frame|..] == next;
  }

  /** The loop writes the response to each frame in order, and nothing after the first thing that is not a frame. */
  lemma {:induction false} ServeAnswersEveryFrame(handle: Handler, frames: seq<seq<Byte>>, rest: seq<Byte>, n: nat)
    requires ValidFrames(frames) && Stops(rest)
    ensures Serve(handle, Wire(frames) + rest, n) == Wire(Responses(handle, frames, n))
    decreases |frames|
  {
    if frames == [] {
      assert Wire(frames) + rest == rest;
      StopsIff(rest);
    } else {
      WireFirst(frames, rest);
      ServeFirst(handle, frames[0], Wire(frames[1..]) + rest, n);
      ServeAnswersEveryFrame(handle, frames[1..], rest, n + 1);
      ResponsesFirst(handle, frames, n);
    }
  }

  lemma {:induction false} WireFirst(frames: seq<seq<Byte>>, rest: seq<Byte>)
    requires frames != []
    ensures Wire(frames) + rest == Str(frames[0]) + (Wire(frames[1..]) + rest)
  {
  }

  lemma {:induction false} ResponsesFirst(handle: Handler, frames: seq<seq<Byte>>, n: nat)
    requires frames != []
    ensures Wire(Responses(handle, frames, n)) ==
            Str(handle(n, frames[0])) + Wire(Responses(handle, frames[1..], n + 1))
  {
    assert Responses(handle, frames, n)[1..] == Responses(handle, frames[1..], n + 1);
  }

  /** The agent's handler, given the user's answers frame by frame. */
  function AgentHandler(key: Option<PrivateKey>, approved: nat -> bool): Handler {
    (n: nat, payload: seq<Byte>) => HandleMessage(key, payload, approved(n))
  }

  /** A response that is a signature answers an approved request for this key. */
  lemma {:induction false} SignatureMeansApproved(key: Option<PrivateKey>, payload: seq<Byte>, approved: bool)
    ensures var response := HandleMessage(key, payload, approved);
            && response != []
            && (response[0] == SSH_AGENT_SIGN_RESPONSE ==> approved && exists data :: AsksToSign(key, payload, data))
  {
    if HandleMessage(key, payload, approved)[0] == SSH_AGENT_SIGN_RESPONSE {
      var request := SignRequestIn(payload[1..]).value;
      SignsIffAskedAndApproved(key, payload, approved, key.value.sign(request.data).value);
    }
  }

  /**
   For every byte stream: it is frames followed by something that is not one, the output is the
   responses to those frames, and each signature among them answers a request for this key that
   the user approved.
   */
  lemma {:induction false} StreamIsAnswered(key: Option<PrivateKey>, approved: nat -> bool, input: seq<Byte>)
    returns (frames: seq<seq<Byte>>, rest: seq<Byte>, responses: seq<seq<Byte>>)
    ensures ValidFrames(frames) && Stops(rest) && input == Wire(frames) + rest
    ensures Serve(AgentHandler(key, approved), input, 0) == Wire(responses)
    ensures |responses| == |frames|
    ensures forall i :: 0 <= i < |frames| ==> responses[i] == HandleMessage(key, frames[i], approved(i)) != []
    ensures forall i :: 0 <= i < |frames| && responses[i][0] == SSH_AGENT_SIGN_RESPONSE ==>
                    approved(i) && exists data :: AsksToSign(key, frames[i], data)
  {
    frames, rest := EveryInputIsFramesAndRest(input);
    ServeAnswersEveryFrame(AgentHandler(key, approved), frames, rest, 0);
    responses := Responses(AgentHandler(key, approved), frames, 0);
    forall i | 0 <= i < |frames|
      ensures responses[i] == HandleMessage(key, frames[i], approved(i)) != []
      ensures responses[i][0] == SSH_AGENT_SIGN_RESPONSE ==>
              approved(i) && exists data :: AsksToSign(key, frames[i], data)
    {
      SignatureMeansApproved(key, frames[i], approved(i));
    }
  }
}

/**
 Terminal streams end to end: the interceptor takes the APC strings out and hands their payloads to
 the Kitty graphics transfer (`rust-core/src/kitty_graphics.rs:104-318`).
 */
module GraphicsStream {
  import opened Wrappers
  import opened Bytes
  import opened Apc
  import opened Kitty

  /** The bytes that pass through to the terminal. */
  function Passed(outputs: seq<Output>): seq<Byte> {
    if outputs == [] then []
    else (if outputs[0].Through? then [outputs[0].byte] else []) + Passed(outputs[1..])
  }

  /** The payloads taken out, in order. */
  function Payloads(outputs: seq<Output>): seq<seq<Byte>> {
    if outputs == [] then []
    else (if outputs[0].Payload? then [outputs[0].payload] else []) + Payloads(outputs[1..])
  }

  /** What a stream shows: the text, the transfer left unfinished and the commands. */
  datatype Shown = Shown(text: seq<Byte>, pending: Option<Kitty.Pending>, commands: seq<KittyCommand>)

  function Show(codecs: Codecs, input: seq<Byte>): Shown {
    var outputs := Run(NEW_INTERCEPTOR, input).1;
    var (pending, commands) := DispatchAll(codecs, None, PacketsOf(Payloads(outputs)));
    Shown(Passed(outputs), pending, commands)
  }

  function TextIn(items: seq<Item>): seq<Byte> {
    if items == [] then [] else (if items[0].Text? then items[0].bytes else []) + TextIn(items[1..])
  }

  function GraphicsIn(items: seq<Item>): seq<seq<Byte>> {
    if items == [] then [] else (if items[0].Graphic? then [items[0].payload] else []) + GraphicsIn(items[1..])
  }

  lemma {:induction false} PassedAppend(a: seq<Output>, b: seq<Output>)
    ensures Passed(a + b) == Passed(a) + Passed(b)
    decreases |a|
  {
    if a == [] {
      assert a + b == b;
    } else {
      assert (a + b)[0] == a[0] && (a + b)[1..] == a[1..] + b;
      PassedAppend(a[1..], b);
      AppendAssociates(if a[0].Through? then [a[0].byte] else [], Passed(a[1..]), Passed(b));
    }
  }

  lemma {:induction false} PayloadsAppend(a: seq<Output>, b: seq<Output>)
    ensures Payloads(a + b) == Payloads(a) + Payloads(b)
    decreases |a|
  {
    if a == [] {
      assert a + b == b;
    } else {
      assert (a + b)[0] == a[0] && (a + b)[1..] == a[1..] + b;
      PayloadsAppend(a[1..], b);
      AppendAssociates(if a[0].Payload? then [a[0].payload] else [], Payloads(a[1..]), Payloads(b));
    }
  }

  lemma {:induction false} TextPasses(bytes: seq<Byte>)
    ensures Passed(ThroughAll(bytes)) == bytes && Payloads(ThroughAll(bytes)) == []
    decreases |bytes|
  {
    if bytes != [] {
      assert ThroughAll(bytes)[1..] == ThroughAll(bytes[1..]);
      TextPasses(bytes[1..]);
    }
  }

  lemma OneGraphic(payload: seq<Byte>)
    ensures Passed([Payload(payload)]) == [] && Payloads([Payload(payload)]) == [payload]
  {
    var none: seq<Output> := [];
    assert [Payload(payload)][1..] == none;
  }

  lemma {:induction false} MeaningSplits(items: seq<Item>)
    ensures Passed(Meaning(items)) == TextIn(items) && Payloads(Meaning(items)) == GraphicsIn(items)
    decreases |items|
  {
    if items != [] {
      MeaningSplits(items[1..]);
      match items[0] {
        case Text(bytes) =>
          PassedAppend(ThroughAll(bytes), Meaning(items[1..]));
          PayloadsAppend(ThroughAll(bytes), Meaning(items[1..]));
          TextPasses(bytes);
        case Graphic(payload) =>
          PassedAppend([Payload(payload)], Meaning(items[1..]));
          PayloadsAppend([Payload(payload)], Meaning(items[1..]));
          OneGraphic(payload);
      }
    }
  }

  /** What an encoded stream shows depends on its text and on its payloads, not on how they mix. */
  lemma StreamShows(codecs: Codecs, items: seq<Item>)
    requires forall i :: 0 <= i < |items| ==> Encodable(items[i])
    ensures var (pending, commands) := DispatchAll(codecs, None, PacketsOf(GraphicsIn(items)));
            Show(codecs, Encode(items)) == Shown(TextIn(items), pending, commands)
  {
    EncodedStreamComesBack(NEW_INTERCEPTOR, items);
    MeaningSplits(items);
  }

  lemma DispatchOne(codecs: Codecs, payload: seq<Byte>)
    ensures var (pending, command) := Dispatch(codecs, None, payload);
            DispatchAll(codecs, None, PacketsOf([payload])) == (pending, [command])
  {
    var packets := PacketsOf([payload]);
    var none: seq<Packet> := [];
    assert packets == [PacketOf(payload)] && packets[1..] == none;
    var (pending, command) := Dispatch(codecs, None, payload);
    assert DispatchAll(codecs, pending, none) == (pending, []);
    assert [command] + [] == [command];
  }

  /**
   A transfer sent in chunks, as APC strings anywhere between texts, shows the same text and the same
   command as the transfer sent in one APC string, after commands that do nothing, and leaves
   nothing pending.  Every APC string, control data included, fits the cap and holds neither ESC
   nor ST, as `Encodable` says.
   */
  lemma ChunkedStreamShowsTheSame(codecs: Codecs, control: seq<Byte>, chunk: seq<Byte>, chunks: seq<seq<Byte>>,
                                  chunked: seq<Item>, single: seq<Item>)
    requires SEMICOLON !in control && chunks != []
    requires Value(ParseControl([CH_G] + control), CH_m).None? && Opens(ParseControl([CH_G] + control))
    requires forall i :: 0 <= i < |chunked| ==> Encodable(chunked[i])
    requires forall i :: 0 <= i < |single| ==> Encodable(single[i])
    requires GraphicsIn(chunked) == [SinglePayload(WithMore(control), chunk)] + LaterPayloads(chunks)
    requires GraphicsIn(single) == [SinglePayload(control, chunk + Concat(chunks))]
    requires TextIn(chunked) == TextIn(single)
    ensures var shown := Show(codecs, Encode(single));
            && |shown.commands| == 1 && shown.pending == None
            && Show(codecs, Encode(chunked)) == shown.(commands := NoCommands(|chunks|) + shown.commands)
  {
    var payload := SinglePayload(control, chunk + Concat(chunks));
    FitsTheCap(single, payload);
    StreamShows(codecs, chunked);
    StreamShows(codecs, single);
    DispatchOne(codecs, payload);
    ClientChunksEqualSingleShot(codecs, control, chunk, chunks);
  }

  /** A payload that can be encoded fits the cap. */
  lemma {:induction false} FitsTheCap(items: seq<Item>, payload: seq<Byte>)
    requires (forall i :: 0 <= i < |items| ==> Encodable(items[i])) && payload in GraphicsIn(items)
    ensures |payload| <= MAX_APC_PAYLOAD
    decreases |items|
  {
    assert Encodable(items[0]);
    if items[0] != Graphic(payload) {
      FitsTheCap(items[1..], payload);
    }
  }
}

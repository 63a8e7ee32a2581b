/**
 Kitty graphics transfers carried in APC strings (`rust-core/src/kitty_graphics.rs:187-458`).

 The base64 and PNG decoders are parameters.
 */
module Kitty {
  import opened Wrappers
  import opened Bytes
  import opened Numerals
  import opened Apc

  const MAX_DIM: nat := 4096
  const MAX_AREA: nat := 4_000_000

  // The characters of the protocol.
  const CH_G: Byte := 71
  const CH_T: Byte := 84
  const CH_A: Byte := 65
  const CH_I: Byte := 73
  const CH_a: Byte := 97
  const CH_d: Byte := 100
  const CH_f: Byte := 102
  const CH_i: Byte := 105
  const CH_m: Byte := 109
  const CH_s: Byte := 115
  const CH_t: Byte := 116
  const CH_v: Byte := 118
  const SEMICOLON: Byte := 59
  const COMMA: Byte := 44
  const EQUALS: Byte := 61
  const ZERO: Byte := 48
  const ONE: Byte := 49

  datatype Image = Image(width: nat, height: nat, rgba: seq<Byte>)

  datatype KittyCommand = Place(id: Option<nat>, image: Image) | DeleteAll | DeleteId(target: nat) | NoCommand

  datatype Pending = Pending(
    format: nat,
    width: nat,
    height: nat,
    id: Option<nat>,
    display: bool,
    payload: seq<Byte>)

  datatype Codecs = Codecs(base64: seq<Byte> -> Option<seq<Byte>>, png: seq<Byte> -> Option<Image>)

  type Keys = seq<(Byte, seq<Byte>)>

  // ---- Control data ----

  /** Position of the first `b`, or the length. */
  function IndexOf(s: seq<Byte>, b: Byte): (i: nat)
    ensures i <= |s|
    ensures forall j :: 0 <= j < i ==> s[j] != b
    ensures i < |s| ==> s[i] == b
  {
    if s == [] || s[0] == b then 0 else 1 + IndexOf(s[1..], b)
  }

  function SplitPayload(payload: seq<Byte>): (seq<Byte>, seq<Byte>) {
    var i := IndexOf(payload, SEMICOLON);
    if i < |payload| then (payload[..i], payload[i + 1..]) else (payload, [])
  }

  function SplitOn(s: seq<Byte>, b: Byte): (parts: seq<seq<Byte>>)
    ensures parts != []
    decreases |s|
  {
    var i := IndexOf(s, b);
    if i == |s| then [s] else [s[..i]] + SplitOn(s[i + 1..], b)
  }

  function KeyOf(part: seq<Byte>): Keys {
    var eq := IndexOf(part, EQUALS);
    if eq < |part| then [(part[0], part[eq + 1..])] else []
  }

  function KeysOf(parts: seq<seq<Byte>>): Keys {
    if parts == [] then [] else KeysOf(parts[..|parts| - 1]) + KeyOf(parts[|parts| - 1])
  }

  function StripG(control: seq<Byte>): seq<Byte> {
    if control != [] && control[0] == CH_G then control[1..] else control
  }

  function ParseControl(control: seq<Byte>): Keys {
    KeysOf(SplitOn(StripG(control), COMMA))
  }

  /** The parsing loop. */
  method ParseControlData(control: seq<Byte>) returns (keys: Keys)
    ensures keys == ParseControl(control)
  {
    var parts := SplitOn(StripG(control), COMMA);
    keys := [];
    for i := 0 to |parts|
      invariant keys == KeysOf(parts[..i])
    {
      assert parts[..i + 1][..i] == parts[..i];
      if parts[i] == [] {
        continue;
      }
      var eq := IndexOf(parts[i], EQUALS);
      if eq < |parts[i]| {
        keys := keys + [(parts[i][0], parts[i][eq + 1..])];
      }
    }
    assert parts[..|parts|] == parts;
  }

  /** The value of the first occurrence of `k`. */
  function Value(keys: Keys, k: Byte): Option<seq<Byte>> {
    if keys == [] then None
    else if keys[0].0 == k then Some(keys[0].1)
    else Value(keys[1..], k)
  }

  /** Bytes as characters. A byte outside ASCII is no digit, so parsing rejects it as it rejects bad UTF-8. */
  function Text(v: seq<Byte>): string {
    seq(|v|, i requires 0 <= i < |v| => v[i] as char)
  }

  function Num(keys: Keys, k: Byte): Option<nat> {
    var v := Value(keys, k);
    if v.None? then None else ParseU64(Text(v.value))
  }

  function Chr(keys: Keys, k: Byte): Option<Byte> {
    var v := Value(keys, k);
    if v.None? || v.value == [] then None else Some(v.value[0])
  }

  function OrElse<T>(o: Option<T>, default: T): T {
    if o.Some? then o.value else default
  }

  function Action(keys: Keys): Byte {
    OrElse(Chr(keys, CH_a), CH_t)
  }

  /** Conversion of a parsed number to `u32`. */
  function U32(n: nat): nat {
    n % 0x1_0000_0000
  }

  predicate More(keys: Keys) {
    OrElse(Num(keys, CH_m), 0) == 1
  }

  // ---- Pixels ----

  predicate DimsOk(width: nat, height: nat) {
    width != 0 && height != 0 && width <= MAX_DIM && height <= MAX_DIM && width * height <= MAX_AREA
  }

  /** Sample `j` of the RGBA image made of RGB pixels. */
  function Expanded(bytes: seq<Byte>, j: nat): Byte
    requires j % 4 == 3 || j / 4 * 3 + j % 4 < |bytes|
  {
    if j % 4 == 3 then 255 else bytes[j / 4 * 3 + j % 4]
  }

  function RgbaFromRaw(bytes: seq<Byte>, width: nat, height: nat, bpp: nat): Option<Image>
    requires bpp == 3 || bpp == 4
  {
    var pixels := width * height;
    if !DimsOk(width, height) || |bytes| != pixels * bpp then None
    else if bpp == 4 then Some(Image(width, height, bytes))
    else Some(Image(width, height, seq(pixels * 4, j requires 0 <= j < pixels * 4 => Expanded(bytes, j))))
  }

  /** The expanding loop, pixel by pixel in a zeroed buffer. */
  method ExpandRaw(bytes: seq<Byte>, width: nat, height: nat, bpp: nat) returns (r: Option<Image>)
    requires bpp == 3 || bpp == 4
    ensures r == RgbaFromRaw(bytes, width, height, bpp)
  {
    var pixels := width * height;
    if !DimsOk(width, height) || |bytes| != pixels * bpp {
      return None;
    }
    if bpp == 4 {
      return Some(Image(width, height, bytes));
    }
    var rgba := new Byte[pixels * 4](i => 0);
    for p := 0 to pixels
      invariant forall j :: 0 <= j < 4 * p ==> rgba[j] == Expanded(bytes, j)
    {
      rgba[4 * p], rgba[4 * p + 1], rgba[4 * p + 2], rgba[4 * p + 3] :=
        bytes[3 * p], bytes[3 * p + 1], bytes[3 * p + 2], 255;
      assert Expanded(bytes, 4 * p) == bytes[3 * p] && Expanded(bytes, 4 * p + 1) == bytes[3 * p + 1];
      assert Expanded(bytes, 4 * p + 2) == bytes[3 * p + 2] && Expanded(bytes, 4 * p + 3) == 255;
    }
    assert rgba[..] == seq(pixels * 4, j requires 0 <= j < pixels * 4 => Expanded(bytes, j));
    r := Some(Image(width, height, rgba[..]));
  }

  // ---- Transfers ----

  function Decode(codecs: Codecs, p: Pending, bytes: seq<Byte>): Option<Image> {
    if p.format == 32 then RgbaFromRaw(bytes, p.width, p.height, 4)
    else if p.format == 24 then RgbaFromRaw(bytes, p.width, p.height, 3)
    else if p.format == 100 then codecs.png(bytes)
    else None
  }

  function Finalize(codecs: Codecs, p: Pending): KittyCommand {
    var bytes := codecs.base64(p.payload);
    if !p.display || bytes.None? then NoCommand
    else
      var image := Decode(codecs, p, bytes.value);
      if image.None? then NoCommand else Place(p.id, image.value)
  }

  function ContinueOrFinalize(codecs: Codecs, keys: Keys, p: Pending): (Option<Pending>, KittyCommand) {
    if More(keys) then (Some(p), NoCommand) else (None, Finalize(codecs, p))
  }

  function StartTransmit(codecs: Codecs, keys: Keys, data: seq<Byte>): (Option<Pending>, KittyCommand) {
    if OrElse(Chr(keys, CH_t), CH_d) != CH_d then (None, NoCommand)
    else
      ContinueOrFinalize(codecs, keys,
                         Pending(U32(OrElse(Num(keys, CH_f), 32)),
                                 U32(OrElse(Num(keys, CH_s), 0)),
                                 U32(OrElse(Num(keys, CH_v), 0)),
                                 Num(keys, CH_i),
                                 Action(keys) == CH_T,
                                 data))
  }

  function ContinueTransmit(codecs: Codecs, p: Pending, keys: Keys, data: seq<Byte>): (Option<Pending>, KittyCommand) {
    ContinueOrFinalize(codecs, keys,
                       if |p.payload| + |data| <= MAX_APC_PAYLOAD then p.(payload := p.payload + data) else p)
  }

  function DeleteCommand(keys: Keys): KittyCommand {
    var target := OrElse(Chr(keys, CH_d), CH_a);
    if target == CH_a || target == CH_A then DeleteAll
    else if (target == CH_i || target == CH_I) && Num(keys, CH_i).Some? then DeleteId(Num(keys, CH_i).value)
    else NoCommand
  }

  /** A payload taken apart: whether it begins with `G`, its keys and its data. */
  datatype Packet = Packet(graphics: bool, keys: Keys, data: seq<Byte>)

  function PacketOf(payload: seq<Byte>): Packet {
    var (control, data) := SplitPayload(payload);
    Packet(payload != [] && payload[0] == CH_G, ParseControl(control), data)
  }

  function DispatchPacket(codecs: Codecs, pending: Option<Pending>, packet: Packet): (Option<Pending>, KittyCommand) {
    var Packet(graphics, keys, data) := packet;
    if pending.Some? then ContinueTransmit(codecs, pending.value, keys, data)
    else if !graphics then (None, NoCommand)
    else if Action(keys) == CH_T || Action(keys) == CH_t then StartTransmit(codecs, keys, data)
    else if Action(keys) == CH_d then (None, DeleteCommand(keys))
    else (None, NoCommand)
  }

  function Dispatch(codecs: Codecs, pending: Option<Pending>, payload: seq<Byte>): (Option<Pending>, KittyCommand) {
    DispatchPacket(codecs, pending, PacketOf(payload))
  }

  /** The mutable transfer state. */
  class KittyGraphics {
    const codecs: Codecs
    var pending: Option<Pending>

    constructor (codecs: Codecs)
      ensures this.codecs == codecs && pending == None
    {
      this.codecs := codecs;
      pending := None;
    }

    method HandlePayload(payload: seq<Byte>) returns (command: KittyCommand)
      modifies this
      ensures (pending, command) == Dispatch(codecs, old(pending), payload)
    {
      var (control, data) := SplitPayload(payload);
      var keys := ParseControlData(control);
      if pending.Some? {
        command := Continue(keys, data);
        return;
      }
      if payload == [] || payload[0] != CH_G {
        return NoCommand;
      }
      var action := Action(keys);
      if action == CH_T || action == CH_t {
        command := Start(keys, data);
      } else if action == CH_d {
        command := DeleteCommand(keys);
      } else {
        command := NoCommand;
      }
    }

    method Start(keys: Keys, data: seq<Byte>) returns (command: KittyCommand)
      requires pending == None
      modifies this
      ensures (pending, command) == StartTransmit(codecs, keys, data)
    {
      var medium := Chr(keys, CH_t);
      if medium.Some? && medium.value != CH_d {
        return NoCommand;
      }
      var started := Pending(U32(OrElse(Num(keys, CH_f), 32)), U32(OrElse(Num(keys, CH_s), 0)),
                             U32(OrElse(Num(keys, CH_v), 0)), Num(keys, CH_i), Action(keys) == CH_T, data);
      if More(keys) {
        pending := Some(started);
        return NoCommand;
      }
      command := Finalize(codecs, started);
    }

    method Continue(keys: Keys, data: seq<Byte>) returns (command: KittyCommand)
      requires pending.Some?
      modifies this
      ensures (pending, command) == ContinueTransmit(codecs, old(pending).value, keys, data)
    {
      var current := pending.value;
      pending := None;
      if |current.payload| + |data| <= MAX_APC_PAYLOAD {
        current := current.(payload := current.payload + data);
      }
      if More(keys) {
        pending := Some(current);
        return NoCommand;
      }
      command := Finalize(codecs, current);
    }
  }

  // ---- Recovery ----

  /** Whatever was left unfinished, one payload without `m=1` clears it. */
  lemma OnePayloadClearsPending(codecs: Codecs, pending: Option<Pending>, payload: seq<Byte>)
    requires !More(PacketOf(payload).keys)
    ensures Dispatch(codecs, pending, payload).0 == None
  {
  }

  // ---- Placed images ----

  /** Pixel `x` of data with four bytes per pixel. */
  function Rgba(data: seq<Byte>, x: nat): seq<Byte>
    requires 4 * x + 4 <= |data|
  {
    data[4 * x..4 * x + 4]
  }

  /** Pixel `x` of data with three bytes per pixel. */
  function Rgb(data: seq<Byte>, x: nat): seq<Byte>
    requires 3 * x + 3 <= |data|
  {
    data[3 * x..3 * x + 3]
  }

  /**
   An image placed from a raw format has four bytes per pixel: the decoded pixels in order, with
   alpha 255 where the data has none.
   */
  lemma PlacedRawPixelsArePreserved(codecs: Codecs, p: Pending)
    requires Finalize(codecs, p).Place? && (p.format == 24 || p.format == 32)
    ensures var image := Finalize(codecs, p).image;
            var bytes := codecs.base64(p.payload).value;
            var pixels := p.width * p.height;
            && image.width == p.width && image.height == p.height && DimsOk(p.width, p.height)
            && |image.rgba| == pixels * 4
            && (p.format == 32 ==>
                  |bytes| == pixels * 4 && forall x: nat :: x < pixels ==> Rgba(image.rgba, x) == Rgba(bytes, x))
            && (p.format == 24 ==>
                  |bytes| == pixels * 3 && forall x: nat :: x < pixels ==> Rgba(image.rgba, x) == Rgb(bytes, x) + [255])
  {
    if p.format == 24 {
      var bytes := codecs.base64(p.payload).value;
      var rgba := Finalize(codecs, p).image.rgba;
      forall x: nat | x < p.width * p.height ensures Rgba(rgba, x) == Rgb(bytes, x) + [255] {
        assert rgba[4 * x] == Expanded(bytes, 4 * x) && rgba[4 * x + 1] == Expanded(bytes, 4 * x + 1);
        assert rgba[4 * x + 2] == Expanded(bytes, 4 * x + 2) && rgba[4 * x + 3] == Expanded(bytes, 4 * x + 3);
      }
    }
  }

  // ---- Chunked transfers ----

  /** Dispatch packets one after the other; the commands in order. */
  function DispatchAll(codecs: Codecs, pending: Option<Pending>, packets: seq<Packet>)
    : (Option<Pending>, seq<KittyCommand>)
    decreases |packets|
  {
    if packets == [] then (pending, [])
    else
      var (p1, command) := DispatchPacket(codecs, pending, packets[0]);
      var (p2, commands) := DispatchAll(codecs, p1, packets[1..]);
      (p2, [command] + commands)
  }

  function NoCommands(n: nat): seq<KittyCommand> {
    seq(n, i => NoCommand)
  }

  /** The data of all the packets, joined. */
  function JoinedData(packets: seq<Packet>): seq<Byte> {
    if packets == [] then [] else packets[0].data + JoinedData(packets[1..])
  }

  /** What is kept of `data` after `kept`: a chunk that would exceed the cap is dropped whole. */
  function Capped(kept: seq<Byte>, data: seq<Byte>): seq<Byte> {
    if |kept| + |data| <= MAX_APC_PAYLOAD then kept + data else kept
  }

  function CappedData(kept: seq<Byte>, packets: seq<Packet>): seq<Byte>
    decreases |packets|
  {
    if packets == [] then kept else CappedData(Capped(kept, packets[0].data), packets[1..])
  }

  /** Every packet but the last announces more. */
  predicate MoreUntilLast(packets: seq<Packet>) {
    && packets != []
    && !More(packets[|packets| - 1].keys)
    && forall i :: 0 <= i < |packets| - 1 ==> More(packets[i].keys)
  }

  /** Keys that open a direct transfer. */
  predicate Opens(keys: Keys) {
    && (Action(keys) == CH_T || Action(keys) == CH_t)
    && OrElse(Chr(keys, CH_t), CH_d) == CH_d
  }

  /** The keys of a transfer that are read when it opens, all but `m`. */
  predicate SameKeys(a: Keys, b: Keys) {
    && Value(a, CH_a) == Value(b, CH_a) && Value(a, CH_t) == Value(b, CH_t) && Value(a, CH_f) == Value(b, CH_f)
    && Value(a, CH_s) == Value(b, CH_s) && Value(a, CH_v) == Value(b, CH_v) && Value(a, CH_i) == Value(b, CH_i)
  }

  /** From any pending transfer: all but the last are no-ops, and the last finishes with all that fits. */
  lemma {:induction false} ContinuationsAccumulate(codecs: Codecs, p: Pending, later: seq<Packet>)
    requires MoreUntilLast(later)
    ensures DispatchAll(codecs, Some(p), later)
         == (None, NoCommands(|later| - 1) + [Finalize(codecs, p.(payload := CappedData(p.payload, later)))])
    decreases |later|
  {
    var rest := later[1..];
    var q := p.(payload := Capped(p.payload, later[0].data));
    var last := Finalize(codecs, q.(payload := CappedData(q.payload, rest)));
    if rest == [] {
      assert DispatchPacket(codecs, Some(p), later[0]) == (None, last);
      assert NoCommands(0) + [last] == [last] + [];
    } else {
      assert DispatchPacket(codecs, Some(p), later[0]) == (Some(q), NoCommand);
      ContinuationsAccumulate(codecs, q, rest);
      assert [NoCommand] + (NoCommands(|rest| - 1) + [last]) == NoCommands(|later| - 1) + [last];
    }
  }

  lemma {:induction false} CappedDataIsNoLonger(kept: seq<Byte>, packets: seq<Packet>)
    ensures |CappedData(kept, packets)| <= |kept| + |JoinedData(packets)|
    decreases |packets|
  {
    if packets != [] {
      CappedDataIsNoLonger(Capped(kept, packets[0].data), packets[1..]);
    }
  }

  /** Nothing of the data is lost exactly when it fits the cap (or there is none). */
  lemma {:induction false} NothingDroppedIffWithinCap(kept: seq<Byte>, packets: seq<Packet>)
    ensures CappedData(kept, packets) == kept + JoinedData(packets)
       <==> |kept| + |JoinedData(packets)| <= MAX_APC_PAYLOAD || JoinedData(packets) == []
    decreases |packets|
  {
    if packets == [] {
      assert kept + [] == kept;
    } else {
      var data, rest := packets[0].data, packets[1..];
      assert kept + JoinedData(packets) == (kept + data) + JoinedData(rest);
      if |kept| + |data| <= MAX_APC_PAYLOAD || data == [] {
        assert kept + [] == kept;
        NothingDroppedIffWithinCap(kept + data, rest);
      } else {
        CappedDataIsNoLonger(kept, rest);
      }
    }
  }

  /** The first chunk opens the transfer that the single packet opens, up to its data. */
  lemma SameStart(codecs: Codecs, first: Packet, single: Packet)
    requires first.graphics && single.graphics && Opens(single.keys) && SameKeys(first.keys, single.keys)
    requires More(first.keys) && !More(single.keys)
    ensures var (pending, command) := DispatchPacket(codecs, None, first);
            && pending.Some? && command == NoCommand && pending.value.payload == first.data
            && DispatchPacket(codecs, None, single) == (None, Finalize(codecs, pending.value.(payload := single.data)))
  {
  }

  /**
   However the data of a transfer is divided, if it fits the cap then every packet but the last
   does nothing, and the last gives the command and the state of the transfer sent in one packet.
   */
  lemma {:induction false} ChunkedEqualsSingleShot(codecs: Codecs, first: Packet, later: seq<Packet>, single: Packet)
    requires first.graphics && single.graphics && Opens(single.keys) && SameKeys(first.keys, single.keys)
    requires More(first.keys) && !More(single.keys) && MoreUntilLast(later)
    requires single.data == first.data + JoinedData(later) && |single.data| <= MAX_APC_PAYLOAD
    ensures var (pending, command) := DispatchPacket(codecs, None, single);
            DispatchAll(codecs, None, [first] + later) == (pending, NoCommands(|later|) + [command])
  {
    SameStart(codecs, first, single);
    var p := DispatchPacket(codecs, None, first).0.value;
    ContinuationsAccumulate(codecs, p, later);
    NothingDroppedIffWithinCap(first.data, later);
    var last := Finalize(codecs, p.(payload := single.data));
    assert DispatchPacket(codecs, None, single) == (None, last);
    assert DispatchAll(codecs, Some(p), later) == (None, NoCommands(|later| - 1) + [last]);
    assert ([first] + later)[1..] == later;
    assert [NoCommand] + (NoCommands(|later| - 1) + [last]) == NoCommands(|later|) + [last];
  }

  // ---- The chunks a client sends ----

  const M_ONE: seq<Byte> := [CH_m, EQUALS, ONE]
  const M_ZERO: seq<Byte> := [CH_m, EQUALS, ZERO]

  /** `G<control>;<data>` */
  function SinglePayload(control: seq<Byte>, data: seq<Byte>): seq<Byte> {
    [CH_G] + control + [SEMICOLON] + data
  }

  /** The same control data with `m=1` appended. */
  function WithMore(control: seq<Byte>): seq<Byte> {
    control + [COMMA] + M_ONE
  }

  /** The chunks after the first carry only `m=1`, or `m=0` on the last. */
  function LaterPayloads(chunks: seq<seq<Byte>>): seq<seq<Byte>> {
    seq(|chunks|, i requires 0 <= i < |chunks| => SinglePayload(if i == |chunks| - 1 then M_ZERO else M_ONE, chunks[i]))
  }

  function Concat(chunks: seq<seq<Byte>>): seq<Byte> {
    if chunks == [] then [] else chunks[0] + Concat(chunks[1..])
  }

  /** The packets of the payloads. */
  function PacketsOf(payloads: seq<seq<Byte>>): seq<Packet> {
    seq(|payloads|, i requires 0 <= i < |payloads| => PacketOf(payloads[i]))
  }

  lemma SplitSinglePayload(control: seq<Byte>, data: seq<Byte>)
    requires SEMICOLON !in control
    ensures PacketOf(SinglePayload(control, data)) == Packet(true, ParseControl([CH_G] + control), data)
  {
    var payload := SinglePayload(control, data);
    var i := IndexOf(payload, SEMICOLON);
    assert payload[|control| + 1] == SEMICOLON;
    assert forall j :: 0 <= j < |control| ==> payload[j + 1] == control[j] && control[j] in control;
    assert i == |control| + 1;
    assert payload[..i] == [CH_G] + control && payload[i + 1..] == data;
  }

  /** The first separator is where it was. */
  lemma IndexOfAppend(s: seq<Byte>, b: Byte, part: seq<Byte>)
    ensures IndexOf(s + [b] + part, b) == IndexOf(s, b)
  {
    var whole, i := s + [b] + part, IndexOf(s, b);
    assert whole[i] == b;
    assert forall j :: 0 <= j < i ==> whole[j] == s[j];
  }

  lemma {:induction false} SplitOnAppend(s: seq<Byte>, b: Byte, part: seq<Byte>)
    requires b !in part
    ensures SplitOn(s + [b] + part, b) == SplitOn(s, b) + [part]
    decreases |s|
  {
    var i, whole := IndexOf(s, b), s + [b] + part;
    IndexOfAppend(s, b, part);
    assert whole[..i] == s[..i];
    if i == |s| {
      assert whole[i + 1..] == part && s[..i] == s;
      assert IndexOf(part, b) == |part|;
    } else {
      assert whole[i + 1..] == s[i + 1..] + [b] + part;
      SplitOnAppend(s[i + 1..], b, part);
    }
  }

  lemma ParseWithMore(control: seq<Byte>)
    ensures ParseControl([CH_G] + WithMore(control)) == ParseControl([CH_G] + control) + [(CH_m, [ONE])]
    ensures ParseControl([CH_G] + M_ONE) == [(CH_m, [ONE])]
    ensures ParseControl([CH_G] + M_ZERO) == [(CH_m, [ZERO])]
  {
    assert StripG([CH_G] + WithMore(control)) == control + [COMMA] + M_ONE;
    assert StripG([CH_G] + control) == control;
    SplitOnAppend(control, COMMA, M_ONE);
    var parts := SplitOn(control, COMMA);
    assert (parts + [M_ONE])[..|parts|] == parts;
    OneKey(ONE);
    OneKey(ZERO);
  }

  lemma OneKey(digit: Byte)
    requires digit == ONE || digit == ZERO
    ensures KeyOf([CH_m, EQUALS, digit]) == [(CH_m, [digit])]
    ensures ParseControl([CH_G, CH_m, EQUALS, digit]) == [(CH_m, [digit])]
  {
    var part := [CH_m, EQUALS, digit];
    assert IndexOf(part, EQUALS) == 1;
    assert part[2..] == [digit];
    assert StripG([CH_G] + part) == part && [CH_G] + part == [CH_G, CH_m, EQUALS, digit];
    assert IndexOf(part, COMMA) == 3;
    var parts := [part];
    assert SplitOn(part, COMMA) == parts && parts[..0] == [];
    assert KeysOf(parts) == KeysOf(parts[..0]) + KeyOf(part);
    assert ParseControl([CH_G] + part) == [(CH_m, [digit])];
  }

  lemma {:induction false} ValueAppend(keys: Keys, key: (Byte, seq<Byte>), k: Byte)
    ensures Value(keys + [key], k) ==
            if Value(keys, k).Some? then Value(keys, k) else if key.0 == k then Some(key.1) else None
    decreases |keys|
  {
    if keys != [] {
      assert (keys + [key])[1..] == keys[1..] + [key];
      ValueAppend(keys[1..], key, k);
    } else {
      assert keys + [key] == [key] && [key][1..] == [];
    }
  }

  lemma OneMeansMore()
    ensures ParseU64(Text([ONE])) == Some(1) && ParseU64(Text([ZERO])) == Some(0)
  {
    ToStringParses(1);
    ToStringParses(0);
    assert Text([ONE]) == ToString(1) && Text([ZERO]) == ToString(0);
  }

  lemma OnlyMore(chunk: seq<Byte>)
    ensures PacketOf(SinglePayload(M_ONE, chunk)) == Packet(true, [(CH_m, [ONE])], chunk)
    ensures PacketOf(SinglePayload(M_ZERO, chunk)) == Packet(true, [(CH_m, [ZERO])], chunk)
  {
    SplitSinglePayload(M_ONE, chunk);
    SplitSinglePayload(M_ZERO, chunk);
    ParseWithMore([]);
  }

  /** The packets of the later chunks, already taken apart. */
  function LaterPackets(chunks: seq<seq<Byte>>): seq<Packet> {
    seq(|chunks|, i requires 0 <= i < |chunks| =>
      Packet(true, [(CH_m, [if i == |chunks| - 1 then ZERO else ONE])], chunks[i]))
  }

  lemma LaterPayloadsAre(chunks: seq<seq<Byte>>)
    ensures PacketsOf(LaterPayloads(chunks)) == LaterPackets(chunks)
  {
    forall i | 0 <= i < |chunks| ensures PacketsOf(LaterPayloads(chunks))[i] == LaterPackets(chunks)[i] {
      OnlyMore(chunks[i]);
    }
  }

  lemma {:induction false} JoinedLaterData(chunks: seq<seq<Byte>>)
    ensures JoinedData(LaterPackets(chunks)) == Concat(chunks)
    decreases |chunks|
  {
    if chunks != [] {
      assert LaterPackets(chunks)[1..] == LaterPackets(chunks[1..]);
      JoinedLaterData(chunks[1..]);
    }
  }

  lemma LaterPacketsAnnounceMore(chunks: seq<seq<Byte>>)
    requires chunks != []
    ensures MoreUntilLast(LaterPackets(chunks))
  {
    OneMeansMore();
  }

  lemma AppendedMoreKeepsKeys(keys: Keys)
    requires Value(keys, CH_m).None?
    ensures SameKeys(keys + [(CH_m, [ONE])], keys) && More(keys + [(CH_m, [ONE])]) && !More(keys)
  {
    OneMeansMore();
    forall k ensures Value(keys + [(CH_m, [ONE])], k) == if k == CH_m then Some([ONE]) else Value(keys, k) {
      ValueAppend(keys, (CH_m, [ONE]), k);
    }
  }

  lemma FirstPacket(control: seq<Byte>, chunk: seq<Byte>)
    requires SEMICOLON !in control
    ensures PacketOf(SinglePayload(WithMore(control), chunk))
         == Packet(true, ParseControl([CH_G] + control) + [(CH_m, [ONE])], chunk)
  {
    SplitSinglePayload(WithMore(control), chunk);
    ParseWithMore(control);
  }

  lemma PacketsOfFirst(payload: seq<Byte>, payloads: seq<seq<Byte>>)
    ensures PacketsOf([payload] + payloads) == [PacketOf(payload)] + PacketsOf(payloads)
  {
  }

  /** The packets of all the chunks of one transfer. */
  lemma {:induction false} ChunkPackets(control: seq<Byte>, chunk: seq<Byte>, chunks: seq<seq<Byte>>)
    requires SEMICOLON !in control
    ensures PacketsOf([SinglePayload(WithMore(control), chunk)] + LaterPayloads(chunks))
         == [Packet(true, ParseControl([CH_G] + control) + [(CH_m, [ONE])], chunk)] + LaterPackets(chunks)
  {
    FirstPacket(control, chunk);
    LaterPayloadsAre(chunks);
    PacketsOfFirst(SinglePayload(WithMore(control), chunk), LaterPayloads(chunks));
  }

  lemma {:induction false} ChunkPacketsEqualSinglePacket(codecs: Codecs, keys: Keys, chunk: seq<Byte>,
                                                         chunks: seq<seq<Byte>>)
    requires chunks != [] && Value(keys, CH_m).None? && Opens(keys)
    requires |chunk + Concat(chunks)| <= MAX_APC_PAYLOAD
    ensures var (pending, command) := DispatchPacket(codecs, None, Packet(true, keys, chunk + Concat(chunks)));
            && pending == None
            && DispatchAll(codecs, None, [Packet(true, keys + [(CH_m, [ONE])], chunk)] + LaterPackets(chunks))
            == (None, NoCommands(|chunks|) + [command])
  {
    AppendedMoreKeepsKeys(keys);
    LaterPacketsAnnounceMore(chunks);
    JoinedLaterData(chunks);
    var first := Packet(true, keys + [(CH_m, [ONE])], chunk);
    var single := Packet(true, keys, chunk + Concat(chunks));
    SameStart(codecs, first, single);
    ChunkedEqualsSingleShot(codecs, first, LaterPackets(chunks), single);
  }

  /** The control data given once with `m=1` appended, then `m=1` chunks and one `m=0` chunk. */
  lemma {:induction false} ClientChunksEqualSingleShot(codecs: Codecs, control: seq<Byte>, chunk: seq<Byte>,
                                                       chunks: seq<seq<Byte>>)
    requires SEMICOLON !in control && chunks != []
    requires Value(ParseControl([CH_G] + control), CH_m).None? && Opens(ParseControl([CH_G] + control))
    requires |chunk + Concat(chunks)| <= MAX_APC_PAYLOAD
    ensures var (pending, command) := Dispatch(codecs, None, SinglePayload(control, chunk + Concat(chunks)));
            && pending == None
            && DispatchAll(codecs, None, PacketsOf([SinglePayload(WithMore(control), chunk)] + LaterPayloads(chunks)))
            == (None, NoCommands(|chunks|) + [command])
  {
    SplitSinglePayload(control, chunk + Concat(chunks));
    ChunkPackets(control, chunk, chunks);
    ChunkPacketsEqualSinglePacket(codecs, ParseControl([CH_G] + control), chunk, chunks);
  }
}

/**
 What Kitty payloads mean, byte for byte (`rust-core/src/kitty_graphics.rs:231-398`): the image that a
 transfer places and the images that a deletion removes, from the control text and the data alone.
 */
module KittyPayloads {
  import opened Wrappers
  import opened Bytes
  import opened Numerals
  import opened Kitty

  // ---- Control text ----

  /** A key and a value that can be written down: no separators, and the key is not the equals sign. */
  predicate Writable(key: (Byte, seq<Byte>)) {
    && key.0 != EQUALS && key.0 != COMMA && key.0 != SEMICOLON
    && COMMA !in key.1 && SEMICOLON !in key.1
  }

  predicate AllWritable(keys: Keys) {
    forall i :: 0 <= i < |keys| ==> Writable(keys[i])
  }

  /** `k=v` */
  function Part(key: (Byte, seq<Byte>)): seq<Byte> {
    [key.0, EQUALS] + key.1
  }

  /** `k=v,k=v,...` */
  function ControlText(keys: Keys): seq<Byte> {
    if keys == [] then []
    else if |keys| == 1 then Part(keys[0])
    else ControlText(keys[..|keys| - 1]) + [COMMA] + Part(keys[|keys| - 1])
  }

  function Parts(keys: Keys): seq<seq<Byte>> {
    seq(|keys|, i requires 0 <= i < |keys| => Part(keys[i]))
  }

  lemma OnePart(key: (Byte, seq<Byte>))
    requires Writable(key)
    ensures COMMA !in Part(key) && SEMICOLON !in Part(key) && SplitOn(Part(key), COMMA) == [Part(key)]
    ensures KeyOf(Part(key)) == [key]
  {
    var part := Part(key);
    assert IndexOf(part, EQUALS) == 1;
    assert part[2..] == key.1;
    assert IndexOf(part, COMMA) == |part|;
  }

  lemma PartsSnoc(keys: Keys)
    requires keys != []
    ensures Parts(keys) == Parts(keys[..|keys| - 1]) + [Part(keys[|keys| - 1])]
  {
  }

  lemma {:induction false} TextSplits(keys: Keys)
    requires keys != [] && AllWritable(keys)
    ensures SplitOn(ControlText(keys), COMMA) == Parts(keys) && SEMICOLON !in ControlText(keys)
    decreases |keys|
  {
    var front, last := keys[..|keys| - 1], keys[|keys| - 1];
    OnePart(last);
    PartsSnoc(keys);
    if front == [] {
      assert Parts(front) == [];
    } else {
      TextSplits(front);
      SplitOnAppend(ControlText(front), COMMA, Part(last));
    }
  }

  lemma {:induction false} PartsParse(keys: Keys)
    requires AllWritable(keys)
    ensures KeysOf(Parts(keys)) == keys
    decreases |keys|
  {
    if keys != [] {
      var n := |keys| - 1;
      PartsParse(keys[..n]);
      OnePart(keys[n]);
      assert Parts(keys)[..n] == Parts(keys[..n]);
      assert keys == keys[..n] + [keys[n]];
    }
  }

  /** Parsing undoes writing, for every list of keys. */
  lemma {:induction false} ControlTextParses(keys: Keys)
    requires keys != [] && AllWritable(keys)
    ensures ParseControl([CH_G] + ControlText(keys)) == keys && SEMICOLON !in ControlText(keys)
  {
    TextSplits(keys);
    PartsParse(keys);
    assert StripG([CH_G] + ControlText(keys)) == ControlText(keys);
  }

  /** A written payload is taken apart into what was written. */
  lemma {:induction false} WrittenPayload(keys: Keys, data: seq<Byte>)
    requires keys != [] && AllWritable(keys)
    ensures PacketOf(SinglePayload(ControlText(keys), data)) == Packet(true, keys, data)
  {
    ControlTextParses(keys);
    SplitSinglePayload(ControlText(keys), data);
  }

  // ---- Numerals ----

  /** A number in decimal. */
  function Numeral(n: nat): seq<Byte> {
    var text := ToString(n);
    DigitsOnly(n);
    seq(|text|, i requires 0 <= i < |text| => text[i] as int as Byte)
  }

  lemma {:induction false} DigitsOnly(n: nat)
    ensures forall i :: 0 <= i < |ToString(n)| ==> '0' <= ToString(n)[i] <= '9'
  {
    if n >= 10 {
      DigitsOnly(n / 10);
    }
  }

  lemma NumeralReads(n: U64)
    ensures ParseU64(Text(Numeral(n))) == Some(n) && Numeral(n) != []
    ensures COMMA !in Numeral(n) && SEMICOLON !in Numeral(n)
  {
    DigitsOnly(n);
    assert Text(Numeral(n)) == ToString(n);
    ToStringParses(n);
    DigitsOfToString(n);
  }

  /** The key is written as that number, or not at all. */
  predicate Writes(keys: Keys, k: Byte, n: Option<U64>) {
    Value(keys, k) == if n.Some? then Some(Numeral(n.value)) else None
  }

  lemma WrittenNumberReads(keys: Keys, k: Byte, n: Option<U64>)
    requires Writes(keys, k, n)
    ensures Num(keys, k) == n
  {
    if n.Some? {
      NumeralReads(n.value);
    }
  }

  /** The value of the key begins with that character, which is all that is read of it. */
  predicate Says(keys: Keys, k: Byte, c: Byte) {
    Value(keys, k).Some? && Value(keys, k).value != [] && Value(keys, k).value[0] == c
  }

  /** More is to come exactly if `m` is written as the number one. */
  lemma MoreMeansOne(keys: Keys, n: Option<U64>)
    requires Writes(keys, CH_m, n)
    ensures More(keys) <==> n == Some(1)
  {
    WrittenNumberReads(keys, CH_m, n);
  }

  // ---- Pixels ----

  /** RGB pixels made opaque, one after the other. */
  function Opaque(bytes: seq<Byte>): seq<Byte> {
    if |bytes| < 3 then [] else bytes[..3] + [255] + Opaque(bytes[3..])
  }

  lemma {:induction false} OpaqueAt(bytes: seq<Byte>, pixels: nat, j: nat)
    requires |bytes| == 3 * pixels && j < 4 * pixels
    ensures |Opaque(bytes)| == 4 * pixels && Opaque(bytes)[j] == Expanded(bytes, j)
    decreases pixels
  {
    if pixels > 1 {
      OpaqueAt(bytes[3..], pixels - 1, if j < 4 then 0 else j - 4);
    }
  }

  lemma {:induction false} ExpandedIsOpaque(bytes: seq<Byte>, pixels: nat)
    requires |bytes| == 3 * pixels && pixels > 0
    ensures seq(pixels * 4, j requires 0 <= j < pixels * 4 => Expanded(bytes, j)) == Opaque(bytes)
  {
    var image := seq(pixels * 4, j requires 0 <= j < pixels * 4 => Expanded(bytes, j));
    OpaqueAt(bytes, pixels, 0);
    forall j: nat | j < pixels * 4 ensures image[j] == Opaque(bytes)[j] {
      OpaqueAt(bytes, pixels, j);
    }
  }

  // ---- Transfers ----

  /** The low 32 bits of a number. */
  function Low32(n: nat): nat {
    n % 0x1_0000_0000
  }

  /** An image of these dimensions is accepted. */
  predicate Acceptable(width: nat, height: nat) {
    0 < width <= 4096 && 0 < height <= 4096 && width * height <= 4_000_000
  }

  /** What decoded data of a format shows. */
  function Picture(codecs: Codecs, format: nat, width: nat, height: nat, bytes: seq<Byte>): Option<Image> {
    if format == 24 && Acceptable(width, height)
      && |bytes| == width * height * 3 then Some(Image(width, height, Opaque(bytes)))
    else if format == 32 && Acceptable(width, height)
      && |bytes| == width * height * 4 then Some(Image(width, height, bytes))
    else if format == 100 then codecs.png(bytes)
    else None
  }

  lemma DecodeIsPicture(codecs: Codecs, p: Pending, bytes: seq<Byte>)
    ensures Decode(codecs, p, bytes) == Picture(codecs, p.format, p.width, p.height, bytes)
  {
    if p.format == 24 && DimsOk(p.width, p.height) && |bytes| == p.width * p.height * 3 {
      assert p.width * p.height > 0;
      ExpandedIsOpaque(bytes, p.width * p.height);
    }
  }

  /** The keys of one direct transfer: action, format, id and dimensions, in any order and among any others. */
  predicate DirectTransfer(keys: Keys, action: Byte, format: Option<U64>, id: Option<U64>, width: U64, height: U64) {
    && keys != [] && AllWritable(keys)
    && Says(keys, CH_a, action) && (Value(keys, CH_t).None? || Says(keys, CH_t, CH_d))
    && (Value(keys, CH_m).None? || Value(keys, CH_m) == Some(Numeral(0)))
    && Writes(keys, CH_f, format) && Writes(keys, CH_i, id)
    && Writes(keys, CH_s, Some(width)) && Writes(keys, CH_v, Some(height))
  }

  lemma TransferStarts(keys: Keys, action: Byte, format: Option<U64>, id: Option<U64>, width: U64, height: U64)
    requires DirectTransfer(keys, action, format, id, width, height)
    ensures Num(keys, CH_f) == format && Num(keys, CH_i) == id && Num(keys, CH_s) == Some(width)
    ensures Num(keys, CH_v) == Some(height) && Action(keys) == action && !More(keys)
    ensures OrElse(Chr(keys, CH_t), CH_d) == CH_d
  {
    WrittenNumberReads(keys, CH_f, format);
    WrittenNumberReads(keys, CH_i, id);
    WrittenNumberReads(keys, CH_s, Some(width));
    WrittenNumberReads(keys, CH_v, Some(height));
    NumeralReads(0);
  }

  lemma {:induction false} TransferBegins(codecs: Codecs, keys: Keys, action: Byte, format: Option<U64>,
                                          id: Option<U64>, width: U64, height: U64, data: seq<Byte>)
    requires DirectTransfer(keys, action, format, id, width, height) && (action == CH_T || action == CH_t)
    ensures var f := if format.Some? then Low32(format.value) else 32;
            DispatchPacket(codecs, None, Packet(true, keys, data)) ==
              (None, Finalize(codecs, Pending(f, Low32(width), Low32(height), id, action == CH_T, data)))
  {
    TransferStarts(keys, action, format, id, width, height);
    NumbersBegin(codecs, keys, action, format, id, width, height, data);
  }

  lemma {:induction false} NumbersBegin(codecs: Codecs, keys: Keys, action: Byte, format: Option<nat>,
                                        id: Option<nat>, width: nat, height: nat, data: seq<Byte>)
    requires Num(keys, CH_f) == format && Num(keys, CH_i) == id && Num(keys, CH_s) == Some(width)
    requires Num(keys, CH_v) == Some(height) && Action(keys) == action && !More(keys)
    requires OrElse(Chr(keys, CH_t), CH_d) == CH_d && (action == CH_T || action == CH_t)
    ensures var f := if format.Some? then Low32(format.value) else 32;
            DispatchPacket(codecs, None, Packet(true, keys, data)) ==
              (None, Finalize(codecs, Pending(f, Low32(width), Low32(height), id, action == CH_T, data)))
  {
  }

  lemma {:induction false} FinalizePlaces(codecs: Codecs, p: Pending)
    requires p.display
    ensures var bytes := codecs.base64(p.payload);
            Finalize(codecs, p) ==
              if bytes.None? || Picture(codecs, p.format, p.width, p.height, bytes.value).None? then NoCommand
              else Place(p.id, Picture(codecs, p.format, p.width, p.height, bytes.value).value)
  {
    if codecs.base64(p.payload).Some? {
      DecodeIsPicture(codecs, p, codecs.base64(p.payload).value);
    }
  }

  /**
   A payload with `a=T` places exactly the picture that its data decodes to, in the format, with the
   id, the width and the height that its text says (format 32 and no id if it says none; the three
   numbers are cut to 32 bits); and places nothing if the data does not decode or does not fit.
   */
  lemma {:induction false} PayloadPlaces(codecs: Codecs, keys: Keys, format: Option<U64>, id: Option<U64>,
                                         width: U64, height: U64, data: seq<Byte>)
    requires DirectTransfer(keys, CH_T, format, id, width, height)
    ensures var bytes := codecs.base64(data);
            var f, w, h := if format.Some? then Low32(format.value) else 32, Low32(width), Low32(height);
            Dispatch(codecs, None, SinglePayload(ControlText(keys), data)) ==
              (None, if bytes.None? || Picture(codecs, f, w, h, bytes.value).None? then NoCommand
                     else Place(id, Picture(codecs, f, w, h, bytes.value).value))
  {
    WrittenPayload(keys, data);
    TransferBegins(codecs, keys, CH_T, format, id, width, height, data);
    var f := if format.Some? then Low32(format.value) else 32;
    FinalizePlaces(codecs, Pending(f, Low32(width), Low32(height), id, true, data));
  }

  lemma {:induction false} TransmitPacket(codecs: Codecs, keys: Keys, data: seq<Byte>)
    requires Says(keys, CH_a, CH_t) || Value(keys, CH_a).None?
    ensures DispatchPacket(codecs, None, Packet(true, keys, data)).1 == NoCommand
  {
  }

  /** A payload with `a=t`, or with no action at all, places nothing. */
  lemma {:induction false} TransmitOnlyPlacesNothing(codecs: Codecs, keys: Keys, data: seq<Byte>)
    requires keys != [] && AllWritable(keys) && (Says(keys, CH_a, CH_t) || Value(keys, CH_a).None?)
    ensures Dispatch(codecs, None, SinglePayload(ControlText(keys), data)).1 == NoCommand
  {
    WrittenPayload(keys, data);
    TransmitPacket(codecs, keys, data);
  }

  lemma {:induction false} OtherMediumPacket(codecs: Codecs, keys: Keys, medium: Byte, data: seq<Byte>)
    requires Says(keys, CH_t, medium) && medium != CH_d
    requires Says(keys, CH_a, CH_T) || Says(keys, CH_a, CH_t)
    ensures DispatchPacket(codecs, None, Packet(true, keys, data)) == (None, NoCommand)
  {
  }

  /** A transfer by another medium than the payload itself does nothing. */
  lemma {:induction false} OtherMediaAreIgnored(codecs: Codecs, keys: Keys, medium: Byte, data: seq<Byte>)
    requires keys != [] && AllWritable(keys) && Says(keys, CH_t, medium) && medium != CH_d
    requires Says(keys, CH_a, CH_T) || Says(keys, CH_a, CH_t)
    ensures Dispatch(codecs, None, SinglePayload(ControlText(keys), data)) == (None, NoCommand)
  {
    WrittenPayload(keys, data);
    OtherMediumPacket(codecs, keys, medium, data);
  }

  /** `a=T,f=<format>,i=<id>,s=<width>,v=<height>` */
  function TransferText(format: U64, id: U64, width: U64, height: U64): Keys {
    [(CH_a, [CH_T]), (CH_f, Numeral(format)), (CH_i, Numeral(id)), (CH_s, Numeral(width)), (CH_v, Numeral(height))]
  }

  lemma TransferTextIsDirect(format: U64, id: U64, width: U64, height: U64)
    ensures DirectTransfer(TransferText(format, id, width, height), CH_T, Some(format), Some(id), width, height)
  {
    var keys := TransferText(format, id, width, height);
    NumeralReads(format);
    NumeralReads(id);
    NumeralReads(width);
    NumeralReads(height);
    LookUp(keys);
  }

  /** Looking a key up among five. */
  lemma LookUp(keys: Keys)
    requires |keys| == 5 && keys[0].0 == CH_a && keys[1].0 == CH_f && keys[2].0 == CH_i && keys[3].0 == CH_s
             && keys[4].0 == CH_v
    ensures Value(keys, CH_a) == Some(keys[0].1) && Value(keys, CH_f) == Some(keys[1].1)
    ensures Value(keys, CH_i) == Some(keys[2].1) && Value(keys, CH_s) == Some(keys[3].1)
    ensures Value(keys, CH_v) == Some(keys[4].1) && Value(keys, CH_t).None? && Value(keys, CH_m).None?
  {
    var k1, k2, k3, k4, k5 := keys[1..], keys[2..], keys[3..], keys[4..], keys[5..];
    assert k1[1..] == k2 && k2[1..] == k3 && k3[1..] == k4 && k4[1..] == k5 && k5 == [];
    assert forall k :: Value(k4, k) == if k == CH_v then Some(keys[4].1) else None;
    assert forall k :: Value(k3, k) == if k == CH_s then Some(keys[3].1) else Value(k4, k);
    assert forall k :: Value(k2, k) == if k == CH_i then Some(keys[2].1) else Value(k3, k);
    assert forall k :: Value(k1, k) == if k == CH_f then Some(keys[1].1) else Value(k2, k);
    assert forall k :: Value(keys, k) == if k == CH_a then Some(keys[0].1) else Value(k1, k);
  }

  lemma SmallNumbersFit(n: nat)
    requires n < 0x1_0000_0000
    ensures Low32(n) == n
  {
  }

  /** The text in that order places the picture of exactly these numbers. */
  lemma {:induction false} TextPlaces(codecs: Codecs, format: U64, id: U64, width: U64, height: U64, data: seq<Byte>,
                                      picture: Image)
    requires format < 0x1_0000_0000 && width < 0x1_0000_0000 && height < 0x1_0000_0000 && codecs.base64(data).Some?
    requires Picture(codecs, format, width, height, codecs.base64(data).value) == Some(picture)
    ensures Dispatch(codecs, None, SinglePayload(ControlText(TransferText(format, id, width, height)), data)) ==
            (None, Place(Some(id), picture))
  {
    var keys := TransferText(format, id, width, height);
    SmallNumbersFit(format);
    SmallNumbersFit(width);
    SmallNumbersFit(height);
    TransferTextIsDirect(format, id, width, height);
    PayloadPlaces(codecs, keys, Some(format), Some(id), width, height, data);
  }

  /** RGB data with its text places an image of exactly that width, height and id, made opaque. */
  lemma {:induction false} RgbPayloadPlaces(codecs: Codecs, id: U64, width: U64, height: U64, data: seq<Byte>)
    requires codecs.base64(data).Some? && |codecs.base64(data).value| == width * height * 3 && Acceptable(width, height)
    ensures Dispatch(codecs, None, SinglePayload(ControlText(TransferText(24, id, width, height)), data)) ==
            (None, Place(Some(id), Image(width, height, Opaque(codecs.base64(data).value))))
  {
    TextPlaces(codecs, 24, id, width, height, data, Image(width, height, Opaque(codecs.base64(data).value)));
  }

  /** RGBA data is placed as it is. */
  lemma {:induction false} RgbaPayloadPlaces(codecs: Codecs, id: U64, width: U64, height: U64, data: seq<Byte>)
    requires codecs.base64(data).Some? && |codecs.base64(data).value| == width * height * 4 && Acceptable(width, height)
    ensures Dispatch(codecs, None, SinglePayload(ControlText(TransferText(32, id, width, height)), data)) ==
            (None, Place(Some(id), Image(width, height, codecs.base64(data).value)))
  {
    TextPlaces(codecs, 32, id, width, height, data, Image(width, height, codecs.base64(data).value));
  }

  // ---- Deletions and the rest ----

  /** What `a=d` deletes. */
  function Deletion(target: Option<Byte>, id: Option<U64>): KittyCommand {
    if target.None? || target.value == CH_a || target.value == CH_A then DeleteAll
    else if (target.value == CH_i || target.value == CH_I) && id.Some? then DeleteId(id.value)
    else NoCommand
  }

  lemma {:induction false} DeletePacket(codecs: Codecs, keys: Keys, target: Option<Byte>, id: Option<U64>,
                                        data: seq<Byte>)
    requires Says(keys, CH_a, CH_d) && Writes(keys, CH_i, id)
    requires if target.Some? then Says(keys, CH_d, target.value) else Value(keys, CH_d).None?
    ensures DispatchPacket(codecs, None, Packet(true, keys, data)) == (None, Deletion(target, id))
  {
    WrittenNumberReads(keys, CH_i, id);
    assert OrElse(Chr(keys, CH_d), CH_a) == if target.Some? then target.value else CH_a;
  }

  /**
   With `a=d`: no target, `a` or `A` deletes everything; `i` or `I` deletes the image that `i` names, or
   nothing if it names none; any other target deletes nothing.
   */
  lemma {:induction false} PayloadDeletes(codecs: Codecs, keys: Keys, target: Option<Byte>, id: Option<U64>,
                                          data: seq<Byte>)
    requires keys != [] && AllWritable(keys) && Says(keys, CH_a, CH_d) && Writes(keys, CH_i, id)
    requires if target.Some? then Says(keys, CH_d, target.value) else Value(keys, CH_d).None?
    ensures Dispatch(codecs, None, SinglePayload(ControlText(keys), data)) == (None, Deletion(target, id))
  {
    WrittenPayload(keys, data);
    DeletePacket(codecs, keys, target, id, data);
  }

  /** Other actions do nothing outside a transfer. */
  lemma {:induction false} OtherActionsAreIgnored(codecs: Codecs, keys: Keys, action: Byte, data: seq<Byte>)
    requires keys != [] && AllWritable(keys) && Says(keys, CH_a, action)
    requires action != CH_T && action != CH_t && action != CH_d
    ensures Dispatch(codecs, None, SinglePayload(ControlText(keys), data)) == (None, NoCommand)
  {
    WrittenPayload(keys, data);
    assert Action(keys) == action;
  }

  /** Payloads that do not begin with `G` do nothing outside a transfer. */
  lemma {:induction false} ForeignPayloadsAreIgnored(codecs: Codecs, payload: seq<Byte>)
    requires payload == [] || payload[0] != CH_G
    ensures Dispatch(codecs, None, payload) == (None, NoCommand)
  {
  }
}

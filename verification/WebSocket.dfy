/** The WebSocket framing of the browser package's DevTools client: `CDP._read`, `receive` and
    `call` (RFC 6455 sections 5.2 and 5.3). */
module WebSocket {
  import opened Common

  type Bytes = seq<bv8>

  // ---------------------------------------------------------------- bytes

  /** The byte of value `n`, counted up from 0. */
  ghost function ByteOf(n: nat): (b: bv8)
    requires n < 256
    ensures b as int == n
  {
    if n == 0 then 0 else ByteOf(n - 1) + 1
  }

  lemma ByteIs(n: nat, b: bv8)
    requires b as int == n
    ensures n as bv8 == b
  {
  }

  lemma ByteRoundTrip(n: nat)
    requires n < 256
    ensures (n as bv8) as int == n
  {
    ByteIs(n, ByteOf(n));
  }

  lemma ShortLength(n: nat)
    requires n < 128
    ensures ((0x80 | (n as bv8)) & 127) as int == n && (0x80 | (n as bv8)) & 128 != 0
    ensures ((n as bv8) & 127) as int == n && (n as bv8) & 128 == 0
  {
    var b := n as bv8;
    ByteRoundTrip(n);
    assert b < 128;
    assert (0x80 | b) & 127 == b && b & 127 == b;
    assert (0x80 | b) & 128 == 128 && b & 128 == 0;
  }

  /** Network order: the most significant byte first. */
  function BigEndian(n: nat, size: nat): (b: Bytes)
    ensures |b| == size
  {
    if size == 0 then [] else BigEndian(n / 256, size - 1) + [(n % 256) as bv8]
  }

  function Unsigned(b: Bytes): nat {
    if b == [] then 0 else Unsigned(b[..|b| - 1]) * 256 + b[|b| - 1] as int
  }

  function Power256(size: nat): nat {
    if size == 0 then 1 else 256 * Power256(size - 1)
  }

  lemma {:induction false} UnsignedInvertsBigEndian(n: nat, size: nat)
    requires n < Power256(size)
    ensures Unsigned(BigEndian(n, size)) == n
  {
    if size > 0 {
      UnsignedInvertsBigEndian(n / 256, size - 1);
      ByteRoundTrip(n % 256);
      var b := BigEndian(n, size);
      assert b[..size - 1] == BigEndian(n / 256, size - 1);
    }
  }

  lemma {:induction false} UnsignedFits(b: Bytes)
    ensures Unsigned(b) < Power256(|b|)
  {
    if b != [] { UnsignedFits(b[..|b| - 1]); }
  }

  // ---------------------------------------------------------------- frames

  /** The three ways the standard writes a payload length; a longer form than needed is readable. */
  datatype Form = Short | Medium | Long

  predicate FitsForm(form: Form, size: nat) {
    match form
    case Short => size < 126
    case Medium => size < Power256(2)
    case Long => size < Power256(8)
  }

  function Mask(payload: Bytes, mask: Bytes): (r: Bytes)
    requires |mask| == 4
    ensures |r| == |payload|
  {
    seq(|payload|, i requires 0 <= i < |payload| => payload[i] ^ mask[i % 4])
  }

  /** The seven bits that say how the length is written. */
  function SizeCode(form: Form, size: nat): (code: nat)
    requires FitsForm(form, size)
    ensures code < 128
  {
    match form case Short => size case Medium => 126 case Long => 127
  }

  function SizeByte(masked: bool, form: Form, size: nat): bv8
    requires FitsForm(form, size)
  {
    (if masked then 0x80 else 0) | (SizeCode(form, size) as bv8)
  }

  function Extension(form: Form, size: nat): Bytes {
    match form case Short => [] case Medium => BigEndian(size, 2) case Long => BigEndian(size, 8)
  }

  function Body(mask: Option<Bytes>, payload: Bytes): Bytes
    requires mask.Some? ==> |mask.value| == 4
  {
    if mask.Some? then mask.value + Mask(payload, mask.value) else payload
  }

  /** Any frame: its first byte, an optional mask, and a length form that holds the size. */
  function FrameOf(first: bv8, mask: Option<Bytes>, form: Form, payload: Bytes): Bytes
    requires FitsForm(form, |payload|)
    requires mask.Some? ==> |mask.value| == 4
  {
    [first, SizeByte(mask.Some?, form, |payload|)] + Extension(form, |payload|) + Body(mask, payload)
  }

  /** The frame a client sends: one final text frame, masked, in the shortest form. */
  function ClientFrame(payload: Bytes, mask: Bytes): Bytes
    requires |payload| < Power256(8) && |mask| == 4
  {
    FrameOf(0x81, Some(mask), if |payload| < 126 then Short else if |payload| < 65536 then Medium else Long, payload)
  }

  function Take(size: nat, b: Bytes): Option<(Bytes, Bytes)> {
    if |b| < size then None else Some((b[..size], b[size..]))
  }

  /** Reading one frame: its payload and what follows it, or nothing if the bytes run out. */
  function Decode(b: Bytes): (r: Option<(Bytes, Bytes)>)
    ensures r.Some? ==> |r.value.1| < |b|
  {
    match Take(2, b)
    case None => None
    case Some((head, rest)) =>
      var code := LengthCode(head[1]);
      match Take(ExtensionSize(code), rest)
      case None => None
      case Some((extension, rest)) => DecodeBody(HasMask(head[1]), if code < 126 then code else Unsigned(extension), rest)
  }

  function LengthCode(b: bv8): nat {
    (b & 127) as int
  }

  predicate HasMask(b: bv8) {
    b & 128 != 0
  }

  function ExtensionSize(code: nat): nat {
    if code == 126 then 2 else if code == 127 then 8 else 0
  }

  function DecodeBody(masked: bool, length: nat, b: Bytes): (r: Option<(Bytes, Bytes)>)
    ensures r.Some? ==> |r.value.1| <= |b|
  {
    match Take(if masked then 4 else 0, b)
    case None => None
    case Some((mask, rest)) =>
      match Take(length, rest)
      case None => None
      case Some((payload, rest)) => Some((if masked then Mask(payload, mask) else payload, rest))
  }

  lemma MaskTwice(payload: Bytes, mask: Bytes)
    requires |mask| == 4
    ensures Mask(Mask(payload, mask), mask) == payload
  {
  }

  lemma TakeFront(a: Bytes, b: Bytes)
    ensures Take(|a|, a + b) == Some((a, b))
  {
  }

  lemma BodyReads(mask: Option<Bytes>, payload: Bytes, rest: Bytes)
    requires mask.Some? ==> |mask.value| == 4
    ensures DecodeBody(mask.Some?, |payload|, Body(mask, payload) + rest) == Some((payload, rest))
  {
    if mask.Some? {
      var m := mask.value;
      assert m + Mask(payload, m) + rest == m + (Mask(payload, m) + rest);
      TakeFront(m, Mask(payload, m) + rest);
      TakeFront(Mask(payload, m), rest);
      MaskTwice(payload, m);
    } else {
      TakeFront([], payload + rest);
      assert [] + (payload + rest) == payload + rest;
      TakeFront(payload, rest);
    }
  }

  lemma SizeByteReads(masked: bool, form: Form, size: nat)
    requires FitsForm(form, size)
    ensures LengthCode(SizeByte(masked, form, size)) == SizeCode(form, size)
    ensures HasMask(SizeByte(masked, form, size)) <==> masked
  {
    var code := SizeCode(form, size);
    ShortLength(code);
    if !masked { assert 0 | (code as bv8) == code as bv8; }
  }

  lemma ExtensionReads(form: Form, size: nat)
    requires FitsForm(form, size)
    ensures |Extension(form, size)| == ExtensionSize(SizeCode(form, size))
    ensures (if SizeCode(form, size) < 126 then SizeCode(form, size) else Unsigned(Extension(form, size))) == size
  {
    if form.Medium? { UnsignedInvertsBigEndian(size, 2); }
    if form.Long? { UnsignedInvertsBigEndian(size, 8); }
  }

  /** Every frame, masked or not, in any form that holds its size, gives back its payload and leaves
      the stream at the next byte. */
  lemma DecodeInvertsFrame(first: bv8, mask: Option<Bytes>, form: Form, payload: Bytes, rest: Bytes)
    requires FitsForm(form, |payload|)
    requires mask.Some? ==> |mask.value| == 4
    ensures Decode(FrameOf(first, mask, form, payload) + rest) == Some((payload, rest))
  {
    hide DecodeBody, Unsigned, Extension, SizeByte, SizeCode, LengthCode, HasMask, ExtensionSize, Body, FitsForm, Take;
    var head := [first, SizeByte(mask.Some?, form, |payload|)];
    var extension, body := Extension(form, |payload|), Body(mask, payload);
    assert FrameOf(first, mask, form, payload) + rest == head + (extension + (body + rest));
    SizeByteReads(mask.Some?, form, |payload|);
    ExtensionReads(form, |payload|);
    TakeFront(head, extension + (body + rest));
    TakeFront(extension, body + rest);
    BodyReads(mask, payload, rest);
  }

  lemma TakeMore(size: nat, b: Bytes, c: Bytes)
    ensures Take(size, b).Some? ==> Take(size, b + c) == Some((Take(size, b).value.0, Take(size, b).value.1 + c))
  {
    if size <= |b| {
      assert (b + c)[..size] == b[..size] && (b + c)[size..] == b[size..] + c;
    }
  }

  lemma BodyMore(masked: bool, length: nat, b: Bytes, c: Bytes)
    ensures var r := DecodeBody(masked, length, b);
      r.Some? ==> DecodeBody(masked, length, b + c) == Some((r.value.0, r.value.1 + c))
  {
    hide Mask;
    var size := if masked then 4 else 0;
    TakeMore(size, b, c);
    var m := Take(size, b);
    if m.Some? { TakeMore(length, m.value.1, c); }
  }

  /** Bytes that arrive later do not change what has been decoded. */
  lemma DecodeMore(b: Bytes, c: Bytes)
    ensures var r := Decode(b); r.Some? ==> Decode(b + c) == Some((r.value.0, r.value.1 + c))
  {
    hide DecodeBody, Take, LengthCode, HasMask, ExtensionSize, Unsigned;
    TakeMore(2, b, c);
    var h := Take(2, b);
    HeadSize(b);
    if h.Some? {
      var (head, rest) := h.value;
      var code := LengthCode(head[1]);
      TakeMore(ExtensionSize(code), rest, c);
      var e := Take(ExtensionSize(code), rest);
      if e.Some? {
        BodyMore(HasMask(head[1]), if code < 126 then code else Unsigned(e.value.0), e.value.1, c);
      }
    }
  }

  lemma HeadSize(b: Bytes)
    ensures Take(2, b).Some? ==> |Take(2, b).value.0| == 2
  {
  }

  /** No proper prefix of a frame decodes. */
  lemma TruncatedFrameIsIncomplete(first: bv8, mask: Option<Bytes>, form: Form, payload: Bytes, n: nat)
    requires FitsForm(form, |payload|)
    requires mask.Some? ==> |mask.value| == 4
    requires n < |FrameOf(first, mask, form, payload)|
    ensures Decode(FrameOf(first, mask, form, payload)[..n]) == None
  {
    hide FrameOf, Decode;
    var f := FrameOf(first, mask, form, payload);
    DecodeInvertsFrame(first, mask, form, payload, []);
    assert f + [] == f && f[..n] + f[n..] == f;
    DecodeMore(f[..n], f[n..]);
  }

  lemma DivideBack(q: nat, r: nat)
    requires r < 256
    ensures (q * 256 + r) / 256 == q && (q * 256 + r) % 256 == r
  {
  }

  lemma {:induction false} BigEndianInvertsUnsigned(b: Bytes)
    ensures BigEndian(Unsigned(b), |b|) == b
  {
    if b != [] {
      var front, last := b[..|b| - 1], b[|b| - 1];
      BigEndianInvertsUnsigned(front);
      ByteBack(last);
      DivideBack(Unsigned(front), last as int);
      assert front + [last] == b;
    }
  }

  lemma ByteBack(b: bv8)
    ensures (b as int) < 256 && (b as int) as bv8 == b
  {
  }

  lemma LowBits(b: bv8)
    ensures LengthCode(b) < 128 && (LengthCode(b) as bv8) == b & 127
  {
  }

  lemma HighBit(b: bv8)
    ensures b == (if HasMask(b) then 0x80 else 0) | (b & 127)
  {
  }

  lemma TakeSplits(size: nat, b: Bytes)
    ensures Take(size, b).Some? ==> |Take(size, b).value.0| == size && b == Take(size, b).value.0 + Take(size, b).value.1
  {
  }

  lemma BodyIsFrameBody(masked: bool, length: nat, b: Bytes) returns (mask: Option<Bytes>)
    requires DecodeBody(masked, length, b).Some?
    ensures mask.Some? <==> masked
    ensures mask.Some? ==> |mask.value| == 4
    ensures var (payload, rest) := DecodeBody(masked, length, b).value; |payload| == length && b == Body(mask, payload) + rest
  {
    var size := if masked then 4 else 0;
    TakeSplits(size, b);
    var (m, after) := Take(size, b).value;
    TakeSplits(length, after);
    var (raw, rest) := Take(length, after).value;
    if masked {
      MaskTwice(raw, m);
      mask := Some(m);
      assert m + raw + rest == m + (raw + rest);
    } else {
      mask := None;
      assert m + (raw + rest) == raw + rest;
    }
  }

  /** The form a length byte announces. */
  function FormOf(code: nat): Form {
    if code < 126 then Short else if code == 126 then Medium else Long
  }

  /** The length byte and what it announces are those of a frame of that form. */
  lemma LengthIsWritten(b: bv8, extension: Bytes)
    requires |extension| == ExtensionSize(LengthCode(b))
    ensures var code := LengthCode(b); var form := FormOf(code); var length := if code < 126 then code else Unsigned(extension);
      FitsForm(form, length) && b == SizeByte(HasMask(b), form, length) && extension == Extension(form, length)
  {
    hide LengthCode, HasMask, Unsigned, Power256, BigEndian;
    LowBits(b);
    HighBit(b);
    UnsignedFits(extension);
    BigEndianInvertsUnsigned(extension);
  }

  /** Conversely, whatever decodes is a frame followed by the rest of the stream. */
  lemma DecodesOnlyFrames(b: Bytes) returns (first: bv8, mask: Option<Bytes>, form: Form)
    requires Decode(b).Some?
    ensures FitsForm(form, |Decode(b).value.0|)
    ensures mask.Some? ==> |mask.value| == 4
    ensures b == FrameOf(first, mask, form, Decode(b).value.0) + Decode(b).value.1
  {
    hide DecodeBody, Take, HasMask, LengthCode, Unsigned, Body, Extension, SizeByte, FormOf, FitsForm, ExtensionSize;
    TakeSplits(2, b);
    var (head, after) := Take(2, b).value;
    var code, masked := LengthCode(head[1]), HasMask(head[1]);
    TakeSplits(ExtensionSize(code), after);
    var (extension, tail) := Take(ExtensionSize(code), after).value;
    var length := if code < 126 then code else Unsigned(extension);
    LengthIsWritten(head[1], extension);
    mask := BodyIsFrameBody(masked, length, tail);
    first, form := head[0], FormOf(code);
    var (payload, rest) := DecodeBody(masked, length, tail).value;
    assert head == [first, SizeByte(masked, form, length)];
    Parts(head, extension, Body(mask, payload), rest);
  }

  lemma Parts(a: Bytes, b: Bytes, c: Bytes, d: Bytes)
    ensures a + (b + (c + d)) == a + b + c + d
  {
  }

  /** The number bytes stand for, the first counting most. */
  function PlaceValue(b: Bytes): nat {
    if b == [] then 0 else b[0] as int * Power256(|b| - 1) + PlaceValue(b[1..])
  }

  lemma {:induction false} PlacesAreUnsigned(b: Bytes)
    ensures Unsigned(b) == PlaceValue(b)
  {
    if |b| > 1 {
      var front, last := b[..|b| - 1], b[|b| - 1];
      PlacesAreUnsigned(front);
      PlacesAreUnsigned(b[1..]);
      PlacesAreUnsigned(front[1..]);
      assert b[1..][..|b| - 2] == front[1..];
      assert front[0] == b[0];
      Regroup(b[0] as int, Power256(|b| - 2), PlaceValue(front[1..]), last as int);
    }
  }

  lemma Regroup(a: int, p: int, c: int, d: int)
    ensures (a * p + c) * 256 + d == a * (256 * p) + (c * 256 + d)
  {
  }

  lemma Powers()
    ensures Power256(2) == 0x1_0000 && Power256(8) == 0x1_0000_0000_0000_0000
  {
    assert Power256(2) == 256 * 256;
    assert Power256(4) == 0x1_0000 * 0x1_0000;
    assert Power256(6) == 0x1_0000 * 0x1_0000_0000;
  }

  /** A frame byte by byte, as sections 5.2 and 5.3 of RFC 6455 lay it out: the length in the low seven bits
      of the second byte, or 126 or 127 there and the length after it, most significant byte first; then
      the mask; then the payload, octet `i` combined with octet `i` modulo 4 of the mask. */
  lemma FrameLayout(first: bv8, mask: Option<Bytes>, form: Form, payload: Bytes)
    requires FitsForm(form, |payload|)
    requires mask.Some? ==> |mask.value| == 4
    ensures var f := FrameOf(first, mask, form, payload);
      var h := match form case Short => 2 case Medium => 4 case Long => 10;
      && |f| == h + (if mask.Some? then 4 else 0) + |payload|
      && f[0] == first
      && (f[1] & 128 != 0 <==> mask.Some?)
      && (f[1] & 127) as int == (match form case Short => |payload| case Medium => 126 case Long => 127)
      && (form.Short? ==> |payload| < 126)
      && (form.Medium? ==> |payload| < 0x1_0000)
      && (form.Long? ==> |payload| < 0x1_0000_0000_0000_0000)
      && (!form.Short? ==> PlaceValue(f[2..h]) == |payload|)
      && (mask.None? ==> f[h..] == payload)
      && (mask.Some? ==> f[h..h + 4] == mask.value && forall i :: 0 <= i < |payload| ==> f[h + 4 + i] == payload[i] ^ mask.value[i % 4])
  {
    hide Power256, Unsigned, PlaceValue, Extension, Body, SizeByte, Mask;
    var extension, body := Extension(form, |payload|), Body(mask, payload);
    Powers();
    SizeByteReads(mask.Some?, form, |payload|);
    ExtensionReads(form, |payload|);
    PlacesAreUnsigned(extension);
    Laid([first, SizeByte(mask.Some?, form, |payload|)], extension, body);
    BodyLaid(mask, payload);
  }

  lemma Laid(head: Bytes, extension: Bytes, body: Bytes)
    requires |head| == 2
    ensures var f, h := head + extension + body, 2 + |extension|;
      && |f| == h + |body| && f[0] == head[0] && f[1] == head[1] && f[2..h] == extension && f[h..] == body
      && (|body| >= 4 ==> f[h..h + 4] == body[..4]) && forall i :: 0 <= i < |body| ==> f[h + i] == body[i]
  {
  }

  lemma BodyLaid(mask: Option<Bytes>, payload: Bytes)
    requires mask.Some? ==> |mask.value| == 4
    ensures var body := Body(mask, payload);
      && (mask.None? ==> body == payload)
      && (mask.Some? ==> |body| == 4 + |payload| && body[..4] == mask.value)
      && (mask.Some? ==> forall i :: 0 <= i < |payload| ==> body[4 + i] == payload[i] ^ mask.value[i % 4])
  {
  }

  /** A client frame is masked, final, textual, and uses the shortest form that holds its size. */
  lemma ClientFrameIsMinimal(payload: Bytes, mask: Bytes, form: Form)
    requires |payload| < Power256(8) && |mask| == 4 && FitsForm(form, |payload|)
    ensures var f := ClientFrame(payload, mask);
      f[0] == 0x81 && HasMask(f[1]) && |f| <= |FrameOf(0x81, Some(mask), form, payload)|
  {
  }

  // ---------------------------------------------------------------- frame sequences

  datatype Frame = Frame(first: bv8, mask: Option<Bytes>, form: Form, payload: Bytes)

  predicate Sound(f: Frame) {
    FitsForm(f.form, |f.payload|) && (f.mask.Some? ==> |f.mask.value| == 4)
  }

  function Written(f: Frame): Bytes
    requires Sound(f)
  {
    FrameOf(f.first, f.mask, f.form, f.payload)
  }

  predicate AllSound(frames: seq<Frame>) {
    forall i :: 0 <= i < |frames| ==> Sound(frames[i])
  }

  function Stream(frames: seq<Frame>): Bytes
    requires AllSound(frames)
  {
    if frames == [] then [] else Written(frames[0]) + Stream(frames[1..])
  }

  function Payloads(frames: seq<Frame>): seq<Bytes> {
    if frames == [] then [] else [frames[0].payload] + Payloads(frames[1..])
  }

  /** Reading frames until one is incomplete. */
  function DecodeAll(b: Bytes): (seq<Bytes>, Bytes)
    decreases |b|
  {
    match Decode(b)
    case None => ([], b)
    case Some((payload, rest)) => ([payload] + DecodeAll(rest).0, DecodeAll(rest).1)
  }

  /** A stream of frames decodes to their payloads, one for one, and to what follows the last. */
  lemma {:induction false} StreamDecodes(frames: seq<Frame>, tail: Bytes)
    requires AllSound(frames) && Decode(tail) == None
    ensures DecodeAll(Stream(frames) + tail) == (Payloads(frames), tail)
  {
    hide Decode, FrameOf;
    if frames == [] {
      assert Stream(frames) + tail == tail;
    } else {
      var f := frames[0];
      StreamDecodes(frames[1..], tail);
      DecodeInvertsFrame(f.first, f.mask, f.form, f.payload, Stream(frames[1..]) + tail);
      assert Stream(frames) + tail == Written(f) + (Stream(frames[1..]) + tail);
    }
  }

  // ---------------------------------------------------------------- replies

  /** A decoded JSON message, as far as the client looks at it. */
  datatype Message = Message(id: Option<nat>, error: Option<string>, result: string)

  /** The JSON codec; parsing may fail. */
  datatype Codec = Codec(parse: Bytes -> Option<Message>, encode: (nat, string) -> Bytes)

  datatype CallError = Closed | BadMessage | TooLong | Remote(message: string)

  function Answer(m: Message): Result<string, CallError> {
    match m.error case Some(text) => Err(Remote(text)) case None => Ok(m.result)
  }

  /** Reading messages until the one with the wanted id. */
  function AwaitReply(codec: Codec, id: nat, b: Bytes): (Result<string, CallError>, Bytes)
    decreases |b|
  {
    match Decode(b)
    case None => (Err(Closed), [])
    case Some((payload, rest)) =>
      match codec.parse(payload)
      case None => (Err(BadMessage), rest)
      case Some(m) => if m.id == Some(id) then (Answer(m), rest) else AwaitReply(codec, id, rest)
  }

  /** Messages for other requests, and events. */
  ghost predicate ForOthers(codec: Codec, id: nat, frames: seq<Frame>) {
    forall i :: 0 <= i < |frames| ==> codec.parse(frames[i].payload).Some? && codec.parse(frames[i].payload).value.id != Some(id)
  }

  /** Events and replies to other requests are passed over; the call gets the first reply to it -- the
      remote error with its text if the reply holds one, else the reply's result -- and leaves what follows
      that reply unread. */
  lemma {:induction false} OwnReplyIsFound(codec: Codec, id: nat, others: seq<Frame>, reply: Frame, rest: Bytes)
    requires AllSound(others) && Sound(reply) && ForOthers(codec, id, others)
    requires codec.parse(reply.payload).Some? && codec.parse(reply.payload).value.id == Some(id)
    ensures var m, r := codec.parse(reply.payload).value, AwaitReply(codec, id, Stream(others) + (Written(reply) + rest));
      && r.1 == rest
      && (m.error.Some? ==> r.0 == Err(Remote(m.error.value)))
      && (m.error.None? ==> r.0 == Ok(m.result))
  {
    hide Decode, FrameOf;
    if others == [] {
      assert Stream(others) + (Written(reply) + rest) == Written(reply) + rest;
      DecodeInvertsFrame(reply.first, reply.mask, reply.form, reply.payload, rest);
    } else {
      var f := others[0];
      var more := Stream(others[1..]) + (Written(reply) + rest);
      OwnReplyIsFound(codec, id, others[1..], reply, rest);
      DecodeInvertsFrame(f.first, f.mask, f.form, f.payload, more);
      assert Stream(others) + (Written(reply) + rest) == Written(f) + more;
    }
  }

  /** Without an own reply the wait ends in an error: at the first message that cannot be parsed, with what
      follows it unread, or at the end of the stream. */
  lemma {:induction false} NoReplyIsAnError(codec: Codec, id: nat, others: seq<Frame>, tail: Bytes)
    requires AllSound(others) && ForOthers(codec, id, others)
    requires Decode(tail).Some? ==> codec.parse(Decode(tail).value.0).None?
    ensures AwaitReply(codec, id, Stream(others) + tail) ==
      if Decode(tail).Some? then (Err(BadMessage), Decode(tail).value.1) else (Err(Closed), [])
  {
    hide Decode, FrameOf;
    if others == [] {
      assert Stream(others) + tail == tail;
    } else {
      var f := others[0];
      NoReplyIsAnError(codec, id, others[1..], tail);
      DecodeInvertsFrame(f.first, f.mask, f.form, f.payload, Stream(others[1..]) + tail);
      assert Stream(others) + tail == Written(f) + (Stream(others[1..]) + tail);
    }
  }

  // ---------------------------------------------------------------- the client

  /** A connected socket: what is still to arrive before the other side closes, and what was sent.
      Each read hands over some of it, in pieces of any size. */
  class Socket {
    var incoming: Bytes
    var outgoing: Bytes

    constructor (incoming: Bytes)
      ensures this.incoming == incoming && outgoing == []
    {
      this.incoming, outgoing := incoming, [];
    }

    method Recv(max: nat) returns (part: Bytes)
      requires max > 0
      modifies `incoming
      ensures part + incoming == old(incoming) && |part| <= max
      ensures part == [] <==> old(incoming) == []
    {
      if incoming == [] { return []; }
      var n: int := *;
      if n < 1 || n > max || n > |incoming| { n := 1; }
      part, incoming := incoming[..n], incoming[n..];
    }

    method SendAll(data: Bytes)
      modifies `outgoing
      ensures outgoing == old(outgoing) + data
    {
      outgoing := outgoing + data;
    }
  }

  class Client {
    const sock: Socket
    const codec: Codec
    var counter: nat

    constructor (sock: Socket, codec: Codec)
      ensures this.sock == sock && this.codec == codec && counter == 0
    {
      this.sock, this.codec, counter := sock, codec, 0;
    }

    /** Exactly `size` bytes, however they arrive; an error only if the stream ends first. */
    method Read(size: nat) returns (r: Result<Bytes, CallError>)
      modifies sock`incoming
      ensures match Take(size, old(sock.incoming))
        case Some((data, rest)) => r == Ok(data) && sock.incoming == rest
        case None => r == Err(Closed) && sock.incoming == []
    {
      var data: Bytes := [];
      while |data| < size
        invariant |data| <= size && data + sock.incoming == old(sock.incoming)
        decreases size - |data|
      {
        var part := sock.Recv(size - |data|);
        if part == [] { return Err(Closed); }
        data := data + part;
      }
      assert old(sock.incoming)[..size] == data && old(sock.incoming)[size..] == sock.incoming;
      r := Ok(data);
    }

    /** One frame's payload, read piece by piece. */
    method ReceivePayload() returns (r: Result<Bytes, CallError>)
      modifies sock`incoming
      ensures match Decode(old(sock.incoming))
        case Some((payload, rest)) => r == Ok(payload) && sock.incoming == rest
        case None => r == Err(Closed) && sock.incoming == []
    {
      hide Unsigned;
      r := Read(2);
      if r.Err? { return; }
      var head := r.value;
      var length: nat := LengthCode(head[1]);
      if length == 126 {
        r := Read(2);
        if r.Err? { return; }
        length := Unsigned(r.value);
      } else if length == 127 {
        r := Read(8);
        if r.Err? { return; }
        length := Unsigned(r.value);
      }
      var mask: Option<Bytes> := None;
      if HasMask(head[1]) {
        r := Read(4);
        if r.Err? { return; }
        mask := Some(r.value);
      }
      r := Read(length);
      if r.Err? { return; }
      if mask.Some? {
        r := Ok(Mask(r.value, mask.value));
      }
    }

    method Receive() returns (r: Result<Message, CallError>)
      modifies sock`incoming
      ensures match Decode(old(sock.incoming))
        case Some((payload, rest)) => sock.incoming == rest &&
          r == (match codec.parse(payload) case Some(m) => Ok(m) case None => Err(BadMessage))
        case None => r == Err(Closed) && sock.incoming == []
    {
      hide Decode;
      var p := ReceivePayload();
      if p.Err? { return Err(p.error); }
      r := match codec.parse(p.value) case Some(m) => Ok(m) case None => Err(BadMessage);
    }

    /** Sends one request under a new id and waits for its reply. */
    method Call(request: string, mask: Bytes) returns (r: Result<string, CallError>)
      requires |mask| == 4
      modifies this, sock
      ensures counter == old(counter) + 1
      ensures var payload := codec.encode(counter, request);
        if |payload| < Power256(8) then
          && sock.outgoing == old(sock.outgoing) + ClientFrame(payload, mask)
          && (r, sock.incoming) == AwaitReply(codec, counter, old(sock.incoming))
        else
          r == Err(TooLong) && sock.outgoing == old(sock.outgoing) && sock.incoming == old(sock.incoming)
    {
      hide Decode, FrameOf, Power256;
      counter := counter + 1;
      var payload := codec.encode(counter, request);
      if |payload| >= Power256(8) { return Err(TooLong); }
      sock.SendAll(ClientFrame(payload, mask));
      while true
        invariant AwaitReply(codec, counter, old(sock.incoming)) == AwaitReply(codec, counter, sock.incoming)
        invariant counter == old(counter) + 1 && sock.outgoing == old(sock.outgoing) + ClientFrame(payload, mask)
        decreases |sock.incoming|
      {
        var response := Receive();
        if response.Err? { return Err(response.error); }
        if response.value.id == Some(counter) {
          return Answer(response.value);
        }
      }
    }
  }
}

/**
 Voice packets: the RTP header of RFC 3550 section 5.1, its extension of section 5.3.1, an AEAD as in RFC 5116 section 2
 around the Opus data, and the nonce counter at the end.
 */
module Rtp {
  import opened Wrappers

  type byte = x: int | 0 <= x < 256

  type bytes = seq<byte>

  const WORD16 := 0x1_0000
  const WORD32 := 0x1_0000_0000

  type word16 = x: int | 0 <= x < WORD16

  type word32 = x: int | 0 <= x < WORD32

  const HEADER := 12
  const BUFFER := 2048

  function BE16(n: word16): (b: bytes)
    ensures |b| == 2
  {
    [n / 256, n % 256]
  }

  function Uint16(b: bytes): word16
    requires |b| == 2
  {
    (b[0] as int) * 256 + b[1] as int
  }

  function BE32(n: word32): (b: bytes)
    ensures |b| == 4
  {
    BE16(n / WORD16) + BE16(n % WORD16)
  }

  function Uint32(b: bytes): word32
    requires |b| == 4
  {
    Uint16(b[..2]) * WORD16 + Uint16(b[2..])
  }

  function Reversed(b: bytes): (r: bytes)
    requires |b| == 4
    ensures |r| == 4
  {
    [b[3], b[2], b[1], b[0]]
  }

  function LE32(n: word32): (b: bytes)
    ensures |b| == 4
  {
    Reversed(BE32(n))
  }

  function UintLE32(b: bytes): word32
    requires |b| == 4
  {
    Uint32(Reversed(b))
  }

  lemma Word16RoundTrip(n: word16)
    ensures Uint16(BE16(n)) == n
  {
  }

  lemma Word32RoundTrip(n: word32)
    ensures Uint32(BE32(n)) == n
  {
    var b := BE32(n);
    assert b[..2] == BE16(n / WORD16) && b[2..] == BE16(n % WORD16);
    Word16RoundTrip(n / WORD16);
    Word16RoundTrip(n % WORD16);
  }

  lemma BigBytesRoundTrip(b: bytes)
    requires |b| == 4
    ensures BE32(Uint32(b)) == b
  {
    var hi, lo := Uint16(b[..2]), Uint16(b[2..]);
    assert (hi * WORD16 + lo) / WORD16 == hi && (hi * WORD16 + lo) % WORD16 == lo;
  }

  lemma Bytes32RoundTrip(b: bytes)
    requires |b| == 4
    ensures LE32(UintLE32(b)) == b
  {
    BigBytesRoundTrip(Reversed(b));
    assert Reversed(Reversed(b)) == b;
  }

  lemma LittleRoundTrip(n: word32)
    ensures UintLE32(LE32(n)) == n
  {
    Word32RoundTrip(n);
    assert Reversed(Reversed(BE32(n))) == BE32(n);
  }

  /** An AEAD under one key: seal and open take nonce, text and associated data. */
  datatype Aead = Aead(seal: (bytes, bytes, bytes) -> bytes, open: (bytes, bytes, bytes) -> Option<bytes>)

  ghost predicate Lawful(a: Aead) {
    forall nonce, plain, aad :: a.open(nonce, a.seal(nonce, plain, aad), aad) == Some(plain)
  }

  const ZEROS: bytes := [0, 0, 0, 0, 0, 0, 0, 0]

  /** The 12-byte nonce around a 4-byte counter. */
  function Nonce(counter: bytes): bytes {
    counter + ZEROS
  }

  /** What the receiver makes of a datagram before DAVE: the header fields and the Opus bytes. */
  datatype Packet = Packet(kind: bytes, sequence: word16, timestamp: word32, ssrc: word32, opus: bytes)

  function CsrcCount(first: byte): nat {
    first % 16
  }

  predicate HasExtension(first: byte) {
    first / 16 % 2 == 1
  }

  /** The masks the receiver puts on the first byte, as the fields they are. */
  lemma MasksAreFields(b: bv8)
    ensures CsrcCount(b as int) == (b & 0x0F) as int
    ensures HasExtension(b as int) <==> b & 0x10 != 0
    ensures b as int / 64 == 2 <==> b & 0xC0 == 0x80
  {
  }

  /** How a datagram divides: its associated data, and the length of the encrypted extension payload. */
  datatype Layout = Layout(aad: nat, extension: nat)

  function BaseLength(d: bytes): nat
    requires d != []
  {
    HEADER + 4 * CsrcCount(d[0])
  }

  /** The layout; None for a datagram that is not RTP version 2 or too short for what its header announces. */
  function LayoutOf(d: bytes): (l: Option<Layout>)
    ensures l.Some? ==> HEADER <= l.value.aad <= |d| - 4
  {
    if |d| < HEADER || d[0] / 64 != 2 then None
    else
      var base := BaseLength(d);
      if |d| < base then None
      else if !HasExtension(d[0]) then if |d| < base + 4 then None else Some(Layout(base, 0))
      else if |d| < base + 8 then None
      else Some(Layout(base + 4, 4 * Uint16(d[base + 2..base + 4])))
  }

  /** opusReceiver on one datagram. */
  function Parse(d: bytes, aead: Option<Aead>): Option<Packet> {
    if LayoutOf(d).None? || aead.None? then None
    else
      var l := LayoutOf(d).value;
      match aead.value.open(Nonce(d[|d| - 4..]), d[l.aad..|d| - 4], d[..l.aad])
      case None => None
      case Some(plain) =>
        if |plain| < l.extension then None
        else Some(Packet(d[..2], Uint16(d[2..4]), Uint32(d[4..8]), Uint32(d[8..12]), plain[l.extension..]))
  }

  /** Which datagrams the receiver drops: no RTP, shorter than announced, not authentic, or an extension cut short. */
  lemma DroppedExactly(d: bytes, aead: Aead)
    ensures Parse(d, None).None?
    ensures |d| < 12 ==> Parse(d, Some(aead)).None?
    ensures |d| >= 12 ==>
      var x := if d[0] / 16 % 2 == 1 then 4 else 0;
      var aad := 12 + 4 * (d[0] % 16) + x;
      Parse(d, Some(aead)).None? <==>
        || d[0] / 64 != 2 || |d| < aad + 4
        || var plain := aead.open(d[|d| - 4..] + [0, 0, 0, 0, 0, 0, 0, 0], d[aad..|d| - 4], d[..aad]);
           plain.None? || (x == 4 && |plain.value| < 4 * (256 * (d[aad - 2] as int) + d[aad - 1] as int))
  {
    if |d| >= 12 && HasExtension(d[0]) && |d| >= BaseLength(d) + 4 {
      var base := BaseLength(d);
      assert d[base + 2..base + 4] == [d[base + 2], d[base + 3]];
    }
  }

  lemma Within(buffer: array<byte>, length: nat, from: nat, to: nat)
    requires from <= to <= length <= buffer.Length
    ensures buffer[..length][from..to] == buffer[from..to]
  {
  }

  method ReadLayout(buffer: array<byte>, length: nat) returns (l: Option<Layout>)
    requires buffer.Length == BUFFER && length <= BUFFER
    ensures l == LayoutOf(buffer[..length])
  {
    ghost var d := buffer[..length];
    if length < 12 || buffer[0] / 64 != 2 {
      return None;
    }
    assert d[0] == buffer[0];
    var base := 12 + 4 * (buffer[0] % 16);
    if length < base {
      return None;
    }
    var aad, extension := base, 0;
    if buffer[0] / 16 % 2 != 0 {
      if length < base + 4 {
        return None;
      }
      Within(buffer, length, base + 2, base + 4);
      extension := 4 * Uint16(buffer[base + 2..base + 4]);
      aad := base + 4;
    }
    return if length < aad + 4 then None else Some(Layout(aad, extension));
  }

  /** The nonce of a datagram, read off its last four bytes. */
  method ReadNonce(counter: bytes, nonce: array<byte>)
    requires |counter| == 4 && nonce.Length == 12 && nonce[4..] == ZEROS
    modifies nonce
    ensures nonce[..] == Nonce(counter)
  {
    PutUintLE32(nonce, UintLE32(counter));
    Bytes32RoundTrip(counter);
    assert nonce[..] == nonce[..4] + nonce[4..];
  }

  /** The loop body on the receive buffer, whose tail still holds bytes of earlier datagrams. */
  method Receive(buffer: array<byte>, length: nat, nonce: array<byte>, aead: Option<Aead>) returns (p: Option<Packet>)
    requires buffer.Length == BUFFER && length <= BUFFER && nonce.Length == 12 && nonce[4..] == ZEROS
    requires nonce != buffer
    modifies nonce
    ensures p == Parse(buffer[..length], aead) && nonce[4..] == ZEROS
  {
    hide LayoutOf, Uint16, Uint32;
    ghost var d := buffer[..length];
    var l := ReadLayout(buffer, length);
    if l.None? {
      return None;
    }
    var aad := l.value.aad;
    Within(buffer, length, length - 4, length);
    Within(buffer, length, aad, length - 4);
    Within(buffer, length, 0, aad);
    ReadNonce(buffer[length - 4..length], nonce);
    if aead.None? {
      return None;
    }
    match aead.value.open(nonce[..], buffer[aad..length - 4], buffer[..aad])
    case None => return None;
    case Some(plain) =>
      if |plain| < l.value.extension {
        return None;
      }
      p := Some(ReadFields(buffer, length, plain[l.value.extension..]));
  }

  function ReadFields(buffer: array<byte>, length: nat, opus: bytes): (p: Packet)
    requires HEADER <= length <= buffer.Length
    reads buffer
    ensures var d := buffer[..length]; p == Packet(d[..2], Uint16(d[2..4]), Uint32(d[4..8]), Uint32(d[8..12]), opus)
  {
    Within(buffer, length, 0, 2);
    Within(buffer, length, 2, 4);
    Within(buffer, length, 4, 8);
    Within(buffer, length, 8, 12);
    Packet(buffer[..2], Uint16(buffer[2..4]), Uint32(buffer[4..8]), Uint32(buffer[8..12]), opus)
  }

  method PutUintLE32(a: array<byte>, n: word32)
    requires a.Length >= 4
    modifies a
    ensures a[..4] == LE32(n) && a[4..] == old(a[4..])
  {
    var b := LE32(n);
    a[0], a[1], a[2], a[3] := b[0], b[1], b[2], b[3];
    assert a[..4] == b;
  }

  /** A header extension: the profile's two bytes and the payload in 32-bit words. */
  datatype Extension = Extension(profile: word16, words: seq<bytes>)

  predicate ValidExtension(e: Option<Extension>) {
    e.Some? ==>
      && |e.value.words| < WORD16
      && forall w <- e.value.words :: |w| == 4
  }

  function Joined(words: seq<bytes>): (b: bytes)
    requires forall w <- words :: |w| == 4
    ensures |b| == 4 * |words|
  {
    if words == [] then [] else words[0] + Joined(words[1..])
  }

  function Csrcs(ids: seq<word32>): (b: bytes)
    ensures |b| == 4 * |ids|
  {
    if ids == [] then [] else BE32(ids[0]) + Csrcs(ids[1..])
  }

  /** The fields of any unpadded RTP packet. */
  datatype Fields = Fields(
    kind: byte, sequence: word16, timestamp: word32, ssrc: word32, csrcs: seq<word32>, extension: Option<Extension>)

  predicate ValidFields(f: Fields) {
    |f.csrcs| <= 15 && ValidExtension(f.extension)
  }

  /** Version 2, no padding, the X bit and the CSRC count. */
  function FirstByte(f: Fields): byte
    requires ValidFields(f)
  {
    0x80 + (if f.extension.Some? then 0x10 else 0) + |f.csrcs|
  }

  function FixedHeader(f: Fields): (h: bytes)
    requires ValidFields(f)
    ensures |h| == HEADER
  {
    [FirstByte(f), f.kind] + BE16(f.sequence) + BE32(f.timestamp) + BE32(f.ssrc)
  }

  /** The unencrypted part: fixed header, CSRCs, and of an extension only the first four bytes. */
  function Preamble(f: Fields): (h: bytes)
    requires ValidFields(f)
    ensures |h| == HEADER + 4 * |f.csrcs| + if f.extension.Some? then 4 else 0
  {
    FixedHeader(f) + Csrcs(f.csrcs) +
    match f.extension
    case None => []
    case Some(e) => BE16(e.profile) + BE16(|e.words|)
  }

  function ExtensionPayload(f: Fields): bytes
    requires ValidFields(f)
  {
    match f.extension
    case None => []
    case Some(e) => Joined(e.words)
  }

  /** A sealed packet: preamble, ciphertext of extension payload and Opus, nonce counter. */
  function Encode(f: Fields, opus: bytes, counter: bytes, aead: Aead): bytes
    requires ValidFields(f)
  {
    Preamble(f) + aead.seal(Nonce(counter), ExtensionPayload(f) + opus, Preamble(f)) + counter
  }

  lemma FixedHeaderFields(f: Fields)
    requires ValidFields(f)
    ensures var h := FixedHeader(f);
      && h[..2] == [FirstByte(f), f.kind] && Uint16(h[2..4]) == f.sequence
      && Uint32(h[4..8]) == f.timestamp && Uint32(h[8..12]) == f.ssrc
  {
    hide BE16, BE32, Uint16, Uint32, ValidFields;
    var h := FixedHeader(f);
    assert h[2..4] == BE16(f.sequence) && h[4..8] == BE32(f.timestamp) && h[8..12] == BE32(f.ssrc);
    Word16RoundTrip(f.sequence);
    Word32RoundTrip(f.timestamp);
    Word32RoundTrip(f.ssrc);
  }

  lemma FirstByteFields(f: Fields)
    requires ValidFields(f)
    ensures FirstByte(f) / 64 == 2 && CsrcCount(FirstByte(f)) == |f.csrcs|
    ensures HasExtension(FirstByte(f)) <==> f.extension.Some?
  {
  }

  lemma EncodedLayout(f: Fields, rest: bytes)
    requires ValidFields(f) && |rest| >= 4
    ensures LayoutOf(Preamble(f) + rest) == Some(Layout(|Preamble(f)|, |ExtensionPayload(f)|))
  {
    hide BE16, Uint16, FirstByte, CsrcCount, HasExtension;
    FirstByteFields(f);
    var d := Preamble(f) + rest;
    assert d[0] == FixedHeader(f)[0] == FirstByte(f);
    var base := BaseLength(d);
    if f.extension.Some? {
      var e := f.extension.value;
      assert d[base + 2..base + 4] == BE16(|e.words|);
      Word16RoundTrip(|e.words|);
    }
  }

  /** Receiving undoes sending: any header fields, any CSRCs, any extension, any Opus data. */
  lemma ParseInvertsEncode(f: Fields, opus: bytes, counter: bytes, aead: Aead)
    requires ValidFields(f) && |counter| == 4 && Lawful(aead)
    ensures Parse(Encode(f, opus, counter, aead), Some(aead)) ==
      Some(Packet([FirstByte(f), f.kind], f.sequence, f.timestamp, f.ssrc, opus))
  {
    hide LayoutOf, Preamble, ExtensionPayload, FixedHeader, FirstByte, Uint16, Uint32;
    var head, hidden := Preamble(f), ExtensionPayload(f) + opus;
    var text := aead.seal(Nonce(counter), hidden, head);
    var d := Encode(f, opus, counter, aead);
    assert d == head + (text + counter);
    EncodedLayout(f, text + counter);
    assert d[|d| - 4..] == counter && d[|head|..|d| - 4] == text && d[..|head|] == head;
    assert hidden[|ExtensionPayload(f)|..] == opus;
    HeaderInFront(f, text + counter);
    FixedHeaderFields(f);
  }

  lemma HeaderInFront(f: Fields, rest: bytes)
    requires ValidFields(f)
    ensures var d, h := Preamble(f) + rest, FixedHeader(f);
      d[..2] == h[..2] && d[2..4] == h[2..4] && d[4..8] == h[4..8] && d[8..12] == h[8..12]
  {
    hide FixedHeader;
    assert (Preamble(f) + rest)[..HEADER] == FixedHeader(f);
  }

  const RATE_FRAME := 960

  datatype Counters = Counters(sequence: word16, timestamp: word32, nonce: word32)

  /** An Opus frame and what meets it: the DAVE transform, the session key, a close or a failing write. */
  datatype Frame = Frame(transformed: Option<bytes>, aead: Option<Aead>, closes: bool, writes: bool)

  /** A datagram as transmitted, with the counters and the payload it was made from. */
  datatype Sent = Sent(at: Counters, payload: bytes, aead: Aead, datagram: bytes)

  function NextSequence(n: word16): word16 {
    if n == 0xFFFF then 0 else n + 1
  }

  /** The timestamp after a frame, with the 32-bit sum and the reset the code compares it against. */
  function NextTimestamp(t: word32, size: nat): word32 {
    if (t + size) % WORD32 >= 0xFFFF_FFFF then 0 else (t + size) % WORD32
  }

  function Spent(c: Counters): Counters {
    c.(nonce := (c.nonce + 1) % WORD32)
  }

  function Advanced(c: Counters): Counters {
    Counters(NextSequence(c.sequence), NextTimestamp(c.timestamp, RATE_FRAME), (c.nonce + 1) % WORD32)
  }

  /** The header fields of a sent packet: payload type 0x78, no marker, no CSRCs, no extension. */
  function SenderFields(c: Counters, ssrc: word32): (f: Fields)
    ensures ValidFields(f)
  {
    Fields(0x78, c.sequence, c.timestamp, ssrc, [], None)
  }

  function Datagram(c: Counters, ssrc: word32, payload: bytes, aead: Aead): bytes {
    Encode(SenderFields(c, ssrc), payload, LE32(c.nonce), aead)
  }

  lemma BytesOf32(n: word32)
    ensures BE32(n) == [n / 0x100_0000, n / 0x1_0000 % 256, n / 256 % 256, n % 256]
  {
  }

  /** What is on the wire: big-endian header fields, the nonce of its counter little-endian, and the counter again. */
  lemma DatagramOnTheWire(c: Counters, ssrc: word32, payload: bytes, aead: Aead)
    ensures
      var t, s, n := c.timestamp, ssrc, c.nonce;
      var header: bytes := [
        0x80, 0x78, c.sequence / 256, c.sequence % 256,
        t / 0x100_0000, t / 0x1_0000 % 256, t / 256 % 256, t % 256,
        s / 0x100_0000, s / 0x1_0000 % 256, s / 256 % 256, s % 256];
      var counter: bytes := [n % 256, n / 256 % 256, n / 0x1_0000 % 256, n / 0x100_0000];
      Datagram(c, ssrc, payload, aead)
        == header + aead.seal(counter + [0, 0, 0, 0, 0, 0, 0, 0], payload, header) + counter
  {
    hide BE32;
    BytesOf32(c.timestamp);
    BytesOf32(ssrc);
    BytesOf32(c.nonce);
    var f := SenderFields(c, ssrc);
    assert ExtensionPayload(f) + payload == payload;
    assert Preamble(f) == FixedHeader(f);
    var t, s, n := c.timestamp, ssrc, c.nonce;
    assert FixedHeader(f) == [
      0x80, 0x78, c.sequence / 256, c.sequence % 256,
      t / 0x100_0000, t / 0x1_0000 % 256, t / 256 % 256, t % 256,
      s / 0x100_0000, s / 0x1_0000 % 256, s / 256 % 256, s % 256];
    assert LE32(n) == [n % 256, n / 256 % 256, n / 0x1_0000 % 256, n / 0x100_0000];
  }

  /** Whether the frame gets as far as a write that works. */
  predicate GoesOut(f: Frame) {
    f.transformed.Some? && f.aead.Some? && !f.closes && f.writes
  }

  /** Whether the sender stops at this frame. */
  predicate Ends(f: Frame) {
    f.transformed.Some? && f.aead.Some? && (f.closes || !f.writes)
  }

  function AfterFrame(c: Counters, f: Frame): Counters {
    if GoesOut(f) then Advanced(c) else if f.transformed.Some? then Spent(c) else c
  }

  /** opusSender: everything it transmits for a run of frames. */
  function Transmit(c: Counters, ssrc: word32, fs: seq<Frame>): seq<Sent>
    decreases |fs|
  {
    if fs == [] || Ends(fs[0]) then []
    else
      var rest := Transmit(AfterFrame(c, fs[0]), ssrc, fs[1..]);
      if GoesOut(fs[0]) then
        [Sent(c, fs[0].transformed.value, fs[0].aead.value,
              Datagram(c, ssrc, fs[0].transformed.value, fs[0].aead.value))] + rest
      else rest
  }

  /** With frames of 960 samples the sum never hits the reset value: it stays a multiple of 64 and 2^32 - 1 is odd. */
  lemma ResetIsUnreachable(k: nat)
    ensures NextTimestamp(RATE_FRAME * k % WORD32, RATE_FRAME) == RATE_FRAME * (k + 1) % WORD32
    ensures (RATE_FRAME * k % WORD32 + RATE_FRAME) % WORD32 != 0xFFFF_FFFF
  {
    var t := RATE_FRAME * k % WORD32;
    var q := RATE_FRAME * k / WORD32;
    assert t == 64 * (15 * k - 0x400_0000 * q);
    var r := (t + RATE_FRAME) % WORD32;
    var p := (t + RATE_FRAME) / WORD32;
    assert r == 64 * (15 * k - 0x400_0000 * q + 15 - 0x400_0000 * p);
    assert RATE_FRAME * (k + 1) == (q + p) * WORD32 + r;
    Remainder(q + p, r);
  }

  lemma Remainder(q: int, r: word32)
    ensures (q * WORD32 + r) % WORD32 == r
  {
  }

  lemma SequenceCounts(k: nat)
    ensures NextSequence(k % WORD16) == (k + 1) % WORD16
  {
  }

  /** Packet number i of a run carries sequence i mod 2^16 and timestamp 960 i mod 2^32. */
  lemma {:induction false} PacketsAreNumbered(c: Counters, ssrc: word32, fs: seq<Frame>, k: nat, i: nat)
    requires c.sequence == k % 0x1_0000 && c.timestamp == 960 * k % 0x1_0000_0000
    requires i < |Transmit(c, ssrc, fs)|
    ensures var s := Transmit(c, ssrc, fs)[i];
      s.at.sequence == (k + i) % 0x1_0000 && s.at.timestamp == 960 * (k + i) % 0x1_0000_0000
    decreases |fs|
  {
    if GoesOut(fs[0]) {
      ResetIsUnreachable(k);
      SequenceCounts(k);
      if i > 0 {
        PacketsAreNumbered(Advanced(c), ssrc, fs[1..], k + 1, i - 1);
      }
    } else {
      PacketsAreNumbered(AfterFrame(c, fs[0]), ssrc, fs[1..], k, i);
    }
  }

  /** What the far end reads from packet i of a run that began with the sender's counters at zero. */
  lemma ReceiverReadsNumbers(nonce: word32, ssrc: word32, fs: seq<Frame>, i: nat)
    requires i < |Transmit(Counters(0, 0, nonce), ssrc, fs)|
    requires Lawful(Transmit(Counters(0, 0, nonce), ssrc, fs)[i].aead)
    ensures var s := Transmit(Counters(0, 0, nonce), ssrc, fs)[i];
      Parse(s.datagram, Some(s.aead)) ==
        Some(Packet([0x80, 0x78], i % 0x1_0000, 960 * i % 0x1_0000_0000, ssrc, s.payload))
  {
    var c := Counters(0, 0, nonce);
    var s := Transmit(c, ssrc, fs)[i];
    PacketsAreNumbered(c, ssrc, fs, 0, i);
    SentIsDatagram(c, ssrc, fs, i);
    ParseInvertsEncode(SenderFields(s.at, ssrc), s.payload, LE32(s.at.nonce), s.aead);
  }

  /** The frames that passed the transform. */
  function Transformed(fs: seq<Frame>): nat {
    if fs == [] then 0 else (if fs[0].transformed.Some? then 1 else 0) + Transformed(fs[1..])
  }

  /**
   One frame more: it goes out behind the others if it passes the transform, has a key, meets no close, and the write
   works, unless an earlier frame met a close or a failing write when it was about to go out.
   */
  lemma {:induction false} OneMoreFrame(c: Counters, ssrc: word32, fs: seq<Frame>, f: Frame)
    ensures
      var before, after := Transmit(c, ssrc, fs), Transmit(c, ssrc, fs + [f]);
      if (exists g <- fs :: g.transformed.Some? && g.aead.Some? && (g.closes || !g.writes))
         || f.transformed.None? || f.aead.None? || f.closes || !f.writes
      then after == before
      else
        && |after| == |before| + 1 && after[..|before|] == before
        && after[|before|].payload == f.transformed.value && after[|before|].aead == f.aead.value
        && after[|before|].at.nonce == (c.nonce + Transformed(fs)) % 0x1_0000_0000
    decreases |fs|
  {
    hide Datagram, NextSequence, NextTimestamp;
    if fs != [] {
      var n := AfterFrame(c, fs[0]);
      assert (fs + [f])[1..] == fs[1..] + [f];
      OneMoreFrame(n, ssrc, fs[1..], f);
      if fs[0].transformed.Some? {
        ShiftInside(c.nonce, Transformed(fs[1..]));
      }
    }
  }

  lemma {:induction false} SentIsDatagram(c: Counters, ssrc: word32, fs: seq<Frame>, i: nat)
    requires i < |Transmit(c, ssrc, fs)|
    ensures var s := Transmit(c, ssrc, fs)[i]; s.datagram == Datagram(s.at, ssrc, s.payload, s.aead)
    decreases |fs|
  {
    if !GoesOut(fs[0]) {
      SentIsDatagram(AfterFrame(c, fs[0]), ssrc, fs[1..], i);
    } else if i > 0 {
      SentIsDatagram(Advanced(c), ssrc, fs[1..], i - 1);
    }
  }

  /** The nonce of packet i is the starting nonce plus the number of frames the counter was spent on before it. */
  function SpentBefore(c: Counters, ssrc: word32, fs: seq<Frame>, i: nat): (n: nat)
    requires i < |Transmit(c, ssrc, fs)|
    ensures i <= n < |fs|
    decreases |fs|
  {
    var spends := if fs[0].transformed.Some? then 1 else 0;
    if GoesOut(fs[0]) then if i == 0 then 0 else 1 + SpentBefore(Advanced(c), ssrc, fs[1..], i - 1)
    else spends + SpentBefore(AfterFrame(c, fs[0]), ssrc, fs[1..], i)
  }

  lemma ShiftInside(n: nat, m: nat)
    ensures ((n + 1) % WORD32 + m) % WORD32 == (n + (1 + m)) % WORD32
  {
    var q := (n + 1) / WORD32;
    assert n + (1 + m) == q * WORD32 + ((n + 1) % WORD32 + m);
    ShiftBy(q, (n + 1) % WORD32 + m);
  }

  lemma ShiftBy(q: nat, x: nat)
    ensures (q * WORD32 + x) % WORD32 == x % WORD32
  {
    Remainder(q + x / WORD32, x % WORD32);
  }

  lemma ShortShiftsDiffer(n: nat, a: nat, b: nat)
    requires a < b < a + WORD32
    ensures (n + a) % WORD32 != (n + b) % WORD32
  {
    var qa, qb := (n + a) / WORD32, (n + b) / WORD32;
    assert b - a == WORD32 * (qb - qa) + ((n + b) % WORD32 - (n + a) % WORD32);
  }

  lemma {:induction false} NonceCounts(c: Counters, ssrc: word32, fs: seq<Frame>, i: nat)
    requires i < |Transmit(c, ssrc, fs)|
    ensures Transmit(c, ssrc, fs)[i].at.nonce == (c.nonce + SpentBefore(c, ssrc, fs, i)) % WORD32
    decreases |fs|
  {
    hide NextSequence, NextTimestamp, Datagram;
    var n := AfterFrame(c, fs[0]);
    if !GoesOut(fs[0]) {
      NonceCounts(n, ssrc, fs[1..], i);
      if fs[0].transformed.Some? {
        ShiftInside(c.nonce, SpentBefore(n, ssrc, fs[1..], i));
      }
    } else if i > 0 {
      NonceCounts(n, ssrc, fs[1..], i - 1);
      ShiftInside(c.nonce, SpentBefore(n, ssrc, fs[1..], i - 1));
    }
  }

  lemma {:induction false} SpentIncreases(c: Counters, ssrc: word32, fs: seq<Frame>, i: nat, j: nat)
    requires i < j < |Transmit(c, ssrc, fs)|
    ensures SpentBefore(c, ssrc, fs, i) < SpentBefore(c, ssrc, fs, j)
    decreases |fs|
  {
    if !GoesOut(fs[0]) {
      SpentIncreases(AfterFrame(c, fs[0]), ssrc, fs[1..], i, j);
    } else if i > 0 {
      SpentIncreases(Advanced(c), ssrc, fs[1..], i - 1, j - 1);
    }
  }

  /** No nonce is used twice within 2^32 frames, dropped frames included. */
  lemma NoncesAreDistinct(c: Counters, ssrc: word32, fs: seq<Frame>, i: nat, j: nat)
    requires |fs| <= WORD32 && i < j < |Transmit(c, ssrc, fs)|
    ensures Nonce(LE32(Transmit(c, ssrc, fs)[i].at.nonce)) != Nonce(LE32(Transmit(c, ssrc, fs)[j].at.nonce))
  {
    hide Transmit, SpentBefore, LE32, UintLE32;
    NonceCounts(c, ssrc, fs, i);
    NonceCounts(c, ssrc, fs, j);
    SpentIncreases(c, ssrc, fs, i, j);
    var a, b := Transmit(c, ssrc, fs)[i].at.nonce, Transmit(c, ssrc, fs)[j].at.nonce;
    ShortShiftsDiffer(c.nonce, SpentBefore(c, ssrc, fs, i), SpentBefore(c, ssrc, fs, j));
    LittleRoundTrip(a);
    LittleRoundTrip(b);
    assert Nonce(LE32(a))[..4] == LE32(a) && Nonce(LE32(b))[..4] == LE32(b);
  }

  function Datagrams(ss: seq<Sent>): seq<bytes> {
    if ss == [] then [] else [ss[0].datagram] + Datagrams(ss[1..])
  }

  lemma {:induction false} DatagramsInOrder(ss: seq<Sent>)
    ensures |Datagrams(ss)| == |ss| && forall i :: 0 <= i < |ss| ==> Datagrams(ss)[i] == ss[i].datagram
  {
    if ss != [] {
      DatagramsInOrder(ss[1..]);
      forall i | 1 <= i < |ss|
        ensures Datagrams(ss)[i] == ss[i].datagram
      {
        assert ss[1..][i - 1] == ss[i];
      }
    }
  }

  /** The sender's loop: two small buffers written over for every frame. */
  class Sender {
    const ssrc: word32
    const header: array<byte>
    const nonce: array<byte>
    var sequence: word16
    var timestamp: word32
    var nonceCounter: word32

    function State(): Counters
      reads this`sequence, this`timestamp, this`nonceCounter
    {
      Counters(sequence, timestamp, nonceCounter)
    }

    /** The parts of the buffers that no frame changes. */
    ghost predicate Valid()
      reads header, nonce
    {
      && header.Length == HEADER && nonce.Length == 12 && header != nonce
      && header[..2] == [0x80, 0x78] && header[8..] == BE32(ssrc) && nonce[4..] == ZEROS
    }

    constructor (ssrc: word32, nonceCounter: word32)
      ensures Valid() && fresh(header) && fresh(nonce) && this.ssrc == ssrc
      ensures State() == Counters(0, 0, nonceCounter)
    {
      this.ssrc, this.nonceCounter := ssrc, nonceCounter;
      sequence, timestamp := 0, 0;
      var h := new byte[12](_ => 0);
      var n := new byte[12](_ => 0);
      h[0], h[1] := 0x80, 0x78;
      PutBytes(h, 8, BE32(ssrc));
      header, nonce := h, n;
      new;
      assert n[4..] == ZEROS;
    }

    method PutHeader()
      requires Valid()
      modifies header
      ensures Valid() && header[..] == Preamble(SenderFields(State(), ssrc))
    {
      PutBytes(header, 2, BE16(sequence));
      PutBytes(header, 4, BE32(timestamp));
    }

    method PutNonce()
      requires Valid()
      modifies nonce, this`nonceCounter
      ensures Valid() && nonce[..] == Nonce(LE32(old(nonceCounter))) && State() == Spent(old(State()))
    {
      PutUintLE32(nonce, nonceCounter);
      assert nonce[..] == nonce[..4] + nonce[4..];
      nonceCounter := (nonceCounter + 1) % WORD32;
    }

    method Advance()
      modifies this`sequence, this`timestamp
      ensures sequence == NextSequence(old(sequence)) && timestamp == NextTimestamp(old(timestamp), RATE_FRAME)
    {
      if sequence == 0xFFFF {
        sequence := 0;
      } else {
        sequence := sequence + 1;
      }
      if (timestamp + RATE_FRAME) % WORD32 >= 0xFFFF_FFFF {
        timestamp := 0;
      } else {
        timestamp := (timestamp + RATE_FRAME) % WORD32;
      }
    }

    /** One turn of the loop of opusSender. */
    method SendFrame(f: Frame) returns (datagram: Option<bytes>, stop: bool)
      requires Valid()
      modifies this`sequence, this`timestamp, this`nonceCounter, header, nonce
      ensures Valid() && stop == Ends(f)
      ensures !stop ==> State() == AfterFrame(old(State()), f)
      ensures datagram ==
        if GoesOut(f) then Some(Datagram(old(State()), ssrc, f.transformed.value, f.aead.value)) else None
    {
      PutHeader();
      if f.transformed.None? {
        return None, false;
      }
      PutNonce();
      if f.aead.None? {
        return None, false;
      }
      var sealed := f.aead.value.seal(nonce[..], f.transformed.value, header[..]);
      assert [] + f.transformed.value == f.transformed.value;
      var packet := header[..] + sealed + nonce[..4];
      if f.closes || !f.writes {
        return None, true;
      }
      Advance();
      return Some(packet), false;
    }

    /** opusSender over a run of frames. */
    method Send(fs: seq<Frame>) returns (datagrams: seq<bytes>)
      requires Valid()
      modifies this`sequence, this`timestamp, this`nonceCounter, header, nonce
      ensures Valid() && var sent := Transmit(old(State()), ssrc, fs);
        |datagrams| == |sent| && forall i :: 0 <= i < |sent| ==> datagrams[i] == sent[i].datagram
    {
      hide Datagram;
      DatagramsInOrder(Transmit(State(), ssrc, fs));
      datagrams := [];
      ghost var c := State();
      for i := 0 to |fs|
        invariant Valid()
        invariant Datagrams(Transmit(c, ssrc, fs)) == datagrams + Datagrams(Transmit(State(), ssrc, fs[i..]))
      {
        var datagram, stop := SendFrame(fs[i]);
        if stop {
          return;
        }
        if datagram.Some? {
          datagrams := datagrams + [datagram.value];
        }
      }
    }
  }

  /** binary.BigEndian.PutUint16 and PutUint32, given the bytes. */
  method PutBytes(a: array<byte>, at: nat, b: bytes)
    requires at + |b| <= a.Length
    modifies a
    ensures a[..at] == old(a[..at]) && a[at..at + |b|] == b && a[at + |b|..] == old(a[at + |b|..])
  {
    for i := 0 to |b|
      invariant a[..at] == old(a[..at]) && a[at..at + i] == b[..i] && a[at + |b|..] == old(a[at + |b|..])
    {
      a[at + i] := b[i];
    }
  }
}

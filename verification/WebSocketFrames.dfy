/** WebSocket frames as byte strings: masking, lengths, encoding and parsing, and what a receiver does
    with a stream of frames. */
module WebSocketFrames {
  import opened Words

  type Mask = m: seq<Byte> | |m| == 4 witness [0, 0, 0, 0]

  // ---- exclusive or ----

  function XorBits(a: nat, b: nat, k: nat): (r: nat)
    ensures r < Pow2(k)
  {
    if k == 0 then 0 else 2 * XorBits(a / 2, b / 2, k - 1) + (if a % 2 != b % 2 then 1 else 0)
  }

  lemma {:induction false} XorBitsUndo(a: nat, b: nat, k: nat)
    requires a < Pow2(k)
    ensures XorBits(XorBits(a, b, k), b, k) == a
  {
    if k == 0 {
    } else {
      XorBitsUndo(a / 2, b / 2, k - 1);
      var high, bit := XorBits(a / 2, b / 2, k - 1), if a % 2 != b % 2 then 1 else 0;
      assert XorBits(a, b, k) == 2 * high + bit;
      assert (2 * high + bit) / 2 == high && (2 * high + bit) % 2 == bit;
      assert XorBits(2 * high + bit, b, k) == 2 * (a / 2) + (if bit != b % 2 then 1 else 0);
    }
  }

  lemma ByteBits()
    ensures Pow2(8) == 0x100
  {
    assert Pow2(4) == 16;
    assert Pow2(8) == 16 * Pow2(4);
  }

  function Xor(a: Byte, b: Byte): Byte
  {
    ByteBits();
    XorBits(a, b, 8)
  }

  lemma XorUndo(a: Byte, b: Byte)
    ensures Xor(Xor(a, b), b) == a
  {
    ByteBits();
    XorBitsUndo(a, b, 8);
  }

  function Masked(data: seq<Byte>, key: Mask): (r: seq<Byte>)
    ensures |r| == |data|
  {
    seq(|data|, i requires 0 <= i < |data| => Xor(data[i], key[i % 4]))
  }

  /** Masking twice with one key gives the data back. */
  lemma MaskingUndone(data: seq<Byte>, key: Mask)
    ensures Masked(Masked(data, key), key) == data
  {
    forall i | 0 <= i < |data| ensures Masked(Masked(data, key), key)[i] == data[i] {
      XorUndo(data[i], key[i % 4]);
    }
  }

  // ---- lengths ----

  function Pow256(k: nat): (r: nat)
    ensures r > 0
  {
    if k == 0 then 1 else 256 * Pow256(k - 1)
  }

  /** Shifting right by k bytes. */
  function Shifted(n: nat, k: nat): nat
  {
    if k == 0 then n else Shifted(n, k - 1) / 256
  }

  function BigEndian(n: nat, k: nat): (r: seq<Byte>)
    ensures |r| == k
  {
    if k == 0 then [] else BigEndian(n / 256, k - 1) + [n % 256]
  }

  function ValueOf(bytes: seq<Byte>): nat
  {
    if bytes == [] then 0 else 256 * ValueOf(bytes[..|bytes| - 1]) + bytes[|bytes| - 1]
  }

  lemma {:induction false} BigEndianValue(n: nat, k: nat)
    requires n < Pow256(k)
    ensures ValueOf(BigEndian(n, k)) == n
  {
    if k == 0 {
    } else {
      BigEndianValue(n / 256, k - 1);
      assert BigEndian(n, k)[..k - 1] == BigEndian(n / 256, k - 1);
    }
  }

  lemma {:induction false} ValueBound(bytes: seq<Byte>)
    ensures ValueOf(bytes) < Pow256(|bytes|)
    decreases |bytes|
  {
    if bytes == [] {
    } else {
      ValueBound(bytes[..|bytes| - 1]);
    }
  }

  lemma TwoBytes()
    ensures Pow256(2) == 0x1_0000
  {
    assert Pow256(1) == 256;
  }

  lemma EightBytes()
    ensures Pow256(8) == 0x1_0000_0000_0000_0000
  {
    TwoBytes();
    assert Pow256(4) == 0x1_0000_0000;
    assert Pow256(6) == 0x1_0000_0000_0000;
  }

  /** How many bytes follow a seven-bit length. */
  function ExtraBytes(short: nat): nat { if short == 126 then 2 else if short == 127 then 8 else 0 }

  /** The seven-bit length a sender writes for n bytes. */
  function ShortLength(n: nat): nat { if n <= 125 then n else if n <= 0xFFFF then 126 else 127 }

  function LengthOf(short: nat, extra: seq<Byte>): nat
  {
    if ExtraBytes(short) == 0 then short else ValueOf(extra)
  }

  lemma LengthRoundTrip(n: U64)
    ensures LengthOf(ShortLength(n), BigEndian(n, ExtraBytes(ShortLength(n)))) == n
  {
    TwoBytes();
    EightBytes();
    if n > 125 {
      BigEndianValue(n, ExtraBytes(ShortLength(n)));
    }
  }

  /** No accepted length field for the same length is shorter than the sender's. */
  lemma LengthIsMinimal(short: nat, extra: seq<Byte>)
    requires short < 128 && |extra| == ExtraBytes(short)
    ensures ExtraBytes(ShortLength(LengthOf(short, extra))) <= |extra|
  {
    TwoBytes();
    ValueBound(extra);
  }

  // ---- frames ----

  const BINARY := 0x82
  const PING := 0x89
  const PONG := 0x8A

  function KeyBytes(key: Option<Mask>): seq<Byte> { if key.Some? then key.value else [] }

  function Payload(key: Option<Mask>, data: seq<Byte>): (r: seq<Byte>)
    ensures |r| == |data|
  {
    if key.Some? then Masked(data, key.value) else data
  }

  function HeadOf(first: Byte, key: Option<Mask>, n: U64): (r: seq<Byte>)
    ensures |r| == 2
  {
    [first, (if key.Some? then 128 else 0) + ShortLength(n)]
  }

  function Header(first: Byte, key: Option<Mask>, n: U64): seq<Byte>
  {
    HeadOf(first, key, n) + BigEndian(n, ExtraBytes(ShortLength(n))) + KeyBytes(key)
  }

  function Encoded(first: Byte, key: Option<Mask>, data: seq<Byte>): seq<Byte>
    requires |data| < 0x1_0000_0000_0000_0000
  {
    Header(first, key, |data|) + Payload(key, data)
  }

  datatype Frame = Frame(fin: bool, opcode: nat, data: seq<Byte>)

  datatype Parsed = Incomplete | Complete(frame: Frame, rest: seq<Byte>)

  /** Parsing the frame at the front of a stream. */
  function Parse(s: seq<Byte>): Parsed
  {
    if |s| < 2 then Incomplete
    else
      var extra := ExtraBytes(s[1] % 128);
      var s1 := s[2..];
      if |s1| < extra then Incomplete
      else
        var length := LengthOf(s[1] % 128, s1[..extra]);
        var s2 := s1[extra..];
        if s[1] >= 128 && |s2| < 4 then Incomplete
        else
          var key: Option<Mask> := if s[1] >= 128 then Some(s2[..4]) else None;
          var s3 := if s[1] >= 128 then s2[4..] else s2;
          if |s3| < length then Incomplete
          else Complete(Frame(s[0] >= 128, s[0] % 16, Payload(key, s3[..length])), s3[length..])
  }

  lemma ParseConsumes(s: seq<Byte>)
    ensures Parse(s).Complete? ==> |Parse(s).rest| < |s|
  {
  }

  lemma EncodedOnto(first: Byte, key: Option<Mask>, data: seq<Byte>, rest: seq<Byte>)
    requires |data| < 0x1_0000_0000_0000_0000
    ensures Encoded(first, key, data) + rest
         == HeadOf(first, key, |data|)
            + (BigEndian(|data|, ExtraBytes(ShortLength(|data|))) + (KeyBytes(key) + (Payload(key, data) + rest)))
  {
    hide BigEndian, HeadOf, KeyBytes, Payload;
    var h, l, k, p := HeadOf(first, key, |data|), BigEndian(|data|, ExtraBytes(ShortLength(|data|))), KeyBytes(key), Payload(key, data);
    Assoc(h + l + k, p, rest);
    Assoc(h + l, k, p + rest);
    Assoc(h, l, k + (p + rest));
  }

  lemma PayloadUndone(key: Option<Mask>, data: seq<Byte>)
    ensures Payload(key, Payload(key, data)) == data
  {
    if key.Some? {
      MaskingUndone(data, key.value);
    }
  }

  /** Parsing undoes encoding, whatever follows. */
  lemma ParseEncoded(first: Byte, key: Option<Mask>, data: seq<Byte>, rest: seq<Byte>)
    requires |data| < 0x1_0000_0000_0000_0000
    ensures Parse(Encoded(first, key, data) + rest) == Complete(Frame(first >= 128, first % 16, data), rest)
  {
    hide Encoded, LengthOf, BigEndian, Payload, HeadOf;
    var n := |data|;
    var s := Encoded(first, key, data) + rest;
    var extra := ExtraBytes(ShortLength(n));
    var h, l, k, p := HeadOf(first, key, n), BigEndian(n, extra), KeyBytes(key), Payload(key, data);
    EncodedOnto(first, key, data, rest);
    HeadBytes(first, key, n);
    Peel(h, l + (k + (p + rest)));
    assert s[0] == h[0] && s[1] == h[1];
    Peel(l, k + (p + rest));
    LengthRoundTrip(n);
    Peel(k, p + rest);
    assert key == None ==> k + (p + rest) == p + rest;
    Peel(p, rest);
    PayloadUndone(key, data);
  }

  lemma HeadBytes(first: Byte, key: Option<Mask>, n: U64)
    ensures var h := HeadOf(first, key, n);
      h[0] == first && (h[1] >= 128 <==> key.Some?) && h[1] % 128 == ShortLength(n)
  {
  }

  // ---- what a receiver does with a stream ----

  /** The i-th masking key a client draws. */
  type Keys = nat -> Mask

  datatype Outcome = Refused | Delivered(data: seq<Byte>, rest: seq<Byte>, replies: seq<Byte>, drawn: nat)

  /** Reading until a binary frame: pings are answered with pongs, pongs skipped, anything else refused. */
  function Receive(s: seq<Byte>, keys: Keys, drawn: nat, replies: seq<Byte>): Outcome
    decreases |s|
  {
    ParseConsumes(s);
    match Parse(s)
    case Incomplete => Refused
    case Complete(f, rest) =>
      if !f.fin then Refused
      else if f.opcode == 0x2 then Delivered(f.data, rest, replies, drawn)
      else if f.opcode == 0x9 && |f.data| <= 0xFFFF then
        Receive(rest, keys, drawn + 1, replies + Encoded(PONG, Some(keys(drawn)), f.data))
      else if f.opcode == 0xA then Receive(rest, keys, drawn, replies)
      else Refused
  }

  /** Frames a peer may send before the one that matters. */
  datatype Control = Ping(key: Option<Mask>, data: seq<Byte>) | Pong(key: Option<Mask>, data: seq<Byte>)

  predicate Acceptable(c: Control)
  {
    if c.Ping? then |c.data| <= 0xFFFF else |c.data| < 0x1_0000_0000_0000_0000
  }

  function ControlFrame(c: Control): seq<Byte>
    requires Acceptable(c)
  {
    Encoded(if c.Ping? then PING else PONG, c.key, c.data)
  }

  /** Control frames, then the rest of the stream. */
  function Preceded(cs: seq<Control>, rest: seq<Byte>): seq<Byte>
    requires forall c :: c in cs ==> Acceptable(c)
  {
    if cs == [] then rest else ControlFrame(cs[0]) + Preceded(cs[1..], rest)
  }

  /** The pongs owed for the pings in a list of control frames. */
  function Answers(cs: seq<Control>, keys: Keys, drawn: nat): seq<Byte>
    requires forall c :: c in cs ==> Acceptable(c)
  {
    if cs == [] then []
    else if cs[0].Ping? then
      assert Acceptable(cs[0]);
      Encoded(PONG, Some(keys(drawn)), cs[0].data) + Answers(cs[1..], keys, drawn + 1)
    else Answers(cs[1..], keys, drawn)
  }

  function Pings(cs: seq<Control>): nat
  {
    if cs == [] then 0 else (if cs[0].Ping? then 1 else 0) + Pings(cs[1..])
  }

  lemma ReceiveControl(c: Control, rest: seq<Byte>, keys: Keys, drawn: nat, replies: seq<Byte>)
    requires Acceptable(c)
    ensures Receive(ControlFrame(c) + rest, keys, drawn, replies)
         == if c.Ping? then Receive(rest, keys, drawn + 1, replies + Encoded(PONG, Some(keys(drawn)), c.data))
            else Receive(rest, keys, drawn, replies)
  {
    hide Parse, Encoded;
    ParseEncoded(if c.Ping? then PING else PONG, c.key, c.data, rest);
  }

  /** Whatever pings and pongs come first, the receiver returns the payload of the binary frame, leaves
      exactly the bytes after it, and has answered every ping, in order, with its own payload. */
  lemma {:induction false} FrameIsReceived(cs: seq<Control>, key: Option<Mask>, data: seq<Byte>, rest: seq<Byte>, keys: Keys, drawn: nat, replies: seq<Byte>)
    requires |data| < 0x1_0000_0000_0000_0000 && forall c :: c in cs ==> Acceptable(c)
    ensures Receive(Preceded(cs, Encoded(BINARY, key, data) + rest), keys, drawn, replies)
         == Delivered(data, rest, replies + Answers(cs, keys, drawn), drawn + Pings(cs))
    decreases |cs|
  {
    hide Parse, Encoded, Acceptable, ControlFrame;
    if cs == [] {
      ParseEncoded(BINARY, key, data, rest);
      assert replies + [] == replies;
    } else {
      var tail := Preceded(cs[1..], Encoded(BINARY, key, data) + rest);
      ReceiveControl(cs[0], tail, keys, drawn, replies);
      if cs[0].Ping? {
        PingIsShort(cs[0]);
        var pong := Encoded(PONG, Some(keys(drawn)), cs[0].data);
        FrameIsReceived(cs[1..], key, data, rest, keys, drawn + 1, replies + pong);
        Assoc(replies, pong, Answers(cs[1..], keys, drawn + 1));
      } else {
        FrameIsReceived(cs[1..], key, data, rest, keys, drawn, replies);
      }
    }
  }

  lemma PingIsShort(c: Control)
    requires Acceptable(c) && c.Ping?
    ensures |c.data| <= 0xFFFF
  {
  }

  /** Each answer is a masked pong that unmasks to the ping's payload. */
  lemma AnswerCarriesPing(c: Control, cs: seq<Control>, keys: Keys, drawn: nat)
    requires c.Ping? && Acceptable(c) && forall d :: d in cs ==> Acceptable(d)
    ensures forall d :: d in [c] + cs ==> Acceptable(d)
    ensures var answers := Answers([c] + cs, keys, drawn);
      && |answers| >= 2 && answers[1] >= 128
      && Parse(answers) == Complete(Frame(true, 0xA, c.data), Answers(cs, keys, drawn + 1))
  {
    hide Parse, Encoded;
    var rest := Answers(cs, keys, drawn + 1);
    assert ([c] + cs)[1..] == cs;
    ParseEncoded(PONG, Some(keys(drawn)), c.data, rest);
    EncodedIsMasked(PONG, keys(drawn), c.data, rest);
  }

  lemma EncodedIsMasked(first: Byte, key: Mask, data: seq<Byte>, rest: seq<Byte>)
    requires |data| < 0x1_0000_0000_0000_0000
    ensures var s := Encoded(first, Some(key), data) + rest; |s| >= 2 && s[1] >= 128
  {
    hide Encoded, HeadOf, BigEndian, Payload;
    EncodedOnto(first, Some(key), data, rest);
    HeadBytes(first, Some(key), |data|);
  }
}

/** The WebSocket stream in terms of its bytes: what a frame looks like on the wire, bit by bit, and which
    frames a receiver delivers, answers and refuses. */
module WebSocketWire {
  import opened Words
  import opened WebSocketFrames

  // ---- masking, bit by bit ----

  function Bit(n: nat, i: nat): nat { n / Pow2(i) % 2 }

  lemma ShiftedBit(n: nat, i: nat)
    requires i > 0
    ensures Bit(n, i) == Bit(n / 2, i - 1)
  {
    var p := Pow2(i - 1);
    var q, r := n / 2 / p, n / 2 % p;
    QuotientRemainder(n / 2, p);
    assert n == 2 * (n / 2) + n % 2;
    assert n == q * (2 * p) + (2 * r + n % 2);
    QuotientIsUnique(n, 2 * p, q, 2 * r + n % 2);
  }

  lemma LowestBit(n: nat)
    ensures Bit(n, 0) == n % 2
  {
  }

  lemma {:induction false} XorBitsBitwise(a: nat, b: nat, k: nat, i: nat)
    requires i < k
    ensures Bit(XorBits(a, b, k), i) == if Bit(a, i) == Bit(b, i) then 0 else 1
  {
    hide Bit;
    var high, low := XorBits(a / 2, b / 2, k - 1), if a % 2 != b % 2 then 1 else 0;
    assert XorBits(a, b, k) == 2 * high + low;
    LowestBit(a);
    LowestBit(b);
    LowestBit(2 * high + low);
    assert (2 * high + low) / 2 == high && (2 * high + low) % 2 == low;
    if i > 0 {
      XorBitsBitwise(a / 2, b / 2, k - 1, i - 1);
      ShiftedBit(a, i);
      ShiftedBit(b, i);
      ShiftedBit(2 * high + low, i);
    }
  }

  /** Every bit of a masked byte is the bit of the data, flipped exactly where the key's is set. */
  lemma XorIsBitwise(a: Byte, b: Byte, i: nat)
    requires i < 8
    ensures Bit(Xor(a, b), i) == if Bit(a, i) == Bit(b, i) then 0 else 1
  {
    XorBitsBitwise(a, b, 8, i);
  }

  /** The masked "Hello" of section 5.7 of RFC 6455. */
  lemma MaskedHello()
    ensures Masked([0x48, 0x65, 0x6C, 0x6C, 0x6F], [0x37, 0xFA, 0x21, 0x3D]) == [0x7F, 0x9F, 0x4D, 0x51, 0x58]
  {
    hide Xor;
    HelloBytes();
    var r := Masked([0x48, 0x65, 0x6C, 0x6C, 0x6F], [0x37, 0xFA, 0x21, 0x3D]);
    assert r[0] == Xor(0x48, 0x37) && r[1] == Xor(0x65, 0xFA) && r[2] == Xor(0x6C, 0x21) && r[3] == Xor(0x6C, 0x3D);
    assert r[4] == Xor(0x6F, 0x37);
  }

  lemma HelloBytes()
    ensures Xor(0x48, 0x37) == 0x7F && Xor(0x65, 0xFA) == 0x9F && Xor(0x6C, 0x21) == 0x4D
    ensures Xor(0x6C, 0x3D) == 0x51 && Xor(0x6F, 0x37) == 0x58
  {
  }

  // ---- headers, byte by byte ----

  function Eight(n: U64): seq<Byte>
  {
    [n / 0x100 / 0x100 / 0x100 / 0x100 / 0x100 / 0x100 / 0x100,
     n / 0x100 / 0x100 / 0x100 / 0x100 / 0x100 / 0x100 % 0x100,
     n / 0x100 / 0x100 / 0x100 / 0x100 / 0x100 % 0x100,
     n / 0x100 / 0x100 / 0x100 / 0x100 % 0x100,
     n / 0x100 / 0x100 / 0x100 % 0x100,
     n / 0x100 / 0x100 % 0x100,
     n / 0x100 % 0x100,
     n % 0x100]
  }

  lemma BigEndianOne(n: nat, k: nat)
    requires k > 0
    ensures BigEndian(n, k) == BigEndian(n / 0x100, k - 1) + [n % 0x100]
  {
  }

  lemma BigEndianEight(n: U64)
    ensures BigEndian(n, 8) == Eight(n)
  {
    hide BigEndian;
    var n1 := n / 0x100;
    var n2 := n1 / 0x100;
    var n3 := n2 / 0x100;
    var n4 := n3 / 0x100;
    var n5 := n4 / 0x100;
    var n6 := n5 / 0x100;
    var n7 := n6 / 0x100;
    NoBytes(n7 / 0x100);
    BigEndianOne(n7, 1);
    assert BigEndian(n7, 1) == [n7 % 0x100];
    BigEndianOne(n6, 2);
    assert BigEndian(n6, 2) == [n7 % 0x100, n6 % 0x100];
    BigEndianOne(n5, 3);
    assert BigEndian(n5, 3) == [n7 % 0x100, n6 % 0x100, n5 % 0x100];
    BigEndianOne(n4, 4);
    assert BigEndian(n4, 4) == [n7 % 0x100, n6 % 0x100, n5 % 0x100, n4 % 0x100];
    BigEndianOne(n3, 5);
    assert BigEndian(n3, 5) == [n7 % 0x100, n6 % 0x100, n5 % 0x100, n4 % 0x100, n3 % 0x100];
    BigEndianOne(n2, 6);
    assert BigEndian(n2, 6) == [n7 % 0x100, n6 % 0x100, n5 % 0x100, n4 % 0x100, n3 % 0x100, n2 % 0x100];
    BigEndianOne(n1, 7);
    assert BigEndian(n1, 7) == [n7 % 0x100, n6 % 0x100, n5 % 0x100, n4 % 0x100, n3 % 0x100, n2 % 0x100, n1 % 0x100];
    BigEndianOne(n, 8);
    assert n7 < 0x100;
  }

  lemma NoBytes(n: nat)
    ensures BigEndian(n, 0) == []
  {
  }

  /** The header of a masked frame as sections 5.2 and 5.3 of RFC 6455 lay it out: most significant byte
      of the length first, the key last. */
  lemma HeaderBytes(first: Byte, key: Mask, n: U64)
    ensures n <= 125 ==> Header(first, Some(key), n) == [first, 0x80 + n] + key
    ensures 125 < n <= 0xFFFF ==> Header(first, Some(key), n) == [first, 0xFE, n / 0x100, n % 0x100] + key
    ensures 0xFFFF < n ==> Header(first, Some(key), n) == [first, 0xFF] + Eight(n) + key
    ensures BINARY == 0x82 && PONG == 0x8A
  {
    hide BigEndian, Eight;
    if n <= 125 {
      NoBytes(n);
      assert [first, 0x80 + n] + [] == [first, 0x80 + n];
    } else if n <= 0xFFFF {
      BigEndianOne(n, 2);
      BigEndianOne(n / 0x100, 1);
      NoBytes(n / 0x100 / 0x100);
      assert [first, 0xFE] + [n / 0x100, n % 0x100] == [first, 0xFE, n / 0x100, n % 0x100];
    } else {
      BigEndianEight(n);
    }
  }

  // ---- which frames are delivered, and which refused ----

  predicate IsBinary(first: Byte) { first >= 0x80 && first % 0x10 == 0x2 }

  predicate IsPing(first: Byte) { first >= 0x80 && first % 0x10 == 0x9 }

  predicate IsPong(first: Byte) { first >= 0x80 && first % 0x10 == 0xA }

  /** After any acceptable control frames, the next frame is answered if it is a ping of at most 65535
      bytes, passed over if it is a pong, and otherwise ends the reading: it is delivered exactly if it is
      a final binary frame, and refused exactly if it is unfinished, has any other opcode, or is a longer
      ping. */
  lemma NextFrameDecides(cs: seq<Control>, first: Byte, key: Option<Mask>, data: seq<Byte>, rest: seq<Byte>, keys: Keys, drawn: nat)
    requires |data| < 0x1_0000_0000_0000_0000 && forall c :: c in cs ==> Acceptable(c)
    requires !(IsPing(first) && |data| <= 0xFFFF) && !IsPong(first)
    ensures var outcome := Receive(Preceded(cs, Encoded(first, key, data) + rest), keys, drawn, []);
      && (outcome.Delivered? <==> IsBinary(first))
      && (outcome.Delivered? ==> outcome.data == data && outcome.rest == rest)
      && (outcome.Refused? <==> first < 0x80 || (first % 0x10 != 0x2 && first % 0x10 != 0x9 && first % 0x10 != 0xA)
                                || (first % 0x10 == 0x9 && |data| > 0xFFFF))
  {
    hide Encoded, Parse, Answers, Acceptable;
    ControlsPass(cs, Encoded(first, key, data) + rest, keys, drawn, []);
    ParseEncoded(first, key, data, rest);
  }

  /** Reading past control frames changes nothing but the answers sent. */
  lemma {:induction false} ControlsPass(cs: seq<Control>, s: seq<Byte>, keys: Keys, drawn: nat, replies: seq<Byte>)
    requires forall c :: c in cs ==> Acceptable(c)
    ensures Receive(Preceded(cs, s), keys, drawn, replies) == Receive(s, keys, drawn + Pings(cs), replies + Answers(cs, keys, drawn))
    decreases |cs|
  {
    hide Parse, Encoded, Acceptable, ControlFrame, Receive;
    if cs == [] {
      assert replies + [] == replies;
    } else {
      ReceiveControl(cs[0], Preceded(cs[1..], s), keys, drawn, replies);
      if cs[0].Ping? {
        PingIsShort(cs[0]);
        var pong := Encoded(PONG, Some(keys(drawn)), cs[0].data);
        ControlsPass(cs[1..], s, keys, drawn + 1, replies + pong);
        Assoc(replies, pong, Answers(cs[1..], keys, drawn + 1));
      } else {
        ControlsPass(cs[1..], s, keys, drawn, replies);
      }
    }
  }

  // ---- frames cut short ----

  lemma PrefixSlices(s: seq<Byte>, t: seq<Byte>, n: nat)
    requires n <= |s|
    ensures (s + t)[..n] == s[..n] && (s + t)[n..] == s[n..] + t
  {
  }

  /** What follows a whole frame does not change what the frame is. */
  lemma ParseExtends(s: seq<Byte>, t: seq<Byte>)
    requires Parse(s).Complete?
    ensures Parse(s + t) == Complete(Parse(s).frame, Parse(s).rest + t)
  {
    hide LengthOf, Payload;
    var extra := ExtraBytes(s[1] % 128);
    assert (s + t)[1] == s[1] && (s + t)[0] == s[0];
    PrefixSlices(s, t, 2);
    var s1 := s[2..];
    PrefixSlices(s1, t, extra);
    var length := LengthOf(s[1] % 128, s1[..extra]);
    var s2 := s1[extra..];
    if s[1] >= 128 {
      PrefixSlices(s2, t, 4);
    }
    var s3 := if s[1] >= 128 then s2[4..] else s2;
    PrefixSlices(s3, t, length);
  }

  /** A stream that ends inside a frame delivers nothing of it. */
  lemma CutFrameIsRefused(cs: seq<Control>, first: Byte, key: Option<Mask>, data: seq<Byte>, cut: nat, keys: Keys, drawn: nat)
    requires |data| < 0x1_0000_0000_0000_0000 && forall c :: c in cs ==> Acceptable(c)
    requires cut < |Encoded(first, key, data)|
    ensures Receive(Preceded(cs, Encoded(first, key, data)[..cut]), keys, drawn, []) == Refused
  {
    hide Encoded, Parse, Answers, Acceptable;
    var whole := Encoded(first, key, data);
    var s, t := whole[..cut], whole[cut..];
    assert s + t == whole && whole + [] == whole && |t| > 0;
    ControlsPass(cs, s, keys, drawn, []);
    ParseEncoded(first, key, data, []);
    if Parse(s).Complete? {
      ParseExtends(s, t);
    }
  }
}

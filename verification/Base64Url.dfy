/** base64url without padding: the encoder, the decoder with its unmasked accumulator, and the round trip. */
module Base64Url {
  import opened Words

  type Sextet = n: int | 0 <= n < 64

  function Letter(v: Sextet): char
  {
    if v < 26 then 'A' + v as char
    else if v < 52 then 'a' + (v - 26) as char
    else if v < 62 then '0' + (v - 52) as char
    else if v == 62 then '-' else '_'
  }

  const ALPHABET: seq<string> :=
    ["ABCDEFGH", "IJKLMNOP", "QRSTUVWX", "YZabcdef",
     "ghijklmn", "opqrstuv", "wxyz0123", "456789-_"]

  /** The letters are those of the URL-safe alphabet of section 5 of RFC 4648, in its order. */
  lemma LetterIsAlphabet(v: Sextet)
    ensures |ALPHABET[v / 8]| == 8 && Letter(v) == ALPHABET[v / 8][v % 8]
  {
    if v / 8 == 0 {
      assert "ABCDEFGH"[0] == 'A' && "ABCDEFGH"[1] == 'B' && "ABCDEFGH"[2] == 'C' && "ABCDEFGH"[3] == 'D';
      assert "ABCDEFGH"[4] == 'E' && "ABCDEFGH"[5] == 'F' && "ABCDEFGH"[6] == 'G' && "ABCDEFGH"[7] == 'H';
    } else if v / 8 == 1 {
      assert "IJKLMNOP"[0] == 'I' && "IJKLMNOP"[1] == 'J' && "IJKLMNOP"[2] == 'K' && "IJKLMNOP"[3] == 'L';
      assert "IJKLMNOP"[4] == 'M' && "IJKLMNOP"[5] == 'N' && "IJKLMNOP"[6] == 'O' && "IJKLMNOP"[7] == 'P';
    } else if v / 8 == 2 {
      assert "QRSTUVWX"[0] == 'Q' && "QRSTUVWX"[1] == 'R' && "QRSTUVWX"[2] == 'S' && "QRSTUVWX"[3] == 'T';
      assert "QRSTUVWX"[4] == 'U' && "QRSTUVWX"[5] == 'V' && "QRSTUVWX"[6] == 'W' && "QRSTUVWX"[7] == 'X';
    } else if v / 8 == 3 {
      assert "YZabcdef"[0] == 'Y' && "YZabcdef"[1] == 'Z' && "YZabcdef"[2] == 'a' && "YZabcdef"[3] == 'b';
      assert "YZabcdef"[4] == 'c' && "YZabcdef"[5] == 'd' && "YZabcdef"[6] == 'e' && "YZabcdef"[7] == 'f';
    } else if v / 8 == 4 {
      assert "ghijklmn"[0] == 'g' && "ghijklmn"[1] == 'h' && "ghijklmn"[2] == 'i' && "ghijklmn"[3] == 'j';
      assert "ghijklmn"[4] == 'k' && "ghijklmn"[5] == 'l' && "ghijklmn"[6] == 'm' && "ghijklmn"[7] == 'n';
    } else if v / 8 == 5 {
      assert "opqrstuv"[0] == 'o' && "opqrstuv"[1] == 'p' && "opqrstuv"[2] == 'q' && "opqrstuv"[3] == 'r';
      assert "opqrstuv"[4] == 's' && "opqrstuv"[5] == 't' && "opqrstuv"[6] == 'u' && "opqrstuv"[7] == 'v';
    } else if v / 8 == 6 {
      assert "wxyz0123"[0] == 'w' && "wxyz0123"[1] == 'x' && "wxyz0123"[2] == 'y' && "wxyz0123"[3] == 'z';
      assert "wxyz0123"[4] == '0' && "wxyz0123"[5] == '1' && "wxyz0123"[6] == '2' && "wxyz0123"[7] == '3';
    } else {
      assert "456789-_"[0] == '4' && "456789-_"[1] == '5' && "456789-_"[2] == '6' && "456789-_"[3] == '7';
      assert "456789-_"[4] == '8' && "456789-_"[5] == '9' && "456789-_"[6] == '-' && "456789-_"[7] == '_';
    }
  }

  /** A letter's place in the alphabet, or -1. */
  function PlaceOf(c: char): (v: int)
    ensures -1 <= v < 64
    ensures v >= 0 ==> Letter(v) == c
  {
    if 'A' <= c <= 'Z' then (c - 'A') as int
    else if 'a' <= c <= 'z' then 26 + (c - 'a') as int
    else if '0' <= c <= '9' then 52 + (c - '0') as int
    else if c == '-' then 62 else if c == '_' then 63 else -1
  }

  lemma PlaceOfLetter(v: Sextet)
    ensures PlaceOf(Letter(v)) == v && Letter(v) != '=' && Letter(v) as int < 128
  {
  }

  // ---- encoding ----

  function First(a: Byte): Sextet { a / 4 }
  function Second(a: Byte, b: Byte): Sextet { (a % 4) * 16 + b / 16 }
  function Third(b: Byte, c: Byte): Sextet { (b % 16) * 4 + c / 64 }
  function Fourth(c: Byte): Sextet { c % 64 }

  function Encode(data: seq<Byte>): (s: string)
    ensures |s| == (4 * |data| + 2) / 3
  {
    if data == [] then ""
    else if |data| == 1 then [Letter(First(data[0])), Letter(Second(data[0], 0))]
    else if |data| == 2 then [Letter(First(data[0])), Letter(Second(data[0], data[1])), Letter(Third(data[1], 0))]
    else
      [Letter(First(data[0])), Letter(Second(data[0], data[1])), Letter(Third(data[1], data[2])), Letter(Fourth(data[2]))]
      + Encode(data[3..])
  }

  /** The sextets of a 24-bit word are those of its three bytes. */
  lemma SextetsOfWord(a: Byte, b: Byte, c: Byte)
    ensures var n := (a as int) * 0x1_0000 + (b as int) * 0x100 + c;
      && n / 0x4_0000 % 64 == First(a) && n / 0x1000 % 64 == Second(a, b)
      && n / 64 % 64 == Third(b, c) && n % 64 == Fourth(c)
  {
    var n := (a as int) * 0x1_0000 + (b as int) * 0x100 + c;
    SextetParts(a, b, c);
    SextetsOut(n, First(a), Second(a, b), Third(b, c), Fourth(c));
  }

  lemma SextetParts(a: Byte, b: Byte, c: Byte)
    ensures (a as int) * 0x1_0000 + (b as int) * 0x100 + c
         == 0x4_0000 * First(a) + 0x1000 * Second(a, b) + 64 * Third(b, c) + Fourth(c)
  {
    assert a == 4 * (a / 4) + a % 4;
    assert b == 16 * (b / 16) + b % 16;
    assert c == 64 * (c / 64) + c % 64;
  }

  lemma SextetsOut(n: nat, p: Sextet, q: Sextet, r: Sextet, t: Sextet)
    requires n == 0x4_0000 * p + 0x1000 * q + 64 * r + t
    ensures n / 0x4_0000 % 64 == p && n / 0x1000 % 64 == q && n / 64 % 64 == r && n % 64 == t
  {
    assert n / 0x4_0000 == p;
    assert n / 0x1000 == 64 * p + q;
    assert n / 64 == 64 * (64 * p + q) + r;
  }

  method Base64UrlEncode(data: seq<Byte>) returns (out: string)
    ensures out == Encode(data)
  {
    hide Letter, First, Second, Third, Fourth, Encode;
    out := "";
    var i := 0;
    assert data[0..] == data;
    while i + 3 <= |data|
      invariant i <= |data| && Encode(data) == out + Encode(data[i..])
    {
      var n := (data[i] as int) * 0x1_0000 + (data[i + 1] as int) * 0x100 + data[i + 2];
      SextetsOfWord(data[i], data[i + 1], data[i + 2]);
      var four := [Letter(n / 0x4_0000 % 64), Letter(n / 0x1000 % 64), Letter(n / 64 % 64), Letter(n % 64)];
      EncodeGroup(data, i);
      Assoc(out, four, Encode(data[i + 3..]));
      out := out + four;
      i := i + 3;
    }
    if i < |data| {
      var n := (data[i] as int) * 0x1_0000 + (if i + 1 < |data| then (data[i + 1] as int) * 0x100 else 0);
      SextetsOfWord(data[i], if i + 1 < |data| then data[i + 1] else 0, 0);
      out := out + [Letter(n / 0x4_0000 % 64), Letter(n / 0x1000 % 64)];
      if i + 1 < |data| {
        out := out + [Letter(n / 64 % 64)];
      }
    }
    EncodeTail(data, i);
  }

  lemma EncodeGroup(data: seq<Byte>, i: nat)
    requires i + 3 <= |data|
    ensures var a, b, c := data[i], data[i + 1], data[i + 2];
      Encode(data[i..])
        == [Letter(First(a)), Letter(Second(a, b)), Letter(Third(b, c)), Letter(Fourth(c))] + Encode(data[i + 3..])
  {
    assert data[i..][3..] == data[i + 3..];
  }

  lemma EncodeTail(data: seq<Byte>, i: nat)
    requires i <= |data| < i + 3
    ensures i == |data| ==> Encode(data[i..]) == ""
    ensures i + 1 == |data| ==> Encode(data[i..]) == [Letter(First(data[i])), Letter(Second(data[i], 0))]
    ensures i + 2 == |data| ==>
      Encode(data[i..]) == [Letter(First(data[i])), Letter(Second(data[i], data[i + 1])), Letter(Third(data[i + 1], 0))]
  {
  }

  /** The vectors of section 10 of RFC 4648, without padding, and one that needs the URL-safe letters. */
  lemma KnownEncodings()
    ensures Encode([]) == "" && Encode([0x66]) == "Zg" && Encode([0x66, 0x6F]) == "Zm8"
    ensures Encode([0x66, 0x6F, 0x6F]) == "Zm9v" && Encode([0x66, 0x6F, 0x6F, 0x62]) == "Zm9vYg"
    ensures Encode([0xFB, 0xFF]) == "-_8"
  {
    assert [0x66, 0x6F, 0x6F][3..] == [] && [0x66, 0x6F, 0x6F, 0x62][3..] == [0x62];
  }

  // ---- decoding ----

  /** The decoder's 32-bit accumulator, how many of its low bits are pending, and the output. */
  datatype Decoder = Decoder(buf: U32, bits: nat, out: seq<Byte>)

  const START := Decoder(0, 0, [])

  /** One letter: bits shifted out of the accumulator are lost, the others never masked. */
  function Fed(d: Decoder, v: Sextet): Decoder
  {
    var buf := Low32(d.buf * 64 + v);
    var bits := d.bits + 6;
    if bits >= 8 then Decoder(buf, bits - 8, d.out + [buf / Pow2(bits - 8) % 0x100]) else Decoder(buf, bits, d.out)
  }

  function DecodeFrom(d: Decoder, s: string): Decoder
    decreases |s|
  {
    if s == "" || s[0] == '=' then d
    else DecodeFrom(if PlaceOf(s[0]) < 0 then d else Fed(d, PlaceOf(s[0])), s[1..])
  }

  function Decode(s: string): seq<Byte> { DecodeFrom(START, s).out }

  method BuildTable() returns (tbl: array<int>)
    ensures fresh(tbl) && tbl.Length == 256
    ensures forall c: char :: c as int < 256 ==> tbl[c as int] == PlaceOf(c)
  {
    tbl := new int[256](_ => -1);
    for i := 0 to 64
      invariant forall c: char :: c as int < 256 ==> tbl[c as int] == if PlaceOf(c) < i then PlaceOf(c) else -1
    {
      PlaceOfLetter(i);
      tbl[Letter(i) as int] := i;
    }
  }

  method Base64UrlDecode(s: string) returns (out: seq<Byte>)
    requires forall i :: 0 <= i < |s| ==> s[i] as int < 256
    ensures out == Decode(s)
  {
    hide PlaceOf, DecodeFrom, Low32, Pow2;
    var tbl := BuildTable();
    var buf: U32, bits: nat, i := 0, 0, 0;
    out := [];
    assert s[0..] == s;
    while i < |s| && s[i] != '='
      invariant i <= |s| && bits <= 6 && bits % 2 == 0
      invariant forall c: char :: c as int < 256 ==> tbl[c as int] == PlaceOf(c)
      invariant DecodeFrom(START, s) == DecodeFrom(Decoder(buf, bits, out), s[i..])
    {
      DecodeOne(Decoder(buf, bits, out), s, i);
      var v := tbl[s[i] as int];
      if v >= 0 {
        buf := Low32(buf * 64 + v);
        bits := bits + 6;
        if bits >= 8 {
          bits := bits - 8;
          out := out + [buf / Pow2(bits) % 0x100];
        }
      }
      i := i + 1;
    }
    DecodeEnd(Decoder(buf, bits, out), s, i);
  }

  lemma DecodeOne(d: Decoder, s: string, i: nat)
    requires i < |s| && s[i] != '='
    ensures DecodeFrom(d, s[i..]) == DecodeFrom(if PlaceOf(s[i]) < 0 then d else Fed(d, PlaceOf(s[i])), s[i + 1..])
  {
    assert s[i..][1..] == s[i + 1..];
  }

  lemma DecodeEnd(d: Decoder, s: string, i: nat)
    requires i <= |s| && (i == |s| || s[i] == '=')
    ensures DecodeFrom(d, s[i..]) == d
  {
  }

  // ---- the accumulator against an exact one ----

  /** A decoder that keeps just the pending bits. */
  datatype Exact = Exact(pending: nat, bits: nat, out: seq<Byte>)

  predicate Sound(e: Exact)
  {
    (e.bits == 0 || e.bits == 2 || e.bits == 4 || e.bits == 6) && e.pending < Pow2(e.bits)
  }

  function ExactFed(e: Exact, v: Sextet): (e': Exact)
    requires Sound(e)
    ensures Sound(e')
  {
    SmallPowers();
    var word := e.pending * 64 + v;
    if e.bits == 0 then Exact(word, 6, e.out)
    else if e.bits == 2 then Exact(0, 0, e.out + [word])
    else if e.bits == 4 then Exact(word % 4, 2, e.out + [word / 4])
    else Exact(word % 16, 4, e.out + [word / 16])
  }

  lemma SmallPowers()
    ensures Pow2(0) == 1 && Pow2(2) == 4 && Pow2(4) == 16 && Pow2(6) == 64
  {
    assert Pow2(2) == 4;
    assert Pow2(4) == 16;
  }

  /** The accumulator's pending bits are the exact decoder's, whatever lies above them. */
  ghost predicate Refines(d: Decoder, e: Exact)
  {
    Sound(e) && d.bits == e.bits && d.out == e.out && d.buf % Pow2(e.bits) == e.pending
  }

  lemma LowBits(x: nat, m: nat, k: nat)
    requires 0 < m && k * m == 0x1_0000_0000
    ensures Low32(x) % m == x % m
  {
    RemainderOfRemainder(x, m, k);
  }

  /** Pending bits followed by a letter, and the byte on top of them. */
  lemma WordOnTop(buf: nat, m: nat, v: Sextet)
    requires 0 < m
    ensures (buf * 64 + v) % (m * 64) == (buf % m) * 64 + v
  {
    QuotientRemainder(buf, m);
    Scaled(buf / m, m, buf % m);
    QuotientIsUnique(buf * 64 + v, m * 64, buf / m, (buf % m) * 64 + v);
  }

  lemma Scaled(q: nat, m: nat, r: nat)
    ensures (q * m + r) * 64 == q * (m * 64) + r * 64
  {
  }

  lemma ByteOnTop(buf: nat, m: nat)
    requires 0 < m
    ensures buf / m % 0x100 == buf % (0x100 * m) / m && buf % m == buf % (0x100 * m) % m
  {
    var n := 0x100 * m;
    var h, l := buf / n, buf % n;
    QuotientRemainder(buf, n);
    QuotientRemainder(l, m);
    Regrouped(0x100, m, h, l / m);
    QuotientIsUnique(buf, m, h * 0x100 + l / m, l % m);
    if 0x100 <= l / m {
      ProductGrows(0x100, l / m, m);
    }
  }

  lemma FeedingRefines(d: Decoder, e: Exact, v: Sextet)
    requires Refines(d, e)
    ensures Refines(Fed(d, v), ExactFed(e, v))
  {
    hide Low32;
    SmallPowers();
    var x, m := d.buf * 64 + v, Pow2(e.bits);
    WordOnTop(d.buf, m, v);
    if e.bits == 0 {
      LowBits(x, 64, 0x400_0000);
    } else if e.bits == 2 {
      LowBits(x, 0x100, 0x100_0000);
    } else if e.bits == 4 {
      LowBits(x, 0x400, 0x40_0000);
      ByteOnTop(Low32(x), 4);
    } else {
      LowBits(x, 0x1000, 0x10_0000);
      ByteOnTop(Low32(x), 16);
    }
  }

  function ExactFrom(e: Exact, s: string): (e': Exact)
    requires Sound(e)
    ensures Sound(e')
    decreases |s|
  {
    if s == "" || s[0] == '=' then e
    else ExactFrom(if PlaceOf(s[0]) < 0 then e else ExactFed(e, PlaceOf(s[0])), s[1..])
  }

  /** The discarded and the stale high bits never reach the output. */
  lemma {:induction false} DecodingRefines(d: Decoder, e: Exact, s: string)
    requires Refines(d, e)
    ensures Refines(DecodeFrom(d, s), ExactFrom(e, s))
    decreases |s|
  {
    hide Fed, ExactFed, PlaceOf;
    if s != "" && s[0] != '=' {
      if PlaceOf(s[0]) < 0 {
        DecodingRefines(d, e, s[1..]);
      } else {
        FeedingRefines(d, e, PlaceOf(s[0]));
        DecodingRefines(Fed(d, PlaceOf(s[0])), ExactFed(e, PlaceOf(s[0])), s[1..]);
      }
    }
  }

  // ---- the round trip ----

  lemma FeedLetter(e: Exact, v: Sextet, s: string)
    requires Sound(e)
    ensures ExactFrom(e, [Letter(v)] + s) == ExactFrom(ExactFed(e, v), s)
  {
    hide Letter, ExactFed;
    PlaceOfLetter(v);
    assert ([Letter(v)] + s)[1..] == s;
  }

  lemma FeedTwo(out: seq<Byte>, a: Byte, q: Byte)
    ensures ExactFed(ExactFed(Exact(0, 0, out), First(a)), Second(a, q)) == Exact(q / 16, 4, out + [a])
  {
    SmallPowers();
    PairWord(a, q);
    SplitWord(16, a, q / 16);
  }

  lemma FeedThird(out: seq<Byte>, b: Byte, c: Byte)
    ensures Sound(Exact(b / 16, 4, out))
    ensures ExactFed(Exact(b / 16, 4, out), Third(b, c)) == Exact(c / 64, 2, out + [b])
  {
    hide Third;
    SmallPowers();
    ThirdWord(b, c);
    SplitWord(4, b, c / 64);
  }

  lemma PairWord(a: Byte, q: Byte)
    ensures First(a) * 64 + Second(a, q) == 16 * a + q / 16
  {
  }

  lemma ThirdWord(b: Byte, c: Byte)
    ensures b / 16 * 64 + Third(b, c) == 4 * b + c / 64
  {
    assert b == 16 * (b / 16) + b % 16;
  }

  lemma SplitWord(m: nat, q: nat, r: nat)
    requires r < m
    ensures (m * q + r) / m == q && (m * q + r) % m == r
  {
    QuotientIsUnique(m * q + r, m, q, r);
  }

  lemma FeedFourth(out: seq<Byte>, c: Byte)
    ensures Sound(Exact(c / 64, 2, out))
    ensures ExactFed(Exact(c / 64, 2, out), Fourth(c)) == Exact(0, 0, out + [c])
  {
    SmallPowers();
    assert c / 64 * 64 + Fourth(c) == c;
  }

  lemma FeedPair(out: seq<Byte>, a: Byte, b: Byte, s: string)
    ensures Sound(Exact(0, 0, out)) && Sound(Exact(b / 16, 4, out + [a]))
    ensures ExactFrom(Exact(0, 0, out), [Letter(First(a)), Letter(Second(a, b))] + s) == ExactFrom(Exact(b / 16, 4, out + [a]), s)
  {
    hide Letter, First, Second, ExactFed, ExactFrom;
    SmallPowers();
    FeedTwo(out, a, b);
    var e := Exact(0, 0, out);
    assert [Letter(First(a)), Letter(Second(a, b))] + s == [Letter(First(a))] + ([Letter(Second(a, b))] + s);
    FeedLetter(e, First(a), [Letter(Second(a, b))] + s);
    FeedLetter(ExactFed(e, First(a)), Second(a, b), s);
  }

  lemma FeedTriple(out: seq<Byte>, a: Byte, b: Byte, c: Byte, s: string)
    ensures Sound(Exact(0, 0, out)) && Sound(Exact(c / 64, 2, out + [a] + [b]))
    ensures ExactFrom(Exact(0, 0, out), [Letter(First(a)), Letter(Second(a, b)), Letter(Third(b, c))] + s)
         == ExactFrom(Exact(c / 64, 2, out + [a] + [b]), s)
  {
    hide Letter, First, Second, Third, ExactFed, ExactFrom;
    SmallPowers();
    var three := [Letter(First(a)), Letter(Second(a, b)), Letter(Third(b, c))];
    assert three + s == [Letter(First(a)), Letter(Second(a, b))] + ([Letter(Third(b, c))] + s);
    FeedPair(out, a, b, [Letter(Third(b, c))] + s);
    FeedThird(out + [a], b, c);
    FeedLetter(Exact(b / 16, 4, out + [a]), Third(b, c), s);
  }

  lemma FeedGroup(out: seq<Byte>, a: Byte, b: Byte, c: Byte, s: string)
    ensures Sound(Exact(0, 0, out)) && Sound(Exact(0, 0, out + [a, b, c]))
    ensures ExactFrom(Exact(0, 0, out), [Letter(First(a)), Letter(Second(a, b)), Letter(Third(b, c)), Letter(Fourth(c))] + s)
         == ExactFrom(Exact(0, 0, out + [a, b, c]), s)
  {
    hide Letter, First, Second, Third, Fourth, ExactFed, ExactFrom;
    SmallPowers();
    var three := [Letter(First(a)), Letter(Second(a, b)), Letter(Third(b, c))];
    assert [Letter(First(a)), Letter(Second(a, b)), Letter(Third(b, c)), Letter(Fourth(c))] + s == three + ([Letter(Fourth(c))] + s);
    FeedTriple(out, a, b, c, [Letter(Fourth(c))] + s);
    FeedFourth(out + [a] + [b], c);
    FeedLetter(Exact(c / 64, 2, out + [a] + [b]), Fourth(c), s);
    assert out + [a] + [b] + [c] == out + [a, b, c];
  }

  lemma {:induction false} ExactRoundTrip(out: seq<Byte>, data: seq<Byte>)
    ensures Sound(Exact(0, 0, out))
    ensures ExactFrom(Exact(0, 0, out), Encode(data)).out == out + data
    decreases |data|
  {
    hide Letter, First, Second, Third, Fourth, ExactFed;
    SmallPowers();
    assert out + [] == out;
    assert Encode(data) == Encode(data) + "";
    if |data| == 1 {
      FeedPair(out, data[0], 0, "");
      assert data == [data[0]];
    } else if |data| == 2 {
      FeedTriple(out, data[0], data[1], 0, "");
      assert out + [data[0]] + [data[1]] == out + data;
    } else if |data| >= 3 {
      var group := [data[0], data[1], data[2]];
      FeedGroup(out, data[0], data[1], data[2], Encode(data[3..]));
      ExactRoundTrip(out + group, data[3..]);
      Assoc(out, group, data[3..]);
      assert group + data[3..] == data;
    }
  }

  /** Decoding undoes encoding for every byte string. */
  lemma RoundTrip(data: seq<Byte>)
    ensures Decode(Encode(data)) == data
  {
    hide Encode, Refines;
    StartRefines();
    DecodingRefines(START, Exact(0, 0, []), Encode(data));
    ExactRoundTrip([], data);
    SameOutput(DecodeFrom(START, Encode(data)), ExactFrom(Exact(0, 0, []), Encode(data)));
    assert [] + data == data;
  }

  lemma StartRefines()
    ensures Sound(Exact(0, 0, [])) && Refines(START, Exact(0, 0, []))
  {
    SmallPowers();
  }

  lemma SameOutput(d: Decoder, e: Exact)
    requires Refines(d, e)
    ensures d.out == e.out
  {
  }

  // ---- other characters ----

  /** The letters a decoder sees: those of the alphabet before the first padding sign. */
  function LettersOf(s: string): string
    decreases |s|
  {
    if s == "" || s[0] == '=' then ""
    else (if PlaceOf(s[0]) < 0 then "" else [s[0]]) + LettersOf(s[1..])
  }

  lemma {:induction false} OthersAreIgnored(d: Decoder, s: string)
    ensures DecodeFrom(d, s) == DecodeFrom(d, LettersOf(s))
    decreases |s|
  {
    hide Fed;
    if s != "" && s[0] != '=' {
      if PlaceOf(s[0]) < 0 {
        OthersAreIgnored(d, s[1..]);
        assert LettersOf(s) == LettersOf(s[1..]);
      } else {
        OthersAreIgnored(Fed(d, PlaceOf(s[0])), s[1..]);
        assert LettersOf(s)[1..] == LettersOf(s[1..]);
      }
    }
  }

  /** Line breaks, other foreign characters and padding make no difference. */
  lemma PaddedRoundTrip(s: string, data: seq<Byte>)
    requires LettersOf(s) == Encode(data)
    ensures Decode(s) == data
  {
    OthersAreIgnored(START, s);
    RoundTrip(data);
  }
}

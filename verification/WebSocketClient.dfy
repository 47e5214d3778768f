/** The WebSocket client over a socket that splits bytes as it likes. */
module WebSocketClient {
  import opened Words
  import opened Sockets
  import opened WebSocketFrames

  const CHUNK := 1024

  // ---- end of the HTTP header ----

  predicate EndsHeader(s: seq<Byte>, i: nat)
  {
    3 <= i < |s| && s[i - 3] == 13 && s[i - 2] == 10 && s[i - 1] == 13 && s[i] == 10
  }

  /** The header is the shortest prefix that ends in an empty line. */
  ghost predicate IsHeader(s: seq<Byte>, n: nat)
  {
    0 < n <= |s| && EndsHeader(s, n - 1) && forall i :: 0 <= i < n - 1 ==> !EndsHeader(s, i)
  }

  lemma HeaderOfPrefix(s: seq<Byte>, t: seq<Byte>, i: nat)
    requires i < |s|
    ensures EndsHeader(s, i) <==> EndsHeader(s + t, i)
  {
  }

  // ---- the client ----

  class WebSocketClient {
    const socket: Socket
    const keys: Keys          // the masking keys the random device yields
    var rxBuf: seq<Byte>
    var drawn: nat

    ghost function Stream(): seq<Byte>
      reads this, socket
    {
      rxBuf + socket.incoming
    }

    constructor (socket: Socket, keys: Keys)
      ensures this.socket == socket && this.keys == keys && rxBuf == [] && drawn == 0
    {
      this.socket, this.keys, rxBuf, drawn := socket, keys, [], 0;
    }

    method WriteAll(bytes: seq<Byte>) returns (ok: bool)
      modifies socket`outgoing
      ensures ok ==> socket.outgoing == old(socket.outgoing) + bytes
      ensures socket.reliable ==> ok
    {
      var sent := 0;
      while sent < |bytes|
        invariant sent <= |bytes| && socket.outgoing == old(socket.outgoing) + bytes[..sent]
      {
        var k := socket.Send(bytes[sent..]);
        if k == 0 {
          return false;
        }
        Assoc(old(socket.outgoing), bytes[..sent], bytes[sent..][..k]);
        assert bytes[..sent] + bytes[sent..][..k] == bytes[..sent + k];
        sent := sent + k;
      }
      assert bytes[..sent] == bytes;
      ok := true;
    }

    method ReadExact(n: nat) returns (bytes: Option<seq<Byte>>)
      modifies this`rxBuf, socket`incoming
      ensures bytes.Some? ==> n <= |old(Stream())| && bytes.value == old(Stream())[..n] && Stream() == old(Stream())[n..]
      ensures socket.reliable ==> (bytes.Some? <==> n <= |old(Stream())|)
    {
      ghost var stream := Stream();
      var take := Min(|rxBuf|, n);
      var dst := rxBuf[..take];
      rxBuf := rxBuf[take..];
      assert stream == dst + Stream();
      while |dst| < n
        invariant |dst| <= n && stream == dst + Stream()
        invariant |dst| < n ==> rxBuf == []
        decreases n - |dst|
      {
        var chunk := socket.Recv(n - |dst|);
        if chunk == [] {
          return None;
        }
        assert rxBuf == [] && Stream() == socket.incoming;
        Assoc(dst, chunk, socket.incoming);
        dst := dst + chunk;
      }
      Peel(dst, Stream());
      bytes := Some(dst);
    }

    method ReadHttpResponseHeader() returns (header: Option<seq<Byte>>)
      modifies this`rxBuf, socket`incoming
      ensures header.Some? ==>
        && IsHeader(old(Stream()), |header.value|)
        && header.value == old(Stream())[..|header.value|] && Stream() == old(Stream())[|header.value|..]
      ensures header == None && socket.reliable ==> forall i :: !EndsHeader(old(Stream()), i)
    {
      ghost var stream := Stream();
      while true
        invariant Stream() == stream
        decreases |socket.incoming|
      {
        var i := 3;
        while i < |rxBuf|
          invariant 3 <= i && forall j :: 0 <= j < i && j < |rxBuf| ==> !EndsHeader(rxBuf, j)
        {
          if rxBuf[i - 3] == 13 && rxBuf[i - 2] == 10 && rxBuf[i - 1] == 13 && rxBuf[i] == 10 {
            header := Some(rxBuf[..i + 1]);
            HeaderFound(rxBuf, socket.incoming, i);
            rxBuf := rxBuf[i + 1..];
            return;
          }
          i := i + 1;
        }
        var chunk := socket.Recv(CHUNK);
        if chunk == [] {
          NoHeader(rxBuf, socket.incoming);
          return None;
        }
        Assoc(rxBuf, chunk, socket.incoming);
        rxBuf := rxBuf + chunk;
      }
    }

    // The header of a frame, in the order its bytes are stored.
    method BuildHeader(first: Byte, n: U64, key: Mask) returns (hdr: seq<Byte>)
      ensures hdr == Header(first, Some(key), n)
    {
      hdr := [first];
      if n <= 125 {
        hdr := hdr + [128 + n];
      } else if n <= 0xFFFF {
        hdr := hdr + [128 + 126, n / 256 % 256, n % 256];
        ShortLengthBytes(n);
      } else {
        hdr := hdr + [128 + 127];
        var bytes := EightLengthBytes(n);
        hdr := hdr + bytes;
      }
      assert hdr == HeadOf(first, Some(key), n) + BigEndian(n, ExtraBytes(ShortLength(n)));
      hdr := hdr + key;
    }

    method EightLengthBytes(n: U64) returns (bytes: seq<Byte>)
      ensures bytes == BigEndian(n, 8)
    {
      bytes := [];
      ShiftedOut(n);
      for i := 8 downto 0
        invariant bytes == BigEndian(Shifted(n, i), 8 - i)
      {
        bytes := bytes + [Shifted(n, i) % 256];
        assert Shifted(n, i + 1) == Shifted(n, i) / 256;
        assert BigEndian(Shifted(n, i), 8 - i) == BigEndian(Shifted(n, i) / 256, 7 - i) + [Shifted(n, i) % 256];
      }
    }

    method DrawKey() returns (key: Mask)
      modifies this`drawn
      ensures key == keys(old(drawn)) && drawn == old(drawn) + 1
    {
      key := keys(drawn);
      drawn := drawn + 1;
    }

    method SendBinary(data: seq<Byte>) returns (ok: bool)
      requires |data| < 0x1_0000_0000_0000_0000
      modifies this`drawn, socket`outgoing
      ensures drawn == old(drawn) + 1
      ensures ok ==> socket.outgoing == old(socket.outgoing) + Encoded(BINARY, Some(keys(old(drawn))), data)
      ensures socket.reliable ==> ok
    {
      var key := DrawKey();
      var hdr := BuildHeader(BINARY, |data|, key);
      ok := WriteAll(hdr);
      if !ok {
        return;
      }
      ok := SendMasked(data, key);
      Assoc(old(socket.outgoing), hdr, Masked(data, key));
    }

    // The payload goes out in chunks masked one at a time.
    method SendMasked(data: seq<Byte>, key: Mask) returns (ok: bool)
      modifies socket`outgoing
      ensures ok ==> socket.outgoing == old(socket.outgoing) + Masked(data, key)
      ensures socket.reliable ==> ok
    {
      hide Xor;
      var i := 0;
      while i < |data|
        invariant i <= |data| && socket.outgoing == old(socket.outgoing) + Masked(data, key)[..i]
      {
        var take := Min(CHUNK, |data| - i);
        var chunk := MaskChunk(data, key, i, take);
        var sent := WriteAll(chunk);
        if !sent {
          return false;
        }
        Assoc(old(socket.outgoing), Masked(data, key)[..i], chunk);
        assert Masked(data, key)[..i] + Masked(data, key)[i..i + take] == Masked(data, key)[..i + take];
        i := i + take;
      }
      assert Masked(data, key)[..i] == Masked(data, key);
      ok := true;
    }

    method MaskChunk(data: seq<Byte>, key: Mask, i: nat, take: nat) returns (chunk: seq<Byte>)
      requires i + take <= |data|
      ensures chunk == Masked(data, key)[i..i + take]
    {
      chunk := [];
      for j := 0 to take
        invariant |chunk| == j && forall k :: 0 <= k < j ==> chunk[k] == Xor(data[i + k], key[(i + k) % 4])
      {
        chunk := chunk + [Xor(data[i + j], key[(i + j) % 4])];
      }
    }

    // In-place masking of a whole payload.
    method Unmask(data: seq<Byte>, key: Mask) returns (r: seq<Byte>)
      ensures r == Masked(data, key)
    {
      r := data;
      for i := 0 to |data|
        invariant |r| == |data|
        invariant forall k :: 0 <= k < i ==> r[k] == Xor(data[k], key[k % 4])
        invariant forall k :: i <= k < |data| ==> r[k] == data[k]
      {
        r := r[i := Xor(r[i], key[i % 4])];
      }
    }

    // One frame off the stream.
    method ReadFrame() returns (frame: Option<Frame>)
      modifies this`rxBuf, socket`incoming
      ensures frame.Some? ==> Parse(old(Stream())) == Complete(frame.value, Stream())
      ensures socket.reliable ==> (frame.Some? <==> Parse(old(Stream())).Complete?)
    {
      hide Masked, LengthOf, ExtraBytes;
      var head := ReadExact(2);
      if head == None {
        return None;
      }
      var fin, opcode, masked := head.value[0] >= 128, head.value[0] % 16, head.value[1] >= 128;
      var length := ReadLength(head.value[1] % 128);
      if length == None {
        return None;
      }
      var key: Option<Mask> := None;
      if masked {
        var bytes := ReadExact(4);
        if bytes == None {
          return None;
        }
        key := bytes;
      }
      var payload := ReadExact(length.value);
      if payload == None {
        return None;
      }
      var data := payload.value;
      if key.Some? {
        data := Unmask(data, key.value);
      }
      frame := Some(Frame(fin, opcode, data));
    }

    // The rest of the length field, if the seven-bit length announces one.
    method ReadLength(short: nat) returns (length: Option<nat>)
      requires short < 128
      modifies this`rxBuf, socket`incoming
      ensures var s, extra := old(Stream()), ExtraBytes(short);
        && (length.Some? ==> extra <= |s| && length.value == LengthOf(short, s[..extra]) && Stream() == s[extra..])
        && (socket.reliable ==> (length.Some? <==> extra <= |s|))
    {
      hide ValueOf;
      if short == 126 {
        var ext := ReadExact(2);
        if ext == None {
          return None;
        }
        var value := TwoByteLength(ext.value);
        length := Some(value);
      } else if short == 127 {
        var ext := ReadExact(8);
        if ext == None {
          return None;
        }
        var value := EightByteLength(ext.value);
        length := Some(value);
      } else {
        length := Some(short);
      }
    }

    method TwoByteLength(ext: seq<Byte>) returns (length: U64)
      requires |ext| == 2
      ensures length == ValueOf(ext)
    {
      length := (ext[0] as int) * 256 + ext[1];
      assert ext[..1] == [ext[0]] && [ext[0]][..0] == [];
      assert ValueOf([ext[0]]) == ext[0];
    }

    // The 64-bit accumulator never loses a bit.
    method EightByteLength(ext: seq<Byte>) returns (length: U64)
      requires |ext| == 8
      ensures length == ValueOf(ext)
    {
      length := 0;
      for i := 0 to 8
        invariant length == ValueOf(ext[..i])
      {
        assert ext[..i + 1][..i] == ext[..i];
        ValueBound(ext[..i + 1]);
        PrefixFits(i + 1);
        length := length * 256 + ext[i];
      }
      assert ext[..8] == ext;
    }

    method Reply(data: seq<Byte>) returns (ok: bool)
      requires |data| <= 0xFFFF
      modifies this`drawn, socket`outgoing
      ensures drawn == old(drawn) + 1
      ensures ok ==> socket.outgoing == old(socket.outgoing) + Encoded(PONG, Some(keys(old(drawn))), data)
      ensures socket.reliable ==> ok
    {
      var key := DrawKey();
      var hdr := BuildHeader(PONG, |data|, key);
      ok := WriteAll(hdr);
      if !ok {
        return;
      }
      var masked := Unmask(data, key);
      ok := WriteAll(masked);
      Assoc(old(socket.outgoing), hdr, masked);
    }

    method RecvBinary() returns (out: Option<seq<Byte>>)
      modifies this`rxBuf, this`drawn, socket`incoming, socket`outgoing
      ensures out.Some? ==>
        var outcome := Receive(old(Stream()), keys, old(drawn), []);
        && outcome.Delivered? && outcome == Delivered(out.value, Stream(), outcome.replies, drawn)
        && socket.outgoing == old(socket.outgoing) + outcome.replies
      ensures socket.reliable ==> (out.Some? <==> Receive(old(Stream()), keys, old(drawn), []).Delivered?)
    {
      hide Parse, Encoded;
      ghost var outcome := Receive(Stream(), keys, drawn, []);
      ghost var replies: seq<Byte> := [];
      while true
        invariant Receive(Stream(), keys, drawn, replies) == outcome
        invariant socket.outgoing == old(socket.outgoing) + replies
        decreases |Stream()|
      {
        ParseConsumes(Stream());
        var frame := ReadFrame();
        if frame == None {
          return None;
        }
        var f := frame.value;
        if !f.fin {
          return None;
        }
        match f.opcode {
          case 0x2 =>
            return Some(f.data);
          case 0x9 =>
            if |f.data| > 0xFFFF {
              return None;
            }
            var pong := Encoded(PONG, Some(keys(drawn)), f.data);
            var ok := Reply(f.data);
            if !ok {
              return None;
            }
            Assoc(old(socket.outgoing), replies, pong);
            replies := replies + pong;
          case 0xA =>
          case _ =>
            return None;
        }
      }
    }
  }

  lemma ShortLengthBytes(n: nat)
    requires 125 < n <= 0xFFFF
    ensures BigEndian(n, 2) == [n / 256 % 256, n % 256]
  {
    assert BigEndian(n / 256, 1) == [] + [n / 256 % 256];
  }

  lemma ShiftedOut(n: U64)
    ensures Shifted(n, 8) == 0
  {
    assert Shifted(n, 0) == n && Shifted(n, 1) == n / 256;
    assert Shifted(n, 2) < 0x1_0000_0000_0000;
    assert Shifted(n, 3) == Shifted(n, 2) / 256;
    assert Shifted(n, 4) < 0x1_0000_0000;
    assert Shifted(n, 5) == Shifted(n, 4) / 256;
    assert Shifted(n, 6) < 0x1_0000;
    assert Shifted(n, 7) == Shifted(n, 6) / 256;
  }

  lemma PrefixFits(k: nat)
    requires k <= 8
    ensures Pow256(k) <= 0x1_0000_0000_0000_0000
    decreases 8 - k
  {
    if k == 8 {
      EightBytes();
    } else {
      PrefixFits(k + 1);
    }
  }

  lemma HeaderFound(buf: seq<Byte>, incoming: seq<Byte>, i: nat)
    requires EndsHeader(buf, i) && forall j :: 0 <= j < i ==> !EndsHeader(buf, j)
    ensures IsHeader(buf + incoming, i + 1)
    ensures (buf + incoming)[..i + 1] == buf[..i + 1] && (buf + incoming)[i + 1..] == buf[i + 1..] + incoming
  {
    forall j | 0 <= j <= i ensures EndsHeader(buf, j) <==> EndsHeader(buf + incoming, j) {
      HeaderOfPrefix(buf, incoming, j);
    }
  }

  lemma NoHeader(buf: seq<Byte>, incoming: seq<Byte>)
    requires forall j :: 0 <= j < |buf| ==> !EndsHeader(buf, j)
    ensures incoming == [] ==> forall j :: !EndsHeader(buf + incoming, j)
  {
    assert incoming == [] ==> buf + incoming == buf;
  }
}

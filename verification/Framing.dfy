/** Packets on the wire: chunks of at most 1024 bytes, each behind a header of
    three hex digits and CR LF, ended by a chunk of size zero. */
module Framing {
  import opened Text
  import opened Numbers

  const CHUNK := 1024
  const HEADER := 5

  function Min(a: int, b: int): int {
    if a <= b then a else b
  }

  function Header(n: nat): (h: string)
    requires n < 0x1000
    ensures |h| == HEADER
  {
    Hex3(n) + "\r\n"
  }

  /** The bytes `SendPacket` puts on the wire for one message. */
  function Encode(m: string): string {
    if m == "" then Header(0)
    else
      var k := Min(CHUNK, |m|);
      Header(k) + m[..k] + Encode(m[k..])
  }

  function EncodeAll(ms: seq<string>): string {
    if ms == [] then "" else Encode(ms[0]) + EncodeAll(ms[1..])
  }

  datatype Parsed = Packet(message: string, rest: string) | NoPacket

  /** The packet at the front of a byte stream, however the stream is delivered.
      NoPacket covers what the receiver is not written for: a stream that ends inside
      a packet, a size outside 0..1024, a NUL inside the packet. */
  function Decode(stream: string): Parsed
    decreases |stream|
  {
    if |stream| < HEADER || !Free(stream[..HEADER], '\0') then NoPacket
    else
      var size := Stoi(stream[..HEADER - 2], 16);
      if size == 0 then Packet("", stream[HEADER..])
      else if size < 0 || size > CHUNK || |stream| < HEADER + size || !Free(stream[HEADER..HEADER + size], '\0')
      then NoPacket
      else
        match Decode(stream[HEADER + size..])
        case NoPacket => NoPacket
        case Packet(m, rest) => Packet(stream[HEADER..HEADER + size] + m, rest)
  }

  /** `n` packets read one after the other. */
  function DecodeAll(stream: string, n: nat): (r: (seq<string>, string)) 
    decreases n
  {
    if n == 0 then ([], stream)
    else
      match Decode(stream)
      case NoPacket => ([], stream)
      case Packet(m, rest) => var (ms, left) := DecodeAll(rest, n - 1); ([m] + ms, left)
  }

  lemma HeaderReads(n: nat)
    requires n < 0x1000
    ensures Stoi(Header(n)[..HEADER - 2], 16) == n && Header(n)[HEADER - 2..] == "\r\n"
    ensures forall k :: 0 <= k < HEADER - 2 ==> '0' <= Header(n)[k] <= '9' || 'A' <= Header(n)[k] <= 'F'
    ensures Free(Header(n), '\0')
  {
    Hex3RoundTrip(n);
    assert Header(n)[..HEADER - 2] == Hex3(n);
  }

  lemma TrailerEndsPacket()
    ensures Encode("") == "000\r\n"
  {
  }

  lemma {:induction false} DecodeTrailer(rest: string)
    ensures Decode(Header(0) + rest) == Packet("", rest)
  {
    HeaderReads(0);
    var stream := Header(0) + rest;
    assert stream[..HEADER] == Header(0) && stream[..HEADER - 2] == Header(0)[..HEADER - 2];
    assert stream[HEADER..] == rest;
  }

  lemma {:induction false} DecodeChunk(chunk: string, tail: string)
    requires 0 < |chunk| <= CHUNK && Free(chunk, '\0')
    requires Decode(tail).Packet?
    ensures Decode(Header(|chunk|) + chunk + tail) == Packet(chunk + Decode(tail).message, Decode(tail).rest)
  {
    var stream := Header(|chunk|) + chunk + tail;
    HeaderReads(|chunk|);
    assert stream[..HEADER] == Header(|chunk|) && stream[..HEADER - 2] == Header(|chunk|)[..HEADER - 2];
    assert stream[HEADER..HEADER + |chunk|] == chunk;
    assert stream[HEADER + |chunk|..] == tail;
  }

  lemma EncodeChunk(m: string, rest: string) returns (chunk: string, later: string)
    requires m != "" && Free(m, '\0')
    ensures m == chunk + later && 0 < |chunk| <= CHUNK && |later| < |m| && Free(chunk, '\0') && Free(later, '\0')
    ensures Encode(m) + rest == Header(|chunk|) + chunk + (Encode(later) + rest)
  {
    hide Header;
    var k := Min(CHUNK, |m|);
    chunk, later := m[..k], m[k..];
    assert Encode(m) == Header(k) + chunk + Encode(later);
    assert Header(k) + chunk + Encode(later) + rest == Header(k) + chunk + (Encode(later) + rest);
  }

  lemma EncodeEmpty()
    ensures Encode("") == Header(0)
  {
  }

  /** One packet is read back exactly, and not a byte of what follows is taken. */
  lemma {:induction false} RoundTrip(m: string, rest: string)
    requires Free(m, '\0')
    ensures Decode(Encode(m) + rest) == Packet(m, rest)
    decreases |m|
  {
    hide *;
    if m == "" {
      EncodeEmpty();
      DecodeTrailer(rest);
    } else {
      var chunk, later := EncodeChunk(m, rest);
      RoundTrip(later, rest);
      DecodeChunk(chunk, Encode(later) + rest);
    }
  }

  /** Messages sent back to back come back in order, with the bytes after them untouched. */
  lemma {:induction false} RoundTripAll(ms: seq<string>, rest: string)
    requires forall m :: m in ms ==> Free(m, '\0')
    ensures DecodeAll(EncodeAll(ms) + rest, |ms|) == (ms, rest)
  {
    hide Encode, Decode;
    if ms == [] {
      assert EncodeAll(ms) + rest == rest;
    } else {
      assert EncodeAll(ms) + rest == Encode(ms[0]) + (EncodeAll(ms[1..]) + rest);
      RoundTrip(ms[0], EncodeAll(ms[1..]) + rest);
      RoundTripAll(ms[1..], rest);
      assert [ms[0]] + ms[1..] == ms;
    }
  }

  /** No packet is a proper prefix of another: two streams that start with a packet
      each and are equal start with the same packet. */
  lemma {:induction false} PrefixFree(m1: string, r1: string, m2: string, r2: string)
    requires Free(m1, '\0') && Free(m2, '\0')
    requires Encode(m1) + r1 == Encode(m2) + r2
    ensures m1 == m2 && r1 == r2
  {
    RoundTrip(m1, r1);
    RoundTrip(m2, r2);
  }

  lemma {:induction false} DecodeFirst(stream: string)
    requires Decode(stream).Packet?
    ensures |stream| >= HEADER && Free(stream[..HEADER], '\0')
    ensures var size := Stoi(stream[..HEADER - 2], 16);
      if size == 0 then Decode(stream) == Packet("", stream[HEADER..])
      else
        && 0 < size <= CHUNK && |stream| >= HEADER + size && Free(stream[HEADER..HEADER + size], '\0')
        && var later := Decode(stream[HEADER + size..]);
           later.Packet? && Decode(stream) == Packet(stream[HEADER..HEADER + size] + later.message, later.rest)
  {
    hide Stoi, Free;
  }

  /** The receiver never depends on bytes after its packet. */
  lemma {:induction false} DecodeLocal(stream: string, more: string)
    requires Decode(stream).Packet?
    ensures Decode(stream + more) == Packet(Decode(stream).message, Decode(stream).rest + more)
    decreases |stream|
  {
    hide Stoi, Free;
    DecodeFirst(stream);
    var both := stream + more;
    var size := Stoi(stream[..HEADER - 2], 16);
    assert both[..HEADER] == stream[..HEADER] && both[..HEADER - 2] == stream[..HEADER - 2];
    if size == 0 {
      assert both[HEADER..] == stream[HEADER..] + more;
    } else {
      assert both[HEADER..HEADER + size] == stream[HEADER..HEADER + size];
      assert both[HEADER + size..] == stream[HEADER + size..] + more;
      DecodeLocal(stream[HEADER + size..], more);
    }
  }

  /** n bytes cost one header per chunk begun and one trailer. */
  lemma {:induction false} EncodedLength(m: string)
    ensures |Encode(m)| == |m| + HEADER * ((|m| + CHUNK - 1) / CHUNK + 1)
    decreases |m|
  {
    if m != "" {
      EncodedLength(m[Min(CHUNK, |m|)..]);
    }
  }

  lemma {:induction false} EncodeNulFree(m: string)
    requires Free(m, '\0')
    ensures Free(Encode(m), '\0')
    decreases |m|
  {
    if m != "" {
      var k := Min(CHUNK, |m|);
      HeaderReads(k);
      EncodeNulFree(m[k..]);
    }
  }

  /** `after` is `before` and a proper part of `packet`. */
  predicate StoppedInside(before: string, after: string, packet: string) {
    before <= after <= before + packet && after != before + packet
  }

  /** `left` is what remains of the schedule `all` after reads none of which failed. */
  predicate ReadSoFar(all: seq<int>, left: seq<int>) {
    && |left| <= |all| && left == all[|all| - |left|..]
    && forall k :: 0 <= k < |all| - |left| ==> all[k] >= 0
  }

  /** The same, except that the last of these reads failed. */
  predicate ReadFailed(all: seq<int>, left: seq<int>) {
    var last := |all| - |left| - 1;
    && 0 <= last && left == all[last + 1..] && all[last] < 0
    && forall k :: 0 <= k < last ==> all[k] >= 0
  }

  lemma Constants()
    ensures CHUNK == 1024 && HEADER == 5
  {
  }

  lemma ReadNone(all: seq<int>)
    ensures ReadSoFar(all, all)
  {
  }

  lemma ReadNext(all: seq<int>, left: seq<int>)
    requires ReadSoFar(all, left) && left != []
    ensures if left[0] < 0 then ReadFailed(all, left[1..]) else ReadSoFar(all, left[1..])
  {
  }

  /** Appending one more chunk to the bytes already sent. */
  lemma EncodeStep(m: string, sent: nat)
    requires sent < |m|
    ensures var k := Min(CHUNK, |m| - sent);
            Encode(m[sent..]) == Header(k) + m[sent..sent + k] + Encode(m[sent + k..])
  {
    var k := Min(CHUNK, |m| - sent);
    assert m[sent..][..k] == m[sent..sent + k];
    assert m[sent..][k..] == m[sent + k..];
  }

  /** The receiver before a header: what is left on the stream completes `whole`. */
  predicate AtHeader(incoming: string, received: string, whole: Parsed) {
    && Decode(incoming).Packet?
    && whole == Packet(received + Decode(incoming).message, Decode(incoming).rest)
  }

  /** The receiver before a chunk body of `size` bytes. */
  predicate AtBody(incoming: string, size: nat, received: string, whole: Parsed) {
    && size <= |incoming| && Free(incoming[..size], '\0')
    && AtHeader(incoming[size..], received + incoming[..size], whole)
  }

  lemma HeaderPresent(incoming: string, received: string, whole: Parsed)
    requires AtHeader(incoming, received, whole)
    ensures |incoming| >= HEADER && Free(incoming[..HEADER], '\0')
    ensures Stoi(incoming[..HEADER - 2], 16) == 0 ==> whole == Packet(received, incoming[HEADER..])
  {
  }

  lemma BodyPresent(incoming: string, size: nat, received: string, whole: Parsed)
    requires AtBody(incoming, size, received, whole) && Free(received, '\0')
    ensures size <= |incoming| && Free(incoming[..size], '\0')
    ensures Append(received, incoming[..size]) == received + incoming[..size]
    ensures Free(Append(received, incoming[..size]), '\0')
    ensures AtHeader(incoming[size..], Append(received, incoming[..size]), whole)
  {
    AppendNulFree(received, incoming[..size]);
    FreeConcat(received, incoming[..size], '\0');
  }

  lemma {:induction false} Begin(incoming: string)
    requires Decode(incoming).Packet?
    ensures Free("", '\0')
    ensures AtHeader(incoming, "", Decode(incoming))
  {
  }

  lemma HeaderToBody(incoming: string, received: string, whole: Parsed)
    requires AtHeader(incoming, received, whole)
    requires |incoming| >= HEADER && Stoi(incoming[..HEADER - 2], 16) != 0
    ensures var size := Stoi(incoming[..HEADER - 2], 16);
            0 < size <= CHUNK && AtBody(incoming[HEADER..], size, received, whole)
  {
    var size := Stoi(incoming[..HEADER - 2], 16);
    var body := incoming[HEADER..];
    assert body[..size] == incoming[HEADER..HEADER + size];
    assert body[size..] == incoming[HEADER + size..];
    var m := Decode(body[size..]).message;
    assert received + (body[..size] + m) == received + body[..size] + m;
  }

  /** `piece` taken off the stream right after the first `k` bytes. */
  lemma Consumed(start: string, k: nat, piece: string, left: string, wanted: nat)
    requires k + |piece| <= wanted <= |start| && Free(start[..wanted], '\0')
    requires start[k..] == piece + left
    ensures Append(start[..k], piece) == start[..k + |piece|] && left == start[k + |piece|..]
  {
    assert forall i :: 0 <= i < |piece| ==> piece[i] == start[k..][i];
    assert forall i :: 0 <= i < |piece| ==> piece[i] == start[..wanted][k + i];
    AppendNulFree(start[..k], piece);
    assert start[k..][|piece|..] == left;
  }

  /** `totalSent` and `remaining` fit their type. */
  predicate CountersHold(size: nat, sent: nat) {
    ToInt32(sent) == sent && ToInt32(size - sent) == size - sent
  }

  /** The `int` counters of `SendPacket` hold what they should, at every point of the loop,
      exactly for messages of less than 2^31 bytes. */
  lemma CountersFit(size: nat)
    ensures (forall sent: nat :: sent <= size ==> CountersHold(size, sent)) <==> size < 0x8000_0000
  {
    if size >= 0x8000_0000 {
      assert !CountersHold(size, 0x8000_0000);
    }
  }

  lemma CountersFitAt(size: nat, sent: nat)
    requires sent <= size < 0x8000_0000
    ensures ToInt32(size - sent) == size - sent
  {
    CountersFit(size);
    assert CountersHold(size, sent);
  }

  lemma ReadOn(all: seq<int>, mid: seq<int>, left: seq<int>)
    requires ReadSoFar(all, mid)
    ensures ReadSoFar(mid, left) ==> ReadSoFar(all, left)
    ensures ReadFailed(mid, left) ==> ReadFailed(all, left)
  {
    var d, e := |all| - |mid|, |mid| - |left|;
    if ReadSoFar(mid, left) || ReadFailed(mid, left) {
      assert left == mid[e..] == all[d + e..];
      forall k | 0 <= k < d + e ensures all[k] >= 0 || (ReadFailed(mid, left) && k == d + e - 1) {
        if k >= d {
          assert mid[k - d] == all[k];
        }
      }
      assert e > 0 ==> mid[e - 1] == all[d + e - 1];
    }
  }

  lemma {:induction false} NextPacket(ms: seq<string>, k: nat, rest: string)
    requires k < |ms| && forall m :: m in ms ==> Free(m, '\0')
    ensures Decode(EncodeAll(ms[k..]) + rest) == Packet(ms[k], EncodeAll(ms[k + 1..]) + rest)
  {
    hide Encode, Decode;
    assert ms[k..][0] == ms[k] && ms[k..][1..] == ms[k + 1..] && ms[k] in ms;
    assert EncodeAll(ms[k..]) + rest == Encode(ms[k]) + (EncodeAll(ms[k + 1..]) + rest);
    RoundTrip(ms[k], EncodeAll(ms[k + 1..]) + rest);
  }

  lemma AllOrNone(ms: seq<string>, rest: string)
    ensures ms[0..] == ms && EncodeAll(ms[|ms|..]) + rest == rest
  {
  }

  /** One end of a connection. `incoming` is every byte the peer will deliver; `readSizes`
      says how each `recv` goes (negative: it fails; otherwise at most that many bytes
      arrive, so 0 is an empty read; once used up, reads are as long as asked for);
      `sendFails` says which `send` calls fail. A `send` is all or nothing. */
  class Connection {
    var incoming: string
    var outgoing: string
    var readSizes: seq<int>
    var sendFails: seq<bool>

    method Recv(len: nat) returns (n: int, buf: string)
      requires 0 < len <= CHUNK
      requires incoming != ""
      modifies this`incoming, this`readSizes
      ensures readSizes == if old(readSizes) == [] then [] else old(readSizes)[1..]
      ensures n < 0 <==> old(readSizes) != [] && old(readSizes)[0] < 0
      ensures n == 0 ==> old(readSizes) != [] && old(readSizes)[0] == 0
      ensures n >= 0 ==> n <= len && old(incoming) == buf + incoming && |buf| == n
    {
      n := Min(len, |incoming|);
      if readSizes != [] {
        n := if readSizes[0] < 0 then -1 else Min(n, readSizes[0]);
        readSizes := readSizes[1..];
      }
      buf := if n < 0 then "" else incoming[..n];
      incoming := incoming[|buf|..];
    }

    method Send(buf: string) returns (status: int)
      modifies this`outgoing, this`sendFails
      ensures status > 0 ==> outgoing == old(outgoing) + buf
      ensures status <= 0 ==> outgoing == old(outgoing) && true in old(sendFails)
      ensures forall b :: b in sendFails ==> b in old(sendFails)
    {
      status := if |buf| == 0 then 1 else |buf|;
      if sendFails != [] {
        var failed := sendFails[0];
        sendFails := sendFails[1..];
        if failed {
          return -1;
        }
      }
      outgoing := outgoing + buf;
    }

    /** Sends the packet whole, or stops inside it because a `send` failed. */
    method SendPacket(message: string) returns (ok: bool)
      requires Free(message, '\0') && |message| < 0x8000_0000
      modifies this`outgoing, this`sendFails
      ensures ok ==> outgoing == old(outgoing) + Encode(message)
      ensures !ok ==> true in old(sendFails) && StoppedInside(old(outgoing), outgoing, Encode(message))
    {
      hide Header, Encode, ToInt32;
      var totalSent := 0;
      while totalSent < |message|
        invariant 0 <= totalSent <= |message|
        invariant old(outgoing) <= outgoing
        invariant outgoing + Encode(message[totalSent..]) == old(outgoing) + Encode(message)
        invariant forall b :: b in sendFails ==> b in old(sendFails)
      {
        CountersFitAt(|message|, totalSent);
        var remaining := ToInt32(|message| - totalSent);
        var sendSize := Min(CHUNK, remaining);
        EncodeStep(message, totalSent);
        ghost var tail := Encode(message[totalSent + sendSize..]);
        var status := Send(Header(sendSize));
        if status <= 0 {
          return false;
        }
        assert outgoing + (message[totalSent..totalSent + sendSize] + tail) == old(outgoing) + Encode(message);
        status := Send(message[totalSent..totalSent + sendSize]);
        if status <= 0 {
          return false;
        }
        totalSent := totalSent + sendSize;
      }
      assert message[totalSent..] == "";
      TrailerEndsPacket();
      var status := Send("000\r\n");
      return status > 0;
    }

    /** The inner loop of `ReceivePacket`: `recv` until `chunkSize` bytes are there. */
    method Fill(chunkSize: nat, ghost all: seq<int>) returns (ok: bool, buffer: string)
      requires 0 < chunkSize <= CHUNK && chunkSize <= |incoming| && Free(incoming[..chunkSize], '\0')
      requires ReadSoFar(all, readSizes)
      modifies this`incoming, this`readSizes
      ensures ok ==> buffer == old(incoming)[..chunkSize] && incoming == old(incoming)[chunkSize..]
      ensures if ok then ReadSoFar(all, readSizes) else ReadFailed(all, readSizes)
    {
      hide *;
      var bytesRead := 0;
      buffer := "";
      while chunkSize > bytesRead
        invariant 0 <= bytesRead <= chunkSize
        invariant buffer == old(incoming)[..bytesRead] && incoming == old(incoming)[bytesRead..]
        invariant ReadSoFar(all, readSizes)
        decreases chunkSize - bytesRead, |readSizes|
      {
        if readSizes != [] {
          ReadNext(all, readSizes);
        }
        var newBytesRead, newBuffer := Recv(chunkSize - bytesRead);
        if newBytesRead < 0 {
          return false, "";
        } else if newBytesRead == 0 {
          continue;
        }
        Consumed(old(incoming), bytesRead, newBuffer, incoming, chunkSize);
        bytesRead := bytesRead + newBytesRead;
        buffer := Append(buffer, newBuffer);
      }
      ok := true;
    }

    /** Whatever the read sizes, the packet at the front of the stream comes out and the
        stream stops right behind it; the call fails only on a failing read. */
    method ReceivePacket() returns (ok: bool, message: string)
      requires Decode(incoming).Packet?
      modifies this`incoming, this`readSizes
      ensures ok ==> Decode(old(incoming)) == Packet(message, incoming)
      ensures ok ==> ReadSoFar(old(readSizes), readSizes)
      ensures !ok ==> message == "" && ReadFailed(old(readSizes), readSizes)
    {
      hide *;
      Constants();
      ReadNone(readSizes);
      Begin(incoming);
      var receivedData := "";
      var readingChunkHeader := true;
      var chunkSize := HEADER;
      while true
        invariant Free(receivedData, '\0') && 0 < chunkSize <= CHUNK
        invariant if readingChunkHeader
                  then chunkSize == HEADER && AtHeader(incoming, receivedData, Decode(old(incoming)))
                  else AtBody(incoming, chunkSize, receivedData, Decode(old(incoming)))
        invariant ReadSoFar(old(readSizes), readSizes)
        decreases |incoming|
      {
        ghost var start := incoming;
        if readingChunkHeader {
          HeaderPresent(start, receivedData, Decode(old(incoming)));
        } else {
          BodyPresent(start, chunkSize, receivedData, Decode(old(incoming)));
        }
        var filled, buffer := Fill(chunkSize, old(readSizes));
        if !filled {
          return false, "";
        }
        if readingChunkHeader {
          chunkSize := Stoi(buffer[..|buffer| - 2], 16);
          assert buffer[..|buffer| - 2] == start[..HEADER - 2];
          if chunkSize == 0 {
            return true, receivedData;
          }
          readingChunkHeader := false;
          HeaderToBody(start, receivedData, Decode(old(incoming)));
        } else {
          assert buffer[..chunkSize] == start[..chunkSize];
          receivedData := Append(receivedData, buffer[..chunkSize]);
          chunkSize := HEADER;
          readingChunkHeader := true;
        }
      }
    }

    /** Messages sent back to back, received one after the other under one read schedule: they
        come out in order and the stream stops right behind the last one; when a read fails,
        those received so far are the first ones. */
    method ReceiveAll(count: nat, ghost ms: seq<string>, ghost rest: string) returns (ok: bool, messages: seq<string>)
      requires count == |ms| && forall m :: m in ms ==> Free(m, '\0')
      requires incoming == EncodeAll(ms) + rest
      modifies this`incoming, this`readSizes
      ensures ok ==> messages == ms && incoming == rest && ReadSoFar(old(readSizes), readSizes)
      ensures !ok ==> messages < ms && ReadFailed(old(readSizes), readSizes)
    {
      hide *;
      ReadNone(readSizes);
      AllOrNone(ms, rest);
      messages := [];
      while |messages| < count
        invariant |messages| <= count && messages == ms[..|messages|]
        invariant incoming == EncodeAll(ms[|messages|..]) + rest
        invariant ReadSoFar(old(readSizes), readSizes)
      {
        NextPacket(ms, |messages|, rest);
        ghost var schedule := readSizes;
        var received, message := ReceivePacket();
        ReadOn(old(readSizes), schedule, readSizes);
        if !received {
          return false, messages;
        }
        messages := messages + [message];
      }
      ok := true;
    }
  }
}

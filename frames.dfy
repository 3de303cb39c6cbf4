/**
 * Framing of the hub's three transactions and the acceptance rule its
 * receivers apply to the bytes that come back.
 *
 * Request:  [0x01][fc][category][index][page][count][payload...][crcLo][crcHi]
 * Response: [0x01][fc][byte_count][payload...][crcLo][crcHi]
 */
module Frames {

  import opened Base
  import opened Wire
  import opened ModbusCrc

  const DEVICE_ADDR: bv8 := 0x01
  const FC_READ: bv8 := 0x43
  const FC_WRITE: bv8 := 0x44
  const FC_WRITE_MASKED: bv8 := 0x45

  /** A frame body followed by its CRC, low byte first. */
  function Seal(body: seq<bv8>): (f: seq<bv8>)
    ensures |f| == |body| + 2 && f[..|body|] == body
  {
    body + [Lo(Crc(body)), Hi(Crc(body))]
  }

  /** A sealed frame passes the receivers' CRC test. */
  lemma SealPassesCrc(body: seq<bv8>)
    ensures Crc(Seal(body)) == 0
  {
    SealedResidue(body);
  }

  /** Read `count` registers from `index` on `page` of `category` (function 0x43). Index precedes page. */
  function ReadRequest(category: bv8, page: bv8, index: bv8, count: bv8): (f: seq<bv8>)
    ensures |f| == 8
    ensures f[0] == DEVICE_ADDR && f[1] == FC_READ
    ensures f[2] == category && f[3] == index && f[4] == page && f[5] == count
  {
    Seal([DEVICE_ADDR, FC_READ, category, index, page, count])
  }

  /** Write one register (function 0x44); the value is big-endian in bytes 6 and 7. */
  function WriteRequest(category: bv8, page: bv8, index: bv8, value: bv16): (f: seq<bv8>)
    ensures |f| == 10
    ensures f[0] == DEVICE_ADDR && f[1] == FC_WRITE
    ensures f[2] == category && f[3] == index && f[4] == page && f[5] == 1
    ensures Word(f[6], f[7]) == value
  {
    Seal([DEVICE_ADDR, FC_WRITE, category, index, page, 1, Hi(value), Lo(value)])
  }

  /** Masked write of one register (function 0x45): the AND mask, then the OR mask, each big-endian. */
  function MaskedWriteRequest(category: bv8, page: bv8, index: bv8, andMask: bv16, orMask: bv16): (f: seq<bv8>)
    ensures |f| == 12
    ensures f[0] == DEVICE_ADDR && f[1] == FC_WRITE_MASKED
    ensures f[2] == category && f[3] == index && f[4] == page && f[5] == 1
    ensures Word(f[6], f[7]) == andMask && Word(f[8], f[9]) == orMask
  {
    Seal([DEVICE_ADDR, FC_WRITE_MASKED, category, index, page, 1,
          Hi(andMask), Lo(andMask), Hi(orMask), Lo(orMask)])
  }

  /** The three transactions the hub issues, by their fields. */
  datatype Request =
    | Read(category: bv8, page: bv8, index: bv8, count: bv8)
    | Write(category: bv8, page: bv8, index: bv8, value: bv16)
    | MaskedWrite(category: bv8, page: bv8, index: bv8, andMask: bv16, orMask: bv16)

  /** The frame that carries request `r`. */
  function Encode(r: Request): seq<bv8> {
    match r
    case Read(category, page, index, count) => ReadRequest(category, page, index, count)
    case Write(category, page, index, value) => WriteRequest(category, page, index, value)
    case MaskedWrite(category, page, index, andMask, orMask) => MaskedWriteRequest(category, page, index, andMask, orMask)
  }

  /** Every request the hub builds carries the CRC of its body: the device's CRC test passes on it. */
  lemma RequestsPassCrc(category: bv8, page: bv8, index: bv8, count: bv8, value: bv16, andMask: bv16, orMask: bv16)
    ensures Crc(ReadRequest(category, page, index, count)) == 0
    ensures Crc(WriteRequest(category, page, index, value)) == 0
    ensures Crc(MaskedWriteRequest(category, page, index, andMask, orMask)) == 0
  {
    SealPassesCrc([DEVICE_ADDR, FC_READ, category, index, page, count]);
    SealPassesCrc([DEVICE_ADDR, FC_WRITE, category, index, page, 1, Hi(value), Lo(value)]);
    SealPassesCrc([DEVICE_ADDR, FC_WRITE_MASKED, category, index, page, 1, Hi(andMask), Lo(andMask), Hi(orMask), Lo(orMask)]);
  }

  /** The `uint8_t` sum `byte_count + 5`: the frame length a receiver waits for. */
  function ExpectedLength(count: bv8): (n: nat)
    ensures n == ((count as int) + 5) % 256
    ensures n >= 5 ==> n == (count as int) + 5
  {
    var c := count as int;
    if c <= 250 then c + 5 else c - 251
  }

  /**
   * The receiver's stopping test once `n` bytes have arrived: at least five
   * bytes, the device address, the expected function code, and exactly
   * `byte_count + 5` bytes, that sum taken as a `uint8_t`.
   */
  predicate Completes(rx: seq<bv8>, n: nat, fc: bv8)
  {
    5 <= n <= |rx| && rx[0] == DEVICE_ADDR && rx[1] == fc && n == ExpectedLength(rx[2])
  }

  /** The length of the frame the receiver accepts from the arriving bytes `rx`, if any. */
  function FrameEnd(rx: seq<bv8>, fc: bv8): (r: Option<nat>)
    ensures forall n: nat :: Completes(rx, n, fc) <==> r == Some(n)
    ensures r.Some? ==> 5 <= |rx| && r.value == (rx[2] as int) + 5
  {
    if |rx| >= 5 && rx[0] == DEVICE_ADDR && rx[1] == fc && 5 <= ExpectedLength(rx[2]) <= |rx|
    then Some(ExpectedLength(rx[2]))
    else None
  }

  /**
   * The receive loop: append each arriving byte and stop at the first length
   * that passes the stopping test. When none does, the receiver times out.
   */
  method Receive(rx: seq<bv8>, fc: bv8) returns (frame: Option<seq<bv8>>)
    ensures frame.Some? <==> FrameEnd(rx, fc).Some?
    ensures frame.Some? ==> frame.value == rx[..FrameEnd(rx, fc).value]
  {
    var buf: seq<bv8> := [];
    var k := 0;
    while k < |rx|
      invariant 0 <= k <= |rx|
      invariant buf == rx[..k]
      invariant forall n: nat :: n <= k ==> !Completes(rx, n, fc)
    {
      buf := buf + [rx[k]];
      k := k + 1;
      if |buf| >= 5 {
        var expected := ExpectedLength(buf[2]);
        if buf[0] == DEVICE_ADDR && buf[1] == fc && |buf| == expected {
          assert Completes(rx, k, fc);
          return Some(buf);
        }
      }
      assert !Completes(rx, k, fc);
    }
    return None;
  }

  /**
   * The payload decoding loop of a read: one big-endian word per complete
   * pair of the `bytes` payload bytes that follow the three header bytes.
   */
  method UnpackWords(buf: seq<bv8>, bytes: nat) returns (out: seq<bv16>)
    requires 3 + bytes <= |buf|
    ensures out == WordsOf(buf[3..3 + bytes])
  {
    ghost var payload := buf[3..3 + bytes];
    out := [];
    var i := 0;
    while i + 1 < bytes
      invariant 0 <= i <= bytes && i % 2 == 0
      invariant out == WordsOf(payload[..i])
    {
      var w := ((buf[3 + i] as bv16) << 8) | (buf[3 + i + 1] as bv16);
      WordsOfExtend(payload, i);
      out := out + [w];
      i := i + 2;
    }
    if i < bytes {
      assert i == bytes - 1;
      WordsOfDropsOddByte(payload);
    }
    assert payload[..bytes] == payload;
  }

  /** What a read transaction yields from the bytes that arrive. */
  datatype ReadOutcome = Timeout | BadCrc | Words(words: seq<bv16>)

  /**
   * A read response is accepted when a frame completes and its CRC residue
   * is zero; its words are then the `byte_count / 2` big-endian words that
   * follow the header.
   */
  function ParseReadResponse(rx: seq<bv8>): (r: ReadOutcome)
    ensures r.Words? ==> 5 <= |rx| && |r.words| == (rx[2] as int) / 2
  {
    match FrameEnd(rx, FC_READ)
    case None => Timeout
    case Some(n) =>
      if Crc(rx[..n]) != 0 then BadCrc else Words(WordsOf(rx[3..3 + rx[2] as int]))
  }

  /** A write acknowledgement is accepted when a frame for `fc` completes with a zero CRC residue. */
  predicate AckAccepted(rx: seq<bv8>, fc: bv8)
  {
    match FrameEnd(rx, fc)
    case None => false
    case Some(n) => Crc(rx[..n]) == 0
  }

  /** The reply a device gives to a read of the registers `ws`; `count` is its byte-count field. */
  function ReadReply(ws: seq<bv16>, count: bv8): (f: seq<bv8>)
    requires count as int == 2 * |ws| <= 250
    ensures |f| == 2 * |ws| + 5
  {
    Seal([DEVICE_ADDR, FC_READ, count] + BytesOf(ws))
  }

  /** An acknowledgement for function `fc` carrying `payload`, whose length is the byte-count field `count`. */
  function Ack(fc: bv8, count: bv8, payload: seq<bv8>): (f: seq<bv8>)
    requires count as int == |payload| <= 250
    ensures |f| == |payload| + 5
  {
    Seal([DEVICE_ADDR, fc, count] + payload)
  }

  /** A frame whose length byte matches its length is found whole at the head of the arriving bytes. */
  lemma FrameAtHead(f: seq<bv8>, trailing: seq<bv8>, fc: bv8)
    requires 5 <= |f| < 256 && f[0] == DEVICE_ADDR && f[1] == fc && (f[2] as int) + 5 == |f|
    ensures FrameEnd(f + trailing, fc) == Some(|f|)
    ensures (f + trailing)[..|f|] == f
  {
    assert Completes(f + trailing, |f|, fc);
  }

  /**
   * A sealed frame whose header carries the device address, function `fc`
   * and its own byte count is found whole at the head of the arriving bytes,
   * and passes the CRC test.
   */
  lemma SealedAtHead(body: seq<bv8>, trailing: seq<bv8>, fc: bv8)
    requires 3 <= |body| < 254 && body[0] == DEVICE_ADDR && body[1] == fc && (body[2] as int) + 3 == |body|
    ensures FrameEnd(Seal(body) + trailing, fc) == Some(|body| + 2)
    ensures (Seal(body) + trailing)[..|body| + 2] == Seal(body)
    ensures Crc(Seal(body)) == 0
  {
    var f := Seal(body);
    assert f[0] == body[0] && f[1] == body[1] && f[2] == body[2] by {
      assert f[..|body|] == body;
    }
    FrameAtHead(f, trailing, fc);
    SealPassesCrc(body);
  }

  /** A sealed read response at the head of the arriving bytes is accepted with the words of its payload. */
  lemma ResponseAtHead(body: seq<bv8>, trailing: seq<bv8>)
    requires 3 <= |body| < 254 && body[0] == DEVICE_ADDR && body[1] == FC_READ && (body[2] as int) + 3 == |body|
    ensures ParseReadResponse(Seal(body) + trailing) == Words(WordsOf(body[3..]))
  {
    var f := Seal(body);
    var rx := f + trailing;
    SealedAtHead(body, trailing, FC_READ);
    assert rx[2] == body[2] && rx[3..|body|] == body[3..] by {
      assert rx[..|f|] == f;
      assert f[..|body|] == body;
    }
  }

  /** A well-formed reply is accepted and yields exactly the registers it carries, whatever follows it. */
  lemma ReadReplyAccepted(ws: seq<bv16>, count: bv8, trailing: seq<bv8>)
    requires count as int == 2 * |ws| <= 250
    ensures ParseReadResponse(ReadReply(ws, count) + trailing) == Words(ws)
  {
    var payload := BytesOf(ws);
    var body := [DEVICE_ADDR, FC_READ, count] + payload;
    assert ReadReply(ws, count) == Seal(body);
    ResponseAtHead(body, trailing);
    assert body[3..] == payload;
    WordsOfBytesOf(ws);
  }

  /** A well-formed acknowledgement is accepted, whatever follows it. */
  lemma AckIsAccepted(fc: bv8, count: bv8, payload: seq<bv8>, trailing: seq<bv8>)
    requires count as int == |payload| <= 250
    ensures AckAccepted(Ack(fc, count, payload) + trailing, fc)
  {
    SealedAtHead([DEVICE_ADDR, fc, count] + payload, trailing, fc);
  }
}

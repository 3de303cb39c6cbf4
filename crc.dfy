/**
 * The Modbus CRC-16 used to seal every frame on the bus: reflected polynomial
 * 0xA001, initial value 0xFFFF, no final XOR (section 6.2.2 of the Modbus over
 * Serial Line Specification and Implementation Guide V1.02). The CRC is sent
 * low byte first.
 */
module ModbusCrc {

  import opened Wire

  const Polynomial: bv16 := 0xA001
  const Initial: bv16 := 0xFFFF

  /** One bit step of the shift register. */
  function Shift(t: bv16): bv16 {
    if t & 1 == 1 then (t >> 1) ^ Polynomial else t >> 1
  }

  /** n bit steps. */
  function ShiftN(t: bv16, n: nat): bv16
    decreases n
  {
    if n == 0 then t else ShiftN(Shift(t), n - 1)
  }

  /** Feeding one byte: XOR it into the low byte, then eight bit steps. */
  function Feed(t: bv16, b: bv8): bv16 {
    ShiftN(t ^ (b as bv16), 8)
  }

  /** The CRC register after feeding `s` from the initial value, byte by byte. */
  function Crc(s: seq<bv8>): bv16
    decreases |s|
  {
    if s == [] then Initial else Feed(Crc(s[..|s| - 1]), s[|s| - 1])
  }

  /**
   * The residue property of the register: whatever its state, feeding its own
   * low byte and then its own high byte clears it.
   */
  lemma FeedOwnBytes(t: bv16)
    ensures Feed(Feed(t, Lo(t)), Hi(t)) == 0
  {
    var x := t ^ (Lo(t) as bv16);
    assert x == t & 0xFF00;
    ShiftClearedLowByte(x);
    assert (x >> 8) ^ (Hi(t) as bv16) == 0;
    ShiftClearedLowByte(0);
  }

  /** With the low byte clear no polynomial is XORed in: eight steps are a plain shift. */
  lemma ShiftClearedLowByte(x: bv16)
    requires x & 0xFF == 0
    ensures ShiftN(x, 8) == x >> 8
  {
    assert ShiftN(x, 8) == ShiftN(x >> 1, 7) by { assert Shift(x) == x >> 1; }
    assert ShiftN(x >> 1, 7) == ShiftN(x >> 2, 6) by { assert Shift(x >> 1) == x >> 2; }
    assert ShiftN(x >> 2, 6) == ShiftN(x >> 3, 5) by { assert Shift(x >> 2) == x >> 3; }
    assert ShiftN(x >> 3, 5) == ShiftN(x >> 4, 4) by { assert Shift(x >> 3) == x >> 4; }
    assert ShiftN(x >> 4, 4) == ShiftN(x >> 5, 3) by { assert Shift(x >> 4) == x >> 5; }
    assert ShiftN(x >> 5, 3) == ShiftN(x >> 6, 2) by { assert Shift(x >> 5) == x >> 6; }
    assert ShiftN(x >> 6, 2) == ShiftN(x >> 7, 1) by { assert Shift(x >> 6) == x >> 7; }
    assert ShiftN(x >> 7, 1) == x >> 8 by { assert Shift(x >> 7) == x >> 8; }
  }

  /**
   * A frame that ends with the CRC of its body, low byte first, has CRC 0:
   * the receivers' "CRC over the whole frame is zero" test accepts the
   * frames sealed this way.
   */
  lemma {:induction false} SealedResidue(body: seq<bv8>)
    ensures Crc(body + [Lo(Crc(body)), Hi(Crc(body))]) == 0
  {
    var c := Crc(body);
    var once := body + [Lo(c)];
    var twice := once + [Hi(c)];
    assert once[..|once| - 1] == body;
    assert twice[..|twice| - 1] == once;
    assert body + [Lo(c), Hi(c)] == twice;
    FeedOwnBytes(c);
  }

  /**
   * A check value independent of the loop below: the read request
   * `01 03 00 00 00 01` carries the CRC 0x0A84, sent as `84 0A`.
   */
  lemma KnownAnswer(s: seq<bv8>)
    requires s == [0x01, 0x03, 0x00, 0x00, 0x00, 0x01]
    ensures Crc(s) == 0x0A84
  {
    KnownFeeds();
    assert s[..0] == [];
    CrcStep(s, 0, 0xFFFF, 0x01, 0x807E);
    CrcStep(s, 1, 0x807E, 0x03, 0x2140);
    CrcStep(s, 2, 0x2140, 0x00, 0xF020);
    CrcStep(s, 3, 0xF020, 0x00, 0xD8F1);
    CrcStep(s, 4, 0xD8F1, 0x00, 0x8419);
    CrcStep(s, 5, 0x8419, 0x01, 0x0A84);
    assert s[..6] == s;
  }

  /** Extending a prefix by one byte feeds that byte into the register. */
  lemma CrcStep(s: seq<bv8>, k: nat, before: bv16, b: bv8, after: bv16)
    requires k < |s| && s[k] == b && Crc(s[..k]) == before && Feed(before, b) == after
    ensures Crc(s[..k + 1]) == after
  {
    assert s[..k + 1][..k] == s[..k];
  }

  /** The register states while feeding the check frame of `KnownAnswer`. */
  lemma KnownFeeds()
    ensures Feed(0xFFFF, 0x01) == 0x807E && Feed(0x807E, 0x03) == 0x2140
    ensures Feed(0x2140, 0x00) == 0xF020 && Feed(0xF020, 0x00) == 0xD8F1
    ensures Feed(0xD8F1, 0x00) == 0x8419 && Feed(0x8419, 0x01) == 0x0A84
  {
  }

  /**
   * The byte loop of the transmitter and receivers: XOR each byte into the
   * register, then eight shift steps, XORing in the polynomial whenever the
   * bit shifted out was 1.
   */
  method Crc16(frame: seq<bv8>) returns (crc: bv16)
    ensures crc == Crc(frame)
  {
    var temp: bv16 := 0xFFFF;
    var i := 0;
    while i < |frame|
      invariant 0 <= i <= |frame|
      invariant temp == Crc(frame[..i])
    {
      ghost var before := temp;
      temp := temp ^ (frame[i] as bv16);
      var j := 0;
      while j < 8
        invariant 0 <= j <= 8
        invariant ShiftN(temp, 8 - j) == Feed(before, frame[i])
      {
        var flag := temp & 0x0001 == 1;
        temp := temp >> 1;
        if flag {
          temp := temp ^ 0xA001;
        }
        j := j + 1;
      }
      assert frame[..i + 1][..i] == frame[..i];
      i := i + 1;
    }
    assert frame[..i] == frame;
    crc := temp;
  }
}

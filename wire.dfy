/**
 * Bytes and 16-bit register words on the wire. Register values travel
 * big-endian (high byte first); the CRC travels low byte first.
 */
module Wire {

  /** Low byte of a word. */
  function Lo(w: bv16): bv8 { (w & 0xFF) as bv8 }

  /** High byte of a word. */
  function Hi(w: bv16): bv8 { (w >> 8) as bv8 }

  /** The word whose high byte is `hi` and low byte is `lo`. */
  function Word(hi: bv8, lo: bv8): (w: bv16)
    ensures Hi(w) == hi && Lo(w) == lo
  {
    ((hi as bv16) << 8) | (lo as bv16)
  }

  lemma WordOfBytes(w: bv16)
    ensures Word(Hi(w), Lo(w)) == w
  {
  }

  /** The big-endian words of a byte string, one per complete pair (a trailing odd byte is dropped). */
  function WordsOf(p: seq<bv8>): (ws: seq<bv16>)
    ensures |ws| == |p| / 2
    decreases |p|
  {
    if |p| < 2 then [] else [Word(p[0], p[1])] + WordsOf(p[2..])
  }

  /** The big-endian byte string of a list of words. */
  function BytesOf(ws: seq<bv16>): (p: seq<bv8>)
    ensures |p| == 2 * |ws|
    decreases |ws|
  {
    if ws == [] then [] else [Hi(ws[0]), Lo(ws[0])] + BytesOf(ws[1..])
  }

  /** Decoding the bytes of a word list gives the word list back. */
  lemma {:induction false} WordsOfBytesOf(ws: seq<bv16>)
    ensures WordsOf(BytesOf(ws)) == ws
    decreases |ws|
  {
    if ws != [] {
      var p := BytesOf(ws);
      assert p[2..] == BytesOf(ws[1..]);
      WordsOfBytesOf(ws[1..]);
      WordOfBytes(ws[0]);
    }
  }

  /** One more complete pair adds one word at the end: the step of a left-to-right decoding loop. */
  lemma {:induction false} WordsOfExtend(p: seq<bv8>, i: nat)
    requires i + 2 <= |p| && i % 2 == 0
    ensures WordsOf(p[..i + 2]) == WordsOf(p[..i]) + [Word(p[i], p[i + 1])]
    decreases i
  {
    if i == 0 {
      assert p[..2][2..] == [];
    } else {
      WordsOfExtend(p[2..], i - 2);
      assert p[..i + 2][2..] == p[2..][..i];
      assert p[..i][2..] == p[2..][..i - 2];
    }
  }

  /** A trailing odd byte contributes no word. */
  lemma {:induction false} WordsOfDropsOddByte(p: seq<bv8>)
    requires |p| % 2 == 1
    ensures WordsOf(p) == WordsOf(p[..|p| - 1])
    decreases |p|
  {
    if |p| >= 3 {
      WordsOfDropsOddByte(p[2..]);
      assert p[..|p| - 1][2..] == p[2..][..|p| - 3];
    }
  }
}

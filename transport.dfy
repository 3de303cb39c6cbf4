/**
 * The hub's register transactions over the half-duplex serial line. The
 * line is an oracle: `Bus.answers` holds, for each successive transmission,
 * the bytes that will arrive in answer (an empty answer is a line that stays
 * silent until the receive timeout), `Bus.taken` counts the transmissions so
 * far, and `Bus.sent` records every frame written, with `Bus.log` naming the
 * request each frame encodes. Transmit-enable toggling,
 * flushing and the receive clock are timing, not protocol, and are not
 * modelled.
 */
module Transport {

  import opened Base
  import opened Wire
  import opened ModbusCrc
  import opened Frames

  /** The answer to transmission number `i`; silence once the answers run out. */
  function ReplyAt(answers: seq<seq<bv8>>, i: nat): seq<bv8> {
    if i < |answers| then answers[i] else []
  }

  /** The serial line with the device on the other end. */
  class Bus {
    const answers: seq<seq<bv8>>
    var taken: nat
    var sent: seq<seq<bv8>>
    ghost var log: seq<Request>

    /** Every frame on the line is the encoding of the request logged beside it. */
    ghost predicate Consistent()
      reads this`sent, this`log
    {
      |sent| == |log| && forall i {:trigger sent[i]} :: 0 <= i < |sent| ==> sent[i] == Encode(log[i])
    }

    constructor (answers: seq<seq<bv8>>)
      ensures this.answers == answers && taken == 0 && sent == [] && log == []
      ensures Consistent()
    {
      this.answers := answers;
      taken := 0;
      sent := [];
      log := [];
    }

    /** The answer to the k-th transmission from now. */
    function Reply(k: nat): seq<bv8>
      reads this`taken
    {
      ReplyAt(answers, taken + k)
    }

    /** Write `frame` to the line and collect what arrives before the timeout. */
    method Transact(frame: seq<bv8>, ghost req: Request) returns (rx: seq<bv8>)
      requires frame == Encode(req)
      modifies this`taken, this`sent, this`log
      ensures sent == old(sent) + [frame] && log == old(log) + [req]
      ensures old(Consistent()) ==> Consistent()
      ensures rx == old(Reply(0)) && taken == old(taken) + 1
    {
      sent := sent + [frame];
      log := log + [req];
      rx := ReplyAt(answers, taken);
      taken := taken + 1;
    }
  }

  /** The words a read yields from the answer `rx`, or None when the read is rejected. */
  function ReadWords(rx: seq<bv8>): Option<seq<bv16>> {
    match ParseReadResponse(rx)
    case Words(ws) => Some(ws)
    case _ => None
  }

  /** The first word of an accepted read, as the hub's `ok && regs.size() >= 1` guards require. */
  function FirstWord(rx: seq<bv8>): Option<bv16> {
    match ReadWords(rx)
    case Some(ws) => if |ws| >= 1 then Some(ws[0]) else None
    case None => None
  }

  /** Append the CRC of `body`, low byte first, as every transmit path does. */
  method SealFrame(body: seq<bv8>) returns (msg: seq<bv8>)
    ensures msg == Seal(body)
  {
    var crc := Crc16(body);
    msg := body + [Lo(crc), Hi(crc)];
  }

  /** Receive a read response from the arriving bytes `rx` and decode its words. */
  method AcceptRead(rx: seq<bv8>) returns (words: Option<seq<bv16>>)
    ensures words == ReadWords(rx)
  {
    var frame := Receive(rx, FC_READ);
    words := None;
    if frame.Some? {
      var buf := frame.value;
      var rcrc := Crc16(buf);
      if rcrc == 0 {
        var count := buf[2] as nat;
        assert buf[3..3 + count] == rx[3..3 + rx[2] as int] by {
          assert buf == rx[..FrameEnd(rx, FC_READ).value];
        }
        var out := UnpackWords(buf, count);
        words := Some(out);
      }
    }
  }

  /** Receive an acknowledgement for function `fc` from the arriving bytes `rx`. */
  method AcceptAck(rx: seq<bv8>, fc: bv8) returns (ok: bool)
    ensures ok == AckAccepted(rx, fc)
  {
    var frame := Receive(rx, fc);
    ok := false;
    if frame.Some? {
      var rcrc := Crc16(frame.value);
      ok := rcrc == 0;
    }
  }

  /**
   * Read `count` registers. On acceptance `out` is replaced by the decoded
   * words; on timeout or a bad CRC it is left as it was.
   */
  method ReadRegisters(bus: Bus, category: bv8, page: bv8, index: bv8, count: bv8, out: seq<bv16>)
    returns (ok: bool, out': seq<bv16>)
    requires bus.Consistent()
    modifies bus`taken, bus`sent, bus`log
    ensures bus.Consistent() && bus.log == old(bus.log) + [Read(category, page, index, count)]
    ensures bus.taken == old(bus.taken) + 1
    ensures var answer := ReadWords(old(bus.Reply(0)));
      ok == answer.Some? && out' == (if ok then answer.value else out)
  {
    var msg := SealFrame([DEVICE_ADDR, FC_READ, category, index, page, count]);
    var rx := bus.Transact(msg, Read(category, page, index, count));
    var words := AcceptRead(rx);
    ok := words.Some?;
    out' := if ok then words.value else out;
  }

  /** Write one register; true when an acknowledgement with a zero CRC residue comes back. */
  method WriteRegister(bus: Bus, category: bv8, page: bv8, index: bv8, value: bv16) returns (ok: bool)
    requires bus.Consistent()
    modifies bus`taken, bus`sent, bus`log
    ensures bus.Consistent() && bus.log == old(bus.log) + [Write(category, page, index, value)]
    ensures bus.taken == old(bus.taken) + 1
    ensures ok == AckAccepted(old(bus.Reply(0)), FC_WRITE)
  {
    var msg := SealFrame([DEVICE_ADDR, FC_WRITE, category, index, page, 1, Hi(value), Lo(value)]);
    var rx := bus.Transact(msg, Write(category, page, index, value));
    ok := AcceptAck(rx, FC_WRITE);
  }

  /** Masked write of one register, `(reg & andMask) | orMask` applied by the device. */
  method WriteMaskedRegister(bus: Bus, category: bv8, page: bv8, index: bv8, andMask: bv16, orMask: bv16)
    returns (ok: bool)
    requires bus.Consistent()
    modifies bus`taken, bus`sent, bus`log
    ensures bus.Consistent() && bus.log == old(bus.log) + [MaskedWrite(category, page, index, andMask, orMask)]
    ensures bus.taken == old(bus.taken) + 1
    ensures ok == AckAccepted(old(bus.Reply(0)), FC_WRITE_MASKED)
  {
    var msg := SealFrame([DEVICE_ADDR, FC_WRITE_MASKED, category, index, page, 1,
                          Hi(andMask), Lo(andMask), Hi(orMask), Lo(orMask)]);
    var rx := bus.Transact(msg, MaskedWrite(category, page, index, andMask, orMask));
    ok := AcceptAck(rx, FC_WRITE_MASKED);
  }
}

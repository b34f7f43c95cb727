/** The DisplayPort side of the i915 display driver: the AUX channel
    messages (header encoding, the retry policy, chunked reads and writes),
    the adjustment of drive settings during link training, and the M/N
    ratio computation. The hardware's replies are a parameter: a Channel
    says what each successive attempt to send a request produced. */
module DpDisplay {
  import Arith
  import opened ZxStatus

  // Request types (the 4-bit command in the first header byte).
  const DP_REQUEST_I2C_WRITE: bv32 := 0
  const DP_REQUEST_I2C_READ: bv32 := 1
  const DP_REQUEST_NATIVE_WRITE: bv32 := 8
  const DP_REQUEST_NATIVE_READ: bv32 := 9

  // Reply statuses (the high nibble of the first reply byte).
  const DP_REPLY_AUX_ACK: bv8 := 0
  const DP_REPLY_AUX_NACK: bv8 := 1
  const DP_REPLY_AUX_DEFER: bv8 := 2
  const DP_REPLY_I2C_NACK: bv8 := 4
  const DP_REPLY_I2C_DEFER: bv8 := 8

  /** DpAuxMessage::kMaxTotalSize and kMaxBodySize. */
  const MAX_TOTAL_SIZE: nat := 20
  const MAX_BODY_SIZE: nat := 16
  /** Addresses are 20 bits wide. */
  const ADDRESS_LIMIT: bv32 := 0x10_0000

  /** The retry limits of SendDpAuxMsgWithRetry. */
  const MAX_DEFERS: nat := 16
  const MAX_TIMEOUTS: nat := 3

  // ---------------------------------------------------------------------
  // Message headers

  function Low8(x: bv32): bv8
  {
    (x & 0xff) as bv8
  }

  /** SetDpAuxHeader's checks: a body of 1 to 16 bytes and a 20-bit
      address. */
  predicate HeaderAccepts(addr: bv32, bodySize: nat)
  {
    bodySize <= MAX_BODY_SIZE && addr < ADDRESS_LIMIT && bodySize != 0
  }

  /** The four header bytes: command and address bits 19..16, address
      bits 15..8, address bits 7..0, body size minus one. */
  function Header(addr: bv32, dpCmd: bv32, bodySize: nat): (h: seq<bv8>)
    requires 0 < bodySize <= MAX_BODY_SIZE
    ensures |h| == 4
  {
    [Low8((dpCmd << 4) | ((addr >> 16) & 0xf)), Low8(addr >> 8), Low8(addr), (bodySize - 1) as bv8]
  }

  /** The fields a sink reads back from a header. */
  datatype HeaderFields = HeaderFields(command: bv8, addr: bv32, bodySize: nat)

  function ParseHeader(h: seq<bv8>): HeaderFields
    requires |h| >= 4
  {
    HeaderFields(
      h[0] >> 4,
      ((h[0] & 0xf) as bv32 << 16) | (h[1] as bv32 << 8) | h[2] as bv32,
      h[3] as nat + 1)
  }

  /** An accepted header carries the address and the body size exactly,
      and the low four bits of the command. */
  lemma HeaderRoundTrip(addr: bv32, dpCmd: bv32, bodySize: nat)
    requires HeaderAccepts(addr, bodySize)
    ensures ParseHeader(Header(addr, dpCmd, bodySize))
      == HeaderFields(Low8(dpCmd & 0xf), addr, bodySize)
  {
    var b0, b1, b2 := Low8((dpCmd << 4) | ((addr >> 16) & 0xf)), Low8(addr >> 8), Low8(addr);
    assert Header(addr, dpCmd, bodySize) == [b0, b1, b2, (bodySize - 1) as bv8];
    CommandNibble(dpCmd, addr);
    AddressBytes(dpCmd, addr);
  }

  lemma CommandNibble(dpCmd: bv32, addr: bv32)
    ensures Low8((dpCmd << 4) | ((addr >> 16) & 0xf)) >> 4 == Low8(dpCmd & 0xf)
  {
  }

  lemma AddressBytes(dpCmd: bv32, addr: bv32)
    requires addr < ADDRESS_LIMIT
    ensures ((Low8((dpCmd << 4) | ((addr >> 16) & 0xf)) & 0xf) as bv32 << 16)
      | (Low8(addr >> 8) as bv32 << 8) | Low8(addr) as bv32 == addr
  {
  }

  /** DpAuxMessage: a 20-byte buffer and the number of bytes in use. */
  class AuxMessage {
    const data: array<bv8>
    var size: nat

    predicate Valid()
      reads this
    {
      data.Length == MAX_TOTAL_SIZE && size <= MAX_TOTAL_SIZE
    }

    constructor ()
      ensures Valid() && fresh(data) && size == 0
    {
      data := new bv8[MAX_TOTAL_SIZE](_ => 0);
      size := 0;
    }

    /** SetDpAuxHeader: refuse an oversized or empty body or a wide
        address and change nothing; otherwise write the header and make
        the message header-only. */
    method SetDpAuxHeader(addr: bv32, dpCmd: bv32, bodySize: nat) returns (ok: bool)
      requires Valid()
      modifies this, data
      ensures Valid()
      ensures ok <==> HeaderAccepts(addr, bodySize)
      ensures ok ==> (size == 4 && data[..4] == Header(addr, dpCmd, bodySize)
        && data[4..] == old(data[4..]))
      ensures !ok ==> size == old(size) && data[..] == old(data[..])
    {
      if bodySize > MAX_BODY_SIZE {
        return false;
      }
      if addr >= ADDRESS_LIMIT {
        return false;
      }
      if bodySize == 0 {
        return false;
      }
      data[0] := Low8((dpCmd << 4) | ((addr >> 16) & 0xf));
      data[1] := Low8(addr >> 8);
      data[2] := Low8(addr);
      size := 4;
      data[3] := (bodySize - 1) as bv8;
      return true;
    }
  }

  // ---------------------------------------------------------------------
  // Sending with retries

  /** A reply SendDpAuxMsg accepts: 1 to 20 bytes. */
  type Reply = d: seq<bv8> | 1 <= |d| <= MAX_TOTAL_SIZE witness [0]

  /** What one SendDpAuxMsg call produced: a timeout, another failure
      (a receive error, a bad reply size, no reply at all), or a reply. */
  datatype Attempt = TimedOut | Failed | Replied(reply: Reply)

  /** The hardware: what the n-th attempt to send a request produces. */
  type Channel = (nat, seq<bv8>) -> Attempt

  function ReplyStatus(reply: Reply): bv8
  {
    reply[0] >> 4
  }

  predicate Acked(a: Attempt)
  {
    a.Replied? && ReplyStatus(a.reply) == DP_REPLY_AUX_ACK
  }

  predicate Deferred(a: Attempt)
  {
    a.Replied? && ReplyStatus(a.reply) == DP_REPLY_AUX_DEFER
  }

  /** The reply of an exchange (None if it failed) and the position of
      the next attempt on the channel. */
  datatype Exchange = Exchange(reply: Option<Reply>, next: nat)

  /** The retry policy, having seen `timeouts` timeouts and `defers`
      DEFER replies: retry on a timeout until the third, on a DEFER until
      the sixteenth; succeed on an ACK; fail on anything else. */
  function Retry(ch: Channel, request: seq<bv8>, pos: nat, timeouts: nat, defers: nat): (e: Exchange)
    requires timeouts < MAX_TIMEOUTS && defers < MAX_DEFERS
    ensures e.next > pos
    decreases (MAX_TIMEOUTS - timeouts) + (MAX_DEFERS - defers)
  {
    var a := ch(pos, request);
    if a.TimedOut? then
      if timeouts + 1 == MAX_TIMEOUTS then Exchange(None, pos + 1)
      else Retry(ch, request, pos + 1, timeouts + 1, defers)
    else if Acked(a) then Exchange(Some(a.reply), pos + 1)
    else if Deferred(a) then
      if defers + 1 == MAX_DEFERS then Exchange(None, pos + 1)
      else Retry(ch, request, pos + 1, timeouts, defers + 1)
    else Exchange(None, pos + 1)
  }

  /** The number of timeouts among attempts [from, to). */
  function Timeouts(ch: Channel, request: seq<bv8>, from: nat, to: nat): nat
    decreases to - from
  {
    if to <= from then 0
    else (if ch(from, request).TimedOut? then 1 else 0) + Timeouts(ch, request, from + 1, to)
  }

  /** The number of DEFER replies among attempts [from, to). */
  function Defers(ch: Channel, request: seq<bv8>, from: nat, to: nat): nat
    decreases to - from
  {
    if to <= from then 0
    else (if Deferred(ch(from, request)) then 1 else 0) + Defers(ch, request, from + 1, to)
  }

  /** What the retry loop does, stated without the loop: every attempt
      but the last was a timeout or a DEFER, with fewer than three
      timeouts and fewer than sixteen DEFERs among them; the exchange
      succeeds exactly when the last attempt was an ACK, with that reply;
      a last timeout is the third one and a last DEFER the sixteenth. */
  lemma {:induction false} RetryStops(ch: Channel, request: seq<bv8>, pos: nat, timeouts: nat, defers: nat)
    requires timeouts < MAX_TIMEOUTS && defers < MAX_DEFERS
    ensures var e := Retry(ch, request, pos, timeouts, defers);
      && pos < e.next <= pos + (MAX_TIMEOUTS - timeouts) + (MAX_DEFERS - defers) - 1
      && (forall j | pos <= j < e.next - 1 :: ch(j, request).TimedOut? || Deferred(ch(j, request)))
      && timeouts + Timeouts(ch, request, pos, e.next - 1) < MAX_TIMEOUTS
      && defers + Defers(ch, request, pos, e.next - 1) < MAX_DEFERS
      && (e.reply.Some? <==> Acked(ch(e.next - 1, request)))
      && (e.reply.Some? ==> e.reply.value == ch(e.next - 1, request).reply)
      && (ch(e.next - 1, request).TimedOut? ==> timeouts + Timeouts(ch, request, pos, e.next) == MAX_TIMEOUTS)
      && (Deferred(ch(e.next - 1, request)) ==> defers + Defers(ch, request, pos, e.next) == MAX_DEFERS)
    decreases (MAX_TIMEOUTS - timeouts) + (MAX_DEFERS - defers)
  {
    var a := ch(pos, request);
    var e := Retry(ch, request, pos, timeouts, defers);
    if a.TimedOut? && timeouts + 1 < MAX_TIMEOUTS {
      RetryStops(ch, request, pos + 1, timeouts + 1, defers);
      CountsSplit(ch, request, pos, e.next - 1);
      CountsSplit(ch, request, pos, e.next);
    } else if !a.TimedOut? && !Acked(a) && Deferred(a) && defers + 1 < MAX_DEFERS {
      RetryStops(ch, request, pos + 1, timeouts, defers + 1);
      CountsSplit(ch, request, pos, e.next - 1);
      CountsSplit(ch, request, pos, e.next);
    } else {
      assert e.next == pos + 1;
      CountsSplit(ch, request, pos, pos + 1);
    }
  }

  /** Peeling the first attempt off both counts. */
  lemma CountsSplit(ch: Channel, request: seq<bv8>, from: nat, to: nat)
    requires from < to
    ensures Timeouts(ch, request, from, to)
      == (if ch(from, request).TimedOut? then 1 else 0) + Timeouts(ch, request, from + 1, to)
    ensures Defers(ch, request, from, to)
      == (if Deferred(ch(from, request)) then 1 else 0) + Defers(ch, request, from + 1, to)
  {
  }

  /** SendDpAuxMsgWithRetry: send `request` until the policy of Retry
      stops, starting at attempt `pos`. */
  method SendDpAuxMsgWithRetry(ch: Channel, request: seq<bv8>, pos: nat) returns (reply: Option<Reply>, next: nat)
    ensures Exchange(reply, next) == Retry(ch, request, pos, 0, 0)
  {
    var defersSeen, timeoutsSeen := 0, 0;
    next := pos;
    while true
      invariant timeoutsSeen < MAX_TIMEOUTS && defersSeen < MAX_DEFERS
      invariant Retry(ch, request, next, timeoutsSeen, defersSeen) == Retry(ch, request, pos, 0, 0)
      decreases (MAX_TIMEOUTS - timeoutsSeen) + (MAX_DEFERS - defersSeen)
    {
      var a := ch(next, request);
      next := next + 1;
      if a.TimedOut? {
        timeoutsSeen := timeoutsSeen + 1;
        if timeoutsSeen == MAX_TIMEOUTS {
          return None, next;
        }
        continue;
      }
      if a.Failed? {
        return None, next;
      }
      var status := ReplyStatus(a.reply);
      if status == DP_REPLY_AUX_ACK {
        return Some(a.reply), next;
      } else if status == DP_REPLY_AUX_DEFER {
        defersSeen := defersSeen + 1;
        if defersSeen == MAX_DEFERS {
          return None, next;
        }
      } else {
        return None, next;
      }
    }
  }

  // ---------------------------------------------------------------------
  // Reads and writes

  /** The bytes a transfer produced (None if it failed) and the position
      of the next attempt on the channel. */
  datatype Transfer = Transfer(data: Option<seq<bv8>>, next: nat)

  /** DpAuxReadChunk: one header-only read request for `sizeIn` bytes;
      the reply's bytes after its status byte are the data, and a reply
      longer than asked for is a failure. */
  function ReadChunk(ch: Channel, pos: nat, dpCmd: bv32, addr: bv32, sizeIn: nat): (t: Transfer)
    ensures t.next >= pos
    ensures !HeaderAccepts(addr, sizeIn) ==> t == Transfer(None, pos)
    ensures t.data.Some? ==> |t.data.value| <= sizeIn
  {
    if !HeaderAccepts(addr, sizeIn) then Transfer(None, pos)
    else
      var e := Retry(ch, Header(addr, dpCmd, sizeIn), pos, 0, 0);
      if e.reply.None? then Transfer(None, e.next)
      else if |e.reply.value| - 1 > sizeIn then Transfer(None, e.next)
      else Transfer(Some(e.reply.value[1..]), e.next)
  }

  /** DpAuxRead: read `size` bytes in chunks of at most 16, every chunk
      at the same address; a chunk that fails or brings no byte fails
      the read. */
  function Read(ch: Channel, pos: nat, dpCmd: bv32, addr: bv32, size: nat): (t: Transfer)
    ensures t.next >= pos
    decreases size
  {
    if size == 0 then Transfer(Some([]), pos)
    else
      var chunk := if size < MAX_BODY_SIZE then size else MAX_BODY_SIZE;
      var c := ReadChunk(ch, pos, dpCmd, addr, chunk);
      if c.data.None? || |c.data.value| == 0 then Transfer(None, c.next)
      else Prepend(c.data.value, Read(ch, c.next, dpCmd, addr, size - |c.data.value|))
  }

  /** Bytes already read in front of the rest of a transfer. */
  function Prepend(bytes: seq<bv8>, t: Transfer): (r: Transfer)
    ensures r.next == t.next && r.data.Some? == t.data.Some?
    ensures bytes == [] ==> r == t
  {
    if t.data.None? then t
    else
      assert bytes == [] ==> bytes + t.data.value == t.data.value;
      Transfer(Some(bytes + t.data.value), t.next)
  }

  /** A successful read brings exactly the bytes asked for. */
  lemma {:induction false} ReadLength(ch: Channel, pos: nat, dpCmd: bv32, addr: bv32, size: nat)
    ensures var t := Read(ch, pos, dpCmd, addr, size);
      t.data.Some? ==> |t.data.value| == size
    decreases size
  {
    if size > 0 {
      var chunk := if size < MAX_BODY_SIZE then size else MAX_BODY_SIZE;
      var c := ReadChunk(ch, pos, dpCmd, addr, chunk);
      if c.data.Some? && |c.data.value| > 0 {
        ReadLength(ch, c.next, dpCmd, addr, size - |c.data.value|);
      }
    }
  }

  /** A non-empty read at an address wider than 20 bits fails before
      anything is sent. */
  lemma ReadBadAddress(ch: Channel, pos: nat, dpCmd: bv32, addr: bv32, size: nat)
    requires addr >= ADDRESS_LIMIT && size > 0
    ensures Read(ch, pos, dpCmd, addr, size) == Transfer(None, pos)
  {
  }

  /** DpAuxReadChunk, over an AuxMessage. */
  method DpAuxReadChunk(ch: Channel, pos: nat, dpCmd: bv32, addr: bv32, sizeIn: nat)
    returns (ok: bool, bytes: seq<bv8>, next: nat)
    ensures ReadChunk(ch, pos, dpCmd, addr, sizeIn) == Transfer(if ok then Some(bytes) else None, next)
  {
    var msg := new AuxMessage();
    ok := msg.SetDpAuxHeader(addr, dpCmd, sizeIn);
    if !ok {
      return false, [], pos;
    }
    assert msg.data[..msg.size] == Header(addr, dpCmd, sizeIn);
    var reply;
    reply, next := SendDpAuxMsgWithRetry(ch, msg.data[..msg.size], pos);
    if reply.None? {
      return false, [], next;
    }
    var bytesRead := |reply.value| - 1;
    if bytesRead > sizeIn {
      return false, [], next;
    }
    return true, reply.value[1..], next;
  }

  /** DpAuxRead: the chunk loop. */
  method DpAuxRead(ch: Channel, pos: nat, dpCmd: bv32, addr: bv32, size: nat)
    returns (ok: bool, buf: seq<bv8>, next: nat)
    ensures Read(ch, pos, dpCmd, addr, size) == Transfer(if ok then Some(buf) else None, next)
  {
    ghost var whole := Read(ch, pos, dpCmd, addr, size);
    buf, next := [], pos;
    var remaining: nat := size;
    while remaining > 0
      invariant whole == Prepend(buf, Read(ch, next, dpCmd, addr, remaining))
      decreases remaining
    {
      var chunkOk, bytes, after := ReadTurn(whole, buf, ch, next, dpCmd, addr, remaining);
      if !chunkOk || |bytes| == 0 {
        return false, buf, after;
      }
      buf, next := buf + bytes, after;
      remaining := remaining - |bytes|;
    }
    assert buf + [] == buf;
    return true, buf, next;
  }

  /** One chunk of DpAuxRead's loop, with what it means for the read. */
  method ReadTurn(ghost whole: Transfer, buf: seq<bv8>, ch: Channel, pos: nat, dpCmd: bv32, addr: bv32,
                  size: nat) returns (ok: bool, bytes: seq<bv8>, next: nat)
    requires size > 0
    requires whole == Prepend(buf, Read(ch, pos, dpCmd, addr, size))
    ensures !ok || |bytes| == 0 ==> whole == Transfer(None, next)
    ensures ok ==> |bytes| <= size
    ensures ok && |bytes| > 0 ==> whole == Prepend(buf + bytes, Read(ch, next, dpCmd, addr, size - |bytes|))
  {
    var chunkSize := if size < MAX_BODY_SIZE then size else MAX_BODY_SIZE;
    ok, bytes, next := DpAuxReadChunk(ch, pos, dpCmd, addr, chunkSize);
    ReadStep(whole, buf, ch, pos, dpCmd, addr, size, ok, bytes, next);
  }

  /** One turn of the chunk loop, over what has been read so far: the
      chunk either ends the read with a failure or moves its front on. */
  lemma ReadStep(whole: Transfer, buf: seq<bv8>, ch: Channel, pos: nat, dpCmd: bv32, addr: bv32, size: nat,
                 ok: bool, bytes: seq<bv8>, next: nat)
    requires size > 0
    requires whole == Prepend(buf, Read(ch, pos, dpCmd, addr, size))
    requires ReadChunk(ch, pos, dpCmd, addr, if size < MAX_BODY_SIZE then size else MAX_BODY_SIZE)
      == Transfer(if ok then Some(bytes) else None, next)
    ensures !ok || |bytes| == 0 ==> whole == Transfer(None, next)
    ensures ok ==> |bytes| <= size
    ensures ok && |bytes| > 0 ==> whole == Prepend(buf + bytes, Read(ch, next, dpCmd, addr, size - |bytes|))
  {
    if ok && |bytes| > 0 {
      PrependTwice(buf, bytes, Read(ch, next, dpCmd, addr, size - |bytes|));
    }
  }

  lemma PrependTwice(a: seq<bv8>, b: seq<bv8>, t: Transfer)
    ensures Prepend(a, Prepend(b, t)) == Prepend(a + b, t)
  {
    if t.data.Some? {
      assert a + (b + t.data.value) == (a + b) + t.data.value;
    }
  }

  /** DpAuxWrite: a header followed by the body in one request; it
      succeeds only on an ACK that carries nothing else (a short write is
      a failure). */
  function Write(ch: Channel, pos: nat, dpCmd: bv32, addr: bv32, body: seq<bv8>): (r: (bool, nat))
    ensures r.1 >= pos
    ensures r.0 ==> HeaderAccepts(addr, |body|)
  {
    if !HeaderAccepts(addr, |body|) then (false, pos)
    else
      var e := Retry(ch, Header(addr, dpCmd, |body|) + body, pos, 0, 0);
      (e.reply.Some? && |e.reply.value| == 1, e.next)
  }

  /** What a write puts on the wire: a header a sink decodes to the
      command's low bits, the address and the body length, then the body. */
  lemma WriteRequestDecodes(dpCmd: bv32, addr: bv32, body: seq<bv8>)
    requires HeaderAccepts(addr, |body|)
    ensures var request := Header(addr, dpCmd, |body|) + body;
      && |request| == 4 + |body| <= MAX_TOTAL_SIZE
      && ParseHeader(request) == HeaderFields(Low8(dpCmd & 0xf), addr, |body|)
      && request[4..] == body
  {
    var request := Header(addr, dpCmd, |body|) + body;
    HeaderRoundTrip(addr, dpCmd, |body|);
    assert request[..4] == Header(addr, dpCmd, |body|);
  }

  /** DpAuxWrite, over an AuxMessage. */
  method DpAuxWrite(ch: Channel, pos: nat, dpCmd: bv32, addr: bv32, body: seq<bv8>) returns (ok: bool, next: nat)
    ensures Write(ch, pos, dpCmd, addr, body) == (ok, next)
  {
    var msg := new AuxMessage();
    ok := msg.SetDpAuxHeader(addr, dpCmd, |body|);
    if !ok {
      return false, pos;
    }
    forall i | 0 <= i < |body| {
      msg.data[4 + i] := body[i];
    }
    msg.size := |body| + 4;
    assert msg.data[..msg.size] == Header(addr, dpCmd, |body|) + body;
    var reply;
    reply, next := SendDpAuxMsgWithRetry(ch, msg.data[..msg.size], pos);
    ok := reply.Some? && |reply.value| == 1;
  }

  // ---------------------------------------------------------------------
  // Link training: drive settings

  /** A 2-bit register field. */
  type TwoBits = x: nat | x < 4

  /** One lane's ADJUST_REQUEST: the voltage swing and pre-emphasis the
      sink asks for. */
  datatype AdjustRequest = AdjustRequest(swing: TwoBits, preEmphasis: TwoBits)

  /** One lane's TRAINING_LANEx_SET. */
  datatype LaneSetting = LaneSetting(swing: TwoBits, maxSwingReached: bool, preEmphasis: TwoBits, maxPreEmphasisReached: bool)

  /** The largest voltage swing and the largest pre-emphasis the buffer
      translation table supports together. */
  const MAX_V: nat := 2
  const MAX_V_PLUS_PE: nat := 3

  /** The largest swing any lane asks for (0 for no lane). */
  function MaxSwing(adjust: seq<AdjustRequest>): (v: TwoBits)
    ensures forall i | 0 <= i < |adjust| :: adjust[i].swing <= v
  {
    if |adjust| == 0 then 0
    else
      var v := MaxSwing(adjust[..|adjust| - 1]);
      if adjust[|adjust| - 1].swing > v then adjust[|adjust| - 1].swing else v
  }

  /** The largest pre-emphasis any lane asks for (0 for no lane). */
  function MaxPreEmphasis(adjust: seq<AdjustRequest>): (pe: TwoBits)
    ensures forall i | 0 <= i < |adjust| :: adjust[i].preEmphasis <= pe
  {
    if |adjust| == 0 then 0
    else
      var pe := MaxPreEmphasis(adjust[..|adjust| - 1]);
      if adjust[|adjust| - 1].preEmphasis > pe then adjust[|adjust| - 1].preEmphasis else pe
  }

  /** The maxima are requests some lane made (or 0): with the bounds
      above, they are exactly the largest requests. */
  lemma {:induction false} MaximaAttained(adjust: seq<AdjustRequest>)
    ensures MaxSwing(adjust) == 0 || exists i | 0 <= i < |adjust| :: adjust[i].swing == MaxSwing(adjust)
    ensures MaxPreEmphasis(adjust) == 0
      || exists i | 0 <= i < |adjust| :: adjust[i].preEmphasis == MaxPreEmphasis(adjust)
  {
    if |adjust| > 0 {
      var front := adjust[..|adjust| - 1];
      MaximaAttained(front);
      if MaxSwing(adjust) != 0 && MaxSwing(adjust) == MaxSwing(front) {
        var i :| 0 <= i < |front| && front[i].swing == MaxSwing(front);
        assert adjust[i] == front[i];
      }
      if MaxPreEmphasis(adjust) != 0 && MaxPreEmphasis(adjust) == MaxPreEmphasis(front) {
        var i :| 0 <= i < |front| && front[i].preEmphasis == MaxPreEmphasis(front);
        assert adjust[i] == front[i];
      }
    }
  }

  /** Whether some lane's swing differs from `v`. */
  predicate SwingChanged(lanes: seq<LaneSetting>, v: nat)
  {
    exists k | 0 <= k < |lanes| :: lanes[k].swing != v
  }

  lemma SwingChangedStep(lanes: seq<LaneSetting>, j: nat, v: nat)
    requires j < |lanes|
    ensures SwingChanged(lanes[..j + 1], v) == (SwingChanged(lanes[..j], v) || lanes[j].swing != v)
  {
    if SwingChanged(lanes[..j + 1], v) && lanes[j].swing == v {
      var k :| 0 <= k < j + 1 && lanes[..j + 1][k].swing != v;
      assert lanes[..j][k] == lanes[k];
    }
    if SwingChanged(lanes[..j], v) {
      var k :| 0 <= k < j && lanes[..j][k].swing != v;
      assert lanes[..j + 1][k] == lanes[k];
    }
    if lanes[j].swing != v {
      assert lanes[..j + 1][j] == lanes[j];
    }
  }

  /** The swing actually used: the one asked for, lowered until the sum
      with the pre-emphasis is at most 3 and itself at most 2, and no
      lower than that. */
  function ClampedSwing(v: TwoBits, pe: TwoBits): (r: TwoBits)
    ensures r <= v && r <= MAX_V && r + pe <= MAX_V_PLUS_PE
    ensures r == v || r == MAX_V || r + pe == MAX_V_PLUS_PE
  {
    var v1 := if v + pe > MAX_V_PLUS_PE then MAX_V_PLUS_PE - pe else v;
    if v1 > MAX_V then MAX_V else v1
  }

  /** The row of the buffer translation table for a swing and a
      pre-emphasis (9 for a combination the table does not have). */
  function BufTransLevel(v: TwoBits, pe: TwoBits): nat
  {
    if v == 0 then pe
    else if v == 1 then 4 + pe
    else if v == 2 then 7 + pe
    else 9
  }

  /** Every setting the clamp allows has its own row of the nine-row
      table; the fallback row is never chosen. */
  lemma BufTransLevelInTable(v: TwoBits, pe: TwoBits, v': TwoBits, pe': TwoBits)
    requires v <= MAX_V && v + pe <= MAX_V_PLUS_PE
    requires v' <= MAX_V && v' + pe' <= MAX_V_PLUS_PE
    ensures BufTransLevel(v, pe) < 9
    ensures BufTransLevel(v, pe) == BufTransLevel(v', pe') ==> v == v' && pe == pe'
  {
  }

  /** DpcdHandleAdjustRequest: give every lane the largest swing and
      pre-emphasis any lane asks for, the swing clamped; report whether
      any lane's swing changed, and the table row to select. */
  method DpcdHandleAdjustRequest(training: array<LaneSetting>, adjust: seq<AdjustRequest>)
    returns (voltageChange: bool, level: nat)
    requires training.Length == |adjust|
    modifies training
    ensures var pe := MaxPreEmphasis(adjust);
      var v := ClampedSwing(MaxSwing(adjust), pe);
      && (forall i | 0 <= i < training.Length ::
            training[i] == LaneSetting(v, v == MAX_V, pe, pe + v == MAX_V_PLUS_PE))
      && (voltageChange <==> SwingChanged(old(training[..]), v))
      && level == BufTransLevel(v, pe)
    ensures level < 9
  {
    var v: TwoBits, pe: TwoBits := 0, 0;
    var i := 0;
    while i < |adjust|
      invariant 0 <= i <= |adjust|
      invariant v == MaxSwing(adjust[..i]) && pe == MaxPreEmphasis(adjust[..i])
    {
      assert adjust[..i + 1][..i] == adjust[..i];
      if adjust[i].swing > v {
        v := adjust[i].swing;
      }
      if adjust[i].preEmphasis > pe {
        pe := adjust[i].preEmphasis;
      }
      i := i + 1;
    }
    assert adjust[..i] == adjust;
    if v + pe > MAX_V_PLUS_PE {
      v := MAX_V_PLUS_PE - pe;
    }
    if v > MAX_V {
      v := MAX_V;
    }
    ghost var lanes := training[..];
    var setting := LaneSetting(v, v == MAX_V, pe, pe + v == MAX_V_PLUS_PE);
    voltageChange := false;
    var j := 0;
    while j < training.Length
      invariant 0 <= j <= training.Length
      invariant training[..j] == seq(j, _ => setting)
      invariant training[j..] == lanes[j..]
      invariant voltageChange == SwingChanged(lanes[..j], v)
    {
      SwingChangedStep(lanes, j, v);
      assert training[j] == lanes[j];
      voltageChange := voltageChange || training[j].swing != v;
      training[j] := setting;
      j := j + 1;
    }
    assert lanes[..j] == lanes;
    BufTransLevelInTable(v, pe, v, pe);
    level := BufTransLevel(v, pe);
  }

  // ---------------------------------------------------------------------
  // Link and data M/N ratios

  /** The fixed N of the ratio registers, 1 << 23, which fits their 24
      bits. */
  const DENOMINATOR: nat := 0x80_0000

  /** CalculateRatio: N is 2^23 and M is x * N / y in 64 bits, cut to 32
      bits. For a ratio at most 1, which is what the link and data ratios
      are, nothing is cut and M / N is x / y rounded down to the nearest
      multiple of 1 / N. */
  function CalculateRatio(x: nat, y: nat): (r: (nat, nat))
    requires x <= 0xffff_ffff && 0 < y <= 0xffff_ffff
    ensures r.1 == DENOMINATOR && r.0 <= 0xffff_ffff
    ensures x <= y ==> r.0 <= DENOMINATOR && r.0 * y <= x * DENOMINATOR < (r.0 + 1) * y
  {
    RatioBounds(x, y);
    (x * DENOMINATOR / y % 0x1_0000_0000, DENOMINATOR)
  }

  lemma RatioBounds(x: nat, y: nat)
    requires y > 0
    ensures var q := x * DENOMINATOR / y;
      q * y <= x * DENOMINATOR < (q + 1) * y && (x <= y ==> q <= DENOMINATOR)
  {
    Arith.DivBounds(x * DENOMINATOR, y);
    if x <= y {
      Arith.MulMono(x, y, DENOMINATOR);
      Arith.DivMono(x * DENOMINATOR, DENOMINATOR * y, y);
      Arith.MulDiv(DENOMINATOR, y);
    }
  }
}

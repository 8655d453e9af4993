/** WebSocket framing (RFC 6455, sections 5.2 to 5.5) on the client's side of the control channel. */
module WebSocket {
  import opened Bytes
  import opened Bits
  import opened Net

  // ---- numbers in network order ----

  function BigEndian(n: nat, k: nat): (s: seq<byte>)
    ensures |s| == k
  {
    if k == 0 then [] else BigEndian(n / 256, k - 1) + [n % 256]
  }

  function Value(s: seq<byte>): nat {
    if s == [] then 0 else 256 * Value(s[..|s| - 1]) + s[|s| - 1]
  }

  /** `n >> (8 * i)`. */
  function ShrBytes(n: nat, i: nat): nat { if i == 0 then n else ShrBytes(n / 256, i - 1) }

  lemma {:induction false} BigEndianAt(n: nat, k: nat, j: nat)
    requires j < k
    ensures BigEndian(n, k)[j] == ShrBytes(n, k - 1 - j) % 256
  {
    if j < k - 1 { BigEndianAt(n / 256, k - 1, j); }
  }

  lemma {:induction false} ValueBack(n: nat, k: nat)
    requires ShrBytes(n, k) == 0
    ensures Value(BigEndian(n, k)) == n
  {
    if k > 0 {
      ValueBack(n / 256, k - 1);
      assert BigEndian(n, k)[..k - 1] == BigEndian(n / 256, k - 1);
    }
  }

  // ---- frames ----

  /** A frame: its length is carried in 0, 2 or 8 extension bytes, its payload masked or not. */
  datatype Frame = Frame(fin: bool, opcode: nat, mask: Option<seq<byte>>, ext: nat, payload: seq<byte>)

  predicate FrameOk(f: Frame) {
    && f.opcode < 16 && (f.mask.Some? ==> |f.mask.value| == 4)
    && match f.ext
       case 0 => |f.payload| < 126
       case 2 => |f.payload| < 0x1_0000
       case 8 => |f.payload| < U64
       case _ => false
  }

  /** The payload under a mask; masking twice gives it back. */
  function Masked(s: seq<byte>, mask: seq<byte>): (r: seq<byte>)
    requires |mask| == 4
    ensures |r| == |s| && forall i :: 0 <= i < |s| ==> r[i] == XorByte(s[i], mask[i % 4])
  {
    seq(|s|, i requires 0 <= i < |s| => XorByte(s[i], mask[i % 4]))
  }

  function XorByte(a: byte, b: byte): byte {
    XorBound(a, b, 8);
    ByteSize();
    Xor(a, b)
  }

  lemma {:induction false} ByteSize()
    ensures Pow2(8) == 256
  {
    WordSizes();
  }

  lemma {:induction false} MaskedTwice(s: seq<byte>, mask: seq<byte>)
    requires |mask| == 4
    ensures Masked(Masked(s, mask), mask) == s
  {
    forall i | 0 <= i < |s| ensures Masked(Masked(s, mask), mask)[i] == s[i] { XorTwice(s[i], mask[i % 4]); }
  }

  function Code(f: Frame): nat { if f.ext == 0 then |f.payload| else if f.ext == 2 then 126 else 127 }

  function Header(f: Frame): (h: seq<byte>)
    requires FrameOk(f)
    ensures |h| == 2
  {
    [(if f.fin then 128 else 0) + f.opcode, (if f.mask.Some? then 128 else 0) + Code(f)]
  }

  function MaskBytes(f: Frame): seq<byte> { if f.mask.Some? then f.mask.value else [] }

  function OnWire(f: Frame): (s: seq<byte>)
    requires FrameOk(f)
    ensures |s| == |f.payload|
  {
    if f.mask.Some? then Masked(f.payload, f.mask.value) else f.payload
  }

  function Encode(f: Frame): (s: seq<byte>)
    requires FrameOk(f)
    ensures |s| == 2 + f.ext + |MaskBytes(f)| + |f.payload|
  {
    Header(f) + BigEndian(|f.payload|, f.ext) + MaskBytes(f) + OnWire(f)
  }

  /** The length form a sender must use. */
  function ShortestExt(n: nat): nat { if n < 126 then 0 else if n <= 0xFFFF then 2 else 8 }

  /** What stands at `p`: a whole frame and how many bytes it takes, or not a whole frame. */
  datatype At = At(fin: bool, opcode: nat, payload: seq<byte>, size: nat) | Short

  function ExtOf(b: byte): nat { if b % 128 == 126 then 2 else if b % 128 == 127 then 8 else 0 }

  function MaskSize(b: byte): nat { if b >= 128 then 4 else 0 }

  /** How many bytes come before the payload. */
  function HeadSize(b: byte): nat { 2 + ExtOf(b) + MaskSize(b) }

  /** `n` bytes from `p` on. */
  function Slice(d: seq<byte>, p: nat, n: nat): (r: seq<byte>)
    requires p + n <= |d|
    ensures |r| == n
  {
    d[p..p + n]
  }

  function LenAt(d: seq<byte>, p: nat): nat
    requires p + 2 <= |d| && p + HeadSize(d[p + 1]) <= |d|
  {
    if ExtOf(d[p + 1]) == 0 then d[p + 1] % 128 else Value(Slice(d, p + 2, ExtOf(d[p + 1])))
  }

  lemma {:induction false} ValueBound(s: seq<byte>)
    ensures Value(s) < Pow2(8 * |s|)
  {
    if s != [] {
      ValueBound(s[..|s| - 1]);
      Pow2Add(8, 8 * (|s| - 1));
      ByteSize();
    }
  }

  lemma {:induction false} LenBound(d: seq<byte>, p: nat)
    requires p + 2 <= |d| && p + HeadSize(d[p + 1]) <= |d|
    ensures LenAt(d, p) < U64
  {
    hide Pow2, Value;
    WordSizes();
    ValueBound(Slice(d, p + 2, ExtOf(d[p + 1])));
    assert Pow2(16) < U64 by { PowSixteen(); }
  }

  lemma {:induction false} PowSixteen()
    ensures Pow2(16) == 0x1_0000
  {
    hide Pow2;
    WordSizes();
    Pow2Add(8, 8);
  }

  function PayloadAt(d: seq<byte>, p: nat): seq<byte>
    requires p + 2 <= |d| && p + HeadSize(d[p + 1]) <= |d| && p + HeadSize(d[p + 1]) + LenAt(d, p) <= |d|
  {
    var raw := Slice(d, p + HeadSize(d[p + 1]), LenAt(d, p));
    if MaskSize(d[p + 1]) == 4 then Masked(raw, Slice(d, p + 2 + ExtOf(d[p + 1]), 4)) else raw
  }

  function FrameAt(d: seq<byte>, p: nat): (f: At)
    ensures f.At? ==> f.size >= 2 && p + f.size <= |d| && |f.payload| < U64
  {
    if p + 2 > |d| || p + HeadSize(d[p + 1]) > |d| || p + HeadSize(d[p + 1]) + LenAt(d, p) > |d| then Short
    else
      LenBound(d, p);
      At(d[p] >= 128, d[p] % 16, PayloadAt(d, p), HeadSize(d[p + 1]) + LenAt(d, p))
  }

  // ---- a whole message, as a function of the bytes ----

  /** What receiving from `p` on leads to: the bytes taken, the pings to answer, and the message, if one ends. */
  datatype Received = Received(stop: nat, pings: seq<seq<byte>>, message: Option<(seq<byte>, bool)>)

  predicate DataFrame(opcode: nat) { opcode == 0 || opcode == 1 || opcode == 2 }

  function Kind(haveOp: bool, isBin: bool, opcode: nat): bool { if !haveOp && opcode != 0 then opcode == 2 else isBin }

  /** Payloads short enough to be answered. */
  predicate Pingable(pings: seq<seq<byte>>) { forall i :: 0 <= i < |pings| ==> |pings[i]| < U64 }

  /** `msg`, `haveOp` and `isBin` are what earlier frames of the message left. */
  function Receive(d: seq<byte>, p: nat, msg: seq<byte>, haveOp: bool, isBin: bool): (r: Received)
    requires p <= |d|
    ensures p <= r.stop <= |d| && Pingable(r.pings)
    decreases |d| - p
  {
    match FrameAt(d, p)
    case Short => Received(p, [], None)
    case At(fin, opcode, payload, size) =>
      if DataFrame(opcode) then
        if fin then Received(p + size, [], Some((msg + payload, Kind(haveOp, isBin, opcode))))
        else Receive(d, p + size, msg + payload, haveOp || opcode != 0, Kind(haveOp, isBin, opcode))
      else if opcode == 8 then Received(p + size, [], None)
      else
        var r := Receive(d, p + size, msg, haveOp, isBin);
        if opcode == 9 then r.(pings := [payload] + r.pings) else r
  }

  /** Receiving from `p` on, with the pings of earlier frames in front. */
  function After(seen: seq<seq<byte>>, d: seq<byte>, p: nat, msg: seq<byte>, haveOp: bool, isBin: bool): Received
    requires p <= |d|
  {
    var r := Receive(d, p, msg, haveOp, isBin);
    Received(r.stop, seen + r.pings, r.message)
  }

  lemma {:induction false} AfterNone(d: seq<byte>, p: nat)
    requires p <= |d|
    ensures After([], d, p, [], false, false) == Receive(d, p, [], false, false) && Pingable([])
  {
    hide Receive;
    var r := Receive(d, p, [], false, false);
    assert [] + r.pings == r.pings;
  }

  /** One frame of the receiving loop. */
  lemma {:induction false} AfterFrame(seen: seq<seq<byte>>, d: seq<byte>, p: nat, msg: seq<byte>, haveOp: bool,
          isBin: bool)
    requires p <= |d|
    ensures var a, f := After(seen, d, p, msg, haveOp, isBin), FrameAt(d, p);
      if f.Short? then a == Received(p, seen, None)
      else if DataFrame(f.opcode) then
        var m, k := msg + f.payload, Kind(haveOp, isBin, f.opcode);
        a == if f.fin then Received(p + f.size, seen, Some((m, k)))
             else After(seen, d, p + f.size, m, haveOp || f.opcode != 0, k)
      else if f.opcode == 8 then a == Received(p + f.size, seen, None)
      else a == After(if f.opcode == 9 then seen + [f.payload] else seen, d, p + f.size, msg, haveOp, isBin)
  {
    hide FrameAt, Kind;
    var f := FrameAt(d, p);
    assert seen + [] == seen;
    if f.At? && f.opcode == 9 {
      var r := Receive(d, p + f.size, msg, haveOp, isBin);
      assert seen + ([f.payload] + r.pings) == seen + [f.payload] + r.pings;
    }
  }

  type Masks = nat -> seq<byte>

  /** The frame `sendFrame` builds: final, masked, in the shortest length form. */
  function OutFrame(opcode: nat, mask: seq<byte>, payload: seq<byte>): Frame {
    Frame(true, opcode, Some(mask), ShortestExt(|payload|), payload)
  }

  ghost predicate MasksOk(masks: Masks) { forall n :: |masks(n)| == 4 }

  /** The pongs for `pings`, with the masks drawn from number `from` on. */
  ghost function Pongs(pings: seq<seq<byte>>, masks: Masks, from: nat): seq<byte>
    requires MasksOk(masks) && Pingable(pings)
    decreases |pings|
  {
    if pings == [] then [] else Encode(OutFrame(10, masks(from), pings[0])) + Pongs(pings[1..], masks, from + 1)
  }

  class WebSocket {
    const sock: Socket
    /** The timeouts, by position and number, at which the stop flag is found set. */
    const stopAt: set<(nat, nat)>
    /** What the random source yields. */
    const masks: Masks
    var drawn: nat
    var rxBytes: nat
    var txBytes: nat

    ghost predicate Valid()
      reads this, sock
    {
      sock.Valid() && MasksOk(masks)
    }

    constructor (sock: Socket, stopAt: set<(nat, nat)>, masks: Masks)
      requires sock.Valid() && MasksOk(masks)
      ensures Valid() && this.sock == sock && this.stopAt == stopAt && this.masks == masks
      ensures drawn == 0 && rxBytes == 0 && txBytes == 0
    {
      this.sock, this.stopAt, this.masks := sock, stopAt, masks;
      drawn, rxBytes, txBytes := 0, 0, 0;
    }

    /** Fills the buffer, whatever the reads bring; gives up at the end of the stream or on stop. */
    method ReadExact(buf: array<byte>) returns (ok: bool)
      requires Valid()
      modifies sock, buf
      ensures Valid() && sock.written == old(sock.written)
      ensures ok ==> sock.pos == old(sock.pos) + buf.Length && buf[..] == sock.data[old(sock.pos)..sock.pos]
      ensures !ok ==> stopAt != {} || old(sock.pos) + buf.Length > |sock.data|
    {
      var got := 0;
      while got < buf.Length
        invariant 0 <= got <= buf.Length && Valid() && sock.written == old(sock.written)
        invariant sock.pos == old(sock.pos) + got && buf[..got] == sock.data[old(sock.pos)..sock.pos]
        decreases buf.Length - got, if sock.pos in sock.stalls then sock.stalls[sock.pos] - sock.waited else 0
      {
        ghost var p := sock.pos;
        var r := sock.ReadSome(buf.Length - got);
        match r {
          case Timeout =>
            if (sock.pos, sock.waited) in stopAt { return false; }
          case Eof => return false;
          case Got(b) =>
            Store(buf, got, b);
            got := got + |b|;
            assert sock.data[old(sock.pos)..sock.pos] == sock.data[old(sock.pos)..p] + b;
        }
      }
      assert buf[..] == buf[..got];
      return true;
    }

    method Store(buf: array<byte>, at: nat, b: seq<byte>)
      requires at + |b| <= buf.Length
      modifies buf
      ensures buf[..at + |b|] == old(buf[..at]) + b
    {
      for i := 0 to |b|
        invariant buf[..at + i] == old(buf[..at]) + b[..i]
      {
        buf[at + i] := b[i];
      }
      assert b[..|b|] == b;
    }

    /** Unmasking in place. */
    method Unmask(buf: array<byte>, mask: seq<byte>)
      requires |mask| == 4
      modifies buf
      ensures buf[..] == Masked(old(buf[..]), mask)
    {
      for i := 0 to buf.Length
        invariant forall j :: 0 <= j < i ==> buf[j] == XorByte(old(buf[j]), mask[j % 4])
        invariant forall j :: i <= j < buf.Length ==> buf[j] == old(buf[j])
      {
        buf[i] := XorByte(buf[i], mask[i % 4]);
      }
    }

    /** The payload length: what the header byte `b` says, or the bytes that follow it. */
    method ReadLength(b: byte) returns (len: Option<nat>)
      requires Valid()
      modifies sock
      ensures Valid() && sock.written == old(sock.written)
      ensures len.Some? ==>
        && sock.pos == old(sock.pos) + ExtOf(b)
        && len.value == if ExtOf(b) == 0 then b % 128 else Value(Slice(sock.data, old(sock.pos), ExtOf(b)))
      ensures len.None? ==> stopAt != {} || old(sock.pos) + ExtOf(b) > |sock.data|
    {
      if ExtOf(b) == 0 { return Some(b % 128); }
      var e := ReadBytes(ExtOf(b));
      if e.None? { return None; }
      var n := FromNetwork(e.value);
      return Some(n);
    }

    method ReadMask(b: byte) returns (mask: Option<seq<byte>>)
      requires Valid()
      modifies sock
      ensures Valid() && sock.written == old(sock.written)
      ensures mask.Some? ==>
        sock.pos == old(sock.pos) + MaskSize(b) && mask.value == Slice(sock.data, old(sock.pos), MaskSize(b))
      ensures mask.None? ==> stopAt != {} || old(sock.pos) + MaskSize(b) > |sock.data|
    {
      if b < 128 { return Some([]); }
      mask := ReadBytes(4);
    }

    method ReadBytes(n: nat) returns (b: Option<seq<byte>>)
      requires Valid()
      modifies sock
      ensures Valid() && sock.written == old(sock.written)
      ensures b.Some? ==> sock.pos == old(sock.pos) + n && b.value == Slice(sock.data, old(sock.pos), n)
      ensures b.None? ==> stopAt != {} || old(sock.pos) + n > |sock.data|
    {
      var buf := new byte[n];
      var ok := ReadExact(buf);
      if !ok { return None; }
      return Some(buf[..]);
    }

    /** The payload, read and unmasked in its buffer; an empty mask stands for none. */
    method ReadPayload(n: nat, mask: seq<byte>) returns (b: Option<seq<byte>>)
      requires Valid() && (mask != [] ==> |mask| == 4)
      modifies sock
      ensures Valid() && sock.written == old(sock.written)
      ensures b.Some? ==>
        && sock.pos == old(sock.pos) + n
        && b.value == var raw := Slice(sock.data, old(sock.pos), n); if mask != [] then Masked(raw, mask) else raw
      ensures b.None? ==> stopAt != {} || old(sock.pos) + n > |sock.data|
    {
      var buf := new byte[n];
      var ok := ReadExact(buf);
      if !ok { return None; }
      if mask != [] { Unmask(buf, mask); }
      return Some(buf[..]);
    }

    /** One frame off the connection; its bytes are counted once it is whole. */
    method ReadFrame() returns (f: At)
      requires Valid()
      modifies this, sock
      ensures Valid() && sock.written == old(sock.written) && drawn == old(drawn) && txBytes == old(txBytes)
      ensures f.At? ==>
        && f == FrameAt(sock.data, old(sock.pos)) && sock.pos == old(sock.pos) + f.size
        && rxBytes == old(rxBytes) + f.size
      ensures f.Short? ==> rxBytes == old(rxBytes) && (stopAt != {} || FrameAt(sock.data, old(sock.pos)) == Short)
    {
      hide Masked, Value, ExtOf, MaskSize, PayloadAt, LenAt, Slice;
      ghost var d, p := sock.data, sock.pos;
      var hdr := ReadBytes(2);
      if hdr.None? { return Short; }
      HeaderBytes(d, p);
      var b := hdr.value[1];
      Sizes(b);
      var len := ReadLength(b);
      if len.None? { return Short; }
      var mask := ReadMask(b);
      if mask.None? { return Short; }
      var payload := ReadPayload(len.value, mask.value);
      Parts(d, p);
      if payload.None? { return Short; }
      var size := HeadSize(b) + len.value;
      rxBytes := rxBytes + size;
      f := At(hdr.value[0] >= 128, hdr.value[0] % 16, payload.value, size);
    }

    /** Builds and sends one frame; the length goes out in the shortest form. */
    method SendFrame(opcode: nat, payload: seq<byte>) returns (ok: bool)
      requires Valid() && opcode < 16 && |payload| < U64
      modifies this, sock
      ensures Valid() && sock.pos == old(sock.pos) && sock.waited == old(sock.waited) && rxBytes == old(rxBytes)
      ensures var out := Encode(OutFrame(opcode, masks(old(drawn)), payload));
        && ok == sock.writable && drawn == old(drawn) + 1 && txBytes == old(txBytes) + |out|
        && sock.written == if ok then old(sock.written) + out else old(sock.written)
    {
      hide Or, Masked, BigEndian;
      var len := |payload|;
      HighBits(opcode, len);
      var frame: seq<byte> := [Or(opcode, 0x80)];
      if len < 126 {
        frame := frame + [Or(len, 0x80)];
      } else if len <= 0xFFFF {
        TwoBytes(len);
        frame := frame + [Or(126, 0x80)] + [len / 256 % 256, len % 256];
      } else {
        var e := LengthBytes(len);
        frame := frame + [Or(127, 0x80)] + e;
      }
      var mask := masks(drawn);
      drawn := drawn + 1;
      frame := frame + mask;
      var body := MaskPayload(payload, mask);
      frame := frame + body;
      NoLength(len);
      assert frame == Encode(OutFrame(opcode, mask, payload));
      txBytes := txBytes + |frame|;
      ok := sock.WriteAll(frame);
    }

    /** The connection was answered `pings`, from the given state on. */
    ghost predicate Answered(pings: seq<seq<byte>>, drawn0: nat, tx0: nat, written0: seq<byte>)
      requires MasksOk(masks) && Pingable(pings)
      reads this, sock
    {
      && drawn == drawn0 + |pings| && txBytes == tx0 + |Pongs(pings, masks, drawn0)|
      && sock.written == if sock.writable then written0 + Pongs(pings, masks, drawn0) else written0
    }

    /** One message, or the end of the connection. A success is what the bytes mean whatever the
        stop flag did; if it is never set, a failure is too. Every ping was answered, in order,
        and exactly the bytes of whole frames were counted. */
    method RecvMessage() returns (ok: bool, out: seq<byte>, isBinary: bool)
      requires Valid()
      modifies this, sock
      ensures Valid()
      ensures var r := Receive(sock.data, old(sock.pos), [], false, false);
        ok || stopAt == {} ==>
          && (ok <==> r.message.Some?) && (ok ==> r.message == Some((out, isBinary)) && sock.pos == r.stop)
          && rxBytes == old(rxBytes) + (r.stop - old(sock.pos))
          && Answered(r.pings, old(drawn), old(txBytes), old(sock.written))
    {
      hide FrameAt, Pongs, Encode, Receive, After, Kind, Pingable, OutFrame;
      ghost var d, p := sock.data, sock.pos;
      ghost var seen: seq<seq<byte>> := [];
      NoPongs(masks, drawn);
      AfterNone(d, p);
      var message: seq<byte>, isBin, haveOp := [], false, false;
      while true
        invariant Valid() && p <= sock.pos && Pingable(seen)
        invariant After(seen, d, sock.pos, message, haveOp, isBin) == Receive(d, p, [], false, false)
        invariant rxBytes == old(rxBytes) + (sock.pos - p)
        invariant Answered(seen, old(drawn), old(txBytes), old(sock.written))
        decreases |d| - sock.pos
      {
        AfterFrame(seen, d, sock.pos, message, haveOp, isBin);
        var f := ReadFrame();
        if f.Short? { return false, [], false; }
        var At(fin, opcode, payload, _) := f;
        if DataFrame(opcode) {
          isBin, haveOp := Kind(haveOp, isBin, opcode), haveOp || opcode != 0;
          message := message + payload;
          if fin { return true, message, isBin; }
        } else if opcode == 8 {
          return false, [], false;
        } else if opcode == 9 {
          PongsSnoc(seen, payload, masks, old(drawn));
          var _ := SendFrame(10, payload);
          seen := seen + [payload];
        }
      }
    }

    method LengthBytes(len: nat) returns (e: seq<byte>)
      ensures e == BigEndian(len, 8)
    {
      e := [];
      for k := 0 to 8
        invariant e == BigEndian(len, 8)[..k]
      {
        BigEndianAt(len, 8, k);
        e := e + [ShrBytes(len, 7 - k) % 256];
      }
    }
  }

  lemma {:induction false} NoPongs(masks: Masks, from: nat)
    requires MasksOk(masks)
    ensures Pongs([], masks, from) == []
  {
  }

  lemma {:induction false} PongsSnoc(pings: seq<seq<byte>>, x: seq<byte>, masks: Masks, from: nat)
    requires MasksOk(masks) && Pingable(pings) && |x| < U64
    ensures Pingable(pings + [x])
    ensures Pongs(pings + [x], masks, from) == Pongs(pings, masks, from) + Encode(OutFrame(10, masks(from + |pings|), x))
    decreases |pings|
  {
    hide Encode, OutFrame;
    if pings == [] {
      assert [] + [x] == [x] && [x][1..] == [];
    } else {
      var t := pings[1..];
      PongsSnoc(t, x, masks, from + 1);
      assert (pings + [x])[1..] == t + [x];
    }
  }

  method MaskPayload(payload: seq<byte>, mask: seq<byte>) returns (r: seq<byte>)
    requires |mask| == 4
    ensures r == Masked(payload, mask)
  {
    r := [];
    for i := 0 to |payload|
      invariant r == Masked(payload, mask)[..i]
    {
      MaskedAt(payload, mask, i);
      r := r + [XorByte(payload[i], mask[i % 4])];
    }
  }

  /** Bytes in network order, shifted in one by one. */
  method FromNetwork(e: seq<byte>) returns (n: nat)
    ensures n == Value(e)
  {
    hide Or, Shl;
    n := 0;
    for i := 0 to |e|
      invariant n == Value(e[..i])
    {
      assert e[..i + 1][..i] == e[..i];
      ShiftIn(n, e[i]);
      n := Or(e[i], Shl(n, 8));
    }
    assert e[..|e|] == e;
  }

  lemma {:induction false} Sizes(b: byte)
    ensures HeadSize(b) == 2 + ExtOf(b) + MaskSize(b) && (b >= 128 <==> MaskSize(b) == 4) && (b < 128 <==> MaskSize(b) == 0)
  {
  }

  lemma {:induction false} Parts(d: seq<byte>, p: nat)
    requires p + 2 <= |d| && p + HeadSize(d[p + 1]) <= |d|
    ensures var b := d[p + 1]; var q := p + 2 + ExtOf(b); var r := q + MaskSize(b);
      && LenAt(d, p) == (if ExtOf(b) == 0 then b % 128 else Value(Slice(d, p + 2, ExtOf(b))))
      && (r + LenAt(d, p) <= |d| ==>
            PayloadAt(d, p) == var raw, mask := Slice(d, r, LenAt(d, p)), Slice(d, q, MaskSize(b));
              if mask != [] then Masked(raw, mask) else raw)
  {
    hide Masked, Value, Slice;
  }

  lemma {:induction false} HeaderBytes(d: seq<byte>, p: nat)
    requires p + 2 <= |d|
    ensures Slice(d, p, 2) == [d[p], d[p + 1]]
  {
  }

  lemma {:induction false} MaskedAt(s: seq<byte>, mask: seq<byte>, i: nat)
    requires |mask| == 4 && i < |s|
    ensures Masked(s, mask)[..i + 1] == Masked(s, mask)[..i] + [XorByte(s[i], mask[i % 4])]
  {
  }

  lemma {:induction false} HighBits(opcode: nat, len: nat)
    requires opcode < 16
    ensures Or(opcode, 0x80) == 128 + opcode && Or(126, 0x80) == 254 && Or(127, 0x80) == 255
    ensures len < 126 ==> Or(len, 0x80) == 128 + len
  {
    hide Or;
    OrHighBit(opcode);
    OrHighBit(126);
    OrHighBit(127);
    if len < 126 { OrHighBit(len); }
  }

  lemma {:induction false} TwoBytes(n: nat)
    ensures BigEndian(n, 2) == [n / 256 % 256, n % 256]
  {
    assert BigEndian(n / 256, 1) == BigEndian(n / 256 / 256, 0) + [n / 256 % 256];
  }

  lemma {:induction false} NoLength(n: nat)
    ensures BigEndian(n, 0) == []
  {
  }

  lemma {:induction false} ShiftIn(n: nat, b: byte)
    ensures Or(b, Shl(n, 8)) == 256 * n + b
  {
    hide Or;
    ByteSize();
    OrDisjoint(b, n, 8);
    ShlIsTimes(n, 8);
  }

  // ---- well-formed messages ----

  function EncodeAll(fs: seq<Frame>): seq<byte>
    requires forall i :: 0 <= i < |fs| ==> FrameOk(fs[i])
  {
    if fs == [] then [] else Encode(fs[0]) + EncodeAll(fs[1..])
  }

  /** Data frames of which only the last is final, with control frames other than close between them. */
  predicate MessageOk(fs: seq<Frame>) {
    && fs != [] && FrameOk(fs[0]) && fs[0].opcode != 8
    && (if |fs| == 1 then fs[0].opcode <= 2 && fs[0].fin else (fs[0].opcode <= 2 ==> !fs[0].fin) && MessageOk(fs[1..]))
  }

  lemma {:induction false} AllOk(fs: seq<Frame>)
    requires MessageOk(fs)
    ensures forall i :: 0 <= i < |fs| ==> FrameOk(fs[i])
    decreases |fs|
  {
    if |fs| > 1 {
      AllOk(fs[1..]);
      assert forall i :: 0 < i < |fs| ==> fs[i] == fs[1..][i - 1];
    }
  }

  /** The payloads of the data frames. */
  function DataOf(fs: seq<Frame>): seq<byte> {
    if fs == [] then [] else (if fs[0].opcode <= 2 then fs[0].payload else []) + DataOf(fs[1..])
  }

  function PingsOf(fs: seq<Frame>): seq<seq<byte>> {
    if fs == [] then [] else (if fs[0].opcode == 9 then [fs[0].payload] else []) + PingsOf(fs[1..])
  }

  /** The first data frame that says what the message is, if one does, says binary. */
  function IsBinary(fs: seq<Frame>): bool {
    fs != [] && (if fs[0].opcode == 1 || fs[0].opcode == 2 then fs[0].opcode == 2 else IsBinary(fs[1..]))
  }

  lemma {:induction false} LengthBack(f: Frame)
    requires FrameOk(f)
    ensures f.ext == 0 || Value(BigEndian(|f.payload|, f.ext)) == |f.payload|
  {
    var n := |f.payload|;
    if f.ext == 2 {
      assert ShrBytes(n, 2) == ShrBytes(n / 256, 1) == ShrBytes(n / 256 / 256, 0);
      ValueBack(n, 2);
    } else if f.ext == 8 {
      ShrIsZero(n, 8);
      ValueBack(n, 8);
    }
  }

  lemma {:induction false} ShrIsZero(n: nat, k: nat)
    requires n < Pow2(8 * k) || (k == 8 && n < U64)
    ensures ShrBytes(n, k) == 0
  {
    hide Pow2;
    WordSizes();
    if k > 0 {
      Pow2Add(8, 8 * (k - 1));
      ShrIsZero(n / 256, k - 1);
    } else {
      PowZero();
    }
  }

  /** A whole frame is read as what was written, masked or not, in any length form. */
  lemma {:induction false} FrameBack(d: seq<byte>, p: nat, f: Frame)
    requires FrameOk(f) && Shows(d, p, Encode(f)) && p + |Encode(f)| <= |d|
    ensures FrameAt(d, p) == At(f.fin, f.opcode, f.payload, |Encode(f)|)
  {
    hide Masked, Value, BigEndian, Shows;
    var q := p + 2;
    var r := q + f.ext;
    var t := r + |MaskBytes(f)|;
    ShowsParts(d, p, Header(f) + BigEndian(|f.payload|, f.ext) + MaskBytes(f), OnWire(f));
    ShowsParts(d, p, Header(f) + BigEndian(|f.payload|, f.ext), MaskBytes(f));
    ShowsParts(d, p, Header(f), BigEndian(|f.payload|, f.ext));
    ShownAll(d, p, Header(f));
    ShownAll(d, q, BigEndian(|f.payload|, f.ext));
    ShownAll(d, r, MaskBytes(f));
    ShownAll(d, t, OnWire(f));
    LengthBack(f);
    HeaderBack(f);
    assert d[p] == Header(f)[0] && d[p + 1] == Header(f)[1] by { HeaderBytes(d, p); }
    if f.mask.Some? { MaskedTwice(f.payload, f.mask.value); }
  }

  lemma {:induction false} ShownAll(d: seq<byte>, p: nat, w: seq<byte>)
    requires Shows(d, p, w) && p + |w| <= |d|
    ensures Slice(d, p, |w|) == w
  {
    ShownSlice(d, p, w, p + |w|);
  }

  lemma {:induction false} HeaderBack(f: Frame)
    requires FrameOk(f)
    ensures var a, b := Header(f)[0], Header(f)[1];
      && (a >= 128 <==> f.fin) && a % 16 == f.opcode
      && ExtOf(b) == f.ext && MaskSize(b) == |MaskBytes(f)| && (f.ext == 0 ==> b % 128 == |f.payload|)
  {
  }

  /** What the frames make of a message begun with `msg`, of which `haveOp` and `isBin` are known. */
  function Built(fs: seq<Frame>, msg: seq<byte>, haveOp: bool, isBin: bool): (seq<byte>, bool) {
    (msg + DataOf(fs), if haveOp || !Says(fs) then isBin else IsBinary(fs))
  }

  lemma {:induction false} BuiltMore(fs: seq<Frame>, msg: seq<byte>, haveOp: bool, isBin: bool)
    requires fs != []
    ensures var f := fs[0];
      Built(fs, msg, haveOp, isBin) ==
        if DataFrame(f.opcode) then Built(fs[1..], msg + f.payload, haveOp || f.opcode != 0, Kind(haveOp, isBin, f.opcode))
        else Built(fs[1..], msg, haveOp, isBin)
  {
    var f, rest := fs[0], fs[1..];
    var m := if DataFrame(f.opcode) then f.payload else [];
    assert msg + (m + DataOf(rest)) == msg + m + DataOf(rest) && msg + [] == msg;
    assert forall i :: 0 < i < |fs| ==> fs[i] == rest[i - 1];
  }

  lemma {:induction false} BuiltNone(msg: seq<byte>, haveOp: bool, isBin: bool)
    ensures Built([], msg, haveOp, isBin) == (msg, isBin)
  {
    assert msg + DataOf([]) == msg && !Says([]);
  }

  lemma {:induction false} PingsMore(seen: seq<seq<byte>>, fs: seq<Frame>)
    requires fs != []
    ensures seen + PingsOf(fs) == (if fs[0].opcode == 9 then seen + [fs[0].payload] else seen) + PingsOf(fs[1..])
    ensures seen + PingsOf([]) == seen
  {
  }

  /** A well-formed message: its payloads put together, its kind, its pings, and its bytes. */
  lemma {:induction false} MessageBack(seen: seq<seq<byte>>, d: seq<byte>, p: nat, fs: seq<Frame>, msg: seq<byte>,
          haveOp: bool, isBin: bool)
    requires MessageOk(fs) && (forall i :: 0 <= i < |fs| ==> FrameOk(fs[i]))
    requires Shows(d, p, EncodeAll(fs)) && p + |EncodeAll(fs)| <= |d|
    ensures After(seen, d, p, msg, haveOp, isBin)
         == Received(p + |EncodeAll(fs)|, seen + PingsOf(fs), Some(Built(fs, msg, haveOp, isBin)))
    decreases |fs|
  {
    hide FrameAt, Shows, Encode, After, Receive, Built, PingsOf, Kind;
    var f, rest := fs[0], fs[1..];
    ShowsParts(d, p, Encode(f), EncodeAll(rest));
    FrameBack(d, p, f);
    AfterFrame(seen, d, p, msg, haveOp, isBin);
    BuiltMore(fs, msg, haveOp, isBin);
    PingsMore(seen, fs);
    if |fs| > 1 {
      var seen' := if f.opcode == 9 then seen + [f.payload] else seen;
      if DataFrame(f.opcode) {
        MessageBack(seen, d, p + |Encode(f)|, rest, msg + f.payload, haveOp
            || f.opcode != 0, Kind(haveOp, isBin, f.opcode));
      } else {
        MessageBack(seen', d, p + |Encode(f)|, rest, msg, haveOp, isBin);
      }
    } else {
      assert rest == [];
      BuiltNone(msg + f.payload, haveOp || f.opcode != 0, Kind(haveOp, isBin, f.opcode));
    }
  }

  predicate Says(fs: seq<Frame>) { exists i :: 0 <= i < |fs| && (fs[i].opcode == 1 || fs[i].opcode == 2) }

  /** Receiving a well-formed message, from wherever it starts and whatever follows. */
  lemma {:induction false} ReceivesMessage(d: seq<byte>, p: nat, fs: seq<Frame>)
    requires MessageOk(fs) && (forall i :: 0 <= i < |fs| ==> FrameOk(fs[i]))
    requires Shows(d, p, EncodeAll(fs)) && p + |EncodeAll(fs)| <= |d|
    ensures Receive(d, p, [], false, false)
         == Received(p + |EncodeAll(fs)|, PingsOf(fs), Some((DataOf(fs), IsBinary(fs))))
  {
    hide Shows, EncodeAll, Receive, After;
    MessageBack([], d, p, fs, [], false, false);
    AfterNone(d, p);
    assert [] + DataOf(fs) == DataOf(fs) && [] + PingsOf(fs) == PingsOf(fs);
    SilentIsText(fs);
  }

  lemma {:induction false} SilentIsText(fs: seq<Frame>)
    ensures !Says(fs) ==> !IsBinary(fs)
    decreases |fs|
  {
    if fs != [] {
      SilentIsText(fs[1..]);
      assert forall i :: 0 < i < |fs| ==> fs[i] == fs[1..][i - 1];
    }
  }

  /** What `SendFrame` writes is a final frame in the shortest length form that the peer reads as
      the opcode and payload that were sent. */
  lemma {:induction false} SentIsRead(opcode: nat, mask: seq<byte>, payload: seq<byte>)
    requires opcode < 16 && |mask| == 4 && |payload| < U64
    ensures var f := OutFrame(opcode, mask, payload); var s := Encode(f);
      && FrameAt(s, 0) == At(true, opcode, payload, |s|) && f.mask.Some?
      && forall g :: FrameOk(g) && g.payload == payload && g.mask.Some? ==> |s| <= |Encode(g)|
  {
    hide FrameAt, Encode;
    FrameBack(Encode(OutFrame(opcode, mask, payload)), 0, OutFrame(opcode, mask, payload));
  }

  // ---- the bytes of RFC 6455 ----

  /** Section 5.3: every bit of a payload byte is flipped by the mask's bit. */
  lemma {:induction false} MaskedBit(s: seq<byte>, mask: seq<byte>, i: nat, k: nat)
    requires |mask| == 4 && i < |s|
    ensures Bit(Masked(s, mask)[i], k) <==> Bit(s[i], k) != Bit(mask[i % 4], k)
  {
    OrXorBit(s[i], mask[i % 4], k);
  }

  /** Another byte behind the ones read, the most significant first. */
  function Big(high: nat, low: nat): nat { 256 * high + low }

  lemma {:induction false} ValueSnoc(s: seq<byte>, k: nat)
    requires k < |s|
    ensures Value(s[..k + 1]) == 256 * Value(s[..k]) + s[k]
  {
    assert s[..k + 1][..k] == s[..k];
  }

  lemma {:induction false} ValueOfTwo(s: seq<byte>)
    requires |s| == 2
    ensures Value(s) == Big(s[0], s[1])
  {
    hide Value;
    NoValue(s);
    ValueSnoc(s, 0);
    ValueSnoc(s, 1);
    assert s[..2] == s;
  }

  lemma {:induction false} ValueOfEight(s: seq<byte>)
    requires |s| == 8
    ensures Value(s) == Big(Big(Big(Big(Big(Big(Big(s[0], s[1]), s[2]), s[3]), s[4]), s[5]), s[6]), s[7])
  {
    hide Value;
    NoValue(s);
    ValueSnoc(s, 0); ValueSnoc(s, 1); ValueSnoc(s, 2); ValueSnoc(s, 3);
    ValueSnoc(s, 4); ValueSnoc(s, 5); ValueSnoc(s, 6); ValueSnoc(s, 7);
    assert s[..8] == s;
  }

  lemma {:induction false} NoValue(s: seq<byte>)
    ensures Value(s[..0]) == 0
  {
  }

  /** Section 5.2: where the fields of a frame stand. */
  lemma {:induction false} LayoutIs(f: Frame, s: seq<byte>)
    requires FrameOk(f) && s == Encode(f)
    ensures |s| == 2 + f.ext + (if f.mask.Some? then 4 else 0) + |f.payload|
    ensures s[0] == (if f.fin then 0x80 else 0) + f.opcode
    ensures s[1] == (if f.mask.Some? then 0x80 else 0) + (if f.ext == 0 then |f.payload| else if f.ext == 2 then 126 else 127)
    ensures f.ext == 2 ==> |f.payload| == Big(s[2], s[3])
    ensures f.ext == 8 ==> |f.payload| == Big(Big(Big(Big(Big(Big(Big(s[2], s[3]), s[4]), s[5]), s[6]), s[7]), s[8]), s[9])
    ensures f.mask.Some? ==> s[2 + f.ext..6 + f.ext] == f.mask.value && s[6 + f.ext..] == Masked(f.payload, f.mask.value)
    ensures f.mask.None? ==> s[2 + f.ext..] == f.payload
  {
    hide BigEndian, Value, Masked, Big;
    assert s[0] == Header(f)[0] && s[1] == Header(f)[1];
    assert s[2..2 + f.ext] == BigEndian(|f.payload|, f.ext);
    LengthBack(f);
    if f.ext == 2 { ValueOfTwo(s[2..4]); }
    if f.ext == 8 { ValueOfEight(s[2..10]); }
    if f.mask.Some? {
      assert s[2 + f.ext..6 + f.ext] == MaskBytes(f);
      assert s[6 + f.ext..] == OnWire(f);
    } else {
      assert s[2 + f.ext..] == OnWire(f);
    }
  }

  /** Sections 5.5.2 and 5.5.3: every ping is answered, in order, by a final masked pong with its payload. */
  lemma {:induction false} PongsAre(pings: seq<seq<byte>>, masks: Masks, from: nat, fs: seq<Frame>)
    requires MasksOk(masks) && Pingable(pings) && |fs| == |pings|
    requires forall i :: 0 <= i < |fs| ==>
      fs[i].fin && fs[i].opcode == 0xA && fs[i].mask == Some(masks(from + i)) && fs[i].payload == pings[i] && FrameOk(fs[i])
    requires forall i :: 0 <= i < |fs| ==> fs[i].ext == ShortestExt(|pings[i]|)
    ensures Pongs(pings, masks, from) == EncodeAll(fs)
    decreases |fs|
  {
    hide Encode;
    if fs != [] {
      assert fs[0] == OutFrame(10, masks(from), pings[0]);
      PongsAre(pings[1..], masks, from + 1, fs[1..]);
    }
  }

  /** Section 5.5.1: a close frame ends the connection, whatever unfinished message stands before it. */
  lemma {:induction false} ClosedIs(d: seq<byte>, p: nat, fs: seq<Frame>, msg: seq<byte>, haveOp: bool, isBin: bool)
    requires fs != [] && (forall i :: 0 <= i < |fs| ==> FrameOk(fs[i])) && fs[|fs| - 1].opcode == 8
    requires forall i :: 0 <= i < |fs| - 1 ==> fs[i].opcode != 8 && (fs[i].opcode <= 2 ==> !fs[i].fin)
    requires Shows(d, p, EncodeAll(fs)) && p + |EncodeAll(fs)| <= |d|
    ensures Receive(d, p, msg, haveOp, isBin) == Received(p + |EncodeAll(fs)|, PingsOf(fs), None)
    decreases |fs|
  {
    hide FrameAt, Shows, Encode, Kind, Receive, FrameOk;
    var f, rest := fs[0], fs[1..];
    ShowsParts(d, p, Encode(f), EncodeAll(rest));
    FrameBack(d, p, f);
    OneFrame(d, p, f, |Encode(f)|, msg, haveOp, isBin);
    if |fs| > 1 {
      var data := f.opcode <= 2;
      ClosedIs(d, p + |Encode(f)|, rest, if data then msg + f.payload else msg, haveOp || (data && f.opcode != 0),
               if data then Kind(haveOp, isBin, f.opcode) else isBin);
      assert [] + PingsOf(rest) == PingsOf(rest);
    } else {
      assert rest == [];
    }
  }

  /** One frame that does not end the message. */
  lemma {:induction false} OneFrame(d: seq<byte>, p: nat, f: Frame, size: nat, msg: seq<byte>, haveOp: bool, isBin: bool)
    requires p <= |d| && FrameAt(d, p) == At(f.fin, f.opcode, f.payload, size) && (f.opcode <= 2 ==> !f.fin)
    ensures f.opcode == 8 ==> Receive(d, p, msg, haveOp, isBin) == Received(p + size, [], None)
    ensures f.opcode <= 2 ==>
      Receive(d, p, msg, haveOp, isBin)
        == Receive(d, p + size, msg + f.payload, haveOp || f.opcode != 0, Kind(haveOp, isBin, f.opcode))
    ensures f.opcode > 2 && f.opcode != 8 ==>
      var r := Receive(d, p + size, msg, haveOp, isBin);
      Receive(d, p, msg, haveOp, isBin) == if f.opcode == 9 then r.(pings := [f.payload] + r.pings) else r
  {
    hide FrameAt, Kind;
  }
}

// The XMODEM sender, against every source and every stream of responses.

module Xmodem {
  import opened Crc16

  const SOH: bv8 := 0x01
  const EOT: bv8 := 0x04
  const ACK: bv8 := 0x06
  const NAK: bv8 := 0x15
  const CANX: bv8 := 0x18
  const CTRLZ: bv8 := 0x1A
  const CHAR_C: bv8 := 0x43
  const MAX_RETRY: nat := 10     // XMODEM_MAX_RETRY_COUNT
  const DATA: nat := 128         // XMODEM_PACKET_DATA_LEN
  const TX_BUF: nat := 133       // XMODEM_TX_BUF_LEN

  // ---- Packets ---------------------------------------------------------------------------

  // How many packets a source of n bytes takes.
  function PacketCount(n: nat): nat { n / DATA + 1 }

  // The i-th data byte of packet k: the source, then padding. A packet without any source byte
  // starts with the end mark and goes on with zeros, any other is filled up with end marks.
  function PayloadAt(src: seq<bv8>, k: nat, i: nat): bv8
  {
    if k * DATA + i < |src| then src[k * DATA + i]
    else if k * DATA < |src| || i == 0 then CTRLZ
    else 0
  }

  function Payload(src: seq<bv8>, k: nat): (p: seq<bv8>)
    ensures |p| == DATA
  {
    seq(DATA, i requires 0 <= i < DATA => PayloadAt(src, k, i))
  }

  // ucPacketNumber of packet k, an unsigned char.
  function Number(k: nat): bv8
  {
    if k == 0 then 1 else Number(k - 1) + 1
  }

  lemma Successor(x: bv8)
    ensures (x + 1) as int == (x as int + 1) % 256
  {
  }

  // Packet k carries k + 1 modulo 256.
  lemma {:induction false} NumberIs(k: nat)
    ensures Number(k) as int == (k + 1) % 256
  {
    if k > 0 {
      NumberIs(k - 1);
      Successor(Number(k - 1));
      NextModulo(k);
    }
  }

  lemma NextModulo(k: nat)
    ensures (k % 256 + 1) % 256 == (k + 1) % 256
  {
  }

  function Checksum(s: seq<bv8>): bv8
  {
    if s == [] then 0 else Checksum(s[..|s| - 1]) + s[|s| - 1]
  }

  function Trailer(data: seq<bv8>, crc: bool): seq<bv8>
  {
    if crc then [HighByte(Crc(data)), LowByteOf(Crc(data))] else [Checksum(data)]
  }

  function PacketLength(crc: bool): nat { if crc then DATA + 5 else DATA + 4 }

  function Packet(src: seq<bv8>, k: nat, crc: bool): (p: seq<bv8>)
    ensures |p| == PacketLength(crc)
  {
    [SOH, Number(k), !Number(k)] + Payload(src, k) + Trailer(Payload(src, k), crc)
  }

  // ---- The payloads make up the source -------------------------------------------------------

  function Payloads(src: seq<bv8>, n: nat): seq<bv8>
  {
    if n == 0 then [] else Payloads(src, n - 1) + Payload(src, n - 1)
  }

  // What follows the source in its last packet.
  function Padding(n: nat): (p: seq<bv8>)
    ensures |p| == DATA - n % DATA && p[0] == CTRLZ
  {
    seq(DATA - n % DATA, i requires 0 <= i < DATA - n % DATA => if n % DATA != 0 || i == 0 then CTRLZ else 0)
  }

  lemma {:induction false} FullPayloads(src: seq<bv8>, n: nat)
    requires n * DATA <= |src|
    ensures Payloads(src, n) == src[..n * DATA]
  {
    if n > 0 {
      FullPayloads(src, n - 1);
      assert Payload(src, n - 1) == src[(n - 1) * DATA..n * DATA];
      assert src[..n * DATA] == src[..(n - 1) * DATA] + src[(n - 1) * DATA..n * DATA];
    }
  }

  // The data of all packets is the source and then its padding, which begins with the end mark.
  lemma PayloadsAreSource(src: seq<bv8>)
    ensures Payloads(src, PacketCount(|src|)) == src + Padding(|src|)
    ensures |src + Padding(|src|)| == DATA * PacketCount(|src|)
  {
    var n := |src| / DATA;
    FullPayloads(src, n);
    assert Payload(src, n) == src[n * DATA..] + Padding(|src|);
    assert src == src[..n * DATA] + src[n * DATA..];
  }

  // ---- The receiver ------------------------------------------------------------------------------

  // What a receiver of packets checks: the mark, the number and its complement, and the trailer.
  predicate Sound(p: seq<bv8>, crc: bool)
  {
    && |p| == PacketLength(crc) && p[0] == SOH && p[1] ^ p[2] == 0xFF
    && (if crc then Crc(p[3..]) == 0 else p[DATA + 3] == Checksum(p[3..DATA + 3]))
  }

  // A receiver that expects packet next takes it, and drops a repetition of the one before.
  function Receive(packets: seq<seq<bv8>>, crc: bool): (seq<bv8>, nat)
  {
    if packets == [] then ([], 0)
    else
      var (data, next) := Receive(packets[..|packets| - 1], crc);
      var p := packets[|packets| - 1];
      if Sound(p, crc) && p[1] == Number(next) then (data + p[3..DATA + 3], next + 1) else (data, next)
  }

  // The packets on the line when packet k is sent tries[k] times.
  function Line(src: seq<bv8>, crc: bool, tries: seq<nat>): seq<seq<bv8>>
  {
    if tries == [] then []
    else Line(src, crc, tries[..|tries| - 1]) + Repeated(Packet(src, |tries| - 1, crc), tries[|tries| - 1])
  }

  function Repeated(p: seq<bv8>, n: nat): (r: seq<seq<bv8>>)
    ensures |r| == n
  {
    if n == 0 then [] else Repeated(p, n - 1) + [p]
  }

  lemma Complement(x: bv8)
    ensures x ^ !x == 0xFF
  {
  }

  // Every packet passes the receiver's checks.
  lemma PacketIsSound(src: seq<bv8>, k: nat, crc: bool)
    ensures Sound(Packet(src, k, crc), crc) && Packet(src, k, crc)[1] == Number(k)
    ensures Packet(src, k, crc)[3..DATA + 3] == Payload(src, k)
  {
    var data := Payload(src, k);
    var p := Packet(src, k, crc);
    Complement(Number(k));
    hide Number, Payload, Crc, Checksum, HighByte, LowByteOf;
    assert p[3..DATA + 3] == data;
    if crc {
      assert p[3..] == data + [HighByte(Crc(data)), LowByteOf(Crc(data))];
      AppendedCrcIsZero(data);
    }
  }

  lemma NextDiffers(k: nat)
    ensures Number(k + 1) != Number(k)
  {
  }

  lemma ReceiveMore(packets: seq<seq<bv8>>, p: seq<bv8>, crc: bool)
    ensures var (data, next) := Receive(packets, crc);
            Receive(packets + [p], crc) ==
              if Sound(p, crc) && p[1] == Number(next) then (data + p[3..DATA + 3], next + 1) else (data, next)
  {
    assert (packets + [p])[..|packets|] == packets;
  }

  // Sent once or more often, packet k is received once.
  lemma {:induction false} ReceiveRepeated(packets: seq<seq<bv8>>, src: seq<bv8>, k: nat, crc: bool, n: nat)
    requires n > 0 && Receive(packets, crc) == (Payloads(src, k), k)
    ensures Receive(packets + Repeated(Packet(src, k, crc), n), crc) == (Payloads(src, k + 1), k + 1)
  {
    var p := Packet(src, k, crc);
    PacketIsSound(src, k, crc);
    hide Packet, Payload, Sound, Receive, Number;
    if n == 1 {
      assert packets + Repeated(p, 1) == packets + [p];
      ReceiveMore(packets, p, crc);
    } else {
      ReceiveRepeated(packets, src, k, crc, n - 1);
      assert packets + Repeated(p, n) == packets + Repeated(p, n - 1) + [p];
      ReceiveMore(packets + Repeated(p, n - 1), p, crc);
      NextDiffers(k);
    }
  }

  ghost predicate AllSent(tries: seq<nat>) {
    forall k :: 0 <= k < |tries| ==> 1 <= tries[k] <= MAX_RETRY
  }

  // However often each packet is repeated, a receiver ends up with the data of all of them, once
  // and in order.
  lemma {:induction false} ReceiverGetsPayloads(src: seq<bv8>, crc: bool, tries: seq<nat>)
    requires AllSent(tries)
    ensures Receive(Line(src, crc, tries), crc) == (Payloads(src, |tries|), |tries|)
  {
    if tries != [] {
      hide Repeated, Packet, Payloads;
      var n := |tries| - 1;
      ReceiverGetsPayloads(src, crc, tries[..n]);
      hide Receive;
      ReceiveRepeated(Line(src, crc, tries[..n]), src, n, crc, tries[n]);
    }
  }

  // A transfer of all packets hands the receiver the source and its padding.
  lemma TransferDeliversSource(src: seq<bv8>, crc: bool, tries: seq<nat>)
    requires AllSent(tries) && |tries| == PacketCount(|src|)
    ensures Receive(Line(src, crc, tries), crc).0 == src + Padding(|src|)
  {
    ReceiverGetsPayloads(src, crc, tries);
    PayloadsAreSource(src);
  }

  // ---- The sender ------------------------------------------------------------------------------

  // The bytes of the packets, one after the other.
  function Bytes(packets: seq<seq<bv8>>): seq<bv8>
  {
    if packets == [] then [] else Bytes(packets[..|packets| - 1]) + packets[|packets| - 1]
  }

  lemma {:induction false} BytesAppend(a: seq<seq<bv8>>, b: seq<seq<bv8>>)
    ensures Bytes(a + b) == Bytes(a) + Bytes(b)
  {
    if b == [] {
      assert a + b == a;
    } else {
      assert (a + b)[..|a + b| - 1] == a + b[..|b| - 1];
      BytesAppend(a, b[..|b| - 1]);
    }
  }

  function Ends(n: nat): (e: seq<bv8>)
    ensures |e| == n
  {
    seq(n, i => EOT)
  }

  function Sum(tries: seq<nat>): nat
  {
    if tries == [] then 0 else Sum(tries[..|tries| - 1]) + tries[|tries| - 1]
  }

  // Every packet was acknowledged at its last try, and neither acknowledged nor cancelled before.
  ghost predicate Acknowledged(responses: nat -> bv8, start: nat, tries: seq<nat>)
  {
    forall k {:trigger Sum(tries[..k])} :: 0 <= k < |tries| ==> Tried(responses, start + Sum(tries[..k]), tries[k], ACK)
  }

  // n tries of one packet from response i on, the last one answered by last.
  ghost predicate Tried(responses: nat -> bv8, i: nat, n: nat, last: bv8)
  {
    n > 0 && responses(i + n - 1) == last && Unanswered(responses, i, n - 1)
  }

  ghost predicate Unanswered(responses: nat -> bv8, i: nat, n: nat)
  {
    forall j :: i <= j < i + n ==> responses(j) != ACK && responses(j) != CANX
  }

  // Nobody asked for a transmission.
  ghost predicate NoRequest(responses: nat -> bv8, i: nat, n: nat)
  {
    forall j :: i <= j < i + n ==> responses(j) != CHAR_C && responses(j) != NAK
  }

  // All packets but the last one in tries were acknowledged.
  ghost predicate AllBefore(responses: nat -> bv8, start: nat, tries: seq<nat>)
  {
    tries != [] && Acknowledged(responses, start, tries[..|tries| - 1])
  }

  // The last packet in tries was cancelled.
  ghost predicate CancelledLast(responses: nat -> bv8, start: nat, tries: seq<nat>)
  {
    tries != [] && Tried(responses, start + Sum(tries[..|tries| - 1]), tries[|tries| - 1], CANX)
  }

  // The last packet in tries was sent ten times for nothing.
  ghost predicate RefusedLast(responses: nat -> bv8, start: nat, tries: seq<nat>)
  {
    && tries != [] && tries[|tries| - 1] == MAX_RETRY
    && Unanswered(responses, start + Sum(tries[..|tries| - 1]), MAX_RETRY)
  }

  datatype Answer = Acked | Cancelled | Exhausted

  class Sender {
    const src: seq<bv8>
    const responses: nat -> bv8
    const txBuf: array<bv8>      // ucTxBuf
    var heard: nat               // responses read so far
    var sent: seq<bv8>           // bytes written so far

    constructor (source: seq<bv8>, stream: nat -> bv8)
      ensures src == source && responses == stream && fresh(txBuf) && txBuf.Length == TX_BUF && heard == 0 && sent == []
    {
      src, responses, heard, sent := source, stream, 0, [];
      txBuf := new bv8[TX_BUF](i => 0);
    }

    method PortIn() returns (c: bv8)
      modifies this`heard
      ensures c == responses(old(heard)) && heard == old(heard) + 1
    {
      c := responses(heard);
      heard := heard + 1;
    }

    method PortOut(b: bv8)
      modifies this`sent
      ensures sent == old(sent) + [b]
    {
      sent := sent + [b];
    }

    // Up to ten responses are read for a request: 1 asks for CRCs, 0 for checksums.
    method AwaitRequest() returns (crc: int)
      modifies this`heard
      ensures crc == -1 || crc == 0 || crc == 1
      ensures crc == -1 ==> heard == old(heard) + MAX_RETRY && NoRequest(responses, old(heard), MAX_RETRY)
      ensures crc != -1 ==>
                && old(heard) < heard <= old(heard) + MAX_RETRY
                && NoRequest(responses, old(heard), heard - 1 - old(heard))
                && responses(heard - 1) == if crc == 1 then CHAR_C else NAK
    {
      var retry := 0;
      while retry < MAX_RETRY
        invariant retry <= MAX_RETRY && heard == old(heard) + retry && NoRequest(responses, old(heard), retry)
      {
        var c := PortIn();
        if c == CHAR_C {
          return 1;
        }
        if c == NAK {
          return 0;
        }
        retry := retry + 1;
      }
      crc := -1;
    }

    // The packet is built in the transmit buffer.
    method FillPacket(len: nat, number: bv8, crc: bool, ghost k: nat)
      requires txBuf.Length == TX_BUF && len == k * DATA <= |src| && number == Number(k)
      modifies txBuf
      ensures txBuf[..PacketLength(crc)] == Packet(src, k, crc)
    {
      hide Number, Payload, Trailer;
      txBuf[0], txBuf[1], txBuf[2] := SOH, number, !number;
      assert txBuf[..3] == [SOH, number, !number];
      var c := |src| - len;
      if c > DATA {
        c := DATA;
      }
      FillData(len, c, k);
      FillTrailer(crc, Payload(src, k));
      ThreeParts(txBuf[..], 3, DATA + 3, PacketLength(crc));
    }

    // The check bytes of the data in the buffer.
    method FillTrailer(crc: bool, ghost data: seq<bv8>)
      requires txBuf.Length == TX_BUF && txBuf[3..DATA + 3] == data
      modifies txBuf
      ensures txBuf[..3] == old(txBuf[..3]) && txBuf[3..DATA + 3] == data
      ensures txBuf[DATA + 3..PacketLength(crc)] == Trailer(data, crc)
    {
      hide Crc, Checksum, HighByte, LowByteOf;
      if crc {
        var ccrc := XmodemCrc16(txBuf[3..DATA + 3]);
        txBuf[DATA + 3], txBuf[DATA + 4] := HighByte(ccrc), LowByteOf(ccrc);
      } else {
        var ccks := SumBytes();
        txBuf[DATA + 3] := ccks;
      }
    }

    // The data part: c bytes of the source from len on, padded.
    method FillData(len: nat, c: nat, ghost k: nat)
      requires txBuf.Length == TX_BUF && len == k * DATA <= |src|
      requires c == if |src| - len > DATA then DATA else |src| - len
      modifies txBuf
      ensures txBuf[..3] == old(txBuf[..3]) && txBuf[3..DATA + 3] == Payload(src, k)
    {
      forall i | 3 <= i < DATA + 3 {
        txBuf[i] := 0;
      }
      if c == 0 {
        txBuf[3] := CTRLZ;
      } else {
        forall i | 3 <= i < 3 + c {
          txBuf[i] := src[len + i - 3];
        }
        if c < DATA {
          var i := 3 + c;
          while i < 3 + DATA
            invariant 3 + c <= i <= 3 + DATA
            invariant txBuf[..3] == old(txBuf[..3])
            invariant forall j :: 3 <= j < 3 + c ==> txBuf[j] == src[len + j - 3]
            invariant forall j :: 3 + c <= j < i ==> txBuf[j] == CTRLZ
          {
            txBuf[i] := CTRLZ;
            i := i + 1;
          }
        }
      }
      assert forall i :: 0 <= i < DATA ==> txBuf[3 + i] == PayloadAt(src, k, i);
    }

    // The checksum of the data in the buffer.
    method SumBytes() returns (ccks: bv8)
      requires txBuf.Length == TX_BUF
      ensures ccks == Checksum(txBuf[3..DATA + 3])
    {
      ccks := 0;
      var i := 3;
      while i < DATA + 3
        invariant 3 <= i <= DATA + 3 && ccks == Checksum(txBuf[3..i])
      {
        assert txBuf[3..i + 1][..i - 3] == txBuf[3..i];
        ccks := ccks + txBuf[i];
        i := i + 1;
      }
    }

    // One copy of the packet goes out.
    method PutBuffer(n: nat)
      requires n <= txBuf.Length
      modifies this`sent
      ensures sent == old(sent) + txBuf[..n]
    {
      var i := 0;
      while i < n
        invariant i <= n && sent == old(sent) + txBuf[..i]
      {
        PortOut(txBuf[i]);
        assert txBuf[..i + 1] == txBuf[..i] + [txBuf[i]];
        i := i + 1;
      }
    }

    // One try of a packet: it goes out, and a response comes in.
    method TryPacket(crc: bool, ghost p: seq<bv8>) returns (c: bv8)
      requires txBuf.Length == TX_BUF && p == txBuf[..PacketLength(crc)]
      modifies this`sent, this`heard
      ensures sent == old(sent) + p && heard == old(heard) + 1 && c == responses(old(heard))
    {
      PutBuffer(if crc then DATA + 5 else DATA + 4);
      c := PortIn();
    }

    // The packet is sent until it is acknowledged or cancelled, ten times at most.
    method SendPacket(crc: bool, ghost p: seq<bv8>) returns (a: Answer, ghost tries: nat)
      requires txBuf.Length == TX_BUF && p == txBuf[..PacketLength(crc)]
      modifies this`sent, this`heard
      ensures 1 <= tries <= MAX_RETRY && heard == old(heard) + tries && sent == old(sent) + Bytes(Repeated(p, tries))
      ensures a == Acked ==> Tried(responses, old(heard), tries, ACK)
      ensures a == Cancelled ==> Tried(responses, old(heard), tries, CANX)
      ensures a == Exhausted ==> tries == MAX_RETRY && Unanswered(responses, old(heard), MAX_RETRY)
    {
      hide Bytes, Repeated, Tried, Unanswered;
      ghost var before, start := sent, heard;
      NoTry(responses, start, before, p);
      var retry := 0;
      tries := 0;
      while retry < MAX_RETRY
        invariant retry <= MAX_RETRY && tries == retry && heard == start + retry && p == txBuf[..PacketLength(crc)]
        invariant sent == before + Bytes(Repeated(p, retry)) && Unanswered(responses, start, retry)
      {
        var c := TryPacket(crc, p);
        OneTry(responses, start, retry, before, p);
        tries := tries + 1;
        if c == ACK {
          return Acked, tries;
        }
        if c == CANX {
          return Cancelled, tries;
        }
        retry := retry + 1;
      }
      a := Exhausted;
    }

    // The end mark is sent until it is acknowledged, ten times at most.
    method SendEnd() returns (acked: bool, ghost ends: nat)
      modifies this`sent, this`heard
      ensures 1 <= ends <= MAX_RETRY && heard == old(heard) + ends && sent == old(sent) + Ends(ends)
      ensures forall j :: old(heard) <= j < old(heard) + ends - 1 ==> responses(j) != ACK
      ensures acked <==> responses(heard - 1) == ACK
      ensures !acked ==> ends == MAX_RETRY
    {
      var retry := 0;
      ends := 0;
      acked := false;
      while retry < MAX_RETRY
        invariant retry <= MAX_RETRY && ends == retry && heard == old(heard) + ends && sent == old(sent) + Ends(ends)
        invariant !acked && forall j :: old(heard) <= j < old(heard) + ends ==> responses(j) != ACK
      {
        PortOut(EOT);
        var c := PortIn();
        ends := ends + 1;
        assert Ends(ends) == Ends(ends - 1) + [EOT];
        if c == ACK {
          return true, ends;
        }
        retry := retry + 1;
      }
    }

    // Everything up to and including the packets in tries has been sent.
    ghost predicate Progress(start: nat, before: seq<bv8>, crc: bool, tries: seq<nat>)
      reads this
    {
      && AllSent(tries) && Acknowledged(responses, start, tries) && heard == start + Sum(tries)
      && sent == before + Bytes(Line(src, crc, tries))
    }

    // One more packet is built and sent.
    method NextPacket(len: nat, number: bv8, crc: bool, ghost start: nat, ghost before: seq<bv8>, ghost tries: seq<nat>)
      returns (a: Answer, ghost n: nat)
      requires txBuf.Length == TX_BUF && len == |tries| * DATA <= |src| && number == Number(|tries|)
      requires Progress(start, before, crc, tries)
      modifies this`sent, this`heard, txBuf
      ensures AllSent(tries + [n]) && sent == before + Bytes(Line(src, crc, tries + [n]))
      ensures AllBefore(responses, start, tries + [n])
      ensures a == Acked ==> Progress(start, before, crc, tries + [n])
      ensures a == Cancelled ==> CancelledLast(responses, start, tries + [n])
      ensures a == Exhausted ==> RefusedLast(responses, start, tries + [n])
    {
      hide Line, Bytes, Repeated, Packet, Acknowledged, Tried, Unanswered, Sum, AllSent, Number;
      FillPacket(len, number, crc, |tries|);
      a, n := SendPacket(crc, Packet(src, |tries|, crc));
      More(src, crc, tries, n);
      assert (tries + [n])[..|tries + [n]| - 1] == tries;
      if a == Acked {
        MoreAcknowledged(responses, start, tries, n);
      }
    }

    lemma ProgressBegins(crc: bool)
      ensures Progress(heard, sent, crc, []) && Number(0) == 1 && PacketCount(|src|) > 0
    {
      Begin(src, crc, responses, heard, sent);
      hide Acknowledged, AllSent, Bytes, Line, Sum;
    }

    lemma ProgressSays(start: nat, before: seq<bv8>, crc: bool, tries: seq<nat>)
      requires Progress(start, before, crc, tries)
      ensures AllSent(tries) && Acknowledged(responses, start, tries) && heard == start + Sum(tries)
      ensures sent == before + Bytes(Line(src, crc, tries))
    {
    }

    // All packets, until one is cancelled (0) or not taken (-2).
    method SendPackets(crc: bool) returns (code: int, len: nat, ghost tries: seq<nat>)
      requires txBuf.Length == TX_BUF
      modifies this`sent, this`heard, txBuf
      ensures code == 1 || code == 0 || code == -2
      ensures 0 < |tries| <= PacketCount(|src|) && AllSent(tries) && sent == old(sent) + Bytes(Line(src, crc, tries))
      ensures AllBefore(responses, old(heard), tries)
      ensures code == 0 ==> CancelledLast(responses, old(heard), tries)
      ensures code == -2 ==> RefusedLast(responses, old(heard), tries)
      ensures code == 1 ==>
                && Acknowledged(responses, old(heard), tries) && heard == old(heard) + Sum(tries)
                && |tries| == PacketCount(|src|) && len == DATA * PacketCount(|src|)
    {
      hide Line, Bytes, Acknowledged, AllBefore, CancelledLast, RefusedLast, Sum, AllSent, Number, PacketCount;
      hide Progress;
      ghost var start, before := heard, sent;
      var number: bv8 := 1;
      len, tries := 0, [];
      ProgressBegins(crc);
      while |src| - len >= 0
        invariant len == |tries| * DATA && |tries| <= PacketCount(|src|) && number == Number(|tries|)
        invariant Progress(start, before, crc, tries)
        decreases |src| + DATA - len
      {
        ghost var k := |tries|;
        var a, n := NextPacket(len, number, crc, start, before, tries);
        tries := tries + [n];
        Fits(k, |src|);
        if a == Cancelled {
          return 0, len, tries;
        }
        if a == Exhausted {
          return -2, len, tries;
        }
        NextNumber(k);
        number := number + 1;
        len := len + DATA;
      }
      Fits(|tries|, |src|);
      ProgressSays(start, before, crc, tries);
      AllButLast(responses, start, tries);
      code := 1;
    }

    // LOS_xModemTransmit: 0 when the receiver cancels, -1, -2 and -3 when it never asks, never
    // takes a packet or never takes the end; otherwise the number of data bytes sent. No packet
    // is skipped: all but perhaps the last were acknowledged.
    method Transmit() returns (ret: int, ghost start: nat, ghost crc: bool, ghost tries: seq<nat>, ghost ends: nat)
      requires txBuf.Length == TX_BUF
      modifies this`sent, this`heard, txBuf
      ensures ret == -1 || ret == 0 || ret == -2 || ret == -3 || ret == DATA * PacketCount(|src|)
      ensures ret == -1 ==>
                && NoRequest(responses, old(heard), MAX_RETRY) && sent == old(sent)
                && heard == old(heard) + MAX_RETRY
      ensures ret != -1 ==>
                && old(heard) < start <= old(heard) + MAX_RETRY && responses(start - 1) == (if crc then CHAR_C else NAK)
                && 0 < |tries| <= PacketCount(|src|) && AllSent(tries) && ends <= MAX_RETRY
                && sent == old(sent) + Bytes(Line(src, crc, tries)) + Ends(ends)
                && AllBefore(responses, start, tries)
      ensures ret == 0 ==> ends == 0 && CancelledLast(responses, start, tries)
      ensures ret == -2 ==> ends == 0 && RefusedLast(responses, start, tries)
      ensures ret == -3 || ret > 0 ==>
                && |tries| == PacketCount(|src|) && Acknowledged(responses, start, tries)
                && heard == start + Sum(tries) + ends
                && (ret > 0 <==> responses(heard - 1) == ACK)
      ensures ret == -3 ==> ends == MAX_RETRY
    {
      hide Line, Bytes, Acknowledged, AllBefore, CancelledLast, RefusedLast, NoRequest, Sum, AllSent, Ends;
      start, crc, tries, ends := 0, false, [], 0;
      var mode := AwaitRequest();
      if mode == -1 {
        return -1, start, crc, tries, ends;
      }
      start, crc := heard, mode == 1;
      var code, len;
      code, len, tries := SendPackets(mode == 1);
      NoEnds(sent);
      if code != 1 {
        return code, start, crc, tries, 0;
      }
      var acked;
      acked, ends := SendEnd();
      ret := if acked then len else -3;
    }
  }

  lemma ThreeParts(s: seq<bv8>, a: nat, b: nat, n: nat)
    requires a <= b <= n <= |s|
    ensures s[..n] == s[..a] + s[a..b] + s[b..n]
  {
  }

  lemma NoTry(responses: nat -> bv8, i: nat, before: seq<bv8>, p: seq<bv8>)
    ensures before + Bytes(Repeated(p, 0)) == before && Unanswered(responses, i, 0)
  {
  }

  // The next try of a packet and its response.
  lemma OneTry(responses: nat -> bv8, i: nat, n: nat, before: seq<bv8>, p: seq<bv8>)
    requires Unanswered(responses, i, n)
    ensures before + Bytes(Repeated(p, n)) + p == before + Bytes(Repeated(p, n + 1))
    ensures responses(i + n) == ACK ==> Tried(responses, i, n + 1, ACK)
    ensures responses(i + n) == CANX ==> Tried(responses, i, n + 1, CANX)
    ensures responses(i + n) != ACK && responses(i + n) != CANX ==> Unanswered(responses, i, n + 1)
  {
    OneMore(p, n);
  }

  lemma Begin(src: seq<bv8>, crc: bool, responses: nat -> bv8, start: nat, sent: seq<bv8>)
    ensures AllSent([]) && Acknowledged(responses, start, []) && Sum([]) == 0 && Number(0) == 1
    ensures sent + Bytes(Line(src, crc, [])) == sent && Ends(0) == [] && 0 < PacketCount(|src|)
  {
  }

  lemma NoEnds(s: seq<bv8>)
    ensures s + Ends(0) == s
  {
  }

  lemma NextNumber(k: nat)
    ensures Number(k + 1) == Number(k) + 1
  {
  }

  lemma Fits(k: nat, n: nat)
    ensures k * DATA <= n ==> k + 1 <= PacketCount(n)
    ensures k * DATA > n && k <= PacketCount(n) ==> k == PacketCount(n)
  {
  }

  lemma More(src: seq<bv8>, crc: bool, tries: seq<nat>, n: nat)
    requires AllSent(tries) && 1 <= n <= MAX_RETRY
    ensures AllSent(tries + [n]) && Sum(tries + [n]) == Sum(tries) + n
    ensures Bytes(Line(src, crc, tries + [n])) ==
              Bytes(Line(src, crc, tries)) + Bytes(Repeated(Packet(src, |tries|, crc), n))
    ensures Ends(0) == []
  {
    assert (tries + [n])[..|tries|] == tries;
    BytesAppend(Line(src, crc, tries), Repeated(Packet(src, |tries|, crc), n));
  }

  lemma MoreAcknowledged(responses: nat -> bv8, start: nat, tries: seq<nat>, n: nat)
    requires Acknowledged(responses, start, tries) && Tried(responses, start + Sum(tries), n, ACK)
    ensures Acknowledged(responses, start, tries + [n])
  {
    hide Tried, Sum;
    forall k | 0 <= k < |tries| + 1
      ensures Tried(responses, start + Sum((tries + [n])[..k]), (tries + [n])[k], ACK)
    {
      assert (tries + [n])[..k] == tries[..k];
      assert k == |tries| ==> tries[..k] == tries;
    }
  }

  lemma AllButLast(responses: nat -> bv8, start: nat, tries: seq<nat>)
    requires Acknowledged(responses, start, tries) && tries != []
    ensures AllBefore(responses, start, tries)
  {
    hide Tried, Sum;
    forall k | 0 <= k < |tries| - 1
      ensures Tried(responses, start + Sum(tries[..|tries| - 1][..k]), tries[k], ACK)
    {
      assert tries[..|tries| - 1][..k] == tries[..k];
    }
  }

  lemma OneMore(p: seq<bv8>, n: nat)
    ensures Bytes(Repeated(p, n + 1)) == Bytes(Repeated(p, n)) + p
  {
    var r := Repeated(p, n + 1);
    assert r[..|r| - 1] == Repeated(p, n) && r[|r| - 1] == p;
  }
}

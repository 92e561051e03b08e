/** Reading and writing packets on a connection that may take writes in pieces. */
module PacketReadWriters {
  import opened PacketFraming
  import opened Options

  type uint32 = n: nat | n < TWO_32

  /** What a coming write does: take up to so many bytes, or fail after taking some. */
  datatype Piece = Takes(n: nat) | FailsAfter(n: nat)

  type Schedule = seq<Piece>

  class Conn {
    var inbox: Bytes
    var outbox: Bytes
    const schedule: Schedule
    var calls: nat

    constructor (inbox: Bytes, schedule: Schedule)
      ensures this.inbox == inbox && outbox == [] && this.schedule == schedule && calls == 0
    {
      this.inbox, outbox, this.schedule, calls := inbox, [], schedule, 0;
    }

    /** One write; without a scheduled piece it fails. */
    method Send(q: Bytes) returns (n: nat, ok: bool)
      modifies `outbox, `calls
      ensures n <= |q| && outbox == old(outbox) + q[..n] && calls == old(calls) + 1
      ensures ok == (old(calls) < |schedule| && schedule[old(calls)].Takes?)
      ensures ok ==> n == if schedule[old(calls)].n < |q| then schedule[old(calls)].n else |q|
    {
      ok, n := false, 0;
      if calls < |schedule| {
        n := if schedule[calls].n < |q| then schedule[calls].n else |q|;
        ok := schedule[calls].Takes?;
      }
      outbox := outbox + q[..n];
      calls := calls + 1;
    }

    /** Fills a buffer of the given size or fails, using up what there was. */
    method ReadFull(size: nat) returns (buffer: Bytes, ok: bool)
      modifies `inbox
      ensures ok == (size <= |old(inbox)|)
      ensures ok ==> buffer == old(inbox)[..size] && inbox == old(inbox)[size..]
      ensures !ok ==> inbox == []
    {
      if |inbox| < size {
        buffer := inbox;
        inbox := [];
        return buffer, false;
      }
      buffer := inbox[..size];
      inbox := inbox[size..];
      return buffer, true;
    }
  }

  method PutUint32(l: array<byte>, v: nat)
    requires l.Length == 4 && v < TWO_32
    modifies l
    ensures l[..] == BigEndian(v)
    ensures l[0] == v / 0x100_0000 && l[1] == v / 0x1_0000 % 0x100 && l[2] == v / 0x100 % 0x100 && l[3] == v % 0x100
  {
    l[0] := v / 256 / 256 / 256;
    l[1] := v / 256 / 256 % 256;
    l[2] := v / 256 % 256;
    l[3] := v % 256;
    var a, b, c := v / 256, v / 256 / 256, v / 256 / 256 / 256;
    assert Digits(v, 4) == Digits(a, 3) + [l[3]];
    assert Digits(a, 3) == Digits(b, 2) + [l[2]];
    assert Digits(b, 2) == Digits(c, 1) + [l[1]];
    assert c % 256 == c && Digits(c, 1) == [] + [l[0]];
  }

  /** From call number `from`, the next writes make progress, and there are enough of them. */
  predicate Progresses(schedule: Schedule, from: nat, size: nat) {
    from + size <= |schedule| && forall i | from <= i < from + size :: schedule[i].Takes? && schedule[i].n > 0
  }

  /** The next writes take one byte each. */
  predicate Bytewise(schedule: Schedule, from: nat, size: nat) {
    from + size <= |schedule| && forall i | from <= i < from + size :: schedule[i] == Takes(1)
  }

  /** How many bytes were appended. */
  function Appended(before: Bytes, after: Bytes): int {
    |after| - |before|
  }

  ghost predicate IsPrefixSent(p: Bytes, before: Bytes, after: Bytes) {
    0 <= Appended(before, after) <= |p| && after == before + p[..Appended(before, after)]
  }

  /** What has been sent of `p`, when the 32-bit counter stands at `written`. */
  ghost predicate Sending(p: Bytes, before: Bytes, after: Bytes, written: nat) {
    var e := Appended(before, after);
    && 0 <= e && written == e % TWO_32
    && (e < TWO_32 || |p| < TWO_32 ==> IsPrefixSent(p, before, after))
  }

  lemma SendingStep(p: Bytes, before: Bytes, after: Bytes, written: nat, n: nat)
    requires Sending(p, before, after, written) && written + n <= |p|
    ensures Sending(p, before, after + p[written..][..n], (written + n) % TWO_32)
  {
    var e := Appended(before, after);
    assert p[..written] + p[written..][..n] == p[..written + n];
    assert (e + n) % TWO_32 == (written + n) % TWO_32;
  }

  /** Writes everything, piece by piece; the counters are 32 bits wide. A failure leaves a prefix.
      For a payload of 2^32 bytes or more, success only means that at least |p| bytes were written
      modulo 2^32: from a connection that takes single bytes no more than those get out. */
  method Write(w: Conn, p: Bytes) returns (ok: bool)
    modifies w`outbox, w`calls
    ensures |p| < TWO_32 ==> IsPrefixSent(p, old(w.outbox), w.outbox) && (ok ==> w.outbox == old(w.outbox) + p)
    ensures var e := Appended(old(w.outbox), w.outbox);
            && 0 <= e && (e < TWO_32 ==> IsPrefixSent(p, old(w.outbox), w.outbox))
            && (ok ==> e % TWO_32 >= |p| % TWO_32)
    ensures |p| < TWO_32 && Progresses(w.schedule, old(w.calls), |p|) ==> ok && w.calls <= old(w.calls) + |p|
    ensures w.calls >= old(w.calls)
    ensures Bytewise(w.schedule, old(w.calls), |p| % TWO_32) ==>
              ok && w.outbox == old(w.outbox) + p[..|p| % TWO_32]
  {
    var total := |p| % TWO_32;
    var written: nat := 0;
    ghost var before := w.outbox;
    while written < total
      invariant old(w.calls) <= w.calls && Sending(p, before, w.outbox, written)
      invariant |p| < TWO_32 && Progresses(w.schedule, old(w.calls), |p|) ==> w.calls - old(w.calls) <= written
      invariant Bytewise(w.schedule, old(w.calls), total) ==>
                  w.calls - old(w.calls) == Appended(before, w.outbox) <= total
      decreases |w.schedule| - w.calls
    {
      ghost var after := w.outbox;
      var n, sent := w.Send(p[written..]);
      SendingStep(p, before, after, written, n);
      if !sent {
        return false;
      }
      written := (written + n) % TWO_32;
    }
    assert |p| < TWO_32 ==> p[..written] == p;
    return true;
  }

  /** Writes the header, then the payload. A failure leaves a prefix of the frame. However long the
      payload, the header announces its length modulo 2^32. */
  method WriteAnyPacket(conn: Conn, p: Bytes) returns (ok: bool)
    modifies conn`outbox, conn`calls
    ensures |p| < TWO_32 ==>
              && IsPrefixSent(Frame(p), old(conn.outbox), conn.outbox)
              && (ok ==> conn.outbox == old(conn.outbox) + Frame(p))
    ensures |p| < TWO_32 && Progresses(conn.schedule, old(conn.calls), |Frame(p)|) ==> ok
    ensures var e := Appended(old(conn.outbox), conn.outbox);
            && 0 <= e && (e < TWO_32 ==> IsPrefixSent(Frame(p), old(conn.outbox), conn.outbox))
            && (ok ==> e >= 4 && (e - 4) % TWO_32 >= |p| % TWO_32)
  {
    ghost var before := conn.outbox;
    var l := new byte[4];
    PutUint32(l, |p| % TWO_32);
    var header := l[..];
    ok := Write(conn, header);
    if !ok {
      HeaderPrefix(p, before, conn.outbox);
      return;
    }
    ghost var middle := conn.outbox;
    ok := Write(conn, p);
    PayloadPrefix(p, before, middle, conn.outbox);
  }

  lemma HeaderPrefix(p: Bytes, before: Bytes, after: Bytes)
    requires IsPrefixSent(BigEndian(|p| % TWO_32), before, after)
    ensures IsPrefixSent(Frame(p), before, after)
  {
    var e := Appended(before, after);
    assert Frame(p)[..e] == BigEndian(|p| % TWO_32)[..e];
  }

  lemma PayloadPrefix(p: Bytes, before: Bytes, middle: Bytes, after: Bytes)
    requires middle == before + BigEndian(|p| % TWO_32)
    ensures IsPrefixSent(p, middle, after) ==> IsPrefixSent(Frame(p), before, after)
    ensures after == middle + p ==> after == before + Frame(p)
  {
    if IsPrefixSent(p, middle, after) {
      var e := Appended(middle, after);
      assert Frame(p)[..4 + e] == BigEndian(|p| % TWO_32) + p[..e];
    }
  }

  /** Reads one packet of any length. */
  method ReadAnyPacket(conn: Conn) returns (p: Option<Bytes>)
    modifies conn`inbox
    ensures match Read(old(conn.inbox), 0, TWO_32 - 1)
            case Packet(payload, rest) => p == Some(payload) && conn.inbox == rest
            case BadLength(_) => false
            case Truncated => p.None? && conn.inbox == []
  {
    ghost var input := conn.inbox;
    var l, gotLength := conn.ReadFull(4);
    if !gotLength {
      return None;
    }
    var n := FromBigEndian(l);
    HeaderUnique(l);
    var payload, gotPayload := conn.ReadFull(n);
    if !gotPayload {
      return None;
    }
    assert input[4..][..n] == input[4..4 + n] && input[4..][n..] == input[4 + n..];
    return Some(payload);
  }

  class PacketReadWriter {
    const minLen: uint32
    const maxLen: uint32

    constructor (minLen: uint32, maxLen: uint32)
      requires minLen <= maxLen
      ensures this.minLen == minLen && this.maxLen == maxLen
    {
      this.minLen, this.maxLen := minLen, maxLen;
    }

    method ReadPacket(conn: Conn) returns (p: Option<Bytes>)
      modifies conn`inbox
      ensures match Read(old(conn.inbox), minLen, maxLen)
              case Packet(payload, rest) => p == Some(payload) && conn.inbox == rest
              case BadLength(_) => p.None? && conn.inbox == old(conn.inbox)[4..]
              case Truncated => p.None? && conn.inbox == []
    {
      ghost var input := conn.inbox;
      var l, gotLength := conn.ReadFull(4);
      if !gotLength {
        return None;
      }
      var n := FromBigEndian(l);
      if n < minLen || n > maxLen {
        return None;
      }
      var payload, gotPayload := conn.ReadFull(n);
      if !gotPayload {
        return None;
      }
      assert input[4..][..n] == input[4..4 + n] && input[4..][n..] == input[4 + n..];
      return Some(payload);
    }

    /** Refuses a packet outside the bounds without writing anything. */
    method WritePacket(conn: Conn, p: Bytes) returns (ok: bool)
      modifies conn`outbox, conn`calls
      ensures !(minLen <= |p| <= maxLen) ==> !ok && conn.outbox == old(conn.outbox)
      ensures minLen <= |p| <= maxLen ==>
                IsPrefixSent(Frame(p), old(conn.outbox), conn.outbox)
                && (ok ==> conn.outbox == old(conn.outbox) + Frame(p))
      ensures minLen <= |p| <= maxLen && Progresses(conn.schedule, old(conn.calls), |Frame(p)|) ==> ok
    {
      if |p| < minLen || |p| > maxLen {
        return false;
      }
      ok := WriteAnyPacket(conn, p);
    }

    method EncryptAndWritePacket(conn: Conn, p: Bytes, encrypt: Bytes -> Option<Bytes>) returns (ok: bool)
      modifies conn`outbox, conn`calls
      ensures match encrypt(p)
              case None => !ok && conn.outbox == old(conn.outbox)
              case Some(c) =>
                && (!(minLen <= |c| <= maxLen) ==> !ok && conn.outbox == old(conn.outbox))
                && (minLen <= |c| <= maxLen ==>
                      IsPrefixSent(Frame(c), old(conn.outbox), conn.outbox)
                      && (ok ==> conn.outbox == old(conn.outbox) + Frame(c)))
                && (minLen <= |c| <= maxLen && Progresses(conn.schedule, old(conn.calls), |Frame(c)|) ==> ok)
    {
      match encrypt(p)
      case None => return false;
      case Some(encrypted) => ok := WritePacket(conn, encrypted);
    }

    method ReadAndDecryptPacket(conn: Conn, decrypt: Bytes -> Option<Bytes>) returns (p: Option<Bytes>)
      modifies conn`inbox
      ensures match Read(old(conn.inbox), minLen, maxLen)
              case Packet(payload, rest) => p == decrypt(payload) && conn.inbox == rest
              case BadLength(_) => p.None? && conn.inbox == old(conn.inbox)[4..]
              case Truncated => p.None? && conn.inbox == []
    {
      var read := ReadPacket(conn);
      match read
      case None => return None;
      case Some(payload) => return decrypt(payload);
    }
  }
}

/** Length-prefixed packets: the frame format and what can be read back from a byte stream. */
module PacketFraming {
  import opened Options

  type byte = x: int | 0 <= x < 256
  type Bytes = seq<byte>

  const TWO_32: nat := 0x1_0000_0000

  datatype ReadResult = Packet(payload: Bytes, rest: Bytes) | BadLength(announced: nat) | Truncated

  /** The last `width` digits of a number in base 256, the most significant first. */
  function Digits(n: nat, width: nat): (d: Bytes)
    ensures |d| == width
  {
    if width == 0 then [] else Digits(n / 256, width - 1) + [n % 256]
  }

  function Value(d: Bytes): nat {
    if d == [] then 0
    else
      var last: int := d[|d| - 1];
      256 * Value(d[..|d| - 1]) + last
  }

  function BigEndian(n: nat): (l: Bytes)
    requires n < TWO_32
    ensures |l| == 4
  {
    Digits(n, 4)
  }

  function FromBigEndian(l: Bytes): nat
    requires |l| == 4
  {
    Value(l)
  }

  /** The header holds the length modulo 2^32, as a conversion to 32 bits does. */
  function Frame(p: Bytes): (f: Bytes)
    ensures |f| == 4 + |p|
  {
    BigEndian(|p| % TWO_32) + p
  }

  function Frames(ps: seq<Bytes>): Bytes {
    if ps == [] then [] else Frame(ps[0]) + Frames(ps[1..])
  }

  /** Reads one packet whose announced length must lie within the bounds. */
  function Read(input: Bytes, lo: nat, hi: nat): ReadResult {
    if |input| < 4 then Truncated
    else
      var n := FromBigEndian(input[..4]);
      if n < lo || n > hi then BadLength(n)
      else if |input| < 4 + n then Truncated
      else Packet(input[4..4 + n], input[4 + n..])
  }

  /** Reads packets until the first read that yields none. */
  function ReadAll(input: Bytes, lo: nat, hi: nat): (seq<Bytes>, Bytes)
    decreases |input|
  {
    match Read(input, lo, hi)
    case Packet(p, rest) =>
      var (more, left) := ReadAll(rest, lo, hi);
      ([p] + more, left)
    case _ => ([], input)
  }

  lemma ValueOfDigits(n: nat, width: nat)
    ensures Value(Digits(n, width + 1)) == 256 * Value(Digits(n / 256, width)) + n % 256
  {
    assert Digits(n, width + 1)[..width] == Digits(n / 256, width);
  }

  lemma HeaderRoundTrip(n: nat)
    requires n < TWO_32
    ensures FromBigEndian(BigEndian(n)) == n
  {
    var a := n / 256;
    var b := a / 256;
    var c := b / 256;
    ValueOfDigits(n, 3);
    ValueOfDigits(a, 2);
    ValueOfDigits(b, 1);
    ValueOfDigits(c, 0);
    assert c < 256 && c / 256 == 0;
  }

  lemma {:induction false} DigitsOfValue(d: Bytes)
    ensures Digits(Value(d), |d|) == d
  {
    if d != [] {
      var front, last: int := d[..|d| - 1], d[|d| - 1];
      DigitsOfValue(front);
      assert Value(d) == 256 * Value(front) + last;
      assert Value(d) / 256 == Value(front) && Value(d) % 256 == last;
      assert d == front + [d[|d| - 1]];
    }
  }

  lemma HeaderUnique(l: Bytes)
    requires |l| == 4
    ensures FromBigEndian(l) < TWO_32 && BigEndian(FromBigEndian(l)) == l
  {
    var l3 := l[..3];
    var l2 := l3[..2];
    var l1 := l2[..1];
    var a: int, b: int, c: int, d: int := l[0], l[1], l[2], l[3];
    assert l1[..0] == [] && Value(l1) == a;
    assert Value(l2) == 256 * Value(l1) + b;
    assert Value(l3) == 256 * Value(l2) + c;
    assert Value(l) == 256 * Value(l3) + d;
    DigitsOfValue(l);
  }

  /** The frame byte by byte: the length modulo 2^32, most significant byte first, then the packet. */
  lemma FrameIs(p: Bytes)
    ensures var n := |p| % TWO_32;
            Frame(p) == [n / 0x100_0000, n / 0x1_0000 % 0x100, n / 0x100 % 0x100, n % 0x100] + p
  {
    var n := |p| % TWO_32;
    var a, b, c := n / 256, n / 256 / 256, n / 256 / 256 / 256;
    assert Digits(n, 4) == Digits(a, 3) + [n % 256];
    assert Digits(a, 3) == Digits(b, 2) + [a % 256];
    assert Digits(b, 2) == Digits(c, 1) + [b % 256];
    assert Digits(c, 1) == [] + [c % 256];
    assert n / 0x1_0000 == b && n / 0x100_0000 == c;
  }

  /** A frame at the head of a stream reads back as its packet exactly when the packet's length
      is within the bounds and fits the header. */
  lemma FrameReadsBackIff(p: Bytes, rest: Bytes, lo: nat, hi: nat)
    ensures Read(Frame(p) + rest, lo, hi) == Packet(p, rest) <==> lo <= |p| <= hi && |p| < TWO_32
  {
    var input := Frame(p) + rest;
    assert input[..4] == BigEndian(|p| % TWO_32);
    HeaderRoundTrip(|p| % TWO_32);
    if |p| < TWO_32 {
      assert input[4..4 + |p|] == p && input[4 + |p|..] == rest;
    }
  }

  /** Whatever reads as a packet began with exactly that packet's frame. */
  lemma ReadIsFrame(input: Bytes, lo: nat, hi: nat)
    requires Read(input, lo, hi).Packet?
    ensures var r := Read(input, lo, hi);
            input == Frame(r.payload) + r.rest && lo <= |r.payload| <= hi && |r.payload| < TWO_32
  {
    var n := FromBigEndian(input[..4]);
    HeaderUnique(input[..4]);
    var p := input[4..4 + n];
    assert |p| % TWO_32 == n == |p|;
    assert Frame(p) == input[..4] + p;
    assert input == input[..4] + p + input[4 + n..];
  }

  /** A whole packet that does not respect the bounds is refused, by its announced length. */
  lemma OutOfBoundsIsRefused(p: Bytes, rest: Bytes, lo: nat, hi: nat)
    requires |p| < TWO_32 && !(lo <= |p| <= hi)
    ensures Read(Frame(p) + rest, lo, hi) == BadLength(|p|)
  {
    assert (Frame(p) + rest)[..4] == BigEndian(|p|);
    HeaderRoundTrip(|p|);
  }

  /** No proper prefix of a frame yields a packet: what is missing is the reason, unless the length
      is already known to be out of bounds. */
  lemma TruncatedYieldsNothing(p: Bytes, cut: nat, lo: nat, hi: nat)
    requires |p| < TWO_32 && cut < |Frame(p)|
    ensures !Read(Frame(p)[..cut], lo, hi).Packet?
    ensures Read(Frame(p)[..cut], lo, hi) == if cut < 4 || lo <= |p| <= hi then Truncated else BadLength(|p|)
  {
    if cut >= 4 {
      var input := Frame(p)[..cut];
      assert input[..4] == BigEndian(|p|);
      HeaderRoundTrip(|p|);
      assert |input| < 4 + FromBigEndian(input[..4]);
    }
  }

  lemma {:induction false} ReadAllFrames(ps: seq<Bytes>, tail: Bytes, lo: nat, hi: nat)
    requires forall i | 0 <= i < |ps| :: lo <= |ps[i]| <= hi && |ps[i]| < TWO_32
    requires !Read(tail, lo, hi).Packet?
    ensures ReadAll(Frames(ps) + tail, lo, hi) == (ps, tail)
  {
    if ps == [] {
      assert Frames(ps) + tail == tail;
    } else {
      assert Frames(ps) + tail == Frame(ps[0]) + (Frames(ps[1..]) + tail);
      FrameReadsBackIff(ps[0], Frames(ps[1..]) + tail, lo, hi);
      ReadAllFrames(ps[1..], tail, lo, hi);
      assert ps == [ps[0]] + ps[1..];
    }
  }

  lemma {:induction false} ReadAllSplits(input: Bytes, lo: nat, hi: nat)
    ensures var (ps, tail) := ReadAll(input, lo, hi);
            && input == Frames(ps) + tail && !Read(tail, lo, hi).Packet?
            && forall i | 0 <= i < |ps| :: lo <= |ps[i]| <= hi && |ps[i]| < TWO_32
    decreases |input|
  {
    match Read(input, lo, hi)
    case Packet(p, rest) =>
      ReadIsFrame(input, lo, hi);
      ReadAllSplits(rest, lo, hi);
      var (more, left) := ReadAll(rest, lo, hi);
      assert ([p] + more)[1..] == more;
      assert input == Frame(p) + (Frames(more) + left) == Frames([p] + more) + left;
    case _ =>
      assert Frames([]) + input == input;
  }

  /** Framing is a bijection between streams and packet lists within the bounds followed by a
      tail that holds no packet. */
  lemma FramingIsBijective(input: Bytes, ps: seq<Bytes>, tail: Bytes, lo: nat, hi: nat)
    ensures ReadAll(input, lo, hi) == (ps, tail) <==>
            && input == Frames(ps) + tail
            && !Read(tail, lo, hi).Packet?
            && forall i | 0 <= i < |ps| :: lo <= |ps[i]| <= hi && |ps[i]| < TWO_32
  {
    if ReadAll(input, lo, hi) == (ps, tail) {
      ReadAllSplits(input, lo, hi);
    }
    if input == Frames(ps) + tail && !Read(tail, lo, hi).Packet?
       && forall i | 0 <= i < |ps| :: lo <= |ps[i]| <= hi && |ps[i]| < TWO_32 {
      ReadAllFrames(ps, tail, lo, hi);
    }
  }

  /** A stream cut inside the last frame still yields every packet before it, and nothing else. */
  lemma CutStreamYieldsWholePackets(ps: seq<Bytes>, p: Bytes, cut: nat, lo: nat, hi: nat)
    requires |p| < TWO_32 && cut < |Frame(p)|
    requires forall i | 0 <= i < |ps| :: lo <= |ps[i]| <= hi && |ps[i]| < TWO_32
    ensures ReadAll(Frames(ps) + Frame(p)[..cut], lo, hi) == (ps, Frame(p)[..cut])
  {
    TruncatedYieldsNothing(p, cut, lo, hi);
    ReadAllFrames(ps, Frame(p)[..cut], lo, hi);
  }

  // ----- encryption -----

  /** Decryption undoes encryption, wherever encryption succeeds. */
  ghost predicate Undoes(decrypt: Bytes -> Option<Bytes>, encrypt: Bytes -> Option<Bytes>) {
    forall m :: encrypt(m).Some? ==> decrypt(encrypt(m).value) == Some(m)
  }

  /** The ciphertexts the sender gets out: the first message that cannot be encrypted or framed
      ends the stream. */
  function Encrypted(ms: seq<Bytes>, lo: nat, hi: nat, encrypt: Bytes -> Option<Bytes>): (cs: seq<Bytes>)
    ensures |cs| <= |ms|
  {
    if ms == [] then []
    else match encrypt(ms[0])
      case Some(c) => if lo <= |c| <= hi then [c] + Encrypted(ms[1..], lo, hi, encrypt) else []
      case None => []
  }

  /** The messages the receiver gets out of the packets it read. */
  function Decrypted(cs: seq<Bytes>, decrypt: Bytes -> Option<Bytes>): seq<Bytes> {
    if cs == [] then []
    else match decrypt(cs[0])
      case Some(m) => [m] + Decrypted(cs[1..], decrypt)
      case None => []
  }

  predicate Sendable(m: Bytes, lo: nat, hi: nat, encrypt: Bytes -> Option<Bytes>) {
    encrypt(m).Some? && lo <= |encrypt(m).value| <= hi
  }

  /** The sender gets out the ciphertexts of all messages before the first one that cannot be sent. */
  lemma {:induction false} EncryptsUpToTheFirstFailure(ms: seq<Bytes>, lo: nat, hi: nat,
                                                       encrypt: Bytes -> Option<Bytes>)
    ensures var cs := Encrypted(ms, lo, hi, encrypt);
            && (forall i | 0 <= i < |cs| :: Sendable(ms[i], lo, hi, encrypt) && cs[i] == encrypt(ms[i]).value)
            && (|cs| < |ms| ==> !Sendable(ms[|cs|], lo, hi, encrypt))
  {
    if ms != [] && Sendable(ms[0], lo, hi, encrypt) {
      EncryptsUpToTheFirstFailure(ms[1..], lo, hi, encrypt);
    }
  }

  lemma {:induction false} DecryptsWhatWasEncrypted(ms: seq<Bytes>, lo: nat, hi: nat,
                                                    encrypt: Bytes -> Option<Bytes>, decrypt: Bytes -> Option<Bytes>)
    requires Undoes(decrypt, encrypt)
    ensures var cs := Encrypted(ms, lo, hi, encrypt);
            && Decrypted(cs, decrypt) == ms[..|cs|]
            && forall i | 0 <= i < |cs| :: lo <= |cs[i]| <= hi
  {
    var cs := Encrypted(ms, lo, hi, encrypt);
    if cs != [] {
      DecryptsWhatWasEncrypted(ms[1..], lo, hi, encrypt, decrypt);
      assert cs[1..] == Encrypted(ms[1..], lo, hi, encrypt);
      assert ms[..|cs|] == [ms[0]] + ms[1..][..|cs| - 1];
    }
  }

  /** The receiver gets exactly the messages the sender got out whole, in order, even when a last
      frame is cut short. */
  lemma ReceivesWhatWasSent(ms: seq<Bytes>, lo: nat, hi: nat, partial: Bytes,
                            encrypt: Bytes -> Option<Bytes>, decrypt: Bytes -> Option<Bytes>)
    requires hi < TWO_32 && Undoes(decrypt, encrypt) && !Read(partial, lo, hi).Packet?
    ensures var cs := Encrypted(ms, lo, hi, encrypt);
            Decrypted(ReadAll(Frames(cs) + partial, lo, hi).0, decrypt) == ms[..|cs|]
  {
    var cs := Encrypted(ms, lo, hi, encrypt);
    DecryptsWhatWasEncrypted(ms, lo, hi, encrypt, decrypt);
    ReadAllFrames(cs, partial, lo, hi);
  }
}

/**
 Packets prefixed with their length. The first bytes of a packet are swapped to its end, so that
 the length can take their place without moving the rest.
 */
module Framing {

  import opened Wrappers

  type byte = b: nat | b < 256

  type Bytes = seq<byte>

  // ---------------------------------------------------------------------------------------
  // Little-endian lengths
  // ---------------------------------------------------------------------------------------

  function Pow256(n: nat): (p: nat)
    ensures p >= 1
  {
    if n == 0 then 1 else 256 * Pow256(n - 1)
  }

  /** The low `n` bytes of `v`, least significant first. */
  function ToLittleEndian(v: nat, n: nat): (b: Bytes)
    ensures |b| == n
  {
    if n == 0 then [] else [v % 256] + ToLittleEndian(v / 256, n - 1)
  }

  function FromLittleEndian(b: Bytes): nat {
    if b == [] then 0 else b[0] + 256 * FromLittleEndian(b[1..])
  }

  lemma {:induction false} LittleEndianBack(v: nat, n: nat)
    requires v < Pow256(n)
    ensures FromLittleEndian(ToLittleEndian(v, n)) == v
  {
    if n != 0 {
      LittleEndianBack(v / 256, n - 1);
      assert ToLittleEndian(v, n)[1..] == ToLittleEndian(v / 256, n - 1);
    }
  }

  // ---------------------------------------------------------------------------------------
  // The assembler
  // ---------------------------------------------------------------------------------------

  /** `PacketWithLenAssembler`: the number of length bytes and the longest packet it takes. */
  datatype Assembler = Assembler(lenBytes: nat, maxDataLen: nat) {
    ghost predicate Valid() {
      0 < lenBytes <= 3 && 0 < maxDataLen && maxDataLen + lenBytes < Pow256(lenBytes)
    }
  }

  /** The default assembler: three length bytes, packets up to 2^24 - 1 bytes in all. */
  const DEFAULT: Assembler := Assembler(3, 0xFF_FFFF - 3)

  lemma DefaultIsValid()
    ensures DEFAULT.Valid()
  {
  }

  /** The bytes on the wire for a packet. */
  function Frame(a: Assembler, data: Bytes): (f: Bytes)
    ensures |f| == a.lenBytes + |data|
  {
    if |data| >= a.lenBytes then
      ToLittleEndian(|data|, a.lenBytes) + data[a.lenBytes..] + data[..a.lenBytes]
    else
      ToLittleEndian(|data|, a.lenBytes) + data
  }

  predicate Splits(v: nat, p: nat, low: nat, d: byte, high: nat) {
    low < p && v == low + p * (d + 256 * high)
  }

  /** `d` is the digit of weight `p` of `v` in base 256. */
  ghost predicate IsDigit(v: nat, p: nat, d: byte) {
    exists low, high :: Splits(v, p, low, d, high)
  }

  lemma SplitShifts(v: nat, u: nat, first: byte, p: nat, low: nat, d: byte, high: nat)
    requires v == first + 256 * u && Splits(u, p, low, d, high)
    ensures Splits(v, 256 * p, first + 256 * low, d, high)
  {
    assert 256 * (p * (d + 256 * high)) == (256 * p) * (d + 256 * high);
  }

  lemma DigitShifts(v: nat, p: nat, d: byte)
    requires IsDigit(v / 256, p, d)
    ensures IsDigit(v, 256 * p, d)
  {
    var low, high :| Splits(v / 256, p, low, d, high);
    SplitShifts(v, v / 256, v % 256, p, low, d, high);
  }

  /** Byte `i` of a length is its digit of weight 256^i. */
  lemma {:induction false} LittleEndianDigit(v: nat, n: nat, i: nat)
    requires i < n
    ensures IsDigit(v, Pow256(i), ToLittleEndian(v, n)[i])
  {
    if i == 0 {
      assert Splits(v, 1, 0, v % 256, v / 256);
    } else {
      LittleEndianDigit(v / 256, n - 1, i - 1);
      DigitShifts(v, Pow256(i - 1), ToLittleEndian(v, n)[i]);
    }
  }

  /**
   On the wire, the length comes first, least significant byte first. Then come the bytes of the
   packet at their own places, and at the end those whose places the length took.
   */
  lemma FrameLayout(a: Assembler, data: Bytes, i: nat)
    requires i < a.lenBytes + |data|
    ensures var b := Frame(a, data)[i];
            if i < a.lenBytes then IsDigit(|data|, Pow256(i), b)
            else if |data| < a.lenBytes then b == data[i - a.lenBytes]
            else if i < |data| then b == data[i]
            else b == data[i - |data|]
  {
    if i < a.lenBytes {
      LittleEndianDigit(|data|, a.lenBytes, i);
    }
  }

  /** `assemble`, on the packet's own vector; a packet that is too long is refused. */
  method Assemble(a: Assembler, data: Bytes) returns (ok: bool, frame: Bytes)
    requires a.Valid()
    ensures ok == (|data| <= a.maxDataLen)
    ensures frame == if ok then Frame(a, data) else data
  {
    frame := data;
    if |frame| > a.maxDataLen {
      return false, data;
    }
    // The first bytes go to the end.
    var swapped := if |frame| < a.lenBytes then frame else frame[..a.lenBytes];
    var dataLen := |frame|;
    frame := frame + seq(a.lenBytes, _ => 0);
    // The length takes their place.
    frame := ToLittleEndian(dataLen, a.lenBytes) + frame[a.lenBytes..];
    var start := |frame| - |swapped|;
    frame := frame[..start] + swapped;
    ok := true;
  }

  /** `load`: the first packet of the buffer and what is left, once the packet is complete. */
  method Load(a: Assembler, buf: Bytes) returns (packet: Option<Bytes>, rest: Bytes)
    requires a.Valid()
    ensures packet == Loaded(a, buf) && rest == Left(a, buf)
  {
    rest := buf;
    if |rest| < a.lenBytes {
      return None, buf;
    }
    var dataSize := FromLittleEndian(rest[..a.lenBytes]);
    if |rest| < a.lenBytes + dataSize {
      return None, buf;
    }
    var p := rest[..a.lenBytes + dataSize];
    rest := rest[a.lenBytes + dataSize..];
    if dataSize >= a.lenBytes {
      // The last bytes are the swapped ones.
      var swapped := p[dataSize..];
      p := p[..dataSize];
      p := swapped + p[a.lenBytes..];
      assert p == buf[dataSize..a.lenBytes + dataSize] + buf[a.lenBytes..dataSize];
    } else {
      p := p[a.lenBytes..];
    }
    packet := Some(p);
  }

  /** How many bytes the first frame of the buffer takes, when it is complete. */
  function FirstFrame(a: Assembler, buf: Bytes): (size: Option<nat>)
    ensures size.Some? ==> a.lenBytes <= size.value <= |buf|
  {
    if |buf| < a.lenBytes then None
    else
      var size := a.lenBytes + FromLittleEndian(buf[..a.lenBytes]);
      if |buf| < size then None else Some(size)
  }

  function Loaded(a: Assembler, buf: Bytes): Option<Bytes> {
    match FirstFrame(a, buf)
    case None => None
    case Some(size) =>
      var dataSize := size - a.lenBytes;
      if dataSize >= a.lenBytes then Some(buf[dataSize..size] + buf[a.lenBytes..dataSize])
      else Some(buf[a.lenBytes..size])
  }

  function Left(a: Assembler, buf: Bytes): Bytes {
    match FirstFrame(a, buf)
    case None => buf
    case Some(size) => buf[size..]
  }

  lemma {:induction false} LittleEndianForth(b: Bytes)
    ensures FromLittleEndian(b) < Pow256(|b|) && ToLittleEndian(FromLittleEndian(b), |b|) == b
  {
    if b != [] {
      LittleEndianForth(b[1..]);
      var high := FromLittleEndian(b[1..]);
      LowByte(b[0], high);
      assert ToLittleEndian(b[0] + 256 * high, |b|) == [b[0]] + b[1..];
    }
  }

  lemma LowByte(low: byte, high: nat)
    ensures (low + 256 * high) % 256 == low && (low + 256 * high) / 256 == high
  {
  }

  lemma FourParts(buf: Bytes, i: nat, j: nat, k: nat)
    requires i <= j <= k <= |buf|
    ensures buf == buf[..i] + buf[i..j] + buf[j..k] + buf[k..]
  {
  }

  /** What is loaded, framed again, is what was taken from the buffer. */
  lemma FrameLoaded(a: Assembler, buf: Bytes)
    requires a.Valid() && Loaded(a, buf).Some?
    ensures |Loaded(a, buf).value| < Pow256(a.lenBytes)
    ensures buf == Frame(a, Loaded(a, buf).value) + Left(a, buf)
  {
    var n, data := a.lenBytes, Loaded(a, buf).value;
    LittleEndianForth(buf[..n]);
    assert |data| == FromLittleEndian(buf[..n]);
    assert ToLittleEndian(|data|, n) == buf[..n];
    if |data| >= n {
      assert data[..n] == buf[|data|..n + |data|];
      assert data[n..] == buf[n..|data|];
      FourParts(buf, n, |data|, n + |data|);
    } else {
      FourParts(buf, n, n + |data|, n + |data|);
    }
  }

  /** Loading undoes framing, whatever follows the frame. */
  lemma LoadFrame(a: Assembler, data: Bytes, rest: Bytes)
    requires a.Valid() && |data| < Pow256(a.lenBytes)
    ensures Loaded(a, Frame(a, data) + rest) == Some(data) && Left(a, Frame(a, data) + rest) == rest
  {
    var n, buf := a.lenBytes, Frame(a, data) + rest;
    assert buf[..n] == ToLittleEndian(|data|, n);
    LittleEndianBack(|data|, n);
    assert FirstFrame(a, buf) == Some(n + |data|);
    assert buf[n + |data|..] == rest;
    if |data| >= n {
      assert buf[|data|..n + |data|] == data[..n];
      assert buf[n..|data|] == data[n..];
      assert data == data[..n] + data[n..];
    } else {
      assert buf[n..n + |data|] == data;
    }
  }

  /** A packet is loaded exactly when the buffer starts with its frame. */
  lemma LoadedIff(a: Assembler, buf: Bytes, data: Bytes, rest: Bytes)
    requires a.Valid()
    ensures (Loaded(a, buf) == Some(data) && Left(a, buf) == rest)
       <==> (|data| < Pow256(a.lenBytes) && buf == Frame(a, data) + rest)
  {
    if Loaded(a, buf) == Some(data) {
      FrameLoaded(a, buf);
    }
    if |data| < Pow256(a.lenBytes) && buf == Frame(a, data) + rest {
      LoadFrame(a, data, rest);
    }
  }
}

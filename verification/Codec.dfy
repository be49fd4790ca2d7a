/** The integer codec of evk/buffer.h on a little-endian host: appending and
    prepending 8-, 16-, 32- and 64-bit two's complement integers in network order,
    and reading them back. */
module Codec {
  import opened Common
  import opened Layouts
  import opened Buffers

  datatype Width = W8 | W16 | W32 | W64 {
    function Size(): nat {
      match this
      case W8 => 1
      case W16 => 2
      case W32 => 4
      case W64 => 8
    }

    /** The number of values of this width. */
    function Count(): nat { Pow256(Size()) }
  }

  datatype Field = Field(width: Width, value: int) {
    predicate Fits() { -(width.Count() as int) <= 2 * value < width.Count() }
  }

  function Pow256(n: nat): (p: nat)
    ensures p > 0
  { if n == 0 then 1 else 256 * Pow256(n - 1) }

  /** The memory image of the n-byte word v: lowest byte first. */
  function HostBytes(n: nat, v: nat): (s: seq<byte>)
    ensures |s| == n
  { if n == 0 then [] else [(v % 256) as byte] + HostBytes(n - 1, v / 256) }

  function HostValue(s: seq<byte>): (v: nat)
    ensures v < Pow256(|s|)
  { if s == [] then 0 else s[0] as nat + 256 * HostValue(s[1..]) }

  function Reverse(s: seq<byte>): (r: seq<byte>)
    ensures |r| == |s|
    ensures forall i :: 0 <= i < |s| ==> r[i] == s[|s| - 1 - i]
  { if s == [] then [] else Reverse(s[1..]) + [s[0]] }

  /** htons and htonl (and their inverses) on a little-endian host. */
  function SwapBytes(n: nat, v: nat): (r: nat)
    ensures r < Pow256(n)
  { HostValue(Reverse(HostBytes(n, v))) }

  /** The macro `bswap_64`. */
  function Bswap64(x: bv64): bv64 {
    ((x & 0xff00000000000000) >> 56)
    | ((x & 0x00ff000000000000) >> 40)
    | ((x & 0x0000ff0000000000) >> 24)
    | ((x & 0x000000ff00000000) >> 8)
    | ((x & 0x00000000ff000000) << 8)
    | ((x & 0x0000000000ff0000) << 24)
    | ((x & 0x000000000000ff00) << 40)
    | ((x & 0x00000000000000ff) << 56)
  }

  function Low(x: bv64): bv8 { (x & 0xff) as bv8 }

  function LowByte(x: bv64): byte { Low(x) as byte }

  /** The memory image of a 64-bit word: lowest byte first. */
  function Image(x: bv64): seq<byte> {
    [LowByte(x), LowByte(x >> 8), LowByte(x >> 16), LowByte(x >> 24),
     LowByte(x >> 32), LowByte(x >> 40), LowByte(x >> 48), LowByte(x >> 56)]
  }

  /** The byte-order conversion the source applies at each width; at 64 bits it is the
      macro, see BswapIsNetOrder. */
  function NetOrder(w: Width, v: nat): nat {
    match w
    case W8 => v
    case _ => SwapBytes(w.Size(), v)
  }

  function Unsigned(f: Field): nat
    requires f.Fits()
  { if f.value < 0 then f.value + f.width.Count() else f.value }

  function Signed(w: Width, v: nat): int { if 2 * v < w.Count() then v else v - w.Count() }

  /** Two's complement: a non-negative value is its own word, and every value is its word
      up to a multiple of the number of words. Back, the value is the one of that kind in
      the width's range. */
  lemma TwosComplement(f: Field)
    requires f.Fits()
    ensures Unsigned(f) < f.width.Count() && (0 <= f.value ==> Unsigned(f) == f.value)
    ensures Unsigned(f) == f.value || Unsigned(f) == f.value + f.width.Count()
  {
  }

  lemma SignedInRange(w: Width, v: nat)
    requires v < w.Count()
    ensures Field(w, Signed(w, v)).Fits()
    ensures Signed(w, v) == v || Signed(w, v) == v - w.Count()
  {
  }

  /** The network form of an integer: its bytes, lowest first, reversed. */
  function Encode(f: Field): (s: seq<byte>)
    requires f.Fits()
    ensures |s| == f.width.Size()
  { Reverse(HostBytes(f.width.Size(), Unsigned(f))) }

  function Decode(w: Width, s: seq<byte>): int
    requires |s| == w.Size()
  { Signed(w, HostValue(Reverse(s))) }

  lemma {:induction false} HostValueOfBytes(n: nat, v: nat)
    requires v < Pow256(n)
    ensures HostValue(HostBytes(n, v)) == v
  {
    if n > 0 {
      HostValueOfBytes(n - 1, v / 256);
      assert HostBytes(n, v)[1..] == HostBytes(n - 1, v / 256);
    }
  }

  lemma {:induction false} HostBytesOfValue(s: seq<byte>)
    ensures HostBytes(|s|, HostValue(s)) == s
  {
    if s != [] {
      var v := HostValue(s);
      assert v % 256 == s[0] as nat && v / 256 == HostValue(s[1..]);
      HostBytesOfValue(s[1..]);
      assert s == [s[0]] + s[1..];
    }
  }

  lemma DivUnique(v: nat, d: nat, q: nat, r: nat)
    requires v == d * q + r && r < d
    ensures v / d == q
  {
    var k := v / d - q;
    assert d * k == r - v % d;
    assert k >= 1 ==> d * k >= d;
    assert k <= -1 ==> d * k + d <= 0;
  }

  lemma DivDiv(v: nat, p: nat)
    requires p > 0
    ensures v / 256 / p == v / (256 * p)
  {
    var q, r := v / 256 / p, v / 256 % p;
    assert v == 256 * (p * q + r) + v % 256;
    assert v == (256 * p) * q + (256 * r + v % 256);
    DivUnique(v, 256 * p, q, 256 * r + v % 256);
  }

  lemma {:induction false} HostByteAt(n: nat, v: nat, i: nat)
    requires i < n
    ensures HostBytes(n, v)[i] as nat == v / Pow256(i) % 256
  {
    if i > 0 {
      HostByteAt(n - 1, v / 256, i - 1);
      DivDiv(v, Pow256(i - 1));
    }
  }

  lemma BswapBytes(x: bv64)
    ensures Low(Bswap64(x)) == Low(x >> 56) && Low(Bswap64(x) >> 8) == Low(x >> 48)
    ensures Low(Bswap64(x) >> 16) == Low(x >> 40) && Low(Bswap64(x) >> 24) == Low(x >> 32)
    ensures Low(Bswap64(x) >> 32) == Low(x >> 24) && Low(Bswap64(x) >> 40) == Low(x >> 16)
    ensures Low(Bswap64(x) >> 48) == Low(x >> 8) && Low(Bswap64(x) >> 56) == Low(x)
  {
  }

  lemma EightReversed(a: byte, b: byte, c: byte, d: byte, e: byte, f: byte, g: byte, h: byte)
    ensures Reverse([a, b, c, d, e, f, g, h]) == [h, g, f, e, d, c, b, a]
  {
  }

  lemma SameLow(x: bv64, y: bv64)
    requires LowByte(x) == LowByte(y)
    ensures Low(x) == Low(y)
  {
  }

  lemma SameOctets(x: bv64, y: bv64)
    requires Low(x) == Low(y) && Low(x >> 8) == Low(y >> 8) && Low(x >> 16) == Low(y >> 16)
    requires Low(x >> 24) == Low(y >> 24) && Low(x >> 32) == Low(y >> 32) && Low(x >> 40) == Low(y >> 40)
    requires Low(x >> 48) == Low(y >> 48) && Low(x >> 56) == Low(y >> 56)
    ensures x == y
  {
  }

  /** A word is known by its image. */
  lemma ImageIsInjective(x: bv64, y: bv64)
    requires Image(x) == Image(y)
    ensures x == y
  {
    var s, t := Image(x), Image(y);
    assert s[0] == t[0] && s[1] == t[1] && s[2] == t[2] && s[3] == t[3];
    assert s[4] == t[4] && s[5] == t[5] && s[6] == t[6] && s[7] == t[7];
    SameLow(x, y);
    SameLow(x >> 8, y >> 8);
    SameLow(x >> 16, y >> 16);
    SameLow(x >> 24, y >> 24);
    SameLow(x >> 32, y >> 32);
    SameLow(x >> 40, y >> 40);
    SameLow(x >> 48, y >> 48);
    SameLow(x >> 56, y >> 56);
    SameOctets(x, y);
  }

  /** The macro reverses the eight bytes of the word, */
  lemma BswapReverses(x: bv64)
    ensures Image(Bswap64(x)) == Reverse(Image(x))
  {
    BswapBytes(x);
    EightReversed(LowByte(x), LowByte(x >> 8), LowByte(x >> 16), LowByte(x >> 24),
                  LowByte(x >> 32), LowByte(x >> 40), LowByte(x >> 48), LowByte(x >> 56));
  }

  /** and so swaps its value. */
  lemma BswapIsNetOrder(x: bv64)
    ensures HostValue(Image(Bswap64(x))) == NetOrder(W64, HostValue(Image(x)))
  {
    BswapReverses(x);
    HostBytesOfValue(Image(x));
  }

  lemma NetOrderSwaps(w: Width, v: nat)
    requires v < w.Count()
    ensures NetOrder(w, v) == SwapBytes(w.Size(), v)
  {
    match w
    case W8 =>
      HostValueOfBytes(1, v);
      assert Reverse(HostBytes(1, v)) == HostBytes(1, v);
    case _ =>
  }

  /** What the source writes into memory is the network form. */
  lemma SwappedImage(w: Width, v: nat)
    requires v < w.Count()
    ensures HostBytes(w.Size(), NetOrder(w, v)) == Reverse(HostBytes(w.Size(), v))
  {
    NetOrderSwaps(w, v);
    HostBytesOfValue(Reverse(HostBytes(w.Size(), v)));
  }

  /** Network order (Appendix B of RFC 791): the most significant byte comes first. */
  lemma MostSignificantFirst(f: Field, i: nat)
    requires f.Fits() && i < f.width.Size()
    ensures Encode(f)[i] as nat == Unsigned(f) / Pow256(f.width.Size() - 1 - i) % 256
  {
    HostByteAt(f.width.Size(), Unsigned(f), f.width.Size() - 1 - i);
  }

  /** Decoding returns the integer that was encoded, negative ones included. */
  lemma DecodeEncode(f: Field)
    requires f.Fits()
    ensures Decode(f.width, Encode(f)) == f.value
  {
    var s := HostBytes(f.width.Size(), Unsigned(f));
    assert Reverse(Reverse(s)) == s;
    HostValueOfBytes(f.width.Size(), Unsigned(f));
  }

  function EncodeAll(fs: seq<Field>): seq<byte>
    requires AllFit(fs)
  { if fs == [] then [] else Encode(fs[0]) + EncodeAll(fs[1..]) }

  /** AppendInt8 / 16 / 32 / 64 */
  method AppendInt(b: Buffer, f: Field)
    requires b.Valid() && f.Fits()
    modifies b, b.mem
    ensures b.Valid() && b.Contents() == old(b.Contents()) + Encode(f)
    ensures b.mem == old(b.mem) || fresh(b.mem)
  {
    var be := NetOrder(f.width, Unsigned(f));
    SwappedImage(f.width, Unsigned(f));
    b.Write(HostBytes(f.width.Size(), be));
  }

  /** PrependInt8 / 16 / 32 / 64 */
  method PrependInt(b: Buffer, f: Field)
    requires b.Valid() && f.Fits() && f.width.Size() <= b.readIndex
    modifies b, b.mem
    ensures b.Valid() && b.Contents() == Encode(f) + old(b.Contents())
    ensures b.mem == old(b.mem)
  {
    var be := NetOrder(f.width, Unsigned(f));
    SwappedImage(f.width, Unsigned(f));
    b.Prepend(HostBytes(f.width.Size(), be));
  }

  /** PeekInt8 / 16 / 32 / 64 */
  method PeekInt(b: Buffer, w: Width) returns (x: int)
    requires b.Valid() && b.Length() >= w.Size()
    ensures x == Decode(w, b.Contents()[..w.Size()])
  {
    var image := b.mem[b.readIndex..b.readIndex + w.Size()];
    assert image == b.Contents()[..w.Size()];
    var be := HostValue(image);
    x := Signed(w, NetOrder(w, be));
    NetOrderSwaps(w, be);
    HostBytesOfValue(image);
  }

  /** ReadInt8 / 16 / 32 / 64 */
  method ReadInt(b: Buffer, w: Width) returns (x: int)
    requires b.Valid() && b.Length() >= w.Size()
    modifies b
    ensures b.Valid() && b.mem == old(b.mem)
    ensures x == Decode(w, old(b.Contents())[..w.Size()])
    ensures b.Contents() == old(b.Contents())[w.Size()..]
  {
    x := PeekInt(b, w);
    b.Skip(w.Size());
  }

  /** Prepending an integer and peeking at the same width returns it. */
  method PrependThenPeek(b: Buffer, f: Field) returns (x: int)
    requires b.Valid() && f.Fits() && f.width.Size() <= b.readIndex
    modifies b, b.mem
    ensures x == f.value
  {
    PrependInt(b, f);
    x := PeekInt(b, f.width);
    assert b.Contents()[..f.width.Size()] == Encode(f);
    DecodeEncode(f);
  }

  predicate AllFit(fs: seq<Field>) { forall i :: 0 <= i < |fs| ==> fs[i].Fits() }

  function Widths(fs: seq<Field>): (ws: seq<Width>)
    ensures |ws| == |fs| && forall i :: 0 <= i < |fs| ==> ws[i] == fs[i].width
  { seq(|fs|, i requires 0 <= i < |fs| => fs[i].width) }

  method AppendAll(b: Buffer, fs: seq<Field>)
    requires b.Valid() && AllFit(fs)
    modifies b, b.mem
    ensures b.Valid() && b.Contents() == old(b.Contents()) + EncodeAll(fs)
    ensures b.mem == old(b.mem) || fresh(b.mem)
  {
    if fs != [] {
      ghost var before, head, tail := b.Contents(), Encode(fs[0]), EncodeAll(fs[1..]);
      AppendInt(b, fs[0]);
      AppendAll(b, fs[1..]);
      Append3(before, head, tail);
    }
  }

  method ReadAll(b: Buffer, ws: seq<Width>, ghost fs: seq<Field>) returns (xs: seq<int>)
    requires b.Valid() && AllFit(fs) && ws == Widths(fs)
    requires b.Contents() == EncodeAll(fs)
    modifies b
    ensures b.Valid() && b.mem == old(b.mem) && b.Contents() == []
    ensures |xs| == |fs| && forall i :: 0 <= i < |fs| ==> xs[i] == fs[i].value
    decreases |ws|
  {
    if ws == [] {
      return [];
    }
    ghost var head, tail := Encode(fs[0]), EncodeAll(fs[1..]);
    assert (head + tail)[..|head|] == head && (head + tail)[|head|..] == tail;
    var x := ReadInt(b, ws[0]);
    DecodeEncode(fs[0]);
    assert ws[1..] == Widths(fs[1..]);
    var rest := ReadAll(b, ws[1..], fs[1..]);
    xs := [x] + rest;
  }

  /** Appending any list of integers to an empty buffer of any size and reading the
      same widths back returns the list and leaves the buffer empty. */
  method RoundTrip(fs: seq<Field>, initialSize: nat, reserved: nat) returns (xs: seq<int>, left: nat)
    requires AllFit(fs)
    ensures |xs| == |fs| && (forall i :: 0 <= i < |fs| ==> xs[i] == fs[i].value)
    ensures left == 0
  {
    var b := new Buffer(initialSize, reserved);
    AppendAll(b, fs);
    xs := ReadAll(b, Widths(fs), fs);
    left := b.Length();
  }
}

/** `Buffer` of evk/buffer.h and evk/buffer.cc: bytes in one array, between two
    indexes, behind a reserved prefix. Each method states its effect twice, on the
    byte sequence (`Contents`) and on the indexes (`Shape`). */
module Buffers {
  import opened Layouts

  /** The effect of one call on the byte sequence a buffer stands for. */
  function Effect(c: seq<byte>, op: Op): seq<byte> {
    match op
    case Write(d) => c + d
    case Prepend(d) => d + c
    case Skip(n) => c[Min(n, |c|)..]
    case Truncate(n) => c[..Min(n, |c|)]
    case Reserve(_) => c
    case Shrink(_) => c
    case Receive(d) => c + d
    case ReceiveFails => c
  }

  function Effects(c: seq<byte>, ops: seq<Op>): seq<byte>
    decreases |ops|
  {
    if ops == [] then c else Effects(Effect(c, ops[0]), ops[1..])
  }

  /** memcpy and memmove into `dst`: the source bytes are read before any is written. */
  method CopyInto(dst: array<byte>, at: nat, d: seq<byte>)
    requires at + |d| <= dst.Length
    modifies dst
    ensures dst[at..at + |d|] == d
    ensures forall i :: 0 <= i < dst.Length && !(at <= i < at + |d|) ==> dst[i] == old(dst[i])
  {
    forall i | 0 <= i < |d| {
      dst[at + i] := d[i];
    }
  }

  class Buffer {
    var mem: array<byte>
    var capacity: nat
    var readIndex: nat
    var writeIndex: nat
    var reserved: nat

    function Shape(): Layout
      reads this
    { Layout(capacity, readIndex, writeIndex, reserved) }

    ghost predicate Valid()
      reads this
    { capacity == mem.Length && Shape().Valid() }

    ghost function Contents(): seq<byte>
      requires Valid()
      reads this, mem
    { mem[readIndex..writeIndex] }

    constructor (initialSize: nat, reservedPrepend: nat)
      ensures Valid() && fresh(mem)
      ensures Shape() == Layout(reservedPrepend + initialSize, reservedPrepend, reservedPrepend, reservedPrepend)
      ensures Contents() == []
    {
      capacity := reservedPrepend + initialSize;
      readIndex := reservedPrepend;
      writeIndex := reservedPrepend;
      reserved := reservedPrepend;
      mem := new byte[reservedPrepend + initialSize];
    }

    function Length(): (n: nat)
      requires Valid()
      reads this, mem
      ensures n == |Contents()|
    { writeIndex - readIndex }

    function WritableBytes(): nat
      requires Valid()
      reads this
    { capacity - writeIndex }

    method Swap(rhs: Buffer)
      requires Valid() && rhs.Valid()
      modifies this, rhs
      ensures Valid() && rhs.Valid()
      ensures mem == old(rhs.mem) && Shape() == old(rhs.Shape())
      ensures rhs.mem == old(mem) && rhs.Shape() == old(Shape())
    {
      mem, rhs.mem := rhs.mem, mem;
      capacity, rhs.capacity := rhs.capacity, capacity;
      readIndex, rhs.readIndex := rhs.readIndex, readIndex;
      writeIndex, rhs.writeIndex := rhs.writeIndex, writeIndex;
      reserved, rhs.reserved := rhs.reserved, reserved;
    }

    method Truncate(n: nat)
      requires Valid()
      modifies `readIndex, `writeIndex
      ensures Valid() && Shape() == old(Shape()).Truncate(n)
      ensures Contents() <= old(Contents()) && |Contents()| == Min(n, |old(Contents())|)
      ensures n == 0 ==> readIndex == reserved
    {
      if n == 0 {
        readIndex := reserved;
        writeIndex := reserved;
      } else if writeIndex > readIndex + n {
        writeIndex := readIndex + n;
      }
    }

    method Skip(n: nat)
      requires Valid()
      modifies `readIndex, `writeIndex
      ensures Valid() && Shape() == old(Shape()).Skip(n)
      ensures Contents() == old(Contents())[Min(n, |old(Contents())|)..]
      ensures Contents() == [] ==> readIndex == reserved
    {
      if n < Length() {
        readIndex := readIndex + n;
      } else {
        Truncate(0);
      }
    }

    /** Called only when the free tail is too short, which is what makes the
        compacting branch's own assert hold. */
    method Grow(len: nat)
      requires Valid() && WritableBytes() < len
      modifies this, mem
      ensures Valid() && Shape() == old(Shape()).Grow(len)
      ensures Contents() == old(Contents())
      ensures if old(capacity) - |old(Contents())| < len + reserved then fresh(mem) else mem == old(mem)
      ensures WritableBytes() >= len && readIndex == reserved
    {
      var readable := mem[readIndex..writeIndex];
      var m := Length();
      if WritableBytes() + readIndex < len + reserved {
        var n := 2 * capacity + len;
        var d := new byte[n];
        CopyInto(d, reserved, readable);
        writeIndex := m + reserved;
        readIndex := reserved;
        capacity := n;
        mem := d;
      } else {
        assert reserved < readIndex;
        CopyInto(mem, reserved, readable);
        readIndex := reserved;
        writeIndex := readIndex + m;
        assert m == Length();
      }
    }

    method Reserve(n: nat)
      requires Valid()
      modifies this, mem
      ensures Valid() && Shape() == old(Shape()).Apply(Op.Reserve(n))
      ensures Contents() == old(Contents())
      ensures capacity >= n + reserved
      ensures if old(capacity) >= n + old(reserved) then mem == old(mem) else fresh(mem)
    {
      if capacity >= n + reserved {
        return;
      }
      Grow(n + reserved);
    }

    method EnsureWritableBytes(len: nat)
      requires Valid()
      modifies this, mem
      ensures Valid() && Shape() == old(Shape()).Ensure(len)
      ensures Contents() == old(Contents())
      ensures mem == old(mem) || fresh(mem)
      ensures WritableBytes() >= len
    {
      if WritableBytes() < len {
        Grow(len);
      }
    }

    /** Copies into the free tail and moves the write index past it. */
    method Fill(d: seq<byte>)
      requires Valid() && |d| <= WritableBytes()
      modifies `writeIndex, mem
      ensures Valid() && Shape() == old(Shape()).(write := old(writeIndex) + |d|)
      ensures Contents() == old(Contents()) + d
    {
      var at := writeIndex;
      CopyInto(mem, at, d);
      assert at + |d| <= capacity;
      writeIndex := at + |d|;
      assert mem[readIndex..at] == old(Contents());
      assert Contents() == mem[readIndex..at] + mem[at..writeIndex];
    }

    method Write(d: seq<byte>)
      requires Valid()
      modifies this, mem
      ensures Valid() && Shape() == old(Shape()).Write(|d|)
      ensures Contents() == old(Contents()) + d
      ensures mem == old(mem) || fresh(mem)
    {
      EnsureWritableBytes(|d|);
      Fill(d);
    }

    method Prepend(d: seq<byte>)
      requires Valid() && |d| <= readIndex
      modifies `readIndex, mem
      ensures Valid() && Shape() == old(Shape()).(read := old(readIndex) - |d|)
      ensures Contents() == d + old(Contents())
    {
      var end := readIndex;
      readIndex := readIndex - |d|;
      CopyInto(mem, readIndex, d);
      assert mem[end..writeIndex] == old(Contents());
      assert Contents() == mem[readIndex..end] + mem[end..writeIndex];
    }

    /** The slice handed out is modelled by its bytes. */
    method Next(n: nat) returns (r: seq<byte>)
      requires Valid()
      modifies `readIndex, `writeIndex
      ensures Valid() && Shape() == old(Shape()).Skip(n)
      ensures r + Contents() == old(Contents())
      ensures |r| == Min(n, |old(Contents())|)
    {
      if n < Length() {
        r := mem[readIndex..readIndex + n];
        readIndex := readIndex + n;
      } else {
        r := mem[readIndex..writeIndex];
        Truncate(0);
      }
    }

    method Shrink(n: nat)
      requires Valid()
      modifies this
      ensures Valid() && Shape() == old(Shape()).Shrink(n)
      ensures Contents() == old(Contents()) && fresh(mem) && WritableBytes() == n
    {
      var other := new Buffer(Length() + n, CHEAP_PREPEND_SIZE);
      other.Write(mem[readIndex..writeIndex]);
      Swap(other);
    }

    /** `incoming` is what readv delivers: it fills the free tail first and then
        extrabuf, which takes part only when the tail is shorter than it. */
    method ReadFromFD(incoming: seq<byte>) returns (n: nat)
      requires Valid() && |incoming| <= Shape().ReceiveLimit()
      modifies this, mem
      ensures Valid() && Shape() == old(Shape()).Receive(|incoming|)
      ensures Contents() == old(Contents()) + incoming
      ensures n == |incoming|
      ensures mem == old(mem) || fresh(mem)
    {
      n := |incoming|;
      var writable := WritableBytes();
      if n <= writable {
        Fill(incoming);
      } else {
        Fill(incoming[..writable]);
        var extrabuf := incoming[writable..];
        Write(extrabuf);
        assert incoming == incoming[..writable] + extrabuf;
      }
    }
  }

  method Perform(b: Buffer, op: Op)
    requires b.Valid() && b.Shape().Enabled(op)
    modifies b, b.mem
    ensures b.Valid() && b.Shape() == old(b.Shape()).Apply(op)
    ensures b.Contents() == Effect(old(b.Contents()), op)
    ensures b.mem == old(b.mem) || fresh(b.mem)
  {
    match op
    case Write(d) => b.Write(d);
    case Prepend(d) => b.Prepend(d);
    case Skip(n) => b.Skip(n);
    case Truncate(n) => b.Truncate(n);
    case Reserve(n) => b.Reserve(n);
    case Shrink(n) => b.Shrink(n);
    case Receive(d) => var _ := b.ReadFromFD(d);
    case ReceiveFails =>
  }

  /** Whatever calls are made, and in whatever order, the readable region is the
      byte sequence the same calls build from the old one. */
  method Replay(b: Buffer, ops: seq<Op>)
    requires b.Valid() && RunEnabled(b.Shape(), ops)
    modifies b, b.mem
    ensures b.Valid() && b.Shape() == Run(old(b.Shape()), ops)
    ensures b.Contents() == Effects(old(b.Contents()), ops)
    ensures b.mem == old(b.mem) || fresh(b.mem)
  {
    var rest := ops;
    while rest != []
      invariant b.Valid() && RunEnabled(b.Shape(), rest)
      invariant Run(b.Shape(), rest) == Run(old(b.Shape()), ops)
      invariant Effects(b.Contents(), rest) == Effects(old(b.Contents()), ops)
      invariant b.mem == old(b.mem) || fresh(b.mem)
      decreases |rest|
    {
      Perform(b, rest[0]);
      rest := rest[1..];
    }
  }
}

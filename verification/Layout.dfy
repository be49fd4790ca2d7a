/** The index arithmetic of `Buffer` (evk/buffer.h, evk/buffer.cc): where the
    readable region lies, when storage is compacted and when it is replaced.

    `size_t` is modelled as `nat`: no index or capacity wraps around. */
module Layouts {
  import opened Common

  newtype byte = x: int | 0 <= x < 256

  const CHEAP_PREPEND_SIZE: nat := 8
  const INITIAL_SIZE: nat := 1024
  /** sizeof extrabuf in ReadFromFD */
  const EXTRA_SIZE: nat := 65536

  /** One call on a buffer. `Receive` is a ReadFromFD whose readv delivered `data`
      (end of file when empty); `ReceiveFails` is one whose readv returned -1. */
  datatype Op =
    | Write(data: seq<byte>)
    | Prepend(data: seq<byte>)
    | Skip(n: nat)
    | Truncate(n: nat)
    | Reserve(n: nat)
    | Shrink(n: nat)
    | Receive(data: seq<byte>)
    | ReceiveFails

  function Min(a: nat, b: nat): nat { if a < b then a else b }

  datatype Layout = Layout(capacity: nat, read: nat, write: nat, reserved: nat) {

    predicate Valid() { read <= write <= capacity && reserved <= capacity }

    function Length(): nat
      requires Valid()
    { write - read }

    function Writable(): nat
      requires Valid()
    { capacity - write }

    function Reset(): Layout { this.(read := reserved, write := reserved) }

    /** The test at the head of `grow`. */
    predicate MustReallocate(len: nat)
      requires Valid()
    { Writable() + read < len + reserved }

    function Grow(len: nat): Layout
      requires Valid()
    {
      Layout(if MustReallocate(len) then 2 * capacity + len else capacity,
             reserved, reserved + Length(), reserved)
    }

    function Skip(n: nat): Layout
      requires Valid()
    { if n < Length() then this.(read := read + n) else Reset() }

    function Truncate(n: nat): Layout
    {
      if n == 0 then Reset()
      else if write > read + n then this.(write := read + n)
      else this
    }

    function Ensure(len: nat): Layout
      requires Valid()
    { if Writable() < len then Grow(len) else this }

    function Write(len: nat): Layout
      requires Valid()
    {
      var e := Ensure(len);
      e.(write := e.write + len)
    }

    /** The most bytes one readv of ReadFromFD can deliver. */
    function ReceiveLimit(): nat
      requires Valid()
    { Writable() + if Writable() < EXTRA_SIZE then EXTRA_SIZE else 0 }

    function Receive(n: nat): Layout
      requires Valid()
    {
      if n <= Writable() then this.(write := write + n)
      else this.(write := capacity).Write(n - Writable())
    }

    function Shrink(n: nat): Layout
      requires Valid()
    {
      Layout(CHEAP_PREPEND_SIZE + Length() + n, CHEAP_PREPEND_SIZE,
             CHEAP_PREPEND_SIZE + Length(), CHEAP_PREPEND_SIZE)
    }

    /** What the source's asserts and readv itself demand of a call. */
    predicate Enabled(op: Op)
      requires Valid()
    {
      match op
      case Prepend(d) => |d| <= read
      case Receive(d) => |d| <= ReceiveLimit()
      case _ => true
    }

    function Apply(op: Op): (r: Layout)
      requires Valid() && Enabled(op)
      ensures r.Valid()
      ensures op.Shrink? || r.reserved == reserved
    {
      match op
      case Write(d) => Write(|d|)
      case Prepend(d) => this.(read := read - |d|)
      case Skip(n) => Skip(n)
      case Truncate(n) => Truncate(n)
      case Reserve(n) => if capacity >= n + reserved then this else Grow(n + reserved)
      case Shrink(n) => Shrink(n)
      case Receive(d) => Receive(|d|)
      case ReceiveFails => this
    }

    /** The length `grow` is asked for by this call, if it is called at all. */
    function GrowRequest(op: Op): (len: nat)
      requires Valid() && Enabled(op)
    {
      match op
      case Write(d) => if Writable() < |d| then |d| else 0
      case Receive(d) => if Writable() < |d| then |d| - Writable() else 0
      case Reserve(n) => if capacity >= n + reserved then 0 else n + reserved
      case _ => 0
    }

    /** Bytes copied into new storage by this call: all the readable ones when
        `grow` reallocates, none otherwise. ReadFromFD fills the old storage first. */
    function Copied(op: Op): nat
      requires Valid() && Enabled(op)
    {
      var filled := if op.Receive? then this.(write := capacity) else this;
      if GrowRequest(op) > 0 && filled.MustReallocate(GrowRequest(op)) then filled.Length() else 0
    }
  }

  ghost predicate RunEnabled(l: Layout, ops: seq<Op>)
    requires l.Valid()
    decreases |ops|
  {
    ops == [] || (l.Enabled(ops[0]) && RunEnabled(l.Apply(ops[0]), ops[1..]))
  }

  ghost function Run(l: Layout, ops: seq<Op>): (r: Layout)
    requires l.Valid() && RunEnabled(l, ops)
    ensures r.Valid()
    decreases |ops|
  {
    if ops == [] then l else Run(l.Apply(ops[0]), ops[1..])
  }

  predicate NoShrink(ops: seq<Op>) { ops == [] || (!ops[0].Shrink? && NoShrink(ops[1..])) }

  predicate NoPrepend(ops: seq<Op>) { ops == [] || (!ops[0].Prepend? && NoPrepend(ops[1..])) }

  /** Neither Shrink nor Reserve sets the capacity. */
  predicate OnlyReadsAndWrites(ops: seq<Op>) {
    ops == [] || (!ops[0].Shrink? && !ops[0].Reserve? && OnlyReadsAndWrites(ops[1..]))
  }

  ghost function TotalCopied(l: Layout, ops: seq<Op>): nat
    requires l.Valid() && RunEnabled(l, ops)
    decreases |ops|
  {
    if ops == [] then 0 else l.Copied(ops[0]) + TotalCopied(l.Apply(ops[0]), ops[1..])
  }

  /** The largest readable length at any point of the run. */
  ghost function Peak(l: Layout, ops: seq<Op>): nat
    requires l.Valid() && RunEnabled(l, ops)
    decreases |ops|
  {
    if ops == [] then l.Length() else Max(l.Length(), Peak(l.Apply(ops[0]), ops[1..]))
  }

  /** Every reallocation at least doubles the capacity, so copying is paid for by
      growth: a run copies no more bytes than the capacity it gains. */
  lemma {:induction false} CopyingIsPaidForByGrowth(l: Layout, ops: seq<Op>)
    requires l.Valid() && RunEnabled(l, ops)
    requires NoShrink(ops)
    ensures TotalCopied(l, ops) <= Run(l, ops).capacity - l.capacity
    decreases |ops|
  {
    if ops != [] {
      CopyingIsPaidForByGrowth(l.Apply(ops[0]), ops[1..]);
    }
  }

  /** When only writes and reads from a descriptor grow the buffer, its capacity
      stays within three times the largest readable length. */
  lemma CapacityFollowsPeak(l: Layout, ops: seq<Op>)
    requires l.Valid() && RunEnabled(l, ops)
    requires OnlyReadsAndWrites(ops)
    ensures Run(l, ops).capacity <= Max(l.capacity, 3 * Peak(l, ops) + 2 * l.reserved)
  {
    CapacityWithin(l, ops, Max(l.capacity, 3 * Peak(l, ops) + 2 * l.reserved));
  }

  lemma {:induction false} CapacityWithin(l: Layout, ops: seq<Op>, bound: nat)
    requires l.Valid() && RunEnabled(l, ops)
    requires OnlyReadsAndWrites(ops)
    requires l.capacity <= bound && 3 * Peak(l, ops) + 2 * l.reserved <= bound
    ensures Run(l, ops).capacity <= bound
    decreases |ops|
  {
    if ops != [] {
      StepCapacity(l, ops[0]);
      PeakFromStart(l.Apply(ops[0]), ops[1..]);
      CapacityWithin(l.Apply(ops[0]), ops[1..], bound);
    }
  }

  lemma StepCapacity(l: Layout, op: Op)
    requires l.Valid() && l.Enabled(op) && !op.Shrink? && !op.Reserve?
    ensures l.Apply(op).capacity <= Max(l.capacity, 3 * l.Apply(op).Length() + 2 * l.reserved)
  {
  }

  /** As long as nothing was prepended, the reserve lies free before the readable bytes:
      through every run a header of its size can be prepended. */
  lemma {:induction false} HeaderAlwaysFits(l: Layout, ops: seq<Op>, header: seq<byte>)
    requires l.Valid() && RunEnabled(l, ops) && l.read >= l.reserved
    requires NoPrepend(ops)
    ensures Run(l, ops).read >= Run(l, ops).reserved
    ensures |header| <= Run(l, ops).reserved ==> Run(l, ops).Enabled(Prepend(header))
    decreases |ops|
  {
    if ops != [] {
      HeaderAlwaysFits(l.Apply(ops[0]), ops[1..], header);
    }
  }

  /** An emptied buffer, and one that had to grow, start over at the reserve, whatever was
      prepended before: no free byte is left in front of it. */
  lemma StartsOver(l: Layout, op: Op)
    requires l.Valid() && l.Enabled(op)
    requires match op
             case Skip(n) => n >= l.write - l.read
             case Truncate(n) => n == 0
             case Write(d) => |d| > l.capacity - l.write
             case Receive(d) => |d| > l.capacity - l.write
             case Reserve(n) => n + l.reserved > l.capacity
             case Shrink(_) => true
             case _ => false
    ensures var r := l.Apply(op); r.read == r.reserved
    ensures op.Shrink? ==> l.Apply(op).reserved == 8 && l.Apply(op).Writable() == op.n
    ensures op.Skip? || op.Truncate? ==> l.Apply(op).capacity == l.capacity && l.Apply(op).write == l.reserved
  {
  }

  lemma PeakFromStart(l: Layout, ops: seq<Op>)
    requires l.Valid() && RunEnabled(l, ops)
    ensures l.Length() <= Peak(l, ops)
  {
  }
}

/**
 The seekable byte stream that carries VST3 plugin state. The class updates a buffer and a
 position in place; the specification is an abstract file, a value of bytes and a position.
 */
module YaBStream {
  import opened Bytes

  const INT32_LIMIT := 0x8000_0000

  /** The cast of a 64-bit number to 32 bits. */
  function ToInt32(x: int): (r: int)
    ensures -INT32_LIMIT <= r < INT32_LIMIT
    ensures -INT32_LIMIT <= x < INT32_LIMIT ==> r == x
  {
    (x + INT32_LIMIT) % U32_LIMIT - INT32_LIMIT
  }

  datatype Mode = Set | Current | End | Other

  datatype File = File(bytes: seq<Byte>, pos: nat) {
    predicate InBounds() {
      pos <= |bytes|
    }

    /** What a read of n bytes delivers, and the file after it. */
    function Read(n: nat): (r: (File, seq<Byte>))
      ensures r.0.bytes == bytes && r.0.pos == pos + |r.1|
      ensures |r.1| == Max(0, Min(n, |bytes| - pos))
      ensures forall i :: 0 <= i < |r.1| ==> r.1[i] == bytes[pos + i]
    {
      var take := Max(0, Min(n, |bytes| - pos));
      if take == 0 then (this, []) else (File(bytes, pos + take), bytes[pos..pos + take])
    }

    /** Exactly the range from the position is replaced; a gap before it becomes zeros. */
    function Write(data: seq<Byte>): (f: File)
      ensures f.InBounds() && f.pos == pos + |data|
      ensures |f.bytes| == Max(|bytes|, pos + |data|)
      ensures forall i :: 0 <= i < |f.bytes| ==>
        f.bytes[i] == if pos <= i < pos + |data| then data[i - pos] else if i < |bytes| then bytes[i] else 0
    {
      var room := Resized(bytes, Max(|bytes|, pos + |data|));
      File(room[..pos] + data + room[pos + |data|..], pos + |data|)
    }

    function Seek(offset: int, mode: Mode): (f: File)
      ensures f.bytes == bytes && (mode != Other ==> f.InBounds())
    {
      match mode
      case Set => File(bytes, Max(0, Min(offset, |bytes|)))
      case Current => File(bytes, Max(0, Min(pos + offset, |bytes|)))
      case End => File(bytes, Max(0, Min(|bytes| + offset, |bytes|)))
      case Other => this
    }
  }

  // ---------------------------------------------------------------------------
  // Properties of the file
  // ---------------------------------------------------------------------------

  /** Two reads in a row deliver what one longer read delivers. */
  lemma ReadInTwo(f: File, a: nat, b: nat)
    ensures var (g, first) := f.Read(a);
      var (h, second) := g.Read(b);
      f.Read(a + b) == (h, first + second)
  {
    var (g, first) := f.Read(a);
    var second := g.Read(b).1;
    assert |f.Read(a + b).1| == |first| + |second|;
    SameElements(f.Read(a + b).1, first + second, f);
  }

  lemma SameElements(x: seq<Byte>, y: seq<Byte>, f: File)
    requires |x| == |y| && forall i :: 0 <= i < |x| ==> f.pos + i < |f.bytes| && x[i] == y[i] == f.bytes[f.pos + i]
    ensures x == y
  {
  }

  /** Two writes in a row leave what one write of both leaves. */
  lemma WriteInTwo(f: File, a: seq<Byte>, b: seq<Byte>)
    ensures f.Write(a).Write(b) == f.Write(a + b)
  {
    assert f.Write(a).Write(b).bytes == f.Write(a + b).bytes;
  }

  /** What was written is read back from where it was written. */
  lemma ReadsBack(f: File, data: seq<Byte>)
    ensures f.Write(data).Seek(f.pos, Set).Read(|data|) == (f.Write(data), data)
  {
    assert f.Write(data).Seek(f.pos, Set).Read(|data|).1 == data;
  }

  /** The three kinds of seek: from the start, from the position and from the end, each taken
      to the nearest place within the file. */
  lemma SeeksAgree(f: File, offset: int)
    ensures f.Seek(offset, Current) == f.Seek(f.pos + offset, Set)
    ensures f.Seek(offset, End) == f.Seek(|f.bytes| + offset, Set)
    ensures f.Seek(offset, Set).pos == if offset < 0 then 0 else if offset > |f.bytes| then |f.bytes| else offset
  {
  }

  /** A seek to k bytes before the end, and reading on from there, gives the last k bytes. */
  lemma ReadsTheLast(f: File, k: int)
    requires 0 <= k <= |f.bytes|
    ensures f.Seek(-k, End).Read(k) == (File(f.bytes, |f.bytes|), f.bytes[|f.bytes| - k..])
  {
    assert f.Seek(-k, End).Read(k).1 == f.bytes[|f.bytes| - k..];
  }

  /** A relative seek is undone by the opposite one exactly if neither end of the file was in
      its way, or it went from one end beyond the other. */
  lemma SeekAndBack(f: File, offset: int)
    requires f.InBounds()
    ensures f.Seek(offset, Current).Seek(-offset, Current) == f <==>
            || 0 <= f.pos + offset <= |f.bytes|
            || (f.pos == 0 && offset > |f.bytes|)
            || (f.pos == |f.bytes| && -offset > |f.bytes|)
  {
  }

  /** A change of size keeps the position, the bytes that both sizes have, and adds zeros. It
      is undone by the change back exactly if it cut off nothing but zeros. */
  lemma ResizeAndBack(f: File, n: nat)
    ensures var g := Apply(f, ResizeOp(n));
      && g.pos == f.pos && |g.bytes| == n
      && (forall i :: 0 <= i < n ==> g.bytes[i] == if i < |f.bytes| then f.bytes[i] else 0)
      && (Apply(g, ResizeOp(|f.bytes|)) == f <==> forall i :: n <= i < |f.bytes| ==> f.bytes[i] == 0)
  {
    var back := Apply(Apply(f, ResizeOp(n)), ResizeOp(|f.bytes|));
    if forall i :: n <= i < |f.bytes| ==> f.bytes[i] == 0 {
      assert back.bytes == f.bytes;
    } else {
      var i :| n <= i < |f.bytes| && f.bytes[i] != 0;
      assert back.bytes[i] == 0;
    }
  }

  datatype Op = ReadOp(n: nat) | WriteOp(data: seq<Byte>) | SeekOp(offset: int, mode: Mode) | ResizeOp(size: nat)

  function Apply(f: File, op: Op): File {
    match op
    case ReadOp(n) => f.Read(n).0
    case WriteOp(data) => f.Write(data)
    case SeekOp(offset, mode) => f.Seek(offset, mode)
    case ResizeOp(size) => File(Resized(f.bytes, size), f.pos)
  }

  function Run(f: File, ops: seq<Op>): File {
    if ops == [] then f else Apply(Run(f, ops[..|ops| - 1]), ops[|ops| - 1])
  }

  /** Reads and seeks of an unknown mode: they leave a position past the end where it is. */
  predicate LeavesStranded(op: Op) {
    op.ReadOp? || (op.SeekOp? && op.mode == Other)
  }

  ghost predicate AllLeaveStranded(ops: seq<Op>) {
    forall j :: 0 <= j < |ops| ==> LeavesStranded(ops[j])
  }

  /** Operation i cut the file below the position it then had, and only reads and seeks of an
      unknown mode came after it. */
  ghost predicate StrandedBy(f: File, ops: seq<Op>, i: nat)
    requires i < |ops|
  {
    && ops[i].ResizeOp? && ops[i].size < Run(f, ops[..i]).pos
    && forall j :: i < j < |ops| ==> LeavesStranded(ops[j])
  }

  /** Such an operation is in the run, or the run began past the end and never left it. */
  ghost predicate Stranded(f: File, ops: seq<Op>) {
    || (!f.InBounds() && AllLeaveStranded(ops))
    || exists i: nat :: i < |ops| && StrandedBy(f, ops, i)
  }

  /** The last operation decides, unless it leaves a stranded position where it is. */
  lemma StrandedByLast(f: File, ops: seq<Op>)
    requires ops != []
    ensures var before, op := ops[..|ops| - 1], ops[|ops| - 1];
      Stranded(f, ops) <==>
      if LeavesStranded(op) then Stranded(f, before) else op.ResizeOp? && op.size < Run(f, before).pos
  {
    var before, op := ops[..|ops| - 1], ops[|ops| - 1];
    forall i: nat | i < |before| ensures StrandedBy(f, ops, i) <==> StrandedBy(f, before, i) && LeavesStranded(op) {
      assert ops[..i] == before[..i];
      StrandedStays(f, ops, i);
    }
    StrandedLast(f, ops);
    AllLeave(ops);
  }

  lemma StrandedLast(f: File, ops: seq<Op>)
    requires ops != []
    ensures StrandedBy(f, ops, |ops| - 1) <==>
            ops[|ops| - 1].ResizeOp? && ops[|ops| - 1].size < Run(f, ops[..|ops| - 1]).pos
  {
  }

  lemma AllLeave(ops: seq<Op>)
    requires ops != []
    ensures AllLeaveStranded(ops) <==> AllLeaveStranded(ops[..|ops| - 1]) && LeavesStranded(ops[|ops| - 1])
  {
    var before := ops[..|ops| - 1];
    assert forall j :: 0 <= j < |before| ==> before[j] == ops[j];
    if AllLeaveStranded(before) && LeavesStranded(ops[|ops| - 1]) {
      forall j | 0 <= j < |ops| ensures LeavesStranded(ops[j]) {
        if j < |before| { assert LeavesStranded(before[j]); }
      }
    }
  }

  /** After any run the position lies within the file if and only if it is not stranded. */
  lemma {:induction false} InBoundsUnlessStranded(f: File, ops: seq<Op>)
    ensures Run(f, ops).InBounds() <==> !Stranded(f, ops)
  {
    if ops != [] {
      var before, op := ops[..|ops| - 1], ops[|ops| - 1];
      InBoundsUnlessStranded(f, before);
      StrandedByLast(f, ops);
      BoundsAfter(Run(f, before), op);
    }
  }

  lemma BoundsAfter(f: File, op: Op)
    ensures Apply(f, op).InBounds() <==>
            if LeavesStranded(op) then f.InBounds() else !(op.ResizeOp? && op.size < f.pos)
  {
  }

  lemma StrandedStays(f: File, ops: seq<Op>, i: nat)
    requires i < |ops| - 1 && ops[..i] == ops[..|ops| - 1][..i]
    ensures StrandedBy(f, ops, i) <==> StrandedBy(f, ops[..|ops| - 1], i) && LeavesStranded(ops[|ops| - 1])
  {
    var before := ops[..|ops| - 1];
    assert forall j :: i < j < |before| ==> before[j] == ops[j];
  }

  /** A file of one byte at its end, and the same file cut: a resize strands the position. */
  lemma ResizeMayStrand()
    ensures !Run(File([7], 1), [ResizeOp(0)]).InBounds()
  {
    assert [ResizeOp(0)][..0] == [];
  }

  /** In particular, runs that never shrink the file keep the position within it. */
  lemma {:induction false} NonShrinkingRunsStayInBounds(f: File, ops: seq<Op>)
    requires f.InBounds()
    requires forall i :: 0 <= i < |ops| && ops[i].ResizeOp? ==> |Run(f, ops[..i]).bytes| <= ops[i].size
    ensures Run(f, ops).InBounds()
  {
    if ops != [] {
      var before := ops[..|ops| - 1];
      assert forall i :: 0 <= i < |before| ==> before[..i] == ops[..i];
      NonShrinkingRunsStayInBounds(f, before);
    }
  }

  /** The count a read reports is a 32-bit cast of what lies before the end, so it is the
      number of bytes delivered unless the position is past the end. */
  lemma ReportedCount(f: File, n: nat)
    requires n < INT32_LIMIT
    ensures ToInt32(Min(n, |f.bytes| - f.pos)) == |f.Read(n).1| <==>
            f.InBounds() || (f.pos - |f.bytes|) % U32_LIMIT == 0
  {
  }

  /** There a read delivers nothing and reports minus one byte, and copying the stream does
      not put its position back. */
  lemma StrandedReads()
    ensures var f := File([], 1);
      && f.Read(4).1 == [] && ToInt32(Min(4, |f.bytes| - f.pos)) == -1
      && f.Seek(f.pos, Set) != f
  {
  }

  // ---------------------------------------------------------------------------
  // The stream object
  // ---------------------------------------------------------------------------

  datatype Status = ResultOk | ResultFalse | InvalidArgument | LengthError

  class YaBStream {
    var buffer: seq<Byte>
    var seekPosition: int

    ghost predicate Valid()
      reads this
    {
      0 <= seekPosition
    }

    function Contents(): File
      requires Valid()
      reads this
    {
      File(buffer, seekPosition)
    }

    constructor ()
      ensures Valid() && Contents() == File([], 0)
    {
      buffer, seekPosition := [], 0;
    }

    /** `count` is what is stored in the caller's variable, if anything. */
    method Read(hasBuffer: bool, numBytes: int) returns (status: Status, data: seq<Byte>, count: int)
      requires Valid() && -INT32_LIMIT <= numBytes < INT32_LIMIT
      modifies this
      ensures Valid()
      ensures !hasBuffer || numBytes < 0 ==>
        status == InvalidArgument && data == [] && count == 0 && Contents() == old(Contents())
      ensures hasBuffer && 0 <= numBytes ==>
        && (Contents(), data) == old(Contents()).Read(numBytes)
        && status == (if data == [] then ResultFalse else ResultOk)
        && count == ToInt32(Min(numBytes, old(|buffer| - seekPosition)))
    {
      if !hasBuffer || numBytes < 0 {
        return InvalidArgument, [], 0;
      }
      var bytesToRead := Min(numBytes, |buffer| - seekPosition);
      data := [];
      if bytesToRead > 0 {
        data := buffer[seekPosition..seekPosition + bytesToRead];
        seekPosition := seekPosition + bytesToRead;
      }
      count := ToInt32(bytesToRead);
      status := if bytesToRead > 0 then ResultOk else ResultFalse;
    }

    method Write(data: seq<Byte>, hasBuffer: bool, numBytes: int) returns (status: Status, count: int)
      requires Valid() && -INT32_LIMIT <= numBytes < INT32_LIMIT
      requires hasBuffer ==> numBytes <= |data|
      modifies this
      ensures Valid()
      ensures !hasBuffer || numBytes < 0 ==> status == InvalidArgument && count == 0 && Contents() == old(Contents())
      ensures hasBuffer && 0 <= numBytes ==>
        status == ResultOk && count == numBytes && Contents() == old(Contents()).Write(data[..numBytes])
    {
      if !hasBuffer || numBytes < 0 {
        return InvalidArgument, 0;
      }
      if seekPosition + numBytes > |buffer| {
        buffer := Resized(buffer, seekPosition + numBytes);
      }
      buffer := buffer[..seekPosition] + data[..numBytes] + buffer[seekPosition + numBytes..];
      seekPosition := seekPosition + numBytes;
      count := numBytes;
      status := ResultOk;
    }

    method Seek(pos: int, mode: Mode) returns (status: Status, result: int)
      requires Valid()
      modifies this`seekPosition
      ensures Valid() && Contents() == old(Contents()).Seek(pos, mode)
      ensures status == if mode == Other then InvalidArgument else ResultOk
      ensures status == ResultOk ==> result == seekPosition
    {
      match mode {
        case Set => seekPosition := pos;
        case Current => seekPosition := seekPosition + pos;
        case End => seekPosition := |buffer| + pos;
        case Other => return InvalidArgument, 0;
      }
      seekPosition := Max(0, Min(seekPosition, |buffer|));
      return ResultOk, seekPosition;
    }

    method Tell() returns (pos: int)
      ensures pos == seekPosition
    {
      pos := seekPosition;
    }

    /** A negative size becomes a huge unsigned one, for which the vector throws. */
    method SetStreamSize(size: int) returns (status: Status)
      requires Valid()
      modifies this`buffer
      ensures Valid()
      ensures size < 0 ==> status == LengthError && Contents() == old(Contents())
      ensures 0 <= size ==> status == ResultOk && Contents() == Apply(old(Contents()), ResizeOp(size))
      ensures 0 <= size ==> |buffer| == size
      ensures 0 <= size ==> forall i :: 0 <= i < size ==> buffer[i] == if i < |old(buffer)| then old(buffer)[i] else 0
    {
      if size < 0 {
        return LengthError;
      }
      buffer := Resized(buffer, size);
      status := ResultOk;
    }

    /** Copies what another such stream holds from its position on. The size to read is cast
        to 32 bits; bytes that were not read stay zero. */
    constructor CopyOf(stream: YaBStream)
      requires stream.Valid()
      modifies stream
      ensures Valid() && seekPosition == 0
      ensures buffer == Captured(old(stream.Contents()))
      ensures stream.Valid() && stream.Contents() == old(stream.Contents()).Seek(old(stream.seekPosition), Set)
    {
      buffer, seekPosition := [], 0;
      new;
      var oldPosition := stream.Tell();
      var status, _ := stream.Seek(0, End);
      var size := stream.Tell();
      size := size - oldPosition;
      if status == ResultOk && size > 0 {
        Capture(stream, oldPosition, size);
      }
      var _, _ := stream.Seek(oldPosition, Set);
    }

    /** Reads the tail of the source in one call into a buffer of its size. */
    method Capture(stream: YaBStream, oldPosition: nat, size: nat)
      requires stream != this && Valid() && stream.Valid() && buffer == []
      requires oldPosition + size == |stream.buffer| && size > 0
      modifies this`buffer, stream
      ensures buffer == Captured(File(stream.buffer, oldPosition))
      ensures stream.Valid() && stream.buffer == old(stream.buffer)
    {
      buffer := Resized(buffer, size);
      var _, _ := stream.Seek(oldPosition, Set);
      var _, data, _ := stream.Read(true, ToInt32(size));
      buffer := data + buffer[|data|..];
      CapturedIs(File(stream.buffer, oldPosition), data, buffer);
    }

    /** Writes everything at the target's position. */
    method WriteBack(stream: YaBStream?) returns (status: Status)
      requires Valid() && stream != this && (stream != null ==> stream.Valid())
      modifies stream
      ensures status == if stream == null then InvalidArgument else ResultOk
      ensures stream != null ==> stream.Valid() && stream.Contents() == WrittenBack(buffer, old(stream.Contents()))
    {
      if stream == null {
        return InvalidArgument;
      }
      var _, _ := stream.Write(buffer, true, ToInt32(|buffer|));
      status := ResultOk;
    }
  }

  function Tail(f: File): seq<Byte> {
    if f.pos <= |f.bytes| then f.bytes[f.pos..] else []
  }

  /** What a copy of a file from its position holds: as much of the tail as the 32-bit cast of
      its size lets one read deliver, and zeros for the rest. */
  function Captured(f: File): (copy: seq<Byte>)
    ensures |copy| == |Tail(f)|
  {
    var read := Max(0, ToInt32(|Tail(f)|));
    Tail(f)[..read] + Zeros(|Tail(f)| - read)
  }

  /** What one read delivers, and zeros in the place of what it does not. */
  lemma CapturedIs(f: File, data: seq<Byte>, copy: seq<Byte>)
    requires f.InBounds() && |data| == Max(0, ToInt32(|Tail(f)|))
    requires forall i :: 0 <= i < |data| ==> data[i] == f.bytes[f.pos + i]
    requires |copy| == |Tail(f)|
    requires forall i :: 0 <= i < |copy| ==> copy[i] == if i < |data| then data[i] else 0
    ensures copy == Captured(f)
  {
  }

  /** What a file is after writing back the bytes at its position. */
  function WrittenBack(bytes: seq<Byte>, f: File): File {
    var n := ToInt32(|bytes|);
    if 0 <= n then f.Write(bytes[..n]) else f
  }

  /** The copy is the tail exactly if the tail is shorter than 2^31 bytes or what one read
      does not deliver is all zeros. */
  lemma CopyIsTheTail(f: File)
    ensures Captured(f) == Tail(f) <==>
            |Tail(f)| < INT32_LIMIT || forall i :: Max(0, ToInt32(|Tail(f)|)) <= i < |Tail(f)| ==> Tail(f)[i] == 0
  {
    var read := Max(0, ToInt32(|Tail(f)|));
    assert forall i :: read <= i < |Tail(f)| ==> Captured(f)[i] == 0;
    if forall i :: read <= i < |Tail(f)| ==> Tail(f)[i] == 0 {
      assert Captured(f) == Tail(f);
    }
  }

  /** Copying leaves the source where it was exactly if it was not past its end. */
  lemma CopyRestoresPosition(f: File)
    ensures f.Seek(f.pos, Set) == f <==> f.InBounds()
  {
  }

  /** Everything is written back exactly if it is shorter than 2^31 bytes. */
  lemma WritesBackEverything(bytes: seq<Byte>, f: File)
    ensures WrittenBack(bytes, f) == f.Write(bytes) <==> |bytes| < INT32_LIMIT
  {
    if |bytes| < INT32_LIMIT {
      assert bytes[..|bytes|] == bytes;
    }
  }

  /** What a host put before its position stays in place, whatever is written back. */
  lemma HeaderStaysInPlace(bytes: seq<Byte>, f: File)
    requires f.InBounds()
    ensures f.pos <= |WrittenBack(bytes, f).bytes| && WrittenBack(bytes, f).bytes[..f.pos] == f.bytes[..f.pos]
  {
  }

  /** Copying a stream and writing the copy back changes none of its bytes; the position ends
      behind them. */
  lemma RewriteTail(f: File)
    requires f.InBounds()
    ensures f.Write(Tail(f)) == File(f.bytes, |f.bytes|)
  {
    assert f.Write(Tail(f)).bytes == f.bytes;
  }

  lemma CopyThenWriteBack(f: File)
    requires f.InBounds() && |Tail(f)| < INT32_LIMIT
    ensures WrittenBack(Captured(f), f.Seek(f.pos, Set)) == File(f.bytes, |f.bytes|)
  {
    CopyIsTheTail(f);
    WritesBackEverything(Tail(f), f);
    CopyRestoresPosition(f);
    RewriteTail(f);
  }

  /** A tail of 2^31 bytes that are not zero is copied as zeros and not written back at all. */
  lemma HugeTailIsLost()
    ensures var f := File(seq(INT32_LIMIT, _ => 7), 0);
      Captured(f) != Tail(f) && WrittenBack(Tail(f), f) != f.Write(Tail(f))
  {
    var f := File(seq(INT32_LIMIT, _ => 7), 0);
    assert |Tail(f)| == INT32_LIMIT && Tail(f)[0] == 7;
    assert ToInt32(INT32_LIMIT) == -INT32_LIMIT;
    CopyIsTheTail(f);
    WritesBackEverything(Tail(f), f);
  }
}

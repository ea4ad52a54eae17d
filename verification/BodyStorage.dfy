/** Request bodies kept in memory or in a temporary file, behind one reader interface. */
module BodyStorage {
  import opened Options
  import opened Bytes

  datatype Error = EOF | Closed | BadSeek

  datatype Op = Read(length: nat) | Seek(offset: int, whence: int) | AllBytes | Size | Close

  datatype Answer =
    | Got(data: seq<Byte>, error: Option<Error>)
    | At(position: int, error: Option<Error>)
    | All(data: seq<Byte>, error: Option<Error>)
    | SizeIs(size: nat)
    | Done

  /** What a caller can see of either storage. */
  datatype Body = Body(data: seq<Byte>, pos: nat, closed: bool)

  function Rest(data: seq<Byte>, pos: nat, n: nat): seq<Byte> {
    if pos >= |data| then [] else if pos + n <= |data| then data[pos..pos + n] else data[pos..]
  }

  /** `bytes.Reader` looks at the end first: an empty read there is an end of file. */
  function ReaderRead(data: seq<Byte>, pos: nat, n: nat): (seq<Byte>, Option<Error>) {
    (Rest(data, pos, n), if pos >= |data| then Some(EOF) else None)
  }

  /** `os.File` reports the end only to a read that asked for something. */
  function FileRead(data: seq<Byte>, pos: nat, n: nat): (seq<Byte>, Option<Error>) {
    (Rest(data, pos, n), if pos >= |data| && n > 0 then Some(EOF) else None)
  }

  /** The position a seek asks for; past the end is allowed, before the start is not. */
  function Target(size: nat, pos: nat, offset: int, whence: int): Option<nat> {
    var base := if whence == 0 then 0 else if whence == 1 then pos else size;
    if whence < 0 || whence > 2 || base + offset < 0 then None else Some(base + offset)
  }

  function Step(disk: bool, b: Body, op: Op): (Body, Answer) {
    match op
    case Read(n) =>
      if b.closed then (b, Got([], Some(Closed)))
      else
        var (data, error) := if disk then FileRead(b.data, b.pos, n) else ReaderRead(b.data, b.pos, n);
        (b.(pos := b.pos + |data|), Got(data, error))
    case Seek(offset, whence) =>
      if b.closed then (b, At(0, Some(Closed)))
      else
        (match Target(|b.data|, b.pos, offset, whence)
         case None => (b, At(0, Some(BadSeek)))
         case Some(pos) => (b.(pos := pos), At(pos, None)))
    case AllBytes => (b, if b.closed then All([], Some(Closed)) else All(b.data, None))
    case Size => (b, SizeIs(|b.data|))
    case Close => (b.(closed := true), Done)
  }

  // ----- The two readers and the two storages

  class BytesReader {
    const s: seq<Byte>
    var i: nat

    constructor (s: seq<Byte>)
      ensures this.s == s && i == 0
    {
      this.s := s;
      i := 0;
    }

    method Read(n: nat) returns (data: seq<Byte>, error: Option<Error>)
      modifies this
      ensures (data, error) == ReaderRead(s, old(i), n) && i == old(i) + |data|
    {
      if i >= |s| {
        return [], Some(EOF);
      }
      data := if n < |s| - i then s[i..i + n] else s[i..];
      assert data == Rest(s, i, n);
      i := i + |data|;
      error := None;
    }

    method Seek(offset: int, whence: int) returns (position: int, error: Option<Error>)
      modifies this
      ensures match Target(|s|, old(i), offset, whence)
              case None => i == old(i) && position == 0 && error == Some(BadSeek)
              case Some(pos) => i == pos == position && error == None
    {
      var abs;
      match whence {
        case 0 => abs := offset;
        case 1 => abs := i + offset;
        case 2 => abs := |s| + offset;
        case _ => return 0, Some(BadSeek);
      }
      if abs < 0 {
        return 0, Some(BadSeek);
      }
      i := abs;
      return abs, None;
    }
  }

  /** A file opened for reading and writing. */
  class File {
    var content: seq<Byte>
    var pos: nat

    constructor ()
      ensures content == [] && pos == 0
    {
      content, pos := [], 0;
    }

    method Write(data: seq<Byte>)
      requires pos == |content|
      modifies this
      ensures content == old(content) + data && pos == |content|
    {
      content := content + data;
      pos := |content|;
    }

    method Read(n: nat) returns (data: seq<Byte>, error: Option<Error>)
      modifies this`pos
      ensures (data, error) == FileRead(content, old(pos), n) && pos == old(pos) + |data|
    {
      data := Rest(content, pos, n);
      error := if |data| == 0 && n > 0 then Some(EOF) else None;
      pos := pos + |data|;
    }

    method Seek(offset: int, whence: int) returns (position: int, error: Option<Error>)
      modifies this`pos
      ensures match Target(|content|, old(pos), offset, whence)
              case None => pos == old(pos) && position == 0 && error == Some(BadSeek)
              case Some(to) => pos == to == position && error == None
    {
      match Target(|content|, pos, offset, whence) {
        case None => return 0, Some(BadSeek);
        case Some(to) =>
          pos := to;
          return to, None;
      }
    }

    /** `io.ReadFull`: reads until it has `n` bytes or the file ends. */
    method ReadFull(n: nat) returns (data: seq<Byte>, error: Option<Error>)
      modifies this`pos
      ensures data == Rest(content, old(pos), n) && (error.None? <==> |data| == n)
      ensures pos == old(pos) + |data|
    {
      data, error := [], None;
      while |data| < n && error.None?
        invariant |data| <= n && data == Rest(content, old(pos), |data|) && pos == old(pos) + |data|
        invariant error.Some? ==> |data| < n && pos >= |content|
        decreases n - |data|, error.None?
      {
        var more;
        more, error := Read(n - |data|);
        data := data + more;
      }
    }
  }

  class MemoryStorage {
    const data: seq<Byte>
    const reader: BytesReader
    const size: nat
    var closed: bool

    predicate Valid()
      reads this, reader
    {
      reader.s == data && size == |data|
    }

    function View(): Body
      reads this, reader
    {
      Body(data, reader.i, closed)
    }

    constructor (data: seq<Byte>)
      ensures Valid() && View() == Body(data, 0, false) && fresh(reader)
    {
      this.data := data;
      reader := new BytesReader(data);
      size := |data|;
      closed := false;
    }

    method Read(n: nat) returns (data: seq<Byte>, error: Option<Error>)
      requires Valid()
      modifies this, reader
      ensures Valid() && (View(), Got(data, error)) == Step(false, old(View()), Op.Read(n))
    {
      if closed {
        return [], Some(Closed);
      }
      data, error := reader.Read(n);
    }

    method Seek(offset: int, whence: int) returns (position: int, error: Option<Error>)
      requires Valid()
      modifies this, reader
      ensures Valid() && (View(), At(position, error)) == Step(false, old(View()), Op.Seek(offset, whence))
    {
      if closed {
        return 0, Some(Closed);
      }
      position, error := reader.Seek(offset, whence);
    }

    method AllBytes() returns (data: seq<Byte>, error: Option<Error>)
      requires Valid()
      ensures (View(), All(data, error)) == Step(false, View(), Op.AllBytes)
    {
      if closed {
        return [], Some(Closed);
      }
      return this.data, None;
    }

    /** `first` says that the memory counters must now be reduced by `size`. */
    method Close() returns (first: bool)
      requires Valid()
      modifies this
      ensures Valid() && (View(), Done) == Step(false, old(View()), Op.Close) && first == !old(closed)
    {
      first := !closed;
      closed := true;
    }
  }

  class DiskStorage {
    const file: File
    const size: nat
    var closed: bool

    predicate Valid()
      reads this, file
    {
      size == |file.content|
    }

    function View(): Body
      reads this, file
    {
      Body(file.content, file.pos, closed)
    }

    constructor (file: File)
      requires file.pos == 0
      ensures Valid() && this.file == file && View() == Body(file.content, 0, false)
    {
      this.file := file;
      size := |file.content|;
      closed := false;
    }

    method Read(n: nat) returns (data: seq<Byte>, error: Option<Error>)
      requires Valid()
      modifies this, file`pos
      ensures Valid() && (View(), Got(data, error)) == Step(true, old(View()), Op.Read(n))
    {
      if closed {
        return [], Some(Closed);
      }
      data, error := file.Read(n);
    }

    method Seek(offset: int, whence: int) returns (position: int, error: Option<Error>)
      requires Valid()
      modifies this, file`pos
      ensures Valid() && (View(), At(position, error)) == Step(true, old(View()), Op.Seek(offset, whence))
    {
      if closed {
        return 0, Some(Closed);
      }
      position, error := file.Seek(offset, whence);
    }

    /** Remembers the position, reads the file from its start, and goes back. */
    method AllBytes() returns (data: seq<Byte>, error: Option<Error>)
      requires Valid()
      modifies this, file`pos
      ensures Valid() && (View(), All(data, error)) == Step(true, old(View()), Op.AllBytes)
    {
      if closed {
        return [], Some(Closed);
      }
      var current, _ := file.Seek(0, 1);
      var _, _ := file.Seek(0, 0);
      data, error := file.ReadFull(size);
      assert file.content[0..size] == file.content;
      if error.Some? {
        return [], error;
      }
      var _, _ := file.Seek(current, 0);
    }

    /** `first` says that the disk counters must now be reduced by `size`. */
    method Close() returns (first: bool)
      requires Valid()
      modifies this
      ensures Valid() && (View(), Done) == Step(true, old(View()), Op.Close) && first == !old(closed)
    {
      first := !closed;
      closed := true;
    }
  }

  // ----- The storages cannot be told apart

  /** A read that asks for nothing, at or past the end of an open body. */
  predicate EmptyReadAtEnd(b: Body, op: Op) {
    op == Read(0) && !b.closed && b.pos >= |b.data|
  }

  lemma StepsAgree(b: Body, op: Op)
    ensures Step(true, b, op).0 == Step(false, b, op).0
    ensures Step(true, b, op).1 == Step(false, b, op).1 <==> !EmptyReadAtEnd(b, op)
  {
  }

  function After(disk: bool, b: Body, ops: seq<Op>): Body
    decreases |ops|
  {
    if ops == [] then b else Step(disk, After(disk, b, ops[..|ops| - 1]), ops[|ops| - 1]).0
  }

  function Answers(disk: bool, b: Body, ops: seq<Op>): (r: seq<Answer>)
    ensures |r| == |ops|
    decreases |ops|
  {
    if ops == [] then []
    else Answers(disk, b, ops[..|ops| - 1]) + [Step(disk, After(disk, b, ops[..|ops| - 1]), ops[|ops| - 1]).1]
  }

  /** Some operation of the run is an empty read at the end. */
  predicate ReadsNothingAtEnd(b: Body, ops: seq<Op>)
    decreases |ops|
  {
    ops != []
    && (ReadsNothingAtEnd(b, ops[..|ops| - 1]) || EmptyReadAtEnd(After(false, b, ops[..|ops| - 1]), ops[|ops| - 1]))
  }

  /** Every run of operations gets the same answers from both storages, exactly when it never
      reads nothing at the end of an open body; the states always stay the same. */
  lemma {:induction false} StoragesAgreeExactly(b: Body, ops: seq<Op>)
    ensures After(true, b, ops) == After(false, b, ops)
    ensures Answers(true, b, ops) == Answers(false, b, ops) <==> !ReadsNothingAtEnd(b, ops)
    decreases |ops|
  {
    if ops != [] {
      var front, op := ops[..|ops| - 1], ops[|ops| - 1];
      StoragesAgreeExactly(b, front);
      StepsAgree(After(false, b, front), op);
      var onDisk, inMemory := Answers(true, b, ops), Answers(false, b, ops);
      assert onDisk[..|front|] == Answers(true, b, front) && inMemory[..|front|] == Answers(false, b, front);
      assert onDisk[|front|] == Step(true, After(true, b, front), op).1;
      assert inMemory[|front|] == Step(false, After(false, b, front), op).1;
      if Answers(true, b, front) == Answers(false, b, front) && onDisk[|front|] == inMemory[|front|] {
        assert onDisk == inMemory;
      }
    }
  }

  lemma {:induction false} NonEmptyReadsAreFine(b: Body, ops: seq<Op>)
    requires Read(0) !in ops
    ensures !ReadsNothingAtEnd(b, ops)
    decreases |ops|
  {
    if ops != [] {
      NonEmptyReadsAreFine(b, ops[..|ops| - 1]);
    }
  }

  /** What consecutive reads have returned. */
  function Gathered(answers: seq<Answer>): seq<Byte> {
    if answers == [] then []
    else
      var last := answers[|answers| - 1];
      Gathered(answers[..|answers| - 1]) + if last.Got? then last.data else []
  }

  predicate Looks(op: Op) {
    op.Read? || op.AllBytes? || op.Size?
  }

  lemma LookStep(disk: bool, b: Body, op: Op)
    requires !b.closed && b.pos <= |b.data| && Looks(op)
    ensures var (next, answer) := Step(disk, b, op);
            && !next.closed && next.data == b.data && b.pos <= next.pos <= |b.data|
            && (if answer.Got? then answer.data else []) == b.data[b.pos..next.pos]
  {
  }

  lemma Joined<T>(s: seq<T>, i: nat, j: nat, k: nat)
    requires i <= j <= k <= |s|
    ensures s[i..j] + s[j..k] == s[i..k]
  {
  }

  /** Between seeks, reads of any lengths, with looks at the whole content among them, return the
      content from where they started, without gap or repetition. */
  lemma {:induction false} ReadsAreConsecutive(disk: bool, b: Body, ops: seq<Op>)
    requires !b.closed && b.pos <= |b.data| && forall op :: op in ops ==> Looks(op)
    ensures var end := After(disk, b, ops);
            && !end.closed && end.data == b.data && b.pos <= end.pos <= |b.data|
            && Gathered(Answers(disk, b, ops)) == b.data[b.pos..end.pos]
    decreases |ops|
  {
    if ops != [] {
      var front, op := ops[..|ops| - 1], ops[|ops| - 1];
      assert op in ops;
      ReadsAreConsecutive(disk, b, front);
      var now := After(disk, b, front);
      LookStep(disk, now, op);
      GatheredMore(Answers(disk, b, front), Step(disk, now, op).1);
      Joined(b.data, b.pos, now.pos, After(disk, b, ops).pos);
    }
  }

  lemma GatheredMore(answers: seq<Answer>, last: Answer)
    ensures Gathered(answers + [last]) == Gathered(answers) + if last.Got? then last.data else []
  {
    assert (answers + [last])[..|answers|] == answers;
  }

  /** One position reached from the three origins; a position before the start is refused and
      leaves everything as it was. */
  lemma SeekOrigins(disk: bool, b: Body, to: int)
    requires !b.closed
    ensures var (next, answer) := Step(disk, b, Seek(to, 0));
            && Step(disk, b, Seek(to - b.pos, 1)) == Step(disk, b, Seek(to - |b.data|, 2)) == (next, answer)
            && answer == (if to >= 0 then At(to, None) else At(0, Some(BadSeek)))
            && next == if to >= 0 then b.(pos := to) else b
  {
  }

  /** Seeking and reading returns the content from that position on. */
  lemma SeekThenRead(disk: bool, b: Body, to: nat, n: nat)
    requires !b.closed
    ensures var answers := Answers(disk, b, [Seek(to, 0), Read(n)]);
            var end := if to + n < |b.data| then to + n else |b.data|;
            && answers[1].Got? && answers[1].data == (if to < |b.data| then b.data[to..end] else [])
            && (n > 0 ==> (answers[1].error == Some(EOF) <==> to >= |b.data|))
  {
    var ops := [Seek(to, 0), Read(n)];
    assert ops[..1] == [Seek(to, 0)] && ops[..1][..0] == [];
    assert After(disk, b, ops[..1]) == b.(pos := to);
    assert Answers(disk, b, ops)[1] == Step(disk, After(disk, b, ops[..1]), ops[1]).1;
  }

  /** The content never changes, and a body is closed once it has been closed. */
  lemma {:induction false} ContentStays(disk: bool, b: Body, ops: seq<Op>)
    ensures var now := After(disk, b, ops);
            now.data == b.data && (now.closed <==> b.closed || Close in ops)
    decreases |ops|
  {
    if ops != [] {
      assert Close in ops <==> Close in ops[..|ops| - 1] || ops[|ops| - 1] == Close;
      ContentStays(disk, b, ops[..|ops| - 1]);
    }
  }

  lemma LastAnswer(disk: bool, b: Body, ops: seq<Op>, op: Op)
    ensures Answers(disk, b, ops + [op])[|ops|] == Step(disk, After(disk, b, ops), op).1
  {
    assert (ops + [op])[..|ops|] == ops;
  }

  /** After any run, wherever it has read to, the whole content of an open body can be had and its size
      asked; of a closed one only the size. */
  lemma WholeAnytime(disk: bool, b: Body, ops: seq<Op>)
    ensures Answers(disk, b, ops + [AllBytes])[|ops|] ==
      if b.closed || Close in ops then All([], Some(Closed)) else All(b.data, None)
    ensures Answers(disk, b, ops + [Size])[|ops|] == SizeIs(|b.data|)
  {
    ContentStays(disk, b, ops);
    LastAnswer(disk, b, ops, AllBytes);
    LastAnswer(disk, b, ops, Size);
  }

  /** Once closed, nothing changes, and every read and seek is refused. */
  lemma {:induction false} ClosedForGood(disk: bool, b: Body, ops: seq<Op>)
    requires b.closed
    ensures After(disk, b, ops) == b
    ensures forall i :: 0 <= i < |ops| && ops[i].Read? ==> Answers(disk, b, ops)[i] == Got([], Some(Closed))
    ensures forall i :: 0 <= i < |ops| && ops[i].Seek? ==> Answers(disk, b, ops)[i] == At(0, Some(Closed))
    decreases |ops|
  {
    if ops != [] {
      ClosedForGood(disk, b, ops[..|ops| - 1]);
    }
  }
}

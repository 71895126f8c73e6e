/** `BinaryZlibFile`: a compressed file that can be written, or read and searched like a plain one. */
module ZlibFile {
  import opened PickleBuffered
  import opened Wrappers

  /** blocks: what the decompressor gives for each raw block of a file, empty ones among them;
      emit, tail: what the compressor gives for one more write, and at the end. */
  datatype Codec = Codec(blocks: Bytes -> seq<Bytes>, emit: (seq<Bytes>, Bytes) -> Bytes, tail: seq<Bytes> -> Bytes)

  /** What has been emitted after some writes. */
  function Emitted(c: Codec, writes: seq<Bytes>): Bytes {
    if writes == [] then []
    else
      var before := writes[..|writes| - 1];
      Emitted(c, before) + c.emit(before, writes[|writes| - 1])
  }

  ghost predicate RoundTrips(c: Codec) {
    forall writes :: Join(c.blocks(Emitted(c, writes) + c.tail(writes))) == Join(writes)
  }

  datatype Error = ValueError | UnsupportedOperation

  datatype Result<T> = Ok(value: T) | Err(error: Error)

  datatype Mode = Closed | Reading | ReadingEof | Writing

  class RawFile {
    var bytes: Bytes
    var closed: bool

    constructor (b: Bytes)
      ensures bytes == b && !closed
    {
      bytes, closed := b, false;
    }
  }

  // ---------------------------------------------------------------- a plain byte array with a cursor

  datatype Stream = Stream(content: Bytes, cursor: nat) {
    predicate Ok() { cursor <= |content| }

    /** The bytes a read of this size gives: up to the end if it is negative. */
    function Piece(size: int): Bytes
      requires Ok()
      ensures size == 0 ==> Piece(size) == []
    {
      content[cursor..if size < 0 then |content| else Min(|content|, cursor + size)]
    }

    /** Where a seek is to go. */
    function Target(offset: int, whence: nat): int {
      if whence == 0 then offset else if whence == 1 then cursor + offset else |content| + offset
    }

    /** The start and the end are as far as it gets. */
    function At(target: int): Stream
    {
      this.(cursor := if target < 0 then 0 else Min(target, |content|))
    }
  }

  lemma {:induction false} JoinTail(blocks: seq<Bytes>, k: nat)
    requires k < |blocks|
    ensures Join(blocks[k..]) == blocks[k] + Join(blocks[k + 1..])
  {
    assert blocks[k..][0] == blocks[k] && blocks[k..][1..] == blocks[k + 1..];
  }

  /** The buffer and the raw blocks to come are what is left of the content. */
  ghost predicate Ahead(content: Bytes, pos: nat, buffer: Bytes, offset: nat, blocks: seq<Bytes>, next: nat) {
    && offset <= |buffer| && next <= |blocks| && pos <= |content|
    && content[pos..] == buffer[offset..] + Join(blocks[next..])
  }

  lemma {:induction false} Advance(content: Bytes, pos: nat, buffer: Bytes, offset: nat, blocks: seq<Bytes>, next: nat,
                                   n: nat)
    requires Ahead(content, pos, buffer, offset, blocks, next) && offset + n <= |buffer|
    ensures Ahead(content, pos + n, buffer, offset + n, blocks, next)
    ensures buffer[offset..offset + n] == content[pos..pos + n]
  {
    var rest := buffer[offset..] + Join(blocks[next..]);
    assert |content| - pos == |rest|;
    assert rest[..n] == buffer[offset..offset + n] && content[pos..][..n] == content[pos..pos + n];
    assert rest[n..] == buffer[offset + n..] + Join(blocks[next..]) && content[pos..][n..] == content[pos + n..];
  }

  lemma {:induction false} Refill(content: Bytes, pos: nat, buffer: Bytes, blocks: seq<Bytes>, next: nat)
    requires Ahead(content, pos, buffer, |buffer|, blocks, next)
    ensures if next < |blocks| then Ahead(content, pos, blocks[next], 0, blocks, next + 1) else pos == |content|
  {
    if next < |blocks| { JoinTail(blocks, next); }
  }

  /** The position nearest to the target. */
  function Within(target: int, length: nat): (p: nat)
    ensures 0 <= target <= length ==> p == target
    ensures target < 0 ==> p == 0
    ensures target > length ==> p == length
  {
    if target < 0 then 0 else if target > length then length else target
  }

  class BinaryZlibFile {
    const codec: Codec
    const fp: RawFile
    const closefp: bool
    // What a file opened for writing held already.
    ghost const base: Bytes
    var mode: Mode
    var pos: nat
    var size: int
    var buffer: Bytes
    var bufferOffset: nat
    // How many raw blocks the decompressor was given, and what the compressor was.
    var next: nat
    var writes: seq<Bytes>

    ghost function Content(): Bytes
      reads this, fp
    {
      Join(codec.blocks(fp.bytes))
    }

    ghost predicate Valid()
      reads this, fp
    {
      match mode
      case Closed => true
      case Writing => fp.bytes == base + Emitted(codec, writes) && pos == |Join(writes)|
      case _ =>
        && Ahead(Content(), pos, buffer, bufferOffset, codec.blocks(fp.bytes), next)
        && (size < 0 || size == |Content()|)
        && (mode.ReadingEof? ==> pos == |Content()| == size)
    }

    ghost predicate Readable()
      reads this, fp
    {
      Valid() && (mode.Reading? || mode.ReadingEof?)
    }

    /** The file as a plain byte array. */
    ghost function Now(): Stream
      reads this, fp
    {
      Stream(Content(), pos)
    }

    constructor Open(c: Codec, f: RawFile, m: Mode, own: bool)
      requires m.Reading? || m.Writing?
      ensures codec == c && fp == f && closefp == own && mode == m && base == f.bytes && Valid()
      ensures m.Reading? ==> Readable() && Now() == Stream(Join(c.blocks(f.bytes)), 0)
      ensures m.Writing? ==> writes == []
    {
      codec, fp, closefp, mode, base := c, f, own, m, f.bytes;
      pos, size, buffer, bufferOffset, next, writes := 0, -1, [], 0, 0, [];
      new;
      assert codec.blocks(fp.bytes)[0..] == codec.blocks(fp.bytes);
    }

    /** Fills an empty buffer; false at the end of the file. */
    method FillBuffer() returns (more: bool)
      requires Readable()
      modifies this`mode, this`size, this`buffer, this`bufferOffset, this`next
      ensures Readable() && more == (pos < |Content()|)
      ensures if more then bufferOffset < |buffer| && mode.Reading? else mode.ReadingEof?
    {
      if mode.ReadingEof? { return false; }
      while bufferOffset == |buffer|
        invariant Readable() && mode.Reading? && mode == old(mode)
        decreases |codec.blocks(fp.bytes)| - next, |buffer| - bufferOffset
      {
        var blocks := codec.blocks(fp.bytes);
        Refill(Content(), pos, buffer, blocks, next);
        if next == |blocks| {
          mode := ReadingEof;
          size := pos;
          return false;
        }
        buffer := blocks[next];
        next := next + 1;
        bufferOffset := 0;
      }
      more := true;
    }

    /** Takes bytes from the buffer. */
    method Consume(k: nat) returns (chunk: Bytes)
      requires Readable() && mode.Reading? && bufferOffset + k <= |buffer|
      modifies this`pos, this`bufferOffset
      ensures Readable() && pos == old(pos) + k <= |Content()| && chunk == Content()[old(pos)..pos] && |chunk| == k
    {
      hide Join;
      Advance(Content(), pos, buffer, bufferOffset, codec.blocks(fp.bytes), next, k);
      chunk := buffer[bufferOffset..bufferOffset + k];
      bufferOffset := bufferOffset + k;
      pos := pos + k;
    }

    /** `_read_block`: the next bytes, as far as there are any. */
    method ReadBlock(n: nat) returns (data: Bytes)
      requires Readable()
      modifies this`mode, this`pos, this`size, this`buffer, this`bufferOffset, this`next
      ensures Readable() && data == old(Now().Piece(n)) && pos == old(pos) + |data|
    {
      hide Join;
      ghost var content, start := Content(), pos;
      data := [];
      var left, more := n, true;
      while left > 0 && more
        invariant Readable() && start <= pos && data == content[start..pos] && left == n - (pos - start) >= 0
        invariant more || pos == |content|
        decreases left, more
      {
        more := FillBuffer();
        if more {
          var k := Min(left, |buffer| - bufferOffset);
          var chunk := Consume(k);
          data := data + chunk;
          left := left - k;
        }
      }
      assert old(Now()) == Stream(content, start) && pos == Min(|content|, start + n);
    }

    method ReadAll() returns (data: Bytes)
      requires Readable()
      modifies this`mode, this`pos, this`size, this`buffer, this`bufferOffset, this`next
      ensures Readable() && data == old(Now().Piece(-1)) && pos == |Content()| == size
    {
      hide Join;
      ghost var content, start := Content(), pos;
      data := [];
      var more := true;
      while more
        invariant Readable() && start <= pos && data == content[start..pos]
        invariant more || pos == |content| == size
        decreases |content| - pos, more
      {
        more := FillBuffer();
        if more {
          var chunk := Consume(|buffer| - bufferOffset);
          data := data + chunk;
        }
      }
    }

    method Rewind()
      requires Readable()
      modifies this`mode, this`pos, this`buffer, this`bufferOffset, this`next
      ensures Readable() && pos == 0
    {
      mode, pos, buffer, bufferOffset, next := Reading, 0, [], 0, 0;
      assert codec.blocks(fp.bytes)[0..] == codec.blocks(fp.bytes);
    }

    /** The errors of the operations: a closed file, or one opened the other way. */
    method CheckCanRead() returns (e: Result<()>)
      ensures e == if mode.Closed? then Err(ValueError) else if mode.Writing? then Err(UnsupportedOperation) else Ok(())
    {
      e := if mode.Closed? then Err(ValueError)
           else if mode.Reading? || mode.ReadingEof? then Ok(()) else Err(UnsupportedOperation);
    }

    method Read(size: int := -1) returns (r: Result<Bytes>)
      requires Valid()
      modifies this`mode, this`pos, this`size, this`buffer, this`bufferOffset, this`next
      ensures Valid() && (old(mode).Closed? ==> r == Err(ValueError))
      ensures old(mode).Writing? ==> r == Err(UnsupportedOperation)
      ensures old(Readable()) ==> Readable() && r == Ok(old(Now().Piece(size))) && pos == old(pos) + |r.value|
      ensures old(Readable()) ==> old(pos) <= pos && r.value == Content()[old(pos)..pos]
      ensures old(Readable()) ==>
                pos == if size < 0 || old(pos) + size >= |Content()| then |Content()| else old(pos) + size
      ensures !old(Readable()) ==> mode == old(mode) && pos == old(pos)
    {
      var check := CheckCanRead();
      if check.Err? { return Err(check.error); }
      var data;
      if size == 0 { data := []; } else if size < 0 { data := ReadAll(); } else { data := ReadBlock(size); }
      assert data == old(Now().Piece(size));
      r := Ok(data);
    }

    method ReadInto(b: array<nat>) returns (r: Result<nat>)
      requires Valid()
      modifies this`mode, this`pos, this`size, this`buffer, this`bufferOffset, this`next, b
      ensures Valid() && (old(mode).Closed? ==> r == Err(ValueError))
      ensures old(mode).Writing? ==> r == Err(UnsupportedOperation)
      ensures old(Readable()) ==> Readable() && r == Ok(|old(Now().Piece(b.Length))|) && pos == old(pos) + r.value
      ensures old(Readable()) ==> b[..] == old(Now().Piece(b.Length)) + old(b[..])[r.value..]
      ensures old(Readable()) ==> old(pos) <= pos && b[..] == Content()[old(pos)..pos] + old(b[..])[r.value..]
      ensures old(Readable()) ==>
                pos == if old(pos) + b.Length >= |Content()| then |Content()| else old(pos) + b.Length
      ensures !old(Readable()) ==> mode == old(mode) && pos == old(pos) && b[..] == old(b[..])
    {
      var data := Read(b.Length);
      if data.Err? { return Err(data.error); }
      forall i | 0 <= i < |data.value| { b[i] := data.value[i]; }
      r := Ok(|data.value|);
    }

    /** Where the cursor is, and in writing mode, how much was written. */
    method Tell() returns (r: Result<nat>)
      requires Valid()
      ensures mode.Closed? <==> r == Err(ValueError)
      ensures Readable() ==> r == Ok(Now().cursor)
      ensures mode.Writing? ==> r == Ok(|Join(writes)|)
    {
      r := if mode.Closed? then Err(ValueError) else Ok(pos);
    }

    method GoTo(target: int)
      requires Readable()
      modifies this`mode, this`pos, this`size, this`buffer, this`bufferOffset, this`next
      ensures Readable() && Now() == old(Now().At(target))
    {
      hide Join;
      if target < pos { Rewind(); }
      if target > pos { var _ := ReadBlock(target - pos); }
    }

    /** Goes to the target, or to the end or the start if that comes first. Backwards by reading anew from
        the start. */
    method Seek(offset: int, whence: nat) returns (r: Result<nat>)
      requires Valid()
      modifies this`mode, this`pos, this`size, this`buffer, this`bufferOffset, this`next
      ensures Valid() && (old(mode).Closed? ==> r == Err(ValueError))
      ensures old(mode).Writing? ==> r == Err(UnsupportedOperation)
      ensures old(Readable()) && whence > 2 ==> Readable() && r == Err(ValueError) && pos == old(pos)
      ensures old(Readable()) && whence <= 2 ==>
                Readable() && Now() == old(Now().At(Now().Target(offset, whence))) && r == Ok(pos)
      ensures old(Readable()) && whence == 0 ==> pos == Within(offset, |Content()|)
      ensures old(Readable()) && whence == 1 ==> pos == Within(old(pos) + offset, |Content()|)
      ensures old(Readable()) && whence == 2 ==> pos == Within(|Content()| + offset, |Content()|)
      ensures !old(Readable()) ==> mode == old(mode) && pos == old(pos)
    {
      var check := CheckCanRead();
      if check.Err? { return Err(check.error); }
      var target := offset;
      if whence == 1 {
        target := pos + offset;
      } else if whence == 2 {
        if size < 0 { var _ := ReadAll(); }
        target := size + offset;
      } else if whence > 2 {
        return Err(ValueError);
      }
      GoTo(target);
      r := Ok(pos);
    }

    method Write(data: Bytes) returns (r: Result<nat>)
      requires Valid()
      modifies this`pos, this`writes, fp`bytes
      ensures Valid() && (old(mode).Closed? ==> r == Err(ValueError))
      ensures old(Readable()) ==> Readable() && Now() == old(Now()) && r == Err(UnsupportedOperation)
      ensures mode.Writing? ==> fp.bytes == old(fp.bytes) + codec.emit(old(writes), data)
      ensures mode.Writing? ==> r == Ok(|data|) && pos == old(pos) + |data| && writes == old(writes) + [data]
      ensures !mode.Writing? ==> fp.bytes == old(fp.bytes)
    {
      if mode.Closed? { return Err(ValueError); }
      if !mode.Writing? { return Err(UnsupportedOperation); }
      JoinAppend(writes, data);
      assert (writes + [data])[..|writes|] == writes;
      assert base + (Emitted(codec, writes) + codec.emit(writes, data)) == fp.bytes + codec.emit(writes, data);
      fp.bytes := fp.bytes + codec.emit(writes, data);
      writes := writes + [data];
      pos := pos + |data|;
      r := Ok(|data|);
    }

    /** May be called again. What was written, if anything, is now in the file in full. */
    method Close()
      requires Valid()
      modifies this`mode, this`buffer, this`bufferOffset, fp
      ensures Valid() && mode == Closed
      ensures old(mode).Writing? ==> fp.bytes == base + (Emitted(codec, writes) + codec.tail(writes))
      ensures !old(mode).Writing? ==> fp.bytes == old(fp.bytes)
      ensures fp.closed == (old(fp.closed) || (closefp && !old(mode).Closed?))
    {
      if mode.Closed? { return; }
      if mode.Writing? {
        assert base + (Emitted(codec, writes) + codec.tail(writes)) == fp.bytes + codec.tail(writes);
        fp.bytes := fp.bytes + codec.tail(writes);
      }
      if closefp { fp.closed := true; }
      mode, buffer, bufferOffset := Closed, [], 0;
    }
  }

  /** Opening: the level is checked first, then the mode; opening a path for writing truncates it, and an
      open file is written on. */
  method OpenFile(codec: Codec, fp: RawFile, mode: string, compresslevel: int, isPath: bool)
      returns (r: Result<BinaryZlibFile>)
    modifies fp`bytes
    ensures r.Ok? <==> 1 <= compresslevel <= 9 && (mode == "rb" || mode == "wb")
    ensures r.Err? ==> r.error == ValueError && fp.bytes == old(fp.bytes)
    ensures r.Ok? ==> fresh(r.value) && r.value.Valid() && r.value.fp == fp && r.value.codec == codec
    ensures r.Ok? ==> r.value.closefp == isPath
    ensures r.Ok? && mode == "rb" ==>
              r.value.mode == Reading && r.value.Now() == Stream(Join(codec.blocks(old(fp.bytes))), 0)
    ensures r.Ok? && mode == "wb" ==> r.value.mode == Writing && r.value.writes == []
    ensures r.Ok? && mode == "wb" ==> r.value.base == if isPath then [] else old(fp.bytes)
  {
    if !(1 <= compresslevel <= 9) { return Err(ValueError); }
    if mode == "rb" {
      var f := new BinaryZlibFile.Open(codec, fp, Reading, isPath);
      r := Ok(f);
    } else if mode == "wb" {
      if isPath { fp.bytes := []; }
      var f := new BinaryZlibFile.Open(codec, fp, Writing, isPath);
      r := Ok(f);
    } else {
      r := Err(ValueError);
    }
  }

  // ---------------------------------------------------------------- any sequence of operations

  datatype Op = ReadOp(size: int) | ReadIntoOp(length: nat) | SeekOp(offset: int, whence: nat) | TellOp

  datatype Answer = Data(bytes: Bytes) | Position(n: nat) | Failed(error: Error)

  /** What a plain byte array answers, and where its cursor is then. */
  function Step(s: Stream, op: Op): (r: (Answer, Stream))
    requires s.Ok()
    ensures r.1.Ok() && r.1.content == s.content
  {
    match op
    case ReadOp(size) => (Data(s.Piece(size)), s.(cursor := s.cursor + |s.Piece(size)|))
    case ReadIntoOp(length) => (Data(s.Piece(length)), s.(cursor := s.cursor + |s.Piece(length)|))
    case SeekOp(offset, whence) =>
      if whence > 2 then (Failed(ValueError), s)
      else var t := s.At(s.Target(offset, whence)); (Position(t.cursor), t)
    case TellOp => (Position(s.cursor), s)
  }

  function Answers(s: Stream, ops: seq<Op>): (r: (seq<Answer>, Stream))
    requires s.Ok()
    ensures r.1.Ok()
    decreases |ops|
  {
    if ops == [] then ([], s)
    else
      var (front, t) := Answers(s, ops[..|ops| - 1]);
      var (last, u) := Step(t, ops[|ops| - 1]);
      (front + [last], u)
  }

  /** Seeking back from the end, and reading: the last bytes. */
  lemma {:induction false} ReadFromEnd(s: Stream, n: nat)
    requires s.Ok() && n <= |s.content|
    ensures var l := |s.content|;
            Answers(s, [SeekOp(-(n as int), 2), ReadOp(-1)]).0 == [Position(l - n), Data(s.content[l - n..])]
  {
    TwoAnswers(s, SeekOp(-(n as int), 2), ReadOp(-1));
    assert s.content[|s.content| - n..|s.content|] == s.content[|s.content| - n..];
  }

  /** Seeking from where the cursor is moves it by that much. */
  lemma {:induction false} MoveFromHere(s: Stream, d: int)
    requires s.Ok() && 0 <= s.cursor + d <= |s.content|
    ensures Answers(s, [SeekOp(d, 1), TellOp]).0 == [Position(s.cursor + d), Position(s.cursor + d)]
  {
    TwoAnswers(s, SeekOp(d, 1), TellOp);
  }

  /** Seeking from the start, and reading: any part of the content, after which the cursor stands. */
  lemma {:induction false} ReadFromStart(s: Stream, p: nat, n: nat)
    requires s.Ok() && p + n <= |s.content|
    ensures Answers(s, [SeekOp(p, 0), ReadOp(n)]) == ([Position(p), Data(s.content[p..p + n])], s.(cursor := p + n))
    ensures Answers(s, [SeekOp(p, 0), ReadIntoOp(n)]) == Answers(s, [SeekOp(p, 0), ReadOp(n)])
  {
    TwoAnswers(s, SeekOp(p, 0), ReadOp(n));
    TwoAnswers(s, SeekOp(p, 0), ReadIntoOp(n));
  }

  lemma OneMore(s: Stream, ops: seq<Op>, op: Op)
    requires s.Ok()
    ensures var (front, t) := Answers(s, ops); var (last, u) := Step(t, op);
            Answers(s, ops + [op]) == (front + [last], u)
  {
    hide Step;
    assert (ops + [op])[..|ops|] == ops;
  }

  lemma {:induction false} TwoAnswers(s: Stream, a: Op, b: Op)
    requires s.Ok()
    ensures var (x, t) := Step(s, a); var (y, u) := Step(t, b); Answers(s, [a, b]) == ([x, y], u)
  {
    hide Step;
    var x, y := Step(s, a), Step(Step(s, a).1, b);
    OneMore(s, [], a);
    OneMore(s, [a], b);
    assert [] + [a] == [a] && [a] + [b] == [a, b];
    assert [] + [x.0] == [x.0] && [x.0] + [y.0] == [x.0, y.0];
  }

  /** However the decompressor cuts its output, any sequence of reads, seeks and tells answers as a
      plain byte array with a cursor would. */
  method Replay(f: BinaryZlibFile, ops: seq<Op>) returns (answers: seq<Answer>)
    requires f.Readable() && f.Now().Ok()
    modifies f
    ensures f.Readable() && (answers, f.Now()) == Answers(old(f.Now()), ops)
  {
    answers := [];
    ghost var start := f.Now();
    for i := 0 to |ops|
      invariant f.Readable() && (answers, f.Now()) == Answers(start, ops[..i])
    {
      hide Stream.Piece, Stream.At, Stream.Target;
      ghost var before := f.Now();
      var answer := Perform(f, ops[i]);
      assert ops[..i + 1][..i] == ops[..i];
      answers := answers + [answer];
    }
    assert ops[..|ops|] == ops;
  }

  method Perform(f: BinaryZlibFile, op: Op) returns (answer: Answer)
    requires f.Readable()
    modifies f
    ensures f.Readable() && (answer, f.Now()) == Step(old(f.Now()), op)
  {
    match op {
      case ReadOp(size) =>
        var r := f.Read(size);
        answer := Data(r.value);
      case ReadIntoOp(length) =>
        var b := new nat[length](_ => 0);
        var r := f.ReadInto(b);
        answer := Data(b[..r.value]);
      case SeekOp(offset, whence) =>
        var r := f.Seek(offset, whence);
        answer := if r.Ok? then Position(r.value) else Failed(r.error);
      case TellOp =>
        var r := f.Tell();
        answer := Position(r.value);
    }
  }

  method WriteOut(codec: Codec, fp: RawFile, pieces: seq<Bytes>)
    modifies fp
    ensures fp.bytes == old(fp.bytes) + (Emitted(codec, pieces) + codec.tail(pieces))
  {
    hide Join, Emitted;
    var out := new BinaryZlibFile.Open(codec, fp, Writing, false);
    for i := 0 to |pieces|
      invariant fresh(out) && out.Valid() && out.mode == Writing && out.writes == pieces[..i]
      invariant out.fp == fp && out.codec == codec && out.base == old(fp.bytes)
    {
      var r := out.Write(pieces[i]);
      assert pieces[..i + 1] == pieces[..i] + [pieces[i]];
    }
    assert pieces[..|pieces|] == pieces;
    out.Close();
  }

  /** Written in any pieces, closed and read back, the bytes are the same, given a codec that
      round-trips. */
  method WriteThenRead(codec: Codec, pieces: seq<Bytes>) returns (back: Bytes)
    ensures RoundTrips(codec) ==> back == Join(pieces)
  {
    hide Join, Emitted;
    var fp := new RawFile([]);
    WriteOut(codec, fp, pieces);
    assert fp.bytes == Emitted(codec, pieces) + codec.tail(pieces);
    var f := new BinaryZlibFile.Open(codec, fp, Reading, false);
    var r := f.Read();
    back := r.value;
  }
}

/** `PickleBufferedWriter` and `PickleBufferedReader`: buffers that spare a file many small calls. */
module PickleBuffered {
  import opened Wrappers

  type Bytes = seq<nat>

  const NEW_LINE: nat := 10

  function Join(chunks: seq<Bytes>): Bytes {
    if chunks == [] then [] else chunks[0] + Join(chunks[1..])
  }

  lemma {:induction false} JoinAppend(chunks: seq<Bytes>, chunk: Bytes)
    ensures Join(chunks + [chunk]) == Join(chunks) + chunk
  {
    if chunks == [] {
      assert (chunks + [chunk])[1..] == [];
    } else {
      JoinAppend(chunks[1..], chunk);
      assert (chunks + [chunk])[1..] == chunks[1..] + [chunk];
    }
  }

  /** A file that is written at its end and read once from its start. A read may return less than it
      was asked for, but nothing only at the end. */
  class FileObject {
    var content: Bytes
    var offset: nat
    var closed: bool

    ghost predicate Valid() reads this { offset <= |content| }

    ghost function Rest(): Bytes
      reads this
      requires Valid()
    {
      content[offset..]
    }

    constructor (bytes: Bytes)
      ensures Valid() && content == bytes && offset == 0 && !closed
    {
      content, offset, closed := bytes, 0, false;
    }

    method Write(data: Bytes) returns (ok: bool)
      modifies this`content
      ensures ok == !closed && content == if ok then old(content) + data else old(content)
    {
      if closed { return false; }
      content := content + data;
      ok := true;
    }

    method Read(size: nat) returns (data: Bytes)
      requires Valid()
      modifies this`offset
      ensures Valid() && |data| <= size && old(Rest()) == data + Rest()
      ensures old(Rest()) != [] && size > 0 ==> data != []
    {
      var most := if size <= |content| - offset then size else |content| - offset;
      var n :| (if most == 0 then 0 else 1) <= n <= most;
      data := content[offset..offset + n];
      offset := offset + n;
    }

    method ReadAll() returns (data: Bytes)
      requires Valid()
      modifies this`offset
      ensures Valid() && data == old(Rest()) && Rest() == []
    {
      data := content[offset..];
      offset := |content|;
    }
  }

  // ---------------------------------------------------------------- the writer

  class PickleBufferedWriter {
    const file: FileObject
    const maxBufferSize: nat
    var chunks: seq<Bytes>

    constructor (f: FileObject, max: nat)
      ensures file == f && maxBufferSize == max && chunks == []
    {
      file, maxBufferSize, chunks := f, max, [];
    }

    /** Everything written so far, whether it has reached the file or not. */
    ghost function Written(): Bytes
      reads this, file
    {
      file.content + Join(chunks)
    }

    /** The data is written after what was written before. The number of pending chunks stays within
        the limit, unless the file was closed and refuses them. */
    method Write(data: Bytes) returns (ok: bool)
      requires !file.closed ==> |chunks| <= maxBufferSize
      modifies this, file`content
      ensures Written() == old(Written()) + data
      ensures !file.closed ==> ok && |chunks| <= maxBufferSize
      ensures if |old(chunks)| < maxBufferSize then chunks == old(chunks) + [data] && file.content == old(file.content)
              else ok ==> chunks == []
    {
      JoinAppend(chunks, data);
      chunks := chunks + [data];
      ok := true;
      if |chunks| > maxBufferSize { ok := Flush(); }
    }

    method Flush() returns (ok: bool)
      modifies this, file`content
      ensures Written() == old(Written()) && ok == !file.closed
      ensures if ok then chunks == [] && file.content == Written()
              else chunks == old(chunks) && file.content == old(file.content)
    {
      ok := file.Write(Join(chunks));
      if ok { chunks := []; }
    }

    /** Closing twice fails, as the second flush does. */
    method Close() returns (ok: bool)
      modifies this, file`content, file`closed
      ensures ok == !old(file.closed) && file.closed && Written() == old(Written())
      ensures ok ==> chunks == [] && file.content == old(Written())
    {
      ok := Flush();
      if ok { file.closed := true; }
    }
  }

  // ---------------------------------------------------------------- the reader

  /** The reader's fields while `read(n)` runs: `need` bytes are still missing. The buffer is read from
      the file whenever the position is at its start, and a short one is followed by nothing. */
  datatype Loop = Loop(position: nat, buffer: Bytes, rest: Bytes, need: int)

  function Slice(buffer: Bytes, from: nat, to: nat): Bytes
    requires from <= to
  {
    if from >= |buffer| then [] else buffer[from..Min(to, |buffer|)]
  }

  /** What the buffer still holds that was not handed out. */
  function Held(position: nat, buffer: Bytes): Bytes {
    if position == 0 || position >= |buffer| then [] else buffer[position..]
  }

  /** Everything that is left to read. */
  function Left(position: nat, buffer: Bytes, rest: Bytes): Bytes { Held(position, buffer) + rest }

  /** One turn of the loop; `chunk` is what the file gives, should it be read. */
  ghost predicate Turn(a: Loop, max: nat, b: Loop, out: Bytes) {
    if a.position == max && a.position > 0 then b == a.(position := 0) && out == []
    else
      && b.position == Min(max, a.position + a.need) >= a.position
      && (if a.position == 0
          then |b.buffer| <= max && a.rest == b.buffer + b.rest && (a.rest != [] && max > 0 ==> b.buffer != [])
          else b.buffer == a.buffer && b.rest == a.rest)
      && out == Slice(b.buffer, a.position, b.position)
      && b.need == a.need - |out|
  }

  /** A turn hands out the next bytes, no more than are needed, and less only when the buffer is used up. */
  lemma {:induction false} TurnConserves(a: Loop, max: nat, b: Loop, out: Bytes)
    requires Turn(a, max, b, out) && a.need > 0 && a.position <= max && |a.buffer| <= max
    ensures Left(a.position, a.buffer, a.rest) == out + Left(b.position, b.buffer, b.rest)
    ensures b.position <= max && |b.buffer| <= max && |out| <= a.need
    ensures b.need > 0 ==> Held(b.position, b.buffer) == []
    ensures b.need + |Left(a.position, a.buffer, a.rest)| == a.need + |Left(b.position, b.buffer, b.rest)|
  {
  }

  function Steps(position: nat, max: nat): nat { if position == 0 || position > max then 0 else max - position + 1 }

  /** While enough is left, every turn gets closer to the end. */
  lemma {:induction false} TurnProgresses(a: Loop, max: nat, b: Loop, out: Bytes)
    requires Turn(a, max, b, out) && max > 0 && a.position <= max && |a.buffer| <= max
    requires 0 < a.need <= |Left(a.position, a.buffer, a.rest)|
    ensures |b.rest| < |a.rest| || (b.rest == a.rest && Steps(b.position, max) < Steps(a.position, max))
  {
  }

  ghost predicate Turns(a: Loop, max: nat, path: seq<Loop>)
    decreases |path|
  {
    path == [] || (a.need > 0 && (exists out :: Turn(a, max, path[0], out)) && Turns(path[0], max, path[1..]))
  }

  /** More turns than it takes to hand out `rest` bytes. */
  function Bound(rest: nat, max: nat): nat { if rest == 0 then 0 else max + 2 + Bound(rest - 1, max) }

  lemma {:induction false} BoundGrows(b: nat, a: nat, max: nat)
    requires b < a
    ensures Bound(b, max) + max + 2 <= Bound(a, max)
  {
    if b < a - 1 { BoundGrows(b, a - 1, max); }
  }

  /** The loop of `read(n)` comes to its end exactly when that many bytes are left: otherwise it turns
      for ever, whatever the file gives. */
  lemma {:induction false} EndsExactly(a: Loop, max: nat, path: seq<Loop>)
    requires Turns(a, max, path) && max > 0 && a.position <= max && |a.buffer| <= max && a.need > 0
    ensures if a.need <= |Left(a.position, a.buffer, a.rest)|
            then |path| <= Bound(|a.rest|, max) + Steps(a.position, max)
            else path != [] ==> path[|path| - 1].need > 0
    decreases |path|
  {
    hide Turn, Left;
    if path != [] {
      var b := path[0];
      var out :| Turn(a, max, b, out);
      TurnConserves(a, max, b, out);
      if b.need > 0 { EndsExactly(b, max, path[1..]); }
      if a.need <= |Left(a.position, a.buffer, a.rest)| {
        TurnProgresses(a, max, b, out);
        if |b.rest| < |a.rest| { BoundGrows(|b.rest|, |a.rest|, max); }
      }
    }
  }

  lemma Consume(all: Bytes, past: Bytes, before: Bytes, data: Bytes, after: Bytes)
    requires all == past + before && before == data + after
    ensures all == past + data + after && |before| == |data| + |after|
  {
  }

  /** One more character of a line. */
  lemma NextChar(all: Bytes, line: Bytes, before: Bytes, c: Bytes, after: Bytes)
    requires all == line + before && before == c + after && |c| == 1 && NEW_LINE !in line && NEW_LINE in before
    ensures all == line + c + after && |after| < |before|
    ensures if c == [NEW_LINE] then NEW_LINE !in (line + c)[..|line + c| - 1] && (line + c)[|line + c| - 1] == NEW_LINE
            else NEW_LINE !in line + c && NEW_LINE in after
  {
    assert (line + c)[..|line|] == line;
  }

  class PickleBufferedReader {
    const file: FileObject
    const maxBufferSize: nat
    var buffer: Bytes
    var position: nat

    constructor (f: FileObject, max: nat)
      requires f.Valid() && max > 0
      ensures Valid() && file == f && maxBufferSize == max && Remaining() == f.Rest() && Held(position, buffer) == []
    {
      file, maxBufferSize, buffer, position := f, max, seq(max, _ => 0), 0;
    }

    ghost predicate Valid()
      reads this, file
    {
      file.Valid() && maxBufferSize > 0 && position <= maxBufferSize && |buffer| <= maxBufferSize
    }

    ghost function Remaining(): Bytes
      reads this, file
      requires Valid()
    {
      Left(position, buffer, file.Rest())
    }

    ghost function Now(need: int): Loop
      reads this, file
      requires Valid()
    {
      Loop(position, buffer, file.Rest(), need)
    }

    /** One turn of the loop. */
    method ReadTurn(need: nat) returns (out: Bytes)
      requires Valid() && 0 < need <= |Remaining()|
      modifies this, file`offset
      ensures Valid() && Turn(old(Now(need)), maxBufferSize, Now(need - |out|), out)
    {
      hide Left, Held, Slice;
      out := [];
      if position == 0 {
        buffer := file.Read(maxBufferSize);
      } else if position == maxBufferSize {
        position := 0;
        return;
      }
      var nextPosition := Min(maxBufferSize, position + need);
      out := Slice(buffer, position, nextPosition);
      position := nextPosition;
    }

    /** Exactly the next bytes, across refills and short chunks. */
    method Read(n: nat) returns (data: Bytes)
      requires Valid() && n <= |Remaining()|
      modifies this, file`offset
      ensures Valid() && |data| == n && old(Remaining()) == data + Remaining()
    {
      hide Left, Held, Slice, Turn, Steps;
      data := [];
      ghost var all := Remaining();
      while |data| < n
        invariant Valid() && |data| <= n && all == data + Remaining()
        decreases |file.Rest()|, Steps(position, maxBufferSize)
      {
        ghost var need, a := n - |data|, Now(n - |data|);
        var out := ReadTurn(n - |data|);
        TurnProgresses(a, maxBufferSize, Now(need - |out|), out);
        TurnConserves(a, maxBufferSize, Now(need - |out|), out);
        Consume(all, data, Left(a.position, a.buffer, a.rest), out, Remaining());
        data := data + out;
      }
    }

    /** `read()` takes the rest of the file and leaves out what the buffer holds: it is right exactly
        when the buffer holds nothing. */
    method ReadAll() returns (data: Bytes)
      requires Valid()
      modifies this, file`offset
      ensures Valid() && data == old(file.Rest()) && Remaining() == old(Held(position, buffer))
      ensures data == old(Remaining()) <==> old(Held(position, buffer)) == []
    {
      assert |Remaining()| == |Held(position, buffer)| + |file.Rest()|;
      data := file.ReadAll();
    }

    /** The bytes up to and with the next newline, where one is left. */
    method ReadLine() returns (line: Bytes)
      requires Valid() && NEW_LINE in Remaining()
      modifies this, file`offset
      ensures Valid() && old(Remaining()) == line + Remaining()
      ensures line != [] && line[|line| - 1] == NEW_LINE && NEW_LINE !in line[..|line| - 1]
    {
      hide Left, Held, Remaining;
      line := [];
      ghost var all := Remaining();
      assert all == line + Remaining();
      while true
        invariant Valid() && all == line + Remaining() && NEW_LINE !in line
        invariant NEW_LINE in Remaining()
        decreases |Remaining()|
      {
        ghost var before := Remaining();
        var c := Read(1);
        NextChar(all, line, before, c, Remaining());
        line := line + c;
        if c == [NEW_LINE] { break; }
      }
    }
  }

  // ---------------------------------------------------------------- there and back

  method WriteAll(file: FileObject, pieces: seq<Bytes>, max: nat)
    requires !file.closed && file.content == []
    modifies file`content, file`closed
    ensures file.content == Join(pieces) && file.closed
  {
    var writer := new PickleBufferedWriter(file, max);
    for i := 0 to |pieces|
      invariant writer.file == file && writer.maxBufferSize == max && !file.closed && |writer.chunks| <= max
      invariant fresh(writer) && writer.Written() == Join(pieces[..i])
    {
      var ok := writer.Write(pieces[i]);
      JoinAppend(pieces[..i], pieces[i]);
      assert pieces[..i + 1] == pieces[..i] + [pieces[i]];
    }
    assert pieces[..|pieces|] == pieces;
    var ok := writer.Close();
  }

  method ReadSizes(file: FileObject, sizes: seq<nat>, max: nat) returns (back: Bytes)
    requires max > 0 && file.Valid() && file.offset == 0
    modifies file`offset
    ensures |back| <= |file.content| && back == file.content[..|back|]
    ensures (exists i :: 0 <= i < |sizes| && sizes[i] >= |file.content|) ==> back == file.content
  {
    hide Left, Held, PickleBufferedReader.Remaining;
    var reader := new PickleBufferedReader(file, max);
    back := [];
    var left := |file.content|;
    ghost var all := file.content;
    for i := 0 to |sizes|
      invariant fresh(reader) && reader.Valid() && reader.file == file && all == back + reader.Remaining()
      invariant left == |reader.Remaining()|
      invariant (exists j :: 0 <= j < i && sizes[j] >= |all|) ==> left == 0
    {
      var n := Min(sizes[i], left);
      ghost var before := reader.Remaining();
      var data := reader.Read(n);
      Consume(all, back, before, data, reader.Remaining());
      back := back + data;
      left := left - n;
    }
  }

  /** Whatever is written in whatever pieces, closed, and read back in whatever sizes, is the same. */
  method RoundTrip(pieces: seq<Bytes>, writeMax: nat, readMax: nat, sizes: seq<nat>) returns (back: Bytes)
    requires readMax > 0
    ensures |back| <= |Join(pieces)| && back == Join(pieces)[..|back|]
    ensures (exists i :: 0 <= i < |sizes| && sizes[i] >= |Join(pieces)|) ==> back == Join(pieces)
  {
    var file := new FileObject([]);
    WriteAll(file, pieces, writeMax);
    var reopened := new FileObject(file.content);
    back := ReadSizes(reopened, sizes, readMax);
  }
}

/** `NumpyPickler` and `NumpyUnpickler`, which share one file handle with the pickle machinery. */
module NumpyPickle {
  import opened PickleFormat
  import opened Wrappers

  class FileHandle {
    var bytes: Bytes
    var offset: nat

    constructor (b: Bytes, at: nat)
      ensures bytes == b && offset == at
    {
      bytes, offset := b, at;
    }

    method Write(data: Bytes)
      modifies this`bytes
      ensures bytes == old(bytes) + data
    {
      bytes := bytes + data;
    }

    /** Less than was asked for only at the end. */
    method Read(n: nat) returns (data: Bytes)
      requires offset <= |bytes|
      modifies this`offset
      ensures old(offset) <= offset <= |bytes| && data == bytes[old(offset)..offset]
      ensures offset == (if old(offset) + n <= |bytes| then old(offset) + n else |bytes|)
    {
      var end := if offset + n <= |bytes| then offset + n else |bytes|;
      data := bytes[offset..end];
      offset := end;
    }
  }

  class NumpyPickler {
    const codec: Codec
    const fileHandle: FileHandle

    constructor (c: Codec, f: FileHandle)
      ensures codec == c && fileHandle == f
    {
      codec, fileHandle := c, f;
    }

    /** The padding that brings the array to a multiple of 16, then its bytes in chunks. */
    method WriteArray(a: Array, chunkSize: nat)
      requires chunkSize > 0
      modifies fileHandle`bytes
      ensures fileHandle.bytes == old(fileHandle.bytes) + Payload(codec, a, |old(fileHandle.bytes)|)
    {
      ghost var before := fileHandle.bytes;
      match a {
        case Objects(_, items) =>
          fileHandle.Write(codec.encode(Push(items)));
          fileHandle.Write(codec.encode(Stop));
          assert Payload(codec, a, |before|) == codec.encode(Push(items)) + codec.encode(Stop);
        case Raw(_, data) =>
          var padding := ALIGNMENT - (|fileHandle.bytes| + 1) % ALIGNMENT;
          fileHandle.Write([padding]);
          fileHandle.Write(Filling(padding));
          ghost var head := fileHandle.bytes;
          var i := 0;
          while i < |data|
            invariant i <= |data| && fileHandle.bytes == head + data[..i]
          {
            var end := if i + chunkSize <= |data| then i + chunkSize else |data|;
            fileHandle.Write(data[i..end]);
            assert data[..end] == data[..i] + data[i..end];
            i := end;
          }
          assert data[..|data|] == data;
          assert Payload(codec, a, |before|) == [padding] + Filling(padding) + data;
      }
    }

    /** An array is replaced by its wrapper, and its bytes follow at once. */
    method Save(v: Value, chunkSize: nat)
      requires chunkSize > 0
      modifies fileHandle`bytes
      ensures fileHandle.bytes == old(fileHandle.bytes) + PickleFormat.Save(codec, v, |old(fileHandle.bytes)|)
      decreases v, 1
    {
      hide Payload, SaveAll, Wrapper;
      ghost var before := fileHandle.bytes;
      match v {
        case Scalar(atom) =>
          fileHandle.Write(codec.encode(Push(atom)));
        case List(items) =>
          SaveItems(v, chunkSize);
          assert fileHandle.bytes == before + SaveAll(codec, items, |before|);
          fileHandle.Write(codec.encode(Collect(|items|)));
          assert fileHandle.bytes == before + (SaveAll(codec, items, |before|) + codec.encode(Collect(|items|)));
        case Object(name, state) =>
          ghost var head := codec.encode(New(User(name)));
          ghost var middle := PickleFormat.Save(codec, state, |before| + |head|);
          fileHandle.Write(codec.encode(New(User(name))));
          Save(state, chunkSize);
          fileHandle.Write(codec.encode(Build));
          assert fileHandle.bytes == before + (head + middle + codec.encode(Build));
        case NdArray(a) =>
          WriteWrapper(a.desc);
          ghost var wrapper := Wrapper(codec, a.desc);
          ghost var payload := Payload(codec, a, |before| + |wrapper|);
          WriteArray(a, chunkSize);
          assert fileHandle.bytes == before + (wrapper + payload);
      }
    }

    method WriteWrapper(d: Descriptor)
      modifies fileHandle`bytes
      ensures fileHandle.bytes == old(fileHandle.bytes) + Wrapper(codec, d)
    {
      fileHandle.Write(codec.encode(New(NumpyArrayWrapper)));
      fileHandle.Write(codec.encode(Push(State(d))));
      fileHandle.Write(codec.encode(Build));
    }

    method SaveItems(v: Value, chunkSize: nat)
      requires chunkSize > 0 && v.List?
      modifies fileHandle`bytes
      ensures fileHandle.bytes == old(fileHandle.bytes) + SaveAll(codec, v.items, |old(fileHandle.bytes)|)
      decreases v, 0
    {
      hide PickleFormat.Save;
      ghost var before := fileHandle.bytes;
      for i := 0 to |v.items|
        invariant fileHandle.bytes + SaveAll(codec, v.items[i..], |fileHandle.bytes|)
               == before + SaveAll(codec, v.items, |before|)
      {
        ghost var now := fileHandle.bytes;
        assert v.items[i..][0] == v.items[i] && v.items[i..][1..] == v.items[i + 1..];
        ghost var first := PickleFormat.Save(codec, v.items[i], |now|);
        ghost var rest := SaveAll(codec, v.items[i + 1..], |now| + |first|);
        assert SaveAll(codec, v.items[i..], |now|) == first + rest;
        hide SaveAll;
        Save(v.items[i], chunkSize);
        assert now + (first + rest) == fileHandle.bytes + rest;
      }
      assert v.items[|v.items|..] == [];
    }

    method Dump(v: Value, chunkSize: nat)
      requires chunkSize > 0
      modifies fileHandle`bytes
      ensures fileHandle.bytes == old(fileHandle.bytes) + PickleFormat.Dump(codec, v, |old(fileHandle.bytes)|)
    {
      Save(v, chunkSize);
      fileHandle.Write(codec.encode(Stop));
    }
  }

  class NumpyUnpickler {
    const codec: Codec
    const fileHandle: FileHandle
    const mmapMode: bool
    var stack: seq<Item>
    // The arrays that were mapped, not read.
    var mapped: seq<Extent>

    constructor (c: Codec, f: FileHandle, mmap: bool)
      ensures codec == c && fileHandle == f && mmapMode == mmap && stack == [] && mapped == []
    {
      codec, fileHandle, mmapMode, stack, mapped := c, f, mmap, [], [];
    }

    /** The next token, if there is one in full. */
    method NextToken() returns (t: Option<Token>)
      modifies fileHandle`offset
      ensures var r := TokenAt(codec, fileHandle.bytes, old(fileHandle.offset));
              if r.Some? then t == Some(r.value.token) && fileHandle.offset == old(fileHandle.offset) + r.value.length
              else t == None
    {
      var found := TokenAt(codec, fileHandle.bytes, fileHandle.offset);
      if found.None? { return None; }
      fileHandle.offset := fileHandle.offset + found.value.length;
      t := Some(found.value.token);
    }

    /** Reads an array in chunks, after the padding its first byte tells the length of. */
    method ReadArray(d: Descriptor, bufferSize: nat) returns (r: Option<Array>)
      requires bufferSize > 0
      modifies fileHandle`offset
      ensures var s := PickleFormat.ReadArray(codec, fileHandle.bytes, d, old(fileHandle.offset));
              if s.Some? then r == Some(s.value.0) && fileHandle.offset == s.value.1 else r == None
    {
      if d.hasObject {
        var items := NextToken();
        if items.None? || !items.value.Push? { return None; }
        var stop := NextToken();
        if stop.None? || !stop.value.Stop? { return None; }
        return Some(Objects(d, items.value.atom));
      }
      if fileHandle.offset >= |fileHandle.bytes| { return None; }
      var lengthByte := fileHandle.Read(1);
      var padding := fileHandle.Read(lengthByte[0]);
      ghost var start := fileHandle.offset;
      var data: Bytes := [];
      while |data| < Size(d)
        invariant start <= fileHandle.offset <= |fileHandle.bytes| && |data| <= Size(d)
        invariant data == fileHandle.bytes[start..fileHandle.offset]
        decreases Size(d) - |data|
      {
        var left := Size(d) - |data|;
        var chunk := fileHandle.Read(if left < bufferSize then left else bufferSize);
        if chunk == [] { return None; }
        data := data + chunk;
      }
      if |padding| < lengthByte[0] { return None; }
      r := Some(Raw(d, data));
    }

    /** Maps an array instead of reading it: the same bytes, and the same position afterwards. */
    method ReadMmap(d: Descriptor) returns (r: Option<Extent>)
      requires !d.hasObject
      modifies fileHandle`offset
      ensures var s := PickleFormat.ReadArray(codec, fileHandle.bytes, d, old(fileHandle.offset));
              if s.Some? then r == Some(Extent(s.value.1 - Size(d), s.value.0.data)) && fileHandle.offset == s.value.1
              else r == None
      ensures r.Some? ==> Here(fileHandle.bytes, r.value.start, r.value.data)
                          && Start(fileHandle.bytes, d, old(fileHandle.offset)) == Some(r.value.start)
    {
      if fileHandle.offset >= |fileHandle.bytes| { return None; }
      var lengthByte := fileHandle.Read(1);
      var start := fileHandle.offset + lengthByte[0];
      if start + Size(d) > |fileHandle.bytes| { return None; }
      fileHandle.offset := start + Size(d);
      r := Some(Extent(start, fileHandle.bytes[start..start + Size(d)]));
    }

    /** Maps an array if that is wanted and allowed, and reads it otherwise: the same array either way. */
    method ReadOrMap(d: Descriptor, bufferSize: nat) returns (r: Option<Array>)
      requires bufferSize > 0
      modifies fileHandle`offset, this`mapped
      ensures var s := PickleFormat.ReadArray(codec, fileHandle.bytes, d, old(fileHandle.offset));
              if s.Some? then r == Some(s.value.0) && fileHandle.offset == s.value.1 else r == None
      ensures mmapMode && d.allowMmap && !d.hasObject && r.Some? ==>
                mapped == old(mapped) + [Extent(fileHandle.offset - Size(d), r.value.data)]
      ensures !mmapMode || !d.allowMmap || d.hasObject ==> mapped == old(mapped)
    {
      if !mmapMode || !d.allowMmap || d.hasObject {
        r := ReadArray(d, bufferSize);
        return;
      }
      var extent := ReadMmap(d);
      if extent.None? { return None; }
      mapped := mapped + [extent.value];
      r := Some(Raw(d, extent.value.data));
    }

    /** Sets the state of the object under it; a wrapper makes place for the array behind it. */
    method LoadBuild(bufferSize: nat) returns (ok: bool)
      requires bufferSize > 0
      modifies this`stack, this`mapped, fileHandle`offset
      ensures var r := PickleFormat.LoadBuild(codec, fileHandle.bytes, old(fileHandle.offset), old(stack));
              if r.Some? then ok && (stack, fileHandle.offset) == r.value else !ok
    {
      var n := |stack|;
      if n < 2 || !stack[n - 1].Made? || !stack[n - 2].Fresh? { return false; }
      var state, cls := stack[n - 1].value, stack[n - 2].cls;
      if cls.User? {
        stack := stack[..n - 2] + [Made(Object(cls.name, state))];
        return true;
      }
      if !state.Scalar? || !state.atom.State? { return false; }
      var a := ReadOrMap(state.atom.desc, bufferSize);
      if a.None? { return false; }
      stack := stack[..n - 2] + [Made(NdArray(a.value))];
      ok := true;
    }

    /** Executes tokens up to the end of the pickle. */
    method Load(bufferSize: nat) returns (r: Option<Value>)
      requires bufferSize > 0 && stack == []
      modifies this`stack, this`mapped, fileHandle`offset
      ensures var s := PickleFormat.Load(codec, fileHandle.bytes, old(fileHandle.offset));
              if s.Some? then r == Some(s.value.0) && fileHandle.offset == s.value.1 else r == None
    {
      ghost var result := PickleFormat.Load(codec, fileHandle.bytes, fileHandle.offset);
      while true
        invariant Run(codec, fileHandle.bytes, fileHandle.offset, stack) == result
        decreases |fileHandle.bytes| - fileHandle.offset
      {
        var t := NextToken();
        if t.None? { return None; }
        match t.value {
          case Stop =>
            if stack == [] || !stack[|stack| - 1].Made? { return None; }
            return Some(stack[|stack| - 1].value);
          case Push(a) =>
            stack := stack + [Made(Scalar(a))];
          case New(cls) =>
            stack := stack + [Fresh(cls)];
          case Collect(n) =>
            if n > |stack| { return None; }
            var items := Values(stack[|stack| - n..]);
            if items.None? { return None; }
            stack := stack[..|stack| - n] + [Made(List(items.value))];
          case Build =>
            var ok := LoadBuild(bufferSize);
            if !ok { return None; }
        }
      }
    }
  }

  /** Dumped to a file that may hold something already, and loaded from there: the same value, whatever
      the chunk sizes, mapped or read. */
  method DumpAndLoad(codec: Codec, v: Value, before: Bytes, chunkSize: nat, bufferSize: nat, mmap: bool)
      returns (r: Option<Value>)
    requires SelfDelimiting(codec) && Ok(v) && chunkSize > 0 && bufferSize > 0
    ensures r == Some(v)
  {
    var f := new FileHandle(before, |before|);
    var pickler := new NumpyPickler(codec, f);
    pickler.Dump(v, chunkSize);
    var unpickler := new NumpyUnpickler(codec, f, mmap);
    LoadsWhatWasDumped(codec, f.bytes, v, |before|);
    r := unpickler.Load(bufferSize);
  }
}

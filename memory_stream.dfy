/** The wrapped stream as an object: decorators hold a reference to it, and
    what one holder changes (position, content, resource) every other holder
    sees. Each method is proved to act as the matching StreamModel function. */
module MemoryStreams {
  import opened StreamErrors
  import opened StreamModel

  class MemoryStream {
    var data: Bytes
    var pos: nat
    var readable: bool
    var writable: bool
    var seekable: bool
    var attached: bool
    var closed: bool
    var metadata: map<string, string>

    ghost predicate Valid()
      reads this
    {
      pos <= |data| && (!attached ==> !readable && !writable && !seekable) && (closed ==> !attached)
    }

    /** The stream's observable state as a value. */
    function State(): Stream
      reads this
      requires Valid()
    {
      StreamState(data, pos, readable, writable, seekable, attached, closed, metadata)
    }

    /** A stream over an already open resource in the given state. */
    constructor (s: Stream)
      ensures Valid() && State() == s
    {
      data, pos := s.data, s.pos;
      readable, writable, seekable := s.readable, s.writable, s.seekable;
      attached, closed, metadata := s.attached, s.closed, s.metadata;
    }

    method GetSize() returns (r: Option<nat>)
      requires Valid()
      ensures r == Size(State())
    {
      r := if attached then Some(|data|) else None;
    }

    method Tell() returns (r: Result<nat>)
      requires Valid()
      ensures r == StreamModel.Tell(State())
    {
      if !attached {
        return Err(Detached);
      }
      r := Ok(pos);
    }

    method Eof() returns (r: Result<bool>)
      requires Valid()
      ensures r == StreamModel.Eof(State())
    {
      if !attached {
        return Err(Detached);
      }
      r := Ok(pos == |data|);
    }

    method IsReadable() returns (r: bool)
      requires Valid()
      ensures r == State().readable
    {
      r := readable;
    }

    method IsWritable() returns (r: bool)
      requires Valid()
      ensures r == State().writable
    {
      r := writable;
    }

    method IsSeekable() returns (r: bool)
      requires Valid()
      ensures r == State().seekable
    {
      r := seekable;
    }

    method GetMetadata(key: Option<string>) returns (r: Metadata)
      requires Valid()
      ensures r == StreamModel.GetMetadata(State(), key)
    {
      if !attached {
        r := if key.None? then AllEntries(map[]) else Entry(None);
      } else if key.None? {
        r := AllEntries(metadata);
      } else if key.value in metadata {
        r := Entry(Some(metadata[key.value]));
      } else {
        r := Entry(None);
      }
    }

    method Read(n: int) returns (r: Result<Bytes>)
      requires Valid()
      modifies this
      ensures Valid()
      ensures (r, State()) == StreamModel.Read(old(State()), n)
    {
      if !attached {
        return Err(Detached);
      }
      if !readable {
        return Err(NotReadable);
      }
      if n < 0 {
        return Err(NegativeLength);
      }
      var end := if pos + n <= |data| then pos + n else |data|;
      r := Ok(data[pos..end]);
      pos := end;
    }

    method Write(b: Bytes) returns (r: Result<nat>)
      requires Valid()
      modifies this
      ensures Valid()
      ensures (r, State()) == StreamModel.Write(old(State()), b)
    {
      if !attached {
        return Err(Detached);
      }
      if !writable {
        return Err(NotWritable);
      }
      var rest := if pos + |b| <= |data| then data[pos + |b|..] else [];
      data := data[..pos] + b + rest;
      pos := pos + |b|;
      r := Ok(|b|);
    }

    method Seek(offset: int, whence: int) returns (r: Result<()>)
      requires Valid()
      modifies this
      ensures Valid()
      ensures (r, State()) == StreamModel.Seek(old(State()), offset, whence)
    {
      if !attached {
        return Err(Detached);
      }
      if !seekable {
        return Err(NotSeekable);
      }
      var target: int;
      if whence == SeekSet {
        target := offset;
      } else if whence == SeekCur {
        target := pos + offset;
      } else if whence == SeekEnd {
        target := |data| + offset;
      } else {
        return Err(SeekFailed(offset, whence));
      }
      if target < 0 || target > |data| {
        return Err(SeekFailed(offset, whence));
      }
      pos := target;
      r := Ok(());
    }

    method Detach() returns (r: Option<Handle>)
      requires Valid()
      modifies this
      ensures Valid()
      ensures (r, State()) == StreamModel.Detach(old(State()))
    {
      if !attached {
        return None;
      }
      r := Some(Handle(data, pos));
      attached, readable, writable, seekable := false, false, false, false;
    }

    method Close()
      requires Valid()
      modifies this
      ensures Valid()
      ensures State() == StreamModel.Close(old(State()))
    {
      if attached {
        var _ := Detach();
        closed := true;
      }
    }
  }
}

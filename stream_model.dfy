/** The wrapped stream as a value: an in-memory byte stream with a position and
    capability flags, and each PSR-7 stream operation as a function from the
    state before the call to the answer and the state after it. The decorator
    forwards to exactly these operations. */
module StreamModel {
  import opened StreamErrors

  newtype byte = b: int | 0 <= b < 256

  /** A PHP string is a sequence of bytes. */
  type Bytes = seq<byte>

  /** The `whence` values of PHP's fseek. */
  const SeekSet: int := 0
  const SeekCur: int := 1
  const SeekEnd: int := 2

  /** The chunk size copy_to_string passes to every read. */
  const ReadChunk: nat := 1048576

  /** Everything observable about a wrapped stream: its bytes, its position,
      its capabilities, whether it still owns its resource (`attached`),
      whether that resource has been closed, and its metadata. */
  datatype StreamState = StreamState(
    data: Bytes,
    pos: nat,
    readable: bool,
    writable: bool,
    seekable: bool,
    attached: bool,
    closed: bool,
    metadata: map<string, string>)

  /** A stream state whose position lies within its content, which once it
      no longer owns a resource has no capability left, and which never
      still owns a resource that has been closed. */
  type Stream = s: StreamState | s.pos <= |s.data| && (!s.attached ==> !s.readable && !s.writable && !s.seekable)
    && (s.closed ==> !s.attached)
    witness StreamState([], 0, false, false, false, false, false, map[])

  /** The resource handed back by detach: its bytes and its position. */
  datatype Handle = Handle(data: Bytes, pos: nat)

  /** getMetadata() with no key answers the whole map; with a key, one entry or null. */
  datatype Metadata = AllEntries(entries: map<string, string>) | Entry(value: Option<string>)

  function Min(a: int, b: int): int {
    if a <= b then a else b
  }

  function Max(a: int, b: int): int {
    if a <= b then b else a
  }

  /** The bytes from the current position to the end. */
  function Remaining(s: Stream): (r: Bytes)
    ensures |r| == |s.data| - s.pos
  {
    s.data[s.pos..]
  }

  /** getSize: the content length, or null once the stream is detached. */
  function Size(s: Stream): (r: Option<nat>)
    ensures r.Some? <==> s.attached
    ensures r.Some? ==> r.value == |s.data|
  {
    if s.attached then Some(|s.data|) else None
  }

  /** tell: the position; a detached stream has none. */
  function Tell(s: Stream): (r: Result<nat>)
    ensures r.Ok? <==> s.attached
    ensures r.Ok? ==> r.value == s.pos && r.value <= |s.data|
    ensures r.Err? ==> r.error == Detached
  {
    if s.attached then Ok(s.pos) else Err(Detached)
  }

  /** eof: true exactly when the position has reached the end. */
  function Eof(s: Stream): (r: Result<bool>)
    ensures r.Ok? <==> s.attached
    ensures r.Ok? ==> (r.value <==> Remaining(s) == [])
    ensures r.Err? ==> r.error == Detached
  {
    if s.attached then Ok(s.pos == |s.data|) else Err(Detached)
  }

  /** getMetadata(key): the whole map for a null key, else the entry or null;
      a detached stream answers an empty map or null. */
  function GetMetadata(s: Stream, key: Option<string>): (r: Metadata)
    ensures key.None? <==> r.AllEntries?
    ensures r.AllEntries? ==> r.entries == (if s.attached then s.metadata else map[])
    ensures r.Entry? ==> (r.value.Some? <==> s.attached && key.value in s.metadata)
    ensures r.Entry? && r.value.Some? ==> r.value.value == s.metadata[key.value]
  {
    if !s.attached then
      if key.None? then AllEntries(map[]) else Entry(None)
    else if key.None? then AllEntries(s.metadata)
    else if key.value in s.metadata then Entry(Some(s.metadata[key.value]))
    else Entry(None)
  }

  /** read(n): at most n bytes, never more than remain, and the position
      advances by exactly the number of bytes returned. */
  function Read(s: Stream, n: int): (r: (Result<Bytes>, Stream))
    ensures r.0.Err? <==> !s.attached || !s.readable || n < 0
    ensures r.0.Err? ==> r.1 == s
    ensures r.0.Ok? ==>
      && |r.0.value| == Min(n, |Remaining(s)|)
      && r.1 == s.(pos := s.pos + |r.0.value|)
      && r.0.value == s.data[s.pos..r.1.pos]
  {
    if !s.attached then (Err(Detached), s)
    else if !s.readable then (Err(NotReadable), s)
    else if n < 0 then (Err(NegativeLength), s)
    else
      var end := Min(s.pos + n, |s.data|);
      (Ok(s.data[s.pos..end]), s.(pos := end))
  }

  /** write(b): overwrites the bytes at the current position, extending the
      content when it runs past the end, and leaves the position after them.
      An in-memory resource accepts the whole string. */
  function Write(s: Stream, b: Bytes): (r: (Result<nat>, Stream))
    ensures r.0.Err? <==> !s.attached || !s.writable
    ensures r.0.Err? ==> r.1 == s
    ensures r.0.Ok? ==>
      && r.0.value == |b|
      && r.1.pos == s.pos + |b|
      && |r.1.data| == Max(|s.data|, s.pos + |b|)
      && r.1.data[..s.pos] == s.data[..s.pos]
      && r.1.data[s.pos..r.1.pos] == b
      && r.1.data[r.1.pos..] == s.data[Min(s.pos + |b|, |s.data|)..]
      && r.1 == s.(data := r.1.data, pos := r.1.pos)
  {
    if !s.attached then (Err(Detached), s)
    else if !s.writable then (Err(NotWritable), s)
    else
      var data := s.data[..s.pos] + b + s.data[Min(s.pos + |b|, |s.data|)..];
      assert data[..s.pos] == s.data[..s.pos];
      assert data[s.pos..s.pos + |b|] == b;
      (Ok(|b|), s.(data := data, pos := s.pos + |b|))
  }

  /** The absolute position fseek aims at, or None for an unknown whence. */
  function SeekTarget(s: Stream, offset: int, whence: int): Option<int> {
    if whence == SeekSet then Some(offset)
    else if whence == SeekCur then Some(s.pos + offset)
    else if whence == SeekEnd then Some(|s.data| + offset)
    else None
  }

  /** seek(offset, whence): moves the position when the stream is attached
      and seekable and the target lies within the content; otherwise fails
      and leaves the stream as it was. */
  function Seek(s: Stream, offset: int, whence: int): (r: (Result<()>, Stream))
    ensures var t := SeekTarget(s, offset, whence);
      r.0.Ok? <==> s.attached && s.seekable && t.Some? && 0 <= t.value <= |s.data|
    ensures r.0.Ok? ==> r.1 == s.(pos := SeekTarget(s, offset, whence).value)
    ensures r.0.Err? ==> r.1 == s
  {
    if !s.attached then (Err(Detached), s)
    else if !s.seekable then (Err(NotSeekable), s)
    else
      match SeekTarget(s, offset, whence)
      case Some(t) =>
        if 0 <= t <= |s.data| then (Ok(()), s.(pos := t)) else (Err(SeekFailed(offset, whence)), s)
      case None => (Err(SeekFailed(offset, whence)), s)
  }

  /** detach: hands back the resource and leaves the stream without one and
      without any capability; a second detach hands back nothing. */
  function Detach(s: Stream): (r: (Option<Handle>, Stream))
    ensures r.0.Some? <==> s.attached
    ensures r.0.Some? ==> r.0.value == Handle(s.data, s.pos)
    ensures !r.1.attached && !r.1.readable && !r.1.writable && !r.1.seekable
    ensures r.1.data == s.data && r.1.pos == s.pos && r.1.closed == s.closed
  {
    if !s.attached then (None, s)
    else (Some(Handle(s.data, s.pos)),
          s.(attached := false, readable := false, writable := false, seekable := false))
  }

  /** close: closes the resource the stream still owns and detaches it. */
  function Close(s: Stream): (r: Stream)
    ensures !r.attached && !r.readable && !r.writable && !r.seekable
    ensures r.closed <==> s.closed || s.attached
    ensures r.data == s.data && r.pos == s.pos
    ensures !s.attached ==> r == s
  {
    if s.attached then Detach(s).1.(closed := true) else s
  }

  /** copy_to_string with no length limit, as a read loop: while the stream
      is not at eof, read a chunk; stop on an empty chunk; append otherwise. */
  function CopyToString(s: Stream): (r: (Result<Bytes>, Stream))
    ensures r.1 == s.(pos := r.1.pos) && s.pos <= r.1.pos
    ensures r.0.Ok? ==> r.0.value == s.data[s.pos..r.1.pos]
    ensures r.0.Err? ==> !s.attached || !s.readable
    decreases |s.data| - s.pos
  {
    match Eof(s)
    case Err(e) => (Err(e), s)
    case Ok(atEnd) =>
      if atEnd then (Ok([]), s)
      else
        var (chunk, s1) := Read(s, ReadChunk);
        match chunk
        case Err(e) => (Err(e), s1)
        case Ok(buf) =>
          if buf == [] then (Ok([]), s1)
          else
            var (rest, s2) := CopyToString(s1);
            assert rest.Ok? ==> buf + rest.value == s.data[s.pos..s2.pos] by {
              if rest.Ok? {
                assert s.data[s.pos..s2.pos] == s.data[s.pos..s1.pos] + s.data[s1.pos..s2.pos];
              }
            }
            (Prepend(buf, rest), s2)
  }

  /** Prefix the bytes already collected to a successful remainder. */
  function Prepend(prefix: Bytes, r: Result<Bytes>): (p: Result<Bytes>)
    ensures p.Ok? <==> r.Ok?
    ensures p.Ok? ==> p.value == prefix + r.value
    ensures p.Err? ==> p == r
  {
    match r
    case Ok(rest) => Ok(prefix + rest)
    case Err(e) => Err(e)
  }

  /** What reading to the end means, stated without a loop: the remaining bytes
      and a stream left at its end; a detached stream fails, and so does an
      unreadable one unless nothing remains to be read. */
  function Drained(s: Stream): (r: (Result<Bytes>, Stream))
    ensures r.0.Ok? <==> s.attached && (s.readable || Remaining(s) == [])
    ensures r.0.Ok? ==> r.0.value == Remaining(s) && r.1 == s.(pos := |s.data|)
    ensures r.0.Err? ==> r.1 == s
  {
    if !s.attached then (Err(Detached), s)
    else if s.pos == |s.data| then (Ok([]), s)
    else if !s.readable then (Err(NotReadable), s)
    else (Ok(Remaining(s)), s.(pos := |s.data|))
  }

  /** Prefixing twice is prefixing once with the concatenation. */
  lemma PrependTwice(a: Bytes, b: Bytes, r: Result<Bytes>)
    ensures Prepend(a, Prepend(b, r)) == Prepend(a + b, r)
  {
    if r.Ok? {
      assert a + (b + r.value) == (a + b) + r.value;
    }
  }

  /** One turn of the copy_to_string loop, on a stream not yet at eof. */
  lemma CopyToStringStep(s: Stream)
    requires Eof(s) == Ok(false)
    ensures var (chunk, s1) := Read(s, ReadChunk);
      && (chunk.Err? ==> CopyToString(s) == (Err(chunk.error), s1))
      && (chunk.Ok? && chunk.value == [] ==> CopyToString(s) == (Ok([]), s1))
      && (chunk.Ok? && chunk.value != [] ==>
            CopyToString(s) == (Prepend(chunk.value, CopyToString(s1).0), CopyToString(s1).1))
  {
  }
}

/** Properties of the wrapped stream's operations that the decorator relies
    on: reading to the end, consecutive reads, writing then reading back, and
    what is left of a stream once detached or closed. */
module StreamProperties {
  import opened StreamErrors
  import opened StreamModel

  /** copy_to_string's read loop, reading ReadChunk bytes at a time, returns
      exactly the bytes from the current position to the end and leaves the
      stream at its end, however many chunks that takes; it fails only when
      the stream is detached, or unreadable with bytes left. */
  lemma {:induction false} CopyToStringDrains(s: Stream)
    ensures CopyToString(s) == Drained(s)
    decreases |s.data| - s.pos
  {
    if s.attached && s.pos < |s.data| && s.readable {
      var (chunk, s1) := Read(s, ReadChunk);
      CopyToStringDrains(s1);
      assert Remaining(s) == chunk.value + Remaining(s1);
    }
  }

  /** A read of m bytes followed by a read of n bytes returns the same bytes,
      and leaves the same stream, as a single read of m + n bytes. */
  lemma ConsecutiveReads(s: Stream, m: nat, n: nat)
    requires s.attached && s.readable
    ensures var (a, s1) := Read(s, m);
      var (b, s2) := Read(s1, n);
      var (c, s3) := Read(s, m + n);
      a.Ok? && b.Ok? && c.Ok? && a.value + b.value == c.value && s2 == s3
  {
    var (a, s1) := Read(s, m);
    var (b, s2) := Read(s1, n);
    assert s.data[s.pos..s1.pos] + s.data[s1.pos..s2.pos] == s.data[s.pos..s2.pos];
  }

  /** For a stream over bytes b at position 0: read(|b|) returns b, after
      which eof holds and a further read(1) returns nothing. */
  lemma ReadAllThenEof(s: Stream)
    requires s.attached && s.readable && s.pos == 0
    ensures var (r, s1) := Read(s, |s.data|);
      && r == Ok(s.data)
      && Eof(s1) == Ok(true)
      && Read(s1, 1) == (Ok([]), s1)
  {
    assert s.data[0..|s.data|] == s.data;
  }

  /** Writing b, seeking back to where the write began and reading |b| bytes
      returns b and leaves the stream where the write left it. */
  lemma WriteThenReadBack(s: Stream, b: Bytes)
    requires s.attached && s.writable && s.readable && s.seekable
    ensures var (w, s1) := Write(s, b);
      var (k, s2) := Seek(s1, s.pos, SeekSet);
      var (rd, s3) := Read(s2, |b|);
      w == Ok(|b|) && k.Ok? && rd == Ok(b) && s3 == s1
  {
  }

  /** Writing at the end appends. */
  lemma WriteAtEndAppends(s: Stream, b: Bytes)
    requires s.attached && s.writable && s.pos == |s.data|
    ensures Write(s, b) == (Ok(|b|), s.(data := s.data + b, pos := |s.data| + |b|))
  {
    var (_, s1) := Write(s, b);
    assert s1.data == s.data[..s.pos] + b + s.data[Min(s.pos + |b|, |s.data|)..];
    assert s.data[..s.pos] == s.data;
    assert s.data[Min(s.pos + |b|, |s.data|)..] == [];
    assert s1.data == s.data + b;
  }

  /** Once detached, a stream refuses reads, writes, seeks, tell and eof,
      reports no size, no capability and no metadata, and a second detach
      hands back nothing. */
  lemma DetachedStreamIsInert(s: Stream, n: int, b: Bytes, offset: int, whence: int, key: string)
    ensures var (_, d) := Detach(s);
      && Read(d, n) == (Err(Detached), d)
      && Write(d, b) == (Err(Detached), d)
      && Seek(d, offset, whence) == (Err(Detached), d)
      && Tell(d) == Err(Detached)
      && Eof(d) == Err(Detached)
      && Size(d) == None
      && !d.readable && !d.writable && !d.seekable
      && GetMetadata(d, None) == AllEntries(map[])
      && GetMetadata(d, Some(key)) == Entry(None)
      && Detach(d) == (None, d)
  {
  }

  /** close releases the resource: it is marked closed and can no longer be
      detached from the stream. */
  lemma CloseReleasesResource(s: Stream)
    requires s.attached
    ensures Close(s).closed && Detach(Close(s)).0 == None
    ensures Close(s).data == s.data
  {
  }
}

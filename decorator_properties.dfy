/** What StreamDecoratorTrait promises about the decorator it gives a class:
    the stream is created at most once, queries and seeks pass through to
    the wrapped stream, reads are clamped, writes land at the current
    position, getContents reads the remainder, and __toString rewinds only
    a seekable stream and never lets an exception escape before PHP 7.4. */
module DecoratorProperties {
  import opened StreamErrors
  import opened StreamModel
  import D = DecoratorModel

  /** A decorator over the stream `s`, as the trait's constructor builds it. */
  function Wrapping(s: Stream, noSeek: bool): D.View {
    D.View(Some(s), D.NotImplementedOpener, noSeek)
  }

  // ----- the `stream` property -----------------------------------------

  /** The first access to an unset `stream` stores what createStream returns;
      every later access answers that same stream and creates nothing. A
      failed createStream leaves the property unset, so the next access tries
      again. */
  lemma LazyCreationHappensOnce(v: D.View)
    requires v.slot.None?
    ensures var (r, v1) := D.Acquire(v);
      && (v.opener.Opens? ==> r == Ok(v.opener.initial) && v1 == v.(slot := Some(v.opener.initial)))
      && (r.Ok? ==> D.Acquire(v1) == (r, v1))
      && (r.Err? ==> v1 == v && D.Acquire(v1) == (r, v1))
  {
  }

  /** Once set, the property is never replaced: after any forwarded operation
      the slot is still set, to the stream that operation left behind. */
  lemma SetStreamIsReused<T>(v: D.View, op: Stream -> (Result<T>, Stream))
    requires v.slot.Some?
    ensures D.Forward(v, op) == (op(v.slot.value).0, v.(slot := Some(op(v.slot.value).1)))
  {
  }

  /** The trait's own createStream fails with BadMethodCallException, so a
      class that neither passes a stream nor overrides createStream fails on
      its first access to `stream` and on every operation that forwards. */
  lemma DefaultCreateStreamFails(v: D.View, n: int, b: Bytes)
    requires v.slot.None? && v.opener == D.NotImplementedOpener && !v.noSeek
    ensures D.Get(v, "stream") == (Err(NotImplemented), v)
    ensures D.Read(v, n) == (Err(NotImplemented), v)
    ensures D.Write(v, b) == (Err(NotImplemented), v)
    ensures D.Seek(v, 0, SeekSet) == (Err(NotImplemented), v)
    ensures D.IsSeekable(v) == (Err(NotImplemented), v)
    ensures D.GetSize(v) == (Err(NotImplemented), v)
  {
  }

  /** Any other undeclared property fails with UnexpectedValueException and
      touches nothing, not even an unset stream. */
  lemma UnknownPropertyFails(v: D.View, name: string)
    requires name != "stream"
    ensures D.Get(v, name) == (Err(NotFound(name)), v)
  {
  }

  // ----- forwarding ----------------------------------------------------

  /** getSize, eof, tell, isReadable, isWritable, isSeekable and getMetadata
      answer exactly what the wrapped stream answers and change nothing. */
  lemma QueriesPassThrough(s: Stream, noSeek: bool, key: Option<string>)
    ensures var v := Wrapping(s, noSeek);
      && D.GetSize(v) == (Ok(Size(s)), v)
      && D.Eof(v) == (StreamModel.Eof(s), v)
      && D.Tell(v) == (StreamModel.Tell(s), v)
      && D.IsReadable(v) == (Ok(s.readable), v)
      && D.IsWritable(v) == (Ok(s.writable), v)
      && D.IsSeekable(v) == (Ok(s.seekable && !noSeek), v)
      && D.GetMetadata(v, key) == (Ok(StreamModel.GetMetadata(s, key)), v)
  {
  }

  /** seek forwards offset and whence to the wrapped stream, after which
      decorator and wrapped stream report the same position. */
  lemma SeekPassesThrough(s: Stream, offset: int, whence: int)
    ensures var (r, v1) := D.Seek(Wrapping(s, false), offset, whence);
      && r == StreamModel.Seek(s, offset, whence).0
      && v1 == Wrapping(StreamModel.Seek(s, offset, whence).1, false)
      && (r.Ok? ==> D.Tell(v1).0 == Ok(SeekTarget(s, offset, whence).value)
                    && D.Tell(v1).0 == StreamModel.Tell(v1.slot.value))
  {
  }

  /** A NoSeekStream answers isSeekable with false and refuses seek (and
      therefore rewind) without looking at its stream, set or not. */
  lemma NoSeekNeverTouchesStream(v: D.View, offset: int, whence: int)
    requires v.noSeek
    ensures D.IsSeekable(v) == (Ok(false), v)
    ensures D.Seek(v, offset, whence) == (Err(CannotSeekNoSeek), v)
  {
  }

  /** read(n) returns the wrapped stream's next bytes, never more than
      remain, and decorator and wrapped stream advance by what it returned. */
  lemma ReadIsClamped(s: Stream, n: nat)
    requires s.attached && s.readable
    ensures var (r, v1) := D.Read(Wrapping(s, false), n);
      && r.Ok?
      && |r.value| == Min(n, |s.data| - s.pos)
      && r.value == s.data[s.pos..s.pos + |r.value|]
      && D.Tell(v1).0 == Ok(s.pos + |r.value|)
      && v1 == Wrapping(s.(pos := s.pos + |r.value|), false)
  {
  }

  /** write lands at the wrapped stream's current position: the decorator
      ends up wrapping exactly the stream the wrapped write leaves, whose
      bytes at the old position are the ones written, with what preceded
      them and what they did not cover kept, and nothing else changed. */
  lemma WritePassesThrough(s: Stream, b: Bytes)
    requires s.attached && s.writable
    ensures var (r, v1) := D.Write(Wrapping(s, false), b);
      && r == Ok(|b|)
      && v1 == Wrapping(StreamModel.Write(s, b).1, false)
      && |v1.slot.value.data| == Max(|s.data|, s.pos + |b|)
      && v1.slot.value.data[s.pos..s.pos + |b|] == b
      && v1.slot.value.data[..s.pos] == s.data[..s.pos]
      && v1.slot.value.data[s.pos + |b|..] == s.data[Min(s.pos + |b|, |s.data|)..]
      && v1.slot.value == s.(data := v1.slot.value.data, pos := s.pos + |b|)
      && D.Tell(v1).0 == Ok(s.pos + |b|)
  {
  }

  /** After detach the decorator reports its stream as not readable, not
      writable, not seekable and of unknown size; close leaves the wrapped
      resource closed. */
  lemma DetachAndClosePassThrough(s: Stream)
    requires s.attached
    ensures var (h, v1) := D.Detach(Wrapping(s, false));
      && h == Ok(Some(Handle(s.data, s.pos)))
      && D.IsReadable(v1).0 == Ok(false)
      && D.IsWritable(v1).0 == Ok(false)
      && D.IsSeekable(v1).0 == Ok(false)
      && D.GetSize(v1).0 == Ok(None)
    ensures var (_, v2) := D.Close(Wrapping(s, false));
      v2.slot.value.closed && !v2.slot.value.attached
  {
  }

  // ----- getContents ---------------------------------------------------

  /** getContents returns exactly the bytes from the current position to the
      end and leaves the stream at its end, so an immediate second call
      returns the empty string. */
  lemma GetContentsReadsRemainder(s: Stream, noSeek: bool)
    requires s.attached && s.readable
    ensures var (r, v1) := D.GetContents(Wrapping(s, noSeek));
      && r == Ok(s.data[s.pos..])
      && v1 == Wrapping(s.(pos := |s.data|), noSeek)
      && D.GetContents(v1) == (Ok([]), v1)
  {
  }

  /** getContents on a stream that is not readable fails, unless nothing
      remains to be read; on a detached stream it always fails. */
  lemma GetContentsFailures(s: Stream, noSeek: bool)
    ensures var (r, v1) := D.GetContents(Wrapping(s, noSeek));
      && (!s.attached ==> r == Err(Detached) && v1 == Wrapping(s, noSeek))
      && (s.attached && !s.readable ==>
            r == (if s.pos == |s.data| then Ok([]) else Err(NotReadable)) && v1 == Wrapping(s, noSeek))
  {
  }

  // ----- __toString ----------------------------------------------------

  /** On a seekable stream __toString rewinds first, so it returns the whole
      content whatever the position was, and reports nothing. */
  lemma ToStringRewindsSeekable(s: Stream, rethrows: bool)
    requires s.readable && s.seekable
    ensures D.ToString(Wrapping(s, false), rethrows)
            == (Ok(s.data), Wrapping(s.(pos := |s.data|), false), None)
  {
  }

  /** When the decorator is not seekable, __toString never seeks: it returns
      only the bytes after the current position. */
  lemma ToStringWithoutSeekReadsRemainder(s: Stream, noSeek: bool, rethrows: bool)
    requires s.attached && s.readable && (noSeek || !s.seekable)
    ensures D.ToString(Wrapping(s, noSeek), rethrows)
            == (Ok(s.data[s.pos..]), Wrapping(s.(pos := |s.data|), noSeek), None)
  {
  }

  /** The two runtimes raise and report the same thing: before PHP 7.4 the
      conversion always yields a string, the empty one exactly when an error
      was reported; from 7.4 on nothing is reported and the error reported
      before is the exception thrown now. Both leave the decorator alike. */
  lemma ToStringRecoversOrRethrows(v: D.View)
    ensures var (text, v1, failure) := D.ToString(v, false);
      var (thrown, v2, silent) := D.ToString(v, true);
      && text.Ok?
      && (failure.Some? ==> text.value == [])
      && silent.None?
      && v1 == v2
      && (thrown.Err? <==> failure.Some?)
      && (thrown.Err? ==> thrown.error == failure.value)
      && (thrown.Ok? ==> thrown == text)
  {
  }

  /** A class left with the default createStream converts to "" and reports
      BadMethodCallException before PHP 7.4, and throws it from 7.4 on. */
  lemma ToStringOfDefaultCreateStream(noSeek: bool)
    ensures var v := D.View(None, D.NotImplementedOpener, noSeek);
      && D.ToString(v, false) == (Ok([]), v, Some(NotImplemented))
      && D.ToString(v, true) == (Err(NotImplemented), v, None)
  {
  }

  /** A read that throws during __toString is caught: before PHP 7.4 the
      result is "" and the read failure is what gets reported. */
  lemma ToStringReportsReadFailure(s: Stream, noSeek: bool)
    requires s.attached && !s.readable && s.pos < |s.data|
    ensures var (text, _, failure) := D.ToString(Wrapping(s, noSeek), false);
      text == Ok([]) && failure == Some(NotReadable)
  {
  }

  /** A lazily opened stream is created by the first operation of
      __toString and then read from its start. */
  lemma ToStringOpensLazily(init: Stream, rethrows: bool)
    requires init.readable && init.seekable
    ensures var v := D.View(None, D.Opens(init), false);
      D.ToString(v, rethrows) == (Ok(init.data), D.View(Some(init.(pos := |init.data|)), D.Opens(init), false), None)
  {
  }
}

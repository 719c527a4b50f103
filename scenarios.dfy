/** Client code in the shape of the trait's tests: a decorator and the
    stream it wraps are two handles on one object, so what one does the
    other sees. Everything asserted here follows from the contracts of
    MemoryStream and StreamDecorator and the DecoratorProperties lemmas. */
module DecoratorScenarios {
  import opened StreamErrors
  import opened StreamModel
  import opened MemoryStreams
  import opened StreamDecorators
  import DecoratorModel
  import DecoratorProperties

  /** The bytes of "foo". */
  const Foo: Bytes := [0x66, 0x6f, 0x6f]

  /** A readable, writable, seekable in-memory stream holding "foo" at position 0. */
  function FooStream(): Stream {
    StreamState(Foo, 0, true, true, true, true, false, map["uri" := "php://temp"])
  }

  /** Seeking the decorator moves the wrapped stream: both tell 1, then 0,
      then the size after seeking to the end. */
  method SeekThroughDecorator() {
    var a := new MemoryStream(FooStream());
    var b := new StreamDecorator(a, false);
    var moved := b.Seek(1, SeekSet);
    var ta := a.Tell();
    var tb := b.Tell();
    assert moved == Ok(()) && ta == Ok(1) && tb == Ok(1);
    moved := b.Seek(0, SeekSet);
    ta := a.Tell();
    tb := b.Tell();
    assert moved == Ok(()) && ta == Ok(0) && tb == Ok(0);
    moved := b.Seek(0, SeekEnd);
    ta := a.Tell();
    tb := b.Tell();
    assert moved == Ok(()) && ta == Ok(3) && tb == Ok(3);
  }

  /** read(10) on "foo" gives "foo"; getContents then gives "", and after
      seek(1) gives "oo". */
  method ReadAndGetContents() {
    var a := new MemoryStream(FooStream());
    var b := new StreamDecorator(a, false);
    var r := b.Read(10);
    assert Foo[0..3] == Foo;
    assert r == Ok(Foo);
    var ta := a.Tell();
    assert ta == Ok(3);
    var rest := b.GetContents();
    DecoratorProperties.GetContentsReadsRemainder(a.State(), false);
    assert rest == Ok([]);
    var _ := b.Seek(1, SeekSet);
    DecoratorProperties.GetContentsReadsRemainder(a.State(), false);
    rest := b.GetContents();
    assert rest == Ok(Foo[1..]);
  }

  /** A write after seeking to the end appends to the wrapped stream, whose
      own text conversion then gives "foofoo". */
  method WriteThroughDecorator() {
    var a := new MemoryStream(FooStream());
    var b := new StreamDecorator(a, false);
    var _ := b.Seek(0, SeekEnd);
    var w := b.Write(Foo);
    assert w == Ok(3);
    assert a.data == Foo + Foo;
    var c := new StreamDecorator(a, false);
    DecoratorProperties.ToStringRewindsSeekable(a.State(), true);
    var text := c.ToString(true);
    assert text == Ok(Foo + Foo);
  }

  /** A NoSeekStream over a stream at position 1 converts to "oo" and leaves
      the wrapped stream at its end. */
  method NoSeekToString() {
    var s := new MemoryStream(FooStream().(pos := 1));
    var wrapped := new StreamDecorator(s, true);
    DecoratorProperties.ToStringWithoutSeekReadsRemainder(s.State(), true, true);
    var text := wrapped.ToString(true);
    assert text == Ok(Foo[1..]);
    assert s.pos == 3;
  }

  /** A class left with the default createStream fails on `stream`; an
      unknown property fails with its own name. Before PHP 7.4 its text
      conversion yields "" and reports the failure. */
  method DefaultCreateStream() {
    var bad := new StreamDecorator.Deferred(DecoratorModel.NotImplementedOpener, false);
    var got := bad.Get("stream");
    assert got.Err? && got.error == NotImplemented;
    got := bad.Get("foo");
    assert got.Err? && got.error == NotFound("foo");
    var text := bad.ToString(false);
    assert text == Ok([]) && bad.reported == [NotImplemented];
  }

  /** A lazily opening decorator creates its stream on first use and keeps
      using that one: a write followed by a text conversion sees the write. */
  method LazyOpenKeepsOneStream() {
    var l := new StreamDecorator.Deferred(DecoratorModel.Opens(FooStream().(data := [])), false);
    var w := l.Write(Foo);
    assert w == Ok(3);
    var created := l.stream;
    assert created != null && created.data == Foo;
    DecoratorProperties.ToStringRewindsSeekable(created.State(), true);
    var text := l.ToString(true);
    assert l.stream == created;
    assert text == Ok(Foo);
  }

  /** After detach the decorator is no longer readable. */
  method DetachThroughDecorator() {
    var a := new MemoryStream(FooStream());
    var b := new StreamDecorator(a, false);
    var h := b.Detach();
    assert h == Ok(Some(Handle(Foo, 0)));
    var readable := b.IsReadable();
    assert readable == Ok(false);
    var _ := b.Close();
    assert !a.attached;
  }
}

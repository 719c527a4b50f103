/** StreamDecoratorTrait as a class: the `stream` property holds a reference
    to the wrapped stream, set by the constructor or on first access through
    createStream, and every operation forwards to that object. Each method is
    proved to act as the matching DecoratorModel function on the decorator's
    View, and never to swap a set stream for another one. */
module StreamDecorators {
  import opened StreamErrors
  import opened StreamModel
  import opened MemoryStreams
  import DecoratorModel

  class StreamDecorator {
    /** The `stream` property; null while it is unset. */
    var stream: MemoryStream?
    /** What createStream does in the class using the trait. */
    const opener: DecoratorModel.Opener
    /** Whether the class overrides seek and isSeekable away (NoSeekStream). */
    const noSeek: bool
    /** Errors __toString has reported through trigger_error. */
    ghost var reported: seq<StreamError>

    ghost predicate Valid()
      reads this, stream
    {
      stream != null ==> stream.Valid()
    }

    /** The decorator as a value, with the wrapped stream's current state. */
    function View(): DecoratorModel.View
      reads this, stream
      requires Valid()
    {
      DecoratorModel.View(if stream == null then None else Some(stream.State()), opener, noSeek)
    }

    /** A set `stream` is never replaced; an unset one is only ever filled
        with a newly created stream. */
    twostate predicate SlotKept()
      reads this
    {
      if old(stream) != null then stream == old(stream) else stream == null || fresh(stream)
    }

    /** __construct(StreamInterface $stream). */
    constructor (s: MemoryStream, noSeek: bool)
      requires s.Valid()
      ensures Valid() && stream == s && reported == []
      ensures View() == DecoratorModel.View(Some(s.State()), DecoratorModel.NotImplementedOpener, noSeek)
    {
      stream := s;
      opener := DecoratorModel.NotImplementedOpener;
      this.noSeek := noSeek;
      reported := [];
    }

    /** A class using the trait whose own constructor leaves `stream` unset
        (a lazily opening decorator, or a class left with the default
        createStream). */
    constructor Deferred(opener: DecoratorModel.Opener, noSeek: bool)
      ensures Valid() && stream == null && reported == []
      ensures View() == DecoratorModel.View(None, opener, noSeek)
    {
      stream := null;
      this.opener := opener;
      this.noSeek := noSeek;
      reported := [];
    }

    /** createStream: a fresh stream, or the exception the class raises. */
    method CreateStream() returns (r: Result<MemoryStream>)
      ensures r.Ok? ==> fresh(r.value) && r.value.Valid()
      ensures var c := DecoratorModel.CreateStream(opener);
        && (r.Ok? <==> c.Ok?)
        && (r.Ok? ==> r.value.State() == c.value)
        && (r.Err? ==> r.error == c.error)
    {
      match opener
      case NotImplementedOpener =>
        r := Err(NotImplemented);
      case FailsToOpen =>
        r := Err(OpenFailed);
      case Opens(s) =>
        var created := new MemoryStream(s);
        r := Ok(created);
    }

    /** Reading `$this->stream`: __get('stream') runs only while it is unset. */
    method Stream() returns (r: Result<MemoryStream>)
      requires Valid()
      modifies this
      ensures Valid() && SlotKept() && reported == old(reported)
      ensures r.Ok? ==> stream == r.value
      ensures var (a, v) := DecoratorModel.Acquire(old(View()));
        && View() == v
        && (r.Ok? <==> a.Ok?)
        && (r.Err? ==> r.error == a.error)
    {
      if stream != null {
        return Ok(stream);
      }
      var created := CreateStream();
      if created.Err? {
        return Err(created.error);
      }
      stream := created.value;
      r := Ok(stream);
    }

    /** Reading `$this->name` for a name the class does not declare. */
    method Get(name: string) returns (r: Result<MemoryStream>)
      requires Valid()
      modifies this
      ensures Valid() && SlotKept() && reported == old(reported)
      ensures r.Ok? ==> stream == r.value
      ensures var (a, v) := DecoratorModel.Get(old(View()), name);
        && View() == v
        && (r.Ok? <==> a.Ok?)
        && (r.Err? ==> r.error == a.error)
    {
      if name == "stream" {
        r := Stream();
      } else {
        r := Err(NotFound(name));
      }
    }

    method Close() returns (r: Result<()>)
      requires Valid()
      modifies this, stream
      ensures Valid() && SlotKept() && reported == old(reported)
      ensures (r, View()) == DecoratorModel.Close(old(View()))
    {
      var s :- Stream();
      s.Close();
      r := Ok(());
    }

    method GetMetadata(key: Option<string>) returns (r: Result<Metadata>)
      requires Valid()
      modifies this
      ensures Valid() && SlotKept() && reported == old(reported)
      ensures (r, View()) == DecoratorModel.GetMetadata(old(View()), key)
    {
      var s :- Stream();
      var m := s.GetMetadata(key);
      r := Ok(m);
    }

    method Detach() returns (r: Result<Option<Handle>>)
      requires Valid()
      modifies this, stream
      ensures Valid() && SlotKept() && reported == old(reported)
      ensures (r, View()) == DecoratorModel.Detach(old(View()))
    {
      var s :- Stream();
      var h := s.Detach();
      r := Ok(h);
    }

    method GetSize() returns (r: Result<Option<nat>>)
      requires Valid()
      modifies this
      ensures Valid() && SlotKept() && reported == old(reported)
      ensures (r, View()) == DecoratorModel.GetSize(old(View()))
    {
      var s :- Stream();
      var size := s.GetSize();
      r := Ok(size);
    }

    method Eof() returns (r: Result<bool>)
      requires Valid()
      modifies this
      ensures Valid() && SlotKept() && reported == old(reported)
      ensures (r, View()) == DecoratorModel.Eof(old(View()))
      ensures old(stream) != null ==> r == StreamModel.Eof(stream.State()) && stream.State() == old(stream.State())
    {
      var s :- Stream();
      r := s.Eof();
    }

    method Tell() returns (r: Result<nat>)
      requires Valid()
      modifies this
      ensures Valid() && SlotKept() && reported == old(reported)
      ensures (r, View()) == DecoratorModel.Tell(old(View()))
    {
      var s :- Stream();
      r := s.Tell();
    }

    method IsReadable() returns (r: Result<bool>)
      requires Valid()
      modifies this
      ensures Valid() && SlotKept() && reported == old(reported)
      ensures (r, View()) == DecoratorModel.IsReadable(old(View()))
    {
      var s :- Stream();
      var b := s.IsReadable();
      r := Ok(b);
    }

    method IsWritable() returns (r: Result<bool>)
      requires Valid()
      modifies this
      ensures Valid() && SlotKept() && reported == old(reported)
      ensures (r, View()) == DecoratorModel.IsWritable(old(View()))
    {
      var s :- Stream();
      var b := s.IsWritable();
      r := Ok(b);
    }

    method IsSeekable() returns (r: Result<bool>)
      requires Valid()
      modifies this
      ensures Valid() && SlotKept() && reported == old(reported)
      ensures (r, View()) == DecoratorModel.IsSeekable(old(View()))
    {
      if noSeek {
        return Ok(false);
      }
      var s :- Stream();
      var b := s.IsSeekable();
      r := Ok(b);
    }

    /** rewind is $this->seek(0), so an overriding seek applies to it too. */
    method Rewind() returns (r: Result<()>)
      requires Valid()
      modifies this, stream
      ensures Valid() && SlotKept() && reported == old(reported)
      ensures (r, View()) == DecoratorModel.Seek(old(View()), 0, SeekSet)
    {
      r := Seek(0, SeekSet);
    }

    method Seek(offset: int, whence: int) returns (r: Result<()>)
      requires Valid()
      modifies this, stream
      ensures Valid() && SlotKept() && reported == old(reported)
      ensures (r, View()) == DecoratorModel.Seek(old(View()), offset, whence)
    {
      if noSeek {
        return Err(CannotSeekNoSeek);
      }
      var s :- Stream();
      r := s.Seek(offset, whence);
    }

    method Read(n: int) returns (r: Result<Bytes>)
      requires Valid()
      modifies this, stream
      ensures Valid() && SlotKept() && reported == old(reported)
      ensures (r, View()) == DecoratorModel.Read(old(View()), n)
      ensures old(stream) != null ==> (r, stream.State()) == StreamModel.Read(old(stream.State()), n)
    {
      var s :- Stream();
      r := s.Read(n);
    }

    method Write(b: Bytes) returns (r: Result<nat>)
      requires Valid()
      modifies this, stream
      ensures Valid() && SlotKept() && reported == old(reported)
      ensures (r, View()) == DecoratorModel.Write(old(View()), b)
    {
      var s :- Stream();
      r := s.Write(b);
    }

    /** getContents, i.e. copy_to_string($this). Its first `$this->eof()` is
        the first access to `$this->stream`, which sets it when unset. */
    method GetContents() returns (r: Result<Bytes>)
      requires Valid()
      modifies this, stream
      ensures Valid() && SlotKept() && reported == old(reported)
      ensures (r, View()) == DecoratorModel.GetContents(old(View()))
    {
      var _ :- Stream();
      r := CopyRemaining();
    }

    /** The loop of copy_to_string on a decorator whose stream is set: read
        chunks until eof or until a read comes back empty. */
    method CopyRemaining() returns (r: Result<Bytes>)
      requires Valid() && stream != null
      modifies this, stream
      ensures Valid() && stream == old(stream) && reported == old(reported)
      ensures (r, stream.State()) == CopyToString(old(stream.State()))
    {
      var buffer: Bytes := [];
      ghost var s0 := stream.State();
      ghost var wrapped := stream;
      assert CopyToString(s0).0.Ok? ==> [] + CopyToString(s0).0.value == CopyToString(s0).0.value;
      while true
        invariant stream == wrapped && stream.Valid() && reported == old(reported)
        invariant CopyToString(s0) == (Prepend(buffer, CopyToString(stream.State()).0), CopyToString(stream.State()).1)
        decreases |stream.data| - stream.pos
      {
        var atEnd :- Eof();
        if atEnd {
          break;
        }
        CopyToStringStep(stream.State());
        var buf :- Read(ReadChunk);
        if buf == [] {
          break;
        }
        PrependTwice(buffer, buf, CopyToString(stream.State()).0);
        buffer := buffer + buf;
      }
      assert buffer + [] == buffer;
      r := Ok(buffer);
    }

    /** __toString: rewind when seekable, then getContents; any exception is
        rethrown from PHP 7.4 on (`rethrows`), and before that reported and
        answered with the empty string. */
    method ToString(rethrows: bool) returns (r: Result<Bytes>)
      requires Valid()
      modifies this, stream
      ensures Valid() && SlotKept()
      ensures var (text, v, failure) := DecoratorModel.ToString(old(View()), rethrows);
        && r == text
        && View() == v
        && reported == old(reported) + (if failure.Some? then [failure.value] else [])
    {
      var seekable := IsSeekable();
      if seekable.Err? {
        r := Recover(seekable.error, rethrows);
        return;
      }
      if seekable.value {
        var moved := Seek(0, SeekSet);
        if moved.Err? {
          r := Recover(moved.error, rethrows);
          return;
        }
      }
      r := GetContents();
      if r.Err? {
        r := Recover(r.error, rethrows);
      }
    }

    /** The catch block of __toString. */
    method Recover(e: StreamError, rethrows: bool) returns (r: Result<Bytes>)
      modifies this`reported
      ensures r == (if rethrows then Err(e) else Ok([]))
      ensures reported == old(reported) + (if rethrows then [] else [e])
    {
      if rethrows {
        r := Err(e);
      } else {
        reported := reported + [e];
        r := Ok([]);
      }
    }
  }
}

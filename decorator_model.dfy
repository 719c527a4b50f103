/** StreamDecoratorTrait as a value: the decorator's wrapped-stream slot, the
    createStream behaviour of the class using the trait, and whether that class
    overrides seeking away (as NoSeekStream does). Every trait operation is a
    function from the decorator before the call to its answer and the
    decorator after it. */
module DecoratorModel {
  import opened StreamErrors
  import opened StreamModel
  import StreamProperties

  /** What createStream does in the class that uses the trait: the trait's
      own default throws; a lazily opening decorator produces a fresh stream
      over its resource, or fails to open it. */
  datatype Opener = NotImplementedOpener | FailsToOpen | Opens(initial: Stream)

  /** The decorator: `slot` is the `stream` property (None while unset). */
  datatype View = View(slot: Option<Stream>, opener: Opener, noSeek: bool)

  /** createStream. */
  function CreateStream(o: Opener): (r: Result<Stream>)
    ensures r.Ok? <==> o.Opens?
    ensures r.Ok? ==> r.value == o.initial
    ensures o.NotImplementedOpener? ==> r == Err(NotImplemented)
  {
    match o
    case NotImplementedOpener => Err(NotImplemented)
    case FailsToOpen => Err(OpenFailed)
    case Opens(s) => Ok(s)
  }

  /** Reading the `stream` property: the stored stream when set; otherwise
      __get('stream') stores whatever createStream produces. A failed creation
      leaves the slot unset. */
  function Acquire(v: View): (r: (Result<Stream>, View))
    ensures r.1.opener == v.opener && r.1.noSeek == v.noSeek
    ensures v.slot.Some? ==> r == (Ok(v.slot.value), v)
    ensures v.slot.None? ==> r.0 == CreateStream(v.opener)
    ensures r.0.Ok? ==> r.1.slot == Some(r.0.value)
    ensures r.0.Err? ==> r.1 == v
  {
    if v.slot.Some? then (Ok(v.slot.value), v)
    else
      match CreateStream(v.opener)
      case Ok(s) => (Ok(s), v.(slot := Some(s)))
      case Err(e) => (Err(e), v)
  }

  /** `$this->stream->op(...)`: acquire the wrapped stream, apply the
      operation to it, and keep the stream it leaves behind. */
  function Forward<T>(v: View, op: Stream -> (Result<T>, Stream)): (r: (Result<T>, View))
    ensures r.1.opener == v.opener && r.1.noSeek == v.noSeek
    ensures Acquire(v).0.Err? ==> r == (Err(Acquire(v).0.error), v)
    ensures Acquire(v).0.Ok? ==> var s := Acquire(v).0.value;
      r == (op(s).0, v.(slot := Some(op(s).1)))
  {
    match Acquire(v)
    case (Err(e), v1) => (Err(e), v1)
    case (Ok(s), v1) =>
      var (x, s1) := op(s);
      (x, v1.(slot := Some(s1)))
  }

  /** The property access `$this->name`: only `stream` is known. */
  function Get(v: View, name: string): (r: (Result<Stream>, View))
    ensures name != "stream" ==> r == (Err(NotFound(name)), v)
    ensures name == "stream" ==> r == Acquire(v)
  {
    if name == "stream" then Acquire(v) else (Err(NotFound(name)), v)
  }

  function Close(v: View): (Result<()>, View) {
    Forward(v, s => (Ok(()), StreamModel.Close(s)))
  }

  function GetMetadata(v: View, key: Option<string>): (Result<Metadata>, View) {
    Forward(v, s => (Ok(StreamModel.GetMetadata(s, key)), s))
  }

  function Detach(v: View): (Result<Option<Handle>>, View) {
    Forward(v, s => var (h, s1) := StreamModel.Detach(s); (Ok(h), s1))
  }

  function GetSize(v: View): (Result<Option<nat>>, View) {
    Forward(v, s => (Ok(StreamModel.Size(s)), s))
  }

  function Eof(v: View): (Result<bool>, View) {
    Forward(v, s => (StreamModel.Eof(s), s))
  }

  function Tell(v: View): (Result<nat>, View) {
    Forward(v, s => (StreamModel.Tell(s), s))
  }

  function IsReadable(v: View): (Result<bool>, View) {
    Forward(v, (s: Stream) => (Ok(s.readable), s))
  }

  function IsWritable(v: View): (Result<bool>, View) {
    Forward(v, (s: Stream) => (Ok(s.writable), s))
  }

  /** isSeekable; a NoSeekStream answers false without touching its stream. */
  function IsSeekable(v: View): (Result<bool>, View) {
    if v.noSeek then (Ok(false), v) else Forward(v, (s: Stream) => (Ok(s.seekable), s))
  }

  /** seek; a NoSeekStream refuses without touching its stream. */
  function Seek(v: View, offset: int, whence: int): (Result<()>, View) {
    if v.noSeek then (Err(CannotSeekNoSeek), v)
    else Forward(v, s => StreamModel.Seek(s, offset, whence))
  }

  function Read(v: View, n: int): (Result<Bytes>, View) {
    Forward(v, s => StreamModel.Read(s, n))
  }

  function Write(v: View, b: Bytes): (Result<nat>, View) {
    Forward(v, s => StreamModel.Write(s, b))
  }

  /** getContents is copy_to_string($this); the trait's eof and read reach the
      wrapped stream unchanged, so the loop runs on the wrapped stream, and
      what it computes is that stream drained. */
  function GetContents(v: View): (r: (Result<Bytes>, View))
    ensures Acquire(v).0.Err? ==> r == (Err(Acquire(v).0.error), v)
    ensures Acquire(v).0.Ok? ==> var s := Acquire(v).0.value;
      r == (Drained(s).0, v.(slot := Some(Drained(s).1)))
  {
    var a := Acquire(v).0;
    if a.Ok? then
      StreamProperties.CopyToStringDrains(a.value);
      Forward(v, CopyToString)
    else Forward(v, CopyToString)
  }

  /** The catch block of __toString: from PHP 7.4 on the exception is
      rethrown; before, it is reported and the text is empty. The third
      component is the error reported, if any. */
  function Recover(e: StreamError, v: View, rethrows: bool): (r: (Result<Bytes>, View, Option<StreamError>))
    ensures r.1 == v
    ensures r.0.Ok? <==> !rethrows
    ensures r.0.Ok? ==> r.0.value == [] && r.2 == Some(e)
    ensures r.0.Err? ==> r.0.error == e && r.2 == None
  {
    if rethrows then (Err(e), v, None) else (Ok([]), v, Some(e))
  }

  /** __toString: rewind when seekable, then getContents. Before PHP 7.4 it
      always yields a string; an error is either reported, with the empty
      string as the text, or thrown, never both. */
  function ToString(v: View, rethrows: bool): (r: (Result<Bytes>, View, Option<StreamError>))
    ensures r.1.opener == v.opener && r.1.noSeek == v.noSeek
    ensures !rethrows ==> r.0.Ok?
    ensures rethrows ==> r.2.None?
    ensures r.2.Some? ==> r.0 == Ok([])
    ensures r.0.Err? ==> rethrows
  {
    var (seekable, v1) := IsSeekable(v);
    match seekable
    case Err(e) => Recover(e, v1, rethrows)
    case Ok(canSeek) =>
      var (moved, v2) := if canSeek then Seek(v1, 0, SeekSet) else (Ok(()), v1);
      match moved
      case Err(e) => Recover(e, v2, rethrows)
      case Ok(_) =>
        var (contents, v3) := GetContents(v2);
        match contents
        case Err(e) => Recover(e, v3, rethrows)
        case Ok(text) => (Ok(text), v3, None)
  }
}

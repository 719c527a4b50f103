# StreamDecoratorTrait, modelled in Dafny

This project models `GuzzleHttp\Psr7\StreamDecoratorTrait`. The trait gives a
class the whole PSR-7 `StreamInterface` by forwarding every call to the wrapped
stream held in its `stream` property. Two things make it more than a list of
forwarders:

- Lazy creation. The `stream` property can be left unset by the class's
  constructor. Then the first access goes through `__get('stream')`, which
  stores whatever `createStream()` returns. LazyOpenStream opens its file this
  way. The trait's own `createStream()` throws `BadMethodCallException`, and any
  other unknown property throws `UnexpectedValueException`.
- Conversions. `getContents()` is `copy_to_string($this)`, a loop that reads
  chunks until eof. `__toString()` first rewinds, but only when the decorator is
  seekable, and then reads the contents. If anything throws, PHP 7.4 and later
  rethrow it. Older versions report it through `trigger_error` and, when an
  error handler returns, give `""`.

The model has two layers.

- Values. `StreamModel` is the wrapped stream as a value: bytes, a position,
  capability flags, attached or detached, closed, and metadata. Each stream
  operation is a function from the state before the call to the answer and the
  state after it. `DecoratorModel` is the decorator as a value (`View`). It holds
  the `stream` slot, the class's `createStream` behaviour (`Opener`), and whether
  the class overrides seeking away the way NoSeekStream does (`noSeek`). Every
  trait operation is a function on `View`. `CopyToString` is the read loop of
  `copy_to_string`. `Drained` says what reading to the end means, without a loop.
- Objects. `MemoryStreams.MemoryStream` is the wrapped stream as a mutable
  object. `StreamDecorators.StreamDecorator` is the trait as a class. Its
  `stream` field is a reference to that object, so the decorator and any other
  holder of the stream see each other's changes, as the trait's tests rely on.
  Each method is proved to act as its `DecoratorModel` function on `View()`, and
  never to replace a stream once it is set (`SlotKept`). `GetContents` acquires the
  stream and then runs `CopyRemaining`, the `while` loop of `copy_to_string`,
  which is proved against `CopyToString`.

`StreamProperties` and `DecoratorProperties` prove what the trait promises
about these functions. `DecoratorScenarios` replays the trait's tests as client
code on the objects.

The wrapped stream's behaviour is a deliberate abstraction of an in-memory PHP
stream:
- a seek must land inside `[0, size]`;
- `eof` holds exactly when the position is at the end;
- a detached stream refuses reads, writes, seeks and `tell`, and reports no
  capability;
- `close` closes the resource and detaches it; a closed resource is never still attached.

`__toString` is usually described as never raising, but the code rethrows
from PHP 7.4 on (src/StreamDecoratorTrait.php:48-50). The model follows the
code: the PHP version is the `rethrows` parameter.

## Model

| member | source | states |
|---|---|---|
| DecoratorModel.CreateStream | src/StreamDecoratorTrait.php:148-151 | the trait's default createStream fails with BadMethodCallException; only an opening class yields a stream, and then exactly its initial stream |
| DecoratorModel.Acquire | src/StreamDecoratorTrait.php:30-35 | a set `stream` is answered unchanged; an unset one is filled with what createStream yields; a failed creation leaves the decorator untouched |
| DecoratorModel.Forward | src/StreamDecoratorTrait.php:76-139 | a forwarded call fails with the creation error without touching anything, or applies the stream operation to the acquired stream and keeps the stream it leaves behind |
| DecoratorModel.GetContents | src/StreamDecoratorTrait.php:56-59 | getContents fails with the creation error and changes nothing, or returns the acquired stream drained: its remaining bytes, with the stream left at its end |
| DecoratorModel.Recover | src/StreamDecoratorTrait.php:47-53 | the catch block leaves the decorator as it is; from PHP 7.4 on it throws the caught error and reports nothing, before that it reports the error and yields "" |
| DecoratorModel.ToString | src/StreamDecoratorTrait.php:40-54 | before PHP 7.4 the conversion always yields a string; from 7.4 on it reports nothing; a reported error comes with the text "", and only a 7.4 run throws |
| DecoratorModel.Get | src/StreamDecoratorTrait.php:30-38 | `stream` is acquired; any other name fails with UnexpectedValueException naming it and changes nothing |
| DecoratorProperties.LazyCreationHappensOnce | src/StreamDecoratorTrait.php:30-35 | the first access stores the created stream, and a second access returns that same stream without creating another; a failed creation is retried on the next access |
| DecoratorProperties.SetStreamIsReused | src/StreamDecoratorTrait.php:76-139 | with the stream set, every forwarded operation acts on that stream and the slot keeps the stream the operation left |
| DecoratorProperties.DefaultCreateStreamFails | tests/StreamDecoratorTraitTest.php:132-147 | without a stream and with the default createStream, reading `stream`, read, write, seek, isSeekable and getSize all fail with BadMethodCallException and change nothing |
| DecoratorProperties.UnknownPropertyFails | tests/StreamDecoratorTraitTest.php:126-130 | reading any property other than `stream` fails with UnexpectedValueException and changes nothing, not even an unset stream |
| DecoratorProperties.QueriesPassThrough | src/StreamDecoratorTrait.php:81-119 | getSize, eof, tell, isReadable, isWritable, isSeekable and getMetadata answer what the wrapped stream answers and change nothing |
| DecoratorProperties.SeekPassesThrough | src/StreamDecoratorTrait.php:121-129 | seek has the wrapped stream's outcome and effect, and after a successful seek both report the target position |
| DecoratorProperties.NoSeekNeverTouchesStream | tests/NoSeekStreamTest.php:17-27 | a NoSeekStream answers isSeekable with false and refuses seek without looking at its stream, set or not |
| DecoratorProperties.ReadIsClamped | src/StreamDecoratorTrait.php:131-134 | read(n) returns the next min(n, remaining) bytes of the wrapped stream, and both advance by that many |
| DecoratorProperties.WritePassesThrough | src/StreamDecoratorTrait.php:136-139 | write returns the length written and leaves the decorator wrapping exactly the stream the wrapped write leaves: the bytes at the old position, what precedes them and what they did not cover kept, the new length, the position past them, and every flag and the metadata unchanged |
| DecoratorProperties.DetachAndClosePassThrough | src/StreamDecoratorTrait.php:76-89 | detach hands back the wrapped resource, after which the decorator is not readable, writable or seekable and has no size; close leaves the wrapped resource closed and detached |
| DecoratorProperties.GetContentsReadsRemainder | src/StreamDecoratorTrait.php:56-59 | getContents returns exactly the bytes from the current position to the end, leaves the stream at its end, and an immediate second call returns "" |
| DecoratorProperties.GetContentsFailures | src/StreamDecoratorTrait.php:56-59 | getContents fails on a detached stream, and on an unreadable one unless nothing remains; a failure leaves the decorator unchanged |
| DecoratorProperties.ToStringRewindsSeekable | src/StreamDecoratorTrait.php:40-46 | on a seekable, readable stream __toString returns the whole content whatever the position, reports nothing, and leaves the stream at its end |
| DecoratorProperties.ToStringWithoutSeekReadsRemainder | tests/NoSeekStreamTest.php:29-37 | when the decorator is not seekable, __toString does not rewind and returns only the bytes after the current position |
| DecoratorProperties.ToStringRecoversOrRethrows | src/StreamDecoratorTrait.php:47-53 | before PHP 7.4 the conversion always yields a string, "" when it reports an error; from 7.4 on it reports nothing and throws exactly that error; both leave the decorator in the same state |
| DecoratorProperties.ToStringOfDefaultCreateStream | src/StreamDecoratorTrait.php:40-53 | a class with the default createStream converts to "" and reports BadMethodCallException before PHP 7.4, and throws it from 7.4 on |
| DecoratorProperties.ToStringReportsReadFailure | tests/StreamDecoratorTraitTest.php:41-56 | a read that throws during __toString before PHP 7.4 gives "" and reports the read's exception |
| DecoratorProperties.ToStringOpensLazily | src/StreamDecoratorTrait.php:30-46 | a lazily opening decorator creates its stream during __toString and returns the stream's whole content |
| StreamModel.Read | tests/StreamDecoratorTraitTest.php:68-71 | read(n) fails exactly on a detached or unreadable stream or a negative length; otherwise it returns min(n, remaining) bytes from the position and advances by that many |
| StreamModel.Write | tests/StreamDecoratorTraitTest.php:119-124 | write fails exactly on a detached or unwritable stream; otherwise the bytes overwrite from the position, the prefix and the uncovered suffix are kept, and the position moves past them |
| StreamModel.Seek | tests/StreamDecoratorTraitTest.php:80-91 | seek succeeds exactly when the stream is attached and seekable and the target lies in [0, size], and then moves the position there; otherwise nothing changes |
| StreamModel.Eof | tests/LazyOpenStreamTest.php:40-46 | eof fails on a detached stream, and otherwise holds exactly when nothing remains |
| StreamModel.Detach | tests/StreamDecoratorTraitTest.php:107-111 | detach hands back the resource with its bytes and position exactly when attached, and leaves the stream without any capability |
| StreamModel.Close | tests/StreamDecoratorTraitTest.php:101-105 | close on an attached stream closes and detaches it; on a detached one it changes nothing; either way the stream ends detached with no capability, and bytes and position are kept |
| StreamModel.CopyToString | tests/FunctionsTest.php:17-25 | copy_to_string's read loop only moves the position forward and changes nothing else, returns exactly the bytes it passed over, and fails only on a detached or unreadable stream |
| StreamModel.Drained | tests/FunctionsTest.php:17-25 | reading to the end yields the remaining bytes and leaves the stream at its end; it fails on a detached stream, and on an unreadable one with bytes left |
| StreamProperties.CopyToStringDrains | tests/FunctionsTest.php:17-25 | copy_to_string's chunked read loop computes exactly Drained, for any stream |
| StreamProperties.ConsecutiveReads | tests/FunctionsTest.php:21-24 | read(m) then read(n) returns the same bytes, and leaves the same stream, as read(m + n) |
| StreamProperties.ReadAllThenEof | tests/LazyOpenStreamTest.php:40-46 | reading the whole content from position 0 returns it, after which eof holds and a further read returns "" |
| StreamProperties.WriteThenReadBack | tests/LazyOpenStreamTest.php:30-38 | what is written reads back after seeking to where the write began |
| StreamProperties.WriteAtEndAppends | tests/StreamDecoratorTraitTest.php:119-124 | a write at the end appends to the content |
| StreamProperties.DetachedStreamIsInert | tests/StreamDecoratorTraitTest.php:107-111 | a detached stream refuses read, write, seek, tell and eof, reports no size, capability or metadata, and a second detach hands back nothing |
| StreamProperties.CloseReleasesResource | tests/StreamDecoratorTraitTest.php:101-105 | close marks the resource closed, keeps the content, and nothing is left to detach |
| MemoryStreams.MemoryStream.Read | tests/StreamDecoratorTraitTest.php:68-71 | the object's read acts as StreamModel.Read on its state |
| MemoryStreams.MemoryStream.Write | tests/StreamDecoratorTraitTest.php:119-124 | the object's write acts as StreamModel.Write on its state |
| MemoryStreams.MemoryStream.Seek | tests/StreamDecoratorTraitTest.php:80-91 | the object's seek acts as StreamModel.Seek on its state |
| MemoryStreams.MemoryStream.constructor | tests/StreamDecoratorTraitTest.php:29-35 | builds a stream object whose State() is exactly the given stream, as `stream_for` does over an open resource |
| MemoryStreams.MemoryStream.IsReadable | tests/StreamDecoratorTraitTest.php:73-78 | the object's isReadable answers its readable flag |
| MemoryStreams.MemoryStream.IsWritable | tests/StreamDecoratorTraitTest.php:73-78 | the object's isWritable answers its writable flag |
| MemoryStreams.MemoryStream.IsSeekable | tests/StreamDecoratorTraitTest.php:73-78 | the object's isSeekable answers its seekable flag |
| MemoryStreams.MemoryStream.GetSize | tests/StreamDecoratorTraitTest.php:63-66 | the object's getSize acts as StreamModel.Size on its state |
| MemoryStreams.MemoryStream.Tell | tests/StreamDecoratorTraitTest.php:80-91 | the object's tell acts as StreamModel.Tell on its state |
| MemoryStreams.MemoryStream.Eof | tests/LazyOpenStreamTest.php:40-46 | the object's eof acts as StreamModel.Eof on its state |
| MemoryStreams.MemoryStream.GetMetadata | tests/StreamDecoratorTraitTest.php:113-117 | the object's getMetadata acts as StreamModel.GetMetadata on its state |
| MemoryStreams.MemoryStream.Detach | tests/StreamDecoratorTraitTest.php:107-111 | the object's detach acts as StreamModel.Detach on its state |
| MemoryStreams.MemoryStream.Close | tests/StreamDecoratorTraitTest.php:101-105 | the object's close acts as StreamModel.Close on its state |
| StreamDecorators.StreamDecorator.constructor | src/StreamDecoratorTrait.php:16-22 | __construct stores the given stream object as `stream` |
| StreamDecorators.StreamDecorator.Deferred | tests/StreamDecoratorTraitTest.php:140-147 | a class whose constructor does not call the trait's leaves `stream` unset, with its own createStream behaviour |
| StreamDecorators.StreamDecorator.Stream | src/StreamDecoratorTrait.php:30-35 | reading `stream` acts as Acquire, stores a freshly created object only while unset, and never replaces a set one |
| StreamDecorators.StreamDecorator.Get | src/StreamDecoratorTrait.php:30-38 | property access acts as DecoratorModel.Get |
| StreamDecorators.StreamDecorator.CreateStream | src/StreamDecoratorTrait.php:141-151 | createStream yields a fresh object in the opener's initial state, or the opener's error |
| StreamDecorators.StreamDecorator.Close | src/StreamDecoratorTrait.php:76-79 | close on the wrapped object acts as DecoratorModel.Close |
| StreamDecorators.StreamDecorator.GetMetadata | src/StreamDecoratorTrait.php:81-84 | getMetadata acts as DecoratorModel.GetMetadata |
| StreamDecorators.StreamDecorator.Detach | src/StreamDecoratorTrait.php:86-89 | detach acts as DecoratorModel.Detach |
| StreamDecorators.StreamDecorator.GetSize | src/StreamDecoratorTrait.php:91-94 | getSize acts as DecoratorModel.GetSize |
| StreamDecorators.StreamDecorator.Eof | src/StreamDecoratorTrait.php:96-99 | eof acts as DecoratorModel.Eof and changes no stream |
| StreamDecorators.StreamDecorator.Tell | src/StreamDecoratorTrait.php:101-104 | tell acts as DecoratorModel.Tell |
| StreamDecorators.StreamDecorator.IsReadable | src/StreamDecoratorTrait.php:106-109 | isReadable acts as DecoratorModel.IsReadable |
| StreamDecorators.StreamDecorator.IsWritable | src/StreamDecoratorTrait.php:111-114 | isWritable acts as DecoratorModel.IsWritable |
| StreamDecorators.StreamDecorator.IsSeekable | src/StreamDecoratorTrait.php:116-119 | isSeekable acts as DecoratorModel.IsSeekable |
| StreamDecorators.StreamDecorator.Rewind | src/StreamDecoratorTrait.php:121-124 | rewind acts exactly as seek(0, SEEK_SET) |
| StreamDecorators.StreamDecorator.Seek | src/StreamDecoratorTrait.php:126-129 | seek acts as DecoratorModel.Seek on the wrapped object |
| StreamDecorators.StreamDecorator.Read | src/StreamDecoratorTrait.php:131-134 | read acts as DecoratorModel.Read, and on a set stream as StreamModel.Read on the wrapped object |
| StreamDecorators.StreamDecorator.Write | src/StreamDecoratorTrait.php:136-139 | write acts as DecoratorModel.Write |
| StreamDecorators.StreamDecorator.GetContents | src/StreamDecoratorTrait.php:56-59 | the read loop acts as DecoratorModel.GetContents, which GetContentsReadsRemainder shows returns the remainder |
| StreamDecorators.StreamDecorator.CopyRemaining | tests/FunctionsTest.php:17-25 | the while loop over eof and read computes CopyToString of the wrapped object's state |
| StreamDecorators.StreamDecorator.ToString | src/StreamDecoratorTrait.php:40-54 | __toString acts as DecoratorModel.ToString, and appends to the reported errors exactly the error it reports |
| StreamDecorators.StreamDecorator.Recover | src/StreamDecoratorTrait.php:47-53 | the catch block rethrows from PHP 7.4 on, and otherwise reports the error and returns "" |

## Left out

- `__call` (src/StreamDecoratorTrait.php:66-74) is not modelled. It calls an arbitrary method by name on the wrapped stream, which has no counterpart in a typed model.
- The sources of Stream.php, functions.php, NoSeekStream.php and LazyOpenStream.php are not part of this model. Each is stood for by an abstraction:
  - The wrapped stream (Stream.php) is `StreamModel` and `MemoryStream`, an in-memory stream: a seek outside `[0, size]` fails, and `eof` is "position at the end" rather than PHP's sticky end-of-file flag.
  - copy_to_string (functions.php) is `StreamModel.CopyToString` and `StreamDecorator.CopyRemaining`, written after its observable behaviour in tests/FunctionsTest.php:17-37.
  - NoSeekStream's overrides of `seek` and `isSeekable` are the `noSeek` flag of `View` and of `StreamDecorator`.
  - LazyOpenStream's constructor and createStream are `StreamDecorator.Deferred` with an `Opens` opener.
- The wrapped stream is always a MemoryStream, never another decorator, so chains of decorators are not modelled.
- Opening a file in a lazily opening createStream is not modelled: the `Opener` either yields a given initial stream or fails.
- I/O is not modelled. For the same reason, a partial write and a short read before the end are not modelled.
- The first argument of `trigger_error` is not modelled. Only the error is recorded, in the ghost sequence `reported`, and the exception message text is not.
- `PHP_VERSION_ID` is the `rethrows` parameter.
- `trigger_error(..., E_USER_ERROR)` ends the script under PHP's default error handler. The model assumes an error handler that returns, as tests/StreamDecoratorTraitTest.php:50-52 installs. Only with such a handler is `return ''` reached.
- `copy_to_string`'s `$maxLen` argument is not modelled, because getContents always passes none.
- The HTTP factory (src/Factory/HttpFactory.php) is not modelled, because it is not part of the trait.
- Integers are unbounded: PHP's integer width plays no part in offsets or lengths here.
- StreamDecorators.StreamDecorator.CopyRemaining: an empty read before eof ends the loop, as in copy_to_string. Short and empty reads are not modelled: a read before eof always returns at least one byte. So that exit is unreachable anywhere in the model, in `StreamModel.CopyToString` too, and the stop on an empty read (tests/FunctionsTest.php:27-37) is not shown.

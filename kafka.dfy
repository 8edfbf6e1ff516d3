/**
 * The order-stream consumer (internal/handler/kafka.go).
 *
 * `Consume` fetches one message at a time, decodes and validates it, hands
 * the order to the saver, sends the message to the dead-letter topic when
 * handling fails, and commits it once it was saved or dead-lettered. A fetch
 * error that is end-of-stream or cancellation ends the loop; any other fetch
 * error is skipped.
 *
 * The broker, the JSON decoder, the validator and the saver are outside the
 * model: each fetch comes with the outcomes of everything done with its
 * message (`Fetch`), and the reader's stream is the finite sequence
 * `fetches`, after which the reader reports end-of-stream. The calls the
 * handler makes are recorded, with their outcomes, in the ghost `log`.
 */
module Kafka {
  import opened Errors
  import J = HandlerModels
  import E = Entities

  /** `kafka.Message`, reduced to the fields the handler reads or writes. */
  datatype Message = Message(topic: string, partition: int, offset: int, key: seq<bv8>, value: seq<bv8>)

  /**
   * One result of `FetchMessage`: a message together with what decoding
   * (`json.Unmarshal`), validation, saving, the dead-letter write and the commit
   * of it return; or a fetch error.
   */
  datatype Fetch =
    | Fetched(msg: Message, decoded: Result<J.Order, Error>, invalid: Option<Error>,
              saveErr: Option<Error>, dlqErr: Option<Error>, commitErr: Option<Error>)
    | FetchFailed(err: Error)

  /** A call the handler makes to the saver, the dead-letter writer, the reader, with its outcome. */
  datatype Event =
    | SaveCalled(msg: Message, order: E.Order, err: Option<Error>)
    | DlqWritten(msg: Message, err: Option<Error>)
    | CommitCalled(msg: Message, err: Option<Error>)
    | ReaderClosed(err: Option<Error>)
    | DlqClosed(err: Option<Error>)

  /** A fetch error that ends `Consume`: one that is `io.EOF` or `context.Canceled`. */
  predicate IsShutdown(err: Error)
  {
    Is(err, EOF) || Is(err, Canceled)
  }

  predicate EndsConsume(f: Fetch)
  {
    f.FetchFailed? && IsShutdown(f.err)
  }

  /** The message `WriteToDLQ` sends: the same message on the topic with "-dlq" appended. */
  function DlqOf(m: Message): (d: Message)
    ensures d.topic == m.topic + "-dlq"
    ensures d.(topic := m.topic) == m
  {
    m.(topic := m.topic + "-dlq")
  }

  /** The error `handleSaveOrder` returns for a fetched message. */
  function HandleError(f: Fetch): Option<Error>
    requires f.Fetched?
  {
    if f.decoded.Err? then Some(Wrap("failed to unmarshal order", f.decoded.error))
    else if f.invalid.Some? then Some(Wrap("invalid order data", f.invalid.value))
    else f.saveErr
  }

  /** The calls one pass of `Consume`'s loop makes for one fetch. */
  function StepEvents(f: Fetch): seq<Event>
  {
    match f
    case FetchFailed(_) => []
    case Fetched(m, decoded, invalid, saveErr, dlqErr, commitErr) =>
      var save := if decoded.Ok? && invalid.None? then [SaveCalled(m, J.OrderJSONToEntity(decoded.value), saveErr)] else [];
      if HandleError(f).None? then save + [CommitCalled(m, commitErr)]
      else if dlqErr.Some? then save + [DlqWritten(DlqOf(m), dlqErr)]
      else save + [DlqWritten(DlqOf(m), dlqErr), CommitCalled(m, commitErr)]
  }

  /** The concatenation of `step` over `xs`, in order. */
  function Concat<T, U>(step: T -> seq<U>, xs: seq<T>): seq<U>
  {
    if xs == [] then [] else Concat(step, xs[..|xs| - 1]) + step(xs[|xs| - 1])
  }

  lemma {:induction false} ConcatAppend<T, U>(step: T -> seq<U>, a: seq<T>, b: seq<T>)
    ensures Concat(step, a + b) == Concat(step, a) + Concat(step, b)
    decreases |b|
  {
    if b == [] {
      assert a + b == a;
    } else {
      var ab := a + b;
      assert ab[..|ab| - 1] == a + b[..|b| - 1];
      assert ab[|ab| - 1] == b[|b| - 1];
      ConcatAppend(step, a, b[..|b| - 1]);
    }
  }

  /** The calls for a sequence of fetches handled one after the other. */
  function Events(fs: seq<Fetch>): seq<Event>
  {
    Concat(StepEvents, fs)
  }

  /** The longest prefix of `xs` whose elements all satisfy `keep`. */
  function TakeWhile<T>(keep: T -> bool, xs: seq<T>): seq<T>
  {
    if xs == [] || !keep(xs[0]) then []
    else [xs[0]] + TakeWhile(keep, xs[1..])
  }

  /** `TakeWhile` gives a prefix, all of whose elements are kept, ending at the first element that is not. */
  lemma {:induction false} TakeWhileStops<T>(keep: T -> bool, xs: seq<T>)
    ensures TakeWhile(keep, xs) <= xs
    ensures forall k :: 0 <= k < |TakeWhile(keep, xs)| ==> keep(xs[k])
    ensures |TakeWhile(keep, xs)| < |xs| ==> !keep(xs[|TakeWhile(keep, xs)|])
  {
    if xs != [] && keep(xs[0]) {
      TakeWhileStops(keep, xs[1..]);
      forall k | 0 < k < |TakeWhile(keep, xs)| ensures keep(xs[k]) {
        assert xs[k] == xs[1..][k - 1];
      }
    }
  }

  lemma {:induction false} TakeWhileSplit<T>(keep: T -> bool, xs: seq<T>, pos: nat)
    requires pos <= |xs|
    requires forall k :: 0 <= k < pos ==> keep(xs[k])
    ensures TakeWhile(keep, xs) == xs[..pos] + TakeWhile(keep, xs[pos..])
    decreases pos
  {
    if pos > 0 {
      var tail := xs[1..];
      assert keep(xs[0]);
      assert TakeWhile(keep, xs) == [xs[0]] + TakeWhile(keep, tail);
      forall k | 0 <= k < pos - 1 ensures keep(tail[k]) {
        assert tail[k] == xs[k + 1];
      }
      TakeWhileSplit(keep, tail, pos - 1);
      assert tail[pos - 1..] == xs[pos..];
      assert xs[..pos] == [xs[0]] + tail[..pos - 1];
    }
  }

  /** A fetch `Consume` handles and goes past. */
  predicate Continues(f: Fetch)
  {
    !EndsConsume(f)
  }

  /** The fetches `Consume` handles: those before the first one that ends it. */
  function UntilShutdown(fs: seq<Fetch>): (r: seq<Fetch>)
    ensures r <= fs
    ensures forall k :: 0 <= k < |r| ==> !EndsConsume(fs[k])
    ensures |r| < |fs| ==> EndsConsume(fs[|r|])
  {
    TakeWhileStops(Continues, fs);
    TakeWhile(Continues, fs)
  }

  /** What `Consume` does with the fetches `fs`. */
  function Trace(fs: seq<Fetch>): seq<Event>
  {
    Events(UntilShutdown(fs))
  }

  /** A call that allows the commit of message `m` right after it: a successful save or dead-letter write of `m`. */
  predicate Licenses(prev: Event, m: Message)
  {
    (prev.SaveCalled? && prev.err.None? && prev.msg == m) || (prev.DlqWritten? && prev.err.None? && prev.msg == DlqOf(m))
  }

  /** Each commit in a sequence of calls comes right after a call that licenses it. */
  predicate CommitsLicensed(es: seq<Event>)
  {
    forall i :: 0 <= i < |es| && es[i].CommitCalled? ==> i > 0 && Licenses(es[i - 1], es[i].msg)
  }

  /** One message's calls: committed only after its save succeeded or, failing that, its dead-letter write did. */
  lemma StepCommitsLicensed(f: Fetch)
    ensures CommitsLicensed(StepEvents(f))
    ensures StepEvents(f) != [] ==> !StepEvents(f)[0].CommitCalled?
  {
  }

  lemma EventsConcat(a: seq<Fetch>, b: seq<Fetch>)
    ensures Events(a + b) == Events(a) + Events(b)
  {
    ConcatAppend(StepEvents, a, b);
  }

  /** Committing only after a successful save or dead-letter write holds over any sequence of handled fetches. */
  lemma {:induction false} EventsCommitsLicensed(fs: seq<Fetch>)
    ensures CommitsLicensed(Events(fs))
  {
    if fs != [] {
      var init := fs[..|fs| - 1];
      EventsCommitsLicensed(init);
      StepCommitsLicensed(fs[|fs| - 1]);
      var a, b := Events(init), StepEvents(fs[|fs| - 1]);
      var ab: seq<Event> := a + b;
      assert Events(fs) == ab;
      forall i | 0 <= i < |ab| && ab[i].CommitCalled? ensures i > 0 && Licenses(ab[i - 1], ab[i].msg) {
        if i < |a| {
          assert ab[i] == a[i] && ab[i - 1] == a[i - 1];
        } else {
          assert ab[i] == b[i - |a|];
          assert i - |a| > 0;
          assert ab[i - 1] == b[i - 1 - |a|];
        }
      }
    }
  }

  /** `Consume` commits a message only right after its save or its dead-letter write succeeded. */
  lemma CommitOnlyAfterSaveOrDlq(fs: seq<Fetch>)
    ensures CommitsLicensed(Trace(fs))
  {
    EventsCommitsLicensed(UntilShutdown(fs));
  }

  /** A failed dead-letter write is never followed by a commit. */
  lemma DlqFailureMeansNoCommit(fs: seq<Fetch>, i: nat)
    requires i + 1 < |Trace(fs)| && Trace(fs)[i].DlqWritten? && Trace(fs)[i].err.Some?
    ensures !Trace(fs)[i + 1].CommitCalled?
  {
    CommitOnlyAfterSaveOrDlq(fs);
  }

  /**
   * A message that does not decode or does not validate never reaches the
   * saver: its calls are the dead-letter write, then the commit if that write
   * succeeded.
   */
  lemma RejectedNeverSaved(f: Fetch)
    requires f.Fetched? && (f.decoded.Err? || f.invalid.Some?)
    ensures StepEvents(f) == [DlqWritten(DlqOf(f.msg), f.dlqErr)] + (if f.dlqErr.None? then [CommitCalled(f.msg, f.commitErr)] else [])
  {
  }

  /** `order` is the conversion of the fetched message `m` in `fs`, which decoded and validated. */
  predicate SavedFrom(fs: seq<Fetch>, m: Message, order: E.Order)
  {
    exists j :: 0 <= j < |fs| && fs[j].Fetched? && fs[j].msg == m && fs[j].decoded.Ok? && fs[j].invalid.None?
      && order == J.OrderJSONToEntity(fs[j].decoded.value)
  }

  /**
   * Every order the saver receives is the conversion of the fetched message it
   * is recorded with, and that message decoded and validated.
   */
  lemma {:induction false} SavedOrdersDecoded(fs: seq<Fetch>)
    ensures forall e :: e in Events(fs) && e.SaveCalled? ==> SavedFrom(fs, e.msg, e.order)
  {
    if fs != [] {
      var n := |fs| - 1;
      var init := fs[..n];
      SavedOrdersDecoded(init);
      forall e | e in Events(fs) && e.SaveCalled? ensures SavedFrom(fs, e.msg, e.order) {
        if e in Events(init) {
          var j :| 0 <= j < |init| && init[j].Fetched? && init[j].msg == e.msg && init[j].decoded.Ok? && init[j].invalid.None?
            && e.order == J.OrderJSONToEntity(init[j].decoded.value);
          assert fs[j] == init[j];
        } else {
          assert e in StepEvents(fs[n]);
        }
      }
    }
  }

  /**
   * Messages are handled one at a time, and whatever a message's outcomes (a
   * failed save, a failed dead-letter write, a failed commit), the loop goes on
   * to the next fetch: the calls for a stream are the first fetch's calls, then
   * the rest's.
   */
  lemma TraceCons(f: Fetch, rest: seq<Fetch>)
    requires !EndsConsume(f)
    ensures Trace([f] + rest) == StepEvents(f) + Trace(rest)
  {
    assert ([f] + rest)[1..] == rest;
    assert UntilShutdown([f] + rest) == [f] + UntilShutdown(rest);
    EventsCons(f, UntilShutdown(rest));
  }

  /** Nothing after a fetch that ends `Consume` is handled. */
  lemma {:induction false} ShutdownStops(before: seq<Fetch>, err: Error, after: seq<Fetch>)
    requires IsShutdown(err)
    ensures Trace(before + [FetchFailed(err)] + after) == Trace(before)
    decreases |before|
  {
    if before == [] {
      assert (before + [FetchFailed(err)] + after)[0] == FetchFailed(err);
    } else if !EndsConsume(before[0]) {
      assert (before + [FetchFailed(err)] + after)[1..] == before[1..] + [FetchFailed(err)] + after;
      ShutdownStops(before[1..], err, after);
      EventsCons(before[0], UntilShutdown(before[1..]));
      EventsCons(before[0], UntilShutdown(before[1..] + [FetchFailed(err)] + after));
    } else {
      assert (before + [FetchFailed(err)] + after)[0] == before[0];
    }
  }

  /** Any other fetch error is skipped: no save, no dead-letter write, no commit. */
  lemma {:induction false} OtherFetchErrorSkipped(before: seq<Fetch>, err: Error, after: seq<Fetch>)
    requires !IsShutdown(err)
    ensures Trace(before + [FetchFailed(err)] + after) == Trace(before + after)
    decreases |before|
  {
    if before == [] {
      var fs := [FetchFailed(err)] + after;
      assert before + [FetchFailed(err)] + after == fs && fs[1..] == after && before + after == after;
      EventsCons(FetchFailed(err), UntilShutdown(after));
    } else if !EndsConsume(before[0]) {
      assert (before + [FetchFailed(err)] + after)[1..] == before[1..] + [FetchFailed(err)] + after;
      assert (before + after)[1..] == before[1..] + after;
      OtherFetchErrorSkipped(before[1..], err, after);
      EventsCons(before[0], UntilShutdown(before[1..] + [FetchFailed(err)] + after));
      EventsCons(before[0], UntilShutdown(before[1..] + after));
    } else {
      assert (before + [FetchFailed(err)] + after)[0] == before[0];
      assert (before + after)[0] == before[0];
    }
  }

  lemma EventsCons(f: Fetch, fs: seq<Fetch>)
    ensures Events([f] + fs) == StepEvents(f) + Events(fs)
  {
    EventsConcat([f], fs);
    assert [f][..0] == [];
    assert Events([f]) == Events([]) + StepEvents(f);
  }

  /** `Consume` stops at `pos` when no fetch before it ends the loop and the stream ends there or its fetch does. */
  lemma UntilShutdownAt(fs: seq<Fetch>, pos: nat)
    requires pos <= |fs|
    requires forall k :: 0 <= k < pos ==> !EndsConsume(fs[k])
    requires pos == |fs| || EndsConsume(fs[pos])
    ensures UntilShutdown(fs) == fs[..pos]
    ensures Trace(fs) == Events(fs[..pos])
  {
    UntilShutdownSplit(fs, pos);
    assert UntilShutdown(fs[pos..]) == [];
    assert fs[..pos] + [] == fs[..pos];
  }

  lemma EventsSnoc(fs: seq<Fetch>, pos: nat)
    requires pos < |fs|
    ensures Events(fs[..pos + 1]) == Events(fs[..pos]) + StepEvents(fs[pos])
  {
    assert fs[..pos + 1][..pos] == fs[..pos];
  }

  lemma UntilShutdownSplit(fs: seq<Fetch>, pos: nat)
    requires pos <= |fs|
    requires forall k :: 0 <= k < pos ==> !EndsConsume(fs[k])
    ensures UntilShutdown(fs) == fs[..pos] + UntilShutdown(fs[pos..])
  {
    TakeWhileSplit(Continues, fs, pos);
  }

  class KafkaHandler {
    /** What the reader has yet to return, in order. */
    var fetches: seq<Fetch>
    /** The calls made so far, with their outcomes. */
    ghost var log: seq<Event>

    /** `NewKafkaHandler`, with the reader's stream given. */
    constructor (fetches: seq<Fetch>)
      ensures this.fetches == fetches && log == []
    {
      this.fetches := fetches;
      log := [];
    }

    /** `reader.FetchMessage`: the next result of the stream, `io.EOF` once it is exhausted. */
    method FetchMessage() returns (f: Fetch)
      modifies this`fetches
      ensures old(fetches) == [] ==> f == FetchFailed(EOF) && fetches == []
      ensures old(fetches) != [] ==> f == old(fetches)[0] && fetches == old(fetches)[1..]
    {
      if fetches == [] {
        return FetchFailed(EOF);
      }
      f := fetches[0];
      fetches := fetches[1..];
    }

    /**
     * `handleSaveOrder`: a decode failure and a validation failure are returned
     * wrapped, without calling the saver; otherwise the saver gets the converted
     * order and its error is returned.
     */
    method handleSaveOrder(f: Fetch) returns (err: Option<Error>)
      requires f.Fetched?
      modifies this`log
      ensures err == HandleError(f)
      ensures f.decoded.Err? ==> err.Some? && Is(err.value, f.decoded.error) && log == old(log)
      ensures f.decoded.Ok? && f.invalid.Some? ==> err.Some? && Is(err.value, f.invalid.value) && log == old(log)
      ensures f.decoded.Ok? && f.invalid.None? ==>
        err == f.saveErr && log == old(log) + [SaveCalled(f.msg, J.OrderJSONToEntity(f.decoded.value), f.saveErr)]
    {
      if f.decoded.Err? {
        return Some(Wrap("failed to unmarshal order", f.decoded.error));
      }
      var order := f.decoded.value;
      if f.invalid.Some? {
        return Some(Wrap("invalid order data", f.invalid.value));
      }
      log := log + [SaveCalled(f.msg, J.OrderJSONToEntity(order), f.saveErr)];
      return f.saveErr;
    }

    /** `WriteToDLQ`: sends `m` with "-dlq" appended to its topic; `sendErr` is the writer's outcome. */
    method WriteToDLQ(m: Message, sendErr: Option<Error>) returns (err: Option<Error>)
      modifies this`log
      ensures err == sendErr
      ensures log == old(log) + [DlqWritten(m.(topic := m.topic + "-dlq"), sendErr)]
    {
      var sent := m.(topic := m.topic + "-dlq");
      log := log + [DlqWritten(sent, sendErr)];
      return sendErr;
    }

    /** `reader.CommitMessages`. */
    method CommitMessages(m: Message, commitErr: Option<Error>) returns (err: Option<Error>)
      modifies this`log
      ensures err == commitErr && log == old(log) + [CommitCalled(m, commitErr)]
    {
      log := log + [CommitCalled(m, commitErr)];
      return commitErr;
    }

    /**
     * The body of `Consume`'s loop for a fetched message: handle it; on a
     * handling error send it to the dead-letter topic and stop there if that
     * fails; otherwise commit it, an error in committing being only logged.
     */
    method HandleFetched(f: Fetch)
      requires f.Fetched?
      modifies this`log
      ensures log == old(log) + StepEvents(f)
    {
      var m := f.msg;
      var err := handleSaveOrder(f);
      if err.Some? {
        var dlqErr := WriteToDLQ(m, f.dlqErr);
        if dlqErr.Some? {
          return;
        }
      }
      var commitErr := CommitMessages(m, f.commitErr);
    }

    /**
     * `Consume`: handles the stream until a fetch ends it, making exactly the
     * calls `Trace` gives for the stream, in order, and consuming the stream up
     * to and including the fetch that ended it.
     */
    method Consume()
      modifies this
      ensures log == old(log) + Trace(old(fetches))
      ensures fetches == if |UntilShutdown(old(fetches))| < |old(fetches)|
        then old(fetches)[|UntilShutdown(old(fetches))| + 1..] else []
    {
      ghost var start := fetches;
      ghost var log0 := log;
      ghost var pos := 0;
      while true
        invariant 0 <= pos <= |start| && fetches == start[pos..]
        invariant forall k :: 0 <= k < pos ==> !EndsConsume(start[k])
        invariant log == log0 + Events(start[..pos])
        decreases |fetches|
      {
        var f := FetchMessage();
        if f.FetchFailed? && IsShutdown(f.err) {
          UntilShutdownAt(start, pos);
          break;
        }
        if f.Fetched? {
          HandleFetched(f);
        }
        EventsSnoc(start, pos);
        pos := pos + 1;
      }
    }

    /**
     * `Close`: closes the reader and, only if that succeeded, the dead-letter
     * writer; the first error is returned.
     */
    method Close(readerErr: Option<Error>, dlqErr: Option<Error>) returns (err: Option<Error>)
      modifies this`log
      ensures readerErr.Some? ==> err == readerErr && log == old(log) + [ReaderClosed(readerErr)]
      ensures readerErr.None? ==> err == dlqErr && log == old(log) + [ReaderClosed(None), DlqClosed(dlqErr)]
    {
      log := log + [ReaderClosed(readerErr)];
      if readerErr.Some? {
        return readerErr;
      }
      log := log + [DlqClosed(dlqErr)];
      return dlqErr;
    }
  }
}

/**
 The event window behind a certification (readCertificationEvents in
 internal/connector/certify.go): everything after a cursor, read in pages from
 a store that goes on growing. Payloads are maps from keys to the string
 values they hold.
 */
module EventWindow {
  import opened Wrappers

  datatype Event = Event(position: int, kind: string, messageID: string, actorID: string, payload: map<string, string>)

  datatype ReadError = ReaderFailed | WindowExceeded

  const PAGE: nat := 100
  const WINDOW: nat := 10000

  predicate Increasing(log: seq<Event>) {
    log != [] ==>
      var most := log[..|log| - 1];
      Increasing(most) && forall e | e in most :: e.position < log[|log| - 1].position
  }

  /** The events after a cursor, in order. */
  function After(log: seq<Event>, cursor: int): seq<Event> {
    if log == [] then []
    else
      var last := log[|log| - 1];
      After(log[..|log| - 1], cursor) + (if last.position > cursor then [last] else [])
  }

  function Take<T>(s: seq<T>, n: nat): seq<T> {
    if n <= |s| then s[..n] else s
  }

  lemma {:induction false} AfterConcat(log: seq<Event>, more: seq<Event>, cursor: int)
    ensures After(log + more, cursor) == After(log, cursor) + After(more, cursor)
    decreases |more|
  {
    if more == [] {
      assert log + more == log;
    } else {
      var most := more[..|more| - 1];
      assert (log + more)[..|log + more| - 1] == log + most;
      AfterConcat(log, most, cursor);
    }
  }

  lemma {:induction false} AfterMembers(log: seq<Event>, cursor: int)
    ensures forall e :: e in After(log, cursor) <==> e in log && e.position > cursor
  {
    if log != [] {
      AfterMembers(log[..|log| - 1], cursor);
      assert log == log[..|log| - 1] + [log[|log| - 1]];
    }
  }

  lemma {:induction false} NothingAfter(log: seq<Event>, cursor: int)
    requires forall e | e in log :: e.position <= cursor
    ensures After(log, cursor) == []
  {
    if log != [] {
      NothingAfter(log[..|log| - 1], cursor);
    }
  }

  /** Reading on from the k-th event after a cursor gives the events behind it. */
  lemma {:induction false} AfterResumes(log: seq<Event>, cursor: int, k: nat)
    requires Increasing(log) && k < |After(log, cursor)|
    ensures After(log, After(log, cursor)[k].position) == After(log, cursor)[k + 1..]
  {
    var most, last := log[..|log| - 1], log[|log| - 1];
    var earlier := After(most, cursor);
    AfterMembers(most, cursor);
    if k < |earlier| {
      AfterResumes(most, cursor, k);
      assert earlier[k] in most;
      assert After(log, cursor)[k] == earlier[k];
    } else {
      NothingAfter(most, last.position);
    }
  }

  datatype Stream = Durable | Operational

  /** A limit out of range stands for the default of one page. */
  function EffectiveLimit(limit: int): nat {
    if limit <= 0 || limit > 1000 then PAGE else limit
  }

  /** The events of a log that a caller may see. */
  function Seen(visible: Event -> bool, log: seq<Event>): seq<Event> {
    if log == [] then []
    else
      var last := log[|log| - 1];
      Seen(visible, log[..|log| - 1]) + (if visible(last) then [last] else [])
  }

  lemma {:induction false} SeenConcat(visible: Event -> bool, log: seq<Event>, more: seq<Event>)
    ensures Seen(visible, log + more) == Seen(visible, log) + Seen(visible, more)
    decreases |more|
  {
    if more == [] {
      assert log + more == log;
    } else {
      var most := more[..|more| - 1];
      assert (log + more)[..|log + more| - 1] == log + most;
      SeenConcat(visible, log, most);
    }
  }

  lemma {:induction false} SeenIsIncreasing(visible: Event -> bool, log: seq<Event>)
    requires Increasing(log)
    ensures Increasing(Seen(visible, log))
    ensures forall e :: e in Seen(visible, log) <==> e in log && visible(e)
  {
    if log != [] {
      var most, last := log[..|log| - 1], log[|log| - 1];
      SeenIsIncreasing(visible, most);
      assert log == most + [last];
      if visible(last) {
        assert Seen(visible, log)[..|Seen(visible, log)| - 1] == Seen(visible, most);
      } else {
        assert Seen(visible, log) == Seen(visible, most);
      }
    }
  }

  /** None of the calls from `first` up to `end` fails. */
  predicate AllAnswered(fails: nat -> bool, first: nat, end: nat) {
    forall k | first <= k < end :: !fails(k)
  }

  /**
   A store that only appends, as one caller sees it: of everything that is ever appended to a stream
   a first part is there, and more may arrive between two reads. `fails` tells which calls the store
   does not answer.
   */
  class EventReader {
    const visible: Event -> bool
    const fails: nat -> bool
    const durable: seq<Event>
    const operational: seq<Event>
    var calls: nat
    var durableCount: nat
    var operationalCount: nat

    ghost predicate Valid()
      reads this
    {
      && Increasing(durable) && Increasing(operational)
      && durableCount <= |durable| && operationalCount <= |operational|
    }

    function Rows(stream: Stream): seq<Event> {
      if stream.Durable? then durable else operational
    }

    function Count(stream: Stream): nat
      reads this
    {
      if stream.Durable? then durableCount else operationalCount
    }

    /** What the caller sees of the first `n` events of a stream. */
    function LogAt(stream: Stream, n: nat): seq<Event> {
      Seen(visible, Take(Rows(stream), n))
    }

    function Log(stream: Stream): seq<Event>
      reads this
    {
      LogAt(stream, Count(stream))
    }

    constructor (visible: Event -> bool, fails: nat -> bool, durable: seq<Event>, operational: seq<Event>)
      requires Increasing(durable) && Increasing(operational)
      ensures Valid() && this.visible == visible && this.fails == fails
      ensures this.durable == durable && this.operational == operational
      ensures calls == 0 && durableCount == 0 && operationalCount == 0
    {
      this.visible, this.fails := visible, fails;
      this.durable, this.operational := durable, operational;
      calls, durableCount, operationalCount := 0, 0, 0;
    }

    method ListEvents(stream: Stream, cursor: int, limit: int) returns (result: Result<seq<Event>, ReadError>)
      requires Valid()
      modifies this
      ensures Valid() && old(durableCount) <= durableCount && old(operationalCount) <= operationalCount
      ensures calls == old(calls) + 1
      ensures result == if fails(old(calls)) then Failure(ReaderFailed)
                        else Success(Take(After(Log(stream), cursor), if 1 <= limit <= 1000 then limit else 100))
    {
      var sent: nat :| durableCount <= sent <= |durable|;
      var seen: nat :| operationalCount <= seen <= |operational|;
      durableCount, operationalCount := sent, seen;
      calls := calls + 1;
      if fails(calls - 1) {
        return Failure(ReaderFailed);
      }
      return Success(Take(After(Log(stream), cursor), EffectiveLimit(limit)));
    }
  }

  function LastPosition(events: seq<Event>, after: int): int {
    if events == [] then after else events[|events| - 1].position
  }

  /** What is left after the events read so far, in a log that has grown since. */
  lemma {:induction false} Resume(before: seq<Event>, now: seq<Event>, after: int, all: seq<Event>)
    requires before <= now && Increasing(now) && all <= After(before, after)
    ensures After(now, after) == all + After(now, LastPosition(all, after))
  {
    var more := now[|before|..];
    assert now == before + more;
    AfterConcat(before, more, after);
    assert all <= After(now, after);
    if all != [] {
      AfterResumes(now, after, |all| - 1);
      assert After(now, after)[|all| - 1] == all[|all| - 1];
    }
  }

  lemma {:induction false} PrefixIsIncreasing(log: seq<Event>, n: nat)
    requires Increasing(log) && n <= |log|
    ensures Increasing(log[..n])
    decreases |log|
  {
    if n < |log| {
      var most := log[..|log| - 1];
      PrefixIsIncreasing(most, n);
      assert most[..n] == log[..n];
    } else {
      assert log[..n] == log;
    }
  }

  /** What a caller sees of a grown log is still increasing, and starts with what it saw. */
  lemma {:induction false} LogGrows(reader: EventReader, stream: Stream, m: nat, n: nat)
    requires m <= n <= |reader.Rows(stream)| && Increasing(reader.Rows(stream))
    ensures reader.LogAt(stream, m) <= reader.LogAt(stream, n) && Increasing(reader.LogAt(stream, n))
  {
    var rows := reader.Rows(stream);
    assert Take(rows, m) == rows[..m] && Take(rows, n) == rows[..n] == rows[..m] + rows[m..n];
    SeenConcat(reader.visible, rows[..m], rows[m..n]);
    PrefixIsIncreasing(rows, n);
    SeenIsIncreasing(reader.visible, rows[..n]);
  }

  /** The page continues the events read so far, up to the end of the window when it is not full. */
  predicate Continues(window: seq<Event>, all: seq<Event>, page: seq<Event>, limit: nat) {
    |page| <= limit && all + page <= window && (|page| < limit ==> all + page == window)
  }

  lemma {:induction false} NextEvents(window: seq<Event>, all: seq<Event>, rest: seq<Event>, limit: nat)
    requires window == all + rest
    ensures Continues(window, all, Take(rest, limit), limit)
  {
    var page := Take(rest, limit);
    assert all + page <= all + rest;
    assert |page| < limit ==> page == rest;
  }

  lemma {:induction false} LastOfPage(all: seq<Event>, page: seq<Event>, after: int)
    requires page != []
    ensures LastPosition(all + page, after) == LastPosition(page, after)
  {
  }

  /** One more page behind the events read so far. */
  method NextPage(reader: EventReader, stream: Stream, after: int, all: seq<Event>, position: int, limit: nat)
    returns (page: Result<seq<Event>, ReadError>)
    requires reader.Valid() && all <= After(reader.Log(stream), after) && position == LastPosition(all, after)
    requires 0 < limit <= PAGE
    modifies reader
    ensures reader.Valid()
    ensures old(reader.durableCount) <= reader.durableCount && old(reader.operationalCount) <= reader.operationalCount
    ensures reader.calls == old(reader.calls) + 1
    ensures page.Failure? <==> reader.fails(old(reader.calls))
    ensures page.Failure? ==> page.error == ReaderFailed
    ensures page.Success? ==> Continues(After(reader.Log(stream), after), all, page.value, limit)
  {
    ghost var before := reader.Count(stream);
    page := reader.ListEvents(stream, position, limit);
    LogGrows(reader, stream, before, reader.Count(stream));
    Resume(old(reader.Log(stream)), reader.Log(stream), after, all);
    NextEvents(After(reader.Log(stream), after), all, After(reader.Log(stream), position), limit);
  }

  /** What one page comes to: the reading stops with a result, or goes on with more events. */
  datatype Step = Stop(result: Result<seq<Event>, ReadError>) | More(all: seq<Event>)

  ghost predicate StepOf(window: seq<Event>, all: seq<Event>, step: Step, answered: bool) {
    match step
    case More(more) => answered && |more| == |all| + PAGE && |more| <= WINDOW && more <= window
    case Stop(Success(events)) => answered && events == window && |events| <= WINDOW
    case Stop(Failure(WindowExceeded)) => answered && |window| > WINDOW
    case Stop(Failure(ReaderFailed)) => !answered
  }

  /** One turn of the loop. */
  method ReadPage(reader: EventReader, stream: Stream, after: int, all: seq<Event>, position: int,
                  ghost pages: nat, ghost first: nat)
    returns (step: Step)
    requires reader.Valid() && all <= After(reader.Log(stream), after) && position == LastPosition(all, after)
    requires |all| == PAGE * pages && |all| <= WINDOW
    requires first <= reader.calls && AllAnswered(reader.fails, first, reader.calls)
    modifies reader
    ensures reader.Valid()
    ensures old(reader.durableCount) <= reader.durableCount && old(reader.operationalCount) <= reader.operationalCount
    ensures reader.calls == old(reader.calls) + 1
    ensures StepOf(After(reader.Log(stream), after), all, step, AllAnswered(reader.fails, first, reader.calls))
  {
    AnsweredMore(reader.fails, first, reader.calls);
    var limit := if |all| >= WINDOW then 1 else PAGE;
    var events := NextPage(reader, stream, after, all, position, limit);
    if events.Failure? {
      return Stop(Failure(ReaderFailed));
    }
    if |events.value| == 0 {
      assert all + events.value == all;
      return Stop(Success(all));
    }
    if |all| >= WINDOW {
      return Stop(Failure(WindowExceeded));
    }
    if |events.value| < PAGE {
      return Stop(Success(all + events.value));
    }
    return More(all + events.value);
  }

  /**
   When every call is answered: the whole window after the cursor, as the last page found it, or an
   error exactly when it holds more than 10000 events. A call that is not answered is an error too.
   */
  method ReadCertificationEvents(reader: EventReader, stream: Stream, after: int)
    returns (result: Result<seq<Event>, ReadError>, position: int)
    requires reader.Valid()
    modifies reader
    ensures reader.Valid()
    ensures old(reader.durableCount) <= reader.durableCount && old(reader.operationalCount) <= reader.operationalCount
    ensures old(reader.calls) <= reader.calls <= old(reader.calls) + WINDOW / PAGE + 1
    ensures result == Failure(ReaderFailed) <==> !AllAnswered(reader.fails, old(reader.calls), reader.calls)
    ensures result.Success? ==>
              && result.value == After(reader.Log(stream), after)
              && |result.value| <= 10_000
              && position == LastPosition(result.value, after)
    ensures result.Failure? && result.error == WindowExceeded ==> |After(reader.Log(stream), after)| > 10_000
  {
    position := after;
    var all: seq<Event> := [];
    ghost var first, pages: nat := reader.calls, 0;
    while true
      invariant reader.Valid()
      invariant old(reader.durableCount) <= reader.durableCount
      invariant old(reader.operationalCount) <= reader.operationalCount
      invariant |all| == PAGE * pages && |all| <= WINDOW
      invariant all <= After(reader.Log(stream), after)
      invariant position == LastPosition(all, after)
      invariant reader.calls == first + pages && AllAnswered(reader.fails, first, reader.calls)
      decreases WINDOW - |all|
    {
      var step := ReadPage(reader, stream, after, all, position, pages, first);
      match step {
        case Stop(end) =>
          result := end;
          position := if end.Success? then LastPosition(end.value, after) else position;
          return;
        case More(more) =>
          all, pages := more, pages + 1;
          position := LastPosition(all, after);
      }
    }
  }

  lemma AnsweredInTwo(fails: nat -> bool, first: nat, middle: nat, end: nat)
    requires first <= middle <= end
    ensures AllAnswered(fails, first, end) <==> AllAnswered(fails, first, middle) && AllAnswered(fails, middle, end)
  {
  }

  lemma AnsweredMore(fails: nat -> bool, first: nat, n: nat)
    requires first <= n
    ensures AllAnswered(fails, first, n + 1) <==> AllAnswered(fails, first, n) && !fails(n)
  {
  }
}

/**
 The streaming terminal responder of scripts/canary/worker.py: queries are
 matched chunk by chunk with a carried tail and answered with canned replies.
 */
module TerminalQueries {
  import opened Bytes

  datatype Reply = Reply(query: Bytes, response: Bytes)

  const ESC: byte := 0x1b

  /** TERMINAL_QUERY_RESPONSES, in its iteration order. */
  const TABLE: seq<Reply> := [
    Reply([ESC, 0x5b, 0x36, 0x6e], [ESC, 0x5b, 0x31, 0x3b, 0x31, 0x52]),
    Reply([ESC, 0x5b, 0x63], [ESC, 0x5b, 0x3f, 0x31, 0x3b, 0x32, 0x63]),
    Reply([ESC, 0x5b, 0x3e, 0x63], [ESC, 0x5b, 0x3e, 0x30, 0x3b, 0x30, 0x3b, 0x30, 0x63]),
    Reply([ESC, 0x5b, 0x3f, 0x75], [ESC, 0x5b, 0x3f, 0x30, 0x75]),
    Reply([ESC, 0x5d, 0x31, 0x30, 0x3b, 0x3f, 0x07], [ESC, 0x5d, 0x31, 0x30, 0x3b] + RGB_FFFF + [0x07]),
    Reply([ESC, 0x5d, 0x31, 0x30, 0x3b, 0x3f, ESC, 0x5c], [ESC, 0x5d, 0x31, 0x30, 0x3b] + RGB_FFFF + [ESC, 0x5c]),
    Reply([ESC, 0x5d, 0x31, 0x31, 0x3b, 0x3f, 0x07], [ESC, 0x5d, 0x31, 0x31, 0x3b] + RGB_0000 + [0x07]),
    Reply([ESC, 0x5d, 0x31, 0x31, 0x3b, 0x3f, ESC, 0x5c], [ESC, 0x5d, 0x31, 0x31, 0x3b] + RGB_0000 + [ESC, 0x5c])]

  // "rgb:ffff/ffff/ffff" and "rgb:0000/0000/0000"
  const RGB_FFFF: Bytes := [
    0x72, 0x67, 0x62, 0x3a, 0x66, 0x66, 0x66, 0x66, 0x2f, 0x66, 0x66, 0x66, 0x66, 0x2f, 0x66, 0x66, 0x66, 0x66]
  const RGB_0000: Bytes := [
    0x72, 0x67, 0x62, 0x3a, 0x30, 0x30, 0x30, 0x30, 0x2f, 0x30, 0x30, 0x30, 0x30, 0x2f, 0x30, 0x30, 0x30, 0x30]

  // ---------------------------------------------------------------------
  // Occurrences
  // ---------------------------------------------------------------------

  predicate OccursAt(s: Bytes, query: Bytes, i: int) {
    0 <= i && i + |query| <= |s| && s[i..i + |query|] == query
  }

  predicate EndsAt(s: Bytes, query: Bytes, e: int) {
    OccursAt(s, query, e - |query|)
  }

  /** How many occurrences of `query` end after position `lo` and not after `hi`. */
  function CountEnding(s: Bytes, query: Bytes, lo: nat, hi: nat): nat {
    if hi <= lo then 0
    else CountEnding(s, query, lo, hi - 1) + (if EndsAt(s, query, hi) then 1 else 0)
  }

  function Occurrences(s: Bytes, query: Bytes): nat {
    CountEnding(s, query, 0, |s|)
  }

  /** A proper suffix of the query that is also a prefix of it. */
  predicate Border(query: Bytes, k: int) {
    0 < k < |query| && query[k..] == query[..|query| - k]
  }

  predicate Unbordered(query: Bytes) {
    forall k | 0 < k < |query| :: !Border(query, k)
  }

  predicate WellFormed(table: seq<Reply>) {
    forall k | 0 <= k < |table| :: 0 < |table[k].query| && Unbordered(table[k].query)
  }

  /** max(len(query)) */
  function Longest(table: seq<Reply>): nat {
    if table == [] then 0
    else
      var rest := Longest(table[1..]);
      if |table[0].query| > rest then |table[0].query| else rest
  }

  lemma {:induction false} LongestBounds(table: seq<Reply>, k: nat)
    requires k < |table|
    ensures |table[k].query| <= Longest(table)
  {
    if k > 0 {
      LongestBounds(table[1..], k - 1);
    }
  }

  lemma {:induction false} LongestAtMost(table: seq<Reply>, n: nat)
    requires forall k | 0 <= k < |table| :: |table[k].query| <= n
    ensures Longest(table) <= n
  {
    if table != [] {
      LongestAtMost(table[1..], n);
    }
  }

  lemma CountSplit(s: Bytes, query: Bytes, lo: nat, mid: nat, hi: nat)
    requires lo <= mid <= hi
    ensures CountEnding(s, query, lo, hi) == CountEnding(s, query, lo, mid) + CountEnding(s, query, mid, hi)
  {
  }

  lemma CountNone(s: Bytes, query: Bytes, lo: nat, hi: nat)
    requires forall e | lo < e <= hi :: !EndsAt(s, query, e)
    ensures CountEnding(s, query, lo, hi) == 0
  {
  }

  /** Stretching the counted range over positions without occurrences adds nothing. */
  lemma CountRest(data: Bytes, query: Bytes, lo: nat, mid: nat, hi: nat)
    requires mid <= hi && CountEnding(data, query, mid, hi) == 0
    ensures CountEnding(data, query, lo, hi) == CountEnding(data, query, lo, mid)
  {
  }

  /** Two overlapping occurrences give the query a border. */
  lemma OverlapIsABorder(s: Bytes, query: Bytes, i: int, j: int)
    requires OccursAt(s, query, i) && OccursAt(s, query, j) && i < j < i + |query|
    ensures Border(query, j - i)
  {
    var k := j - i;
    assert query[k..] == s[i..i + |query|][k..] == s[j..i + |query|];
    assert query[..|query| - k] == s[j..j + |query|][..|query| - k] == s[j..i + |query|];
  }

  lemma NoOverlap(s: Bytes, query: Bytes, i: int, j: int)
    requires Unbordered(query) && OccursAt(s, query, i) && OccursAt(s, query, j) && i < j
    ensures i + |query| <= j
  {
    if j < i + |query| {
      OverlapIsABorder(s, query, i, j);
    }
  }

  // ---------------------------------------------------------------------
  // One call of terminal_query_responses
  // ---------------------------------------------------------------------

  function Repeat(k: nat, times: nat): seq<nat> {
    seq(times, _ => k)
  }

  /** The queries answered for `data` from table row `k` on, as table indices in reply order. */
  function Answered(table: seq<Reply>, k: nat, data: Bytes, previousTail: nat): seq<nat>
    decreases |table| - k
  {
    if k >= |table| then []
    else Repeat(k, CountEnding(data, table[k].query, previousTail, |data|)) + Answered(table, k + 1, data, previousTail)
  }

  /** The bytes of those answers. */
  function Render(table: seq<Reply>, answers: seq<nat>): Bytes {
    if answers == [] then []
    else
      var last := answers[|answers| - 1];
      Render(table, answers[..|answers| - 1]) + (if last < |table| then table[last].response else [])
  }

  lemma {:induction false} RenderConcat(table: seq<Reply>, a: seq<nat>, b: seq<nat>)
    ensures Render(table, a + b) == Render(table, a) + Render(table, b)
    decreases |b|
  {
    if b == [] {
      assert a + b == a;
    } else {
      var most, last := b[..|b| - 1], b[|b| - 1];
      var reply := if last < |table| then table[last].response else [];
      assert (a + b)[..|a + b| - 1] == a + most && (a + b)[|a + b| - 1] == last;
      RenderConcat(table, a, most);
      assert (Render(table, a) + Render(table, most)) + reply == Render(table, a) + (Render(table, most) + reply);
    }
  }

  /** bytes.find */
  method Find(data: Bytes, query: Bytes, start: nat) returns (index: int)
    ensures index < 0 ==> forall i | start <= i :: !OccursAt(data, query, i)
    ensures index >= 0 ==> start <= index && OccursAt(data, query, index)
    ensures index >= 0 ==> forall i | start <= i < index :: !OccursAt(data, query, i)
  {
    index := start;
    while index + |query| <= |data|
      invariant start <= index
      invariant forall i | start <= i < index :: !OccursAt(data, query, i)
    {
      if data[index..index + |query|] == query {
        return;
      }
      index := index + 1;
    }
    index := -1;
  }

  function Times(response: Bytes, n: nat): Bytes {
    if n == 0 then [] else Times(response, n - 1) + response
  }

  lemma {:induction false} RenderRepeat(table: seq<Reply>, k: nat, n: nat)
    requires k < |table|
    ensures Render(table, Repeat(k, n)) == Times(table[k].response, n)
  {
    if n > 0 {
      assert Repeat(k, n)[..n - 1] == Repeat(k, n - 1);
      RenderRepeat(table, k, n - 1);
    }
  }

  /** Every occurrence that begins before `start` also ends there. */
  predicate NoneAcross(data: Bytes, query: Bytes, start: nat) {
    forall i | 0 <= i < start && OccursAt(data, query, i) :: i + |query| <= start
  }

  /** Nothing ends between the start of an occurrence and its end. */
  lemma {:induction false} NextOccurrence(data: Bytes, query: Bytes, lo: nat, start: nat)
    requires 0 < |query| && OccursAt(data, query, start) && NoneAcross(data, query, start)
    ensures CountEnding(data, query, lo, start + |query|) ==
            CountEnding(data, query, lo, start) + (if start + |query| > lo then 1 else 0)
  {
    var last := start + |query| - 1;
    forall e | start < e <= last ensures !EndsAt(data, query, e) {
      assert e - |query| < start;
    }
    CountNone(data, query, start, last);
    CountRest(data, query, lo, start, last);
    assert EndsAt(data, query, last + 1);
  }

  lemma {:induction false} NoneAcrossTheEnd(data: Bytes, query: Bytes, start: nat)
    requires Unbordered(query) && OccursAt(data, query, start) && NoneAcross(data, query, start)
    ensures NoneAcross(data, query, start + |query|)
  {
    forall i | 0 <= i < start + |query| && OccursAt(data, query, i) ensures i + |query| <= start + |query| {
      if start < i {
        NoOverlap(data, query, start, i);
      }
    }
  }

  lemma {:induction false} NoMoreOccurrences(data: Bytes, query: Bytes, lo: nat, start: nat)
    requires 0 < |query| && start <= |data| && NoneAcross(data, query, start)
    requires forall i | start <= i :: !OccursAt(data, query, i)
    ensures CountEnding(data, query, lo, |data|) == CountEnding(data, query, lo, start)
  {
    forall e | start < e <= |data| ensures !EndsAt(data, query, e) {
      assert !OccursAt(data, query, e - |query|);
    }
    CountNone(data, query, start, |data|);
    CountRest(data, query, lo, start, |data|);
  }

  /**
   The inner loop: the matches that skipping a whole match after each finds from `start` on and that
   end after `lo`.
   */
  function Scan(data: Bytes, query: Bytes, lo: nat, start: nat): nat
    requires 0 < |query|
    decreases |data| - start
  {
    if start + |query| > |data| then 0
    else if OccursAt(data, query, start) then
      (if start + |query| > lo then 1 else 0) + Scan(data, query, lo, start + |query|)
    else Scan(data, query, lo, start + 1)
  }

  lemma {:induction false} ScanSkips(data: Bytes, query: Bytes, lo: nat, start: nat, index: nat)
    requires 0 < |query| && start <= index && forall i | start <= i < index :: !OccursAt(data, query, i)
    ensures index + |query| <= |data| ==> Scan(data, query, lo, start) == Scan(data, query, lo, index)
    ensures (forall i | start <= i :: !OccursAt(data, query, i)) ==> Scan(data, query, lo, start) == 0
    decreases |data| - start
  {
    if start < index && start + |query| <= |data| {
      ScanSkips(data, query, lo, start + 1, index);
    } else if start + |query| <= |data| && !OccursAt(data, query, start) {
      ScanSkips(data, query, lo, start + 1, start + 1);
    }
  }

  /** One match of the scan, and the rest. */
  lemma {:induction false} ScanStep(data: Bytes, query: Bytes, lo: nat, start: nat, index: nat)
    requires 0 < |query| && start <= index && OccursAt(data, query, index)
    requires forall i | start <= i < index :: !OccursAt(data, query, i)
    ensures Scan(data, query, lo, start) ==
            (if index + |query| > lo then 1 else 0) + Scan(data, query, lo, index + |query|)
  {
    ScanSkips(data, query, lo, start, index);
  }

  lemma {:induction false} ScanEnds(data: Bytes, query: Bytes, lo: nat, start: nat)
    requires 0 < |query| && forall i | start <= i :: !OccursAt(data, query, i)
    ensures Scan(data, query, lo, start) == 0
  {
    ScanSkips(data, query, lo, start, start);
  }

  /** data.find(query, start), and what it says of the scan: a match that counts or does not, and the rest. */
  method NextMatch(data: Bytes, query: Bytes, start: nat, ghost lo: nat) returns (index: int, ghost left: nat)
    requires 0 < |query|
    ensures index < 0 ==> Scan(data, query, lo, start) == 0
    ensures index >= 0 ==> start <= index && index + |query| <= |data| && left == Scan(data, query, lo, index + |query|)
    ensures index >= 0 ==> Scan(data, query, lo, start) == (if index + |query| > lo then left + 1 else left)
  {
    index := Find(data, query, start);
    left := 0;
    if index < 0 {
      ScanEnds(data, query, lo, start);
    } else {
      ScanStep(data, query, lo, start, index);
      left := Scan(data, query, lo, index + |query|);
    }
  }

  lemma {:induction false} OneTimeMore(response: Bytes, n: nat)
    ensures Times(response, n + 1) == Times(response, n) + response
  {
  }

  /** One reply for each match of the scan. */
  method RepliesFor(row: Reply, data: Bytes, previousTail: nat) returns (replies: Bytes)
    requires 0 < |row.query|
    ensures replies == Times(row.response, Scan(data, row.query, previousTail, 0))
  {
    replies := [];
    var start := 0;
    ghost var total := Scan(data, row.query, previousTail, 0);
    ghost var left, count: nat := total, 0;
    while true
      invariant start <= |data|
      invariant left == Scan(data, row.query, previousTail, start) && count + left == total
      invariant replies == Times(row.response, count)
      decreases |data| - start
    {
      var index, rest := NextMatch(data, row.query, start, previousTail);
      if index < 0 {
        break;
      }
      if index + |row.query| > previousTail {
        OneTimeMore(row.response, count);
        replies := replies + row.response;
        count := count + 1;
      }
      left := rest;
      start := index + |row.query|;
    }
  }

  /** For a query without a border the scan misses nothing. */
  lemma {:induction false} ScanCounts(data: Bytes, query: Bytes, lo: nat, start: nat)
    requires 0 < |query| && Unbordered(query) && start <= |data| && NoneAcross(data, query, start)
    ensures CountEnding(data, query, lo, start) + Scan(data, query, lo, start) == CountEnding(data, query, lo, |data|)
    decreases |data| - start
  {
    if start + |query| > |data| {
      NoMoreOccurrences(data, query, lo, start);
    } else if OccursAt(data, query, start) {
      NextOccurrence(data, query, lo, start);
      NoneAcrossTheEnd(data, query, start);
      ScanCounts(data, query, lo, start + |query|);
    } else {
      assert !EndsAt(data, query, start + 1);
      assert CountEnding(data, query, lo, start + 1) == CountEnding(data, query, lo, start);
      ScanCounts(data, query, lo, start + 1);
    }
  }

  lemma {:induction false} BorderMakesTwo(query: Bytes, k: nat, s: Bytes)
    requires Border(query, k) && s == query[..k] + query
    ensures Scan(s, query, 0, 0) == 1 && Occurrences(s, query) >= 2
  {
    var n := |query|;
    assert s[..n] == query[..k] + query[..n - k] == query[..k] + query[k..] == query;
    assert s[k..k + n] == query;
    assert OccursAt(s, query, 0) && OccursAt(s, query, k);
    assert Scan(s, query, 0, n) == 0;
    CountSplit(s, query, 0, n, n + k);
    assert EndsAt(s, query, n) && EndsAt(s, query, n + k);
  }

  /** Skipping a whole match finds every occurrence in every stream exactly when the query has no border. */
  lemma {:induction false} ScanIsExactExactlyWhenUnbordered(query: Bytes)
    requires 0 < |query|
    ensures Unbordered(query) <==> forall s: Bytes :: Scan(s, query, 0, 0) == Occurrences(s, query)
  {
    if Unbordered(query) {
      forall s: Bytes ensures Scan(s, query, 0, 0) == Occurrences(s, query) {
        ScanCounts(s, query, 0, 0);
      }
    } else {
      var k :| 0 < k < |query| && Border(query, k);
      BorderMakesTwo(query, k, query[..k] + query);
      assert Scan(query[..k] + query, query, 0, 0) != Occurrences(query[..k] + query, query);
    }
  }

  lemma {:induction false} RenderMore(table: seq<Reply>, done: seq<nat>, k: nat, n: nat)
    requires k < |table|
    ensures Render(table, done + Repeat(k, n)) == Render(table, done) + Times(table[k].response, n)
  {
    RenderRepeat(table, k, n);
    RenderConcat(table, done, Repeat(k, n));
  }

  lemma {:induction false} RenderRow(table: seq<Reply>, done: seq<nat>, k: nat, data: Bytes, previousTail: nat)
    requires k < |table| && 0 < |table[k].query| && Unbordered(table[k].query)
    ensures Render(table, done + Repeat(k, CountEnding(data, table[k].query, previousTail, |data|))) ==
            Render(table, done) + Times(table[k].response, Scan(data, table[k].query, previousTail, 0))
  {
    ScanCounts(data, table[k].query, previousTail, 0);
    RenderMore(table, done, k, CountEnding(data, table[k].query, previousTail, |data|));
  }

  lemma {:induction false} AnsweredStep(table: seq<Reply>, done: seq<nat>, k: nat, data: Bytes, previousTail: nat)
    requires k < |table|
    ensures (done + Repeat(k, CountEnding(data, table[k].query, previousTail, |data|)))
            + Answered(table, k + 1, data, previousTail) ==
            done + Answered(table, k, data, previousTail)
  {
  }

  method TerminalQueryResponses(table: seq<Reply>, data: Bytes, previousTail: nat) returns (replies: Bytes)
    requires WellFormed(table)
    ensures replies == Render(table, Answered(table, 0, data, previousTail))
  {
    replies := [];
    ghost var done: seq<nat> := [];
    for k := 0 to |table|
      invariant replies == Render(table, done)
      invariant done + Answered(table, k, data, previousTail) == Answered(table, 0, data, previousTail)
    {
      var more := RepliesFor(table[k], data, previousTail);
      ghost var answers := Repeat(k, CountEnding(data, table[k].query, previousTail, |data|));
      RenderRow(table, done, k, data, previousTail);
      AnsweredStep(table, done, k, data, previousTail);
      replies := replies + more;
      done := done + answers;
    }
    assert done + [] == done;
  }

  // ---------------------------------------------------------------------
  // A stream cut into chunks
  // ---------------------------------------------------------------------

  /** combined[-(maximum - 1):], for tables whose longest query has at least two bytes. */
  function NextTail(table: seq<Reply>, combined: Bytes): Bytes
    requires 2 <= Longest(table)
  {
    if |combined| <= Longest(table) - 1 then combined else combined[|combined| - (Longest(table) - 1)..]
  }

  /** The answers to a sequence of chunks, starting with the given tail. */
  function AnsweredChunks(table: seq<Reply>, tail: Bytes, chunks: seq<Bytes>): seq<nat>
    requires 2 <= Longest(table)
    decreases |chunks|
  {
    if chunks == [] then []
    else
      Answered(table, 0, tail + chunks[0], |tail|) +
      AnsweredChunks(table, NextTail(table, tail + chunks[0]), chunks[1..])
  }

  function Concat(chunks: seq<Bytes>): Bytes
    decreases |chunks|
  {
    if chunks == [] then [] else chunks[0] + Concat(chunks[1..])
  }

  function CountOf(answers: seq<nat>, k: nat): nat {
    if answers == [] then 0
    else CountOf(answers[..|answers| - 1], k) + (if answers[|answers| - 1] == k then 1 else 0)
  }

  lemma {:induction false} CountOfConcat(a: seq<nat>, b: seq<nat>, k: nat)
    ensures CountOf(a + b, k) == CountOf(a, k) + CountOf(b, k)
    decreases |b|
  {
    if b == [] {
      assert a + b == a;
    } else {
      assert (a + b)[..|a + b| - 1] == a + b[..|b| - 1];
      CountOfConcat(a, b[..|b| - 1], k);
    }
  }

  lemma {:induction false} CountOfRepeat(j: nat, n: nat, k: nat)
    ensures CountOf(Repeat(j, n), k) == if j == k then n else 0
  {
    if n > 0 {
      assert Repeat(j, n)[..n - 1] == Repeat(j, n - 1);
      CountOfRepeat(j, n - 1, k);
    }
  }

  lemma {:induction false} CountOfAnswered(table: seq<Reply>, from_: nat, data: Bytes, previousTail: nat, k: nat)
    requires k < |table|
    ensures CountOf(Answered(table, from_, data, previousTail), k) ==
            if from_ <= k then CountEnding(data, table[k].query, previousTail, |data|) else 0
    decreases |table| - from_
  {
    if from_ < |table| {
      var n := CountEnding(data, table[from_].query, previousTail, |data|);
      CountOfRepeat(from_, n, k);
      CountOfAnswered(table, from_ + 1, data, previousTail, k);
      CountOfConcat(Repeat(from_, n), Answered(table, from_ + 1, data, previousTail), k);
    }
  }

  /** `tail` is all that later matches can need of the bytes seen so far. */
  predicate CarriesTail(table: seq<Reply>, seen: Bytes, tail: Bytes) {
    && |tail| <= |seen| && seen[|seen| - |tail|..] == tail
    && (|tail| < |seen| ==> Longest(table) <= |tail| + 1)
  }

  /** What ends within the chunk is the same in tail plus chunk as in the stream. */
  lemma {:induction false} EndsThroughTail(table: seq<Reply>, seen: Bytes, tail: Bytes, chunk: Bytes, query: Bytes,
                                           n: nat)
    requires CarriesTail(table, seen, tail) && 0 < |query| <= Longest(table) && 0 < n <= |chunk|
    ensures EndsAt(tail + chunk, query, |tail| + n) <==> EndsAt(seen + chunk, query, |seen| + n)
  {
    var drop, i := |seen| - |tail|, |tail| + n - |query|;
    assert (seen + chunk)[drop..] == tail + chunk;
    if 0 <= i {
      assert (seen + chunk)[drop..][i..i + |query|] == (seen + chunk)[drop + i..drop + i + |query|];
    }
  }

  /** Counting in tail plus chunk is counting in the stream itself. */
  lemma {:induction false} CountThroughTail(table: seq<Reply>, seen: Bytes, tail: Bytes, chunk: Bytes, query: Bytes,
                                            n: nat)
    requires CarriesTail(table, seen, tail) && 0 < |query| <= Longest(table) && n <= |chunk|
    ensures CountEnding(tail + chunk, query, |tail|, |tail| + n) == CountEnding(seen + chunk, query, |seen|, |seen| + n)
  {
    if n > 0 {
      CountThroughTail(table, seen, tail, chunk, query, n - 1);
      EndsThroughTail(table, seen, tail, chunk, query, n);
    }
  }

  /** The end of the end of a text is an end of the text. */
  lemma {:induction false} EndOfEnd(all: Bytes, end: Bytes, n: nat)
    requires |end| <= |all| && all[|all| - |end|..] == end && n <= |end|
    ensures all[|all| - n..] == end[|end| - n..]
  {
    assert all[|all| - n..] == all[|all| - |end|..][|end| - n..];
  }

  lemma {:induction false} TailIsCarried(table: seq<Reply>, seen: Bytes, tail: Bytes, chunk: Bytes)
    requires 2 <= Longest(table) && CarriesTail(table, seen, tail)
    ensures CarriesTail(table, seen + chunk, NextTail(table, tail + chunk))
  {
    var all, combined := seen + chunk, tail + chunk;
    assert all[|all| - |combined|..] == combined;
    EndOfEnd(all, combined, |NextTail(table, combined)|);
  }

  lemma {:induction false} EndsInPrefix(s: Bytes, more: Bytes, query: Bytes, hi: nat)
    requires 0 < |query| && hi <= |s|
    ensures EndsAt(s + more, query, hi) <==> EndsAt(s, query, hi)
  {
    var i := hi - |query|;
    if 0 <= i {
      assert (s + more)[i..hi] == s[i..hi];
    }
  }

  /** Bytes after position `hi` cannot change what ends at or before it. */
  lemma {:induction false} CountInPrefix(s: Bytes, more: Bytes, query: Bytes, lo: nat, hi: nat)
    requires 0 < |query| && hi <= |s|
    ensures CountEnding(s + more, query, lo, hi) == CountEnding(s, query, lo, hi)
  {
    if lo < hi {
      CountInPrefix(s, more, query, lo, hi - 1);
      EndsInPrefix(s, more, query, hi);
    }
  }

  lemma {:induction false} OccurrencesGrow(seen: Bytes, chunk: Bytes, query: Bytes, grown: Bytes)
    requires 0 < |query| && grown == seen + chunk
    ensures Occurrences(grown, query) == Occurrences(seen, query) + CountEnding(grown, query, |seen|, |seen| + |chunk|)
  {
    CountSplit(grown, query, 0, |seen|, |grown|);
    CountInPrefix(seen, chunk, query, 0, |seen|);
  }

  lemma {:induction false} ChunkCounts(table: seq<Reply>, seen: Bytes, tail: Bytes, chunk: Bytes, query: Bytes)
    requires CarriesTail(table, seen, tail) && 0 < |query| <= Longest(table)
    ensures Occurrences(seen + chunk, query) ==
            Occurrences(seen, query) + CountEnding(tail + chunk, query, |tail|, |tail| + |chunk|)
  {
    OccurrencesGrow(seen, chunk, query, seen + chunk);
    CountThroughTail(table, seen, tail, chunk, query, |chunk|);
  }

  /** The answers to one chunk are the occurrences that it completes. */
  lemma {:induction false} ChunkCompletes(table: seq<Reply>, seen: Bytes, tail: Bytes, chunk: Bytes, k: nat)
    requires CarriesTail(table, seen, tail) && k < |table| && 0 < |table[k].query|
    ensures Occurrences(seen + chunk, table[k].query) ==
            Occurrences(seen, table[k].query) + CountOf(Answered(table, 0, tail + chunk, |tail|), k)
  {
    var part := tail + chunk;
    LongestBounds(table, k);
    ChunkCounts(table, seen, tail, chunk, table[k].query);
    assert CountOf(Answered(table, 0, part, |tail|), k) == CountEnding(part, table[k].query, |tail|, |part|) by {
      CountOfAnswered(table, 0, part, |tail|, k);
    }
  }

  lemma {:induction false} AnswersFromHere(table: seq<Reply>, seen: Bytes, tail: Bytes, chunks: seq<Bytes>, k: nat)
    requires 2 <= Longest(table) && k < |table| && 0 < |table[k].query| && CarriesTail(table, seen, tail)
    ensures Occurrences(seen + Concat(chunks), table[k].query) ==
            Occurrences(seen, table[k].query) + CountOf(AnsweredChunks(table, tail, chunks), k)
    decreases |chunks|
  {
    var query := table[k].query;
    if chunks == [] {
      assert seen + Concat(chunks) == seen;
    } else {
      var chunk, rest := chunks[0], chunks[1..];
      var next, grown := NextTail(table, tail + chunk), seen + chunk;
      TailIsCarried(table, seen, tail, chunk);
      AnswersFromHere(table, grown, next, rest, k);
      ConcatStep(seen, chunks);
      ChunkCompletes(table, seen, tail, chunk, k);
      CountOfConcat(Answered(table, 0, tail + chunk, |tail|), AnsweredChunks(table, next, rest), k);
    }
  }

  lemma {:induction false} ConcatStep(seen: Bytes, chunks: seq<Bytes>)
    requires chunks != []
    ensures seen + Concat(chunks) == (seen + chunks[0]) + Concat(chunks[1..])
  {
  }

  /**
   However the stream is cut into chunks, each query of the table is answered exactly as
   often as it occurs in the whole stream.
   */
  lemma {:induction false} ChunkingIsInvisible(table: seq<Reply>, chunks: seq<Bytes>, k: nat)
    requires WellFormed(table) && 2 <= Longest(table) && k < |table|
    ensures CountOf(AnsweredChunks(table, [], chunks), k) == Occurrences(Concat(chunks), table[k].query)
  {
    AnswersFromHere(table, [], [], chunks, k);
    assert [] + Concat(chunks) == Concat(chunks);
  }

  lemma {:induction false} OneOccurrence(query: Bytes)
    requires 0 < |query|
    ensures Occurrences(query[..|query| - 1], query) == 0 && Occurrences(query, query) == 1
  {
    var n := |query|;
    var most := query[..n - 1];
    CountNone(most, query, 0, n - 1);
    CountInPrefix(most, query[n - 1..], query, 0, n - 1);
    assert most + query[n - 1..] == query && query[0..n] == query;
    assert EndsAt(query, query, n);
    CountSplit(query, query, 0, n - 1, n);
  }

  /**
   The tail must not be shorter: for any longest query, a stream that is just that query, cut before
   its last byte and with one byte less carried, is answered by nothing although the query occurs once.
   */
  lemma {:induction false} ShorterTailMisses(table: seq<Reply>, k: nat)
    requires 2 <= Longest(table) && k < |table| && |table[k].query| == Longest(table)
    ensures var query := table[k].query;
            var seen, last := query[..|query| - 1], query[|query| - 1..];
            var tail := seen[1..];
            && |NextTail(table, seen)| == |tail| + 1
            && CountOf(Answered(table, 0, seen, 0) + Answered(table, 0, tail + last, |tail|), k) == 0
            && Occurrences(seen + last, query) == 1
  {
    var query := table[k].query;
    var seen, last := query[..|query| - 1], query[|query| - 1..];
    var tail := seen[1..];
    var combined := tail + last;
    OneOccurrence(query);
    assert seen + last == query;
    CountOfAnswered(table, 0, seen, 0, k);
    CountNone(combined, query, |tail|, |combined|);
    CountOfAnswered(table, 0, combined, |tail|, k);
    CountOfConcat(Answered(table, 0, seen, 0), Answered(table, 0, combined, |tail|), k);
  }

  lemma NoBorder(query: Bytes)
    requires forall k | 0 < k < |query| :: query[k] != query[0] || (k + 1 < |query| && query[k + 1] != query[1])
    ensures Unbordered(query)
  {
    forall k | 0 < k < |query| ensures !Border(query, k) {
      assert query[k..][0] == query[k] && query[..|query| - k][0] == query[0];
      if query[k] == query[0] {
        assert query[k..][1] == query[k + 1] && query[..|query| - k][1] == query[1];
      }
    }
  }

  predicate InTableOrder(answers: seq<nat>, lo: nat, hi: nat) {
    && (forall i | 0 <= i < |answers| :: lo <= answers[i] < hi)
    && (forall i, j | 0 <= i < j < |answers| :: answers[i] <= answers[j])
  }

  /** Within one chunk the replies follow the order of the table, not the order of the queries. */
  lemma {:induction false} OneChunkAnswersInTableOrder(table: seq<Reply>, k: nat, data: Bytes, previousTail: nat)
    ensures InTableOrder(Answered(table, k, data, previousTail), k, |table|)
    decreases |table| - k
  {
    if k < |table| {
      OneChunkAnswersInTableOrder(table, k + 1, data, previousTail);
      PrependInOrder(k, CountEnding(data, table[k].query, previousTail, |data|),
                     Answered(table, k + 1, data, previousTail), |table|);
    }
  }

  lemma PrependInOrder(k: nat, n: nat, rest: seq<nat>, hi: nat)
    requires k < hi && InTableOrder(rest, k + 1, hi)
    ensures InTableOrder(Repeat(k, n) + rest, k, hi)
  {
    var all := Repeat(k, n) + rest;
    forall i | 0 <= i < |all| ensures all[i] == if i < n then k else rest[i - n] {
    }
  }

  /** The shipped table meets what the theorem needs: no query overlaps itself, and the tail is seven bytes. */
  lemma ShippedTableIsWellFormed()
    ensures WellFormed(TABLE) && Longest(TABLE) == 8
  {
    forall k | 0 <= k < |TABLE| ensures 0 < |TABLE[k].query| && Unbordered(TABLE[k].query) {
      NoBorder(TABLE[k].query);
    }
    assert |TABLE[5].query| == 8;
    LongestBounds(TABLE, 5);
    LongestAtMost(TABLE, 8);
  }

  /** The row answers this query with this response, as texts. */
  predicate Answers(row: Reply, query: string, response: string) {
    SameText(row.query, query) && SameText(row.response, response)
  }

  predicate SameText(bytes: Bytes, text: string) {
    |bytes| == |text| && forall i | 0 <= i < |text| :: bytes[i] as int == text[i] as int
  }

  lemma CursorReply()
    ensures |TABLE| == 8 && Answers(TABLE[0], "\U{1B}[6n", "\U{1B}[1;1R")
  {
  }

  lemma DeviceReply()
    ensures |TABLE| == 8 && Answers(TABLE[1], "\U{1B}[c", "\U{1B}[?1;2c")
  {
  }

  lemma SecondaryDeviceReply()
    ensures |TABLE| == 8 && Answers(TABLE[2], "\U{1B}[>c", "\U{1B}[>0;0;0c")
  {
  }

  lemma KeyProtocolReply()
    ensures |TABLE| == 8 && Answers(TABLE[3], "\U{1B}[?u", "\U{1B}[?0u")
  {
  }

  lemma ForegroundReply()
    ensures |TABLE| == 8 && Answers(TABLE[4], "\U{1B}]10;?\U{07}", "\U{1B}]10;rgb:ffff/ffff/ffff\U{07}")
  {
  }

  lemma ForegroundReplyInFull()
    ensures |TABLE| == 8 && Answers(TABLE[5], "\U{1B}]10;?\U{1B}\\", "\U{1B}]10;rgb:ffff/ffff/ffff\U{1B}\\")
  {
  }

  lemma BackgroundReply()
    ensures |TABLE| == 8 && Answers(TABLE[6], "\U{1B}]11;?\U{07}", "\U{1B}]11;rgb:0000/0000/0000\U{07}")
  {
  }

  lemma BackgroundReplyInFull()
    ensures |TABLE| == 8 && Answers(TABLE[7], "\U{1B}]11;?\U{1B}\\", "\U{1B}]11;rgb:0000/0000/0000\U{1B}\\")
  {
    var row := TABLE[7];
    assert row.query == [ESC, 0x5d, 0x31, 0x31, 0x3b, 0x3f, ESC, 0x5c];
    assert row.response == [ESC, 0x5d, 0x31, 0x31, 0x3b] + RGB_0000 + [ESC, 0x5c];
    assert SameText(row.query, "\U{1B}]11;?\U{1B}\\");
  }

  /** What a terminal says to each query: where the cursor is, what it is, its key protocol and its two colours. */
  lemma ShippedReplies()
    ensures |TABLE| == 8
    ensures Answers(TABLE[0], "\U{1B}[6n", "\U{1B}[1;1R")
    ensures Answers(TABLE[1], "\U{1B}[c", "\U{1B}[?1;2c")
    ensures Answers(TABLE[2], "\U{1B}[>c", "\U{1B}[>0;0;0c")
    ensures Answers(TABLE[3], "\U{1B}[?u", "\U{1B}[?0u")
    ensures Answers(TABLE[4], "\U{1B}]10;?\U{07}", "\U{1B}]10;rgb:ffff/ffff/ffff\U{07}")
    ensures Answers(TABLE[5], "\U{1B}]10;?\U{1B}\\", "\U{1B}]10;rgb:ffff/ffff/ffff\U{1B}\\")
    ensures Answers(TABLE[6], "\U{1B}]11;?\U{07}", "\U{1B}]11;rgb:0000/0000/0000\U{07}")
    ensures Answers(TABLE[7], "\U{1B}]11;?\U{1B}\\", "\U{1B}]11;rgb:0000/0000/0000\U{1B}\\")
  {
    CursorReply();
    DeviceReply();
    SecondaryDeviceReply();
    KeyProtocolReply();
    ForegroundReply();
    ForegroundReplyInFull();
    BackgroundReply();
    BackgroundReplyInFull();
  }

  // ---------------------------------------------------------------------
  // The reading side of PtyProcess
  // ---------------------------------------------------------------------

  /** The replies sent so far answer everything read so far, and the tail carries the rest. */
  ghost predicate UpToDate(table: seq<Reply>, seen: Bytes, tail: Bytes, answers: seq<nat>, written: Bytes) {
    && written == Render(table, answers)
    && CarriesTail(table, seen, tail)
    && forall k | 0 <= k < |table| :: CountOf(answers, k) == Occurrences(seen, table[k].query)
  }

  lemma ReadStaysUpToDate(table: seq<Reply>, seen: Bytes, tail: Bytes, answers: seq<nat>, written: Bytes, chunk: Bytes)
    requires WellFormed(table) && 2 <= Longest(table) && UpToDate(table, seen, tail, answers, written)
    ensures var now := Answered(table, 0, tail + chunk, |tail|);
            UpToDate(table, seen + chunk, NextTail(table, tail + chunk), answers + now, written + Render(table, now))
  {
    var now := Answered(table, 0, tail + chunk, |tail|);
    RenderConcat(table, answers, now);
    TailIsCarried(table, seen, tail, chunk);
    forall k | 0 <= k < |table| ensures CountOf(answers + now, k) == Occurrences(seen + chunk, table[k].query) {
      CountOfConcat(answers, now, k);
      ChunkCompletes(table, seen, tail, chunk, k);
    }
  }

  class PtyProcess {
    const table: seq<Reply>
    var buffer: Bytes
    var queryTail: Bytes
    var written: Bytes
    ghost var answers: seq<nat>

    ghost predicate Valid()
      reads this
    {
      && WellFormed(table) && 2 <= Longest(table)
      && UpToDate(table, buffer, queryTail, answers, written)
    }

    constructor ()
      ensures Valid() && table == TABLE && buffer == [] && written == []
    {
      ShippedTableIsWellFormed();
      table := TABLE;
      buffer, queryTail, written, answers := [], [], [], [];
    }

    /** One read: after it the replies sent so far match everything read so far. */
    method ReadChunk(chunk: Bytes)
      requires Valid()
      modifies this
      ensures Valid() && buffer == old(buffer) + chunk
      ensures chunk == [] ==> written == old(written)
      ensures chunk != [] ==>
                written == old(written) + Render(table, Answered(table, 0, old(queryTail) + chunk, |old(queryTail)|))
    {
      if chunk != [] {
        ReadStaysUpToDate(table, buffer, queryTail, answers, written, chunk);
        buffer := buffer + chunk;
        var combined := queryTail + chunk;
        var response := TerminalQueryResponses(table, combined, |queryTail|);
        answers := answers + Answered(table, 0, combined, |queryTail|);
        assert response == [] ==> written == written + response;
        if response != [] {
          written := written + response;
        }
        var maximum := MaximumLength(table);
        queryTail := if |combined| <= maximum - 1 then combined else combined[|combined| - (maximum - 1)..];
        assert queryTail == NextTail(table, combined);
      } else {
        assert buffer + chunk == buffer;
      }
    }
  }

  method MaximumLength(table: seq<Reply>) returns (maximum: nat)
    ensures maximum == Longest(table)
  {
    maximum := 0;
    var k := |table|;
    while 0 < k
      invariant 0 <= k <= |table|
      invariant maximum == Longest(table[k..])
    {
      k := k - 1;
      assert table[k..][1..] == table[k + 1..];
      maximum := if |table[k].query| > maximum then |table[k].query| else maximum;
    }
    assert table[0..] == table;
  }
}

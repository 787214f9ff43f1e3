/** The parts of Go's strings package that the modules below rely on. */
module Text {
  import opened Sorting

  /** unicode.IsSpace */
  predicate IsSpace(c: char) {
    || c in {'\t', '\n', '\U{0B}', '\U{0C}', '\r', ' ', '\U{85}', '\U{A0}', '\U{1680}',
             '\U{2028}', '\U{2029}', '\U{202F}', '\U{205F}', '\U{3000}'}
    || '\U{2000}' <= c <= '\U{200A}'
  }

  /** Byte order on valid UTF-8 is code point order. */
  predicate Less(a: string, b: string) {
    if b == [] then false
    else if a == [] then true
    else if a[0] != b[0] then a[0] < b[0]
    else Less(a[1..], b[1..])
  }

  lemma {:induction false} LessIsTransitive(a: string, b: string, c: string)
    requires Less(a, b) && Less(b, c)
    ensures Less(a, c)
  {
    if a != [] && a[0] == b[0] == c[0] {
      LessIsTransitive(a[1..], b[1..], c[1..]);
    }
  }

  lemma {:induction false} LessIsConnected(a: string, b: string)
    ensures a == b ==> !Less(a, b)
    ensures a != b ==> Less(a, b) || Less(b, a)
  {
    if a != [] && b != [] && a[0] == b[0] {
      assert a == [a[0]] + a[1..] && b == [b[0]] + b[1..];
      LessIsConnected(a[1..], b[1..]);
    }
  }

  lemma LessIsTotal()
    ensures TotalOrder(Less)
  {
    forall x ensures !Less(x, x) { LessIsConnected(x, x); }
    forall x, y | x != y ensures Less(x, y) || Less(y, x) { LessIsConnected(x, y); }
    forall x, y, z | Less(x, y) && Less(y, z) ensures Less(x, z) { LessIsTransitive(x, y, z); }
  }

  predicate HasPrefix(s: string, prefix: string) {
    prefix <= s
  }

  predicate HasSuffix(s: string, suffix: string) {
    |suffix| <= |s| && s[|s| - |suffix|..] == suffix
  }

  predicate OccursAt(s: string, sub: string, i: int) {
    0 <= i && i + |sub| <= |s| && s[i..i + |sub|] == sub
  }

  predicate Contains(s: string, sub: string) {
    exists i | 0 <= i <= |s| :: OccursAt(s, sub, i)
  }

  /** strings.Index: the first occurrence, or -1. */
  function Index(s: string, sub: string): (i: int)
    ensures -1 <= i <= |s|
    ensures i >= 0 ==> OccursAt(s, sub, i) && forall j | 0 <= j < i :: !OccursAt(s, sub, j)
    ensures i < 0 <==> !Contains(s, sub)
  {
    IndexFrom(s, sub, 0)
  }

  function IndexFrom(s: string, sub: string, from: nat): (i: int)
    requires from <= |s| + 1 && forall j | 0 <= j < from :: !OccursAt(s, sub, j)
    ensures -1 <= i <= |s|
    ensures i >= 0 ==> OccursAt(s, sub, i) && forall j | 0 <= j < i :: !OccursAt(s, sub, j)
    ensures i < 0 ==> forall j | 0 <= j <= |s| :: !OccursAt(s, sub, j)
    decreases |s| + 1 - from
  {
    if from > |s| then -1 else if OccursAt(s, sub, from) then from else IndexFrom(s, sub, from + 1)
  }

  function WordLength(separates: char -> bool, s: string): (n: nat)
    ensures n <= |s| && (forall i | 0 <= i < n :: !separates(s[i])) && (n == |s| || separates(s[n]))
  {
    if s == [] || separates(s[0]) then 0 else 1 + WordLength(separates, s[1..])
  }

  /** strings.FieldsFunc: the longest pieces without separators. */
  function FieldsFunc(separates: char -> bool, s: string): seq<string>
    decreases |s|
  {
    if s == [] then []
    else if separates(s[0]) then FieldsFunc(separates, s[1..])
    else
      var n := WordLength(separates, s);
      assert n > 0;
      [s[..n]] + FieldsFunc(separates, s[n..])
  }

  predicate FreeOf(separates: char -> bool, s: string) {
    forall i | 0 <= i < |s| :: !separates(s[i])
  }

  lemma {:induction false} FieldsAreFree(separates: char -> bool, s: string)
    ensures forall f | f in FieldsFunc(separates, s) :: f != [] && FreeOf(separates, f)
    decreases |s|
  {
    if s != [] {
      FieldsAreFree(separates, s[if separates(s[0]) then 1 else WordLength(separates, s)..]);
    }
  }

  lemma FieldsOfOne(separates: char -> bool, s: string)
    requires s != [] && FreeOf(separates, s)
    ensures FieldsFunc(separates, s) == [s]
  {
    assert WordLength(separates, s) == |s|;
    assert s[..|s|] == s && s[|s|..] == [];
  }

  /** A separator splits the fields of what is around it. */
  lemma {:induction false} FieldsSplit(separates: char -> bool, a: string, c: char, b: string)
    requires separates(c)
    ensures FieldsFunc(separates, a + [c] + b) == FieldsFunc(separates, a) + FieldsFunc(separates, b)
    decreases |a|
  {
    var s := a + [c] + b;
    if a == [] {
      assert s[1..] == b;
    } else if separates(a[0]) {
      assert s[1..] == a[1..] + [c] + b;
      FieldsSplit(separates, a[1..], c, b);
    } else {
      var n := WordLength(separates, a);
      WordEndsBefore(separates, a, c, b);
      assert s[..n] == a[..n] && s[n..] == a[n..] + [c] + b;
      FieldsSplit(separates, a[n..], c, b);
    }
  }

  lemma WordEndsBefore(separates: char -> bool, a: string, c: char, b: string)
    requires separates(c)
    ensures WordLength(separates, a + [c] + b) == WordLength(separates, a)
  {
    var s := a + [c] + b;
    assert forall i | 0 <= i < |a| :: s[i] == a[i];
    assert s[|a|] == c;
  }

  lemma OneFieldJoinsTheNext(separates: char -> bool, a: string, b: string)
    requires a != [] && b != [] && FreeOf(separates, a) && !separates(b[0])
    ensures |FieldsFunc(separates, a + b)| == |FieldsFunc(separates, b)|
  {
    var s, m := a + b, WordLength(separates, b);
    var n := WordLength(separates, s);
    assert n == |a| + m by {
      assert forall i | 0 <= i < |a| :: s[i] == a[i];
      assert forall i | |a| <= i < |s| :: s[i] == b[i - |a|];
      assert n >= |a|;
      assert forall i | 0 <= i < m :: s[|a| + i] == b[i];
      assert m < |b| ==> s[|a| + m] == b[m];
    }
    assert s[n..] == b[m..];
  }

  /** Without a separator between them the last field of one text and the first of the next run together. */
  lemma {:induction false} FieldsRunTogether(separates: char -> bool, a: string, b: string)
    requires a != [] && b != [] && !separates(a[|a| - 1]) && !separates(b[0])
    ensures |FieldsFunc(separates, a + b)| == |FieldsFunc(separates, a)| + |FieldsFunc(separates, b)| - 1
    decreases |a|
  {
    var s, n := a + b, WordLength(separates, a);
    if separates(a[0]) {
      assert s[1..] == a[1..] + b;
      FieldsRunTogether(separates, a[1..], b);
    } else if n < |a| {
      assert WordLength(separates, s) == n by {
        assert forall i | 0 <= i < |a| :: s[i] == a[i];
      }
      assert s[n..] == a[n..] + b;
      FieldsRunTogether(separates, a[n..], b);
    } else {
      FieldsOfOne(separates, a);
      OneFieldJoinsTheNext(separates, a, b);
    }
  }

  /** A piece without separators that a separator or an end of the text bounds on each side. */
  ghost predicate IsWordOf(separates: char -> bool, w: string, s: string) {
    && w != [] && FreeOf(separates, w)
    && exists pre: string, post: string :: Bounds(separates, pre, post) && s == pre + w + post
  }

  predicate Bounds(separates: char -> bool, pre: string, post: string) {
    (pre == [] || separates(pre[|pre| - 1])) && (post == [] || separates(post[0]))
  }

  lemma {:induction false} FieldIsAWord(separates: char -> bool, s: string, w: string)
    requires w in FieldsFunc(separates, s)
    ensures IsWordOf(separates, w, s)
    decreases |s|
  {
    var n := if separates(s[0]) then 1 else WordLength(separates, s);
    assert s == s[..n] + s[n..];
    if !separates(s[0]) && w == s[..n] {
      FirstWord(separates, w, s[n..]);
    } else {
      FieldIsAWord(separates, s[n..], w);
      WordBehind(separates, s[..n], s[n..], w);
    }
  }

  lemma FirstWord(separates: char -> bool, w: string, post: string)
    requires w != [] && FreeOf(separates, w) && (post == [] || separates(post[0]))
    ensures IsWordOf(separates, w, w + post)
  {
    var none: string := "";
    assert Bounds(separates, none, post) && w + post == none + w + post;
  }

  lemma WordBehind(separates: char -> bool, head: string, rest: string, w: string)
    requires head != [] && IsWordOf(separates, w, rest)
    requires separates(head[|head| - 1]) || (rest != [] && separates(rest[0]))
    ensures IsWordOf(separates, w, head + rest)
  {
    var pre: string, post: string :| Bounds(separates, pre, post) && rest == pre + w + post;
    assert pre == [] ==> rest[0] == w[0];
    assert Bounds(separates, head + pre, post);
    assert head + rest == (head + pre) + w + post;
  }

  /** The fields of a text are its words. */
  lemma FieldsMean(separates: char -> bool, s: string, w: string)
    ensures w in FieldsFunc(separates, s) <==> IsWordOf(separates, w, s)
  {
    if w in FieldsFunc(separates, s) {
      FieldIsAWord(separates, s, w);
    }
    if IsWordOf(separates, w, s) {
      var pre: string, post: string :| Bounds(separates, pre, post) && s == pre + w + post;
      WordIsAField(separates, pre, w, post);
    }
  }

  lemma WordIsAField(separates: char -> bool, pre: string, w: string, post: string)
    requires w != [] && FreeOf(separates, w) && Bounds(separates, pre, post)
    ensures w in FieldsFunc(separates, pre + w + post)
  {
    FirstWordIsAField(separates, w, post);
    FieldBehind(separates, pre, w + post, w);
    assert pre + w + post == pre + (w + post);
  }

  lemma FirstWordIsAField(separates: char -> bool, w: string, post: string)
    requires w != [] && FreeOf(separates, w) && (post == [] || separates(post[0]))
    ensures w in FieldsFunc(separates, w + post)
  {
    FieldsOfOne(separates, w);
    if post == [] {
      assert w + post == w;
    } else {
      var c, rest := post[0], post[1..];
      assert post == [c] + rest && w + post == w + [c] + rest;
      FieldsSplit(separates, w, c, rest);
      assert w in [w] + FieldsFunc(separates, rest);
    }
  }

  lemma FieldBehind(separates: char -> bool, pre: string, rest: string, w: string)
    requires w in FieldsFunc(separates, rest) && (pre == [] || separates(pre[|pre| - 1]))
    ensures w in FieldsFunc(separates, pre + rest)
  {
    if pre == [] {
      assert pre + rest == rest;
    } else {
      var n := |pre| - 1;
      assert pre + rest == pre[..n] + [pre[n]] + rest;
      FieldsSplit(separates, pre[..n], pre[n], rest);
    }
  }

  function TrimLeft(s: string): string {
    if s != [] && IsSpace(s[0]) then TrimLeft(s[1..]) else s
  }

  function TrimRight(s: string): string {
    if s != [] && IsSpace(s[|s| - 1]) then TrimRight(s[..|s| - 1]) else s
  }

  /** strings.TrimSpace */
  function TrimSpace(s: string): string {
    TrimRight(TrimLeft(s))
  }

  predicate Trimmed(s: string) {
    s == [] || (!IsSpace(s[0]) && !IsSpace(s[|s| - 1]))
  }

  lemma TrimSpaceIsTrimmed(s: string)
    ensures Trimmed(TrimSpace(s))
    ensures Trimmed(s) ==> TrimSpace(s) == s
  {
    TrimLeftStops(s);
    TrimRightStops(TrimLeft(s));
  }

  lemma {:induction false} TrimLeftStops(s: string)
    ensures TrimLeft(s) == [] || !IsSpace(TrimLeft(s)[0])
  {
    if s != [] && IsSpace(s[0]) {
      TrimLeftStops(s[1..]);
    }
  }

  lemma {:induction false} TrimRightStops(s: string)
    ensures var t := TrimRight(s);
            t <= s && (t == [] || !IsSpace(t[|t| - 1]))
  {
    if s != [] && IsSpace(s[|s| - 1]) {
      TrimRightStops(s[..|s| - 1]);
    }
  }

  predicate Blank(s: string) {
    forall i | 0 <= i < |s| :: IsSpace(s[i])
  }

  lemma {:induction false} TrimLeftOf(s: string)
    ensures exists pre: string :: Blank(pre) && s == pre + TrimLeft(s)
  {
    if s != [] && IsSpace(s[0]) {
      TrimLeftOf(s[1..]);
      var pre: string :| Blank(pre) && s[1..] == pre + TrimLeft(s[1..]);
      assert s == ([s[0]] + pre) + TrimLeft(s);
      assert Blank([s[0]] + pre);
    } else {
      var none: string := "";
      assert Blank(none) && s == none + TrimLeft(s);
    }
  }

  lemma {:induction false} TrimRightOf(s: string)
    ensures exists post: string :: Blank(post) && s == TrimRight(s) + post
  {
    if s != [] && IsSpace(s[|s| - 1]) {
      TrimRightOf(s[..|s| - 1]);
      var post: string :| Blank(post) && s[..|s| - 1] == TrimRight(s[..|s| - 1]) + post;
      assert s == TrimRight(s) + (post + [s[|s| - 1]]);
      assert Blank(post + [s[|s| - 1]]);
    } else {
      var none: string := "";
      assert Blank(none) && s == TrimRight(s) + none;
    }
  }

  lemma {:induction false} TrimLeftSkips(pre: string, s: string)
    requires Blank(pre) && (s == [] || !IsSpace(s[0]))
    ensures TrimLeft(pre + s) == s
  {
    if pre == [] {
      assert pre + s == s;
    } else {
      assert (pre + s)[0] == pre[0] && (pre + s)[1..] == pre[1..] + s;
      TrimLeftSkips(pre[1..], s);
    }
  }

  lemma {:induction false} TrimRightSkips(s: string, post: string)
    requires Blank(post) && (s == [] || !IsSpace(s[|s| - 1]))
    ensures TrimRight(s + post) == s
  {
    if post == [] {
      assert s + post == s;
    } else {
      var n := |post| - 1;
      assert (s + post)[|s + post| - 1] == post[n] && (s + post)[..|s + post| - 1] == s + post[..n];
      TrimRightSkips(s, post[..n]);
    }
  }

  lemma BlankTrimsAway(s: string)
    requires Blank(s)
    ensures TrimSpace(s) == []
  {
    TrimLeftSkips(s, []);
    assert s + [] == s;
  }

  /** Trimming takes the padding and nothing inside it. */
  lemma TrimSpaceTakesThePadding(s: string, t: string)
    ensures TrimSpace(s) == t <==>
              Trimmed(t) && exists pre: string, post: string :: Blank(pre) && Blank(post) && s == pre + t + post
  {
    if TrimSpace(s) == t {
      TrimSpaceIsTrimmed(s);
      TrimSpaceLeavesPadding(s);
    }
    if pre: string, post: string :| Trimmed(t) && Blank(pre) && Blank(post) && s == pre + t + post {
      TrimSpaceOfPadded(pre, t, post);
    }
  }

  lemma TrimSpaceLeavesPadding(s: string)
    ensures exists pre: string, post: string :: Blank(pre) && Blank(post) && s == pre + TrimSpace(s) + post
  {
    TrimLeftOf(s);
    TrimRightOf(TrimLeft(s));
    var pre: string :| Blank(pre) && s == pre + TrimLeft(s);
    var post: string :| Blank(post) && TrimLeft(s) == TrimSpace(s) + post;
    assert s == pre + TrimSpace(s) + post;
  }

  lemma TrimSpaceOfPadded(pre: string, t: string, post: string)
    requires Trimmed(t) && Blank(pre) && Blank(post)
    ensures TrimSpace(pre + t + post) == t
  {
    assert pre + t + post == pre + (t + post);
    if t == [] {
      BlankTrimsAway(pre + t + post);
    } else {
      TrimLeftSkips(pre, t + post);
      TrimRightSkips(t, post);
    }
  }

  lemma BlankMeans(s: string)
    ensures TrimSpace(s) == "" <==> Blank(s)
  {
    if Blank(s) {
      BlankTrimsAway(s);
    }
    if TrimSpace(s) == "" {
      var none: string := "";
      TrimSpaceTakesThePadding(s, none);
      var pre: string, post: string :| Blank(pre) && Blank(post) && s == pre + none + post;
      assert s == pre + post;
    }
  }

  /** The length in bytes of the UTF-8 encoding. */
  function CharBytes(c: char): nat {
    if c < '\U{80}' then 1 else if c < '\U{800}' then 2 else if c < '\U{10000}' then 3 else 4
  }

  function ByteLength(s: string): nat {
    if s == [] then 0 else ByteLength(s[..|s| - 1]) + CharBytes(s[|s| - 1])
  }

  lemma {:induction false} ByteLengthConcat(a: string, b: string)
    ensures ByteLength(a + b) == ByteLength(a) + ByteLength(b)
    decreases |b|
  {
    if b == [] {
      assert a + b == a;
    } else {
      assert (a + b)[..|a + b| - 1] == a + b[..|b| - 1];
      ByteLengthConcat(a, b[..|b| - 1]);
    }
  }

  /** bus.ValidateTextIdentifier: at most `max` bytes and no control characters. */
  predicate ValidIdentifier(value: string, max: nat) {
    && ByteLength(value) <= max
    && forall i | 0 <= i < |value| :: value[i] >= '\U{20}' && value[i] != '\U{7F}'
  }
}

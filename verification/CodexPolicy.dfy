/**
 The managed policy block in a Codex user configuration: spliced in by
 internal/connector/codex_setup.go, taken out by internal/connector/remove.go.
 What the TOML decoder and the policy checks say of a text is a parameter.
 */
module CodexPolicy {
  import opened Wrappers
  import opened Text

  /** The comment lines around the managed block. */
  datatype Markers = Markers(start: string, end: string) {
    predicate Proper() {
      OneLine(start) && OneLine(end) && !Contains(start + "\n", end)
    }
  }

  const HOLLER := Markers("# BEGIN holler managed Codex MCP policy", "# END holler managed Codex MCP policy")

  /** Decoding, and the verdicts on the decoded settings. */
  datatype Toml = Toml(decodes: string -> bool, policyExists: string -> bool, policyAuthorizes: string -> bool)

  datatype PolicyError = IncompleteBlock | Undecodable | ConflictingPolicy

  datatype Base = Base(text: string, hadBlock: bool)

  datatype Planned = Planned(text: string, changed: bool)

  // ---------------------------------------------------------------------
  // Specification
  // ---------------------------------------------------------------------

  predicate IsNewline(c: char) {
    c == '\n' || c == '\r'
  }

  /** strings.TrimRight with both newline characters */
  function TrimNewlines(s: string): string {
    if s != [] && IsNewline(s[|s| - 1]) then TrimNewlines(s[..|s| - 1]) else s
  }

  function SkipNewlines(s: string): string {
    if s != [] && IsNewline(s[0]) then SkipNewlines(s[1..]) else s
  }

  function EnsureTrailingNewline(s: string): string {
    if s == [] || s[|s| - 1] == '\n' then s else s + "\n"
  }

  /** The text without its managed block. */
  function Stripped(m: Markers, raw: string): Result<Base, PolicyError> {
    var start, end := Index(raw, m.start), Index(raw, m.end);
    if start < 0 && end < 0 then Success(Base(raw, false))
    else if start < 0 || end < start then Failure(IncompleteBlock)
    else Success(Base(TrimNewlines(raw[..start]) + SkipNewlines(raw[end + |m.end|..]), true))
  }

  /** Everything before the policy. */
  function Opening(base: string): string {
    EnsureTrailingNewline(base) + (if base == [] then "" else "\n")
  }

  /** A block between two pieces of text. */
  function Spliced(m: Markers, pre: string, policy: string, post: string): string {
    pre + (m.start + "\n" + policy) + (m.end + post)
  }

  function Merged(m: Markers, policy: string, base: string): string {
    Spliced(m, Opening(base), policy, "\n")
  }

  /** How the decoder and the checks judge a user's own text. */
  function Verdict(toml: Toml, base: string): Result<bool, PolicyError> {
    if TrimSpace(base) == "" then Success(false)
    else if !toml.decodes(base) then Failure(Undecodable)
    else if !toml.policyExists(base) then Success(false)
    else if toml.policyAuthorizes(base) then Success(true)
    else Failure(ConflictingPolicy)
  }

  function Plan(m: Markers, toml: Toml, policy: string, raw: string): Result<Planned, PolicyError> {
    match Stripped(m, raw)
    case Failure(error) => Failure(error)
    case Success(base) =>
      match Verdict(toml, base.text)
      case Failure(error) => Failure(error)
      case Success(authorized) =>
        if authorized && base.hadBlock then Success(Planned(EnsureTrailingNewline(base.text), true))
        else if authorized then Success(Planned(raw, false))
        else Success(Planned(Merged(m, policy, base.text), raw != Merged(m, policy, base.text)))
  }

  /** What removal leaves; a text without a block is left alone. */
  function Removed(m: Markers, raw: string): Result<Planned, PolicyError> {
    match Stripped(m, raw)
    case Failure(error) => Failure(error)
    case Success(base) =>
      if base.hadBlock then Success(Planned(EnsureTrailingNewline(TrimNewlines(base.text)), true))
      else Success(Planned(raw, false))
  }

  // ---------------------------------------------------------------------
  // The code
  // ---------------------------------------------------------------------

  lemma {:induction false} SkipOne(s: string, i: nat)
    requires i < |s| && IsNewline(s[i])
    ensures SkipNewlines(s[i..]) == SkipNewlines(s[i + 1..])
  {
    assert s[i..][0] == s[i] && s[i..][1..] == s[i + 1..];
  }

  method AfterNewlines(text: string, from: nat) returns (end: nat)
    requires from <= |text|
    ensures end <= |text| && text[end..] == SkipNewlines(text[from..])
  {
    end := from;
    while end < |text| && IsNewline(text[end])
      invariant end <= |text| && SkipNewlines(text[end..]) == SkipNewlines(text[from..])
    {
      SkipOne(text, end);
      end := end + 1;
    }
  }

  method StripManagedCodexPolicy(m: Markers, raw: string) returns (result: Result<Base, PolicyError>)
    ensures result == Stripped(m, raw)
  {
    var start := Index(raw, m.start);
    var end := Index(raw, m.end);
    if start < 0 && end < 0 {
      return Success(Base(raw, false));
    }
    if start < 0 || end < start {
      return Failure(IncompleteBlock);
    }
    end := AfterNewlines(raw, end + |m.end|);
    return Success(Base(TrimNewlines(raw[..start]) + raw[end..], true));
  }

  method PlannedCodexUserConfig(m: Markers, toml: Toml, policy: string, raw: string)
    returns (result: Result<Planned, PolicyError>)
    ensures result == Plan(m, toml, policy, raw)
  {
    var stripped := StripManagedCodexPolicy(m, raw);
    if stripped.Failure? {
      return Failure(stripped.error);
    }
    var base, hadManagedBlock := stripped.value.text, stripped.value.hadBlock;
    if |TrimSpace(base)| > 0 {
      if !toml.decodes(base) {
        return Failure(Undecodable);
      }
      if toml.policyExists(base) {
        if toml.policyAuthorizes(base) {
          if !hadManagedBlock {
            return Success(Planned(raw, false));
          }
          return Success(Planned(EnsureTrailingNewline(base), true));
        }
        return Failure(ConflictingPolicy);
      }
    }
    var output := EnsureTrailingNewline(base);
    if |output| > 0 {
      output := output + "\n";
    }
    output := output + m.start;
    output := output + "\n";
    output := output + policy;
    output := output + m.end;
    output := output + "\n";
    assert output == Merged(m, policy, base);
    return Success(Planned(output, raw != output));
  }

  // ---------------------------------------------------------------------
  // Finding the block again
  // ---------------------------------------------------------------------

  predicate OneLine(pattern: string) {
    pattern != [] && forall i | 0 <= i < |pattern| :: !IsNewline(pattern[i])
  }

  predicate Closed(s: string) {
    s == [] || s[|s| - 1] == '\n'
  }

  predicate MarkerFree(m: Markers, s: string) {
    !Contains(s, m.start) && !Contains(s, m.end)
  }

  /** A one-line pattern does not straddle the end of a line. */
  lemma NoStraddling(a: string, b: string, pattern: string, i: nat)
    requires OneLine(pattern) && Closed(a) && OccursAt(a + b, pattern, i)
    ensures i + |pattern| <= |a| || |a| <= i
  {
    assert |a| > 0 ==> (a + b)[|a| - 1] == '\n';
    assert forall j | i <= j < i + |pattern| :: (a + b)[j] == pattern[j - i];
  }

  lemma ContainsInOne(a: string, b: string, pattern: string)
    requires OneLine(pattern) && Closed(a) && Contains(a + b, pattern)
    ensures Contains(a, pattern) || Contains(b, pattern)
  {
    var i :| 0 <= i <= |a + b| && OccursAt(a + b, pattern, i);
    NoStraddling(a, b, pattern, i);
    SliceOfOne(a, b, i, i + |pattern|);
    if i + |pattern| <= |a| {
      assert OccursAt(a, pattern, i);
    } else {
      assert OccursAt(b, pattern, i - |a|);
    }
  }

  lemma SliceOfOne(a: string, b: string, lo: nat, hi: nat)
    requires lo <= hi <= |a + b|
    ensures hi <= |a| ==> a[lo..hi] == (a + b)[lo..hi]
    ensures |a| <= lo ==> b[lo - |a|..hi - |a|] == (a + b)[lo..hi]
  {
  }

  /** A pattern on a line of its own is found there when the text before it does not have it. */
  lemma FoundAfter(pre: string, pattern: string, post: string)
    requires OneLine(pattern) && Closed(pre) && !Contains(pre, pattern)
    ensures Index(pre + pattern + post, pattern) == |pre|
  {
    var s := pre + pattern + post;
    assert s == pre + (pattern + post);
    assert s[|pre|..|pre| + |pattern|] == pattern;
    assert OccursAt(s, pattern, |pre|);
    var i := Index(s, pattern);
    if i < |pre| {
      NoStraddling(pre, pattern + post, pattern, i);
      assert pre[i..i + |pattern|] == s[i..i + |pattern|];
      assert OccursAt(pre, pattern, i);
    }
  }

  lemma AddingNewlines(s: string, pattern: string)
    requires OneLine(pattern) && !Contains(s, pattern)
    ensures !Contains(s + "\n", pattern)
  {
    forall i | 0 <= i <= |s| + 1 ensures !OccursAt(s + "\n", pattern, i) {
      if OccursAt(s + "\n", pattern, i) {
        var last := (s + "\n")[i..i + |pattern|][|pattern| - 1];
        assert last == (s + "\n")[i + |pattern| - 1];
        assert i + |pattern| <= |s|;
        assert s[i..i + |pattern|] == (s + "\n")[i..i + |pattern|];
        assert OccursAt(s, pattern, i);
      }
    }
  }

  lemma OpeningIsMarkerFree(m: Markers, base: string)
    requires m.Proper() && MarkerFree(m, base)
    ensures MarkerFree(m, Opening(base)) && Closed(Opening(base))
  {
    if base != [] {
      AddingNewlines(base, m.start);
      AddingNewlines(base, m.end);
      AddingNewlines(EnsureTrailingNewline(base), m.start);
      AddingNewlines(EnsureTrailingNewline(base), m.end);
    } else {
      assert Opening(base) == base;
    }
  }

  /** The policy a connector writes: whole lines without a marker. */
  predicate PolicyText(m: Markers, policy: string) {
    Closed(policy) && MarkerFree(m, policy)
  }

  lemma EndIsNotBefore(m: Markers, pre: string, policy: string)
    requires m.Proper() && Closed(pre) && MarkerFree(m, pre) && PolicyText(m, policy)
    ensures var upTo := pre + (m.start + "\n" + policy);
            Closed(upTo) && !Contains(upTo, m.end)
  {
    var header := m.start + "\n";
    assert header + policy == m.start + "\n" + policy;
    if Contains(pre + (header + policy), m.end) {
      ContainsInOne(pre, header + policy, m.end);
      ContainsInOne(header, policy, m.end);
    }
  }

  lemma StartIsFound(m: Markers, pre: string, policy: string, post: string)
    requires m.Proper() && Closed(pre) && MarkerFree(m, pre)
    ensures Index(Spliced(m, pre, policy, post), m.start) == |pre|
  {
    var rest := "\n" + policy + (m.end + post);
    FoundAfter(pre, m.start, rest);
    assert Spliced(m, pre, policy, post) == pre + m.start + rest;
  }

  lemma EndIsFound(m: Markers, pre: string, policy: string, post: string)
    requires m.Proper() && Closed(pre) && MarkerFree(m, pre) && PolicyText(m, policy)
    ensures Index(Spliced(m, pre, policy, post), m.end) == |pre + (m.start + "\n" + policy)|
  {
    var upTo := pre + (m.start + "\n" + policy);
    EndIsNotBefore(m, pre, policy);
    FoundAfter(upTo, m.end, post);
    assert Spliced(m, pre, policy, post) == upTo + m.end + post;
  }

  /** What is left is the text before the block and the text behind it, without the newlines between. */
  lemma {:induction false} StripAroundBlock(m: Markers, pre: string, policy: string, post: string)
    requires m.Proper() && Closed(pre) && MarkerFree(m, pre) && PolicyText(m, policy)
    ensures Stripped(m, Spliced(m, pre, policy, post)) == Success(Base(TrimNewlines(pre) + SkipNewlines(post), true))
  {
    var raw, upTo := Spliced(m, pre, policy, post), pre + (m.start + "\n" + policy);
    StartIsFound(m, pre, policy, post);
    EndIsFound(m, pre, policy, post);
    assert raw[..|pre|] == pre;
    assert raw == (upTo + m.end) + post;
    assert raw[|upTo| + |m.end|..] == post;
  }

  // ---------------------------------------------------------------------
  // Laws
  // ---------------------------------------------------------------------

  lemma {:induction false} TrimNewlinesOf(s: string)
    ensures TrimNewlines(TrimNewlines(s)) == TrimNewlines(s) && TrimNewlines(s) <= s
    ensures TrimNewlines(s + "\n") == TrimNewlines(s)
    ensures TrimNewlines(s) == [] || !IsNewline(TrimNewlines(s)[|TrimNewlines(s)| - 1])
  {
    assert (s + "\n")[..|s|] == s;
    if s != [] && IsNewline(s[|s| - 1]) {
      TrimNewlinesOf(s[..|s| - 1]);
    }
  }

  lemma OpeningTrims(base: string)
    ensures TrimNewlines(Opening(base)) == TrimNewlines(base)
  {
    TrimNewlinesOf(base);
    TrimNewlinesOf(EnsureTrailingNewline(base));
    if base == [] {
      assert Opening(base) == base;
    }
  }

  lemma StripFinalBlock(m: Markers, pre: string, policy: string, post: string)
    requires m.Proper() && Closed(pre) && MarkerFree(m, pre) && PolicyText(m, policy) && post == ['\n']
    ensures Stripped(m, Spliced(m, pre, policy, post)) == Success(Base(TrimNewlines(pre), true))
  {
    StripAroundBlock(m, pre, policy, post);
    assert post[1..] == [] && SkipNewlines(post) == [];
    assert TrimNewlines(pre) + [] == TrimNewlines(pre);
  }

  /** Stripping a merged text gives the user's text back, up to the newlines at its end. */
  lemma {:induction false} StripInvertsMerge(m: Markers, policy: string, base: string)
    requires m.Proper() && MarkerFree(m, base) && PolicyText(m, policy)
    ensures Stripped(m, Merged(m, policy, base)) == Success(Base(TrimNewlines(base), true))
  {
    var pre := Opening(base);
    OpeningIsMarkerFree(m, base);
    OpeningTrims(base);
    StripFinalBlock(m, pre, policy, "\n");
  }

  /**
   Merging and then removing restores the text with exactly one newline at its end, or none when it was
   blank lines only.
   */
  lemma {:induction false} RemoveInvertsMerge(m: Markers, toml: Toml, policy: string, base: string)
    requires m.Proper() && MarkerFree(m, base) && PolicyText(m, policy) && Verdict(toml, base) == Success(false)
    ensures Plan(m, toml, policy, base).Success?
    ensures Removed(m, Plan(m, toml, policy, base).value.text) ==
            Success(Planned(EnsureTrailingNewline(TrimNewlines(base)), true))
  {
    StripInvertsMerge(m, policy, base);
    TrimNewlinesOf(base);
  }

  predicate FirstAt(s: string, sub: string, i: int) {
    OccursAt(s, sub, i) && forall j | 0 <= j < i :: !OccursAt(s, sub, j)
  }

  lemma IndexIsFirst(s: string, sub: string, i: int)
    ensures FirstAt(s, sub, i) <==> i == Index(s, sub) && Contains(s, sub)
  {
    var k := Index(s, sub);
    if FirstAt(s, sub, i) && k >= 0 {
      assert i < k ==> !OccursAt(s, sub, i);
      assert k < i ==> !OccursAt(s, sub, k);
    }
  }

  /**
   A block is incomplete exactly when one of its markers is missing, or the end marker comes first; a
   text without both is its own base, and removal leaves it alone.
   */
  lemma {:induction false} StripAnswers(m: Markers, raw: string)
    ensures Stripped(m, raw) == Failure(IncompleteBlock) <==>
              || Contains(raw, m.start) != Contains(raw, m.end)
              || exists i, j :: FirstAt(raw, m.start, i) && FirstAt(raw, m.end, j) && j < i
    ensures MarkerFree(m, raw) ==> Stripped(m, raw) == Success(Base(raw, false))
    ensures Removed(m, raw) == Success(Planned(raw, false)) <==> MarkerFree(m, raw)
    ensures Removed(m, raw).Failure? <==> Stripped(m, raw) == Failure(IncompleteBlock)
    ensures Stripped(m, raw).Success? ==> (Stripped(m, raw).value.hadBlock <==> !MarkerFree(m, raw))
  {
    IndexIsFirst(raw, m.start, Index(raw, m.start));
    IndexIsFirst(raw, m.end, Index(raw, m.end));
    if i, j :| FirstAt(raw, m.start, i) && FirstAt(raw, m.end, j) && j < i {
      IndexIsFirst(raw, m.start, i);
      IndexIsFirst(raw, m.end, j);
    }
  }

  /** An undecodable text and one with a policy of its own that does not authorize are refused, and no other. */
  lemma {:induction false} PlanRefuses(m: Markers, toml: Toml, policy: string, raw: string, base: Base)
    requires Stripped(m, raw) == Success(base)
    ensures Plan(m, toml, policy, raw) == Failure(Undecodable) <==> !Blank(base.text) && !toml.decodes(base.text)
    ensures Plan(m, toml, policy, raw) == Failure(ConflictingPolicy) <==>
              && !Blank(base.text) && toml.decodes(base.text)
              && toml.policyExists(base.text) && !toml.policyAuthorizes(base.text)
    ensures Plan(m, toml, policy, raw) != Failure(IncompleteBlock)
  {
    BlankMeans(base.text);
  }

  lemma MarkerFreeWithNewline(m: Markers, s: string)
    requires m.Proper() && MarkerFree(m, s)
    ensures MarkerFree(m, EnsureTrailingNewline(s))
  {
    AddingNewlines(s, m.start);
    AddingNewlines(s, m.end);
  }

  /**
   A text whose own policy authorizes is left alone: nothing is written into it, a managed block is
   dropped, and a rerun changes nothing if the checks do not mind a newline at the end.
   */
  lemma {:induction false} AuthorizedIsLeftAlone(m: Markers, toml: Toml, policy: string, raw: string, base: Base)
    requires m.Proper() && Stripped(m, raw) == Success(base) && MarkerFree(m, base.text)
    requires forall t | t == base.text || t == EnsureTrailingNewline(base.text) ::
               !Blank(t) && toml.decodes(t) && toml.policyExists(t) && toml.policyAuthorizes(t)
    ensures var plan := Plan(m, toml, policy, raw);
            && plan.Success?
            && (plan.value.changed <==> !MarkerFree(m, raw))
            && (plan.value.text == base.text || plan.value.text == base.text + "\n")
            && MarkerFree(m, plan.value.text)
            && (!plan.value.changed ==> plan.value.text == raw)
            && Plan(m, toml, policy, plan.value.text) == Success(Planned(plan.value.text, false))
  {
    StripAnswers(m, raw);
    BlankMeans(base.text);
    BlankMeans(EnsureTrailingNewline(base.text));
    MarkerFreeWithNewline(m, base.text);
    StripAnswers(m, Plan(m, toml, policy, raw).value.text);
  }

  /** One or two newlines that leave a blank line behind the text, and nothing behind no text. */
  predicate Gap(text: string, gap: string) {
    && |gap| <= 2 && (forall i | 0 <= i < |gap| :: gap[i] == '\n')
    && (if text == "" then gap == "" else HasSuffix(text + gap, "\n\n"))
  }

  lemma OpeningHasAGap(text: string)
    ensures exists gap: string :: Gap(text, gap) && Opening(text) == text + gap
  {
    var none: string, one: string, two: string := "", "\n", "\n\n";
    if text == "" {
      assert Gap(text, none) && Opening(text) == text + none;
    } else if Closed(text) {
      assert (text + one)[|text + one| - 2..] == two;
      assert Gap(text, one) && Opening(text) == text + one;
    } else {
      assert (text + two)[|text + two| - 2..] == two;
      assert text + one + one == text + two;
      assert Gap(text, two) && Opening(text) == text + two;
    }
  }

  /**
   A blank text, or one without a policy of its own, gets the whole block at its end, after a blank
   line if there is anything before it; the plan counts as a change exactly when it differs.
   */
  lemma {:induction false} PolicyIsWritten(m: Markers, toml: Toml, policy: string, raw: string, base: Base)
    requires Stripped(m, raw) == Success(base)
    requires Blank(base.text) || (toml.decodes(base.text) && !toml.policyExists(base.text))
    ensures var plan := Plan(m, toml, policy, raw);
            plan.Success? && (plan.value.changed <==> plan.value.text != raw) &&
            exists gap: string ::
              Gap(base.text, gap) && plan.value.text == base.text + gap + Block(m, policy)
  {
    BlankMeans(base.text);
    OpeningHasAGap(base.text);
    var gap: string :| Gap(base.text, gap) && Opening(base.text) == base.text + gap;
    MergedIs(m, policy, base.text);
  }

  /** The policy between its markers, each on a line of its own. */
  function Block(m: Markers, policy: string): string {
    m.start + "\n" + policy + m.end + "\n"
  }

  lemma MergedIs(m: Markers, policy: string, base: string)
    ensures Merged(m, policy, base) == Opening(base) + Block(m, policy)
  {
  }

  lemma PrefixIsMarkerFree(m: Markers, t: string, s: string)
    requires t <= s && MarkerFree(m, s)
    ensures MarkerFree(m, t)
  {
    forall i | 0 <= i <= |t| ensures !OccursAt(t, m.start, i) && !OccursAt(t, m.end, i) {
      if OccursAt(t, m.start, i) {
        assert s[i..i + |m.start|] == t[i..i + |m.start|];
        assert OccursAt(s, m.start, i);
      }
      if OccursAt(t, m.end, i) {
        assert s[i..i + |m.end|] == t[i..i + |m.end|];
        assert OccursAt(s, m.end, i);
      }
    }
  }

  /**
   Planning is stable after at most one rerun, whatever the text was planned from, as long as what
   is left of it without its block has no marker and the checks do not mind newlines at its end.
   The rerun changes something exactly when that text ended in surplus newlines.
   */
  lemma RerunsSettle(m: Markers, toml: Toml, policy: string, raw: string, base: Base)
    requires m.Proper() && PolicyText(m, policy) && Stripped(m, raw) == Success(base) && MarkerFree(m, base.text)
    requires Verdict(toml, base.text) == Success(false) && Verdict(toml, TrimNewlines(base.text)) == Success(false)
    ensures var first := Plan(m, toml, policy, raw);
            first.Success? &&
            var second := Plan(m, toml, policy, first.value.text);
            && second.Success?
            && Plan(m, toml, policy, second.value.text) == Success(Planned(second.value.text, false))
            && (second.value.changed <==>
                  EnsureTrailingNewline(base.text) != EnsureTrailingNewline(TrimNewlines(base.text)))
  {
    var trimmed := TrimNewlines(base.text);
    TrimNewlinesOf(base.text);
    PrefixIsMarkerFree(m, trimmed, base.text);
    StripInvertsMerge(m, policy, base.text);
    StripInvertsMerge(m, policy, trimmed);
    MergedApart(m, policy, base.text, trimmed);
  }

  lemma MergedApart(m: Markers, policy: string, a: string, b: string)
    ensures Merged(m, policy, a) == Merged(m, policy, b) <==> EnsureTrailingNewline(a) == EnsureTrailingNewline(b)
  {
    var block := (m.start + "\n" + policy) + (m.end + "\n");
    assert Merged(m, policy, a) == Opening(a) + block && Merged(m, policy, b) == Opening(b) + block;
    SameEnd(Opening(a), Opening(b), block);
    OpeningApart(a, b);
  }

  lemma SameEnd(a: string, b: string, rest: string)
    ensures a + rest == b + rest <==> a == b
  {
    if a + rest == b + rest {
      assert |a| == |b|;
      assert (a + rest)[..|a|] == a && (b + rest)[..|b|] == b;
    }
  }

  lemma OpeningApart(a: string, b: string)
    ensures Opening(a) == Opening(b) <==> EnsureTrailingNewline(a) == EnsureTrailingNewline(b)
  {
    assert a != [] ==> Opening(a)[..|Opening(a)| - 1] == EnsureTrailingNewline(a);
    assert b != [] ==> Opening(b)[..|Opening(b)| - 1] == EnsureTrailingNewline(b);
  }

  // ---------------------------------------------------------------------
  // Text behind the block
  // ---------------------------------------------------------------------

  /** The lines of a text that are not empty. */
  function Lines(s: string): seq<string> {
    FieldsFunc(IsNewline, s)
  }

  lemma {:induction false} TrimKeepsLines(s: string)
    ensures Lines(TrimNewlines(s)) == Lines(s)
  {
    if s != [] && IsNewline(s[|s| - 1]) {
      var n := |s| - 1;
      assert s == s[..n] + [s[n]] + [];
      FieldsSplit(IsNewline, s[..n], s[n], []);
      TrimKeepsLines(s[..n]);
    }
  }

  lemma {:induction false} SkipKeepsLines(s: string)
    ensures Lines(SkipNewlines(s)) == Lines(s)
    ensures SkipNewlines(s) == [] || !IsNewline(SkipNewlines(s)[0])
  {
    if s != [] && IsNewline(s[0]) {
      SkipKeepsLines(s[1..]);
    }
  }

  /**
   Stripping keeps the user's lines exactly when nothing but newlines is on one side of the block: the
   splice adds none between the two.
   */
  lemma SpliceKeepsLines(pre: string, post: string)
    ensures Lines(TrimNewlines(pre) + SkipNewlines(post)) == Lines(pre) + Lines(post) <==>
            TrimNewlines(pre) == [] || SkipNewlines(post) == []
  {
    var a, b := TrimNewlines(pre), SkipNewlines(post);
    TrimKeepsLines(pre);
    SkipKeepsLines(post);
    TrimNewlinesOf(pre);
    if a != [] && b != [] {
      FieldsRunTogether(IsNewline, a, b);
    } else if a == [] {
      assert a + b == b && Lines(a) == [];
    } else {
      assert a + b == a && Lines(b) == [];
    }
  }

  /** Taking a block out keeps the user's lines under the same condition. */
  lemma {:induction false} RemovalKeepsLines(m: Markers, pre: string, policy: string, post: string)
    requires m.Proper() && Closed(pre) && MarkerFree(m, pre) && PolicyText(m, policy)
    ensures Removed(m, Spliced(m, pre, policy, post)).Success?
    ensures Lines(Removed(m, Spliced(m, pre, policy, post)).value.text) == Lines(pre) + Lines(post) <==>
            TrimNewlines(pre) == [] || SkipNewlines(post) == []
  {
    StripAroundBlock(m, pre, policy, post);
    SpliceKeepsLines(pre, post);
    var base := TrimNewlines(pre) + SkipNewlines(post);
    TrimKeepsLines(base);
    var trimmed := TrimNewlines(base);
    if EnsureTrailingNewline(trimmed) != trimmed {
      assert trimmed + "\n" == trimmed + ['\n'] + [];
      FieldsSplit(IsNewline, trimmed, '\n', []);
    }
  }

  /** Two lines around a block come back as one. */
  lemma LinesAroundBlockJoin(m: Markers)
    requires m.Proper() && |m.start| > 3 && |m.end| > 3
    ensures Removed(m, Spliced(m, "a\n\n", "", "\nb\n")) == Success(Planned("ab\n", true))
  {
    var pre: string, none: string, post: string := "a\n\n", "", "\nb\n";
    StripAroundBlock(m, pre, none, post);
    TrimAndSkip(pre, post);
    assert "a" + "b\n" == "ab\n";
  }

  lemma TrimAndSkip(pre: string, post: string)
    requires pre == "a\n\n" && post == "\nb\n"
    ensures TrimNewlines(pre) == "a" && SkipNewlines(post) == "b\n"
    ensures EnsureTrailingNewline(TrimNewlines("ab\n")) == "ab\n"
  {
    assert pre[..2][..1] == "a" && TrimNewlines(pre) == TrimNewlines(pre[..2]) == TrimNewlines(pre[..2][..1]);
    assert post[1..] == "b\n" && SkipNewlines(post) == SkipNewlines(post[1..]);
    var joined: string := "ab\n";
    assert joined[..2] == "ab" && TrimNewlines(joined) == TrimNewlines(joined[..2]);
  }

  lemma OccurrenceAt(s: string, sub: string, i: int, k: nat)
    requires OccursAt(s, sub, i) && k < |sub|
    ensures s[i + k] == sub[k]
  {
    assert s[i..i + |sub|][k] == s[i + k];
  }

  lemma NoEndInStart(s: string, e: string)
    requires |s| == |e| + 3 && |e| > 3
    requires s[0] == '#' && s[1] == ' ' && s[2] == 'B' && s[3] == 'E' && e[0] == '#' && e[1] == ' ' && e[2] == 'E'
    ensures !Contains(s, e)
  {
    forall i | 0 <= i <= |s| ensures !OccursAt(s, e, i) {
      if OccursAt(s, e, i) {
        OccurrenceAt(s, e, i, 0);
        OccurrenceAt(s, e, i, 2);
      }
    }
  }

  lemma HollerStartIsALine()
    ensures OneLine(HOLLER.start)
  {
  }

  lemma HollerEndIsALine()
    ensures OneLine(HOLLER.end)
  {
  }

  /** The markers holler writes are proper ones. */
  lemma HollerMarkersAreProper()
    ensures HOLLER.Proper()
  {
    HollerStartIsALine();
    HollerEndIsALine();
    NoEndInStart(HOLLER.start + "\n", HOLLER.end);
  }
}

/**
 The monitor's memory of the messages it has woken its session for
 (cmd/holler/main.go). The memory is a text file that lives as long as the
 session's chain of stop-hook continuations.
 */
module MonitorWakes {
  import opened Wrappers
  import opened Text
  import opened Sorting

  const MAX_WAKES: nat := 1024
  const MAX_ID: nat := 128
  const MAX_BYTES: nat := (128 + 1) * MAX_WAKES

  datatype LoadError = TooLarge | InvalidIdentifier

  // ---------------------------------------------------------------------
  // Words and lines
  // ---------------------------------------------------------------------

  predicate IsWord(s: string) {
    s != [] && FreeOf(IsSpace, s)
  }

  /** strings.Fields */
  function Fields(s: string): seq<string> {
    FieldsFunc(IsSpace, s)
  }

  /** strings.Join with a newline */
  function Join(ids: seq<string>): string {
    if ids == [] then "" else if |ids| == 1 then ids[0] else ids[0] + "\n" + Join(ids[1..])
  }

  function Render(ids: seq<string>): string {
    Join(ids) + "\n"
  }

  lemma FieldsAreWords(s: string)
    ensures forall f | f in Fields(s) :: IsWord(f)
  {
    FieldsAreFree(IsSpace, s);
  }

  lemma FieldsOfWord(s: string)
    requires IsWord(s)
    ensures Fields(s) == [s]
  {
    FieldsOfOne(IsSpace, s);
  }

  lemma FieldsOfLines(a: string, b: string)
    ensures Fields(a + "\n" + b) == Fields(a) + Fields(b)
  {
    FieldsSplit(IsSpace, a, '\n', b);
  }

  lemma RenderStep(ids: seq<string>)
    requires |ids| > 1
    ensures Render(ids) == ids[0] + "\n" + Render(ids[1..])
  {
  }

  lemma FieldsOfFirstLine(ids: seq<string>)
    requires ids != []
    ensures Fields(Render(ids)) == Fields(ids[0]) + Fields(Render(ids[1..]))
  {
    if |ids| == 1 {
      assert Render(ids) == ids[0] + "\n" + "";
      FieldsOfLines(ids[0], "");
      assert Render(ids[1..]) == "\n";
      assert Fields("\n") == Fields("\n"[1..]) == [];
    } else {
      RenderStep(ids);
      FieldsOfLines(ids[0], Render(ids[1..]));
    }
  }

  /** Every remembered word is read back, whatever it is remembered with. */
  lemma {:induction false} WordsAreReadBack(ids: seq<string>, word: string)
    requires word in ids && IsWord(word)
    ensures word in Fields(Render(ids))
  {
    FieldsOfFirstLine(ids);
    if word == ids[0] {
      FieldsOfWord(word);
    } else {
      WordsAreReadBack(ids[1..], word);
    }
  }

  lemma {:induction false} FieldsOfRender(ids: seq<string>)
    requires forall id | id in ids :: IsWord(id)
    ensures Fields(Render(ids)) == ids
  {
    if ids == [] {
      assert Fields("\n") == Fields("\n"[1..]) == [];
    } else {
      FieldsOfFirstLine(ids);
      FieldsOfWord(ids[0]);
      FieldsOfRender(ids[1..]);
    }
  }

  /** What remembered identifiers take on disk: at most 129 bytes each, exactly that at full length. */
  lemma {:induction false} RenderedSize(ids: seq<string>)
    requires ids != [] && forall id | id in ids :: ByteLength(id) <= MAX_ID
    ensures ByteLength(Render(ids)) <= (MAX_ID + 1) * |ids|
    ensures (forall id | id in ids :: ByteLength(id) == MAX_ID) <==> ByteLength(Render(ids)) == (MAX_ID + 1) * |ids|
  {
    NewlineIsOneByte();
    assert ids == [ids[0]] + ids[1..];
    if |ids| == 1 {
      ByteLengthConcat(ids[0], "\n");
    } else {
      RenderStep(ids);
      ByteLengthConcat(ids[0], "\n");
      ByteLengthConcat(ids[0] + "\n", Render(ids[1..]));
      RenderedSize(ids[1..]);
    }
  }

  lemma NewlineIsOneByte()
    ensures ByteLength("\n") == 1
  {
    assert ByteLength("\n"[..0]) == 0;
  }

  // ---------------------------------------------------------------------
  // The file
  // ---------------------------------------------------------------------

  /** What a continuation reads back. */
  function LoadOf(contents: string): Result<set<string>, LoadError> {
    if ByteLength(contents) > MAX_BYTES then Failure(TooLarge)
    else if exists f | f in Fields(contents) :: !ValidIdentifier(f, MAX_ID) then Failure(InvalidIdentifier)
    else Success(set f | f in Fields(contents))
  }

  /**
   Reading back fails for a file of more than 129 * 1024 bytes, and then for a word of more than
   128 bytes or with a control character; otherwise it gives the words of the file.
   */
  lemma LoadAnswers(contents: string)
    ensures LoadOf(contents) == Failure(TooLarge) <==> ByteLength(contents) > 132_096
    ensures LoadOf(contents) == Failure(InvalidIdentifier) <==>
              && ByteLength(contents) <= 132_096
              && exists w :: IsWordOf(IsSpace, w, contents) && !ValidIdentifier(w, 128)
    ensures LoadOf(contents).Success? ==>
              forall w :: w in LoadOf(contents).value <==> IsWordOf(IsSpace, w, contents)
  {
    forall w ensures w in Fields(contents) <==> IsWordOf(IsSpace, w, contents) {
      FieldsMean(IsSpace, contents, w);
    }
  }

  ghost function Listing(s: set<string>): seq<string> {
    if s == {} then [] else
      var x :| x in s;
      [x] + Listing(s - {x})
  }

  ghost function Sorted(s: set<string>): seq<string> {
    Sort(Less, Listing(s))
  }

  lemma {:induction false} ListingIsTheSet(s: set<string>)
    ensures NoRepeats(Listing(s)) && |Listing(s)| == |s| && forall x :: x in Listing(s) <==> x in s
  {
    if s != {} {
      var x :| x in s && Listing(s) == [x] + Listing(s - {x});
      ListingIsTheSet(s - {x});
    }
  }

  lemma SortedIsTheSet(s: set<string>)
    ensures Ascending(Less, Sorted(s)) && forall x :: x in Sorted(s) <==> x in s
  {
    ListingIsTheSet(s);
    LessIsTotal();
    SortIsAscending(Less, Listing(s));
  }

  lemma {:induction false} CountOfDistinct(xs: seq<string>, s: set<string>)
    requires NoRepeats(xs) && forall x :: x in xs <==> x in s
    ensures |xs| == |s|
  {
    if xs == [] {
      assert s == {};
    } else {
      assert xs == [xs[0]] + xs[1..];
      assert xs[0] !in xs[1..];
      CountOfDistinct(xs[1..], s - {xs[0]});
    }
  }

  lemma SortedCount(s: set<string>)
    ensures |Sorted(s)| == |s|
  {
    SortedIsTheSet(s);
    LessIsTotal();
    AscendingHasNoRepeats(Less, Sorted(s));
    CountOfDistinct(Sorted(s), s);
  }

  ghost function FileOf(wakes: set<string>): string {
    Render(Sorted(wakes))
  }

  predicate Rememberable(id: string) {
    IsWord(id) && ValidIdentifier(id, MAX_ID)
  }

  /** A set that is small enough to be remembered is read back exactly when each of its identifiers is a valid word. */
  lemma LoadInvertsRemember(wakes: set<string>)
    requires |wakes| <= MAX_WAKES
    ensures LoadOf(FileOf(wakes)) == Success(wakes) <==> forall id | id in wakes :: Rememberable(id)
  {
    SortedIsTheSet(wakes);
    SortedCount(wakes);
    FieldsAreWords(FileOf(wakes));
    var fields := Fields(FileOf(wakes));
    if forall id | id in wakes :: Rememberable(id) {
      FieldsOfRender(Sorted(wakes));
      FileFits(wakes);
      assert fields == Sorted(wakes);
      assert (set f | f in fields) == wakes;
    }
  }

  lemma FileFits(wakes: set<string>)
    requires |wakes| <= MAX_WAKES && forall id | id in wakes :: ByteLength(id) <= MAX_ID
    ensures ByteLength(FileOf(wakes)) <= MAX_BYTES
    ensures ByteLength(FileOf(wakes)) == MAX_BYTES <==>
              |wakes| == MAX_WAKES && forall id | id in wakes :: ByteLength(id) == MAX_ID
  {
    SortedIsTheSet(wakes);
    SortedCount(wakes);
    if wakes == {} {
      NewlineIsOneByte();
      assert Sorted(wakes) == [];
    } else {
      RenderedSize(Sorted(wakes));
    }
  }

  // ---------------------------------------------------------------------
  // Runs and chains of continuations
  // ---------------------------------------------------------------------

  /** What a run is offered: the inbox as it stood, then the daemon's notices. */
  datatype Offer = InboxItem(id: string, available: bool) | Notice(id: string)

  datatype Outcome = LoadFailed | Quiet | Refused | Surfaced(id: string)

  predicate Skipped(offer: Offer, wakes: set<string>) {
    match offer
    case InboxItem(id, available) => id in wakes || !available
    case Notice(id) => id == "" || id in wakes
  }

  ghost function Watch(file: string, wakes: set<string>, offers: seq<Offer>): (string, Outcome) {
    if offers == [] then (file, Quiet)
    else if Skipped(offers[0], wakes) then Watch(file, wakes, offers[1..])
    else if |wakes + {offers[0].id}| > MAX_WAKES then (file, Refused)
    else (FileOf(wakes + {offers[0].id}), Surfaced(offers[0].id))
  }

  ghost function RunOf(file: string, stopHookActive: bool, offers: seq<Offer>): (string, Outcome) {
    if !stopHookActive then Watch("", {}, offers)
    else if LoadOf(file).Failure? then (file, LoadFailed)
    else Watch(file, LoadOf(file).value, offers)
  }

  /** A chain of continuations: each run starts from the file the one before it left. */
  ghost function Chain(file: string, runs: seq<seq<Offer>>): (string, seq<Outcome>) {
    if runs == [] then (file, [])
    else
      var earlier := Chain(file, runs[..|runs| - 1]);
      var last := RunOf(earlier.0, true, runs[|runs| - 1]);
      (last.0, earlier.1 + [last.1])
  }

  /** The first offer that is not skipped, or the number of offers. */
  function FirstNew(wakes: set<string>, offers: seq<Offer>): (k: nat)
    ensures k <= |offers| && (forall j | 0 <= j < k :: Skipped(offers[j], wakes))
            && (k < |offers| ==> !Skipped(offers[k], wakes))
  {
    if offers == [] || !Skipped(offers[0], wakes) then 0 else 1 + FirstNew(wakes, offers[1..])
  }

  /** A message to wake for: not yet remembered, and either available in the inbox or named by a notice. */
  predicate New(offer: Offer, wakes: set<string>) {
    offer.id !in wakes && (offer.InboxItem? ==> offer.available) && (offer.Notice? ==> offer.id != "")
  }

  /** The k-th offer is new, and none before it is. */
  predicate FirstNewAt(wakes: set<string>, offers: seq<Offer>, k: int) {
    0 <= k < |offers| && New(offers[k], wakes) && forall j | 0 <= j < k :: !New(offers[j], wakes)
  }

  lemma FirstNewMeans(wakes: set<string>, offers: seq<Offer>)
    ensures var k := FirstNew(wakes, offers);
            && (k < |offers| ==> forall i :: FirstNewAt(wakes, offers, i) <==> i == k)
            && (k == |offers| ==> forall o | o in offers :: !New(o, wakes))
  {
    var k := FirstNew(wakes, offers);
    forall i | 0 <= i < k ensures !New(offers[i], wakes) {
      assert Skipped(offers[i], wakes);
    }
  }

  /** What the outcome of a watch means, for every memory, also one that is larger than any run leaves. */
  lemma {:induction false} WatchAnswers(file: string, wakes: set<string>, offers: seq<Offer>, outcome: Outcome)
    ensures Watch(file, wakes, offers).1 == outcome <==>
              match outcome
              case LoadFailed => false
              case Quiet => forall o | o in offers :: !New(o, wakes)
              case Refused => |wakes| >= 1024 && exists o | o in offers :: New(o, wakes)
              case Surfaced(id) => |wakes| < 1024 && exists k :: FirstNewAt(wakes, offers, k) && offers[k].id == id
  {
    var k := FirstNew(wakes, offers);
    WatchEnds(file, wakes, offers);
    FirstNewMeans(wakes, offers);
    if k < |offers| {
      assert offers[k] in offers && |wakes + {offers[k].id}| == |wakes| + 1;
      assert FirstNewAt(wakes, offers, k);
    }
  }

  /**
   What the outcome of a run means, from whatever file: it surfaces the first new message, unless
   the memory cannot be read or is full, and is quiet exactly when nothing is new.
   */
  lemma {:induction false} RunAnswers(file: string, stopHookActive: bool, offers: seq<Offer>, outcome: Outcome)
    ensures var wakes := if stopHookActive && LoadOf(file).Success? then LoadOf(file).value else {};
            var unread := stopHookActive && LoadOf(file).Failure?;
            RunOf(file, stopHookActive, offers).1 == outcome <==>
              match outcome
              case LoadFailed => unread
              case Quiet => !unread && forall o | o in offers :: !New(o, wakes)
              case Refused => !unread && |wakes| >= 1024 && exists o | o in offers :: New(o, wakes)
              case Surfaced(id) =>
                !unread && |wakes| < 1024 && exists k :: FirstNewAt(wakes, offers, k) && offers[k].id == id
  {
    if !stopHookActive {
      WatchAnswers("", {}, offers, outcome);
    } else if LoadOf(file).Success? {
      WatchAnswers(file, LoadOf(file).value, offers, outcome);
    }
  }

  /** How a run ends, and what it leaves in the file: the first new offer decides. */
  lemma {:induction false} WatchEnds(file: string, wakes: set<string>, offers: seq<Offer>)
    ensures var (file', outcome) := Watch(file, wakes, offers);
            var k := FirstNew(wakes, offers);
            match outcome
            case LoadFailed => false
            case Quiet => file' == file && k == |offers|
            case Refused =>
              file' == file && k < |offers| && |wakes + {offers[k].id}| > MAX_WAKES && |wakes| >= MAX_WAKES
            case Surfaced(id) =>
              && k < |offers| && id == offers[k].id && id !in wakes
              && |wakes + {id}| <= MAX_WAKES && file' == FileOf(wakes + {id})
  {
    if offers != [] && Skipped(offers[0], wakes) {
      WatchEnds(file, wakes, offers[1..]);
      assert offers == [offers[0]] + offers[1..];
    }
  }

  /**
   A surfaced message is remembered by the next continuation, if that can read the file, exactly when
   its identifier is a word.
   */
  lemma SurfacedIsRemembered(file: string, stopHookActive: bool, offers: seq<Offer>)
    ensures var (file', outcome) := RunOf(file, stopHookActive, offers);
            outcome.Surfaced? && LoadOf(file').Success? ==> (outcome.id in LoadOf(file').value <==> IsWord(outcome.id))
  {
    var wakes := if !stopHookActive || LoadOf(file).Failure? then {} else LoadOf(file).value;
    var before := if stopHookActive then file else "";
    WatchEnds(before, wakes, offers);
    var (file', outcome) := RunOf(file, stopHookActive, offers);
    if outcome.Surfaced? {
      SortedIsTheSet(wakes + {outcome.id});
      FieldsAreWords(file');
      if IsWord(outcome.id) {
        WordsAreReadBack(Sorted(wakes + {outcome.id}), outcome.id);
      }
    }
  }

  ghost predicate Holds(file: string, word: string) {
    LoadOf(file).Success? ==> word in LoadOf(file).value
  }

  /** No run makes the file forget a word. */
  lemma RunsForgetNothing(file: string, offers: seq<Offer>, word: string)
    requires IsWord(word) && Holds(file, word)
    ensures var (file', outcome) := RunOf(file, true, offers);
            Holds(file', word) && outcome != Surfaced(word)
  {
    if LoadOf(file).Success? {
      var wakes := LoadOf(file).value;
      WatchEnds(file, wakes, offers);
      var (file', outcome) := RunOf(file, true, offers);
      if outcome.Surfaced? {
        SortedIsTheSet(wakes + {outcome.id});
        WordsAreReadBack(Sorted(wakes + {outcome.id}), word);
      }
    }
  }

  lemma {:induction false} ChainHolds(file: string, runs: seq<seq<Offer>>, word: string, i: nat)
    requires IsWord(word) && i < |runs| && |Chain(file, runs).1| == |runs| && Chain(file, runs).1[i] == Surfaced(word)
    ensures Holds(Chain(file, runs).0, word)
  {
    var n := |runs| - 1;
    var earlier := Chain(file, runs[..n]);
    if i == n {
      SurfacedIsRemembered(earlier.0, true, runs[n]);
    } else {
      ChainHolds(file, runs[..n], word, i);
      RunsForgetNothing(earlier.0, runs[n], word);
    }
  }

  lemma {:induction false} ChainLength(file: string, runs: seq<seq<Offer>>)
    ensures |Chain(file, runs).1| == |runs|
  {
    if runs != [] {
      ChainLength(file, runs[..|runs| - 1]);
    }
  }

  /** No chain of continuations surfaces a word twice, whatever else it was offered. */
  lemma {:induction false} NothingIsSurfacedTwice(file: string, runs: seq<seq<Offer>>, i: nat, j: nat)
    requires i < j < |runs|
    ensures var outcomes := Chain(file, runs).1;
            |outcomes| == |runs| && (outcomes[i].Surfaced? && IsWord(outcomes[i].id) ==> outcomes[j] != outcomes[i])
  {
    ChainLength(file, runs);
    var n := |runs| - 1;
    ChainLength(file, runs[..n]);
    var earlier := Chain(file, runs[..n]);
    if j < n {
      NothingIsSurfacedTwice(file, runs[..n], i, j);
    } else if earlier.1[i].Surfaced? && IsWord(earlier.1[i].id) {
      ChainHolds(file, runs[..n], earlier.1[i].id, i);
      RunsForgetNothing(earlier.0, runs[n], earlier.1[i].id);
    }
  }

  lemma EmptyMemory(nothing: string)
    requires nothing == ""
    ensures LoadOf(nothing) == Success({})
  {
    assert Fields(nothing) == [] && ByteLength(nothing) == 0;
    assert LoadOf(nothing).value == {};
  }

  /** A fresh stop runs as a continuation from an empty file does. */
  lemma FreshStopForgets(file: string, offers: seq<Offer>)
    ensures RunOf(file, false, offers) == RunOf("", true, offers)
  {
    EmptyMemory("");
  }

  /** A fresh stop, from whatever file, and the continuations that follow it. */
  ghost function StopChain(file: string, first: seq<Offer>, runs: seq<seq<Offer>>): (string, seq<Outcome>) {
    var stop := RunOf(file, false, first);
    var rest := Chain(stop.0, runs);
    (rest.0, [stop.1] + rest.1)
  }

  lemma {:induction false} StopChainIsAChain(file: string, first: seq<Offer>, runs: seq<seq<Offer>>)
    ensures StopChain(file, first, runs) == Chain("", [first] + runs)
  {
    FreshStopForgets(file, first);
    if runs == [] {
      ChainStepAt("", runs, first);
      assert runs + [first] == [first] + runs;
      var stop := RunOf(file, false, first);
      assert [stop.1] + Chain(stop.0, runs).1 == [stop.1] && Chain("", runs).1 + [stop.1] == [stop.1];
    } else {
      var n := |runs| - 1;
      var most, last := runs[..n], runs[n];
      assert runs == most + [last] && [first] + runs == ([first] + most) + [last];
      StopChainIsAChain(file, first, most);
      var stop := RunOf(file, false, first);
      var rest := Chain(stop.0, most);
      var end := RunOf(rest.0, true, last);
      ChainStepAt(stop.0, most, last);
      ChainStepAt("", [first] + most, last);
      assert [stop.1] + (rest.1 + [end.1]) == ([stop.1] + rest.1) + [end.1];
    }
  }

  lemma ChainStepAt(file: string, runs: seq<seq<Offer>>, last: seq<Offer>)
    ensures var earlier := Chain(file, runs);
            var run := RunOf(earlier.0, true, last);
            Chain(file, runs + [last]) == (run.0, earlier.1 + [run.1])
  {
    assert (runs + [last])[..|runs|] == runs;
  }

  /** From a fresh stop on, no run of the chain surfaces a word that an earlier one has surfaced. */
  lemma NothingIsSurfacedTwiceAfterAStop(file: string, first: seq<Offer>, runs: seq<seq<Offer>>, i: nat, j: nat)
    requires i < j <= |runs|
    ensures var outcomes := StopChain(file, first, runs).1;
            |outcomes| == |runs| + 1 && (outcomes[i].Surfaced? && IsWord(outcomes[i].id) ==> outcomes[j] != outcomes[i])
  {
    StopChainIsAChain(file, first, runs);
    NothingIsSurfacedTwice("", [first] + runs, i, j);
  }

  ghost function SurfacedIds(outcomes: seq<Outcome>): set<string> {
    set o | o in outcomes && o.Surfaced? :: o.id
  }

  /**
   When every offer is a valid word, a chain from an empty memory remembers exactly what it surfaced,
   never fails to load it, and refuses a message only with 1024 of them behind it.
   */
  lemma {:induction false} ChainRemembersAll(runs: seq<seq<Offer>>)
    requires forall r, o | r in runs && o in r :: Rememberable(o.id)
    ensures var (file, outcomes) := Chain("", runs);
            && LoadOf(file) == Success(SurfacedIds(outcomes))
            && |SurfacedIds(outcomes)| <= MAX_WAKES
            && LoadFailed !in outcomes
            && (Refused in outcomes ==> |SurfacedIds(outcomes)| == MAX_WAKES)
  {
    if runs == [] {
      EmptyMemory(Chain("", runs).0);
      assert SurfacedIds(Chain("", runs).1) == {};
    } else {
      var most, last := runs[..|runs| - 1], runs[|runs| - 1];
      ChainRemembersAll(most);
      var (file, outcomes) := Chain("", most);
      assert last in runs;
      ChainStep(file, SurfacedIds(outcomes), last);
      SurfacedMore(outcomes, RunOf(file, true, last).1);
    }
  }

  lemma SurfacedMore(outcomes: seq<Outcome>, outcome: Outcome)
    ensures SurfacedIds(outcomes + [outcome]) ==
            SurfacedIds(outcomes) + (if outcome.Surfaced? then {outcome.id} else {})
  {
  }

  lemma ChainStep(file: string, wakes: set<string>, offers: seq<Offer>)
    requires LoadOf(file) == Success(wakes) && |wakes| <= MAX_WAKES
    requires forall o | o in offers :: Rememberable(o.id)
    ensures var (file', outcome) := RunOf(file, true, offers);
            var after := wakes + (if outcome.Surfaced? then {outcome.id} else {});
            && LoadOf(file') == Success(after) && |after| <= MAX_WAKES
            && outcome != LoadFailed
            && (outcome.Surfaced? ==> |after| == |wakes| + 1)
            && (outcome == Refused ==> |wakes| == MAX_WAKES && file' == file)
  {
    WatchEnds(file, wakes, offers);
    var (file', outcome) := RunOf(file, true, offers);
    FieldsAreWords(file);
    if outcome.Surfaced? {
      assert offers[FirstNew(wakes, offers)] in offers;
      LoadInvertsRemember(wakes + {outcome.id});
    }
  }

  // ---------------------------------------------------------------------
  // The monitor
  // ---------------------------------------------------------------------

  class Monitor {
    var file: string
    var suppressed: set<string>

    constructor (file: string)
      ensures this.file == file && suppressed == {}
    {
      this.file := file;
      suppressed := {};
    }

    /** loadMonitorWakes: a fresh stop forgets, a continuation reads back. */
    method LoadMonitorWakes(stopHookActive: bool) returns (error: Option<LoadError>)
      modifies this
      ensures !stopHookActive ==> error == None && file == "" && suppressed == {}
      ensures stopHookActive ==> file == old(file)
      ensures stopHookActive ==>
                match LoadOf(file)
                case Success(wakes) => error == None && suppressed == wakes
                case Failure(e) => error == Some(e)
    {
      suppressed := {};
      if !stopHookActive {
        file := "";
        return None;
      }
      if ByteLength(file) > MAX_BYTES {
        return Some(TooLarge);
      }
      var fields := Fields(file);
      for i := 0 to |fields|
        invariant file == old(file)
        invariant forall f | f in fields[..i] :: ValidIdentifier(f, MAX_ID)
        invariant suppressed == set f | f in fields[..i]
      {
        if !ValidIdentifier(fields[i], MAX_ID) {
          assert fields[i] in fields;
          return Some(InvalidIdentifier);
        }
        suppressed := suppressed + {fields[i]};
      }
      assert fields[..|fields|] == fields;
      return None;
    }

    /** rememberMonitorWake: rewrites the file unless the memory is full. */
    method RememberMonitorWake(messageID: string) returns (ok: bool)
      modifies this
      ensures suppressed == old(suppressed) + {messageID}
      ensures ok <==> |suppressed| <= MAX_WAKES
      ensures file == if ok then FileOf(suppressed) else old(file)
    {
      suppressed := suppressed + {messageID};
      if |suppressed| > MAX_WAKES {
        return false;
      }
      var messageIDs: seq<string> := [];
      var rest := suppressed;
      while rest != {}
        invariant suppressed == old(suppressed) + {messageID} && file == old(file)
        invariant rest <= suppressed && NoRepeats(messageIDs)
        invariant forall x :: x in messageIDs <==> x in suppressed && x !in rest
        decreases rest
      {
        var remembered :| remembered in rest;
        rest := rest - {remembered};
        messageIDs := messageIDs + [remembered];
      }
      LessIsTotal();
      SortIsAscending(Less, messageIDs);
      messageIDs := Sort(Less, messageIDs);
      SortedIsTheSet(suppressed);
      AscendingIsUnique(Less, messageIDs, Sorted(suppressed));
      file := Render(messageIDs);
      return true;
    }

    /** The part of runMonitor that suppresses, persists and surfaces. */
    method Run(stopHookActive: bool, offers: seq<Offer>) returns (outcome: Outcome)
      modifies this
      ensures (file, outcome) == RunOf(old(file), stopHookActive, offers)
    {
      var error := LoadMonitorWakes(stopHookActive);
      if error.Some? {
        return LoadFailed;
      }
      ghost var loaded, wakes := file, suppressed;
      for i := 0 to |offers|
        invariant file == loaded && suppressed == wakes
        invariant Watch(loaded, wakes, offers) == Watch(loaded, wakes, offers[i..])
      {
        var offer := offers[i];
        assert offers[i..][0] == offer && offers[i..][1..] == offers[i + 1..];
        if offer.Notice? && offer.id == "" {
          continue;
        }
        if offer.id in suppressed {
          continue;
        }
        if offer.InboxItem? && !offer.available {
          continue;
        }
        var ok := RememberMonitorWake(offer.id);
        if !ok {
          return Refused;
        }
        return Surfaced(offer.id);
      }
      return Quiet;
    }
  }
}

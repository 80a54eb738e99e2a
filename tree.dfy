/** The tree builder of index.js: `ParserParser`, which receives open-tag,
    text and close-tag events and assembles the forest of elements and text
    leaves. */
module TreeBuilding {
  import opened Attributes
  import Literals
  import opened Sequences

  /** An element (`{name, attr, children}` in the source) or a text leaf (a
      bare string in the source). */
  datatype Node = Element(name: string, attrs: Attrs, children: seq<Node>) | Text(text: string)

  /** The calls the tokenizer makes on the builder, in document order. The
      name passed to `onclosetag` is not used by the source and is left out. */
  datatype Event = OpenTag(name: string, attrs: Attrs) | TextEvent(text: string) | CloseTag

  /** One entry of `history`: the child list that was the cursor before an
      element opened, and that element's name and attributes. In the source
      the element is already the last entry of the saved list, with the
      current cursor as its `children`; here it is attached when it closes,
      and `TreeOf` shows the same tree at every moment. */
  datatype Frame = Frame(siblings: seq<Node>, name: string, attrs: Attrs)

  /** The builder's fields. `attached` is false once a close arrived with an
      empty history, which leaves the source's `cursor` undefined; `cursor`
      then still holds the finished top level, which the source reaches as
      `tree`. `failed` records that an event hit the undefined cursor, where
      the source throws a TypeError and the conversion has no result. */
  datatype BuilderState = BuilderState(cursor: seq<Node>, history: seq<Frame>, attached: bool, failed: bool)

  /** `this.cursor = this.tree = []; this.history = []` (index.js:123-124). */
  const Initial := BuilderState([], [], true, false)

  /** Puts the open elements of `history` around `inner`, innermost last. */
  function Wrap(history: seq<Frame>, inner: seq<Node>): seq<Node>
    decreases |history|
  {
    if history == [] then inner
    else
      var f := history[|history| - 1];
      Wrap(history[..|history| - 1], f.siblings + [Element(f.name, f.attrs, inner)])
  }

  /** The source's `tree` in state `s`: the top-level list, with every open
      element holding the children delivered so far. */
  function TreeOf(s: BuilderState): seq<Node> {
    if s.attached then Wrap(s.history, s.cursor) else s.cursor
  }

  /** One event (index.js:127-141). */
  function Step(s: BuilderState, e: Event): BuilderState {
    if s.failed then s
    else
      match e
      case OpenTag(name, attrs) =>
        if !s.attached then s.(failed := true)
        else s.(cursor := [], history := s.history + [Frame(s.cursor, name, attrs)])
      case TextEvent(text) =>
        var t := Literals.Trim(text);
        if t == "" then s
        else if !s.attached then s.(failed := true)
        else s.(cursor := s.cursor + [Text(t)])
      case CloseTag =>
        if s.history == [] then s.(attached := false)
        else
          var f := s.history[|s.history| - 1];
          s.(cursor := f.siblings + [Element(f.name, f.attrs, s.cursor)], history := s.history[..|s.history| - 1])
  }

  /** The state after the events `evs`, starting from `s`. */
  function Run(s: BuilderState, evs: seq<Event>): BuilderState
    decreases evs
  {
    if evs == [] then s else Run(Step(s, evs[0]), evs[1..])
  }

  /** Opens minus closes. */
  function Depth(evs: seq<Event>): int {
    if evs == [] then 0
    else (match evs[0] case OpenTag(_, _) => 1 case TextEvent(_) => 0 case CloseTag => -1) + Depth(evs[1..])
  }

  /** No prefix closes more elements than it opened. */
  predicate WellNested(evs: seq<Event>) {
    forall k :: 0 <= k <= |evs| ==> Depth(evs[..k]) >= 0
  }

  /** Well nested, and every opened element is closed. */
  predicate Balanced(evs: seq<Event>) {
    WellNested(evs) && Depth(evs) == 0
  }

  /** Reference reading of an event stream by recursive descent: the nodes of
      one level, up to the first close that has no matching open, and the
      events from that close on. An element left open at the end keeps the
      children read so far. */
  function ParseSeq(evs: seq<Event>): (r: (seq<Node>, seq<Event>))
    ensures |r.1| <= |evs|
    ensures r.1 != [] ==> r.1[0] == CloseTag
    decreases |evs|
  {
    if evs == [] then ([], [])
    else
      match evs[0]
      case CloseTag => ([], evs)
      case TextEvent(text) =>
        var (ns, rest) := ParseSeq(evs[1..]);
        var t := Literals.Trim(text);
        (if t == "" then ns else [Text(t)] + ns, rest)
      case OpenTag(name, attrs) =>
        var (kids, rest1) := ParseSeq(evs[1..]);
        var rest2 := if rest1 == [] then [] else rest1[1..];
        var (sibs, rest3) := ParseSeq(rest2);
        ([Element(name, attrs, kids)] + sibs, rest3)
  }

  /** The forest an event stream describes. */
  function Forest(evs: seq<Event>): seq<Node> {
    ParseSeq(evs).0
  }

  lemma {:induction false} RunAppend(s: BuilderState, a: seq<Event>, b: seq<Event>)
    ensures Run(s, a + b) == Run(Run(s, a), b)
    decreases a
  {
    if a == [] {
      assert a + b == b;
    } else {
      assert (a + b)[0] == a[0] && (a + b)[1..] == a[1..] + b;
      RunAppend(Step(s, a[0]), a[1..], b);
    }
  }

  /** Feeding one more event is one more step. */
  lemma {:induction false} RunSnoc(s: BuilderState, evs: seq<Event>, i: nat)
    requires i < |evs|
    ensures Run(s, evs[..i + 1]) == Step(Run(s, evs[..i]), evs[i])
  {
    assert evs[..i + 1] == evs[..i] + [evs[i]];
    RunAppend(s, evs[..i], [evs[i]]);
  }

  lemma {:induction false} DepthAppend(a: seq<Event>, b: seq<Event>)
    ensures Depth(a + b) == Depth(a) + Depth(b)
  {
    if a == [] {
      assert a + b == b;
    } else {
      assert (a + b)[0] == a[0] && (a + b)[1..] == a[1..] + b;
      DepthAppend(a[1..], b);
    }
  }

  /** While no prefix closes more than is open, the builder stays attached, never
      fails, and its history holds one frame per opened and unclosed element. */
  lemma {:induction false} HistoryTracksDepth(s: BuilderState, evs: seq<Event>)
    requires s.attached && !s.failed
    requires forall k :: 0 <= k <= |evs| ==> |s.history| + Depth(evs[..k]) >= 0
    ensures Run(s, evs).attached && !Run(s, evs).failed
    ensures |Run(s, evs).history| == |s.history| + Depth(evs)
    decreases evs
  {
    if evs != [] {
      var s1 := Step(s, evs[0]);
      assert Depth(evs[..1]) == Depth(evs[..1][1..]) + Depth([evs[0]]) - Depth(evs[..1][1..]);
      assert evs[..1] == [evs[0]];
      forall k | 0 <= k <= |evs[1..]|
        ensures |s1.history| + Depth(evs[1..][..k]) >= 0
      {
        assert evs[..k + 1] == [evs[0]] + evs[1..][..k];
        DepthAppend([evs[0]], evs[1..][..k]);
      }
      HistoryTracksDepth(s1, evs[1..]);
      assert evs == [evs[0]] + evs[1..];
      DepthAppend([evs[0]], evs[1..]);
    }
  }

  /** The builder agrees with the reference reading. Reading one level from
      state `s` appends that level's nodes to the cursor: up to an unmatched
      close, the builder is where it would be had it started with those
      nodes appended; when the events run out first, the tree the source
      exposes holds them. */
  lemma {:induction false} ParseSeqRuns(s: BuilderState, evs: seq<Event>)
    requires s.attached && !s.failed
    ensures var r := ParseSeq(evs);
      r.1 != [] ==> Run(s, evs) == Run(s.(cursor := s.cursor + r.0), r.1)
    ensures var r := ParseSeq(evs);
      r.1 == [] ==>
        && Run(s, evs).attached && !Run(s, evs).failed
        && TreeOf(Run(s, evs)) == Wrap(s.history, s.cursor + r.0)
    decreases |evs|, 2
  {
    if evs == [] {
      assert s.cursor + [] == s.cursor;
    } else {
      match evs[0]
      case CloseTag =>
        assert s.cursor + [] == s.cursor;
        assert s.(cursor := s.cursor + []) == s;
      case TextEvent(_) =>
        ParseSeqRunsText(s, evs);
      case OpenTag(_, _) =>
        ParseSeqRunsOpen(s, evs);
    }
  }

  /** `ParseSeqRuns` when the first event is a text. */
  lemma {:induction false} ParseSeqRunsText(s: BuilderState, evs: seq<Event>)
    requires s.attached && !s.failed
    requires evs != [] && evs[0].TextEvent?
    ensures var r := ParseSeq(evs);
      r.1 != [] ==> Run(s, evs) == Run(s.(cursor := s.cursor + r.0), r.1)
    ensures var r := ParseSeq(evs);
      r.1 == [] ==>
        && Run(s, evs).attached && !Run(s, evs).failed
        && TreeOf(Run(s, evs)) == Wrap(s.history, s.cursor + r.0)
    decreases |evs|, 1
  {
    var r := ParseSeq(evs);
    var s1 := Step(s, evs[0]);
    var r1 := ParseSeq(evs[1..]);
    assert r.1 == r1.1 && s1 == s.(cursor := s1.cursor) && s1.cursor + r1.0 == s.cursor + r.0 by {
      var t := Literals.Trim(evs[0].text);
      assert r.0 == (if t == "" then r1.0 else [Text(t)] + r1.0);
      if t != "" {
        AppendAssoc(s.cursor, [Text(t)], r1.0);
      }
    }
    assert Run(s, evs) == Run(s1, evs[1..]);
    ParseSeqRuns(s1, evs[1..]);
  }

  /** The reference reading of a stream that starts with an open tag. */
  lemma {:induction false} ParseSeqOpen(evs: seq<Event>)
    requires evs != [] && evs[0].OpenTag?
    ensures var r1 := ParseSeq(evs[1..]);
      var rest2 := if r1.1 == [] then [] else r1.1[1..];
      ParseSeq(evs) == ([Element(evs[0].name, evs[0].attrs, r1.0)] + ParseSeq(rest2).0, ParseSeq(rest2).1)
  {
  }

  /** `ParseSeqRuns` when the first event opens an element. */
  lemma {:induction false} ParseSeqRunsOpen(s: BuilderState, evs: seq<Event>)
    requires s.attached && !s.failed
    requires evs != [] && evs[0].OpenTag?
    ensures var r := ParseSeq(evs);
      r.1 != [] ==> Run(s, evs) == Run(s.(cursor := s.cursor + r.0), r.1)
    ensures var r := ParseSeq(evs);
      r.1 == [] ==>
        && Run(s, evs).attached && !Run(s, evs).failed
        && TreeOf(Run(s, evs)) == Wrap(s.history, s.cursor + r.0)
    decreases |evs|, 1
  {
    var s1 := Step(s, evs[0]);
    assert Run(s, evs) == Run(s1, evs[1..]);
    ParseSeqRuns(s1, evs[1..]);
    ParseSeqOpen(evs);
    if ParseSeq(evs[1..]).1 == [] {
      ParseSeqRunsOpenUnclosed(s, evs);
    } else {
      ParseSeqRunsOpenClosed(s, evs);
    }
  }

  /** The open case when the element is never closed. */
  lemma {:induction false} ParseSeqRunsOpenUnclosed(s: BuilderState, evs: seq<Event>)
    requires s.attached && !s.failed
    requires evs != [] && evs[0].OpenTag?
    requires ParseSeq(evs[1..]).1 == []
    requires var s1 := Step(s, evs[0]);
      && Run(s1, evs[1..]).attached && !Run(s1, evs[1..]).failed
      && TreeOf(Run(s1, evs[1..])) == Wrap(s1.history, s1.cursor + ParseSeq(evs[1..]).0)
    ensures ParseSeq(evs).1 == []
    ensures Run(s, evs).attached && !Run(s, evs).failed
    ensures TreeOf(Run(s, evs)) == Wrap(s.history, s.cursor + ParseSeq(evs).0)
  {
    var f := Frame(s.cursor, evs[0].name, evs[0].attrs);
    var s1 := Step(s, evs[0]);
    var kids := ParseSeq(evs[1..]).0;
    assert s1 == BuilderState([], s.history + [f], true, false);
    ParseSeqOpenUnclosed(evs);
    RunCons(s, evs);
    WrapPush(s.history, f, kids);
    assert s1.cursor + kids == kids;
  }

  /** The reference reading of an element that is never closed. */
  lemma {:induction false} ParseSeqOpenUnclosed(evs: seq<Event>)
    requires evs != [] && evs[0].OpenTag?
    requires ParseSeq(evs[1..]).1 == []
    ensures ParseSeq(evs) == ([Element(evs[0].name, evs[0].attrs, ParseSeq(evs[1..]).0)], [])
  {
    ParseSeqOpen(evs);
    assert ParseSeq([]) == ([], []);
    assert [Element(evs[0].name, evs[0].attrs, ParseSeq(evs[1..]).0)] + [] == [Element(evs[0].name, evs[0].attrs, ParseSeq(evs[1..]).0)];
  }

  lemma {:induction false} RunCons(s: BuilderState, evs: seq<Event>)
    requires evs != []
    ensures Run(s, evs) == Run(Step(s, evs[0]), evs[1..])
  {
  }

  /** Closing the innermost open frame over `kids`. */
  lemma {:induction false} WrapPush(history: seq<Frame>, f: Frame, kids: seq<Node>)
    ensures Wrap(history + [f], kids) == Wrap(history, f.siblings + [Element(f.name, f.attrs, kids)])
  {
    var h := history + [f];
    assert h[..|h| - 1] == history;
  }

  /** The open case when the element is closed: after the close the builder
      holds the element in the cursor it had before the open. */
  lemma {:induction false} ParseSeqRunsOpenClosed(s: BuilderState, evs: seq<Event>)
    requires s.attached && !s.failed
    requires evs != [] && evs[0].OpenTag?
    requires ParseSeq(evs[1..]).1 != []
    requires var r1 := ParseSeq(evs[1..]); var s1 := Step(s, evs[0]);
      Run(s1, evs[1..]) == Run(s1.(cursor := s1.cursor + r1.0), r1.1)
    ensures var r := ParseSeq(evs);
      r.1 != [] ==> Run(s, evs) == Run(s.(cursor := s.cursor + r.0), r.1)
    ensures var r := ParseSeq(evs);
      r.1 == [] ==>
        && Run(s, evs).attached && !Run(s, evs).failed
        && TreeOf(Run(s, evs)) == Wrap(s.history, s.cursor + r.0)
    decreases |evs|, 0
  {
    var r1 := ParseSeq(evs[1..]);
    var rest2 := r1.1[1..];
    var e := Element(evs[0].name, evs[0].attrs, r1.0);
    var s2 := s.(cursor := s.cursor + [e]);
    assert Run(s, evs) == Run(s2, rest2) by {
      var f := Frame(s.cursor, evs[0].name, evs[0].attrs);
      var s1 := Step(s, evs[0]);
      assert s1 == BuilderState([], s.history + [f], true, false);
      assert [] + r1.0 == r1.0;
      assert (s.history + [f])[..|s.history|] == s.history;
      assert Step(s1.(cursor := r1.0), CloseTag) == s2;
      assert Run(s1.(cursor := r1.0), r1.1) == Run(s2, rest2);
    }
    assert ParseSeq(evs) == ([e] + ParseSeq(rest2).0, ParseSeq(rest2).1) by {
      ParseSeqOpen(evs);
    }
    ParseSeqRuns(s2, rest2);
    AppendAssoc(s.cursor, [e], ParseSeq(rest2).0);
  }

  /** A builder that lost its cursor never gets it back. */
  lemma {:induction false} DetachedStays(s: BuilderState, evs: seq<Event>)
    requires !s.attached
    ensures !Run(s, evs).attached
    decreases evs
  {
    if evs != [] {
      DetachedStays(Step(s, evs[0]), evs[1..]);
    }
  }

  /** On a well-nested stream the reference reading consumes every event. */
  lemma {:induction false} WellNestedConsumed(evs: seq<Event>)
    requires WellNested(evs)
    ensures ParseSeq(evs).1 == []
  {
    var r := ParseSeq(evs);
    if r.1 != [] {
      ParseSeqRuns(Initial, evs);
      var s' := Initial.(cursor := r.0);
      assert [] + r.0 == r.0;
      assert Run(Initial, evs) == Run(s', r.1);
      assert Run(s', r.1) == Run(Step(s', CloseTag), r.1[1..]);
      DetachedStays(Step(s', CloseTag), r.1[1..]);
      HistoryTracksDepth(Initial, evs);
      assert false;
    }
  }

  /** On a well-nested stream (unclosed elements allowed) the source's `tree`
      is the reference forest. */
  lemma {:induction false} WellNestedBuildsForest(evs: seq<Event>)
    requires WellNested(evs)
    ensures Run(Initial, evs).attached && !Run(Initial, evs).failed
    ensures |Run(Initial, evs).history| == Depth(evs)
    ensures TreeOf(Run(Initial, evs)) == Forest(evs)
  {
    WellNestedConsumed(evs);
    ParseSeqRuns(Initial, evs);
    HistoryTracksDepth(Initial, evs);
    assert [] + Forest(evs) == Forest(evs);
  }

  /** After a balanced stream the history is empty and the cursor is the
      whole tree, which is the reference forest. */
  lemma {:induction false} BalancedBuildsForest(evs: seq<Event>)
    requires Balanced(evs)
    ensures Run(Initial, evs) == BuilderState(Forest(evs), [], true, false)
  {
    WellNestedBuildsForest(evs);
  }

  /** Every text leaf below `n` is non-empty and trimmed. */
  predicate NodeTrimmed(n: Node)
    decreases n, 1
  {
    match n
    case Text(t) => t != "" && Literals.Trim(t) == t
    case Element(_, _, kids) => AllTrimmed(kids)
  }

  predicate AllTrimmed(ns: seq<Node>)
    decreases ns
  {
    forall i :: 0 <= i < |ns| ==> NodeTrimmed(ns[i])
  }

  /** Every sibling list saved in `history` has only trimmed, non-empty text leaves. */
  predicate FramesTrimmed(history: seq<Frame>) {
    forall i :: 0 <= i < |history| ==> AllTrimmed(history[i].siblings)
  }

  /** Every list the builder holds has only trimmed, non-empty text leaves. */
  predicate StateTrimmed(s: BuilderState) {
    AllTrimmed(s.cursor) && FramesTrimmed(s.history)
  }

  lemma {:induction false} AllTrimmedAppend(a: seq<Node>, b: seq<Node>)
    ensures AllTrimmed(a + b) <==> AllTrimmed(a) && AllTrimmed(b)
  {
    if AllTrimmed(a) && AllTrimmed(b) {
      forall i | 0 <= i < |a + b|
        ensures NodeTrimmed((a + b)[i])
      {
        if i >= |a| {
          assert (a + b)[i] == b[i - |a|];
        }
      }
    }
    if AllTrimmed(a + b) {
      forall i | 0 <= i < |a|
        ensures NodeTrimmed(a[i])
      {
        assert (a + b)[i] == a[i];
      }
      forall i | 0 <= i < |b|
        ensures NodeTrimmed(b[i])
      {
        assert (a + b)[|a| + i] == b[i];
      }
    }
  }

  lemma {:induction false} FramesTrimmedPush(history: seq<Frame>, f: Frame)
    requires FramesTrimmed(history) && AllTrimmed(f.siblings)
    ensures FramesTrimmed(history + [f])
  {
    var h := history + [f];
    forall i | 0 <= i < |h|
      ensures AllTrimmed(h[i].siblings)
    {
      if i < |history| {
        assert h[i] == history[i];
      }
    }
  }

  lemma {:induction false} FramesTrimmedPop(history: seq<Frame>)
    requires FramesTrimmed(history) && history != []
    ensures FramesTrimmed(history[..|history| - 1])
    ensures AllTrimmed(history[|history| - 1].siblings)
  {
    var h := history[..|history| - 1];
    forall i | 0 <= i < |h|
      ensures AllTrimmed(h[i].siblings)
    {
      assert h[i] == history[i];
    }
  }

  lemma {:induction false} OpenTrimmed(s: BuilderState, name: string, attrs: Attrs)
    requires StateTrimmed(s)
    ensures StateTrimmed(s.(cursor := [], history := s.history + [Frame(s.cursor, name, attrs)]))
  {
    FramesTrimmedPush(s.history, Frame(s.cursor, name, attrs));
  }

  lemma {:induction false} TextTrimmed(s: BuilderState, text: string)
    requires StateTrimmed(s) && Literals.Trim(text) != ""
    ensures StateTrimmed(s.(cursor := s.cursor + [Text(Literals.Trim(text))]))
  {
    Literals.TrimIdempotent(text);
    assert NodeTrimmed(Text(Literals.Trim(text)));
    AllTrimmedAppend(s.cursor, [Text(Literals.Trim(text))]);
  }

  lemma {:induction false} CloseTrimmed(s: BuilderState)
    requires StateTrimmed(s) && s.history != []
    ensures var f := s.history[|s.history| - 1];
      StateTrimmed(s.(cursor := f.siblings + [Element(f.name, f.attrs, s.cursor)], history := s.history[..|s.history| - 1]))
  {
    var f := s.history[|s.history| - 1];
    FramesTrimmedPop(s.history);
    assert NodeTrimmed(Element(f.name, f.attrs, s.cursor));
    AllTrimmedAppend(f.siblings, [Element(f.name, f.attrs, s.cursor)]);
  }

  lemma {:induction false} StepTrimmed(s: BuilderState, e: Event)
    requires StateTrimmed(s)
    ensures StateTrimmed(Step(s, e))
  {
    if !s.failed {
      match e
      case OpenTag(name, attrs) =>
        if s.attached {
          OpenTrimmed(s, name, attrs);
        }
      case TextEvent(text) =>
        if Literals.Trim(text) != "" && s.attached {
          TextTrimmed(s, text);
        }
      case CloseTag =>
        if s.history != [] {
          CloseTrimmed(s);
        }
    }
  }

  lemma {:induction false} RunTrimmed(s: BuilderState, evs: seq<Event>)
    requires StateTrimmed(s)
    ensures StateTrimmed(Run(s, evs))
    decreases evs
  {
    if evs != [] {
      StepTrimmed(s, evs[0]);
      RunTrimmed(Step(s, evs[0]), evs[1..]);
    }
  }

  lemma {:induction false} WrapTrimmed(history: seq<Frame>, inner: seq<Node>)
    requires AllTrimmed(inner)
    requires forall i :: 0 <= i < |history| ==> AllTrimmed(history[i].siblings)
    ensures AllTrimmed(Wrap(history, inner))
    decreases |history|
  {
    if history != [] {
      var f := history[|history| - 1];
      var e := Element(f.name, f.attrs, inner);
      AllTrimmedAppend(f.siblings, [e]);
      WrapTrimmed(history[..|history| - 1], f.siblings + [e]);
    }
  }

  /** Whatever the events, every text leaf the builder stores, and so every
      text leaf of `tree`, is non-empty and already trimmed. */
  lemma {:induction false} TreeTrimmed(evs: seq<Event>)
    ensures StateTrimmed(Run(Initial, evs))
    ensures AllTrimmed(TreeOf(Run(Initial, evs)))
  {
    RunTrimmed(Initial, evs);
    var s := Run(Initial, evs);
    if s.attached {
      WrapTrimmed(s.history, s.cursor);
    }
  }

  /** The `ParserParser` object. */
  class TreeBuilder {
    var cursor: seq<Node>
    var history: seq<Frame>
    var attached: bool
    var failed: bool

    function State(): BuilderState
      reads this
    {
      BuilderState(cursor, history, attached, failed)
    }

    /** `pp.tree`. */
    function Tree(): seq<Node>
      reads this
    {
      TreeOf(State())
    }

    constructor ()
      ensures State() == Initial
    {
      cursor := [];
      history := [];
      attached := true;
      failed := false;
    }

    /** `onopentag` (index.js:127-134): the current cursor is saved, the new
        element is pushed onto it, and its own child list becomes the cursor. */
    method OnOpenTag(name: string, attr: Attrs)
      modifies this
      ensures State() == Step(old(State()), OpenTag(name, attr))
      ensures !old(failed) && old(attached) ==>
        cursor == [] && history == old(history) + [Frame(old(cursor), name, attr)]
    {
      if failed {
        return;
      }
      if !attached {
        failed := true;
        return;
      }
      history := history + [Frame(cursor, name, attr)];
      cursor := [];
    }

    /** `ontext` (index.js:135-138): a non-empty trimmed text is pushed onto
        the cursor. */
    method OnText(text: string)
      modifies this
      ensures State() == Step(old(State()), TextEvent(text))
      ensures !old(failed) && old(attached) ==>
        history == old(history) &&
        cursor == old(cursor) + (if Literals.Trim(text) == "" then [] else [Text(Literals.Trim(text))])
    {
      if failed {
        return;
      }
      var t := Literals.Trim(text);
      if t != "" {
        if !attached {
          failed := true;
          return;
        }
        cursor := cursor + [Text(t)];
      } else {
        assert cursor + [] == cursor;
      }
    }

    /** `onclosetag` (index.js:139-141): the saved cursor comes back, now
        holding the closed element; with an empty history the cursor becomes
        undefined. */
    method OnCloseTag()
      modifies this
      ensures State() == Step(old(State()), CloseTag)
      ensures !old(failed) && old(history) != [] ==>
        history == old(history)[..|old(history)| - 1] &&
        cursor == old(history)[|old(history)| - 1].siblings
          + [Element(old(history)[|old(history)| - 1].name, old(history)[|old(history)| - 1].attrs, old(cursor))]
      ensures !old(failed) && old(history) == [] ==> !attached && cursor == old(cursor)
    {
      if failed {
        return;
      }
      if history == [] {
        attached := false;
        return;
      }
      var f := history[|history| - 1];
      history := history[..|history| - 1];
      cursor := f.siblings + [Element(f.name, f.attrs, cursor)];
    }
  }
}

/** The tag stripper for pasted HTML: an event handler with a depth counter, against the tree it reads.
    The tokeniser is not modelled; its events are the input. */
module PasteHtml {
  import opened PyText

  const STRIP_TAGS: set<string> := {"script", "style", "noscript", "svg", "header", "footer", "nav"}
  const BREAK_BEFORE: set<string> := {"p", "br", "div", "li", "h1", "h2", "h3", "h4", "tr"}
  const BREAK_AFTER: set<string> := {"p", "div", "li", "h1", "h2", "h3", "h4", "tr"}

  datatype Event = Start(tag: string) | End(tag: string) | Data(text: string)

  predicate Stripped(tag: string) {
    tag in STRIP_TAGS
  }

  function BreakBefore(tag: string): seq<string> {
    if tag in BREAK_BEFORE then ["\n"] else []
  }

  function BreakAfter(tag: string): seq<string> {
    if tag in BREAK_AFTER then ["\n"] else []
  }

  function Words(data: string): seq<string> {
    var text := Strip(data);
    if text != "" then [text, " "] else []
  }

  // ---------------------------------------------------------------------------------------------
  // The machine
  // ---------------------------------------------------------------------------------------------

  datatype State = State(skipDepth: nat, chunks: seq<string>)

  function Append(s: State, more: seq<string>): State {
    if s.skipDepth > 0 then s else s.(chunks := s.chunks + more)
  }

  function Step(s: State, e: Event): State {
    match e
    case Start(tag) =>
      if Stripped(tag) then s.(skipDepth := s.skipDepth + 1) else Append(s, BreakBefore(tag))
    case End(tag) =>
      if Stripped(tag) && s.skipDepth > 0 then s.(skipDepth := s.skipDepth - 1) else Append(s, BreakAfter(tag))
    case Data(text) => Append(s, Words(text))
  }

  function Run(s: State, events: seq<Event>): State {
    if events == [] then s else Step(Run(s, events[..|events| - 1]), events[|events| - 1])
  }

  class PasteHtmlParser {
    var skipDepth: nat
    var chunks: seq<string>

    ghost function Now(): State
      reads this
    {
      State(skipDepth, chunks)
    }

    constructor ()
      ensures Now() == State(0, [])
    {
      skipDepth, chunks := 0, [];
    }

    method HandleStartTag(tag: string)
      modifies this
      ensures Now() == Step(old(Now()), Start(tag))
      ensures skipDepth == old(skipDepth) + if tag in STRIP_TAGS then 1 else 0
      ensures chunks == old(chunks) +
                        if old(skipDepth) == 0 && tag in BREAK_BEFORE && tag !in STRIP_TAGS then ["\n"] else []
    {
      if Stripped(tag) {
        skipDepth := skipDepth + 1;
        return;
      }
      if skipDepth > 0 {
        return;
      }
      chunks := chunks + BreakBefore(tag);
    }

    method HandleEndTag(tag: string)
      modifies this
      ensures Now() == Step(old(Now()), End(tag))
      ensures skipDepth == old(skipDepth) - if tag in STRIP_TAGS && old(skipDepth) > 0 then 1 else 0
      ensures chunks == old(chunks) + if old(skipDepth) == 0 && tag in BREAK_AFTER then ["\n"] else []
    {
      if Stripped(tag) && skipDepth > 0 {
        skipDepth := skipDepth - 1;
        return;
      }
      if skipDepth > 0 {
        return;
      }
      chunks := chunks + BreakAfter(tag);
    }

    method HandleData(data: string)
      modifies this
      ensures Now() == Step(old(Now()), Data(data))
      ensures skipDepth == old(skipDepth)
      ensures chunks == old(chunks) +
                        if old(skipDepth) == 0 && Strip(data) != "" then [Strip(data), " "] else []
    {
      if skipDepth > 0 {
        return;
      }
      chunks := chunks + Words(data);
    }

    method Feed(events: seq<Event>)
      modifies this
      ensures Now() == Run(old(Now()), events)
    {
      for i := 0 to |events|
        invariant Now() == Run(old(Now()), events[..i])
      {
        assert events[..i + 1][..i] == events[..i];
        match events[i] {
          case Start(tag) => HandleStartTag(tag);
          case End(tag) => HandleEndTag(tag);
          case Data(text) => HandleData(text);
        }
      }
      assert events[..|events|] == events;
    }
  }

  lemma {:induction false} RunConcat(s: State, a: seq<Event>, b: seq<Event>)
    ensures Run(s, a + b) == Run(Run(s, a), b)
    decreases |b|
  {
    if b == [] {
      assert a + b == a;
    } else {
      var n := |b| - 1;
      assert (a + b)[..|a + b| - 1] == a + b[..n];
      RunConcat(s, a, b[..n]);
    }
  }

  // ---------------------------------------------------------------------------------------------
  // Documents
  // ---------------------------------------------------------------------------------------------

  /** A well-nested document. A void element has a start tag only. */
  datatype Node = Text(data: string) | Element(tag: string, children: seq<Node>) | Void(voidTag: string)

  /** The stripped tags are not void: each that opens is closed. */
  ghost predicate WellNested(nodes: seq<Node>) {
    forall i :: 0 <= i < |nodes| ==> NodeOk(nodes[i])
  }

  ghost predicate NodeOk(node: Node) {
    match node
    case Text(_) => true
    case Void(tag) => !Stripped(tag)
    case Element(_, children) => forall i :: 0 <= i < |children| ==> NodeOk(children[i])
  }

  function Events(nodes: seq<Node>): seq<Event> {
    if nodes == [] then [] else NodeEvents(nodes[0]) + Events(nodes[1..])
  }

  function NodeEvents(node: Node): seq<Event> {
    match node
    case Text(data) => [Data(data)]
    case Void(tag) => [Start(tag)]
    case Element(tag, children) => [Start(tag)] + Events(children) + [End(tag)]
  }

  /** What should be read off a document: its text with breaks, without any subtree under a stripped tag. */
  function Readable(nodes: seq<Node>): seq<string> {
    if nodes == [] then [] else NodeReadable(nodes[0]) + Readable(nodes[1..])
  }

  function NodeReadable(node: Node): seq<string> {
    match node
    case Text(data) => Words(data)
    case Void(tag) => BreakBefore(tag)
    case Element(tag, children) => if Stripped(tag) then [] else BreakBefore(tag) + Readable(children) + BreakAfter(tag)
  }

  // ---------------------------------------------------------------------------------------------
  // Main results
  // ---------------------------------------------------------------------------------------------

  lemma RunOne(s: State, e: Event)
    ensures Run(s, [e]) == Step(s, e)
  {
    assert [e][..0] == [];
  }

  lemma RunElement(s: State, tag: string, inner: seq<Event>)
    ensures Run(s, [Start(tag)] + inner + [End(tag)]) == Step(Run(Step(s, Start(tag)), inner), End(tag))
  {
    RunConcat(s, [Start(tag)] + inner, [End(tag)]);
    RunConcat(s, [Start(tag)], inner);
    RunOne(s, Start(tag));
    RunOne(Run(Step(s, Start(tag)), inner), End(tag));
  }

  /** The machine reads exactly the readable text of the tree and ends where it began; inside a stripped
      subtree it reads nothing. */
  lemma {:induction false} MachineReadsTree(s: State, nodes: seq<Node>)
    requires WellNested(nodes)
    ensures Run(s, Events(nodes)) == Append(s, Readable(nodes))
    decreases nodes, 0
  {
    if nodes != [] {
      MachineReadsNode(s, nodes[0]);
      MachineReadsTree(Append(s, NodeReadable(nodes[0])), nodes[1..]);
      RunConcat(s, NodeEvents(nodes[0]), Events(nodes[1..]));
      ConcatAssoc(s.chunks, NodeReadable(nodes[0]), Readable(nodes[1..]));
    }
  }

  lemma {:induction false} MachineReadsNode(s: State, node: Node)
    requires NodeOk(node)
    ensures Run(s, NodeEvents(node)) == Append(s, NodeReadable(node))
    decreases node, 1
  {
    match node
    case Text(data) => RunOne(s, Data(data));
    case Void(tag) => RunOne(s, Start(tag));
    case Element(tag, children) =>
      RunElement(s, tag, Events(children));
      MachineReadsTree(Step(s, Start(tag)), children);
      ConcatAssoc(s.chunks, BreakBefore(tag), Readable(children));
      ConcatAssoc(s.chunks, BreakBefore(tag) + Readable(children), BreakAfter(tag));
      StrippedAddsNothing(tag);
  }

  lemma StrippedAddsNothing(tag: string)
    ensures Stripped(tag) ==> BreakBefore(tag) == [] && BreakAfter(tag) == []
  {
  }

  /** A whole document from the initial state: its readable text, and depth 0. */
  lemma DocumentIsRead(nodes: seq<Node>)
    requires WellNested(nodes)
    ensures Run(State(0, []), Events(nodes)) == State(0, Readable(nodes))
  {
    MachineReadsTree(State(0, []), nodes);
  }

  // ---------------------------------------------------------------------------------------------
  // The depth counter
  // ---------------------------------------------------------------------------------------------

  function Delta(e: Event): int {
    match e
    case Start(tag) => if Stripped(tag) then 1 else 0
    case End(tag) => if Stripped(tag) then -1 else 0
    case Data(_) => 0
  }

  /** Stripped tags opened minus stripped tags closed. */
  function Open(events: seq<Event>): int {
    if events == [] then 0 else Open(events[..|events| - 1]) + Delta(events[|events| - 1])
  }

  /** The lowest that difference has been. */
  function Lowest(events: seq<Event>): (r: int)
    ensures r <= 0
  {
    if events == [] then 0 else
      var before, now := Lowest(events[..|events| - 1]), Open(events);
      if now < before then now else before
  }

  /** On any stream of events at all, the counter is the number of stripped tags open, where a close with
      nothing open is ignored. */
  lemma {:induction false} DepthOnAnyStream(events: seq<Event>)
    ensures Run(State(0, []), events).skipDepth == Open(events) - Lowest(events)
  {
    if events != [] {
      DepthOnAnyStream(events[..|events| - 1]);
    }
  }

  lemma {:induction false} OpenConcat(a: seq<Event>, b: seq<Event>)
    ensures Open(a + b) == Open(a) + Open(b)
    decreases |b|
  {
    if b == [] {
      assert a + b == a;
    } else {
      var n := |b| - 1;
      assert (a + b)[..|a + b| - 1] == a + b[..n];
      OpenConcat(a, b[..n]);
    }
  }

  /** Every prefix has opened at least what it closed. */
  ghost predicate Balanced(events: seq<Event>) {
    Open(events) == 0 && forall k :: 0 <= k <= |events| ==> Open(events[..k]) >= 0
  }

  lemma BalancedConcat(a: seq<Event>, b: seq<Event>)
    requires Balanced(a) && Balanced(b)
    ensures Balanced(a + b)
  {
    OpenConcat(a, b);
    forall k | 0 <= k <= |a + b| ensures Open((a + b)[..k]) >= 0 {
      if k <= |a| {
        assert (a + b)[..k] == a[..k];
      } else {
        assert (a + b)[..k] == a + b[..k - |a|];
        OpenConcat(a, b[..k - |a|]);
      }
    }
  }

  lemma OpenOne(e: Event)
    ensures Open([e]) == Delta(e)
  {
    assert [e][..0] == [];
  }

  lemma BalancedElement(tag: string, inner: seq<Event>)
    requires Balanced(inner)
    ensures Balanced([Start(tag)] + inner + [End(tag)])
  {
    var a := [Start(tag)] + inner;
    var all := a + [End(tag)];
    OpenOne(Start(tag));
    OpenOne(End(tag));
    OpenConcat([Start(tag)], inner);
    OpenConcat(a, [End(tag)]);
    forall k | 0 <= k <= |all| ensures Open(all[..k]) >= 0 {
      if k == 0 {
        assert all[..0] == [];
      } else if k <= |a| {
        assert all[..k] == [Start(tag)] + inner[..k - 1];
        OpenConcat([Start(tag)], inner[..k - 1]);
      } else {
        assert all[..k] == all;
      }
    }
  }

  lemma BalancedOne(e: Event)
    requires Delta(e) == 0
    ensures Balanced([e])
  {
    OpenOne(e);
    assert [e][..0] == [] && [e][..1] == [e];
  }

  lemma {:induction false} TreesAreBalanced(nodes: seq<Node>)
    requires WellNested(nodes)
    ensures Balanced(Events(nodes))
    decreases nodes, 0
  {
    if nodes != [] {
      NodesAreBalanced(nodes[0]);
      TreesAreBalanced(nodes[1..]);
      BalancedConcat(NodeEvents(nodes[0]), Events(nodes[1..]));
    }
  }

  lemma {:induction false} NodesAreBalanced(node: Node)
    requires NodeOk(node)
    ensures Balanced(NodeEvents(node))
    decreases node, 1
  {
    match node
    case Text(data) => BalancedOne(Data(data));
    case Void(tag) => BalancedOne(Start(tag));
    case Element(tag, children) =>
      TreesAreBalanced(children);
      BalancedElement(tag, Events(children));
  }

  lemma {:induction false} NeverBelowZero(events: seq<Event>)
    requires forall k :: 0 <= k <= |events| ==> Open(events[..k]) >= 0
    ensures Lowest(events) == 0
  {
    if events != [] {
      var init := events[..|events| - 1];
      forall k | 0 <= k <= |init| ensures Open(init[..k]) >= 0 {
        assert init[..k] == events[..k];
      }
      NeverBelowZero(init);
      assert events[..|events|] == events;
    }
  }

  /** Anywhere in a well-nested document the counter is exactly the number of stripped tags open there. */
  lemma DepthIsOpenTags(nodes: seq<Node>, k: nat)
    requires WellNested(nodes) && k <= |Events(nodes)|
    ensures Run(State(0, []), Events(nodes)[..k]).skipDepth == Open(Events(nodes)[..k])
  {
    var events := Events(nodes);
    TreesAreBalanced(nodes);
    var prefix := events[..k];
    forall m | 0 <= m <= |prefix| ensures Open(prefix[..m]) >= 0 {
      assert prefix[..m] == events[..m];
    }
    NeverBelowZero(prefix);
    DepthOnAnyStream(prefix);
  }

  /** A stripped tag that is never closed hides everything after it: one unclosed header loses the rest. */
  lemma {:induction false} UnclosedHidesTheRest(s: State, tag: string, rest: seq<Event>)
    requires Stripped(tag) && forall k :: 0 <= k <= |rest| ==> Open(rest[..k]) >= 0
    ensures Run(s, [Start(tag)] + rest).chunks == s.chunks
    ensures Run(s, [Start(tag)] + rest).skipDepth == s.skipDepth + 1 + Open(rest)
  {
    RunConcat(s, [Start(tag)], rest);
    RunOne(s, Start(tag));
    HiddenRun(Step(s, Start(tag)), rest);
  }

  lemma {:induction false} HiddenRun(s: State, events: seq<Event>)
    requires s.skipDepth > 0 && forall k :: 0 <= k <= |events| ==> Open(events[..k]) >= 0
    ensures Run(s, events) == State(s.skipDepth + Open(events), s.chunks)
  {
    if events != [] {
      var init := events[..|events| - 1];
      forall k | 0 <= k <= |init| ensures Open(init[..k]) >= 0 {
        assert init[..k] == events[..k];
      }
      HiddenRun(s, init);
      assert events[..|events| - 1] == init && Open(init) >= 0;
    }
  }

  // ---------------------------------------------------------------------------------------------
  // What is kept of the texts
  // ---------------------------------------------------------------------------------------------

  /** The texts under no stripped tag, in document order. */
  function Visible(nodes: seq<Node>): seq<string> {
    if nodes == [] then [] else VisibleIn(nodes[0]) + Visible(nodes[1..])
  }

  function VisibleIn(node: Node): seq<string> {
    match node
    case Text(data) => [data]
    case Void(_) => []
    case Element(tag, children) => if tag in STRIP_TAGS then [] else Visible(children)
  }

  /** The pieces that are more than a separator. */
  function Pieces(chunks: seq<string>): seq<string> {
    if chunks == [] then [] else
      (if chunks[0] == "\n" || chunks[0] == " " then [] else [chunks[0]]) + Pieces(chunks[1..])
  }

  /** The texts, trimmed, without the blank ones. */
  function Inked(texts: seq<string>): seq<string> {
    if texts == [] then [] else (if Strip(texts[0]) == "" then [] else [Strip(texts[0])]) + Inked(texts[1..])
  }

  lemma {:induction false} PiecesConcat(a: seq<string>, b: seq<string>)
    ensures Pieces(a + b) == Pieces(a) + Pieces(b)
  {
    if a == [] {
      assert a + b == b;
    } else {
      PiecesConcat(a[1..], b);
      assert (a + b)[0] == a[0] && (a + b)[1..] == a[1..] + b;
      ConcatAssoc(if a[0] == "\n" || a[0] == " " then [] else [a[0]], Pieces(a[1..]), Pieces(b));
    }
  }

  lemma {:induction false} InkedConcat(a: seq<string>, b: seq<string>)
    ensures Inked(a + b) == Inked(a) + Inked(b)
  {
    if a == [] {
      assert a + b == b;
    } else {
      InkedConcat(a[1..], b);
      assert (a + b)[0] == a[0] && (a + b)[1..] == a[1..] + b;
      ConcatAssoc(if Strip(a[0]) == "" then [] else [Strip(a[0])], Inked(a[1..]), Inked(b));
    }
  }

  lemma WordsPieces(data: string)
    ensures Pieces(Words(data)) == Inked([data])
  {
    var text := Strip(data);
    StripTrims(data);
    assert Inked([data]) == if text == "" then [] else [text];
    if text != "" {
      assert text != " " && text != "\n";
      assert [text, " "][1..] == [" "] && [" "][1..] == [];
    }
  }

  lemma BreaksHaveNoPiece(tag: string)
    ensures Pieces(BreakBefore(tag)) == [] && Pieces(BreakAfter(tag)) == []
  {
  }

  lemma {:induction false} NodePieces(node: Node)
    ensures Pieces(NodeReadable(node)) == Inked(VisibleIn(node))
    decreases node, 1
  {
    match node
    case Text(data) =>
      WordsPieces(data);
    case Void(tag) =>
      BreaksHaveNoPiece(tag);
    case Element(tag, children) =>
      if tag !in STRIP_TAGS {
        TreePieces(children);
        BreaksHaveNoPiece(tag);
        PiecesConcat(BreakBefore(tag) + Readable(children), BreakAfter(tag));
        PiecesConcat(BreakBefore(tag), Readable(children));
      }
  }

  /** Of a document is read every text under no stripped tag, trimmed, unless it is blank, and nothing else but
      separators. */
  lemma {:induction false} TreePieces(nodes: seq<Node>)
    ensures Pieces(Readable(nodes)) == Inked(Visible(nodes))
    decreases nodes, 0
  {
    if nodes != [] {
      NodePieces(nodes[0]);
      TreePieces(nodes[1..]);
      PiecesConcat(NodeReadable(nodes[0]), Readable(nodes[1..]));
      InkedConcat(VisibleIn(nodes[0]), Visible(nodes[1..]));
    }
  }
}

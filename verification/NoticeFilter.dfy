/**
 The notice preview: a streaming filter over start tags, end tags and text that cuts one
 element out of a page and drops what may not be shown. It keeps two depth counters; on a
 well-nested page it does the same as a recursive filter over the document tree.
 */
module NoticeFilter {
  import opened Catalogue

  const VOID_TAGS: set<string> := {"area", "base", "br", "col", "embed", "hr", "img", "input", "link", "meta", "param",
                                   "source", "track", "wbr"}
  const SKIP_TAGS: set<string> := {"script", "style", "noscript", "iframe", "object", "embed", "head", "form", "button"}
  const ALLOWED_TAGS: set<string> := {"a", "b", "blockquote", "br", "code", "col", "colgroup", "dd", "div", "dl", "dt",
                                      "em", "h1", "h2", "h3", "h4", "h5", "h6", "i", "li", "ol", "p", "pre", "small",
                                      "span", "strong", "table", "tbody", "td", "tfoot", "th", "thead", "tr", "u", "ul"}

  // Attributes other than the class list are carried along unread.
  datatype Head = Head(tag: string, classes: set<string>, attributes: seq<(string, string)>)

  datatype Event = Start(head: Head) | End(tag: string) | Data(text: string)

  // What is written; rendering an opening tag or escaping a text is left to the printer.
  datatype Piece = Open(head: Head) | Close(tag: string) | Shown(text: string)

  datatype Match = Match(cssClass: Option<string>, tag: Option<string>)

  predicate Matches(m: Match, h: Head) {
    m.tag == Some(h.tag) || (m.cssClass.Some? && m.cssClass.value in h.classes)
  }

  predicate Void(tag: string) { tag in VOID_TAGS }

  predicate Skipped(tag: string) { tag in SKIP_TAGS }

  predicate Allowed(tag: string) { tag in ALLOWED_TAGS }

  // ------------------------------------------------------ the streaming filter

  datatype State = State(capturing: bool, captureDepth: int, skipDepth: int, done: bool, parts: seq<Piece>)

  const INITIAL := State(false, 0, 0, false, [])

  function OnStart(m: Match, s: State, h: Head): State {
    if s.done then s
    else if !s.capturing then
      if !Matches(m, h) then s
      else if Void(h.tag) then s.(capturing := true)
      else s.(capturing := true, captureDepth := 1)
    else if s.skipDepth != 0 then
      if Void(h.tag) then s else s.(skipDepth := s.skipDepth + 1)
    else if Skipped(h.tag) then
      if Void(h.tag) then s else s.(skipDepth := 1)
    else
      s.(captureDepth := if Void(h.tag) then s.captureDepth else s.captureDepth + 1,
         parts := if Allowed(h.tag) then s.parts + [Open(h)] else s.parts)
  }

  function OnEnd(s: State, tag: string): State {
    if s.done || !s.capturing then s
    else if s.skipDepth != 0 then
      if Void(tag) then s else s.(skipDepth := s.skipDepth - 1)
    else
      var depth := if Void(tag) then s.captureDepth else s.captureDepth - 1;
      var parts := if Allowed(tag) && !Void(tag) then s.parts + [Close(tag)] else s.parts;
      if depth <= 0 then s.(captureDepth := depth, parts := parts, done := true, capturing := false)
      else s.(captureDepth := depth, parts := parts)
  }

  function OnData(s: State, text: string): State {
    if s.capturing && s.skipDepth == 0 && !s.done then s.(parts := s.parts + [Shown(text)]) else s
  }

  function On(m: Match, s: State, e: Event): State {
    match e
    case Start(h) => OnStart(m, s, h)
    case End(tag) => OnEnd(s, tag)
    case Data(text) => OnData(s, text)
  }

  function Run(m: Match, s: State, events: seq<Event>): State {
    if events == [] then s else On(m, Run(m, s, events[..|events| - 1]), events[|events| - 1])
  }

  /** The parser object, with its fields updated in place. */
  class PreviewParser {
    const wanted: Match
    var capturing: bool
    var captureDepth: int
    var skipDepth: int
    var done: bool
    var parts: seq<Piece>

    constructor (wanted: Match)
      ensures this.wanted == wanted && View() == INITIAL
    {
      this.wanted := wanted;
      capturing, captureDepth, skipDepth, done, parts := false, 0, 0, false, [];
    }

    function View(): State
      reads this
    {
      State(capturing, captureDepth, skipDepth, done, parts)
    }

    method HandleStartTag(h: Head)
      modifies this
      ensures View() == OnStart(wanted, old(View()), h)
    {
      if done {
        return;
      }
      if !capturing {
        if Matches(wanted, h) {
          capturing := true;
          if !Void(h.tag) {
            captureDepth := 1;
          }
        }
        return;
      }
      if skipDepth != 0 {
        if !Void(h.tag) {
          skipDepth := skipDepth + 1;
        }
        return;
      }
      if Skipped(h.tag) {
        if !Void(h.tag) {
          skipDepth := 1;
        }
        return;
      }
      if !Void(h.tag) {
        captureDepth := captureDepth + 1;
      }
      if Allowed(h.tag) {
        parts := parts + [Open(h)];
      }
    }

    method HandleEndTag(tag: string)
      modifies this
      ensures View() == OnEnd(old(View()), tag)
    {
      if done || !capturing {
        return;
      }
      if skipDepth != 0 {
        if !Void(tag) {
          skipDepth := skipDepth - 1;
        }
        return;
      }
      if Allowed(tag) && !Void(tag) {
        parts := parts + [Close(tag)];
      }
      if !Void(tag) {
        captureDepth := captureDepth - 1;
      }
      if captureDepth <= 0 {
        done := true;
        capturing := false;
      }
    }

    method HandleData(text: string)
      modifies this
      ensures View() == OnData(old(View()), text)
    {
      if capturing && skipDepth == 0 && !done {
        parts := parts + [Shown(text)];
      }
    }

    /** Feeds a whole page. */
    method Feed(events: seq<Event>)
      modifies this
      ensures View() == Run(wanted, old(View()), events)
    {
      var i := 0;
      while i < |events|
        invariant 0 <= i <= |events|
        invariant View() == Run(wanted, old(View()), events[..i])
      {
        assert events[..i + 1][..i] == events[..i];
        match events[i] {
          case Start(h) => HandleStartTag(h);
          case End(tag) => HandleEndTag(tag);
          case Data(text) => HandleData(text);
        }
        i := i + 1;
      }
      assert events[..i] == events;
    }
  }

  // ---------------------------------------------------------- documents

  // `selfClosed` is how a void element was written: `<br/>` rather than `<br>`.
  datatype Node = Element(head: Head, selfClosed: bool, children: seq<Node>) | Text(text: string)

  /** Void elements have no children. */
  predicate Proper(n: Node) {
    match n
    case Text(_) => true
    case Element(h, _, children) => (Void(h.tag) ==> children == []) && forall c :: c in children ==> Proper(c)
  }

  function Events(n: Node): seq<Event>
    decreases n, 1
  {
    match n
    case Text(text) => [Data(text)]
    case Element(h, selfClosed, children) =>
      if Void(h.tag) then [Start(h)] + if selfClosed then [End(h.tag)] else []
      else [Start(h)] + EventsOfAll(children) + [End(h.tag)]
  }

  function EventsOfAll(ns: seq<Node>): seq<Event>
    decreases ns, 0
  {
    if ns == [] then [] else Events(ns[0]) + EventsOfAll(ns[1..])
  }

  /** The first matching element, from outside in and left to right. */
  function FirstMatch(m: Match, n: Node): Option<Node>
    decreases n, 1
  {
    match n
    case Text(_) => None
    case Element(h, _, children) => if Matches(m, h) then Some(n) else FirstMatchOfAll(m, children)
  }

  function FirstMatchOfAll(m: Match, ns: seq<Node>): Option<Node>
    decreases ns, 0
  {
    if ns == [] then None
    else if FirstMatch(m, ns[0]).Some? then FirstMatch(m, ns[0])
    else FirstMatchOfAll(m, ns[1..])
  }

  /** The recursive filter: skipped elements vanish, other disallowed ones leave their children. */
  function Keep(n: Node): seq<Piece>
    decreases n, 1
  {
    match n
    case Text(text) => [Shown(text)]
    case Element(h, _, children) =>
      if Skipped(h.tag) then []
      else if Void(h.tag) then (if Allowed(h.tag) then [Open(h)] else [])
      else if Allowed(h.tag) then [Open(h)] + KeepAll(children) + [Close(h.tag)]
      else KeepAll(children)
  }

  function KeepAll(ns: seq<Node>): seq<Piece>
    decreases ns, 0
  {
    if ns == [] then [] else Keep(ns[0]) + KeepAll(ns[1..])
  }

  // ------------------------------------------------------------- the proof

  lemma {:induction false} RunConcat(m: Match, s: State, e: seq<Event>, f: seq<Event>)
    ensures Run(m, s, e + f) == Run(m, Run(m, s, e), f)
  {
    if f == [] {
      assert e + f == e;
    } else {
      RunConcat(m, s, e, f[..|f| - 1]);
      assert (e + f)[..|e + f| - 1] == e + f[..|f| - 1];
    }
  }

  lemma RunOne(m: Match, s: State, e: Event)
    ensures Run(m, s, [e]) == On(m, s, e)
  {
    assert [e][..0] == [];
    assert Run(m, s, []) == s;
  }

  /** An element's events, taken apart. */
  lemma RunElement(m: Match, s: State, n: Node)
    requires n.Element? && !Void(n.head.tag)
    ensures Run(m, s, Events(n)) == OnEnd(Run(m, OnStart(m, s, n.head), EventsOfAll(n.children)), n.head.tag)
  {
    var kids := EventsOfAll(n.children);
    RunConcat(m, s, [Start(n.head)] + kids, [End(n.head.tag)]);
    RunConcat(m, s, [Start(n.head)], kids);
    RunOne(m, s, Start(n.head));
    RunOne(m, Run(m, s, [Start(n.head)] + kids), End(n.head.tag));
  }

  lemma RunVoid(m: Match, s: State, n: Node)
    requires n.Element? && Void(n.head.tag)
    ensures Run(m, s, Events(n)) ==
            if n.selfClosed then OnEnd(OnStart(m, s, n.head), n.head.tag) else OnStart(m, s, n.head)
  {
    RunOne(m, s, Start(n.head));
    if n.selfClosed {
      RunConcat(m, s, [Start(n.head)], [End(n.head.tag)]);
      RunOne(m, OnStart(m, s, n.head), End(n.head.tag));
    }
  }

  lemma {:induction false} RunAllSplits(m: Match, s: State, ns: seq<Node>)
    requires ns != []
    ensures Run(m, s, EventsOfAll(ns)) == Run(m, Run(m, s, Events(ns[0])), EventsOfAll(ns[1..]))
  {
    RunConcat(m, s, Events(ns[0]), EventsOfAll(ns[1..]));
  }

  lemma {:induction false} DoneStays(m: Match, s: State, events: seq<Event>)
    requires s.done
    ensures Run(m, s, events) == s
  {
    if events == [] {
    } else {
      DoneStays(m, s, events[..|events| - 1]);
    }
  }

  /** Inside a skipped element, a whole node passes without a trace. */
  lemma {:induction false} NodeIsSkipped(m: Match, s: State, n: Node)
    requires s.capturing && !s.done && s.skipDepth >= 1
    ensures Run(m, s, Events(n)) == s
    decreases n, 1
  {
    match n {
      case Text(text) => RunOne(m, s, Data(text));
      case Element(h, _, children) =>
        if Void(h.tag) {
          RunVoid(m, s, n);
        } else {
          RunElement(m, s, n);
          NodesAreSkipped(m, OnStart(m, s, h), children);
        }
    }
  }

  lemma {:induction false} NodesAreSkipped(m: Match, s: State, ns: seq<Node>)
    requires s.capturing && !s.done && s.skipDepth >= 1
    ensures Run(m, s, EventsOfAll(ns)) == s
    decreases ns, 0
  {
    if ns == [] {
    } else {
      RunAllSplits(m, s, ns);
      NodeIsSkipped(m, s, ns[0]);
      NodesAreSkipped(m, s, ns[1..]);
    }
  }

  ghost predicate Capturing(s: State) {
    s.capturing && !s.done && s.skipDepth == 0 && s.captureDepth >= 1
  }

  /** Inside the captured element, a node adds exactly what the recursive filter keeps of it. */
  lemma {:induction false} NodeIsKept(m: Match, s: State, n: Node)
    requires Capturing(s) && Proper(n)
    ensures Run(m, s, Events(n)) == s.(parts := s.parts + Keep(n))
    decreases n, 1
  {
    hide Run, EventsOfAll;
    match n {
      case Text(text) => RunOne(m, s, Data(text));
      case Element(h, _, children) =>
        if Void(h.tag) {
          RunVoid(m, s, n);
        } else {
          RunElement(m, s, n);
          if Skipped(h.tag) {
            NodesAreSkipped(m, OnStart(m, s, h), children);
          } else {
            NodesAreKept(m, OnStart(m, s, h), children);
          }
        }
    }
  }

  lemma {:induction false} NodesAreKept(m: Match, s: State, ns: seq<Node>)
    requires Capturing(s) && forall n :: n in ns ==> Proper(n)
    ensures Run(m, s, EventsOfAll(ns)) == s.(parts := s.parts + KeepAll(ns))
    decreases ns, 0
  {
    if ns == [] {
    } else {
      RunAllSplits(m, s, ns);
      NodeIsKept(m, s, ns[0]);
      NodesAreKept(m, s.(parts := s.parts + Keep(ns[0])), ns[1..]);
    }
  }

  /** What is cut out for the matched element: its filtered children, then its own end tag if allowed. */
  function CutOut(n: Node): seq<Piece>
    requires n.Element?
  {
    KeepAll(n.children) + if Allowed(n.head.tag) then [Close(n.head.tag)] else []
  }

  // The first match with what matters around it: the siblings after it and its parent's tag.
  datatype Place = Place(found: Node, after: seq<Node>, parent: Option<string>)

  function PlaceIn(m: Match, n: Node, after: seq<Node>, parent: Option<string>): Option<Place>
    decreases n, 1
  {
    match n
    case Text(_) => None
    case Element(h, _, children) =>
      if Matches(m, h) then Some(Place(n, after, parent)) else PlaceAmong(m, children, Some(h.tag))
  }

  function PlaceAmong(m: Match, ns: seq<Node>, parent: Option<string>): Option<Place>
    decreases ns, 0
  {
    if ns == [] then None
    else
      var p := PlaceIn(m, ns[0], ns[1..], parent);
      if p.Some? then p else PlaceAmong(m, ns[1..], parent)
  }

  /** A place is the first match's own place. */
  lemma {:induction false} PlaceInIsFirst(m: Match, n: Node, after: seq<Node>, parent: Option<string>)
    ensures FirstMatch(m, n).Some? == PlaceIn(m, n, after, parent).Some?
    ensures FirstMatch(m, n).Some? ==> PlaceIn(m, n, after, parent).value.found == FirstMatch(m, n).value
    decreases n, 1
  {
    if n.Element? && !Matches(m, n.head) {
      PlaceIsFirst(m, n.children, Some(n.head.tag));
    }
  }

  lemma {:induction false} PlaceIsFirst(m: Match, ns: seq<Node>, parent: Option<string>)
    ensures FirstMatchOfAll(m, ns).Some? == PlaceAmong(m, ns, parent).Some?
    ensures FirstMatchOfAll(m, ns).Some? ==> PlaceAmong(m, ns, parent).value.found == FirstMatchOfAll(m, ns).value
    decreases ns, 0
  {
    if ns == [] {
    } else {
      PlaceInIsFirst(m, ns[0], ns[1..], parent);
      PlaceIsFirst(m, ns[1..], parent);
    }
  }

  function Closer(parent: Option<string>): seq<Piece> {
    if parent.Some? && Allowed(parent.value) then [Close(parent.value)] else []
  }

  /** After a void match the next end tag seen outside skipped content ends the capture. */
  predicate Stops(n: Node) {
    n.Element? && if Void(n.head.tag) then n.selfClosed else !Skipped(n.head.tag)
  }

  /** What is written beside a void match: its siblings up to one that stops, or the parent's end tag. */
  function Beside(ns: seq<Node>, closer: seq<Piece>): seq<Piece> {
    if ns == [] then closer
    else if Stops(ns[0]) then Keep(ns[0])
    else Keep(ns[0]) + Beside(ns[1..], closer)
  }

  /** What the filter writes for a first match, in full. */
  function WrittenAt(p: Place): seq<Piece>
    requires p.found.Element?
  {
    if !Void(p.found.head.tag) then CutOut(p.found)
    else if p.found.selfClosed then []
    else Beside(p.after, Closer(p.parent))
  }

  /** A void match has been seen, and `parts` has been written since. */
  function Stray(parts: seq<Piece>): State {
    State(true, 0, 0, false, parts)
  }

  lemma MatchIsCutOut(m: Match, n: Node)
    requires n.Element? && !Void(n.head.tag) && Matches(m, n.head) && Proper(n)
    ensures Run(m, INITIAL, Events(n)).done && Run(m, INITIAL, Events(n)).parts == CutOut(n)
  {
    assert forall c :: c in n.children ==> Proper(c);
    hide Run, Proper, Events, EventsOfAll, KeepAll;
    RunElement(m, INITIAL, n);
    NodesAreKept(m, OnStart(m, INITIAL, n.head), n.children);
  }

  /** One sibling of a void match. */
  lemma SiblingIsKept(m: Match, parts: seq<Piece>, n: Node)
    requires Proper(n)
    ensures var s := Run(m, Stray(parts), Events(n));
            if Stops(n) then s.done && s.parts == parts + Keep(n) else s == Stray(parts + Keep(n))
  {
    hide Run, EventsOfAll, KeepAll;
    var s := Stray(parts);
    match n {
      case Text(text) => RunOne(m, s, Data(text));
      case Element(h, _, children) =>
        if Void(h.tag) {
          RunVoid(m, s, n);
        } else {
          RunElement(m, s, n);
          if Skipped(h.tag) {
            NodesAreSkipped(m, OnStart(m, s, h), children);
          } else {
            NodesAreKept(m, OnStart(m, s, h), children);
          }
        }
    }
  }

  lemma {:induction false} SiblingsAreKept(m: Match, parts: seq<Piece>, ns: seq<Node>, closer: seq<Piece>)
    requires forall n :: n in ns ==> Proper(n)
    ensures var s := Run(m, Stray(parts), EventsOfAll(ns));
            (s.done && s.parts == parts + Beside(ns, closer))
            || (s == Stray(s.parts) && s.parts + closer == parts + Beside(ns, closer))
    decreases |ns|
  {
    hide Run, Keep, Stops, Proper, Events;
    if ns == [] {
      RunNothing(m, Stray(parts));
    } else {
      RunAllSplits(m, Stray(parts), ns);
      SiblingIsKept(m, parts, ns[0]);
      if Stops(ns[0]) {
        DoneStays(m, Run(m, Stray(parts), Events(ns[0])), EventsOfAll(ns[1..]));
      } else {
        SiblingsAreKept(m, parts + Keep(ns[0]), ns[1..], closer);
      }
    }
  }

  lemma RunNothing(m: Match, s: State)
    ensures Run(m, s, []) == s
  {
  }

  /** The state behind a node: no match, cut out and done, or a void match still looking for its end. */
  ghost predicate Behind(s: State, place: Option<Place>, parent: Option<string>) {
    match place
    case None => s == INITIAL
    case Some(p) =>
      p.found.Element?
      && ((s.done && s.parts == WrittenAt(p)) || (s == Stray(s.parts) && s.parts + Closer(parent) == WrittenAt(p)))
  }

  lemma {:induction false} SearchNode(m: Match, n: Node, after: seq<Node>, parent: Option<string>)
    requires Proper(n)
    ensures var s, place := Run(m, INITIAL, Events(n)), PlaceIn(m, n, after, parent);
            if s == Stray([]) then place == Some(Place(n, after, parent)) && n.Element? && Void(n.head.tag)
                && !n.selfClosed
            else Behind(s, place, parent) && (s == INITIAL || s.done)
    decreases n, 1
  {
    hide Run, EventsOfAll;
    match n {
      case Text(text) => RunOne(m, INITIAL, Data(text));
      case Element(h, _, children) =>
        if Void(h.tag) {
          RunVoid(m, INITIAL, n);
        } else if Matches(m, h) {
          MatchIsCutOut(m, n);
        } else {
          RunElement(m, INITIAL, n);
          SearchNodes(m, children, Some(h.tag));
        }
    }
  }

  lemma {:induction false} SearchNodes(m: Match, ns: seq<Node>, parent: Option<string>)
    requires forall n :: n in ns ==> Proper(n)
    ensures Behind(Run(m, INITIAL, EventsOfAll(ns)), PlaceAmong(m, ns, parent), parent)
    decreases ns, 0
  {
    hide Run, Proper, Events;
    if ns == [] {
      RunNothing(m, INITIAL);
    } else {
      RunAllSplits(m, INITIAL, ns);
      SearchNode(m, ns[0], ns[1..], parent);
      var s := Run(m, INITIAL, Events(ns[0]));
      if s == INITIAL {
        SearchNodes(m, ns[1..], parent);
      } else if s.done {
        DoneStays(m, s, EventsOfAll(ns[1..]));
      } else {
        SiblingsAreKept(m, [], ns[1..], Closer(parent));
      }
    }
  }

  /**
   Streaming, on any well-nested page: with no match nothing is written; a first match that
   is not void gives its filtered children and then, if its own tag may be shown, its end
   tag; a void one gives its filtered siblings up to one that stops, or its parent's end tag.
   */
  lemma StreamingOnAnyPage(m: Match, page: seq<Node>)
    requires forall n :: n in page ==> Proper(n)
    ensures var place := PlaceAmong(m, page, None);
            && (place.Some? ==> place.value.found.Element?)
            && Run(m, INITIAL, EventsOfAll(page)).parts == if place.Some? then WrittenAt(place.value) else []
  {
    SearchNodes(m, page, None);
  }

  /** What should be written for a match: nothing for a void element, which has no content. */
  function Wanted(found: Option<Node>): seq<Piece> {
    if found.Some? && found.value.Element? && !Void(found.value.head.tag) then CutOut(found.value) else []
  }

  /** Nothing beside a match is written: no sibling up to one that stops, nor the parent's end tag. */
  predicate Silent(ns: seq<Node>, parent: Option<string>) {
    if ns == [] then parent.None? || !Allowed(parent.value)
    else Keep(ns[0]) == [] && (Stops(ns[0]) || Silent(ns[1..], parent))
  }

  lemma {:induction false} SilentExact(ns: seq<Node>, parent: Option<string>)
    ensures Silent(ns, parent) <==> Beside(ns, Closer(parent)) == []
  {
    if ns == [] {
    } else {
      SilentExact(ns[1..], parent);
    }
  }

  /**
   Streaming equals recursive exactly when there is no match, the first match is not void,
   it is written self-closed, or nothing beside it would be written.
   */
  lemma StreamingIsRecursive(m: Match, page: seq<Node>)
    requires forall n :: n in page ==> Proper(n)
    ensures var place := PlaceAmong(m, page, None);
            && (place.Some? ==> place.value.found.Element?)
            && (Run(m, INITIAL, EventsOfAll(page)).parts == Wanted(FirstMatchOfAll(m, page)) <==>
                place.None? || !Void(place.value.found.head.tag) || place.value.found.selfClosed
                || Silent(place.value.after, place.value.parent))
  {
    StreamingOnAnyPage(m, page);
    PlaceIsFirst(m, page, None);
    var place := PlaceAmong(m, page, None);
    if place.Some? {
      SilentExact(place.value.after, place.value.parent);
    }
  }

  /** `_sanitized_html_fragment`: wrapped in a body, a fragment comes out as its recursive filtering. */
  lemma SanitizedIsFiltered(body: Head, fragment: seq<Node>)
    requires body.tag == "body" && forall n :: n in fragment ==> Proper(n)
    ensures Run(Match(None, Some("body")), INITIAL, Events(Element(body, false, fragment))).parts == KeepAll(fragment)
  {
    MatchIsCutOut(Match(None, Some("body")), Element(body, false, fragment));
  }

  predicate Harmless(p: Piece) {
    match p
    case Open(h) => Allowed(h.tag) && !Skipped(h.tag)
    case Close(tag) => Allowed(tag) && !Void(tag)
    case Shown(_) => true
  }

  /** Whatever the events, nested or not: no tag is written that may not be shown. */
  lemma {:induction false} OnlyAllowedTags(m: Match, events: seq<Event>)
    ensures forall p :: p in Run(m, INITIAL, events).parts ==> Harmless(p)
  {
    if events == [] {
    } else {
      OnlyAllowedTags(m, events[..|events| - 1]);
    }
  }

  // ------------------------------------------------------------- balance

  /** Closes pieces against a stack of open tags; `None` on a mismatch. */
  function Unwind(pieces: seq<Piece>, open: seq<string>): Option<seq<string>> {
    if pieces == [] then Some(open)
    else
      match pieces[0]
      case Shown(_) => Unwind(pieces[1..], open)
      case Open(h) => Unwind(pieces[1..], if Void(h.tag) then open else [h.tag] + open)
      case Close(tag) => if open != [] && open[0] == tag then Unwind(pieces[1..], open[1..]) else None
  }

  lemma {:induction false} UnwindConcat(p: seq<Piece>, q: seq<Piece>, open: seq<string>)
    ensures Unwind(p + q, open) == if Unwind(p, open).Some? then Unwind(q, Unwind(p, open).value) else None
    decreases |p|
  {
    if p == [] {
      assert p + q == q;
    } else {
      assert (p + q)[1..] == p[1..] + q;
      match p[0] {
        case Shown(_) => UnwindConcat(p[1..], q, open);
        case Open(h) => UnwindConcat(p[1..], q, if Void(h.tag) then open else [h.tag] + open);
        case Close(tag) =>
          if open != [] && open[0] == tag {
            UnwindConcat(p[1..], q, open[1..]);
          }
      }
    }
  }

  /** Whatever is kept of a node is balanced. */
  lemma {:induction false} KeepBalances(n: Node, open: seq<string>)
    ensures Unwind(Keep(n), open) == Some(open)
    decreases n, 1
  {
    match n {
      case Text(_) =>
      case Element(h, _, children) =>
        if !Skipped(h.tag) && !Void(h.tag) {
          if Allowed(h.tag) {
            KeepAllBalances(children, [h.tag] + open);
            UnwindConcat([Open(h)], KeepAll(children) + [Close(h.tag)], open);
            UnwindConcat(KeepAll(children), [Close(h.tag)], [h.tag] + open);
            assert [Open(h)] + KeepAll(children) + [Close(h.tag)] == [Open(h)] + (KeepAll(children) + [Close(h.tag)]);
            assert ([h.tag] + open)[1..] == open;
          } else {
            KeepAllBalances(children, open);
          }
        }
    }
  }

  lemma {:induction false} KeepAllBalances(ns: seq<Node>, open: seq<string>)
    ensures Unwind(KeepAll(ns), open) == Some(open)
    decreases ns, 0
  {
    if ns == [] {
    } else {
      KeepBalances(ns[0], open);
      KeepAllBalances(ns[1..], open);
      UnwindConcat(Keep(ns[0]), KeepAll(ns[1..]), open);
    }
  }

  /** The written fragment is balanced up to the one end tag of the match itself. */
  lemma CutOutBalances(n: Node)
    requires n.Element?
    ensures Unwind(CutOut(n), if Allowed(n.head.tag) then [n.head.tag] else []) == Some([])
  {
    var open := if Allowed(n.head.tag) then [n.head.tag] else [];
    KeepAllBalances(n.children, open);
    UnwindConcat(KeepAll(n.children), if Allowed(n.head.tag) then [Close(n.head.tag)] else [], open);
    assert [n.head.tag][1..] == [] && [Close(n.head.tag)][1..] == [];
  }

  /** A void first match: text beside it is written, though it has no content of its own. */
  lemma VoidMatchLeaks(img: Head)
    requires img.tag == "img" && "text" in img.classes
    ensures var m := Match(Some("text"), None);
            var page := [Element(img, false, []), Text("beside")];
            FirstMatchOfAll(m, page) == Some(page[0]) && Run(m, INITIAL, EventsOfAll(page)).parts == [Shown("beside")]
  {
    var m := Match(Some("text"), None);
    var page := [Element(img, false, []), Text("beside")];
    RunAllSplits(m, INITIAL, page);
    RunVoid(m, INITIAL, page[0]);
    var s := OnStart(m, INITIAL, img);
    assert page[1..] == [Text("beside")];
    RunAllSplits(m, s, page[1..]);
    RunOne(m, s, Data("beside"));
    assert page[1..][1..] == [];
  }
}

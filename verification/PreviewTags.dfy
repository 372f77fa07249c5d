/**
 What the preview makes of each tag, with the tags written out.
 */
module PreviewTags {
  import opened Catalogue
  import opened NoticeFilter

  /** Elements whose whole content is dropped. */
  predicate IsDropped(tag: string) {
    tag in {"button", "embed", "form", "head", "iframe", "noscript", "object", "script", "style"}
  }

  /** Elements that have no content and no end tag. */
  predicate IsEmpty(tag: string) {
    || tag in {"area", "base", "br", "col", "embed", "hr", "img"}
    || tag in {"input", "link", "meta", "param", "source", "track", "wbr"}
  }

  /** Elements that are written with their tags. */
  predicate IsWritten(tag: string) {
    || tag in {"h1", "h2", "h3", "h4", "h5", "h6", "p", "div", "span", "pre", "blockquote", "a", "br"}
    || tag in {"b", "strong", "i", "em", "u", "small", "code", "ul", "ol", "li", "dl", "dt", "dd"}
    || tag in {"table", "thead", "tbody", "tfoot", "tr", "td", "th", "col", "colgroup"}
  }

  /** What is kept of an element: nothing, its tag, its content, or both. */
  lemma KeptIs(h: Head, selfClosed: bool, children: seq<Node>)
    ensures Keep(Element(h, selfClosed, children))
         == if IsDropped(h.tag) then []
            else if IsEmpty(h.tag) then (if h.tag in {"br", "col"} then [Open(h)] else [])
            else if IsWritten(h.tag) then [Open(h)] + KeepAll(children) + [Close(h.tag)]
            else KeepAll(children)
  {
    hide KeepAll;
  }

  lemma TextIsKept(text: string)
    ensures Keep(Text(text)) == [Shown(text)]
  {
  }

  /** Several nodes are kept one after another. */
  lemma {:induction false} KeptInOrder(a: seq<Node>, b: seq<Node>)
    ensures KeepAll(a + b) == KeepAll(a) + KeepAll(b)
    decreases |a|
  {
    hide Keep;
    if a == [] {
      assert a + b == b;
    } else {
      assert (a + b)[1..] == a[1..] + b;
      KeptInOrder(a[1..], b);
    }
  }

  /** A search goes by one class or by the tag. */
  lemma MatchIs(m: Match, h: Head)
    ensures Matches(m, h) <==> m.tag == Some(h.tag) || exists c :: m.cssClass == Some(c) && c in h.classes
  {
  }
}

/**
 Identity keys are text: region, period, title and a URL or hash joined by '|'. A hash key
 always tells titles apart. A URL key does so as long as no bar inside the title is followed
 by what could be a URL; a URL, once normalised, starts with a scheme and a colon.
 */
module IdentityKeys {
  import opened Catalogue
  import opened Components
  import opened CleanupReport

  datatype Label = Label(region: string, period: string, title: string)

  function LabelOf(a: Archive): Label {
    Label(a.region, a.period, a.titleKey)
  }

  function Joined(l: Label, value: string): string {
    l.region + "|" + (l.period + "|" + (l.title + "|" + value))
  }

  lemma KeyIsJoined(kind: string, a: Archive, value: string)
    ensures KeyString(kind, a, value) == kind + "|" + Joined(LabelOf(a), value)
  {
    var tail := a.titleKey + "|" + value;
    assert kind + "|" + a.region + "|" + a.period + "|" + a.titleKey + "|" + value
        == kind + "|" + a.region + "|" + a.period + "|" + tail;
    assert kind + "|" + a.region + "|" + a.period + "|" + tail == kind + "|" + a.region + "|" + (a.period + "|" + tail);
    assert kind + "|" + a.region + "|" + (a.period + "|" + tail)
        == kind + "|" + (a.region + "|" + (a.period + "|" + tail));
  }

  /** A text splits at its first bar in one way only. */
  lemma FirstPiece(x: string, rest: string, y: string, rest': string)
    requires '|' !in x && '|' !in y
    requires x + "|" + rest == y + "|" + rest'
    ensures x == y && rest == rest'
  {
    var s := x + "|" + rest;
    assert s[|x|] == '|' && s[|y|] == '|';
    assert forall i :: 0 <= i < |x| ==> s[i] == x[i] && x[i] != '|';
    assert forall i :: 0 <= i < |y| ==> s[i] == y[i] && y[i] != '|';
    assert s[..|x|] == x && s[..|y|] == y;
    assert s[|x| + 1..] == rest && s[|y| + 1..] == rest';
  }

  // -------------------------------------------------- what a key can hold

  predicate IsSchemeChar(c: char) {
    'a' <= c <= 'z' || '0' <= c <= '9' || c == '+' || c == '-' || c == '.'
  }

  predicate IsScheme(s: string) {
    s != "" && 'a' <= s[0] <= 'z' && forall c :: c in s ==> IsSchemeChar(c)
  }

  /** A scheme and its colon end at position n; on the web two slashes follow. */
  predicate SchemeEnds(v: string, n: int) {
    && 0 < n < |v| && v[n] == ':' && IsScheme(v[..n])
    && (v[..n] in {"http", "https"} ==> n + 2 < |v| && v[n + 1] == v[n + 2] == '/')
  }

  /** How normalisation leaves a URL: with a scheme in front. */
  predicate IsUrl(v: string) {
    exists n :: 0 < n < |v| && SchemeEnds(v, n)
  }

  /** What the database holds: normalised URLs and hexadecimal digests. */
  ghost predicate Formed(db: Store) {
    && (forall a, u :: Active(db, a) && u in Urls(db, a) ==> IsUrl(u))
    && (forall f :: f in db.assets ==> '|' !in db.assets[f].sha)
  }

  /** Region and period hold no bar, and there is a title; titles may hold bars. */
  predicate Clear(l: Label) {
    '|' !in l.region && '|' !in l.period && l.title != ""
  }

  function TitleAndValue(l: Label, v: string): string {
    l.title + "|" + v
  }

  /** Bar i of a text could be the one between a title and a URL. */
  predicate CouldSplit(s: string, i: int) {
    0 < i < |s| && s[i] == '|' && IsUrl(s[i + 1..])
  }

  /** No bar of the title is followed by a URL. */
  predicate Safe(title: string) {
    forall i :: 0 < i < |title| ==> !CouldSplit(title, i)
  }

  /** A bar behind a text does not change whether it starts like a URL. */
  lemma HeadDecides(x: string, rest: string)
    ensures IsUrl(x + "|" + rest) <==> IsUrl(x)
  {
    var v := x + "|" + rest;
    if n :| SchemeEnds(v, n) {
      assert forall k :: 0 <= k < n ==> v[..n][k] in v[..n] && v[k] == v[..n][k];
      assert v[|x|] == '|' && v[..n] == x[..n];
      assert SchemeEnds(x, n);
    }
    if n :| SchemeEnds(x, n) {
      assert v[..n] == x[..n];
      assert SchemeEnds(v, n);
    }
  }

  lemma SameTail(l: Label, v: string, l': Label, v': string)
    requires Clear(l) && Clear(l')
    ensures Joined(l, v) == Joined(l', v') <==>
            l.region == l'.region && l.period == l'.period && TitleAndValue(l, v) == TitleAndValue(l', v')
  {
    if Joined(l, v) == Joined(l', v') {
      FirstPiece(l.region, l.period + "|" + TitleAndValue(l, v), l'.region, l'.period + "|" + TitleAndValue(l', v'));
      FirstPiece(l.period, TitleAndValue(l, v), l'.period, TitleAndValue(l', v'));
    }
  }

  // --------------------------------------------------- what a key determines

  /** A hash key gives back its label and its hash, whatever bars the title holds. */
  lemma HashKeyReadsBack(l: Label, v: string, l': Label, v': string)
    requires Clear(l) && Clear(l') && '|' !in v && '|' !in v' && Joined(l, v) == Joined(l', v')
    ensures l == l' && v == v'
  {
    SameTail(l, v, l', v');
    var s := TitleAndValue(l, v);
    assert s[|l.title|] == '|' && s[|l'.title|] == '|';
    assert forall i :: |l.title| < i < |s| ==> s[i] == v[i - |l.title| - 1];
    assert forall i :: |l'.title| < i < |s| ==> s[i] == v'[i - |l'.title| - 1];
    assert s[..|l.title|] == l.title && s[..|l'.title|] == l'.title;
    assert s[|l.title| + 1..] == v && s[|l'.title| + 1..] == v';
  }

  /**
   A URL key determines its label if and only if one bar of "title|URL" alone is followed
   by a URL, the one that joins the two.
   */
  lemma UrlKeyDeterminesLabel(l: Label, v: string)
    requires Clear(l) && IsUrl(v)
    ensures (forall l', v' :: Clear(l') && IsUrl(v') && Joined(l, v) == Joined(l', v') ==> l' == l)
       <==> (forall i :: CouldSplit(TitleAndValue(l, v), i) ==> i == |l.title|)
  {
    hide IsUrl, Joined;
    var s := TitleAndValue(l, v);
    SplitsThere(l.title, v);
    if i :| CouldSplit(s, i) && i != |l.title| {
      var l', v' := l.(title := s[..i]), s[i + 1..];
      assert s == TitleAndValue(l', v');
      SameTail(l, v, l', v');
      assert Clear(l') && IsUrl(v') && Joined(l, v) == Joined(l', v') && |l'.title| != |l.title|;
    }
    if l', v' :| Clear(l') && IsUrl(v') && Joined(l, v) == Joined(l', v') && l' != l {
      SameTail(l, v, l', v');
      SplitsThere(l'.title, v');
      assert CouldSplit(s, |l'.title|);
    }
  }

  lemma SplitsThere(x: string, rest: string)
    ensures var s := x + "|" + rest; s[|x|] == '|' && s[..|x|] == x && s[|x| + 1..] == rest
  {
  }

  /** Two safe titles never share a URL key. */
  lemma SafeTitlesReadBack(l: Label, v: string, l': Label, v': string)
    requires Clear(l) && Clear(l') && IsUrl(v) && IsUrl(v') && Safe(l.title) && Safe(l'.title)
    requires Joined(l, v) == Joined(l', v')
    ensures l == l' && v == v'
  {
    SameTail(l, v, l', v');
    SplitsThere(l.title, v);
    SplitsThere(l'.title, v');
    if |l.title| < |l'.title| {
      ShorterCutsLonger(l.title, v, l'.title, v');
    } else if |l'.title| < |l.title| {
      ShorterCutsLonger(l'.title, v', l.title, v);
    }
  }

  lemma ShorterCutsLonger(t: string, v: string, t': string, v': string)
    requires t != "" && |t| < |t'| && t + "|" + v == t' + "|" + v' && IsUrl(v)
    ensures !Safe(t')
  {
    var s := t + "|" + v;
    var x := t'[|t| + 1..];
    assert s[|t|] == '|' && t'[|t|] == s[|t|];
    assert v == s[|t| + 1..] == x + "|" + v';
    HeadDecides(x, v');
    assert CouldSplit(t', |t|);
  }

  /**
   Safety of the title is exactly what it takes: a label is told apart from every safe one,
   under all URLs, if and only if it is safe itself.
   */
  lemma SafeTitleExactly(l: Label, v: string)
    requires Clear(l) && IsUrl(v)
    ensures Safe(l.title) <==>
            forall l', w, w' ::
              Clear(l') && Safe(l'.title) && IsUrl(w) && IsUrl(w') && Joined(l, w) == Joined(l', w') ==> l' == l
  {
    if Safe(l.title) {
      forall l', w, w' | Clear(l') && Safe(l'.title) && IsUrl(w) && IsUrl(w') && Joined(l, w) == Joined(l', w')
        ensures l' == l
      {
        SafeTitlesReadBack(l, w, l', w');
      }
    } else {
      var i := FirstCut(l.title);
      var l' := l.(title := l.title[..i]);
      var v' := l.title[i + 1..] + "|" + v;
      HeadDecides(l.title[i + 1..], v);
      assert l.title == l'.title + "|" + l.title[i + 1..];
      assert TitleAndValue(l, v) == TitleAndValue(l', v');
      SameTail(l, v, l', v');
      assert Clear(l') && Safe(l'.title) && IsUrl(v') && Joined(l, v) == Joined(l', v') && l' != l;
    }
  }

  /** Up to its first bar that is followed by a URL, a title is safe. */
  lemma FirstCut(t: string) returns (i: nat)
    requires !Safe(t)
    ensures CouldSplit(t, i) && Safe(t[..i])
  {
    var k :| 0 < k < |t| && CouldSplit(t, k);
    i := 1;
    while !CouldSplit(t, i)
      invariant 0 < i <= k
      invariant forall j :: 0 < j < i ==> !CouldSplit(t, j)
      decreases k - i
    {
      i := i + 1;
    }
    forall j | 0 < j < i
      ensures !CouldSplit(t[..i], j)
    {
      assert t[j + 1..] == t[..i][j + 1..] + "|" + t[i + 1..];
      HeadDecides(t[..i][j + 1..], t[i + 1..]);
      assert t[..i][j] == t[j] && !CouldSplit(t, j);
    }
  }

  // ----------------------------------------------------- groups of archives

  /** All active archives have regions and periods without bars, and safe titles. */
  ghost predicate AllSafe(db: Store) {
    forall a :: Active(db, a) ==>
      var r := db.archives[a];
      '|' !in r.region && '|' !in r.period && Safe(r.titleKey)
  }

  lemma SharersHaveOneLabel(db: Store, a: Id, b: Id)
    requires Formed(db) && AllSafe(db) && Share(KeysOf(db), a, b)
    ensures Active(db, a) && Active(db, b) && LabelOf(db.archives[a]) == LabelOf(db.archives[b])
  {
    hide Urls, Hashes, IsUrl, Safe;
    var k :| k in KeysOf(db)[a] && k in KeysOf(db)[b];
    var x, y := db.archives[a], db.archives[b];
    var kind, v := KeyParts(db, a, k);
    var kind', v' := KeyParts(db, b, k);
    KeyIsJoined(kind, x, v);
    KeyIsJoined(kind', y, v');
    FirstPiece(kind, Joined(LabelOf(x), v), kind', Joined(LabelOf(y), v'));
    if kind == "url" {
      SafeTitlesReadBack(LabelOf(x), v, LabelOf(y), v');
    } else {
      HashKeyReadsBack(LabelOf(x), v, LabelOf(y), v');
    }
  }

  lemma KeyParts(db: Store, a: Id, k: string) returns (kind: string, v: string)
    requires Formed(db) && Active(db, a) && k in IdentityKeys(db, a)
    ensures (kind == "url" && IsUrl(v)) || (kind == "sha" && '|' !in v)
    ensures k == KeyString(kind, db.archives[a], v)
    ensures db.archives[a].region != "" && db.archives[a].period != "" && db.archives[a].titleKey != ""
  {
    hide Urls, KeyString, IsUrl;
    var r := db.archives[a];
    if u :| u in Urls(db, a) && k == KeyString("url", r, u) {
      kind, v := "url", u;
    } else {
      var h :| h in Hashes(db, a) && k == KeyString("sha", r, h);
      kind, v := "sha", h;
    }
  }

  lemma {:induction false} ChainHasOneLabel(db: Store, p: seq<Id>, a: Id, b: Id)
    requires Formed(db) && AllSafe(db) && IsChain(KeysOf(db), p, a, b)
    ensures Active(db, a) && Active(db, b) && LabelOf(db.archives[a]) == LabelOf(db.archives[b])
    decreases |p|
  {
    hide IdentityKeys;
    if |p| > 1 {
      var c := p[|p| - 2];
      assert IsChain(KeysOf(db), p[..|p| - 1], a, c);
      ChainHasOneLabel(db, p[..|p| - 1], a, c);
      assert Share(KeysOf(db), p[|p| - 2], p[|p| - 1]);
      SharersHaveOneLabel(db, c, b);
    }
  }

  /** With safe titles, everything a plan withdraws agrees with what it keeps on region, period and title. */
  lemma WithdrawnAgreesWithKept(db: Store, a: Id)
    requires Keyed(db) && Formed(db) && AllSafe(db) && Active(db, a) && Withdrawn(db, a)
    ensures LabelOf(db.archives[KeptFor(db, a)]) == LabelOf(db.archives[a])
  {
    hide Canonical, Members, IdentityKeys, KeysOf, ActiveOrder;
    PeersExact(db, a, KeptFor(db, a));
    var p :| IsChain(KeysOf(db), p, a, KeptFor(db, a));
    ChainHasOneLabel(db, p, a, KeptFor(db, a));
  }

  lemma IsOnTheWeb(rest: string)
    ensures IsUrl("https://" + rest)
  {
    var v := "https://" + rest;
    assert v[..5] == "https" && IsScheme("https");
    assert SchemeEnds(v, 5);
  }

  /** A title with a URL in it and a URL with a bar in its path: one key for two archives. */
  lemma UrlInTitleCollides(a: Archive, b: Archive)
    requires a.region == b.region == "110000" && a.period == b.period == "2025-12"
    requires a.titleKey == "notice|https://x/" && b.titleKey == "notice"
    ensures IsUrl("https://u") && IsUrl("https://x/|https://u") && Safe(b.titleKey) && !Safe(a.titleKey)
    ensures KeyString("url", a, "https://u") == KeyString("url", b, "https://x/|https://u")
  {
    hide IsUrl;
    IsOnTheWeb("u");
    IsOnTheWeb("x/|https://u");
    IsOnTheWeb("x/");
    assert "https://" + "u" == "https://u" && "https://" + "x/|https://u" == "https://x/|https://u";
    assert a.titleKey[6] == '|' && a.titleKey[7..] == "https://" + "x/";
    assert CouldSplit(a.titleKey, 6);
    assert "notice|https://x/" + "|" + "https://u" == "notice" + "|" + "https://x/|https://u";
    KeyIsJoined("url", a, "https://u");
    KeyIsJoined("url", b, "https://x/|https://u");
  }
}

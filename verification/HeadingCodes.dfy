/**
 Which headings count, what they print and where they leave the reader; and what the caller
 makes of a code. Said heading by heading, with the codes written out.
 */
module HeadingCodes {
  import opened Catalogue
  import opened SectionNumbers

  /** A heading counts if its number can be read, its look-ahead holds, and it has something to stand under. */
  predicate HeadingCounts(s: State, t: Token) {
    match t
    case Chapter(number, titled, inContents) => number != None && titled && !inContents
    case Section(number, leadsToWork) => number != None && leadsToWork
    case Subsection(_, leadsDown) => s.section != None && leadsDown
    case SubSubsection(_, leadsToWork, swallowed) => s.section != None && leadsToWork && (s.sub != None || swallowed)
    case BareTitle(leadsToWork) => s.section != None && leadsToWork
    case OtherLine => false
  }

  /** A number in decimal digits; "X" for a missing one. */
  function Text(x: Option<nat>): (text: string)
    ensures if x == None then text == "X" else IsDigits(text) && ToNat(text) == x.value
  {
    if x.Some? then DecimalReadsBack(x.value); Decimal(x.value) else "X"
  }

  /** A code of the volume. */
  function Code(volume: string, parts: seq<Option<nat>>): (code: seq<string>)
    ensures |code| == |parts| + 1 && code[0] == volume
    ensures forall i :: 0 <= i < |parts| ==> code[i + 1] == Text(parts[i])
  {
    [volume] + seq(|parts|, i requires 0 <= i < |parts| => Text(parts[i]))
  }

  function SubNumber(x: Option<Sub>): Option<nat> {
    match x
    case Some(Number(n)) => Some(n)
    case _ => None
  }

  /** What a heading prints, from the layers it stands under. */
  function CodesPrinted(volume: string, s: State, t: Token): seq<seq<string>> {
    if !HeadingCounts(s, t) then []
    else
      match t
      case Chapter(number, _, _) => [Code(volume, [number])]
      case Section(number, _) =>
        if s.chapter == None then [Code(volume, [number])] else [Code(volume, [s.chapter, number])]
      case Subsection(value, _) => [Code(volume, [s.chapter, s.section, Some(value)])]
      case BareTitle(_) => [Code(volume, [s.chapter, s.section, None])]
      case SubSubsection(number, _, _) =>
        if s.sub == None then
          [Code(volume, [s.chapter, s.section, None]), Code(volume, [s.chapter, s.section, None, None])]
        else if SubNumber(s.sub) == None then [Code(volume, [s.chapter, s.section, None, None])]
        else [Code(volume, [s.chapter, s.section, SubNumber(s.sub), number])]
      case OtherLine => []
  }

  /** Where a heading leaves the reader: layers below its own are forgotten. */
  function LayersAfter(s: State, t: Token): State {
    if !HeadingCounts(s, t) then s
    else
      match t
      case Chapter(number, _, _) => State(number, None, None)
      case Section(number, _) =>
        if s.chapter == None then State(number, None, None) else State(s.chapter, number, None)
      case Subsection(value, _) => State(s.chapter, s.section, Some(Number(value)))
      case BareTitle(_) => State(s.chapter, s.section, Some(Missing))
      case SubSubsection(_, _, _) => State(s.chapter, s.section, if s.sub == None then Some(Missing) else s.sub)
      case OtherLine => s
  }

  lemma HeadingIs(volume: string, s: State, t: Token)
    requires Layered(s)
    ensures Step(volume, s, t) == Emission(LayersAfter(s, t), CodesPrinted(volume, s, t))
  {
    hide *;
    match t {
      case Chapter(_, _, _) => ChapterIs(volume, s, t);
      case Section(_, _) => SectionIs(volume, s, t);
      case Subsection(_, _) => SubsectionIs(volume, s, t);
      case SubSubsection(_, _, _) => SubSubsectionIs(volume, s, t);
      case BareTitle(_) => SubsectionIs(volume, s, t);
      case OtherLine => ChapterIs(volume, s, t);
    }
  }

  lemma ChapterIs(volume: string, s: State, t: Token)
    requires (t.Chapter? || t.OtherLine?) && Layered(s)
    ensures Step(volume, s, t) == Emission(LayersAfter(s, t), CodesPrinted(volume, s, t))
  {
    hide Code, Text;
    if t.Chapter? {
      CodeIs(volume, [t.number]);
    }
  }

  lemma SectionIs(volume: string, s: State, t: Token)
    requires t.Section? && Layered(s)
    ensures Step(volume, s, t) == Emission(LayersAfter(s, t), CodesPrinted(volume, s, t))
  {
    hide Code, Text;
    CodeIs(volume, [t.number]);
    CodeIs(volume, [s.chapter, t.number]);
  }

  lemma SubsectionIs(volume: string, s: State, t: Token)
    requires (t.Subsection? || t.BareTitle?) && Layered(s)
    ensures Step(volume, s, t) == Emission(LayersAfter(s, t), CodesPrinted(volume, s, t))
  {
    hide Code, Text, Below;
    if s.section.Some? {
      UnderSection(volume, s, if t.Subsection? then Some(t.value) else None);
    }
  }

  lemma UnderSection(volume: string, s: State, x: Option<nat>)
    requires s.chapter.Some? && s.section.Some?
    ensures Below(volume, s, [Text(x)]) == Code(volume, [s.chapter, s.section, x])
    ensures Text(x) == if x.Some? then Decimal(x.value) else MISSING
  {
    CodeIs(volume, [s.chapter, s.section, x]);
    TextIs(s.chapter);
    TextIs(s.section);
    TextIs(x);
    hide Code, Text;
  }

  lemma UnderSubsection(volume: string, s: State, x: Option<nat>, y: Option<nat>)
    requires s.chapter.Some? && s.section.Some?
    ensures Below(volume, s, [Text(x), Text(y)]) == Code(volume, [s.chapter, s.section, x, y])
    ensures Text(x) == if x.Some? then Decimal(x.value) else MISSING
    ensures Text(y) == if y.Some? then Decimal(y.value) else MISSING
  {
    CodeIs(volume, [s.chapter, s.section, x, y]);
    TextIs(s.chapter);
    TextIs(s.section);
    TextIs(x);
    TextIs(y);
    hide Code, Text;
  }

  lemma SubSubsectionIs(volume: string, s: State, t: Token)
    requires t.SubSubsection? && Layered(s)
    ensures Step(volume, s, t) == Emission(LayersAfter(s, t), CodesPrinted(volume, s, t))
  {
    hide Code, Text, Below;
    if s.section.Some? {
      UnderSection(volume, s, None);
      UnderSubsection(volume, s, None, None);
      UnderSubsection(volume, s, SubNumber(s.sub), t.number);
    }
  }

  lemma TextIs(x: Option<nat>)
    ensures Text(x) == if x.Some? then Decimal(x.value) else MISSING
  {
  }

  /** A code of up to four parts, written out. */
  lemma CodeIs(volume: string, parts: seq<Option<nat>>)
    ensures |parts| == 1 ==> Code(volume, parts) == [volume, Text(parts[0])]
    ensures |parts| == 2 ==> Code(volume, parts) == [volume, Text(parts[0]), Text(parts[1])]
    ensures |parts| == 3 ==> Code(volume, parts) == [volume, Text(parts[0]), Text(parts[1]), Text(parts[2])]
    ensures |parts| == 4 ==>
              Code(volume, parts) == [volume, Text(parts[0]), Text(parts[1]), Text(parts[2]), Text(parts[3])]
    ensures parts != [] && parts[0].Some? ==> Text(parts[0]) == Decimal(parts[0].value)
    ensures |parts| > 1 && parts[1].Some? ==> Text(parts[1]) == Decimal(parts[1].value)
  {
  }

  /** What counts as a number. */
  lemma NumbersAre(s: string)
    ensures IsDigits(s) <==> |s| > 0 && forall i :: 0 <= i < |s| ==> '0' <= s[i] <= '9'
  {
    if IsDigits(s) {
      forall i | 0 <= i < |s|
        ensures '0' <= s[i] <= '9'
      {
        assert IsDigit(s[i]);
      }
    }
    assert forall c :: c in s <==> exists i :: 0 <= i < |s| && s[i] == c;
  }

  /** What the caller makes of a code, by its number of parts; it fails where a number should stand and does not. */
  lemma FollowIs(volume: string, s: State, code: string)
    ensures var parts, r := Split(code), Follow(volume, s, code);
            && (r == None <==>
                  || (|parts| == 2 && code != volume && !IsDigits(parts[1]))
                  || (|parts| == 3 && !IsDigits(parts[2])))
            && (r.Some? && |parts| == 2 && code != volume ==> r.value == State(Some(ToNat(parts[1])), None, None))
            && (r.Some? && |parts| == 3 ==> r.value == State(s.chapter, Some(ToNat(parts[2])), None))
            && (r.Some? && |parts| == 4 ==>
                  && r.value.chapter == s.chapter && r.value.section == s.section
                  && r.value.sub == Some(if IsDigits(parts[3]) then Number(ToNat(parts[3])) else Missing))
            && (|parts| == 1 || |parts| > 4 || (|parts| == 2 && code == volume) ==> r == Some(s))
  {
  }

  /** `sel` names the headings that become rows, in order, and `rows` lists their codes. */
  ghost predicate RowsOf(f: Filters, seen: set<string>, entries: seq<Entry>, sel: seq<nat>, rows: seq<string>) {
    && |sel| == |rows| && (forall k, l :: 0 <= k < l < |sel| ==> sel[k] < sel[l])
    && (forall k :: 0 <= k < |sel| ==> BecomesRow(f, seen, entries, sel[k]) && rows[k] == entries[sel[k]].code)
    && (forall n: nat :: BecomesRow(f, seen, entries, n) ==> n in sel)
  }

  /** Which headings become rows: not one met before, if repeats are dropped, and not a dotted one. */
  lemma {:induction false} RowsAre(f: Filters, seen: set<string>, entries: seq<Entry>) returns (sel: seq<nat>)
    ensures RowsOf(f, seen, entries, sel, Passing(f, seen, entries))
  {
    if entries == [] {
      sel := [];
    } else {
      hide RowsOf, BecomesRow, Passes;
      var n := |entries| - 1;
      var front := RowsAre(f, seen, entries[..n]);
      PassesIs(f, seen, entries, n);
      sel := if BecomesRow(f, seen, entries, n) then front + [n] else front;
      RowsNext(f, seen, entries, front, Passing(f, seen, entries[..n]));
    }
  }

  lemma RowsNext(f: Filters, seen: set<string>, entries: seq<Entry>, front: seq<nat>, rows: seq<string>)
    requires entries != [] && RowsOf(f, seen, entries[..|entries| - 1], front, rows)
    ensures var n := |entries| - 1;
            if BecomesRow(f, seen, entries, n) then RowsOf(f, seen, entries, front + [n], rows + [entries[n].code])
            else RowsOf(f, seen, entries, front, rows)
  {
    var n := |entries| - 1;
    forall m: nat | m < n
      ensures BecomesRow(f, seen, entries[..n], m) <==> BecomesRow(f, seen, entries, m)
    {
      SameBefore(f, seen, entries, n, m);
    }
    RowsWithin(f, seen, entries[..n], front, rows);
    RowsLast(f, seen, entries, n);
    hide BecomesRow;
    assert (front + [n])[|front|] == n;
  }

  lemma RowsWithin(f: Filters, seen: set<string>, entries: seq<Entry>, sel: seq<nat>, rows: seq<string>)
    requires RowsOf(f, seen, entries, sel, rows)
    ensures forall k :: 0 <= k < |sel| ==> sel[k] < |entries|
  {
  }

  lemma RowsLast(f: Filters, seen: set<string>, entries: seq<Entry>, n: nat)
    requires n + 1 == |entries|
    ensures forall m :: BecomesRow(f, seen, entries, m) ==> 0 <= m <= n
    ensures forall m :: BecomesRow(f, seen, entries[..n], m) ==> 0 <= m < n
  {
  }

  ghost predicate BecomesRow(f: Filters, seen: set<string>, entries: seq<Entry>, n: int) {
    && 0 <= n < |entries|
    && (f.noRepeats ==>
          entries[n].code !in seen && forall m :: 0 <= m < n ==> entries[m].code != entries[n].code)
    && (f.noDotted ==> !entries[n].dotted)
  }

  lemma SameBefore(f: Filters, seen: set<string>, entries: seq<Entry>, n: nat, m: nat)
    requires m < n <= |entries|
    ensures BecomesRow(f, seen, entries[..n], m) <==> BecomesRow(f, seen, entries, m)
  {
    assert forall j :: 0 <= j < n ==> entries[..n][j] == entries[j];
  }

  lemma PassesIs(f: Filters, seen: set<string>, entries: seq<Entry>, n: nat)
    requires n < |entries|
    ensures Passes(f, seen, entries[..n], entries[n]) <==> BecomesRow(f, seen, entries, n)
  {
    var codes := CodesIn(entries[..n]);
    assert forall j :: 0 <= j < n ==> codes[j] == entries[j].code;
  }
}

/**
 Chinese section numbering. While scanning headings the extractor keeps the current
 chapter, section and subsection; the caller, which calls it once per stretch of text
 between tables, keeps no such state and rebuilds it from the printed codes alone.
 Headings come as tokens: what the line's pattern matched, and whether its look-ahead holds.
 */
module SectionNumbers {
  import opened Catalogue

  datatype Sub = Number(n: nat) | Missing

  datatype State = State(chapter: Option<nat>, section: Option<nat>, sub: Option<Sub>)

  const INITIAL := State(None, None, None)

  datatype Token =
    | Chapter(number: Option<nat>, titled: bool, inContents: bool)
    | Section(number: Option<nat>, leadsToWork: bool)
    | Subsection(value: nat, leadsDown: bool)
    | SubSubsection(number: Option<nat>, leadsToWork: bool, swallowedTitle: bool)
    | BareTitle(leadsToWork: bool)
    | OtherLine

  // ------------------------------------------------------------- decimals

  function DigitChar(d: nat): char
    requires d < 10
  {
    ('0' as int + d) as char
  }

  predicate IsDigit(c: char) {
    '0' <= c <= '9'
  }

  function Decimal(n: nat): (s: string)
    ensures s != "" && forall c :: c in s ==> IsDigit(c)
  {
    (if n < 10 then "" else Decimal(n / 10)) + [DigitChar(n % 10)]
  }

  predicate IsDigits(s: string) {
    s != "" && forall c :: c in s ==> IsDigit(c)
  }

  function DigitValue(c: char): nat
    requires IsDigit(c)
  {
    c as int - '0' as int
  }

  function ToNat(s: string): nat
    requires forall c :: c in s ==> IsDigit(c)
  {
    if s == "" then 0 else ToNat(s[..|s| - 1]) * 10 + DigitValue(s[|s| - 1])
  }

  lemma {:induction false} DecimalReadsBack(n: nat)
    ensures IsDigits(Decimal(n)) && ToNat(Decimal(n)) == n
  {
    var s := Decimal(n);
    if n < 10 {
      assert s[..0] == "";
    } else {
      DecimalReadsBack(n / 10);
      assert s[..|s| - 1] == Decimal(n / 10);
    }
  }

  // ---------------------------------------------------- printing and splitting

  const MISSING := "X"

  function SubText(x: Sub): string {
    match x
    case Number(n) => Decimal(n)
    case Missing => MISSING
  }

  /** `".".join(parts)`. */
  function Join(parts: seq<string>): string
    requires parts != []
  {
    if |parts| == 1 then parts[0] else Join(parts[..|parts| - 1]) + "." + parts[|parts| - 1]
  }

  /** `code.split(".")`. */
  function Split(code: string): (parts: seq<string>)
    ensures parts != []
  {
    if code == "" then [""]
    else
      var front := Split(code[..|code| - 1]);
      if code[|code| - 1] == '.' then front + [""]
      else front[|front| - 1 := front[|front| - 1] + [code[|code| - 1]]]
  }

  lemma {:induction false} SplitTail(code: string, part: string)
    requires '.' !in part
    ensures Split(code + "." + part) == Split(code) + [part]
    decreases |part|
  {
    var whole := code + "." + part;
    if part == "" {
      assert whole[..|whole| - 1] == code;
    } else {
      SplitTail(code, part[..|part| - 1]);
      assert whole[..|whole| - 1] == code + "." + part[..|part| - 1];
      assert part[..|part| - 1] + [part[|part| - 1]] == part;
      assert (Split(code) + [part[..|part| - 1]])[|Split(code)| := part] == Split(code) + [part];
    }
  }

  lemma {:induction false} SplitPlain(part: string)
    requires '.' !in part
    ensures Split(part) == [part]
  {
    if part != "" {
      SplitPlain(part[..|part| - 1]);
      assert part[..|part| - 1] + [part[|part| - 1]] == part;
    }
  }

  /** Splitting a printed code gives its parts back. */
  lemma {:induction false} SplitJoin(parts: seq<string>)
    requires parts != [] && forall p :: p in parts ==> '.' !in p
    ensures Split(Join(parts)) == parts
  {
    if |parts| == 1 {
      SplitPlain(parts[0]);
    } else {
      var front := parts[..|parts| - 1];
      SplitJoin(front);
      SplitTail(Join(front), parts[|parts| - 1]);
    }
  }

  // ------------------------------------------------------------- extractor

  // The state after a heading and the codes, as their parts, that it prints.
  datatype Emission = Emission(state: State, codes: seq<seq<string>>)

  /** The codes below the current section. */
  function Below(volume: string, s: State, tail: seq<string>): seq<string>
    requires s.chapter.Some? && s.section.Some?
  {
    [volume, Decimal(s.chapter.value), Decimal(s.section.value)] + tail
  }

  predicate Layered(s: State) {
    (s.sub.Some? ==> s.section.Some?) && (s.section.Some? ==> s.chapter.Some?)
  }

  /** One heading. */
  function Step(volume: string, s: State, t: Token): Emission
    requires Layered(s)
  {
    match t
    case Chapter(number, titled, inContents) =>
      if number.Some? && titled && !inContents then
        Emission(State(number, None, None), [[volume, Decimal(number.value)]])
      else Emission(s, [])
    case Section(number, leadsToWork) =>
      if number.None? || !leadsToWork then Emission(s, [])
      else if s.chapter.None? then Emission(s.(chapter := number), [[volume, Decimal(number.value)]])
      else Emission(s.(section := number, sub := None),
                    [[volume, Decimal(s.chapter.value), Decimal(number.value)]])
    case Subsection(value, leadsDown) =>
      if s.section.Some? && leadsDown then
        Emission(s.(sub := Some(Number(value))), [Below(volume, s, [Decimal(value)])])
      else Emission(s, [])
    case SubSubsection(number, leadsToWork, swallowedTitle) =>
      if !leadsToWork || s.section.None? || (s.sub.None? && !swallowedTitle) then Emission(s, [])
      else
        var s' := if s.sub.None? then s.(sub := Some(Missing)) else s;
        var last := if s'.sub.value == Missing || number.None? then MISSING else Decimal(number.value);
        Emission(s', (if s.sub.None? then [Below(volume, s, [MISSING])] else [])
                     + [Below(volume, s, [SubText(s'.sub.value), last])])
    case BareTitle(leadsToWork) =>
      if s.section.Some? && leadsToWork then
        Emission(s.(sub := Some(Missing)), [Below(volume, s, [MISSING])])
      else Emission(s, [])
    case OtherLine => Emission(s, [])
  }

  function Steps(volume: string, s: State, tokens: seq<Token>): (e: Emission)
    requires Layered(s)
    ensures Layered(e.state)
  {
    if tokens == [] then Emission(s, [])
    else
      var before := Steps(volume, s, tokens[..|tokens| - 1]);
      var last := Step(volume, before.state, tokens[|tokens| - 1]);
      Emission(last.state, before.codes + last.codes)
  }

  function Printed(codes: seq<seq<string>>): (r: seq<string>)
    requires forall i :: 0 <= i < |codes| ==> codes[i] != []
    ensures |r| == |codes| && forall i :: 0 <= i < |codes| ==> r[i] == Join(codes[i])
  {
    seq(|codes|, i requires 0 <= i < |codes| => Join(codes[i]))
  }

  /** `_extract_sections_chinese`: one pass over the lines, with the state in local variables. */
  method ExtractSections(volume: string, tokens: seq<Token>, start: State) returns (codes: seq<seq<string>>, end: State)
    requires Layered(start)
    ensures Emission(end, codes) == Steps(volume, start, tokens)
  {
    var chapter, section, sub := start.chapter, start.section, start.sub;
    codes := [];
    var i := 0;
    while i < |tokens|
      invariant 0 <= i <= |tokens|
      invariant Layered(State(chapter, section, sub))
      invariant Emission(State(chapter, section, sub), codes) == Steps(volume, start, tokens[..i])
    {
      assert tokens[..i + 1][..i] == tokens[..i];
      ghost var s, codes0 := State(chapter, section, sub), codes;
      match tokens[i] {
        case Chapter(number, titled, inContents) =>
          if number.Some? && titled && !inContents {
            codes := codes + [[volume, Decimal(number.value)]];
            chapter, section, sub := number, None, None;
          }
        case Section(number, leadsToWork) =>
          if number.Some? && leadsToWork {
            if chapter.None? {
              codes := codes + [[volume, Decimal(number.value)]];
              chapter := number;
            } else {
              codes := codes + [[volume, Decimal(chapter.value), Decimal(number.value)]];
              section, sub := number, None;
            }
          }
        case Subsection(value, leadsDown) =>
          if section.Some? && leadsDown {
            codes := codes + [[volume, Decimal(chapter.value), Decimal(section.value)] + [Decimal(value)]];
            sub := Some(Number(value));
          }
        case SubSubsection(number, leadsToWork, swallowedTitle) =>
          if leadsToWork && section.Some? && (sub.Some? || swallowedTitle) {
            var base := [volume, Decimal(chapter.value), Decimal(section.value)];
            if sub.None? {
              codes := codes + [base + [MISSING]];
              sub := Some(Missing);
            }
            var last := if sub.value == Missing || number.None? then MISSING else Decimal(number.value);
            codes := codes + [base + [SubText(sub.value), last]];
          }
        case BareTitle(leadsToWork) =>
          if section.Some? && leadsToWork {
            codes := codes + [[volume, Decimal(chapter.value), Decimal(section.value)] + [MISSING]];
            sub := Some(Missing);
          }
        case OtherLine =>
      }
      assert Step(volume, s, tokens[i]).state == State(chapter, section, sub);
      assert codes0 + Step(volume, s, tokens[i]).codes == codes;
      i := i + 1;
    }
    assert tokens[..i] == tokens;
    end := State(chapter, section, sub);
  }

  // ---------------------------------------------------------- the caller

  /** What the caller makes of one printed code; `None` where `int` would raise. */
  function Follow(volume: string, s: State, code: string): Option<State> {
    var parts := Split(code);
    if |parts| == 2 && code != volume then
      if IsDigits(parts[1]) then Some(State(Some(ToNat(parts[1])), None, None)) else None
    else if |parts| == 3 then
      if IsDigits(parts[2]) then Some(s.(section := Some(ToNat(parts[2])), sub := None)) else None
    else if |parts| == 4 then
      Some(s.(sub := Some(if IsDigits(parts[3]) then Number(ToNat(parts[3])) else Missing)))
    else Some(s)
  }

  function FollowAll(volume: string, s: State, codes: seq<string>): Option<State> {
    if codes == [] then Some(s)
    else
      var before := FollowAll(volume, s, codes[..|codes| - 1]);
      if before.None? then None else Follow(volume, before.value, codes[|codes| - 1])
  }

  // A heading as the caller gets it; `dotted` names look like entries of a table of contents.
  datatype Entry = Entry(code: string, dotted: bool)

  // Two profiles leave out headings whose code has come before, or dotted ones.
  datatype Filters = Filters(noRepeats: bool, noDotted: bool)

  function CodesIn(entries: seq<Entry>): (codes: seq<string>)
    ensures |codes| == |entries| && forall i :: 0 <= i < |codes| ==> codes[i] == entries[i].code
  {
    seq(|entries|, i requires 0 <= i < |entries| => entries[i].code)
  }

  predicate Passes(f: Filters, seen: set<string>, before: seq<Entry>, e: Entry) {
    !(f.noRepeats && (e.code in seen || e.code in CodesIn(before))) && !(f.noDotted && e.dotted)
  }

  /** The codes that become rows and that the caller follows. */
  function Passing(f: Filters, seen: set<string>, entries: seq<Entry>): seq<string> {
    if entries == [] then []
    else
      var front, e := entries[..|entries| - 1], entries[|entries| - 1];
      Passing(f, seen, front) + if Passes(f, seen, front, e) then [e.code] else []
  }

  /** Without filters the caller follows every code. */
  lemma {:induction false} AllPass(seen: set<string>, entries: seq<Entry>)
    ensures Passing(Filters(false, false), seen, entries) == CodesIn(entries)
  {
    if entries == [] {
    } else {
      AllPass(seen, entries[..|entries| - 1]);
      assert CodesIn(entries) == CodesIn(entries[..|entries| - 1]) + [entries[|entries| - 1].code];
    }
  }

  /** The caller's loop over the headings of one stretch of text. */
  method RebuildState(volume: string, f: Filters, seen0: set<string>, start: State, entries: seq<Entry>)
    returns (r: Option<State>, rows: seq<string>, seen: set<string>)
    ensures r == FollowAll(volume, start, Passing(f, seen0, entries))
    ensures r.Some? ==> rows == Passing(f, seen0, entries)
    ensures r.Some? && f.noRepeats ==> seen == seen0 + Seen(entries)
  {
    hide Follow, FollowAll, Passing, CodesIn, Seen;
    NothingYet(volume, f, seen0, start);
    var s := start;
    rows, seen := [], seen0;
    var i := 0;
    assert entries[..0] == [];
    while i < |entries|
      invariant 0 <= i <= |entries|
      invariant rows == Passing(f, seen0, entries[..i]) && FollowAll(volume, start, rows) == Some(s)
      invariant f.noRepeats ==> seen == seen0 + Seen(entries[..i])
    {
      var e := entries[i];
      OneMorePasses(f, seen0, entries, i);
      i := i + 1;
      if f.noRepeats {
        if e.code in seen {
          continue;
        }
        seen := seen + {e.code};
      }
      if f.noDotted && e.dotted {
        continue;
      }
      var next := Follow(volume, s, e.code);
      FollowOneMore(volume, start, rows, e.code);
      rows := rows + [e.code];
      if next.None? {
        StillNone(volume, f, seen0, start, entries, i);
        return None, rows, seen;
      }
      s := next.value;
    }
    assert entries[..i] == entries;
    return Some(s), rows, seen;
  }

  function Seen(entries: seq<Entry>): set<string> {
    set e | e in entries :: e.code
  }

  lemma NothingYet(volume: string, f: Filters, seen: set<string>, s: State)
    ensures Passing(f, seen, []) == [] && FollowAll(volume, s, []) == Some(s) && Seen([]) == {}
  {
  }

  lemma OneMorePasses(f: Filters, seen: set<string>, entries: seq<Entry>, i: nat)
    requires i < |entries|
    ensures var e := entries[i];
            && Passing(f, seen, entries[..i + 1])
               == Passing(f, seen, entries[..i]) + (if Passes(f, seen, entries[..i], e) then [e.code] else [])
            && Seen(entries[..i + 1]) == Seen(entries[..i]) + {e.code}
            && (e.code in CodesIn(entries[..i]) <==> e.code in Seen(entries[..i]))
  {
    hide Passes;
    assert entries[..i + 1] == entries[..i] + [entries[i]];
    SeenCodes(entries[..i], entries[i].code);
  }

  lemma SeenCodes(entries: seq<Entry>, code: string)
    ensures code in CodesIn(entries) <==> code in Seen(entries)
  {
    if code in CodesIn(entries) {
      var i :| 0 <= i < |entries| && CodesIn(entries)[i] == code;
      assert entries[i] in entries;
    }
    if e :| e in entries && e.code == code {
      var i :| 0 <= i < |entries| && entries[i] == e;
      assert CodesIn(entries)[i] == code;
    }
  }

  lemma FollowOneMore(volume: string, s: State, codes: seq<string>, code: string)
    ensures FollowAll(volume, s, codes + [code]) ==
            if FollowAll(volume, s, codes).None? then None else Follow(volume, FollowAll(volume, s, codes).value, code)
  {
    assert (codes + [code])[..|codes|] == codes;
  }

  /** Once a code has failed, nothing that passes later mends it. */
  lemma {:induction false} StillNone(
      volume: string, f: Filters, seen: set<string>, s: State, entries: seq<Entry>, i: nat)
    requires i <= |entries| && FollowAll(volume, s, Passing(f, seen, entries[..i])).None?
    ensures FollowAll(volume, s, Passing(f, seen, entries)).None?
    decreases |entries| - i
  {
    hide Follow, Passes;
    if i == |entries| {
      assert entries[..i] == entries;
    } else {
      assert entries[..i + 1][..i] == entries[..i];
      var codes, e := Passing(f, seen, entries[..i]), entries[i];
      FollowOneMore(volume, s, codes, e.code);
      assert Passing(f, seen, entries[..i + 1]) == codes + if Passes(f, seen, entries[..i], e) then [e.code] else [];
      assert codes + [] == codes;
      StillNone(volume, f, seen, s, entries, i + 1);
    }
  }

  lemma {:induction false} FollowAllConcat(volume: string, s: State, a: seq<string>, b: seq<string>)
    ensures FollowAll(volume, s, a + b) ==
            if FollowAll(volume, s, a).None? then None else FollowAll(volume, FollowAll(volume, s, a).value, b)
  {
    if b == [] {
      assert a + b == a;
    } else {
      FollowAllConcat(volume, s, a, b[..|b| - 1]);
      assert (a + b)[..|a + b| - 1] == a + b[..|b| - 1];
    }
  }

  // ------------------------------------------------------------- theorems

  /** Every printed code is made of parts without dots, the first being the volume. */
  ghost predicate CodeOk(volume: string, c: seq<string>) {
    2 <= |c| <= 5 && c[0] == volume && forall p :: p in c ==> '.' !in p
  }

  ghost predicate AllOk(volume: string, codes: seq<seq<string>>) {
    forall i :: 0 <= i < |codes| ==> CodeOk(volume, codes[i])
  }

  lemma StepCodesOk(volume: string, s: State, t: Token)
    requires Layered(s) && '.' !in volume
    ensures AllOk(volume, Step(volume, s, t).codes)
  {
    hide Decimal;
    forall n
      ensures '.' !in Decimal(n)
    {
    }
  }

  lemma {:induction false} CodesOk(volume: string, s: State, tokens: seq<Token>)
    requires Layered(s) && '.' !in volume
    ensures AllOk(volume, Steps(volume, s, tokens).codes)
  {
    if tokens == [] {
    } else {
      CodesOk(volume, s, tokens[..|tokens| - 1]);
      StepCodesOk(volume, Steps(volume, s, tokens[..|tokens| - 1]).state, tokens[|tokens| - 1]);
    }
  }

  /** The caller reads a code's parts and numbers back. */
  lemma FollowCode(volume: string, c: seq<string>)
    requires '.' !in volume && CodeOk(volume, c)
    ensures Split(Join(c)) == c && (|c| == 2 ==> Join(c) != volume)
  {
    SplitJoin(c);
    SplitPlain(volume);
  }

  lemma StepIsFollowed(volume: string, s: State, t: Token)
    requires Layered(s) && '.' !in volume
    ensures AllOk(volume, Step(volume, s, t).codes)
    ensures FollowAll(volume, s, Printed(Step(volume, s, t).codes)) == Some(Step(volume, s, t).state)
  {
    hide Split, Join, Decimal, ToNat;
    StepCodesOk(volume, s, t);
    var e := Step(volume, s, t);
    forall i | 0 <= i < |e.codes|
      ensures Split(Join(e.codes[i])) == e.codes[i] && (|e.codes[i]| == 2 ==> Join(e.codes[i]) != volume)
    {
      FollowCode(volume, e.codes[i]);
    }
    forall n
      ensures IsDigits(Decimal(n)) && ToNat(Decimal(n)) == n
    {
      DecimalReadsBack(n);
    }
    assert MISSING[0] in MISSING && MISSING[0] == 'X';
    if |e.codes| == 0 {
      assert Printed(e.codes) == [];
    } else if |e.codes| == 1 {
      assert Printed(e.codes)[..0] == [];
    } else {
      var p := Printed(e.codes);
      assert p[..1] == [Join(e.codes[0])] && p[..1][..0] == [];
      assert FollowAll(volume, s, p[..1]) == Follow(volume, s, Join(e.codes[0]));
    }
  }

  /**
   State survives printing: following the printed codes leads to exactly the state the
   extractor ended in, and no code makes the caller fail.
   */
  lemma {:induction false} StateSurvivesPrinting(volume: string, s: State, tokens: seq<Token>)
    requires Layered(s) && '.' !in volume
    ensures AllOk(volume, Steps(volume, s, tokens).codes)
    ensures FollowAll(volume, s, Printed(Steps(volume, s, tokens).codes)) == Some(Steps(volume, s, tokens).state)
  {
    CodesOk(volume, s, tokens);
    if tokens == [] {
    } else {
      hide Step, Follow, Join, Split, FollowAll, CodeOk;
      var front := tokens[..|tokens| - 1];
      StateSurvivesPrinting(volume, s, front);
      var before := Steps(volume, s, front);
      var last := Step(volume, before.state, tokens[|tokens| - 1]);
      StepIsFollowed(volume, before.state, tokens[|tokens| - 1]);
      FollowPrinted(volume, s, before.codes, last.codes);
    }
  }

  lemma FollowPrinted(volume: string, s: State, a: seq<seq<string>>, b: seq<seq<string>>)
    requires AllOk(volume, a) && AllOk(volume, b)
    ensures AllOk(volume, a + b)
    ensures FollowAll(volume, s, Printed(a + b)) ==
            var first := FollowAll(volume, s, Printed(a));
            if first.None? then None else FollowAll(volume, first.value, Printed(b))
  {
    hide Follow, Join;
    FollowAllConcat(volume, s, Printed(a), Printed(b));
    assert Printed(a + b) == Printed(a) + Printed(b);
  }

  lemma {:induction false} StepsConcat(volume: string, s: State, a: seq<Token>, b: seq<Token>)
    requires Layered(s)
    ensures var first := Steps(volume, s, a);
            var second := Steps(volume, first.state, b);
            Steps(volume, s, a + b) == Emission(second.state, first.codes + second.codes)
  {
    hide Step, Layered;
    if b == [] {
      assert a + b == a;
    } else {
      var front, t := b[..|b| - 1], b[|b| - 1];
      assert b == front + [t] && a + b == a + front + [t];
      hide *;
      StepsConcat(volume, s, a, front);
      StepsMore(volume, s, a + front, t);
      StepsMore(volume, Steps(volume, s, a).state, front, t);
    }
  }

  lemma StepsMore(volume: string, s: State, tokens: seq<Token>, t: Token)
    requires Layered(s)
    ensures var before := Steps(volume, s, tokens);
            var last := Step(volume, before.state, t);
            Steps(volume, s, tokens + [t]) == Emission(last.state, before.codes + last.codes)
  {
    hide Step, Layered;
    assert (tokens + [t])[..|tokens|] == tokens;
  }

  /** A document cut at its tables: each stretch starts from the state rebuilt so far. */
  function Stretches(volume: string, s: State, stretches: seq<seq<Token>>): Option<Emission>
    requires Layered(s) && '.' !in volume
    decreases |stretches|
  {
    if stretches == [] then Some(Emission(s, []))
    else
      StateSurvivesPrinting(volume, s, stretches[0]);
      var e := Steps(volume, s, stretches[0]);
      var s' := FollowAll(volume, s, Printed(e.codes));
      if s'.None? || !Layered(s'.value) then None
      else
        var rest := Stretches(volume, s'.value, stretches[1..]);
        if rest.None? then None else Some(Emission(rest.value.state, e.codes + rest.value.codes))
  }

  function Flat(stretches: seq<seq<Token>>): seq<Token> {
    if stretches == [] then [] else stretches[0] + Flat(stretches[1..])
  }

  /** Cutting a document at its tables changes neither the codes nor the final state. */
  lemma {:induction false} CuttingChangesNothing(volume: string, s: State, stretches: seq<seq<Token>>)
    requires Layered(s) && '.' !in volume
    ensures Stretches(volume, s, stretches) == Some(Steps(volume, s, Flat(stretches)))
    decreases |stretches|
  {
    if stretches == [] {
    } else {
      hide FollowAll, Follow, Step;
      StateSurvivesPrinting(volume, s, stretches[0]);
      var e := Steps(volume, s, stretches[0]);
      CuttingChangesNothing(volume, e.state, stretches[1..]);
      StepsConcat(volume, s, stretches[0], Flat(stretches[1..]));
    }
  }

  // -------------------------------------------------------------- nesting

  /** The latest code with `k` parts. */
  function Latest(codes: seq<seq<string>>, k: nat): Option<seq<string>> {
    if codes == [] then None
    else if |codes[|codes| - 1]| == k then Some(codes[|codes| - 1])
    else Latest(codes[..|codes| - 1], k)
  }

  /** The state names the latest code of each length. */
  ghost predicate Tracks(volume: string, s: State, codes: seq<seq<string>>) {
    && Layered(s)
    && (s.chapter.Some? ==> Latest(codes, 2) == Some([volume, Decimal(s.chapter.value)]))
    && (s.section.Some? ==> Latest(codes, 3) == Some([volume, Decimal(s.chapter.value), Decimal(s.section.value)]))
    && (s.sub.Some? ==> Latest(codes, 4) == Some(Below(volume, s, [SubText(s.sub.value)])))
  }

  /** Each code with more than two parts continues the latest code that is one part shorter. */
  ghost predicate Nested(codes: seq<seq<string>>) {
    forall i :: 0 <= i < |codes| && |codes[i]| > 2 ==>
      Latest(codes[..i], |codes[i]| - 1) == Some(codes[i][..|codes[i]| - 1])
  }

  lemma LatestAppend(codes: seq<seq<string>>, c: seq<string>, k: nat)
    ensures Latest(codes + [c], k) == if |c| == k then Some(c) else Latest(codes, k)
  {
    assert (codes + [c])[..|codes|] == codes;
  }

  lemma NestedAppend(codes: seq<seq<string>>, c: seq<string>)
    requires Nested(codes)
    requires |c| > 2 ==> Latest(codes, |c| - 1) == Some(c[..|c| - 1])
    ensures Nested(codes + [c])
  {
    var all := codes + [c];
    forall i | 0 <= i < |all| && |all[i]| > 2
      ensures Latest(all[..i], |all[i]| - 1) == Some(all[i][..|all[i]| - 1])
    {
      if i < |codes| {
        assert all[..i] == codes[..i];
      } else {
        assert all[..i] == codes;
      }
    }
  }

  /** All but the last part of a heading's first code is what the state stands for. */
  lemma PrefixOfFirst(volume: string, s: State, t: Token)
    requires Layered(s) && Step(volume, s, t).codes != []
    ensures var c := Step(volume, s, t).codes[0];
            && (|c| == 3 ==> s.chapter.Some? && c[..2] == [volume, Decimal(s.chapter.value)])
            && (|c| == 4 ==> s.section.Some? && c[..3] == [volume, Decimal(s.chapter.value), Decimal(s.section.value)])
            && (|c| == 5 ==> s.sub.Some? && c[..4] == Below(volume, s, [SubText(s.sub.value)]))
            && 2 <= |c| <= 5
  {
    hide Decimal;
  }

  lemma StepNests(volume: string, s: State, t: Token, codes: seq<seq<string>>)
    requires Tracks(volume, s, codes) && Nested(codes)
    ensures Tracks(volume, Step(volume, s, t).state, codes + Step(volume, s, t).codes)
    ensures Nested(codes + Step(volume, s, t).codes)
  {
    hide Decimal, Nested, Latest;
    var e := Step(volume, s, t);
    if |e.codes| == 0 {
      assert codes + e.codes == codes;
    } else {
      var c := e.codes[0];
      PrefixOfFirst(volume, s, t);
      NestedAppend(codes, c);
      forall k
        ensures Latest(codes + [c], k) == if |c| == k then Some(c) else Latest(codes, k)
      {
        LatestAppend(codes, c, k);
      }
      if |e.codes| == 1 {
        assert codes + e.codes == codes + [c];
      } else {
        var d := e.codes[1];
        assert d[..4] == c;
        NestedAppend(codes + [c], d);
        forall k
          ensures Latest(codes + [c] + [d], k) == if |d| == k then Some(d) else Latest(codes + [c], k)
        {
          LatestAppend(codes + [c], d, k);
        }
        assert codes + e.codes == codes + [c] + [d];
      }
    }
  }

  /** From an empty start, subsection implies section implies chapter, and all codes nest. */
  lemma {:induction false} CodesNest(volume: string, tokens: seq<Token>)
    ensures Layered(Steps(volume, INITIAL, tokens).state)
    ensures Tracks(volume, Steps(volume, INITIAL, tokens).state, Steps(volume, INITIAL, tokens).codes)
    ensures Nested(Steps(volume, INITIAL, tokens).codes)
  {
    if tokens == [] {
    } else {
      hide Step, Tracks, Nested;
      CodesNest(volume, tokens[..|tokens| - 1]);
      var before := Steps(volume, INITIAL, tokens[..|tokens| - 1]);
      StepNests(volume, before.state, tokens[|tokens| - 1], before.codes);
    }
  }
}

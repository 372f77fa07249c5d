/**
 What a page of a quota file comes to, said of what was read off it and of the projects seen:
 headings, a continuation, main tables, or nothing.
 */
module PageKinds {
  import opened Catalogue
  import opened Materials
  import opened CrossPageJoin
  import opened JoinedBlocks
  import opened JoinedFiles
  import opened FeeVerification
  import opened QuotaFile

  /** The marks that rows are told apart by. */
  lemma MarksAre(r: Row)
    ensures IsQuota(r) <==> r.kind == "定"
    ensures IsBlank(r) <==> r.kind == ""
    ensures IsManagement(r) <==> r.kind == "综" && r.name == "企业管理费"
    ensures IsInner(r) <==> r.kind != "定" && r.kind != ""
  {
  }

  /** The projects that some rows have heads of. */
  lemma HeadsAre(rows: seq<Row>, x: string)
    ensures x in Heads(rows) <==> x != "" && exists k :: 0 <= k < |rows| && rows[k].kind == "定" && rows[k].pid == x
  {
    if x in Heads(rows) {
      var r :| r in rows && IsQuota(r) && r.pid == x;
      var k :| 0 <= k < |rows| && rows[k] == r;
    }
  }

  /** A table that goes on from an earlier page: all its projects have been seen, and it states no base price. */
  ghost predicate GoesOn(p: Profile, seen: set<string>, c: Content) {
    && p.joinsPages && (exists x :: x in seen) && c.Single? && !c.hasBase
    && |c.quota.pids| > 0 && forall k :: 0 <= k < |c.quota.pids| ==> c.quota.pids[k] in seen
  }

  /** Some quota table of it has a material without unit or quantities. */
  ghost predicate HasFlaw(c: Content) {
    match c
    case Single(_, _, _, flawed) => flawed
    case Composite(parts) => exists k :: 0 <= k < |parts| && parts[k].flawed
  }

  /** The rows of the parts of a composite table, one part after another. */
  function PartRows(p: Profile, parts: seq<Part>): seq<Row> {
    if parts == [] then []
    else TableRows(p, parts[0].quota, |parts[0].quota.pids|) + PartRows(p, parts[1..])
  }

  /** The rows of a table that is no continuation. */
  function RowsOfTable(p: Profile, c: Content): seq<Row> {
    match c
    case Single(q, _, _, _) => TableRows(p, q, |q.pids|)
    case Composite(parts) => PartRows(p, parts)
  }

  /** What a page comes to. */
  lemma PageIs(p: Profile, seen: set<string>, page: Page)
    requires AllWellRead([page])
    ensures var c, t := page.content, TableOf(p, seen, page);
            && |t.headings| == |page.headings|
            && (forall k :: 0 <= k < |t.headings| ==>
                  t.headings[k] == Row("段", page.headings[k].0, page.headings[k].1, None))
            && (GoesOn(p, seen, c) && c.continued.Some? ==>
                  && t.Continuation? && t.pids == c.quota.pids
                  && t.rows == ContinuationRows(c.continued.value, c.quota.pids, p.cents)
                  && forall k :: 0 <= k < |t.pids| ==>
                       t.pids[k] in t.deltas && t.deltas[t.pids[k]] == Total(RowsOf(t.rows, t.pids[k])))
            && (!GoesOn(p, seen, c) || c.continued.None? ==>
                  && t.Main?
                  && Flat(Projects(t.blocks)) == if GoesOn(p, seen, c) || HasFlaw(c) then [] else RowsOfTable(p, c))
  {
    hide ContinuationRows, AllBlocks, TableRows, Flat, PartRows, RowsOf, Total, WellRead;
    var c := page.content;
    KindIs(p, seen, c);
    NoBlocks();
    NoQuotas(p);
    assert page in [page];
    if !GoesOn(p, seen, c) && !HasFlaw(c) {
      match c {
        case Single(q, _, _, _) =>
          PartRowsAre(p, [Part(q, false)]);
          OnePart(p, q);
          assert QuotasOf(c) == [q] == seq(1, i requires 0 <= i < 1 => [Part(q, false)][i].quota);
        case Composite(parts) =>
          PartRowsAre(p, parts);
          assert QuotasOf(c) == seq(|parts|, i requires 0 <= i < |parts| => parts[i].quota);
      }
    }
  }

  lemma NoQuotas(p: Profile)
    ensures AllBlocks(p, []) == []
  {
  }

  lemma KindIs(p: Profile, seen: set<string>, c: Content)
    ensures Continues(p, seen, c) <==> GoesOn(p, seen, c)
    ensures Flawed(c) <==> HasFlaw(c)
  {
    if c.Composite? && exists part :: part in c.parts && part.flawed {
      var part :| part in c.parts && part.flawed;
      var k :| 0 <= k < |c.parts| && c.parts[k] == part;
    }
  }

  lemma OnePart(p: Profile, q: Quota)
    ensures PartRows(p, [Part(q, false)]) == TableRows(p, q, |q.pids|)
  {
    hide TableRows;
    assert [Part(q, false)][1..] == [] && PartRows(p, []) == [];
  }

  lemma {:induction false} PartRowsAre(p: Profile, parts: seq<Part>)
    requires forall part :: part in parts ==> WellRead(part.quota)
    ensures var qs := seq(|parts|, i requires 0 <= i < |parts| => parts[i].quota);
            Flat(Projects(AllBlocks(p, qs))) == PartRows(p, parts)
  {
    var qs := seq(|parts|, i requires 0 <= i < |parts| => parts[i].quota);
    if parts == [] {
      NoBlocks();
    } else {
      hide TableRows, Flat, Projects, BlocksOf;
      var rest := seq(|parts[1..]|, i requires 0 <= i < |parts[1..]| => parts[1..][i].quota);
      assert qs[0] == parts[0].quota && qs[1..] == rest;
      assert WellRead(parts[0].quota);
      PartRowsAre(p, parts[1..]);
      FrontBlocks(p, qs);
      TableEmitsFreshBlocks(p, qs[0], |qs[0].pids|);
    }
  }
}

/** python/examples/afr-enrollment-api: fanning a search out over three indexes, keeping each
    account's best row, and deciding on the best candidate. Scores are reals. */
module Enrollment {
  import opened Wrappers
  import opened Comprehension
  import opened Text

  datatype Row = Row(accountId: string, firstName: string, lastName: string, address: string,
                     accountNumber: string, score: Option<real>)

  datatype Candidate = Candidate(accountId: string, name: string, address: string, accountNumber: string, score: real)

  datatype SearchResult = MissingIndexes(names: seq<string>) | Found(candidates: seq<Candidate>)

  /** A row without a score counts as 0. */
  ghost function RowScore(r: Row): real {
    if r.score.Some? then r.score.value else 0.0
  }

  /** The candidate shows the row's own fields. */
  ghost predicate Shows(c: Candidate, r: Row) {
    && c.accountId == r.accountId && c.address == r.address && c.accountNumber == r.accountNumber
    && c.name == Strip(r.firstName + " " + r.lastName)
    && c.score == RowScore(r)
  }

  function CandidateOf(r: Row): (c: Candidate)
    ensures Shows(c, r)
  {
    Candidate(r.accountId, Strip(r.firstName + " " + r.lastName), r.address, r.accountNumber,
              if r.score.Some? then r.score.value else 0.0)
  }

  // ---- One entry per account ----

  /** A dictionary keyed by account id, in insertion order: a better score replaces in place. */
  function Absorb(seen: seq<Candidate>, c: Candidate): seq<Candidate> {
    if seen == [] then [c]
    else if seen[0].accountId == c.accountId then [if c.score > seen[0].score then c else seen[0]] + seen[1..]
    else [seen[0]] + Absorb(seen[1..], c)
  }

  function AbsorbAll(rows: seq<Row>): seq<Candidate> {
    if rows == [] then [] else Absorb(AbsorbAll(rows[..|rows| - 1]), CandidateOf(rows[|rows| - 1]))
  }

  ghost predicate OnePerAccount(seen: seq<Candidate>) {
    forall i, j :: 0 <= i < j < |seen| ==> seen[i].accountId != seen[j].accountId
  }

  ghost predicate Beats(c: Candidate, seen: seq<Candidate>) {
    forall e :: e in seen && e.accountId == c.accountId ==> e.score < c.score
  }

  /** Row `i` is the first to reach its account's highest score. */
  ghost predicate IsFirstBest(rows: seq<Row>, i: int) {
    0 <= i < |rows| &&
    forall j :: 0 <= j < |rows| && rows[j].accountId == rows[i].accountId ==>
      if j < i then RowScore(rows[j]) < RowScore(rows[i])
      else RowScore(rows[j]) <= RowScore(rows[i])
  }

  lemma HeadAlone(head: Candidate, tail: seq<Candidate>)
    requires OnePerAccount([head] + tail)
    ensures OnePerAccount(tail) && forall e :: e in tail ==> e.accountId != head.accountId
  {
    var all := [head] + tail;
    assert all[0] == head;
    forall k | 0 <= k < |tail|
      ensures tail[k] == all[k + 1] && tail[k].accountId != head.accountId
    {
    }
  }

  lemma PrependKeepsOne(head: Candidate, tail: seq<Candidate>)
    requires OnePerAccount(tail) && forall e :: e in tail ==> e.accountId != head.accountId
    ensures OnePerAccount([head] + tail)
  {
    var all := [head] + tail;
    forall i, j | 0 <= i < j < |all|
      ensures all[i].accountId != all[j].accountId
    {
      assert all[j] == tail[j - 1] && tail[j - 1] in tail;
    }
  }

  lemma {:induction false} AbsorbMembers(seen: seq<Candidate>, c: Candidate)
    requires OnePerAccount(seen)
    ensures OnePerAccount(Absorb(seen, c))
    ensures forall d :: d in Absorb(seen, c) <==>
      || (d.accountId != c.accountId && d in seen)
      || (d == c && Beats(c, seen))
      || (d.accountId == c.accountId && d in seen && c.score <= d.score)
  {
    if seen != [] {
      var head, tail := seen[0], seen[1..];
      assert seen == [head] + tail;
      HeadAlone(head, tail);
      if head.accountId == c.accountId {
        var kept := if c.score > head.score then c else head;
        assert Absorb(seen, c) == [kept] + tail;
        PrependKeepsOne(kept, tail);
      } else {
        AbsorbMembers(tail, c);
        assert Absorb(seen, c) == [head] + Absorb(tail, c);
        PrependKeepsOne(head, Absorb(tail, c));
      }
    }
  }

  /** The dictionary after the first rows stands for their first-best rows. */
  ghost predicate Stands(seen: seq<Candidate>, rows: seq<Row>) {
    OnePerAccount(seen) && forall d :: d in seen <==> exists i :: IsFirstBest(rows, i) && Shows(d, rows[i])
  }

  lemma BestExists(rows: seq<Row>, k: nat) returns (i: nat)
    requires k < |rows|
    ensures IsFirstBest(rows, i) && rows[i].accountId == rows[k].accountId
  {
    i := k;
    var j := 0;
    while j < |rows|
      invariant 0 <= j <= |rows| && i < |rows| && rows[i].accountId == rows[k].accountId
      invariant forall m :: 0 <= m < j && rows[m].accountId == rows[k].accountId ==>
        RowScore(rows[m]) <= RowScore(rows[i])
    {
      if rows[j].accountId == rows[k].accountId && RowScore(rows[j]) > RowScore(rows[i]) {
        i := j;
      }
      j := j + 1;
    }
    var best := RowScore(rows[i]);
    var f := 0;
    while !(rows[f].accountId == rows[k].accountId && RowScore(rows[f]) == best)
      invariant f <= i
      invariant forall m :: 0 <= m < f && rows[m].accountId == rows[k].accountId ==> RowScore(rows[m]) < best
      decreases i - f
    {
      f := f + 1;
    }
    i := f;
  }

  lemma NewBestBeatsSeen(init: seq<Row>, seen: seq<Candidate>, last: Row)
    requires Stands(seen, init)
    ensures Beats(CandidateOf(last), seen) <==> IsFirstBest(init + [last], |init|)
  {
    var rows, x := init + [last], CandidateOf(last);
    if Beats(x, seen) {
      forall j | 0 <= j < |init| && init[j].accountId == last.accountId
        ensures RowScore(init[j]) < x.score
      {
        var b := BestExists(init, j);
        assert CandidateOf(init[b]) in seen;
        assert RowScore(init[j]) <= RowScore(init[b]);
      }
    }
    if IsFirstBest(rows, |init|) {
      forall e | e in seen && e.accountId == x.accountId
        ensures e.score < x.score
      {
        var j :| IsFirstBest(init, j) && Shows(e, init[j]);
        assert rows[j] == init[j];
      }
    }
  }

  lemma OldBestStays(init: seq<Row>, last: Row, i: int)
    requires 0 <= i < |init|
    ensures IsFirstBest(init + [last], i) <==>
      && IsFirstBest(init, i)
      && (init[i].accountId == last.accountId ==> RowScore(last) <= RowScore(init[i]))
  {
    var rows := init + [last];
    assert rows[|init|] == last;
    if IsFirstBest(rows, i) {
      assert forall j :: 0 <= j < |init| ==> rows[j] == init[j];
    }
  }

  lemma SeenStep(init: seq<Row>, seen: seq<Candidate>, last: Row, c: Candidate)
    requires Stands(seen, init)
    ensures c in Absorb(seen, CandidateOf(last)) <==>
      exists i :: IsFirstBest(init + [last], i) && Shows(c, (init + [last])[i])
  {
    var rows, x := init + [last], CandidateOf(last);
    AbsorbMembers(seen, x);
    NewBestBeatsSeen(init, seen, last);
    if c in Absorb(seen, x) {
      if c == x && Beats(x, seen) {
        assert Shows(c, rows[|init|]);
      } else {
        var i :| IsFirstBest(init, i) && Shows(c, init[i]);
        OldBestStays(init, last, i);
        assert rows[i] == init[i];
      }
    }
    if i :| IsFirstBest(rows, i) && Shows(c, rows[i]) {
      if i < |init| {
        OldBestStays(init, last, i);
        assert rows[i] == init[i];
      }
    }
  }

  /** The dictionary holds, for each account with a row, the first of its rows to reach its
      highest score, and nothing else. */
  lemma {:induction false} SeenIsFirstBest(rows: seq<Row>)
    ensures Stands(AbsorbAll(rows), rows)
  {
    if rows != [] {
      var init, last := rows[..|rows| - 1], rows[|rows| - 1];
      assert rows == init + [last];
      SeenIsFirstBest(init);
      AbsorbMembers(AbsorbAll(init), CandidateOf(last));
      forall c
        ensures c in AbsorbAll(rows) <==> exists i :: IsFirstBest(rows, i) && Shows(c, rows[i])
      {
        SeenStep(init, AbsorbAll(init), last, c);
      }
    }
  }

  // ---- The order of the dictionary ----

  /** Where an account first appears among the rows. */
  function FirstRow(rows: seq<Row>, id: string): (k: nat)
    ensures k <= |rows| && (k < |rows| ==> rows[k].accountId == id)
    ensures forall j :: 0 <= j < k ==> rows[j].accountId != id
  {
    if rows == [] || rows[0].accountId == id then 0 else 1 + FirstRow(rows[1..], id)
  }

  lemma FirstRowSnoc(rows: seq<Row>, last: Row, id: string)
    requires FirstRow(rows, id) < |rows| || last.accountId == id
    ensures FirstRow(rows + [last], id) == FirstRow(rows, id)
  {
    var k := FirstRow(rows, id);
    assert (rows + [last])[k].accountId == id;
    assert forall j :: 0 <= j < k ==> (rows + [last])[j] == rows[j];
  }

  ghost predicate ByFirstAppearance(seen: seq<Candidate>, rows: seq<Row>) {
    && (forall i :: 0 <= i < |seen| ==> FirstRow(rows, seen[i].accountId) < |rows|)
    && (forall i, j :: 0 <= i < j < |seen| ==> FirstRow(rows, seen[i].accountId) < FirstRow(rows, seen[j].accountId))
  }

  lemma {:induction false} AbsorbAt(seen: seq<Candidate>, at: nat, c: Candidate)
    requires at <= |seen| && (at < |seen| ==> seen[at].accountId == c.accountId)
    requires forall k :: 0 <= k < at ==> seen[k].accountId != c.accountId
    ensures Absorb(seen, c) ==
      if at == |seen| then seen + [c] else if c.score > seen[at].score then seen[at := c] else seen
  {
    if at > 0 {
      AbsorbAt(seen[1..], at - 1, c);
    }
  }

  function IndexOf(seen: seq<Candidate>, id: string): (at: nat)
    ensures at <= |seen| && (at < |seen| ==> seen[at].accountId == id)
    ensures forall k :: 0 <= k < at ==> seen[k].accountId != id
  {
    if seen == [] || seen[0].accountId == id then 0 else 1 + IndexOf(seen[1..], id)
  }

  lemma RowIsSeen(rows: seq<Row>, seen: seq<Candidate>, k: nat)
    requires Stands(seen, rows) && k < |rows|
    ensures exists i :: 0 <= i < |seen| && seen[i].accountId == rows[k].accountId
  {
    var b := BestExists(rows, k);
    assert CandidateOf(rows[b]) in seen;
  }

  lemma UnseenHasNoRow(rows: seq<Row>, seen: seq<Candidate>, id: string)
    requires Stands(seen, rows) && IndexOf(seen, id) == |seen|
    ensures FirstRow(rows, id) == |rows|
  {
    var k := FirstRow(rows, id);
    if k < |rows| {
      RowIsSeen(rows, seen, k);
      assert false;
    }
  }

  /** One more row moves no account of the dictionary. */
  lemma AppearanceLasts(seen: seq<Candidate>, init: seq<Row>, last: Row)
    requires ByFirstAppearance(seen, init)
    ensures ByFirstAppearance(seen, init + [last])
    ensures forall i :: 0 <= i < |seen| ==> FirstRow(init + [last], seen[i].accountId) < |init|
  {
    forall i | 0 <= i < |seen|
      ensures FirstRow(init + [last], seen[i].accountId) == FirstRow(init, seen[i].accountId)
    {
      FirstRowSnoc(init, last, seen[i].accountId);
    }
  }

  lemma ReplacedAppearsThere(seen: seq<Candidate>, at: nat, c: Candidate, rows: seq<Row>)
    requires ByFirstAppearance(seen, rows) && at < |seen| && seen[at].accountId == c.accountId
    ensures ByFirstAppearance(seen[at := c], rows)
  {
  }

  lemma AppendedAppearsLast(seen: seq<Candidate>, c: Candidate, rows: seq<Row>)
    requires ByFirstAppearance(seen, rows) && FirstRow(rows, c.accountId) < |rows|
    requires forall i :: 0 <= i < |seen| ==> FirstRow(rows, seen[i].accountId) < FirstRow(rows, c.accountId)
    ensures ByFirstAppearance(seen + [c], rows)
  {
    var all := seen + [c];
    forall i, j | 0 <= i < j < |all|
      ensures FirstRow(rows, all[i].accountId) < FirstRow(rows, all[j].accountId)
    {
      assert all[i] == seen[i] && (if j < |seen| then all[j] == seen[j] else all[j] == c);
    }
    assert ByFirstAppearance(all, rows);
  }

  lemma AbsorbKeepsAppearance(init: seq<Row>, seen: seq<Candidate>, last: Row)
    requires ByFirstAppearance(seen, init) && Stands(seen, init)
    ensures ByFirstAppearance(Absorb(seen, CandidateOf(last)), init + [last])
  {
    var rows, c, at := init + [last], CandidateOf(last), IndexOf(seen, last.accountId);
    AbsorbAt(seen, at, c);
    AppearanceLasts(seen, init, last);
    if at == |seen| {
      UnseenHasNoRow(init, seen, c.accountId);
      FirstRowSnoc(init, last, c.accountId);
      AppendedAppearsLast(seen, c, rows);
    } else {
      ReplacedAppearsThere(seen, at, c, rows);
    }
  }

  /** Accounts stand in the order their first rows came in, whichever row of theirs is kept. */
  lemma {:induction false} SeenByFirstAppearance(rows: seq<Row>)
    ensures ByFirstAppearance(AbsorbAll(rows), rows)
  {
    if rows != [] {
      var init, last := rows[..|rows| - 1], rows[|rows| - 1];
      assert rows == init + [last];
      SeenByFirstAppearance(init);
      SeenIsFirstBest(init);
      AbsorbKeepsAppearance(init, AbsorbAll(init), last);
    }
  }

  // ---- sorted(..., reverse=True) ----

  function InsertDesc(s: seq<Candidate>, c: Candidate): seq<Candidate> {
    if s == [] then [c]
    else if s[|s| - 1].score >= c.score then s + [c]
    else InsertDesc(s[..|s| - 1], c) + [s[|s| - 1]]
  }

  /** Best score first; equal scores keep their order. */
  function SortDesc(s: seq<Candidate>): seq<Candidate> {
    if s == [] then [] else InsertDesc(SortDesc(s[..|s| - 1]), s[|s| - 1])
  }

  ghost predicate NonIncreasing(s: seq<Candidate>) {
    forall i, j :: 0 <= i < j < |s| ==> s[i].score >= s[j].score
  }

  function HasScore(x: real): Candidate -> bool {
    (c: Candidate) => c.score == x
  }

  function WithScore(s: seq<Candidate>, x: real): seq<Candidate> {
    Filter(s, HasScore(x))
  }

  lemma {:induction false} InsertAdds(s: seq<Candidate>, c: Candidate)
    ensures multiset(InsertDesc(s, c)) == multiset(s) + multiset{c}
  {
    if s != [] {
      InsertAdds(s[..|s| - 1], c);
      assert s == s[..|s| - 1] + [s[|s| - 1]];
    }
  }

  lemma {:induction false} InsertKeepsOrder(s: seq<Candidate>, c: Candidate)
    requires NonIncreasing(s)
    ensures NonIncreasing(InsertDesc(s, c))
  {
    if s != [] && s[|s| - 1].score < c.score {
      var init, last := s[..|s| - 1], s[|s| - 1];
      InsertKeepsOrder(init, c);
      InsertAdds(init, c);
      var front := InsertDesc(init, c);
      forall k | 0 <= k < |front|
        ensures front[k].score >= last.score
      {
        assert front[k] in multiset(front);
      }
    }
  }

  lemma PassedOver(init: seq<Candidate>, inserted: seq<Candidate>, last: Candidate, c: Candidate, x: real)
    requires last.score < c.score
    requires WithScore(inserted, x) == WithScore(init, x) + if c.score == x then [c] else []
    ensures WithScore(inserted + [last], x) == WithScore(init + [last], x) + if c.score == x then [c] else []
  {
    FilterSnoc(inserted, last, HasScore(x));
    FilterSnoc(init, last, HasScore(x));
  }

  lemma {:induction false} InsertIsStable(s: seq<Candidate>, c: Candidate, x: real)
    requires NonIncreasing(s)
    ensures WithScore(InsertDesc(s, c), x) == WithScore(s, x) + if c.score == x then [c] else []
  {
    var keep := HasScore(x);
    if s == [] || s[|s| - 1].score >= c.score {
      assert InsertDesc(s, c) == s + [c];
      FilterSnoc(s, c, keep);
    } else {
      var init, last := s[..|s| - 1], s[|s| - 1];
      var inserted := InsertDesc(init, c);
      assert s == init + [last] && InsertDesc(s, c) == inserted + [last];
      InsertIsStable(init, c, x);
      PassedOver(init, inserted, last, c, x);
    }
  }

  lemma {:induction false} SortIsStable(s: seq<Candidate>)
    ensures NonIncreasing(SortDesc(s)) && multiset(SortDesc(s)) == multiset(s)
    ensures forall x :: WithScore(SortDesc(s), x) == WithScore(s, x)
  {
    if s != [] {
      var init, last := s[..|s| - 1], s[|s| - 1];
      assert s == init + [last];
      SortIsStable(init);
      InsertKeepsOrder(SortDesc(init), last);
      InsertAdds(SortDesc(init), last);
      forall x
        ensures WithScore(SortDesc(s), x) == WithScore(s, x)
      {
        InsertIsStable(SortDesc(init), last, x);
      }
    }
  }

  // ---- The search ----

  /** The index names of the environment, in query order, and the rows each index answers with. */
  datatype Index = Index(name: string, configured: Option<string>, rows: seq<Row>)

  function MissingNames(indexes: seq<Index>): seq<string> {
    if indexes == [] then [] else
    var last := indexes[|indexes| - 1];
    MissingNames(indexes[..|indexes| - 1]) +
      if last.configured.None? || last.configured.value == "" then [last.name] else []
  }

  function RowsOf(indexes: seq<Index>): seq<Row> {
    if indexes == [] then [] else RowsOf(indexes[..|indexes| - 1]) + indexes[|indexes| - 1].rows
  }

  lemma AbsorbAllSnoc(rows: seq<Row>, r: Row)
    ensures AbsorbAll(rows + [r]) == Absorb(AbsorbAll(rows), CandidateOf(r))
  {
    assert (rows + [r])[..|rows|] == rows;
  }

  lemma BatchStep(before: seq<Row>, rows: seq<Row>, k: nat)
    requires k < |rows|
    ensures Absorb(AbsorbAll(before + rows[..k]), CandidateOf(rows[k])) == AbsorbAll(before + rows[..k + 1])
  {
    AbsorbAllSnoc(before + rows[..k], rows[k]);
    assert before + rows[..k + 1] == (before + rows[..k]) + [rows[k]];
  }

  method AbsorbRow(seen0: seq<Candidate>, candidate: Candidate) returns (seen: seq<Candidate>)
    ensures seen == Absorb(seen0, candidate)
  {
    seen := seen0;
    var at := 0;
    while at < |seen| && seen[at].accountId != candidate.accountId
      invariant at <= |seen| && forall j :: 0 <= j < at ==> seen[j].accountId != candidate.accountId
    {
      at := at + 1;
    }
    AbsorbAt(seen, at, candidate);
    if at == |seen| {
      seen := seen + [candidate];
    } else if candidate.score > seen[at].score {
      seen := seen[at := candidate];
    }
  }

  /** The rows one index answers with. */
  method AbsorbBatch(seen0: seq<Candidate>, rows: seq<Row>, ghost before: seq<Row>) returns (seen: seq<Candidate>)
    requires seen0 == AbsorbAll(before)
    ensures seen == AbsorbAll(before + rows)
  {
    seen := seen0;
    assert before + rows[..0] == before;
    for k := 0 to |rows|
      invariant seen == AbsorbAll(before + rows[..k])
    {
      BatchStep(before, rows, k);
      seen := AbsorbRow(seen, CandidateOf(rows[k]));
    }
    assert rows[..|rows|] == rows;
  }

  lemma {:induction false} RowsOfAll(a: seq<Index>, b: seq<Index>, x: Index)
    ensures RowsOf(a + b) == RowsOf(a) + RowsOf(b) && RowsOf([x]) == x.rows && RowsOf([]) == []
  {
    assert [x][..0] == [];
    if b == [] {
      assert a + b == a;
    } else {
      assert (a + b)[..|a + b| - 1] == a + b[..|b| - 1];
      RowsOfAll(a, b[..|b| - 1], x);
    }
  }

  lemma {:induction false} MissingExactly(indexes: seq<Index>)
    ensures forall n :: n in MissingNames(indexes) <==>
      exists x :: x in indexes && x.name == n && (x.configured == None || x.configured == Some(""))
  {
    if indexes != [] {
      MissingExactly(indexes[..|indexes| - 1]);
      assert indexes == indexes[..|indexes| - 1] + [indexes[|indexes| - 1]];
    }
  }

  method VectorSearch(indexes: seq<Index>) returns (r: SearchResult)
    ensures MissingNames(indexes) != [] ==> r == MissingIndexes(MissingNames(indexes))
    ensures MissingNames(indexes) == [] ==> r == Found(SortDesc(AbsorbAll(RowsOf(indexes))))
  {
    var missing := MissingNames(indexes);
    if missing != [] {
      return MissingIndexes(missing);
    }
    var seen: seq<Candidate> := [];
    for i := 0 to |indexes|
      invariant seen == AbsorbAll(RowsOf(indexes[..i]))
    {
      seen := AbsorbBatch(seen, indexes[i].rows, RowsOf(indexes[..i]));
      assert indexes[..i + 1][..i] == indexes[..i];
    }
    assert indexes[..|indexes|] == indexes;
    return Found(SortDesc(seen));
  }

  /** Best score first; among equals, the account whose first row came first. */
  ghost predicate Ranked(cs: seq<Candidate>, rows: seq<Row>) {
    forall i, j :: 0 <= i < j < |cs| ==>
      || cs[i].score > cs[j].score
      || (cs[i].score == cs[j].score && FirstRow(rows, cs[i].accountId) < FirstRow(rows, cs[j].accountId))
  }

  lemma SearchRanks(rows: seq<Row>)
    ensures Ranked(SortDesc(AbsorbAll(rows)), rows)
  {
    var seen := AbsorbAll(rows);
    var cs := SortDesc(seen);
    SortIsStable(seen);
    SeenByFirstAppearance(rows);
    forall i, j | 0 <= i < j < |cs| && cs[i].score == cs[j].score
      ensures FirstRow(rows, cs[i].accountId) < FirstRow(rows, cs[j].accountId)
    {
      var keep := HasScore(cs[i].score);
      FilterKeepsPairs(cs, keep, i, j);
      assert Filter(cs, keep) == WithScore(seen, cs[i].score);
      var p, q :| 0 <= p < q < |Filter(seen, keep)| && Filter(seen, keep)[p] == cs[i] && Filter(seen, keep)[q] == cs[j];
      FilterKeepsOrder(seen, keep, p, q);
    }
  }

  lemma AbsorbAllNotEmpty(rows: seq<Row>)
    requires rows != []
    ensures AbsorbAll(rows) != []
  {
  }

  /** One entry per account, each the first of its rows to reach its highest score, best first;
      so the first entry is a highest score over every row of every index. */
  lemma CandidatesAreBestRows(rows: seq<Row>)
    ensures var cs := SortDesc(AbsorbAll(rows));
      && (forall c :: c in cs <==> exists i :: IsFirstBest(rows, i) && Shows(c, rows[i]))
      && (forall c, d :: c in cs && d in cs && c.accountId == d.accountId ==> c == d)
      && |cs| == |AbsorbAll(rows)|
      && Ranked(cs, rows)
      && (cs == [] <==> rows == [])
      && (cs != [] ==> forall r :: r in rows ==> RowScore(r) <= cs[0].score)
  {
    var seen := AbsorbAll(rows);
    var cs := SortDesc(seen);
    SeenIsFirstBest(rows);
    SortIsStable(seen);
    SearchRanks(rows);
    assert |multiset(cs)| == |multiset(seen)|;
    forall c
      ensures c in cs <==> c in seen
    {
      assert c in multiset(cs) <==> c in multiset(seen);
    }
    if rows != [] {
      AbsorbAllNotEmpty(rows);
    }
    forall r | r in rows && cs != []
      ensures RowScore(r) <= cs[0].score
    {
      var k :| 0 <= k < |rows| && rows[k] == r;
      var b := BestExists(rows, k);
      assert CandidateOf(rows[b]) in cs;
    }
  }

  // ---- The decision ----

  datatype Applicant = Applicant(name: string, address: string, accountNumber: string)
  datatype Category = NoMatch | Exact | HighConfidence | LowConfidence
  datatype Decision = Decision(matched: bool, accountId: Option<string>, category: Category, confidence: real, reviewed: nat)

  predicate AccountMatch(a: Applicant, c: Candidate) {
    a.accountNumber != "" && a.accountNumber == c.accountNumber
  }

  function Boosted(a: Applicant, c: Candidate): real {
    if !AccountMatch(a, c) then c.score else if c.score + 0.05 < 1.0 then c.score + 0.05 else 1.0
  }

  /** The decision for a best candidate: an agreeing account number adds 0.05, up to 1. */
  ghost predicate DecidesFor(a: Applicant, accountId: string, accountNumber: string, score: real, d: Decision) {
    && (if a.accountNumber != "" && a.accountNumber == accountNumber
        then (if score <= 0.95 then d.confidence == score + 0.05 else d.confidence == 1.0)
        else d.confidence == score)
    && (d.matched <==> d.confidence >= 0.70)
    && d.accountId == (if d.matched then Some(accountId) else None)
    && d.category == (if d.confidence >= 0.90 then Exact else if d.confidence >= 0.75 then HighConfidence else LowConfidence)
  }

  method EvaluateCandidates(a: Applicant, candidates: seq<Candidate>) returns (d: Decision)
    ensures d.reviewed == |candidates|
    ensures d.category.NoMatch? <==> candidates == []
    ensures candidates == [] ==> !d.matched && d.accountId.None? && d.confidence == 0.0
    ensures candidates != [] ==>
      && d.confidence == Boosted(a, candidates[0])
      && DecidesFor(a, candidates[0].accountId, candidates[0].accountNumber, candidates[0].score, d)
  {
    if candidates == [] {
      return Decision(false, None, NoMatch, 0.0, 0);
    }
    var best := candidates[0];
    var score := best.score;
    if AccountMatch(a, best) {
      score := if score + 0.05 < 1.0 then score + 0.05 else 1.0;
    }
    var category := LowConfidence;
    if score >= 0.90 {
      category := Exact;
    } else if score >= 0.75 {
      category := HighConfidence;
    }
    d := Decision(score >= 0.70, if score >= 0.70 then Some(best.accountId) else None, category, score, |candidates|);
  }

  /** The decision rests on row `i`, which no row of any index beats; of the accounts with a row as
      good, row `i`'s is the one that came up first. */
  ghost predicate DecidedOn(a: Applicant, rows: seq<Row>, i: int, d: Decision) {
    && 0 <= i < |rows|
    && (forall r :: r in rows ==> RowScore(r) <= RowScore(rows[i]))
    && (forall r :: r in rows && RowScore(r) == RowScore(rows[i]) ==>
        FirstRow(rows, rows[i].accountId) <= FirstRow(rows, r.accountId))
    && DecidesFor(a, rows[i].accountId, rows[i].accountNumber, RowScore(rows[i]), d)
  }

  lemma TiedAccountsCameLater(rows: seq<Row>, r: Row)
    requires r in rows
    ensures var cs := SortDesc(AbsorbAll(rows));
      && cs != []
      && (RowScore(r) == cs[0].score ==> FirstRow(rows, cs[0].accountId) <= FirstRow(rows, r.accountId))
  {
    var cs := SortDesc(AbsorbAll(rows));
    CandidatesAreBestRows(rows);
    var k :| 0 <= k < |rows| && rows[k] == r;
    var b := BestExists(rows, k);
    var best := CandidateOf(rows[b]);
    assert best in cs;
    var n :| 0 <= n < |cs| && cs[n] == best;
    assert RowScore(r) <= best.score;
    assert rows[b] in rows;
  }

  lemma FirstCandidateDecides(a: Applicant, rows: seq<Row>, d: Decision)
    requires SortDesc(AbsorbAll(rows)) != []
    requires var best := SortDesc(AbsorbAll(rows))[0];
      DecidesFor(a, best.accountId, best.accountNumber, best.score, d)
    ensures exists i :: IsFirstBest(rows, i) && DecidedOn(a, rows, i, d)
  {
    var best := SortDesc(AbsorbAll(rows))[0];
    CandidatesAreBestRows(rows);
    assert best in SortDesc(AbsorbAll(rows));
    var i :| IsFirstBest(rows, i) && Shows(best, rows[i]);
    forall r | r in rows
      ensures RowScore(r) <= best.score
      ensures RowScore(r) == best.score ==> FirstRow(rows, best.accountId) <= FirstRow(rows, r.accountId)
    {
      TiedAccountsCameLater(rows, r);
    }
    assert DecidedOn(a, rows, i, d);
  }

  /** Search, then decide: an account id comes back exactly when some index returned a row and the
      best score of all rows, boosted if its account number matches, reaches 0.70; it is then the
      account that came up first of those with a row no other beats. */
  method SearchAndDecide(a: Applicant, indexes: seq<Index>) returns (d: Decision)
    requires MissingNames(indexes) == []
    ensures d.matched <==> d.accountId.Some?
    ensures d.category.NoMatch? <==> RowsOf(indexes) == []
    ensures RowsOf(indexes) != [] ==> exists i :: IsFirstBest(RowsOf(indexes), i) && DecidedOn(a, RowsOf(indexes), i, d)
  {
    var r := VectorSearch(indexes);
    CandidatesAreBestRows(RowsOf(indexes));
    d := EvaluateCandidates(a, r.candidates);
    if RowsOf(indexes) != [] {
      FirstCandidateDecides(a, RowsOf(indexes), d);
    }
  }

  /** The boost reaches only the first candidate. When the decision is no match, some other
      candidate's own boosted score would have matched exactly if its account number agrees and
      its score is at least 0.65. */
  lemma BoostReachesOnlyTheFirst(a: Applicant, candidates: seq<Candidate>)
    requires candidates != [] && NonIncreasing(candidates) && Boosted(a, candidates[0]) < 0.70
    ensures (exists c :: c in candidates && Boosted(a, c) >= 0.70) <==>
      (exists c :: c in candidates && AccountMatch(a, c) && c.score >= 0.65)
  {
    forall c | c in candidates
      ensures c.score < 0.70
      ensures Boosted(a, c) >= 0.70 <==> AccountMatch(a, c) && c.score >= 0.65
    {
      var k :| 0 <= k < |candidates| && candidates[k] == c;
      assert candidates[0].score >= candidates[k].score;
    }
  }
}

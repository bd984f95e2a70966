/** ctk/docs.py: following markdown links from the entrypoints to find documents nobody links to.
    A document's text is the list of its link targets; joining and normalizing a target against
    its document is given with it. */
module DocReachability {
  import opened Wrappers
  import opened Comprehension

  /** A stripped link target and the normalized repository path its file part denotes. */
  datatype Target = Target(text: string, path: string)

  datatype Repo = Repo(existing: set<string>, texts: map<string, seq<Target>>)

  /** An entrypoint as configured: its normalized path, and whether it exists. */
  datatype Entrypoint = Entrypoint(path: string, exists_: bool)

  const FOREIGN := ["http://", "https://", "mailto:", "#", "/"]

  predicate StartsWithAny(s: string, prefixes: seq<string>) {
    exists p :: p in prefixes && p <= s
  }

  predicate EndsWith(s: string, suffix: string) {
    |suffix| <= |s| && s[|s| - |suffix|..] == suffix
  }

  /** `s.partition("#")[0]`. */
  function BeforeHash(s: string): (r: string)
    ensures r <= s && '#' !in r && (r == s || s[|r|] == '#')
  {
    if s == "" || s[0] == '#' then "" else [s[0]] + BeforeHash(s[1..])
  }

  predicate IsDocLink(t: Target, repo: Repo) {
    t.text != "" && !StartsWithAny(t.text, FOREIGN) && EndsWith(BeforeHash(t.text), ".md") && t.path in repo.existing
  }

  function TextOf(doc: string, repo: Repo): seq<Target> {
    if doc in repo.texts then repo.texts[doc] else []
  }

  predicate LinksTo(doc: string, next: string, repo: Repo) {
    exists t :: t in TextOf(doc, repo) && IsDocLink(t, repo) && t.path == next
  }

  /** The first `n` characters are what comes before the first '#', if there is one. */
  ghost predicate IsFilePart(text: string, n: int) {
    0 <= n <= |text| && '#' !in text[..n] && (n == |text| || text[n] == '#')
  }

  /** A target relative to the repository whose part before any anchor is a markdown file. */
  ghost predicate IsRelativeMarkdown(text: string) {
    && text != "" && text[0] != '#' && text[0] != '/'
    && !("http://" <= text) && !("https://" <= text) && !("mailto:" <= text)
    && exists n :: IsFilePart(text, n) && n >= 3 && text[n - 3..n] == ".md"
  }

  lemma ForeignAsStated(s: string)
    ensures StartsWithAny(s, FOREIGN) <==>
      || "http://" <= s || "https://" <= s || "mailto:" <= s || "#" <= s || "/" <= s
  {
    var f := FOREIGN;
    assert f[0] in f && f[1] in f && f[2] in f && f[3] in f && f[4] in f;
    assert forall p :: p in f ==> p == f[0] || p == f[1] || p == f[2] || p == f[3] || p == f[4];
  }

  lemma FilePartIsBeforeHash(s: string, n: int)
    ensures IsFilePart(s, n) <==> n == |BeforeHash(s)|
  {
    var file := BeforeHash(s);
    assert s[..|file|] == file;
    if 0 <= n < |file| {
      assert s[n] == file[n] && file[n] in file;
    } else if |file| < n <= |s| {
      assert s[..n][|file|] == s[|file|] && s[..n][|file|] in s[..n];
    }
  }

  lemma DocLinkAsStated(t: Target, repo: Repo)
    ensures IsDocLink(t, repo) <==> IsRelativeMarkdown(t.text) && t.path in repo.existing
  {
    var text, n := t.text, |BeforeHash(t.text)|;
    ForeignAsStated(text);
    FilePartIsBeforeHash(text, n);
    forall m | IsFilePart(text, m)
      ensures m == n
    {
      FilePartIsBeforeHash(text, m);
    }
    assert text[..n] == BeforeHash(text);
    assert n >= 3 ==> BeforeHash(text)[n - 3..] == text[n - 3..n];
  }

  lemma LinksAsStated(doc: string, repo: Repo)
    ensures forall next :: LinksTo(doc, next, repo) <==>
      && doc in repo.texts && next in repo.existing
      && exists t :: t in repo.texts[doc] && t.path == next && IsRelativeMarkdown(t.text)
  {
    forall t
      ensures IsDocLink(t, repo) <==> IsRelativeMarkdown(t.text) && t.path in repo.existing
    {
      DocLinkAsStated(t, repo);
    }
  }

  method OutgoingDocLinks(doc: string, repo: Repo) returns (out: seq<string>)
    ensures forall next :: next in out <==> LinksTo(doc, next, repo)
    ensures forall next :: next in out <==>
      && doc in repo.texts && next in repo.existing
      && exists t :: t in repo.texts[doc] && t.path == next && IsRelativeMarkdown(t.text)
  {
    LinksAsStated(doc, repo);
    var text := TextOf(doc, repo);
    out := [];
    for i := 0 to |text|
      invariant forall next :: next in out <==> exists t :: t in text[..i] && IsDocLink(t, repo) && t.path == next
    {
      assert text[..i + 1] == text[..i] + [text[i]];
      if IsDocLink(text[i], repo) {
        out := out + [text[i].path];
      }
    }
    assert text[..|text|] == text;
  }

  // ---- Reachability ----

  ghost predicate IsRoot(doc: string, entries: seq<Entrypoint>) {
    Entrypoint(doc, true) in entries
  }

  ghost predicate IsPath(path: seq<string>, entries: seq<Entrypoint>, repo: Repo) {
    && path != [] && IsRoot(path[0], entries)
    && forall k :: 0 <= k < |path| - 1 ==> LinksTo(path[k], path[k + 1], repo)
  }

  ghost predicate Reachable(doc: string, entries: seq<Entrypoint>, repo: Repo) {
    exists path :: IsPath(path, entries, repo) && path[|path| - 1] == doc
  }

  lemma RootReachable(doc: string, entries: seq<Entrypoint>, repo: Repo)
    requires IsRoot(doc, entries)
    ensures Reachable(doc, entries, repo)
  {
    assert IsPath([doc], entries, repo) && [doc][|[doc]| - 1] == doc;
  }

  lemma LinkReachable(doc: string, next: string, entries: seq<Entrypoint>, repo: Repo)
    requires Reachable(doc, entries, repo) && LinksTo(doc, next, repo)
    ensures Reachable(next, entries, repo)
  {
    var path :| IsPath(path, entries, repo) && path[|path| - 1] == doc;
    var longer := path + [next];
    assert IsPath(longer, entries, repo) && longer[|longer| - 1] == next;
  }

  // ---- The worklist ----

  datatype Scan = Scan(reachable: set<string>, frontier: seq<string>)

  /** What holds between pops: everything collected is reachable, and everything collected whose
      links have not been followed is still waiting. */
  ghost predicate ScanInv(s: Scan, entries: seq<Entrypoint>, repo: Repo) {
    && (forall d :: IsRoot(d, entries) ==> d in s.reachable)
    && (forall d :: d in s.frontier ==> d in s.reachable)
    && (forall d :: d in s.reachable ==> Reachable(d, entries, repo))
    && (forall d, next :: d in s.reachable && d !in s.frontier && LinksTo(d, next, repo) ==> next in s.reachable)
  }

  /** One pop, of any position, after which the links not yet collected wait, each once. */
  ghost predicate Visits(s: Scan, after: Scan, at: nat, repo: Repo)
    requires at < |s.frontier|
  {
    var rest := s.frontier[..at] + s.frontier[at + 1..];
    && (forall d :: d in after.reachable <==> d in s.reachable || LinksTo(s.frontier[at], d, repo))
    && (forall d :: d in after.frontier <==> d in rest || (d in after.reachable && d !in s.reachable))
    && |after.frontier| == |rest| + |after.reachable - s.reachable|
  }

  ghost predicate Follows(s: Scan, after: Scan, repo: Repo) {
    exists at: nat :: at < |s.frontier| && Visits(s, after, at, repo)
  }

  lemma PopSplits(frontier: seq<string>, at: nat)
    requires at < |frontier|
    ensures forall d :: d in frontier <==> d == frontier[at] || d in frontier[..at] + frontier[at + 1..]
  {
    assert frontier == frontier[..at] + [frontier[at]] + frontier[at + 1..];
  }

  lemma VisitKeepsInv(s: Scan, after: Scan, entries: seq<Entrypoint>, repo: Repo)
    requires ScanInv(s, entries, repo) && Follows(s, after, repo)
    ensures ScanInv(after, entries, repo)
  {
    var at: nat :| at < |s.frontier| && Visits(s, after, at, repo);
    var cur, rest := s.frontier[at], s.frontier[..at] + s.frontier[at + 1..];
    PopSplits(s.frontier, at);
    forall d | d in after.reachable
      ensures Reachable(d, entries, repo)
    {
      if d !in s.reachable {
        LinkReachable(cur, d, entries, repo);
      }
    }
    forall d, next | d in after.reachable && d !in after.frontier && LinksTo(d, next, repo)
      ensures next in after.reachable
    {
      assert d in s.reachable && d !in rest;
      assert d == cur || d !in s.frontier;
    }
    assert forall d :: d in after.frontier ==> d in after.reachable;
  }

  lemma VisitCounts(s: Scan, after: Scan, repo: Repo)
    requires Follows(s, after, repo)
    ensures |after.frontier| - |after.reachable| == |s.frontier| - |s.reachable| - 1
  {
    var at: nat :| at < |s.frontier| && Visits(s, after, at, repo);
    assert after.reachable == s.reachable + (after.reachable - s.reachable);
  }

  lemma {:induction false} PathCollected(s: Scan, path: seq<string>, k: nat, entries: seq<Entrypoint>, repo: Repo)
    requires ScanInv(s, entries, repo) && s.frontier == []
    requires IsPath(path, entries, repo) && k < |path|
    ensures path[k] in s.reachable
  {
    if k > 0 {
      PathCollected(s, path, k - 1, entries, repo);
      assert LinksTo(path[k - 1], path[k - 1 + 1], repo);
    }
  }

  lemma EmptyFrontierMeansDone(s: Scan, entries: seq<Entrypoint>, repo: Repo, doc: string)
    requires ScanInv(s, entries, repo) && s.frontier == []
    ensures doc in s.reachable <==> Reachable(doc, entries, repo)
  {
    if Reachable(doc, entries, repo) {
      var path :| IsPath(path, entries, repo) && path[|path| - 1] == doc;
      PathCollected(s, path, |path| - 1, entries, repo);
    }
  }

  /** A record of pops in some order, from the entrypoints to an empty frontier. */
  ghost predicate IsScan(scans: seq<Scan>, entries: seq<Entrypoint>, repo: Repo) {
    && scans != []
    && (forall d :: d in scans[0].reachable <==> IsRoot(d, entries))
    && (forall d :: d in scans[0].frontier <==> IsRoot(d, entries))
    && forall k :: 0 < k < |scans| ==> Follows(scans[k - 1], scans[k], repo)
  }

  lemma {:induction false} ScanHoldsInv(scans: seq<Scan>, k: nat, entries: seq<Entrypoint>, repo: Repo)
    requires IsScan(scans, entries, repo) && k < |scans|
    ensures ScanInv(scans[k], entries, repo)
    ensures |scans[k].frontier| - |scans[k].reachable| == |scans[0].frontier| - |scans[0].reachable| - k
  {
    if k == 0 {
      forall d | d in scans[0].reachable
        ensures Reachable(d, entries, repo)
      {
        RootReachable(d, entries, repo);
      }
    } else {
      ScanHoldsInv(scans, k - 1, entries, repo);
      VisitKeepsInv(scans[k - 1], scans[k], entries, repo);
      VisitCounts(scans[k - 1], scans[k], repo);
    }
  }

  /** Whatever order items are popped in, an emptied worklist has collected exactly what is
      reachable, and took one pop per collected document and per repeated entrypoint. */
  lemma AnyPopOrderFindsTheSame(scans: seq<Scan>, entries: seq<Entrypoint>, repo: Repo, doc: string)
    requires IsScan(scans, entries, repo) && scans[|scans| - 1].frontier == []
    ensures doc in scans[|scans| - 1].reachable <==> Reachable(doc, entries, repo)
    ensures |scans| - 1 == |scans[|scans| - 1].reachable| + |scans[0].frontier| - |scans[0].reachable|
  {
    ScanHoldsInv(scans, |scans| - 1, entries, repo);
    EmptyFrontierMeansDone(scans[|scans| - 1], entries, repo, doc);
  }

  // ---- The detector ----

  /** Every path the scan could ever collect. */
  function Universe(entries: seq<Entrypoint>, repo: Repo): set<string> {
    (set e | e in entries :: e.path) + (set d, t | d in repo.texts && t in repo.texts[d] :: t.path)
  }

  ghost predicate IsOrphan(doc: string, entries: seq<Entrypoint>, exempt: seq<string>, repo: Repo) {
    && !Reachable(doc, entries, repo)
    && (forall e :: e in entries ==> e.path != doc)
    && (forall p :: p in exempt ==> !(p <= doc))
  }

  method ExistingEntrypoints(entries: seq<Entrypoint>) returns (paths: seq<string>)
    ensures forall d :: d in paths <==> IsRoot(d, entries)
  {
    paths := [];
    for i := 0 to |entries|
      invariant forall d :: d in paths <==> Entrypoint(d, true) in entries[..i]
    {
      assert entries[..i + 1] == entries[..i] + [entries[i]];
      if entries[i].exists_ {
        paths := paths + [entries[i].path];
      }
    }
    assert entries[..|entries|] == entries;
  }

  lemma ScanSnoc(scans: seq<Scan>, next: Scan, entries: seq<Entrypoint>, repo: Repo)
    requires IsScan(scans, entries, repo) && Follows(scans[|scans| - 1], next, repo)
    ensures IsScan(scans + [next], entries, repo)
  {
    var longer := scans + [next];
    forall k | 0 < k < |longer|
      ensures Follows(longer[k - 1], longer[k], repo)
    {
      if k < |scans| {
        assert longer[k - 1] == scans[k - 1] && longer[k] == scans[k];
      }
    }
  }

  lemma RootsInUniverse(entries: seq<Entrypoint>, repo: Repo)
    ensures forall d :: IsRoot(d, entries) ==> d in Universe(entries, repo)
  {
    forall d | IsRoot(d, entries)
      ensures d in Universe(entries, repo)
    {
      assert Entrypoint(d, true).path == d;
    }
  }

  /** One turn of the worklist: the last item is popped and its unseen links pushed. */
  method PopAndFollow(reachable0: set<string>, frontier0: seq<string>, ghost entries: seq<Entrypoint>, repo: Repo)
    returns (reachable: set<string>, frontier: seq<string>)
    requires frontier0 != [] && reachable0 <= Universe(entries, repo)
    ensures Follows(Scan(reachable0, frontier0), Scan(reachable, frontier), repo)
    ensures reachable0 <= reachable <= Universe(entries, repo)
    ensures reachable == reachable0 ==> |frontier| < |frontier0|
  {
    ghost var s := Scan(reachable0, frontier0);
    var cur := frontier0[|frontier0| - 1];
    ghost var rest := frontier0[..|frontier0| - 1];
    reachable, frontier := reachable0, frontier0[..|frontier0| - 1];
    var links := OutgoingDocLinks(cur, repo);
    for i := 0 to |links|
      invariant forall d :: d in reachable <==> d in reachable0 || d in links[..i]
      invariant forall d :: d in frontier <==> d in rest || (d in reachable && d !in reachable0)
      invariant |frontier| == |rest| + |reachable - reachable0|
    {
      assert links[..i + 1] == links[..i] + [links[i]];
      if links[i] !in reachable {
        assert reachable + {links[i]} - reachable0 == (reachable - reachable0) + {links[i]};
        reachable := reachable + {links[i]};
        frontier := frontier + [links[i]];
      }
    }
    assert links[..|links|] == links;
    assert rest == frontier0[..|rest|] + frontier0[|rest| + 1..];
    assert Visits(s, Scan(reachable, frontier), |rest|, repo);
    forall d | d in reachable
      ensures d in Universe(entries, repo)
    {
      if d !in reachable0 {
        var t :| t in TextOf(cur, repo) && IsDocLink(t, repo) && t.path == d;
        assert cur in repo.texts;
      }
    }
    assert reachable == reachable0 ==> reachable - reachable0 == {};
  }

  method FollowLinks(entries: seq<Entrypoint>, repo: Repo) returns (reachable: set<string>)
    ensures forall d :: d in reachable <==> Reachable(d, entries, repo)
  {
    var frontier := ExistingEntrypoints(entries);
    reachable := set d | d in frontier;
    ghost var scans := [Scan(reachable, frontier)];
    RootsInUniverse(entries, repo);
    while frontier != []
      invariant IsScan(scans, entries, repo) && scans[|scans| - 1] == Scan(reachable, frontier)
      invariant reachable <= Universe(entries, repo)
      decreases Universe(entries, repo) - reachable, |frontier|
    {
      reachable, frontier := PopAndFollow(reachable, frontier, entries, repo);
      ScanSnoc(scans, Scan(reachable, frontier), entries, repo);
      scans := scans + [Scan(reachable, frontier)];
    }
    forall d
      ensures d in reachable <==> Reachable(d, entries, repo)
    {
      AnyPopOrderFindsTheSame(scans, entries, repo, d);
    }
  }

  /** A doc is reported exactly when no link path from an existing entrypoint reaches it and it is
      neither an entrypoint nor exempt; reports keep the order of the docs. */
  method DetectOrphans(docs: seq<string>, entries: seq<Entrypoint>, exempt: seq<string>, repo: Repo)
    returns (orphans: seq<string>)
    ensures orphans == Filter(docs, (d: string) => IsOrphan(d, entries, exempt, repo))
  {
    var reachable := FollowLinks(entries, repo);
    var entry := set e | e in entries :: e.path;
    orphans := [];
    ghost var keep := (d: string) => IsOrphan(d, entries, exempt, repo);
    for i := 0 to |docs|
      invariant orphans == Filter(docs[..i], keep)
    {
      var doc := docs[i];
      assert docs[..i + 1] == docs[..i] + [doc];
      FilterSnoc(docs[..i], doc, keep);
      if !(doc in reachable || doc in entry || StartsWithAny(doc, exempt)) {
        orphans := orphans + [doc];
      }
    }
    assert docs[..|docs|] == docs;
  }
}

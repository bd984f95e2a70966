/** caps/fingerprint.py: how much drift the aggregate fingerprint can see. Its bytes are path,
    content, path, content with nothing between, so equal fingerprints do not mean equal files in
    general; these results say exactly when they do. */
module DriftVisibility {
  import opened Wrappers
  import opened Text
  import opened Manifest
  import opened Fingerprint

  ghost predicate SameLength(r: string, a: Tree, b: Tree) {
    |Content(r, a)| == |Content(r, b)|
  }

  // ---- The stream of a set of paths ----

  function SetStream(s: set<string>, t: Tree): string {
    Stream(Sorted(s), t)
  }

  lemma {:induction false} StreamConcat(a: seq<string>, b: seq<string>, t: Tree)
    ensures Stream(a + b, t) == Stream(a, t) + Stream(b, t)
  {
    if a == [] {
      assert a + b == b;
    } else {
      assert (a + b)[1..] == a[1..] + b;
      StreamConcat(a[1..], b, t);
    }
  }

  ghost predicate AllBelow(a: set<string>, b: set<string>) {
    forall x, y :: x in a && y in b ==> Below(x, y)
  }

  /** Where every path of `a` sorts before every path of `b`, the stream of both is the one after the other. */
  lemma SetStreamSplits(a: set<string>, b: set<string>, t: Tree)
    requires AllBelow(a, b)
    ensures SetStream(a + b, t) == SetStream(a, t) + SetStream(b, t)
  {
    var joined := Sorted(a) + Sorted(b);
    forall i, j | 0 <= i < j < |joined|
      ensures Below(joined[i], joined[j])
    {
      assert i < |Sorted(a)| ==> joined[i] in Sorted(a);
      assert j >= |Sorted(a)| ==> joined[j] in Sorted(b);
    }
    AscendingUnique(Sorted(a + b), joined);
    StreamConcat(Sorted(a), Sorted(b), t);
  }

  lemma SingleStream(p: string, t: Tree)
    ensures SetStream({p}, t) == p + Content(p, t)
  {
    AscendingUnique(Sorted({p}), [p]);
    StreamSnoc([], p, t);
    assert [] + [p] == [p];
  }

  function Under(s: set<string>, p: string): set<string> {
    set x | x in s && Below(x, p)
  }

  function Over(s: set<string>, p: string): set<string> {
    set x | x in s && Below(p, x)
  }

  lemma CutSets(s: set<string>, p: string)
    requires p in s
    ensures s == Under(s, p) + ({p} + Over(s, p))
    ensures AllBelow(Under(s, p), {p} + Over(s, p)) && AllBelow({p}, Over(s, p))
  {
    var lo, hi := Under(s, p), Over(s, p);
    forall x | x in s
      ensures x in lo || x == p || x in hi
    {
      BelowTotal(x, p);
    }
    forall x, y | x in lo && y in {p} + hi
      ensures Below(x, y)
    {
      if y != p {
        BelowTransitive(x, p, y);
      }
    }
  }

  /** The stream cut at one of its paths. */
  lemma CutAt(s: set<string>, p: string, t: Tree)
    requires p in s
    ensures SetStream(s, t) == SetStream(Under(s, p), t) + (p + Content(p, t)) + SetStream(Over(s, p), t)
  {
    CutSets(s, p);
    SetStreamSplits(Under(s, p), {p} + Over(s, p), t);
    SetStreamSplits({p}, Over(s, p), t);
    SingleStream(p, t);
  }

  lemma SameStream(s: set<string>, a: Tree, b: Tree)
    requires forall r :: r in s ==> Content(r, a) == Content(r, b)
    ensures SetStream(s, a) == SetStream(s, b)
  {
    SameContentSameStream(Sorted(s), a, b);
  }

  // ---- Lengths ----

  lemma {:induction false} StreamLengths(rels: seq<string>, odd: string, a: Tree, b: Tree)
    requires Ascending(rels)
    requires forall r :: r in rels && r != odd ==> SameLength(r, a, b)
    ensures |Stream(rels, a)| - |Stream(rels, b)| ==
      if odd in rels then |Content(odd, a)| - |Content(odd, b)| else 0
  {
    if rels != [] {
      HeadNotInTail(rels);
      StreamLengths(rels[1..], odd, a, b);
      assert rels == [rels[0]] + rels[1..];
      assert rels[0] == odd || SameLength(rels[0], a, b);
    }
  }

  lemma SameLengthStreams(s: set<string>, a: Tree, b: Tree)
    requires forall r :: r in s ==> SameLength(r, a, b)
    ensures |SetStream(s, a)| == |SetStream(s, b)|
  {
    var odd := if s == {} then "" else Least(s);
    StreamLengths(Sorted(s), odd, a, b);
  }

  lemma {:induction false} SameLengthsSplit(rels: seq<string>, a: Tree, b: Tree)
    requires forall r :: r in rels ==> SameLength(r, a, b)
    requires Stream(rels, a) == Stream(rels, b)
    ensures forall r :: r in rels ==> Content(r, a) == Content(r, b)
  {
    if rels != [] {
      var p := rels[0];
      assert SameLength(p, a, b);
      var n := |p| + |Content(p, a)|;
      assert Stream(rels, a)[|p|..n] == Content(p, a);
      assert Stream(rels, b)[|p|..n] == Content(p, b);
      assert Stream(rels, a)[n..] == Stream(rels[1..], a);
      assert Stream(rels, b)[n..] == Stream(rels[1..], b);
      SameLengthsSplit(rels[1..], a, b);
      assert rels == [p] + rels[1..];
    }
  }

  // ---- Edits on one surface ----

  /** On one surface, if at most one file changed length, equal fingerprints mean no drift at all. */
  lemma OneLengthChangeIsSeen(cap: Capability, before: Tree, after: Tree, odd: string)
    requires Surface(cap, before) == Surface(cap, after)
    requires forall r :: r in Surface(cap, before) && r != odd ==> SameLength(r, before, after)
    ensures FingerprintOf(cap, before) == FingerprintOf(cap, after) <==>
      forall p :: !Drifted(p, cap, before, after)
  {
    var s := Surface(cap, before);
    var rels := Sorted(s);
    forall p
      ensures InSurface(p, cap, before) == InSurface(p, cap, after)
    {
      assert p in s <==> p in Surface(cap, after);
    }
    if forall p :: !Drifted(p, cap, before, after) {
      forall r | r in rels
        ensures Content(r, before) == Content(r, after)
      {
        assert !Drifted(r, cap, before, after);
      }
      SameContentSameStream(rels, before, after);
    }
    if FingerprintOf(cap, before) == FingerprintOf(cap, after) {
      StreamLengths(rels, odd, before, after);
      SameLengthsSplit(rels, before, after);
    }
  }

  /** The same files, matches and artifacts; only contents may differ. */
  predicate SameListing(a: Tree, b: Tree) {
    a.files.Keys == b.files.Keys && a.matches == b.matches && a.artifacts == b.artifacts
  }

  lemma SameListingSameSurface(cap: Capability, a: Tree, b: Tree)
    requires SameListing(a, b)
    ensures Surface(cap, a) == Surface(cap, b)
  {
    forall p
      ensures InSurface(p, cap, a) == InSurface(p, cap, b)
    {
      assert IsDep(p, a) == IsDep(p, b);
      assert forall g :: MatchesOf(g, a) == MatchesOf(g, b);
    }
  }

  lemma NotItself(p: string)
    ensures !Below(p, p)
  {
    if Below(p, p) {
      BelowAsymmetric(p, p);
    }
  }

  lemma CutTwice(s: set<string>, p: string, q: string, t: Tree)
    requires p in s && q in s && Below(p, q)
    ensures var over := Over(s, p);
      SetStream(s, t) == SetStream(Under(s, p), t) + (p + Content(p, t)) +
        (SetStream(Under(over, q), t) + (q + Content(q, t)) + SetStream(Over(over, q), t))
  {
    CutAt(s, p, t);
    CutAt(Over(s, p), q, t);
  }

  /** Neither of two paths is in any of the three stretches they cut a surface into. */
  lemma StretchesAvoid(s: set<string>, p: string, q: string)
    requires Below(p, q)
    ensures var over := Over(s, p);
      forall r :: r in Under(s, p) || r in Under(over, q) || r in Over(over, q) ==> r in s && r != p && r != q
  {
    NotItself(p);
    NotItself(q);
    BelowAsymmetric(p, q);
  }

  lemma MovedText(lo: string, p: string, mid: string, q: string, hi: string)
    ensures lo + (p + "") + (mid + (q + (mid + q)) + hi) == lo + (p + (mid + q)) + (mid + (q + "") + hi)
  {
    var one := mid + q;
    assert mid + (q + (mid + q)) + hi == one + one + hi;
    assert mid + (q + "") + hi == one + hi;
    assert p + "" == p;
    assert lo + p + (one + one + hi) == lo + (p + one) + (one + hi);
  }

  /** The stretch of stream from just after `p` up to and with `q`'s name. */
  function Stretch(s: set<string>, p: string, q: string, t: Tree): string {
    SetStream(Under(Over(s, p), q), t) + q
  }

  /** Moving the stretch of stream between two files from one to the other keeps the stream. */
  lemma MovedStretch(s: set<string>, p: string, q: string, t: Tree, a: Tree, b: Tree)
    requires p in s && q in s && Below(p, q)
    requires Content(p, a) == "" && Content(q, a) == Stretch(s, p, q, t)
    requires Content(p, b) == Stretch(s, p, q, t) && Content(q, b) == ""
    requires forall r :: r in s && r != p && r != q ==> Content(r, a) == Content(r, t) == Content(r, b)
    ensures SetStream(s, a) == SetStream(s, b)
  {
    var lo, mid, hi := Under(s, p), Under(Over(s, p), q), Over(Over(s, p), q);
    StretchesAvoid(s, p, q);
    SameStream(lo, a, b);
    SameStream(mid, a, t);
    SameStream(mid, b, t);
    SameStream(hi, a, b);
    CutTwice(s, p, q, a);
    CutTwice(s, p, q, b);
    MovedText(SetStream(lo, a), p, SetStream(mid, t), q, SetStream(hi, a));
  }

  /** `t` with the contents of two files replaced. */
  function Rewrite(t: Tree, p: string, pText: string, q: string, qText: string): (r: Tree)
    requires p in t.files && q in t.files && p != q
    ensures SameListing(t, r) && Content(p, r) == pText && Content(q, r) == qText
    ensures forall x :: x != p && x != q ==> Content(x, r) == Content(x, t)
  {
    t.(files := t.files[p := pText][q := qText])
  }

  /** For any capability and any two existing files of its surface, two trees that differ in just
      these files share a fingerprint. */
  lemma TwoLengthChangesCanHide(cap: Capability, t: Tree, p: string, q: string)
    requires p in Surface(cap, t) && q in Surface(cap, t) && p != q && Below(p, q)
    requires p in t.files && q in t.files
    ensures var moved := Stretch(Surface(cap, t), p, q, t);
      var a, b := Rewrite(t, p, "", q, moved), Rewrite(t, p, moved, q, "");
      && FingerprintOf(cap, a) == FingerprintOf(cap, b)
      && Content(p, a) != Content(p, b) && Content(q, a) != Content(q, b)
  {
    var moved := Stretch(Surface(cap, t), p, q, t);
    var a, b := Rewrite(t, p, "", q, moved), Rewrite(t, p, moved, q, "");
    SameListingSameSurface(cap, t, a);
    SameListingSameSurface(cap, t, b);
    MovedStretch(Surface(cap, t), p, q, t, a, b);
    assert Below(p, q) && q != "";
  }

  /** The same listing, and lengths fixed off `free`. */
  ghost predicate EditsOf(cap: Capability, t: Tree, free: set<string>, a: Tree, b: Tree) {
    && SameListing(t, a) && SameListing(t, b)
    && forall r :: r in Surface(cap, t) && r !in free ==> SameLength(r, a, b)
  }

  /** Whatever the contents, with lengths fixed off `free`, equal fingerprints mean no drift. */
  ghost predicate SeesEveryEdit(cap: Capability, t: Tree, free: set<string>) {
    forall a, b :: EditsOf(cap, t, free, a, b) && FingerprintOf(cap, a) == FingerprintOf(cap, b)
      ==> forall p :: !Drifted(p, cap, a, b)
  }

  lemma {:induction false} SubsetCard(a: set<string>, b: set<string>)
    requires a <= b
    ensures |a| <= |b|
  {
    if a != {} {
      var x :| x in a;
      SubsetCard(a - {x}, b - {x});
    }
  }

  lemma AtMostOne(s: set<string>)
    requires |s| <= 1
    ensures forall x, y :: x in s && y in s ==> x == y
  {
    forall x, y | x in s && y in s
      ensures x == y
    {
      if x != y {
        assert {x, y} <= s && |{x, y}| == 2;
        SubsetCard({x, y}, s);
        assert false;
      }
    }
  }

  lemma TwoMembers(s: set<string>) returns (p: string, q: string)
    requires |s| > 1
    ensures p in s && q in s && p != q && Below(p, q)
  {
    p := Least(s);
    assert |s - {p}| == |s| - 1;
    q :| q in s - {p};
  }

  lemma OneFreeIsSeen(cap: Capability, t: Tree, free: set<string>, a: Tree, b: Tree)
    requires |free| <= 1 && EditsOf(cap, t, free, a, b)
    requires FingerprintOf(cap, a) == FingerprintOf(cap, b)
    ensures forall p :: !Drifted(p, cap, a, b)
  {
    AtMostOne(free);
    var odd := if free == {} then "" else Least(free);
    SameListingSameSurface(cap, t, a);
    SameListingSameSurface(cap, t, b);
    OneLengthChangeIsSeen(cap, a, b, odd);
  }

  lemma HiddenEdit(cap: Capability, t: Tree, free: set<string>, a: Tree, b: Tree, p: string)
    requires EditsOf(cap, t, free, a, b) && FingerprintOf(cap, a) == FingerprintOf(cap, b)
    requires p in Surface(cap, t) && Content(p, a) != Content(p, b)
    ensures !SeesEveryEdit(cap, t, free)
  {
    SameListingSameSurface(cap, t, a);
    assert p in Surface(cap, a);
    assert Drifted(p, cap, a, b);
  }

  lemma TwoFreeCanHide(cap: Capability, t: Tree, free: set<string>, p: string, q: string)
    requires free <= Surface(cap, t) && free <= t.files.Keys
    requires p in free && q in free && p != q && Below(p, q)
    ensures !SeesEveryEdit(cap, t, free)
  {
    var moved := Stretch(Surface(cap, t), p, q, t);
    var a, b := Rewrite(t, p, "", q, moved), Rewrite(t, p, moved, q, "");
    TwoLengthChangesCanHide(cap, t, p, q);
    assert EditsOf(cap, t, free, a, b) by {
      forall r | r in Surface(cap, t) && r !in free
        ensures SameLength(r, a, b)
      {
        assert r != p && r != q;
      }
    }
    HiddenEdit(cap, t, free, a, b, p);
  }

  /** On one surface the fingerprint sees every edit exactly when at most one file is free to change length. */
  lemma SeesEveryEditExactly(cap: Capability, t: Tree, free: set<string>)
    requires free <= Surface(cap, t) && free <= t.files.Keys
    ensures SeesEveryEdit(cap, t, free) <==> |free| <= 1
  {
    if |free| <= 1 {
      forall a, b | EditsOf(cap, t, free, a, b) && FingerprintOf(cap, a) == FingerprintOf(cap, b)
        ensures forall p :: !Drifted(p, cap, a, b)
      {
        OneFreeIsSeen(cap, t, free, a, b);
      }
    } else {
      var p, q := TwoMembers(free);
      TwoFreeCanHide(cap, t, free, p, q);
    }
  }

  // ---- A file added or removed ----

  /** `after` lists one more file than `before`, and the surface grows by just that path. */
  ghost predicate AddsFile(cap: Capability, before: Tree, after: Tree, q: string) {
    && q != "" && q !in before.files && after.files.Keys == before.files.Keys + {q}
    && q !in Surface(cap, before) && Surface(cap, after) == Surface(cap, before) + {q}
  }

  /** Contents for the two listings, with lengths fixed off `free`. */
  ghost predicate EditsAcross(cap: Capability, before: Tree, after: Tree, free: set<string>, a: Tree, b: Tree) {
    && SameListing(before, a) && SameListing(after, b)
    && forall r :: r in Surface(cap, before) && r !in free ==> SameLength(r, a, b)
  }

  /** Whatever the contents, with lengths fixed off `free`, the fingerprint moves. Read backwards it
      is about removing the file. */
  ghost predicate SeesAddition(cap: Capability, before: Tree, after: Tree, free: set<string>) {
    forall a, b :: EditsAcross(cap, before, after, free, a, b) ==> FingerprintOf(cap, a) != FingerprintOf(cap, b)
  }

  lemma GrownCut(s: set<string>, q: string, t: Tree)
    requires q !in s
    ensures SetStream(s + {q}, t) == SetStream(Under(s, q), t) + (q + Content(q, t)) + SetStream(Over(s, q), t)
    ensures SetStream(s, t) == SetStream(Under(s, q), t) + SetStream(Over(s, q), t)
  {
    NotItself(q);
    assert Under(s + {q}, q) == Under(s, q) && Over(s + {q}, q) == Over(s, q);
    CutAt(s + {q}, q, t);
    forall x | x in s
      ensures x in Under(s, q) || x in Over(s, q)
    {
      BelowTotal(x, q);
    }
    assert s == Under(s, q) + Over(s, q);
    forall x, y | x in Under(s, q) && y in Over(s, q)
      ensures Below(x, y)
    {
      BelowTransitive(x, q, y);
    }
    SetStreamSplits(Under(s, q), Over(s, q), t);
  }

  /** With no length free to change, an added file only makes the stream longer. */
  lemma LongerIsSeen(cap: Capability, a: Tree, b: Tree, q: string)
    requires q != "" && q !in Surface(cap, a) && Surface(cap, b) == Surface(cap, a) + {q}
    requires forall r :: r in Surface(cap, a) ==> SameLength(r, a, b)
    ensures FingerprintOf(cap, a) != FingerprintOf(cap, b)
  {
    var s := Surface(cap, a);
    GrownCut(s, q, b);
    SameLengthStreams(s, a, b);
    assert |SetStream(s + {q}, b)| > |SetStream(s, a)|;
  }

  lemma {:induction false} DifferSomewhere(q: string, r: string) returns (i: nat)
    requires Below(q, r) && !(q <= r)
    ensures i < |q| && i < |r| && q[i] != r[i]
  {
    if q[0] != r[0] {
      i := 0;
    } else {
      assert q == [q[0]] + q[1..] && r == [r[0]] + r[1..];
      var k := DifferSomewhere(q[1..], r[1..]);
      i := k + 1;
    }
  }

  lemma StreamStarts(s: set<string>, t: Tree)
    requires s != {}
    ensures Least(s) <= SetStream(s, t)
  {
    assert Sorted(s)[0] == Least(s);
  }

  /** Two byte streams that go on with different paths, the first not continuing the second, part. */
  lemma StringsPart(la: string, ha: string, first: string, lb: string, q: string, content: string, hb: string)
    requires |la| == |lb| && first <= ha
    requires Below(q, first) && !(q <= first)
    ensures la + ha != lb + (q + content) + hb
  {
    var i := DifferSomewhere(q, first);
    assert (la + ha)[|la| + i] == first[i];
    assert (lb + (q + content) + hb)[|lb| + i] == q[i];
  }

  lemma StreamsPart(s: set<string>, a: Tree, b: Tree, q: string, lo: set<string>, hi: set<string>)
    requires q !in s && lo == Under(s, q) && hi == Over(s, q) && hi != {}
    requires forall r :: r in lo ==> SameLength(r, a, b)
    requires Below(q, Least(hi)) && !(q <= Least(hi))
    ensures SetStream(s, a) != SetStream(s + {q}, b)
  {
    GrownCut(s, q, a);
    GrownCut(s, q, b);
    SameLengthStreams(lo, a, b);
    StreamStarts(hi, a);
    StringsPart(SetStream(lo, a), SetStream(hi, a), Least(hi), SetStream(lo, b), q, Content(q, b), SetStream(hi, b));
  }

  /** With lengths free only past the new path, and no path that continues it, the bytes part at
      the new path itself. */
  lemma PartsAtNewPath(cap: Capability, a: Tree, b: Tree, q: string)
    requires q !in Surface(cap, a) && Surface(cap, b) == Surface(cap, a) + {q}
    requires forall r :: r in Surface(cap, a) && Below(r, q) ==> SameLength(r, a, b)
    requires Over(Surface(cap, a), q) != {}
    requires forall r :: r in Surface(cap, a) ==> !(q <= r)
    ensures FingerprintOf(cap, a) != FingerprintOf(cap, b)
  {
    var s := Surface(cap, a);
    StreamsPart(s, a, b, q, Under(s, q), Over(s, q));
  }

  lemma EarlierText(lo: string, p: string, mid: string, q: string, hi: string)
    ensures lo + (p + (mid + q)) + (mid + hi) == lo + (p + "") + (mid + (q + mid) + hi)
  {
    assert p + "" == p;
    assert lo + p + (mid + (q + mid) + hi) == lo + (p + (mid + q)) + (mid + hi);
  }

  lemma GrownAbove(s: set<string>, q: string, p: string)
    requires Below(p, q)
    ensures Under(s + {q}, p) == Under(s, p) && Over(s + {q}, p) == Over(s, p) + {q}
  {
    BelowAsymmetric(p, q);
  }

  /** With the same lower and upper streams, what an earlier file gives up pays for the new one. */
  lemma EarlierPays(s: set<string>, q: string, p: string, t: Tree, a: Tree, b: Tree)
    requires p in s && q !in s && Below(p, q)
    requires Content(p, a) == Stretch(s, p, q, t)
    requires Content(p, b) == "" && Content(q, b) == SetStream(Under(Over(s, p), q), t)
    requires forall r :: r in s && r != p ==> Content(r, a) == Content(r, t) == Content(r, b)
    ensures SetStream(s, a) == SetStream(s + {q}, b)
  {
    var lo, over := Under(s, p), Over(s, p);
    var mid, hi := Under(over, q), Over(over, q);
    StretchesAvoid(s, p, q);
    SameStream(lo, a, b);
    SameStream(mid, a, t);
    SameStream(mid, b, t);
    SameStream(hi, a, b);
    GrownAbove(s, q, p);
    CutAt(s, p, a);
    CutAt(s + {q}, p, b);
    GrownCut(over, q, a);
    GrownCut(over, q, b);
    EarlierText(SetStream(lo, a), p, SetStream(mid, t), q, SetStream(hi, a));
  }

  /** Some contents of the two listings, free at `p`, share a fingerprint. */
  lemma HiddenAddition(cap: Capability, before: Tree, after: Tree, p: string, a: Tree, b: Tree)
    requires EditsAcross(cap, before, after, {p}, a, b)
    requires SetStream(Surface(cap, before), a) == SetStream(Surface(cap, after), b)
    ensures !SeesAddition(cap, before, after, {p})
  {
    SameListingSameSurface(cap, before, a);
    SameListingSameSurface(cap, after, b);
    assert FingerprintOf(cap, a) == FingerprintOf(cap, b);
  }

  /** `t` with one file's contents replaced. */
  function RewriteOne(t: Tree, p: string, text: string): (r: Tree)
    requires p in t.files
    ensures SameListing(t, r) && Content(p, r) == text
    ensures forall x :: x != p ==> Content(x, r) == Content(x, t)
  {
    t.(files := t.files[p := text])
  }

  /** The contents of `t` under the listing of `after`, but for two files. */
  function Transplant(t: Tree, after: Tree, p: string, pText: string, q: string, qText: string): (r: Tree)
    requires p in t.files && p != q && after.files.Keys == t.files.Keys + {q}
    ensures SameListing(after, r) && Content(p, r) == pText && Content(q, r) == qText
    ensures forall x :: x != p && x != q ==> Content(x, r) == Content(x, t)
  {
    after.(files := t.files[p := pText][q := qText])
  }

  /** What `p` gives up pays for the new file: the two trees differ in length nowhere else. */
  lemma HiddenByMove(cap: Capability, before: Tree, after: Tree, q: string, p: string, give: string, take: string)
    requires AddsFile(cap, before, after, q) && p in Surface(cap, before) && p in before.files
    requires SetStream(Surface(cap, before), RewriteOne(before, p, give)) ==
      SetStream(Surface(cap, after), Transplant(before, after, p, "", q, take))
    ensures !SeesAddition(cap, before, after, {p})
  {
    var a, b := RewriteOne(before, p, give), Transplant(before, after, p, "", q, take);
    assert EditsAcross(cap, before, after, {p}, a, b) by {
      forall r | r in Surface(cap, before) && r !in {p}
        ensures SameLength(r, a, b)
      {
        assert r != p && r != q;
      }
    }
    HiddenAddition(cap, before, after, p, a, b);
  }

  /** A file before the new one, free to change length, can give up what the new one brings. */
  lemma EarlierFileHidesAddition(cap: Capability, before: Tree, after: Tree, q: string, p: string)
    requires AddsFile(cap, before, after, q)
    requires p in Surface(cap, before) && p in before.files && Below(p, q)
    ensures !SeesAddition(cap, before, after, {p})
  {
    var s := Surface(cap, before);
    var give, take := Stretch(s, p, q, before), SetStream(Under(Over(s, p), q), before);
    EarlierPays(s, q, p, before, RewriteOne(before, p, give), Transplant(before, after, p, "", q, take));
    HiddenByMove(cap, before, after, q, p, give, take);
  }

  lemma {:induction false} PrefixBelow(q: string, r: string)
    requires q <= r && q != r
    ensures Below(q, r)
  {
    if q != "" {
      assert q == [q[0]] + q[1..] && r == [r[0]] + r[1..];
      PrefixBelow(q[1..], r[1..]);
    }
  }

  lemma BelowHeads(q: string, x: string, r: string)
    requires Below(q, x) && Below(x, r) && q <= r && q != ""
    ensures x != "" && r != "" && q[0] == x[0] == r[0] && Below(q[1..], x[1..]) && Below(x[1..], r[1..])
  {
  }

  lemma {:induction false} BetweenContinues(q: string, x: string, r: string)
    requires Below(q, x) && (x == r || Below(x, r)) && q <= r
    ensures q <= x
  {
    if q != "" && x != r {
      BelowHeads(q, x, r);
      assert q == [q[0]] + q[1..] && x == [x[0]] + x[1..] && r == [r[0]] + r[1..];
      assert q[1..] <= r[1..];
      BetweenContinues(q[1..], x[1..], r[1..]);
    }
  }

  /** The stretch of stream from the new path's place up to `p` starts with the new path's name. */
  lemma LeadContinues(over: set<string>, q: string, p: string, r: string, t: Tree)
    requires p in over && forall x :: x in over ==> Below(q, x)
    requires q <= r && q != r && r in over
    ensures q <= SetStream(Under(over, p), t) + p
  {
    var mid := Under(over, p);
    var first := Least(over);
    BetweenContinues(q, first, r);
    if mid == {} {
      BelowTotal(first, p);
      assert first !in mid;
      assert first == p;
      assert SetStream(mid, t) + p == p;
    } else {
      var x :| x in mid;
      assert first == p ==> Below(p, x) && Below(x, p);
      if first == p {
        BelowAsymmetric(x, p);
      }
      assert first in mid;
      assert Sorted(mid)[0] == Least(mid);
      LeastUnique(mid);
      assert IsLeast(first, mid);
    }
  }

  lemma LaterText(lo: string, q: string, rest: string, mid: string, p: string, hi: string)
    requires q + rest == mid + p
    ensures lo + (mid + (p + (mid + p)) + hi) == lo + (q + rest) + (mid + (p + "") + hi)
  {
    assert p + "" == p;
    var one := mid + p;
    assert mid + (p + (mid + p)) + hi == one + (one + hi);
    assert mid + p + hi == one + hi;
  }

  /** With a path that continues the new one, what a later file gives up pays for the new one. */
  lemma LaterPays(s: set<string>, q: string, p: string, rest: string, t: Tree, a: Tree, b: Tree)
    requires p in s && q !in s && Below(q, p)
    requires Stretch(s, q, p, t) == q + rest
    requires Content(p, a) == Stretch(s, q, p, t)
    requires Content(p, b) == "" && Content(q, b) == rest
    requires forall r :: r in s && r != p ==> Content(r, a) == Content(r, t) == Content(r, b)
    ensures SetStream(s, a) == SetStream(s + {q}, b)
  {
    var lo, over := Under(s, q), Over(s, q);
    var mid, hi := Under(over, p), Over(over, p);
    StretchesAvoid(s, q, p);
    SameStream(lo, a, b);
    SameStream(mid, a, t);
    SameStream(mid, b, t);
    SameStream(hi, a, b);
    GrownCut(s, q, a);
    GrownCut(s, q, b);
    CutAt(over, p, a);
    CutAt(over, p, b);
    LaterText(SetStream(lo, a), q, rest, SetStream(mid, t), p, SetStream(hi, a));
  }

  /** So can a later file, when some path of the surface continues the new one. */
  lemma LaterFileHidesAddition(cap: Capability, before: Tree, after: Tree, q: string, p: string, r: string)
    requires AddsFile(cap, before, after, q)
    requires p in Surface(cap, before) && p in before.files && Below(q, p)
    requires r in Surface(cap, before) && q <= r
    ensures !SeesAddition(cap, before, after, {p})
  {
    var s := Surface(cap, before);
    PrefixBelow(q, r);
    LeadContinues(Over(s, q), q, p, r, before);
    var lead := Stretch(s, q, p, before);
    var rest := lead[|q|..];
    LaterPays(s, q, p, rest, before, RewriteOne(before, p, lead), Transplant(before, after, p, "", q, rest));
    HiddenByMove(cap, before, after, q, p, lead, rest);
  }

  lemma MoreFreedomHidesMore(cap: Capability, before: Tree, after: Tree, p: string, free: set<string>)
    requires p in free && !SeesAddition(cap, before, after, {p})
    ensures !SeesAddition(cap, before, after, free)
  {
    var a, b :| EditsAcross(cap, before, after, {p}, a, b) && FingerprintOf(cap, a) == FingerprintOf(cap, b);
    assert EditsAcross(cap, before, after, free, a, b);
  }

  /** No length is free, or only those of files sorting after the new one, none of which continues its name. */
  ghost predicate AdditionCondition(cap: Capability, before: Tree, q: string, free: set<string>) {
    || free == {}
    || ((forall p :: p in free ==> Below(q, p)) && forall r :: r in Surface(cap, before) ==> !(q <= r))
  }

  lemma AdditionIsSeen(cap: Capability, before: Tree, after: Tree, q: string, free: set<string>, a: Tree, b: Tree)
    requires AddsFile(cap, before, after, q) && free <= Surface(cap, before)
    requires AdditionCondition(cap, before, q, free) && EditsAcross(cap, before, after, free, a, b)
    ensures FingerprintOf(cap, a) != FingerprintOf(cap, b)
  {
    SameListingSameSurface(cap, before, a);
    SameListingSameSurface(cap, after, b);
    if free == {} {
      LongerIsSeen(cap, a, b, q);
    } else {
      var p :| p in free;
      assert p in Over(Surface(cap, a), q);
      forall r | r in Surface(cap, a) && Below(r, q)
        ensures SameLength(r, a, b)
      {
        if r in free {
          BelowAsymmetric(r, q);
        }
      }
      PartsAtNewPath(cap, a, b, q);
    }
  }

  /** Adding a file is seen whatever the contents exactly when no length is free to change, or
      only files sorting after it are free and no path of the surface begins with its name. */
  lemma SeesAdditionExactly(cap: Capability, before: Tree, after: Tree, q: string, free: set<string>)
    requires AddsFile(cap, before, after, q)
    requires free <= Surface(cap, before) && free <= before.files.Keys
    ensures SeesAddition(cap, before, after, free) <==> AdditionCondition(cap, before, q, free)
  {
    if AdditionCondition(cap, before, q, free) {
      forall a, b | EditsAcross(cap, before, after, free, a, b)
        ensures FingerprintOf(cap, a) != FingerprintOf(cap, b)
      {
        AdditionIsSeen(cap, before, after, q, free, a, b);
      }
    } else if p :| p in free && !Below(q, p) {
      BelowTotal(p, q);
      EarlierFileHidesAddition(cap, before, after, q, p);
      MoreFreedomHidesMore(cap, before, after, p, free);
    } else {
      var p :| p in free;
      var r :| r in Surface(cap, before) && q <= r;
      LaterFileHidesAddition(cap, before, after, q, p, r);
      MoreFreedomHidesMore(cap, before, after, p, free);
    }
  }

  // ---- The smallest case ----

  const STAR := Capability("x", "cheap", ["*"], "code", ShellCommand, "true", false)

  function OneFile(a: string): Tree {
    Tree(map["a" := a], map["*" := ["a"]], {})
  }

  function TwoFiles(a: string, b: string): Tree {
    Tree(map["a" := a, "b" := b], map["*" := ["a", "b"]], {})
  }

  lemma OneFileFingerprint(a: string, t: Tree, preimage: string)
    requires t == OneFile(a) && preimage == "a" + a
    ensures FingerprintOf(STAR, t) == Sha256(preimage)
  {
    assert STAR.deps[0] == "*" && MatchesOf("*", t) == ["a"] && ["a"][0] == "a";
    assert Surface(STAR, t) == {"a"};
    SingleStream("a", t);
  }

  lemma TwoFileFingerprint(a: string, b: string, t: Tree, preimage: string)
    requires t == TwoFiles(a, b) && preimage == "a" + a + ("b" + b)
    ensures FingerprintOf(STAR, t) == Sha256(preimage)
  {
    var rels := ["a", "b"];
    assert STAR.deps[0] == "*" && MatchesOf("*", t) == rels && rels[0] == "a" && rels[1] == "b";
    assert Surface(STAR, t) == {"a"} + {"b"};
    SetStreamSplits({"a"}, {"b"}, t);
    SingleStream("a", t);
    SingleStream("b", t);
  }

  lemma NewFileDrifted(whole: string, x: string, y: string)
    ensures Drifted("b", STAR, OneFile(whole), TwoFiles(x, y))
  {
    var rels := ["a", "b"];
    assert MatchesOf("*", TwoFiles(x, y)) == rels && rels[1] == "b" && STAR.deps[0] == "*";
    assert InSurface("b", STAR, TwoFiles(x, y));
    assert !IsDep("b", OneFile(whole));
  }

  /** One file split into two under the same glob, only one length changed: not seen. */
  lemma SplittingAFileCanHide(x: string, y: string)
    ensures FingerprintOf(STAR, OneFile(x + "b" + y)) == FingerprintOf(STAR, TwoFiles(x, y))
    ensures Drifted("b", STAR, OneFile(x + "b" + y), TwoFiles(x, y))
  {
    var preimage := "a" + (x + "b" + y);
    assert preimage == "a" + x + ("b" + y);
    OneFileFingerprint(x + "b" + y, OneFile(x + "b" + y), preimage);
    TwoFileFingerprint(x, y, TwoFiles(x, y), preimage);
    NewFileDrifted(x + "b" + y, x, y);
  }
}

/** caps/fingerprint.py: the aggregate code fingerprint and the per-file map recorded beside it.
    SHA-256 is taken as collision-free: a digest is its preimage, tagged. */
module Fingerprint {
  import opened Wrappers
  import opened Text
  import opened Manifest

  datatype Digest = Sha256(preimage: string)

  /** What the file system answers: contents of existing files, the matches of each glob
      pattern, and which paths are build artifacts. */
  datatype Tree = Tree(files: map<string, string>, matches: map<string, seq<string>>, artifacts: set<string>)

  const MISSING := "<missing>"
  const FILE_MAP_LIMIT := 25

  /** `target.split("::", 1)[0]`. */
  function CheckFile(target: string): string {
    if |target| < 2 then target
    else if target[..2] == "::" then ""
    else [target[0]] + CheckFile(target[1..])
  }

  /** All of the target, or what comes before its first double colon. */
  lemma {:induction false} CheckFileCuts(target: string, i: nat)
    ensures CheckFile(target) <= target
    ensures CheckFile(target) != target ==> "::" <= target[|CheckFile(target)|..]
    ensures i < |CheckFile(target)| ==> !("::" <= target[i..])
  {
    if |target| >= 2 && target[..2] != "::" {
      CheckFileCuts(target[1..], if i == 0 then 0 else i - 1);
      assert target == [target[0]] + target[1..];
      assert i > 0 && i <= |target| ==> target[i..] == target[1..][i - 1..];
    }
  }

  function MatchesOf(pattern: string, tree: Tree): seq<string> {
    if pattern in tree.matches then tree.matches[pattern] else []
  }

  predicate IsDep(p: string, tree: Tree) {
    p in tree.files && p !in tree.artifacts
  }

  /** The paths a capability's proof covers: its check file, present or not, and every
      existing non-artifact file matched by one of its globs. */
  ghost predicate InSurface(p: string, cap: Capability, tree: Tree) {
    || (cap.kind.Pytest? && p == CheckFile(cap.target))
    || (IsDep(p, tree) && exists g :: g in cap.deps && p in MatchesOf(g, tree))
  }

  function Surface(cap: Capability, tree: Tree): (s: set<string>)
    ensures forall p :: p in s <==> InSurface(p, cap, tree)
  {
    (if cap.kind.Pytest? then {CheckFile(cap.target)} else {}) +
    (set g, p | g in cap.deps && p in MatchesOf(g, tree) && IsDep(p, tree) :: p)
  }

  method ResolveRels(cap: Capability, tree: Tree) returns (rels: seq<string>)
    ensures rels == Sorted(Surface(cap, tree))
    ensures Ascending(rels)
    ensures forall p :: p in rels <==>
      || (cap.kind.Pytest? && p == CheckFile(cap.target))
      || (p in tree.files && p !in tree.artifacts &&
          exists g :: g in cap.deps && g in tree.matches && p in tree.matches[g])
  {
    var seen: set<string> := {};
    if cap.kind.Pytest? {
      seen := {CheckFile(cap.target)};
    }
    ghost var start := seen;
    for i := 0 to |cap.deps|
      invariant forall p :: p in seen <==>
        p in start || (IsDep(p, tree) && exists g :: g in cap.deps[..i] && p in MatchesOf(g, tree))
    {
      var found := MatchesOf(cap.deps[i], tree);
      ghost var before := seen;
      for k := 0 to |found|
        invariant forall p :: p in seen <==> p in before || (IsDep(p, tree) && p in found[..k])
      {
        if IsDep(found[k], tree) {
          seen := seen + {found[k]};
        }
        assert found[..k + 1] == found[..k] + [found[k]];
      }
      assert found[..|found|] == found;
      assert cap.deps[..i + 1] == cap.deps[..i] + [cap.deps[i]];
    }
    assert cap.deps[..|cap.deps|] == cap.deps;
    assert seen == Surface(cap, tree);
    rels := Sorted(seen);
  }

  /** A missing file reads as a marker, so that deleting it shows. */
  function Content(rel: string, tree: Tree): (text: string)
    ensures rel !in tree.files ==> text == "<missing>"
  {
    if rel in tree.files then tree.files[rel] else MISSING
  }

  /** The bytes fed to the aggregate hash: path, content, path, content, with nothing between. */
  function Stream(rels: seq<string>, tree: Tree): string {
    if rels == [] then "" else rels[0] + Content(rels[0], tree) + Stream(rels[1..], tree)
  }

  function FingerprintOf(cap: Capability, tree: Tree): Digest {
    Sha256(Stream(Sorted(Surface(cap, tree)), tree))
  }

  lemma {:induction false} StreamSnoc(rels: seq<string>, last: string, tree: Tree)
    ensures Stream(rels + [last], tree) == Stream(rels, tree) + last + Content(last, tree)
  {
    if rels == [] {
      assert rels + [last] == [last];
    } else {
      assert (rels + [last])[1..] == rels[1..] + [last];
      StreamSnoc(rels[1..], last, tree);
    }
  }

  lemma StreamUpTo(rels: seq<string>, i: nat, tree: Tree)
    requires i < |rels|
    ensures Stream(rels[..i + 1], tree) == Stream(rels[..i], tree) + rels[i] + Content(rels[i], tree)
  {
    StreamSnoc(rels[..i], rels[i], tree);
    assert rels[..i + 1] == rels[..i] + [rels[i]];
  }

  method ComputeFingerprint(cap: Capability, tree: Tree) returns (d: Digest)
    ensures d == FingerprintOf(cap, tree)
  {
    var rels := ResolveRels(cap, tree);
    var h := "";
    for i := 0 to |rels|
      invariant h == Stream(rels[..i], tree)
    {
      StreamUpTo(rels, i, tree);
      h := h + rels[i] + Content(rels[i], tree);
    }
    assert rels[..|rels|] == rels;
    d := Sha256(h);
  }

  function FileFingerprints(cap: Capability, tree: Tree): map<string, Digest> {
    map rel | rel in Surface(cap, tree) :: Sha256(Content(rel, tree))
  }

  function ChangedDeps(cap: Capability, recorded: Option<map<string, Digest>>, tree: Tree): seq<string> {
    if recorded.None? || recorded.value == map[] then [] else
    var current := FileFingerprints(cap, tree);
    Sorted(set r | r in current.Keys + recorded.value.Keys && Get(current, r) != Get(recorded.value, r))
  }

  // ---- Stale proofs are explained ----

  /** A path was added to the surface, removed from it, or its content changed. */
  ghost predicate Drifted(p: string, cap: Capability, before: Tree, after: Tree) {
    || InSurface(p, cap, before) != InSurface(p, cap, after)
    || (InSurface(p, cap, before) && Content(p, before) != Content(p, after))
  }

  lemma ChangedDepsAreTheDrift(cap: Capability, before: Tree, after: Tree)
    requires FileFingerprints(cap, before) != map[]
    ensures var ch := ChangedDeps(cap, Some(FileFingerprints(cap, before)), after);
      Ascending(ch) && forall p :: p in ch <==> Drifted(p, cap, before, after)
  {
    var recorded, current := FileFingerprints(cap, before), FileFingerprints(cap, after);
    var ch := ChangedDeps(cap, Some(recorded), after);
    forall p
      ensures p in ch <==> Drifted(p, cap, before, after)
    {
      assert p in recorded <==> InSurface(p, cap, before);
      assert p in current <==> InSurface(p, cap, after);
    }
  }

  lemma {:induction false} SameContentSameStream(rels: seq<string>, a: Tree, b: Tree)
    requires forall r :: r in rels ==> Content(r, a) == Content(r, b)
    ensures Stream(rels, a) == Stream(rels, b)
  {
    if rels != [] {
      SameContentSameStream(rels[1..], a, b);
    }
  }

  /** If the fingerprint moved since the proof, the recorded file map names at least one culprit,
      and what it names is exactly what drifted. */
  lemma StaleIsExplained(cap: Capability, before: Tree, after: Tree)
    requires FileFingerprints(cap, before) != map[]
    requires FingerprintOf(cap, before) != FingerprintOf(cap, after)
    ensures var ch := ChangedDeps(cap, Some(FileFingerprints(cap, before)), after);
      ch != [] && Ascending(ch) && forall p :: p in ch <==> Drifted(p, cap, before, after)
  {
    ChangedDepsAreTheDrift(cap, before, after);
    var s := Surface(cap, before);
    if forall p :: !Drifted(p, cap, before, after) {
      forall p
        ensures p in s <==> p in Surface(cap, after)
      {
        assert !Drifted(p, cap, before, after);
      }
      assert s == Surface(cap, after);
      forall r | r in Sorted(s)
        ensures Content(r, before) == Content(r, after)
      {
        assert !Drifted(r, cap, before, after);
      }
      SameContentSameStream(Sorted(s), before, after);
      assert false;
    }
  }
}

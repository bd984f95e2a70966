/** What `verify --stale` does to the gate: one run with fixed files, clock and ledger, no other writer. */
module StaleDischarge {
  import opened Wrappers
  import opened Comprehension
  import opened Manifest
  import opened Fingerprint
  import opened CapsState
  import opened Verify

  ghost predicate IdsIdentify(caps: seq<Capability>) {
    forall c, d :: c in caps && d in caps && c.id == d.id ==> c == d
  }

  lemma UniqueIdsIdentify(caps: seq<Capability>)
    requires UniqueIds(caps)
    ensures IdsIdentify(caps)
  {
  }

  lemma {:induction false} UpdatesExactly(caps: seq<Capability>, ledger: Ledger, now: int, tree: Tree,
                                          check: Capability -> CheckRun)
    requires IdsIdentify(caps)
    requires forall c :: c in caps ==> !WaiverActive(Get(ledger, c.id), now)
    ensures var u := Updates(caps, ledger, false, now, tree, check);
      && (forall c :: c in caps ==> c.id in u && u[c.id] == NewEntry(c, check(c), tree, now))
      && (forall id :: id in u ==> exists c :: c in caps && c.id == id)
  {
    if caps != [] {
      var init, cap := caps[..|caps| - 1], caps[|caps| - 1];
      assert caps == init + [cap];
      UpdatesExactly(init, ledger, now, tree, check);
    }
  }

  lemma {:induction false} BlockingMembers(caps: seq<Capability>, ledger: Ledger, tree: Tree, now: int)
    ensures var b := Blocking(caps, ledger, tree, now);
      && (b.Success? <==> forall c :: c in caps ==> StateOf(c, ledger, tree, now).Success?)
      && (b.Success? ==> forall c :: c in b.value <==> c in caps && Blocks(StateOf(c, ledger, tree, now).value))
  {
    if caps != [] {
      BlockingMembers(caps[..|caps| - 1], ledger, tree, now);
      assert caps == caps[..|caps| - 1] + [caps[|caps| - 1]];
    }
  }

  /** If a later ledger drops from the blocking set just the capabilities not kept, the blocking
      list becomes that filter of the old one, order included. */
  lemma {:induction false} BlockingFiltered(caps: seq<Capability>, before: Ledger, after: Ledger, tree: Tree, now: int,
                                            keep: Capability -> bool)
    requires Blocking(caps, before, tree, now).Success? && Blocking(caps, after, tree, now).Success?
    requires forall c :: c in caps && StateOf(c, before, tree, now).Success? && StateOf(c, after, tree, now).Success? ==>
      (Blocks(StateOf(c, after, tree, now).value) <==> Blocks(StateOf(c, before, tree, now).value) && keep(c))
    ensures Blocking(caps, after, tree, now).value == Filter(Blocking(caps, before, tree, now).value, keep)
  {
    if caps != [] {
      var init, cap := caps[..|caps| - 1], caps[|caps| - 1];
      assert caps == init + [cap];
      BlockingFiltered(init, before, after, tree, now, keep);
      FilterSnoc(Blocking(init, before, tree, now).value, cap, keep);
    }
  }

  predicate Discharged(cap: Capability, tier: Option<string>, check: Capability -> CheckRun) {
    InTier(cap, tier) && check(cap).result.Passed?
  }

  function NotDischarged(tier: Option<string>, check: Capability -> CheckRun): Capability -> bool {
    (c: Capability) => !Discharged(c, tier, check)
  }

  /** The capabilities `verify --stale` selects, and the ledger it leaves. */
  ghost function StaleSet(caps: seq<Capability>, ledger: Ledger, tier: Option<string>, tree: Tree, now: int)
    : seq<Capability>
    requires Blocking(OfTier(caps, tier), ledger, tree, now).Success?
  {
    Blocking(OfTier(caps, tier), ledger, tree, now).value
  }

  ghost function AfterStale(caps: seq<Capability>, ledger: Ledger, tier: Option<string>, tree: Tree, now: int,
                            check: Capability -> CheckRun): Ledger
    requires Blocking(OfTier(caps, tier), ledger, tree, now).Success?
  {
    Merge(ledger, Updates(StaleSet(caps, ledger, tier, tree, now), ledger, false, now, tree, check), false, now)
  }

  /** The state a capability is in right after its own run. */
  lemma StateOfNewEntry(c: Capability, run: CheckRun, tree: Tree, now: int)
    ensures StateAfterOwnRun(c, run, CapabilityState(c, Some(NewEntry(c, run, tree, now)), tree, now))
  {
  }

  lemma StaleMeansMoved(c: Capability, run: CheckRun, recordedOn: Tree, at: int, tree: Tree, now: int)
    requires CapabilityState(c, Some(NewEntry(c, run, recordedOn, at)), tree, now) == Success(CodeStale)
    ensures FingerprintOf(c, recordedOn) != FingerprintOf(c, tree)
  {
  }

  /** A proof recorded by a run on one snapshot of the files, found stale on a later one, is
      explained by name exactly when it covered between one and FILE_MAP_LIMIT files; the
      explanation is then exactly the drift. */
  lemma RecordedProofExplainsStaleness(c: Capability, run: CheckRun, recordedOn: Tree, at: int, tree: Tree, now: int)
    requires c.freshness == "code"
    requires CapabilityState(c, Some(NewEntry(c, run, recordedOn, at)), tree, now) == Success(CodeStale)
    ensures var ch := ChangedDeps(c, NewEntry(c, run, recordedOn, at).files, tree);
      && (ch != [] <==> 0 < |Surface(c, recordedOn)| <= FILE_MAP_LIMIT)
      && (ch != [] ==> forall p :: p in ch <==> Drifted(p, c, recordedOn, tree))
  {
    StaleMeansMoved(c, run, recordedOn, at, tree, now);
    var fmap := FileFingerprints(c, recordedOn);
    assert fmap.Keys == Surface(c, recordedOn) && |fmap| == |fmap.Keys|;
    if fmap != map[] {
      assert fmap.Keys != {};
      StaleIsExplained(c, recordedOn, tree);
    }
  }

  /** The selection: the blocking capabilities of the tier, none of them waived. */
  lemma StaleSetMembers(caps: seq<Capability>, ledger: Ledger, tier: Option<string>, tree: Tree, now: int)
    requires Blocking(caps, ledger, tree, now).Success?
    requires Blocking(OfTier(caps, tier), ledger, tree, now).Success?
    ensures forall c :: c in caps ==> StateOf(c, ledger, tree, now).Success?
    ensures forall c :: c in StaleSet(caps, ledger, tier, tree, now) <==>
      c in caps && InTier(c, tier) && StateOf(c, ledger, tree, now).Success? && Blocks(StateOf(c, ledger, tree, now).value)
    ensures forall c :: c in StaleSet(caps, ledger, tier, tree, now) ==> !WaiverActive(Get(ledger, c.id), now)
  {
    BlockingMembers(caps, ledger, tree, now);
    BlockingMembers(OfTier(caps, tier), ledger, tree, now);
  }

  lemma EntryAfterMerge(ledger: Ledger, sel: seq<Capability>, now: int, tree: Tree, check: Capability -> CheckRun, id: string)
    requires IdsIdentify(sel)
    requires forall c :: c in sel ==> !WaiverActive(Get(ledger, c.id), now)
    ensures var after := Get(Merge(ledger, Updates(sel, ledger, false, now, tree, check), false, now), id);
      && (forall c :: c in sel && c.id == id ==> after == Some(NewEntry(c, check(c), tree, now)))
      && ((forall c :: c in sel ==> c.id != id) ==> after == Get(ledger, id))
  {
    UpdatesExactly(sel, ledger, now, tree, check);
  }

  lemma EntryAfterStale(caps: seq<Capability>, ledger: Ledger, tier: Option<string>, tree: Tree, now: int,
                        check: Capability -> CheckRun, c: Capability)
    requires UniqueIds(caps) && c in caps && Blocking(caps, ledger, tree, now).Success?
    requires Blocking(OfTier(caps, tier), ledger, tree, now).Success?
    ensures StateOf(c, ledger, tree, now).Success?
    ensures Get(AfterStale(caps, ledger, tier, tree, now, check), c.id) ==
      if InTier(c, tier) && Blocks(StateOf(c, ledger, tree, now).value)
      then Some(NewEntry(c, check(c), tree, now)) else Get(ledger, c.id)
  {
    var sel := StaleSet(caps, ledger, tier, tree, now);
    StaleSetMembers(caps, ledger, tier, tree, now);
    UniqueIdsIdentify(caps);
    EntryAfterMerge(ledger, sel, now, tree, check, c.id);
  }

  /** The state of one capability after the run. */
  lemma StateAfterStale(caps: seq<Capability>, ledger: Ledger, tier: Option<string>, tree: Tree, now: int,
                        check: Capability -> CheckRun, c: Capability)
    requires UniqueIds(caps) && c in caps && Blocking(caps, ledger, tree, now).Success?
    requires Blocking(OfTier(caps, tier), ledger, tree, now).Success?
    ensures var before := StateOf(c, ledger, tree, now);
      var after := StateOf(c, AfterStale(caps, ledger, tier, tree, now, check), tree, now);
      && before.Success?
      && (after.Failure? <==> Blocks(before.value) && Discharged(c, tier, check) && !FreshnessReads(c))
      && (after.Success? ==> (Blocks(after.value) <==> Blocks(before.value) && !Discharged(c, tier, check)))
  {
    EntryAfterStale(caps, ledger, tier, tree, now, check, c);
    StateOfNewEntry(c, check(c), tree, now);
  }

  lemma {:induction false} NoTierIsEverything(caps: seq<Capability>)
    ensures OfTier(caps, None) == caps
  {
    if caps != [] {
      NoTierIsEverything(caps[..|caps| - 1]);
    }
  }

  /** Bare `--stale` runs exactly what the gate blocks on, and so writes exactly those ids. */
  lemma StaleRunsWhatTheGateBlocks(caps: seq<Capability>, ledger: Ledger, tree: Tree, now: int,
                                   check: Capability -> CheckRun)
    requires UniqueIds(caps) && Blocking(caps, ledger, tree, now).Success?
    ensures OfTier(caps, None) == caps
    ensures StaleSet(caps, ledger, None, tree, now) == Blocking(caps, ledger, tree, now).value
    ensures Updates(StaleSet(caps, ledger, None, tree, now), ledger, false, now, tree, check).Keys ==
      set c | c in Blocking(caps, ledger, tree, now).value :: c.id
  {
    NoTierIsEverything(caps);
    BlockingMembers(caps, ledger, tree, now);
    UniqueIdsIdentify(caps);
    UpdatesExactly(StaleSet(caps, ledger, None, tree, now), ledger, now, tree, check);
  }

  lemma PoolSucceeds(caps: seq<Capability>, ledger: Ledger, tier: Option<string>, tree: Tree, now: int)
    requires Blocking(caps, ledger, tree, now).Success?
    ensures Blocking(OfTier(caps, tier), ledger, tree, now).Success?
  {
    BlockingMembers(caps, ledger, tree, now);
    BlockingMembers(OfTier(caps, tier), ledger, tree, now);
  }

  /** After `verify --stale [--tier t]` the gate names exactly the capabilities it named before
      that the run did not discharge: those of other tiers, and those whose check did not pass.
      The one exception: a discharged capability whose freshness text does not parse, which
      makes the gate raise, and so fail open. */
  lemma GateAfterStale(caps: seq<Capability>, ledger: Ledger, tier: Option<string>, tree: Tree, now: int,
                       check: Capability -> CheckRun)
    requires UniqueIds(caps) && Blocking(caps, ledger, tree, now).Success?
    ensures Blocking(OfTier(caps, tier), ledger, tree, now).Success?
    ensures var before := Blocking(caps, ledger, tree, now).value;
      var after := Blocking(caps, AfterStale(caps, ledger, tier, tree, now, check), tree, now);
      && (after.Success? <==> forall c :: c in before && Discharged(c, tier, check) ==> FreshnessReads(c))
      && (after.Success? ==> after.value == Filter(before, NotDischarged(tier, check)))
  {
    PoolSucceeds(caps, ledger, tier, tree, now);
    var l' := AfterStale(caps, ledger, tier, tree, now, check);
    forall c | c in caps
      ensures var before := StateOf(c, ledger, tree, now);
        var after := StateOf(c, l', tree, now);
        && before.Success?
        && (after.Failure? <==> Blocks(before.value) && Discharged(c, tier, check) && !FreshnessReads(c))
        && (after.Success? ==> (Blocks(after.value) <==> Blocks(before.value) && !Discharged(c, tier, check)))
    {
      StateAfterStale(caps, ledger, tier, tree, now, check, c);
    }
    BlockingMembers(caps, ledger, tree, now);
    BlockingMembers(caps, l', tree, now);
    if Blocking(caps, l', tree, now).Success? {
      BlockingFiltered(caps, ledger, l', tree, now, NotDischarged(tier, check));
    }
  }

  lemma EmptyIfNoMembers(s: seq<Capability>)
    ensures (forall c :: c !in s) <==> s == []
  {
    assert s == [] || s[0] in s;
  }

  /** What the run leaves on disk, and whether it reports success. */
  lemma StaleRun(caps: seq<Capability>, ledger: Ledger, tier: Option<string>, tree: Tree, now: int,
                 check: Capability -> CheckRun)
    requires UniqueIds(caps) && Blocking(caps, ledger, tree, now).Success?
    ensures Blocking(OfTier(caps, tier), ledger, tree, now).Success?
    ensures var sel := StaleSet(caps, ledger, tier, tree, now);
      && (sel == [] ==> AfterStale(caps, ledger, tier, tree, now, check) == ledger)
      && (AllPass(sel, ledger, false, now, check) <==>
          forall c :: c in Blocking(caps, ledger, tree, now).value && InTier(c, tier) ==> check(c).result.Passed?)
  {
    PoolSucceeds(caps, ledger, tier, tree, now);
    StaleSetMembers(caps, ledger, tier, tree, now);
    BlockingMembers(caps, ledger, tree, now);
  }

  /** `caps verify --stale [--tier t]` and then the Stop hook, with no other writer. The gate names
      exactly what the run left undischarged, and allows exactly when that is nothing; exit code 0
      means every check the gate was waiting for in the tier passed. A discharged capability whose
      freshness text does not parse makes the gate fail open. */
  method StaleThenGate(project: Project, tier: Option<string>, now: int, tree: Tree, check: Capability -> CheckRun)
    returns (code: Result<int, FreshnessError>, out: GateOutput)
    requires UniqueIds(project.caps)
    modifies project`ledger
    ensures var before := old(Blocking(project.caps, project.ledger, tree, now));
      before.Success? ==>
        var left := Filter(before.value, NotDischarged(tier, check));
        && code == Success(if forall c :: c in before.value && InTier(c, tier) ==> check(c).result.Passed?
                           then 0 else 1)
        && (if exists c :: c in before.value && Discharged(c, tier, check) && !FreshnessReads(c) then out.FailedOpen?
            else out == if left == [] then Allowed else Blocked(left))
  {
    ghost var caps, ledger := project.caps, project.ledger;
    if Blocking(caps, ledger, tree, now).Success? {
      StaleRun(caps, ledger, tier, tree, now, check);
      GateAfterStale(caps, ledger, tier, tree, now, check);
    }
    code := project.CmdVerify(None, true, tier, now, tree, check);
    out := project.CmdGate(false, now, tree);
  }

  /** When every check the gate waits for passes, the gate allows. */
  method StaleDischargesTheGate(project: Project, now: int, tree: Tree, check: Capability -> CheckRun)
    returns (code: Result<int, FreshnessError>, out: GateOutput)
    requires UniqueIds(project.caps) && Blocking(project.caps, project.ledger, tree, now).Success?
    requires forall c :: c in Blocking(project.caps, project.ledger, tree, now).value ==> FreshnessReads(c)
    modifies project`ledger
    ensures out.Allowed? <==>
      forall c :: c in old(Blocking(project.caps, project.ledger, tree, now).value) ==> check(c).result.Passed?
    ensures code == Success(if out.Allowed? then 0 else 1)
  {
    ghost var before := Blocking(project.caps, project.ledger, tree, now).value;
    EmptyIfNoMembers(Filter(before, NotDischarged(None, check)));
    code, out := StaleThenGate(project, None, now, tree, check);
  }

  /** After an ack its capability blocks exactly once the waiver has run out, whatever proof it had
      before; every other capability blocks as before. */
  lemma AckSuspendsUntil(caps: seq<Capability>, ledger: Ledger, cap: Capability, reason: string,
                         now: int, until: int, tree: Tree, t: int)
    requires UniqueIds(caps) && cap in caps && Blocking(caps, ledger, tree, t).Success?
    ensures var after := Blocking(caps, ledger[cap.id := AckEntry(cap, reason, now, until)], tree, t);
      && after.Success?
      && forall c :: c in after.value <==>
        if c == cap then t >= until else c in Blocking(caps, ledger, tree, t).value
  {
    var acked := ledger[cap.id := AckEntry(cap, reason, now, until)];
    UniqueIdsIdentify(caps);
    BlockingMembers(caps, ledger, tree, t);
    BlockingMembers(caps, acked, tree, t);
    forall c | c in caps && c != cap
      ensures StateOf(c, acked, tree, t) == StateOf(c, ledger, tree, t)
    {
      assert c.id != cap.id;
    }
    assert StateOf(cap, acked, tree, t) == Success(if t < until then Waived else NeverProven);
  }

  // ---- Why load_manifest must reject duplicate ids ----

  function Twin(target: string): Capability {
    Capability("x", "cheap", [], "code", Pytest, target, false)
  }

  const EMPTY_TREE := Tree(map[], map[], {})

  lemma TwinFingerprint(target: string)
    requires CheckFile(target) == target
    ensures FingerprintOf(Twin(target), EMPTY_TREE) == Sha256(target + MISSING)
  {
    assert Surface(Twin(target), EMPTY_TREE) == {target};
    Text.AscendingUnique(Text.Sorted({target}), [target]);
    assert Stream([target], EMPTY_TREE) == target + MISSING + Stream([], EMPTY_TREE);
  }

  /** Two capabilities sharing an id: both are selected and both pass, the second entry overwrites
      the first, and the gate goes on blocking on the first. */
  lemma DuplicateIdsDefeatStale(check: Capability -> CheckRun)
    requires check(Twin("p")).result.Passed? && check(Twin("q")).result.Passed?
    ensures var caps := [Twin("p"), Twin("q")];
      var l' := Merge(map[], Updates(caps, map[], false, 0, EMPTY_TREE, check), false, 0);
      && StateOf(Twin("p"), map[], EMPTY_TREE, 0) == Success(NeverProven) == StateOf(Twin("q"), map[], EMPTY_TREE, 0)
      && StateOf(Twin("p"), l', EMPTY_TREE, 0) == Success(CodeStale)
  {
    var caps := [Twin("p"), Twin("q")];
    TwinFingerprint("p");
    TwinFingerprint("q");
    assert ("p" + MISSING)[0] != ("q" + MISSING)[0];
    UpdatesSnoc([Twin("p")], Twin("q"), map[], false, 0, EMPTY_TREE, check);
    assert [Twin("p")] + [Twin("q")] == caps;
  }
}

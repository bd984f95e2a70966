/** caps/cli.py (verify, ack, status) and caps/gate.py: running checks, merging their results
    into the ledger, and deciding what blocks. Running a check is a parameter. */
module Verify {
  import opened Wrappers
  import opened Comprehension
  import opened Manifest
  import opened Fingerprint
  import opened CapsState

  datatype CheckResult = Passed | CheckFailed | CheckErrored
  datatype CheckRun = CheckRun(result: CheckResult, detail: Option<string>, duration: real)

  function VerdictOf(r: CheckResult): Verdict {
    match r
    case Passed => Pass
    case CheckFailed => Fail
    case CheckErrored => Error
  }

  /** The entry a run leaves; a file map is kept only for code freshness and narrow globs. */
  function NewEntry(cap: Capability, run: CheckRun, tree: Tree, now: int): Entry {
    var code := cap.freshness == "code";
    var fmap := FileFingerprints(cap, tree);
    Entry(VerdictOf(run.result), now, cap.tier,
          if code then Some(FingerprintOf(cap, tree)) else None,
          None,
          if run.result.Passed? then None else run.detail,
          if code && |fmap| <= FILE_MAP_LIMIT then Some(fmap) else None,
          Some(run.duration))
  }

  /** Where a capability stands on the files and at the time of its own run: it blocks exactly when
      the check did not pass, and is proven unless its window is empty or its freshness unreadable. */
  ghost predicate StateAfterOwnRun(c: Capability, run: CheckRun, s: Result<State, FreshnessError>) {
    && (s.Failure? <==> run.result.Passed? && !FreshnessReads(c))
    && (s.Success? ==> (Blocks(s.value) <==> !run.result.Passed?))
    && (s == Success(Proven) <==>
        (run.result.Passed? &&
         (c.freshness == "code" || (ParseDuration(c.freshness).Success? && ParseDuration(c.freshness).value > 0))))
  }

  /** What the ledger must say of a run, field by field. */
  ghost predicate Records(e: Entry, c: Capability, run: CheckRun, tree: Tree, now: int) {
    && e.at == now && e.tier == c.tier && e.waiver.None? && e.duration == Some(run.duration)
    && (run.result.Passed? ==> e.result == Pass && e.detail.None?)
    && (run.result.CheckFailed? ==> e.result == Fail && e.detail == run.detail)
    && (run.result.CheckErrored? ==> e.result == Error && e.detail == run.detail)
    && e.fingerprint == (if c.freshness == "code" then Some(FingerprintOf(c, tree)) else None)
    && (e.files.Some? <==> c.freshness == "code" && |Surface(c, tree)| <= 25)
    && (e.files.Some? ==>
        && e.files.value.Keys == Surface(c, tree)
        && forall p :: p in e.files.value ==> e.files.value[p] == Sha256(Content(p, tree)))
  }

  lemma NewEntryRecords(c: Capability, run: CheckRun, tree: Tree, now: int)
    ensures Records(NewEntry(c, run, tree, now), c, run, tree, now)
  {
    var fmap := FileFingerprints(c, tree);
    assert fmap.Keys == Surface(c, tree) && |fmap| == |fmap.Keys|;
  }

  /** No waiver on record for the id outlives `now`. */
  ghost predicate Unwaived(ledger: Ledger, id: string, now: int) {
    id in ledger && ledger[id].waiver.Some? ==> ledger[id].waiver.value.until <= now
  }

  ghost predicate LastRan(caps: seq<Capability>, ran: Capability -> bool, k: int) {
    0 <= k < |caps| && ran(caps[k]) && forall j :: k < j < |caps| && ran(caps[j]) ==> caps[j].id != caps[k].id
  }

  /** From `before` to `after`, just the ids of the capabilities that ran have changed, each to the
      record of the last of its capabilities that ran. */
  ghost predicate Wrote(before: Ledger, after: Ledger, caps: seq<Capability>, ran: Capability -> bool, tree: Tree,
                        now: int, check: Capability -> CheckRun)
  {
    && (forall k :: LastRan(caps, ran, k) ==>
        caps[k].id in after && Records(after[caps[k].id], caps[k], check(caps[k]), tree, now))
    && (forall id :: (forall c :: c in caps && ran(c) ==> c.id != id) ==> Get(after, id) == Get(before, id))
  }

  /** An active waiver suppresses the check during a bare verify. */
  predicate Skipped(cap: Capability, snapshot: Ledger, explicit: bool, now: int) {
    !explicit && WaiverActive(Get(snapshot, cap.id), now)
  }

  /** The entries produced by running `caps` in order. */
  function Updates(caps: seq<Capability>, snapshot: Ledger, explicit: bool, now: int, tree: Tree,
                   check: Capability -> CheckRun): Ledger
  {
    if caps == [] then map[] else
    var cap := caps[|caps| - 1];
    var u := Updates(caps[..|caps| - 1], snapshot, explicit, now, tree, check);
    if Skipped(cap, snapshot, explicit, now) then u else u[cap.id := NewEntry(cap, check(cap), tree, now)]
  }

  /** Every check that is actually run passes. */
  ghost predicate AllPass(caps: seq<Capability>, snapshot: Ledger, explicit: bool, now: int,
                          check: Capability -> CheckRun)
  {
    forall c :: c in caps && !Skipped(c, snapshot, explicit, now) ==> check(c).result.Passed?
  }

  /** An active waiver found on disk at save time wins over a bare verify's result. */
  predicate Kept(id: string, disk: Ledger, explicit: bool, now: int) {
    !explicit && WaiverActive(Get(disk, id), now)
  }

  function Merge(disk: Ledger, updated: Ledger, explicit: bool, now: int): Ledger {
    map id | id in disk.Keys + updated.Keys ::
      if id in updated && !Kept(id, disk, explicit, now) then updated[id] else disk[id]
  }

  function AckEntry(cap: Capability, reason: string, now: int, until: int): Entry {
    Entry(WaivedVerdict, now, cap.tier, None, Some(Waiver(reason, until)), None, None, None)
  }

  predicate InTier(cap: Capability, tier: Option<string>) {
    tier.None? || cap.tier == tier.value
  }

  function OnTier(tier: Option<string>): Capability -> bool {
    (c: Capability) => InTier(c, tier)
  }

  function OfTier(caps: seq<Capability>, tier: Option<string>): seq<Capability> {
    Filter(caps, OnTier(tier))
  }

  /** The capabilities whose state blocks, in manifest order; the first bad freshness raises. */
  function Blocking(caps: seq<Capability>, ledger: Ledger, tree: Tree, now: int)
    : Result<seq<Capability>, FreshnessError>
  {
    if caps == [] then Success([]) else
    var before :- Blocking(caps[..|caps| - 1], ledger, tree, now);
    var cap := caps[|caps| - 1];
    var state :- StateOf(cap, ledger, tree, now);
    Success(if Blocks(state) then before + [cap] else before)
  }

  // ---- The commands ----

  lemma UpdatesSnoc(caps: seq<Capability>, cap: Capability, snapshot: Ledger, explicit: bool, now: int, tree: Tree,
                    check: Capability -> CheckRun)
    ensures var u := Updates(caps, snapshot, explicit, now, tree, check);
      Updates(caps + [cap], snapshot, explicit, now, tree, check) ==
        if Skipped(cap, snapshot, explicit, now) then u else u[cap.id := NewEntry(cap, check(cap), tree, now)]
  {
    assert (caps + [cap])[..|caps|] == caps;
  }

  method RecordRun(cap: Capability, run: CheckRun, tree: Tree, now: int) returns (entry: Entry)
    ensures entry == NewEntry(cap, run, tree, now)
    ensures StateAfterOwnRun(cap, run, CapabilityState(cap, Some(entry), tree, now))
  {
    var fingerprint: Option<Digest>, files: Option<map<string, Digest>> := None, None;
    if cap.freshness == "code" {
      var fmap := FileFingerprints(cap, tree);
      files := if |fmap| > FILE_MAP_LIMIT then None else Some(fmap);
      var digest := ComputeFingerprint(cap, tree);
      fingerprint := Some(digest);
    }
    entry := Entry(VerdictOf(run.result), now, cap.tier, fingerprint, None,
                   if run.result.Passed? then None else run.detail, files, Some(run.duration));
  }

  function Named(id: string): Capability -> bool {
    (c: Capability) => c.id == id
  }

  ghost function RanAs(ran: Capability -> bool, id: string): Capability -> bool {
    (c: Capability) => ran(c) && c.id == id
  }

  lemma {:induction false} UpdatesHold(caps: seq<Capability>, snapshot: Ledger, explicit: bool, now: int, tree: Tree,
                                       check: Capability -> CheckRun, id: string)
    ensures var last := LastWhere(caps, Named(id));
      Get(Updates(caps, snapshot, explicit, now, tree, check), id) ==
        if last.None? || Skipped(last.value, snapshot, explicit, now) then None
        else Some(NewEntry(last.value, check(last.value), tree, now))
  {
    if caps != [] {
      UpdatesHold(caps[..|caps| - 1], snapshot, explicit, now, tree, check, id);
    }
  }

  /** The last capability of an id in a selection, unless its waiver keeps it from running. */
  ghost predicate RunsLast(caps: seq<Capability>, ran: Capability -> bool, sel: seq<Capability>, ledger: Ledger,
                           explicit: bool, now: int, id: string)
  {
    var last := LastWhere(sel, Named(id));
    LastWhere(caps, RanAs(ran, id)) ==
      if last.Some? && (explicit || Unwaived(ledger, id, now)) then last else None
  }

  lemma UpdatesWrote(caps: seq<Capability>, ran: Capability -> bool, sel: seq<Capability>, snapshot: Ledger,
                     explicit: bool, now: int, tree: Tree, check: Capability -> CheckRun)
    requires forall id :: RunsLast(caps, ran, sel, snapshot, explicit, now, id)
    ensures Wrote(map[], Updates(sel, snapshot, explicit, now, tree, check), caps, ran, tree, now, check)
    ensures forall id :: id in Updates(sel, snapshot, explicit, now, tree, check) ==> explicit || Unwaived(snapshot, id, now)
  {
    var updated := Updates(sel, snapshot, explicit, now, tree, check);
    forall k | LastRan(caps, ran, k)
      ensures caps[k].id in updated && Records(updated[caps[k].id], caps[k], check(caps[k]), tree, now)
    {
      var c := caps[k];
      LastIsUnique(caps, RanAs(ran, c.id), k);
      assert RunsLast(caps, ran, sel, snapshot, explicit, now, c.id);
      UpdatesHold(sel, snapshot, explicit, now, tree, check, c.id);
      NewEntryRecords(c, check(c), tree, now);
    }
    forall id
      ensures (forall c :: c in caps && ran(c) ==> c.id != id) ==> Get(updated, id) == Get(map[], id)
      ensures id in updated ==> explicit || Unwaived(snapshot, id, now)
    {
      assert RunsLast(caps, ran, sel, snapshot, explicit, now, id);
      UpdatesHold(sel, snapshot, explicit, now, tree, check, id);
    }
  }

  lemma MergeWrote(caps: seq<Capability>, ran: Capability -> bool, disk: Ledger, updated: Ledger, explicit: bool,
                   now: int, tree: Tree, check: Capability -> CheckRun)
    requires Wrote(map[], updated, caps, ran, tree, now, check)
    requires forall id :: id in updated ==> explicit || Unwaived(disk, id, now)
    ensures Wrote(disk, Merge(disk, updated, explicit, now), caps, ran, tree, now, check)
  {
    var after := Merge(disk, updated, explicit, now);
    forall id
      ensures Get(after, id) == if id in updated then Get(updated, id) else Get(disk, id)
    {
    }
    forall id | forall c :: c in caps && ran(c) ==> c.id != id
      ensures Get(after, id) == Get(disk, id)
    {
      assert Get(updated, id) == Get(map[], id);
    }
  }

  /** What the check loop runs: everything, or on a bare verify what its snapshot does not waive. */
  ghost function RunsUnwaived(snapshot: Ledger, explicit: bool, now: int): Capability -> bool {
    (c: Capability) => explicit || Unwaived(snapshot, c.id, now)
  }

  lemma LoopWrote(caps: seq<Capability>, snapshot: Ledger, explicit: bool, now: int, tree: Tree,
                  check: Capability -> CheckRun)
    ensures Wrote(map[], Updates(caps, snapshot, explicit, now, tree, check), caps, RunsUnwaived(snapshot, explicit, now),
                  tree, now, check)
  {
    var ran := RunsUnwaived(snapshot, explicit, now);
    forall id
      ensures RunsLast(caps, ran, caps, snapshot, explicit, now, id)
    {
      if explicit || Unwaived(snapshot, id, now) {
        SameLast(caps, Named(id), RanAs(ran, id));
      }
    }
    UpdatesWrote(caps, ran, caps, snapshot, explicit, now, tree, check);
  }

  method RunChecks(caps: seq<Capability>, snapshot: Ledger, explicit: bool, now: int, tree: Tree,
                   check: Capability -> CheckRun)
    returns (updated: Ledger, allPassed: bool)
    ensures updated == Updates(caps, snapshot, explicit, now, tree, check)
    ensures allPassed <==> AllPass(caps, snapshot, explicit, now, check)
    ensures Wrote(map[], updated, caps, RunsUnwaived(snapshot, explicit, now), tree, now, check)
    ensures allPassed <==>
      forall c :: c in caps && (explicit || Unwaived(snapshot, c.id, now)) ==> check(c).result.Passed?
  {
    updated, allPassed := map[], true;
    for i := 0 to |caps|
      invariant updated == Updates(caps[..i], snapshot, explicit, now, tree, check)
      invariant allPassed <==> AllPass(caps[..i], snapshot, explicit, now, check)
    {
      var cap := caps[i];
      assert caps[..i + 1] == caps[..i] + [cap];
      UpdatesSnoc(caps[..i], cap, snapshot, explicit, now, tree, check);
      if !Skipped(cap, snapshot, explicit, now) {
        var entry := RecordRun(cap, check(cap), tree, now);
        updated := updated[cap.id := entry];
        allPassed := allPassed && check(cap).result.Passed?;
      }
    }
    assert caps[..|caps|] == caps;
    LoopWrote(caps, snapshot, explicit, now, tree, check);
  }

  lemma BlockingSnoc(caps: seq<Capability>, cap: Capability, ledger: Ledger, tree: Tree, now: int)
    requires Blocking(caps, ledger, tree, now).Success?
    ensures var state := StateOf(cap, ledger, tree, now);
      Blocking(caps + [cap], ledger, tree, now) ==
        if state.Failure? then Failure(state.error)
        else Success(if Blocks(state.value) then Blocking(caps, ledger, tree, now).value + [cap]
                     else Blocking(caps, ledger, tree, now).value)
  {
    assert (caps + [cap])[..|caps|] == caps;
  }

  lemma BlockingPrefixFails(caps: seq<Capability>, k: nat, ledger: Ledger, tree: Tree, now: int)
    requires k <= |caps| && Blocking(caps[..k], ledger, tree, now).Failure?
    ensures Blocking(caps, ledger, tree, now) == Blocking(caps[..k], ledger, tree, now)
  {
    if k == |caps| {
      assert caps[..k] == caps;
    } else {
      assert caps[..|caps| - 1][..k] == caps[..k];
      BlockingPrefixFails(caps[..|caps| - 1], k, ledger, tree, now);
    }
  }

  method BlockingCaps(caps: seq<Capability>, ledger: Ledger, tree: Tree, now: int)
    returns (r: Result<seq<Capability>, FreshnessError>)
    ensures r == Blocking(caps, ledger, tree, now)
  {
    var found: seq<Capability> := [];
    for i := 0 to |caps|
      invariant Blocking(caps[..i], ledger, tree, now) == Success(found)
    {
      assert caps[..i + 1] == caps[..i] + [caps[i]];
      var state := StateOf(caps[i], ledger, tree, now);
      BlockingSnoc(caps[..i], caps[i], ledger, tree, now);
      if state.Failure? {
        BlockingPrefixFails(caps, i + 1, ledger, tree, now);
        return Failure(state.error);
      }
      if Blocks(state.value) {
        found := found + [caps[i]];
      }
    }
    assert caps[..|caps|] == caps;
    return Success(found);
  }

  function BlocksNow(ledger: Ledger, tree: Tree, now: int): Capability -> bool {
    (c: Capability) => StateOf(c, ledger, tree, now).Success? && Blocks(StateOf(c, ledger, tree, now).value)
  }

  lemma {:induction false} BlockingIsFilter(caps: seq<Capability>, ledger: Ledger, tree: Tree, now: int)
    ensures var b := Blocking(caps, ledger, tree, now);
      && (b.Success? <==> forall c :: c in caps ==> StateOf(c, ledger, tree, now).Success?)
      && (b.Success? ==> b.value == Filter(caps, BlocksNow(ledger, tree, now)))
  {
    if caps != [] {
      BlockingIsFilter(caps[..|caps| - 1], ledger, tree, now);
      assert caps == caps[..|caps| - 1] + [caps[|caps| - 1]];
    }
  }

  /** Which capabilities a bare `caps verify` runs: the unwaived of the tier, or of those the stale. */
  ghost predicate InRun(c: Capability, ledger: Ledger, stale: bool, tier: Option<string>, tree: Tree, now: int) {
    && (tier.Some? ==> c.tier == tier.value)
    && Unwaived(ledger, c.id, now)
    && (stale ==>
        && StateOf(c, ledger, tree, now).Success?
        && StateOf(c, ledger, tree, now).value in {NeverProven, Failed, Errored, CodeStale})
  }

  ghost function RunsIn(ledger: Ledger, stale: bool, tier: Option<string>, tree: Tree, now: int): Capability -> bool {
    (c: Capability) => InRun(c, ledger, stale, tier, tree, now)
  }

  lemma TierRunsLast(caps: seq<Capability>, ledger: Ledger, tier: Option<string>, tree: Tree, now: int, id: string)
    ensures RunsLast(caps, RunsIn(ledger, false, tier, tree, now), OfTier(caps, tier), ledger, false, now, id)
  {
    LastOfFilter(caps, OnTier(tier), Named(id));
    if Unwaived(ledger, id, now) {
      SameLast(caps, Both(OnTier(tier), Named(id)), RanAs(RunsIn(ledger, false, tier, tree, now), id));
    }
  }

  lemma StaleRunsLast(caps: seq<Capability>, ledger: Ledger, tier: Option<string>, tree: Tree, now: int, id: string)
    ensures RunsLast(caps, RunsIn(ledger, true, tier, tree, now),
                     Filter(OfTier(caps, tier), BlocksNow(ledger, tree, now)), ledger, false, now, id)
  {
    var blocks := BlocksNow(ledger, tree, now);
    LastOfFilter(OfTier(caps, tier), blocks, Named(id));
    LastOfFilter(caps, OnTier(tier), Both(blocks, Named(id)));
    if Unwaived(ledger, id, now) {
      SameLast(caps, Both(OnTier(tier), Both(blocks, Named(id))), RanAs(RunsIn(ledger, true, tier, tree, now), id));
    }
  }

  /** What one run writes, in terms of the disk alone. */
  lemma RunWrote(caps: seq<Capability>, ran: Capability -> bool, sel: seq<Capability>, disk: Ledger, explicit: bool,
                 now: int, tree: Tree, check: Capability -> CheckRun)
    requires forall id :: RunsLast(caps, ran, sel, disk, explicit, now, id)
    ensures Wrote(disk, Merge(disk, Updates(sel, disk, explicit, now, tree, check), explicit, now),
                  caps, ran, tree, now, check)
  {
    UpdatesWrote(caps, ran, sel, disk, explicit, now, tree, check);
    MergeWrote(caps, ran, disk, Updates(sel, disk, explicit, now, tree, check), explicit, now, tree, check);
  }

  /** A tier's pool: its members, and when its stale selection raises. */
  lemma PoolMembers(caps: seq<Capability>, ledger: Ledger, tier: Option<string>, tree: Tree, now: int)
    ensures forall c :: c in OfTier(caps, tier) <==> c in caps && (tier.Some? ==> c.tier == tier.value)
    ensures Blocking(OfTier(caps, tier), ledger, tree, now).Failure? <==>
      exists c :: c in caps && (tier.Some? ==> c.tier == tier.value) && StateOf(c, ledger, tree, now).Failure?
    ensures Blocking(OfTier(caps, tier), ledger, tree, now).Success? ==>
      Blocking(OfTier(caps, tier), ledger, tree, now).value == Filter(OfTier(caps, tier), BlocksNow(ledger, tree, now))
  {
    BlockingIsFilter(OfTier(caps, tier), ledger, tree, now);
  }

  lemma BareRun(caps: seq<Capability>, ledger: Ledger, stale: bool, tier: Option<string>, tree: Tree, now: int,
                check: Capability -> CheckRun, sel: seq<Capability>)
    requires sel == if stale then Filter(OfTier(caps, tier), BlocksNow(ledger, tree, now)) else OfTier(caps, tier)
    ensures Wrote(ledger, Merge(ledger, Updates(sel, ledger, false, now, tree, check), false, now),
                  caps, RunsIn(ledger, stale, tier, tree, now), tree, now, check)
    ensures AllPass(sel, ledger, false, now, check) <==>
      forall c :: c in caps && InRun(c, ledger, stale, tier, tree, now) ==> check(c).result.Passed?
  {
    forall id
      ensures RunsLast(caps, RunsIn(ledger, stale, tier, tree, now), sel, ledger, false, now, id)
    {
      if stale {
        StaleRunsLast(caps, ledger, tier, tree, now, id);
      } else {
        TierRunsLast(caps, ledger, tier, tree, now, id);
      }
    }
    RunWrote(caps, RunsIn(ledger, stale, tier, tree, now), sel, ledger, false, now, tree, check);
    PoolMembers(caps, ledger, tier, tree, now);
  }

  lemma NothingToMerge(ledger: Ledger, now: int)
    ensures Merge(ledger, map[], false, now) == ledger
  {
  }

  /** `None` when `only` names no capability, or when the stale set is empty. */
  function Selection(caps: seq<Capability>, ledger: Ledger, only: Option<string>, stale: bool, tier: Option<string>,
                     tree: Tree, now: int): Result<Option<seq<Capability>>, FreshnessError>
  {
    var pool := OfTier(caps, tier);
    if only.Some? then
      var named := Filter(pool, Named(only.value));
      Success(if named == [] then None else Some([named[|named| - 1]]))
    else if stale then
      var sel :- Blocking(pool, ledger, tree, now);
      Success(if sel == [] then None else Some(sel))
    else Success(Some(pool))
  }

  /** The command as its parts: select, run, merge. */
  ghost predicate RanSelection(caps: seq<Capability>, before: Ledger, after: Ledger, only: Option<string>, stale: bool,
                               tier: Option<string>, now: int, tree: Tree, check: Capability -> CheckRun,
                               r: Result<int, FreshnessError>)
  {
    match Selection(caps, before, only, stale, tier, tree, now)
    case Failure(e) => r == Failure(e) && after == before
    case Success(None) => r == Success(if only.Some? then 2 else 0) && after == before
    case Success(Some(run)) =>
      && after == Merge(before, Updates(run, before, only.Some?, now, tree, check), only.Some?, now)
      && r == Success(if AllPass(run, before, only.Some?, now, check) then 0 else 1)
  }

  /** `k` is the last capability of the tier with that id. */
  ghost predicate LastNamed(caps: seq<Capability>, tier: Option<string>, id: string, k: int) {
    && 0 <= k < |caps| && caps[k].id == id && (tier.Some? ==> caps[k].tier == tier.value)
    && forall j :: k < j < |caps| && (tier.Some? ==> caps[j].tier == tier.value) ==> caps[j].id != id
  }

  /** `--capability id`: the last capability of the tier with that id is run, and the record of its
      run is what changes on disk, whatever waiver stood there. Exit code 0 means it passed, 2 that
      there is none. */
  ghost predicate ExplicitOutcome(caps: seq<Capability>, before: Ledger, after: Ledger, id: string,
                                  tier: Option<string>, now: int, tree: Tree, check: Capability -> CheckRun,
                                  r: Result<int, FreshnessError>)
  {
    && (forall k :: LastNamed(caps, tier, id, k) ==>
        && r == Success(if check(caps[k]).result.Passed? then 0 else 1)
        && id in after && after == before[id := after[id]]
        && Records(after[id], caps[k], check(caps[k]), tree, now))
    && (r == Success(2) <==> forall c :: c in caps && (tier.Some? ==> c.tier == tier.value) ==> c.id != id)
    && (r == Success(2) ==> after == before)
  }

  /** A bare run raises exactly when it is a stale run that meets an unreadable freshness. Otherwise
      just the ids it ran change, each to the record of its run, and exit code 0 means all passed. */
  ghost predicate BareOutcome(caps: seq<Capability>, before: Ledger, after: Ledger, stale: bool, tier: Option<string>,
                              now: int, tree: Tree, check: Capability -> CheckRun, r: Result<int, FreshnessError>)
  {
    && (r.Failure? <==>
        (stale && exists c :: c in caps && (tier.Some? ==> c.tier == tier.value) && StateOf(c, before, tree, now).Failure?))
    && (r.Failure? ==> after == before)
    && (r.Success? ==>
        && Wrote(before, after, caps, RunsIn(before, stale, tier, tree, now), tree, now, check)
        && r.value == if forall c :: c in caps && InRun(c, before, stale, tier, tree, now) ==>
                                check(c).result.Passed? then 0 else 1)
  }

  lemma LastNamedIsLast(caps: seq<Capability>, tier: Option<string>, id: string, k: int)
    ensures LastNamed(caps, tier, id, k) <==> IsLast(caps, Both(OnTier(tier), Named(id)), k)
  {
  }

  /** The capability a `--capability` run selects. */
  lemma NamedIsLast(caps: seq<Capability>, tier: Option<string>, id: string, last: Capability)
    requires LastWhere(OfTier(caps, tier), Named(id)) == Some(last)
    ensures exists k :: LastNamed(caps, tier, id, k)
    ensures forall k :: LastNamed(caps, tier, id, k) ==> caps[k] == last
  {
    var p := Both(OnTier(tier), Named(id));
    LastOfFilter(caps, OnTier(tier), Named(id));
    var n :| IsLast(caps, p, n) && caps[n] == last;
    LastNamedIsLast(caps, tier, id, n);
    forall k | LastNamed(caps, tier, id, k)
      ensures caps[k] == last
    {
      LastNamedIsLast(caps, tier, id, k);
      LastIsUnique(caps, p, k);
    }
  }

  lemma NamedInManifest(caps: seq<Capability>, id: string, last: Capability)
    requires LastWhere(caps, Named(id)) == Some(last)
    ensures exists k :: LastNamed(caps, None, id, k) && caps[k] == last
  {
    var n :| IsLast(caps, Named(id), n) && caps[n] == last;
    assert LastNamed(caps, None, id, n);
  }

  /** The waiver replaces whatever was on record for the id, and nothing else changes. */
  ghost predicate Waives(caps: seq<Capability>, before: Ledger, after: Ledger, id: string, reason: string,
                         now: int, until: int)
  {
    exists k :: LastNamed(caps, None, id, k) &&
      after == before[id := Entry(WaivedVerdict, now, caps[k].tier, None, Some(Waiver(reason, until)), None, None, None)]
  }

  lemma AckWaives(caps: seq<Capability>, before: Ledger, id: string, reason: string, now: int, until: int, cap: Capability)
    requires exists k :: LastNamed(caps, None, id, k) && caps[k] == cap
    ensures Waives(caps, before, before[id := AckEntry(cap, reason, now, until)], id, reason, now, until)
  {
  }

  lemma ExplicitWrites(c: Capability, before: Ledger, now: int, tree: Tree, check: Capability -> CheckRun)
    ensures var after := Merge(before, Updates([c], before, true, now, tree, check), true, now);
      && c.id in after && after == before[c.id := after[c.id]]
      && Records(after[c.id], c, check(c), tree, now)
    ensures AllPass([c], before, true, now, check) <==> check(c).result.Passed?
  {
    assert [c][..0] == [];
    assert c in [c];
    NewEntryRecords(c, check(c), tree, now);
    assert Updates([c], before, true, now, tree, check) == map[c.id := NewEntry(c, check(c), tree, now)];
  }

  lemma UnknownMeans(caps: seq<Capability>, before: Ledger, id: string, tier: Option<string>, now: int, tree: Tree,
                     check: Capability -> CheckRun)
    requires LastWhere(OfTier(caps, tier), Named(id)) == None
    ensures ExplicitOutcome(caps, before, before, id, tier, now, tree, check, Success(2))
  {
    PoolMembers(caps, before, tier, tree, now);
    forall c | c in caps && (tier.Some? ==> c.tier == tier.value)
      ensures c.id != id
    {
      assert c in OfTier(caps, tier) && !Named(id)(c);
    }
    assert forall k :: 0 <= k < |caps| ==> caps[k] in caps;
  }

  lemma KnownMeans(caps: seq<Capability>, before: Ledger, id: string, tier: Option<string>, now: int, tree: Tree,
                   check: Capability -> CheckRun, last: Capability)
    requires LastWhere(OfTier(caps, tier), Named(id)) == Some(last) && last.id == id
    ensures ExplicitOutcome(caps, before, Merge(before, Updates([last], before, true, now, tree, check), true, now),
                            id, tier, now, tree, check, Success(if check(last).result.Passed? then 0 else 1))
  {
    NamedIsLast(caps, tier, id, last);
    ExplicitWrites(last, before, now, tree, check);
    var k :| LastNamed(caps, tier, id, k);
    assert caps[k] in caps;
  }

  lemma ExplicitMeans(caps: seq<Capability>, before: Ledger, after: Ledger, only: string, stale: bool,
                      tier: Option<string>, now: int, tree: Tree, check: Capability -> CheckRun,
                      r: Result<int, FreshnessError>)
    requires RanSelection(caps, before, after, Some(only), stale, tier, now, tree, check, r)
    ensures ExplicitOutcome(caps, before, after, only, tier, now, tree, check, r)
  {
    var named := Filter(OfTier(caps, tier), Named(only));
    if named == [] {
      assert forall x :: x in OfTier(caps, tier) && Named(only)(x) ==> x in named;
      UnknownMeans(caps, before, only, tier, now, tree, check);
    } else {
      var last := named[|named| - 1];
      assert last in named;
      FilterEndsInLast(OfTier(caps, tier), Named(only));
      ExplicitWrites(last, before, now, tree, check);
      KnownMeans(caps, before, only, tier, now, tree, check, last);
    }
  }

  lemma BareMeans(caps: seq<Capability>, before: Ledger, after: Ledger, stale: bool,
                  tier: Option<string>, now: int, tree: Tree, check: Capability -> CheckRun,
                  r: Result<int, FreshnessError>)
    requires RanSelection(caps, before, after, None, stale, tier, now, tree, check, r)
    ensures BareOutcome(caps, before, after, stale, tier, now, tree, check, r)
  {
    PoolMembers(caps, before, tier, tree, now);
    var sel := if stale then Filter(OfTier(caps, tier), BlocksNow(before, tree, now)) else OfTier(caps, tier);
    BareRun(caps, before, stale, tier, tree, now, check, sel);
    NothingToMerge(before, now);
  }

  ghost predicate VerifyOutcome(caps: seq<Capability>, before: Ledger, after: Ledger, only: Option<string>, stale: bool,
                                tier: Option<string>, now: int, tree: Tree, check: Capability -> CheckRun,
                                r: Result<int, FreshnessError>)
  {
    if only.Some? then ExplicitOutcome(caps, before, after, only.value, tier, now, tree, check, r)
    else BareOutcome(caps, before, after, stale, tier, now, tree, check, r)
  }

  lemma RanSelectionMeans(caps: seq<Capability>, before: Ledger, after: Ledger, only: Option<string>, stale: bool,
                          tier: Option<string>, now: int, tree: Tree, check: Capability -> CheckRun,
                          r: Result<int, FreshnessError>)
    requires RanSelection(caps, before, after, only, stale, tier, now, tree, check, r)
    ensures VerifyOutcome(caps, before, after, only, stale, tier, now, tree, check, r)
  {
    if only.Some? {
      ExplicitMeans(caps, before, after, only.value, stale, tier, now, tree, check, r);
    } else {
      BareMeans(caps, before, after, stale, tier, now, tree, check, r);
    }
  }

  datatype GateDecision = GateDecision(block: bool, named: seq<Capability>, expired: seq<Capability>)
  datatype GateOutput = Blocked(named: seq<Capability>) | Allowed | FailedOpen(error: FreshnessError)

  /** The project directory as one process sees it: its capabilities and its ledger file. */
  class Project {
    const caps: seq<Capability>
    var ledger: Ledger

    constructor (caps: seq<Capability>, ledger: Ledger)
      ensures this.caps == caps && this.ledger == ledger
    {
      this.caps := caps;
      this.ledger := ledger;
    }

    /** Re-read the ledger and merge only what ran, in whatever order `updated` iterates. */
    method SaveMerged(updated: Ledger, explicit: bool, now: int)
      modifies this`ledger
      ensures ledger == Merge(old(ledger), updated, explicit, now)
    {
      var disk := ledger;
      var todo := updated.Keys;
      while todo != {}
        invariant todo <= updated.Keys
        invariant disk.Keys == old(ledger).Keys + set id | id in updated.Keys - todo && !Kept(id, old(ledger), explicit, now)
        invariant forall id :: id in disk ==>
          disk[id] == if id in updated.Keys - todo && !Kept(id, old(ledger), explicit, now)
                      then updated[id] else old(ledger)[id]
        decreases todo
      {
        var cid :| cid in todo;
        assert Get(disk, cid) == Get(old(ledger), cid);
        if !Kept(cid, disk, explicit, now) {
          disk := disk[cid := updated[cid]];
        }
        todo := todo - {cid};
      }
      forall id | Kept(id, old(ledger), explicit, now)
        ensures id in old(ledger)
      {
      }
      ledger := disk;
    }

    /** The capabilities to run. */
    method SelectCaps(only: Option<string>, stale: bool, tier: Option<string>, now: int, tree: Tree)
      returns (sel: Result<Option<seq<Capability>>, FreshnessError>)
      ensures sel == Selection(caps, ledger, only, stale, tier, tree, now)
    {
      var selected := OfTier(caps, tier);
      if only.Some? {
        var named := Filter(selected, Named(only.value));
        if named == [] {
          return Success(None);
        }
        selected := [named[|named| - 1]];
      } else if stale {
        var found := BlockingCaps(selected, ledger, tree, now);
        if found.Failure? {
          return Failure(found.error);
        }
        if found.value == [] {
          return Success(None);
        }
        selected := found.value;
      }
      return Success(Some(selected));
    }

    /** With no other writer between load and save. Exit codes: 0 all passed (or nothing stale),
        1 some check did not pass, 2 unknown capability. A bad freshness raises and saves nothing. */
    method CmdVerify(only: Option<string>, stale: bool, tier: Option<string>, now: int, tree: Tree,
                     check: Capability -> CheckRun)
      returns (r: Result<int, FreshnessError>)
      modifies this`ledger
      ensures VerifyOutcome(caps, old(ledger), ledger, only, stale, tier, now, tree, check, r)
      ensures RanSelection(caps, old(ledger), ledger, only, stale, tier, now, tree, check, r)
    {
      var sel := SelectCaps(only, stale, tier, now, tree);
      if sel.Failure? {
        r := Failure(sel.error);
      } else if sel.value.None? {
        r := Success(if only.Some? then 2 else 0);
      } else {
        var updated, allPassed := RunChecks(sel.value.value, ledger, only.Some?, now, tree, check);
        SaveMerged(updated, only.Some?, now);
        r := Success(if allPassed then 0 else 1);
      }
      RanSelectionMeans(caps, old(ledger), ledger, only, stale, tier, now, tree, check, r);
    }

    /** The last capability of that id, as a dictionary by id would give it. */
    method RequireCapability(id: string) returns (found: Option<Capability>)
      ensures found.None? <==> forall c :: c in caps ==> c.id != id
      ensures found.Some? ==> exists k :: LastNamed(caps, None, id, k) && caps[k] == found.value
    {
      found := LastWhere(caps, Named(id));
      if found.Some? {
        NamedInManifest(caps, id, found.value);
      } else {
        assert forall c :: c in caps ==> !Named(id)(c);
      }
    }

    /** Unknown ids return 2 and bad durations raise, both leaving the ledger alone. */
    method CmdAck(id: string, reason: string, duration: string, now: int)
      returns (r: Result<int, FreshnessError>)
      modifies this`ledger
      ensures r == Success(2) <==> forall c :: c in caps ==> c.id != id
      ensures r != Success(0) ==> ledger == old(ledger)
      ensures r != Success(2) ==>
        if ParseDuration(duration).Failure? then r == Failure(ParseDuration(duration).error)
        else r == Success(0) && Waives(caps, old(ledger), ledger, id, reason, now, now + ParseDuration(duration).value)
    {
      var cap := RequireCapability(id);
      if cap.None? {
        return Success(2);
      }
      var span := ParseDuration(duration);
      if span.Failure? {
        return Failure(span.error);
      }
      AckWaives(caps, ledger, id, reason, now, now + span.value, cap.value);
      ledger := ledger[id := AckEntry(cap.value, reason, now, now + span.value)];
      return Success(0);
    }

    /** `status --check`: exit 1 exactly when something blocks, naming it in manifest order. */
    method CmdStatus(check: bool, tier: Option<string>, now: int, tree: Tree)
      returns (r: Result<(int, seq<string>), FreshnessError>)
      ensures match Blocking(OfTier(caps, tier), ledger, tree, now)
        case Failure(e) => r == Failure(e)
        case Success(b) =>
          r == Success((if check && b != [] then 1 else 0, seq(|b|, i requires 0 <= i < |b| => b[i].id)))
    {
      var found := BlockingCaps(OfTier(caps, tier), ledger, tree, now);
      if found.Failure? {
        return Failure(found.error);
      }
      var b := found.value;
      return Success((if check && b != [] then 1 else 0, seq(|b|, i requires 0 <= i < |b| => b[i].id)));
    }

    /** The Stop-hook decision. A stop already in progress is never blocked. */
    method Decide(stopHookActive: bool, now: int, tree: Tree) returns (r: Result<GateDecision, FreshnessError>)
      ensures stopHookActive ==> r == Success(GateDecision(false, [], []))
      ensures !stopHookActive ==> match Blocking(caps, ledger, tree, now)
        case Failure(e) => r == Failure(e)
        case Success(b) =>
          && r.Success? && r.value.block == (b != []) && r.value.named == b
          && forall c :: c in r.value.expired <==> c in caps && StateOf(c, ledger, tree, now) == Success(TimeExpired)
    {
      if stopHookActive {
        return Success(GateDecision(false, [], []));
      }
      var blocking: seq<Capability>, expired: seq<Capability> := [], [];
      assert caps[..0] == [];
      for i := 0 to |caps|
        invariant Blocking(caps[..i], ledger, tree, now) == Success(blocking)
        invariant forall c :: c in expired <==> c in caps[..i] && StateOf(c, ledger, tree, now) == Success(TimeExpired)
      {
        var cap := caps[i];
        assert caps[..i + 1] == caps[..i] + [cap];
        var state := StateOf(cap, ledger, tree, now);
        BlockingSnoc(caps[..i], cap, ledger, tree, now);
        if state.Failure? {
          BlockingPrefixFails(caps, i + 1, ledger, tree, now);
          return Failure(state.error);
        }
        if Blocks(state.value) {
          blocking := blocking + [cap];
        } else if state.value == TimeExpired {
          expired := expired + [cap];
        }
      }
      assert caps[..|caps|] == caps;
      return Success(GateDecision(blocking != [], blocking, expired));
    }

    /** Any error while deciding lets the turn through, visibly. */
    method CmdGate(stopHookActive: bool, now: int, tree: Tree) returns (out: GateOutput)
      ensures out.Blocked? <==>
        (!stopHookActive && Blocking(caps, ledger, tree, now).Success? && Blocking(caps, ledger, tree, now).value != [])
      ensures out.Blocked? ==> Success(out.named) == Blocking(caps, ledger, tree, now)
      ensures out.FailedOpen? <==> !stopHookActive && Blocking(caps, ledger, tree, now).Failure?
    {
      var decision := Decide(stopHookActive, now, tree);
      if decision.Failure? {
        return FailedOpen(decision.error);
      }
      return if decision.value.block then Blocked(decision.value.named) else Allowed;
    }
  }
}

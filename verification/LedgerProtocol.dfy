/** Overlapping `verify` and `ack` processes on one ledger file (caps/cli.py). A verify loads the
    ledger once, runs its checks one by one while others go on, then re-reads, merges and saves;
    each re-read-merge-save, and each ack's load-save, is one step. A process stamps `now` when it
    starts; the clock moves on. */
module LedgerProtocol {
  import opened Wrappers
  import opened Manifest
  import opened Fingerprint
  import opened CapsState
  import opened Verify

  type Pid = nat

  /** A verify in flight: the snapshot it loaded, how many of its capabilities it has been
      through, and the entries it has produced so far. */
  datatype Flight = Flight(explicit: bool, start: int, caps: seq<Capability>, next: nat,
                           snapshot: Ledger, updated: Ledger)

  datatype System = System(disk: Ledger, clock: int, flights: map<Pid, Flight>)

  datatype Event =
    | Tick(seconds: nat)
    | Launch(pid: Pid, explicit: bool, start: int, caps: seq<Capability>)
    | RunNext(pid: Pid, run: CheckRun, tree: Tree)
    | Commit(pid: Pid)
    | Crash(pid: Pid)
    | Ack(cap: Capability, reason: string, start: int, until: int)

  predicate Enabled(s: System, e: Event) {
    match e
    case Tick(_) => true
    case Launch(pid, _, start, _) => pid !in s.flights && start <= s.clock
    case RunNext(pid, _, _) => pid in s.flights && s.flights[pid].next < |s.flights[pid].caps|
    case Commit(pid) => pid in s.flights && s.flights[pid].next >= |s.flights[pid].caps|
    case Crash(pid) => pid in s.flights
    case Ack(_, _, start, _) => start <= s.clock
  }

  /** One iteration of the check loop. */
  function RunOne(f: Flight, run: CheckRun, tree: Tree): Flight
    requires f.next < |f.caps|
  {
    var cap := f.caps[f.next];
    f.(next := f.next + 1,
       updated := if Skipped(cap, f.snapshot, f.explicit, f.start) then f.updated
                  else f.updated[cap.id := NewEntry(cap, run, tree, f.start)])
  }

  /** An event that is not enabled does nothing, so every event list is a run. */
  function Apply(s: System, e: Event): System {
    if !Enabled(s, e) then s else
    match e
    case Tick(d) => s.(clock := s.clock + d)
    case Launch(pid, explicit, start, caps) =>
      s.(flights := s.flights[pid := Flight(explicit, start, caps, 0, s.disk, map[])])
    case RunNext(pid, run, tree) => s.(flights := s.flights[pid := RunOne(s.flights[pid], run, tree)])
    case Commit(pid) =>
      var f := s.flights[pid];
      s.(disk := Merge(s.disk, f.updated, f.explicit, f.start), flights := s.flights - {pid})
    case Crash(pid) => s.(flights := s.flights - {pid})
    case Ack(cap, reason, start, until) => s.(disk := s.disk[cap.id := AckEntry(cap, reason, start, until)])
  }

  function Exec(s: System, events: seq<Event>): System {
    if events == [] then s else Apply(Exec(s, events[..|events| - 1]), events[|events| - 1])
  }

  // ---- What every step keeps ----

  predicate WaiverIffWaived(entry: Entry) {
    entry.waiver.Some? <==> entry.result == WaivedVerdict
  }

  predicate FromRun(e: Entry, start: int) {
    e.waiver.None? && e.result in {Pass, Fail, Error} && e.at == start
  }

  predicate Ran(f: Flight, c: Capability) {
    c in f.caps[..if f.next <= |f.caps| then f.next else |f.caps|] && !Skipped(c, f.snapshot, f.explicit, f.start)
  }

  /** A flight holds an entry for exactly the ids of the capabilities it has been through and not
      skipped, each a verdict of a run, unwaived and stamped with the flight's own start. */
  ghost predicate FlightInv(f: Flight, clock: int) {
    && f.start <= clock && f.next <= |f.caps|
    && (forall c :: Ran(f, c) ==> c.id in f.updated)
    && (forall id :: id in f.updated ==> exists c :: Ran(f, c) && c.id == id)
    && (forall id :: id in f.updated ==> FromRun(f.updated[id], f.start))
  }

  /** Every entry on disk carries a waiver exactly when its result is "waived". */
  ghost predicate Inv(s: System) {
    && (forall id :: id in s.disk ==> WaiverIffWaived(s.disk[id]))
    && (forall pid :: pid in s.flights ==> FlightInv(s.flights[pid], s.clock))
  }

  lemma RunOneKeepsInv(f: Flight, run: CheckRun, tree: Tree, clock: int)
    requires FlightInv(f, clock) && f.next < |f.caps|
    ensures FlightInv(RunOne(f, run, tree), clock)
  {
    var g, cap := RunOne(f, run, tree), f.caps[f.next];
    assert f.caps[..g.next] == f.caps[..f.next] + [cap];
    forall c | Ran(f, c)
      ensures Ran(g, c)
    {
    }
    forall id | id in g.updated
      ensures exists c :: Ran(g, c) && c.id == id
    {
      if id == cap.id && !Skipped(cap, f.snapshot, f.explicit, f.start) {
        assert Ran(g, cap);
      } else {
        var c :| Ran(f, c) && c.id == id;
        assert Ran(g, c);
      }
    }
  }

  lemma StepKeepsInv(s: System, e: Event)
    requires Inv(s)
    ensures Inv(Apply(s, e))
  {
    if Enabled(s, e) && e.RunNext? {
      RunOneKeepsInv(s.flights[e.pid], e.run, e.tree, s.clock);
    } else if Enabled(s, e) && e.Commit? {
      assert FlightInv(s.flights[e.pid], s.clock);
    } else if e.Tick? {
      forall pid | pid in s.flights
        ensures FlightInv(s.flights[pid], s.clock + e.seconds)
      {
        assert FlightInv(s.flights[pid], s.clock);
      }
    }
  }

  lemma {:induction false} RunKeepsInv(s: System, events: seq<Event>)
    requires Inv(s)
    ensures Inv(Exec(s, events))
    ensures s.clock <= Exec(s, events).clock
  {
    if events != [] {
      RunKeepsInv(s, events[..|events| - 1]);
      StepKeepsInv(Exec(s, events[..|events| - 1]), events[|events| - 1]);
    }
  }

  /** A process may die at any moment: what it had not saved is gone, and nothing else is. */
  lemma CrashLosesOnlyTheFlight(s: System, pid: Pid)
    ensures var after := Apply(s, Crash(pid));
      && after.disk == s.disk && after.clock == s.clock && pid !in after.flights
      && forall p :: p != pid ==> Get(after.flights, p) == Get(s.flights, p)
  {
  }

  // ---- What one event writes ----

  /** What event `e` writes to `id` in state `s`, if anything. */
  function WriteOf(s: System, e: Event, id: string): Option<Entry> {
    if !Enabled(s, e) then None else
    match e
    case Commit(pid) =>
      var f := s.flights[pid];
      if id in f.updated && !Kept(id, s.disk, f.explicit, f.start) then Some(f.updated[id]) else None
    case Ack(cap, reason, start, until) =>
      if cap.id == id then Some(AckEntry(cap, reason, start, until)) else None
    case _ => None
  }

  /** The last write to `id` in a run. */
  function LastWrite(s: System, events: seq<Event>, id: string): Option<Entry> {
    if events == [] then None else
    var init := events[..|events| - 1];
    var w := WriteOf(Exec(s, init), events[|events| - 1], id);
    if w.Some? then w else LastWrite(s, init, id)
  }

  /** No lost update: however runs interleave, and however old the snapshots they loaded, the disk
      holds for each id what the last write to that id put there. In particular a commit leaves
      every id it did not run as it found it. */
  lemma {:induction false} DiskHoldsLastWrites(s: System, events: seq<Event>, id: string)
    ensures Get(Exec(s, events).disk, id) ==
      if LastWrite(s, events, id).Some? then LastWrite(s, events, id) else Get(s.disk, id)
  {
    if events != [] {
      DiskHoldsLastWrites(s, events[..|events| - 1], id);
    }
  }

  // ---- What a process writes is what it ran ----

  /** The check outcomes a process's own events carry, in order. */
  function RunsOf(events: seq<Event>, pid: Pid): seq<(CheckRun, Tree)> {
    if events == [] then [] else
    var last := events[|events| - 1];
    RunsOf(events[..|events| - 1], pid) + if last.RunNext? && last.pid == pid then [(last.run, last.tree)] else []
  }

  /** A flight taken through check outcomes; past its last capability nothing more happens. */
  function FoldRuns(f: Flight, runs: seq<(CheckRun, Tree)>): Flight {
    if runs == [] then f else
    var g := FoldRuns(f, runs[..|runs| - 1]);
    var (run, tree) := runs[|runs| - 1];
    if g.next < |g.caps| then RunOne(g, run, tree) else g
  }

  /** A flight in the air before an event and after it: only its own outcome can have moved it. */
  lemma FlightMovesAlone(s: System, e: Event, pid: Pid)
    requires pid in s.flights && pid in Apply(s, e).flights
    ensures var f := s.flights[pid];
      Apply(s, e).flights[pid] ==
        if e.RunNext? && e.pid == pid && f.next < |f.caps| then RunOne(f, e.run, e.tree) else f
  {
  }

  lemma RunsOfSnoc(events: seq<Event>, last: Event, pid: Pid)
    ensures RunsOf(events + [last], pid) ==
      RunsOf(events, pid) + if last.RunNext? && last.pid == pid then [(last.run, last.tree)] else []
  {
    assert (events + [last])[..|events|] == events;
  }

  lemma FoldSnoc(f: Flight, runs: seq<(CheckRun, Tree)>, run: CheckRun, tree: Tree)
    ensures var g := FoldRuns(f, runs);
      FoldRuns(f, runs + [(run, tree)]) == if g.next < |g.caps| then RunOne(g, run, tree) else g
  {
    assert (runs + [(run, tree)])[..|runs|] == runs;
  }

  /** The flight a launch starts in state `s`. */
  function Takeoff(s: System, e: Event): Flight
    requires e.Launch?
  {
    Flight(e.explicit, e.start, e.caps, 0, s.disk, map[])
  }

  /** `k` is the position of the launch that put `pid` in the air, and the flight since then is
      what its own outcomes make of it. */
  ghost predicate LaunchedAt(s: System, events: seq<Event>, pid: Pid, k: nat) {
    && k < |events| && events[k].Launch? && events[k].pid == pid && Enabled(Exec(s, events[..k]), events[k])
    && pid in Exec(s, events).flights
    && Exec(s, events).flights[pid] ==
       FoldRuns(Takeoff(Exec(s, events[..k]), events[k]), RunsOf(events[k + 1..], pid))
  }

  lemma StillLaunchedAt(s: System, init: seq<Event>, last: Event, pid: Pid, k: nat)
    requires LaunchedAt(s, init, pid, k) && pid in Exec(s, init + [last]).flights
    ensures LaunchedAt(s, init + [last], pid, k)
  {
    var events, since := init + [last], init[k + 1..];
    assert events[..|init|] == init && events[..k] == init[..k];
    assert events[k + 1..] == since + [last];
    FlightMovesAlone(Exec(s, init), last, pid);
    RunsOfSnoc(since, last, pid);
    var f := Takeoff(Exec(s, init[..k]), init[k]);
    if last.RunNext? && last.pid == pid {
      FoldSnoc(f, RunsOf(since, pid), last.run, last.tree);
    } else {
      assert RunsOf(since, pid) + [] == RunsOf(since, pid);
    }
    assert Exec(s, events) == Apply(Exec(s, init), last);
    assert Exec(s, init).flights[pid] == FoldRuns(f, RunsOf(since, pid));
  }

  /** In any run, a process in flight is the fold of its own outcomes since its launch, whatever
      the other processes did meanwhile. */
  lemma {:induction false} FlightIsItsOwnRuns(s: System, events: seq<Event>, pid: Pid) returns (k: nat)
    requires pid !in s.flights && pid in Exec(s, events).flights
    ensures LaunchedAt(s, events, pid, k)
  {
    var init, last := events[..|events| - 1], events[|events| - 1];
    if pid in Exec(s, init).flights {
      k := FlightIsItsOwnRuns(s, init, pid);
      assert events == init + [last];
      StillLaunchedAt(s, init, last, pid, k);
    } else {
      k := |init|;
      assert events[k + 1..] == [] && events[..k] == init;
    }
  }

  /** The last of the first `n` capabilities with that id. */
  function LastOf(caps: seq<Capability>, n: nat, id: string): (k: Option<nat>)
    requires n <= |caps|
    ensures k.Some? ==> k.value < n && caps[k.value].id == id && forall j :: k.value < j < n ==> caps[j].id != id
    ensures k.None? ==> forall j :: 0 <= j < n ==> caps[j].id != id
  {
    if n == 0 then None else if caps[n - 1].id == id then Some(n - 1) else LastOf(caps, n - 1, id)
  }

  /** The same launch, `n` capabilities on. */
  predicate Along(f: Flight, g: Flight, n: nat) {
    g.explicit == f.explicit && g.start == f.start && g.caps == f.caps && g.snapshot == f.snapshot && g.next == n
  }

  /** The entry of the last of the first `n` capabilities with that id, unless it was skipped. */
  function Held(f: Flight, n: nat, runs: seq<(CheckRun, Tree)>, id: string): Option<Entry>
    requires n <= |f.caps| && n <= |runs|
  {
    var k := LastOf(f.caps, n, id);
    if k.None? || Skipped(f.caps[k.value], f.snapshot, f.explicit, f.start) then None
    else Some(NewEntry(f.caps[k.value], runs[k.value].0, runs[k.value].1, f.start))
  }

  /** One more outcome for a flight that holds what it should. */
  lemma HeldStep(f: Flight, g: Flight, n: nat, runs: seq<(CheckRun, Tree)>, id: string)
    requires Along(f, g, n) && n < |f.caps| && n < |runs|
    requires Get(g.updated, id) == Held(f, n, runs, id)
    ensures var h := RunOne(g, runs[n].0, runs[n].1);
      Along(f, h, n + 1) && Get(h.updated, id) == Held(f, n + 1, runs, id)
  {
  }

  function Min(m: nat, n: nat): nat {
    if m < n then m else n
  }

  lemma {:induction false} FoldHolds(f: Flight, runs: seq<(CheckRun, Tree)>, m: nat, id: string)
    requires f.next == 0 && f.updated == map[] && m <= |runs|
    ensures Along(f, FoldRuns(f, runs[..m]), Min(m, |f.caps|))
    ensures Get(FoldRuns(f, runs[..m]).updated, id) == Held(f, Min(m, |f.caps|), runs, id)
  {
    if m > 0 {
      assert runs[..m][..m - 1] == runs[..m - 1];
      FoldHolds(f, runs, m - 1, id);
      if m - 1 < |f.caps| {
        HeldStep(f, FoldRuns(f, runs[..m - 1]), m - 1, runs, id);
      }
    }
  }

  /** What a commit should leave for an id: the entry made of the outcome of the last capability of
      that id the flight ran, unless its snapshot waived the id or the disk keeps its own. */
  function Committed(f: Flight, runs: seq<(CheckRun, Tree)>, disk: Ledger, id: string): Option<Entry>
    requires |f.caps| <= |runs|
  {
    var held := Held(f, |f.caps|, runs, id);
    if held.Some? && !Kept(id, disk, f.explicit, f.start) then held else Get(disk, id)
  }

  lemma CommitOfFold(s: System, pid: Pid, f: Flight, runs: seq<(CheckRun, Tree)>, id: string)
    requires f.next == 0 && f.updated == map[]
    requires Enabled(s, Commit(pid)) && s.flights[pid] == FoldRuns(f, runs)
    ensures |f.caps| <= |runs|
    ensures Get(Apply(s, Commit(pid)).disk, id) == Committed(f, runs, s.disk, id)
  {
    assert runs[..|runs|] == runs;
    FoldHolds(f, runs, |runs|, id);
  }

  /** What a commit does to one id, in terms of the two disks it read and the outcomes it saw. With
      `--capability` the record of the run replaces any waiver; a bare run leaves an id alone that
      was waived on the disk it launched on or is waived on the disk it saves to. */
  ghost predicate CommitWrote(launch: Event, loaded: Ledger, runs: seq<(CheckRun, Tree)>, disk: Ledger,
                              after: Ledger, id: string)
    requires launch.Launch?
  {
    && |launch.caps| <= |runs|
    && ((forall c :: c in launch.caps ==> c.id != id) ==> Get(after, id) == Get(disk, id))
    && forall k :: 0 <= k < |launch.caps| && launch.caps[k].id == id
                   && (forall j :: k < j < |launch.caps| ==> launch.caps[j].id != id) ==>
      if launch.explicit || (Unwaived(loaded, id, launch.start) && Unwaived(disk, id, launch.start))
      then id in after && Records(after[id], launch.caps[k], runs[k].0, runs[k].1, launch.start)
      else Get(after, id) == Get(disk, id)
  }

  lemma LastOfIs(caps: seq<Capability>, id: string, k: nat)
    requires k < |caps| && caps[k].id == id && forall j :: k < j < |caps| ==> caps[j].id != id
    ensures LastOf(caps, |caps|, id) == Some(k)
  {
  }

  lemma HeldRecord(f: Flight, runs: seq<(CheckRun, Tree)>, id: string, k: nat)
    requires |f.caps| <= |runs| && LastOf(f.caps, |f.caps|, id) == Some(k)
    ensures if f.explicit || Unwaived(f.snapshot, id, f.start)
      then Held(f, |f.caps|, runs, id) == Some(NewEntry(f.caps[k], runs[k].0, runs[k].1, f.start))
      else Held(f, |f.caps|, runs, id) == None
  {
  }

  lemma CommittedRecord(f: Flight, runs: seq<(CheckRun, Tree)>, disk: Ledger, id: string, k: nat)
    requires |f.caps| <= |runs| && LastOf(f.caps, |f.caps|, id) == Some(k)
    ensures Committed(f, runs, disk, id) ==
      if f.explicit || (Unwaived(f.snapshot, id, f.start) && Unwaived(disk, id, f.start))
      then Some(NewEntry(f.caps[k], runs[k].0, runs[k].1, f.start)) else Get(disk, id)
  {
    HeldRecord(f, runs, id, k);
  }

  lemma CommittedWrote(launch: Event, loaded: Ledger, runs: seq<(CheckRun, Tree)>, disk: Ledger, after: Ledger, id: string)
    requires launch.Launch? && |launch.caps| <= |runs|
    requires Get(after, id) ==
      Committed(Flight(launch.explicit, launch.start, launch.caps, 0, loaded, map[]), runs, disk, id)
    ensures CommitWrote(launch, loaded, runs, disk, after, id)
  {
    var f := Flight(launch.explicit, launch.start, launch.caps, 0, loaded, map[]);
    var last := LastOf(launch.caps, |launch.caps|, id);
    assert last.Some? ==> launch.caps[last.value] in launch.caps;
    forall k: nat | k < |launch.caps| && launch.caps[k].id == id
                    && forall j :: k < j < |launch.caps| ==> launch.caps[j].id != id
      ensures if launch.explicit || (Unwaived(loaded, id, launch.start) && Unwaived(disk, id, launch.start))
        then id in after && Records(after[id], launch.caps[k], runs[k].0, runs[k].1, launch.start)
        else Get(after, id) == Get(disk, id)
    {
      LastOfIs(launch.caps, id, k);
      CommittedRecord(f, runs, disk, id, k);
      NewEntryRecords(launch.caps[k], runs[k].0, runs[k].1, launch.start);
    }
  }

  /** At a commit in any run, the disk gets for each id the record of the very outcome the
      committing process saw since its launch; every id it did not run, or that is waived and not
      overridden, stays as found. */
  lemma CommitWritesOwnOutcomes(s: System, events: seq<Event>, pid: Pid, id: string) returns (at: nat)
    requires pid !in s.flights && Enabled(Exec(s, events), Commit(pid))
    ensures LaunchedAt(s, events, pid, at)
    ensures CommitWrote(events[at], Exec(s, events[..at]).disk, RunsOf(events[at + 1..], pid),
                        Exec(s, events).disk, Apply(Exec(s, events), Commit(pid)).disk, id)
  {
    at := FlightIsItsOwnRuns(s, events, pid);
    var runs := RunsOf(events[at + 1..], pid);
    CommitOfFold(Exec(s, events), pid, Takeoff(Exec(s, events[..at]), events[at]), runs, id);
    CommittedWrote(events[at], Exec(s, events[..at]).disk, runs, Exec(s, events).disk,
                   Apply(Exec(s, events), Commit(pid)).disk, id);
  }

  // ---- A run nobody interrupts ----

  /** The check loop's events, with fixed files and check outcomes. */
  function LoopEvents(pid: Pid, caps: seq<Capability>, check: Capability -> CheckRun, tree: Tree): seq<Event> {
    seq(|caps|, i requires 0 <= i < |caps| => RunNext(pid, check(caps[i]), tree))
  }

  lemma ExecSnoc(s: System, events: seq<Event>, e: Event)
    ensures Exec(s, events + [e]) == Apply(Exec(s, events), e)
  {
    assert (events + [e])[..|events|] == events;
  }

  lemma LoopStep(s: System, pid: Pid, g: Flight, run: CheckRun, tree: Tree)
    requires g.next < |g.caps|
    ensures Apply(s.(flights := s.flights[pid := g]), RunNext(pid, run, tree)) ==
      s.(flights := s.flights[pid := RunOne(g, run, tree)])
  {
    assert s.flights[pid := g][pid := RunOne(g, run, tree)] == s.flights[pid := RunOne(g, run, tree)];
  }

  /** A flight that has been through its first `n` capabilities. */
  function Partway(f: Flight, n: nat, check: Capability -> CheckRun, tree: Tree): Flight
    requires n <= |f.caps|
  {
    f.(next := n, updated := Updates(f.caps[..n], f.snapshot, f.explicit, f.start, tree, check))
  }

  lemma PartwayStep(f: Flight, n: nat, check: Capability -> CheckRun, tree: Tree)
    requires n < |f.caps|
    ensures RunOne(Partway(f, n, check, tree), check(f.caps[n]), tree) == Partway(f, n + 1, check, tree)
  {
    assert f.caps[..n + 1] == f.caps[..n] + [f.caps[n]];
    UpdatesSnoc(f.caps[..n], f.caps[n], f.snapshot, f.explicit, f.start, tree, check);
  }

  lemma {:induction false} LoopIsUpdates(s: System, pid: Pid, n: nat, check: Capability -> CheckRun, tree: Tree)
    requires pid in s.flights && s.flights[pid].next == 0 && s.flights[pid].updated == map[]
    requires n <= |s.flights[pid].caps|
    ensures var f := s.flights[pid];
      Exec(s, LoopEvents(pid, f.caps[..n], check, tree)) ==
        s.(flights := s.flights[pid := Partway(f, n, check, tree)])
  {
    var f := s.flights[pid];
    if n == 0 {
      assert f.caps[..0] == [] && s.flights[pid := f] == s.flights;
    } else {
      var e := RunNext(pid, check(f.caps[n - 1]), tree);
      LoopIsUpdates(s, pid, n - 1, check, tree);
      assert LoopEvents(pid, f.caps[..n], check, tree) == LoopEvents(pid, f.caps[..n - 1], check, tree) + [e];
      ExecSnoc(s, LoopEvents(pid, f.caps[..n - 1], check, tree), e);
      LoopStep(s, pid, Partway(f, n - 1, check, tree), e.run, tree);
      PartwayStep(f, n - 1, check, tree);
    }
  }

  lemma {:induction false} ExecConcat(s: System, a: seq<Event>, b: seq<Event>)
    ensures Exec(s, a + b) == Exec(Exec(s, a), b)
  {
    if b == [] {
      assert a + b == a;
    } else {
      assert (a + b)[..|a + b| - 1] == a + b[..|b| - 1];
      ExecConcat(s, a, b[..|b| - 1]);
    }
  }

  lemma CommitAfterLoop(up: System, pid: Pid, f: Flight, check: Capability -> CheckRun, tree: Tree)
    requires pid in up.flights && up.flights[pid] == f && f.next == 0 && f.updated == map[]
    ensures Apply(Exec(up, LoopEvents(pid, f.caps, check, tree)), Commit(pid)) ==
      System(Merge(up.disk, Updates(f.caps, f.snapshot, f.explicit, f.start, tree, check), f.explicit, f.start),
             up.clock, up.flights - {pid})
  {
    assert f.caps[..|f.caps|] == f.caps;
    LoopIsUpdates(up, pid, |f.caps|, check, tree);
    var g := Partway(f, |f.caps|, check, tree);
    assert up.flights[pid := g] - {pid} == up.flights - {pid};
  }

  lemma ExecAround(s: System, first: Event, middle: seq<Event>, last: Event)
    ensures Exec(s, [first] + middle + [last]) == Apply(Exec(Apply(s, first), middle), last)
  {
    ExecSnoc(s, [first] + middle, last);
    ExecConcat(s, [first], middle);
    ExecSnoc(s, [], first);
    assert [] + [first] == [first];
  }

  /** Launched, run to the end and committed with nothing in between, a process leaves the disk as
      the one-process command does, and everything else as it was. */
  lemma UninterruptedIsCmdVerify(s: System, pid: Pid, caps: seq<Capability>, explicit: bool, start: int,
                                 check: Capability -> CheckRun, tree: Tree)
    requires pid !in s.flights && start <= s.clock
    ensures Exec(s, [Launch(pid, explicit, start, caps)] + LoopEvents(pid, caps, check, tree) + [Commit(pid)]) ==
      s.(disk := Merge(s.disk, Updates(caps, s.disk, explicit, start, tree, check), explicit, start))
  {
    var launch := Launch(pid, explicit, start, caps);
    ExecAround(s, launch, LoopEvents(pid, caps, check, tree), Commit(pid));
    CommitAfterLoop(Apply(s, launch), pid, Takeoff(s, launch), check, tree);
    assert s.flights[pid := Takeoff(s, launch)] - {pid} == s.flights;
  }

  // ---- Waivers ----

  /** The events allowed to replace an active waiver on `id`. */
  predicate Overrides(s: System, e: Event, id: string) {
    Enabled(s, e) &&
    ((e.Ack? && e.cap.id == id) ||
     (e.Commit? && s.flights[e.pid].explicit && id in s.flights[e.pid].updated))
  }

  predicate NoOverride(s: System, events: seq<Event>, id: string) {
    events == [] ||
    (NoOverride(s, events[..|events| - 1], id) &&
     !Overrides(Exec(s, events[..|events| - 1]), events[|events| - 1], id))
  }

  lemma StepSparesActiveWaiver(s: System, e: Event, id: string)
    requires Inv(s)
    requires WaiverActive(Get(s.disk, id), s.clock) && !Overrides(s, e, id)
    ensures Get(Apply(s, e).disk, id) == Get(s.disk, id)
  {
    if Enabled(s, e) && e.Commit? {
      assert FlightInv(s.flights[e.pid], s.clock);
    }
  }

  /** A waiver still active at the end of a run was never touched during it, unless some other ack
      of the same id, or a `--capability` verify that ran it, was part of the run. */
  lemma {:induction false} WaiverSurvivesRun(s: System, events: seq<Event>, id: string)
    requires Inv(s)
    requires WaiverActive(Get(s.disk, id), Exec(s, events).clock) && NoOverride(s, events, id)
    ensures Get(Exec(s, events).disk, id) == Get(s.disk, id)
  {
    if events != [] {
      var init, last := events[..|events| - 1], events[|events| - 1];
      var mid := Exec(s, init);
      RunKeepsInv(s, init);
      assert mid.clock <= Apply(mid, last).clock;
      WaiverSurvivesRun(s, init, id);
      StepSparesActiveWaiver(mid, last, id);
    }
  }

  /** A bare verify judges waivers by the clock it started with, not the clock it saves by. Its
      result for `id` is recorded exactly when no waiver on disk outlives its start; so "recorded
      unless the waiver is active when saving" holds exactly when no waiver lapsed in between. */
  lemma CommitRecordsUnlessWaivedAtStart(s: System, pid: Pid, id: string)
    requires Inv(s) && Enabled(s, Commit(pid))
    requires !s.flights[pid].explicit && id in s.flights[pid].updated
    ensures var f := s.flights[pid];
      var recorded := WriteOf(s, Commit(pid), id) == Some(f.updated[id]);
      var until := if id in s.disk && s.disk[id].waiver.Some? then Some(s.disk[id].waiver.value.until) else None;
      && (recorded <==> !WaiverActive(Get(s.disk, id), f.start))
      && ((recorded <==> !WaiverActive(Get(s.disk, id), s.clock)) <==>
          !(until.Some? && f.start < until.value <= s.clock))
  {
    assert FlightInv(s.flights[pid], s.clock);
  }

  const PROBE := Capability("x", "cheap", [], "24h", ShellCommand, "true", false)
  const IDLE := Tree(map[], map[], {})

  const NOBODY := System(map[], 0, map[])
  const PROBE_RUN := CheckRun(Passed, None, 1.0)

  function Midway(): System {
    Apply(Apply(Apply(NOBODY, Launch(0, false, 0, [PROBE])), Ack(PROBE, "flaky", 0, 10)), RunNext(0, PROBE_RUN, IDLE))
  }

  lemma MidwayHolds()
    ensures Midway().clock == 0 && Midway().disk == map["x" := AckEntry(PROBE, "flaky", 0, 10)]
    ensures 0 in Midway().flights && Enabled(Midway(), Commit(0))
    ensures Midway().flights[0].start == 0 && !Midway().flights[0].explicit
    ensures "x" in Midway().flights[0].updated && Midway().flights[0].updated["x"].result.Pass?
  {
  }

  /** A verify starts, someone waives x for 10 seconds, the check passes, 20 seconds go by, the
      verify saves: the pass is dropped, and x is left with nothing but a lapsed waiver. */
  lemma PassDroppedForLapsedWaiver()
    ensures var end := Apply(Apply(Midway(), Tick(20)), Commit(0));
      end.clock == 20 && StateOf(PROBE, end.disk, IDLE, end.clock) == Success(NeverProven)
  {
    MidwayHolds();
  }
}

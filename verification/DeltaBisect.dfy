/** python/examples/data-inspector/tools.py: binary search over a table's version history for
    the version where a condition flipped. The history need not be monotone. A query against
    version `v` of the table reads position `v` of the history. */
module DeltaBisect {
  import opened Wrappers

  datatype QueryError = NoHistory | NoSuchVersion(version: nat) | MathDomain

  /** `int(math.log2(n))`, exactly. */
  function Log2(n: nat): nat {
    if n < 2 then 0 else 1 + Log2(n / 2)
  }

  function Pow2(k: nat): nat {
    if k == 0 then 1 else 2 * Pow2(k - 1)
  }

  lemma {:induction false} Log2IsExact(n: nat)
    requires n > 0
    ensures Pow2(Log2(n)) <= n < Pow2(Log2(n) + 1)
  {
    if n >= 2 {
      Log2IsExact(n / 2);
    }
  }

  lemma {:induction false} Pow2Monotone(a: nat, b: nat)
    requires a <= b
    ensures Pow2(a) <= Pow2(b)
  {
    if a < b {
      Pow2Monotone(a, b - 1);
    }
  }

  lemma {:induction false} Log2Monotone(a: nat, b: nat)
    requires a <= b
    ensures Log2(a) <= Log2(b)
    decreases b
  {
    if 2 <= b {
      Log2Monotone(a / 2, b / 2);
    }
  }

  /** The most steps a range of `size` + 1 versions can take. */
  function StepsFor(size: nat): nat {
    if size == 0 then 0 else 1 + Log2(size)
  }

  lemma Midpoint(lo: nat, hi: nat)
    requires lo < hi
    ensures lo <= (lo + hi) / 2 < hi
    ensures hi - ((lo + hi) / 2 + 1) <= (hi - lo) / 2 && (lo + hi) / 2 - lo <= (hi - lo) / 2
  {
  }

  lemma HalvingCostsOneStep(size: nat, rest: nat)
    requires 0 < size && rest <= size / 2
    ensures StepsFor(rest) < StepsFor(size)
  {
    Log2Monotone(rest, size / 2);
  }

  // ---- The search as a function of its two ends ----

  /** Where halving ends when it may take all the steps it needs; `low` is the hit at the low end. */
  function Target(hits: seq<bool>, low: bool, lo: nat, hi: nat): nat
    requires hi < |hits|
    decreases hi - lo
  {
    if lo >= hi then hi else
    var mid := (lo + hi) / 2;
    if hits[mid] == low then Target(hits, low, mid + 1, hi) else Target(hits, low, lo, mid)
  }

  /** One step: query the midpoint and keep the half with the transition. */
  method Probe(hits: seq<bool>, low: bool, lo0: nat, hi0: nat) returns (lo: nat, hi: nat)
    requires lo0 < hi0 < |hits| && hits[hi0] != low
    ensures lo0 <= lo <= hi <= hi0 && hits[hi] != low && (lo == lo0 || hits[lo - 1] == low)
    ensures Target(hits, low, lo, hi) == Target(hits, low, lo0, hi0)
    ensures StepsFor(hi - lo) < StepsFor(hi0 - lo0) && hi - lo < hi0 - lo0
  {
    var mid := (lo0 + hi0) / 2;
    Midpoint(lo0, hi0);
    lo, hi := if hits[mid] == low then mid + 1 else lo0, if hits[mid] == low then hi0 else mid;
    HalvingCostsOneStep(hi0 - lo0, hi - lo);
  }

  /** The loop shared by both tools: the step cap never cuts it short, and it ends on a version
      that differs from the low end while the one before it does not. */
  method Search(hits: seq<bool>, lo0: nat, hi0: nat) returns (t: nat, steps: nat)
    requires lo0 < hi0 < |hits| && hits[lo0] != hits[hi0]
    ensures lo0 < t <= hi0 && hits[t] != hits[lo0] && hits[t - 1] == hits[lo0]
    ensures t == Target(hits, hits[lo0], lo0, hi0)
    ensures steps <= 1 + Log2(hi0 - lo0) < Log2(hi0 - lo0 + 1) + 2
    ensures Pow2(steps) <= 2 * (hi0 - lo0)
  {
    var lo, hi, low := lo0, hi0, hits[lo0];
    steps := 0;
    var maxSteps := Log2(hi - lo + 1) + 2;
    Log2Monotone(hi - lo, hi - lo + 1);
    while lo < hi && steps < maxSteps
      invariant lo0 <= lo <= hi <= hi0
      invariant hits[hi] != low && (lo == lo0 || hits[lo - 1] == low)
      invariant Target(hits, low, lo, hi) == Target(hits, low, lo0, hi0)
      invariant steps + StepsFor(hi - lo) <= StepsFor(hi0 - lo0)
      decreases hi - lo
    {
      lo, hi := Probe(hits, low, lo, hi);
      steps := steps + 1;
    }
    t := hi;
    Log2IsExact(hi0 - lo0);
    Pow2Monotone(steps, 1 + Log2(hi0 - lo0));
  }

  // ---- Whether the transition found is the first one ----

  lemma {:induction false} TargetInRange(hits: seq<bool>, low: bool, lo: nat, hi: nat)
    requires lo <= hi < |hits|
    ensures lo <= Target(hits, low, lo, hi) <= hi
    decreases hi - lo
  {
    if lo < hi {
      var mid := (lo + hi) / 2;
      if hits[mid] == low {
        TargetInRange(hits, low, mid + 1, hi);
      } else {
        TargetInRange(hits, low, lo, mid);
      }
    }
  }

  /** On the way to `first`, every midpoint at or above it differs from the low end. */
  predicate PathDiffers(hits: seq<bool>, low: bool, lo: nat, hi: nat, first: nat)
    requires hi < |hits|
    decreases hi - lo
  {
    if lo >= hi then true else
    var mid := (lo + hi) / 2;
    if mid < first then PathDiffers(hits, low, mid + 1, hi, first)
    else hits[mid] != low && PathDiffers(hits, low, lo, mid, first)
  }

  lemma {:induction false} TargetIsFirst(hits: seq<bool>, low: bool, lo: nat, hi: nat, first: nat)
    requires lo <= first <= hi < |hits| && forall v :: lo <= v < first ==> hits[v] == low
    ensures Target(hits, low, lo, hi) == first <==> PathDiffers(hits, low, lo, hi, first)
    decreases hi - lo
  {
    if lo < hi {
      var mid := (lo + hi) / 2;
      if mid < first {
        TargetIsFirst(hits, low, mid + 1, hi, first);
      } else if hits[mid] == low {
        TargetInRange(hits, low, mid + 1, hi);
      } else {
        TargetIsFirst(hits, low, lo, mid, first);
      }
    }
  }

  lemma {:induction false} TargetIsOnlyFlip(hits: seq<bool>, low: bool, lo: nat, hi: nat, flip: nat)
    requires lo <= flip <= hi < |hits|
    requires forall v :: lo <= v < hi ==> (hits[v] == low <==> v < flip)
    ensures Target(hits, low, lo, hi) == flip
    decreases hi - lo
  {
    if lo < hi {
      var mid := (lo + hi) / 2;
      if hits[mid] == low {
        TargetIsOnlyFlip(hits, low, mid + 1, hi, flip);
      } else {
        TargetIsOnlyFlip(hits, low, lo, mid, flip);
      }
    }
  }

  // ---- DESCRIBE HISTORY ----

  /** The newest `limit` versions, newest first: the tools read the current version off the first row. */
  function HistoryRows(current: nat, limit: nat): seq<nat> {
    seq(if limit <= current then limit else current + 1, i requires 0 <= i <= current => current - i)
  }

  /** Scanning the newest t + 1 rows finds version t only in the newer half of the history. */
  method FindVersionInfo(current: nat, t: nat) returns (info: Option<nat>)
    requires t <= current
    ensures info == if 2 * t >= current then Some(t) else None
  {
    var rows := HistoryRows(current, t + 1);
    assert 2 * t >= current ==> rows[current - t] == t;
    info := None;
    for i := 0 to |rows|
      invariant forall k :: 0 <= k < i ==> rows[k] != t
    {
      if rows[i] == t {
        return Some(t);
      }
    }
  }

  // ---- The two tools ----

  /** What the search says about a history of hits, before values are reported. */
  datatype Finding =
    | Unchanged(lo: nat, hi: nat)
    | Changed(version: nat, steps: nat, info: Option<nat>)

  /** The range searched: defaults filled in, the high end clipped to the current version. */
  function LowEnd(versionLo: int): nat {
    if versionLo >= 0 then versionLo else 0
  }

  function HighEnd(versionHi: int, current: nat): nat {
    if 0 <= versionHi <= current then versionHi else current
  }

  /** The hit at the version found differs from the low end's, the one before it does not; it is
      the one halving ends on; the steps stay under the cap; the history row is there for the newer
      half of the versions. */
  ghost predicate IsTransition(hits: seq<bool>, lo: nat, hi: nat, f: Finding)
    requires f.Changed? && lo <= hi < |hits|
  {
    var t := f.version;
    && lo < t <= hi
    && hits[t] != hits[lo] && hits[t - 1] == hits[lo]
    && t == Target(hits, hits[lo], lo, hi)
    && Pow2(f.steps) <= 2 * (hi - lo)
    && f.info == if 2 * t >= |hits| - 1 then Some(t) else None
  }

  /** What a finding on a history of hits must say, errors included. */
  ghost predicate Explains(hits: seq<bool>, versionLo: int, versionHi: int, r: Result<Finding, QueryError>) {
    if |hits| == 0 then r == Failure(NoHistory) else
    var lo, hi := LowEnd(versionLo), HighEnd(versionHi, |hits| - 1);
    if lo >= |hits| then r == Failure(NoSuchVersion(lo))
    else if hits[lo] == hits[hi] then r == Success(Unchanged(lo, hi))
    else if lo > hi then r == Failure(MathDomain)
    else r.Success? && r.value.Changed? && IsTransition(hits, lo, hi, r.value)
  }

  /** The range asked for: a negative low end is version 0; a negative or too large high end is the
      newest. Over it, either nothing changed between the ends, or the version reported differs from
      the low end while the one before it does not. */
  ghost predicate FindsAsAsked(hits: seq<bool>, versionLo: int, versionHi: int, f: Finding) {
    forall lo: nat, hi: nat | lo <= hi < |hits|
      && (lo == versionLo || (versionLo < 0 && lo == 0))
      && (hi == versionHi || ((versionHi < 0 || versionHi >= |hits|) && hi == |hits| - 1)) ::
      if hits[lo] == hits[hi] then f == Unchanged(lo, hi)
      else f.Changed? && lo < f.version <= hi && hits[f.version] != hits[lo] && hits[f.version - 1] == hits[lo]
  }

  method Locate(hits: seq<bool>, versionLo: int, versionHi: int) returns (r: Result<Finding, QueryError>)
    ensures Explains(hits, versionLo, versionHi, r)
    ensures r.Success? ==> FindsAsAsked(hits, versionLo, versionHi, r.value)
  {
    if |hits| == 0 {
      return Failure(NoHistory);
    }
    var current: nat := |hits| - 1;
    var lo: nat := if versionLo >= 0 then versionLo else 0;
    var hi: nat := if versionHi >= 0 then versionHi else current;
    if hi > current {
      hi := current;
    }
    if lo > current {
      return Failure(NoSuchVersion(lo));
    }
    if hits[lo] == hits[hi] {
      return Success(Unchanged(lo, hi));
    }
    if hi - lo + 1 <= 0 {
      return Failure(MathDomain);
    }
    var t, steps := Search(hits, lo, hi);
    var info := FindVersionInfo(current, t);
    return Success(Changed(t, steps, info));
  }

  /** The documented answer, the first version from the low end on that differs from it, is what
      is reported exactly when the few midpoints above it on the search path differ too. */
  lemma FindsFirstExactlyWhen(hits: seq<bool>, versionLo: int, versionHi: int, r: Result<Finding, QueryError>,
                             first: nat)
    requires Explains(hits, versionLo, versionHi, r) && r.Success? && r.value.Changed?
    requires LowEnd(versionLo) <= first < |hits| && hits[first] != hits[LowEnd(versionLo)]
    requires forall v :: LowEnd(versionLo) <= v < first ==> hits[v] == hits[LowEnd(versionLo)]
    ensures var lo, hi := LowEnd(versionLo), HighEnd(versionHi, |hits| - 1);
      r.value.version == first <==> PathDiffers(hits, hits[lo], lo, hi, first)
  {
    var lo, hi := LowEnd(versionLo), HighEnd(versionHi, |hits| - 1);
    TargetIsFirst(hits, hits[lo], lo, hi, first);
  }

  /** On a history that flips once in the range, that flip is reported. */
  lemma FindsTheOnlyFlip(hits: seq<bool>, versionLo: int, versionHi: int, r: Result<Finding, QueryError>,
                         flip: nat)
    requires Explains(hits, versionLo, versionHi, r) && hits != []
    requires LowEnd(versionLo) < flip <= HighEnd(versionHi, |hits| - 1)
    requires forall v :: LowEnd(versionLo) <= v <= HighEnd(versionHi, |hits| - 1) ==>
      (hits[v] == hits[LowEnd(versionLo)] <==> v < flip)
    ensures r.Success? && r.value.Changed? && r.value.version == flip
  {
    var lo, hi := LowEnd(versionLo), HighEnd(versionHi, |hits| - 1);
    TargetIsOnlyFlip(hits, hits[lo], lo, hi, flip);
  }

  /** A row that appears, vanishes and reappears: version 1 is the first to differ, 4 is reported. */
  lemma NotAlwaysTheFirst(r: Result<Finding, QueryError>)
    requires Explains([false, true, false, false, true], -1, -1, r)
    ensures r.Success? && r.value.Changed? && r.value.version == 4
    ensures [false, true, false, false, true][1] != [false, true, false, false, true][0]
  {
    var hits := [false, true, false, false, true];
    assert Target(hits, false, 4, 4) == 4;
    assert Target(hits, false, 3, 4) == Target(hits, false, 4, 4);
  }

  /** A finding with the values read at its two versions. */
  datatype Report<V> = Report(finding: Finding, before: V, after: V)

  /** `delta_bisect`: presence of a row. With an explicit low version the values before and after
      are inferred rather than queried; they come out the same. */
  method DeltaBisect(history: seq<bool>, versionLo: int, versionHi: int)
    returns (r: Result<Report<bool>, QueryError>)
    ensures Explains(history, versionLo, versionHi, if r.Success? then Success(r.value.finding) else Failure(r.error))
    ensures r.Success? ==> FindsAsAsked(history, versionLo, versionHi, r.value.finding)
    ensures r.Success? && r.value.finding.Changed? ==>
      var t := r.value.finding.version;
      0 < t < |history| && r.value.before == history[t - 1] && r.value.after == history[t]
    ensures r.Success? && r.value.finding.Unchanged? ==> r.value.before == r.value.after == history[LowEnd(versionLo)]
  {
    var found := Locate(history, versionLo, versionHi);
    if found.Failure? {
      return Failure(found.error);
    }
    var atLo := history[LowEnd(versionLo)];
    if found.value.Unchanged? {
      return Success(Report(found.value, atLo, history[found.value.hi]));
    }
    var t := found.value.version;
    if versionLo >= 0 {
      return Success(Report(found.value, atLo, !atLo));
    }
    return Success(Report(found.value, history[if t >= 1 then t - 1 else 0], history[t]));
  }

  /** Whether each version's value is the expected one; an absent row never is. */
  function Hits(values: seq<Option<string>>, expected: string): seq<bool> {
    seq(|values|, v requires 0 <= v < |values| => values[v] == Some(expected))
  }

  /** `delta_bisect_column`: the values reported around the transition, exactly one of them the
      expected one. */
  method DeltaBisectColumn(history: seq<Option<string>>, expected: string, versionLo: int, versionHi: int)
    returns (r: Result<Report<Option<string>>, QueryError>)
    ensures Explains(Hits(history, expected), versionLo, versionHi,
                     if r.Success? then Success(r.value.finding) else Failure(r.error))
    ensures r.Success? ==>
      FindsAsAsked(seq(|history|, v requires 0 <= v < |history| => history[v] == Some(expected)),
                   versionLo, versionHi, r.value.finding)
    ensures r.Success? && r.value.finding.Changed? ==>
      var t := r.value.finding.version;
      && 0 < t < |history| && r.value.before == history[t - 1] && r.value.after == history[t]
      && (r.value.before == Some(expected)) != (r.value.after == Some(expected))
  {
    var hits := Hits(history, expected);
    var found := Locate(hits, versionLo, versionHi);
    if found.Failure? {
      return Failure(found.error);
    }
    if found.value.Unchanged? {
      return Success(Report(found.value, history[found.value.lo], history[found.value.hi]));
    }
    var t := found.value.version;
    assert hits[t - 1] != hits[t];
    return Success(Report(found.value, history[if t >= 1 then t - 1 else 0], history[t]));
  }
}

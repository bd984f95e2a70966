/** caps/freshness.py, caps/ledger.py, caps/state.py: durations, ledger entries, and the one
    word for where a capability stands. Instants are whole seconds. */
module CapsState {
  import opened Wrappers
  import opened Text
  import opened Manifest
  import opened Fingerprint

  // ---- Durations ----

  datatype FreshnessError = BadDuration(text: string)

  predicate Blank(s: string) {
    forall i :: 0 <= i < |s| ==> IsSpace(s[i])
  }

  function DropSpaces(s: string): string {
    if s != "" && IsSpace(s[0]) then DropSpaces(s[1..]) else s
  }

  function DigitPrefix(s: string): (k: nat)
    ensures k <= |s| && AllDigits(s[..k])
    ensures k < |s| ==> !IsDigit(s[k])
  {
    if s != "" && IsDigit(s[0]) then 1 + DigitPrefix(s[1..]) else 0
  }

  function UnitSeconds(c: char): (n: nat)
    ensures n > 0 <==> c in "smhd"
    ensures c == 's' ==> n == 1
    ensures c == 'm' ==> n == 60 * 1
    ensures c == 'h' ==> n == 60 * 60
    ensures c == 'd' ==> n == 24 * 60 * 60
  {
    match c
    case 's' => 1
    case 'm' => 60
    case 'h' => 3600
    case 'd' => 86400
    case _ => 0
  }

  /** `\s*(\d+)\s*([smhd])\s*`, matched against the whole text. */
  function ParseDuration(text: string): Result<nat, FreshnessError> {
    var a := DropSpaces(text);
    var k := DigitPrefix(a);
    var b := DropSpaces(a[k..]);
    if k == 0 || b == "" || UnitSeconds(b[0]) == 0 || DropSpaces(b[1..]) != "" then
      Failure(BadDuration(text))
    else
      Success(ParseNat(a[..k]) * UnitSeconds(b[0]))
  }

  predicate FreshnessReads(cap: Capability) {
    cap.freshness == "code" || ParseDuration(cap.freshness).Success?
  }

  lemma {:induction false} DropSpacesSkips(blank: string, rest: string)
    requires Blank(blank) && (rest != "" ==> !IsSpace(rest[0]))
    ensures DropSpaces(blank + rest) == rest
  {
    if blank == "" {
      assert blank + rest == rest;
    } else {
      assert (blank + rest)[1..] == blank[1..] + rest;
      DropSpacesSkips(blank[1..], rest);
    }
  }

  lemma {:induction false} DigitPrefixStops(digits: string, rest: string)
    requires AllDigits(digits) && (rest != "" ==> !IsDigit(rest[0]))
    ensures DigitPrefix(digits + rest) == |digits|
  {
    if digits == "" {
      assert digits + rest == rest;
    } else {
      assert (digits + rest)[1..] == digits[1..] + rest;
      DigitPrefixStops(digits[1..], rest);
    }
  }

  /** Every rendering of a count and a unit, with any blanks around, reads back as that length. */
  lemma DurationRoundTrip(l: string, n: nat, m: string, unit: char, r: string)
    requires Blank(l) && Blank(m) && Blank(r) && UnitSeconds(unit) > 0
    ensures ParseDuration(l + Decimal(n) + m + [unit] + r) == Success(n * UnitSeconds(unit))
  {
    var text := l + Decimal(n) + m + [unit] + r;
    var tail := [unit] + r;
    var a := Decimal(n) + (m + tail);
    assert text == l + a;
    assert IsDigit(a[0]) by { assert a[0] == Decimal(n)[0]; }
    DropSpacesSkips(l, a);
    assert m + tail != "" && !IsDigit((m + tail)[0]) by {
      assert m == "" ==> (m + tail)[0] == unit;
      assert m != "" ==> (m + tail)[0] == m[0];
    }
    DigitPrefixStops(Decimal(n), m + tail);
    var k := |Decimal(n)|;
    assert a[..k] == Decimal(n) && a[k..] == m + tail;
    DropSpacesSkips(m, tail);
    assert tail[1..] == r;
    DropSpacesSkips(r, "");
    assert r + "" == r;
    DecimalRoundTrip(n);
  }

  lemma {:induction false} DroppedWereBlank(s: string) returns (blank: string)
    ensures Blank(blank) && s == blank + DropSpaces(s)
  {
    if s != "" && IsSpace(s[0]) {
      var rest := DroppedWereBlank(s[1..]);
      blank := [s[0]] + rest;
      assert s == [s[0]] + (rest + DropSpaces(s));
    } else {
      blank := "";
      assert s == "" + s;
    }
  }

  lemma Reassemble(text: string, l: string, a: string, digits: string, rest: string, m: string, b: string,
                   unit: char, r: string)
    requires text == l + a && a == digits + rest && rest == m + b && b == [unit] + r
    ensures text == l + digits + m + [unit] + r
  {
    assert l + (digits + (m + ([unit] + r))) == l + digits + m + [unit] + r;
  }

  lemma DurationParts(text: string, a: string, k: nat, b: string)
    requires ParseDuration(text).Success?
    requires a == DropSpaces(text) && k == DigitPrefix(a) && b == DropSpaces(a[k..])
    ensures k > 0 && b != "" && UnitSeconds(b[0]) > 0 && DropSpaces(b[1..]) == ""
    ensures ParseDuration(text) == Success(ParseNat(a[..k]) * UnitSeconds(b[0]))
  {
  }

  /** Nothing else reads: what does is a number and a unit, with any blanks around and between. */
  lemma DurationHasForm(text: string) returns (l: string, digits: string, m: string, unit: char, r: string)
    requires ParseDuration(text).Success?
    ensures text == l + digits + m + [unit] + r && Blank(l) && Blank(m) && Blank(r)
    ensures digits != "" && AllDigits(digits) && UnitSeconds(unit) > 0
    ensures ParseDuration(text) == Success(ParseNat(digits) * UnitSeconds(unit))
  {
    var a := DropSpaces(text);
    var k := DigitPrefix(a);
    var rest := a[k..];
    var b := DropSpaces(rest);
    DurationParts(text, a, k, b);
    var tail := b[1..];
    l := DroppedWereBlank(text);
    m := DroppedWereBlank(rest);
    r := DroppedWereBlank(tail);
    assert tail == r + "" == r;
    digits, unit := a[..k], b[0];
    Reassemble(text, l, a, digits, rest, m, b, unit, r);
  }

  // ---- Ledger entries ----

  datatype Verdict = Pass | Fail | Error | WaivedVerdict | OtherVerdict(text: string)
  datatype Waiver = Waiver(reason: string, until: int)
  datatype Entry = Entry(
    result: Verdict, at: int, tier: string, fingerprint: Option<Digest>, waiver: Option<Waiver>,
    detail: Option<string>, files: Option<map<string, Digest>>, duration: Option<real>)

  type Ledger = map<string, Entry>

  predicate WaiverActive(entry: Option<Entry>, now: int) {
    entry.Some? && entry.value.waiver.Some? && now < entry.value.waiver.value.until
  }

  // ---- State ----

  datatype State = Proven | NeverProven | Failed | Errored | CodeStale | TimeExpired | Waived

  predicate Blocks(s: State) {
    s in {NeverProven, Failed, Errored, CodeStale}
  }

  predicate HasPassed(entry: Option<Entry>) {
    entry.Some? && entry.value.result.Pass?
  }

  predicate MatchesCode(cap: Capability, entry: Option<Entry>, tree: Tree) {
    HasPassed(entry) && entry.value.fingerprint == Some(FingerprintOf(cap, tree))
  }

  /** A capability blocks exactly when nothing on record excuses it: no active waiver, and no
      pass that either still matches the code or only ran out of time. It is proven exactly by an
      unwaived pass that matches the code, or is younger than its window. An unparseable freshness
      raises, but only when an unwaived pass makes it look. */
  function CapabilityState(cap: Capability, entry: Option<Entry>, tree: Tree, now: int)
    : (r: Result<State, FreshnessError>)
    ensures r.Failure? <==> !WaiverActive(entry, now) && HasPassed(entry) && !FreshnessReads(cap)
    ensures r.Success? ==>
      && (r.value == Waived <==> WaiverActive(entry, now))
      && (Blocks(r.value) <==>
          (!WaiverActive(entry, now) &&
           !(HasPassed(entry) && (cap.freshness == "code" ==> MatchesCode(cap, entry, tree)))))
      && (r.value == Proven <==>
          (!WaiverActive(entry, now) && HasPassed(entry) &&
           if cap.freshness == "code" then MatchesCode(cap, entry, tree)
           else now < entry.value.at + ParseDuration(cap.freshness).value))
      && (r.value == CodeStale <==>
          (!WaiverActive(entry, now) && HasPassed(entry) && cap.freshness == "code" && !MatchesCode(cap, entry, tree)))
      && (r.value == TimeExpired <==>
          (!WaiverActive(entry, now) && HasPassed(entry) && cap.freshness != "code" &&
           now >= entry.value.at + ParseDuration(cap.freshness).value))
      && (r.value == Failed <==> !WaiverActive(entry, now) && entry.Some? && entry.value.result.Fail?)
      && (r.value == Errored <==> !WaiverActive(entry, now) && entry.Some? && entry.value.result.Error?)
  {
    if WaiverActive(entry, now) then Success(Waived)
    else if entry.None? then Success(NeverProven)
    else match entry.value.result
      case Fail => Success(Failed)
      case Error => Success(Errored)
      case Pass =>
        if cap.freshness == "code" then
          Success(if entry.value.fingerprint == Some(FingerprintOf(cap, tree)) then Proven else CodeStale)
        else
          var window :- ParseDuration(cap.freshness);
          Success(if now - entry.value.at < window then Proven else TimeExpired)
      case _ => Success(NeverProven)
  }

  function StateOf(cap: Capability, ledger: Ledger, tree: Tree, now: int): Result<State, FreshnessError> {
    CapabilityState(cap, Get(ledger, cap.id), tree, now)
  }

  /** The clock alone never makes an unwaived capability start blocking. */
  lemma TimeAloneNeverBlocks(cap: Capability, entry: Option<Entry>, tree: Tree, now: int, later: int)
    requires now <= later
    requires !WaiverActive(entry, now)
    ensures CapabilityState(cap, entry, tree, now).Success? <==> CapabilityState(cap, entry, tree, later).Success?
    ensures CapabilityState(cap, entry, tree, now).Success? ==>
      (Blocks(CapabilityState(cap, entry, tree, now).value) <==>
       Blocks(CapabilityState(cap, entry, tree, later).value))
  {
  }

  /** A capability in state code-stale, whose entry was recorded against one snapshot of the
      files and kept a non-empty file map, can always be told what drifted. */
  lemma CodeStaleIsExplained(cap: Capability, entry: Entry, recordedOn: Tree, tree: Tree, now: int)
    requires entry.fingerprint == Some(FingerprintOf(cap, recordedOn))
    requires entry.files == Some(FileFingerprints(cap, recordedOn)) && entry.files.value != map[]
    requires CapabilityState(cap, Some(entry), tree, now) == Success(CodeStale)
    ensures var ch := ChangedDeps(cap, entry.files, tree);
      ch != [] && Ascending(ch) && forall p :: p in ch <==> Drifted(p, cap, recordedOn, tree)
  {
    StaleIsExplained(cap, recordedOn, tree);
  }
}

/** caps/manifest.py: reading the capability list, rejecting it at the first bad entry. */
module Manifest {
  import opened Wrappers

  datatype CheckKind = Pytest | ShellCommand

  datatype Capability = Capability(
    id: string, tier: string, deps: seq<string>, freshness: string,
    kind: CheckKind, target: string, warned: bool)

  // What the YAML parser hands over, one case per shape the loader distinguishes.
  datatype RawCheck = Node(target: string) | Shell(command: string) | OtherCheck
  datatype RawDeps = Undeclared | Globs(patterns: seq<string>) | OtherDeps
  datatype RawEntry =
    | NotAMapping
    | Mapping(missing: seq<string>, id: string, tier: string,
              check: RawCheck, deps: RawDeps, freshness: Option<string>)
  datatype Document = NoCapabilitiesKey | NullCapabilities | CapabilitiesNotAList | Listed(entries: seq<RawEntry>)

  datatype ManifestError =
    | NoList
    | EntryNotMapping
    | MissingFields(fields: seq<string>)
    | DuplicateId(id: string)
    | BadTier(id: string, tier: string)
    | BadCheck(id: string)
    | BadDeps(id: string)

  const DEFAULT_FRESHNESS := map["cheap" := "code", "live" := "24h", "handoff" := "code"]

  /** Whether an entry would be accepted if it stood alone. */
  predicate WellFormed(raw: RawEntry)
    ensures WellFormed(raw) <==>
      && raw.Mapping? && raw.missing == [] && raw.tier in {"cheap", "live", "handoff"}
      && (raw.check.Node? || raw.check.Shell?) && (raw.deps.Undeclared? || raw.deps.Globs?)
  {
    raw.Mapping? && raw.missing == [] && raw.tier in DEFAULT_FRESHNESS &&
    !raw.check.OtherCheck? && !raw.deps.OtherDeps?
  }

  ghost predicate UniqueIds(caps: seq<Capability>) {
    forall i, j :: 0 <= i < j < |caps| ==> caps[i].id != caps[j].id
  }

  /** The capability shows the entry's own fields: no declared deps means none, with a warning; a
      missing freshness is a day for a live capability and the code for the others. */
  ghost predicate Shows(cap: Capability, raw: RawEntry) {
    && raw.Mapping? && cap.id == raw.id && cap.tier == raw.tier && raw.tier in {"cheap", "live", "handoff"}
    && (raw.deps.Globs? ==> cap.deps == raw.deps.patterns && !cap.warned)
    && (raw.deps.Undeclared? ==> cap.deps == [] && cap.warned)
    && (match raw.freshness
        case Some(given) => cap.freshness == given
        case None => cap.freshness == if raw.tier == "live" then "24h" else "code")
    && (match raw.check
        case Node(target) => cap.kind == Pytest && cap.target == target
        case Shell(command) => cap.kind == ShellCommand && cap.target == command
        case OtherCheck => false)
  }

  /** The capability a well-formed entry denotes. */
  function Build(raw: RawEntry): (cap: Capability)
    requires WellFormed(raw)
    ensures Shows(cap, raw)
  {
    Capability(
      raw.id, raw.tier,
      if raw.deps.Globs? then raw.deps.patterns else [],
      if raw.freshness.Some? then raw.freshness.value else DEFAULT_FRESHNESS[raw.tier],
      if raw.check.Node? then Pytest else ShellCommand,
      if raw.check.Node? then raw.check.target else raw.check.command,
      raw.deps.Undeclared?)
  }

  predicate Identified(raw: RawEntry, seen: set<string>, id: string)
    requires raw.Mapping?
  {
    raw.missing == [] && raw.id == id && id !in seen
  }

  /** The entry has this fault, and passes every check the loader makes before it. */
  predicate HasFaultFirst(raw: RawEntry, seen: set<string>, e: ManifestError) {
    if raw.NotAMapping? then e == EntryNotMapping else
    match e
    case MissingFields(fields) => fields == raw.missing && fields != []
    case DuplicateId(id) => raw.missing == [] && id == raw.id && id in seen
    case BadTier(id, tier) => Identified(raw, seen, id) && tier == raw.tier && tier !in {"cheap", "live", "handoff"}
    case BadCheck(id) => Identified(raw, seen, id) && raw.tier in {"cheap", "live", "handoff"} && raw.check.OtherCheck?
    case BadDeps(id) =>
      && Identified(raw, seen, id) && raw.tier in {"cheap", "live", "handoff"}
      && !raw.check.OtherCheck? && raw.deps.OtherDeps?
    case _ => false
  }

  /** The checks on one entry, in the order they are made. */
  function Fault(raw: RawEntry, seen: set<string>): (e: Option<ManifestError>)
    ensures e.None? <==> WellFormed(raw) && raw.id !in seen
    ensures forall f :: e == Some(f) <==> HasFaultFirst(raw, seen, f)
  {
    if raw.NotAMapping? then Some(EntryNotMapping)
    else if raw.missing != [] then Some(MissingFields(raw.missing))
    else if raw.id in seen then Some(DuplicateId(raw.id))
    else if raw.tier !in DEFAULT_FRESHNESS then Some(BadTier(raw.id, raw.tier))
    else if raw.check.OtherCheck? then Some(BadCheck(raw.id))
    else if raw.deps.OtherDeps? then Some(BadDeps(raw.id))
    else None
  }

  function IdsOf(entries: seq<RawEntry>): set<string> {
    set e | e in entries && e.Mapping? :: e.id
  }

  /** A list of well-formed entries with distinct ids. */
  ghost predicate Acceptable(entries: seq<RawEntry>) {
    && (forall i :: 0 <= i < |entries| ==> WellFormed(entries[i]))
    && (forall i, j :: 0 <= i < j < |entries| ==> entries[i].id != entries[j].id)
  }

  ghost function BuildAll(entries: seq<RawEntry>): seq<Capability>
    requires Acceptable(entries)
  {
    seq(|entries|, i requires 0 <= i < |entries| => Build(entries[i]))
  }

  /** Entry `i` is the first at fault, and `e` is its fault. */
  ghost predicate FirstFault(entries: seq<RawEntry>, i: nat, e: ManifestError) {
    i < |entries| && Acceptable(entries[..i]) && Fault(entries[i], IdsOf(entries[..i])) == Some(e)
  }

  lemma AcceptableSnoc(entries: seq<RawEntry>, i: nat)
    requires i < |entries| && Acceptable(entries[..i])
    ensures Acceptable(entries[..i + 1]) <==> WellFormed(entries[i]) && entries[i].id !in IdsOf(entries[..i])
  {
    var init, raw := entries[..i], entries[i];
    assert entries[..i + 1] == init + [raw];
    if WellFormed(raw) {
      assert raw.id in IdsOf(init) <==> exists k :: 0 <= k < |init| && init[k].id == raw.id by {
        assert forall k :: 0 <= k < |init| ==> init[k] in init;
      }
    }
  }

  lemma AcceptablePrefix(entries: seq<RawEntry>, i: nat)
    requires i <= |entries|
    ensures Acceptable(entries) ==> Acceptable(entries[..i])
  {
  }

  /** The loader succeeds exactly on acceptable lists, keeps their order, and otherwise reports the
      fault of the first entry that has one. A key with no items is the empty list. */
  method LoadManifest(doc: Document) returns (r: Result<seq<Capability>, ManifestError>)
    ensures doc.Listed? ==> (r.Success? <==> Acceptable(doc.entries))
    ensures doc.Listed? && r.Success? ==> Acceptable(doc.entries) && r.value == BuildAll(doc.entries)
    ensures doc.Listed? && r.Success? ==>
      |r.value| == |doc.entries| && forall i :: 0 <= i < |r.value| ==> Shows(r.value[i], doc.entries[i])
    ensures doc.Listed? && r.Failure? ==> exists i: nat :: FirstFault(doc.entries, i, r.error)
    ensures r.Success? ==> UniqueIds(r.value)
    ensures doc.NullCapabilities? ==> r == Success([])
    ensures doc.NoCapabilitiesKey? || doc.CapabilitiesNotAList? ==> r == Failure(NoList)
  {
    if doc.NoCapabilitiesKey? || doc.CapabilitiesNotAList? {
      return Failure(NoList);
    }
    var entries := if doc.Listed? then doc.entries else [];
    var caps: seq<Capability> := [];
    var seen: set<string> := {};
    for i := 0 to |entries|
      invariant Acceptable(entries[..i]) && caps == BuildAll(entries[..i])
      invariant seen == IdsOf(entries[..i])
    {
      AcceptableSnoc(entries, i);
      assert entries[..i + 1] == entries[..i] + [entries[i]];
      var fault := Fault(entries[i], seen);
      if fault.Some? {
        assert FirstFault(entries, i, fault.value);
        AcceptablePrefix(entries, i + 1);
        return Failure(fault.value);
      }
      seen := seen + {entries[i].id};
      caps := caps + [Build(entries[i])];
    }
    assert entries[..|entries|] == entries;
    return Success(caps);
  }
}

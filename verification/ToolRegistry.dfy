/** python/src/apx_agent/_agents.py, LlmAgent: the live tool list and the delegates materialized
    for remote sub-agents, as values. LlmAgent.dfy holds the object whose methods carry these out. */
module ToolRegistry {
  import opened Wrappers
  import opened Comprehension
  import Text

  // ---- Names ----

  function RStripSlash(s: string): string {
    if s != "" && s[|s| - 1] == '/' then RStripSlash(s[..|s| - 1]) else s
  }

  /** `s.split("/")[-1]`. */
  function LastSegment(s: string): string {
    if s == "" || s[|s| - 1] == '/' then "" else LastSegment(s[..|s| - 1]) + [s[|s| - 1]]
  }

  /** `s.split(".")[0]`. */
  function BeforeDot(s: string): string {
    if s == "" || s[0] == '.' then "" else [s[0]] + BeforeDot(s[1..])
  }

  /** `"-".join(s.split("-")[0:-1])`, or `None` when `s` has no dash. */
  function BeforeLastDash(s: string): Option<string> {
    if s == "" then None
    else if s[|s| - 1] == '-' then Some(s[..|s| - 1])
    else BeforeLastDash(s[..|s| - 1])
  }

  function Identifier(raw: string): string {
    seq(|raw|, i requires 0 <= i < |raw| => if raw[i] == '-' || raw[i] == ' ' then '_' else raw[i])
  }

  /** The name a peer gets when its card cannot be fetched. */
  function NameFromUrl(url: string): string {
    var parts := BeforeLastDash(BeforeDot(LastSegment(RStripSlash(url))));
    Identifier(if parts.Some? then parts.value else LastSegment(url))
  }

  predicate Free(s: string, c: char) {
    forall i :: 0 <= i < |s| ==> s[i] != c
  }

  lemma {:induction false} LastSegmentAfter(head: string, tail: string)
    requires Free(tail, '/') && (head == "" || head[|head| - 1] == '/')
    ensures LastSegment(head + tail) == tail
  {
    if tail == "" {
      assert head + tail == head;
    } else {
      assert (head + tail)[..|head + tail| - 1] == head + tail[..|tail| - 1];
      LastSegmentAfter(head, tail[..|tail| - 1]);
    }
  }

  lemma {:induction false} BeforeDotStops(head: string, rest: string)
    requires Free(head, '.') && (rest == "" || rest[0] == '.')
    ensures BeforeDot(head + rest) == head
  {
    if head == "" {
      assert head + rest == rest;
    } else {
      assert (head + rest)[1..] == head[1..] + rest;
      BeforeDotStops(head[1..], rest);
    }
  }

  lemma {:induction false} BeforeLastDashStops(head: string, tail: string)
    requires Free(tail, '-')
    ensures BeforeLastDash(head + "-" + tail) == Some(head)
  {
    var s := head + "-" + tail;
    if tail == "" {
      assert s[..|s| - 1] == head;
    } else {
      assert s[..|s| - 1] == head + "-" + tail[..|tail| - 1];
      BeforeLastDashStops(head, tail[..|tail| - 1]);
    }
  }

  lemma {:induction false} TrailingSlashesGo(s: string, slashes: string)
    requires s == "" || s[|s| - 1] != '/'
    requires forall i :: 0 <= i < |slashes| ==> slashes[i] == '/'
    ensures RStripSlash(s + slashes) == s
  {
    if slashes == "" {
      assert s + slashes == s;
    } else {
      assert (s + slashes)[..|s + slashes| - 1] == s + slashes[..|slashes| - 1];
      TrailingSlashesGo(s, slashes[..|slashes| - 1]);
    }
  }

  /** The usual address `https://APP-SUFFIX.DOMAIN`, with any slashes after it, names APP. */
  lemma AppAddressNamesTheApp(scheme: string, app: string, suffix: string, domain: string, slashes: string)
    requires scheme != "" && scheme[|scheme| - 1] == '/'
    requires Free(app, '/') && Free(app, '.') && Free(suffix, '/') && Free(suffix, '.') && Free(suffix, '-')
    requires Free(domain, '/') && domain != "" && forall i :: 0 <= i < |slashes| ==> slashes[i] == '/'
    ensures NameFromUrl(scheme + (app + "-" + suffix + ("." + domain)) + slashes) == Identifier(app)
  {
    var first := app + "-" + suffix;
    var host := first + ("." + domain);
    TrailingSlashesGo(scheme + host, slashes);
    LastSegmentAfter(scheme, host);
    BeforeDotStops(first, "." + domain);
    BeforeLastDashStops(app, suffix);
  }

  /** A name made of `raw`, with dashes and blanks as underscores. */
  ghost predicate Respells(name: string, raw: string) {
    && |name| == |raw|
    && forall i :: 0 <= i < |raw| ==> if raw[i] in "- " then name[i] == '_' else name[i] == raw[i]
  }

  lemma {:induction false} NoDash(s: string)
    requires Free(s, '-')
    ensures BeforeLastDash(s) == None
  {
    if s != "" {
      NoDash(s[..|s| - 1]);
    }
  }

  /** An address whose first label has no dash, bare or with slashes after it, which then leave no
      name at all. */
  lemma PlainAddressNames(scheme: string, app: string, domain: string, slashes: string)
    requires scheme != "" && scheme[|scheme| - 1] == '/'
    requires Free(app, '/') && Free(app, '.') && Free(app, '-')
    requires Free(domain, '/') && domain != "" && forall i :: 0 <= i < |slashes| ==> slashes[i] == '/'
    ensures NameFromUrl(scheme + (app + ("." + domain)) + slashes) ==
      if slashes == "" then Identifier(app + ("." + domain)) else ""
  {
    var host := app + ("." + domain);
    TrailingSlashesGo(scheme + host, slashes);
    LastSegmentAfter(scheme, host);
    BeforeDotStops(app, "." + domain);
    NoDash(app);
    if slashes == "" {
      assert scheme + host + slashes == scheme + host;
    }
  }

  // ---- The registry ----

  datatype Schema = MessageSchema | Structured(properties: string)
  datatype Card = Card(name: Option<string>, description: string, schema: Option<Schema>)

  /** A callable tool; `target` is the base URL a delegate sends to. */
  datatype Tool = Tool(name: string, target: Option<string>, schema: Schema)

  datatype Registry = Registry(
    tools: seq<Tool>, version: nat, materialized: set<string>,
    degraded: map<string, string>)  // base URL to the name it was registered under

  datatype Advert = Advert(name: string, url: string, schema: Schema)

  function NotNamed(name: string): Tool -> bool {
    (t: Tool) => t.name != name
  }

  function Without(tools: seq<Tool>, name: string): seq<Tool> {
    Filter(tools, NotNamed(name))
  }

  predicate HasName(tools: seq<Tool>, name: string) {
    exists t :: t in tools && t.name == name
  }

  ghost predicate UniqueNames(tools: seq<Tool>) {
    forall i, j :: 0 <= i < j < |tools| ==> tools[i].name != tools[j].name
  }

  function Append(r: Registry, t: Tool): Registry {
    r.(tools := r.tools + [t], version := r.version + 1)
  }

  function Register(r: Registry, t: Tool): Registry {
    Append(r.(tools := Without(r.tools, t.name)), t)
  }

  function Unregister(r: Registry, name: string): Registry {
    var left := Without(r.tools, name);
    r.(tools := left, version := if |left| < |r.tools| then r.version + 1 else r.version)
  }

  function Upgrade(r: Registry, url: string, description: string): Registry {
    if description == "" then r else r.(degraded := r.degraded - {url})
  }

  /** The flag says whether the caller may advertise the sub-agent under `name`. */
  function Ensure(r: Registry, name: string, url: string, schema: Schema): (Registry, bool) {
    if url in r.materialized then (r, true)
    else if HasName(r.tools, name) then (r, false)
    else (Append(r, Tool(name, Some(url), schema)).(materialized := r.materialized + {url}), true)
  }

  function RoutingDescription(raw: string, fallback: string): string {
    if Text.Strip(raw) != "" then Text.Strip(raw) else fallback
  }

  /** The text a peer is advertised under, and its new delegate's. */
  function PeerDescription(url: string, card: Option<Card>): string {
    if card.Some? then RoutingDescription(card.value.description, "Agent at " + url)
    else "Remote agent at " + url + " (card fetch failed \U{2014} tool is still callable)"
  }

  function CardName(card: Card, url: string): string {
    Identifier(if card.name.Some? then card.name.value else LastSegment(url))
  }

  /** The name and schema one fetch settles on for a peer. */
  function Settle(r: Registry, url: string, card: Option<Card>): (string, Schema) {
    var base := RStripSlash(url);
    if card.None? then (NameFromUrl(url), MessageSchema)
    else if base in r.degraded then (r.degraded[base], MessageSchema)
    else (CardName(card.value, url), if card.value.schema.Some? then card.value.schema.value else MessageSchema)
  }

  /** What a peer is called, takes and says of itself: from its card, under the name it was
      registered by if it was degraded; without a card, from its address. */
  ghost predicate SettlesOn(r: Registry, url: string, card: Option<Card>, name: string, schema: Schema, text: string) {
    match card
    case None =>
      && name == NameFromUrl(url) && schema == MessageSchema
      && text == "Remote agent at " + url + " (card fetch failed \U{2014} tool is still callable)"
    case Some(Card(cardName, cardText, cardSchema)) =>
      && text == (if Text.Strip(cardText) == "" then "Agent at " + url else Text.Strip(cardText))
      && if RStripSlash(url) in r.degraded then name == r.degraded[RStripSlash(url)] && schema == MessageSchema
         else
           && Respells(name, match cardName case None => LastSegment(url) case Some(given) => given)
           && schema == match cardSchema case None => MessageSchema case Some(given) => given
  }

  lemma SettleAsStated(r: Registry, url: string, card: Option<Card>)
    ensures SettlesOn(r, url, card, Settle(r, url, card).0, Settle(r, url, card).1, PeerDescription(url, card))
  {
  }

  /** A degraded peer is repaired as soon as its card turns up. */
  function Repaired(r: Registry, url: string, card: Option<Card>): Registry {
    if card.Some? && RStripSlash(url) in r.degraded then Upgrade(r, RStripSlash(url), PeerDescription(url, card)) else r
  }

  /** One peer's turn in `fetch_remote_tools`. */
  function FetchOne(r: Registry, url: string, card: Option<Card>): (Registry, Option<Advert>) {
    var base := RStripSlash(url);
    var (name, schema) := Settle(r, url, card);
    var (after, callable) := Ensure(Repaired(r, url, card), name, base, schema);
    if !callable then (after, None)
    else
      (if card.None? && base !in after.degraded then after.(degraded := after.degraded[base := name]) else after,
       Some(Advert(name, base, schema)))
  }

  function FetchAll(r: Registry, urls: seq<string>, cards: nat -> Option<Card>): (Registry, seq<Advert>) {
    if urls == [] then (r, []) else
    var n := |urls| - 1;
    var (before, adverts) := FetchAll(r, urls[..n], cards);
    var (after, advert) := FetchOne(before, urls[n], cards(n));
    (after, adverts + if advert.Some? then [advert.value] else [])
  }

  lemma FetchAllStep(r: Registry, urls: seq<string>, i: nat, cards: nat -> Option<Card>,
                     before: Registry, adverts: seq<Advert>, after: Registry, advert: Option<Advert>)
    requires i < |urls| && FetchAll(r, urls[..i], cards) == (before, adverts)
    requires FetchOne(before, urls[i], cards(i)) == (after, advert)
    ensures FetchAll(r, urls[..i + 1], cards) == (after, adverts + if advert.Some? then [advert.value] else [])
  {
    assert urls[..i + 1][..i] == urls[..i];
  }

  // ---- The tool list over any run ----

  lemma WithoutUnique(tools: seq<Tool>, name: string)
    requires UniqueNames(tools)
    ensures UniqueNames(Without(tools, name))
  {
    var kept := Without(tools, name);
    forall i, j | 0 <= i < j < |kept|
      ensures kept[i].name != kept[j].name
    {
      FilterKeepsOrder(tools, NotNamed(name), i, j);
    }
  }

  datatype Op =
    | RegisterOp(tool: Tool)
    | UnregisterOp(name: string)
    | FetchOp(urls: seq<string>, cards: nat -> Option<Card>)
    | UpgradeOp(url: string, description: string)

  function Do(r: Registry, op: Op): Registry {
    match op
    case RegisterOp(tool) => Register(r, tool)
    case UnregisterOp(name) => Unregister(r, name)
    case FetchOp(urls, cards) => FetchAll(r, urls, cards).0
    case UpgradeOp(url, description) => Upgrade(r, url, description)
  }

  function DoAll(r: Registry, ops: seq<Op>): Registry {
    if ops == [] then r else Do(DoAll(r, ops[..|ops| - 1]), ops[|ops| - 1])
  }

  /** Names stay unique, the version never falls, and it moves whenever the list does. */
  ghost predicate Evolves(before: Registry, after: Registry) {
    && (UniqueNames(before.tools) ==> UniqueNames(after.tools))
    && before.version <= after.version
    && (before.tools != after.tools ==> before.version < after.version)
    && before.materialized <= after.materialized
  }

  lemma FetchOneEvolves(r: Registry, url: string, card: Option<Card>)
    ensures Evolves(r, FetchOne(r, url, card).0)
  {
  }

  lemma EvolvesOn(a: Registry, b: Registry, c: Registry)
    requires Evolves(a, b) && Evolves(b, c)
    ensures Evolves(a, c)
  {
  }

  lemma {:induction false} FetchEvolves(r: Registry, urls: seq<string>, cards: nat -> Option<Card>)
    ensures Evolves(r, FetchAll(r, urls, cards).0)
  {
    if urls != [] {
      var n := |urls| - 1;
      var before := FetchAll(r, urls[..n], cards).0;
      FetchEvolves(r, urls[..n], cards);
      FetchOneEvolves(before, urls[n], cards(n));
      EvolvesOn(r, before, FetchOne(before, urls[n], cards(n)).0);
    }
  }

  lemma StepEvolves(r: Registry, op: Op)
    ensures Evolves(r, Do(r, op))
  {
    match op
    case RegisterOp(tool) =>
      if UniqueNames(r.tools) {
        WithoutUnique(r.tools, tool.name);
        var kept := Without(r.tools, tool.name);
        assert forall i :: 0 <= i < |kept| ==> kept[i] in kept;
      }
    case UnregisterOp(name) =>
      FilterLength(r.tools, NotNamed(name));
      if |Without(r.tools, name)| == |r.tools| {
        FilterKeepsAll(r.tools, NotNamed(name));
      }
      if UniqueNames(r.tools) {
        WithoutUnique(r.tools, name);
      }
    case FetchOp(urls, cards) => FetchEvolves(r, urls, cards);
    case UpgradeOp(_, _) =>
  }

  /** Over any run of registrations, replacements, removals, repairs and fetches. */
  lemma {:induction false} RunEvolves(r: Registry, ops: seq<Op>)
    ensures Evolves(r, DoAll(r, ops))
  {
    if ops != [] {
      RunEvolves(r, ops[..|ops| - 1]);
      StepEvolves(DoAll(r, ops[..|ops| - 1]), ops[|ops| - 1]);
    }
  }

  /** A registered tool is last and the only one of its name; the others keep their places. */
  lemma RegisterReplaces(r: Registry, t: Tool)
    ensures var after := Register(r, t).tools;
      && after[|after| - 1] == t && after[..|after| - 1] == Without(r.tools, t.name)
      && (forall u :: u in after && u.name == t.name ==> u == t)
      && (forall u :: u in after <==> u == t || (u in r.tools && u.name != t.name))
      && Register(r, t).version == r.version + 1
  {
  }

  // ---- Advertised implies callable ----

  /** A tool of that name delegates to that URL. */
  ghost predicate Answers(tools: seq<Tool>, name: string, url: string) {
    exists t :: t in tools && t.name == name && t.target == Some(url)
  }

  /** The compiled graph can act on the advertisement. */
  ghost predicate Callable(r: Registry, a: Advert) {
    Answers(r.tools, a.name, a.url)
  }

  ghost predicate CallableAsAdvertised(r: Registry, a: Advert) {
    Tool(a.name, Some(a.url), a.schema) in r.tools
  }

  lemma AppendedAnswers(tools: seq<Tool>, t: Tool)
    requires t.target.Some?
    ensures t in tools + [t] && Answers(tools + [t], t.name, t.target.value)
  {
    assert (tools + [t])[|tools|] == t;
  }

  /** In any state: a peer is advertised unless it is new and its name is taken; the advertisement
      is callable exactly when the peer is new or some tool of the advertised name delegates to it,
      and callable as advertised exactly when that tool also has the advertised schema. */
  lemma AdvertisedCallableExactly(r: Registry, url: string, card: Option<Card>)
    ensures var (after, advert) := FetchOne(r, url, card);
      var base := RStripSlash(url);
      var (name, schema) := Settle(r, url, card);
      && advert == (if base !in r.materialized && HasName(r.tools, name) then None
                    else Some(Advert(name, base, schema)))
      && (advert.Some? ==> base in after.materialized)
      && (advert.Some? ==> (Callable(after, advert.value) <==>
          base !in r.materialized || Answers(r.tools, name, base)))
      && (advert.Some? ==> (CallableAsAdvertised(after, advert.value) <==>
          base !in r.materialized || Tool(name, Some(base), schema) in r.tools))
  {
    var (name, schema) := Settle(r, url, card);
    AppendedAnswers(r.tools, Tool(name, Some(RStripSlash(url)), schema));
  }

  /** Every materialized URL still has its one delegate, and nothing else delegates. */
  ghost predicate DelegatesInPlace(r: Registry) {
    && UniqueNames(r.tools)
    && (forall u :: u in r.materialized ==> exists t :: t in r.tools && t.target == Some(u))
    && (forall s, t :: s in r.tools && t in r.tools && s.target.Some? && s.target == t.target ==> s == t)
    && (forall t :: t in r.tools && t.target.Some? ==> t.target.value in r.materialized)
    && r.degraded.Keys <= r.materialized
  }

  function DelegateOf(r: Registry, url: string): (t: Tool)
    requires DelegatesInPlace(r) && url in r.materialized
    ensures t in r.tools && t.target == Some(url)
  {
    var t :| t in r.tools && t.target == Some(url);
    t
  }

  /** A degraded entry remembers the name its delegate is registered under, message wrapper and all. */
  ghost predicate DegradedRemembersName(r: Registry)
    requires DelegatesInPlace(r)
  {
    forall u :: u in r.degraded ==>
      DelegateOf(r, u).name == r.degraded[u] && DelegateOf(r, u).schema == MessageSchema
  }

  ghost predicate DelegatesStay(r: Registry, after: Registry)
    requires DelegatesInPlace(r) && DelegatesInPlace(after)
  {
    forall u :: u in r.materialized ==> u in after.materialized && DelegateOf(after, u) == DelegateOf(r, u)
  }

  lemma DelegateUnique(r: Registry, t: Tool)
    requires DelegatesInPlace(r) && t in r.tools && t.target.Some?
    ensures DelegateOf(r, t.target.value) == t
  {
  }

  lemma AppendStaysInPlace(r: Registry, tool: Tool)
    requires DelegatesInPlace(r) && !HasName(r.tools, tool.name)
    requires tool.target.Some? && tool.target.value !in r.materialized
    ensures DelegatesInPlace(Append(r, tool).(materialized := r.materialized + {tool.target.value}))
  {
    var after := Append(r, tool).(materialized := r.materialized + {tool.target.value});
    assert forall t :: t in after.tools <==> t in r.tools || t == tool;
    forall u | u in after.materialized
      ensures exists t :: t in after.tools && t.target == Some(u)
    {
      if u in r.materialized {
        assert DelegateOf(r, u) in after.tools;
      } else {
        assert tool in after.tools;
      }
    }
    forall i | 0 <= i < |r.tools|
      ensures r.tools[i].name != tool.name
    {
      assert r.tools[i] in r.tools;
    }
  }

  lemma AppendKeepsDelegates(r: Registry, name: string, url: string, schema: Schema)
    requires DelegatesInPlace(r) && url !in r.materialized && !HasName(r.tools, name)
    ensures DelegatesInPlace(Ensure(r, name, url, schema).0)
    ensures forall u :: u in r.materialized ==> DelegateOf(Ensure(r, name, url, schema).0, u) == DelegateOf(r, u)
    ensures DelegateOf(Ensure(r, name, url, schema).0, url) == Tool(name, Some(url), schema)
  {
    var tool := Tool(name, Some(url), schema);
    AppendStaysInPlace(r, tool);
    var after := Ensure(r, name, url, schema).0;
    forall u | u in r.materialized
      ensures DelegateOf(after, u) == DelegateOf(r, u)
    {
      DelegateUnique(after, DelegateOf(r, u));
    }
    DelegateUnique(after, tool);
  }

  /** While every delegate is in place, a peer's turn leaves them so, and what it advertises is
      callable exactly under the name its delegate already has. */
  lemma FetchKeepsDelegates(r: Registry, url: string, card: Option<Card>)
    requires DelegatesInPlace(r)
    ensures var (after, advert) := FetchOne(r, url, card);
      var base := RStripSlash(url);
      && DelegatesInPlace(after) && DelegatesStay(r, after)
      && (advert.Some? ==> base in after.materialized)
      && (advert.Some? ==> (Callable(after, advert.value) <==>
          base in r.materialized ==> Settle(r, url, card).0 == DelegateOf(r, base).name))
      && (advert.Some? && base !in r.materialized ==> CallableAsAdvertised(after, advert.value))
  {
    var base := RStripSlash(url);
    var (name, schema) := Settle(r, url, card);
    AdvertisedCallableExactly(r, url, card);
    if base !in r.materialized {
      if !HasName(r.tools, name) {
        AppendKeepsDelegates(r, name, base, schema);
      }
    } else {
      var after := FetchOne(r, url, card).0;
      assert after.tools == r.tools;
      assert DelegateOf(r, base) in after.tools;
      assert DelegatesInPlace(after);
    }
  }

  lemma DescriptionNeverEmpty(url: string, card: Option<Card>)
    ensures PeerDescription(url, card) != ""
  {
    assert |"Agent at " + url| >= 9;
    assert |"Remote agent at " + url| >= 16;
  }

  /** A fetch forgets nothing about degraded peers unless one that was registered under its card's
      name loses its card and would be called something else. */
  predicate NameDrifts(r: Registry, url: string, card: Option<Card>)
    requires DelegatesInPlace(r)
  {
    var base := RStripSlash(url);
    card.None? && base in r.materialized && base !in r.degraded &&
    (NameFromUrl(url) != DelegateOf(r, base).name || DelegateOf(r, base).schema != MessageSchema)
  }

  lemma DegradedAfterFetch(r: Registry, url: string, card: Option<Card>)
    ensures var (after, advert) := FetchOne(r, url, card);
      var base := RStripSlash(url);
      after.degraded ==
        if card.Some? then (if base in r.degraded then r.degraded - {base} else r.degraded)
        else if advert.Some? && base !in r.degraded then r.degraded[base := NameFromUrl(url)]
        else r.degraded
  {
    if card.Some? {
      DescriptionNeverEmpty(url, card);
    }
  }

  lemma ForgettingKeepsMemory(r: Registry, after: Registry)
    requires DelegatesInPlace(r) && DelegatesInPlace(after) && DegradedRemembersName(r) && DelegatesStay(r, after)
    requires forall u :: u in after.degraded ==> u in r.degraded && after.degraded[u] == r.degraded[u]
    ensures DegradedRemembersName(after)
  {
  }

  lemma AddingToMemory(r: Registry, after: Registry, base: string, name: string)
    requires DelegatesInPlace(r) && DelegatesInPlace(after) && DegradedRemembersName(r) && DelegatesStay(r, after)
    requires after.degraded == r.degraded[base := name]
    ensures DegradedRemembersName(after) <==>
      DelegateOf(after, base).name == name && DelegateOf(after, base).schema == MessageSchema
  {
    assert base in after.degraded && after.degraded[base] == name;
    forall u | u in after.degraded && u != base
      ensures DelegateOf(after, u).name == after.degraded[u] && DelegateOf(after, u).schema == MessageSchema
    {
      assert u in r.degraded && DelegateOf(after, u) == DelegateOf(r, u);
    }
  }

  lemma DegradedNamesKeptExactly(r: Registry, url: string, card: Option<Card>)
    requires DelegatesInPlace(r) && DegradedRemembersName(r)
    ensures DelegatesInPlace(FetchOne(r, url, card).0)
    ensures DegradedRemembersName(FetchOne(r, url, card).0) <==> !NameDrifts(r, url, card)
  {
    var base := RStripSlash(url);
    FetchKeepsDelegates(r, url, card);
    DegradedAfterFetch(r, url, card);
    var (after, advert) := FetchOne(r, url, card);
    assert DelegatesStay(r, after);
    if card.None? && advert.Some? && base !in r.degraded {
      AddingToMemory(r, after, base, NameFromUrl(url));
      if base !in r.materialized {
        assert CallableAsAdvertised(after, advert.value);
        assert DelegateOf(after, base) == Tool(NameFromUrl(url), Some(base), MessageSchema);
      }
    } else {
      ForgettingKeepsMemory(r, after);
    }
  }

  /** A degraded peer whose card turns up is advertised under its startup name, is callable there
      with the schema advertised, and stops being degraded. */
  lemma RepairKeepsStartupName(r: Registry, url: string, card: Card)
    requires DelegatesInPlace(r) && DegradedRemembersName(r) && RStripSlash(url) in r.degraded
    ensures var (after, advert) := FetchOne(r, url, Some(card));
      var base := RStripSlash(url);
      && advert == Some(Advert(r.degraded[base], base, MessageSchema))
      && CallableAsAdvertised(after, advert.value)
      && after.degraded == r.degraded - {base} && after.tools == r.tools
  {
    DescriptionNeverEmpty(url, Some(card));
    assert DelegateOf(r, RStripSlash(url)) in r.tools;
  }

  ghost predicate FreshAgent(r: Registry) {
    && UniqueNames(r.tools) && r.materialized == {} && r.degraded == map[]
    && forall t :: t in r.tools ==> t.target.None?
  }

  lemma FreshAgentInPlace(r: Registry)
    requires FreshAgent(r)
    ensures DelegatesInPlace(r) && DegradedRemembersName(r)
  {
  }

  ghost predicate DistinctBases(urls: seq<string>) {
    forall i, j :: 0 <= i < j < |urls| ==> RStripSlash(urls[i]) != RStripSlash(urls[j])
  }

  lemma MaterializedAfterFetch(r: Registry, url: string, card: Option<Card>)
    ensures r.materialized <= FetchOne(r, url, card).0.materialized <= r.materialized + {RStripSlash(url)}
  {
  }

  /** A fetch leaves alone every URL that is not one of its own. */
  lemma {:induction false} FetchTouchesOnlyItsUrls(r: Registry, urls: seq<string>, cards: nat -> Option<Card>, u: string)
    requires forall i :: 0 <= i < |urls| ==> RStripSlash(urls[i]) != u
    ensures var after := FetchAll(r, urls, cards).0;
      && (u in after.materialized <==> u in r.materialized)
      && Get(after.degraded, u) == Get(r.degraded, u)
  {
    if urls != [] {
      var n := |urls| - 1;
      var before := FetchAll(r, urls[..n], cards).0;
      FetchTouchesOnlyItsUrls(r, urls[..n], cards, u);
      DegradedAfterFetch(before, urls[n], cards(n));
      MaterializedAfterFetch(before, urls[n], cards(n));
    }
  }

  lemma FetchOnlyAddsTools(r: Registry, url: string, card: Option<Card>)
    ensures r.tools <= FetchOne(r, url, card).0.tools
  {
  }

  /** What a fetch by a fresh agent `r` has established when it has got to `after`. */
  ghost predicate SoundSoFar(r: Registry, after: Registry, adverts: seq<Advert>) {
    && DelegatesInPlace(after) && DegradedRemembersName(after)
    && r.tools <= after.tools
    && (forall a :: a in adverts ==> CallableAsAdvertised(after, a) && !HasName(r.tools, a.name))
    && (forall i, j :: 0 <= i < j < |adverts| ==> adverts[i].name != adverts[j].name)
  }

  lemma SoundStep(r: Registry, before: Registry, adverts: seq<Advert>, after: Registry, advert: Option<Advert>)
    requires SoundSoFar(r, before, adverts)
    requires DelegatesInPlace(after) && DegradedRemembersName(after) && before.tools <= after.tools
    requires advert.Some? ==> CallableAsAdvertised(after, advert.value) && !HasName(before.tools, advert.value.name)
    ensures SoundSoFar(r, after, adverts + if advert.Some? then [advert.value] else [])
  {
    if advert.Some? {
      forall a | a in adverts
        ensures a.name != advert.value.name
      {
        assert Tool(a.name, Some(a.url), a.schema) in before.tools;
      }
      assert HasName(r.tools, advert.value.name) ==> HasName(before.tools, advert.value.name);
    }
  }

  /** For a fresh agent with distinct peers and any mix of fetched and missing cards, everything
      the first fetch advertises is callable exactly as advertised, under a name no tool of the
      agent or other peer has; and degraded peers are remembered under the name they got. */
  lemma {:induction false} FirstFetchIsCallable(r: Registry, urls: seq<string>, cards: nat -> Option<Card>)
    requires FreshAgent(r) && DistinctBases(urls)
    ensures var (after, adverts) := FetchAll(r, urls, cards);
      SoundSoFar(r, after, adverts)
  {
    if urls == [] {
      FreshAgentInPlace(r);
    } else {
      var n := |urls| - 1;
      var (before, adverts) := FetchAll(r, urls[..n], cards);
      var (after, advert) := FetchOne(before, urls[n], cards(n));
      FirstFetchIsCallable(r, urls[..n], cards);
      FetchTouchesOnlyItsUrls(r, urls[..n], cards, RStripSlash(urls[n]));
      FetchKeepsDelegates(before, urls[n], cards(n));
      DegradedNamesKeptExactly(before, urls[n], cards(n));
      FetchOnlyAddsTools(before, urls[n], cards(n));
      SoundStep(r, before, adverts, after, advert);
    }
  }

  ghost predicate StableName(r: Registry, url: string, card: Option<Card>)
    requires DelegatesInPlace(r) && RStripSlash(url) in r.materialized
  {
    var d := DelegateOf(r, RStripSlash(url));
    if RStripSlash(url) in r.degraded then NameFromUrl(url) == d.name
    else card.Some? && CardName(card.value, url) == d.name
  }

  /** Names are stable for a fetch when every peer that already has a delegate and is not degraded
      shows a card giving that delegate's name. */
  ghost predicate NamesStable(r: Registry, urls: seq<string>, cards: nat -> Option<Card>)
    requires DelegatesInPlace(r)
  {
    forall i :: 0 <= i < |urls| && RStripSlash(urls[i]) in r.materialized ==> StableName(r, urls[i], cards(i))
  }

  ghost predicate CallableSoFar(r: Registry, after: Registry, adverts: seq<Advert>)
    requires DelegatesInPlace(r)
  {
    && DelegatesInPlace(after) && DegradedRemembersName(after) && DelegatesStay(r, after)
    && (forall a :: a in adverts ==> a.url in after.materialized && DelegateOf(after, a.url).name == a.name)
  }

  /** One peer of a stable fetch, after the peers before it. */
  lemma StablePeer(r: Registry, before: Registry, url: string, card: Option<Card>)
    requires DelegatesInPlace(r) && DelegatesInPlace(before)
    requires DegradedRemembersName(before) && DelegatesStay(r, before)
    requires var base := RStripSlash(url);
      && (base in before.materialized <==> base in r.materialized)
      && (base in before.degraded <==> base in r.degraded)
      && (base in r.materialized ==> StableName(r, url, card))
    ensures var (after, advert) := FetchOne(before, url, card);
      && DelegatesInPlace(after) && DegradedRemembersName(after) && DelegatesStay(before, after)
      && (advert.Some? ==> Callable(after, advert.value))
  {
    FetchKeepsDelegates(before, url, card);
    DegradedNamesKeptExactly(before, url, card);
  }

  lemma LaterStep(r: Registry, before: Registry, adverts: seq<Advert>, after: Registry, advert: Option<Advert>)
    requires DelegatesInPlace(r) && CallableSoFar(r, before, adverts)
    requires DelegatesInPlace(after) && DegradedRemembersName(after)
    requires DelegatesStay(before, after)
    requires advert.Some? ==> Callable(after, advert.value)
    ensures var all := adverts + if advert.Some? then [advert.value] else [];
      CallableSoFar(r, after, all) && forall a :: a in all ==> Callable(after, a)
  {
  }

  /** Any later fetch with stable names advertises each peer under the name of its delegate,
      whatever peers it repairs or meets for the first time. */
  lemma {:induction false} LaterFetchIsCallable(r: Registry, urls: seq<string>, cards: nat -> Option<Card>)
    requires DelegatesInPlace(r) && DegradedRemembersName(r)
    requires DistinctBases(urls) && NamesStable(r, urls, cards)
    ensures var (after, adverts) := FetchAll(r, urls, cards);
      CallableSoFar(r, after, adverts) && forall a :: a in adverts ==> Callable(after, a)
  {
    if urls != [] {
      var n := |urls| - 1;
      var base := RStripSlash(urls[n]);
      var (before, adverts) := FetchAll(r, urls[..n], cards);
      var (after, advert) := FetchOne(before, urls[n], cards(n));
      LaterFetchIsCallable(r, urls[..n], cards);
      FetchTouchesOnlyItsUrls(r, urls[..n], cards, base);
      StablePeer(r, before, urls[n], cards(n));
      LaterStep(r, before, adverts, after, advert);
    }
  }

  // ---- Runs that leave the delegates alone ----

  ghost predicate DelegateNamed(r: Registry, name: string) {
    exists t :: t in r.tools && t.name == name && t.target.Some?
  }

  /** The step registers, replaces or removes no delegate, and a fetch finds names stable. */
  ghost predicate LeavesDelegates(r: Registry, op: Op)
    requires DelegatesInPlace(r)
  {
    match op
    case RegisterOp(tool) => tool.target.None? && !DelegateNamed(r, tool.name)
    case UnregisterOp(name) => !DelegateNamed(r, name)
    case FetchOp(urls, cards) => DistinctBases(urls) && NamesStable(r, urls, cards)
    case UpgradeOp(_, _) => true
  }

  ghost predicate RunLeavesDelegates(r: Registry, ops: seq<Op>) {
    ops != [] ==>
      var before := DoAll(r, ops[..|ops| - 1]);
      && RunLeavesDelegates(r, ops[..|ops| - 1])
      && (DelegatesInPlace(before) ==> LeavesDelegates(before, ops[|ops| - 1]))
  }

  /** What step `k` of a run advertises. */
  function AdvertisedBy(r: Registry, ops: seq<Op>, k: nat): seq<Advert>
    requires k < |ops|
  {
    match ops[k]
    case FetchOp(urls, cards) => FetchAll(DoAll(r, ops[..k]), urls, cards).1
    case _ => []
  }

  /** Everything advertised by the fetches of a run. */
  function Advertised(r: Registry, ops: seq<Op>): seq<Advert> {
    if ops == [] then [] else
    var init := ops[..|ops| - 1];
    Advertised(r, init) + AdvertisedBy(r, ops, |ops| - 1)
  }

  /** Only tools that delegate nowhere came or went. */
  lemma OtherToolsMayChange(r: Registry, after: Registry)
    requires DelegatesInPlace(r) && DegradedRemembersName(r)
    requires UniqueNames(after.tools) && after.materialized == r.materialized && after.degraded == r.degraded
    requires forall t: Tool :: t.target.Some? ==> (t in after.tools <==> t in r.tools)
    ensures DelegatesInPlace(after) && DegradedRemembersName(after) && DelegatesStay(r, after)
  {
    forall u | u in r.materialized
      ensures DelegateOf(r, u) in after.tools && DelegateOf(r, u).target == Some(u)
    {
    }
    assert DelegatesInPlace(after);
    forall u | u in r.materialized
      ensures DelegateOf(after, u) == DelegateOf(r, u)
    {
      DelegateUnique(after, DelegateOf(r, u));
    }
  }

  lemma RegisterLeavesDelegates(r: Registry, tool: Tool)
    requires DelegatesInPlace(r) && DegradedRemembersName(r) && tool.target.None? && !DelegateNamed(r, tool.name)
    ensures var after := Register(r, tool);
      DelegatesInPlace(after) && DegradedRemembersName(after) && DelegatesStay(r, after)
  {
    var after := Register(r, tool);
    StepEvolves(r, RegisterOp(tool));
    RegisterReplaces(r, tool);
    forall t: Tool | t.target.Some?
      ensures t in after.tools <==> t in r.tools
    {
      assert t in r.tools ==> t.name != tool.name;
    }
    OtherToolsMayChange(r, after);
  }

  lemma UnregisterLeavesDelegates(r: Registry, name: string)
    requires DelegatesInPlace(r) && DegradedRemembersName(r) && !DelegateNamed(r, name)
    ensures var after := Unregister(r, name);
      DelegatesInPlace(after) && DegradedRemembersName(after) && DelegatesStay(r, after)
  {
    var after := Unregister(r, name);
    StepEvolves(r, UnregisterOp(name));
    forall t: Tool | t.target.Some?
      ensures t in after.tools <==> t in r.tools
    {
      assert t in r.tools ==> t.name != name;
    }
    OtherToolsMayChange(r, after);
  }

  lemma UpgradeLeavesDelegates(r: Registry, url: string, description: string)
    requires DelegatesInPlace(r) && DegradedRemembersName(r)
    ensures var after := Upgrade(r, url, description);
      DelegatesInPlace(after) && DegradedRemembersName(after) && DelegatesStay(r, after)
  {
    var after := Upgrade(r, url, description);
    assert DelegatesInPlace(after);
    forall u | u in r.materialized
      ensures DelegateOf(after, u) == DelegateOf(r, u)
    {
      DelegateUnique(after, DelegateOf(r, u));
    }
  }

  lemma StepLeavesDelegates(r: Registry, op: Op)
    requires DelegatesInPlace(r) && DegradedRemembersName(r) && LeavesDelegates(r, op)
    ensures var after := Do(r, op);
      DelegatesInPlace(after) && DegradedRemembersName(after) && DelegatesStay(r, after)
  {
    match op
    case RegisterOp(tool) => RegisterLeavesDelegates(r, tool);
    case UnregisterOp(name) => UnregisterLeavesDelegates(r, name);
    case FetchOp(urls, cards) => LaterFetchIsCallable(r, urls, cards);
    case UpgradeOp(url, description) => UpgradeLeavesDelegates(r, url, description);
  }

  lemma StillCallable(r: Registry, before: Registry, after: Registry, earlier: seq<Advert>, latest: seq<Advert>)
    requires DelegatesInPlace(r) && CallableSoFar(r, before, earlier)
    requires CallableSoFar(before, after, latest)
    ensures CallableSoFar(r, after, earlier + latest)
    ensures forall a :: a in earlier + latest ==> Callable(after, a)
  {
    forall a | a in earlier + latest
      ensures a.url in after.materialized && DelegateOf(after, a.url).name == a.name
    {
      if a in earlier {
        assert DelegateOf(after, a.url) == DelegateOf(before, a.url);
      }
    }
  }

  lemma {:induction false} FetchIsAdvertised(r: Registry, ops: seq<Op>, k: nat, a: Advert)
    requires k < |ops| && a in AdvertisedBy(r, ops, k)
    ensures a in Advertised(r, ops)
  {
    var init := ops[..|ops| - 1];
    if k < |init| {
      assert init[..k] == ops[..k] && init[k] == ops[k];
      FetchIsAdvertised(r, init, k, a);
    }
  }

  /** Through any run of fetches with stable names, repairs, and registrations and removals of the
      agent's other tools, everything ever advertised is callable at the end. */
  lemma {:induction false} RunStaysCallable(r: Registry, ops: seq<Op>)
    requires DelegatesInPlace(r) && DegradedRemembersName(r) && RunLeavesDelegates(r, ops)
    ensures CallableSoFar(r, DoAll(r, ops), Advertised(r, ops))
    ensures forall a :: a in Advertised(r, ops) ==> Callable(DoAll(r, ops), a)
  {
    if ops != [] {
      var init, last := ops[..|ops| - 1], ops[|ops| - 1];
      var before := DoAll(r, init);
      RunStaysCallable(r, init);
      StepLeavesDelegates(before, last);
      if last.FetchOp? {
        LaterFetchIsCallable(before, last.urls, last.cards);
      }
      StillCallable(r, before, Do(before, last), Advertised(r, init),
                    if last.FetchOp? then FetchAll(before, last.urls, last.cards).1 else []);
    }
  }

  /** In particular what any one fetch of the run advertised. */
  lemma EveryFetchStaysCallable(r: Registry, ops: seq<Op>, k: nat, a: Advert)
    requires DelegatesInPlace(r) && DegradedRemembersName(r) && RunLeavesDelegates(r, ops)
    requires k < |ops| && ops[k].FetchOp?
    requires a in FetchAll(DoAll(r, ops[..k]), ops[k].urls, ops[k].cards).1
    ensures Callable(DoAll(r, ops), a)
  {
    RunStaysCallable(r, ops);
    FetchIsAdvertised(r, ops, k, a);
  }

  // ---- When the promise fails ----

  /** A URL once materialized is advertised by every later fetch, whatever has become of its
      delegate: not callable exactly when no tool of the advertised name delegates to it, so
      never once the delegate was unregistered. */
  lemma UnregisteredDelegateStillAdvertised(r: Registry, url: string, card: Option<Card>)
    requires RStripSlash(url) in r.materialized
    ensures var (after, advert) := FetchOne(r, url, card);
      && advert.Some?
      && (!Callable(after, advert.value) <==> !Answers(r.tools, Settle(r, url, card).0, RStripSlash(url)))
      && ((forall t :: t in r.tools ==> t.target != Some(RStripSlash(url))) ==> !Callable(after, advert.value))
  {
    AdvertisedCallableExactly(r, url, card);
  }

  /** For every URL: a peer registered under a card name that its URL does not spell, and then
      fetched while down, is advertised under the name the URL spells, which nothing answers to. */
  lemma LostCardBreaksTheName(url: string, card: Card)
    requires CardName(card, url) != NameFromUrl(url)
    ensures var first := FetchOne(Registry([], 0, {}, map[]), url, Some(card));
      var second := FetchOne(first.0, url, None);
      && first.1.Some? && CallableAsAdvertised(first.0, first.1.value)
      && second.1.Some? && !Callable(second.0, second.1.value)
  {
  }

  lemma SuchCardsExist(url: string)
    ensures CardName(Card(Some(NameFromUrl(url) + "x"), "", None), url) != NameFromUrl(url)
  {
    assert |CardName(Card(Some(NameFromUrl(url) + "x"), "", None), url)| == |NameFromUrl(url)| + 1;
  }

  // ---- The card fetch itself ----

  datatype Attempt = Attempt(card: Option<Card>, took: real)

  const CARD_FETCH_ATTEMPTS := 3
  const CARD_FETCH_BACKOFF := 0.5
  const CARD_FETCH_BUDGET := 5.0

  /** Retries fast failures; a peer that never answers costs less than the budget, plus the two
      back-off sleeps, plus one request. */
  method FetchCard(attempts: seq<Attempt>, slowest: real) returns (card: Option<Card>, made: nat, elapsed: real)
    requires |attempts| == CARD_FETCH_ATTEMPTS
    requires forall a :: a in attempts ==> 0.0 <= a.took <= slowest
    ensures 1 <= made <= |attempts|
    ensures card == attempts[made - 1].card && forall k :: 0 <= k < made - 1 ==> attempts[k].card.None?
    ensures made <= 3 && elapsed < 6.0 + slowest
    ensures card.None? ==> made == 3 || elapsed >= 5.0
  {
    made, elapsed := 0, 0.0;
    while true
      invariant made < CARD_FETCH_ATTEMPTS
      invariant 0.0 <= elapsed < CARD_FETCH_BUDGET + made as real * CARD_FETCH_BACKOFF
      invariant forall k :: 0 <= k < made ==> attempts[k].card.None?
      decreases CARD_FETCH_ATTEMPTS - made
    {
      var attempt := attempts[made];
      assert attempt in attempts;
      made := made + 1;
      elapsed := elapsed + attempt.took;
      if attempt.card.Some? {
        return attempt.card, made, elapsed;
      }
      if made == CARD_FETCH_ATTEMPTS || elapsed >= CARD_FETCH_BUDGET {
        return None, made, elapsed;
      }
      elapsed := elapsed + CARD_FETCH_BACKOFF * made as real;
    }
  }
}

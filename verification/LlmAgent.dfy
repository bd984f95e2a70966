/** python/src/apx_agent/_agents.py, LlmAgent: the object that holds the live tool list. Tool
    functions and descriptors are shared objects whose text is repaired in place; what each method
    does to the lists is stated by the operations of ToolRegistry. */
module LlmAgent {
  import opened Wrappers
  import opened Comprehension
  import opened ToolRegistry

  class ToolFn {
    const name: string
    const target: Option<string>
    const schema: Schema
    var doc: string
    var subAgentUrl: Option<string>

    constructor (name: string, doc: string, target: Option<string>, schema: Schema)
      ensures this.name == name && this.target == target && this.schema == schema
      ensures this.doc == doc && subAgentUrl == target
    {
      this.name, this.doc, this.target, this.schema, subAgentUrl := name, doc, target, schema, target;
    }
  }

  /** The advertised face of a sub-agent (AgentTool). */
  class Descriptor {
    const name: string
    const url: string
    const schema: Schema
    var description: string

    constructor (name: string, url: string, schema: Schema, description: string)
      ensures this.name == name && this.url == url && this.schema == schema && this.description == description
    {
      this.name, this.url, this.schema, this.description := name, url, schema, description;
    }
  }

  /** A row of `_analyzed`: the function and what its signature says. */
  datatype Row = Row(fn: ToolFn, schema: Schema)

  function Analyze(fns: seq<ToolFn>): seq<Row> {
    seq(|fns|, i requires 0 <= i < |fns| => Row(fns[i], fns[i].schema))
  }

  function View(fns: seq<ToolFn>): seq<Tool> {
    seq(|fns|, i requires 0 <= i < |fns| => Tool(fns[i].name, fns[i].target, fns[i].schema))
  }

  function AdvertOf(d: Descriptor): Advert {
    Advert(d.name, d.url, d.schema)
  }

  function AdvertsOf(ds: seq<Descriptor>): seq<Advert> {
    seq(|ds|, i requires 0 <= i < |ds| => AdvertOf(ds[i]))
  }

  lemma WithoutStep(seen: seq<ToolFn>, fn: ToolFn, kept: seq<ToolFn>, name: string)
    requires View(kept) == Without(View(seen), name)
    ensures Without(View(seen + [fn]), name) == if fn.name != name then View(kept + [fn]) else View(kept)
  {
    var t := Tool(fn.name, fn.target, fn.schema);
    assert View(seen + [fn]) == View(seen) + [t] && View(kept + [fn]) == View(kept) + [t];
    FilterSnoc(View(seen), t, NotNamed(name));
  }

  lemma AdvertsStep(ds: seq<Descriptor>, d: Option<Descriptor>)
    ensures AdvertsOf(ds + if d.Some? then [d.value] else []) == AdvertsOf(ds) + if d.Some? then [AdvertOf(d.value)] else []
    ensures ds + [] == ds
  {
  }

  /** What two steps add together is what each of them adds. */
  lemma Grown(a: set<object>, b: set<object>, c: set<object>)
    ensures c - a <= (c - b) + (b - a)
  {
  }

  lemma ViewHasName(fns: seq<ToolFn>, name: string)
    ensures HasName(View(fns), name) <==> exists f :: f in fns && f.name == name
  {
    forall i | 0 <= i < |fns|
      ensures View(fns)[i] in View(fns) && View(fns)[i].name == fns[i].name
    {
    }
  }

  class LlmAgent {
    var toolFns: seq<ToolFn>
    var analyzed: seq<Row>
    var toolsVersion: nat
    var materialized: set<string>
    var degraded: map<string, Descriptor>

    /** The two lists hold the same functions in the same order. */
    ghost predicate Valid()
      reads this
    {
      analyzed == Analyze(toolFns)
    }

    /** What the agent is, apart from the text of its tools. */
    ghost function State(): Registry
      reads this
    {
      Registry(View(toolFns), toolsVersion, materialized, map u | u in degraded :: degraded[u].name)
    }

    ghost function Repr(): set<object>
      reads this
    {
      {this as object} + (set f | f in toolFns :: f as object) + (set u | u in degraded :: degraded[u] as object)
    }

    constructor (tools: seq<ToolFn>)
      ensures Valid() && toolFns == tools
      ensures State() == Registry(View(tools), 0, {}, map[])
    {
      toolFns := tools;
      analyzed := [];
      materialized, degraded, toolsVersion := {}, map[], 0;
      new;
      for i := 0 to |tools|
        invariant toolFns == tools && analyzed == Analyze(tools[..i])
        invariant materialized == {} && degraded == map[] && toolsVersion == 0
      {
        analyzed := analyzed + [Row(tools[i], tools[i].schema)];
        assert tools[..i + 1] == tools[..i] + [tools[i]];
      }
      assert tools[..|tools|] == tools;
    }

    /** `_register_tool`. */
    method Append(fn: ToolFn)
      requires Valid()
      modifies this`toolFns, this`analyzed, this`toolsVersion
      ensures Valid() && toolFns == old(toolFns) + [fn]
      ensures State() == ToolRegistry.Append(old(State()), Tool(fn.name, fn.target, fn.schema))
    {
      toolFns := toolFns + [fn];
      analyzed := analyzed + [Row(fn, fn.schema)];
      toolsVersion := toolsVersion + 1;
      assert View(toolFns) == View(old(toolFns)) + [Tool(fn.name, fn.target, fn.schema)];
    }

    /** Drops every function of a name from both lists. */
    method Drop(name: string)
      requires Valid()
      modifies this`toolFns, this`analyzed
      ensures Valid() && View(toolFns) == Without(View(old(toolFns)), name)
      ensures forall f :: f in toolFns <==> f in old(toolFns) && f.name != name
    {
      var fns, rows: seq<Row> := [], [];
      for i := 0 to |toolFns|
        invariant toolFns == old(toolFns) && analyzed == old(analyzed)
        invariant rows == Analyze(fns)
        invariant View(fns) == Without(View(toolFns[..i]), name)
        invariant forall f :: f in fns <==> f in toolFns[..i] && f.name != name
      {
        var fn := toolFns[i];
        assert toolFns[..i + 1] == toolFns[..i] + [fn];
        WithoutStep(toolFns[..i], fn, fns, name);
        if fn.name != name {
          fns := fns + [fn];
        }
        if analyzed[i].fn.name != name {
          rows := rows + [analyzed[i]];
        }
      }
      assert toolFns[..|toolFns|] == toolFns;
      toolFns, analyzed := fns, rows;
    }

    method RegisterTool(fn: ToolFn)
      requires Valid()
      modifies this`toolFns, this`analyzed, this`toolsVersion
      ensures Valid()
      ensures State() == Register(old(State()), Tool(fn.name, fn.target, fn.schema))
      ensures toolFns != [] && toolFns[|toolFns| - 1] == fn
    {
      Drop(fn.name);
      Append(fn);
    }

    method UnregisterTool(name: string) returns (removed: bool)
      requires Valid()
      modifies this`toolFns, this`analyzed, this`toolsVersion
      ensures Valid()
      ensures State() == Unregister(old(State()), name)
      ensures removed <==> exists f :: f in old(toolFns) && f.name == name
    {
      var before := |toolFns|;
      FilterLength(View(toolFns), NotNamed(name));
      if |Without(View(toolFns), name)| == |toolFns| {
        FilterKeepsAll(View(toolFns), NotNamed(name));
      }
      ViewHasName(toolFns, name);
      Drop(name);
      removed := |toolFns| < before;
      if removed {
        toolsVersion := toolsVersion + 1;
      }
    }

    /** Repairs a degraded entry: the descriptor and every function of its name get the new text,
        no other text changes, and the name stays as registered. */
    method UpgradeSubAgent(url: string, description: string)
      requires Valid()
      modifies Repr()
      ensures Valid() && toolFns == old(toolFns)
      ensures State() == Upgrade(old(State()), url, description)
      ensures degraded == if description == "" then old(degraded) else old(degraded) - {url}
      ensures description != "" && url in old(degraded) ==> old(degraded)[url].description == description
      ensures forall f :: f in toolFns ==>
        f.doc == (if description != "" && url in old(degraded) && f.name == old(degraded)[url].name
                  then description else old(f.doc))
    {
      if description == "" || url !in degraded {
        assert description != "" ==> State().degraded == Upgrade(old(State()), url, description).degraded;
        assert degraded - {url} == degraded || url in degraded;
        return;
      }
      var descriptor := degraded[url];
      degraded := degraded - {url};
      descriptor.description := description;
      for i := 0 to |toolFns|
        invariant Valid() && toolFns == old(toolFns) && degraded == old(degraded) - {url}
        invariant toolsVersion == old(toolsVersion) && materialized == old(materialized)
        invariant descriptor.description == description
        invariant forall f :: f in toolFns ==>
          f.doc == (if f.name == descriptor.name && f in toolFns[..i] then description else old(f.doc))
      {
        assert toolFns[i] in old(toolFns);
        if toolFns[i].name == descriptor.name {
          toolFns[i].doc := description;
        }
        assert toolFns[..i + 1] == toolFns[..i] + [toolFns[i]];
      }
      assert toolFns[..|toolFns|] == toolFns;
    }

    /** Registers the delegate for a URL once; a name already taken is refused. */
    method EnsureSubAgentTool(name: string, description: string, url: string, schema: Schema)
      returns (callable: bool)
      requires Valid()
      modifies Repr()
      ensures Valid() && fresh(Repr() - old(Repr()))
      ensures (State(), callable) == Ensure(old(State()), name, url, schema)
      ensures degraded == old(degraded)
      ensures forall f :: f in old(toolFns) ==> f.doc == old(f.doc)
      ensures url !in old(materialized) && callable ==> toolFns != [] && toolFns[|toolFns| - 1].doc == description
      ensures url in old(materialized) ==> forall f :: f in toolFns && f.name == name ==> f.subAgentUrl == Some(url)
    {
      if url in materialized {
        for i := 0 to |toolFns|
          invariant Valid() && State() == old(State()) && toolFns == old(toolFns) && degraded == old(degraded)
          invariant forall f :: f in toolFns ==> f.doc == old(f.doc)
          invariant forall f :: f in toolFns[..i] && f.name == name ==> f.subAgentUrl == Some(url)
        {
          assert toolFns[i] in old(toolFns);
          if toolFns[i].name == name {
            toolFns[i].subAgentUrl := Some(url);
          }
          assert toolFns[..i + 1] == toolFns[..i] + [toolFns[i]];
        }
        assert toolFns[..|toolFns|] == toolFns;
        return true;
      }
      ViewHasName(toolFns, name);
      if exists f :: f in toolFns && f.name == name {
        return false;
      }
      var tool := new ToolFn(name, description, Some(url), schema);
      Append(tool);
      materialized := materialized + {url};
      return true;
    }

    /** The descriptor a callable peer is advertised by; kept for repair when the card was missing. */
    method Advertise(base: string, name: string, schema: Schema, description: string, noCard: bool)
      returns (descriptor: Descriptor)
      requires Valid()
      modifies this`degraded
      ensures Valid() && fresh(Repr() - old(Repr()))
      ensures AdvertOf(descriptor) == Advert(name, base, schema) && descriptor.description == description
      ensures var before := old(State());
        State() == if noCard && base !in before.degraded then before.(degraded := before.degraded[base := name]) else before
    {
      descriptor := new Descriptor(name, base, schema, description);
      if noCard && base !in degraded {
        degraded := degraded[base := descriptor];
      }
    }

    /** Names and describes a peer from its card or its URL, repairing it first if it was degraded. */
    method SettlePeer(url: string, card: Option<Card>) returns (name: string, schema: Schema, description: string)
      requires Valid()
      modifies Repr()
      ensures Valid() && Repr() <= old(Repr())
      ensures (name, schema) == Settle(old(State()), url, card)
      ensures description == PeerDescription(url, card)
      ensures SettlesOn(old(State()), url, card, name, schema, description)
      ensures State() == Repaired(old(State()), url, card)
      ensures card.None? ==> degraded == old(degraded)
    {
      SettleAsStated(State(), url, card);
      var base := RStripSlash(url);
      schema := MessageSchema;
      if card.None? {
        name := NameFromUrl(url);
        description := "Remote agent at " + url + " (card fetch failed \U{2014} tool is still callable)";
      } else {
        description := RoutingDescription(card.value.description, "Agent at " + url);
        if base in degraded {
          name := degraded[base].name;
          UpgradeSubAgent(base, description);
        } else {
          name := CardName(card.value, url);
          if card.value.schema.Some? {
            schema := card.value.schema.value;
          }
        }
      }
    }

    /** Settles a peer's name, schema and text, and registers its delegate unless the name is taken. */
    method MakeCallable(url: string, card: Option<Card>)
      returns (name: string, schema: Schema, description: string, callable: bool)
      requires Valid()
      modifies Repr()
      ensures Valid() && fresh(Repr() - old(Repr()))
      ensures (name, schema) == Settle(old(State()), url, card) && description == PeerDescription(url, card)
      ensures (State(), callable) == Ensure(Repaired(old(State()), url, card), name, RStripSlash(url), schema)
    {
      name, schema, description := SettlePeer(url, card);
      ghost var settled := Repr();
      callable := EnsureSubAgentTool(name, description, RStripSlash(url), schema);
      Grown(old(Repr()), settled, Repr());
    }

    /** One turn of the fetch loop. */
    method FetchPeer(url: string, card: Option<Card>) returns (advertised: Option<Descriptor>)
      requires Valid()
      modifies Repr()
      ensures Valid() && fresh(Repr() - old(Repr()))
      ensures var (after, advert) := FetchOne(old(State()), url, card);
        && State() == after
        && (advertised.Some? <==> advert.Some?)
        && (advertised.Some? ==>
            && AdvertOf(advertised.value) == advert.value && advertised.value.url == RStripSlash(url)
            && SettlesOn(old(State()), url, card, advertised.value.name, advertised.value.schema,
                         advertised.value.description))
    {
      SettleAsStated(State(), url, card);
      var name, schema, description, callable := MakeCallable(url, card);
      if !callable {
        return None;
      }
      ghost var owned := Repr();
      var descriptor := Advertise(RStripSlash(url), name, schema, description, card.None?);
      Grown(old(Repr()), owned, Repr());
      return Some(descriptor);
    }

    /** `fetch_remote_tools`, given what each card fetch comes back with. */
    method FetchRemoteTools(urls: seq<string>, cards: nat -> Option<Card>) returns (tools: seq<Descriptor>)
      requires Valid()
      modifies Repr()
      ensures Valid() && fresh(Repr() - old(Repr()))
      ensures (State(), AdvertsOf(tools)) == FetchAll(old(State()), urls, cards)
    {
      tools := [];
      ghost var start, r0 := State(), Repr();
      assert urls[..0] == [] && AdvertsOf(tools) == [];
      for i := 0 to |urls|
        invariant Valid() && fresh(Repr() - r0)
        invariant (State(), AdvertsOf(tools)) == FetchAll(start, urls[..i], cards)
      {
        ghost var before, adverts, owned := State(), AdvertsOf(tools), Repr();
        var advertised := FetchPeer(urls[i], cards(i));
        Grown(r0, owned, Repr());
        ghost var advert := if advertised.Some? then Some(AdvertOf(advertised.value)) else None;
        FetchAllStep(start, urls, i, cards, before, adverts, State(), advert);
        AdvertsStep(tools, advertised);
        if advertised.Some? {
          tools := tools + [advertised.value];
        }
      }
      assert urls[..|urls|] == urls;
    }
  }
}

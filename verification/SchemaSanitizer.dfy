/** python/src/apx_agent/_agent_tool.py, _strip_additional_properties: dropping every
    `additionalProperties` that is not False from a JSON schema. */
module SchemaSanitizer {
  import opened Wrappers

  datatype Json = Null | Bool(b: bool) | Num(n: int) | Str(s: string) | Arr(items: seq<Json>) | Obj(fields: map<string, Json>)

  const AP := "additionalProperties"

  predicate Loose(fields: map<string, Json>) {
    AP in fields && fields[AP] != Bool(false)
  }

  predicate Kept(fields: map<string, Json>, k: string) {
    k in fields && !(k == AP && Loose(fields))
  }

  /** What the recursion leaves of a value: objects are stripped, and so are objects directly
      inside a list, but a list inside a list is passed over. */
  function Strip(j: Json): Json
    decreases j, 0
  {
    match j
    case Obj(fields) => Obj(map k | k in fields && Kept(fields, k) :: StripValue(fields[k]))
    case _ => j
  }

  function StripValue(v: Json): Json
    decreases v, 1
  {
    match v
    case Arr(items) => Arr(seq(|items|, i requires 0 <= i < |items| => Strip(items[i])))
    case _ => Strip(v)
  }

  // ---- The objects the recursion visits ----

  datatype Step = Field(key: string) | Element(key: string, index: nat)

  /** The object one step below an object's fields. */
  function Below(fields: map<string, Json>, s: Step): Option<Json> {
    if s.key !in fields then None
    else match s
      case Field(k) => if fields[k].Obj? then Some(fields[k]) else None
      case Element(k, i) =>
        if fields[k].Arr? && i < |fields[k].items| && fields[k].items[i].Obj? then Some(fields[k].items[i]) else None
  }

  /** The object at the end of a path. */
  function At(j: Json, path: seq<Step>): Option<Json> {
    if !j.Obj? then None
    else if path == [] then Some(j)
    else match Below(j.fields, path[0])
      case None => None
      case Some(next) => At(next, path[1..])
  }

  /** Paths lead where they say: through a field's object, or an object in a field's list. */
  lemma PathsLead(fields: map<string, Json>, k: string, i: nat, path: seq<Step>)
    requires k in fields
    ensures At(Obj(fields), []) == Some(Obj(fields))
    ensures fields[k].Obj? ==> At(Obj(fields), [Field(k)] + path) == At(fields[k], path)
    ensures fields[k].Arr? && i < |fields[k].items| && fields[k].items[i].Obj? ==>
      At(Obj(fields), [Element(k, i)] + path) == At(fields[k].items[i], path)
  {
    assert ([Field(k)] + path)[1..] == path && ([Element(k, i)] + path)[1..] == path;
  }

  /** The path runs through a property that is dropped. */
  predicate Dropped(j: Json, path: seq<Step>) {
    j.Obj? && path != [] &&
    ((path[0].key == AP && Loose(j.fields)) ||
     (Below(j.fields, path[0]).Some? && Dropped(Below(j.fields, path[0]).value, path[1..])))
  }

  lemma StripBelow(fields: map<string, Json>, s: Step)
    ensures Below(Strip(Obj(fields)).fields, s) ==
      if !Kept(fields, s.key) || Below(fields, s).None? then None else Some(Strip(Below(fields, s).value))
  {
    var after := Strip(Obj(fields)).fields;
    if Kept(fields, s.key) {
      assert after[s.key] == StripValue(fields[s.key]);
    }
  }

  /** The stripped schema has an object exactly where the original had one off the dropped
      properties, and it is that object stripped. */
  lemma {:induction false} StripAt(j: Json, path: seq<Step>)
    ensures At(Strip(j), path) ==
      if Dropped(j, path) || At(j, path).None? then None else Some(Strip(At(j, path).value))
    decreases path
  {
    if j.Obj? && path != [] {
      StripBelow(j.fields, path[0]);
      if Kept(j.fields, path[0].key) && Below(j.fields, path[0]).Some? {
        StripAt(Below(j.fields, path[0]).value, path[1..]);
      }
    }
  }

  lemma {:induction false} AtIsObject(j: Json, path: seq<Step>)
    ensures At(j, path).Some? ==> At(j, path).value.Obj?
    decreases path
  {
    if j.Obj? && path != [] && Below(j.fields, path[0]).Some? {
      AtIsObject(Below(j.fields, path[0]).value, path[1..]);
    }
  }

  lemma ListsKeepTheirOtherElements(v: Json)
    ensures v.Arr? ==> StripValue(v).Arr? && |StripValue(v).items| == |v.items|
    ensures v.Arr? ==> forall i :: 0 <= i < |v.items| && !v.items[i].Obj? ==> StripValue(v).items[i] == v.items[i]
    ensures !v.Arr? && !v.Obj? ==> StripValue(v) == v
  {
  }

  /** In each object only a loose `additionalProperties` goes; values that are neither objects nor
      lists stay, lists keep their length, and their elements that are not objects stay. */
  lemma NothingElseChanges(fields: map<string, Json>)
    ensures var after := Strip(Obj(fields)).fields;
      && after.Keys == fields.Keys -
        (if "additionalProperties" in fields && fields["additionalProperties"] != Bool(false)
         then {"additionalProperties"} else {})
      && (forall k :: k in after && !fields[k].Obj? && !fields[k].Arr? ==> after[k] == fields[k])
      && (forall k :: k in after && fields[k].Arr? ==> after[k].Arr? && |after[k].items| == |fields[k].items|)
      && (forall k, i :: k in after && fields[k].Arr? && 0 <= i < |fields[k].items| && !fields[k].items[i].Obj? ==>
          after[k].items[i] == fields[k].items[i])
      && !Loose(after)
  {
    var after := Strip(Obj(fields)).fields;
    forall k
      ensures k in after <==> Kept(fields, k)
      ensures k in after ==> after[k] == StripValue(fields[k])
      ensures k in after && !fields[k].Obj? && !fields[k].Arr? ==> after[k] == fields[k]
      ensures k in after && fields[k].Arr? ==> after[k].Arr? && |after[k].items| == |fields[k].items|
    {
      if k in after {
        ListsKeepTheirOtherElements(fields[k]);
      }
    }
    forall k, i | k in after && fields[k].Arr? && 0 <= i < |fields[k].items| && !fields[k].items[i].Obj?
      ensures after[k].Arr? && |after[k].items| == |fields[k].items| && after[k].items[i] == fields[k].items[i]
    {
      ListsKeepTheirOtherElements(fields[k]);
    }
  }

  /** No object the recursion can reach keeps an `additionalProperties` other than False. */
  lemma NoLooseObjectRemains(j: Json, path: seq<Step>)
    ensures At(Strip(j), path).Some? ==> At(Strip(j), path).value.Obj? && !Loose(At(Strip(j), path).value.fields)
  {
    StripAt(j, path);
    AtIsObject(j, path);
    if At(Strip(j), path).Some? {
      NothingElseChanges(At(j, path).value.fields);
    }
  }

  // ---- Fixpoints ----

  /** Nothing the recursion reaches is loose. */
  ghost predicate Clean(j: Json)
    decreases j, 0
  {
    j.Obj? ==> !Loose(j.fields) && forall k :: k in j.fields ==> CleanValue(j.fields[k])
  }

  ghost predicate CleanValue(v: Json)
    decreases v, 1
  {
    if v.Arr? then forall i :: 0 <= i < |v.items| ==> Clean(v.items[i]) else Clean(v)
  }

  lemma {:induction false} StripIsClean(j: Json)
    ensures Clean(Strip(j))
    decreases j, 0
  {
    if j.Obj? {
      NothingElseChanges(j.fields);
      forall k | k in Strip(j).fields
        ensures CleanValue(Strip(j).fields[k])
      {
        StripValueIsClean(j.fields[k]);
      }
    }
  }

  lemma {:induction false} StripValueIsClean(v: Json)
    ensures CleanValue(StripValue(v))
    decreases v, 1
  {
    if v.Arr? {
      forall i | 0 <= i < |v.items|
        ensures Clean(Strip(v.items[i]))
      {
        StripIsClean(v.items[i]);
      }
    } else {
      StripIsClean(v);
    }
  }

  lemma {:induction false} CleanIsFixed(j: Json)
    requires Clean(j)
    ensures Strip(j) == j
    decreases j, 0
  {
    if j.Obj? {
      forall k | k in j.fields
        ensures StripValue(j.fields[k]) == j.fields[k]
      {
        CleanValueIsFixed(j.fields[k]);
      }
      assert Strip(j).fields == j.fields;
    }
  }

  lemma {:induction false} CleanValueIsFixed(v: Json)
    requires CleanValue(v)
    ensures StripValue(v) == v
    decreases v, 1
  {
    if v.Arr? {
      forall i | 0 <= i < |v.items|
        ensures Strip(v.items[i]) == v.items[i]
      {
        CleanIsFixed(v.items[i]);
      }
      assert StripValue(v).items == v.items;
    } else {
      CleanIsFixed(v);
    }
  }

  /** Stripping changes nothing exactly when nothing reachable is loose, and so stripping twice is
      stripping once. */
  lemma StripIdempotent(j: Json)
    ensures Strip(j) == j <==> Clean(j)
    ensures Strip(Strip(j)) == Strip(j)
  {
    StripIsClean(j);
    CleanIsFixed(Strip(j));
    if Clean(j) {
      CleanIsFixed(j);
    }
  }

  // ---- Lists inside lists ----

  /** No object anywhere in the value, at any depth of lists, is loose. */
  ghost predicate CleanThroughout(v: Json) {
    match v
    case Obj(fields) => !Loose(fields) && forall k :: k in fields ==> CleanThroughout(fields[k])
    case Arr(items) => forall i :: 0 <= i < |items| ==> CleanThroughout(items[i])
    case _ => true
  }

  /** Off the dropped properties, lists directly inside lists hold nothing loose to begin with. */
  ghost predicate NestedListsClean(j: Json)
    decreases j, 0
  {
    j.Obj? ==> forall k :: Kept(j.fields, k) ==> NestedListsCleanIn(j.fields[k])
  }

  ghost predicate NestedListsCleanIn(v: Json)
    decreases v, 1
  {
    if v.Arr? then forall i :: 0 <= i < |v.items| ==>
      if v.items[i].Arr? then CleanThroughout(v.items[i]) else NestedListsClean(v.items[i])
    else NestedListsClean(v)
  }

  /** Every `additionalProperties` that is not False is gone from a schema object exactly when no
      list inside a list hides one. */
  lemma {:induction false} CleanThroughoutExactly(j: Json)
    requires !j.Arr?
    ensures CleanThroughout(Strip(j)) <==> NestedListsClean(j)
    decreases j, 0
  {
    if j.Obj? {
      NothingElseChanges(j.fields);
      forall k | k in Strip(j).fields
        ensures CleanThroughout(Strip(j).fields[k]) <==> NestedListsCleanIn(j.fields[k])
      {
        CleanThroughoutValue(j.fields[k]);
      }
      assert forall k :: Kept(j.fields, k) <==> k in Strip(j).fields;
    }
  }

  lemma {:induction false} CleanThroughoutValue(v: Json)
    ensures CleanThroughout(StripValue(v)) <==> NestedListsCleanIn(v)
    decreases v, 1
  {
    if v.Arr? {
      forall i | 0 <= i < |v.items|
        ensures CleanThroughout(Strip(v.items[i])) <==>
          if v.items[i].Arr? then CleanThroughout(v.items[i]) else NestedListsClean(v.items[i])
      {
        if !v.items[i].Arr? {
          CleanThroughoutExactly(v.items[i]);
        }
      }
      var stripped := StripValue(v).items;
      assert forall i :: 0 <= i < |stripped| ==> stripped[i] == Strip(v.items[i]);
    } else {
      CleanThroughoutExactly(v);
    }
  }

  /** An open object two lists down survives. */
  lemma NestedListSurvives()
    ensures var open := Obj(map[AP := Bool(true)]);
      var schema := Obj(map["anyOf" := Arr([Arr([open])])]);
      Strip(schema) == schema && !CleanThroughout(Strip(schema))
  {
    var open := Obj(map[AP := Bool(true)]);
    var inner := Arr([open]);
    var v := Arr([inner]);
    assert !CleanThroughout(open) && inner.items[0] == open;
    assert !CleanThroughout(inner) && v.items[0] == inner;
    assert !CleanThroughout(v);
    assert Clean(inner);
    assert CleanValue(v) by {
      assert forall i :: 0 <= i < |v.items| ==> v.items[i] == inner;
    }
    var schema := Obj(map["anyOf" := v]);
    assert schema.fields["anyOf"] == v;
    assert Clean(schema);
    CleanIsFixed(schema);
  }
}

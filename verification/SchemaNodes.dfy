/** python/src/apx_agent/_agent_tool.py, _strip_additional_properties on the dictionaries themselves:
    the recursion deletes keys in place, in a tree of nodes no two of which share a descendant. */
module SchemaNodes {
  import opened Wrappers
  import opened SchemaSanitizer

  /** A field's value: a nested dictionary, a list, or anything else. */
  datatype Value = Leaf(json: Json) | Ref(node: Node) | List(items: seq<Item>)

  /** A list element: a dictionary, or anything else, nested lists included. */
  datatype Item = Other(json: Json) | Dict(node: Node)

  /** The node one step below, for the same steps as in the value model. */
  function Child(fields: map<string, Value>, s: Step): Option<Node> {
    if s.key !in fields then None
    else match s
      case Field(k) => if fields[k].Ref? then Some(fields[k].node) else None
      case Element(k, i) =>
        if fields[k].List? && i < |fields[k].items| && fields[k].items[i].Dict? then Some(fields[k].items[i].node) else None
  }

  /** `v` has the shape of `j`, leaving open what the nodes below it hold. */
  predicate HasShape(v: Value, j: Json) {
    match v
    case Leaf(a) => j == a && !a.Obj? && !a.Arr?
    case Ref(_) => j.Obj?
    case List(items) =>
      && j.Arr? && |j.items| == |items|
      && forall i :: 0 <= i < |items| ==>
        if items[i].Dict? then j.items[i].Obj? else j.items[i] == items[i].json && !j.items[i].Obj?
  }

  ghost predicate Shape(fields: map<string, Value>, j: map<string, Json>) {
    fields.Keys == j.Keys && forall k :: k in fields ==> HasShape(fields[k], j[k])
  }

  lemma StrippedHasShape(v: Value, j: Json)
    requires HasShape(v, j)
    ensures HasShape(v, StripValue(j))
  {
    ListsKeepTheirOtherElements(j);
    if v.List? {
      forall i | 0 <= i < |v.items|
        ensures if v.items[i].Dict? then StripValue(j).items[i].Obj?
                else StripValue(j).items[i] == v.items[i].json && !StripValue(j).items[i].Obj?
      {
        assert StripValue(j).items[i] == Strip(j.items[i]);
      }
    }
  }

  lemma ShapeOfStripped(fields: map<string, Value>, j: map<string, Json>, before: map<string, Json>)
    requires Shape(fields, j) && j == map k | k in before && Kept(before, k) :: before[k]
    ensures Shape(fields, Strip(Obj(before)).fields)
  {
    NothingElseChanges(before);
    forall k | k in fields
      ensures HasShape(fields[k], Strip(Obj(before)).fields[k])
    {
      assert HasShape(fields[k], j[k]);
      StrippedHasShape(fields[k], before[k]);
      assert Strip(Obj(before)).fields[k] == StripValue(before[k]);
    }
  }

  /** A value stands for a JSON value: dictionaries for their objects, lists element by element. */
  ghost predicate StandsFor(v: Value, j: Json)
    reads match v case Ref(n) => {n} case List(items) => (set x | x in items && x.Dict? :: x.node) case _ => {}
  {
    match v
    case Leaf(a) => j == a && !a.Obj? && !a.Arr?
    case Ref(n) => j == n.tree && j.Obj?
    case List(items) =>
      && j.Arr? && |j.items| == |items|
      && forall i :: 0 <= i < |items| ==>
        match items[i]
        case Dict(n) => j.items[i] == n.tree && n.tree.Obj?
        case Other(a) => j.items[i] == a && !a.Obj?
  }

  lemma ChildStands(fields: map<string, Value>, parts: map<string, Json>, s: Step)
    requires Child(fields, s).Some? && s.key in parts && StandsFor(fields[s.key], parts[s.key])
    ensures Below(parts, s) == Some(Child(fields, s).value.tree)
  {
  }

  lemma PartsShape(fields: map<string, Value>, parts: map<string, Json>)
    requires fields.Keys == parts.Keys && forall k :: k in fields ==> StandsFor(fields[k], parts[k])
    ensures Shape(fields, parts)
  {
  }

  class Node {
    var fields: map<string, Value>
    ghost var repr: set<Node>
    ghost var tree: Json  // the JSON object this node stands for

    /** The nodes below are well formed, inside this node's footprint, and share nothing. */
    ghost predicate KidsInPlace()
      reads this, repr
      decreases repr, 0
    {
      && this in repr
      && (forall s :: Child(fields, s).Some? ==>
        var c := Child(fields, s).value;
        c in repr && c.repr <= repr && this !in c.repr && c.Valid())
      && (forall s, t :: s != t && Child(fields, s).Some? && Child(fields, t).Some? ==>
        Child(fields, s).value.repr !! Child(fields, t).value.repr)
    }

    ghost predicate Valid()
      reads this, repr
      ensures Valid() ==> this in repr
      decreases repr, 2
    {
      && KidsInPlace() && tree.Obj? && Shape(fields, tree.fields)
      && KidsHold(tree.fields, fields.Keys, "", 0)
    }

    /** Below key `k` up to element `i`, and below every key not in `todo`, the children of `j` are
        already stripped; the others are as they were. */
    ghost predicate KidsHold(j: map<string, Json>, todo: set<string>, k: string, i: nat)
      requires KidsInPlace()
      reads this, repr
      decreases repr, 1
    {
      forall s :: Child(fields, s).Some? ==>
        Below(j, s).Some? && Child(fields, s).value.tree ==
          if s.key in todo && !(s.key == k && s.Element? && s.index < i) then Below(j, s).value
          else Strip(Below(j, s).value)
    }

    /** A dictionary made of scalars, lists and dictionaries that share nothing stands for the object
        of what they stand for. */
    constructor (fields: map<string, Value>, ghost parts: map<string, Json>)
      requires fields.Keys == parts.Keys && forall k :: k in fields ==> StandsFor(fields[k], parts[k])
      requires forall s :: Child(fields, s).Some? ==> Child(fields, s).value.Valid()
      requires forall s, t :: s != t && Child(fields, s).Some? && Child(fields, t).Some? ==>
        Child(fields, s).value.repr !! Child(fields, t).value.repr
      ensures Valid() && tree == Obj(parts)
    {
      this.fields := fields;
      tree := Obj(parts);
      repr := {this} + (set k, n | k in fields && fields[k].Ref? && n in fields[k].node.repr :: n)
        + (set k, x, n | k in fields && fields[k].List? && x in fields[k].items && x.Dict? && n in x.node.repr :: n);
      new;
      PartsShape(fields, parts);
      forall s | Child(fields, s).Some?
        ensures var c := Child(fields, s).value;
          c in repr && c.repr <= repr && c.Valid() && Below(parts, s) == Some(c.tree)
      {
        var c := Child(fields, s).value;
        ChildStands(fields, parts, s);
        if s.Element? {
          assert fields[s.key].items[s.index] in fields[s.key].items;
        }
      }
    }

    /** Recurses into one child, leaving its siblings alone. */
    method StripKid(ghost s: Step, c: Node)
      requires KidsInPlace() && Child(fields, s) == Some(c)
      modifies c.repr
      ensures KidsInPlace() && c.tree == Strip(old(c.tree))
      ensures forall t :: t != s && Child(fields, t).Some? ==>
        Child(fields, t).value.tree == old(Child(fields, t).value.tree)
      decreases repr, 0
    {
      assert c.repr < repr;
      forall t | t != s && Child(fields, t).Some?
        ensures var d := Child(fields, t).value; d in d.repr && d.repr !! c.repr
      {
        assert Child(fields, t).value.Valid();
      }
      c.StripInPlace();
      forall t | t != s && Child(fields, t).Some?
        ensures var d := Child(fields, t).value; d.Valid() && d.repr == old(d.repr) && d.tree == old(d.tree)
      {
      }
    }

    /** Deletes a loose `additionalProperties`; the subtree below it is dropped with it. */
    method DropLoose()
      requires Valid()
      modifies this
      ensures Valid() && repr == old(repr)
      ensures tree == Obj(map k | k in old(tree).fields && Kept(old(tree).fields, k) :: old(tree).fields[k])
    {
      if AP in fields && fields[AP] != Leaf(Bool(false)) {
        assert HasShape(fields[AP], tree.fields[AP]);
        ghost var before := fields;
        fields := fields - {AP};
        tree := Obj(tree.fields - {AP});
        forall s | Child(fields, s).Some?
          ensures Child(before, s) == Child(fields, s) && Below(tree.fields, s) == Below(old(tree).fields, s)
          ensures Child(fields, s).value.Valid()
        {
        }
      }
    }

    method StripItems(k: string, ghost j: map<string, Json>, ghost todo: set<string>)
      requires KidsInPlace() && k in todo && k in fields && fields[k].List? && KidsHold(j, todo, k, 0)
      modifies repr - {this}
      ensures KidsInPlace() && KidsHold(j, todo - {k}, k, 0)
      decreases repr, 1
    {
      var items := fields[k].items;
      for i := 0 to |items|
        invariant KidsInPlace() && KidsHold(j, todo, k, i)
      {
        if items[i].Dict? {
          StripKid(Element(k, i), items[i].node);
        }
      }
    }

    method StripKids(ghost j: map<string, Json>)
      requires KidsInPlace() && KidsHold(j, fields.Keys, "", 0)
      modifies repr - {this}
      ensures KidsInPlace() && KidsHold(j, {}, "", 0)
      decreases repr, 2
    {
      var todo := fields.Keys;
      while todo != {}
        invariant todo <= fields.Keys
        invariant KidsInPlace() && KidsHold(j, todo, "", 0)
        decreases todo
      {
        var k :| k in todo;
        if fields[k].Ref? {
          StripKid(Field(k), fields[k].node);
        } else if fields[k].List? {
          StripItems(k, j, todo);
        }
        todo := todo - {k};
      }
    }

    /** With every child stripped, the node stands for the stripped object. */
    ghost method Record(before: map<string, Json>, j: map<string, Json>)
      requires j == map k | k in before && Kept(before, k) :: before[k]
      requires Shape(fields, j) && KidsInPlace() && KidsHold(j, {}, "", 0)
      modifies this`tree
      ensures Valid() && tree == Strip(Obj(before))
    {
      ShapeOfStripped(fields, j, before);
      forall s | Child(fields, s).Some?
        ensures Below(Strip(Obj(before)).fields, s) == Some(Child(fields, s).value.tree)
      {
        StripBelow(before, s);
      }
      tree := Strip(Obj(before));
      forall s | Child(fields, s).Some?
        ensures Child(fields, s).value.Valid()
      {
      }
    }

    /** In place, the node comes to stand for its object stripped; no node is added to the tree. */
    method StripInPlace()
      requires Valid()
      modifies repr
      ensures Valid() && repr == old(repr)
      ensures tree == Strip(old(tree))
      decreases repr, 3
    {
      DropLoose();
      ghost var j := tree.fields;
      StripKids(j);
      Record(old(tree.fields), j);
    }
  }
}

/** Worked examples: the costs the repository's tests expect, derived from
    the general properties. */
module CostVisitorExamples {
  import opened CostSpec
  import opened QueryAst
  import opened CostVisitor
  import opened CostVisitorProperties

  function Leaf(name: string): Selection {
    Field(name, [], map[], NoSelectionSet)
  }

  function Node(name: string, children: seq<Selection>): Selection {
    Field(name, [], map[], SelectionSet(children))
  }

  /** A schema that defines no types. */
  const NoTypes: Schema := Schema(map[], None, None, None)

  /** No types, no cost table, default cost 1, no fragments. */
  const Plain: Env := Env(NoTypes, map[], 1, map[])

  /** Without fragment definitions every selection list meets any bound. */
  lemma {:induction false} NoFragmentsNoBound(sels: seq<Selection>, bound: nat)
    ensures SpreadsBelow(map[], map[], bound, sels)
    decreases sels
  {
    forall i | 0 <= i < |sels|
      ensures SpreadBelow(map[], map[], bound, sels[i])
    {
      match sels[i]
      case Field(_, _, _, NoSelectionSet) =>
      case Field(_, _, _, SelectionSet(ss)) => NoFragmentsNoBound(ss, bound);
      case InlineFragment(_, ss) => NoFragmentsNoBound(ss, bound);
      case FragmentSpread(_) =>
    }
  }

  /** A lone field with a selection set and no cost entry costs 1 plus its
      children, times its recursion penalty. */
  lemma PlainNode(name: string, children: seq<Selection>, path: seq<string>, childCost: int)
    requires SpreadsBelow(map[], map[], 0, children)
    requires SelectionsCost(Plain, children, None, 0, DefaultRecursionMultiplier, path + [name], map[], 0) == Ok(childCost)
    ensures SpreadsBelow(map[], map[], 0, [Node(name, children)])
    ensures SelectionsCost(Plain, [Node(name, children)], None, 0, DefaultRecursionMultiplier, path, map[], 0)
         == Ok((1 + childCost) * RecursionFactor(name, path, DefaultRecursionMultiplier))
  {
    var n := Node(name, children);
    NoFragmentsNoBound([n], 0);
    assert SpreadBelow(map[], map[], 0, [n][0]);
    var props := FieldCostProps(map[], 1, None, name);
    assert props == DefaultCostProps(1);
    assert GetFieldInfo(NoTypes, None, name, map[]).fieldType == None;
    assert OnlyAvailableFields(Plain, n, props.provided, map[], 0) == Ok(false);
    assert ComputeFieldCost(props, OwnMultiplier([], [], None), 0) == (1, 0);
    assert BuildFullPath(path, Some(name)) == path + [name];
    assert FieldTotal(Plain, n, props, None, 0, DefaultRecursionMultiplier, path, map[], 0)
        == Ok((1 + childCost) * RecursionFactor(name, path, DefaultRecursionMultiplier));
    LoneField(Plain, n, None, 0, DefaultRecursionMultiplier, path, map[], 0);
  }

  /** Below `queryDeals.pipeline.deals`: the repeated `pipeline { id }`
      costs (1 + 1) times 100. */
  lemma InnerPipelineCost()
    ensures SpreadsBelow(map[], map[], 0, [Node("pipeline", [Leaf("id")])])
    ensures SelectionsCost(Plain, [Node("pipeline", [Leaf("id")])], None, 0, DefaultRecursionMultiplier,
                           ["queryDeals", "pipeline", "deals"], map[], 0) == Ok(200)
  {
    var p3 := ["queryDeals", "pipeline", "deals"];
    var leaf := [Leaf("id")];
    NoFragmentsNoBound(leaf, 0);
    assert PlainSelections(leaf, p3 + ["pipeline"]);
    DefaultCostCountsFields(Plain, leaf, None, 0, 100, p3 + ["pipeline"], map[], 0);
    assert FieldCount(leaf) == 1;
    var p2 := ["queryDeals", "pipeline"];
    var p1 := ["queryDeals"];
    assert p2 + ["deals"] == p3 && p1 + ["pipeline"] == p2;
    RecursionExtend("pipeline", "deals", p2, 100);
    RecursionExtend("pipeline", "pipeline", p1, 100);
    NoRecursionWithoutRepeat("pipeline", p1, 100);
    PlainNode("pipeline", leaf, p3, 1);
  }

  /** `queryDeals { pipeline { deals { pipeline { id } } } }` with no cost
      table: the inner `pipeline` repeats an ancestor's name once, so it and
      its child cost 100 times 2, and the whole query 203. */
  lemma RecursionExample()
    ensures var sels := [Node("queryDeals", [Node("pipeline", [Node("deals", [Node("pipeline", [Leaf("id")])])])])];
      SpreadsBelow(map[], map[], 0, sels)
      && SelectionsCost(Plain, sels, None, 0, DefaultRecursionMultiplier, [], map[], 0) == Ok(203)
  {
    var p1 := ["queryDeals"];
    var p2 := ["queryDeals", "pipeline"];
    assert [] + ["queryDeals"] == p1 && p1 + ["pipeline"] == p2;
    assert p2 + ["deals"] == ["queryDeals", "pipeline", "deals"];
    NoRecursionWithoutRepeat("deals", p2, 100);
    NoRecursionWithoutRepeat("pipeline", p1, 100);
    NoRecursionWithoutRepeat("queryDeals", [], 100);
    InnerPipelineCost();
    var inner := [Node("pipeline", [Leaf("id")])];
    PlainNode("deals", inner, p2, 200);
    var deals := [Node("deals", inner)];
    PlainNode("pipeline", deals, p1, 201);
    var pipeline := [Node("pipeline", deals)];
    PlainNode("queryDeals", pipeline, [], 202);
  }

  /** `query { field(limit: $limit, arrayLimit: $arrayLimit) }` with
      `limit` bound to 8 and `arrayLimit` to a two-element list, and
      `Query.field` of complexity 4 with both arguments as multipliers: 4
      times (8 + 2). */
  lemma MultiplierExample()
    ensures var schema := Schema(map["Query" := TypeDefinition(true, map["field" := "String"])], Some("Query"), None, None);
      var table := map["Query" := map["field" := CostEntry(Some(4), Some([MName("limit"), MName("arrayLimit")]),
                                                           None, None, None, None)]];
      var f := Field("field", [Argument("limit", OtherLiteral), Argument("arrayLimit", OtherLiteral)],
                     map["limit" := IntArg(8), "arrayLimit" := ListArg(2)], NoSelectionSet);
      && Acyclic(map[], map[], 0)
      && OperationCost(Env(schema, table, 1, map[]), OperationDefinition("query", None, [f]), map[], 0) == Ok(40)
  {
    var schema := Schema(map["Query" := TypeDefinition(true, map["field" := "String"])], Some("Query"), None, None);
    var ms := [MName("limit"), MName("arrayLimit")];
    var table := map["Query" := map["field" := CostEntry(Some(4), Some(ms), None, None, None, None)]];
    var args := [Argument("limit", OtherLiteral), Argument("arrayLimit", OtherLiteral)];
    var values := map["limit" := IntArg(8), "arrayLimit" := ListArg(2)];
    var f := Field("field", args, values, NoSelectionSet);
    var env := Env(schema, table, 1, map[]);
    NoFragmentsNoBound([f], 0);
    var props := FieldCostProps(table, 1, Some("Query"), "field");
    assert props == CostProps(4, ms, true, [], 0, None);
    assert GetFieldInfo(schema, Some("Query"), "field", values).argumentValues == Some(values);
    OwnMultiplierIsSum(ms, args, Some(values));
    assert args[..1] == [args[0]] && args[..1][..0] == [];
    assert ArgumentMultiplier("limit", args, Some(values)) == Some(8);
    assert ArgumentMultiplier("arrayLimit", args, Some(values)) == Some(2);
    assert ms[..1] == [ms[0]] && ms[..1][..0] == [];
    assert ContributionSum(ms, args, Some(values)) == 10;
    assert OnlyAvailableFields(env, f, [], map[], 0) == Ok(false);
    assert ComputeFieldCost(props, 10, 0) == (40, 10);
    assert [f][1..] == [];
    assert SelectionsCost(env, [f], Some("Query"), 0, DefaultRecursionMultiplier, [], map[], 0) == Ok(40);
  }

  /** `query RRR { ...fragment }` with `fragment fragment on FFF { field }`,
      where the schema has no type `FFF` and `Query.field` has complexity 4:
      the field is looked up under "null" and costs the default 1. */
  lemma FragmentOnUnknownTypeExample()
    ensures var schema := Schema(map["Query" := TypeDefinition(true, map["field" := "String"])], Some("Query"), None, None);
      var table := map["Query" := map["field" := CostEntry(Some(4), None, None, None, None, None)]];
      var frags := map["fragment" := FragmentDefinition("FFF", [Leaf("field")])];
      var doc := Document([OperationDefinition("query", Some("RRR"), [FragmentSpread("fragment")])], frags);
      var rank := map["fragment" := 0];
      && Acyclic(frags, rank, 1)
      && DocumentCost(schema, table, 1, doc, rank, 1) == Ok(1)
  {
    var schema := Schema(map["Query" := TypeDefinition(true, map["field" := "String"])], Some("Query"), None, None);
    var table := map["Query" := map["field" := CostEntry(Some(4), None, None, None, None, None)]];
    var body := [Leaf("field")];
    var frags := map["fragment" := FragmentDefinition("FFF", body)];
    var rank := map["fragment" := 0];
    NoFragmentsNoBound(body, 0);
    assert SpreadsBelow(frags, rank, 0, body) by {
      assert SpreadBelow(frags, rank, 0, body[0]);
    }
    assert Acyclic(frags, rank, 1);
    var env := Env(schema, table, 1, frags);
    var op := OperationDefinition("query", Some("RRR"), [FragmentSpread("fragment")]);
    assert TypeNamed(schema, "FFF") == None;
    var props := FieldCostProps(table, 1, None, "field");
    assert props == DefaultCostProps(1);
    assert OnlyAvailableFields(env, body[0], [], rank, 0) == Ok(false);
    assert ComputeFieldCost(props, OwnMultiplier([], [], None), 0) == (1, 0);
    assert body[1..] == [];
    assert SelectionsCost(env, body, None, 0, DefaultRecursionMultiplier, ["RRR", "fragment"], rank, 0) == Ok(1);
    assert BuildFullPath([], Some("RRR")) == ["RRR"] && BuildFullPath(["RRR"], Some("fragment")) == ["RRR", "fragment"];
    assert [FragmentSpread("fragment")][1..] == [];
    SpreadsBelowTop(frags, rank, 1, op.selections);
    assert OperationCost(env, op, rank, 1) == Ok(1);
    assert [op][1..] == [];
  }

  /** A one-field selection list without a recursion-base override costs
      what the field does. */
  lemma LoneField(env: Env, f: Selection, parentType: Option<string>, parentMultiplier: int,
                  recursionMultiplier: int, path: seq<string>, rank: map<string, nat>, bound: nat)
    requires f.Field? && Ranked(env.fragments, rank) && SpreadBelow(env.fragments, rank, bound, f)
    requires FieldCostProps(env.costMap, env.defaultCost, parentType, f.name).recursionMultiplier.None?
    requires FieldTotal(env, f, FieldCostProps(env.costMap, env.defaultCost, parentType, f.name), parentType,
                        parentMultiplier, recursionMultiplier, path, rank, bound).Ok?
    ensures SpreadsBelow(env.fragments, rank, bound, [f])
    ensures SelectionsCost(env, [f], parentType, parentMultiplier, recursionMultiplier, path, rank, bound)
         == FieldTotal(env, f, FieldCostProps(env.costMap, env.defaultCost, parentType, f.name), parentType,
                       parentMultiplier, recursionMultiplier, path, rank, bound)
  {
    assert [f][0] == f && [f][1..] == [];
  }

  /** A one-field selection list whose field sets a non-zero recursion
      base costs what the field does under that base. */
  lemma LoneOverride(env: Env, f: Selection, parentType: Option<string>, parentMultiplier: int,
                     recursionMultiplier: int, path: seq<string>, rank: map<string, nat>, bound: nat)
    requires f.Field? && Ranked(env.fragments, rank) && SpreadBelow(env.fragments, rank, bound, f)
    requires var m := FieldCostProps(env.costMap, env.defaultCost, parentType, f.name).recursionMultiplier;
      m.Some? && m.value != 0
    requires var props := FieldCostProps(env.costMap, env.defaultCost, parentType, f.name);
      FieldTotal(env, f, props, parentType, parentMultiplier, props.recursionMultiplier.value, path, rank, bound).Ok?
    ensures SpreadsBelow(env.fragments, rank, bound, [f])
    ensures var props := FieldCostProps(env.costMap, env.defaultCost, parentType, f.name);
      SelectionsCost(env, [f], parentType, parentMultiplier, recursionMultiplier, path, rank, bound)
      == FieldTotal(env, f, props, parentType, parentMultiplier, props.recursionMultiplier.value, path, rank, bound)
  {
    assert [f][0] == f && [f][1..] == [];
    RecursionOverride(env, f, parentType, parentMultiplier, recursionMultiplier, recursionMultiplier, path, rank, bound);
  }

  const ChildSchema: Schema :=
    Schema(map["Query" := TypeDefinition(true, map["field" := "Child"]),
               "Child" := TypeDefinition(true, map["grandChild" := "GrandChild"]),
               "GrandChild" := TypeDefinition(true, map["existing" := "String", "external" := "String"])],
           Some("Query"), None, None)

  /** `Query.field` has complexity 3 with `limit` as multiplier;
      `Child.grandChild` has complexity 4 and provides `existing`. */
  const ProvidesTable: CostTable :=
    map["Query" := map["field" := CostEntry(Some(3), Some([MName("limit")]), None, None, None, None)],
        "Child" := map["grandChild" := CostEntry(Some(4), None, None, Some(["existing"]), None, None)]]

  const ProvidesEnv: Env := Env(ChildSchema, ProvidesTable, 1, map[])

  const Existing: seq<Selection> := [Leaf("existing")]

  const GrandChild: Selection := Node("grandChild", Existing)

  const LimitField: Selection :=
    Field("field", [Argument("limit", IntLiteral(7))], map["limit" := IntArg(7)], SelectionSet([GrandChild]))

  /** The cost properties the table gives the three fields. */
  lemma ProvidesProps()
    ensures FieldCostProps(ProvidesTable, 1, Some("Query"), "field") == CostProps(3, [MName("limit")], true, [], 0, None)
    ensures FieldCostProps(ProvidesTable, 1, Some("Child"), "grandChild") == CostProps(4, [], true, ["existing"], 0, None)
    ensures FieldCostProps(ProvidesTable, 1, Some("GrandChild"), "existing") == DefaultCostProps(1)
  {
    assert "GrandChild" != "Query" && "GrandChild" != "Child";
  }

  /** The schema types of `field` and `grandChild`. */
  lemma ChildSchemaFields()
    ensures GetFieldInfo(ChildSchema, Some("Query"), "field", LimitField.argumentValues)
         == FieldInfo(Some("Child"), Some(LimitField.argumentValues))
    ensures GetFieldInfo(ChildSchema, Some("Child"), "grandChild", map[]).fieldType == Some("GrandChild")
  {
    assert TypeFields(ChildSchema, Some("Query")) == map["field" := "Child"];
    assert TypeFields(ChildSchema, Some("Child")) == map["grandChild" := "GrandChild"];
  }

  lemma ExistingCost()
    ensures SpreadsBelow(map[], map[], 0, Existing)
    ensures SelectionsCost(ProvidesEnv, Existing, Some("GrandChild"), 7, 100, ["field", "grandChild"], map[], 0) == Ok(1)
  {
    NoFragmentsNoBound(Existing, 0);
    ProvidesProps();
    var pe := FieldCostProps(ProvidesTable, 1, Some("GrandChild"), "existing");
    assert OnlyAvailableFields(ProvidesEnv, Existing[0], [], map[], 0) == Ok(false);
    assert ComputeFieldCost(pe, 0, 7) == (1, 0);
    assert Existing[1..] == [];
  }

  /** `existing` and `__typename` cover the selection of `grandChild`. */
  lemma GrandChildElided()
    ensures SpreadBelow(map[], map[], 0, GrandChild)
    ensures OnlyAvailableFields(ProvidesEnv, GrandChild, ["existing"], map[], 0) == Ok(true)
  {
    NoFragmentsNoBound([GrandChild], 0);
    assert SpreadBelow(map[], map[], 0, [GrandChild][0]);
    var available := (set p | p in ["existing"]) + {"__typename"};
    assert "existing" in available;
    assert Covered(map[], Existing, available, map[], 0) by {
      assert SelectionCovered(map[], Existing[0], available, map[], 0);
    }
    ElidedIff(ProvidesEnv, GrandChild, ["existing"], map[], 0);
  }

  /** Every selection of `grandChild` is provided, so it costs 1 and its
      child sees the parent multiplier 7. */
  lemma GrandChildCost()
    ensures SpreadsBelow(map[], map[], 0, [GrandChild])
    ensures SelectionsCost(ProvidesEnv, [GrandChild], Some("Child"), 7, 100, ["field"], map[], 0) == Ok(2)
  {
    assert ["field"] + ["grandChild"] == ["field", "grandChild"];
    NoRecursionWithoutRepeat("grandChild", ["field"], 100);
    GrandChildElided();
    ExistingCost();
    ProvidesProps();
    ChildSchemaFields();
    var pg := FieldCostProps(ProvidesTable, 1, Some("Child"), "grandChild");
    ElidedFieldCost(ProvidesEnv, GrandChild, pg, Some("Child"), 7, 100, ["field"], map[], 0);
    LoneField(ProvidesEnv, GrandChild, Some("Child"), 7, 100, ["field"], map[], 0);
  }

  /** The literal `limit: 7` makes the field's own multiplier 7. */
  lemma LimitMultiplier()
    ensures OwnMultiplier([MName("limit")], LimitField.arguments, Some(LimitField.argumentValues)) == 7
  {
    var args := LimitField.arguments;
    var values := LimitField.argumentValues;
    OwnMultiplierIsSum([MName("limit")], args, Some(values));
    assert [MName("limit")][..0] == [];
    assert ArgumentMultiplier("limit", args, Some(values)) == Some(7);
  }

  lemma LimitFieldTotal()
    ensures SpreadBelow(map[], map[], 0, LimitField)
    ensures FieldTotal(ProvidesEnv, LimitField, FieldCostProps(ProvidesTable, 1, Some("Query"), "field"),
                       Some("Query"), 0, 100, [], map[], 0) == Ok(23)
  {
    NoFragmentsNoBound([LimitField], 0);
    assert SpreadBelow(map[], map[], 0, [LimitField][0]);
    GrandChildCost();
    LimitMultiplier();
    ProvidesProps();
    ChildSchemaFields();
    var pf := FieldCostProps(ProvidesTable, 1, Some("Query"), "field");
    assert OnlyAvailableFields(ProvidesEnv, LimitField, [], map[], 0) == Ok(false);
    assert ComputeFieldCost(pf, 7, 0) == (21, 7);
    NoRecursionWithoutRepeat("field", [], 100);
    assert BuildFullPath([], Some("field")) == ["field"];
    CostedNode(ProvidesEnv, LimitField, pf, Some("Query"), 0, 100, [], map[], 0, 7, 2);
  }

  /** A field with a selection set that is not elided costs its own cost
      plus its children's, times its recursion penalty. */
  lemma CostedNode(env: Env, f: Selection, props: CostProps, parentType: Option<string>,
                   parentMultiplier: int, recursionMultiplier: int, path: seq<string>,
                   rank: map<string, nat>, bound: nat, own: int, childCost: int)
    requires f.Field? && f.selectionSet.SelectionSet?
    requires Ranked(env.fragments, rank) && SpreadBelow(env.fragments, rank, bound, f)
    requires OnlyAvailableFields(env, f, props.provided, rank, bound) == Ok(false)
    requires var info := GetFieldInfo(env.schema, parentType, f.name, f.argumentValues);
      own == OwnMultiplier(props.multipliers, f.arguments, info.argumentValues)
    requires var c := ComputeFieldCost(props, own, parentMultiplier);
      var info := GetFieldInfo(env.schema, parentType, f.name, f.argumentValues);
      SelectionsCost(env, f.selectionSet.selections, info.fieldType, if c.1 != 0 then c.1 else parentMultiplier,
                     recursionMultiplier, path + [f.name], rank, bound) == Ok(childCost)
    ensures FieldTotal(env, f, props, parentType, parentMultiplier, recursionMultiplier, path, rank, bound)
         == Ok((ComputeFieldCost(props, own, parentMultiplier).0 + childCost)
               * RecursionFactor(f.name, path, recursionMultiplier))
  {
  }

  /** `query { field(limit: 7) { grandChild { existing } } }`: 3 times 7 for
      `field`, 1 for the elided `grandChild`, 1 for `existing`. */
  lemma ProvidesExample()
    ensures SpreadsBelow(map[], map[], 0, [LimitField])
    ensures SelectionsCost(ProvidesEnv, [LimitField], Some("Query"), 0, DefaultRecursionMultiplier, [], map[], 0) == Ok(23)
  {
    LimitFieldTotal();
    assert FieldCostProps(ProvidesTable, 1, Some("Query"), "field").recursionMultiplier == None;
    LoneField(ProvidesEnv, LimitField, Some("Query"), 0, 100, [], map[], 0);
  }

  /** A document of one anonymous query costs what its selections cost
      under the query root type, from an empty path. */
  lemma OneQuery(schema: Schema, table: CostTable, defaultCost: int, sels: seq<Selection>, c: int)
    requires SpreadsBelow(map[], map[], 0, sels)
    requires SelectionsCost(Env(schema, table, defaultCost, map[]), sels, schema.queryType, 0,
                            DefaultRecursionMultiplier, [], map[], 0) == Ok(c)
    ensures Acyclic(map[], map[], 0)
    ensures DocumentCost(schema, table, defaultCost, Document([OperationDefinition("query", None, sels)], map[]),
                         map[], 0) == Ok(c)
  {
    var op := OperationDefinition("query", None, sels);
    var env := Env(schema, table, defaultCost, map[]);
    assert OperationTypeDefs(schema, "query") == Ok(schema.queryType);
    assert BuildFullPath([], None) == [];
    assert OperationCost(env, op, map[], 0) == Ok(c);
    assert [op][0] == op && [op][1..] == [];
    assert OperationsCost(env, [op][1..], map[], 0) == Ok(0);
    assert OperationsCost(env, [op], map[], 0) == Ok(c);
  }

  // ------------------------------------------------------------------
  // The library README's tree: a recursion-base override of 1
  // ------------------------------------------------------------------

  const TreeSchema: Schema :=
    Schema(map["Query" := TypeDefinition(true, map["myTree" := "TreeLeaf"]),
               "TreeLeaf" := TypeDefinition(true, map["id" := "ID", "leafs" := "TreeLeaf"])],
           Some("Query"), None, None)

  /** `TreeLeaf.leafs` sets the recursion base to 1 and nothing else. */
  const TreeTable: CostTable := map["TreeLeaf" := map["leafs" := CostEntry(None, None, None, None, None, Some(1))]]

  const TreeEnv: Env := Env(TreeSchema, TreeTable, 1, map[])

  /** The cost properties the table gives the tree's fields. */
  lemma TreeProps()
    ensures FieldCostProps(TreeTable, 1, Some("Query"), "myTree") == DefaultCostProps(1)
    ensures FieldCostProps(TreeTable, 1, Some("TreeLeaf"), "id") == DefaultCostProps(1)
    ensures FieldCostProps(TreeTable, 1, Some("TreeLeaf"), "leafs") == CostProps(1, [], true, [], 0, Some(1))
  {
    assert "Query" != "TreeLeaf" && "id" != "leafs";
  }

  /** Both `myTree` and `leafs` are of type `TreeLeaf`. */
  lemma TreeSchemaFields()
    ensures GetFieldInfo(TreeSchema, Some("Query"), "myTree", map[]) == FieldInfo(Some("TreeLeaf"), Some(map[]))
    ensures GetFieldInfo(TreeSchema, Some("TreeLeaf"), "leafs", map[]) == FieldInfo(Some("TreeLeaf"), Some(map[]))
  {
    assert TypeFields(TreeSchema, Some("Query")) == map["myTree" := "TreeLeaf"];
    assert TypeFields(TreeSchema, Some("TreeLeaf")) == map["id" := "ID", "leafs" := "TreeLeaf"];
  }

  /** `k` nested `leafs` around `id`. */
  function Leafs(k: nat): seq<Selection>
    decreases k
  {
    if k == 0 then [Leaf("id")] else [Node("leafs", Leafs(k - 1))]
  }

  lemma {:induction false} PowOne(e: nat)
    ensures Pow(1, e) == 1
    decreases e
  {
    if e > 0 {
      PowOne(e - 1);
    }
  }

  /** Each `leafs` costs 1, plus its children, times 1 raised to its
      repeats: the override makes the depth cost linear, whatever base the
      field inherits. */
  lemma {:induction false} LeafsCost(k: nat, base: int, path: seq<string>)
    ensures SpreadsBelow(map[], map[], 0, Leafs(k))
    ensures SelectionsCost(TreeEnv, Leafs(k), Some("TreeLeaf"), 0, base, path, map[], 0) == Ok(k + 1)
    decreases k
  {
    NoFragmentsNoBound(Leafs(k), 0);
    if k == 0 {
      var f := Leaf("id");
      assert Leafs(0) == [f];
      TreeProps();
      var props := FieldCostProps(TreeTable, 1, Some("TreeLeaf"), "id");
      assert OnlyAvailableFields(TreeEnv, f, [], map[], 0) == Ok(false);
      assert ComputeFieldCost(props, OwnMultiplier([], [], Some(map[])), 0) == (1, 0);
      LoneField(TreeEnv, f, Some("TreeLeaf"), 0, base, path, map[], 0);
    } else {
      var f := Node("leafs", Leafs(k - 1));
      assert Leafs(k) == [f];
      assert SpreadBelow(map[], map[], 0, [f][0]);
      LeafsCost(k - 1, 1, path + ["leafs"]);
      TreeProps();
      TreeSchemaFields();
      var props := FieldCostProps(TreeTable, 1, Some("TreeLeaf"), "leafs");
      assert OnlyAvailableFields(TreeEnv, f, [], map[], 0) == Ok(false);
      assert ComputeFieldCost(props, OwnMultiplier([], [], Some(map[])), 0) == (1, 0);
      PowOne(CountOf(path, "leafs"));
      CostedNode(TreeEnv, f, props, Some("TreeLeaf"), 0, 1, path, map[], 0, 0, k);
      RecursionOverride(TreeEnv, f, Some("TreeLeaf"), 0, base, base, path, map[], 0);
      assert [f][1..] == [];
    }
  }

  /** `query { myTree { leafs { leafs { leafs { leafs { id } } } } } }`
      with `TreeLeaf.leafs` setting the recursion base to 1 costs 6: one
      per field, the repeated `leafs` unpenalised. */
  lemma TreeExample()
    ensures Leafs(4) == [Node("leafs", [Node("leafs", [Node("leafs", [Node("leafs", [Leaf("id")])])])])]
    ensures Acyclic(map[], map[], 0)
    ensures DocumentCost(TreeSchema, TreeTable, 1,
                         Document([OperationDefinition("query", None, [Node("myTree", Leafs(4))])], map[]),
                         map[], 0) == Ok(6)
  {
    MyTreeCost(4);
    OneQuery(TreeSchema, TreeTable, 1, [Node("myTree", Leafs(4))], 6);
  }

  /** `myTree` around `k` nested `leafs` costs one per field. */
  lemma MyTreeCost(k: nat)
    ensures SpreadsBelow(map[], map[], 0, [Node("myTree", Leafs(k))])
    ensures SelectionsCost(TreeEnv, [Node("myTree", Leafs(k))], Some("Query"), 0, DefaultRecursionMultiplier,
                           [], map[], 0) == Ok(k + 2)
  {
    var f := Node("myTree", Leafs(k));
    NoFragmentsNoBound([f], 0);
    assert SpreadBelow(map[], map[], 0, [f][0]);
    assert [] + ["myTree"] == ["myTree"];
    NoRecursionWithoutRepeat("myTree", [], DefaultRecursionMultiplier);
    LeafsCost(k, DefaultRecursionMultiplier, ["myTree"]);
    TreeProps();
    TreeSchemaFields();
    assert ComputeFieldCost(DefaultCostProps(1), 0, 0) == (1, 0);
    LoneCostedNode(TreeEnv, f, Some("Query"), 0, DefaultRecursionMultiplier, [], map[], 0, 0, k + 1);
  }

  // ------------------------------------------------------------------
  // Tokens under parent multipliers, four levels deep
  // ------------------------------------------------------------------

  const TokenSchema: Schema :=
    Schema(map["Query" := TypeDefinition(true, map["parent" := "Parent"]),
               "Parent" := TypeDefinition(true, map["id" := "ID", "child" := "Child"]),
               "Child" := TypeDefinition(true, map["id" := "ID", "child" := "GrandChild"]),
               "GrandChild" := TypeDefinition(true, map["id" := "ID"])],
           Some("Query"), None, None)

  /** The test's cost table, with `innerBase` as the `recursionMultiplier`
      of `Child.child` (the test sets none). */
  function TokenTable(innerBase: Option<int>): CostTable {
    map["Query" := map["parent" := CostEntry(Some(11), Some([MName("parentMultiplier")]), None, None, Some(4), None)],
        "Parent" := map["child" := CostEntry(None, None, None, None, Some(2), None)],
        "Child" := map["child" := CostEntry(Some(2), Some([MName("childMultiplier")]), None, None, Some(3), innerBase)],
        "GrandChild" := map["id" := CostEntry(Some(10), None, None, None, Some(2), None)]]
  }

  function TokenEnv(innerBase: Option<int>): Env {
    Env(TokenSchema, TokenTable(innerBase), 1, map[])
  }

  const GrandChildId: seq<Selection> := [Leaf("id")]

  /** `child(childMultiplier: 10) { id }` */
  const InnerChild: Selection :=
    Field("child", [Argument("childMultiplier", IntLiteral(10))], map["childMultiplier" := IntArg(10)],
          SelectionSet(GrandChildId))

  /** `child { child(childMultiplier: 10) { id } }` */
  const OuterChild: Selection := Node("child", [InnerChild])

  /** `parent(parentMultiplier: 2) { ... }` */
  const ParentField: Selection :=
    Field("parent", [Argument("parentMultiplier", IntLiteral(2))], map["parentMultiplier" := IntArg(2)],
          SelectionSet([OuterChild]))

  const TokenQuery: Document := Document([OperationDefinition("query", None, [ParentField])], map[])

  lemma TokenPropsOuter(innerBase: Option<int>)
    ensures FieldCostProps(TokenTable(innerBase), 1, Some("Query"), "parent")
         == CostProps(11, [MName("parentMultiplier")], true, [], 4, None)
    ensures FieldCostProps(TokenTable(innerBase), 1, Some("Parent"), "child") == CostProps(1, [], true, [], 2, None)
  {
    assert "Query" != "Parent";
  }

  lemma TokenPropsInner(innerBase: Option<int>)
    ensures FieldCostProps(TokenTable(innerBase), 1, Some("Child"), "child")
         == CostProps(2, [MName("childMultiplier")], true, [], 3, innerBase)
    ensures FieldCostProps(TokenTable(innerBase), 1, Some("GrandChild"), "id") == CostProps(10, [], true, [], 2, None)
  {
    assert "Child" != "GrandChild";
  }

  lemma TokenSchemaFields()
    ensures GetFieldInfo(TokenSchema, Some("Query"), "parent", ParentField.argumentValues)
         == FieldInfo(Some("Parent"), Some(ParentField.argumentValues))
    ensures GetFieldInfo(TokenSchema, Some("Parent"), "child", map[]).fieldType == Some("Child")
    ensures GetFieldInfo(TokenSchema, Some("Child"), "child", InnerChild.argumentValues)
         == FieldInfo(Some("GrandChild"), Some(InnerChild.argumentValues))
  {
    assert TypeFields(TokenSchema, Some("Query")) == map["parent" := "Parent"];
    assert TypeFields(TokenSchema, Some("Parent")) == map["id" := "ID", "child" := "Child"];
    assert TypeFields(TokenSchema, Some("Child")) == map["id" := "ID", "child" := "GrandChild"];
  }

  /** A lone multiplier naming an argument written as an INT literal is
      that literal. */
  lemma OneLiteralMultiplier(name: string, n: int)
    ensures OwnMultiplier([MName(name)], [Argument(name, IntLiteral(n))], Some(map[name := IntArg(n)])) == n
  {
    var args := [Argument(name, IntLiteral(n))];
    OwnMultiplierIsSum([MName(name)], args, Some(map[name := IntArg(n)]));
    assert [MName(name)][..0] == [];
    assert ArgumentMultiplier(name, args, Some(map[name := IntArg(n)])) == Some(n);
  }

  /** `id` of `GrandChild` under the multiplier 20: (10 + 2) times 20. */
  lemma GrandChildIdCost(innerBase: Option<int>, base: int, path: seq<string>)
    ensures SpreadsBelow(map[], map[], 0, GrandChildId)
    ensures SelectionsCost(TokenEnv(innerBase), GrandChildId, Some("GrandChild"), 20, base, path, map[], 0) == Ok(240)
  {
    NoFragmentsNoBound(GrandChildId, 0);
    TokenPropsInner(innerBase);
    var props := FieldCostProps(TokenTable(innerBase), 1, Some("GrandChild"), "id");
    var f := GrandChildId[0];
    assert OnlyAvailableFields(TokenEnv(innerBase), f, [], map[], 0) == Ok(false);
    assert OwnMultiplier([], [], GetFieldInfo(TokenSchema, Some("GrandChild"), "id", map[]).argumentValues) == 0;
    assert ComputeFieldCost(props, 0, 20) == (240, 20);
    LoneField(TokenEnv(innerBase), f, Some("GrandChild"), 20, base, path, map[], 0);
  }

  /** What the walk reads of the inner `child`. */
  lemma InnerChildFacts(innerBase: Option<int>)
    ensures SpreadBelow(map[], map[], 0, InnerChild) && InnerChild.selectionSet.SelectionSet?
    ensures var props := FieldCostProps(TokenTable(innerBase), 1, Some("Child"), "child");
      var info := GetFieldInfo(TokenSchema, Some("Child"), "child", InnerChild.argumentValues);
      && props == CostProps(2, [MName("childMultiplier")], true, [], 3, innerBase)
      && info.fieldType == Some("GrandChild")
      && OwnMultiplier(props.multipliers, InnerChild.arguments, info.argumentValues) == 10
      && OnlyAvailableFields(TokenEnv(innerBase), InnerChild, props.provided, map[], 0) == Ok(false)
      && ComputeFieldCost(props, 10, 2) == (46, 20)
  {
    NoFragmentsNoBound([InnerChild], 0);
    assert SpreadBelow(map[], map[], 0, [InnerChild][0]);
    TokenPropsInner(innerBase);
    TokenSchemaFields();
    OneLiteralMultiplier("childMultiplier", 10);
  }

  /** One ancestor of `parent.child.child` is also named `child`. */
  lemma InnerChildPenalty(base: int)
    ensures RecursionFactor("child", ["parent", "child"], base) == base
  {
    var path := ["parent", "child"];
    assert path[..1] == ["parent"] && path[..1][..0] == [];
    assert CountOf(path, "child") == 1;
  }

  /** The inner `child`: 2 times 20 plus 3 tokens times the parent
      multiplier 2, plus its `id`, times the recursion penalty: one ancestor
      is also named `child`, so the penalty is the base. */
  lemma InnerChildTotal(innerBase: Option<int>, base: int)
    ensures SpreadBelow(map[], map[], 0, InnerChild)
    ensures FieldTotal(TokenEnv(innerBase), InnerChild, FieldCostProps(TokenTable(innerBase), 1, Some("Child"), "child"),
                       Some("Child"), 2, base, ["parent", "child"], map[], 0) == Ok(286 * base)
  {
    InnerChildFacts(innerBase);
    InnerChildPenalty(base);
    var path := ["parent", "child"];
    assert path + ["child"] == ["parent", "child", "child"];
    GrandChildIdCost(innerBase, base, path + ["child"]);
    var props := FieldCostProps(TokenTable(innerBase), 1, Some("Child"), "child");
    CostedNode(TokenEnv(innerBase), InnerChild, props, Some("Child"), 2, base, path, map[], 0, 10, 240);
  }

  /** A lone field with a selection set, no recursion-base override and an
      empty `provides` list costs its own cost plus its children's, times its
      recursion penalty. */
  lemma LoneCostedNode(env: Env, f: Selection, parentType: Option<string>, parentMultiplier: int,
                       recursionMultiplier: int, path: seq<string>, rank: map<string, nat>, bound: nat,
                       own: int, childCost: int)
    requires f.Field? && f.selectionSet.SelectionSet?
    requires Ranked(env.fragments, rank) && SpreadBelow(env.fragments, rank, bound, f)
    requires var props := FieldCostProps(env.costMap, env.defaultCost, parentType, f.name);
      var info := GetFieldInfo(env.schema, parentType, f.name, f.argumentValues);
      && props.recursionMultiplier.None? && props.provided == []
      && own == OwnMultiplier(props.multipliers, f.arguments, info.argumentValues)
    requires var props := FieldCostProps(env.costMap, env.defaultCost, parentType, f.name);
      var info := GetFieldInfo(env.schema, parentType, f.name, f.argumentValues);
      var c := ComputeFieldCost(props, own, parentMultiplier);
      SelectionsCost(env, f.selectionSet.selections, info.fieldType, if c.1 != 0 then c.1 else parentMultiplier,
                     recursionMultiplier, path + [f.name], rank, bound) == Ok(childCost)
    ensures SpreadsBelow(env.fragments, rank, bound, [f])
    ensures var props := FieldCostProps(env.costMap, env.defaultCost, parentType, f.name);
      SelectionsCost(env, [f], parentType, parentMultiplier, recursionMultiplier, path, rank, bound)
      == Ok((ComputeFieldCost(props, own, parentMultiplier).0 + childCost) * RecursionFactor(f.name, path, recursionMultiplier))
  {
    var props := FieldCostProps(env.costMap, env.defaultCost, parentType, f.name);
    CostedNode(env, f, props, parentType, parentMultiplier, recursionMultiplier, path, rank, bound, own, childCost);
    LoneField(env, f, parentType, parentMultiplier, recursionMultiplier, path, rank, bound);
  }

  /** What the walk reads of `parent` and of the outer `child`. */
  lemma OuterFieldFacts(innerBase: Option<int>)
    ensures SpreadBelow(map[], map[], 0, ParentField) && SpreadBelow(map[], map[], 0, OuterChild)
    ensures ParentField.selectionSet == SelectionSet([OuterChild])
    ensures OuterChild.selectionSet == SelectionSet([InnerChild])
    ensures var props := FieldCostProps(TokenTable(innerBase), 1, Some("Query"), "parent");
      var info := GetFieldInfo(TokenSchema, Some("Query"), "parent", ParentField.argumentValues);
      && props == CostProps(11, [MName("parentMultiplier")], true, [], 4, None)
      && info.fieldType == Some("Parent")
      && OwnMultiplier(props.multipliers, ParentField.arguments, info.argumentValues) == 2
      && ComputeFieldCost(props, 2, 0) == (26, 2)
    ensures var props := FieldCostProps(TokenTable(innerBase), 1, Some("Parent"), "child");
      var info := GetFieldInfo(TokenSchema, Some("Parent"), "child", OuterChild.argumentValues);
      && props == CostProps(1, [], true, [], 2, None)
      && info.fieldType == Some("Child")
      && OwnMultiplier(props.multipliers, OuterChild.arguments, info.argumentValues) == 0
      && ComputeFieldCost(props, 0, 2) == (6, 2)
    ensures RecursionFactor("parent", [], DefaultRecursionMultiplier) == 1
    ensures RecursionFactor("child", ["parent"], DefaultRecursionMultiplier) == 1
  {
    NoFragmentsNoBound([ParentField], 0);
    assert SpreadBelow(map[], map[], 0, [ParentField][0]);
    assert SpreadsBelow(map[], map[], 0, [OuterChild]);
    assert SpreadBelow(map[], map[], 0, [OuterChild][0]);
    TokenPropsOuter(innerBase);
    TokenSchemaFields();
    OneLiteralMultiplier("parentMultiplier", 2);
    NoRecursionWithoutRepeat("parent", [], DefaultRecursionMultiplier);
    NoRecursionWithoutRepeat("child", ["parent"], DefaultRecursionMultiplier);
  }

  /** `child` of `Parent`: 1 times 2 plus 2 tokens times 2, plus its
      children, unpenalised. */
  lemma OuterChildCost(innerBase: Option<int>, inner: int)
    requires SpreadsBelow(map[], map[], 0, [InnerChild])
    requires SelectionsCost(TokenEnv(innerBase), [InnerChild], Some("Child"), 2, DefaultRecursionMultiplier,
                            ["parent", "child"], map[], 0) == Ok(inner)
    ensures SpreadsBelow(map[], map[], 0, [OuterChild])
    ensures SelectionsCost(TokenEnv(innerBase), [OuterChild], Some("Parent"), 2, DefaultRecursionMultiplier,
                           ["parent"], map[], 0) == Ok(6 + inner)
  {
    OuterFieldFacts(innerBase);
    assert ["parent"] + ["child"] == ["parent", "child"];
    LoneCostedNode(TokenEnv(innerBase), OuterChild, Some("Parent"), 2, DefaultRecursionMultiplier, ["parent"],
                   map[], 0, 0, inner);
  }

  /** `parent(parentMultiplier: 2)` at the root: 11 times 2 plus 4 tokens,
      unscaled since there is no parent multiplier, plus its children. */
  lemma ParentFieldCost(innerBase: Option<int>, outer: int)
    requires SpreadsBelow(map[], map[], 0, [OuterChild])
    requires SelectionsCost(TokenEnv(innerBase), [OuterChild], Some("Parent"), 2, DefaultRecursionMultiplier,
                            ["parent"], map[], 0) == Ok(outer)
    ensures SpreadsBelow(map[], map[], 0, [ParentField])
    ensures SelectionsCost(TokenEnv(innerBase), [ParentField], Some("Query"), 0, DefaultRecursionMultiplier,
                           [], map[], 0) == Ok(26 + outer)
  {
    OuterFieldFacts(innerBase);
    assert [] + ["parent"] == ["parent"];
    LoneCostedNode(TokenEnv(innerBase), ParentField, Some("Query"), 0, DefaultRecursionMultiplier, [],
                   map[], 0, 2, outer);
  }

  /** The token test as the code computes it: the inner `child` repeats its
      ancestor's name, so it and its `id` cost 100 times (46 + 240), and the
      query 26 + 6 + 28600 = 28632, not the 318 the test expects. */
  lemma TokenExampleAsWritten()
    ensures Acyclic(map[], map[], 0)
    ensures DocumentCost(TokenSchema, TokenTable(None), 1, TokenQuery, map[], 0) == Ok(28632)
  {
    InnerChildTotal(None, DefaultRecursionMultiplier);
    TokenPropsInner(None);
    LoneField(TokenEnv(None), InnerChild, Some("Child"), 2, DefaultRecursionMultiplier, ["parent", "child"], map[], 0);
    OuterChildCost(None, 28600);
    ParentFieldCost(None, 28606);
    OneQuery(TokenSchema, TokenTable(None), 1, [ParentField], 28632);
  }

  /** The same query once `Child.child` sets the recursion base to 1: each
      field costs what the test's comments give, 240 + 46 + 6 + 26 = 318. */
  lemma TokenExampleWithoutPenalty()
    ensures Acyclic(map[], map[], 0)
    ensures DocumentCost(TokenSchema, TokenTable(Some(1)), 1, TokenQuery, map[], 0) == Ok(240 + 46 + 6 + 26)
  {
    InnerChildTotal(Some(1), 1);
    TokenPropsInner(Some(1));
    LoneOverride(TokenEnv(Some(1)), InnerChild, Some("Child"), 2, DefaultRecursionMultiplier,
                 ["parent", "child"], map[], 0);
    OuterChildCost(Some(1), 286);
    ParentFieldCost(Some(1), 292);
    OneQuery(TokenSchema, TokenTable(Some(1)), 1, [ParentField], 318);
  }
}

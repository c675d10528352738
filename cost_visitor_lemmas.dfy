/** Properties of the cost visitor: independent reference definitions the
    visitor's functions agree with, and the laws the cost follows. */
module CostVisitorProperties {
  import opened CostSpec
  import opened QueryAst
  import opened CostVisitor

  // ------------------------------------------------------------------
  // The field multiplier, argument by argument
  // ------------------------------------------------------------------

  /** The resolved value of argument `name` when it is a number or a list. */
  function ResolvedCount(name: string, argumentValues: Option<map<string, ArgValue>>): Option<int> {
    if argumentValues.Some? && name in argumentValues.value then
      match argumentValues.value[name]
      case IntArg(n) => Some(n)
      case ListArg(len) => Some(len)
      case OtherArg => None
    else None
  }

  /** What the argument `name` stands for: its last INT or LIST literal in
      the query text, else its resolved value when that is a number or a
      list, else nothing. */
  function ArgumentMultiplier(name: string, args: seq<Argument>,
                              argumentValues: Option<map<string, ArgValue>>): Option<int>
    decreases |args|
  {
    if args == [] then ResolvedCount(name, argumentValues)
    else
      var a := args[|args| - 1];
      if a.name == name && a.value.IntLiteral? then Some(a.value.n)
      else if a.name == name && a.value.ListLiteral? then Some(a.value.length)
      else ArgumentMultiplier(name, args[..|args| - 1], argumentValues)
  }

  /** What one entry of a `multipliers` list adds: a number itself, an
      argument name what the argument stands for (nothing if undefined). */
  function Contribution(m: Multiplier, args: seq<Argument>, argumentValues: Option<map<string, ArgValue>>): int {
    match m
    case MNum(n) => n
    case MName(name) => ArgumentMultiplier(name, args, argumentValues).GetOr(0)
  }

  function ContributionSum(ms: seq<Multiplier>, args: seq<Argument>,
                           argumentValues: Option<map<string, ArgValue>>): int
    decreases |ms|
  {
    if ms == [] then 0
    else ContributionSum(ms[..|ms| - 1], args, argumentValues) + Contribution(ms[|ms| - 1], args, argumentValues)
  }

  function Lookup(values: map<Multiplier, int>, m: Multiplier): int {
    if m in values then values[m] else 0
  }

  function ResolvedTable(argumentValues: Option<map<string, ArgValue>>): map<Multiplier, int> {
    if argumentValues.Some? then ResolvedMultipliers(argumentValues.value, argumentValues.value.Keys) else map[]
  }

  lemma ResolvedLookup(argumentValues: Option<map<string, ArgValue>>, name: string)
    ensures MName(name) in ResolvedTable(argumentValues) <==> ResolvedCount(name, argumentValues).Some?
    ensures MName(name) in ResolvedTable(argumentValues) ==>
              ResolvedTable(argumentValues)[MName(name)] == ResolvedCount(name, argumentValues).value
  {
    if argumentValues.Some? && name in argumentValues.value && !argumentValues.value[name].OtherArg? {
      assert MName(name) in ResolvedTable(argumentValues);
    }
  }

  lemma {:induction false} LiteralKeysAreNames(values: map<Multiplier, int>, args: seq<Argument>)
    requires forall m :: m in values ==> m.MName?
    ensures forall m :: m in LiteralMultipliers(values, args) ==> m.MName?
    decreases |args|
  {
    if args != [] {
      LiteralKeysAreNames(values, args[..|args| - 1]);
    }
  }

  lemma {:induction false} LiteralLookup(args: seq<Argument>, argumentValues: Option<map<string, ArgValue>>, name: string)
    ensures var l := LiteralMultipliers(ResolvedTable(argumentValues), args);
      && (MName(name) in l <==> ArgumentMultiplier(name, args, argumentValues).Some?)
      && (MName(name) in l ==> l[MName(name)] == ArgumentMultiplier(name, args, argumentValues).value)
    decreases |args|
  {
    if args == [] {
      ResolvedLookup(argumentValues, name);
    } else {
      LiteralLookup(args[..|args| - 1], argumentValues, name);
    }
  }

  lemma {:induction false} NumericLookup(values: map<Multiplier, int>, ms: seq<Multiplier>, m: Multiplier)
    requires forall k :: k in values ==> k.MName?
    ensures m.MName? ==> Lookup(NumericMultipliers(values, ms), m) == Lookup(values, m)
    ensures m.MNum? && m in ms ==> Lookup(NumericMultipliers(values, ms), m) == m.n
    ensures m.MNum? && m !in ms ==> m !in NumericMultipliers(values, ms)
    decreases |ms|
  {
    if ms != [] {
      var init := ms[..|ms| - 1];
      NumericLookup(values, init, m);
      assert ms == init + [ms[|ms| - 1]];
    }
  }

  lemma {:induction false} SumLookupsIsContributionSum(values: map<Multiplier, int>, ms: seq<Multiplier>,
                                                       args: seq<Argument>, argumentValues: Option<map<string, ArgValue>>)
    requires forall i :: 0 <= i < |ms| ==> Lookup(values, ms[i]) == Contribution(ms[i], args, argumentValues)
    ensures SumLookups(values, ms) == ContributionSum(ms, args, argumentValues)
    decreases |ms|
  {
    if ms != [] {
      var init := ms[..|ms| - 1];
      assert forall i :: 0 <= i < |init| ==> init[i] == ms[i];
      SumLookupsIsContributionSum(values, init, args, argumentValues);
    }
  }

  /** getFieldMultiplier adds, for each entry of `multipliers`, a number
      itself and an argument name its last INT or LIST literal, else its
      resolved count; entries that stand for nothing add nothing. */
  lemma OwnMultiplierIsSum(ms: seq<Multiplier>, args: seq<Argument>, argumentValues: Option<map<string, ArgValue>>)
    ensures OwnMultiplier(ms, args, argumentValues) == ContributionSum(ms, args, argumentValues)
  {
    if |ms| > 0 {
      var r := ResolvedTable(argumentValues);
      var l := LiteralMultipliers(r, args);
      var t := NumericMultipliers(l, ms);
      assert t == MultiplierValues(ms, args, argumentValues);
      assert forall m :: m in r ==> m.MName?;
      LiteralKeysAreNames(r, args);
      forall i | 0 <= i < |ms|
        ensures Lookup(t, ms[i]) == Contribution(ms[i], args, argumentValues)
      {
        NumericLookup(l, ms, ms[i]);
        if ms[i].MName? {
          LiteralLookup(args, argumentValues, ms[i].name);
        }
      }
      SumLookupsIsContributionSum(t, ms, args, argumentValues);
    }
  }

  // ------------------------------------------------------------------
  // computeFieldCost
  // ------------------------------------------------------------------

  /** A field that uses multipliers, under an active parent multiplier,
      costs and passes down exactly the parent multiplier times what it
      would under a parent multiplier of 1; a field that does not use them
      ignores the parent multiplier. */
  lemma ParentMultiplierScaling(p: CostProps, own: int, parentMultiplier: int)
    requires parentMultiplier > 0
    ensures p.useMultipliers ==>
      var unit := ComputeFieldCost(p, own, 1);
      ComputeFieldCost(p, own, parentMultiplier) == (parentMultiplier * unit.0, parentMultiplier * unit.1)
    ensures !p.useMultipliers ==> ComputeFieldCost(p, own, parentMultiplier) == ComputeFieldCost(p, own, 0)
  {
    if p.useMultipliers {
      var k := if own > 0 then own else 1;
      var m := k * parentMultiplier;
      PositiveProduct(k, parentMultiplier);
      var full := ComputeFieldCost(p, own, parentMultiplier);
      assert full == (p.complexity * m + p.tokens * parentMultiplier, m);
      var unit := ComputeFieldCost(p, own, 1);
      assert k * 1 == k;
      assert unit == (p.complexity * k + p.tokens, k);
      ScaleSum(parentMultiplier, p.complexity, k, p.tokens);
    }
  }

  lemma PositiveProduct(a: int, b: int)
    requires a > 0 && b > 0
    ensures a * b > 0
  {
  }

  lemma ScaleSum(a: int, c: int, k: int, t: int)
    ensures c * (k * a) + t * a == a * (c * k + t)
    ensures k * a == a * k
  {
    assert a * (c * k + t) == a * (c * k) + a * t;
    assert a * (c * k) == c * (k * a);
  }

  /** Raising a field's tokens by `d` raises its cost by `d` times the parent
      multiplier (when the field uses it) and leaves the multiplier passed
      down unchanged; the field's own multiplier never scales tokens. */
  lemma TokensScaleOnlyByParent(p: CostProps, own: int, parentMultiplier: int, d: int)
    ensures var before := ComputeFieldCost(p, own, parentMultiplier);
      var after := ComputeFieldCost(p.(tokens := p.tokens + d), own, parentMultiplier);
      && after.1 == before.1
      && after.0 == before.0 + d * (if p.useMultipliers && parentMultiplier > 0 then parentMultiplier else 1)
  {
    if p.useMultipliers && parentMultiplier > 0 {
      assert (p.tokens + d) * parentMultiplier == p.tokens * parentMultiplier + d * parentMultiplier;
    }
  }

  // ------------------------------------------------------------------
  // getRecursion
  // ------------------------------------------------------------------

  lemma CountOfAppend(path: seq<string>, x: string, name: string)
    ensures CountOf(path + [x], name) == CountOf(path, name) + (if x == name then 1 else 0)
  {
    assert (path + [x])[..|path|] == path;
  }

  lemma {:induction false} CountOfAbsent(path: seq<string>, name: string)
    requires name !in path
    ensures CountOf(path, name) == 0
    decreases |path|
  {
    if path != [] {
      assert forall i :: 0 <= i < |path| - 1 ==> path[..|path| - 1][i] == path[i];
      CountOfAbsent(path[..|path| - 1], name);
    }
  }

  /** Each further ancestor of the same name multiplies a field's recursion
      penalty by the base; ancestors of other names leave it as it is; the
      reserved wrapper names are never penalised. */
  lemma RecursionExtend(name: string, x: string, path: seq<string>, base: int)
    ensures RecursionFactor(name, path + [x], base)
         == if x == name && name !in ReservedLeafs then base * RecursionFactor(name, path, base)
            else RecursionFactor(name, path, base)
  {
    CountOfAppend(path, x, name);
  }

  /** A field whose name does not occur among its ancestors is not penalised. */
  lemma NoRecursionWithoutRepeat(name: string, path: seq<string>, base: int)
    requires name !in path
    ensures RecursionFactor(name, path, base) == 1
  {
    CountOfAbsent(path, name);
  }

  // ------------------------------------------------------------------
  // onlyAvailabeFieldsInSelection
  // ------------------------------------------------------------------

  /** Every selection is available: a field by its name, a spread of a
      defined fragment by its name and, transitively, its fragment's
      selections. An inline fragment never is. */
  ghost predicate Covered(frags: map<string, FragmentDefinition>, sels: seq<Selection>, available: set<string>,
                          rank: map<string, nat>, bound: nat)
    decreases bound, sels
  {
    forall i :: 0 <= i < |sels| ==> SelectionCovered(frags, sels[i], available, rank, bound)
  }

  ghost predicate SelectionCovered(frags: map<string, FragmentDefinition>, s: Selection, available: set<string>,
                                   rank: map<string, nat>, bound: nat)
    decreases bound, s
  {
    match s
    case Field(name, _, _, _) => name in available
    case InlineFragment(_, _) => false
    case FragmentSpread(n) =>
      && n in frags && n in available && n in rank && rank[n] < bound
      && Covered(frags, frags[n].selections, available, rank, rank[n])
  }

  lemma CoveredCons(frags: map<string, FragmentDefinition>, sels: seq<Selection>, available: set<string>,
                    rank: map<string, nat>, bound: nat)
    requires sels != []
    ensures Covered(frags, sels, available, rank, bound)
        <==> SelectionCovered(frags, sels[0], available, rank, bound) && Covered(frags, sels[1..], available, rank, bound)
  {
    assert forall i :: 1 <= i < |sels| ==> sels[1..][i - 1] == sels[i];
  }

  /** checkAvailable succeeds with `true` exactly when every selection is
      covered. */
  lemma {:induction false} CheckAvailableIff(env: Env, sels: seq<Selection>, available: set<string>,
                                             rank: map<string, nat>, bound: nat)
    requires Ranked(env.fragments, rank) && SpreadsBelow(env.fragments, rank, bound, sels)
    ensures CheckAvailable(env, sels, available, rank, bound) == Ok(true)
        <==> Covered(env.fragments, sels, available, rank, bound)
    decreases bound, sels
  {
    if sels != [] {
      assert SpreadBelow(env.fragments, rank, bound, sels[0]);
      CoveredCons(env.fragments, sels, available, rank, bound);
      CheckAvailableIff(env, sels[1..], available, rank, bound);
      match sels[0] {
        case Field(_, _, _, _) =>
        case InlineFragment(_, _) =>
        case FragmentSpread(n) =>
          if n in env.fragments {
            CheckAvailableIff(env, env.fragments[n].selections, available, rank, rank[n]);
          }
      }
    }
  }

  /** The selection of a field, empty when it has no selection set. */
  function Children(f: Selection): seq<Selection>
    requires f.Field?
  {
    if f.selectionSet.SelectionSet? then f.selectionSet.selections else []
  }

  /** A field is elided exactly when it lists what it provides, has a
      non-empty selection, and every selection is covered by what it
      provides together with `__typename`. */
  lemma ElidedIff(env: Env, f: Selection, provided: seq<string>, rank: map<string, nat>, bound: nat)
    requires f.Field? && Ranked(env.fragments, rank) && SpreadBelow(env.fragments, rank, bound, f)
    ensures OnlyAvailableFields(env, f, provided, rank, bound) == Ok(true)
        <==> |provided| > 0 && |Children(f)| > 0
             && Covered(env.fragments, Children(f), (set p | p in provided) + {"__typename"}, rank, bound)
  {
    if |provided| > 0 && |Children(f)| > 0 {
      CheckAvailableIff(env, Children(f), (set p | p in provided) + {"__typename"}, rank, bound);
    }
  }

  /** An elided field costs 1 instead of its own cost and passes the parent
      multiplier, not its own, to its children; the recursion penalty still
      applies. */
  lemma ElidedFieldCost(env: Env, f: Selection, props: CostProps, parentType: Option<string>,
                        parentMultiplier: int, recursionMultiplier: int, path: seq<string>,
                        rank: map<string, nat>, bound: nat)
    requires f.Field? && Ranked(env.fragments, rank) && SpreadBelow(env.fragments, rank, bound, f)
    requires OnlyAvailableFields(env, f, props.provided, rank, bound) == Ok(true)
    ensures f.selectionSet.SelectionSet?
    ensures var children := SelectionsCost(env, f.selectionSet.selections,
                                           GetFieldInfo(env.schema, parentType, f.name, f.argumentValues).fieldType,
                                           parentMultiplier, recursionMultiplier, path + [f.name], rank, bound);
      FieldTotal(env, f, props, parentType, parentMultiplier, recursionMultiplier, path, rank, bound)
      == if children.Ok? then Ok((1 + children.value) * RecursionFactor(f.name, path, recursionMultiplier))
         else children
  {
  }

  // ------------------------------------------------------------------
  // getNodeCost: selection lists
  // ------------------------------------------------------------------

  /** The recursion multiplier left after walking `sels`. */
  function BaseAfter(env: Env, sels: seq<Selection>, parentType: Option<string>, recursionMultiplier: int): int
    decreases |sels|
  {
    if sels == [] then recursionMultiplier
    else BaseAfter(env, sels[1..], parentType, NextRecursionMultiplier(env, sels[0], parentType, recursionMultiplier))
  }

  /** The cost of `a + b` is the cost of `a` followed by the cost of `b`,
      where `b` starts from the recursion multiplier `a` left behind: an
      override set by a field reaches all its later siblings. */
  lemma {:induction false} SelectionsCostAppend(env: Env, a: seq<Selection>, b: seq<Selection>,
                                                parentType: Option<string>, parentMultiplier: int,
                                                recursionMultiplier: int, path: seq<string>,
                                                rank: map<string, nat>, bound: nat)
    requires Ranked(env.fragments, rank) && SpreadsBelow(env.fragments, rank, bound, a + b)
    ensures SpreadsBelow(env.fragments, rank, bound, a) && SpreadsBelow(env.fragments, rank, bound, b)
    ensures var ca := SelectionsCost(env, a, parentType, parentMultiplier, recursionMultiplier, path, rank, bound);
      SelectionsCost(env, a + b, parentType, parentMultiplier, recursionMultiplier, path, rank, bound)
      == if ca.Err? then ca
         else Shifted(ca.value, SelectionsCost(env, b, parentType, parentMultiplier,
                                               BaseAfter(env, a, parentType, recursionMultiplier), path, rank, bound))
    decreases |a|
  {
    SpreadsBelowSplit(env.fragments, rank, bound, a, b);
    if a == [] {
      assert a + b == b;
    } else {
      var ab := a + b;
      assert ab[0] == a[0] && ab[1..] == a[1..] + b;
      assert SpreadBelow(env.fragments, rank, bound, a[0]);
      var first := SelectionCost(env, a[0], parentType, parentMultiplier, recursionMultiplier, path, rank, bound);
      if first.Ok? {
        SelectionsCostAppend(env, a[1..], b, parentType, parentMultiplier, first.value.1, path, rank, bound);
      }
    }
  }

  lemma SpreadsBelowSplit(frags: map<string, FragmentDefinition>, rank: map<string, nat>, bound: nat,
                          a: seq<Selection>, b: seq<Selection>)
    requires SpreadsBelow(frags, rank, bound, a + b)
    ensures SpreadsBelow(frags, rank, bound, a) && SpreadsBelow(frags, rank, bound, b)
  {
    assert forall i :: 0 <= i < |a| ==> (a + b)[i] == a[i];
    assert forall i :: 0 <= i < |b| ==> (a + b)[|a| + i] == b[i];
  }

  lemma SpreadsBelowJoin(frags: map<string, FragmentDefinition>, rank: map<string, nat>, bound: nat,
                         a: seq<Selection>, b: seq<Selection>)
    requires SpreadsBelow(frags, rank, bound, a) && SpreadsBelow(frags, rank, bound, b)
    ensures SpreadsBelow(frags, rank, bound, a + b)
  {
    forall i | 0 <= i < |a + b|
      ensures SpreadBelow(frags, rank, bound, (a + b)[i])
    {
      if i < |a| {
        assert (a + b)[i] == a[i];
      } else {
        assert (a + b)[i] == b[i - |a|];
      }
    }
  }

  // ------------------------------------------------------------------
  // Fragments (getAST, getASTAndTypeDefs) and recursion-base overrides
  // ------------------------------------------------------------------

  /** A spread of a defined fragment costs the fragment's selections, looked
      up under the fragment's type condition whatever the enclosing type is,
      with the parent multiplier and the recursion base passed through and
      the path extended by the fragment's name. The spread adds nothing of
      its own, and its later siblings see the base it was given. */
  lemma SpreadCost(env: Env, n: string, parentType: Option<string>, otherType: Option<string>,
                   parentMultiplier: int, recursionMultiplier: int, path: seq<string>,
                   rank: map<string, nat>, bound: nat)
    requires Ranked(env.fragments, rank) && SpreadBelow(env.fragments, rank, bound, FragmentSpread(n))
    requires n in env.fragments
    ensures n in rank && SpreadsBelow(env.fragments, rank, rank[n], env.fragments[n].selections)
    ensures var frag := env.fragments[n];
      var c := SelectionsCost(env, frag.selections, TypeNamed(env.schema, frag.typeCondition), parentMultiplier,
                              recursionMultiplier, path + [n], rank, rank[n]);
      SelectionCost(env, FragmentSpread(n), parentType, parentMultiplier, recursionMultiplier, path, rank, bound)
      == if c.Ok? then Ok((c.value, recursionMultiplier)) else Err(c.error)
    ensures SelectionCost(env, FragmentSpread(n), parentType, parentMultiplier, recursionMultiplier, path, rank, bound)
         == SelectionCost(env, FragmentSpread(n), otherType, parentMultiplier, recursionMultiplier, path, rank, bound)
  {
  }

  /** An inline fragment with a type condition costs its selections under
      that type, whatever the enclosing type is, with the parent multiplier,
      the recursion base and the path unchanged; it adds nothing of its own
      and leaves the base as it was. */
  lemma InlineFragmentCost(env: Env, t: string, ss: seq<Selection>, parentType: Option<string>,
                           parentMultiplier: int, recursionMultiplier: int, path: seq<string>,
                           rank: map<string, nat>, bound: nat)
    requires Ranked(env.fragments, rank) && SpreadBelow(env.fragments, rank, bound, InlineFragment(Some(t), ss))
    ensures SpreadsBelow(env.fragments, rank, bound, ss)
    ensures var c := SelectionsCost(env, ss, TypeNamed(env.schema, t), parentMultiplier, recursionMultiplier,
                                    path, rank, bound);
      SelectionCost(env, InlineFragment(Some(t), ss), parentType, parentMultiplier, recursionMultiplier, path, rank, bound)
      == if c.Ok? then Ok((c.value, recursionMultiplier)) else Err(c.error)
  {
  }

  /** An inline fragment on the enclosing type, at the end of a selection
      list, costs what its selections would cost written out in its place. */
  lemma InlineFragmentInPlace(env: Env, pre: seq<Selection>, t: string, ss: seq<Selection>,
                              parentType: Option<string>, parentMultiplier: int, recursionMultiplier: int,
                              path: seq<string>, rank: map<string, nat>, bound: nat)
    requires Ranked(env.fragments, rank) && SpreadsBelow(env.fragments, rank, bound, pre + [InlineFragment(Some(t), ss)])
    requires TypeNamed(env.schema, t) == parentType
    ensures SpreadsBelow(env.fragments, rank, bound, pre + ss)
    ensures SelectionsCost(env, pre + [InlineFragment(Some(t), ss)], parentType, parentMultiplier,
                           recursionMultiplier, path, rank, bound)
         == SelectionsCost(env, pre + ss, parentType, parentMultiplier, recursionMultiplier, path, rank, bound)
  {
    var x := InlineFragment(Some(t), ss);
    SpreadsBelowSplit(env.fragments, rank, bound, pre, [x]);
    assert SpreadBelow(env.fragments, rank, bound, [x][0]);
    SpreadsBelowJoin(env.fragments, rank, bound, pre, ss);
    SelectionsCostAppend(env, pre, [x], parentType, parentMultiplier, recursionMultiplier, path, rank, bound);
    SelectionsCostAppend(env, pre, ss, parentType, parentMultiplier, recursionMultiplier, path, rank, bound);
    var b := BaseAfter(env, pre, parentType, recursionMultiplier);
    InlineFragmentCost(env, t, ss, parentType, parentMultiplier, b, path, rank, bound);
    assert [x][0] == x && [x][1..] == [];
  }

  /** A field whose cost entry sets a non-zero `recursionMultiplier` m costs
      the same whatever base it inherits: its own penalty is m raised to the
      number of ancestors with its name, its children walk with base m, and
      it leaves m to its later siblings. */
  lemma RecursionOverride(env: Env, f: Selection, parentType: Option<string>, parentMultiplier: int,
                          recursionMultiplier: int, otherBase: int, path: seq<string>,
                          rank: map<string, nat>, bound: nat)
    requires f.Field? && Ranked(env.fragments, rank) && SpreadBelow(env.fragments, rank, bound, f)
    requires var m := FieldCostProps(env.costMap, env.defaultCost, parentType, f.name).recursionMultiplier;
      m.Some? && m.value != 0
    ensures var props := FieldCostProps(env.costMap, env.defaultCost, parentType, f.name);
      var m := props.recursionMultiplier.value;
      var total := FieldTotal(env, f, props, parentType, parentMultiplier, m, path, rank, bound);
      SelectionCost(env, f, parentType, parentMultiplier, recursionMultiplier, path, rank, bound)
      == if total.Ok? then Ok((total.value, m)) else Err(total.error)
    ensures SelectionCost(env, f, parentType, parentMultiplier, recursionMultiplier, path, rank, bound)
         == SelectionCost(env, f, parentType, parentMultiplier, otherBase, path, rank, bound)
  {
  }

  // ------------------------------------------------------------------
  // Default costs
  // ------------------------------------------------------------------

  /** A selection list of fields, and of inline fragments with a type
      condition, where no field with a selection set shares its name with
      one of its ancestors. */
  ghost predicate PlainSelections(sels: seq<Selection>, path: seq<string>)
    decreases sels
  {
    forall i :: 0 <= i < |sels| ==> PlainField(sels[i], path)
  }

  ghost predicate PlainField(s: Selection, path: seq<string>)
    decreases s
  {
    match s
    case Field(_, _, _, NoSelectionSet) => true
    case Field(name, _, _, SelectionSet(ss)) => name !in path && PlainSelections(ss, path + [name])
    case InlineFragment(typeCondition, ss) => typeCondition.Some? && PlainSelections(ss, path)
    case FragmentSpread(_) => false
  }

  /** The number of fields written out in a selection list, at every depth,
      looking through inline fragments. */
  function FieldCount(sels: seq<Selection>): nat
    decreases sels
  {
    if sels == [] then 0 else SelectionFieldCount(sels[0]) + FieldCount(sels[1..])
  }

  function SelectionFieldCount(s: Selection): nat
    decreases s
  {
    match s
    case Field(_, _, _, NoSelectionSet) => 1
    case Field(_, _, _, SelectionSet(ss)) => 1 + FieldCount(ss)
    case InlineFragment(_, ss) => FieldCount(ss)
    case FragmentSpread(_) => 0
  }

  /** With an empty cost table every field, leaf or not, costs the default
      cost: a plain selection list costs the default cost times its number
      of fields, whatever the parent multiplier and recursion base. */
  lemma {:induction false} DefaultCostCountsFields(env: Env, sels: seq<Selection>, parentType: Option<string>,
                                                   parentMultiplier: int, recursionMultiplier: int, path: seq<string>,
                                                   rank: map<string, nat>, bound: nat)
    requires env.costMap == map[]
    requires Ranked(env.fragments, rank) && SpreadsBelow(env.fragments, rank, bound, sels)
    requires PlainSelections(sels, path)
    ensures SelectionsCost(env, sels, parentType, parentMultiplier, recursionMultiplier, path, rank, bound)
         == Ok(env.defaultCost * FieldCount(sels))
    decreases sels
  {
    if sels != [] {
      SelectionsCostAt(env, sels, 0, parentType, parentMultiplier, recursionMultiplier, path, rank, bound);
      assert sels[0..] == sels;
      assert PlainField(sels[0], path);
      TailPlain(env.fragments, rank, bound, sels, path);
      DefaultFieldCost(env, sels[0], parentType, parentMultiplier, recursionMultiplier, path, rank, bound);
      DefaultCostCountsFields(env, sels[1..], parentType, parentMultiplier, recursionMultiplier, path, rank, bound);
      ScaleCount(env.defaultCost, SelectionFieldCount(sels[0]), FieldCount(sels[1..]));
    }
  }

  lemma ScaleCount(d: int, a: nat, b: nat)
    ensures d * a + d * b == d * (a + b)
  {
  }

  lemma TailPlain(frags: map<string, FragmentDefinition>, rank: map<string, nat>, bound: nat,
                  sels: seq<Selection>, path: seq<string>)
    requires sels != []
    requires SpreadsBelow(frags, rank, bound, sels) && PlainSelections(sels, path)
    ensures SpreadsBelow(frags, rank, bound, sels[1..]) && PlainSelections(sels[1..], path)
  {
    assert forall i :: 1 <= i < |sels| ==> sels[1..][i - 1] == sels[i];
  }

  lemma {:induction false} DefaultFieldCost(env: Env, s: Selection, parentType: Option<string>,
                                            parentMultiplier: int, recursionMultiplier: int, path: seq<string>,
                                            rank: map<string, nat>, bound: nat)
    requires env.costMap == map[]
    requires Ranked(env.fragments, rank) && SpreadBelow(env.fragments, rank, bound, s)
    requires PlainField(s, path)
    ensures SelectionCost(env, s, parentType, parentMultiplier, recursionMultiplier, path, rank, bound)
         == Ok((env.defaultCost * SelectionFieldCount(s), recursionMultiplier))
    decreases s
  {
    if s.InlineFragment? {
      DefaultCostCountsFields(env, s.selections, TypeNamed(env.schema, s.typeCondition.value), parentMultiplier,
                              recursionMultiplier, path, rank, bound);
    } else {
      var props := FieldCostProps(env.costMap, env.defaultCost, parentType, s.name);
      assert props == DefaultCostProps(env.defaultCost);
      assert OnlyAvailableFields(env, s, props.provided, rank, bound) == Ok(false);
      assert ComputeFieldCost(props, OwnMultiplier(props.multipliers, s.arguments, None), parentMultiplier)
          == (env.defaultCost, 0);
      match s.selectionSet {
        case NoSelectionSet =>
        case SelectionSet(ss) =>
          NoRecursionWithoutRepeat(s.name, path, recursionMultiplier);
          var info := GetFieldInfo(env.schema, parentType, s.name, s.argumentValues);
          DefaultCostCountsFields(env, ss, info.fieldType, parentMultiplier, recursionMultiplier,
                                  path + [s.name], rank, bound);
          ScaleCount(env.defaultCost, 1, FieldCount(ss));
      }
    }
  }

  // ------------------------------------------------------------------
  // Documents
  // ------------------------------------------------------------------

  /** An operation of an unsupported kind makes the whole document's cost
      an error, wherever it appears. */
  lemma {:induction false} UnsupportedOperationFails(env: Env, ops: seq<OperationDefinition>, i: int,
                                                     rank: map<string, nat>, top: nat)
    requires Acyclic(env.fragments, rank, top)
    requires 0 <= i < |ops|
    requires ops[i].operation != "query" && ops[i].operation != "mutation" && ops[i].operation != "subscription"
    ensures OperationsCost(env, ops, rank, top).Err?
    decreases |ops|
  {
    if i > 0 {
      assert ops[1..][i - 1] == ops[i];
      UnsupportedOperationFails(env, ops[1..], i - 1, rank, top);
    }
  }
}

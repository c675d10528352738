/** The cost visitor of lib/costVisitor.js. It walks an operation's selections
    against the cost table and returns one number per document.

    The first half gives each routine of the source as a specification
    function. The second half gives the routines that work by updating
    variables in loops (getFieldMultiplier, getNodeCost, getFieldCost and the
    visitor's running total) as methods, each proved equal to its function.

    The source records the ancestor path on shared AST nodes (`fullpath`).
    Here the path is a parameter: `path` is always what the source computes
    as `buildFullPath(parentAST)`, the path the parent's children get. */
module CostVisitor {
  import opened CostSpec
  import opened QueryAst

  /** `CostValidationError` is the one error the source raises on purpose.
      `TypeError` stands for the JavaScript exceptions the source throws when
      it reads a property of a node that is not there. */
  datatype CostError = CostValidationError(operation: string) | TypeError

  datatype Result<+T> = Ok(value: T) | Err(error: CostError) {
    predicate IsFailure() {
      Err?
    }

    function PropagateFailure<U>(): Result<U>
      requires Err?
    {
      Err(error)
    }

    function Extract(): T
      requires Ok?
    {
      value
    }
  }

  /** The pagination wrapper names that are never penalised as recursion. */
  const ReservedLeafs: seq<string> := ["node", "edges"]

  /** The recursion base in force when no cost-table entry sets one. */
  const DefaultRecursionMultiplier: int := 100

  /** What one walk reads and never changes. */
  datatype Env = Env(schema: Schema, costMap: CostTable, defaultCost: int,
                     fragments: map<string, FragmentDefinition>)

  // ------------------------------------------------------------------
  // Specification functions
  // ------------------------------------------------------------------

  /** getOperationTypeDefs: the root type for the operation kind. Only an
      unknown kind is an error; a schema lacking that root type yields no
      type, and the walk goes on without one. */
  function OperationTypeDefs(schema: Schema, operation: string): (r: Result<Option<string>>)
    ensures r.Err? <==> operation != "query" && operation != "mutation" && operation != "subscription"
    ensures r.Err? ==> r.error == CostValidationError(operation)
    ensures operation == "query" ==> r == Ok(schema.queryType)
    ensures operation == "mutation" ==> r == Ok(schema.mutationType)
    ensures operation == "subscription" ==> r == Ok(schema.subscriptionType)
  {
    if operation == "query" then Ok(schema.queryType)
    else if operation == "mutation" then Ok(schema.mutationType)
    else if operation == "subscription" then Ok(schema.subscriptionType)
    else Err(CostValidationError(operation))
  }

  /** A field's effective cost properties. */
  datatype CostProps = CostProps(complexity: int, multipliers: seq<Multiplier>, useMultipliers: bool,
                                 provided: seq<string>, tokens: int,
                                 recursionMultiplier: Option<int>)

  /** The properties of a field with no cost-table entry. */
  function DefaultCostProps(defaultCost: int): CostProps {
    CostProps(defaultCost, [], false, [], 0, None)
  }

  /** The first key of the lodash path `${baseName}.${fieldName}`: a missing
      parent type is printed as "null". */
  function BaseName(parentType: Option<string>): string {
    parentType.GetOr("null")
  }

  /** getFieldCostProps: the defaults when the table has no entry; otherwise
      the entry laid over the defaults with `useMultipliers` switched on,
      unless the entry itself sets it. */
  function FieldCostProps(costMap: CostTable, defaultCost: int, parentType: Option<string>,
                          fieldName: string): (p: CostProps)
    ensures !HasEntry(costMap, BaseName(parentType), fieldName) ==> p == DefaultCostProps(defaultCost)
    ensures HasEntry(costMap, BaseName(parentType), fieldName) ==>
      var e := costMap[BaseName(parentType)][fieldName];
      && p.complexity == e.complexity.GetOr(defaultCost)
      && p.multipliers == e.multipliers.GetOr([])
      && p.useMultipliers == e.useMultipliers.GetOr(true)
      && p.provided == e.provided.GetOr([])
      && p.tokens == e.tokens.GetOr(0)
      && p.recursionMultiplier == e.recursionMultiplier
  {
    var key := BaseName(parentType);
    var defaults := DefaultCostProps(defaultCost);
    if HasEntry(costMap, key, fieldName) then
      var e := costMap[key][fieldName];
      // { ...defaults, useMultipliers: true, ...entry }
      var base := defaults.(useMultipliers := true);
      CostProps(e.complexity.GetOr(base.complexity),
                e.multipliers.GetOr(base.multipliers),
                e.useMultipliers.GetOr(base.useMultipliers),
                e.provided.GetOr(base.provided),
                e.tokens.GetOr(base.tokens),
                if e.recursionMultiplier.Some? then e.recursionMultiplier else base.recursionMultiplier)
    else
      defaults
  }

  /** The fields a parent type exposes: only object and interface types
      have any. */
  function TypeFields(schema: Schema, parentType: Option<string>): map<string, string> {
    if parentType.Some? && parentType.value in schema.types && schema.types[parentType.value].hasFields
    then schema.types[parentType.value].fields
    else map[]
  }

  datatype FieldInfo = FieldInfo(fieldType: Option<string>, argumentValues: Option<map<string, ArgValue>>)

  /** getFieldInfo: both the field's result type and its argument values are
      known exactly when the parent type defines the field. */
  function GetFieldInfo(schema: Schema, parentType: Option<string>, name: string,
                        argumentValues: map<string, ArgValue>): (r: FieldInfo)
    ensures r.fieldType.Some? <==> name in TypeFields(schema, parentType)
    ensures r.argumentValues.Some? <==> name in TypeFields(schema, parentType)
    ensures r.fieldType.Some? ==> r.fieldType.value == TypeFields(schema, parentType)[name]
    ensures r.argumentValues.Some? ==> r.argumentValues.value == argumentValues
  {
    var fields := TypeFields(schema, parentType);
    if name in fields then FieldInfo(Some(fields[name]), Some(argumentValues))
    else FieldInfo(None, None)
  }

  /** The first loop of getFieldMultiplier: each resolved argument among
      `keys` that is a list contributes its length, a number itself;
      other values are skipped. */
  function ResolvedMultipliers(values: map<string, ArgValue>, keys: set<string>): map<Multiplier, int> {
    map k | k in keys && k in values && !values[k].OtherArg? ::
      MName(k) := if values[k].IntArg? then values[k].n else values[k].length
  }

  /** The second loop: INT and LIST literals in the query text override, in
      order. */
  function LiteralMultipliers(values: map<Multiplier, int>, args: seq<Argument>): map<Multiplier, int>
    decreases |args|
  {
    if args == [] then values
    else
      var prev := LiteralMultipliers(values, args[..|args| - 1]);
      var a := args[|args| - 1];
      match a.value
      case IntLiteral(n) => prev[MName(a.name) := n]
      case ListLiteral(len) => prev[MName(a.name) := len]
      case OtherLiteral => prev
  }

  /** The third loop: a number in the `multipliers` list stands for itself. */
  function NumericMultipliers(values: map<Multiplier, int>, ms: seq<Multiplier>): map<Multiplier, int>
    decreases |ms|
  {
    if ms == [] then values
    else
      var prev := NumericMultipliers(values, ms[..|ms| - 1]);
      match ms[|ms| - 1]
      case MNum(n) => prev[MNum(n) := n]
      case MName(_) => prev
  }

  /** lodash `sum` of the looked-up values; an undefined one is skipped. */
  function SumLookups(values: map<Multiplier, int>, ms: seq<Multiplier>): int
    decreases |ms|
  {
    if ms == [] then 0
    else
      var m := ms[|ms| - 1];
      SumLookups(values, ms[..|ms| - 1]) + (if m in values then values[m] else 0)
  }

  /** The `multiplierValues` dictionary after the three loops. */
  function MultiplierValues(ms: seq<Multiplier>, args: seq<Argument>,
                            argumentValues: Option<map<string, ArgValue>>): map<Multiplier, int> {
    var resolved := if argumentValues.Some? then ResolvedMultipliers(argumentValues.value, argumentValues.value.Keys)
                    else map[];
    NumericMultipliers(LiteralMultipliers(resolved, args), ms)
  }

  /** getFieldMultiplier: the field's own multiplier. */
  function OwnMultiplier(ms: seq<Multiplier>, args: seq<Argument>,
                         argumentValues: Option<map<string, ArgValue>>): int {
    if |ms| == 0 then 0 else SumLookups(MultiplierValues(ms, args, argumentValues), ms)
  }

  /** The multiplier computeFieldCost returns: the own multiplier, scaled by
      an active parent multiplier when the field uses multipliers. */
  function EffectiveMultiplier(useMultipliers: bool, own: int, parentMultiplier: int): int {
    if useMultipliers && parentMultiplier > 0 then (if own > 0 then own else 1) * parentMultiplier
    else own
  }

  /** What the field's tokens add: scaled by the parent multiplier only. */
  function TokenCharge(p: CostProps, parentMultiplier: int): int {
    if p.useMultipliers && parentMultiplier > 0 then p.tokens * parentMultiplier else p.tokens
  }

  /** computeFieldCost: the field's own cost and the multiplier it passes to
      its children. */
  function ComputeFieldCost(p: CostProps, own: int, parentMultiplier: int): (r: (int, int))
    ensures r.1 == EffectiveMultiplier(p.useMultipliers, own, parentMultiplier)
    ensures r.0 == (if r.1 > 0 then p.complexity * r.1 else p.complexity) + TokenCharge(p, parentMultiplier)
  {
    var totalMultiplier := if p.useMultipliers && parentMultiplier > 0
                           then (if own > 0 then own else 1) * parentMultiplier
                           else own;
    var fieldCost := if totalMultiplier > 0 then p.complexity * totalMultiplier else p.complexity;
    var withTokens := if p.tokens != 0 && p.useMultipliers && parentMultiplier > 0 then fieldCost + p.tokens * parentMultiplier
                      else if p.tokens != 0 then fieldCost + p.tokens
                      else fieldCost;
    (withTokens, totalMultiplier)
  }

  /** The number of times `name` occurs in `path`. */
  function CountOf(path: seq<string>, name: string): nat
    decreases |path|
  {
    if path == [] then 0
    else CountOf(path[..|path| - 1], name) + (if path[|path| - 1] == name then 1 else 0)
  }

  function Pow(b: int, e: nat): int
    decreases e
  {
    if e == 0 then 1 else b * Pow(b, e - 1)
  }

  /** getRecursion: the recursion penalty of a field with a selection set:
      the base raised to the number of times its name occurs among its
      ancestors; 1 for the reserved wrapper names. */
  function RecursionFactor(name: string, path: seq<string>, recursionMultiplier: int): (r: int)
    ensures name in ReservedLeafs ==> r == 1
    ensures name !in ReservedLeafs ==> r == Pow(recursionMultiplier, CountOf(path, name))
  {
    if name in ReservedLeafs then 1
    else
      var dupes := CountOf(path, name);
      if dupes > 0 then Pow(recursionMultiplier, dupes) else 1
  }

  /** buildFullPath: a node's children inherit its path extended by its
      name, if it has one. */
  function BuildFullPath(path: seq<string>, name: Option<string>): (r: seq<string>)
    ensures name.None? ==> r == path
    ensures name.Some? ==> r == path + [name.value]
  {
    if name.Some? then path + [name.value] else path
  }

  /** checkAvailable of onlyAvailabeFieldsInSelection: every selection is
      available, looking through fragments. A spread counts only if its
      fragment's selections and its own name are available. Reading the name
      of an inline fragment whose selections passed throws, and so does a
      spread of an undefined fragment. */
  function CheckAvailable(env: Env, sels: seq<Selection>, available: set<string>,
                          ghost rank: map<string, nat>, ghost bound: nat): Result<bool>
    requires Ranked(env.fragments, rank) && SpreadsBelow(env.fragments, rank, bound, sels)
    decreases bound, sels
  {
    if sels == [] then Ok(true)
    else
      assert SpreadBelow(env.fragments, rank, bound, sels[0]);
      match sels[0]
      case Field(name, _, _, _) =>
        if name !in available then Ok(false)
        else CheckAvailable(env, sels[1..], available, rank, bound)
      case InlineFragment(_, ss) =>
        var inner :- CheckAvailable(env, ss, available, rank, bound);
        if !inner then Ok(false) else Err(TypeError)
      case FragmentSpread(n) =>
        if n !in env.fragments then Err(TypeError)
        else
          var inner :- CheckAvailable(env, env.fragments[n].selections, available, rank, rank[n]);
          if !inner || n !in available then Ok(false)
          else CheckAvailable(env, sels[1..], available, rank, bound)
  }

  /** onlyAvailabeFieldsInSelection: a field is elided when it has a
      non-empty `provides` list and a non-empty selection whose every entry
      is provided or `__typename`. */
  function OnlyAvailableFields(env: Env, f: Selection, provided: seq<string>,
                               ghost rank: map<string, nat>, ghost bound: nat): Result<bool>
    requires f.Field? && Ranked(env.fragments, rank) && SpreadBelow(env.fragments, rank, bound, f)
  {
    var sels := if f.selectionSet.SelectionSet? then f.selectionSet.selections else [];
    if |provided| == 0 || |sels| == 0 then Ok(false)
    else CheckAvailable(env, sels, (set p | p in provided) + {"__typename"}, rank, bound)
  }

  /** The recursion multiplier the later siblings of `s` see: a field whose
      cost properties carry a non-zero `recursionMultiplier` replaces it
      (getNodeCost reassigns its loop variable); fragments leave it alone. */
  function NextRecursionMultiplier(env: Env, s: Selection, parentType: Option<string>,
                                   recursionMultiplier: int): int {
    if s.Field? then
      var props := FieldCostProps(env.costMap, env.defaultCost, parentType, s.name);
      if props.recursionMultiplier.Some? && props.recursionMultiplier.value != 0
      then props.recursionMultiplier.value
      else recursionMultiplier
    else recursionMultiplier
  }

  /** getNodeCost: the summed cost of a selection list, left to right, each
      selection seeing the recursion multiplier its earlier siblings left. */
  function SelectionsCost(env: Env, sels: seq<Selection>, parentType: Option<string>,
                          parentMultiplier: int, recursionMultiplier: int, path: seq<string>,
                          ghost rank: map<string, nat>, ghost bound: nat): Result<int>
    requires Ranked(env.fragments, rank) && SpreadsBelow(env.fragments, rank, bound, sels)
    decreases bound, sels, 2
  {
    if sels == [] then Ok(0)
    else
      var first :- SelectionCost(env, sels[0], parentType, parentMultiplier, recursionMultiplier, path, rank, bound);
      var rest :- SelectionsCost(env, sels[1..], parentType, parentMultiplier, first.1, path, rank, bound);
      Ok(first.0 + rest)
  }

  /** One iteration of getNodeCost's loop: the selection's cost, and the
      recursion multiplier the next sibling sees. A fragment (getAST,
      getASTAndTypeDefs) costs its selections under its type condition with
      the parent multiplier and recursion multiplier unchanged. */
  function SelectionCost(env: Env, s: Selection, parentType: Option<string>,
                         parentMultiplier: int, recursionMultiplier: int, path: seq<string>,
                         ghost rank: map<string, nat>, ghost bound: nat): (r: Result<(int, int)>)
    requires Ranked(env.fragments, rank) && SpreadBelow(env.fragments, rank, bound, s)
    ensures r.Ok? ==> r.value.1 == NextRecursionMultiplier(env, s, parentType, recursionMultiplier)
    decreases bound, s, 1
  {
    match s
    case InlineFragment(typeCondition, ss) =>
      if typeCondition.None? then Err(TypeError)
      else
        var c :- SelectionsCost(env, ss, TypeNamed(env.schema, typeCondition.value), parentMultiplier,
                                recursionMultiplier, BuildFullPath(path, None), rank, bound);
        Ok((c, recursionMultiplier))
    case FragmentSpread(n) =>
      if n !in env.fragments then Err(TypeError)
      else
        var frag := env.fragments[n];
        var c :- SelectionsCost(env, frag.selections, TypeNamed(env.schema, frag.typeCondition), parentMultiplier,
                                recursionMultiplier, BuildFullPath(path, Some(n)), rank, rank[n]);
        Ok((c, recursionMultiplier))
    case Field(name, _, _, _) =>
      var props := FieldCostProps(env.costMap, env.defaultCost, parentType, name);
      var rm := if props.recursionMultiplier.Some? && props.recursionMultiplier.value != 0
                then props.recursionMultiplier.value else recursionMultiplier;
      var c :- FieldTotal(env, s, props, parentType, parentMultiplier, rm, path, rank, bound);
      Ok((c, rm))
  }

  /** getFieldCost: the field's own cost (1 when elided), plus its children's
      cost when it has a selection set, times the recursion penalty. */
  function FieldTotal(env: Env, f: Selection, props: CostProps, parentType: Option<string>,
                      parentMultiplier: int, recursionMultiplier: int, path: seq<string>,
                      ghost rank: map<string, nat>, ghost bound: nat): Result<int>
    requires f.Field? && Ranked(env.fragments, rank) && SpreadBelow(env.fragments, rank, bound, f)
    decreases bound, f, 0
  {
    var info := GetFieldInfo(env.schema, parentType, f.name, f.argumentValues);
    var available :- OnlyAvailableFields(env, f, props.provided, rank, bound);
    var own := if available then (1, 0)
               else ComputeFieldCost(props, OwnMultiplier(props.multipliers, f.arguments, info.argumentValues),
                                     parentMultiplier);
    match f.selectionSet
    case NoSelectionSet => Ok(own.0)
    case SelectionSet(ss) =>
      var applied := RecursionFactor(f.name, path, recursionMultiplier);
      var childCost :- SelectionsCost(env, ss, info.fieldType, if own.1 != 0 then own.1 else parentMultiplier,
                                      recursionMultiplier, BuildFullPath(path, Some(f.name)), rank, bound);
      Ok((own.0 + childCost) * applied)
  }

  /** OperationDefinition.enter: the root type for the operation's kind, then
      its selections with no active parent multiplier and the default
      recursion base. */
  function OperationCost(env: Env, op: OperationDefinition, ghost rank: map<string, nat>, ghost top: nat): Result<int>
    requires Acyclic(env.fragments, rank, top)
  {
    var typeDefs :- OperationTypeDefs(env.schema, op.operation);
    SpreadsBelowTop(env.fragments, rank, top, op.selections);
    SelectionsCost(env, op.selections, typeDefs, 0, DefaultRecursionMultiplier,
                   BuildFullPath([], op.name), rank, top)
  }

  /** The visitor's `totalCost`: the sum over operations in document order. */
  function OperationsCost(env: Env, ops: seq<OperationDefinition>, ghost rank: map<string, nat>, ghost top: nat): Result<int>
    requires Acyclic(env.fragments, rank, top)
    decreases |ops|
  {
    if ops == [] then Ok(0)
    else
      var first :- OperationCost(env, ops[0], rank, top);
      var rest :- OperationsCost(env, ops[1..], rank, top);
      Ok(first + rest)
  }

  /** The cost of a whole document. */
  function DocumentCost(schema: Schema, costMap: CostTable, defaultCost: int, doc: Document,
                        ghost rank: map<string, nat>, ghost top: nat): Result<int>
    requires Acyclic(doc.fragments, rank, top)
  {
    OperationsCost(Env(schema, costMap, defaultCost, doc.fragments), doc.operations, rank, top)
  }

  // ------------------------------------------------------------------
  // The imperative routines
  // ------------------------------------------------------------------

  /** `k + v` when `r` is `Ok(v)`; the error otherwise. */
  function Shifted(k: int, r: Result<int>): Result<int> {
    match r
    case Ok(v) => Ok(k + v)
    case Err(e) => Err(e)
  }

  /** The first loop of getFieldMultiplier, over the resolved argument
      values in any order. */
  method ResolvedLoop(resolved: map<string, ArgValue>) returns (values: map<Multiplier, int>)
    ensures values == ResolvedMultipliers(resolved, resolved.Keys)
  {
    values := map[];
    var pending := resolved.Keys;
    while pending != {}
      invariant pending <= resolved.Keys
      invariant values == ResolvedMultipliers(resolved, resolved.Keys - pending)
      decreases pending
    {
      var k :| k in pending;
      match resolved[k] {
        case ListArg(len) => values := values[MName(k) := len];
        case IntArg(n) => values := values[MName(k) := n];
        case OtherArg =>
      }
      pending := pending - {k};
    }
    assert resolved.Keys - pending == resolved.Keys;
  }

  /** The second loop: the INT and LIST literals of the query text. */
  method LiteralLoop(start: map<Multiplier, int>, args: seq<Argument>) returns (values: map<Multiplier, int>)
    ensures values == LiteralMultipliers(start, args)
  {
    values := start;
    var i := 0;
    while i < |args|
      invariant 0 <= i <= |args|
      invariant values == LiteralMultipliers(start, args[..i])
    {
      assert args[..i + 1][..i] == args[..i];
      var a := args[i];
      match a.value {
        case IntLiteral(n) => values := values[MName(a.name) := n];
        case ListLiteral(len) => values := values[MName(a.name) := len];
        case OtherLiteral =>
      }
      i := i + 1;
    }
    assert args[..|args|] == args;
  }

  /** The third loop: the numbers of the `multipliers` list. */
  method NumericLoop(start: map<Multiplier, int>, ms: seq<Multiplier>) returns (values: map<Multiplier, int>)
    ensures values == NumericMultipliers(start, ms)
  {
    values := start;
    var j := 0;
    while j < |ms|
      invariant 0 <= j <= |ms|
      invariant values == NumericMultipliers(start, ms[..j])
    {
      assert ms[..j + 1][..j] == ms[..j];
      if ms[j].MNum? {
        values := values[ms[j] := ms[j].n];
      }
      j := j + 1;
    }
    assert ms[..|ms|] == ms;
  }

  /** The final `sum`, skipping entries the dictionary lacks. */
  method SumLoop(values: map<Multiplier, int>, ms: seq<Multiplier>) returns (r: int)
    ensures r == SumLookups(values, ms)
  {
    r := 0;
    var k := 0;
    while k < |ms|
      invariant 0 <= k <= |ms|
      invariant r == SumLookups(values, ms[..k])
    {
      assert ms[..k + 1][..k] == ms[..k];
      if ms[k] in values {
        r := r + values[ms[k]];
      }
      k := k + 1;
    }
    assert ms[..|ms|] == ms;
  }

  /** getFieldMultiplier: fills the `multiplierValues` dictionary in three
      loops, then sums the values the `multipliers` list names. */
  method FieldMultiplier(ms: seq<Multiplier>, args: seq<Argument>,
                         argumentValues: Option<map<string, ArgValue>>) returns (r: int)
    ensures r == OwnMultiplier(ms, args, argumentValues)
  {
    if |ms| == 0 {
      return 0;
    }
    var values: map<Multiplier, int> := map[];
    if argumentValues.Some? {
      values := ResolvedLoop(argumentValues.value);
    }
    values := LiteralLoop(values, args);
    values := NumericLoop(values, ms);
    r := SumLoop(values, ms);
  }

  /** The selection list from index `i` on: the selection at `i`, then the
      rest from the recursion multiplier it leaves. */
  lemma SelectionsCostAt(env: Env, sels: seq<Selection>, i: nat, parentType: Option<string>,
                         parentMultiplier: int, recursionMultiplier: int, path: seq<string>,
                         rank: map<string, nat>, bound: nat)
    requires i < |sels| && Ranked(env.fragments, rank) && SpreadsBelow(env.fragments, rank, bound, sels)
    ensures SpreadBelow(env.fragments, rank, bound, sels[i])
    ensures SpreadsBelow(env.fragments, rank, bound, sels[i + 1..])
    ensures var first := SelectionCost(env, sels[i], parentType, parentMultiplier, recursionMultiplier, path, rank, bound);
      SelectionsCost(env, sels[i..], parentType, parentMultiplier, recursionMultiplier, path, rank, bound)
      == if first.Err? then Err(first.error)
         else Shifted(first.value.0, SelectionsCost(env, sels[i + 1..], parentType, parentMultiplier,
                                                    first.value.1, path, rank, bound))
  {
    assert sels[i..][0] == sels[i] && sels[i..][1..] == sels[i + 1..];
    assert SpreadBelow(env.fragments, rank, bound, sels[i]);
  }

  /** getNodeCost: loops over the selections, accumulating `nodeCost` and
      reassigning the recursion multiplier whenever a field's entry sets
      one. */
  method NodeCost(env: Env, sels: seq<Selection>, parentType: Option<string>,
                  parentMultiplier: int, recursionMultiplier: int, path: seq<string>,
                  ghost rank: map<string, nat>, ghost bound: nat) returns (r: Result<int>)
    requires Ranked(env.fragments, rank) && SpreadsBelow(env.fragments, rank, bound, sels)
    ensures r == SelectionsCost(env, sels, parentType, parentMultiplier, recursionMultiplier, path, rank, bound)
    decreases bound, sels, 2
  {
    var nodeCost := 0;
    var rm := recursionMultiplier;
    var i := 0;
    while i < |sels|
      invariant 0 <= i <= |sels|
      invariant SelectionsCost(env, sels, parentType, parentMultiplier, recursionMultiplier, path, rank, bound)
                == Shifted(nodeCost, SelectionsCost(env, sels[i..], parentType, parentMultiplier, rm, path, rank, bound))
    {
      SelectionsCostAt(env, sels, i, parentType, parentMultiplier, rm, path, rank, bound);
      var c := ChildCost(env, sels[i], parentType, parentMultiplier, rm, path, rank, bound);
      if c.Err? {
        return Err(c.error);
      }
      nodeCost := nodeCost + c.value.0;
      rm := c.value.1;
      i := i + 1;
    }
    r := Ok(nodeCost);
  }

  /** One iteration of getNodeCost's loop: a fragment's selections are
      costed under its type condition; a field's cost properties may reset
      the recursion multiplier before the field is costed. */
  method ChildCost(env: Env, child: Selection, parentType: Option<string>,
                   parentMultiplier: int, recursionMultiplier: int, path: seq<string>,
                   ghost rank: map<string, nat>, ghost bound: nat) returns (r: Result<(int, int)>)
    requires Ranked(env.fragments, rank) && SpreadBelow(env.fragments, rank, bound, child)
    ensures r == SelectionCost(env, child, parentType, parentMultiplier, recursionMultiplier, path, rank, bound)
    decreases bound, child, 1
  {
    var rm := recursionMultiplier;
    match child {
      case InlineFragment(typeCondition, ss) =>
        if typeCondition.None? {
          return Err(TypeError);
        }
        var c := NodeCost(env, ss, TypeNamed(env.schema, typeCondition.value), parentMultiplier, rm,
                          BuildFullPath(path, None), rank, bound);
        if c.Err? {
          return Err(c.error);
        }
        r := Ok((c.value, rm));
      case FragmentSpread(n) =>
        if n !in env.fragments {
          return Err(TypeError);
        }
        var frag := env.fragments[n];
        var c := NodeCost(env, frag.selections, TypeNamed(env.schema, frag.typeCondition), parentMultiplier, rm,
                          BuildFullPath(path, Some(n)), rank, rank[n]);
        if c.Err? {
          return Err(c.error);
        }
        r := Ok((c.value, rm));
      case Field(name, _, _, _) =>
        var props := FieldCostProps(env.costMap, env.defaultCost, parentType, name);
        if props.recursionMultiplier.Some? && props.recursionMultiplier.value != 0 {
          rm := props.recursionMultiplier.value;
        }
        var c := FieldCost(env, child, props, parentType, parentMultiplier, rm, path, rank, bound);
        if c.Err? {
          return Err(c.error);
        }
        r := Ok((c.value, rm));
    }
  }

  /** getFieldCost. */
  method FieldCost(env: Env, f: Selection, props: CostProps, parentType: Option<string>,
                   parentMultiplier: int, recursionMultiplier: int, path: seq<string>,
                   ghost rank: map<string, nat>, ghost bound: nat) returns (r: Result<int>)
    requires f.Field? && Ranked(env.fragments, rank) && SpreadBelow(env.fragments, rank, bound, f)
    ensures r == FieldTotal(env, f, props, parentType, parentMultiplier, recursionMultiplier, path, rank, bound)
    decreases bound, f, 0
  {
    var info := GetFieldInfo(env.schema, parentType, f.name, f.argumentValues);
    var available := OnlyAvailableFields(env, f, props.provided, rank, bound);
    if available.Err? {
      return Err(available.error);
    }
    var fieldCost, multiplier;
    if available.value {
      fieldCost, multiplier := 1, 0;
    } else {
      var own := FieldMultiplier(props.multipliers, f.arguments, info.argumentValues);
      var c := ComputeFieldCost(props, own, parentMultiplier);
      fieldCost, multiplier := c.0, c.1;
    }
    if f.selectionSet.SelectionSet? {
      var applied := RecursionFactor(f.name, path, recursionMultiplier);
      var childCost := NodeCost(env, f.selectionSet.selections, info.fieldType,
                                if multiplier != 0 then multiplier else parentMultiplier,
                                recursionMultiplier, BuildFullPath(path, Some(f.name)), rank, bound);
      if childCost.Err? {
        return Err(childCost.error);
      }
      fieldCost := (fieldCost + childCost.value) * applied;
    }
    r := Ok(fieldCost);
  }

  /** The operations from index `i` on: the one at `i`, then the rest. */
  lemma OperationsCostAt(env: Env, ops: seq<OperationDefinition>, i: nat, rank: map<string, nat>, top: nat)
    requires i < |ops| && Acyclic(env.fragments, rank, top)
    ensures var first := OperationCost(env, ops[i], rank, top);
      OperationsCost(env, ops[i..], rank, top)
      == if first.Err? then Err(first.error) else Shifted(first.value, OperationsCost(env, ops[i + 1..], rank, top))
  {
    assert ops[i..][0] == ops[i] && ops[i..][1..] == ops[i + 1..];
  }

  /** OperationDefinition.enter: the cost of one operation. */
  method OperationEnter(env: Env, op: OperationDefinition, ghost rank: map<string, nat>, ghost top: nat)
    returns (r: Result<int>)
    requires Acyclic(env.fragments, rank, top)
    ensures r == OperationCost(env, op, rank, top)
  {
    var typeDefs := OperationTypeDefs(env.schema, op.operation);
    if typeDefs.Err? {
      return Err(typeDefs.error);
    }
    SpreadsBelowTop(env.fragments, rank, top, op.selections);
    r := NodeCost(env, op.selections, typeDefs.value, 0, DefaultRecursionMultiplier,
                  BuildFullPath([], op.name), rank, top);
  }

  /** The visitor: `OperationDefinition.enter` adds each operation's cost to
      `totalCost`; an error aborts the whole computation. */
  method CalculateCost(schema: Schema, costMap: CostTable, defaultCost: int, doc: Document,
                       ghost rank: map<string, nat>, ghost top: nat) returns (r: Result<int>)
    requires Acyclic(doc.fragments, rank, top)
    ensures r == DocumentCost(schema, costMap, defaultCost, doc, rank, top)
  {
    var env := Env(schema, costMap, defaultCost, doc.fragments);
    var ops := doc.operations;
    assert DocumentCost(schema, costMap, defaultCost, doc, rank, top) == OperationsCost(env, ops, rank, top);
    var totalCost := 0;
    var i := 0;
    while i < |ops|
      invariant 0 <= i <= |ops|
      invariant OperationsCost(env, ops, rank, top) == Shifted(totalCost, OperationsCost(env, ops[i..], rank, top))
    {
      OperationsCostAt(env, ops, i, rank, top);
      var nodeCost := OperationEnter(env, ops[i], rank, top);
      if nodeCost.Err? {
        return Err(nodeCost.error);
      }
      totalCost := totalCost + nodeCost.value;
      i := i + 1;
    }
    r := Ok(totalCost);
  }
}

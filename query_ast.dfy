/** The parsed query document the cost visitor walks, the part of the schema
    it consults, and the ranking of fragment definitions that makes the walk
    terminate. */
module QueryAst {
  import opened CostSpec

  /** A field argument's value after variables are bound and schema defaults
      applied (what graphql-js `getArgumentValues` returns). `OtherArg` stands
      for every value `isNaN` holds of: non-numeric strings, enum values,
      input objects. */
  datatype ArgValue = IntArg(n: int) | ListArg(length: nat) | OtherArg

  /** The kind of an argument's literal value in the query text: an INT
      literal, a LIST literal (with its number of elements), or anything else
      (a variable, a string, a float, an enum, an object). */
  datatype LiteralValue = IntLiteral(n: int) | ListLiteral(length: nat) | OtherLiteral

  datatype Argument = Argument(name: string, value: LiteralValue)

  /** A field's optional `{ ... }` block. */
  datatype SelectionSet = NoSelectionSet | SelectionSet(selections: seq<Selection>)

  /** A selection node. `argumentValues` are the field's resolved argument
      values; they are consulted only when the parent type defines the field,
      as in the source. */
  datatype Selection =
    | Field(name: string, arguments: seq<Argument>, argumentValues: map<string, ArgValue>,
            selectionSet: SelectionSet)
    | InlineFragment(typeCondition: Option<string>, selections: seq<Selection>)
    | FragmentSpread(name: string)

  datatype FragmentDefinition = FragmentDefinition(typeCondition: string, selections: seq<Selection>)

  /** `operation` is the operation kind as written (`query`, `mutation`, ...). */
  datatype OperationDefinition =
    OperationDefinition(operation: string, name: Option<string>, selections: seq<Selection>)

  /** Operations in document order; fragment definitions by name (the name
      lookup of graphql-js `ValidationContext.getFragment`). */
  datatype Document = Document(operations: seq<OperationDefinition>,
                               fragments: map<string, FragmentDefinition>)

  /** What the walk needs of a named type: whether it is an object or
      interface type (only those expose fields) and the named result type of
      each of its fields. */
  datatype TypeDefinition = TypeDefinition(hasFields: bool, fields: map<string, string>)

  /** Named types and the root operation types, each possibly absent. */
  datatype Schema = Schema(types: map<string, TypeDefinition>,
                           queryType: Option<string>,
                           mutationType: Option<string>,
                           subscriptionType: Option<string>)

  /** `schema.getType(name)`: the type if the schema defines one by that name. */
  function TypeNamed(schema: Schema, name: string): (r: Option<string>)
    ensures r.Some? <==> name in schema.types
    ensures r.Some? ==> r.value == name
  {
    if name in schema.types then Some(name) else None
  }

  /** Every fragment spread in `sels` (looking through fields and inline
      fragments, not through other fragments) that names a defined fragment
      names one of rank below `bound`. */
  ghost predicate SpreadsBelow(frags: map<string, FragmentDefinition>, rank: map<string, nat>,
                               bound: nat, sels: seq<Selection>)
    decreases sels
  {
    forall i :: 0 <= i < |sels| ==> SpreadBelow(frags, rank, bound, sels[i])
  }

  ghost predicate SpreadBelow(frags: map<string, FragmentDefinition>, rank: map<string, nat>,
                              bound: nat, s: Selection)
    decreases s
  {
    match s
    case Field(_, _, _, NoSelectionSet) => true
    case Field(_, _, _, SelectionSet(ss)) => SpreadsBelow(frags, rank, bound, ss)
    case InlineFragment(_, ss) => SpreadsBelow(frags, rank, bound, ss)
    case FragmentSpread(n) => n in frags ==> n in rank && rank[n] < bound
  }

  /** `rank` orders the fragment definitions: a fragment only spreads
      fragments of smaller rank. Such a ranking exists exactly when no
      fragment reaches itself through spreads. */
  ghost predicate Ranked(frags: map<string, FragmentDefinition>, rank: map<string, nat>) {
    forall n :: n in frags ==> n in rank && SpreadsBelow(frags, rank, rank[n], frags[n].selections)
  }

  /** The fragments are ranked, and every rank is below `top`. */
  ghost predicate Acyclic(frags: map<string, FragmentDefinition>, rank: map<string, nat>, top: nat) {
    Ranked(frags, rank) && forall n :: n in frags ==> rank[n] < top
  }

  /** Below `top`, every selection list meets the ranking bound. */
  lemma {:induction false} SpreadsBelowTop(frags: map<string, FragmentDefinition>, rank: map<string, nat>,
                                           top: nat, sels: seq<Selection>)
    requires Acyclic(frags, rank, top)
    ensures SpreadsBelow(frags, rank, top, sels)
    decreases sels
  {
    forall i | 0 <= i < |sels|
      ensures SpreadBelow(frags, rank, top, sels[i])
    {
      match sels[i]
      case Field(_, _, _, NoSelectionSet) =>
      case Field(_, _, _, SelectionSet(ss)) => SpreadsBelowTop(frags, rank, top, ss);
      case InlineFragment(_, ss) => SpreadsBelowTop(frags, rank, top, ss);
      case FragmentSpread(n) =>
    }
  }
}

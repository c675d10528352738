# graphql-query-cost in Dafny

A model of the two core parts of `graphql-query-cost`, a library that
estimates what a GraphQL query will cost before it runs.

- **Cost visitor** (`lib/costVisitor.js`). It walks each operation of a
  query document and sums the cost of its fields. A field's cost comes from
  its entry in a *cost table* (type name → field name → entry), or from the
  default cost when the table has no entry for it. The walk applies these
  rules:
  - The field's own *multipliers* scale its cost. A multiplier is an
    argument's value, or the length of a list argument.
  - An *inherited parent multiplier* scales the fields that use
    multipliers.
  - *Tokens* are flat extra charges. Only the parent multiplier scales
    them.
  - A field with a selection set costs its own cost plus its children's
    cost, times a *recursion penalty*. The penalty is 1 for fields named
    `node` or `edges`. For any other name it is the recursion base raised
    to the number of times the name occurs in the field's path. The path
    holds the operation's name, the names of the enclosing fields and the
    names of the fragments spread on the way down. The base is 100
    unless a cost entry's `recursionMultiplier` overrides it, and an
    override holds for every later sibling.
  - A field is *elided* when its cost entry's `provides` list, plus
    `__typename`, covers its whole selection. Its own cost is then 1
    instead of the computed cost. Its selection is still costed, under the
    parent multiplier, and the sum is still multiplied by the recursion
    penalty.
  - Inline fragments and fragment spreads are costed under their type
    condition.
- **Directive extractor** (`lib/costExtractor.js`). It reads `@cost(...)`
  directives on the fields of object types and type extensions, and builds
  the cost table from them. Each argument is checked by its validator and
  dropped if it fails; `network` and `db` become tokens worth 100 each.
  The extractor then removes the directives and the `@cost` directive
  definition, which gives the clean schema.

The model has these modules:

| module | contents |
|---|---|
| `CostSpec` | The cost-table entry shared by both parts. |
| `QueryAst` | The parsed query and the part of the schema the visitor reads. Also a ranking of fragment definitions, which rules out cyclic fragments. |
| `CostVisitor` | Specification functions for every visitor function. Imperative methods for the loops: **FieldMultiplier** (getFieldMultiplier), **NodeCost** and **FieldCost** (getNodeCost, getFieldCost), and **CalculateCost** (the visitor's running total). Each method is proved equal to its function. |
| `CostVisitorProperties` | Reference definitions and the laws the cost obeys. |
| `CostVisitorExamples` | Costs that the repository's tests expect, derived from those laws, and one test total the code does not give (see Findings). |
| `CostExtractor` | The SDL definitions the extractor sees, specification functions, and methods: the argument loop, the `forEach` loops, and the in-place `splice` calls on a `SdlDocument` object. |
| `CostExtractorProperties` | What the table and the clean schema hold. |

Errors are values of the `Result` type:
- `CostValidationError(operation)` for an unsupported operation kind.
- `TypeError` where the JavaScript code would throw on a missing property:
  - a spread of an undefined fragment;
  - an inline fragment without a type condition;
  - an inline fragment reached while checking `provides`, once all of its
    own selections have passed the check. A selection that fails the
    check before that point makes the check return false instead.

Behaviour of the code that is easy to misread:
- A schema without a root type for the operation's kind is not an error. The
  walk goes on with no parent type, so fields are looked up under `"null"`.
  Only an unknown operation kind fails (`CostVisitor.OperationTypeDefs`).
- With no cost table, every selected field costs the default cost, not only
  the leaves (`CostVisitorProperties.DefaultCostCountsFields`).
- The `multipliers` validator accepts non-empty arrays of strings only.
  `_.isString || _.isNumber` evaluates to `_.isString`
  (`CostExtractorProperties.MultipliersAcceptOnlyStrings`).

## Model

| member | source | states |
|---|---|---|
| CostVisitor.OperationTypeDefs | lib/costVisitor.js:24-37 | The result is an error exactly when the kind is not query, mutation or subscription, and the error names the kind. Otherwise it is the schema's root type for that kind, which may be absent. |
| CostVisitor.FieldCostProps | lib/costVisitor.js:157-172 | Without an own table entry under the parent's name (or "null"), the defaults apply. Inherited `Object.prototype` members found by the lookup are not modelled (see Left out). With one, each key the entry sets overrides its default, and `useMultipliers` defaults to true. |
| CostVisitor.GetFieldInfo | lib/costVisitor.js:75-92 | The field type and the argument values are known exactly when the parent type defines the field, and they are its schema type and the resolved values. |
| CostVisitor.ComputeFieldCost | lib/costVisitor.js:94-122 | The multiplier passed down is the own multiplier (at least 1) times an active parent multiplier when the field uses multipliers, and the own multiplier otherwise. The cost is complexity times that multiplier when it is positive, plus the tokens. |
| CostVisitor.RecursionFactor | lib/costVisitor.js:225-245 | The penalty is 1 for `node` and `edges`. For any other name it is the base raised to the number of ancestors with that name. |
| CostVisitor.BuildFullPath | lib/costVisitor.js:253-257 | Children inherit the path, extended by the node's name when it has one. |
| CostVisitor.SelectionCost | lib/costVisitor.js:278-349 | Whenever a selection costs successfully, the recursion base left for its later siblings is the one its cost entry sets (a non-zero `recursionMultiplier`), and fragments keep the base unchanged. The fragment rules are stated by `CostVisitorProperties.SpreadCost` and `CostVisitorProperties.InlineFragmentCost`, and the override of a field's own base by `CostVisitorProperties.RecursionOverride`. |
| CostVisitor.FieldMultiplier | lib/costVisitor.js:39-73 | The three loops over the multiplier dictionary and the final sum compute exactly the own multiplier of the specification. |
| CostVisitor.NodeCost | lib/costVisitor.js:260-356 | The selection loop, with its running `nodeCost` and reassigned recursion base, computes the cost of the selection list, or the first error. |
| CostVisitor.ChildCost | lib/costVisitor.js:278-349 | One pass of the selection loop: a fragment's or field's cost, with the recursion base it leaves for the next sibling, or the error it raises. |
| CostVisitor.FieldCost | lib/costVisitor.js:358-406 | The field's own cost (1 when elided), plus its children's cost when it has a selection set, times its recursion penalty. |
| CostVisitor.OperationEnter | lib/costVisitor.js:133-141 | Entering an operation adds the cost of its selection under the operation's root type, or fails for an unsupported operation kind. |
| CostVisitor.CalculateCost | lib/costVisitor.js:128-142 | `totalCost` accumulated over the operations in document order equals the document's cost, or the first error. |
| CostVisitorProperties.OwnMultiplierIsSum | lib/costVisitor.js:39-73 | The own multiplier is the sum over the `multipliers` list of what each entry stands for: a number stands for itself; a name stands for its last INT or LIST literal, or else its resolved number or list length; an undefined name adds nothing. |
| CostVisitorProperties.ParentMultiplierScaling | lib/costVisitor.js:106-119 | A field that uses multipliers, under an active parent multiplier k, costs and passes down k times what it would under k = 1. A field that does not use them costs the same as with no parent multiplier. |
| CostVisitorProperties.TokensScaleOnlyByParent | lib/costVisitor.js:115-119 | Adding d tokens adds d times the active parent multiplier (or just d) to the cost, and never changes the multiplier passed down, whatever the field's own multiplier. |
| CostVisitorProperties.RecursionExtend | lib/costVisitor.js:230-241 | One more ancestor with the same name multiplies the penalty by the base. Ancestors with other names, and the reserved names, leave it unchanged. |
| CostVisitorProperties.NoRecursionWithoutRepeat | lib/costVisitor.js:233-244 | A field whose name no ancestor has is not penalised. |
| CostVisitorProperties.CheckAvailableIff | lib/costVisitor.js:206-220 | The availability check succeeds with true exactly when every selection is covered: a field by its name, and a spread by its name together with its fragment's selections. |
| CostVisitorProperties.ElidedIff | lib/costVisitor.js:199-223 | A field is elided exactly when its `provides` list and its selection are non-empty, and every selection is covered by the provided names plus `__typename`. |
| CostVisitorProperties.ElidedFieldCost | lib/costVisitor.js:369-403 | An elided field costs 1 plus its children's cost, times its penalty. Its children see the parent multiplier, not its own. |
| CostVisitorProperties.SelectionsCostAppend | lib/costVisitor.js:278-349 | The cost of `a + b` is the cost of `a` plus the cost of `b`, where `b` starts from the recursion base that `a` left behind. An error in `a` is the result. |
| CostVisitorProperties.SpreadCost | lib/costVisitor.js:174-197 | A spread of a defined fragment costs the fragment's selections under the fragment's type condition, whatever the enclosing type. The parent multiplier and recursion base pass through, the path gains the fragment's name, the spread adds nothing itself, and its later siblings keep the base. |
| CostVisitorProperties.InlineFragmentCost | lib/costVisitor.js:279-303 | An inline fragment with a type condition costs its selections under that type, whatever the enclosing type. The parent multiplier, recursion base and path are unchanged, and it adds nothing itself. |
| CostVisitorProperties.InlineFragmentInPlace | lib/costVisitor.js:279-303 | An inline fragment on the enclosing type, at the end of a selection list, costs what its selections cost written out in its place. |
| CostVisitorProperties.RecursionOverride | lib/costVisitor.js:326-345 | A field whose entry sets a non-zero `recursionMultiplier` m costs the same whatever base it inherits. Its own penalty and its children's walk use m, and it leaves m to its later siblings. |
| CostVisitorProperties.DefaultCostCountsFields | lib/calculateCost.test.js:4-11 | With an empty cost table, and no field repeating an ancestor's name, a selection list of fields and typed inline fragments costs the default cost times its number of fields at every depth, inline fragments included, whatever the multipliers and base. |
| CostVisitorProperties.UnsupportedOperationFails | lib/costVisitor.js:133-142 | One operation of an unsupported kind, anywhere in the document, makes the whole cost an error. |
| CostVisitorExamples.RecursionExample | lib/calculateCost.recursion.test.js:58-74 | `queryDeals { pipeline { deals { pipeline { id } } } }` costs 203. |
| CostVisitorExamples.TreeExample | lib/calculateCost.recursion.test.js:451-488 | `myTree { leafs { leafs { leafs { leafs { id } } } } }` with `TreeLeaf.leafs` setting the recursion base to 1 costs 6. |
| CostVisitorExamples.MultiplierExample | lib/calculateCost.test.js:24-40 | complexity 4 with `limit` = 8 and a two-element `arrayLimit` costs 4 × (8 + 2). |
| CostVisitorExamples.FragmentOnUnknownTypeExample | lib/calculateCost.test.js:216-230 | A spread of a fragment on a type the schema lacks costs its field's default 1. |
| CostVisitorExamples.ProvidesExample | lib/calculateCost.test.js:161-184 | `field(limit: 7) { grandChild { existing } }` costs 3 × 7 + 1 + 1, because `grandChild` provides `existing`. |
| CostVisitorExamples.TokenExampleAsWritten | lib/calculateCost.test.js:435-523 | The token test's query costs 28632 as the code computes it: the inner `child` repeats its ancestor's name and is penalised 100 times. |
| CostVisitorExamples.TokenExampleWithoutPenalty | lib/calculateCost.test.js:435-523 | The same query, once `Child.child` sets the recursion base to 1, costs 240 + 46 + 6 + 26 = 318, the total the test's comments add up. |
| CostExtractor.ArgumentValue | lib/costExtractor.js:9-23 | The value is undefined exactly for literals other than int, boolean, string and list. A list maps to an array of the same length. |
| CostExtractor.DirectiveArguments | lib/costExtractor.js:25-44 | The argument loop builds exactly the entry of the specification. |
| CostExtractor.SpliceEach | lib/costExtractor.js:107-115 | A `forEach` that splices out the current element computes exactly `Spliced`: the element after each removed one is skipped. |
| CostExtractor.StoreEntry | lib/costExtractor.js:86-95 | A non-empty entry is set at `Type.field`, overwriting an earlier one. An empty entry leaves the table unchanged. |
| CostExtractor.DirectiveArgumentValues | lib/costExtractor.js:75-99 | The walk over definitions, fields and directives produces exactly the cost table of the specification. |
| CostExtractor.RemoveDirectives | lib/costExtractor.js:101-105 | Replaces the document's definitions by the definitions with the named directives spliced out of each scanned field. |
| CostExtractor.RemoveDefinitions | lib/costExtractor.js:107-115 | Replaces the document's definitions by those left after splicing out the definitions of the given kind and name. |
| CostExtractor.ExtractCost | lib/costExtractor.js:117-153 | The cost table is the `@cost` table of the definitions. The clean schema is the definitions with the `@cost` directives stripped and the `@cost` directive definition spliced out. |
| CostExtractorProperties.ArgumentValueOfLiteral | lib/costExtractor.js:9-23 | Reading the literal that denotes a defined value gives that value back. |
| CostExtractorProperties.LiteralOfArgumentValue | lib/costExtractor.js:9-23 | A literal made only of int, boolean, string and list parts is determined by its value: writing the value back out gives the literal. |
| CostExtractorProperties.MultipliersAcceptOnlyStrings | lib/costExtractor.js:136-137 | The `multipliers` validator accepts exactly the non-empty arrays of strings, and rejects arrays holding numbers. |
| CostExtractorProperties.LastValidWins | lib/costExtractor.js:28-41 | An entry holds a key exactly when some argument of that name passes its validator, and it holds the last such argument's value. |
| CostExtractorProperties.EntryEmptyIff | lib/costExtractor.js:88-94 | A directive makes an empty entry, and so no table entry, exactly when none of its arguments passes its validator. |
| CostExtractorProperties.TokensAccumulate | lib/costExtractor.js:33-36 | `tokens` is set exactly when some `network` or `db` argument is a number. It is then the sum of those values, each times 100. |
| CostExtractorProperties.ExampleEntries | lib/costExtractor.test.js:31-142 | `@cost(complexity: 2, multipliers: ["limit"], db: 1)` gives complexity 2, multipliers `["limit"]` and tokens 100. `multipliers: "limit", provides: "id"` and `multipliers: []` give empty entries. |
| CostExtractorProperties.OccurrenceIff | lib/costExtractor.js:46-73 | The directives visited are exactly the directives of the given name on fields of object type definitions and extensions. |
| CostExtractorProperties.TableEntryIff | lib/costExtractor.js:82-96 | The table has an entry at `Type.field` exactly when some occurrence there makes a non-empty entry. |
| CostExtractorProperties.LastEntryWins | lib/costExtractor.js:89-93 | The table's entry at `Type.field` is the entry of the last non-empty occurrence there. |
| CostExtractorProperties.EntriesComeFromScannedFields | lib/costExtractor.js:46-99 | Every table entry comes from a named directive on a field of a scanned definition. |
| CostExtractorProperties.SplicedKeepsOthers | lib/costExtractor.js:107-115 | Splicing while iterating loses no element that is not to be removed, and reorders none. |
| CostExtractorProperties.SplicedOnlyRemoves | lib/costExtractor.js:107-115 | Splicing while iterating only removes elements. |
| CostExtractorProperties.NoAdjacentSplicedIsWithout | lib/costExtractor.js:101-115 | When no two neighbouring elements are both targets, splicing while iterating removes every target. |
| CostExtractorProperties.SpliceSkipsSecond | lib/costExtractor.js:101-115 | The element after a removed one is kept without being examined, and the walk goes on after it. So of two neighbouring targets, the second one survives. |
| CostExtractorProperties.StripDirectivesKeepsOthers | lib/costExtractor.js:101-105 | Removing directives keeps the number of definitions, their kinds, names and numbers of fields, and leaves unscanned definitions unchanged. On a scanned field it keeps the name and every directive of another name in order, and only removes. |
| CostExtractorProperties.StripDirectivesRemovesAll | lib/costExtractor.js:101-105 | On a field without two neighbouring named directives, none of them is left. |
| CostExtractorProperties.CleanSchemaKeepsDefinitions | lib/costExtractor.js:117-132 | The clean schema keeps every definition other than the `@cost` directive definition, in order, and only removes. |

## Findings

| source | as written | input that shows it | evidently intended | confidence | as-written member | corrected member |
|---|---|---|---|---|---|---|
| lib/calculateCost.test.js:484-522 | The test expects 318, the sum of the four per-field costs in its comments. getRecursion (lib/costVisitor.js:229-241) detects recursion by field name, not by type. The inner `child` (on `Child`) has an ancestor `child` (on `Parent`), so it and its subtree are multiplied by 100: 26 + 6 + 100 × (46 + 240) = 28632. | `parent(parentMultiplier: 2) { child { child(childMultiplier: 10) { id } } }` with the test's cost table | The per-field costs add up to 318 without a recursion penalty. The code gives that total once `Child.child`'s entry sets `recursionMultiplier: 1`, or when the two fields have different names. The code is modelled as written; only the test's expected total disagrees with it. | medium; not executed | CostVisitorExamples.TokenExampleAsWritten | CostVisitorExamples.TokenExampleWithoutPenalty |

## Left out

- Parsing and printing: `parse` and `print` from graphql-js are not modelled. The extractor works on a parsed list of definitions, and the clean schema is that list, not its printed text.
- `lib/calculateCost.js`, `lib/costDirective.js`, `lib/error.js`, the express example and the jest configuration are not part of this model.
- The graphql-js `visit`/`TypeInfo` wiring and `validationContext` are not modelled. The schema is a map from type names to the fields of object and interface types, and fragments are a map from name to definition. Because the fragments are a map, duplicate fragment names cannot be represented.
- Argument resolution (`getArgumentValues` with variables and coercion) is an input: each field carries its resolved argument values, abstracted to a number, a list length or something else. The errors `getArgumentValues` throws, for a missing required argument or a bad variable value, are therefore outside the model.
- JavaScript coercions are not modelled:
  - `isNaN` on strings, booleans and `null`;
  - `parseInt` of numbers too large to be exact;
  - lodash `sum` on non-numbers;
  - string keys that collide with numeric multipliers.
- Only integers are modelled: floating-point argument values, costs and a fractional `recursionMultiplier` (the `1.1` test) are out.
- Lookups that hit inherited `Object.prototype` members (names such as `constructor`, `toString`, `valueOf` or `hasOwnProperty`) are not modelled. The model treats only keys that were actually stored as present:
  - CostExtractor.DirectiveArguments: a validator lookup by such an argument name is not modelled. Only the six configured validators exist.
  - CostVisitor.FieldCostProps: lodash `get` on `Type.field` also finds an inherited member when the type has entries and the field has such a name. The source then treats the field as having an entry and sets `useMultipliers` to true; the model gives the defaults, with `useMultipliers` false.
  - CostVisitor.OwnMultiplier: `multiplierValues[key]` for a multiplier named like an inherited member that is no argument finds that member; the model counts such a name as undefined and adds nothing.
- Debug logging (`logCostDebug`, `console.log`) is not modelled. The message getRecursion builds calls `fullpath.reverse()` whenever a name repeats, debug or not, and so reverses the path array in place. Only the number of times a name occurs in the path is ever read, so the model keeps the path in order.
- The AST mutation of `fullpath` and `parent` is replaced by a path passed down the recursion.
- Cyclic fragments: `CostVisitor.DocumentCost` and `CostVisitor.CalculateCost` require a ranking of every fragment definition in the document (`Acyclic`), used or not. The source expands only the fragments an operation reaches and runs no validation first, so:
  - a document whose fragment cycle no operation spreads costs normally in the source, but is outside the model;
  - a cycle an operation does reach ends in a JavaScript stack-overflow `RangeError`, which the model does not represent.
- CostExtractor.RemoveDirectives: the splice on each field's own directive array is modelled on values. The method reassigns the document's definition list in one step, so aliasing between nested arrays is not captured.

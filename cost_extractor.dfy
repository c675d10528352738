/** The directive extractor of lib/costExtractor.js. It reads the `@cost`
    directives on the fields of object types and type extensions in a
    schema's syntax tree and builds the cost table from them. It strips those
    directives and the `@cost` directive definition, giving the clean
    schema. Parsing and printing SDL text are not part of this model: the
    extractor starts from the parsed definitions and returns the cleaned
    ones. */
module CostExtractor {
  import opened CostSpec

  // ------------------------------------------------------------------
  // Syntax tree of the schema
  // ------------------------------------------------------------------

  /** An argument's literal value. `OtherValue` stands for float, enum,
      null and object literals and for variables. */
  datatype ValueNode =
    | IntValue(n: int)
    | BooleanValue(b: bool)
    | StringValue(s: string)
    | ListValue(values: seq<ValueNode>)
    | OtherValue

  datatype ArgumentNode = ArgumentNode(name: string, value: ValueNode)

  datatype DirectiveNode = DirectiveNode(name: string, arguments: seq<ArgumentNode>)

  datatype FieldDefinition = FieldDefinition(name: string, directives: seq<DirectiveNode>)

  /** The definition kinds the extractor tells apart; every other kind is
      `OtherDefinition`. */
  datatype DefinitionKind = ObjectTypeDefinition | ObjectTypeExtension | DirectiveDefinition | OtherDefinition

  datatype Definition = Definition(kind: DefinitionKind, name: string, fields: seq<FieldDefinition>)

  /** The JavaScript values getArgumentValue produces. */
  datatype JsValue =
    | JsNumber(n: int)
    | JsBoolean(b: bool)
    | JsString(s: string)
    | JsArray(items: seq<JsValue>)
    | Undefined

  // ------------------------------------------------------------------
  // Argument values and validators
  // ------------------------------------------------------------------

  /** getArgumentValue: an integer literal becomes its number, a boolean or
      string literal its value, a list literal the list of its elements'
      values. Anything else is undefined. */
  function ArgumentValue(v: ValueNode): (r: JsValue)
    ensures r.Undefined? <==> v.OtherValue?
    ensures v.ListValue? ==> r.JsArray? && |r.items| == |v.values|
    decreases v
  {
    match v
    case IntValue(n) => JsNumber(n)
    case BooleanValue(b) => JsBoolean(b)
    case StringValue(s) => JsString(s)
    case ListValue(values) => JsArray(seq(|values|, i requires 0 <= i < |values| => ArgumentValue(values[i])))
    case OtherValue => Undefined
  }

  predicate IsNumber(v: JsValue) {
    v.JsNumber?
  }

  predicate IsBoolean(v: JsValue) {
    v.JsBoolean?
  }

  predicate IsString(v: JsValue) {
    v.JsString?
  }

  /** A non-empty array whose every element passes `test`. */
  predicate IsArrayOf(v: JsValue, test: JsValue -> bool) {
    v.JsArray? && |v.items| > 0 && forall i :: 0 <= i < |v.items| ==> test(v.items[i])
  }

  /** JavaScript's `a || b` on two functions: a function is always truthy,
      so the result is `a`. */
  function JsOr(a: JsValue -> bool, b: JsValue -> bool): JsValue -> bool {
    a
  }

  predicate IsArrayOfStrings(v: JsValue) {
    IsArrayOf(v, IsString)
  }

  /** As written, the element test is `_.isString || _.isNumber`, which is
      `_.isString`. */
  predicate IsArrayOfStringsOrNumbers(v: JsValue) {
    IsArrayOf(v, JsOr(IsString, IsNumber))
  }

  /** The argument validators the exported extractor passes in: whether an
      argument of this name with this value is kept. Arguments without a
      validator are dropped. */
  predicate Accepts(name: string, v: JsValue) {
    if name == "complexity" || name == "network" || name == "db" then IsNumber(v)
    else if name == "multipliers" then IsArrayOfStringsOrNumbers(v)
    else if name == "useMultipliers" then IsBoolean(v)
    else if name == "provides" then IsArrayOfStrings(v)
    else false
  }

  /** complexityTokens: the arguments that are charged as tokens, with their
      weight. */
  const ComplexityTokens: map<string, int> := map["network" := 100, "db" := 100]

  /** The strings of an array of strings. */
  function Strings(items: seq<JsValue>): (r: seq<string>)
    requires forall i :: 0 <= i < |items| ==> items[i].JsString?
    ensures |r| == |items|
    ensures forall i :: 0 <= i < |items| ==> items[i] == JsString(r[i])
  {
    seq(|items|, i requires 0 <= i < |items| => items[i].s)
  }

  /** One iteration of getDirectiveArguments' loop: an accepted token
      argument adds its value times its weight to `tokens`; any other
      accepted argument sets its own key; a rejected one changes nothing. */
  function AddArgument(entry: CostEntry, name: string, v: JsValue): CostEntry {
    if !Accepts(name, v) then entry
    else if name in ComplexityTokens then
      entry.(tokens := Some(v.n * ComplexityTokens[name] + entry.tokens.GetOr(0)))
    else if name == "complexity" then entry.(complexity := Some(v.n))
    else if name == "multipliers" then
      entry.(multipliers := Some(seq(|v.items|, i requires 0 <= i < |v.items| => MName(v.items[i].s))))
    else if name == "useMultipliers" then entry.(useMultipliers := Some(v.b))
    else entry.(provided := Some(Strings(v.items)))
  }

  /** getDirectiveArguments: the entry one directive's arguments make, in
      order. */
  function DirectiveArgs(args: seq<ArgumentNode>): CostEntry
    decreases |args|
  {
    if args == [] then EmptyEntry
    else
      var a := args[|args| - 1];
      AddArgument(DirectiveArgs(args[..|args| - 1]), a.name, ArgumentValue(a.value))
  }

  // ------------------------------------------------------------------
  // Directive occurrences and the cost table
  // ------------------------------------------------------------------

  /** A directive met by loopFieldDirectiveNodes: the type, the field and
      the directive's arguments. */
  datatype Occurrence = Occurrence(typeName: string, fieldName: string, arguments: seq<ArgumentNode>)

  /** Only object type definitions and extensions are scanned. */
  predicate HasScannedFields(d: Definition) {
    d.kind.ObjectTypeDefinition? || d.kind.ObjectTypeExtension?
  }

  function DirectiveOccurrences(typeName: string, fieldName: string, ds: seq<DirectiveNode>,
                                directiveName: string): seq<Occurrence>
    decreases |ds|
  {
    if ds == [] then []
    else
      var d := ds[|ds| - 1];
      DirectiveOccurrences(typeName, fieldName, ds[..|ds| - 1], directiveName)
        + (if d.name == directiveName then [Occurrence(typeName, fieldName, d.arguments)] else [])
  }

  function FieldOccurrences(typeName: string, fields: seq<FieldDefinition>, directiveName: string): seq<Occurrence>
    decreases |fields|
  {
    if fields == [] then []
    else
      var f := fields[|fields| - 1];
      FieldOccurrences(typeName, fields[..|fields| - 1], directiveName)
        + DirectiveOccurrences(typeName, f.name, f.directives, directiveName)
  }

  function DefinitionOccurrences(d: Definition, directiveName: string): seq<Occurrence> {
    if HasScannedFields(d) then FieldOccurrences(d.name, d.fields, directiveName) else []
  }

  /** loopFieldDirectiveNodes: every directive of the given name on a field
      of a scanned definition, in document order. */
  function Occurrences(defs: seq<Definition>, directiveName: string): seq<Occurrence>
    decreases |defs|
  {
    if defs == [] then []
    else Occurrences(defs[..|defs| - 1], directiveName) + DefinitionOccurrences(defs[|defs| - 1], directiveName)
  }

  /** The handler of getDirectiveArgumentValues: a non-empty entry is stored
      at `typeName.fieldName` (lodash `_.set`), replacing any earlier one;
      an empty one is ignored. */
  function SetEntry(table: CostTable, o: Occurrence): CostTable {
    var entry := DirectiveArgs(o.arguments);
    if IsEmptyEntry(entry) then table
    else
      var fields := if o.typeName in table then table[o.typeName] else map[];
      table[o.typeName := fields[o.fieldName := entry]]
  }

  /** The table after the handler has run on each occurrence in turn. */
  function TableFrom(table: CostTable, occurrences: seq<Occurrence>): CostTable
    decreases |occurrences|
  {
    if occurrences == [] then table
    else SetEntry(TableFrom(table, occurrences[..|occurrences| - 1]), occurrences[|occurrences| - 1])
  }

  lemma {:induction false} TableFromAppend(table: CostTable, a: seq<Occurrence>, b: seq<Occurrence>)
    ensures TableFrom(table, a + b) == TableFrom(TableFrom(table, a), b)
    decreases |b|
  {
    if b == [] {
      assert a + b == a;
    } else {
      var init := b[..|b| - 1];
      assert (a + b)[..|a + b| - 1] == a + init;
      TableFromAppend(table, a, init);
    }
  }

  /** getDirectiveArgumentValues: the cost table. */
  function ArgumentMap(defs: seq<Definition>, directiveName: string): CostTable {
    TableFrom(map[], Occurrences(defs, directiveName))
  }

  // ------------------------------------------------------------------
  // Removal while iterating
  // ------------------------------------------------------------------

  /** `forEach` over an array that the callback splices at the current
      index: forEach fixes the number of steps at the start, so the element
      that moves into the removed one's place is never visited. */
  function Spliced<T>(s: seq<T>, drop: T -> bool): seq<T>
    decreases |s|
  {
    if s == [] then []
    else if |s| == 1 then (if drop(s[0]) then [] else s)
    else if drop(s[0]) then [s[1]] + Spliced(s[2..], drop)
    else [s[0]] + Spliced(s[1..], drop)
  }

  /** `s` without the elements `drop` holds of. */
  function Without<T>(s: seq<T>, drop: T -> bool): seq<T>
    decreases |s|
  {
    if s == [] then []
    else (if drop(s[0]) then [] else [s[0]]) + Without(s[1..], drop)
  }

  /** The test of loopFieldDirectiveNodes. */
  function NamedDirective(directiveName: string): DirectiveNode -> bool {
    (d: DirectiveNode) => d.name == directiveName
  }

  /** The test of removeDefinitions. */
  function MatchesDefinition(kind: DefinitionKind, name: string): Definition -> bool {
    (d: Definition) => d.kind == kind && d.name == name
  }

  function StripField(f: FieldDefinition, directiveName: string): FieldDefinition {
    f.(directives := Spliced(f.directives, NamedDirective(directiveName)))
  }

  function StripDefinition(d: Definition, directiveName: string): Definition {
    if HasScannedFields(d)
    then d.(fields := seq(|d.fields|, j requires 0 <= j < |d.fields| => StripField(d.fields[j], directiveName)))
    else d
  }

  /** removeDirectives: the definitions with the named directives spliced
      out of every scanned field. */
  function StripDirectives(defs: seq<Definition>, directiveName: string): seq<Definition> {
    seq(|defs|, i requires 0 <= i < |defs| => StripDefinition(defs[i], directiveName))
  }

  // ------------------------------------------------------------------
  // The imperative routines
  // ------------------------------------------------------------------

  /** getDirectiveArguments. */
  method DirectiveArguments(args: seq<ArgumentNode>) returns (result: CostEntry)
    ensures result == DirectiveArgs(args)
  {
    result := EmptyEntry;
    var i := 0;
    while i < |args|
      invariant 0 <= i <= |args|
      invariant result == DirectiveArgs(args[..i])
    {
      assert args[..i + 1][..i] == args[..i];
      var value := ArgumentValue(args[i].value);
      if Accepts(args[i].name, value) {
        if args[i].name in ComplexityTokens {
          result := result.(tokens := Some(value.n * ComplexityTokens[args[i].name] + result.tokens.GetOr(0)));
        } else if args[i].name == "complexity" {
          result := result.(complexity := Some(value.n));
        } else if args[i].name == "multipliers" {
          result := result.(multipliers := Some(seq(|value.items|, k requires 0 <= k < |value.items| => MName(value.items[k].s))));
        } else if args[i].name == "useMultipliers" {
          result := result.(useMultipliers := Some(value.b));
        } else {
          result := result.(provided := Some(Strings(value.items)));
        }
      }
      i := i + 1;
    }
    assert args[..|args|] == args;
  }

  lemma SpliceStepDrop<T>(r: seq<T>, i: nat, drop: T -> bool)
    requires i < |r| && drop(r[i])
    ensures var spliced := r[..i] + r[i + 1..];
      && (i + 1 <= |spliced| ==> spliced[..i + 1] + Spliced(spliced[i + 1..], drop) == r[..i] + Spliced(r[i..], drop))
      && (i + 1 > |spliced| ==> spliced == r[..i] + Spliced(r[i..], drop))
  {
    var tail := r[i..];
    assert tail[0] == r[i];
    var spliced := r[..i] + r[i + 1..];
    if |tail| == 1 {
      assert spliced == r[..i];
    } else {
      assert tail[1] == r[i + 1] && tail[2..] == r[i + 2..];
      assert spliced[..i + 1] == r[..i] + [r[i + 1]];
      assert spliced[i + 1..] == r[i + 2..];
    }
  }

  lemma SpliceStepKeep<T>(r: seq<T>, i: nat, drop: T -> bool)
    requires i < |r| && !drop(r[i])
    ensures r[..i + 1] + Spliced(r[i + 1..], drop) == r[..i] + Spliced(r[i..], drop)
  {
    var tail := r[i..];
    assert tail[0] == r[i];
    assert r[..i + 1] == r[..i] + [r[i]];
    if |tail| > 1 {
      assert tail[1..] == r[i + 1..];
    } else {
      assert r[i + 1..] == [];
    }
  }

  /** A forEach over `s` whose callback splices out each element `drop`
      holds of. */
  method SpliceEach<T>(s: seq<T>, drop: T -> bool) returns (r: seq<T>)
    ensures r == Spliced(s, drop)
  {
    r := s;
    var len := |s|;
    var i := 0;
    assert r[..0] + Spliced(r[0..], drop) == Spliced(s, drop) by {
      assert r[..0] == [] && r[0..] == s;
    }
    while i < len
      invariant 0 <= i <= len && |r| <= len
      invariant i <= |r| ==> r[..i] + Spliced(r[i..], drop) == Spliced(s, drop)
      invariant i > |r| ==> r == Spliced(s, drop)
    {
      if i < |r| {
        if drop(r[i]) {
          SpliceStepDrop(r, i, drop);
          r := r[..i] + r[i + 1..];
        } else {
          SpliceStepKeep(r, i, drop);
        }
      } else if i == |r| {
        assert r[..i] == r && r[i..] == [];
      }
      i := i + 1;
    }
    if i <= |r| {
      assert r[..i] == r && r[i..] == [];
    }
  }

  /** The parsed schema document, as the extractor changes it in place. */
  class SdlDocument {
    var definitions: seq<Definition>

    constructor (definitions: seq<Definition>)
      ensures this.definitions == definitions
    {
      this.definitions := definitions;
    }
  }

  /** The handler of getDirectiveArgumentValues on one directive. */
  method StoreEntry(table: CostTable, typeName: string, fieldName: string, arguments: seq<ArgumentNode>)
    returns (r: CostTable)
    ensures r == SetEntry(table, Occurrence(typeName, fieldName, arguments))
  {
    var args := DirectiveArguments(arguments);
    r := table;
    if !IsEmptyEntry(args) {
      var fields := if typeName in r then r[typeName] else map[];
      r := r[typeName := fields[fieldName := args]];
    }
  }

  lemma TableFromStep(table: CostTable, occurrences: seq<Occurrence>, o: Occurrence)
    ensures TableFrom(table, occurrences + [o]) == SetEntry(TableFrom(table, occurrences), o)
  {
    assert (occurrences + [o])[..|occurrences|] == occurrences;
  }

  lemma DirectiveOccurrencesStep(typeName: string, fieldName: string, ds: seq<DirectiveNode>, k: nat,
                                 directiveName: string)
    requires k < |ds|
    ensures DirectiveOccurrences(typeName, fieldName, ds[..k + 1], directiveName)
         == DirectiveOccurrences(typeName, fieldName, ds[..k], directiveName)
            + (if ds[k].name == directiveName then [Occurrence(typeName, fieldName, ds[k].arguments)] else [])
  {
    assert ds[..k + 1][..k] == ds[..k];
  }

  /** The handler of getDirectiveArgumentValues run on the named
      directives of one field. */
  method StoreFieldEntries(table: CostTable, typeName: string, f: FieldDefinition, directiveName: string)
    returns (r: CostTable)
    ensures r == TableFrom(table, DirectiveOccurrences(typeName, f.name, f.directives, directiveName))
  {
    r := table;
    var k := 0;
    while k < |f.directives|
      invariant 0 <= k <= |f.directives|
      invariant r == TableFrom(table, DirectiveOccurrences(typeName, f.name, f.directives[..k], directiveName))
    {
      DirectiveOccurrencesStep(typeName, f.name, f.directives, k, directiveName);
      var directive := f.directives[k];
      ghost var seen := DirectiveOccurrences(typeName, f.name, f.directives[..k], directiveName);
      if directive.name == directiveName {
        TableFromStep(table, seen, Occurrence(typeName, f.name, directive.arguments));
        r := StoreEntry(r, typeName, f.name, directive.arguments);
      } else {
        assert seen + [] == seen;
      }
      k := k + 1;
    }
    assert f.directives[..|f.directives|] == f.directives;
  }

  /** The handler run on every field of one definition, when it is scanned. */
  method StoreDefinitionEntries(table: CostTable, d: Definition, directiveName: string) returns (r: CostTable)
    ensures r == TableFrom(table, DefinitionOccurrences(d, directiveName))
  {
    r := table;
    if HasScannedFields(d) {
      var j := 0;
      while j < |d.fields|
        invariant 0 <= j <= |d.fields|
        invariant r == TableFrom(table, FieldOccurrences(d.name, d.fields[..j], directiveName))
      {
        assert d.fields[..j + 1][..j] == d.fields[..j];
        var f := d.fields[j];
        TableFromAppend(table, FieldOccurrences(d.name, d.fields[..j], directiveName),
                        DirectiveOccurrences(d.name, f.name, f.directives, directiveName));
        r := StoreFieldEntries(r, d.name, f, directiveName);
        j := j + 1;
      }
      assert d.fields[..|d.fields|] == d.fields;
    }
  }

  /** getDirectiveArgumentValues: walks the definitions and stores each
      non-empty entry. */
  method DirectiveArgumentValues(doc: SdlDocument, directiveName: string) returns (table: CostTable)
    ensures table == ArgumentMap(doc.definitions, directiveName)
  {
    var defs := doc.definitions;
    table := map[];
    var i := 0;
    while i < |defs|
      invariant 0 <= i <= |defs|
      invariant table == TableFrom(map[], Occurrences(defs[..i], directiveName))
    {
      assert defs[..i + 1][..i] == defs[..i];
      TableFromAppend(map[], Occurrences(defs[..i], directiveName), DefinitionOccurrences(defs[i], directiveName));
      table := StoreDefinitionEntries(table, defs[i], directiveName);
      i := i + 1;
    }
    assert defs[..|defs|] == defs;
  }

  /** removeDirectives: splices the named directives out of every scanned
      field's directive list. */
  method RemoveDirectives(doc: SdlDocument, directiveName: string)
    modifies doc
    ensures doc.definitions == StripDirectives(old(doc.definitions), directiveName)
  {
    var defs := doc.definitions;
    ghost var original := defs;
    var i := 0;
    while i < |defs|
      invariant 0 <= i <= |defs| && |defs| == |original|
      invariant forall t :: 0 <= t < i ==> defs[t] == StripDefinition(original[t], directiveName)
      invariant forall t :: i <= t < |defs| ==> defs[t] == original[t]
    {
      var d := defs[i];
      if HasScannedFields(d) {
        var fields := d.fields;
        var j := 0;
        while j < |fields|
          invariant 0 <= j <= |fields| && |fields| == |d.fields|
          invariant forall t :: 0 <= t < j ==> fields[t] == StripField(d.fields[t], directiveName)
          invariant forall t :: j <= t < |fields| ==> fields[t] == d.fields[t]
        {
          var kept := SpliceEach(fields[j].directives, NamedDirective(directiveName));
          fields := fields[j := fields[j].(directives := kept)];
          j := j + 1;
        }
        defs := defs[i := d.(fields := fields)];
      }
      i := i + 1;
    }
    doc.definitions := defs;
  }

  /** removeDefinitions: splices out the definitions of the given kind and
      name. */
  method RemoveDefinitions(doc: SdlDocument, kind: DefinitionKind, name: string)
    modifies doc
    ensures doc.definitions == Spliced(old(doc.definitions), MatchesDefinition(kind, name))
  {
    doc.definitions := SpliceEach(doc.definitions, MatchesDefinition(kind, name));
  }

  /** The exported extractor: the `@cost` table of the parsed schema, and the
      schema with `@cost` directives and the `@cost` definition removed. */
  method ExtractCost(definitions: seq<Definition>) returns (costMap: CostTable, cleanSchema: seq<Definition>)
    ensures costMap == ArgumentMap(definitions, "cost")
    ensures cleanSchema == Spliced(StripDirectives(definitions, "cost"), MatchesDefinition(DirectiveDefinition, "cost"))
  {
    var doc := new SdlDocument(definitions);
    costMap := DirectiveArgumentValues(doc, "cost");
    RemoveDirectives(doc, "cost");
    RemoveDefinitions(doc, DirectiveDefinition, "cost");
    cleanSchema := doc.definitions;
  }
}

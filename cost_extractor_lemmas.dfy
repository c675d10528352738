/** Properties of the directive extractor: what an entry holds, which
    directives reach the table and which entry wins, and what the splicing
    loops remove. */
module CostExtractorProperties {
  import opened CostSpec
  import opened CostExtractor

  // ------------------------------------------------------------------
  // getArgumentValue
  // ------------------------------------------------------------------

  /** A JavaScript value with no `undefined` inside. */
  predicate Defined(j: JsValue)
    decreases j
  {
    match j
    case Undefined => false
    case JsArray(items) => forall i :: 0 <= i < |items| ==> Defined(items[i])
    case _ => true
  }

  /** A literal getArgumentValue understands throughout. */
  predicate Understood(v: ValueNode)
    decreases v
  {
    match v
    case OtherValue => false
    case ListValue(values) => forall i :: 0 <= i < |values| ==> Understood(values[i])
    case _ => true
  }

  /** The literal that denotes a defined value. */
  function ToValueNode(j: JsValue): ValueNode
    requires Defined(j)
    decreases j
  {
    match j
    case JsNumber(n) => IntValue(n)
    case JsBoolean(b) => BooleanValue(b)
    case JsString(s) => StringValue(s)
    case JsArray(items) => ListValue(seq(|items|, i requires 0 <= i < |items| => ToValueNode(items[i])))
  }

  /** getArgumentValue is the inverse of writing a defined value as a
      literal. */
  lemma {:induction false} ArgumentValueOfLiteral(j: JsValue)
    requires Defined(j)
    ensures ArgumentValue(ToValueNode(j)) == j
    decreases j
  {
    match j {
      case JsArray(items) =>
        var vs := seq(|items|, i requires 0 <= i < |items| => ToValueNode(items[i]));
        forall i | 0 <= i < |items|
          ensures ArgumentValue(vs[i]) == items[i]
        {
          ArgumentValueOfLiteral(items[i]);
        }
        assert ArgumentValue(ToValueNode(j)).items == items;
      case _ =>
    }
  }

  /** An understood literal is determined by its value: writing the value
      back gives the literal. */
  lemma {:induction false} LiteralOfArgumentValue(v: ValueNode)
    requires Understood(v)
    ensures Defined(ArgumentValue(v)) && ToValueNode(ArgumentValue(v)) == v
    decreases v
  {
    match v {
      case ListValue(values) =>
        var items := ArgumentValue(v).items;
        forall i | 0 <= i < |values|
          ensures Defined(items[i]) && ToValueNode(items[i]) == values[i]
        {
          LiteralOfArgumentValue(values[i]);
        }
        assert ToValueNode(ArgumentValue(v)).values == values;
      case _ =>
    }
  }

  // ------------------------------------------------------------------
  // Validators
  // ------------------------------------------------------------------

  /** The `multipliers` validator accepts exactly the non-empty arrays of
      strings: a number in the list makes the whole argument dropped. */
  lemma MultipliersAcceptOnlyStrings(v: JsValue)
    ensures IsArrayOfStringsOrNumbers(v) <==> IsArrayOfStrings(v)
    ensures !IsArrayOfStringsOrNumbers(JsArray([JsNumber(2)]))
    ensures !IsArrayOfStringsOrNumbers(JsArray([JsString("first"), JsNumber(2)]))
  {
    assert JsOr(IsString, IsNumber) == IsString;
    var one := JsArray([JsNumber(2)]);
    assert !IsString(one.items[0]);
    var two := JsArray([JsString("first"), JsNumber(2)]);
    assert !IsString(two.items[1]);
  }

  // ------------------------------------------------------------------
  // getDirectiveArguments
  // ------------------------------------------------------------------

  /** The argument names that set their own key of an entry. */
  predicate EntryKey(key: string) {
    key == "complexity" || key == "multipliers" || key == "useMultipliers" || key == "provides"
  }

  function MultiplierValue(m: Multiplier): JsValue {
    match m
    case MName(s) => JsString(s)
    case MNum(n) => JsNumber(n)
  }

  /** The entry's value for an argument name, as the JavaScript value the
      directive gave it. */
  function Stored(e: CostEntry, key: string): Option<JsValue> {
    if key == "complexity" then
      (if e.complexity.Some? then Some(JsNumber(e.complexity.value)) else None)
    else if key == "multipliers" then
      (if e.multipliers.Some?
       then Some(JsArray(seq(|e.multipliers.value|, i requires 0 <= i < |e.multipliers.value| =>
                               MultiplierValue(e.multipliers.value[i]))))
       else None)
    else if key == "useMultipliers" then
      (if e.useMultipliers.Some? then Some(JsBoolean(e.useMultipliers.value)) else None)
    else if key == "provides" then
      (if e.provided.Some?
       then Some(JsArray(seq(|e.provided.value|, i requires 0 <= i < |e.provided.value| => JsString(e.provided.value[i]))))
       else None)
    else None
  }

  /** The `i`th argument is named `key` and passes its validator. */
  predicate ValidAt(args: seq<ArgumentNode>, i: int, key: string) {
    0 <= i < |args| && args[i].name == key && Accepts(key, ArgumentValue(args[i].value))
  }

  lemma AddArgumentStores(e: CostEntry, name: string, v: JsValue, key: string)
    requires EntryKey(key)
    ensures name == key && Accepts(key, v) ==> Stored(AddArgument(e, name, v), key) == Some(v)
    ensures !(name == key && Accepts(key, v)) ==> Stored(AddArgument(e, name, v), key) == Stored(e, key)
  {
    if name == key && Accepts(key, v) {
      var r := AddArgument(e, name, v);
      if key == "multipliers" {
        var ms := r.multipliers.value;
        assert forall i :: 0 <= i < |ms| ==> MultiplierValue(ms[i]) == v.items[i];
        assert Stored(r, key).value.items == v.items;
      } else if key == "provides" {
        assert Stored(r, key).value.items == v.items;
      }
    }
  }

  /** An entry holds a key exactly when some argument of that name passes
      its validator, and then it holds the value of the last one. */
  lemma {:induction false} LastValidWins(args: seq<ArgumentNode>, key: string)
    requires EntryKey(key)
    ensures Stored(DirectiveArgs(args), key).Some? <==> exists i :: ValidAt(args, i, key)
    ensures Stored(DirectiveArgs(args), key).Some? ==>
      exists i :: ValidAt(args, i, key) && Stored(DirectiveArgs(args), key).value == ArgumentValue(args[i].value)
                  && forall j :: i < j < |args| ==> !ValidAt(args, j, key)
    decreases |args|
  {
    if args != [] {
      var n := |args| - 1;
      var init := args[..n];
      var a := args[n];
      var e := DirectiveArgs(init);
      ValidAtPrefix(args, n, key);
      LastValidWins(init, key);
      AddArgumentStores(e, a.name, ArgumentValue(a.value), key);
      assert DirectiveArgs(args) == AddArgument(e, a.name, ArgumentValue(a.value));
      if ValidAt(args, n, key) {
        assert Stored(DirectiveArgs(args), key) == Some(ArgumentValue(args[n].value));
      } else {
        assert Stored(DirectiveArgs(args), key) == Stored(e, key);
        if Stored(e, key).Some? {
          var i :| ValidAt(init, i, key) && Stored(e, key).value == ArgumentValue(init[i].value)
                   && forall j :: i < j < |init| ==> !ValidAt(init, j, key);
          assert ValidAt(args, i, key) && init[i] == args[i];
          assert forall j :: i < j < |args| ==> !ValidAt(args, j, key);
        }
      }
    }
  }

  /** Validity at an index below `n` is the same in the prefix of length `n`. */
  lemma ValidAtPrefix(args: seq<ArgumentNode>, n: nat, key: string)
    requires n <= |args|
    ensures forall j :: ValidAt(args[..n], j, key) <==> ValidAt(args, j, key) && j < n
  {
    assert forall j :: 0 <= j < n ==> args[..n][j] == args[j];
  }

  lemma AddArgumentNonEmpty(e: CostEntry, name: string, v: JsValue)
    ensures IsEmptyEntry(AddArgument(e, name, v)) <==> IsEmptyEntry(e) && !Accepts(name, v)
  {
  }

  /** A directive makes an empty entry, and so no table entry, exactly when
      none of its arguments passes its validator. */
  lemma {:induction false} EntryEmptyIff(args: seq<ArgumentNode>)
    ensures IsEmptyEntry(DirectiveArgs(args))
        <==> forall i :: 0 <= i < |args| ==> !Accepts(args[i].name, ArgumentValue(args[i].value))
    decreases |args|
  {
    if args != [] {
      var n := |args| - 1;
      var init := args[..n];
      assert forall j :: 0 <= j < n ==> init[j] == args[j];
      EntryEmptyIff(init);
      AddArgumentNonEmpty(DirectiveArgs(init), args[n].name, ArgumentValue(args[n].value));
    }
  }

  /** An argument the table charges as tokens. */
  predicate TokenArg(a: ArgumentNode) {
    a.name in ComplexityTokens && IsNumber(ArgumentValue(a.value))
  }

  function TokenCharge(a: ArgumentNode): int {
    if TokenArg(a) then ArgumentValue(a.value).n * ComplexityTokens[a.name] else 0
  }

  /** The valid `network` and `db` arguments, each times its weight, summed
      from the first. */
  function TokenTotal(args: seq<ArgumentNode>): int
    decreases |args|
  {
    if args == [] then 0 else TokenCharge(args[0]) + TokenTotal(args[1..])
  }

  lemma {:induction false} TokenTotalAppend(args: seq<ArgumentNode>, a: ArgumentNode)
    ensures TokenTotal(args + [a]) == TokenTotal(args) + TokenCharge(a)
    decreases |args|
  {
    if args == [] {
      assert ([] + [a])[1..] == [];
    } else {
      assert (args + [a])[1..] == args[1..] + [a];
      TokenTotalAppend(args[1..], a);
    }
  }

  /** `tokens` is set exactly when some `network` or `db` argument is a
      number, and then it is the weighted sum of all of them. */
  lemma {:induction false} TokensAccumulate(args: seq<ArgumentNode>)
    ensures DirectiveArgs(args).tokens.Some? <==> exists i :: 0 <= i < |args| && TokenArg(args[i])
    ensures DirectiveArgs(args).tokens.GetOr(0) == TokenTotal(args)
    decreases |args|
  {
    if args != [] {
      var n := |args| - 1;
      var init := args[..n];
      assert forall j :: 0 <= j < n ==> init[j] == args[j];
      assert args == init + [args[n]];
      TokensAccumulate(init);
      TokenTotalAppend(init, args[n]);
    }
  }

  /** The entries of the test schema's `User.deals` and `Organization.users`
      fields: accepted arguments are kept, a string where a list is expected
      drops that argument, and with it the whole entry. */
  lemma ExampleEntries()
    ensures DirectiveArgs([ArgumentNode("complexity", IntValue(2)),
                           ArgumentNode("multipliers", ListValue([StringValue("limit")])),
                           ArgumentNode("db", IntValue(1))])
         == CostEntry(Some(2), Some([MName("limit")]), None, None, Some(100), None)
    ensures DirectiveArgs([ArgumentNode("multipliers", StringValue("limit")),
                           ArgumentNode("provides", StringValue("id"))]) == EmptyEntry
    ensures DirectiveArgs([ArgumentNode("multipliers", ListValue([]))]) == EmptyEntry
  {
    var a := [ArgumentNode("complexity", IntValue(2)),
              ArgumentNode("multipliers", ListValue([StringValue("limit")])),
              ArgumentNode("db", IntValue(1))];
    assert a[..2][..1] == a[..1] && a[..1][..0] == [];
    assert "complexity" !in ComplexityTokens && "multipliers" !in ComplexityTokens && "db" in ComplexityTokens;
    var e1 := DirectiveArgs(a[..1]);
    assert a[..1][|a[..1]| - 1] == a[0] && DirectiveArgs(a[..1][..0]) == EmptyEntry;
    assert ArgumentValue(a[0].value) == JsNumber(2);
    assert e1 == AddArgument(EmptyEntry, "complexity", JsNumber(2));
    assert e1 == EmptyEntry.(complexity := Some(2));
    var list := ArgumentValue(a[1].value);
    assert list == JsArray([JsString("limit")]);
    var e2 := DirectiveArgs(a[..2]);
    assert e2 == AddArgument(e1, "multipliers", list);
    assert seq(|list.items|, i requires 0 <= i < |list.items| => MName(list.items[i].s)) == [MName("limit")];
    assert e2 == e1.(multipliers := Some([MName("limit")]));
    assert a[..3] == a;
    var b := [ArgumentNode("multipliers", StringValue("limit")), ArgumentNode("provides", StringValue("id"))];
    assert b[..1] == [b[0]] && b[..1][..0] == [];
    var c := [ArgumentNode("multipliers", ListValue([]))];
    assert c[..0] == [];
  }

  // ------------------------------------------------------------------
  // loopFieldDirectiveNodes
  // ------------------------------------------------------------------

  lemma {:induction false} DirectiveOccurrenceIff(typeName: string, fieldName: string, ds: seq<DirectiveNode>,
                                                  directiveName: string, o: Occurrence)
    ensures o in DirectiveOccurrences(typeName, fieldName, ds, directiveName)
        <==> exists k :: 0 <= k < |ds| && ds[k].name == directiveName
                         && o == Occurrence(typeName, fieldName, ds[k].arguments)
    decreases |ds|
  {
    if ds != [] {
      var init := ds[..|ds| - 1];
      assert forall k :: 0 <= k < |init| ==> init[k] == ds[k];
      DirectiveOccurrenceIff(typeName, fieldName, init, directiveName, o);
    }
  }

  /** The `k`th directive of the `j`th field is one of the named ones. */
  predicate FieldDirectiveAt(typeName: string, fields: seq<FieldDefinition>, j: int, k: int,
                             directiveName: string, o: Occurrence) {
    && 0 <= j < |fields| && 0 <= k < |fields[j].directives|
    && fields[j].directives[k].name == directiveName
    && o == Occurrence(typeName, fields[j].name, fields[j].directives[k].arguments)
  }

  lemma {:induction false} FieldOccurrenceIff(typeName: string, fields: seq<FieldDefinition>,
                                              directiveName: string, o: Occurrence)
    ensures o in FieldOccurrences(typeName, fields, directiveName)
        <==> exists j, k :: FieldDirectiveAt(typeName, fields, j, k, directiveName, o)
    decreases |fields|
  {
    if fields != [] {
      var n := |fields| - 1;
      var init := fields[..n];
      assert forall j, k :: FieldDirectiveAt(typeName, init, j, k, directiveName, o)
                        <==> FieldDirectiveAt(typeName, fields, j, k, directiveName, o) && j < n;
      FieldOccurrenceIff(typeName, init, directiveName, o);
      DirectiveOccurrenceIff(typeName, fields[n].name, fields[n].directives, directiveName, o);
      if o in DirectiveOccurrences(typeName, fields[n].name, fields[n].directives, directiveName) {
        var k :| 0 <= k < |fields[n].directives| && fields[n].directives[k].name == directiveName
                 && o == Occurrence(typeName, fields[n].name, fields[n].directives[k].arguments);
        assert FieldDirectiveAt(typeName, fields, n, k, directiveName, o);
      }
    }
  }

  /** The `k`th directive of the `j`th field of the `i`th definition is one
      of the named ones, and that definition is scanned. */
  predicate DirectiveAt(defs: seq<Definition>, i: int, j: int, k: int, directiveName: string, o: Occurrence) {
    0 <= i < |defs| && HasScannedFields(defs[i]) && FieldDirectiveAt(defs[i].name, defs[i].fields, j, k, directiveName, o)
  }

  /** The directives met are exactly the named directives on the fields of
      object type definitions and extensions. */
  lemma {:induction false} OccurrenceIff(defs: seq<Definition>, directiveName: string, o: Occurrence)
    ensures o in Occurrences(defs, directiveName) <==> exists i, j, k :: DirectiveAt(defs, i, j, k, directiveName, o)
    decreases |defs|
  {
    if defs != [] {
      var n := |defs| - 1;
      var init := defs[..n];
      assert forall i, j, k :: DirectiveAt(init, i, j, k, directiveName, o)
                           <==> DirectiveAt(defs, i, j, k, directiveName, o) && i < n;
      OccurrenceIff(init, directiveName, o);
      if HasScannedFields(defs[n]) {
        FieldOccurrenceIff(defs[n].name, defs[n].fields, directiveName, o);
        if o in FieldOccurrences(defs[n].name, defs[n].fields, directiveName) {
          var j, k :| FieldDirectiveAt(defs[n].name, defs[n].fields, j, k, directiveName, o);
          assert DirectiveAt(defs, n, j, k, directiveName, o);
        }
      }
    }
  }

  // ------------------------------------------------------------------
  // getDirectiveArgumentValues
  // ------------------------------------------------------------------

  /** The `i`th occurrence is at `typeName.fieldName` and makes a non-empty
      entry. */
  predicate StoredAt(occurrences: seq<Occurrence>, i: int, typeName: string, fieldName: string) {
    && 0 <= i < |occurrences|
    && occurrences[i].typeName == typeName && occurrences[i].fieldName == fieldName
    && !IsEmptyEntry(DirectiveArgs(occurrences[i].arguments))
  }

  lemma SetEntryEffect(table: CostTable, o: Occurrence, typeName: string, fieldName: string)
    ensures var here := o.typeName == typeName && o.fieldName == fieldName && !IsEmptyEntry(DirectiveArgs(o.arguments));
      && (HasEntry(SetEntry(table, o), typeName, fieldName) <==> here || HasEntry(table, typeName, fieldName))
      && (here ==> SetEntry(table, o)[typeName][fieldName] == DirectiveArgs(o.arguments))
      && (!here && HasEntry(table, typeName, fieldName) ==> SetEntry(table, o)[typeName][fieldName] == table[typeName][fieldName])
  {
  }

  /** The table has an entry at `typeName.fieldName` exactly when some
      occurrence there makes a non-empty entry. */
  lemma {:induction false} TableEntryIff(occurrences: seq<Occurrence>, typeName: string, fieldName: string)
    ensures HasEntry(TableFrom(map[], occurrences), typeName, fieldName)
        <==> exists i :: StoredAt(occurrences, i, typeName, fieldName)
    decreases |occurrences|
  {
    if occurrences != [] {
      var n := |occurrences| - 1;
      var init := occurrences[..n];
      StoredAtPrefix(occurrences, n, typeName, fieldName);
      TableEntryIff(init, typeName, fieldName);
      SetEntryEffect(TableFrom(map[], init), occurrences[n], typeName, fieldName);
      assert TableFrom(map[], occurrences) == SetEntry(TableFrom(map[], init), occurrences[n]);
      if StoredAt(occurrences, n, typeName, fieldName) {
        assert HasEntry(TableFrom(map[], occurrences), typeName, fieldName);
      } else {
        assert forall j :: StoredAt(occurrences, j, typeName, fieldName) ==> j < n;
      }
    }
  }

  /** The `i`th occurrence is the last one that stores at `typeName.fieldName`. */
  predicate LastStoredAt(occurrences: seq<Occurrence>, i: int, typeName: string, fieldName: string) {
    && StoredAt(occurrences, i, typeName, fieldName)
    && forall j :: i < j < |occurrences| ==> !StoredAt(occurrences, j, typeName, fieldName)
  }

  /** The entry at `typeName.fieldName` is the last non-empty one made
      there; an empty directive never removes an earlier entry. */
  lemma {:induction false} LastEntryWins(occurrences: seq<Occurrence>, typeName: string, fieldName: string)
    requires HasEntry(TableFrom(map[], occurrences), typeName, fieldName)
    ensures exists i :: LastStoredAt(occurrences, i, typeName, fieldName)
                        && TableFrom(map[], occurrences)[typeName][fieldName] == DirectiveArgs(occurrences[i].arguments)
    decreases |occurrences|
  {
    var n := |occurrences| - 1;
    var init := occurrences[..n];
    var before := TableFrom(map[], init);
    var o := occurrences[n];
    var after := TableFrom(map[], occurrences);
    assert after == SetEntry(before, o);
    SetEntryEffect(before, o, typeName, fieldName);
    if StoredAt(occurrences, n, typeName, fieldName) {
      assert LastStoredAt(occurrences, n, typeName, fieldName);
      assert after[typeName][fieldName] == DirectiveArgs(occurrences[n].arguments);
    } else {
      assert HasEntry(before, typeName, fieldName);
      assert after[typeName][fieldName] == before[typeName][fieldName];
      LastEntryWins(init, typeName, fieldName);
      var i :| LastStoredAt(init, i, typeName, fieldName)
               && before[typeName][fieldName] == DirectiveArgs(init[i].arguments);
      LastStoredAtExtend(occurrences, i, typeName, fieldName);
      assert after[typeName][fieldName] == DirectiveArgs(occurrences[i].arguments);
    }
  }

  /** A later occurrence that stores nothing there keeps the last one last. */
  lemma LastStoredAtExtend(occurrences: seq<Occurrence>, i: int, typeName: string, fieldName: string)
    requires |occurrences| > 0
    requires LastStoredAt(occurrences[..|occurrences| - 1], i, typeName, fieldName)
    requires !StoredAt(occurrences, |occurrences| - 1, typeName, fieldName)
    ensures LastStoredAt(occurrences, i, typeName, fieldName)
    ensures occurrences[i] == occurrences[..|occurrences| - 1][i]
  {
    var n := |occurrences| - 1;
    StoredAtPrefix(occurrences, n, typeName, fieldName);
  }

  /** Below `n`, the prefix of length `n` stores where the whole list does. */
  lemma StoredAtPrefix(occurrences: seq<Occurrence>, n: nat, typeName: string, fieldName: string)
    requires n <= |occurrences|
    ensures forall j :: StoredAt(occurrences[..n], j, typeName, fieldName)
                        <==> StoredAt(occurrences, j, typeName, fieldName) && j < n
  {
    assert forall j :: 0 <= j < n ==> occurrences[..n][j] == occurrences[j];
  }

  /** Every entry of the cost table comes from a `@cost`-style directive on a
      field of an object type definition or extension of that name. */
  lemma EntriesComeFromScannedFields(defs: seq<Definition>, directiveName: string, typeName: string, fieldName: string)
    requires HasEntry(ArgumentMap(defs, directiveName), typeName, fieldName)
    ensures exists i, j, k, o :: DirectiveAt(defs, i, j, k, directiveName, o)
                                 && o.typeName == typeName && o.fieldName == fieldName
  {
    var occ := Occurrences(defs, directiveName);
    TableEntryIff(occ, typeName, fieldName);
    var i :| StoredAt(occ, i, typeName, fieldName);
    OccurrenceIff(defs, directiveName, occ[i]);
  }

  // ------------------------------------------------------------------
  // Splicing while iterating
  // ------------------------------------------------------------------

  lemma {:induction false} WithoutAppend<T>(a: seq<T>, b: seq<T>, drop: T -> bool)
    ensures Without(a + b, drop) == Without(a, drop) + Without(b, drop)
    decreases |a|
  {
    if a == [] {
      assert a + b == b;
    } else {
      assert (a + b)[0] == a[0] && (a + b)[1..] == a[1..] + b;
      WithoutAppend(a[1..], b, drop);
    }
  }

  /** No element that is not to be removed is lost, and none is reordered. */
  lemma {:induction false} SplicedKeepsOthers<T>(s: seq<T>, drop: T -> bool)
    ensures Without(Spliced(s, drop), drop) == Without(s, drop)
    decreases |s|
  {
    if |s| == 1 {
      assert s[1..] == [];
    } else if |s| >= 2 {
      if drop(s[0]) {
        SplicedKeepsOthers(s[2..], drop);
        WithoutAppend([s[1]], Spliced(s[2..], drop), drop);
        assert s[1..] == [s[1]] + s[2..];
        WithoutAppend([s[1]], s[2..], drop);
        assert [s[1]][1..] == [];
      } else {
        SplicedKeepsOthers(s[1..], drop);
        WithoutAppend([s[0]], Spliced(s[1..], drop), drop);
        assert [s[0]][1..] == [];
      }
    }
  }

  /** Splicing only ever removes elements. */
  lemma {:induction false} SplicedOnlyRemoves<T>(s: seq<T>, drop: T -> bool)
    ensures multiset(Spliced(s, drop)) <= multiset(s)
    decreases |s|
  {
    if |s| >= 2 {
      assert s == [s[0]] + ([s[1]] + s[2..]);
      if drop(s[0]) {
        SplicedOnlyRemoves(s[2..], drop);
      } else {
        assert s == [s[0]] + s[1..];
        SplicedOnlyRemoves(s[1..], drop);
      }
    }
  }

  /** No two neighbours are both to be removed. */
  predicate NoAdjacent<T>(s: seq<T>, drop: T -> bool) {
    forall i :: 0 <= i < |s| - 1 ==> !(drop(s[i]) && drop(s[i + 1]))
  }

  lemma NoAdjacentSuffix<T>(s: seq<T>, m: nat, drop: T -> bool)
    requires NoAdjacent(s, drop) && m <= |s|
    ensures NoAdjacent(s[m..], drop)
  {
    forall i | 0 <= i < |s[m..]| - 1
      ensures !(drop(s[m..][i]) && drop(s[m..][i + 1]))
    {
      assert s[m..][i] == s[m + i] && s[m..][i + 1] == s[m + i + 1];
    }
  }

  /** Without two neighbouring targets, splicing removes every target. */
  lemma {:induction false} NoAdjacentSplicedIsWithout<T>(s: seq<T>, drop: T -> bool)
    requires NoAdjacent(s, drop)
    ensures Spliced(s, drop) == Without(s, drop)
    decreases |s|
  {
    if |s| == 1 {
      assert s[1..] == [];
    } else if |s| >= 2 {
      if drop(s[0]) {
        assert !drop(s[1]) by {
          assert !(drop(s[0]) && drop(s[1]));
        }
        NoAdjacentSuffix(s, 2, drop);
        NoAdjacentSplicedIsWithout(s[2..], drop);
        assert s[1..][0] == s[1] && s[1..][1..] == s[2..];
      } else {
        NoAdjacentSuffix(s, 1, drop);
        NoAdjacentSplicedIsWithout(s[1..], drop);
      }
    }
  }

  /** The element after a removed one is never examined: it is kept,
      whatever it is, and the walk resumes after it. So of two neighbouring
      targets, the second survives. */
  lemma SpliceSkipsSecond<T>(x: T, y: T, t: seq<T>, drop: T -> bool)
    requires drop(x)
    ensures Spliced([x, y] + t, drop) == [y] + Spliced(t, drop)
    ensures Spliced([x, x], drop) == [x]
  {
    assert ([x, y] + t)[2..] == t;
    assert [x, x][2..] == [];
  }

  lemma {:induction false} WithoutHasNone<T>(s: seq<T>, drop: T -> bool)
    ensures forall x :: x in Without(s, drop) ==> !drop(x)
    decreases |s|
  {
    if s != [] {
      WithoutHasNone(s[1..], drop);
    }
  }

  // ------------------------------------------------------------------
  // removeDirectives and removeDefinitions
  // ------------------------------------------------------------------

  /** removeDirectives keeps every definition's kind and name and, on
      unscanned definitions, everything; on a scanned field it keeps the
      name and every other directive in order, and removes only named
      directives. */
  lemma StripDirectivesKeepsOthers(defs: seq<Definition>, directiveName: string, i: int, j: int)
    requires 0 <= i < |defs|
    ensures |StripDirectives(defs, directiveName)| == |defs|
    ensures var d := StripDirectives(defs, directiveName)[i];
      && d.kind == defs[i].kind && d.name == defs[i].name && |d.fields| == |defs[i].fields|
      && (!HasScannedFields(defs[i]) ==> d == defs[i])
    ensures HasScannedFields(defs[i]) && 0 <= j < |defs[i].fields| ==>
      var f := StripDirectives(defs, directiveName)[i].fields[j];
      var named := NamedDirective(directiveName);
      && f.name == defs[i].fields[j].name
      && Without(f.directives, named) == Without(defs[i].fields[j].directives, named)
      && multiset(f.directives) <= multiset(defs[i].fields[j].directives)
  {
    if HasScannedFields(defs[i]) && 0 <= j < |defs[i].fields| {
      SplicedKeepsOthers(defs[i].fields[j].directives, NamedDirective(directiveName));
      SplicedOnlyRemoves(defs[i].fields[j].directives, NamedDirective(directiveName));
    }
  }

  /** When no field carries two named directives side by side, none is left
      on any scanned field. */
  lemma StripDirectivesRemovesAll(defs: seq<Definition>, directiveName: string, i: int, j: int)
    requires 0 <= i < |defs| && HasScannedFields(defs[i]) && 0 <= j < |defs[i].fields|
    requires NoAdjacent(defs[i].fields[j].directives, NamedDirective(directiveName))
    ensures forall d :: d in StripDirectives(defs, directiveName)[i].fields[j].directives ==> d.name != directiveName
  {
    var ds := defs[i].fields[j].directives;
    NoAdjacentSplicedIsWithout(ds, NamedDirective(directiveName));
    WithoutHasNone(ds, NamedDirective(directiveName));
  }

  /** The clean schema keeps every definition other than the `@cost`
      directive definition, in order, and drops nothing else. */
  lemma CleanSchemaKeepsDefinitions(defs: seq<Definition>)
    ensures var clean := Spliced(StripDirectives(defs, "cost"), MatchesDefinition(DirectiveDefinition, "cost"));
      var byName := MatchesDefinition(DirectiveDefinition, "cost");
      && Without(clean, byName) == Without(StripDirectives(defs, "cost"), byName)
      && multiset(clean) <= multiset(StripDirectives(defs, "cost"))
  {
    SplicedKeepsOthers(StripDirectives(defs, "cost"), MatchesDefinition(DirectiveDefinition, "cost"));
    SplicedOnlyRemoves(StripDirectives(defs, "cost"), MatchesDefinition(DirectiveDefinition, "cost"));
  }
}

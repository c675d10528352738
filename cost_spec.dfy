/** The cost table shared by the directive extractor (which builds it from
    schema annotations) and the cost visitor (which reads it). */
module CostSpec {

  datatype Option<+T> = None | Some(value: T) {
    function GetOr(default: T): T {
      match this
      case Some(v) => v
      case None => default
    }
  }

  /** One entry of a field's `multipliers` list: the name of one of the
      field's arguments, or a number that contributes itself. */
  datatype Multiplier = MName(name: string) | MNum(n: int)

  /** The cost-table entry of one field. A component is `Some` exactly when
      the key is present in the JavaScript object; absent keys take the
      visitor's defaults. The key `provides` is held in `provided` (`provides` is a Dafny keyword).
      The extractor never sets `recursionMultiplier`;
      a table written by hand may. */
  datatype CostEntry = CostEntry(
    complexity: Option<int>,
    multipliers: Option<seq<Multiplier>>,
    useMultipliers: Option<bool>,
    provided: Option<seq<string>>,
    tokens: Option<int>,
    recursionMultiplier: Option<int>)

  /** The object `{}`: no key set. */
  const EmptyEntry: CostEntry := CostEntry(None, None, None, None, None, None)

  /** `Object.keys(entry).length == 0`. */
  predicate IsEmptyEntry(e: CostEntry) {
    e == EmptyEntry
  }

  /** Type name -> field name -> entry. */
  type CostTable = map<string, map<string, CostEntry>>

  /** Whether the table holds an entry at `table[typeName][fieldName]`. */
  predicate HasEntry(table: CostTable, typeName: string, fieldName: string) {
    typeName in table && fieldName in table[typeName]
  }
}

/**
 * Translation of a condition array into where clauses. Each entry of the
 * array adds exactly one clause, in the array's iteration order:
 *   - a positional key with an array value spreads the array as the
 *     arguments of one where call (`[col, value]` or `[col, operator, value]`);
 *   - a column key with an array value adds one whereIn;
 *   - any scalar value adds a two-argument where on the key.
 */
module ScopeBuilder {
  import opened Queries

  /** A key of a PHP condition array: an integer (positional) key or a column name. */
  datatype Key = Pos(index: int) | Col(name: string)

  /** A condition value: a scalar, or an array of scalars. */
  datatype Value = One(x: Scalar) | Many(items: seq<Scalar>)

  /** A condition array, in its iteration order. */
  type Conditions = seq<(Key, Value)>

  /** The key passed as the first argument of a where call. */
  function KeyArg(key: Key): Scalar {
    match key
    case Pos(i) => Int(i)
    case Col(c) => Str(c)
  }

  /** The clause that `apply` adds for one entry. */
  function Clause(key: Key, value: Value): (op: Op)
    ensures op.WhereIn? <==> key.Col? && value.Many?
    ensures op.WhereIn? ==> op == WhereIn(key.name, value.items)
    ensures key.Pos? && value.Many? ==> op == Where(value.items)
    ensures value.One? ==> op == Where([KeyArg(key), value.x])
    ensures op != WithTrashed
  {
    if key.Pos? && value.Many? then Where(value.items)
    else if value.Many? then WhereIn(key.name, value.items)
    else Where([KeyArg(key), value.x])
  }

  /** The clauses `generate` adds: one per entry, in iteration order. */
  function ConditionOps(conditions: Conditions): (ops: seq<Op>)
    ensures |ops| == |conditions|
    ensures forall i :: 0 <= i < |conditions| ==>
      ops[i] == Clause(conditions[i].0, conditions[i].1)
  {
    if conditions == [] then []
    else
      var n := |conditions| - 1;
      ConditionOps(conditions[..n]) + [Clause(conditions[n].0, conditions[n].1)]
  }

  /** `ScopeBuilder::apply`: adds the entry's one clause to the given query. */
  method Apply(query: Query, key: Key, value: Value) returns (q: Query)
    modifies query
    ensures q == query
    ensures query.ops == old(query.ops) + [Clause(key, value)]
    ensures query.softDeleteScope == old(query.softDeleteScope)
  {
    if key.Pos? && value.Many? {
      query.Append(Where(value.items));
    } else if value.Many? {
      query.Append(WhereIn(key.name, value.items));
    } else {
      query.Append(Where([KeyArg(key), value.x]));
    }
    q := query;
  }

  /** `ScopeBuilder::generate`: applies every entry, in order, to the same query. */
  method Generate(query: Query, conditions: Conditions) returns (q: Query)
    modifies query
    ensures q == query
    ensures query.ops == old(query.ops) + ConditionOps(conditions)
    ensures query.softDeleteScope == old(query.softDeleteScope)
  {
    var i := 0;
    while i < |conditions|
      invariant 0 <= i <= |conditions|
      invariant query.ops == old(query.ops) + ConditionOps(conditions[..i])
      invariant query.softDeleteScope == old(query.softDeleteScope)
    {
      var (key, value) := conditions[i];
      var _ := Apply(query, key, value);
      assert conditions[..i + 1][..i] == conditions[..i];
      i := i + 1;
    }
    assert conditions[..i] == conditions;
    q := query;
  }
}

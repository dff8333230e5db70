/**
 * The Eloquent model and query builder, seen from the repository: a query is
 * the sequence of clauses added to it plus whether the model's soft-delete
 * scope is still in force. Nothing here generates or runs SQL.
 */
module Queries {
  import opened Outcomes

  /** A scalar argument of a where clause; `Null` is PHP's null. */
  datatype Scalar = Str(s: string) | Int(i: int) | Bool(b: bool) | Null

  /** A clause added to a query, one per builder call. */
  datatype Op =
    | Where(args: seq<Scalar>)                  // where(...args)
    | WhereIn(column: string, values: seq<Scalar>)
    | Select(columns: seq<string>)
    | Limit(n: int)
    | OrderBy(column: string, direction: string)
    | With(relations: seq<string>)
    | WithTrashed
    | ForPage(page: int, perPage: int)

  /**
   * The database's count-for-pagination of a query: a function of its clauses
   * and of whether the soft-delete scope is in force.
   */
  type Counter = (seq<Op>, bool) -> nat

  /**
   * An Eloquent model instance: its class, the class's default page size,
   * whether the class uses the SoftDeletes trait, its primary key and
   * whether it exists in the database (`$exists`).
   */
  datatype Model = Model(
    className: string,
    perPage: int,
    softDeletes: bool,
    key: Option<int>,
    persisted: bool)
  {
    /** Eloquent's newInstance(): a new, unsaved instance of the same class. */
    function NewInstance(): (m: Model)
      ensures m.className == className && m.perPage == perPage && m.softDeletes == softDeletes
      ensures m.key == None && !m.persisted
    {
      Model(className, perPage, softDeletes, None, false)
    }
  }

  /**
   * A new instance depends only on the class: instantiating again changes
   * nothing, and an unsaved, keyless model is its own new instance.
   */
  lemma NewInstanceOfClass(a: Model, b: Model)
    ensures a.NewInstance().NewInstance() == a.NewInstance()
    ensures a.NewInstance() == a <==> a.key == None && !a.persisted
    ensures a.NewInstance() == b.NewInstance() <==>
      a.className == b.className && a.perPage == b.perPage && a.softDeletes == b.softDeletes
  {
  }

  /** An Eloquent query builder. */
  class Query {
    var ops: seq<Op>
    var softDeleteScope: bool

    /** A query as `Model::newQuery()` returns it: no clauses, global scopes on. */
    constructor (model: Model)
      ensures ops == [] && softDeleteScope == model.softDeletes
    {
      ops := [];
      softDeleteScope := model.softDeletes;
    }

    /** One builder call: the clause is appended; withTrashed() also lifts the soft-delete scope. */
    method Append(op: Op)
      modifies this
      ensures ops == old(ops) + [op]
      ensures softDeleteScope == (old(softDeleteScope) && op != WithTrashed)
    {
      ops := ops + [op];
      if op == WithTrashed {
        softDeleteScope := false;
      }
    }
  }
}

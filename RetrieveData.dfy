/**
 * The query-preparation state of a repository (columns to select, row limit,
 * orderings, eager-loaded relations) and the clauses prepareQuery adds for it.
 */
module RetrieveData {
  import opened Queries
  import opened OrderedMaps

  /** The pending preparation state; `order` maps a column to its direction. */
  datatype PrepState = PrepState(
    columns: seq<string>,
    limit: int,
    order: OMap<string, string>,
    withRelations: seq<string>)

  /** The state bootRetrieveData sets: all columns, no limit, no ordering, no relations. */
  const BootState: PrepState := PrepState(["*"], 0, [], [])

  /** The direction orderBy uses when none is given. */
  const DefaultDirection: string := "asc"

  /** The columns `select` stores: the given ones, or all columns for an empty list. */
  function SelectedColumns(columns: seq<string>): (r: seq<string>)
    ensures r != []
    ensures columns != [] ==> r == columns
    ensures columns == [] ==> r == ["*"]
  {
    if columns == [] then ["*"] else columns
  }

  /** The orderBy clauses for the ordering map, in its order. */
  function OrderOps(order: OMap<string, string>): (ops: seq<Op>)
    ensures |ops| == |order|
  {
    if order == [] then []
    else
      var n := |order| - 1;
      OrderOps(order[..n]) + [OrderBy(order[n].0, order[n].1)]
  }

  /** One orderBy per entry, in the map's order. */
  lemma {:induction false} OrderOpsAt(order: OMap<string, string>, i: nat)
    requires i < |order|
    ensures OrderOps(order)[i] == OrderBy(order[i].0, order[i].1)
  {
    var n := |order| - 1;
    if i < n {
      OrderOpsAt(order[..n], i);
    }
  }

  /** The clauses prepareQuery adds for a preparation state. */
  function PreparedOps(s: PrepState): seq<Op> {
    (if |s.withRelations| > 0 then [With(s.withRelations)] else [])
    + [Select(s.columns)]
    + (if s.limit > 0 then [Limit(s.limit)] else [])
    + OrderOps(s.order)
  }

  /** The stage of prepareQuery that adds a clause. */
  function Stage(op: Op): nat {
    match op
    case With(_) => 0
    case Select(_) => 1
    case Limit(_) => 2
    case _ => 3
  }

  /** A query prepared from the boot state only selects all columns. */
  lemma PreparedBoot()
    ensures PreparedOps(BootState) == [Select(["*"])]
  {
    assert OrderOps([]) == [];
  }

  /**
   * prepareQuery adds its clauses stage by stage: eager loads, then the
   * selection, then the limit, then the orderings; every stage but the last
   * adds at most one clause.
   */
  lemma PreparedInStages(s: PrepState)
    ensures var ops := PreparedOps(s);
      forall i, j :: 0 <= i < j < |ops| ==>
        Stage(ops[i]) <= Stage(ops[j]) && (Stage(ops[i]) < 3 ==> Stage(ops[i]) < Stage(ops[j]))
  {
    var ops := PreparedOps(s);
    var head := (if |s.withRelations| > 0 then [With(s.withRelations)] else [])
      + [Select(s.columns)] + (if s.limit > 0 then [Limit(s.limit)] else []);
    assert ops == head + OrderOps(s.order);
    forall i | |head| <= i < |ops| ensures Stage(ops[i]) == 3 {
      assert ops[i] == OrderOps(s.order)[i - |head|];
      OrderOpsAt(s.order, i - |head|);
    }
    forall i | 0 <= i < |head| ensures Stage(ops[i]) == i + (if |s.withRelations| > 0 then 0 else 1)
      && (i == |head| - 1 ==> Stage(ops[i]) == (if s.limit > 0 then 2 else 1)) {
      assert ops[i] == head[i];
    }
  }

  /** Exactly one selection is added, and it carries the pending columns. */
  lemma PreparedSelectsOnce(s: PrepState)
    ensures var ops := PreparedOps(s);
      (exists i :: 0 <= i < |ops| && ops[i] == Select(s.columns))
      && (forall i :: 0 <= i < |ops| && ops[i].Select? ==> ops[i] == Select(s.columns))
      && (forall i, j :: 0 <= i < j < |ops| ==> !(ops[i].Select? && ops[j].Select?))
  {
    var ops := PreparedOps(s);
    PreparedInStages(s);
    var k := if |s.withRelations| > 0 then 1 else 0;
    assert ops[k] == Select(s.columns);
    forall i | 0 <= i < |ops| && ops[i].Select? ensures ops[i] == Select(s.columns) {
      PreparedClauseAt(s, i);
    }
  }

  /** A limit clause is added exactly when the stored limit is positive, and then carries it. */
  lemma PreparedLimit(s: PrepState)
    ensures var ops := PreparedOps(s);
      ((exists i :: 0 <= i < |ops| && ops[i].Limit?) <==> s.limit > 0)
      && forall i :: 0 <= i < |ops| && ops[i].Limit? ==> ops[i] == Limit(s.limit)
  {
    var ops := PreparedOps(s);
    forall i | 0 <= i < |ops| && ops[i].Limit? ensures ops[i] == Limit(s.limit) && s.limit > 0 {
      PreparedClauseAt(s, i);
    }
    if s.limit > 0 {
      var k := if |s.withRelations| > 0 then 2 else 1;
      assert ops[k] == Limit(s.limit);
    }
  }

  /** An eager-load clause is added exactly when relations are pending, and then carries them. */
  lemma PreparedWith(s: PrepState)
    ensures var ops := PreparedOps(s);
      ((exists i :: 0 <= i < |ops| && ops[i].With?) <==> |s.withRelations| > 0)
      && forall i :: 0 <= i < |ops| && ops[i].With? ==> ops[i] == With(s.withRelations)
  {
    var ops := PreparedOps(s);
    forall i | 0 <= i < |ops| && ops[i].With? ensures ops[i] == With(s.withRelations) && |s.withRelations| > 0 {
      PreparedClauseAt(s, i);
    }
    if |s.withRelations| > 0 {
      assert ops[0] == With(s.withRelations);
    }
  }

  /** The orderings come last, one per column, in the order the columns were first ordered. */
  lemma PreparedOrderingsLast(s: PrepState)
    ensures var ops := PreparedOps(s);
      |ops| >= |s.order| && ops[|ops| - |s.order|..] == OrderOps(s.order)
  {
  }

  /** Every clause prepareQuery adds is one of the four kinds, carrying the pending values. */
  lemma PreparedClauseAt(s: PrepState, i: nat)
    requires i < |PreparedOps(s)|
    ensures var op := PreparedOps(s)[i];
      || (op == With(s.withRelations) && |s.withRelations| > 0)
      || op == Select(s.columns)
      || (op == Limit(s.limit) && s.limit > 0)
      || (op.OrderBy? && (op.column, op.direction) in s.order)
  {
    var ops := PreparedOps(s);
    var head := (if |s.withRelations| > 0 then [With(s.withRelations)] else [])
      + [Select(s.columns)] + (if s.limit > 0 then [Limit(s.limit)] else []);
    assert ops == head + OrderOps(s.order);
    if i >= |head| {
      var j := i - |head|;
      assert ops[i] == OrderOps(s.order)[j];
      OrderOpsAt(s.order, j);
      assert s.order[j] in s.order;
    } else {
      assert ops[i] == head[i];
    }
  }

  /** Ordering a column again overwrites its direction: it is as if only the second call was made. */
  lemma OrderByOverwrites(order: OMap<string, string>, column: string, first: string, second: string)
    ensures Put(Put(order, column, first), column, second) == Put(order, column, second)
    ensures |OrderOps(Put(Put(order, column, first), column, second))| ==
            |order| + (if column in Keys(order) then 0 else 1)
  {
    PutOverwrites(order, column, first, second);
  }
}

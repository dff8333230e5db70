/**
 * EloquentRepository with the state its HasCriterias and RetrieveData traits
 * add to it: the criteria registry and the pending preparation state. Every
 * method is proved against the functions of the HasCriterias, RetrieveData
 * and ScopeBuilder modules.
 */
module Repository {
  import opened Outcomes
  import opened Queries
  import opened OrderedMaps
  import opened Criterias
  import opened HasCriterias
  import opened RetrieveData
  import ScopeBuilder

  /** How a finder fetches from the query it builds: `get()` or `first()`. */
  datatype Fetch = FetchAll | FetchFirst

  class EloquentRepository {
    const model: Model
    var criterias: Registry
    var columns: seq<string>
    var limit: int
    var order: OMap<string, string>
    var withRelations: seq<string>

    /** The pending preparation state. */
    ghost function Prep(): PrepState
      reads this`columns, this`limit, this`order, this`withRelations
    {
      PrepState(columns, limit, order, withRelations)
    }

    /** The registry stores each criterion under its class, and every criterion has a model bound. */
    ghost predicate Valid()
      reads this`criterias, Objects(criterias)
    {
      KeyedByClass(criterias) && Bound(criterias)
    }

    /** Every registered criterion is bound to a new instance of this repository's model. */
    ghost predicate OwnModelBound()
      reads this`criterias, Objects(criterias)
    {
      BoundTo(criterias, NewModel())
    }

    /** Stores the model, then boots both traits. */
    constructor (model: Model)
      ensures this.model == model
      ensures criterias == [] && Prep() == BootState
      ensures Valid() && OwnModelBound()
    {
      this.model := model;
      new;
      BootTraits();
    }

    /** The boot method of each trait the repository uses. */
    method BootTraits()
      modifies this`criterias, this`columns, this`limit, this`order, this`withRelations
      ensures criterias == [] && Prep() == BootState
    {
      BootHasCriterias();
      BootRetrieveData();
    }

    /** A new, unsaved instance of the repository's model. */
    function NewModel(): (m: Model)
      ensures m.key == None && !m.persisted
      ensures m.className == model.className
      ensures m.perPage == model.perPage && m.softDeletes == model.softDeletes
    {
      model.NewInstance()
    }

    // ---------------------------------------------------------- HasCriterias

    method BootHasCriterias()
      modifies this`criterias
      ensures criterias == []
    {
      FlushCriteria();
    }

    /** Empties the registry: afterwards no class is registered. */
    method FlushCriteria()
      modifies this`criterias
      ensures criterias == []
      ensures forall name :: GetCriteria(name) == None
      ensures Valid() && OwnModelBound()
    {
      criterias := [];
    }

    /** The criterion registered under the class name, or None. */
    function GetCriteria(name: string): (r: Option<Criterion>)
      reads this`criterias
      ensures r.Some? <==> name in Keys(criterias)
      ensures r.Some? ==> (name, r.value) in criterias
      ensures KeyedByClass(criterias) && r.Some? ==> r.value.ClassName() == name
    {
      Get(criterias, name)
    }

    /**
     * Binds a new model instance to the criterion and registers it under its
     * class; anything else throws InvalidArgumentException.
     */
    method BuildCriteria(item: Pushable) returns (outcome: Outcome)
      requires Valid()
      modifies this`criterias, PaginationOf(item)`model, TrashedOf(item)`model
      ensures (criterias, outcome) == Pushed(old(criterias), [item])
      ensures item.Instance? ==> item.criterion.BoundModel() == Some(NewModel())
      ensures Valid()
      ensures old(OwnModelBound()) ==> OwnModelBound()
    {
      if item.Other? {
        outcome := Fail(InvalidArgument(NotACriteriaMessage));
        return;
      }
      var c := item.criterion;
      assert [item][0] == item;
      PushedKeyedByClass(criterias, [item]);
      BindEntry(criterias, c, NewModel());
      RepositoryNotCriterion(Put(criterias, c.ClassName(), c), this);
      criterias := Put(criterias, c.ClassName(), c);
      outcome := Pass;
    }

    /** setModel on the criterion, seen from a registry the criterion is then put into. */
    static method BindEntry(reg: Registry, c: Criterion, m: Model)
      requires Bound(reg)
      modifies PaginationOf(Instance(c))`model, TrashedOf(Instance(c))`model
      ensures c.BoundModel() == Some(m)
      ensures Bound(Put(reg, c.ClassName(), c))
      ensures old(BoundTo(reg, m)) ==> BoundTo(Put(reg, c.ClassName(), c), m)
    {
      if c.Paginate? {
        c.p.SetModel(m);
      } else {
        c.t.SetModel(m);
      }
      forall i | 0 <= i < |reg|
        ensures reg[i].1.BoundModel().Some?
        ensures old(reg[i].1.BoundModel()) == Some(m) ==> reg[i].1.BoundModel() == Some(m)
      {
        if reg[i].1.Obj() == c.Obj() {
          assert reg[i].1 == c;
        }
      }
      PutBound(reg, c, m);
    }

    /**
     * Builds each element in turn; the first element that is not a criterion
     * throws, and the criteria built before it stay registered.
     */
    method PushCriteria(items: seq<Pushable>) returns (outcome: Outcome)
      requires Valid()
      modifies this`criterias, PaginationsIn(items[..FirstOther(items)])`model,
        TrashedIn(items[..FirstOther(items)])`model
      ensures (criterias, outcome) == Pushed(old(criterias), items)
      ensures forall i :: 0 <= i < FirstOther(items) ==> items[i].criterion.BoundModel() == Some(NewModel())
      ensures Valid()
      ensures old(OwnModelBound()) ==> OwnModelBound()
    {
      ghost var wasOwn := OwnModelBound();
      var i := 0;
      while i < |items|
        invariant 0 <= i <= FirstOther(items)
        invariant Pushed(criterias, items[i..]) == Pushed(old(criterias), items)
        invariant forall j :: 0 <= j < i ==> items[j].criterion.BoundModel() == Some(NewModel())
        invariant Valid()
        invariant wasOwn ==> OwnModelBound()
      {
        ghost var before := criterias;
        if items[i].Instance? {
          assert items[..FirstOther(items)][i] == items[i];
          ItemFrames(items[..FirstOther(items)], i);
        }
        outcome := PushStep(items, i);
        if outcome.Fail? {
          assert (criterias, outcome) == Pushed(before, items[i..]);
          assert i == FirstOther(items);
          return;
        }
        i := i + 1;
      }
      outcome := Pass;
    }

    /** One iteration of pushCriteria: builds element i, keeping the bindings made before it. */
    method PushStep(items: seq<Pushable>, i: nat) returns (outcome: Outcome)
      requires i <= FirstOther(items) && i < |items| && Valid()
      requires forall j :: 0 <= j < i ==> items[j].criterion.BoundModel() == Some(NewModel())
      modifies this`criterias, PaginationOf(items[i])`model, TrashedOf(items[i])`model
      ensures outcome.Pass? <==> items[i].Instance?
      ensures outcome.Pass? ==> Pushed(criterias, items[i + 1..]) == Pushed(old(criterias), items[i..])
      ensures outcome.Fail? ==> (criterias, outcome) == Pushed(old(criterias), items[i..])
      ensures forall j :: 0 <= j < i ==> items[j].criterion.BoundModel() == Some(NewModel())
      ensures outcome.Pass? ==> items[i].criterion.BoundModel() == Some(NewModel())
      ensures Valid()
      ensures old(OwnModelBound()) ==> OwnModelBound()
    {
      assert [items[i]][0] == items[i];
      if items[i].Instance? {
        PushedStep(criterias, items, i);
      } else {
        assert items[i..][0] == items[i];
      }
      outcome := BuildCriteria(items[i]);
      if items[i].Instance? {
        ghost var c := items[i].criterion;
        forall j | 0 <= j < i ensures items[j].criterion.BoundModel() == Some(NewModel()) {
          var d := items[j].criterion;
          if d.Obj() == c.Obj() {
            assert d == c;
          } else {
            if d.Paginate? {
              assert d.p !in PaginationOf(items[i]);
              assert d.p.model == old(d.p.model);
            } else {
              assert d.t !in TrashedOf(items[i]);
              assert d.t.model == old(d.t.model);
            }
          }
        }
      }
    }

    /** Drops the criterion registered under the class name, if there is one. */
    method ForgetCriteria(name: string)
      requires Valid()
      modifies this`criterias
      ensures criterias == Forget(old(criterias), name)
      ensures Valid()
      ensures old(OwnModelBound()) ==> OwnModelBound()
    {
      if name in Keys(criterias) {
        SubRegistryBound(criterias, Forget(criterias, name), NewModel());
        RemovedKeyedByClass(criterias, [name]);
        assert ForgetAll(criterias, [name]) == Forget(criterias, name);
        criterias := Forget(criterias, name);
      } else {
        ForgetAbsent(criterias, name);
      }
    }

    /** Forgets each named class in turn. */
    method RemoveCriteria(names: seq<string>)
      requires Valid()
      modifies this`criterias
      ensures criterias == ForgetAll(old(criterias), names)
      ensures Valid()
      ensures old(OwnModelBound()) ==> OwnModelBound()
    {
      ghost var wasOwn := OwnModelBound();
      var i := 0;
      while i < |names|
        invariant 0 <= i <= |names|
        invariant ForgetAll(criterias, names[i..]) == ForgetAll(old(criterias), names)
        invariant Valid()
        invariant wasOwn ==> OwnModelBound()
      {
        assert names[i..][0] == names[i] && names[i..][1..] == names[i + 1..];
        ForgetCriteria(names[i]);
        i := i + 1;
      }
    }

    /** Applies each registered criterion that is not on-demand, in registration order. */
    method ApplyCriterias(query: Query) returns (q: Query)
      requires Bound(criterias)
      modifies query
      ensures q == query
      ensures query.ops == old(query.ops) + AutoOps(criterias)
      ensures query.softDeleteScope == (old(query.softDeleteScope) && WithTrashed !in AutoOps(criterias))
    {
      var reg := criterias;
      QueryNotCriterion(reg, query);
      var i := 0;
      while i < |reg|
        invariant 0 <= i <= |reg|
        invariant Bound(reg)
        invariant query.ops == old(query.ops) + AutoOps(reg[..i])
        invariant query.softDeleteScope == (old(query.softDeleteScope) && WithTrashed !in AutoOps(reg[..i]))
      {
        PrefixBound(reg, i);
        ApplyEntry(reg, i, query);
        i := i + 1;
      }
      assert reg[..i] == reg;
      q := query;
    }

    /**
     * With every criterion bound to this repository's model, the registry adds
     * one withTrashed exactly when WithTrashedCriteria is registered and the
     * model uses soft deletes.
     */
    lemma OwnModelAutoOps()
      requires Valid() && OwnModelBound()
      ensures AutoOps(criterias) ==
        if model.softDeletes && WithTrashedClass in Keys(criterias) then [WithTrashed] else []
    {
      AutoOpsOfUniformModel(criterias, model.softDeletes);
    }

    /** Applies entry i of the registry after the entries before it. */
    static method ApplyEntry(reg: Registry, i: nat, query: Query)
      requires i < |reg| && Bound(reg) && Bound(reg[..i])
      modifies query
      ensures Bound(reg)
      ensures query.ops == old(query.ops) + CriterionOps(reg[i].1)
      ensures Bound(reg[..i]) && Bound(reg[..i + 1])
      ensures AutoOps(reg[..i + 1]) == old(AutoOps(reg[..i])) + CriterionOps(reg[i].1)
      ensures query.softDeleteScope == (old(query.softDeleteScope) && WithTrashed !in CriterionOps(reg[i].1))
    {
      AutoOpsStep(reg, i);
      QueryNotCriterion(reg, query);
      QueryNotCriterion(reg[..i + 1], query);
      QueryNotCriterion(reg[..i], query);
      ghost var ops := CriterionOps(reg[i].1);
      label Step:
      ApplyCriterion(reg[i].1, query);
      AutoOpsFramed@Step(reg[..i + 1]);
      AutoOpsFramed@Step(reg[..i]);
      BoundFramed@Step(reg);
      assert reg[i].1.Obj() in Objects(reg);
      assert CriterionOps(reg[i].1) == ops;
    }

    /** The body of applyCriterias's loop: manipulates the query unless the criterion is on-demand. */
    static method ApplyCriterion(c: Criterion, query: Query)
      requires c.BoundModel().Some?
      modifies query
      ensures query.ops == old(query.ops) + CriterionOps(c)
      ensures query.softDeleteScope == (old(query.softDeleteScope) && WithTrashed !in CriterionOps(c))
    {
      if !c.OnDemandOnly() {
        match c
        case Trashed(t) =>
          var _ := t.Manipulate(query);
        case Paginate(_) =>
          assert false;
      }
    }

    // ---------------------------------------------------------- RetrieveData

    method BootRetrieveData()
      modifies this`columns, this`limit, this`order, this`withRelations
      ensures Prep() == BootState
    {
      columns := ["*"];
      limit := 0;
      order := [];
      withRelations := [];
    }

    method RebootRetrieveData()
      modifies this`columns, this`limit, this`order, this`withRelations
      ensures Prep() == BootState
    {
      BootRetrieveData();
    }

    /** The columns to select; an empty list selects all columns. */
    method Select(columns: seq<string> := [])
      modifies this`columns
      ensures this.columns != []
      ensures this.columns == SelectedColumns(columns)
    {
      var cs := columns;
      if cs == [] {
        cs := ["*"];
      }
      this.columns := cs;
    }

    /** The row limit, stored as given; prepareQuery adds it only when positive. */
    method Limit(n: int)
      modifies this`limit
      ensures limit == n
    {
      limit := n;
    }

    /** Orders by the column; ordering a column again overwrites its direction where it stands. */
    method OrderBy(column: string, direction: string := DefaultDirection)
      modifies this`order
      ensures order == Put(old(order), column, direction)
      ensures Get(order, column) == Some(direction)
      ensures forall c :: c != column ==> Get(order, c) == Get(old(order), c)
    {
      forall c ensures Get(Put(order, column, direction), c) == if c == column then Some(direction) else Get(order, c) {
        GetAfterPut(order, column, direction, c);
      }
      order := Put(order, column, direction);
    }

    /** Appends relations to eager-load. */
    method With(relations: seq<string>)
      modifies this`withRelations
      ensures withRelations == old(withRelations) + relations
    {
      withRelations := withRelations + relations;
    }

    /** Puts the pending preparation state onto the query, then restores the boot state. */
    method PrepareQuery(query: Query) returns (q: Query)
      modifies query, this`columns, this`limit, this`order, this`withRelations
      ensures q == query
      ensures query.ops == old(query.ops) + PreparedOps(old(Prep()))
      ensures query.softDeleteScope == old(query.softDeleteScope)
      ensures Prep() == BootState
    {
      ghost var s := Prep();
      ghost var w := if |withRelations| > 0 then [Op.With(withRelations)] else [];
      ghost var l := if limit > 0 then [Op.Limit(limit)] else [];
      if |withRelations| > 0 {
        query.Append(Op.With(withRelations));
      }
      query.Append(Op.Select(columns));
      if limit > 0 {
        query.Append(Op.Limit(limit));
      }
      assert query.ops == old(query.ops) + w + [Op.Select(s.columns)] + l;
      ApplyOrderings(query);
      assert PreparedOps(s) == w + [Op.Select(s.columns)] + l + OrderOps(s.order);
      Regroup(old(query.ops), w, [Op.Select(s.columns)], l, OrderOps(s.order));
      RebootRetrieveData();
      q := query;
    }

    /** The loop of prepareQuery over the orderings: one orderBy per entry, in order. */
    method ApplyOrderings(query: Query)
      modifies query
      ensures query.ops == old(query.ops) + OrderOps(order)
      ensures query.softDeleteScope == old(query.softDeleteScope)
    {
      var i := 0;
      while i < |order|
        invariant 0 <= i <= |order|
        invariant query.ops == old(query.ops) + OrderOps(order[..i])
        invariant query.softDeleteScope == old(query.softDeleteScope)
      {
        query.Append(Op.OrderBy(order[i].0, order[i].1));
        assert order[..i + 1][..i] == order[..i];
        i := i + 1;
      }
      assert order[..i] == order;
    }

    // ---------------------------------------------------------- queries

    /** The model's own query: no criteria, no preparation, and the preparation state is left alone. */
    method PlainQuery() returns (q: Query)
      ensures fresh(q)
      ensures q.ops == [] && q.softDeleteScope == model.softDeletes
    {
      q := new Query(model);
    }

    /** A plain query to which the criteria are applied first and the preparation state second. */
    method NewQuery() returns (q: Query)
      requires Bound(criterias)
      modifies this`columns, this`limit, this`order, this`withRelations
      ensures fresh(q)
      ensures q.ops == old(AutoOps(criterias)) + PreparedOps(old(Prep()))
      ensures q.softDeleteScope == (model.softDeletes && WithTrashed !in old(AutoOps(criterias)))
      ensures Prep() == BootState
    {
      ghost var auto := AutoOps(criterias);
      ghost var s := Prep();
      label Start:
      q := PlainQuery();
      QueryNotCriterion(criterias, q);
      q := ApplyCriterias(q);
      AutoOpsFramed@Start(criterias);
      assert [] + auto == auto;
      assert q.ops == auto && q.softDeleteScope == (model.softDeletes && WithTrashed !in auto);
      q := PrepareQuery(q);
      assert q.ops == auto + PreparedOps(s);
    }

    /** The where clauses for a condition array, by the scope builder. */
    method BuildMultipleScope(query: Query, conditions: ScopeBuilder.Conditions) returns (q: Query)
      modifies query
      ensures q == query
      ensures query.ops == old(query.ops) + ScopeBuilder.ConditionOps(conditions)
      ensures query.softDeleteScope == old(query.softDeleteScope)
    {
      q := ScopeBuilder.Generate(query, conditions);
    }

    /** The query `findAllBy` fetches all rows of: a new query plus one basic where. */
    method FindAllBy(column: string, operator: string, value: Option<string> := None)
      returns (q: Query, fetch: Fetch)
      requires Bound(criterias)
      modifies this`columns, this`limit, this`order, this`withRelations
      ensures fresh(q) && fetch == FetchAll
      ensures q.ops == old(AutoOps(criterias)) + PreparedOps(old(Prep())) + [Op.Where(WhereArgs(column, operator, value))]
      ensures q.softDeleteScope == (model.softDeletes && WithTrashed !in old(AutoOps(criterias)))
      ensures Prep() == BootState
    {
      q := NewQuery();
      q.Append(Op.Where(WhereArgs(column, operator, value)));
      fetch := FetchAll;
    }

    /** The query `findBy` fetches the first row of: a new query plus one basic where. */
    method FindBy(column: string, operator: string, value: Option<string> := None)
      returns (q: Query, fetch: Fetch)
      requires Bound(criterias)
      modifies this`columns, this`limit, this`order, this`withRelations
      ensures fresh(q) && fetch == FetchFirst
      ensures q.ops == old(AutoOps(criterias)) + PreparedOps(old(Prep())) + [Op.Where(WhereArgs(column, operator, value))]
      ensures q.softDeleteScope == (model.softDeletes && WithTrashed !in old(AutoOps(criterias)))
      ensures Prep() == BootState
    {
      q := NewQuery();
      q.Append(Op.Where(WhereArgs(column, operator, value)));
      fetch := FetchFirst;
    }

    /** The query `findAllWhere` fetches all rows of: a new query plus the condition clauses. */
    method FindAllWhere(conditions: ScopeBuilder.Conditions) returns (q: Query, fetch: Fetch)
      requires Bound(criterias)
      modifies this`columns, this`limit, this`order, this`withRelations
      ensures fresh(q) && fetch == FetchAll
      ensures q.ops == old(AutoOps(criterias)) + PreparedOps(old(Prep())) + ScopeBuilder.ConditionOps(conditions)
      ensures q.softDeleteScope == (model.softDeletes && WithTrashed !in old(AutoOps(criterias)))
      ensures Prep() == BootState
    {
      q := NewQuery();
      q := BuildMultipleScope(q, conditions);
      fetch := FetchAll;
    }

    /** The query `findWhere` fetches the first row of: a new query plus the condition clauses. */
    method FindWhere(conditions: ScopeBuilder.Conditions) returns (q: Query, fetch: Fetch)
      requires Bound(criterias)
      modifies this`columns, this`limit, this`order, this`withRelations
      ensures fresh(q) && fetch == FetchFirst
      ensures q.ops == old(AutoOps(criterias)) + PreparedOps(old(Prep())) + ScopeBuilder.ConditionOps(conditions)
      ensures q.softDeleteScope == (model.softDeletes && WithTrashed !in old(AutoOps(criterias)))
      ensures Prep() == BootState
    {
      q := NewQuery();
      q := BuildMultipleScope(q, conditions);
      fetch := FetchFirst;
    }

    // ---------------------------------------------------------- pagination

    /** The registered PaginationCriteria; ErrorException when there is none. */
    function GetPaginatorCriteria(): (r: Result<PaginationCriteria>)
      requires KeyedByClass(criterias)
      reads this`criterias
      ensures r.Success? <==> PaginationClass in Keys(criterias)
      ensures r.Failure? ==> r.error == ErrorException(PaginationRequiredMessage)
      ensures r.Success? ==> GetCriteria(PaginationClass) == Some(Criterion.Paginate(r.value))
    {
      var found := GetCriteria(PaginationClass);
      if found.Some? && found.value.Paginate? then Success(found.value.p)
      else Failure(ErrorException(PaginationRequiredMessage))
    }

    /**
     * Clears the limit, builds a new query with the condition clauses and has
     * the registered PaginationCriteria count and window it. The preparation
     * state is consumed before the criterion is looked up, so it is reset
     * even when the call throws.
     */
    method Paginate(count: Counter, conditions: ScopeBuilder.Conditions := [], perPage: int := 0)
      returns (r: Result<Paginator>)
      requires Valid()
      modifies this`columns, this`limit, this`order, this`withRelations
      modifies RegisteredPaginations(criterias)`perPage, RegisteredPaginations(criterias)`recordCount
      ensures Prep() == BootState
      ensures Valid()
      ensures r.Failure? <==> PaginationClass !in Keys(criterias)
      ensures r.Failure? ==> r.error == ErrorException(PaginationRequiredMessage)
      ensures r.Success? ==>
        var p := GetPaginatorCriteria().value;
        && p.perPage == NormalizedPerPage(perPage, p.model)
        && p.recordCount == Some(r.value.total)
        && r.value == Paginator(
             count(old(AutoOps(criterias)) + PreparedOps(old(Prep()).(limit := 0))
                     + ScopeBuilder.ConditionOps(conditions),
                   model.softDeletes && WithTrashed !in old(AutoOps(criterias))),
             NormalizedPerPage(perPage, p.model), p.currentPage, p.currentPath, PageName)
    {
      ghost var pending := GetPaginatorCriteria();
      if pending.Success? {
        RegisteredPagination(criterias, pending.value);
      }
      var q := PaginationQuery(conditions);
      var found := GetPaginatorCriteria();
      if found.Failure? {
        r := Failure(found.error);
        return;
      }
      var p := found.value;
      assert p == pending.value;
      var paginator := PaginateWith(criterias, p, q, perPage, count);
      r := Success(paginator);
    }

    /** The first half of paginate: the limit cleared, a new query with the condition clauses. */
    method PaginationQuery(conditions: ScopeBuilder.Conditions) returns (q: Query)
      requires Bound(criterias)
      modifies this`columns, this`limit, this`order, this`withRelations
      ensures fresh(q)
      ensures q.ops == old(AutoOps(criterias)) + PreparedOps(old(Prep()).(limit := 0))
                       + ScopeBuilder.ConditionOps(conditions)
      ensures q.softDeleteScope == (model.softDeletes && WithTrashed !in old(AutoOps(criterias)))
      ensures Prep() == BootState
      ensures Bound(criterias)
    {
      ghost var auto := AutoOps(criterias);
      label Start:
      Limit(0);
      AutoOpsFramed@Start(criterias);
      q := NewQuery();
      q := BuildMultipleScope(q, conditions);
      RepositoryNotCriterion(criterias, this);
      QueryNotCriterion(criterias, q);
      BoundFramed@Start(criterias);
    }

    /** The second half of paginate: the registered criterion sizes, counts and windows the query. */
    static method PaginateWith(reg: Registry, p: PaginationCriteria, q: Query, perPage: int, count: Counter)
      returns (paginator: Paginator)
      requires Bound(reg) && p in RegisteredPaginations(reg) && p.model.Some?
      modifies p`perPage, p`recordCount, q
      ensures Bound(reg)
      ensures p.perPage == NormalizedPerPage(perPage, p.model)
      ensures p.recordCount == Some(paginator.total)
      ensures paginator == Paginator(count(old(q.ops), old(q.softDeleteScope)),
                                     p.perPage, p.currentPage, p.currentPath, PageName)
      ensures q.ops == old(q.ops) + [ForPage(p.currentPage, p.perPage)]
      ensures q.softDeleteScope == old(q.softDeleteScope)
    {
      paginator := p.BuildPaginator(q, perPage, count);
      forall j | 0 <= j < |reg| ensures reg[j].1.BoundModel().Some? {
        if reg[j].1.Obj() == p {
          assert reg[j].1 == Criterion.Paginate(p);
        }
      }
    }
  }

  /**
   * The service container's `make` for a class name given to pushCriteria:
   * a new instance of either criterion class (the pagination criterion built
   * from the current request); any other class resolves to an object that is
   * not a criterion.
   */
  method Make(name: string, request: Request) returns (item: Pushable)
    ensures name == PaginationClass ==>
      && item.Instance? && item.criterion.Paginate? && fresh(item.criterion.p)
      && item.criterion.p.model == None && item.criterion.p.perPage == InitialPerPage
      && item.criterion.p.currentPath == request.url
      && item.criterion.p.currentPage == ResolveCurrentPage(request)
    ensures name == WithTrashedClass ==>
      item.Instance? && item.criterion.Trashed? && fresh(item.criterion.t) && item.criterion.t.model == None
    ensures name != PaginationClass && name != WithTrashedClass ==> item == Other(name)
  {
    if name == PaginationClass {
      var p := new PaginationCriteria(request);
      item := Instance(Criterion.Paginate(p));
    } else if name == WithTrashedClass {
      var t := new WithTrashedCriteria();
      item := Instance(Trashed(t));
    } else {
      item := Other(name);
    }
  }

  /** The arguments of `where($column, $operator, $value)`; a missing value is null. */
  function WhereArgs(column: string, operator: string, value: Option<string>): (args: seq<Scalar>)
    ensures |args| == 3 && args[0] == Str(column) && args[1] == Str(operator)
    ensures args[2] == if value.Some? then Str(value.value) else Null
  {
    [Str(column), Str(operator), match value case Some(v) => Str(v) case None => Null]
  }

  /** The repository is never one of its registry's criterion objects. */
  lemma RepositoryNotCriterion(reg: Registry, r: EloquentRepository)
    ensures r !in Objects(reg)
  {
  }

  /** Regrouping a concatenation of five sequences. */
  lemma Regroup<T>(a: seq<T>, b: seq<T>, c: seq<T>, d: seq<T>, e: seq<T>)
    ensures a + (b + c + d + e) == a + b + c + d + e
  {
  }
}

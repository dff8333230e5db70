/**
 * Whole-repository runs: each method drives a fresh repository through the
 * calls of one of the repository's documented usages and states what it
 * ends with.
 */
module Scenarios {
  import opened Outcomes
  import opened Queries
  import opened OrderedMaps
  import opened Criterias
  import opened HasCriterias
  import opened RetrieveData
  import opened Repository
  import ScopeBuilder

  /** After a flush, a criterion pushed earlier is no longer found. */
  method FlushForgets(m: Model, request: Request) returns (found: Option<Criterion>)
    ensures found == None
  {
    var repo := new EloquentRepository(m);
    var t := Make(WithTrashedClass, request);
    var _ := repo.PushCriteria([t]);
    repo.FlushCriteria();
    found := repo.GetCriteria(WithTrashedClass);
  }

  /** Criteria pushed by class name are registered in the order given. */
  method PushKeepsOrder(m: Model, request: Request) returns (outcome: Outcome, keys: seq<string>)
    ensures outcome == Pass
    ensures keys == [WithTrashedClass, PaginationClass]
  {
    var repo := new EloquentRepository(m);
    var t := Make(WithTrashedClass, request);
    var p := Make(PaginationClass, request);
    outcome := PushTwo(repo, t.criterion, p.criterion);
    keys := Keys(repo.criterias);
  }

  /** `pushCriteria([$a, $b])`, criteria of two different classes, on a repository with none registered. */
  method PushTwo(repo: EloquentRepository, a: Criterion, b: Criterion) returns (outcome: Outcome)
    requires repo.Valid() && repo.criterias == [] && a.ClassName() != b.ClassName()
    modifies repo`criterias
    modifies PaginationsIn([Instance(a), Instance(b)])`model, TrashedIn([Instance(a), Instance(b)])`model
    ensures outcome == Pass
    ensures repo.criterias == [Entry(a), Entry(b)] && repo.Valid()
  {
    var cs := [a, b];
    assert Instances(cs) == [Instance(a), Instance(b)];
    PushedInOrder([], cs);
    assert [] + Entries(cs) == [Entry(a), Entry(b)];
    outcome := repo.PushCriteria(Instances(cs));
  }

  /** Pushing an object that is not a criterion throws, and what was registered stays. */
  method PushNonCriterion(m: Model, request: Request) returns (outcome: Outcome, keys: seq<string>)
    ensures outcome == Fail(InvalidArgument(NotACriteriaMessage))
    ensures keys == [WithTrashedClass]
  {
    var repo := new EloquentRepository(m);
    var t := Make(WithTrashedClass, request);
    var _ := repo.PushCriteria([t]);
    assert [t][1..] == [];
    outcome := repo.PushCriteria([Other(repo.NewModel().className)]);
    keys := Keys(repo.criterias);
  }

  /** Removing one class keeps the other criterion, alone. */
  method RemoveKeepsTheRest(m: Model, request: Request) returns (keys: seq<string>, found: Option<Criterion>)
    ensures keys == [PaginationClass]
    ensures found.Some? && found.value.Paginate?
  {
    var repo := new EloquentRepository(m);
    var t := Make(WithTrashedClass, request);
    var p := Make(PaginationClass, request);
    var _ := PushTwo(repo, t.criterion, p.criterion);
    ForgetFirstOfTwo(Entry(t.criterion), Entry(p.criterion));
    repo.RemoveCriteria([WithTrashedClass]);
    keys := Keys(repo.criterias);
    found := repo.GetCriteria(PaginationClass);
  }

  /** Forgetting the first of two keys leaves the second entry alone. */
  lemma ForgetFirstOfTwo<V>(e1: (string, V), e2: (string, V))
    requires e1.0 != e2.0
    ensures ForgetAll([e1, e2], [e1.0]) == [e2]
  {
    assert [e1, e2][1..] == [e2] && [e2][1..] == [] && [e1.0][1..] == [];
    assert Forget([e2], e1.0) == [e2];
  }

  /**
   * A criterion that is not on-demand is applied as soon as a query is made,
   * before the pending selection, limit and ordering, whenever those were
   * set: with a soft-deleting model the query lifts the soft-delete scope.
   */
  method CriteriaComeFirst(m: Model, request: Request) returns (ops: seq<Op>, scoped: bool)
    requires m.softDeletes
    ensures ops == [WithTrashed, Op.Select(["id", "title", "updated_at"]), Op.Limit(10),
                    Op.OrderBy("created_at", "desc")]
    ensures !scoped
  {
    var repo := ListingWithTrashed(m, request, 10);
    ListingOps(10);
    var q := repo.NewQuery();
    ops, scoped := q.ops, q.softDeleteScope;
  }

  /** A new repository of a soft-deleting model, prepared as a listing, with a WithTrashedCriteria pushed. */
  method ListingWithTrashed(m: Model, request: Request, n: int) returns (repo: EloquentRepository)
    requires m.softDeletes
    ensures fresh(repo) && repo.model == m
    ensures Bound(repo.criterias) && AutoOps(repo.criterias) == [WithTrashed]
    ensures repo.Prep() == Listing(n)
  {
    repo := new EloquentRepository(m);
    PrepareListing(repo, n);
    var t := Make(WithTrashedClass, request);
    PushOnly(repo, t.criterion);
    repo.OwnModelAutoOps();
  }

  /** `pushCriteria([$c])` on a repository with no criteria registered. */
  method PushOnly(repo: EloquentRepository, c: Criterion)
    requires repo.Valid() && repo.OwnModelBound() && repo.criterias == []
    modifies repo`criterias, PaginationsIn([Instance(c)])`model, TrashedIn([Instance(c)])`model
    ensures repo.criterias == [Entry(c)]
    ensures c.BoundModel() == Some(repo.NewModel())
    ensures repo.Valid() && repo.OwnModelBound()
  {
    var items := [Instance(c)];
    assert items[1..] == [] && items[0] == Instance(c);
    assert FirstOther(items) == 1;
    var _ := repo.PushCriteria(items);
    assert Pushed([], items) == ([Entry(c)], Pass);
  }

  /** The preparation state of a listing: three columns, `n` rows, newest first. */
  function Listing(n: int): PrepState {
    PrepState(["id", "title", "updated_at"], n, [("created_at", "desc")], [])
  }

  /** `select([...])->limit(n)->orderBy('created_at', 'desc')` on a freshly booted repository. */
  method PrepareListing(repo: EloquentRepository, n: int)
    requires repo.Prep() == BootState
    modifies repo`columns, repo`limit, repo`order
    ensures repo.Prep() == Listing(n)
  {
    repo.Select(["id", "title", "updated_at"]);
    repo.Limit(n);
    repo.OrderBy("created_at", "desc");
    assert Put([], "created_at", "desc") == [("created_at", "desc")];
  }

  /** A listing with a positive row count is prepared as selection, limit, ordering. */
  lemma ListingOps(n: int)
    requires n > 0
    ensures PreparedOps(Listing(n)) ==
      [Op.Select(["id", "title", "updated_at"]), Op.Limit(n), Op.OrderBy("created_at", "desc")]
  {
    assert OrderOps(Listing(n).order) == [Op.OrderBy("created_at", "desc")];
  }

  /** orderBy without a direction orders ascending. */
  method DefaultDirectionIsAscending(m: Model) returns (ops: seq<Op>)
    ensures ops == [Op.Select(["*"]), Op.OrderBy("post_category_id", "asc")]
  {
    var repo := new EloquentRepository(m);
    repo.OrderBy("post_category_id");
    assert OrderOps([("post_category_id", "asc")]) == [Op.OrderBy("post_category_id", "asc")];
    var q := repo.NewQuery();
    ops := q.ops;
  }

  /** The preparation state is consumed by the query it prepares: the next query starts over. */
  method PreparationIsConsumed(m: Model) returns (first: seq<Op>, second: seq<Op>)
    ensures first == [Op.Select(["id", "title", "updated_at"]), Op.Limit(5), Op.OrderBy("created_at", "desc")]
    ensures second == [Op.Select(["*"])]
  {
    var repo := new EloquentRepository(m);
    PrepareListing(repo, 5);
    ListingOps(5);
    var q1 := repo.NewQuery();
    first := q1.ops;
    PreparedBoot();
    var q2 := repo.NewQuery();
    second := q2.ops;
  }

  /**
   * The plain query ignores the pending preparation state and leaves it in
   * place; the soft-delete scope of the model stays in force.
   */
  method PlainQueryIgnoresPreparation(m: Model) returns (ops: seq<Op>, scoped: bool, kept: PrepState)
    ensures ops == [] && scoped == m.softDeletes
    ensures kept == Listing(5)
  {
    var repo := new EloquentRepository(m);
    PrepareListing(repo, 5);
    var q := repo.PlainQuery();
    ops, scoped := q.ops, q.softDeleteScope;
    kept := PrepState(repo.columns, repo.limit, repo.order, repo.withRelations);
  }

  /** Paginating without a registered PaginationCriteria throws ErrorException. */
  method PaginateNeedsCriterion(m: Model, count: Counter) returns (r: Result<Paginator>)
    ensures r == Failure(ErrorException(PaginationRequiredMessage))
  {
    var repo := new EloquentRepository(m);
    var conditions := [(ScopeBuilder.Col("published"), ScopeBuilder.One(Bool(true)))];
    r := repo.Paginate(count, conditions);
  }

  /**
   * Paginating with the criterion registered and no page size: the total is
   * the count of the query with the condition and no window, and the page
   * size is the model's own.
   */
  method PaginateUsesModelPageSize(m: Model, request: Request, count: Counter) returns (r: Result<Paginator>)
    ensures r == Success(Paginator(
      count([Op.Select(["*"]), Where([Str("published"), Bool(true)])], m.softDeletes),
      m.perPage, ResolveCurrentPage(request), request.url, PageName))
  {
    var repo, pc := PaginatingRepository(m, request);
    var conditions := [(ScopeBuilder.Col("published"), ScopeBuilder.One(Bool(true)))];
    PublishedOps(conditions);
    r := repo.Paginate(count, conditions);
    assert repo.GetPaginatorCriteria().value == pc;
  }

  /** A new repository with a PaginationCriteria made from the request pushed. */
  method PaginatingRepository(m: Model, request: Request) returns (repo: EloquentRepository, pc: PaginationCriteria)
    ensures fresh(repo) && fresh(pc) && repo.model == m
    ensures repo.criterias == [Entry(Criterion.Paginate(pc))] && repo.Valid()
    ensures repo.GetPaginatorCriteria() == Success(pc)
    ensures AutoOps(repo.criterias) == [] && repo.Prep() == BootState
    ensures pc.model == Some(m.NewInstance())
    ensures pc.currentPage == ResolveCurrentPage(request) && pc.currentPath == request.url
  {
    repo := new EloquentRepository(m);
    var p := Make(PaginationClass, request);
    PushOnly(repo, p.criterion);
    pc := p.criterion.p;
    repo.OwnModelAutoOps();
  }

  /** The clauses of a query booted with no criteria and filtered on `published`. */
  lemma PublishedOps(conditions: ScopeBuilder.Conditions)
    requires conditions == [(ScopeBuilder.Col("published"), ScopeBuilder.One(Bool(true)))]
    ensures [] + PreparedOps(BootState.(limit := 0)) + ScopeBuilder.ConditionOps(conditions)
      == [Op.Select(["*"]), Where([Str("published"), Bool(true)])]
  {
    PreparedBoot();
    assert BootState.(limit := 0) == BootState;
    assert ScopeBuilder.ConditionOps(conditions) == [Where([Str("published"), Bool(true)])];
  }
}

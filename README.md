# eloquent-repository: criteria and query preparation

A Dafny model of the query pipeline of `richan-fongdasen/eloquent-repository`, a
repository layer over Laravel's Eloquent ORM. A repository keeps two pieces of
mutable state:

- the **criteria registry** (`HasCriterias`): an insertion-ordered collection mapping a
  criterion's class name to the criterion instance. Criteria are pushed, replaced,
  removed, flushed and looked up. Those that are not on-demand are applied to every
  query, in registration order.
- the **preparation state** (`RetrieveData`): pending columns, row limit, an ordering
  map and eager-load relations. `prepareQuery` puts them on a query and then restores
  the boot defaults.

`newQuery` is `prepareQuery(applyCriterias(plainQuery()))`. The finders and `paginate`
start from it; `ScopeBuilder` turns condition arrays into where clauses. There are two
concrete criteria:

- `PaginationCriteria` is always on-demand. It normalises the page and the page size,
  and counts before it windows.
- `WithTrashedCriteria` is never on-demand. It lifts the soft-delete scope when the
  bound model soft-deletes.

The Eloquent builder is a `Query` object. It holds the clauses added to it, one `Op` per
builder call, and whether the model's soft-delete scope is still in force. The database's
count-for-pagination is a parameter, `Counter`.

Files:

| file | holds |
|---|---|
| `Outcomes.dfy` | Option, Result, the two exceptions |
| `Queries.dfy` | clauses, the model record, the query builder class |
| `OrderedMaps.dfy` | PHP array / Collection semantics for string keys |
| `ScopeBuilder.dfy` | `apply` / `generate` |
| `Criterias.dfy` | the `(int)` cast of the page input, both criterion classes, the `Criterion` datatype for the `Criteria` interface |
| `HasCriterias.dfy` | the registry as functions: push, remove, the clauses applying it adds, and what is proved about them |
| `RetrieveData.dfy` | the preparation state and the clauses `prepareQuery` adds |
| `Repository.dfy` | the `EloquentRepository` class with the fields of both traits; every method is proved against the functions above |
| `Scenarios.dfy` | whole-repository runs that follow the repository's own test cases |

The PHP `Criteria` interface is the datatype `Criterion`, with one constructor for each
of the two implementing classes the library ships. Each class keeps the fields it writes,
and `setModel` writes them in place.

Three behaviours of the code that the model keeps:

- `prepareQuery` resets only the preparation state and not the registry (src/Concerns/RetrieveData.php:286-289);
- `orderBy` stores the direction it is given, even an empty one; only an omitted direction becomes "asc" (src/Concerns/RetrieveData.php:196-201);
- `limit` stores a negative value as it is, and `prepareQuery` then adds no limit clause (src/Concerns/RetrieveData.php:268-270).

## Model

| member | source | states |
|---|---|---|
| Queries.Model.NewInstance | src/EloquentRepository.php:61 | a new instance has the model's class, page size and soft-delete flag, no key, and is not saved |
| Queries.NewInstanceOfClass | src/EloquentRepository.php:61 | instantiating again changes nothing, an unsaved keyless model is its own new instance, and two models give the same new instance exactly when their class attributes agree |
| Queries.Query.constructor | src/EloquentRepository.php:81-84 | the model's own query has no clauses, and its soft-delete scope is in force exactly when the model soft-deletes |
| Queries.Query.Append | src/Criterias/WithTrashedCriteria.php:29-31 | a builder call appends its one clause; only withTrashed lifts the soft-delete scope |
| OrderedMaps.Get | src/Concerns/HasCriterias.php:111-115 | a lookup yields a value exactly when the key is present, and then the stored pair; a miss is None, never a failure |
| OrderedMaps.Put | src/Concerns/HasCriterias.php:71 | writing a present key keeps the key sequence; writing a new key appends it |
| OrderedMaps.Forget | src/Concerns/HasCriterias.php:93-94 | the key is gone afterwards, and no entry appears that was not there |
| OrderedMaps.PutKeepsUnique | src/Concerns/HasCriterias.php:71 | keys stay unique under a write |
| OrderedMaps.PutEntries | src/Concerns/HasCriterias.php:71 | after a write every entry was there before or is the written pair |
| OrderedMaps.GetAfterPut | src/Concerns/HasCriterias.php:71 | after `$m[$k] = $v` the key maps to v and every other lookup is unchanged |
| OrderedMaps.PutOverwrites | src/Concerns/RetrieveData.php:198 | writing a key twice equals writing it once with the second value |
| OrderedMaps.PutExistingInPlace | src/Concerns/HasCriterias.php:71 | writing an existing key replaces its entry at the same position |
| OrderedMaps.PutNewAppends | src/Concerns/HasCriterias.php:71 | writing a new key appends the pair at the end |
| OrderedMaps.PutAllFreshAppends | src/Concerns/HasCriterias.php:127-129 | writing pairs with new, distinct keys appends them in their order |
| OrderedMaps.ForgetIsWithout | src/Concerns/HasCriterias.php:93-94 | forgetting a key is filtering out that key |
| OrderedMaps.ForgetAbsent | src/Concerns/HasCriterias.php:93-95 | forgetting a missing key changes nothing |
| OrderedMaps.WithoutTwice | src/Concerns/HasCriterias.php:145-147 | filtering out two key sets in turn equals filtering out their union |
| OrderedMaps.WithoutConcat | src/Concerns/HasCriterias.php:145-147 | filtering distributes over concatenation |
| OrderedMaps.ForgetAllIsWithout | src/Concerns/HasCriterias.php:145-147 | forgetting keys one at a time equals one filter over the set of those keys |
| OrderedMaps.WithoutNothing | src/Concerns/HasCriterias.php:145-147 | filtering out no keys is the identity |
| OrderedMaps.GetWithout | src/Concerns/HasCriterias.php:145-147 | after removal a removed key misses, and every other lookup is as before |
| OrderedMaps.WithoutAbsent | src/Concerns/HasCriterias.php:145-147 | filtering out keys that are absent is the identity |
| OrderedMaps.WithoutKeepsOrder | src/Concerns/HasCriterias.php:145-147 | surviving entries keep their relative order |
| OrderedMaps.WithoutContains | src/Concerns/HasCriterias.php:145-147 | an entry whose key is not removed survives |
| OrderedMaps.WithoutKeepsUnique | src/Concerns/HasCriterias.php:145-147 | removal keeps keys unique and adds no entry |
| ScopeBuilder.Clause | src/ScopeBuilder.php:20-24 | dispatch: a positional key with an array spreads the array into one where; a column key with an array gives whereIn; a scalar gives where(key, value), also for a positional key |
| ScopeBuilder.ConditionOps | src/ScopeBuilder.php:37-39 | one clause per entry, entry i's clause at position i |
| ScopeBuilder.Apply | src/ScopeBuilder.php:18-25 | appends exactly the entry's clause to the given query and returns that query |
| ScopeBuilder.Generate | src/ScopeBuilder.php:35-42 | appends the entries' clauses in iteration order to the same query and returns it, so empty conditions leave it unchanged |
| Criterias.Input | src/Criterias/PaginationCriteria.php:131 | `$request->input($name)` is the input stored under the name when there is one, and null otherwise |
| Criterias.Saturate | src/Criterias/PaginationCriteria.php:131 | a value inside PHP's 64-bit range is kept, one outside it becomes the nearer bound |
| Criterias.StringToInt | src/Criterias/PaginationCriteria.php:131 | the `(int)` cast of a string stays in PHP's 64-bit range, is 0 when no sign or digit follows the leading whitespace, and is negative only after a leading minus |
| Criterias.IntCast | src/Criterias/PaginationCriteria.php:131 | `(int)` of null is 0, of an integer the integer, of a string its string cast, and of an array 1 when non-empty and 0 when empty |
| Criterias.CastOfDecimal | src/Criterias/PaginationCriteria.php:131 | the integer cast reads back the decimal digits of every natural number up to PHP_INT_MAX, and gives PHP_INT_MAX beyond it |
| Criterias.ResolveCurrentPage | src/Criterias/PaginationCriteria.php:129-134 | the page is at least 1: the cast input when that is at least 1, otherwise 1 |
| Criterias.ResolveDecimalPage | src/Criterias/PaginationCriteria.php:129-134 | a page given as the digits of n ≥ 1 resolves to n, or to PHP_INT_MAX when n is larger; a missing page and a page given as an array resolve to 1 |
| Criterias.NormalizedPerPage | src/Criterias/PaginationCriteria.php:154-160 | a page size of at least 1 is kept; a smaller one becomes the bound model's page size |
| Criterias.PaginationCriteria.constructor | src/Criterias/PaginationCriteria.php:60-64 | the path is the request URL, the page is resolved from the request (so at least 1), the page size starts at 15, no model and no count |
| Criterias.PaginationCriteria.OnDemandOnly | src/Criterias/PaginationCriteria.php:116-119 | always on-demand |
| Criterias.PaginationCriteria.SetModel | src/Criterias/PaginationCriteria.php:143-146 | the model is bound |
| Criterias.PaginationCriteria.SetPerPage | src/Criterias/PaginationCriteria.php:154-160 | stores the normalised page size |
| Criterias.PaginationCriteria.Manipulate | src/Criterias/PaginationCriteria.php:101-108 | records the count of the query before the window, then appends `forPage(currentPage, perPage)`, returning the same query |
| Criterias.PaginationCriteria.BuildPaginator | src/Criterias/PaginationCriteria.php:74-91 | normalises the page size, then the paginator carries the pre-window count, the page size, the page, the path and page name "page" |
| Criterias.WithTrashedCriteria.constructor | src/Criterias/WithTrashedCriteria.php:17 | no model bound |
| Criterias.WithTrashedCriteria.OnDemandOnly | src/Criterias/WithTrashedCriteria.php:53-56 | never on-demand |
| Criterias.WithTrashedCriteria.SetModel | src/Criterias/WithTrashedCriteria.php:65-68 | the model is bound |
| Criterias.WithTrashedCriteria.ModelHasSoftDeletes | src/Criterias/WithTrashedCriteria.php:42-45 | the answer is whether the class of the bound model uses SoftDeletes |
| Criterias.WithTrashedCriteria.Manipulate | src/Criterias/WithTrashedCriteria.php:27-34 | appends withTrashed and lifts the scope exactly when the bound model soft-deletes; otherwise the query is unchanged |
| Criterias.SoftDeleteAnswerFollowsModel | src/Criterias/WithTrashedCriteria.php:42-68 | the soft-delete answer follows the most recently bound model |
| HasCriterias.PushedKeyedByClass | src/Concerns/HasCriterias.php:125-132 | after any push each criterion is stored once, under its own class name |
| HasCriterias.PushedFailsIffOther | src/Concerns/HasCriterias.php:59-72 | a push throws exactly when some element is not a criterion, and then throws InvalidArgumentException with the source's message |
| HasCriterias.PushedNotTransactional | src/Concerns/HasCriterias.php:125-132 | when element k is the first non-criterion, the registry ends as if only the elements before k had been pushed |
| HasCriterias.PushedIsPutAll | src/Concerns/HasCriterias.php:125-132 | pushing criteria puts their entries in argument order |
| HasCriterias.PushedInOrder | src/Concerns/HasCriterias.php:125-132 | criteria of distinct, unregistered classes end up after the existing entries, in argument order |
| HasCriterias.PushedReplaces | src/Concerns/HasCriterias.php:71 | pushing a registered class replaces the instance where it stands: same size, same key order |
| HasCriterias.PushedStep | src/Concerns/HasCriterias.php:127-129 | pushing from element i on is pushing element i, then the rest |
| HasCriterias.RemovedDropsExactly | src/Concerns/HasCriterias.php:141-150 | removal is one filter over the named classes; a named class misses afterwards, every other lookup is unchanged |
| HasCriterias.RemovedAbsentIsNoOp | src/Concerns/HasCriterias.php:91-96 | removing classes that are not registered changes nothing |
| HasCriterias.RemovedKeyedByClass | src/Concerns/HasCriterias.php:141-150 | removal keeps each criterion under its class name and adds no entry |
| HasCriterias.AutoOpsAppend | src/Concerns/HasCriterias.php:28-39 | applying a concatenated registry applies the first part, then the second |
| Criterias.Criterion.ClassName | src/Concerns/HasCriterias.php:71 | `get_class` gives PaginationCriteria's name exactly for a PaginationCriteria and WithTrashedCriteria's name exactly for a WithTrashedCriteria, so the two never share a key |
| HasCriterias.AutoOpsOnlyWithTrashed | src/Concerns/HasCriterias.php:28-39 | applying a registry of the library's two criteria adds no clause other than withTrashed |
| HasCriterias.AutoOpsSkipsOnDemand | src/Concerns/HasCriterias.php:31-33 | an on-demand entry contributes nothing, wherever it stands |
| HasCriterias.AutoOpsOfUniformModel | src/Concerns/HasCriterias.php:28-39 | for a registry of the library's two criteria, all bound to the same model, applying adds one withTrashed exactly when WithTrashedCriteria is registered and the model soft-deletes |
| HasCriterias.PutBound | src/Concerns/HasCriterias.php:69-71 | storing a criterion with a model keeps every registered criterion bound, and bound to the same model |
| RetrieveData.SelectedColumns | src/Concerns/RetrieveData.php:298-306 | never empty: a non-empty list is kept, an empty one selects all columns |
| RetrieveData.OrderOpsAt | src/Concerns/RetrieveData.php:272-274 | ordering entry i becomes orderBy(column_i, direction_i) at position i |
| RetrieveData.PreparedBoot | src/Concerns/RetrieveData.php:59-65 | from the boot state a prepared query only selects all columns |
| RetrieveData.PreparedInStages | src/Concerns/RetrieveData.php:260-274 | clauses come stage by stage: eager loads, selection, limit, orderings; each stage but the last adds at most one clause |
| RetrieveData.PreparedSelectsOnce | src/Concerns/RetrieveData.php:266 | exactly one selection, carrying the pending columns |
| RetrieveData.PreparedLimit | src/Concerns/RetrieveData.php:268-270 | a limit clause appears exactly when the stored limit is positive, and carries it |
| RetrieveData.PreparedWith | src/Concerns/RetrieveData.php:262-264 | an eager-load clause appears exactly when relations are pending, and carries them |
| RetrieveData.PreparedOrderingsLast | src/Concerns/RetrieveData.php:272-274 | the orderings are the last clauses, in the map's order |
| RetrieveData.PreparedClauseAt | src/Concerns/RetrieveData.php:260-274 | every added clause is one of the four kinds, carrying the pending values |
| RetrieveData.OrderByOverwrites | src/Concerns/RetrieveData.php:196-201 | ordering a column twice equals ordering it once with the second direction; one clause per column |
| Repository.EloquentRepository.constructor | src/EloquentRepository.php:29-34 | stores the model; the registry is empty and the preparation state holds the boot defaults |
| Repository.EloquentRepository.BootTraits | src/EloquentRepository.php:42-52 | both boot methods run: empty registry, boot preparation state |
| Repository.EloquentRepository.NewModel | src/EloquentRepository.php:59-62 | a new unsaved instance of the same class, with no key |
| Repository.EloquentRepository.BootHasCriterias | src/Concerns/HasCriterias.php:46-49 | the registry is empty |
| Repository.EloquentRepository.FlushCriteria | src/Concerns/HasCriterias.php:79-82 | the registry is empty and every lookup misses |
| Repository.EloquentRepository.GetCriteria | src/Concerns/HasCriterias.php:105-116 | the stored instance when the class is registered, null otherwise; a found criterion is of the class asked for |
| Repository.EloquentRepository.BuildCriteria | src/Concerns/HasCriterias.php:59-72 | non-criteria throw; a criterion has a new model instance bound and is stored under its class |
| Repository.EloquentRepository.BindEntry | src/Concerns/HasCriterias.php:69-71 | setModel binds the model, and the registry the criterion is put into stays bound |
| Repository.EloquentRepository.PushCriteria | src/Concerns/HasCriterias.php:125-132 | the registry and the outcome are those of pushing the elements in order; every criterion before the first non-criterion has a new model instance bound, and only those criteria may have their model changed; the ones after it are left alone |
| Repository.EloquentRepository.PushStep | src/Concerns/HasCriterias.php:127-129 | one iteration: builds element i, changing no criterion's model but element i's, and keeps the bindings made before it |
| Repository.EloquentRepository.ForgetCriteria | src/Concerns/HasCriterias.php:91-96 | the registry loses the class if it was there |
| Repository.EloquentRepository.RemoveCriteria | src/Concerns/HasCriterias.php:141-150 | the registry is forgotten class by class, in order |
| Repository.EloquentRepository.ApplyCriterias | src/Concerns/HasCriterias.php:28-39 | the query gains the registry's clauses in registration order and keeps its scope unless withTrashed was added; the registry is untouched |
| Repository.EloquentRepository.OwnModelAutoOps | src/Concerns/HasCriterias.php:28-39 | with the library's two criteria bound to this repository's model, applying adds withTrashed exactly when WithTrashedCriteria is registered and the model soft-deletes |
| Repository.EloquentRepository.ApplyEntry | src/Concerns/HasCriterias.php:30-36 | one iteration of the each-loop adds that entry's clauses |
| Repository.EloquentRepository.ApplyCriterion | src/Concerns/HasCriterias.php:31-33 | manipulate only when the criterion is not on-demand |
| Repository.EloquentRepository.BootRetrieveData | src/Concerns/RetrieveData.php:59-65 | the preparation state is the boot defaults |
| Repository.EloquentRepository.RebootRetrieveData | src/Concerns/RetrieveData.php:286-289 | the preparation state is the boot defaults |
| Repository.EloquentRepository.Select | src/Concerns/RetrieveData.php:298-306 | stores the given columns, or all columns for an empty list |
| Repository.EloquentRepository.Limit | src/Concerns/RetrieveData.php:181-186 | stores the limit as given, negative values included |
| Repository.EloquentRepository.OrderBy | src/Concerns/RetrieveData.php:196-201 | the column maps to the direction ("asc" by default), where it stands or appended; every other column is unchanged |
| Repository.EloquentRepository.With | src/Concerns/RetrieveData.php:210-215 | appends the relations to the pending ones |
| Repository.EloquentRepository.PrepareQuery | src/Concerns/RetrieveData.php:260-279 | the query gains the clauses for the pending state; then the state is reset to the boot defaults and the registry is kept |
| Repository.EloquentRepository.ApplyOrderings | src/Concerns/RetrieveData.php:272-274 | one orderBy per entry, in the map's order |
| Repository.EloquentRepository.PlainQuery | src/EloquentRepository.php:81-84 | a new query with no clauses; the preparation state is not touched |
| Repository.EloquentRepository.NewQuery | src/EloquentRepository.php:69-74 | the criteria's clauses first, the prepared state's second; the scope is lifted only by a criterion; the state is reset |
| Repository.EloquentRepository.BuildMultipleScope | src/Concerns/RetrieveData.php:77-82 | the condition clauses of the scope builder, appended to the given query |
| Repository.EloquentRepository.FindAllBy | src/Concerns/RetrieveData.php:106-111 | a new query plus exactly one where(column, operator, value), fetched as all rows |
| Repository.EloquentRepository.FindBy | src/Concerns/RetrieveData.php:137-142 | a new query plus exactly one where(column, operator, value), fetched as the first row |
| Repository.EloquentRepository.FindAllWhere | src/Concerns/RetrieveData.php:121-125 | a new query plus the condition clauses, fetched as all rows |
| Repository.EloquentRepository.FindWhere | src/Concerns/RetrieveData.php:152-155 | a new query plus the condition clauses, fetched as the first row |
| Repository.EloquentRepository.GetPaginatorCriteria | src/Concerns/RetrieveData.php:164-172 | the registered PaginationCriteria, or ErrorException with the source's message exactly when none is registered |
| Repository.EloquentRepository.Paginate | src/Concerns/RetrieveData.php:228-236 | the limit is cleared first; fails exactly without a PaginationCriteria; otherwise the total is the count of the unwindowed query (criteria, preparation without limit, conditions), and the page size is normalised |
| Repository.EloquentRepository.PaginationQuery | src/Concerns/RetrieveData.php:230-232 | limit cleared, a new query with the condition clauses |
| Repository.EloquentRepository.PaginateWith | src/Concerns/RetrieveData.php:234-235 | the registered criterion builds the paginator from the query as it was before the window, and the query gains exactly the forPage(page, perPage) window, with its soft-delete scope unchanged |
| Repository.Make | src/Concerns/HasCriterias.php:61-63 | a class name resolves to a new criterion of that class (the pagination one built from the request, no model bound), or to a non-criterion |
| Repository.WhereArgs | src/Concerns/RetrieveData.php:109 | the three arguments of where, a missing value being null |
| Scenarios.FlushForgets | tests/Concerns/HasCriteriasTests.php:36-42 | after push and flush the criterion is not found |
| Scenarios.PushKeepsOrder | tests/Concerns/HasCriteriasTests.php:45-57 | pushing WithTrashedCriteria then PaginationCriteria registers both, in that order |
| Scenarios.PushNonCriterion | tests/Concerns/HasCriteriasTests.php:79-83 | pushing a model instance throws InvalidArgumentException and the registry is kept |
| Scenarios.RemoveKeepsTheRest | tests/Concerns/HasCriteriasTests.php:86-98 | removing WithTrashedCriteria leaves only the PaginationCriteria |
| Scenarios.CriteriaComeFirst | tests/Concerns/HasCriteriasTests.php:101-118 | with a soft-deleting model the query is withTrashed, then the selection, limit and ordering, with the scope lifted |
| Scenarios.DefaultDirectionIsAscending | tests/Concerns/RetrieveDataTests.php:161-168 | orderBy without a direction orders ascending |
| Scenarios.PreparationIsConsumed | tests/EloquentRepositoryTests.php:45-59 | a prepared query has the selection, limit and ordering; the next query only selects all columns |
| Scenarios.PlainQueryIgnoresPreparation | tests/EloquentRepositoryTests.php:62-75 | the plain query has no clauses and the model's scope, and the pending state stays |
| Scenarios.PaginateNeedsCriterion | tests/Concerns/RetrieveDataTests.php:183-187 | paginating without the criterion throws ErrorException |
| Scenarios.PaginateUsesModelPageSize | tests/Concerns/RetrieveDataTests.php:190-199 | the total is the count of the conditioned query without window, and the page size is the model's own |

## Left out

- Query execution is not modelled: `get`, `first`, `find`, `all` and `pluck`. The finders return the query that would be executed and which of `get()` / `first()` would run it.
- The database count is the `Counter` parameter, and Laravel's `forPage` is the appended `ForPage(page, perPage)` clause; the offset arithmetic belongs to the framework.
- Only the values `LengthAwarePaginator` is built from are modelled. The fetched rows and the paginator's internals are not.
- `ManipulateData` (create, update, delete, restore) is not part of this model: it passes straight through to Eloquent.
- `App::make` is modelled by `Repository.Make` for the two criterion classes, and any other name resolves to a non-criterion. The container's BindingResolutionException for unknown classes is not modelled.
- `class_uses_recursive` is not modelled. `bootTraits` calls both boot methods explicitly, and soft-delete support is a flag on the model.
- `buildMultipleScope`'s `addArrayOfWheres` capability check is foreign to the core, so it always delegates to the scope builder. This is the Laravel 5.1 branch the docblock at src/Concerns/RetrieveData.php:67-70 names. `method_exists` also sees the protected `addArrayOfWheres` of the query builder in Laravel 5.2 and later, and on those versions the source adds one nested `where($conditions)` group instead; there a column key with an array value gives `where(column, '=', array)`, not `whereIn`. That branch is not modelled.
- `ScopeBuilder.Clause`: a key is positional or a column name, as PHP sees it after array-key casting, so a key written `"1"` is the positional key 1. Numeric strings that PHP keeps as string keys, such as `"1.5"`, `"08"`, `"+1"`, `" 1"` and `"1e3"`, are not modelled: with an array value the source spreads such a key's array into one `where(...$value)`, while the model treats the key as a column name and gives `WhereIn`.
- `Criterias.StringToInt` covers the decimal forms of PHP's `(int)` cast: leading whitespace, a sign and digits. Exponent and hexadecimal forms are left out.
- `Criterias.IntCast`: an integer input (`Number`) is taken as it is; the model does not bound it to 64 bits. Query-string inputs are strings, whose cast saturates as modelled.
- `Repository.EloquentRepository.With` concatenates the relation lists. This equals `array_merge` for the list arrays the source passes; merging arrays with string keys is not modelled.
- `Repository.EloquentRepository.RemoveCriteria` takes a list of class names. The `(array)` cast of a single string is the one-element list.
- `getCriteria()` with no argument returns the whole collection, which is the `criterias` field itself.
- `Repository.EloquentRepository.PushCriteria`, `BuildCriteria`, `ForgetCriteria`, `RemoveCriteria` and `Paginate` require `Valid()`: each criterion is stored under its class and has a model bound. PHP does not check this. The requirement holds for registries changed only through the repository's methods: every method keeps it and the constructor establishes it. A caller who edits the collection returned by `getCriteria()` can break it, and that case is not modelled.
- `Criterias.PaginationCriteria.SetPerPage` requires a bound model when the size is below 1. The source would call `getPerPage()` on null and fail, and that failure is not modelled.
- `Criterias.WithTrashedCriteria.ModelHasSoftDeletes` requires a bound model, for the same reason.
- `Repository.EloquentRepository.PushCriteria` runs its loop body in the helper `PushStep`, and `ApplyCriterias` likewise in `ApplyEntry`. `paginate` is split into `PaginationQuery` and `PaginateWith` at the point where the source calls `getPaginatorCriteria()`.
- `Scenarios.PreparationIsConsumed` selects the three columns of the listing used by the other scenarios, not the four of the original test case.
- `Criterion` models only the two criteria the library ships, `PaginationCriteria` and `WithTrashedCriteria`. An application's own implementation of the `Criteria` interface, which `applyCriterias` would apply with whatever clauses its `manipulate` adds, is not modelled. `HasCriterias.AutoOpsOnlyWithTrashed`, `HasCriterias.AutoOpsOfUniformModel` and `Repository.EloquentRepository.OwnModelAutoOps` therefore hold only for registries of the library's criteria.
- `Criterias.WithTrashedCriteria.Manipulate` appends `WithTrashed` whenever the bound model soft-deletes. Eloquent defines `withTrashed` only on builders of soft-deleting models, so if a registered WithTrashedCriteria is given, through `setModel`, a soft-deleting model of another class than the query's, the source throws BadMethodCallException. The model does not capture that exception.

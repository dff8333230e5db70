/**
 * The two concrete criteria and the Criteria interface they implement.
 *
 * The interface (manipulate, onDemandOnly, setModel) is the datatype
 * `Criterion`, with one constructor per implementing class; each class keeps
 * the fields the source writes.
 */
module Criterias {
  import opened Outcomes
  import opened Queries

  const PaginationClass: string := "RichanFongdasen\\Repository\\Criterias\\PaginationCriteria"
  const WithTrashedClass: string := "RichanFongdasen\\Repository\\Criterias\\WithTrashedCriteria"

  /** The query-string variable holding the page; also the paginator's page name. */
  const PageName: string := "page"

  /** The page size a new PaginationCriteria starts with. */
  const InitialPerPage: int := 15

  // ------------------------------------------------------------ the request

  /** A request input value as the HTTP layer hands it over: a string, a number or an array (`?page[]=3`). */
  datatype InputValue = Text(s: string) | Number(n: int) | List(items: seq<InputValue>)

  /** The part of an HTTP request the criteria read: its URL and its inputs. */
  datatype Request = Request(url: string, inputs: map<string, InputValue>)

  /** `$request->input($name)`: null when absent. */
  function Input(request: Request, name: string): (r: Option<InputValue>)
    ensures r.Some? <==> name in request.inputs
    ensures r.Some? ==> r.value == request.inputs[name]
  {
    if name in request.inputs then Some(request.inputs[name]) else None
  }

  /** The bounds of PHP's 64-bit integers. */
  const PhpIntMax: int := 0x7FFF_FFFF_FFFF_FFFF
  const PhpIntMin: int := -0x8000_0000_0000_0000

  /** A cast result out of PHP's integer range saturates at the nearer bound. */
  function Saturate(n: int): (r: int)
    ensures PhpIntMin <= r <= PhpIntMax
    ensures PhpIntMin <= n <= PhpIntMax ==> r == n
    ensures n > PhpIntMax ==> r == PhpIntMax
    ensures n < PhpIntMin ==> r == PhpIntMin
  {
    if n > PhpIntMax then PhpIntMax else if n < PhpIntMin then PhpIntMin else n
  }

  predicate IsDigit(c: char) {
    '0' <= c <= '9'
  }

  predicate IsSpace(c: char) {
    c == ' ' || c == '\t' || c == '\n' || c == '\r' || c == '\U{0B}' || c == '\U{0C}'
  }

  /** The string with its leading whitespace removed. */
  function TrimStart(s: string): (t: string)
    ensures |t| <= |s| && t == s[|s| - |t|..]
    ensures t != [] ==> !IsSpace(t[0])
  {
    if s != [] && IsSpace(s[0]) then TrimStart(s[1..]) else s
  }

  /** The number of leading decimal digits. */
  function DigitRun(s: string): (k: nat)
    ensures k <= |s|
    ensures forall i :: 0 <= i < k ==> IsDigit(s[i])
    ensures k < |s| ==> !IsDigit(s[k])
  {
    if s != [] && IsDigit(s[0]) then 1 + DigitRun(s[1..]) else 0
  }

  /** The value of a string of decimal digits. */
  function DigitsValue(d: string): (n: nat)
    requires forall i :: 0 <= i < |d| ==> IsDigit(d[i])
  {
    if d == [] then 0
    else
      assert IsDigit(d[|d| - 1]);
      DigitsValue(d[..|d| - 1]) * 10 + (d[|d| - 1] as int - '0' as int)
  }

  /** A string that, after leading whitespace, does not start with a sign or a digit. */
  predicate NonNumeric(s: string) {
    var t := TrimStart(s);
    t == [] || !(IsDigit(t[0]) || t[0] == '-' || t[0] == '+')
  }

  /**
   * PHP's `(int)` of a string, for the decimal forms: leading whitespace,
   * an optional sign, then as many digits as there are; anything else gives 0,
   * and a value beyond the 64-bit range saturates.
   */
  function StringToInt(s: string): (n: int)
    ensures PhpIntMin <= n <= PhpIntMax
    ensures NonNumeric(s) ==> n == 0
    ensures n < 0 ==> TrimStart(s) != [] && TrimStart(s)[0] == '-'
  {
    var t := TrimStart(s);
    if t != [] && (t[0] == '-' || t[0] == '+') then
      var n: int := DigitsValue(t[1..][..DigitRun(t[1..])]);
      Saturate(if t[0] == '-' then -n else n)
    else
      Saturate(DigitsValue(t[..DigitRun(t)]))
  }

  /** PHP's `(int)` of a request input; `(int) null` is 0, and an array gives 1 unless it is empty. */
  function IntCast(v: Option<InputValue>): (n: int)
    ensures v.None? ==> n == 0
    ensures v.Some? && v.value.Number? ==> n == v.value.n
    ensures v.Some? && v.value.Text? ==> n == StringToInt(v.value.s)
    ensures v.Some? && v.value.List? ==> (n == 1 <==> v.value.items != []) && (n == 0 <==> v.value.items == [])
  {
    match v
    case None => 0
    case Some(Number(n)) => n
    case Some(Text(s)) => StringToInt(s)
    case Some(List(items)) => if items == [] then 0 else 1
  }

  /** The decimal representation of a natural number, as a reference for the cast. */
  function Decimal(n: nat): (d: string)
    ensures d != [] && forall i :: 0 <= i < |d| ==> IsDigit(d[i])
  {
    if n < 10 then ['0' + n as char]
    else Decimal(n / 10) + ['0' + (n % 10) as char]
  }

  lemma {:induction false} DigitsOfDecimal(n: nat)
    ensures DigitsValue(Decimal(n)) == n
  {
    if n >= 10 {
      DigitsOfDecimal(n / 10);
      var d := Decimal(n);
      assert d[..|d| - 1] == Decimal(n / 10);
    }
  }

  /** The cast reads back the decimal representation of a natural number, saturating above PHP_INT_MAX. */
  lemma CastOfDecimal(n: nat)
    ensures n <= PhpIntMax ==> StringToInt(Decimal(n)) == n
    ensures n > PhpIntMax ==> StringToInt(Decimal(n)) == PhpIntMax
  {
    var d := Decimal(n);
    assert !IsSpace(d[0]) && d[0] != '-' && d[0] != '+';
    assert DigitRun(d) == |d| by {
      DigitRunAll(d);
    }
    assert d[..|d|] == d;
    DigitsOfDecimal(n);
  }

  lemma {:induction false} DigitRunAll(d: string)
    requires forall i :: 0 <= i < |d| ==> IsDigit(d[i])
    ensures DigitRun(d) == |d|
  {
    if d != [] {
      DigitRunAll(d[1..]);
    }
  }

  /** `resolveCurrentPage`: the integer cast of the page input, or 1 when that is below 1. */
  function ResolveCurrentPage(request: Request): (page: int)
    ensures page >= 1
    ensures IntCast(Input(request, PageName)) >= 1 ==> page == IntCast(Input(request, PageName))
    ensures IntCast(Input(request, PageName)) < 1 ==> page == 1
  {
    var page := IntCast(Input(request, PageName));
    if page >= 1 then page else 1
  }

  /**
   * A page given as its decimal digits resolves to itself, or to PHP_INT_MAX
   * beyond it; a missing page, and a page given as an array, resolve to 1.
   */
  lemma ResolveDecimalPage(url: string, n: nat, items: seq<InputValue>)
    requires n >= 1
    ensures n <= PhpIntMax ==> ResolveCurrentPage(Request(url, map[PageName := Text(Decimal(n))])) == n
    ensures n > PhpIntMax ==> ResolveCurrentPage(Request(url, map[PageName := Text(Decimal(n))])) == PhpIntMax
    ensures ResolveCurrentPage(Request(url, map[])) == 1
    ensures ResolveCurrentPage(Request(url, map[PageName := List(items)])) == 1
  {
    CastOfDecimal(n);
  }

  /** The page size `setPerPage(n)` stores: n itself when positive, else the bound model's default. */
  function NormalizedPerPage(n: int, model: Option<Model>): (r: int)
    requires n < 1 ==> model.Some?
    ensures n >= 1 ==> r == n
    ensures n < 1 ==> r == model.value.perPage
  {
    if n < 1 then model.value.perPage else n
  }

  // ------------------------------------------------------------ the paginator

  /** The values a LengthAwarePaginator is built from (the fetched rows aside). */
  datatype Paginator = Paginator(
    total: nat,
    perPage: int,
    currentPage: int,
    path: string,
    pageName: string)

  // ------------------------------------------------------------ PaginationCriteria

  class PaginationCriteria {
    var currentPage: int
    var currentPath: string
    var model: Option<Model>
    var perPage: int
    var recordCount: Option<nat>

    constructor (request: Request)
      ensures currentPath == request.url
      ensures currentPage == ResolveCurrentPage(request) && currentPage >= 1
      ensures model == None && perPage == InitialPerPage && recordCount == None
    {
      currentPath := request.url;
      currentPage := ResolveCurrentPage(request);
      model := None;
      perPage := InitialPerPage;
      recordCount := None;
    }

    /** Pagination is applied only when asked for. */
    function OnDemandOnly(): (r: bool)
      ensures r
    {
      true
    }

    method SetModel(m: Model)
      modifies this`model
      ensures model == Some(m)
    {
      model := Some(m);
    }

    /** Stores the page size; a size below 1 falls back to the bound model's default. */
    method SetPerPage(n: int)
      requires n < 1 ==> model.Some?
      modifies this`perPage
      ensures perPage == NormalizedPerPage(n, model)
    {
      var size := n;
      if size < 1 {
        size := model.value.perPage;
      }
      perPage := size;
    }

    /**
     * Records the query's count for pagination, then adds the page window;
     * the count is taken before the window exists.
     */
    method Manipulate(query: Query, count: Counter) returns (q: Query)
      modifies this`recordCount, query
      ensures q == query
      ensures recordCount == Some(count(old(query.ops), old(query.softDeleteScope)))
      ensures query.ops == old(query.ops) + [ForPage(currentPage, perPage)]
      ensures query.softDeleteScope == old(query.softDeleteScope)
    {
      recordCount := Some(count(query.ops, query.softDeleteScope));
      query.Append(ForPage(currentPage, perPage));
      q := query;
    }

    /** Sets the page size, applies the criterion and packages the paginator's values. */
    method BuildPaginator(query: Query, n: int, count: Counter) returns (p: Paginator)
      requires n < 1 ==> model.Some?
      modifies this`perPage, this`recordCount, query
      ensures perPage == NormalizedPerPage(n, model)
      ensures recordCount == Some(count(old(query.ops), old(query.softDeleteScope)))
      ensures query.ops == old(query.ops) + [ForPage(currentPage, perPage)]
      ensures query.softDeleteScope == old(query.softDeleteScope)
      ensures p == Paginator(count(old(query.ops), old(query.softDeleteScope)),
                             perPage, currentPage, currentPath, PageName)
    {
      SetPerPage(n);
      var _ := Manipulate(query, count);
      p := Paginator(recordCount.value, perPage, currentPage, currentPath, PageName);
    }
  }

  // ------------------------------------------------------------ WithTrashedCriteria

  class WithTrashedCriteria {
    var model: Option<Model>

    constructor ()
      ensures model == None
    {
      model := None;
    }

    /** Lifting the soft-delete scope is applied to every query. */
    function OnDemandOnly(): (r: bool)
      ensures !r
    {
      false
    }

    method SetModel(m: Model)
      modifies this`model
      ensures model == Some(m)
    {
      model := Some(m);
    }

    /** Whether the bound model's class uses SoftDeletes. */
    function ModelHasSoftDeletes(): (r: bool)
      reads this
      requires model.Some?
      ensures r <==> model.value.softDeletes
    {
      model.value.softDeletes
    }

    /** Adds withTrashed, lifting the soft-delete scope, exactly when the bound model soft-deletes. */
    method Manipulate(query: Query) returns (q: Query)
      requires model.Some?
      modifies query
      ensures q == query
      ensures query.ops == old(query.ops) + (if ModelHasSoftDeletes() then [WithTrashed] else [])
      ensures query.softDeleteScope == (old(query.softDeleteScope) && !ModelHasSoftDeletes())
    {
      if ModelHasSoftDeletes() {
        query.Append(WithTrashed);
      }
      q := query;
    }
  }

  /** The soft-delete answer follows the most recently bound model. */
  method SoftDeleteAnswerFollowsModel(first: Model, second: Model) returns (before: bool, after: bool)
    ensures before == first.softDeletes
    ensures after == second.softDeletes
  {
    var c := new WithTrashedCriteria();
    c.SetModel(first);
    before := c.ModelHasSoftDeletes();
    c.SetModel(second);
    after := c.ModelHasSoftDeletes();
  }

  // ------------------------------------------------------------ the Criteria interface

  /** A criterion instance, by its implementing class. */
  datatype Criterion = Paginate(p: PaginationCriteria) | Trashed(t: WithTrashedCriteria) {

    /** `get_class($criteria)`: the key the registry stores it under. */
    function ClassName(): (name: string)
      ensures name == PaginationClass <==> this.Paginate?
      ensures name == WithTrashedClass <==> this.Trashed?
    {
      match this
      case Paginate(_) => PaginationClass
      case Trashed(_) => WithTrashedClass
    }

    function OnDemandOnly(): bool {
      match this
      case Paginate(p) => p.OnDemandOnly()
      case Trashed(t) => t.OnDemandOnly()
    }

    /** The object behind the criterion. */
    function Obj(): object {
      match this
      case Paginate(p) => p
      case Trashed(t) => t
    }

    /** The model bound by its last setModel call, if any. */
    ghost function BoundModel(): Option<Model>
      reads Obj()
    {
      match this
      case Paginate(p) => p.model
      case Trashed(t) => t.model
    }
  }
}

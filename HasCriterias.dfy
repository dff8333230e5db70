/**
 * The criteria registry: an insertion-ordered map from a criterion's class
 * name to the criterion instance. This module holds what the registry's
 * operations compute, as functions of the registry's contents, and what is
 * proved about them; the repository's methods are proved against these.
 */
module HasCriterias {
  import opened Outcomes
  import opened Queries
  import opened OrderedMaps
  import opened Criterias

  type Registry = OMap<string, Criterion>

  /** An element of the array given to pushCriteria: a criterion, or any other object. */
  datatype Pushable = Instance(criterion: Criterion) | Other(className: string)

  /** Every entry is stored under its own class name, once. */
  ghost predicate KeyedByClass(reg: Registry) {
    UniqueKeys(reg) && forall i :: 0 <= i < |reg| ==> reg[i].0 == reg[i].1.ClassName()
  }

  function Entry(c: Criterion): (string, Criterion) {
    (c.ClassName(), c)
  }

  function Entries(cs: seq<Criterion>): (es: Registry)
    ensures |es| == |cs| && forall i :: 0 <= i < |cs| ==> es[i] == Entry(cs[i])
  {
    seq(|cs|, i requires 0 <= i < |cs| => Entry(cs[i]))
  }

  function Instances(cs: seq<Criterion>): (items: seq<Pushable>)
    ensures |items| == |cs| && forall i :: 0 <= i < |cs| ==> items[i] == Instance(cs[i])
  {
    seq(|cs|, i requires 0 <= i < |cs| => Instance(cs[i]))
  }

  /**
   * What pushCriteria leaves in the registry and how it ends: each criterion,
   * in argument order, is put under its class name; the first element that is
   * not a criterion throws, and what was put before it stays put.
   */
  function Pushed(reg: Registry, items: seq<Pushable>): (Registry, Outcome)
    decreases |items|
  {
    if items == [] then (reg, Pass)
    else match items[0]
      case Other(_) => (reg, Fail(InvalidArgument(NotACriteriaMessage)))
      case Instance(c) => Pushed(Put(reg, c.ClassName(), c), items[1..])
  }

  /** The index of the first element that is not a criterion, or the length. */
  function FirstOther(items: seq<Pushable>): (k: nat)
    ensures k <= |items|
    ensures forall i :: 0 <= i < k ==> items[i].Instance?
    ensures k < |items| ==> items[k].Other?
  {
    if items == [] || items[0].Other? then 0 else 1 + FirstOther(items[1..])
  }

  // ------------------------------------------------------------ push

  lemma {:induction false} PushedKeyedByClass(reg: Registry, items: seq<Pushable>)
    requires KeyedByClass(reg)
    ensures KeyedByClass(Pushed(reg, items).0)
    decreases |items|
  {
    if items != [] && items[0].Instance? {
      var c := items[0].criterion;
      var reg' := Put(reg, c.ClassName(), c);
      PutKeepsUnique(reg, c.ClassName(), c);
      PutEntries(reg, c.ClassName(), c);
      forall i | 0 <= i < |reg'| ensures reg'[i].0 == reg'[i].1.ClassName() {
        assert reg'[i] in reg';
      }
      PushedKeyedByClass(reg', items[1..]);
    }
  }

  /** pushCriteria throws exactly when some element is not a criterion. */
  lemma {:induction false} PushedFailsIffOther(reg: Registry, items: seq<Pushable>)
    ensures Pushed(reg, items).1.Fail? <==> exists i :: 0 <= i < |items| && items[i].Other?
    ensures Pushed(reg, items).1.Fail? ==> Pushed(reg, items).1 == Fail(InvalidArgument(NotACriteriaMessage))
    decreases |items|
  {
    if items != [] && items[0].Instance? {
      var c := items[0].criterion;
      PushedFailsIffOther(Put(reg, c.ClassName(), c), items[1..]);
      if exists i :: 0 <= i < |items[1..]| && items[1..][i].Other? {
        var i :| 0 <= i < |items[1..]| && items[1..][i].Other?;
        assert items[i + 1].Other?;
      }
      if exists i :: 0 <= i < |items| && items[i].Other? {
        var i :| 0 <= i < |items| && items[i].Other?;
        assert items[1..][i - 1].Other?;
      }
    }
  }

  /**
   * The push is not transactional: when element k is the first non-criterion,
   * the registry ends as if only the elements before k had been pushed.
   */
  lemma {:induction false} PushedNotTransactional(reg: Registry, items: seq<Pushable>)
    requires FirstOther(items) < |items|
    ensures Pushed(reg, items) ==
      (Pushed(reg, items[..FirstOther(items)]).0, Fail(InvalidArgument(NotACriteriaMessage)))
    decreases |items|
  {
    if items[0].Instance? {
      var c := items[0].criterion;
      assert FirstOther(items[1..]) == FirstOther(items) - 1;
      PushedNotTransactional(Put(reg, c.ClassName(), c), items[1..]);
      assert items[..FirstOther(items)][1..] == items[1..][..FirstOther(items[1..])];
    }
  }

  /** Pushing criteria means putting their entries in order. */
  lemma {:induction false} PushedIsPutAll(reg: Registry, cs: seq<Criterion>)
    ensures Pushed(reg, Instances(cs)) == (PutAll(reg, Entries(cs)), Pass)
    decreases |cs|
  {
    if cs != [] {
      assert Instances(cs)[1..] == Instances(cs[1..]);
      assert Entries(cs)[1..] == Entries(cs[1..]);
      PushedIsPutAll(Put(reg, cs[0].ClassName(), cs[0]), cs[1..]);
    }
  }

  /**
   * Criteria of distinct classes, none registered yet, are registered in
   * argument order after what was there: getCriteria() yields them last, first to last.
   */
  lemma PushedInOrder(reg: Registry, cs: seq<Criterion>)
    requires forall i, j :: 0 <= i < j < |cs| ==> cs[i].ClassName() != cs[j].ClassName()
    requires forall i :: 0 <= i < |cs| ==> cs[i].ClassName() !in Keys(reg)
    ensures Pushed(reg, Instances(cs)) == (reg + Entries(cs), Pass)
  {
    PushedIsPutAll(reg, cs);
    PutAllFreshAppends(reg, Entries(cs));
  }

  /**
   * Pushing a criterion whose class is registered replaces the stored instance
   * where it stands: the size and the position of every key are unchanged.
   */
  lemma PushedReplaces(reg: Registry, c: Criterion, i: nat)
    requires KeyedByClass(reg)
    requires i < |reg| && reg[i].0 == c.ClassName()
    ensures Pushed(reg, [Instance(c)]) == (reg[i := Entry(c)], Pass)
    ensures Keys(Pushed(reg, [Instance(c)]).0) == Keys(reg)
  {
    PutExistingInPlace(reg, c.ClassName(), c, i);
    assert [Instance(c)][1..] == [];
  }

  /** Pushing from element i on is pushing element i, then the rest. */
  lemma PushedStep(reg: Registry, items: seq<Pushable>, i: nat)
    requires i < |items| && items[i].Instance?
    ensures Pushed(reg, items[i..]) == Pushed(Pushed(reg, [items[i]]).0, items[i + 1..])
  {
    assert items[i..][0] == items[i] && items[i..][1..] == items[i + 1..];
    assert [items[i]][1..] == [];
  }

  // ------------------------------------------------------------ remove

  /**
   * removeCriteria drops exactly the named classes; names not registered are a
   * no-op; the remaining entries keep their relative order (a filter of the registry).
   */
  lemma RemovedDropsExactly(reg: Registry, names: seq<string>, k: string)
    ensures ForgetAll(reg, names) == Without(reg, set n | n in names)
    ensures Get(ForgetAll(reg, names), k) == if k in names then None else Get(reg, k)
  {
    ForgetAllIsWithout(reg, names);
    GetWithout(reg, (set n | n in names), k);
  }

  lemma RemovedAbsentIsNoOp(reg: Registry, names: seq<string>)
    requires forall n :: n in names ==> n !in Keys(reg)
    ensures ForgetAll(reg, names) == reg
  {
    ForgetAllIsWithout(reg, names);
    WithoutAbsent(reg, set n | n in names);
  }

  lemma RemovedKeyedByClass(reg: Registry, names: seq<string>)
    requires KeyedByClass(reg)
    ensures KeyedByClass(ForgetAll(reg, names))
    ensures forall e :: e in ForgetAll(reg, names) ==> e in reg
  {
    ForgetAllIsWithout(reg, names);
    WithoutKeepsUnique(reg, set n | n in names);
    var r := ForgetAll(reg, names);
    forall i | 0 <= i < |r| ensures r[i].0 == r[i].1.ClassName() {
      assert r[i] in reg;
    }
  }

  // ------------------------------------------------------------ apply

  /** The criterion objects behind the registry's entries. */
  ghost function Objects(reg: Registry): set<object> {
    set i | 0 <= i < |reg| :: reg[i].1.Obj()
  }

  /** Every registered criterion has a model bound. */
  ghost predicate Bound(reg: Registry)
    reads Objects(reg)
  {
    forall i :: 0 <= i < |reg| ==> reg[i].1.BoundModel().Some?
  }

  /** The clauses one criterion adds when the registry applies it. */
  ghost function CriterionOps(c: Criterion): seq<Op>
    reads c.Obj()
    requires c.BoundModel().Some?
  {
    if c.OnDemandOnly() then []
    else match c
      case Trashed(t) => if t.ModelHasSoftDeletes() then [WithTrashed] else []
      case Paginate(_) => []
  }

  /** The clauses applyCriterias adds: each entry's in registration order. */
  ghost function AutoOps(reg: Registry): seq<Op>
    reads Objects(reg)
    requires Bound(reg)
  {
    if reg == [] then []
    else
      var n := |reg| - 1;
      assert reg[n].1.Obj() in Objects(reg);
      assert Objects(reg[..n]) <= Objects(reg) by {
        forall o | o in Objects(reg[..n]) ensures o in Objects(reg) {
          var i :| 0 <= i < n && reg[..n][i].1.Obj() == o;
          assert reg[i].1.Obj() == o;
        }
      }
      AutoOps(reg[..n]) + CriterionOps(reg[n].1)
  }

  lemma {:induction false} AutoOpsAppend(a: Registry, b: Registry)
    requires Bound(a + b)
    ensures Bound(a) && Bound(b)
    ensures AutoOps(a + b) == AutoOps(a) + AutoOps(b)
    decreases |b|
  {
    var ab := a + b;
    assert Bound(a) && Bound(b) by {
      PrefixBound(ab, |a|);
      assert ab[..|a|] == a;
      SuffixBound(ab, |a|);
      assert ab[|a|..] == b;
    }
    if b == [] {
      assert ab == a;
    } else {
      var n := |b| - 1;
      assert Bound(a + b[..n]) && Bound(b[..n]) by {
        PrefixBound(ab, |a| + n);
        assert ab[..|a| + n] == a + b[..n];
        PrefixBound(b, n);
      }
      assert AutoOps(ab) == AutoOps(a + b[..n]) + CriterionOps(b[n].1) by {
        AutoOpsLast(ab);
        assert ab[..|ab| - 1] == a + b[..n];
      }
      assert AutoOps(a + b[..n]) == AutoOps(a) + AutoOps(b[..n]) by {
        AutoOpsAppend(a, b[..n]);
      }
      assert AutoOps(b) == AutoOps(b[..n]) + CriterionOps(b[n].1) by {
        AutoOpsLast(b);
      }
    }
  }

  /** The clauses of a non-empty registry: those of all but the last entry, then the last one's. */
  lemma AutoOpsLast(reg: Registry)
    requires reg != [] && Bound(reg)
    ensures Bound(reg[..|reg| - 1]) && reg[|reg| - 1].1.BoundModel().Some?
    ensures AutoOps(reg) == AutoOps(reg[..|reg| - 1]) + CriterionOps(reg[|reg| - 1].1)
  {
    PrefixBound(reg, |reg| - 1);
  }

  /** A suffix of a bound registry is bound. */
  lemma SuffixBound(reg: Registry, k: nat)
    requires k <= |reg| && Bound(reg)
    ensures Bound(reg[k..])
  {
    assert forall i :: 0 <= i < |reg| - k ==> reg[k..][i] == reg[k + i];
  }

  /** The registry only ever lifts the soft-delete scope: it adds no other clause. */
  lemma {:induction false} AutoOpsOnlyWithTrashed(reg: Registry)
    requires Bound(reg)
    ensures forall op :: op in AutoOps(reg) ==> op == WithTrashed
    decreases |reg|
  {
    if reg != [] {
      var n := |reg| - 1;
      assert Bound(reg[..n]) by {
        forall i | 0 <= i < n ensures reg[..n][i].1.BoundModel().Some? {
          assert reg[..n][i] == reg[i];
        }
      }
      AutoOpsOnlyWithTrashed(reg[..n]);
    }
  }

  /** An on-demand entry contributes nothing, wherever it stands in the registry. */
  lemma AutoOpsSkipsOnDemand(a: Registry, e: (string, Criterion), b: Registry)
    requires Bound(a + [e] + b)
    requires e.1.OnDemandOnly()
    ensures Bound(a + b)
    ensures AutoOps(a + [e] + b) == AutoOps(a + b)
  {
    assert Bound(a + [e]) && Bound(b) && AutoOps(a + [e] + b) == AutoOps(a + [e]) + AutoOps(b) by {
      AutoOpsAppend(a + [e], b);
    }
    assert Bound(a) && AutoOps(a + [e]) == AutoOps(a) by {
      AutoOpsAppend(a, [e]);
      AutoOpsLast([e]);
      assert [e][..0] == [];
    }
    assert Bound(a + b) by {
      forall i | 0 <= i < |a + b| ensures (a + b)[i].1.BoundModel().Some? {
        if i < |a| {
          assert (a + b)[i] == (a + [e] + b)[i];
        } else {
          assert (a + b)[i] == (a + [e] + b)[i + 1];
        }
      }
    }
    assert AutoOps(a + b) == AutoOps(a) + AutoOps(b) by {
      AutoOpsAppend(a, b);
    }
  }

  /**
   * When every registered criterion is bound to an instance of the
   * repository's model, the registry adds one withTrashed exactly when
   * WithTrashedCriteria is registered and the model uses soft deletes.
   */
  lemma {:induction false} AutoOpsOfUniformModel(reg: Registry, softDeletes: bool)
    requires KeyedByClass(reg) && Bound(reg)
    requires forall i :: 0 <= i < |reg| ==> reg[i].1.BoundModel().value.softDeletes == softDeletes
    ensures AutoOps(reg) == if softDeletes && WithTrashedClass in Keys(reg) then [WithTrashed] else []
    decreases |reg|
  {
    if reg != [] {
      var n := |reg| - 1;
      var init := reg[..n];
      assert KeyedByClass(init) && Bound(init)
        && forall i :: 0 <= i < |init| ==> init[i].1.BoundModel().value.softDeletes == softDeletes
      by {
        assert forall i :: 0 <= i < n ==> init[i] == reg[i];
      }
      assert AutoOps(reg) == AutoOps(init) + CriterionOps(reg[n].1) by {
        AutoOpsLast(reg);
      }
      assert AutoOps(init) == if softDeletes && WithTrashedClass in Keys(init) then [WithTrashed] else [] by {
        AutoOpsOfUniformModel(init, softDeletes);
      }
      LastKey(reg, WithTrashedClass);
      assert reg[n].1.Trashed? <==> reg[n].0 == WithTrashedClass;
    }
  }

  /** A key is in a map exactly when it is in all but the last entry or is the last entry's key, and not both. */
  lemma LastKey(reg: Registry, k: string)
    requires reg != [] && UniqueKeys(reg)
    ensures k in Keys(reg) <==> k in Keys(reg[..|reg| - 1]) || reg[|reg| - 1].0 == k
    ensures reg[|reg| - 1].0 == k ==> k !in Keys(reg[..|reg| - 1])
  {
    var n := |reg| - 1;
    assert Keys(reg) == Keys(reg[..n]) + [reg[n].0];
  }

  // ------------------------------------------------------------ model binding

  /** Every registered criterion is bound to the model `m`. */
  ghost predicate BoundTo(reg: Registry, m: Model)
    reads Objects(reg)
  {
    forall i :: 0 <= i < |reg| ==> reg[i].1.BoundModel() == Some(m)
  }

  /** A registry made of entries of another keeps that one's bindings. */
  lemma SubRegistryBound(reg: Registry, r: Registry, m: Model)
    requires forall e :: e in r ==> e in reg
    ensures Bound(reg) ==> Bound(r)
    ensures BoundTo(reg, m) ==> BoundTo(r, m)
  {
    forall i | 0 <= i < |r| ensures exists j :: 0 <= j < |reg| && reg[j] == r[i] {
      assert r[i] in reg;
    }
  }

  /** Putting a bound criterion keeps the registry bound, and the binding to `m` when it is bound to `m`. */
  lemma PutBound(reg: Registry, c: Criterion, m: Model)
    requires c.BoundModel().Some?
    ensures Bound(reg) ==> Bound(Put(reg, c.ClassName(), c))
    ensures BoundTo(reg, m) && c.BoundModel() == Some(m) ==> BoundTo(Put(reg, c.ClassName(), c), m)
  {
    var r := Put(reg, c.ClassName(), c);
    PutEntries(reg, c.ClassName(), c);
    var ext := reg + [Entry(c)];
    assert forall e :: e in r ==> e in ext;
    SubRegistryBound(ext, r, m);
  }

  /** The pagination criteria among the elements given to pushCriteria. */
  ghost function PaginationsIn(items: seq<Pushable>): set<PaginationCriteria> {
    set i | 0 <= i < |items| && items[i].Instance? && items[i].criterion.Paginate? :: items[i].criterion.p
  }

  /** The soft-delete criteria among the elements given to pushCriteria. */
  ghost function TrashedIn(items: seq<Pushable>): set<WithTrashedCriteria> {
    set i | 0 <= i < |items| && items[i].Instance? && items[i].criterion.Trashed? :: items[i].criterion.t
  }

  /** The pagination criterion an element is, if it is one. */
  ghost function PaginationOf(item: Pushable): set<PaginationCriteria> {
    if item.Instance? && item.criterion.Paginate? then {item.criterion.p} else {}
  }

  /** The soft-delete criterion an element is, if it is one. */
  ghost function TrashedOf(item: Pushable): set<WithTrashedCriteria> {
    if item.Instance? && item.criterion.Trashed? then {item.criterion.t} else {}
  }

  lemma ItemFrames(items: seq<Pushable>, i: nat)
    requires i < |items|
    ensures PaginationOf(items[i]) <= PaginationsIn(items)
    ensures TrashedOf(items[i]) <= TrashedIn(items)
  {
  }

  /** The pagination criteria in the registry. */
  ghost function RegisteredPaginations(reg: Registry): set<PaginationCriteria> {
    set i | 0 <= i < |reg| && reg[i].1.Paginate? :: reg[i].1.p
  }

  /** The criterion found under PaginationClass is registered, and bound when the registry is. */
  lemma RegisteredPagination(reg: Registry, p: PaginationCriteria)
    requires Get(reg, PaginationClass) == Some(Criterion.Paginate(p))
    ensures p in RegisteredPaginations(reg)
    ensures Bound(reg) ==> p.model.Some?
  {
    var i :| 0 <= i < |reg| && reg[i] == (PaginationClass, Criterion.Paginate(p));
    assert reg[i].1.p == p;
  }

  /** A prefix of a bound registry is bound. */
  lemma PrefixBound(reg: Registry, n: nat)
    requires n <= |reg| && Bound(reg)
    ensures Bound(reg[..n])
  {
    assert forall i :: 0 <= i < n ==> reg[..n][i] == reg[i];
  }

  /** A query is never one of the registry's criterion objects. */
  lemma QueryNotCriterion(reg: Registry, q: Query)
    ensures q !in Objects(reg)
  {
  }

  /** One step of applyCriterias: the first n+1 entries add the first n's clauses, then entry n's. */
  lemma AutoOpsStep(reg: Registry, n: nat)
    requires n < |reg| && Bound(reg)
    ensures Bound(reg[..n]) && reg[n].1.BoundModel().Some?
    ensures AutoOps(reg[..n + 1]) == AutoOps(reg[..n]) + CriterionOps(reg[n].1)
  {
    PrefixBound(reg, n + 1);
    PrefixBound(reg, n);
    assert reg[..n + 1][..n] == reg[..n];
    assert reg[..n + 1][n] == reg[n];
  }

  /** Whether the registry is bound, and the clauses it adds, depend only on its criterion objects. */
  twostate lemma BoundFramed(reg: Registry)
    requires old(Bound(reg)) && unchanged(Objects(reg))
    ensures Bound(reg)
  {
  }

  twostate lemma AutoOpsFramed(reg: Registry)
    requires old(Bound(reg)) && unchanged(Objects(reg))
    ensures Bound(reg) && AutoOps(reg) == old(AutoOps(reg))
  {
  }
}

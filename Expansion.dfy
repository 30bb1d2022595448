/**
 * Combinatorial expansion of a description into single-valued descriptions
 * (PipelineManager._resolve_complex_descriptions in
 * prepCV/auto_preprocessing.py): the outer product, across operations, of each
 * operation's parameter combinations.
 */
module Expansion {
  import opened Wrappers
  import opened Pipelines

  // ---------------------------------------------------------------------------
  // itertools.product

  /** Every tuple of `xs` extended by every element of `pool`; the new element varies fastest. */
  function Extend<T>(xs: seq<seq<T>>, pool: seq<T>): (r: seq<seq<T>>)
    ensures |r| == |xs| * |pool|
    decreases |xs|
  {
    if xs == [] then []
    else
      var rest := Extend(xs[1..], pool);
      assert |xs| * |pool| == |pool| + (|xs| - 1) * |pool|;
      seq(|pool|, j requires 0 <= j < |pool| => xs[0] + [pool[j]]) + rest
  }

  /** The number of tuples of a product: the product of the pool sizes. */
  function Count<T>(pools: seq<seq<T>>): nat
    decreases |pools|
  {
    if pools == [] then 1 else Count(pools[..|pools| - 1]) * |pools[|pools| - 1]|
  }

  /** `list(itertools.product(*pools))`, each tuple as a sequence, in the order product yields them. */
  function Product<T>(pools: seq<seq<T>>): (r: seq<seq<T>>)
    ensures |r| == Count(pools)
    decreases |pools|
  {
    if pools == [] then [[]]
    else Extend(Product(pools[..|pools| - 1]), pools[|pools| - 1])
  }

  /** Position i * |pool| + j of Extend holds tuple i extended by element j. */
  lemma {:induction false} ExtendAt<T>(xs: seq<seq<T>>, pool: seq<T>, i: nat, j: nat)
    requires i < |xs| && j < |pool|
    ensures i * |pool| + j < |Extend(xs, pool)|
    ensures Extend(xs, pool)[i * |pool| + j] == xs[i] + [pool[j]]
    decreases i
  {
    if i > 0 {
      ExtendAt(xs[1..], pool, i - 1, j);
      assert i * |pool| + j == |pool| + ((i - 1) * |pool| + j);
    }
  }

  /** A tuple is in Extend exactly when it is some tuple of `xs` extended by some element of `pool`. */
  lemma {:induction false} ExtendMember<T>(xs: seq<seq<T>>, pool: seq<T>, t: seq<T>)
    ensures t in Extend(xs, pool) <==> exists x, y :: x in xs && y in pool && t == x + [y]
    decreases |xs|
  {
    if xs != [] {
      var tail := Extend(xs[1..], pool);
      ExtendMember(xs[1..], pool, t);
      var chunk := seq(|pool|, j requires 0 <= j < |pool| => xs[0] + [pool[j]]);
      assert Extend(xs, pool) == chunk + tail;
      if exists x, y :: x in xs && y in pool && t == x + [y] {
        var x, y :| x in xs && y in pool && t == x + [y];
        if x == xs[0] {
          var j :| 0 <= j < |pool| && pool[j] == y;
          assert chunk[j] == t;
        } else {
          assert x in xs[1..];
        }
      }
      if t in chunk {
        var j :| 0 <= j < |chunk| && chunk[j] == t;
        assert xs[0] in xs && pool[j] in pool && t == xs[0] + [pool[j]];
      } else if t in tail {
        var x, y :| x in xs[1..] && y in pool && t == x + [y];
        assert x in xs;
      }
    }
  }

  /** A choice of one element from each pool, in pool order. */
  ghost predicate Choice<T>(pools: seq<seq<T>>, t: seq<T>)
  {
    |t| == |pools| && forall i :: 0 <= i < |t| ==> t[i] in pools[i]
  }

  /** Every tuple of the product chooses one element from each pool. */
  lemma {:induction false} ProductSound<T>(pools: seq<seq<T>>, t: seq<T>)
    requires t in Product(pools)
    ensures Choice(pools, t)
    decreases |pools|
  {
    if pools != [] {
      var n := |pools| - 1;
      var front := pools[..n];
      var inner := Product(front);
      assert Product(pools) == Extend(inner, pools[n]);
      ExtendMember(inner, pools[n], t);
      var x, y :| x in inner && y in pools[n] && t == x + [y];
      ProductSound(front, x);
      forall i | 0 <= i < |t| ensures t[i] in pools[i] {
        if i < n { assert t[i] == x[i] && front[i] == pools[i]; }
      }
    }
  }

  /** Every choice of one element from each pool is a tuple of the product. */
  lemma {:induction false} ProductComplete<T>(pools: seq<seq<T>>, t: seq<T>)
    requires Choice(pools, t)
    ensures t in Product(pools)
    decreases |pools|
  {
    if pools == [] {
      assert t == [] && Product(pools) == [[]];
    } else {
      var n := |pools| - 1;
      var front := pools[..n];
      var inner := Product(front);
      var x := t[..n];
      assert Choice(front, x) by {
        forall i | 0 <= i < |x| ensures x[i] in front[i] {
          assert x[i] == t[i] && front[i] == pools[i];
        }
      }
      ProductComplete(front, x);
      assert t == x + [t[n]];
      ExtendMember(inner, pools[n], t);
      assert Product(pools) == Extend(inner, pools[n]);
    }
  }

  /** The product holds exactly the choices of one element per pool. */
  lemma ProductMember<T>(pools: seq<seq<T>>, t: seq<T>)
    ensures t in Product(pools) <==> Choice(pools, t)
  {
    if t in Product(pools) { ProductSound(pools, t); }
    if Choice(pools, t) { ProductComplete(pools, t); }
  }

  /**
   * The product's order: for the last pool `last`, position i * |last| + j
   * holds tuple i of the product of the other pools extended by last[j]
   * (the last pool varies fastest, as in itertools.product).
   */
  lemma ProductAt<T>(pools: seq<seq<T>>, i: nat, j: nat)
    requires pools != []
    requires i < |Product(pools[..|pools| - 1])| && j < |pools[|pools| - 1]|
    ensures var k := i * |pools[|pools| - 1]| + j;
            k < |Product(pools)| && Product(pools)[k] == Product(pools[..|pools| - 1])[i] + [pools[|pools| - 1][j]]
  {
    ExtendAt(Product(pools[..|pools| - 1]), pools[|pools| - 1], i, j);
  }

  // ---------------------------------------------------------------------------
  // Resolving a description

  /** `[{function: combination} for combination in parameter_combinations(parameter_dict)]`. */
  function Tagged(combos: Params -> seq<Params>, e: Entry): seq<Entry>
  {
    seq(|combos(e.1)|, j requires 0 <= j < |combos(e.1)| => (e.0, combos(e.1)[j]))
  }

  /** `function_param_combinations`: one tagged list per operation, in the description's order. */
  function Pools(combos: Params -> seq<Params>, entries: seq<Entry>): seq<seq<Entry>>
  {
    seq(|entries|, i requires 0 <= i < |entries| => Tagged(combos, entries[i]))
  }

  /** The resolved dicts: each product tuple merged into one dict with `update`. */
  function Resolutions(combos: Params -> seq<Params>, entries: seq<Entry>): seq<seq<Entry>>
  {
    var ts := Product(Pools(combos, entries));
    seq(|ts|, k requires 0 <= k < |ts| => Merge(ts[k]))
  }

  /** The number of combinations of a description: the product over its operations of |combos(params)|. */
  function CombinationCount(combos: Params -> seq<Params>, entries: seq<Entry>): nat
    decreases |entries|
  {
    if entries == [] then 1
    else CombinationCount(combos, entries[..|entries| - 1]) * |combos(entries[|entries| - 1].1)|
  }

  /**
   * Builds a PipelineDescription for each resolved dict, in order; the first
   * one that fails validation raises, and nothing is returned.
   */
  function DescribeAll(validParams: Op -> set<string>, ds: seq<seq<Entry>>): (r: Result<seq<PipelineDescription>, ValidationError>)
    ensures r.Ok? ==> |r.value| == |ds|
    decreases |ds|
  {
    if ds == [] then Ok([])
    else
      match NewDescription(validParams, ds[0])
      case Err(e) => Err(e)
      case Ok(p) =>
        match DescribeAll(validParams, ds[1..])
        case Err(e) => Err(e)
        case Ok(ps) => Ok([p] + ps)
  }

  /**
   * Describing succeeds exactly when every dict passes validation, and then
   * gives each dict's description in order; a failure is the error of some
   * dict, and every dict before it passes.
   */
  lemma {:induction false} DescribeAllSpec(validParams: Op -> set<string>, ds: seq<seq<Entry>>)
    ensures DescribeAll(validParams, ds).Ok? <==> forall k :: 0 <= k < |ds| ==> NamesAccepted(validParams, ds[k])
    ensures DescribeAll(validParams, ds).Ok? ==>
              forall k :: 0 <= k < |ds| ==> DescribeAll(validParams, ds).value[k] == PipelineDescription(ds[k])
    ensures DescribeAll(validParams, ds).Err? ==>
              exists k :: 0 <= k < |ds| && NewDescription(validParams, ds[k]) == Err(DescribeAll(validParams, ds).error)
                          && forall k' :: 0 <= k' < k ==> NamesAccepted(validParams, ds[k'])
    decreases |ds|
  {
    if ds != [] {
      var tail := ds[1..];
      assert forall k :: 0 <= k < |ds| - 1 ==> tail[k] == ds[k + 1];
      DescribeAllSpec(validParams, tail);
      var r := DescribeAll(validParams, ds);
      var first := NewDescription(validParams, ds[0]);
      if first.Ok? {
        var rest := DescribeAll(validParams, tail);
        if rest.Err? {
          assert r == Err(rest.error);
          var k :| 0 <= k < |tail| && NewDescription(validParams, tail[k]) == Err(rest.error)
                   && forall k' :: 0 <= k' < k ==> NamesAccepted(validParams, tail[k']);
          assert NewDescription(validParams, ds[k + 1]) == Err(r.error);
          forall k' | 0 <= k' < k + 1 ensures NamesAccepted(validParams, ds[k']) {
            if k' > 0 { assert ds[k'] == tail[k' - 1]; }
          }
        } else {
          assert r.value == [first.value] + rest.value;
          forall k | 0 <= k < |ds| ensures r.value[k] == PipelineDescription(ds[k]) {
            if k > 0 { assert r.value[k] == rest.value[k - 1]; }
          }
        }
      } else {
        assert NewDescription(validParams, ds[0]) == Err(r.error);
      }
    }
  }

  /** `described` holds, in order, a description for each of the first |described| dicts, all of them accepted. */
  ghost predicate DescribedUpTo(validParams: Op -> set<string>, ds: seq<seq<Entry>>, described: seq<PipelineDescription>)
  {
    |described| <= |ds| &&
    forall k :: 0 <= k < |described| ==> NamesAccepted(validParams, ds[k]) && described[k] == PipelineDescription(ds[k])
  }

  /** A dict that passes validation extends the described prefix by its description. */
  lemma DescribedStep(validParams: Op -> set<string>, ds: seq<seq<Entry>>, described: seq<PipelineDescription>, p: PipelineDescription)
    requires DescribedUpTo(validParams, ds, described) && |described| < |ds|
    requires NewDescription(validParams, ds[|described|]) == Ok(p)
    ensures DescribedUpTo(validParams, ds, described + [p])
  {
    var k := |described|;
    assert NamesAccepted(validParams, ds[k]) && p == PipelineDescription(ds[k]);
    forall k' | 0 <= k' < |described| + 1
      ensures NamesAccepted(validParams, ds[k']) && (described + [p])[k'] == PipelineDescription(ds[k'])
    {
      if k' < k {
        assert (described + [p])[k'] == described[k'];
      }
    }
  }

  /** Once every dict is described, DescribeAll returns exactly those descriptions. */
  lemma DescribedAll(validParams: Op -> set<string>, ds: seq<seq<Entry>>, described: seq<PipelineDescription>)
    requires DescribedUpTo(validParams, ds, described) && |described| == |ds|
    ensures DescribeAll(validParams, ds) == Ok(described)
  {
    DescribeAllSpec(validParams, ds);
    var r := DescribeAll(validParams, ds);
    assert r.Ok?;
    assert r.value == described;
  }

  /** DescribeAll raises the error of the first dict that fails validation. */
  lemma DescribedFirstError(validParams: Op -> set<string>, ds: seq<seq<Entry>>, described: seq<PipelineDescription>, e: ValidationError)
    requires DescribedUpTo(validParams, ds, described) && |described| < |ds|
    requires NewDescription(validParams, ds[|described|]) == Err(e)
    ensures DescribeAll(validParams, ds) == Err(e)
  {
    DescribeAllSpec(validParams, ds);
    var r := DescribeAll(validParams, ds);
    assert r.Err?;
    var k :| 0 <= k < |ds| && NewDescription(validParams, ds[k]) == Err(r.error)
             && forall k' :: 0 <= k' < k ==> NamesAccepted(validParams, ds[k']);
    if k < |described| {
      assert NamesAccepted(validParams, ds[k]);
    }
  }

  /** The whole of _resolve_complex_descriptions, as a value. */
  function Resolve(lib: Library, d: PipelineDescription): Result<seq<PipelineDescription>, ValidationError>
  {
    DescribeAll(lib.validParams, Resolutions(lib.combos, d.entries))
  }

  // ---------------------------------------------------------------------------
  // Properties of the expansion

  /** Taking the pools of a prefix is taking a prefix of the pools. */
  lemma PoolsPrefix(combos: Params -> seq<Params>, entries: seq<Entry>, n: nat)
    requires n <= |entries|
    ensures Pools(combos, entries)[..n] == Pools(combos, entries[..n])
  {
  }

  /** The expansion has one resolved dict per combination: the product over operations of |combos(params)|. */
  lemma {:induction false} ResolutionCount(combos: Params -> seq<Params>, entries: seq<Entry>)
    ensures |Resolutions(combos, entries)| == CombinationCount(combos, entries)
    ensures entries == [] ==> Resolutions(combos, entries) == [[]]
    decreases |entries|
  {
    var pools := Pools(combos, entries);
    if entries == [] {
      assert Product(pools) == [[]];
    } else {
      var n := |entries| - 1;
      PoolsPrefix(combos, entries, n);
      ResolutionCount(combos, entries[..n]);
      assert |pools[n]| == |combos(entries[n].1)|;
    }
  }

  /** An operation without any combination leaves nothing to resolve. */
  lemma {:induction false} ResolutionEmpty(combos: Params -> seq<Params>, entries: seq<Entry>, i: nat)
    requires i < |entries| && combos(entries[i].1) == []
    ensures Resolutions(combos, entries) == []
    decreases |entries|
  {
    ResolutionCount(combos, entries);
    CountZero(combos, entries, i);
  }

  lemma {:induction false} CountZero(combos: Params -> seq<Params>, entries: seq<Entry>, i: nat)
    requires i < |entries| && combos(entries[i].1) == []
    ensures CombinationCount(combos, entries) == 0
    decreases |entries|
  {
    var n := |entries| - 1;
    if i < n {
      assert entries[..n][i] == entries[i];
      CountZero(combos, entries[..n], i);
    }
  }

  /** A resolved dict: the description's operations in order, each with one of its combinations. */
  ghost predicate ResolvedFrom(combos: Params -> seq<Params>, entries: seq<Entry>, r: seq<Entry>)
  {
    |r| == |entries| && forall i :: 0 <= i < |r| ==> r[i].0 == entries[i].0 && r[i].1 in combos(entries[i].1)
  }

  /** A product tuple of the tagged pools is a resolved dict, and conversely. */
  lemma ChoiceResolved(combos: Params -> seq<Params>, entries: seq<Entry>, t: seq<Entry>)
    ensures Choice(Pools(combos, entries), t) <==> ResolvedFrom(combos, entries, t)
  {
    var pools := Pools(combos, entries);
    if ResolvedFrom(combos, entries, t) {
      forall i | 0 <= i < |t| ensures t[i] in pools[i] {
        var j :| 0 <= j < |combos(entries[i].1)| && combos(entries[i].1)[j] == t[i].1;
        assert pools[i][j] == t[i];
      }
    }
    if Choice(pools, t) {
      forall i | 0 <= i < |t| ensures t[i].0 == entries[i].0 && t[i].1 in combos(entries[i].1) {
        var j :| 0 <= j < |pools[i]| && pools[i][j] == t[i];
      }
    }
  }

  /** Each product tuple merges into itself when the description's operations are distinct. */
  lemma ResolutionsAt(combos: Params -> seq<Params>, entries: seq<Entry>, k: nat)
    requires DistinctOps(entries) && k < |Resolutions(combos, entries)|
    ensures Resolutions(combos, entries)[k] == Product(Pools(combos, entries))[k]
  {
    var t := Product(Pools(combos, entries))[k];
    ProductMember(Pools(combos, entries), t);
    ChoiceResolved(combos, entries, t);
    MergeDistinct(t);
  }

  /** With distinct operations, merging changes no tuple: the resolution is the product itself. */
  lemma ResolutionsAreProduct(combos: Params -> seq<Params>, entries: seq<Entry>)
    requires DistinctOps(entries)
    ensures Resolutions(combos, entries) == Product(Pools(combos, entries))
  {
    forall k | 0 <= k < |Resolutions(combos, entries)|
      ensures Resolutions(combos, entries)[k] == Product(Pools(combos, entries))[k]
    {
      ResolutionsAt(combos, entries, k);
    }
  }

  /**
   * The resolved dicts are exactly the dicts that keep the description's
   * operations, in its order, and give each one of its combinations.
   */
  lemma ResolutionMember(combos: Params -> seq<Params>, entries: seq<Entry>, r: seq<Entry>)
    requires DistinctOps(entries)
    ensures r in Resolutions(combos, entries) <==> ResolvedFrom(combos, entries, r)
  {
    var rs := Resolutions(combos, entries);
    var ts := Product(Pools(combos, entries));
    if r in rs {
      var k :| 0 <= k < |rs| && rs[k] == r;
      ResolutionsAt(combos, entries, k);
      ProductMember(Pools(combos, entries), r);
      ChoiceResolved(combos, entries, r);
    }
    if ResolvedFrom(combos, entries, r) {
      ChoiceResolved(combos, entries, r);
      ProductMember(Pools(combos, entries), r);
      var k :| 0 <= k < |ts| && ts[k] == r;
      ResolutionsAt(combos, entries, k);
    }
  }

  /**
   * Product order of the resolution: the resolved dicts are those of all
   * operations but the last, each extended by the last operation with every
   * one of its combinations in turn (the last operation varies fastest).
   */
  lemma ResolutionOrder(combos: Params -> seq<Params>, entries: seq<Entry>)
    requires DistinctOps(entries) && entries != []
    ensures Resolutions(combos, entries)
            == Extend(Resolutions(combos, entries[..|entries| - 1]), Tagged(combos, entries[|entries| - 1]))
  {
    var n := |entries| - 1;
    var front := entries[..n];
    var pools := Pools(combos, entries);
    assert DistinctOps(front);
    PoolsPrefix(combos, entries, n);
    ResolutionsAreProduct(combos, front);
    ResolutionsAreProduct(combos, entries);
    assert Product(pools) == Extend(Product(pools[..n]), pools[n]);
  }
}

/**
 * The pipeline registry (class PipelineManager in
 * prepCV/auto_preprocessing.py). The source keeps its state in class
 * attributes shared by the whole process; here it is one object. The foreign
 * helpers are fixed when the object is built.
 */
module Registry {
  import opened Wrappers
  import opened Pipelines
  import opened Expansion
  import opened Selection
  import opened Strategy

  /** Why run_search raises. */
  datatype RunError =
    | UnknownStrategy(name: string)  // `strategy` is never bound: UnboundLocalError
    | SearchFailed(error: SearchError)

  /** One Preprocessor per resolved description, in order. */
  function Wrap(ds: seq<PipelineDescription>): (r: seq<Preprocessor>)
    ensures |r| == |ds| && forall i :: 0 <= i < |ds| ==> r[i].description == ds[i]
  {
    seq(|ds|, i requires 0 <= i < |ds| => Preprocessor(ds[i]))
  }

  class PipelineManager {
    const lib: Library
    var pipelines: seq<Preprocessor>
    var newlyAdded: seq<Preprocessor>
    var best: Option<Preprocessor>

    /**
     * The newly added pipelines are the latest registered ones, and a cached
     * winner is always a registered pipeline.
     */
    ghost predicate Valid()
      reads this
    {
      && |newlyAdded| <= |pipelines|
      && pipelines[|pipelines| - |newlyAdded|..] == newlyAdded
      && (best.Some? ==> best.value in pipelines)
    }

    /** The class attributes' initial values. */
    constructor (lib: Library)
      ensures Valid() && this.lib == lib
      ensures pipelines == [] && newlyAdded == [] && best == None
    {
      this.lib := lib;
      pipelines, newlyAdded, best := [], [], None;
    }

    /**
     * _resolve_complex_descriptions: the product of the operations' parameter
     * combinations, each merged into a dict and validated as a new description.
     */
    method ResolveComplexDescriptions(d: PipelineDescription) returns (r: Result<seq<PipelineDescription>, ValidationError>)
      ensures r == Resolve(lib, d)
    {
      var pools := ParamCombinations(d.entries);
      var tuples := Product(pools);
      ghost var all := Resolutions(lib.combos, d.entries);
      var resolved: seq<PipelineDescription> := [];
      var k := 0;
      while k < |tuples|
        invariant 0 <= k <= |tuples| && |all| == |tuples| && |resolved| == k
        invariant DescribedUpTo(lib.validParams, all, resolved)
      {
        var merged := MergeTuple(tuples[k]);
        assert merged == all[k];
        match NewDescription(lib.validParams, merged) {
          case Err(e) =>
            DescribedFirstError(lib.validParams, all, resolved, e);
            return Err(e);
          case Ok(p) =>
            DescribedStep(lib.validParams, all, resolved, p);
            resolved := resolved + [p];
        }
        k := k + 1;
      }
      DescribedAll(lib.validParams, all, resolved);
      return Ok(resolved);
    }

    /** `function_param_combinations`: each operation's combinations, tagged with the operation. */
    method ParamCombinations(entries: seq<Entry>) returns (pools: seq<seq<Entry>>)
      ensures pools == Pools(lib.combos, entries)
    {
      pools := [];
      var i := 0;
      while i < |entries|
        invariant 0 <= i <= |entries|
        invariant pools == Pools(lib.combos, entries[..i])
      {
        assert Pools(lib.combos, entries[..i + 1]) == Pools(lib.combos, entries[..i]) + [Tagged(lib.combos, entries[i])];
        pools := pools + [Tagged(lib.combos, entries[i])];
        i := i + 1;
      }
      assert entries[..i] == entries;
    }

    /**
     * add_pipeline: appends one Preprocessor per resolved description, in
     * resolution order, to both lists; a validation error raised while
     * resolving leaves everything as it was. The cached winner is not touched.
     */
    method AddPipeline(d: PipelineDescription) returns (err: Option<ValidationError>)
      requires Valid()
      modifies this
      ensures Valid() && best == old(best)
      ensures match Resolve(lib, d)
        case Ok(ds) =>
          err == None && pipelines == old(pipelines) + Wrap(ds) && newlyAdded == old(newlyAdded) + Wrap(ds)
        case Err(e) =>
          err == Some(e) && pipelines == old(pipelines) && newlyAdded == old(newlyAdded)
    {
      var resolved := ResolveComplexDescriptions(d);
      match resolved {
        case Err(e) =>
          return Some(e);
        case Ok(ds) =>
          Register(ds);
          return None;
      }
    }

    /** The loop of add_pipeline: each description wrapped in a Preprocessor and appended to both lists. */
    method Register(ds: seq<PipelineDescription>)
      requires Valid()
      modifies this
      ensures Valid() && best == old(best)
      ensures pipelines == old(pipelines) + Wrap(ds) && newlyAdded == old(newlyAdded) + Wrap(ds)
    {
      var i := 0;
      while i < |ds|
        invariant 0 <= i <= |ds|
        invariant pipelines == old(pipelines) + Wrap(ds[..i])
        invariant newlyAdded == old(newlyAdded) + Wrap(ds[..i])
        invariant best == old(best)
      {
        assert Wrap(ds[..i + 1]) == Wrap(ds[..i]) + [Preprocessor(ds[i])];
        pipelines := pipelines + [Preprocessor(ds[i])];
        newlyAdded := newlyAdded + [Preprocessor(ds[i])];
        i := i + 1;
      }
      assert ds[..i] == ds;
      SuffixKept(old(pipelines), old(newlyAdded), Wrap(ds));
    }

    /**
     * run_search: only "GridSearch" is known, any other name raises; the
     * search's winner becomes the cached best and the newly added list is
     * emptied, while a search that raises changes nothing.
     */
    method RunSearch(image: Image, strategy: string, ocr: Option<Image -> Image>, coldStart: bool, events: seq<Event>)
      returns (err: Option<RunError>)
      requires Valid()
      modifies this
      ensures Valid() && pipelines == old(pipelines)
      ensures strategy != "GridSearch" ==>
        err == Some(UnknownStrategy(strategy)) && newlyAdded == old(newlyAdded) && best == old(best)
      ensures strategy == "GridSearch" ==>
        match GridSearchCorrected(lib.apply, ocr, Competitors(old(pipelines), old(newlyAdded), coldStart), image, events)
        case Ok(p) => err == None && best == Some(p) && newlyAdded == []
        case Err(e) => err == Some(SearchFailed(e)) && best == old(best) && newlyAdded == old(newlyAdded)
    {
      if strategy != "GridSearch" {
        return Some(UnknownStrategy(strategy));
      }
      var competitors := Competitors(pipelines, newlyAdded, coldStart);
      match GridSearchCorrected(lib.apply, ocr, competitors, image, events) {
        case Err(e) =>
          return Some(SearchFailed(e));
        case Ok(p) =>
          assert p in pipelines by {
            GridSearchCorrectedResult(lib.apply, ocr, competitors, image, events);
            var i :| 0 <= i < |competitors| && p == competitors[i];
            if !coldStart {
              assert p == pipelines[|pipelines| - |newlyAdded|..][i];
            }
          }
          best := Some(p);
          newlyAdded := [];
          return None;
      }
    }

    /**
     * get_best_preprocessor: a winner is stale once pipelines were added after
     * the last search; it is then dropped and None is returned. Neither list changes.
     */
    method GetBestPreprocessor() returns (r: Option<Preprocessor>)
      requires Valid()
      modifies this`best
      ensures Valid()
      ensures newlyAdded != [] ==> r == None && best == None
      ensures newlyAdded == [] ==> r == old(best) && best == old(best)
    {
      if newlyAdded != [] {
        best := None;
      }
      return best;
    }
  }

  /** The `update` loop of _resolve_complex_descriptions: one product tuple merged into a dict. */
  method MergeTuple(t: seq<Entry>) returns (merged: seq<Entry>)
    ensures merged == Merge(t)
  {
    merged := [];
    var j := 0;
    while j < |t|
      invariant 0 <= j <= |t|
      invariant merged == Merge(t[..j])
    {
      assert t[..j + 1][..j] == t[..j];
      merged := Update(merged, t[j]);
      j := j + 1;
    }
    assert t[..j] == t;
  }

  /** Appending the same items to a list and to its suffix keeps the one a suffix of the other. */
  lemma SuffixKept(all: seq<Preprocessor>, recent: seq<Preprocessor>, added: seq<Preprocessor>)
    requires |recent| <= |all| && all[|all| - |recent|..] == recent
    ensures (all + added)[|all + added| - |recent + added|..] == recent + added
  {
    assert (all + added)[|all + added| - |recent + added|..] == all[|all| - |recent|..] + added;
  }

  /**
   * Stale-winner invalidation from a client's view: after a search has cached
   * a winner, registering a description that yields at least one pipeline and
   * asking for the best returns None.
   */
  method StaleWinnerScenario(lib: Library, first: PipelineDescription, second: PipelineDescription,
                             image: Image, events: seq<Event>) returns (r: Option<Preprocessor>)
    requires Resolve(lib, second).Ok? && Resolve(lib, second).value != []
    ensures r == None
  {
    var manager := new PipelineManager(lib);
    var _ := manager.AddPipeline(first);
    var _ := manager.RunSearch(image, "GridSearch", None, false, events);
    var _ := manager.AddPipeline(second);
    r := manager.GetBestPreprocessor();
  }
}

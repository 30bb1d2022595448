/**
 * Pipeline descriptions and their execution (prepCV/auto_preprocessing.py,
 * classes PipelineDescription and Preprocessor).
 *
 * A description is a Python dict from operation to keyword-argument dict; both
 * dicts keep insertion order, so both are modelled as sequences of pairs.
 * Operations, images and argument values are opaque. The helpers the source
 * imports or calls but does not define are gathered in `Library`.
 */
module Pipelines {
  import opened Wrappers

  /** An image operation (a cv2 function or any other callable). */
  type Op(==)

  /** An image (a numpy array). */
  type Image

  /** A keyword-argument value: a single value or a list of candidates. */
  type Value

  /** A keyword-argument dict, in insertion order. */
  type Params = seq<(string, Value)>

  /** One item of a description dict: an operation and its keyword arguments. */
  type Entry = (Op, Params)

  /**
   * The foreign helpers:
   *  - validParams: utils.get_cv2_function_params; empty when the signature cannot be read,
   *  - combos: utils.parameter_combinations, one single-valued dict per combination,
   *  - apply: calling the operation, `function(image, **params)`.
   */
  datatype Library = Library(
    validParams: Op -> set<string>,
    combos: Params -> seq<Params>,
    apply: (Op, Image, Params) -> Image)

  /** The frozen dataclass PipelineDescription; built only through NewDescription. */
  datatype PipelineDescription = PipelineDescription(entries: seq<Entry>)

  /** The ValueError raised by validation: the operation and the name it does not accept. */
  datatype ValidationError = InvalidParameter(op: Op, name: string)

  /** The operations (keys) of a description dict, in order. */
  function Ops(d: seq<Entry>): (r: seq<Op>)
    ensures |r| == |d|
  {
    seq(|d|, i requires 0 <= i < |d| => d[i].0)
  }

  /** A Python dict has each key once. */
  ghost predicate DistinctOps(d: seq<Entry>)
  {
    forall i, j :: 0 <= i < j < |d| ==> d[i].0 != d[j].0
  }

  // ---------------------------------------------------------------------------
  // dict.update with a one-key dict

  /** `d.update({e.0: e.1})`: a present key keeps its place and takes the new value; a new key goes last. */
  function Update(d: seq<Entry>, e: Entry): (r: seq<Entry>)
    ensures e.0 !in Ops(d) ==> r == d + [e]
    ensures e.0 in Ops(d) ==> Ops(r) == Ops(d) && e in r
    decreases |d|
  {
    if d == [] then [e]
    else if d[0].0 == e.0 then
      assert Ops(d)[0] == e.0;
      [e] + d[1..]
    else
      assert Ops(d) == [d[0].0] + Ops(d[1..]);
      var r := [d[0]] + Update(d[1..], e);
      assert Ops(r) == [d[0].0] + Ops(Update(d[1..], e));
      r
  }

  /** With distinct keys, updating a present key replaces its entry and leaves every other entry as it was. */
  lemma {:induction false} UpdateExisting(d: seq<Entry>, e: Entry)
    requires DistinctOps(d)
    ensures e.0 in Ops(d) ==>
              |Update(d, e)| == |d| &&
              forall i :: 0 <= i < |d| ==> Update(d, e)[i] == (if d[i].0 == e.0 then e else d[i])
    decreases |d|
  {
    if d != [] && d[0].0 != e.0 {
      var tail := d[1..];
      assert DistinctOps(tail) by {
        forall i, j | 0 <= i < j < |tail| ensures tail[i].0 != tail[j].0 {
          assert tail[i] == d[i + 1] && tail[j] == d[j + 1];
        }
      }
      UpdateExisting(tail, e);
      assert Ops(d) == [d[0].0] + Ops(tail);
      if e.0 in Ops(d) {
        assert e.0 in Ops(tail);
        forall i | 0 <= i < |d| ensures Update(d, e)[i] == (if d[i].0 == e.0 then e else d[i]) {
          if i > 0 { assert d[i] == tail[i - 1]; }
        }
      }
    } else if d != [] && e.0 in Ops(d) {
      forall i | 1 <= i < |d| ensures d[i].0 != e.0 {
        assert d[0].0 != d[i].0;
      }
    }
  }

  /** `resolved = {}` followed by `resolved.update(x)` for each x of `t` in order. */
  function Merge(t: seq<Entry>): seq<Entry>
    decreases |t|
  {
    if t == [] then [] else Update(Merge(t[..|t| - 1]), t[|t| - 1])
  }

  /** Merging one-key dicts with distinct keys yields exactly those items, in order. */
  lemma {:induction false} MergeDistinct(t: seq<Entry>)
    requires DistinctOps(t)
    ensures Merge(t) == t
    decreases |t|
  {
    if t != [] {
      var n := |t| - 1;
      assert DistinctOps(t[..n]);
      MergeDistinct(t[..n]);
      assert t[n].0 !in Ops(t[..n]) by {
        forall i | 0 <= i < n ensures Ops(t[..n])[i] != t[n].0 {
          assert t[..n][i] == t[i];
        }
      }
      assert t[..n] + [t[n]] == t;
    }
  }

  // ---------------------------------------------------------------------------
  // Validation (PipelineDescription._validate)

  /** The first name of `params` outside `valid`, in insertion order. */
  function FirstInvalidName(valid: set<string>, params: Params): (r: Option<string>)
    ensures r.None? <==> forall j :: 0 <= j < |params| ==> params[j].0 in valid
    ensures r.Some? ==> r.value !in valid
    ensures r.Some? ==> exists j :: 0 <= j < |params| && params[j].0 == r.value
                                    && forall k :: 0 <= k < j ==> params[k].0 in valid
    decreases |params|
  {
    if params == [] then None
    else if params[0].0 !in valid then Some(params[0].0)
    else
      var r := FirstInvalidName(valid, params[1..]);
      assert forall j :: 0 <= j < |params[1..]| ==> params[1..][j] == params[j + 1];
      r
  }

  /**
   * The checks of `_validate`, in its order: operations in insertion order, an
   * operation whose accepted-name set is empty is skipped, and the first name
   * not accepted is reported.
   */
  function Validate(validParams: Op -> set<string>, entries: seq<Entry>): Option<ValidationError>
    decreases |entries|
  {
    if entries == [] then None
    else
      var (op, params) := entries[0];
      if validParams(op) == {} then Validate(validParams, entries[1..])
      else match FirstInvalidName(validParams(op), params)
        case Some(name) => Some(InvalidParameter(op, name))
        case None => Validate(validParams, entries[1..])
  }

  /** Every parameter name is accepted by its operation, unless that operation's accepted set is empty. */
  ghost predicate NamesAccepted(validParams: Op -> set<string>, entries: seq<Entry>)
  {
    forall i, j :: 0 <= i < |entries| && 0 <= j < |entries[i].1| ==>
      validParams(entries[i].0) == {} || entries[i].1[j].0 in validParams(entries[i].0)
  }

  /**
   * Validation fails exactly when some operation with a non-empty accepted set
   * is given a name outside it; the error names the first such operation and
   * parameter, and every operation before it passes.
   */
  lemma {:induction false} ValidateCorrect(validParams: Op -> set<string>, entries: seq<Entry>)
    ensures Validate(validParams, entries).None? <==> NamesAccepted(validParams, entries)
    ensures Validate(validParams, entries).Some? ==>
      var e := Validate(validParams, entries).value;
      validParams(e.op) != {} && e.name !in validParams(e.op) &&
      exists i, j :: 0 <= i < |entries| && 0 <= j < |entries[i].1| &&
        entries[i].0 == e.op && entries[i].1[j].0 == e.name &&
        NamesAccepted(validParams, entries[..i])
    decreases |entries|
  {
    if entries != [] {
      var (op, params) := entries[0];
      var tail := entries[1..];
      ValidateCorrect(validParams, tail);
      assert forall i :: 0 <= i < |tail| ==> tail[i] == entries[i + 1];
      assert NamesAccepted(validParams, entries[..0]);
      if validParams(op) == {} || FirstInvalidName(validParams(op), params).None? {
        assert NamesAccepted(validParams, entries) <==> NamesAccepted(validParams, tail) by {
          if NamesAccepted(validParams, tail) {
            forall i, j | 0 <= i < |entries| && 0 <= j < |entries[i].1|
              ensures validParams(entries[i].0) == {} || entries[i].1[j].0 in validParams(entries[i].0)
            {
              if i > 0 { assert entries[i] == tail[i - 1]; }
            }
          }
        }
        if Validate(validParams, entries).Some? {
          var e := Validate(validParams, entries).value;
          var i, j :| 0 <= i < |tail| && 0 <= j < |tail[i].1| &&
            tail[i].0 == e.op && tail[i].1[j].0 == e.name && NamesAccepted(validParams, tail[..i]);
          assert entries[i + 1] == tail[i];
          var prefix := entries[..i + 1];
          assert NamesAccepted(validParams, prefix) by {
            forall i', j' | 0 <= i' < |prefix| && 0 <= j' < |prefix[i'].1|
              ensures validParams(prefix[i'].0) == {} || prefix[i'].1[j'].0 in validParams(prefix[i'].0)
            {
              if i' > 0 { assert prefix[i'] == tail[..i][i' - 1]; }
            }
          }
        }
      } else {
        var name := FirstInvalidName(validParams(op), params).value;
        var j :| 0 <= j < |params| && params[j].0 == name;
        assert entries[0].1[j].0 == name;
      }
    }
  }

  /**
   * The PipelineDescription constructor (`__post_init__` runs `_validate`):
   * it succeeds exactly when every name is accepted, and then holds the dict as given.
   */
  function NewDescription(validParams: Op -> set<string>, entries: seq<Entry>): (r: Result<PipelineDescription, ValidationError>)
    ensures r.Ok? <==> NamesAccepted(validParams, entries)
    ensures r.Ok? ==> r.value.entries == entries
    ensures r.Err? ==> r.error.name !in validParams(r.error.op) && r.error.op in Ops(entries)
  {
    ValidateCorrect(validParams, entries);
    match Validate(validParams, entries)
    case None => Ok(PipelineDescription(entries))
    case Some(e) =>
      assert e.op in Ops(entries) by {
        var i, j :| 0 <= i < |entries| && 0 <= j < |entries[i].1| && entries[i].0 == e.op && entries[i].1[j].0 == e.name;
        assert Ops(entries)[i] == e.op;
      }
      Err(e)
  }

  // ---------------------------------------------------------------------------
  // Execution (Preprocessor.process)

  /** The image obtained by calling each operation, in order, on the previous result. */
  function Run(apply: (Op, Image, Params) -> Image, image: Image, entries: seq<Entry>): Image
    decreases |entries|
  {
    if entries == [] then image
    else Run(apply, apply(entries[0].0, image, entries[0].1), entries[1..])
  }

  /** Running a pipeline is running its first part and then the rest on that output. */
  lemma {:induction false} RunAppend(apply: (Op, Image, Params) -> Image, image: Image, first: seq<Entry>, rest: seq<Entry>)
    ensures Run(apply, image, first + rest) == Run(apply, Run(apply, image, first), rest)
    decreases |first|
  {
    if first != [] {
      assert (first + rest)[1..] == first[1..] + rest;
      RunAppend(apply, apply(first[0].0, image, first[0].1), first[1..], rest);
    } else {
      assert first + rest == rest;
    }
  }

  /** A Preprocessor wraps one resolved description. */
  datatype Preprocessor = Preprocessor(description: PipelineDescription) {

    /**
     * Preprocessor.process: starts from the caller's image (a value, so the
     * caller's copy is never touched) and feeds each operation's output to the
     * next one, in the description's insertion order.
     */
    method Process(apply: (Op, Image, Params) -> Image, image: Image) returns (r: Image)
      ensures r == Run(apply, image, description.entries)
    {
      var entries := description.entries;
      r := image;
      var i := 0;
      while i < |entries|
        invariant 0 <= i <= |entries|
        invariant Run(apply, r, entries[i..]) == Run(apply, image, entries)
      {
        assert entries[i..][1..] == entries[i + 1..];
        r := apply(entries[i].0, r, entries[i].1);
        i := i + 1;
      }
    }
  }
}

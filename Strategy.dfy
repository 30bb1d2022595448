/**
 * The grid-search strategy (class GridSearch in prepCV/auto_preprocessing.py):
 * run every competitor on the image, optionally pass the outputs through the
 * OCR engine, let the selector pick one, and return that competitor.
 */
module Strategy {
  import opened Wrappers
  import opened Pipelines
  import opened Selection

  /** Why GridSearch.search raises. */
  datatype SearchError =
    | NoWinner                         // `assert best_image_index` fails
    | SelectionFailed(error: SelectionError)  // the IndexError raised by the selector's key handler

  /** The competitors: every registered pipeline on a cold start, otherwise only the newly added ones. */
  function Competitors(pipelines: seq<Preprocessor>, newlyAdded: seq<Preprocessor>, coldStart: bool): seq<Preprocessor>
  {
    if coldStart then pipelines else newlyAdded
  }

  /**
   * The competing images: each competitor's output on `image`, in competitor
   * order, mapped through the OCR engine's `process` when an engine is given.
   */
  function CompetingImages(apply: (Op, Image, Params) -> Image, ocr: Option<Image -> Image>,
                           competitors: seq<Preprocessor>, image: Image): (r: seq<Image>)
    ensures |r| == |competitors|
    ensures forall i :: 0 <= i < |competitors| ==>
              r[i] == (var out := Run(apply, image, competitors[i].description.entries);
                       if ocr.Some? then ocr.value(out) else out)
  {
    var outputs := seq(|competitors|, i requires 0 <= i < |competitors| =>
                         Run(apply, image, competitors[i].description.entries));
    match ocr
    case None => outputs
    case Some(engine) => seq(|outputs|, i requires 0 <= i < |outputs| => engine(outputs[i]))
  }

  /**
   * GridSearch.search as written: `assert best_image_index` rejects None and
   * also index 0, so the first competitor can never win.
   */
  function GridSearch(apply: (Op, Image, Params) -> Image, ocr: Option<Image -> Image>,
                      competitors: seq<Preprocessor>, image: Image, events: seq<Event>): Result<Preprocessor, SearchError>
  {
    var images := CompetingImages(apply, ocr, competitors, image);
    SelectResult(|images|, DefaultBatchSize, events);
    match Select(|images|, DefaultBatchSize, events).outcome
    case Err(e) => Err(SelectionFailed(e))
    case Ok(None) => Err(NoWinner)
    case Ok(Some(i)) => if i == 0 then Err(NoWinner) else Ok(competitors[i])
  }

  /**
   * The discrepancy in GridSearch.search as written: when the selector picks
   * the first competitor the search fails, so with a single competitor (which
   * the selector returns as 0 without asking) the search always fails.
   */
  lemma FirstCompetitorRejected(apply: (Op, Image, Params) -> Image, ocr: Option<Image -> Image>,
                                competitors: seq<Preprocessor>, image: Image, events: seq<Event>)
    ensures Select(|competitors|, DefaultBatchSize, events).outcome == Ok(Some(0)) ==>
              GridSearch(apply, ocr, competitors, image, events) == Err(NoWinner)
    ensures |competitors| <= 1 ==> GridSearch(apply, ocr, competitors, image, events) == Err(NoWinner)
  {
    SelectResult(|competitors|, DefaultBatchSize, events);
  }

  /** GridSearch.search as intended (`assert best_image_index is not None`). */
  function GridSearchCorrected(apply: (Op, Image, Params) -> Image, ocr: Option<Image -> Image>,
                               competitors: seq<Preprocessor>, image: Image, events: seq<Event>): Result<Preprocessor, SearchError>
  {
    var images := CompetingImages(apply, ocr, competitors, image);
    SelectResult(|images|, DefaultBatchSize, events);
    match Select(|images|, DefaultBatchSize, events).outcome
    case Err(e) => Err(SelectionFailed(e))
    case Ok(None) => Err(NoWinner)
    case Ok(Some(i)) => Ok(competitors[i])
  }

  /**
   * The corrected search succeeds exactly when the selector picks an index,
   * and returns the competitor at that index; no competitor is an error and a
   * single competitor wins without a window.
   */
  lemma GridSearchCorrectedResult(apply: (Op, Image, Params) -> Image, ocr: Option<Image -> Image>,
                                  competitors: seq<Preprocessor>, image: Image, events: seq<Event>)
    ensures var r := GridSearchCorrected(apply, ocr, competitors, image, events);
      && (r.Ok? <==> exists i :: Select(|competitors|, DefaultBatchSize, events).outcome == Ok(Some(i)))
      && (r.Ok? ==> exists i :: 0 <= i < |competitors| && r.value == competitors[i]
                                 && Select(|competitors|, DefaultBatchSize, events).outcome == Ok(Some(i)))
      && (|competitors| == 0 ==> r == Err(NoWinner))
      && (|competitors| == 1 ==> r == Ok(competitors[0]))
  {
    SelectResult(|competitors|, DefaultBatchSize, events);
  }

  /** Wherever the search as written succeeds, the corrected search returns the same competitor. */
  lemma CorrectedAgrees(apply: (Op, Image, Params) -> Image, ocr: Option<Image -> Image>,
                        competitors: seq<Preprocessor>, image: Image, events: seq<Event>)
    ensures GridSearch(apply, ocr, competitors, image, events).Ok? ==>
              GridSearchCorrected(apply, ocr, competitors, image, events) == GridSearch(apply, ocr, competitors, image, events)
    ensures GridSearchCorrected(apply, ocr, competitors, image, events).Ok? &&
            GridSearch(apply, ocr, competitors, image, events).Err? ==>
              GridSearchCorrected(apply, ocr, competitors, image, events) == Ok(competitors[0])
  {
    SelectResult(|competitors|, DefaultBatchSize, events);
  }
}

# prepCV automatic preprocessing, modelled in Dafny

prepCV searches for a good image-preprocessing pipeline for OCR. Its core is
`prepCV/auto_preprocessing.py`, and this project models that file:

- A `PipelineDescription` maps operations to keyword-argument dicts whose
  values may be lists of candidates. Building one validates the argument
  names.
- `PipelineManager` expands each description into one single-valued
  description per combination of candidates. It registers one
  `Preprocessor` per resolved description and caches the winner of a search.
  `get_best_preprocessor` drops the cached winner as stale when pipelines were
  added since the last search.
- `GridSearch` runs every competitor on an image, optionally passes the
  outputs through an OCR engine, and lets the user pick the best one.
- `ImageSelector` shows the candidates in batches. The best image so far is
  carried into the first slot of every later batch. A key press picks the
  new best.

Modules:

- `Pipelines` holds descriptions, `dict.update`, validation and
  `Preprocessor.process`.
- `Expansion` holds `itertools.product` and `_resolve_complex_descriptions` as
  values, with their properties.
- `Selection` holds the selector. The `ImageSelector` class is proved against
  the functions `NextBatch`, `Window`, `Rounds` and `Select`.
- `Strategy` holds `GridSearch.search`, both as written and corrected.
- `Registry` holds the `PipelineManager` class.

Operations, images and argument values are opaque types. The helpers the file
imports but does not define are parameters, bundled in `Pipelines.Library`:

- `utils.get_cv2_function_params` becomes `validParams`.
- `utils.parameter_combinations` becomes `combos`.
- Calling an operation becomes `apply`.

The OCR engine's `process` is an optional function. The keyboard is a
sequence of events. Each event is a key or the window being shut.

## Model

| member | source | states |
|---|---|---|
| Pipelines.Update | prepCV/auto_preprocessing.py:117 | `dict.update` with a one-key dict: a new key goes last with its value; an existing key keeps the same keys in the same order and holds the new entry (the other entries: UpdateExisting) |
| Pipelines.UpdateExisting | prepCV/auto_preprocessing.py:117 | in a dict (distinct keys), updating a present key keeps the length, puts the new entry in that key's place and leaves every other entry unchanged |
| Pipelines.MergeDistinct | prepCV/auto_preprocessing.py:115-117 | merging a tuple of one-key dicts with distinct keys into `{}` yields exactly those items, in tuple order |
| Pipelines.FirstInvalidName | prepCV/auto_preprocessing.py:74-78 | the first parameter name, in insertion order, outside the accepted set; None exactly when every name is accepted |
| Pipelines.ValidateCorrect | prepCV/auto_preprocessing.py:62-78 | validation fails exactly when some operation with a non-empty accepted set has a name outside it; an operation with an empty set is skipped; the error names such an operation and name, and every operation before it passes |
| Pipelines.NewDescription | prepCV/auto_preprocessing.py:59-78 | constructing a description succeeds exactly when every name is accepted, and keeps the dict as given; a failure names an operation of the dict and a name it does not accept |
| Pipelines.RunAppend | prepCV/auto_preprocessing.py:32-36 | running a pipeline equals running its first part and then the rest on that output: process is a left fold in insertion order |
| Pipelines.Preprocessor.Process | prepCV/auto_preprocessing.py:32-36 | the loop returns the left fold of the operations over the input image, in the description's order; the input is a value and is not changed |
| Expansion.Extend | prepCV/auto_preprocessing.py:114 | one step of `itertools.product`: every tuple extended by every element of the next pool, as many tuples as the product of the two lengths |
| Expansion.ExtendMember | prepCV/auto_preprocessing.py:114 | a tuple is in one product step exactly when it is a tuple of the earlier product extended by an element of the new pool |
| Expansion.Product | prepCV/auto_preprocessing.py:114 | `itertools.product` yields the product of the pool sizes many tuples |
| Expansion.ProductMember | prepCV/auto_preprocessing.py:114 | the product holds exactly the tuples that choose one element from each pool, in pool order |
| Expansion.ProductAt | prepCV/auto_preprocessing.py:114 | product order: with m elements in the last pool, position i * m + j holds tuple i of the other pools followed by element j of the last pool |
| Expansion.DescribeAllSpec | prepCV/auto_preprocessing.py:118 | describing the resolved dicts succeeds exactly when every one passes validation, and then gives one description per dict, in order; a failure is the error of some dict, and every dict before it passes |
| Expansion.DescribedStep | prepCV/auto_preprocessing.py:118 | a resolved dict that passes validation extends the list of descriptions built so far by its own description |
| Expansion.DescribedAll | prepCV/auto_preprocessing.py:118-120 | once every resolved dict has been described, the returned list is exactly those descriptions |
| Expansion.DescribedFirstError | prepCV/auto_preprocessing.py:118 | the error raised is that of the first resolved dict that fails validation |
| Expansion.ResolutionCount | prepCV/auto_preprocessing.py:105-120 | the number of resolved dicts is the product over operations of the number of combinations of their parameters; an empty description resolves to exactly one empty dict |
| Expansion.ResolutionEmpty | prepCV/auto_preprocessing.py:108-114 | an operation with no combination leaves nothing to resolve |
| Expansion.ChoiceResolved | prepCV/auto_preprocessing.py:108-112 | a product tuple of the tagged combination lists is a dict with the description's operations in order, each with one of its combinations, and conversely |
| Expansion.ResolutionsAt | prepCV/auto_preprocessing.py:114-118 | with distinct operations (a dict's keys), merging a product tuple leaves it unchanged |
| Expansion.ResolutionsAreProduct | prepCV/auto_preprocessing.py:114-118 | with distinct operations the resolved dicts are exactly the product tuples, in product order |
| Expansion.ResolutionMember | prepCV/auto_preprocessing.py:105-120 | a dict is resolved exactly when it has the description's operations, in the description's key order, each mapped to one of its combinations |
| Expansion.ResolutionOrder | prepCV/auto_preprocessing.py:114-118 | product order: the resolved dicts are those of all operations but the last, each followed by the last operation with each of its combinations in turn |
| Registry.PipelineManager.ResolveComplexDescriptions | prepCV/auto_preprocessing.py:99-120 | the loops return the resolution as a value: one validated description per combination in product order, or the first validation error |
| Registry.PipelineManager.ParamCombinations | prepCV/auto_preprocessing.py:108-112 | the loop builds one list of tagged combinations per operation, in the description's order |
| Registry.MergeTuple | prepCV/auto_preprocessing.py:115-117 | the `update` loop builds the merge of the tuple's one-key dicts |
| Registry.PipelineManager.AddPipeline | prepCV/auto_preprocessing.py:123-126 | appends exactly the resolved descriptions, wrapped, in resolution order, to both lists; earlier entries and the cached winner stay; a validation error changes nothing |
| Registry.PipelineManager.Register | prepCV/auto_preprocessing.py:124-126 | the append loop: both lists grow by one Preprocessor per description, in order, and the newly added list stays the tail of the registered list |
| Registry.PipelineManager.RunSearch | prepCV/auto_preprocessing.py:129-144 | a name other than "GridSearch" raises and changes nothing; otherwise the search's winner becomes the cached best and the newly added list is emptied, and a search that raises changes nothing; the registered list never changes |
| Registry.PipelineManager.GetBestPreprocessor | prepCV/auto_preprocessing.py:147-151 | with newly added pipelines the cached winner is dropped and None returned; otherwise the cached winner is returned unchanged; neither list changes |
| Registry.SuffixKept | prepCV/auto_preprocessing.py:125-126 | appending the same items to both lists keeps the newly added list the tail of the registered list |
| Registry.StaleWinnerScenario | prepCV/auto_preprocessing.py:123-151 | after a search, adding a description that resolves to at least one pipeline makes get_best_preprocessor return None |
| Strategy.CompetingImages | prepCV/auto_preprocessing.py:177-180 | one competing image per competitor, in competitor order: item i is competitor i's pipeline run on the image, passed through the OCR engine when one is given |
| Strategy.FirstCompetitorRejected | prepCV/auto_preprocessing.py:182-184 | as written, picking the first competitor makes the search fail, so one competitor (or none) always fails |
| Strategy.GridSearchCorrectedResult | prepCV/auto_preprocessing.py:171-184 | the corrected search succeeds exactly when the selector returns an index, and returns the competitor at that index; no competitor is an error; a single competitor wins without a window |
| Strategy.CorrectedAgrees | prepCV/auto_preprocessing.py:182-184 | wherever the search as written succeeds, the corrected search returns the same competitor; they differ only when the first competitor wins |
| Selection.Range | prepCV/auto_preprocessing.py:223 | `list(range(n))` holds 0 … n - 1 in order |
| Selection.SplitAt | prepCV/auto_preprocessing.py:250-253 | slicing at k: the two parts make up the list, and the front has k items (all of them when fewer) |
| Selection.DigitKey | prepCV/auto_preprocessing.py:295-296 | a digit key names a digit from 1 to 9 |
| Selection.DigitKeys | prepCV/auto_preprocessing.py:295-305 | the digit keys are exactly "1" … "9", each naming its own digit; the closing key is "c" or "C" |
| Selection.OnKeyReaction | prepCV/auto_preprocessing.py:295-305 | a picked index is always an index of the batch on screen |
| Selection.NextBatchSpec | prepCV/auto_preprocessing.py:248-253 | the batch has at most b indices and carries the best in its first slot; the rest comes from the front of the pool and the new pool is what follows; with b >= 2 the pool shrinks every round |
| Selection.WindowSpec | prepCV/auto_preprocessing.py:287-305 | a window consumes at least one event unless none is left; the best it leaves is the earlier best or an index of its batch |
| Selection.RoundsStep | prepCV/auto_preprocessing.py:235-237 | one pass of the while loop: the batch drawn, its window, and the passes after it |
| Selection.ShownAfterWindow | prepCV/auto_preprocessing.py:235-237 | after a window that closed without error, the batches shown so far plus the remaining passes are those of the whole loop, with the same outcome |
| Selection.ShownAfterError | prepCV/auto_preprocessing.py:284-301 | an IndexError in a window ends the selection with that batch as the last one |
| Selection.RoundsInRange | prepCV/auto_preprocessing.py:223-240 | every index shown and every index returned is below the number of images |
| Selection.SelectResult | prepCV/auto_preprocessing.py:222-240 | no image gives None and one image gives 0, both without a batch; otherwise the result is None or an index of the images, and so is every index shown |
| Selection.RoundsCover | prepCV/auto_preprocessing.py:235-253 | when the selection ends without error, every index of the pool was shown in some batch |
| Selection.MaxWindowsMonotonic | prepCV/auto_preprocessing.py:248-253 | more indices never need fewer windows |
| Selection.MaxWindowsCarried | prepCV/auto_preprocessing.py:248-253 | a round that carries a best retires b - 1 indices instead of b, so it never needs fewer windows |
| Selection.RoundsBound | prepCV/auto_preprocessing.py:235-253 | with p indices left, the loop opens at most MaxWindows(p) windows, whatever the user presses |
| Selection.MaxWindowsCeil | prepCV/auto_preprocessing.py:248-250 | with a best carried, MaxWindows(p) is ceil(p / (b - 1)) |
| Selection.MaxWindowsFresh | prepCV/auto_preprocessing.py:251-253 | with no best yet and p >= 2, MaxWindows(p) is ceil((p - 1) / (b - 1)) |
| Selection.SelectBound | prepCV/auto_preprocessing.py:222-240 | with n >= 2 images and b >= 2 the selector opens at most ceil((n - 1) / (b - 1)) windows |
| Selection.ImageSelector.SelectBestImage | prepCV/auto_preprocessing.py:222-240 | resets the state; returns the outcome of Select and shows exactly its batches; on success the selector's best is the returned index |
| Selection.ImageSelector.Compete | prepCV/auto_preprocessing.py:235-240 | the while loop returns the outcome of Rounds on the initial pool and best, and shows exactly its batches; on success the pool is empty and the best is the returned index |
| Selection.ImageSelector.ShowNextBatch | prepCV/auto_preprocessing.py:243-288 | draws the batch of NextBatch, delivers events until the window closes as Window says, and advances the loop by one pass of Rounds |
| Selection.ImageSelector.DrawBatch | prepCV/auto_preprocessing.py:248-253 | the new batch and pool are those of NextBatch |
| Selection.ImageSelector.ShowWindow | prepCV/auto_preprocessing.py:287-288 | the best and the events left after the window are those of Window |
| Selection.ImageSelector.OnKey | prepCV/auto_preprocessing.py:295-305 | a digit naming a slot of the batch sets the best to that index and closes the window; a digit beyond the batch raises; 'c' or 'C' closes; any other key leaves everything as it was |

## Left out

- Rendering is not modelled. This covers `_set_figure_and_axs`, `_create_subplots`, imshow, borders and the BGR-to-RGB conversion. A window is the events it consumes.
- The matplotlib event loop is a sequence of events. When the sequence runs out, the window counts as shut by the user.
- A window that is shut without a key keeps the best and moves on to the next batch.
- A key given as None has no `lower()` and would raise. Keys are modelled as strings only.
- An IndexError raised by `_on_key` (a digit beyond the batch) ends the selection with an error. Matplotlib may only print a callback error and keep the window open; that is not modelled.
- With batches of more than 9 images, `_create_subplots`'s grid may fail. This is rendering and is not modelled.
- Selection.Rounds: needs a batch size of at least 2 whenever there are two or more images. With a batch size of 1 and no best, each round removes one index. Once a best exists, each round removes none, so the source loops forever.
- The OpenCV operations, the OCR engine and numpy copies are opaque values. Value semantics stands in for `np_image.copy()`.
- `utils.get_cv2_function_params` and `utils.parameter_combinations` are given functions. Their internals are not part of this model.
- An exception raised inside an operation or the OCR engine is not modelled.
- Printed warnings and messages are left out. `main()`, its helpers, tasks.py and setup.py are left out too.
- `PipelineManager` and `ImageSelector` keep their state in class attributes. Here each is one object.
- Object identity is not modelled. The source appends two distinct Preprocessor objects wrapping the same description, one to `pipelines` and one to `newly_added`. Here a Preprocessor is a value.
- Registry.PipelineManager.RunSearch: uses the corrected search. The search as written is kept and compared in `Strategy`; see Findings.
- In the source, a description has each operation once (dict keys). The model allows repeats. The lemmas that rely on distinct operations say so in their requires.

## Findings

| source | as written | input that shows it | evidently intended | confidence | as-written member | corrected member |
|---|---|---|---|---|---|---|
| prepCV/auto_preprocessing.py:183 | `assert best_image_index` rejects index 0 as well as None | one competitor: the selector returns 0 without a window, and the search fails; with more competitors, picking the first one as best also fails | `assert best_image_index is not None` | high; not executed | Strategy.FirstCompetitorRejected | Strategy.GridSearchCorrectedResult |

Where the code behaves differently from what its names or docstrings suggest,
the model follows the code:

- 'c' or 'C' closes only the current window. The loop goes on with the next
  batch; it does not cancel the search.
- A search over no competitor fails because the selector returns None
  (`NoWinner`). The code has no separate error for it.
- An operation that raises is not excluded from the ranking. The exception
  propagates, and the model leaves it out.
- A search that raises stops before line 144, so `newly_added` is kept and the
  cached winner is unchanged.
- A digit beyond the batch raises an IndexError in `_on_key`
  (`KeyIndexError`).

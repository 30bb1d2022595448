/**
 * The interactive batch-elimination selector (class ImageSelector in
 * prepCV/auto_preprocessing.py), index logic only.
 *
 * The keyboard is a stream of events delivered to `_on_key` while a batch is
 * on screen. A window closes on a digit naming a slot of the batch, on 'c' or
 * 'C', or when the user shuts it; other keys leave it open. A key that the
 * plotting backend itself binds to closing the figure (matplotlib's default
 * 'q' or 'ctrl+w') appears in the stream as `WindowClosed`. When the stream
 * runs out the window is taken to be shut by the user.
 */
module Selection {
  import opened Wrappers
  import opened Pipelines

  /** A key press (matplotlib's `event.key`), or the window being shut without a key. */
  datatype Event = Key(key: string) | WindowClosed

  /** The IndexError raised in `_on_key` by a digit beyond the batch. */
  datatype SelectionError = KeyIndexError(key: string)

  /** The batch size GridSearch uses (the default of select_best_image). */
  const DefaultBatchSize: nat := 4

  /** `list(range(n))`. */
  function Range(n: nat): (r: seq<nat>)
    ensures |r| == n && forall i :: 0 <= i < n ==> r[i] == i
  {
    seq(n, i requires 0 <= i < n => i)
  }

  /** `(s[:k], s[k:])` for k >= 0: the front k items (all of them when fewer) and the rest. */
  function SplitAt(s: seq<nat>, k: nat): (r: (seq<nat>, seq<nat>))
    ensures r.0 + r.1 == s
    ensures |r.0| == if k <= |s| then k else |s|
  {
    if k <= |s| then
      assert s[..k] + s[k..] == s;
      (s[..k], s[k..])
    else
      assert s + [] == s;
      (s, [])
  }

  /** The digit a key names when it is one of "1" … "9". */
  function DigitKey(key: string): (r: Option<nat>)
    ensures r.Some? ==> 1 <= r.value <= 9
  {
    if |key| == 1 && '1' <= key[0] <= '9' then Some(key[0] as int - '0' as int) else None
  }

  /** The keys DigitKey accepts are exactly the nine of `_on_key`'s list, and each names its own digit. */
  lemma DigitKeys(key: string)
    ensures DigitKey(key).Some? <==> key in ["1", "2", "3", "4", "5", "6", "7", "8", "9"]
    ensures DigitKey(key).Some? ==> key == [('0' as int + DigitKey(key).value) as char]
    ensures CloseKey(key) <==> key == "c" || key == "C"
  {
    if |key| == 1 {
      assert key == [key[0]];
    }
  }

  /** What `_on_key` does with one key, given the batch on screen. */
  datatype Reaction = Pick(index: nat) | Dismiss | Ignore | Fail(error: SelectionError)

  function OnKeyReaction(batch: seq<nat>, key: string): (r: Reaction)
    ensures r.Pick? ==> r.index in batch
  {
    match DigitKey(key)
    case Some(d) => if d - 1 < |batch| then Pick(batch[d - 1]) else Fail(KeyIndexError(key))
    case None => if CloseKey(key) then Dismiss else Ignore
  }

  /** `event.key.lower() == "c"`. */
  predicate CloseKey(key: string)
  {
    |key| == 1 && (key[0] == 'c' || key[0] == 'C')
  }

  /** The best index after a window closes (or the error), and the events left for later windows. */
  datatype WindowResult = WindowResult(best: Result<Option<nat>, SelectionError>, rest: seq<Event>)

  /** One `plt.show(block=True)`: events go to `_on_key` until one closes the window. */
  function Window(batch: seq<nat>, best: Option<nat>, events: seq<Event>): WindowResult
    decreases |events|
  {
    if events == [] then WindowResult(Ok(best), [])
    else match events[0]
      case WindowClosed => WindowResult(Ok(best), events[1..])
      case Key(k) =>
        match OnKeyReaction(batch, k)
        case Pick(i) => WindowResult(Ok(Some(i)), events[1..])
        case Dismiss => WindowResult(Ok(best), events[1..])
        case Ignore => Window(batch, best, events[1..])
        case Fail(e) => WindowResult(Err(e), events[1..])
  }

  /** The indices a batch draws from the pool: all of it but the carried best. */
  function Drawn(batch: seq<nat>, best: Option<nat>): seq<nat>
  {
    if best.Some? && batch != [] then batch[1..] else batch
  }

  /**
   * The batch of `_show_next_batch` and the pool it leaves: the reigning best
   * is carried in the first slot, the rest are taken from the front of the
   * pool, and the batch never exceeds the batch size.
   */
  function NextBatch(pool: seq<nat>, best: Option<nat>, b: nat): (seq<nat>, seq<nat>)
    requires b >= 1
  {
    if best.Some? then
      var (drawn, rest) := SplitAt(pool, b - 1);
      ([best.value] + drawn, rest)
    else
      SplitAt(pool, b)
  }

  /**
   * The batch never exceeds the batch size and carries the best in its first
   * slot; the rest of it is taken from the front of the pool and the new pool
   * is what follows, so with b >= 2 every round shrinks the pool.
   */
  lemma NextBatchSpec(pool: seq<nat>, best: Option<nat>, b: nat)
    requires b >= 1
    ensures var (batch, rest) := NextBatch(pool, best, b);
      && |batch| <= b
      && (best.Some? ==> batch != [] && batch[0] == best.value)
      && Drawn(batch, best) + rest == pool
      && (pool != [] && b >= 2 ==> |rest| < |pool|)
      && (rest != [] ==> |rest| == |pool| - (if best.Some? then b - 1 else b))
  {
    if best.Some? {
      var (drawn, rest) := SplitAt(pool, b - 1);
      assert ([best.value] + drawn)[1..] == drawn;
    }
  }

  /**
   * A window consumes at least one event unless none is left, and the best
   * it leaves is the one before it or an index of its batch.
   */
  lemma {:induction false} WindowSpec(batch: seq<nat>, best: Option<nat>, events: seq<Event>)
    ensures var w := Window(batch, best, events);
      && (|w.rest| < |events| || (events == [] && w.rest == []))
      && (w.best.Ok? && w.best.value.Some? ==> w.best.value == best || w.best.value.value in batch)
    decreases |events|
  {
    if events != [] && events[0].Key? && OnKeyReaction(batch, events[0].key).Ignore? {
      WindowSpec(batch, best, events[1..]);
    }
  }

  /** The selector's state after a window closed with `w`: the new best (kept on an error) and the events left. */
  ghost predicate WindowClosedAs(w: WindowResult, before: Option<nat>, best: Option<nat>, events: seq<Event>, err: Option<SelectionError>)
  {
    events == w.rest &&
    match w.best
    case Ok(next) => err == None && best == next
    case Err(e) => err == Some(e) && best == before
  }

  /** The batches shown, and how the selection ended. */
  datatype Session = Session(batches: seq<seq<nat>>, outcome: Result<Option<nat>, SelectionError>)

  /** The `while` loop of select_best_image: one window per batch until the pool is empty. */
  function Rounds(pool: seq<nat>, best: Option<nat>, b: nat, events: seq<Event>): Session
    requires b >= 2
    decreases |pool|
  {
    if pool == [] then Session([], Ok(best))
    else
      var (batch, rest) := NextBatch(pool, best, b);
      NextBatchSpec(pool, best, b);
      var w := Window(batch, best, events);
      match w.best
      case Err(e) => Session([batch], Err(e))
      case Ok(next) =>
        var s := Rounds(rest, next, b, w.rest);
        Session([batch] + s.batches, s.outcome)
  }

  /** One round of Rounds, unfolded: the batch drawn, its window, and the rounds after it. */
  lemma RoundsStep(pool: seq<nat>, best: Option<nat>, b: nat, events: seq<Event>, batch: seq<nat>, rest: seq<nat>, w: WindowResult)
    requires b >= 2 && pool != []
    requires (batch, rest) == NextBatch(pool, best, b) && w == Window(batch, best, events)
    ensures w.best.Err? ==> Rounds(pool, best, b, events) == Session([batch], Err(w.best.error))
    ensures w.best.Ok? ==>
      Rounds(pool, best, b, events).batches == [batch] + Rounds(rest, w.best.value, b, w.rest).batches &&
      Rounds(pool, best, b, events).outcome == Rounds(rest, w.best.value, b, w.rest).outcome
  {
  }

  /** The batches shown and the outcome after a window that closed without error, as `_show_next_batch` leaves them. */
  lemma ShownAfterWindow(shown: seq<seq<nat>>, pool: seq<nat>, best: Option<nat>, b: nat, events: seq<Event>,
                         batch: seq<nat>, rest: seq<nat>, best': Option<nat>, events': seq<Event>)
    requires b >= 2 && pool != []
    requires (batch, rest) == NextBatch(pool, best, b)
    requires Window(batch, best, events) == WindowResult(Ok(best'), events')
    ensures (shown + [batch]) + Rounds(rest, best', b, events').batches == shown + Rounds(pool, best, b, events).batches
    ensures Rounds(rest, best', b, events').outcome == Rounds(pool, best, b, events).outcome
  {
    RoundsStep(pool, best, b, events, batch, rest, Window(batch, best, events));
    var later := Rounds(rest, best', b, events').batches;
    assert (shown + [batch]) + later == shown + ([batch] + later);
  }

  /** After a window that ended in an error the selection is over: its batch was the last. */
  lemma ShownAfterError(pool: seq<nat>, best: Option<nat>, b: nat, events: seq<Event>, batch: seq<nat>, rest: seq<nat>, e: SelectionError)
    requires b >= 2 && pool != []
    requires (batch, rest) == NextBatch(pool, best, b)
    requires Window(batch, best, events).best == Err(e)
    ensures Rounds(pool, best, b, events) == Session([batch], Err(e))
  {
    RoundsStep(pool, best, b, events, batch, rest, Window(batch, best, events));
  }

  /** select_best_image on `n` images: no image gives None, one gives 0 without a window. */
  function Select(n: nat, b: nat, events: seq<Event>): Session
    requires n <= 1 || b >= 2
  {
    if n == 0 then Session([], Ok(None))
    else if n == 1 then Session([], Ok(Some(0)))
    else Rounds(Range(n), None, b, events)
  }

  // ---------------------------------------------------------------------------
  // Properties of the selection

  /** Indices below n stay below n: every batch shown and the result index the images. */
  lemma {:induction false} RoundsInRange(pool: seq<nat>, best: Option<nat>, b: nat, events: seq<Event>, n: nat)
    requires b >= 2
    requires forall x :: x in pool ==> x < n
    requires best.Some? ==> best.value < n
    ensures var s := Rounds(pool, best, b, events);
      (forall k, x :: 0 <= k < |s.batches| && x in s.batches[k] ==> x < n) &&
      (s.outcome.Ok? && s.outcome.value.Some? ==> s.outcome.value.value < n)
    decreases |pool|
  {
    if pool != [] {
      var (batch, rest) := NextBatch(pool, best, b);
      NextBatchSpec(pool, best, b);
      assert forall x :: x in batch ==> x < n by {
        forall x | x in batch ensures x < n {
          if best.Some? && x == batch[0] {
          } else {
            assert x in Drawn(batch, best);
            assert x in pool;
          }
        }
      }
      var w := Window(batch, best, events);
      WindowSpec(batch, best, events);
      assert forall x :: x in rest ==> x in pool by {
        assert Drawn(batch, best) + rest == pool;
      }
      if w.best.Ok? {
        RoundsInRange(rest, w.best.value, b, w.rest, n);
      }
    }
  }

  /**
   * select_best_image's results: with no image it returns None and with one it
   * returns 0, both without showing a batch; otherwise any index it returns is
   * an index of the images, and so is every index it shows.
   */
  lemma SelectResult(n: nat, b: nat, events: seq<Event>)
    requires n <= 1 || b >= 2
    ensures n == 0 ==> Select(n, b, events) == Session([], Ok(None))
    ensures n == 1 ==> Select(n, b, events) == Session([], Ok(Some(0)))
    ensures var s := Select(n, b, events);
      (forall k, x :: 0 <= k < |s.batches| && x in s.batches[k] ==> x < n) &&
      (s.outcome.Ok? && s.outcome.value.Some? ==> s.outcome.value.value < n)
  {
    if n >= 2 {
      RoundsInRange(Range(n), None, b, events, n);
    }
  }

  /**
   * Each index of the pool is shown in some batch when the selection ends
   * without error: every image takes part.
   */
  lemma RoundsCover(pool: seq<nat>, best: Option<nat>, b: nat, events: seq<Event>, x: nat)
    requires b >= 2 && x in pool
    requires Rounds(pool, best, b, events).outcome.Ok?
    ensures exists k :: 0 <= k < |Rounds(pool, best, b, events).batches| && x in Rounds(pool, best, b, events).batches[k]
  {
    var k := ShownAt(pool, best, b, events, x);
  }

  /** The batch that shows x, found by following the rounds. */
  lemma {:induction false} ShownAt(pool: seq<nat>, best: Option<nat>, b: nat, events: seq<Event>, x: nat) returns (k: nat)
    requires b >= 2 && x in pool
    requires Rounds(pool, best, b, events).outcome.Ok?
    ensures k < |Rounds(pool, best, b, events).batches| && x in Rounds(pool, best, b, events).batches[k]
    decreases |pool|
  {
    var (batch, rest) := NextBatch(pool, best, b);
    NextBatchSpec(pool, best, b);
    var w := Window(batch, best, events);
    RoundsStep(pool, best, b, events, batch, rest, w);
    var s := Rounds(pool, best, b, events);
    assert w.best.Ok?;
    var t := Rounds(rest, w.best.value, b, w.rest);
    assert s.batches == [batch] + t.batches;
    if x in Drawn(batch, best) {
      assert x in batch;
      k := 0;
    } else {
      assert x in rest;
      var j := ShownAt(rest, w.best.value, b, w.rest, x);
      k := j + 1;
      assert s.batches[k] == t.batches[j];
    }
  }

  /**
   * The most windows a pool of p indices can take: while no best is carried a
   * round retires b indices, once one is carried it retires b - 1.
   */
  function MaxWindows(p: nat, carried: bool, b: nat): nat
    requires b >= 2
    decreases p
  {
    var taken := if carried then b - 1 else b;
    if p == 0 then 0 else if p <= taken then 1 else 1 + MaxWindows(p - taken, true, b)
  }

  /** More indices never need fewer windows. */
  lemma {:induction false} MaxWindowsMonotonic(p: nat, q: nat, b: nat)
    requires b >= 2 && p <= q
    ensures MaxWindows(p, true, b) <= MaxWindows(q, true, b)
    decreases q
  {
    if p > b - 1 {
      MaxWindowsMonotonic(p - (b - 1), q - (b - 1), b);
    }
  }

  /** Carrying a best retires fewer indices a round, so it never needs fewer windows. */
  lemma MaxWindowsCarried(p: nat, b: nat)
    requires b >= 2
    ensures MaxWindows(p, false, b) <= MaxWindows(p, true, b)
  {
    if p > b {
      MaxWindowsMonotonic(p - b, p - (b - 1), b);
    }
  }

  /**
   * The number of windows: with p indices left the selector opens at most
   * MaxWindows(p) more windows, whether the user picks, dismisses or shuts a
   * window and whether it carries a best.
   */
  lemma {:induction false} RoundsBound(pool: seq<nat>, best: Option<nat>, b: nat, events: seq<Event>)
    requires b >= 2
    ensures |Rounds(pool, best, b, events).batches| <= MaxWindows(|pool|, best.Some?, b)
    decreases |pool|
  {
    if pool != [] {
      var (batch, rest) := NextBatch(pool, best, b);
      NextBatchSpec(pool, best, b);
      var w := Window(batch, best, events);
      RoundsStep(pool, best, b, events, batch, rest, w);
      if w.best.Ok? && rest != [] {
        var next := w.best.value;
        RoundsBound(rest, next, b, w.rest);
        if next.None? {
          MaxWindowsCarried(|rest|, b);
        }
      }
    }
  }

  /** With a best carried, MaxWindows(p) is ceil(p / (b - 1)). */
  lemma {:induction false} MaxWindowsCeil(p: nat, b: nat)
    requires b >= 2
    ensures (MaxWindows(p, true, b) - 1) * (b - 1) < p <= MaxWindows(p, true, b) * (b - 1)
    decreases p
  {
    if p > b - 1 {
      MaxWindowsCeil(p - (b - 1), b);
      var m := MaxWindows(p - (b - 1), true, b);
      assert MaxWindows(p, true, b) == m + 1;
      assert (m + 1) * (b - 1) == m * (b - 1) + (b - 1);
    }
  }

  /** With no best yet and p >= 2, MaxWindows(p) is ceil((p - 1) / (b - 1)). */
  lemma MaxWindowsFresh(p: nat, b: nat)
    requires b >= 2 && p >= 2
    ensures (MaxWindows(p, false, b) - 1) * (b - 1) < p - 1 <= MaxWindows(p, false, b) * (b - 1)
  {
    if p > b {
      MaxWindowsCeil(p - b, b);
      var m := MaxWindows(p - b, true, b);
      assert MaxWindows(p, false, b) == m + 1;
      assert (m + 1) * (b - 1) == m * (b - 1) + (b - 1);
    }
  }

  /**
   * For n >= 2 images the selector opens at most MaxWindows(n) windows, that
   * is ceil((n - 1) / (b - 1)): with the default batch of 4, ceil((n - 1) / 3).
   */
  lemma SelectBound(n: nat, b: nat, events: seq<Event>)
    requires n >= 2 && b >= 2
    ensures |Select(n, b, events).batches| <= MaxWindows(n, false, b)
  {
    RoundsBound(Range(n), None, b, events);
  }

  // ---------------------------------------------------------------------------
  // The selector object

  class ImageSelector {
    var images: seq<Image>
    var pool: seq<nat>
    var currentBatch: seq<nat>
    var best: Option<nat>
    var batchSize: nat
    /** Keyboard events not yet delivered. */
    var events: seq<Event>
    /** The batches shown so far. */
    ghost var shown: seq<seq<nat>>

    /** The class-level defaults. */
    constructor ()
      ensures images == [] && pool == [] && currentBatch == [] && best == None
      ensures batchSize == DefaultBatchSize && events == [] && shown == []
    {
      images, pool, currentBatch, best := [], [], [], None;
      batchSize, events, shown := DefaultBatchSize, [], [];
    }

    /**
     * select_best_image: resets the state, answers at once for zero or one
     * image, and otherwise shows batches until the pool is empty.
     */
    method SelectBestImage(imgs: seq<Image>, b: nat, input: seq<Event>) returns (r: Result<Option<nat>, SelectionError>)
      requires |imgs| <= 1 || b >= 2
      modifies this
      ensures r == Select(|imgs|, b, input).outcome
      ensures r.Ok? ==> best == r.value
      ensures shown == Select(|imgs|, b, input).batches
      ensures images == imgs && batchSize == b
    {
      images := imgs;
      pool := Range(|imgs|);
      best := None;
      batchSize := b;
      events := input;
      shown := [];
      if |imgs| == 0 {
        return Ok(None);
      } else if |imgs| == 1 {
        best := Some(0);
        return Ok(best);
      }
      r := Compete();
    }

    /** The `while` loop of select_best_image: one batch after another until the pool is empty. */
    method Compete() returns (r: Result<Option<nat>, SelectionError>)
      requires batchSize >= 2
      modifies this
      ensures images == old(images) && batchSize == old(batchSize)
      ensures r == Rounds(old(pool), old(best), batchSize, old(events)).outcome
      ensures r.Ok? ==> pool == [] && best == r.value
      ensures shown == old(shown) + Rounds(old(pool), old(best), batchSize, old(events)).batches
    {
      ghost var whole := Rounds(pool, best, batchSize, events);
      while |pool| > 0
        invariant images == old(images) && batchSize == old(batchSize)
        invariant shown + Rounds(pool, best, batchSize, events).batches == old(shown) + whole.batches
        invariant Rounds(pool, best, batchSize, events).outcome == whole.outcome
        decreases |pool|
      {
        var err := ShowNextBatch();
        if err.Some? {
          return Err(err.value);
        }
      }
      return Ok(best);
    }

    /**
     * _show_next_batch: draws the next batch from the front of the pool
     * (carrying the reigning best), then delivers events until the window closes.
     */
    method ShowNextBatch() returns (err: Option<SelectionError>)
      requires batchSize >= 2 && pool != []
      modifies this
      ensures images == old(images) && batchSize == old(batchSize)
      ensures (currentBatch, pool) == NextBatch(old(pool), old(best), batchSize)
      ensures shown == old(shown) + [currentBatch]
      ensures WindowClosedAs(Window(currentBatch, old(best), old(events)), old(best), best, events, err)
      ensures err == None ==>
        shown + Rounds(pool, best, batchSize, events).batches == old(shown) + Rounds(old(pool), old(best), batchSize, old(events)).batches &&
        Rounds(pool, best, batchSize, events).outcome == Rounds(old(pool), old(best), batchSize, old(events)).outcome
      ensures err.Some? ==>
        shown == old(shown) + Rounds(old(pool), old(best), batchSize, old(events)).batches &&
        Rounds(old(pool), old(best), batchSize, old(events)).outcome == Err(err.value)
    {
      DrawBatch();
      ghost var batch := currentBatch;
      shown := shown + [batch];
      ghost var before, start := best, events;
      err := ShowWindow();
      if err.Some? {
        ShownAfterError(old(pool), before, batchSize, start, batch, pool, err.value);
      } else {
        ShownAfterWindow(old(shown), old(pool), before, batchSize, start, batch, pool, best, events);
      }
    }

    /** The first half of _show_next_batch: the reigning best, then the front of the pool. */
    method DrawBatch()
      requires batchSize >= 1
      modifies this`currentBatch, this`pool
      ensures (currentBatch, pool) == NextBatch(old(pool), best, batchSize)
    {
      if best.Some? {
        var (drawn, rest) := SplitAt(pool, batchSize - 1);
        currentBatch := [best.value] + drawn;
        pool := rest;
      } else {
        var (drawn, rest) := SplitAt(pool, batchSize);
        currentBatch := drawn;
        pool := rest;
      }
    }

    /** `plt.show(block=True)` on the current batch: events go to _on_key until one closes the window. */
    method ShowWindow() returns (err: Option<SelectionError>)
      modifies this`best, this`events
      ensures WindowClosedAs(Window(currentBatch, old(best), old(events)), old(best), best, events, err)
    {
      var closed := false;
      err := None;
      while !closed && events != []
        invariant !closed ==>
          err == None && best == old(best) &&
          Window(currentBatch, old(best), old(events)) == Window(currentBatch, old(best), events)
        invariant closed ==>
          Window(currentBatch, old(best), old(events)) == WindowResult(if err.Some? then Err(err.value) else Ok(best), events)
        invariant err.Some? ==> best == old(best)
        decreases |events|
      {
        var ev := events[0];
        events := events[1..];
        match ev {
          case WindowClosed =>
            closed := true;
          case Key(k) =>
            closed, err := OnKey(k);
        }
      }
    }

    /** _on_key: a digit in range picks that slot of the batch and closes; 'c' closes; others do nothing. */
    method OnKey(key: string) returns (closed: bool, err: Option<SelectionError>)
      modifies this`best
      ensures match OnKeyReaction(currentBatch, key)
        case Pick(i) => best == Some(i) && closed && err == None
        case Dismiss => best == old(best) && closed && err == None
        case Ignore => best == old(best) && !closed && err == None
        case Fail(e) => best == old(best) && closed && err == Some(e)
    {
      var digit := DigitKey(key);
      if digit.Some? {
        var selected := digit.value - 1;
        if selected < |currentBatch| {
          best := Some(currentBatch[selected]);
          closed, err := true, None;
        } else {
          closed, err := true, Some(KeyIndexError(key));
        }
      } else if CloseKey(key) {
        closed, err := true, None;
      } else {
        closed, err := false, None;
      }
    }
  }
}

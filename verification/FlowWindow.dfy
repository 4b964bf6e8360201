/**
 The paged copy of a Run's Store events into its archive: the events after one cursor, up
 to and including a frozen ceiling, read a page at a time.
 */
module FlowWindow {
  import opened Wrappers

  datatype Event = Event(cursor: int, body: string)

  datatype FlowError = MovedBackwards | MissingEvent | OutOfOrder | DidNotAdvance

  predicate InOrder(events: seq<Event>, i: nat, j: nat)
    requires i < |events| && j < |events|
  {
    events[i].cursor < events[j].cursor
  }

  predicate Increasing(events: seq<Event>) {
    forall i, j :: 0 <= i < j < |events| ==> InOrder(events, i, j)
  }

  // `at` splits the events at the cursor.
  ghost predicate SplitAt(events: seq<Event>, cursor: int, at: nat) {
    && at <= |events|
    && (at > 0 ==> events[at - 1].cursor <= cursor)
    && (at < |events| ==> events[at].cursor > cursor)
  }

  lemma TailIncreasing(events: seq<Event>)
    requires Increasing(events) && events != []
    ensures Increasing(events[1..])
  {
    forall i, j | 0 <= i < j < |events[1..]| ensures InOrder(events[1..], i, j) {
      assert InOrder(events, i + 1, j + 1);
    }
  }

  // How many events lie at or before the cursor.
  function Skip(events: seq<Event>, cursor: int): (k: nat)
    requires Increasing(events)
    ensures SplitAt(events, cursor, k)
  {
    if events == [] || events[0].cursor > cursor then 0
    else
      TailIncreasing(events);
      1 + Skip(events[1..], cursor)
  }

  // The cursor tells on which side of the split an event lies.
  lemma SideOf(events: seq<Event>, cursor: int, at: nat, i: nat)
    requires Increasing(events) && SplitAt(events, cursor, at) && i < |events|
    ensures i < at <==> events[i].cursor <= cursor
  {
    if i < at - 1 {
      assert InOrder(events, i, at - 1);
    } else if at < i {
      assert InOrder(events, at, i);
    }
  }

  lemma SplitUnique(events: seq<Event>, cursor: int, a: nat, b: nat)
    requires Increasing(events) && SplitAt(events, cursor, a) && SplitAt(events, cursor, b)
    ensures a == b
  {
    if a < |events| {
      SideOf(events, cursor, b, a);
    }
    if b < |events| {
      SideOf(events, cursor, a, b);
    }
  }

  // The Store's page: at most `limit` events after the cursor, in order.
  function Page(events: seq<Event>, cursor: int, limit: nat): seq<Event>
    requires Increasing(events)
  {
    var rest := events[Skip(events, cursor)..];
    if |rest| <= limit then rest else rest[..limit]
  }

  lemma SkipMonotone(events: seq<Event>, low: int, high: int)
    requires Increasing(events) && low <= high
    ensures Skip(events, low) <= Skip(events, high)
  {
    if Skip(events, high) < |events| {
      SideOf(events, low, Skip(events, low), Skip(events, high));
    }
  }

  function Window(events: seq<Event>, after: int, ceiling: int): seq<Event>
    requires Increasing(events) && after <= ceiling
  {
    SkipMonotone(events, after, ceiling);
    events[Skip(events, after)..Skip(events, ceiling)]
  }

  /**
   The window is the slice of exactly those events with a cursor in (after, ceiling]: each
   once, in cursor order.
   */
  lemma WindowExactly(events: seq<Event>, after: int, ceiling: int, i: nat)
    requires Increasing(events) && after <= ceiling && i < |events|
    ensures var low, high := Skip(events, after), Skip(events, ceiling);
            && low <= high && Window(events, after, ceiling) == events[low..high]
            && (low <= i < high <==> after < events[i].cursor <= ceiling)
  {
    SkipMonotone(events, after, ceiling);
    SideOf(events, after, Skip(events, after), i);
    SideOf(events, ceiling, Skip(events, ceiling), i);
  }

  lemma SliceJoin(events: seq<Event>, a: nat, b: nat, c: nat)
    requires a <= b <= c <= |events|
    ensures events[a..b] + events[b..c] == events[a..c]
  {
  }

  predicate EventAt(events: seq<Event>, cursor: int) {
    exists i :: 0 <= i < |events| && events[i].cursor == cursor
  }

  lemma SplitNext(events: seq<Event>, cursor: int, at: nat)
    requires Increasing(events) && SplitAt(events, cursor, at) && at < |events|
    ensures events[at].cursor > cursor && SplitAt(events, events[at].cursor, at + 1)
  {
    if at + 1 < |events| {
      assert InOrder(events, at, at + 1);
    }
  }

  lemma TakeOneMore(page: seq<Event>, k: nat)
    requires k < |page|
    ensures page[..k] + [page[k]] == page[..k + 1]
  {
  }

  // Copies the part of one page that lies within the ceiling.
  method CopyPage(events: seq<Event>, cursor: int, ceiling: int, page: seq<Event>, ghost at: nat)
    returns (r: Result<seq<Event>, FlowError>, last: int)
    requires Increasing(events) && SplitAt(events, cursor, at) && cursor < ceiling
    requires at + |page| <= |events| && page == events[at..at + |page|]
    ensures r.Success? && r.value <= page
    ensures cursor <= last <= ceiling && SplitAt(events, last, at + |r.value|)
    ensures r.value == [] ==> last == cursor && (page != [] ==> page[0].cursor > ceiling)
    ensures r.value != [] ==> last == r.value[|r.value| - 1].cursor > cursor
  {
    var copied: seq<Event> := [];
    last := cursor;
    while |copied| < |page| && page[|copied|].cursor <= ceiling
      invariant |copied| <= |page| && copied == page[..|copied|]
      invariant cursor <= last <= ceiling && SplitAt(events, last, at + |copied|)
      invariant copied == [] ==> last == cursor
      invariant copied != [] ==> last == page[|copied| - 1].cursor > cursor
    {
      var event := page[|copied|];
      assert event == events[at + |copied|];
      SplitNext(events, last, at + |copied|);
      TakeOneMore(page, |copied|);
      if event.cursor <= last {
        return Failure(OutOfOrder), last;
      }
      copied := copied + [event];
      last := event.cursor;
    }
    return Success(copied), last;
  }

  lemma NoEventAtCeiling(events: seq<Event>, cursor: int, ceiling: int, at: nat)
    requires Increasing(events) && SplitAt(events, cursor, at) && cursor < ceiling
    requires at < |events| ==> events[at].cursor > ceiling
    ensures !EventAt(events, ceiling)
  {
    forall i | 0 <= i < |events| ensures events[i].cursor != ceiling {
      SideOf(events, cursor, at, i);
      if at < i {
        assert InOrder(events, at, i);
      }
    }
  }

  // One page read: progress, or proof that no event sits at the ceiling.
  method CopyNext(events: seq<Event>, cursor: int, ceiling: int, limit: nat, ghost at: nat)
    returns (r: Result<seq<Event>, FlowError>, last: int)
    requires Increasing(events) && SplitAt(events, cursor, at) && cursor < ceiling && limit > 0
    ensures r.Success? ==>
              && cursor < last <= ceiling && SplitAt(events, last, at + |r.value|)
              && r.value != [] && r.value == events[at..at + |r.value|]
              && last == events[at + |r.value| - 1].cursor
    ensures r.Failure? ==> !EventAt(events, ceiling) && (r.error.MissingEvent? || r.error.DidNotAdvance?)
  {
    SplitUnique(events, cursor, at, Skip(events, cursor));
    var page := Page(events, cursor, limit);
    if page == [] {
      NoEventAtCeiling(events, cursor, ceiling, at);
      return Failure(MissingEvent), cursor;
    }
    r, last := CopyPage(events, cursor, ceiling, page, at);
    if last == cursor {
      NoEventAtCeiling(events, cursor, ceiling, at);
      return Failure(DidNotAdvance), cursor;
    }
  }

  /**
   The copy succeeds exactly when the window is empty or an event sits at the ceiling, and
   then it wrote the window, whatever the page size.
   */
  method WriteFlow(events: seq<Event>, after: int, ceiling: int, limit: nat)
    returns (r: Result<seq<Event>, FlowError>)
    requires Increasing(events) && limit > 0
    ensures r.Success? <==> after == ceiling || (after < ceiling && EventAt(events, ceiling))
    ensures r.Success? ==> r.value == Window(events, after, ceiling)
    ensures r.Failure? ==> (r.error.MovedBackwards? <==> after > ceiling) && !r.error.OutOfOrder?
  {
    if after > ceiling {
      return Failure(MovedBackwards);
    }
    var output: seq<Event> := [];
    var cursor := after;
    ghost var start, at := Skip(events, after), Skip(events, after);
    while cursor < ceiling
      invariant after <= cursor <= ceiling
      invariant start <= at && SplitAt(events, cursor, at)
      invariant cursor == after || (at > 0 && events[at - 1].cursor == cursor)
      invariant output == events[start..at]
      decreases ceiling - cursor
    {
      var copied, last := CopyNext(events, cursor, ceiling, limit, at);
      if copied.Failure? {
        return Failure(copied.error);
      }
      SliceJoin(events, start, at, at + |copied.value|);
      output := output + copied.value;
      cursor := last;
      at := at + |copied.value|;
    }
    SplitUnique(events, cursor, at, Skip(events, cursor));
    return Success(output);
  }
}

/**
 * app/page.tsx: the home feed of recent puzzles and the label on each card.
 *
 * The feed fetches pages of at most five puzzles, newest first, optionally only the
 * unsolved ones. Loading more starts after the last document of the previous page
 * (the cursor) and appends; changing the filter clears the cursor and replaces the
 * list. The Firestore query is a function from the query to the page it returns, or to
 * None when the request fails.
 */
module HomePage {
  import opened Wrappers
  import opened TimeUtils

  const PageSize: nat := 5

  datatype RecentPuzzle = RecentPuzzle(
    id: string, title: string, location: Option<string>, creatorId: string, creatorName: string,
    solved: bool, solvedBy: Option<string>, createdAt: Stamp, solvedAt: Stamp)

  /** The query fetchPuzzles issues: the filter, the document to start after, and the limit. */
  datatype Query = Query(unsolvedOnly: bool, startAfter: Option<RecentPuzzle>, limit: nat)

  /** The four query shapes: a cursor only when appending with a cursor set, always PAGE_SIZE. */
  function QueryFor(unsolvedOnly: bool, append: bool, cursor: Option<RecentPuzzle>): (q: Query)
    ensures q.unsolvedOnly == unsolvedOnly && q.limit == PageSize
    ensures q.startAfter.Some? <==> append && cursor.Some?
    ensures q.startAfter.Some? ==> q.startAfter == cursor
  {
    if append && cursor.Some? then Query(unsolvedOnly, cursor, PageSize)
    else Query(unsolvedOnly, None, PageSize)
  }

  /** What the feed shows and remembers: the list, whether to offer more, and the cursor. */
  datatype FeedState = FeedState(puzzles: seq<RecentPuzzle>, hasMore: bool, cursor: Option<RecentPuzzle>)

  function Last(s: seq<RecentPuzzle>): Option<RecentPuzzle>
  {
    if s == [] then None else Some(s[|s| - 1])
  }

  /** The state after a fetch returned `page`. */
  function AfterPage(s: FeedState, append: bool, page: seq<RecentPuzzle>): FeedState
  {
    FeedState(
      if append then s.puzzles + page else page,
      |page| >= PageSize,
      if |page| > 0 then Some(page[|page| - 1]) else s.cursor)
  }

  /** The cursor is the last puzzle shown, or null when nothing is shown. */
  predicate CursorIsLast(s: FeedState)
  {
    s.cursor == Last(s.puzzles)
  }

  /**
   * One fetch: more is offered exactly when the page was full; the cursor moves only for
   * a non-empty page, to its last document; appending keeps the old list in front of the
   * page, otherwise the page replaces the list.
   */
  lemma {:induction false} AfterPageSpec(s: FeedState, append: bool, page: seq<RecentPuzzle>)
    ensures var t := AfterPage(s, append, page);
      && (t.hasMore <==> |page| >= PageSize)
      && (t.cursor != s.cursor ==> page != [] && t.cursor == Some(page[|page| - 1]))
      && (page == [] ==> t.cursor == s.cursor)
      && (append ==> |t.puzzles| == |s.puzzles| + |page| && t.puzzles[..|s.puzzles|] == s.puzzles
                     && t.puzzles[|s.puzzles|..] == page)
      && (!append ==> t.puzzles == page)
  {
    var t := AfterPage(s, append, page);
    if append {
      assert t.puzzles[..|s.puzzles|] == s.puzzles;
      assert t.puzzles[|s.puzzles|..] == page;
    }
  }

  /** Loading more from a state whose cursor is its last puzzle keeps that so. */
  lemma {:induction false} LoadMoreKeepsCursor(s: FeedState, page: seq<RecentPuzzle>)
    requires CursorIsLast(s)
    ensures CursorIsLast(AfterPage(s, true, page))
  {
    var t := AfterPage(s, true, page);
    if page != [] {
      assert t.puzzles[|t.puzzles| - 1] == page[|page| - 1];
    } else {
      assert t.puzzles == s.puzzles;
    }
  }

  /** The filter-reset fetch clears the cursor first, so afterwards the cursor is the last puzzle. */
  lemma {:induction false} ResetSetsCursor(s: FeedState, page: seq<RecentPuzzle>)
    ensures CursorIsLast(AfterPage(s.(cursor := None), false, page))
  {
  }

  /** The state after one reset fetch and then one load-more per page. */
  function Replay(first: seq<RecentPuzzle>, more: seq<seq<RecentPuzzle>>): FeedState
  {
    if more == [] then AfterPage(FeedState([], false, None), false, first)
    else AfterPage(Replay(first, more[..|more| - 1]), true, more[|more| - 1])
  }

  function Flatten(pages: seq<seq<RecentPuzzle>>): seq<RecentPuzzle>
  {
    if pages == [] then [] else Flatten(pages[..|pages| - 1]) + pages[|pages| - 1]
  }

  /**
   * After a reset and any number of successful load-mores the feed shows the pages one
   * after the other, in the order fetched, and the cursor is the last puzzle shown.
   */
  lemma {:induction false} ReplayShowsPages(first: seq<RecentPuzzle>, more: seq<seq<RecentPuzzle>>)
    ensures Replay(first, more).puzzles == first + Flatten(more)
    ensures CursorIsLast(Replay(first, more))
  {
    if more == [] {
      assert first + Flatten(more) == first;
      ResetSetsCursor(FeedState([], false, None), first);
    } else {
      var init := more[..|more| - 1];
      ReplayShowsPages(first, init);
      LoadMoreKeepsCursor(Replay(first, init), more[|more| - 1]);
      assert first + Flatten(more) == (first + Flatten(init)) + more[|more| - 1];
    }
  }

  // ---------------------------------------------------------------------------
  // The card label

  /**
   * PuzzleCard's `elapsed`: with a creation date, a solved puzzle with a solve date is
   * labelled with the time to solve, an unsolved one with the time since creation; in
   * every other case the label is empty.
   */
  function ElapsedLabel(createdAt: Stamp, solvedAt: Stamp, solved: bool, now: int): string
  {
    var created := ToDate(createdAt);
    var solvedDate := ToDate(solvedAt);
    if created.None? then ""
    else if solved && solvedDate.Some? then FormatElapsed(created.value, solvedDate.value) + "で解決"
    else if !solved then FormatElapsed(created.value, now) + "経過"
    else ""
  }

  /** The label is empty exactly when there is no creation date, or the puzzle is solved without a solve date. */
  lemma {:induction false} ElapsedLabelEmpty(createdAt: Stamp, solvedAt: Stamp, solved: bool, now: int)
    ensures ElapsedLabel(createdAt, solvedAt, solved, now) == "" <==>
      createdAt.Falsy? || createdAt.Unrecognised? || (solved && (solvedAt.Falsy? || solvedAt.Unrecognised?))
  {
    var created := ToDate(createdAt);
    var solvedDate := ToDate(solvedAt);
    if created.Some? {
      if solved && solvedDate.Some? {
        var shown := ElapsedLabel(createdAt, solvedAt, solved, now);
        assert shown[|shown| - 1] == '決';
      } else if !solved {
        var shown := ElapsedLabel(createdAt, solvedAt, solved, now);
        assert shown[|shown| - 1] == '過';
      }
    }
  }

  /**
   * A solved puzzle with both dates, solved no earlier than created, is labelled with the
   * elapsed text followed by "で解決", and that text reads back as the days, hours and
   * minutes it took to solve.
   */
  lemma {:induction false} SolvedLabelReadsBack(createdAt: Stamp, solvedAt: Stamp, now: int)
    requires ToDate(createdAt).Some? && ToDate(solvedAt).Some? && createdAt.millis <= solvedAt.millis
    ensures var shown := ElapsedLabel(createdAt, solvedAt, true, now);
      && |shown| >= 3 && shown[|shown| - 3..] == "で解決"
      && ParseItems(shown[..|shown| - 3]) == Some(ElapsedItems(Decompose(solvedAt.millis - createdAt.millis)))
  {
    var shown := ElapsedLabel(createdAt, solvedAt, true, now);
    var text := FormatElapsed(createdAt.millis, solvedAt.millis);
    assert shown == text + "で解決";
    assert shown[..|shown| - 3] == text;
    ElapsedTextItems(createdAt.millis, solvedAt.millis);
  }

  /**
   * An unsolved puzzle with a creation date no later than now is labelled with the elapsed
   * text followed by "経過", and that text reads back as the time since creation.
   */
  lemma {:induction false} UnsolvedLabelReadsBack(createdAt: Stamp, solvedAt: Stamp, now: int)
    requires ToDate(createdAt).Some? && createdAt.millis <= now
    ensures var shown := ElapsedLabel(createdAt, solvedAt, false, now);
      && |shown| >= 2 && shown[|shown| - 2..] == "経過"
      && ParseItems(shown[..|shown| - 2]) == Some(ElapsedItems(Decompose(now - createdAt.millis)))
  {
    var shown := ElapsedLabel(createdAt, solvedAt, false, now);
    var text := FormatElapsed(createdAt.millis, now);
    assert shown == text + "経過";
    assert shown[..|shown| - 2] == text;
    ElapsedTextItems(createdAt.millis, now);
  }

  // ---------------------------------------------------------------------------
  // The feed's state

  class Feed {
    var puzzles: seq<RecentPuzzle>
    var hasMore: bool
    var cursor: Option<RecentPuzzle>
    var unsolvedOnly: bool
    var loadingMore: bool

    function State(): FeedState
      reads this
    {
      FeedState(puzzles, hasMore, cursor)
    }

    constructor ()
      ensures puzzles == [] && !hasMore && cursor.None? && !unsolvedOnly && !loadingMore
    {
      puzzles := [];
      hasMore := false;
      cursor := None;
      unsolvedOnly := false;
      loadingMore := false;
    }

    /**
     * fetchPuzzles(append): issues the query for the current filter and cursor; a failed
     * request changes nothing but the loading flag, a returned page updates the state.
     */
    method FetchPuzzles(append: bool, run: Query -> Option<seq<RecentPuzzle>>) returns (issued: Query)
      modifies this
      ensures issued == QueryFor(old(unsolvedOnly), append, old(cursor))
      ensures run(issued).None? ==> State() == old(State())
      ensures run(issued).Some? ==> State() == AfterPage(old(State()), append, run(issued).value)
      ensures unsolvedOnly == old(unsolvedOnly) && !loadingMore
    {
      if append {
        loadingMore := true;
      }
      issued := QueryFor(unsolvedOnly, append, cursor);
      var snap := run(issued);
      if snap.None? {
        loadingMore := false;
        return;
      }
      var docs := snap.value;
      var newPuzzles: seq<RecentPuzzle> := [];
      for i := 0 to |docs|
        invariant newPuzzles == docs[..i]
      {
        newPuzzles := newPuzzles + [docs[i]];
      }
      assert newPuzzles == docs;
      if |docs| > 0 {
        cursor := Some(docs[|docs| - 1]);
      }
      hasMore := |docs| >= PageSize;
      if append {
        puzzles := puzzles + newPuzzles;
      } else {
        puzzles := newPuzzles;
      }
      loadingMore := false;
    }

    /** The effect on mount and on every filter change: clear the cursor, then fetch without appending. */
    method Refresh(run: Query -> Option<seq<RecentPuzzle>>) returns (issued: Query)
      modifies this
      ensures issued == QueryFor(unsolvedOnly, false, None) && issued.startAfter.None?
      ensures run(issued).None? ==> puzzles == old(puzzles) && hasMore == old(hasMore) && cursor.None?
      ensures run(issued).Some? ==> State() == AfterPage(old(State()).(cursor := None), false, run(issued).value)
      ensures run(issued).Some? ==> CursorIsLast(State())
      ensures unsolvedOnly == old(unsolvedOnly)
    {
      cursor := None;
      issued := FetchPuzzles(false, run);
      if run(issued).Some? {
        ResetSetsCursor(old(State()), run(issued).value);
      }
    }

    /** The "未解決のみ" switch: flip the filter, which re-runs the reset effect. */
    method ToggleUnsolved(run: Query -> Option<seq<RecentPuzzle>>) returns (issued: Query)
      modifies this
      ensures unsolvedOnly == !old(unsolvedOnly)
      ensures issued == Query(unsolvedOnly, None, PageSize)
      ensures run(issued).None? ==> puzzles == old(puzzles) && hasMore == old(hasMore) && cursor.None?
      ensures run(issued).Some? ==> State() == AfterPage(old(State()).(cursor := None), false, run(issued).value)
      ensures run(issued).Some? ==> CursorIsLast(State())
    {
      unsolvedOnly := !unsolvedOnly;
      issued := Refresh(run);
    }

    /** The "もっと見る" button: fetch the next page after the cursor and append it. */
    method LoadMore(run: Query -> Option<seq<RecentPuzzle>>) returns (issued: Query)
      modifies this
      ensures issued == QueryFor(old(unsolvedOnly), true, old(cursor))
      ensures run(issued).None? ==> State() == old(State())
      ensures run(issued).Some? ==> State() == AfterPage(old(State()), true, run(issued).value)
      ensures old(CursorIsLast(State())) ==> CursorIsLast(State())
    {
      issued := FetchPuzzles(true, run);
      if run(issued).Some? && CursorIsLast(old(State())) {
        LoadMoreKeepsCursor(old(State()), run(issued).value);
      }
    }
  }
}

/**
 * The history page (src/pages/History.tsx): the list of past analyses, the
 * search box that filters it, deleting one analysis and clearing them all.
 * A guest's list lives in sessionStorage; a signed-in user's list comes from
 * the backend, whose answer (or failure) is a parameter here. React state is
 * the fields of HistoryPage, and the filtering effect is taken to have run
 * after every change, as Valid() records.
 */
module History {
  import opened Wrappers
  import opened Strings
  import opened Sequences
  import opened Storage
  import opened MockData
  import opened Auth

  /** The search predicate for an already lower-cased query: input text, or some technique's id or name. */
  predicate MatchesQuery(item: AnalysisResult, query: string)
  {
    || Contains(Lower(item.inputText), query)
    || exists i :: 0 <= i < |item.techniques| && TechniqueMatches(item.techniques[i], query)
  }

  predicate TechniqueMatches(t: MitreTechnique, query: string)
  {
    Contains(Lower(t.id), query) || Contains(Lower(t.name), query)
  }

  /** `history.filter(item => ...)` with the search predicate. */
  function Select(history: seq<AnalysisResult>, query: string): (r: seq<AnalysisResult>)
    ensures |r| <= |history|
    ensures forall x :: x in r ==> x in history && MatchesQuery(x, query)
  {
    if history == [] then []
    else
      var last := history[|history| - 1];
      Select(history[..|history| - 1], query) + (if MatchesQuery(last, query) then [last] else [])
  }

  /**
   * What the filtering effect shows for a search box content: everything for a
   * blank query. The blank test is the source's `trim() === ''`, stated as
   * IsBlank (the two agree, Strings.TrimEmptyIffBlank).
   */
  function Filtered(history: seq<AnalysisResult>, searchQuery: string): (r: seq<AnalysisResult>)
    ensures |r| <= |history|
    ensures forall x :: x in r ==> x in history
  {
    if IsBlank(searchQuery) then history else Select(history, Lower(searchQuery))
  }

  /** `history.filter(item => item.id !== id)`. */
  function WithoutId(history: seq<AnalysisResult>, id: string): (r: seq<AnalysisResult>)
    ensures |r| <= |history|
    ensures forall x :: x in r ==> x in history && x.id != id
  {
    if history == [] then []
    else
      var last := history[|history| - 1];
      WithoutId(history[..|history| - 1], id) + (if last.id != id then [last] else [])
  }

  /** The guest load: a stored list is shown; absent, empty or unparsable text gives the empty list. */
  function GuestHistory(stored: Option<Stored>): (h: seq<AnalysisResult>)
    ensures h != [] ==> stored == Some(HistoryJson(h))
    ensures stored.Some? && stored.value.HistoryJson? ==> h == stored.value.items
    ensures stored.Some? && stored.value.Plain? ==> h == []
  {
    if stored.Some? && stored.value.HistoryJson? then stored.value.items else []
  }

  /** The signed-in load: the backend's list, or the empty list when the request or its decoding failed. */
  function FetchedHistory(fetched: Option<seq<AnalysisResult>>): (h: seq<AnalysisResult>)
    ensures fetched.None? ==> h == []
    ensures fetched.Some? ==> h == fetched.value
  {
    if fetched.Some? then fetched.value else []
  }

  // ---------------------------------------------------------------------
  // Properties of the list operations
  // ---------------------------------------------------------------------

  /**
   * A blank or white-space-only search (one that trims to nothing,
   * Strings.TrimEmptyIffBlank) shows the whole history, unchanged.
   */
  lemma BlankQueryShowsAll(history: seq<AnalysisResult>, searchQuery: string)
    requires IsBlank(searchQuery)
    ensures Filtered(history, searchQuery) == history
  {
  }

  lemma {:induction false} SelectMembership(history: seq<AnalysisResult>, query: string, x: AnalysisResult)
    ensures x in Select(history, query) <==> x in history && MatchesQuery(x, query)
  {
    if history != [] {
      var init := history[..|history| - 1];
      SelectMembership(init, query, x);
      SplitLast(history);
    }
  }

  /** With a non-blank search, an analysis is shown exactly when it matches the lower-cased, untrimmed query. */
  lemma FilteredMembership(history: seq<AnalysisResult>, searchQuery: string, x: AnalysisResult)
    requires !IsBlank(searchQuery)
    ensures x in Filtered(history, searchQuery) <==> x in history && MatchesQuery(x, Lower(searchQuery))
  {
    SelectMembership(history, Lower(searchQuery), x);
  }

  lemma {:induction false} SelectIsSubsequence(history: seq<AnalysisResult>, query: string)
    ensures IsSubsequence(Select(history, query), history)
  {
    if history != [] {
      var init := history[..|history| - 1];
      SelectIsSubsequence(init, query);
      var r := Select(history, query);
      if MatchesQuery(history[|history| - 1], query) {
        assert r[..|r| - 1] == Select(init, query) && r[|r| - 1] == history[|history| - 1];
      } else {
        assert r == Select(init, query);
      }
    }
  }

  /** What the search shows is the history with some analyses left out, in the original order. */
  lemma FilteredIsSubsequence(history: seq<AnalysisResult>, searchQuery: string)
    ensures IsSubsequence(Filtered(history, searchQuery), history)
  {
    if IsBlank(searchQuery) {
      AllIsSubsequence(history);
    } else {
      SelectIsSubsequence(history, Lower(searchQuery));
    }
  }

  /** Deleting an id removes every analysis with that id and keeps all others. */
  lemma {:induction false} WithoutIdMembership(history: seq<AnalysisResult>, id: string, x: AnalysisResult)
    ensures x in WithoutId(history, id) <==> x in history && x.id != id
  {
    if history != [] {
      var init := history[..|history| - 1];
      WithoutIdMembership(init, id, x);
      SplitLast(history);
    }
  }

  /** Every copy of an analysis matching the query is kept, and no other. */
  lemma {:induction false} SelectCount(history: seq<AnalysisResult>, query: string, x: AnalysisResult)
    ensures multiset(Select(history, query))[x] == if MatchesQuery(x, query) then multiset(history)[x] else 0
  {
    if history != [] {
      var init := history[..|history| - 1];
      var last := history[|history| - 1];
      SelectCount(init, query, x);
      FilterCountStep(init, last, Select(init, query), Select(history, query),
                      MatchesQuery(last, query), MatchesQuery(x, query), x);
      SplitLast(history);
    }
  }

  /** With a non-blank search, each matching analysis is shown as often as the history holds it. */
  lemma FilteredCount(history: seq<AnalysisResult>, searchQuery: string, x: AnalysisResult)
    requires !IsBlank(searchQuery)
    ensures multiset(Filtered(history, searchQuery))[x] ==
      if MatchesQuery(x, Lower(searchQuery)) then multiset(history)[x] else 0
  {
    SelectCount(history, Lower(searchQuery), x);
  }

  /** Deleting an id drops every copy of an analysis with that id and keeps every copy of the others. */
  lemma {:induction false} WithoutIdCount(history: seq<AnalysisResult>, id: string, x: AnalysisResult)
    ensures multiset(WithoutId(history, id))[x] == if x.id != id then multiset(history)[x] else 0
  {
    if history != [] {
      var init := history[..|history| - 1];
      var last := history[|history| - 1];
      WithoutIdCount(init, id, x);
      FilterCountStep(init, last, WithoutId(init, id), WithoutId(history, id), last.id != id, x.id != id, x);
      SplitLast(history);
    }
  }

  /** Deleting keeps the remaining analyses in their order. */
  lemma {:induction false} WithoutIdIsSubsequence(history: seq<AnalysisResult>, id: string)
    ensures IsSubsequence(WithoutId(history, id), history)
  {
    if history != [] {
      var init := history[..|history| - 1];
      WithoutIdIsSubsequence(init, id);
      var r := WithoutId(history, id);
      if history[|history| - 1].id != id {
        assert r[..|r| - 1] == WithoutId(init, id) && r[|r| - 1] == history[|history| - 1];
      } else {
        assert r == WithoutId(init, id);
      }
    }
  }

  /** Deleting an id no analysis carries leaves the history as it was. */
  lemma {:induction false} WithoutAbsentId(history: seq<AnalysisResult>, id: string)
    requires forall i :: 0 <= i < |history| ==> history[i].id != id
    ensures WithoutId(history, id) == history
  {
    if history != [] {
      var init := history[..|history| - 1];
      WithoutAbsentId(init, id);
      SplitLast(history);
    }
  }

  class HistoryPage {
    const guest: bool
    const session: KeyValueStore<Stored>
    var history: seq<AnalysisResult>
    var searchQuery: string
    var filteredHistory: seq<AnalysisResult>

    /** The filtering effect has caught up with the history and the search box. */
    ghost predicate Valid()
      reads this
    {
      filteredHistory == Filtered(history, searchQuery)
    }

    /** Mounting the page: decide guest or not, then load the list from the session or the backend. */
    constructor (local: KeyValueStore<Stored>, session: KeyValueStore<Stored>, fetched: Option<seq<AnalysisResult>>)
      ensures this.guest == IsGuest(local) && this.session == session
      ensures guest ==> history == GuestHistory(session.GetItem(HISTORY_KEY))
      ensures !guest ==> history == FetchedHistory(fetched)
      ensures searchQuery == "" && Valid()
    {
      var g := IsGuest(local);
      guest := g;
      this.session := session;
      history := if g then GuestHistory(session.GetItem(HISTORY_KEY)) else FetchedHistory(fetched);
      searchQuery := "";
      new;
      filteredHistory := Filtered(history, searchQuery);
    }

    /** Typing in the search box. */
    method SetSearchQuery(query: string)
      modifies this
      ensures searchQuery == query && history == old(history)
      ensures Valid()
    {
      searchQuery := query;
      filteredHistory := Filtered(history, searchQuery);
    }

    /** `handleDelete(id)`. */
    method Delete(id: string)
      modifies this, session
      ensures history == WithoutId(old(history), id) && searchQuery == old(searchQuery)
      ensures guest ==> session.items == old(session.items)[HISTORY_KEY := HistoryJson(history)]
      ensures !guest ==> session.items == old(session.items)
      ensures Valid()
    {
      var updated := WithoutId(history, id);
      history := updated;
      filteredHistory := Filtered(history, searchQuery);
      if guest {
        session.SetItem(HISTORY_KEY, HistoryJson(updated));
      }
    }

    /** `handleClearHistory()`. */
    method ClearHistory()
      modifies this, session
      ensures history == [] && searchQuery == old(searchQuery)
      ensures guest ==> session.items == old(session.items) - {HISTORY_KEY}
      ensures !guest ==> session.items == old(session.items)
      ensures Valid() && filteredHistory == []
    {
      history := [];
      filteredHistory := Filtered(history, searchQuery);
      if guest {
        session.RemoveItem(HISTORY_KEY);
      }
    }
  }
}

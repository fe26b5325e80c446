/**
 The command palette's file search: debounced keystrokes start searches that may
 finish in any order, a sequence counter drops the overtaken ones, and a timer
 shows a spinner for the slow ones.
 */
module Search {
  import opened Common

  type Workspace = string

  datatype Item = Item(id: string, name: string, isFolder: bool, workspace: Option<Workspace>)

  /** A search, with the workspace its closure was created in; Skipped stands for a blank query. */
  datatype Phase = Waiting | Finished | Skipped

  datatype Query = Query(number: nat, text: string, workspace: Option<Workspace>, phase: Phase)

  /** A keystroke waiting for the debounce timer. */
  datatype Typed = Typed(text: string, workspace: Option<Workspace>)

  /**
   `landed` lists the numbers of the searches whose results were put on screen, in
   the order in which that happened.
   */
  datatype State = State(
    isOpen: bool, active: Option<Workspace>, query: string, typed: Option<Typed>,
    results: seq<Item>, searching: bool, sequence: nat, searches: seq<Query>, landed: seq<nat>)

  const START := State(false, None, "", None, [], false, 0, [], [])

  /** Opens also stands for the opening effect being run again while open. */
  datatype Event =
    | Opens
    | Closes
    | Switches(workspace: Option<Workspace>)
    | Types(text: string)
    | DebounceFires
    | SpinnerFires(search: nat)
    | Resolves(search: nat, found: seq<Item>)
    | Rejects(search: nat)

  /** White space and line ends as trim removes them (ECMA-262, section 12.2 and 12.3). */
  predicate IsSpace(c: char) {
    || c in "\t\n\r \U{000B}\U{000C}\U{00A0}\U{1680}\U{2028}\U{2029}\U{202F}\U{205F}\U{3000}\U{FEFF}"
    || '\U{2000}' <= c <= '\U{200A}'
  }

  predicate IsBlank(text: string) {
    forall i :: 0 <= i < |text| ==> IsSpace(text[i])
  }

  /** Rows of the given workspace, or, without one, rows of no workspace. */
  function Scoped(found: seq<Item>, workspace: Option<Workspace>): seq<Item> {
    if found == [] then []
    else (if found[0].workspace == workspace then [found[0]] else []) + Scoped(found[1..], workspace)
  }

  lemma {:induction false} ScopedExactly(found: seq<Item>, workspace: Option<Workspace>, x: Item)
    ensures multiset(Scoped(found, workspace))[x] == if x.workspace == workspace then multiset(found)[x] else 0
    ensures x in Scoped(found, workspace) ==> x.workspace == workspace
    decreases |found|
  {
    if found != [] {
      ScopedExactly(found[1..], workspace, x);
      assert found == [found[0]] + found[1..];
    }
  }

  /** The file results on screen: those stored, unless the query is blank. */
  function Shown(st: State): seq<Item> {
    if IsBlank(st.query) then [] else st.results
  }

  /** The effect on opening, run again whenever the workspace changes while open. */
  function Emptied(st: State): State {
    st.(query := "", results := [], searching := false)
  }

  function Searched(st: State, t: Typed): State {
    var n := st.sequence + 1;
    if IsBlank(t.text)
    then st.(sequence := n, results := [], searching := false,
             searches := st.searches + [Query(n, t.text, t.workspace, Skipped)])
    else st.(sequence := n, searches := st.searches + [Query(n, t.text, t.workspace, Waiting)])
  }

  predicate Newest(st: State, i: nat)
    requires i < |st.searches|
  {
    st.searches[i].number == st.sequence
  }

  predicate Unresolved(st: State, i: nat) {
    i < |st.searches| && st.searches[i].phase == Waiting
  }

  function Ended(st: State, i: nat): State
    requires i < |st.searches|
  {
    st.(searches := st.searches[i := st.searches[i].(phase := Finished)],
        searching := if Newest(st, i) then false else st.searching)
  }

  function Step(st: State, e: Event): State {
    match e
    case Opens => Emptied(st).(isOpen := true)
    case Closes => st.(isOpen := false)
    case Switches(w) =>
      var next := st.(active := w);
      if st.isOpen then Emptied(next) else next
    case Types(text) => st.(query := text, typed := Some(Typed(text, st.active)))
    case DebounceFires => if st.typed.None? then st else Searched(st.(typed := None), st.typed.value)
    case SpinnerFires(i) => if Unresolved(st, i) && Newest(st, i) then st.(searching := true) else st
    case Resolves(i, found) =>
      if !Unresolved(st, i) then st
      else if !Newest(st, i) then Ended(st, i)
      else Ended(st, i).(results := Scoped(found, st.searches[i].workspace),
                         landed := st.landed + [st.searches[i].number])
    case Rejects(i) => if !Unresolved(st, i) then st else Ended(st, i)
  }

  function Run(st: State, es: seq<Event>): State
    decreases |es|
  {
    if es == [] then st else Run(Step(st, es[0]), es[1..])
  }

  /** The palette's callbacks, over its refs and its React state. */
  class Palette {
    var isOpen: bool
    var active: Option<Workspace>
    var query: string
    var typed: Option<Typed>
    var results: seq<Item>
    var searching: bool
    var sequence: nat
    var searches: seq<Query>
    ghost var landed: seq<nat>

    ghost function View(): State
      reads this
    {
      State(isOpen, active, query, typed, results, searching, sequence, searches, landed)
    }

    constructor ()
      ensures View() == START
    {
      isOpen, active, query, typed := false, None, "", None;
      results, searching, sequence, searches, landed := [], false, 0, [], [];
    }

    method OnOpen()
      modifies this
      ensures View() == Step(old(View()), Opens)
    {
      isOpen := true;
      query := "";
      results := [];
      searching := false;
    }

    method OnType(text: string)
      modifies this
      ensures View() == Step(old(View()), Types(text))
    {
      query := text;
      typed := Some(Typed(text, active));
    }

    /** doSearch up to its await. */
    method OnDebounce()
      requires typed.Some?
      modifies this
      ensures View() == Step(old(View()), DebounceFires)
    {
      var t := typed.value;
      typed := None;
      sequence := sequence + 1;
      if IsBlank(t.text) {
        results := [];
        searching := false;
        searches := searches + [Query(sequence, t.text, t.workspace, Skipped)];
        return;
      }
      searches := searches + [Query(sequence, t.text, t.workspace, Waiting)];
    }

    method OnSpinnerTimer(i: nat)
      requires i < |searches| && searches[i].phase == Waiting
      modifies this`searching
      ensures View() == Step(old(View()), SpinnerFires(i))
    {
      if sequence == searches[i].number {
        searching := true;
      }
    }

    /** doSearch from its await on, including the finally block. */
    method OnResolve(i: nat, found: seq<Item>)
      requires i < |searches| && searches[i].phase == Waiting
      modifies this
      ensures View() == Step(old(View()), Resolves(i, found))
    {
      var s := searches[i];
      if sequence == s.number {
        var scoped := [];
        for k := 0 to |found|
          invariant View() == old(View())
          invariant scoped == Scoped(found[..k], s.workspace)
        {
          ScopedOneMore(found[..k], found[k], s.workspace);
          assert found[..k + 1] == found[..k] + [found[k]];
          if found[k].workspace == s.workspace {
            scoped := scoped + [found[k]];
          }
        }
        assert found[..|found|] == found;
        results := scoped;
        landed := landed + [s.number];
      }
      searches := searches[i := s.(phase := Finished)];
      if sequence == s.number {
        searching := false;
      }
    }
  }

  lemma {:induction false} ScopedOneMore(found: seq<Item>, x: Item, workspace: Option<Workspace>)
    ensures Scoped(found + [x], workspace) == Scoped(found, workspace) + if x.workspace == workspace then [x] else []
    decreases |found|
  {
    if found == [] {
      assert [x][1..] == [];
    } else {
      assert (found + [x])[1..] == found[1..] + [x];
      ScopedOneMore(found[1..], x, workspace);
    }
  }

  // -------------------------------------------------------------------
  // Invariants
  // -------------------------------------------------------------------

  predicate Numbered(st: State) {
    && |st.searches| == st.sequence
    && forall i :: 0 <= i < |st.searches| ==> st.searches[i].number == i + 1
  }

  predicate SpinnerHonest(st: State) {
    st.searching ==> st.sequence > 0 && Unresolved(st, st.sequence - 1)
  }

  /** Searches land in the order in which they were started, and only once. */
  predicate LandedInOrder(st: State) {
    && (forall i, j :: 0 <= i < j < |st.landed| ==> st.landed[i] < st.landed[j])
    && (forall i :: 0 <= i < |st.landed| ==>
          1 <= st.landed[i] <= |st.searches| && st.searches[st.landed[i] - 1].phase == Finished)
  }

  /** Everything on screen was found in the workspace in which the search that landed last was typed. */
  predicate ResultsScoped(st: State) {
    st.results != [] ==>
      && st.landed != []
      && 1 <= st.landed[|st.landed| - 1] <= |st.searches|
      && forall x :: x in st.results ==> x.workspace == st.searches[st.landed[|st.landed| - 1] - 1].workspace
  }

  predicate Invariant(st: State) {
    Numbered(st) && SpinnerHonest(st) && LandedInOrder(st) && ResultsScoped(st)
  }

  function Appended(st: State, q: Query): State {
    st.(sequence := st.sequence + 1, searches := st.searches + [q])
  }

  lemma AppendedKeepsLanded(st: State, q: Query)
    requires LandedInOrder(st)
    ensures LandedInOrder(Appended(st, q))
  {
  }

  lemma AppendedKeepsScoped(st: State, q: Query)
    requires ResultsScoped(st)
    ensures ResultsScoped(Appended(st, q))
  {
  }

  lemma AppendedKeepsInvariant(st: State, q: Query)
    requires Invariant(st) && q.number == st.sequence + 1 && q.phase == Waiting
    ensures Invariant(Appended(st, q))
  {
    AppendedKeepsLanded(st, q);
    AppendedKeepsScoped(st, q);
    assert Numbered(Appended(st, q));
  }

  lemma SkippedKeepsInvariant(st: State, q: Query)
    requires Invariant(st) && q.number == st.sequence + 1
    ensures Invariant(Appended(st, q).(results := [], searching := false))
  {
    AppendedKeepsLanded(st, q);
    assert Numbered(Appended(st, q));
  }

  lemma SearchedKeepsInvariant(st: State, t: Typed)
    requires Invariant(st)
    ensures Invariant(Searched(st, t))
  {
    if IsBlank(t.text) {
      SkippedKeepsInvariant(st, Query(st.sequence + 1, t.text, t.workspace, Skipped));
    } else {
      AppendedKeepsInvariant(st, Query(st.sequence + 1, t.text, t.workspace, Waiting));
    }
  }

  lemma EndedKeepsInvariant(st: State, i: nat)
    requires Invariant(st) && Unresolved(st, i)
    ensures Invariant(Ended(st, i))
  {
  }

  /** A search that is still running has not landed, and neither has any later one if it is the newest. */
  lemma LandedBefore(st: State, i: nat)
    requires Numbered(st) && LandedInOrder(st) && Unresolved(st, i) && Newest(st, i)
    ensures forall j :: 0 <= j < |st.landed| ==> st.landed[j] < st.searches[i].number
  {
    forall j | 0 <= j < |st.landed|
      ensures st.landed[j] < st.searches[i].number
    {
      assert st.searches[st.landed[j] - 1].phase == Finished;
    }
  }

  lemma LandingKeepsInvariant(st: State, i: nat, scoped: seq<Item>)
    requires Invariant(st) && i < |st.searches| && st.searches[i].phase == Finished
    requires forall j :: 0 <= j < |st.landed| ==> st.landed[j] < st.searches[i].number
    requires forall x :: x in scoped ==> x.workspace == st.searches[i].workspace
    ensures Invariant(st.(results := scoped, landed := st.landed + [st.searches[i].number]))
  {
  }

  lemma ResolvedKeepsInvariant(st: State, i: nat, found: seq<Item>)
    requires Invariant(st) && Unresolved(st, i) && Newest(st, i)
    ensures Invariant(Step(st, Resolves(i, found)))
  {
    var scoped := Scoped(found, st.searches[i].workspace);
    EndedKeepsInvariant(st, i);
    LandedBefore(st, i);
    forall x
      ensures x in scoped ==> x.workspace == st.searches[i].workspace
    {
      ScopedExactly(found, st.searches[i].workspace, x);
    }
    LandingKeepsInvariant(Ended(st, i), i, scoped);
  }

  /** Searches untouched, screen untouched or emptied. */
  predicate Calmer(st: State, st': State) {
    && st'.sequence == st.sequence && st'.searches == st.searches && st'.landed == st.landed
    && (st'.results == st.results || st'.results == [])
    && (st'.searching ==> st.searching || (st.sequence > 0 && Unresolved(st, st.sequence - 1)))
  }

  lemma CalmerKeepsInvariant(st: State, st': State)
    requires Invariant(st) && Calmer(st, st')
    ensures Invariant(st')
  {
  }

  predicate TouchesSearches(e: Event) {
    e.DebounceFires? || e.Resolves? || e.Rejects?
  }

  lemma OthersAreCalmer(st: State, e: Event)
    requires Numbered(st) && !TouchesSearches(e)
    ensures Calmer(st, Step(st, e))
  {
  }

  lemma StepKeepsInvariant(st: State, e: Event)
    requires Invariant(st)
    ensures Invariant(Step(st, e))
  {
    match e
    case DebounceFires =>
      if st.typed.Some? {
        CalmerKeepsInvariant(st, st.(typed := None));
        SearchedKeepsInvariant(st.(typed := None), st.typed.value);
      }
    case Resolves(i, found) =>
      if Unresolved(st, i) {
        if Newest(st, i) { ResolvedKeepsInvariant(st, i, found); } else { EndedKeepsInvariant(st, i); }
      }
    case Rejects(i) =>
      if Unresolved(st, i) { EndedKeepsInvariant(st, i); }
    case _ =>
      OthersAreCalmer(st, e);
      CalmerKeepsInvariant(st, Step(st, e));
  }

  lemma {:induction false} RunKeepsInvariant(st: State, es: seq<Event>)
    requires Invariant(st)
    ensures Invariant(Run(st, es))
    decreases |es|
  {
    if es != [] {
      StepKeepsInvariant(st, es[0]);
      RunKeepsInvariant(Step(st, es[0]), es[1..]);
    }
  }

  lemma {:induction false} RunExtendsLanded(st: State, es: seq<Event>)
    ensures st.landed <= Run(st, es).landed
    decreases |es|
  {
    if es != [] {
      assert st.landed <= Step(st, es[0]).landed;
      RunExtendsLanded(Step(st, es[0]), es[1..]);
    }
  }

  /**
   Over every run results never go back: whatever lands later was started later than
   anything that landed before. The spinner is on only while the newest search has not
   resolved.
   */
  lemma ResultsNeverGoBack(before: seq<Event>, after: seq<Event>, i: nat, j: nat)
    ensures var st, st' := Run(START, before), Run(Run(START, before), after);
            && st.landed <= st'.landed
            && (i < |st.landed| <= j < |st'.landed| ==> st.landed[i] < st'.landed[j])
            && (st'.searching ==>
                  |st'.searches| > 0 && Newest(st', |st'.searches| - 1) && Unresolved(st', |st'.searches| - 1))
  {
    RunKeepsInvariant(START, before);
    RunKeepsInvariant(Run(START, before), after);
    RunExtendsLanded(Run(START, before), after);
  }

  // -------------------------------------------------------------------
  // The workspace on screen
  // -------------------------------------------------------------------

  /** What is on screen belongs to the workspace in which the search that landed last was typed. */
  lemma ResultsBelongToTheirSearch(es: seq<Event>, x: Item)
    requires x in Shown(Run(START, es))
    ensures var st := Run(START, es);
            && st.landed != [] && 1 <= st.landed[|st.landed| - 1] <= |st.searches|
            && x.workspace == st.searches[st.landed[|st.landed| - 1] - 1].workspace
  {
    RunKeepsInvariant(START, es);
  }

  /**
   What a landing search stores is all of the active workspace exactly if the search was
   typed there or finds nothing in its own.
   */
  lemma LandingShowsTheActiveWorkspaceExactly(st: State, i: nat, found: seq<Item>)
    requires Unresolved(st, i) && Newest(st, i)
    ensures var st' := Step(st, Resolves(i, found));
            (forall x :: x in st'.results ==> x.workspace == st'.active) <==>
            st.searches[i].workspace == st.active || forall x :: x in found ==> x.workspace != st.searches[i].workspace
  {
    var w := st.searches[i].workspace;
    var kept := Scoped(found, w);
    assert Step(st, Resolves(i, found)).results == kept;
    forall x
      ensures x in kept <==> x in found && x.workspace == w
    {
      ScopedExactly(found, w, x);
      assert x in kept <==> multiset(kept)[x] > 0;
      assert x in found <==> multiset(found)[x] > 0;
    }
  }

  predicate Ascending(at: seq<nat>) {
    forall i, j :: 0 <= i < j < |at| ==> at[i] < at[j]
  }

  /** `at` are the places, in order, of the rows of `kept` in `found`, and the places of all rows of the workspace. */
  predicate PickedAt(found: seq<Item>, workspace: Option<Workspace>, kept: seq<Item>, at: seq<nat>) {
    && |at| == |kept| && Ascending(at)
    && (forall k :: 0 <= k < |at| ==> at[k] < |found| && found[at[k]] == kept[k])
    && (forall p: nat :: p < |found| ==> (p in at <==> found[p].workspace == workspace))
  }

  lemma {:induction false} ScopedPicks(found: seq<Item>, workspace: Option<Workspace>) returns (at: seq<nat>)
    ensures PickedAt(found, workspace, Scoped(found, workspace), at)
    decreases |found|
  {
    if found == [] {
      at := [];
    } else {
      var front, last := found[..|found| - 1], |found| - 1;
      assert found == front + [found[last]];
      at := ScopedPicks(front, workspace);
      ScopedOneMore(front, found[last], workspace);
      if found[last].workspace == workspace {
        at := at + [last];
        assert forall p: nat :: p in at <==> p in at[..|at| - 1] || p == last;
      }
    }
  }

  /**
   The newest search, when it finishes, puts on screen all rows it found in its own
   workspace, in the order found, and nothing else; any other search leaves them alone.
   */
  lemma LandedExactly(st: State, i: nat, found: seq<Item>) returns (at: seq<nat>)
    requires Unresolved(st, i)
    ensures var st' := Step(st, Resolves(i, found));
            if Newest(st, i) then PickedAt(found, st.searches[i].workspace, st'.results, at) && !st'.searching
            else st'.results == st.results && st'.searching == st.searching
    ensures var st' := Step(st, Resolves(i, found));
            && st'.query == st.query && st'.active == st.active && st'.isOpen == st.isOpen && st'.typed == st.typed
            && st'.sequence == st.sequence && !Unresolved(st', i)
  {
    at := ScopedPicks(found, st.searches[i].workspace);
  }

  // -------------------------------------------------------------------
  // What each event does to the screen
  // -------------------------------------------------------------------

  /** Only a landing search brings rows on screen: everything else leaves them, or clears them. */
  lemma OnlyLandingsBringRows(st: State, e: Event)
    ensures var st' := Step(st, e);
            && (st'.results == st.results || st'.results == []
                || (e.Resolves? && Unresolved(st, e.search) && Newest(st, e.search)))
            && (IsBlank(st'.query) ==> Shown(st') == []) && (!IsBlank(st'.query) ==> Shown(st') == st'.results)
  {
  }

  /** Opening, and switching the workspace while open, empty the palette; switching while closed does not. */
  lemma OpeningEmpties(st: State, w: Option<Workspace>)
    ensures var st' := Step(st, Opens);
            && st'.isOpen && st'.query == "" && st'.results == [] && !st'.searching && Shown(st') == []
            && st'.active == st.active && st'.typed == st.typed && st'.searches == st.searches
    ensures var st' := Step(st, Switches(w));
            && st'.active == w && st'.isOpen == st.isOpen && st'.typed == st.typed && st'.searches == st.searches
            && (st.isOpen ==> st'.query == "" && st'.results == [] && !st'.searching)
            && (!st.isOpen ==> st'.query == st.query && st'.results == st.results && st'.searching == st.searching)
    ensures Step(st, Closes) == st.(isOpen := false)
  {
  }

  /**
   A keystroke, once it has rested, starts one search for what was typed in the workspace
   of that moment, which outdates all others. A blank one finds nothing and is over.
   */
  lemma KeystrokeStartsItsSearch(st: State, text: string)
    requires Numbered(st)
    ensures var typed := Step(st, Types(text));
            typed.query == text && typed.results == st.results && typed.searches == st.searches
    ensures var st' := Step(Step(st, Types(text)), DebounceFires);
            && |st'.searches| == |st.searches| + 1 && st.searches <= st'.searches
            && st'.searches[|st.searches|].text == text && st'.searches[|st.searches|].workspace == st.active
            && Newest(st', |st.searches|) && (forall i :: 0 <= i < |st.searches| ==> !Newest(st', i))
            && (Unresolved(st', |st.searches|) <==> !IsBlank(text))
            && (IsBlank(text) ==> st'.results == [] && !st'.searching)
            && (!IsBlank(text) ==> st'.results == st.results && st'.searching == st.searching)
            && Step(st', DebounceFires) == st'
  {
  }

  /** The spinner comes on for the newest search while it runs, and a failure of it ends both. */
  lemma SpinnerExactly(st: State, i: nat)
    requires Numbered(st)
    ensures Step(st, SpinnerFires(i)) == st.(searching := st.searching || (i + 1 == st.sequence && Unresolved(st, i)))
    ensures var st' := Step(st, Rejects(i));
            && !Unresolved(st', i) && st'.results == st.results && |st'.searches| == |st.searches|
            && (forall j :: 0 <= j < |st.searches| && j != i ==> st'.searches[j] == st.searches[j])
            && st'.searching == (st.searching && !(i + 1 == st.sequence && Unresolved(st, i)))
  {
  }

  /** One search for "q", typed without a workspace and still running when the workspace is switched. */
  function Overtaken(): State {
    Step(Step(Step(Step(START, Opens), Types("q")), DebounceFires), Switches(Some("w")))
  }

  lemma OvertakenSearch()
    ensures Overtaken().isOpen && Overtaken().active == Some("w") && Overtaken().sequence == 1
    ensures Overtaken().searches == [Query(1, "q", None, Waiting)]
  {
    assert !IsSpace("q"[0]);
  }

  /**
   So it need not be the active one. The search lands after the switch, and with the next
   keystroke its results, of the old workspace, are on screen until the new search is done.
   */
  lemma OldWorkspaceCanShow(x: Item)
    requires x.workspace == None
    ensures var st := Step(Step(Overtaken(), Resolves(0, [x])), Types("r"));
            st.isOpen && st.active == Some("w") && st.query == "r" && Shown(st) == [x]
  {
    OvertakenSearch();
    assert Unresolved(Overtaken(), 0) && Newest(Overtaken(), 0);
    assert [x][1..] == [];
    assert Scoped([x], None) == [x] + Scoped([], None);
    assert !IsSpace("r"[0]);
  }
}

/**
 The file preview: loads run concurrently, and a generation counter decides whose
 completions may still change the screen. Every await of a load is a point where
 anything else can happen.
 */
module Preview {
  import opened Common

  type Url = nat

  const TEXT_LIMIT := 500_000

  /** `isText` says whether the type is one that is shown as text. */
  datatype Outcome = Loaded(url: Url, name: string, mime: string, isText: bool) | Failed(message: string)

  /** Where a load is suspended. */
  datatype Phase = Fetching | FetchingText | ReadingText | Finished

  datatype Load = Load(generation: nat, file: string, phase: Phase)

  datatype Shown = Shown(url: Url, name: string, mime: string)

  datatype Screen = Screen(loading: bool, progress: Option<int>, error: Option<string>, preview: Option<Shown>,
                           text: Option<string>)

  const BLANK := Screen(false, None, None, None, None)

  datatype UrlUse = Adopted(url: Url) | Revoked(url: Url)

  datatype State = State(generation: nat, blobUrl: Option<Url>, screen: Screen, loads: seq<Load>, uses: seq<UrlUse>)

  const START := State(0, None, BLANK, [], [])

  datatype Event =
    | Show(file: Option<string>)          // the fileId effect, after the previous one's cleanup
    | Progress(load: nat, percent: int)
    | Resolve(load: nat, outcome: Outcome)
    | TextFetched(load: nat)
    | TextRead(load: nat, text: string)
    | TextFails(load: nat)

  function CleanUp(st: State): State {
    State(st.generation + 1, None, BLANK, st.loads,
          if st.blobUrl.Some? then st.uses + [Revoked(st.blobUrl.value)] else st.uses)
  }

  /** The effect is cleaned up, then a load starts, which cleans up once more; an empty id counts as none. */
  function Showing(st: State, file: Option<string>): State {
    var clean := CleanUp(CleanUp(st));
    if file.None? || file.value == "" then clean
    else clean.(screen := BLANK.(loading := true), loads := st.loads + [Load(clean.generation, file.value, Fetching)])
  }

  predicate Current(st: State, i: nat)
    requires i < |st.loads|
  {
    st.loads[i].generation == st.generation
  }

  function SetPhase(st: State, i: nat, phase: Phase): State
    requires i < |st.loads|
  {
    st.(loads := st.loads[i := st.loads[i].(phase := phase)])
  }

  /** The text that may be shown is cut off. */
  function Excerpt(text: string): (r: string)
    ensures r <= text
    ensures |r| == if |text| <= 500_000 then |text| else 500_000
  {
    if |text| <= TEXT_LIMIT then text else text[..TEXT_LIMIT]
  }

  function Resolved(st: State, i: nat, outcome: Outcome): State
    requires i < |st.loads|
  {
    if !Current(st, i) then SetPhase(st, i, Finished)
    else
      var idle := st.screen.(loading := false, progress := None);
      match outcome
      case Failed(message) => SetPhase(st, i, Finished).(screen := idle.(error := Some(message)))
      case Loaded(url, name, mime, isText) =>
        SetPhase(st, i, if isText then FetchingText else Finished)
          .(blobUrl := Some(url), uses := st.uses + [Adopted(url)],
            screen := idle.(preview := Some(Shown(url, name, mime))))
  }

  function Step(st: State, e: Event): State {
    match e
    case Show(file) => Showing(st, file)
    case Progress(i, percent) =>
      if i < |st.loads| && Current(st, i) then st.(screen := st.screen.(progress := Some(percent))) else st
    case Resolve(i, outcome) =>
      if i >= |st.loads| || st.loads[i].phase != Fetching then st else Resolved(st, i, outcome)
    case TextFetched(i) =>
      if i >= |st.loads| || st.loads[i].phase != FetchingText then st
      else SetPhase(st, i, if Current(st, i) then ReadingText else Finished)
    case TextRead(i, text) =>
      if i >= |st.loads| || st.loads[i].phase != ReadingText then st
      else
        var next := SetPhase(st, i, Finished);
        if Current(st, i) then next.(screen := st.screen.(text := Some(Excerpt(text)))) else next
    case TextFails(i) =>
      if i >= |st.loads| || (st.loads[i].phase != FetchingText && st.loads[i].phase != ReadingText) then st
      else
        var next := SetPhase(st, i, Finished);
        if Current(st, i) then next.(screen := st.screen.(text := Some("[Could not read file]"))) else next
  }

  function Run(st: State, es: seq<Event>): State
    decreases |es|
  {
    if es == [] then st else Run(Step(st, es[0]), es[1..])
  }

  /** The component's callbacks, over its refs and its React state. */
  class FilePreview {
    var generation: nat
    var blobUrl: Option<Url>
    var screen: Screen
    var loads: seq<Load>
    ghost var uses: seq<UrlUse>

    ghost function View(): State
      reads this
    {
      State(generation, blobUrl, screen, loads, uses)
    }

    constructor ()
      ensures View() == START
    {
      generation, blobUrl, screen, loads, uses := 0, None, BLANK, [], [];
    }

    method Cleanup()
      modifies this
      ensures View() == CleanUp(old(View()))
    {
      generation := generation + 1;
      if blobUrl.Some? {
        uses := uses + [Revoked(blobUrl.value)];
        blobUrl := None;
      }
      screen := screen.(preview := None, text := None, error := None);
      screen := screen.(loading := false, progress := None);
    }

    method OnFileChanged(file: Option<string>)
      modifies this
      ensures View() == Step(old(View()), Show(file))
    {
      Cleanup();
      if file.Some? && file.value != "" {
        LoadPreview(file.value);
      } else {
        Cleanup();
      }
    }

    /** Up to the first await. */
    method LoadPreview(file: string)
      modifies this
      ensures View() == CleanUp(old(View())).(
                screen := BLANK.(loading := true),
                loads := old(loads) + [Load(old(generation) + 1, file, Fetching)])
    {
      Cleanup();
      var mine := generation;
      screen := screen.(loading := true);
      screen := screen.(progress := None);
      loads := loads + [Load(mine, file, Fetching)];
    }

    method OnProgress(i: nat, percent: int)
      requires i < |loads|
      modifies this
      ensures View() == Step(old(View()), Progress(i, percent))
    {
      if generation == loads[i].generation {
        screen := screen.(progress := Some(percent));
      }
    }

    /** From the first await to the next, or to the end. */
    method OnResolved(i: nat, outcome: Outcome)
      requires i < |loads| && loads[i].phase == Fetching
      modifies this
      ensures View() == Step(old(View()), Resolve(i, outcome))
    {
      var mine := loads[i].generation;
      loads := loads[i := loads[i].(phase := Finished)];
      if generation != mine { return; }
      screen := screen.(loading := false);
      screen := screen.(progress := None);
      if outcome.Failed? {
        screen := screen.(error := Some(outcome.message));
        return;
      }
      blobUrl := Some(outcome.url);
      uses := uses + [Adopted(outcome.url)];
      screen := screen.(preview := Some(Shown(outcome.url, outcome.name, outcome.mime)));
      if outcome.isText {
        loads := loads[i := loads[i].(phase := FetchingText)];
      }
    }

    method OnTextFetched(i: nat)
      requires i < |loads| && loads[i].phase == FetchingText
      modifies this`loads
      ensures View() == Step(old(View()), TextFetched(i))
    {
      loads := loads[i := loads[i].(phase := if generation != loads[i].generation then Finished else ReadingText)];
    }

    method OnTextFailed(i: nat)
      requires i < |loads| && (loads[i].phase == FetchingText || loads[i].phase == ReadingText)
      modifies this
      ensures View() == Step(old(View()), TextFails(i))
    {
      var mine := loads[i].generation;
      loads := loads[i := loads[i].(phase := Finished)];
      if generation == mine {
        screen := screen.(text := Some("[Could not read file]"));
      }
    }

    method OnTextRead(i: nat, text: string)
      requires i < |loads| && loads[i].phase == ReadingText
      modifies this
      ensures View() == Step(old(View()), TextRead(i, text))
    {
      var mine := loads[i].generation;
      loads := loads[i := loads[i].(phase := Finished)];
      if generation == mine {
        screen := screen.(text := Some(if |text| <= TEXT_LIMIT then text else text[..TEXT_LIMIT]));
      }
    }
  }

  // -------------------------------------------------------------------
  // One load on its own
  // -------------------------------------------------------------------

  /** The same load with nothing else going on, and so with nothing to guard against. */
  datatype Solo = Solo(screen: Screen, phase: Phase)

  const SOLO_START := Solo(BLANK.(loading := true), Fetching)

  function SoloStep(s: Solo, e: Event): Solo {
    match e
    case Show(_) => s
    case Progress(_, percent) => s.(screen := s.screen.(progress := Some(percent)))
    case Resolve(_, outcome) =>
      if s.phase != Fetching then s
      else
        var idle := s.screen.(loading := false, progress := None);
        (match outcome
         case Failed(message) => Solo(idle.(error := Some(message)), Finished)
         case Loaded(url, name, mime, isText) =>
           Solo(idle.(preview := Some(Shown(url, name, mime))), if isText then FetchingText else Finished))
    case TextFetched(_) => if s.phase == FetchingText then s.(phase := ReadingText) else s
    case TextRead(_, text) =>
      if s.phase == ReadingText then Solo(s.screen.(text := Some(Excerpt(text))), Finished) else s
    case TextFails(_) =>
      if s.phase == FetchingText || s.phase == ReadingText
      then Solo(s.screen.(text := Some("[Could not read file]")), Finished) else s
  }

  function SoloRun(s: Solo, es: seq<Event>): Solo
    decreases |es|
  {
    if es == [] then s else SoloRun(SoloStep(s, es[0]), es[1..])
  }

  predicate Opens(e: Event) {
    e.Show? && e.file.Some? && e.file.value != ""
  }

  predicate ConcernsLoad(e: Event, i: nat) {
    !e.Show? && e.load == i
  }

  function OwnEvents(es: seq<Event>, i: nat): seq<Event> {
    if es == [] then [] else (if ConcernsLoad(es[0], i) then [es[0]] else []) + OwnEvents(es[1..], i)
  }

  predicate NoShow(es: seq<Event>) {
    forall i :: 0 <= i < |es| ==> !es[i].Show?
  }

  // -------------------------------------------------------------------
  // Invariants
  // -------------------------------------------------------------------

  predicate LoadsInOrder(st: State) {
    && (forall i :: 0 <= i < |st.loads| ==> st.loads[i].generation <= st.generation)
    && (forall i, j :: 0 <= i < j < |st.loads| ==> st.loads[i].generation < st.loads[j].generation)
  }

  /** Adoptions and revocations of blob URLs take turns, each adopted URL being the next one revoked. */
  predicate TakesTurns(uses: seq<UrlUse>) {
    && (uses != [] ==> uses[0].Adopted?)
    && forall i :: 0 < i < |uses| ==>
         if uses[i].Revoked? then uses[i - 1] == Adopted(uses[i].url) else uses[i - 1].Revoked?
  }

  /** The URL adopted last, if it has not been revoked. */
  function Held(uses: seq<UrlUse>): Option<Url> {
    if uses != [] && uses[|uses| - 1].Adopted? then Some(uses[|uses| - 1].url) else None
  }

  /** The URL held is the one adopted and not yet revoked, and the only one on screen. */
  predicate UrlsInOrder(st: State) {
    && TakesTurns(st.uses)
    && st.blobUrl == Held(st.uses)
    && (st.screen.preview.Some? ==> st.blobUrl == Some(st.screen.preview.value.url))
    && (forall i :: 0 <= i < |st.loads| && Current(st, i) && st.loads[i].phase == Fetching ==> st.blobUrl.None?)
  }

  lemma CleanUpKeepsOrder(st: State)
    requires LoadsInOrder(st) && UrlsInOrder(st)
    ensures LoadsInOrder(CleanUp(st)) && UrlsInOrder(CleanUp(st))
  {
  }

  lemma ResolveKeepsOrder(st: State, i: nat, outcome: Outcome)
    requires LoadsInOrder(st) && UrlsInOrder(st) && i < |st.loads| && st.loads[i].phase == Fetching
    ensures LoadsInOrder(Resolved(st, i, outcome)) && UrlsInOrder(Resolved(st, i, outcome))
  {
    var st' := Resolved(st, i, outcome);
    forall j | 0 <= j < |st.loads|
      ensures j != i ==> st'.loads[j] == st.loads[j] && (Current(st, i) ==> !Current(st, j))
    {
    }
  }

  /** URLs and loads as before, except that loads may be further along. */
  predicate SameUrls(st: State, st': State) {
    && st'.generation == st.generation && st'.blobUrl == st.blobUrl && st'.uses == st.uses
    && st'.screen.preview == st.screen.preview
    && |st'.loads| == |st.loads|
    && forall i :: 0 <= i < |st.loads| ==>
         st'.loads[i].generation == st.loads[i].generation
         && (st'.loads[i].phase == Fetching ==> st.loads[i].phase == Fetching)
  }

  lemma OthersKeepUrls(st: State, e: Event)
    requires !e.Show? && !e.Resolve?
    ensures SameUrls(st, Step(st, e))
  {
  }

  lemma SameUrlsStayInOrder(st: State, st': State)
    requires LoadsInOrder(st) && UrlsInOrder(st) && SameUrls(st, st')
    ensures LoadsInOrder(st') && UrlsInOrder(st')
  {
    forall i | 0 <= i < |st.loads| && Current(st', i)
      ensures Current(st, i)
    {
    }
  }

  lemma StepKeepsOrder(st: State, e: Event)
    requires LoadsInOrder(st) && UrlsInOrder(st)
    ensures LoadsInOrder(Step(st, e)) && UrlsInOrder(Step(st, e))
  {
    match e
    case Show(file) =>
      CleanUpKeepsOrder(st);
      CleanUpKeepsOrder(CleanUp(st));
    case Resolve(i, outcome) =>
      if i < |st.loads| && st.loads[i].phase == Fetching {
        ResolveKeepsOrder(st, i, outcome);
      }
    case _ =>
      OthersKeepUrls(st, e);
      SameUrlsStayInOrder(st, Step(st, e));
  }

  /** Over every run blob URLs are adopted one at a time, and each is revoked once before the next. */
  lemma {:induction false} RunKeepsOrder(st: State, es: seq<Event>)
    requires LoadsInOrder(st) && UrlsInOrder(st)
    ensures LoadsInOrder(Run(st, es)) && UrlsInOrder(Run(st, es))
    decreases |es|
  {
    if es != [] {
      StepKeepsOrder(st, es[0]);
      RunKeepsOrder(Step(st, es[0]), es[1..]);
    }
  }

  lemma UrlsTakeTurns(es: seq<Event>)
    ensures var st := Run(START, es);
            && TakesTurns(st.uses)
            && st.blobUrl == Held(st.uses)
            && (st.screen.preview.Some? ==> Held(st.uses) == Some(st.screen.preview.value.url))
  {
    RunKeepsOrder(START, es);
  }

  // -------------------------------------------------------------------
  // Stale work never shows
  // -------------------------------------------------------------------

  lemma StaleStepChangesNothing(st: State, e: Event)
    requires LoadsInOrder(st) && !e.Show?
    requires e.load < |st.loads| ==> !Current(st, e.load)
    ensures Step(st, e).screen == st.screen && Step(st, e).generation == st.generation
    ensures |Step(st, e).loads| == |st.loads|
    ensures forall i :: 0 <= i < |st.loads| ==> Step(st, e).loads[i].generation == st.loads[i].generation
    ensures forall i :: 0 <= i < |st.loads| && i != e.load ==> Step(st, e).loads[i] == st.loads[i]
    ensures Step(st, e).blobUrl == st.blobUrl && Step(st, e).uses == st.uses
  {
  }

  lemma {:induction false} LastLoadRunsAlone(st: State, s: Solo, es: seq<Event>)
    requires LoadsInOrder(st) && UrlsInOrder(st) && NoShow(es)
    requires st.loads != [] && Current(st, |st.loads| - 1)
    requires s == Solo(st.screen, st.loads[|st.loads| - 1].phase)
    ensures Run(st, es).screen == SoloRun(s, OwnEvents(es, |st.loads| - 1)).screen
    decreases |es|
  {
    if es != [] {
      var e, last := es[0], |st.loads| - 1;
      var st' := Step(st, e);
      assert !es[0].Show?;
      assert forall i :: 0 <= i < |es[1..]| ==> es[1..][i] == es[i + 1];
      StepKeepsOrder(st, e);
      if e.load == last {
        assert OwnEvents(es, last) == [e] + OwnEvents(es[1..], last);
        assert OwnEvents(es, last)[1..] == OwnEvents(es[1..], last);
        LastLoadRunsAlone(st', SoloStep(s, e), es[1..]);
      } else {
        assert OwnEvents(es, last) == OwnEvents(es[1..], last);
        StaleStepChangesNothing(st, e);
        LastLoadRunsAlone(st', s, es[1..]);
      }
    }
  }

  lemma {:induction false} ClosedStaysBlank(st: State, es: seq<Event>)
    requires LoadsInOrder(st) && UrlsInOrder(st) && NoShow(es)
    requires forall i :: 0 <= i < |st.loads| ==> !Current(st, i)
    requires st.screen == BLANK
    ensures Run(st, es).screen == BLANK
    decreases |es|
  {
    if es != [] {
      assert !es[0].Show?;
      assert forall i :: 0 <= i < |es[1..]| ==> es[1..][i] == es[i + 1];
      StepKeepsOrder(st, es[0]);
      StaleStepChangesNothing(st, es[0]);
      forall i | 0 <= i < |st.loads|
        ensures !Current(Step(st, es[0]), i)
      {
        assert !Current(st, i);
      }
      ClosedStaysBlank(Step(st, es[0]), es[1..]);
    }
  }

  /**
   Whatever went on before, and however the completions of earlier loads are mixed in
   afterwards, what is on screen is what the load started last would have put there had
   it run alone; after a close the screen stays blank.
   */
  lemma OnlyTheLastLoadShows(before: seq<Event>, file: Option<string>, after: seq<Event>)
    requires NoShow(after)
    ensures var started := Run(START, before);
            Run(Step(started, Show(file)), after).screen ==
            if Opens(Show(file)) then SoloRun(SOLO_START, OwnEvents(after, |started.loads|)).screen else BLANK
  {
    RunKeepsOrder(START, before);
    var started := Run(START, before);
    StepKeepsOrder(started, Show(file));
    if Opens(Show(file)) {
      LastLoadRunsAlone(Step(started, Show(file)), SOLO_START, after);
    } else {
      ClosedStaysBlank(Step(started, Show(file)), after);
    }
  }

  lemma {:induction false} RunAppend(st: State, a: seq<Event>, b: seq<Event>)
    ensures Run(st, a + b) == Run(Run(st, a), b)
    decreases |a|
  {
    if a == [] {
      assert a + b == b;
    } else {
      assert (a + b)[1..] == a[1..] + b;
      RunAppend(Step(st, a[0]), a[1..], b);
    }
  }

  /** A result that arrives after its load was overtaken is dropped as it is: its blob URL is never revoked either. */
  lemma OvertakenResultIsDropped(before: seq<Event>, i: nat, outcome: Outcome)
    requires i < |Run(START, before).loads| && !Current(Run(START, before), i)
    ensures var st, st' := Run(START, before), Run(START, before + [Resolve(i, outcome)]);
            st'.screen == st.screen && st'.blobUrl == st.blobUrl && st'.uses == st.uses
  {
    RunKeepsOrder(START, before);
    RunAppend(START, before, [Resolve(i, outcome)]);
    var st := Run(START, before);
    assert [Resolve(i, outcome)][1..] == [];
    assert Run(st, [Resolve(i, outcome)]) == Run(Step(st, Resolve(i, outcome)), []);
    StaleStepChangesNothing(st, Resolve(i, outcome));
  }
}

/** The suggestion panel of the search box (FastaSearchSuggestion), as pure
    state transitions. Every change of the search term clears the pending
    timer and arms a new one for 300 ms later; when a timer fires, the term it
    was armed with is fetched: from the suggestion cache when that holds a
    non-empty list, otherwise by a request to the remote service whose answer
    arrives later as a separate event. Choosing a suggestion hands an item to
    the parent and hides the panel until the term changes. */
module FastaSuggestion {
  import opened Common
  import opened Text

  /** One suggestion from the remote service. `category` is the field the
      source calls `type`. */
  datatype Suggestion = Suggestion(
    id: string,
    primaryCommonName: string,
    scientificName: string,
    additionalCommonNames: seq<string>,
    category: string)

  /** The last term a fetch was started for, with a running count. */
  datatype LastInput = LastInput(term: string, id: nat)

  /** A pending debounce timer: the term it fetches and when it fires. */
  datatype Timer = Timer(term: string, due: int)

  /** The answer to a remote request: a list (an empty list also stands for
      a missing one), or an exception. */
  datatype Outcome = Found(results: seq<Suggestion>) | Failed

  datatype State = State(
    searchTerm: string,
    suggestions: seq<Suggestion>,
    loading: bool,
    lastAddedTerm: string,
    lastInput: LastInput,
    pending: Option<Timer>,
    inFlight: multiset<string>,
    cache: map<string, seq<Suggestion>>)

  /** The item handed to the parent's addItem when a suggestion is chosen. */
  datatype AddedItem = AddedItem(kind: string, content: string, itemLabel: string, id: string, searchTerm: string)

  const DebounceMillis: int := 300

  /** Terms whose trimmed length is at most this are not looked up. */
  const MaxIgnoredLength: nat := 2

  /** The term is blank or too short to look up. Its length is JavaScript's,
      in UTF-16 code units: a blank term and a trimmed term of one character
      always are short, and a short term never has more than
      MaxIgnoredLength characters once trimmed. */
  function ShortTerm(term: string): (r: bool)
    ensures AllWhitespace(term) ==> r
    ensures |Trim(term)| <= 1 ==> r
    ensures r ==> |Trim(term)| <= MaxIgnoredLength
  {
    Utf16Length(Trim(term)) <= MaxIgnoredLength
  }

  /** A term of two characters, one of them outside the Basic Multilingual
      Plane, is three code units long, so it is looked up. */
  lemma ShortTermCountsCodeUnits()
    ensures |"\U{1F600}a"| == 2 && !ShortTerm("\U{1F600}a")
  {
    var s := "\U{1F600}a";
    TrimUnique(s, 0, 2);
    assert s[1..] == "a";
  }

  /** Whitespace around a term never decides whether it is looked up. */
  lemma ShortTermIgnoresPadding(pre: string, term: string, post: string)
    requires AllWhitespace(pre) && AllWhitespace(post)
    ensures ShortTerm(pre + term + post) == ShortTerm(term)
  {
    TrimIgnoresPadding(pre, term, post);
  }

  /** The cache holds a non-empty list for `key`. */
  predicate CachedNonEmpty(cache: map<string, seq<Suggestion>>, key: string) {
    key in cache && |cache[key]| != 0
  }

  /** The panel is rendered: the term is not blank, it is not the term of
      the last chosen suggestion, and there is something to show. */
  function PanelVisible(s: State): (r: bool)
    ensures r <==> !AllWhitespace(s.searchTerm) && s.searchTerm != s.lastAddedTerm && |s.suggestions| != 0
  {
    |Trim(s.searchTerm)| != 0 && s.searchTerm != s.lastAddedTerm && |s.suggestions| != 0
  }

  /** The first render, with the cache contents found at mount time. */
  function Mount(searchTerm: string, now: int, cache: map<string, seq<Suggestion>>): (r: State)
    ensures r.suggestions == [] && !r.loading && r.lastAddedTerm == "" && r.inFlight == multiset{}
    ensures r.lastInput == LastInput("", 0)
    ensures r.pending == Some(Timer(searchTerm, now + DebounceMillis))
    ensures !PanelVisible(r)
  {
    State(searchTerm, [], false, "", LastInput("", 0), Some(Timer(searchTerm, now + DebounceMillis)), multiset{}, cache)
  }

  /** The effect re-run on a new search term: the cleanup clears the old
      timer, and a new one is armed for the new term. */
  function TermChanged(s: State, term: string, now: int): (r: State)
    ensures r.searchTerm == term
    ensures r.pending == Some(Timer(term, now + DebounceMillis))
    ensures r == s.(searchTerm := r.searchTerm, pending := r.pending)
  {
    s.(searchTerm := term, pending := Some(Timer(term, now + DebounceMillis)))
  }

  /** fetchSuggestions for the term the timer was armed with, up to its first
      await: a short term clears the list; otherwise the fetch is counted,
      and a non-empty cached list is shown at once or a request is sent. */
  function RunFetch(s: State, term: string): (r: State)
    ensures r.searchTerm == s.searchTerm && r.lastAddedTerm == s.lastAddedTerm
    ensures r.pending == s.pending && r.cache == s.cache
    ensures ShortTerm(term) ==> r == s.(suggestions := [])
    ensures !ShortTerm(term) ==>
              && r.lastInput == LastInput(Normalize(term), s.lastInput.id + 1)
              && (CachedNonEmpty(s.cache, Normalize(term)) ==>
                    r.suggestions == s.cache[Normalize(term)] && !r.loading && r.inFlight == s.inFlight)
              && (!CachedNonEmpty(s.cache, Normalize(term)) ==>
                    r.suggestions == s.suggestions && r.loading &&
                    r.inFlight == s.inFlight + multiset{Normalize(term)})
  {
    if ShortTerm(term) then s.(suggestions := [])
    else
      var key := Normalize(term);
      var started := s.(loading := true, lastInput := LastInput(key, s.lastInput.id + 1));
      if CachedNonEmpty(s.cache, key) then started.(suggestions := s.cache[key], loading := false)
      else started.(inFlight := s.inFlight + multiset{key})
  }

  /** Time passes to `now`: a due timer fires and is spent. */
  function Tick(s: State, now: int): (r: State)
    ensures s.pending.None? || now < s.pending.value.due ==> r == s
    ensures s.pending.Some? && s.pending.value.due <= now ==>
              r == RunFetch(s.(pending := None), s.pending.value.term)
  {
    match s.pending
    case Some(timer) =>
      if timer.due <= now then RunFetch(s.(pending := None), timer.term) else s
    case None => s
  }

  /** The rest of fetchSuggestions once the request for `key` answers: a
      non-empty list is shown and cached; an empty one changes nothing; a
      failure shows the cached list, or nothing. Loading ends either way. */
  function Settle(s: State, key: string, outcome: Outcome): (r: State)
    requires key in s.inFlight
    ensures r.inFlight == s.inFlight - multiset{key} && !r.loading
    ensures r.searchTerm == s.searchTerm && r.lastAddedTerm == s.lastAddedTerm
    ensures r.lastInput == s.lastInput && r.pending == s.pending
    ensures outcome.Found? && |outcome.results| != 0 ==>
              r.suggestions == outcome.results && r.cache == s.cache[key := outcome.results]
    ensures outcome.Found? && |outcome.results| == 0 ==>
              r.suggestions == s.suggestions && r.cache == s.cache
    ensures outcome.Failed? ==>
              r.cache == s.cache &&
              r.suggestions == (if CachedNonEmpty(s.cache, key) then s.cache[key] else [])
  {
    var done := s.(inFlight := s.inFlight - multiset{key}, loading := false);
    match outcome
    case Found(results) =>
      if |results| != 0 then done.(suggestions := results, cache := s.cache[key := results]) else done
    case Failed =>
      if CachedNonEmpty(s.cache, key) then done.(suggestions := s.cache[key]) else done.(suggestions := [])
  }

  /** handleSuggestionSelect: the item passed to addItem, and the state after
      remembering the current term and clearing the list. The accession
      parser is a parameter. Only a rendered suggestion can be chosen. */
  function Select(s: State, sg: Suggestion, kind: string, parseAccession: string -> string): (r: (State, AddedItem))
    requires PanelVisible(s) && sg in s.suggestions
    ensures r.1.kind == kind && r.1.content == "" && r.1.itemLabel == sg.primaryCommonName
    ensures r.1.id == parseAccession(sg.id)
    ensures r.1.searchTerm == Normalize(sg.primaryCommonName)
    ensures r.0.lastAddedTerm == s.searchTerm && r.0.suggestions == []
    ensures r.0 == s.(lastAddedTerm := r.0.lastAddedTerm, suggestions := r.0.suggestions)
    ensures !PanelVisible(r.0)
  {
    var item := AddedItem(kind, "", sg.primaryCommonName, parseAccession(sg.id), Normalize(sg.primaryCommonName));
    (s.(lastAddedTerm := s.searchTerm, suggestions := []), item)
  }

  // ------------------------------------------------------------ event traces

  datatype Event =
    | Typed(term: string, at: int)
    | TickAt(now: int)
    | Answer(key: string, outcome: Outcome)

  /** One event. The effect only re-runs when the term really changes, and
      only requests still in flight can answer. */
  function Step(s: State, e: Event): State {
    match e
    case Typed(term, at) => if term == s.searchTerm then s else TermChanged(s, term, at)
    case TickAt(now) => Tick(s, now)
    case Answer(key, outcome) => if key in s.inFlight then Settle(s, key, outcome) else s
  }

  function Run(s: State, events: seq<Event>): State {
    if |events| == 0 then s else Step(Run(s, events[..|events| - 1]), events[|events| - 1])
  }

  /** The last typed term and time in `events`, if any. */
  function LastTyped(events: seq<Event>): (r: Option<(string, int)>)
    ensures r.None? <==> forall i :: 0 <= i < |events| ==> !events[i].Typed?
  {
    if |events| == 0 then None
    else if events[|events| - 1].Typed? then Some((events[|events| - 1].term, events[|events| - 1].at))
    else
      var r := LastTyped(events[..|events| - 1]);
      assert forall i :: 0 <= i < |events| - 1 ==> events[..|events| - 1][i] == events[i];
      r
  }

  /** A burst of typing: it opens with a change of the term, each later
      keystroke changes the term again, and every clock tick comes less than
      300 ms after the keystroke before it. Answers may arrive in between. */
  predicate Burst(s: State, events: seq<Event>) {
    if |events| <= 1 then |events| == 1 && events[0].Typed? && events[0].term != s.searchTerm
    else
      var init := events[..|events| - 1];
      Burst(s, init) && LastTyped(init).Some? && Fits(events[|events| - 1], LastTyped(init).value)
  }

  /** An event that continues a burst whose last keystroke was `last`. */
  predicate Fits(e: Event, last: (string, int)) {
    && (e.Typed? ==> e.term != last.0)
    && (e.TickAt? ==> e.now < last.1 + DebounceMillis)
  }

  /** Where a burst whose last keystroke was `last` has left the panel
      that started in `s`: the term is the last one typed, its timer is the
      only one pending, no fetch has started and no request was added. */
  predicate InBurst(r: State, last: (string, int), s: State) {
    && r.searchTerm == last.0
    && r.pending == Some(Timer(last.0, last.1 + DebounceMillis))
    && r.lastInput == s.lastInput
    && r.inFlight <= s.inFlight
  }

  /** During a burst no fetch starts: the only pending timer is the one for
      the last term typed, and the fetch count is untouched. */
  lemma {:induction false} BurstFetchesNothing(s: State, events: seq<Event>)
    requires Burst(s, events)
    ensures LastTyped(events).Some? && InBurst(Run(s, events), LastTyped(events).value, s)
    decreases |events|
  {
    var n := |events|;
    if n == 1 {
      BurstStart(s, events);
    } else {
      var init := events[..n - 1];
      var e := events[n - 1];
      BurstFetchesNothing(s, init);
      var prev := Run(s, init);
      var last := LastTyped(init).value;
      var now := if e.Typed? then (e.term, e.at) else last;
      BurstStep(prev, e, last, now, s);
      assert Run(s, events) == Step(prev, e);
      assert LastTyped(events) == Some(now);
    }
  }

  lemma BurstStart(s: State, events: seq<Event>)
    requires |events| == 1 && events[0].Typed? && events[0].term != s.searchTerm
    ensures LastTyped(events) == Some((events[0].term, events[0].at))
    ensures Run(s, events) == TermChanged(s, events[0].term, events[0].at)
  {
    assert events[..0] == [];
  }

  /** One event inside a burst. */
  lemma BurstStep(prev: State, e: Event, last: (string, int), now: (string, int), s: State)
    requires InBurst(prev, last, s) && Fits(e, last)
    requires now == if e.Typed? then (e.term, e.at) else last
    ensures InBurst(Step(prev, e), now, s)
  {
    assert Step(prev, e).inFlight <= prev.inFlight;
  }

  /** Once the burst is over, the timer fires for the last term only: a
      long term starts exactly one fetch, for its normalised form. */
  lemma BurstThenQuiet(s: State, events: seq<Event>, now: int)
    requires Burst(s, events)
    requires LastTyped(events).Some? && now >= LastTyped(events).value.1 + DebounceMillis
    ensures var last := LastTyped(events).value.0;
            var r := Tick(Run(s, events), now);
            && r.pending.None?
            && (!ShortTerm(last) ==> r.lastInput == LastInput(Normalize(last), s.lastInput.id + 1))
            && (ShortTerm(last) ==> r.lastInput == s.lastInput && r.suggestions == [])
  {
    BurstFetchesNothing(s, events);
  }

  /** Without a new keystroke, nothing reopens the panel after a choice:
      ticks and answers never touch the term or the remembered term. */
  lemma {:induction false} ChoiceStaysHidden(s: State, events: seq<Event>)
    requires s.searchTerm == s.lastAddedTerm
    requires forall i :: 0 <= i < |events| ==> !events[i].Typed? || events[i].term == s.searchTerm
    ensures Run(s, events).searchTerm == s.searchTerm
    ensures Run(s, events).lastAddedTerm == s.lastAddedTerm
    ensures !PanelVisible(Run(s, events))
  {
    if |events| > 0 {
      var init := events[..|events| - 1];
      assert forall i :: 0 <= i < |init| ==> init[i] == events[i];
      ChoiceStaysHidden(s, init);
    }
  }

  /** A later answer for an older term replaces the list of the current
      term: answers are not matched against the last fetch. */
  lemma StaleAnswerWins(s: State, older: string, newer: string, current: seq<Suggestion>, late: seq<Suggestion>)
    requires older != newer
    requires s.inFlight == multiset{older, newer} && s.lastInput.term == newer
    requires |current| != 0 && |late| != 0
    ensures var r := Run(s, [Answer(newer, Found(current)), Answer(older, Found(late))]);
            r.suggestions == late && r.lastInput.term == newer && r.inFlight == multiset{}
  {
    var events := [Answer(newer, Found(current)), Answer(older, Found(late))];
    assert events[..1] == [Answer(newer, Found(current))];
    assert events[..1][..0] == [];
    var s1 := Settle(s, newer, Found(current));
    assert Run(s, events[..1]) == s1;
    assert s1.inFlight == multiset{older};
    var s2 := Settle(s1, older, Found(late));
    assert Run(s, events) == s2;
    assert s2.inFlight == multiset{};
  }

  /** An answer that is cached is served from the cache the next time a
      term with the same key fires, without a new request. */
  lemma CachedAnswerServedNextTime(s: State, key: string, results: seq<Suggestion>, term: string)
    requires key in s.inFlight && |results| != 0
    requires !ShortTerm(term) && Normalize(term) == key
    ensures var r := RunFetch(Settle(s, key, Found(results)), term);
            && r.suggestions == results && !r.loading
            && r.inFlight == s.inFlight - multiset{key}
  {
  }

  /** A failed request falls back to what the cache holds for its key. */
  lemma FailureFallsBackToCache(s: State, key: string, term: string)
    requires key in s.inFlight && !ShortTerm(term) && Normalize(term) == key
    ensures var r := Settle(s, key, Failed);
            CachedNonEmpty(s.cache, key) ==> r.suggestions == RunFetch(s, term).suggestions
  {
  }

  /** Terms that differ in letter case or surrounding whitespace are looked
      up under the same key, so they share cache entries. */
  lemma SameKeyForCaseAndPadding(s: State, pre: string, term: string, post: string)
    requires AllWhitespace(pre) && AllWhitespace(post)
    ensures ShortTerm(pre + ToLower(term) + post) == ShortTerm(term)
    ensures RunFetch(s, pre + ToLower(term) + post) == RunFetch(s, term)
  {
    var typed := pre + ToLower(term) + post;
    SameKey(pre, term, post);
    RunFetchDependsOnKey(s, typed, term);
  }

  lemma SameKey(pre: string, term: string, post: string)
    requires AllWhitespace(pre) && AllWhitespace(post)
    ensures ShortTerm(pre + ToLower(term) + post) == ShortTerm(term)
    ensures Normalize(pre + ToLower(term) + post) == Normalize(term)
  {
    NormalizeIgnoresCaseAndPadding(pre, term, post);
    TrimIgnoresPadding(pre, ToLower(term), post);
    TrimToLower(term);
    Utf16LengthToLower(Trim(term));
  }

  /** A fetch depends on the term only through its length check and key. */
  lemma RunFetchDependsOnKey(s: State, a: string, b: string)
    requires ShortTerm(a) == ShortTerm(b) && Normalize(a) == Normalize(b)
    ensures RunFetch(s, a) == RunFetch(s, b)
  {
  }
}

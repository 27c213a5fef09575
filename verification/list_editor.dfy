/** The list editor (ListEditor): a search box whose Enter key records the
    typed term as a result, a list of chosen results, the projection
    check-boxes, and the search button that hands both to the parent. Its
    handlers are modelled as pure functions on the component state. */
module ListEditor {
  import opened Common
  import opened Text

  datatype EditorState = EditorState(
    searchTerm: string,
    searchResults: seq<string>,
    selectedItems: seq<string>,
    projections: map<string, bool>)

  /** The projection that can never be switched off. */
  const Locked: string := "Accession"

  function InitialProjections(): (r: map<string, bool>)
    ensures r.Keys == {"Accession", "ScientificName", "CommonName", "FileName"}
    ensures Locked in r && r[Locked]
  {
    map["Accession" := true, "ScientificName" := false, "CommonName" := true, "FileName" := false]
  }

  /** The state of a freshly mounted editor. */
  function Init(): (r: EditorState)
    ensures r.searchTerm == "" && r.searchResults == [] && r.selectedItems == []
    ensures r.projections == InitialProjections()
  {
    EditorState("", [], [], InitialProjections())
  }

  /** onInputChange: the new term replaces the old one and clears the
      results. */
  function OnInputChange(s: EditorState, term: string): (r: EditorState)
    ensures r.searchTerm == term && r.searchResults == []
    ensures r.selectedItems == s.selectedItems && r.projections == s.projections
  {
    s.(searchTerm := term, searchResults := [])
  }

  /** handleKeyDown: Enter on a term that is not blank records it as one
      more result; any other key, or a blank term, changes nothing. */
  function HandleKeyDown(s: EditorState, key: string): (r: EditorState)
    ensures r.searchTerm == s.searchTerm && r.selectedItems == s.selectedItems
    ensures r.projections == s.projections
    ensures key == "Enter" && |Trim(s.searchTerm)| != 0 ==>
              r.searchResults == s.searchResults + [s.searchTerm]
    ensures key != "Enter" || |Trim(s.searchTerm)| == 0 ==> r == s
  {
    if key == "Enter" && |Trim(s.searchTerm)| != 0 then
      s.(searchResults := s.searchResults + [s.searchTerm])
    else s
  }

  /** A click on the k-th result appends it to the chosen items. Only a
      rendered result can be clicked. */
  function ClickResult(s: EditorState, k: nat): (r: EditorState)
    requires k < |s.searchResults|
    ensures |r.selectedItems| == |s.selectedItems| + 1
    ensures r.selectedItems[..|s.selectedItems|] == s.selectedItems
    ensures r.selectedItems[|s.selectedItems|] == s.searchResults[k]
    ensures r == s.(selectedItems := r.selectedItems)
  {
    var items := s.selectedItems + [s.searchResults[k]];
    assert items[..|s.selectedItems|] == s.selectedItems;
    s.(selectedItems := items)
  }

  /** `items` without the entry at `index`, kept in order, as filter with an
      index test builds it; `from` is the index of items[0] in the whole
      list. */
  function WithoutIndex(items: seq<string>, index: nat, from: nat): (r: seq<string>)
    ensures from <= index < from + |items| ==>
              r == items[..index - from] + items[index - from + 1..]
    ensures !(from <= index < from + |items|) ==> r == items
    decreases |items|
  {
    if |items| == 0 then []
    else
      var rest := WithoutIndex(items[1..], index, from + 1);
      if from == index then
        assert items[1..] == items[..0] + items[1..];
        rest
      else
        assert [items[0]] + items[1..] == items;
        assert from < index < from + |items| ==>
                 && [items[0]] + items[1..][..index - from - 1] == items[..index - from]
                 && items[1..][index - from..] == items[index - from + 1..];
        [items[0]] + rest
  }

  /** The remove button of the index-th chosen item: only that entry goes,
      the others keep their order. */
  function RemoveSelected(s: EditorState, index: nat): (r: EditorState)
    requires index < |s.selectedItems|
    ensures r.selectedItems == s.selectedItems[..index] + s.selectedItems[index + 1..]
    ensures multiset(r.selectedItems) + multiset{s.selectedItems[index]} == multiset(s.selectedItems)
    ensures r == s.(selectedItems := r.selectedItems)
  {
    var items := s.selectedItems;
    assert items == items[..index] + [items[index]] + items[index + 1..];
    s.(selectedItems := WithoutIndex(items, index, 0))
  }

  /** A projection check-box change: every projection but Accession flips;
      Accession stays as it is. Only a rendered check-box can change. */
  function ToggleProjection(s: EditorState, key: string): (r: EditorState)
    requires key in s.projections
    ensures r.projections.Keys == s.projections.Keys
    ensures key != Locked ==> r.projections[key] == !s.projections[key]
    ensures forall other :: other in s.projections && (other != key || other == Locked) ==>
              r.projections[other] == s.projections[other]
    ensures r == s.(projections := r.projections)
  {
    var value := if key != Locked then !s.projections[key] else s.projections[key];
    s.(projections := s.projections[key := value])
  }

  /** onPerformSearch: the chosen items and projections go to the parent's
      performSearch, unless nothing is chosen. */
  function OnPerformSearch(s: EditorState): (r: Option<(seq<string>, map<string, bool>)>)
    ensures r.Some? <==> |s.selectedItems| != 0
    ensures r.Some? ==> r.value.0 == s.selectedItems && r.value.1 == s.projections
  {
    if |s.selectedItems| != 0 then Some((s.selectedItems, s.projections)) else None
  }

  /** Removing the item just clicked undoes the click. */
  lemma RemoveUndoesClick(s: EditorState, k: nat)
    requires k < |s.searchResults|
    ensures var c := ClickResult(s, k);
            |s.selectedItems| < |c.selectedItems| &&
            RemoveSelected(c, |s.selectedItems|) == s
  {
    var c := ClickResult(s, k);
    var n := |s.selectedItems|;
    assert c.selectedItems[..n] + c.selectedItems[n + 1..] == s.selectedItems;
  }

  /** Flipping a projection twice restores it. */
  lemma ToggleTwiceRestores(s: EditorState, key: string)
    requires key in s.projections
    ensures key in ToggleProjection(s, key).projections
    ensures ToggleProjection(ToggleProjection(s, key), key) == s
  {
    var t := ToggleProjection(ToggleProjection(s, key), key);
    assert t.projections == s.projections;
  }

  // ---------------------------------------------------------- interactions

  datatype Action =
    | Input(term: string)
    | KeyDown(key: string)
    | Click(index: nat)
    | Remove(index: nat)
    | Toggle(name: string)

  /** One user action; a click on something not rendered does nothing. */
  function Apply(s: EditorState, a: Action): EditorState {
    match a
    case Input(term) => OnInputChange(s, term)
    case KeyDown(key) => HandleKeyDown(s, key)
    case Click(k) => if k < |s.searchResults| then ClickResult(s, k) else s
    case Remove(k) => if k < |s.selectedItems| then RemoveSelected(s, k) else s
    case Toggle(name) => if name in s.projections then ToggleProjection(s, name) else s
  }

  function ApplyAll(s: EditorState, actions: seq<Action>): EditorState
    decreases |actions|
  {
    if |actions| == 0 then s else ApplyAll(Apply(s, actions[0]), actions[1..])
  }

  /** What every reachable editor state satisfies: the four projections are
      there, Accession is on, and every result and chosen item is a term
      that is not blank. */
  predicate Good(s: EditorState) {
    && s.projections.Keys == InitialProjections().Keys
    && Locked in s.projections && s.projections[Locked]
    && (forall i :: 0 <= i < |s.searchResults| ==> |Trim(s.searchResults[i])| != 0)
    && (forall i :: 0 <= i < |s.selectedItems| ==> |Trim(s.selectedItems[i])| != 0)
  }

  lemma ApplyKeepsGood(s: EditorState, a: Action)
    requires Good(s)
    ensures Good(Apply(s, a))
  {
    match a
    case Remove(k) =>
      if k < |s.selectedItems| {
        var r := RemoveSelected(s, k);
        forall i | 0 <= i < |r.selectedItems|
          ensures |Trim(r.selectedItems[i])| != 0
        {
          if i < k {
            assert r.selectedItems[i] == s.selectedItems[i];
          } else {
            assert r.selectedItems[i] == s.selectedItems[i + 1];
          }
        }
      }
    case Click(k) =>
      if k < |s.searchResults| {
        var r := ClickResult(s, k);
        forall i | 0 <= i < |r.selectedItems|
          ensures |Trim(r.selectedItems[i])| != 0
        {
          if i < |s.selectedItems| {
            assert r.selectedItems[i] == r.selectedItems[..|s.selectedItems|][i];
          }
        }
      }
    case _ =>
  }

  /** Whatever the user does, Accession stays selected, no projection
      appears or disappears, and no blank term is ever listed or chosen. */
  lemma {:induction false} ActionsKeepGood(s: EditorState, actions: seq<Action>)
    requires Good(s)
    ensures Good(ApplyAll(s, actions))
    decreases |actions|
  {
    if |actions| > 0 {
      ApplyKeepsGood(s, actions[0]);
      ActionsKeepGood(Apply(s, actions[0]), actions[1..]);
    }
  }

  lemma InitIsGood()
    ensures Good(Init())
  {
  }
}

/** The ingredients page of the desktop editor (editor/main.py,
    `IngredientEditor`): the searchable, sorted list of ingredient names and
    adding, deleting, renaming and updating an ingredient. The catalogue is
    an insertion-ordered dictionary from name to record. */
module IngredientEditor {
  import opened Wrappers
  import opened Seqs
  import opened Strings
  import opened Dicts
  import opened Sorting
  import opened DataUtils

  /** The names `add_ingredient` tries in turn: "New Ingredient", then
      "New Ingredient 1", "New Ingredient 2", and so on. */
  function Candidate(k: nat): (name: string)
    ensures |name| >= 14 && name[..14] == "New Ingredient"
  {
    if k == 0 then "New Ingredient" else "New Ingredient " + NatToString(k)
  }

  /** Different tries are different names. */
  lemma CandidateInjective(a: nat, b: nat)
    ensures a != b ==> Candidate(a) != Candidate(b)
  {
    if a > 0 && b > 0 {
      assert Candidate(a)[15..] == NatToString(a);
      assert Candidate(b)[15..] == NatToString(b);
      if Candidate(a) == Candidate(b) {
        NatToStringInjective(a, b);
      }
    } else if a > 0 || b > 0 {
      assert |NatToString(if a > 0 then a else b)| >= 1;
      assert |Candidate(a)| != |Candidate(b)|;
    }
  }

  ghost function CandidatesBelow(n: nat): set<string> {
    set k | 0 <= k < n :: Candidate(k)
  }

  lemma {:induction false} CandidatesBelowSize(n: nat)
    ensures |CandidatesBelow(n)| == n
  {
    if n > 0 {
      var prev := CandidatesBelow(n - 1);
      var last := Candidate(n - 1);
      CandidatesBelowSize(n - 1);
      assert last !in prev by {
        forall k | 0 <= k < n - 1 ensures Candidate(k) != last {
          CandidateInjective(k, n - 1);
        }
      }
      calc {
        |CandidatesBelow(n)|;
      == { assert CandidatesBelow(n) == prev + {last}; }
        |prev + {last}|;
      ==
        n;
      }
    }
  }

  /** If the first `n` tries are all taken, at least `n` names are taken:
      the search for a free name ends after at most `|used| + 1` tries. */
  lemma AllTakenBound(used: set<string>, n: nat)
    requires forall k :: 0 <= k < n ==> Candidate(k) in used
    ensures n <= |used|
  {
    CandidatesBelowSize(n);
    assert CandidatesBelow(n) <= used;
    SubsetSize(CandidatesBelow(n), used);
  }

  lemma SubsetSize<T>(a: set<T>, b: set<T>)
    requires a <= b
    ensures |a| <= |b|
  {
    assert b == a + (b - a);
  }

  /** `name` is the first try that `used` does not hold. */
  predicate FirstFree(used: set<string>, name: string, k: nat) {
    name == Candidate(k) && name !in used
    && forall j :: 0 <= j < k ==> Candidate(j) in used
  }

  /** There is only one first free name. */
  lemma FirstFreeUnique(used: set<string>, a: string, ka: nat, b: string, kb: nat)
    ensures FirstFree(used, a, ka) && FirstFree(used, b, kb) ==> a == b && ka == kb
  {
    if ka < kb {
      assert FirstFree(used, b, kb) ==> Candidate(ka) in used;
    } else if kb < ka {
      assert FirstFree(used, a, ka) ==> Candidate(kb) in used;
    }
  }

  /** The naming loop of `add_ingredient`: tries the candidate names in
      turn until one is not in `used`. */
  method FreshName(used: set<string>) returns (name: string)
    ensures exists k: nat :: FirstFree(used, name, k)
  {
    name := "New Ingredient";
    var count := 1;
    while name in used
      invariant count >= 1 && name == Candidate(count - 1)
      invariant forall j :: 0 <= j < count - 1 ==> Candidate(j) in used
      decreases |used| + 1 - count
    {
      AllTakenBound(used, count);
      name := "New Ingredient " + NatToString(count);
      count := count + 1;
    }
    assert FirstFree(used, name, count - 1);
  }

  /** The record `add_ingredient` creates. */
  const NewIngredient: Ingredient := Ingredient("Meats", "", false)

  /** `search in name.lower()` with the search already lower-cased. */
  function Matches(search: string): string -> bool {
    (name: string) => Contains(LowerAscii(name), LowerAscii(search))
  }

  /** The names the list shows: every matching name, in code-point order. */
  function ListedNames(d: Dict<string, Ingredient>, search: string): seq<string>
    requires Valid(d)
  {
    CodePointOrderIsTotalPreorder();
    Filter(SortBy(d.keys, LexLeq), Matches(search))
  }

  /** The list is sorted, repeats no name, and holds exactly the names
      that match the search. */
  lemma ListedNamesSpec(d: Dict<string, Ingredient>, search: string)
    requires Valid(d)
    ensures SortedBy(ListedNames(d, search), LexLeq)
    ensures NoDuplicates(ListedNames(d, search))
    ensures forall n :: n in ListedNames(d, search) <==> n in d.vals && Matches(search)(n)
  {
    CodePointOrderIsTotalPreorder();
    var sorted := SortBy(d.keys, LexLeq);
    FilterKeepsSorted(sorted, Matches(search), LexLeq);
    SortKeepsDistinct(d.keys, LexLeq);
    FilterKeepsDistinct(sorted, Matches(search));
    FilterSpec(sorted, Matches(search));
    assert forall x :: x in sorted <==> x in multiset(sorted);
    assert forall x :: x in d.keys <==> x in multiset(d.keys);
    assert forall x :: x in d.keys <==> x in d.vals;
  }

  /** An empty search lists every name. */
  lemma EmptySearchListsAll(d: Dict<string, Ingredient>, name: string)
    requires Valid(d) && name in d.vals
    ensures name in ListedNames(d, "")
  {
    ListedNamesSpec(d, "");
    assert LowerAscii("") == "";
    assert LowerAscii(name)[..0] == "";
  }

  /** The loop of `refresh_list` over the sorted names: keeps those that
      contain the lower-cased search text, in order. */
  method KeepMatching(names: seq<string>, searchText: string) returns (shown: seq<string>)
    ensures shown == Filter(names, Matches(searchText))
  {
    var search := LowerAscii(searchText);
    shown := [];
    for i := 0 to |names|
      invariant shown == Filter(names[..i], Matches(searchText))
    {
      FilterSnoc(names[..i], names[i], Matches(searchText));
      assert names[..i + 1] == names[..i] + [names[i]];
      if Contains(LowerAscii(names[i]), search) {
        shown := shown + [names[i]];
      }
    }
    assert names[..|names|] == names;
  }

  /** `refresh_list` on values: the names sorted, then the matching ones. */
  method BuildList(d: Dict<string, Ingredient>, searchText: string) returns (shown: seq<string>)
    requires Valid(d)
    ensures shown == ListedNames(d, searchText)
  {
    CodePointOrderIsTotalPreorder();
    var names := SortBy(d.keys, LexLeq);
    shown := KeepMatching(names, searchText);
  }

  datatype IngredientSaveOutcome = NoSelection | EmptyName | NameTaken | Renamed | Updated

  /** `save_current` on values: the outcome and the new catalogue, given the
      selected name and the text of the name field and the new record. */
  function SaveIngredient(d: Dict<string, Ingredient>, current: string, nameField: string, data: Ingredient)
    : (r: (IngredientSaveOutcome, Dict<string, Ingredient>))
    requires Valid(d) && current in d.vals
    ensures Valid(r.1)
    ensures r.0 == EmptyName <==> PyStrip(nameField) == ""
    ensures r.0 == NameTaken <==> PyStrip(nameField) != "" && PyStrip(nameField) != current && PyStrip(nameField) in d.vals
    ensures r.0 == EmptyName || r.0 == NameTaken ==> r.1 == d
    ensures r.0 == Renamed ==> r.1.vals == (d.vals - {current})[PyStrip(nameField) := data]
                               && PyStrip(nameField) !in d.vals
                               && r.1.keys == Filter(d.keys, Unequal(current)) + [PyStrip(nameField)]
    ensures r.0 == Updated ==> PyStrip(nameField) == current && r.1.vals == d.vals[current := data] && r.1.keys == d.keys
    ensures r.0 == EmptyName || r.0 == NameTaken || r.0 == Renamed || r.0 == Updated
    ensures r.0 == Renamed ==> PyStrip(nameField) in r.1.vals
    ensures r.0 != Renamed ==> current in r.1.vals
  {
    var name := PyStrip(nameField);
    if name == "" then (EmptyName, d)
    else if name != current && name in d.vals then (NameTaken, d)
    else if name != current then (Renamed, Put(Remove(d, current), name, data))
    else (Updated, Put(d, name, data))
  }

  /** A rename keeps the number of ingredients: the old name goes, the new
      one comes last. */
  lemma RenameKeepsCount(d: Dict<string, Ingredient>, current: string, nameField: string, data: Ingredient)
    requires Valid(d) && current in d.vals
    requires SaveIngredient(d, current, nameField, data).0 == Renamed
    ensures var r := SaveIngredient(d, current, nameField, data).1;
            |r.keys| == |d.keys| && current !in r.vals && r.keys[|r.keys| - 1] == PyStrip(nameField)
            && r.keys[..|r.keys| - 1] == Filter(d.keys, Unequal(current))
  {
  }

  /** The editor page. */
  class IngredientEditor {
    var ingredients: Dict<string, Ingredient>
    /** The text of the search box. */
    var searchText: string
    /** The names in the list widget, and its current item. */
    var listed: seq<string>
    var currentItem: Option<string>
    /** `current_ingredient_name` and whether the form is enabled. */
    var currentName: Option<string>
    var formEnabled: bool

    /** The catalogue is a valid dictionary. The name being edited is the
        current item of the list, which is an ingredient, and the form is
        enabled exactly when there is one: only the selection handler sets
        them, and it runs whenever the current item changes, including when
        clearing the list takes the current item away. */
    ghost predicate Valid()
      reads this
    {
      Dicts.Valid(ingredients)
      && currentName == currentItem && formEnabled == currentItem.Some?
      && (currentItem.Some? ==> currentItem.value in ingredients.vals)
    }

    constructor()
      ensures Valid()
      ensures ingredients == Dict([], map[]) && searchText == "" && listed == []
      ensures currentItem == None && currentName == None && !formEnabled
    {
      ingredients := Dict([], map[]);
      searchText := "";
      listed := [];
      currentItem := None;
      currentName := None;
      formEnabled := false;
    }

    /** `on_selection_changed`: an item of the list becomes current and the
        form opens on it, or no item is current and the form is disabled. */
    method SelectItem(item: Option<string>)
      requires Dicts.Valid(ingredients) && (item.Some? ==> item.value in ingredients.vals)
      modifies this
      ensures Valid()
      ensures currentItem == item && currentName == item && formEnabled == item.Some?
      ensures ingredients == old(ingredients) && listed == old(listed) && searchText == old(searchText)
    {
      currentItem := item;
      currentName := item;
      formEnabled := item.Some?;
    }

    /** `refresh_list`: clearing the list takes away its current item, which
        runs the selection handler with none; then the list is rebuilt from
        the sorted names that contain the lower-cased search text. */
    method RefreshList()
      requires Dicts.Valid(ingredients) && (currentItem.None? ==> currentName.None? && !formEnabled)
      modifies this
      ensures Valid()
      ensures listed == ListedNames(ingredients, searchText)
      ensures currentItem == None && currentName == None && !formEnabled
      ensures ingredients == old(ingredients) && searchText == old(searchText)
    {
      if currentItem.Some? {
        SelectItem(None);
      }
      listed := BuildList(ingredients, searchText);
    }

    /** `filter_list`, run when the text of the search box changes. */
    method SetSearch(text: string)
      requires Valid()
      modifies this
      ensures Valid()
      ensures searchText == text && listed == ListedNames(ingredients, text)
      ensures currentItem == None && currentName == None && !formEnabled
      ensures ingredients == old(ingredients)
    {
      searchText := text;
      RefreshList();
    }

    /** `load_data`: takes the catalogue and rebuilds the list, which ends
        any editing. */
    method LoadData(d: Dict<string, Ingredient>)
      requires Valid() && Dicts.Valid(d)
      modifies this
      ensures Valid() && ingredients == d && searchText == old(searchText)
      ensures listed == ListedNames(d, searchText)
      ensures currentItem == None && currentName == None && !formEnabled
    {
      ingredients := d;
      RefreshList();
    }

    /** `add_ingredient`: adds the default record under the first free
        "New Ingredient" name and selects it when the search shows it. */
    method AddIngredient() returns (name: string)
      requires Valid()
      modifies this
      ensures Valid()
      ensures exists k: nat :: FirstFree(old(ingredients).vals.Keys, name, k)
      ensures ingredients.vals == old(ingredients).vals[name := NewIngredient]
      ensures ingredients.keys == old(ingredients).keys + [name]
      ensures searchText == old(searchText) && listed == ListedNames(ingredients, searchText)
      ensures name in listed ==> currentItem == Some(name) && currentName == Some(name) && formEnabled
      ensures name !in listed ==> currentItem == None && currentName == None && !formEnabled
    {
      name := InsertFresh();
      RefreshList();
      SelectIfListed(name);
    }

    /** The first two lines of `add_ingredient`: the default record under the
        first free name. */
    method InsertFresh() returns (name: string)
      requires Valid()
      modifies this
      ensures exists k: nat :: FirstFree(old(ingredients).vals.Keys, name, k)
      ensures ingredients.vals == old(ingredients).vals[name := NewIngredient]
      ensures ingredients.keys == old(ingredients).keys + [name]
      ensures Dicts.Valid(ingredients) && searchText == old(searchText) && listed == old(listed)
      ensures currentItem == old(currentItem) && currentName == old(currentName) && formEnabled == old(formEnabled)
    {
      name := FreshName(ingredients.vals.Keys);
      ingredients := Put(ingredients, name, NewIngredient);
    }

    /** `delete_ingredient`: with a current item and a confirmation, removes
        it; the rebuilt list has no current item and the form is disabled. */
    method DeleteIngredient(confirmed: bool)
      requires Valid()
      modifies this
      ensures Valid() && searchText == old(searchText)
      ensures old(currentItem).Some? && confirmed ==>
                ingredients == Remove(old(ingredients), old(currentItem).value)
                && listed == ListedNames(ingredients, searchText)
                && currentItem == None && currentName == None && !formEnabled
      ensures !(old(currentItem).Some? && confirmed) ==>
                ingredients == old(ingredients) && listed == old(listed) && currentItem == old(currentItem)
                && currentName == old(currentName) && formEnabled == old(formEnabled)
    {
      if currentItem.None? {
        return;
      }
      if confirmed {
        ingredients := Remove(ingredients, currentItem.value);
        RefreshList();
        formEnabled := false;
      }
    }

    /** `save_current`, given the name field, the category, the image field
        and the LTO box. Without a name being edited, or with an empty one,
        nothing happens. */
    method SaveCurrent(nameField: string, category: string, image: string, isLto: bool)
      returns (outcome: IngredientSaveOutcome)
      requires Valid()
      modifies this
      ensures Valid() && searchText == old(searchText)
      ensures outcome == NoSelection <==> old(currentName).None? || old(currentName) == Some("")
      ensures outcome != NoSelection ==>
                (outcome, ingredients) == SaveIngredient(old(ingredients), old(currentName).value, nameField,
                                                         Ingredient(category, image, isLto))
      ensures outcome == NoSelection ==> ingredients == old(ingredients)
      ensures outcome == Renamed ==>
                var name := PyStrip(nameField);
                listed == ListedNames(ingredients, searchText)
                && (name in listed ==> currentItem == Some(name) && currentName == Some(name) && formEnabled)
                && (name !in listed ==> currentItem == None && currentName == None && !formEnabled)
      ensures outcome != Renamed ==>
                listed == old(listed) && currentItem == old(currentItem)
                && currentName == old(currentName) && formEnabled == old(formEnabled)
    {
      if currentName.None? {
        return NoSelection;
      }
      var current := currentName.value;
      if current == "" {
        return NoSelection;
      }
      var saved := SaveIngredient(ingredients, current, nameField, Ingredient(category, image, isLto));
      outcome, ingredients := saved.0, saved.1;
      if outcome == Renamed {
        var name := PyStrip(nameField);
        assert name in ingredients.vals;
        currentName := Some(name);
        RefreshList();
        SelectIfListed(name);
      }
    }

    /** Finds `name` in the list and, when the list shows it, makes it the
        current item; the selection handler then opens the form on it. */
    method SelectIfListed(name: string)
      requires Valid() && name in ingredients.vals
      modifies this
      ensures Valid()
      ensures name in listed ==> currentItem == Some(name) && currentName == Some(name) && formEnabled
      ensures name !in listed ==> currentItem == old(currentItem) && currentName == old(currentName)
                                  && formEnabled == old(formEnabled)
      ensures listed == old(listed) && ingredients == old(ingredients) && searchText == old(searchText)
    {
      if name in listed {
        SelectItem(Some(name));
      }
    }
  }
}

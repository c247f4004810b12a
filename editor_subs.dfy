/** The subs page of the desktop editor (editor/main.py, `SubEditor`): the
    catalogue of subs by category, the completeness check that colours a sub
    red, and adding, deleting, editing and moving subs. The tree widget is
    modelled by the item that is current in it; the form fields are
    parameters of the save. */
module SubEditor {
  import opened Wrappers
  import opened Seqs
  import opened Dicts
  import opened DataUtils

  /** Category name to the subs of that category. */
  type Catalogue = Dict<string, seq<Sub>>

  /** `is_sub_incomplete`: the name is empty or the placeholder, there are
      no ingredients, an ingredient is unknown to a non-empty ingredient
      catalogue, or the image is empty. */
  predicate Incomplete(sub: Sub, known: map<string, Ingredient>) {
    sub.name == "" || sub.name == "New Sub"
    || |sub.ingredients| == 0
    || (|known| > 0 && exists ing :: ing in sub.ingredients && ing !in known)
    || sub.image == ""
  }

  /** The checks of `is_sub_incomplete` in their order, with the loop over
      the ingredients. */
  method IsSubIncomplete(sub: Sub, known: map<string, Ingredient>) returns (incomplete: bool)
    ensures incomplete == Incomplete(sub, known)
  {
    if sub.name == "" || sub.name == "New Sub" {
      return true;
    }
    if |sub.ingredients| == 0 {
      return true;
    }
    if |known| > 0 {
      for i := 0 to |sub.ingredients|
        invariant forall j :: 0 <= j < i ==> sub.ingredients[j] in known
      {
        if sub.ingredients[i] !in known {
          return true;
        }
      }
      assert forall ing :: ing in sub.ingredients ==> ing in known;
    }
    return sub.image == "";
  }

  /** The record `add_sub` appends. */
  const NewSub: Sub := Sub("New Sub", [], "", "")

  /** A freshly added sub is always shown as incomplete. */
  lemma NewSubIncomplete(known: map<string, Ingredient>)
    ensures Incomplete(NewSub, known)
  {
  }

  /** The number of subs in the given categories. */
  function Total(vals: map<string, seq<Sub>>, keys: seq<string>): nat
    requires forall k :: k in keys ==> k in vals
  {
    if keys == [] then 0 else |vals[keys[0]]| + Total(vals, keys[1..])
  }

  function Count(d: Catalogue): nat
    requires Valid(d)
  {
    Total(d.vals, d.keys)
  }

  /** The total depends only on the lists of the categories counted. */
  lemma {:induction false} TotalAgrees(v1: map<string, seq<Sub>>, v2: map<string, seq<Sub>>, keys: seq<string>)
    requires forall k :: k in keys ==> k in v1 && k in v2 && v1[k] == v2[k]
    ensures Total(v1, keys) == Total(v2, keys)
  {
    if keys != [] {
      TotalAgrees(v1, v2, keys[1..]);
    }
  }

  lemma {:induction false} TailNoDuplicates<T>(s: seq<T>)
    requires s != [] && NoDuplicates(s)
    ensures NoDuplicates(s[1..]) && s[0] !in s[1..]
  {
    var t := s[1..];
    forall i, j | 0 <= i < j < |t| ensures t[i] != t[j] {
      assert t[i] == s[i + 1] && t[j] == s[j + 1];
    }
    forall j | 0 <= j < |t| ensures t[j] != s[0] {
      assert t[j] == s[j + 1];
    }
  }

  /** Replacing one counted category's list changes the total by the
      difference in length. */
  lemma {:induction false} TotalUpdate(vals: map<string, seq<Sub>>, keys: seq<string>, k: string, l: seq<Sub>)
    requires forall key :: key in keys ==> key in vals
    requires NoDuplicates(keys) && k in keys
    ensures Total(vals[k := l], keys) + |vals[k]| == Total(vals, keys) + |l|
  {
    TailNoDuplicates(keys);
    if keys[0] == k {
      TotalAgrees(vals[k := l], vals, keys[1..]);
    } else {
      TotalUpdate(vals, keys[1..], k, l);
    }
  }

  /** Counting one more category at the end adds its length. */
  lemma {:induction false} TotalSnoc(vals: map<string, seq<Sub>>, keys: seq<string>, k: string)
    requires forall key :: key in keys ==> key in vals
    requires k in vals
    ensures Total(vals, keys + [k]) == Total(vals, keys) + |vals[k]|
  {
    if keys == [] {
      assert keys + [k] == [k];
    } else {
      assert (keys + [k])[1..] == keys[1..] + [k];
      TotalSnoc(vals, keys[1..], k);
    }
  }

  datatype CategoryOutcome = Cancelled | CategoryExists | CategoryAdded

  /** `add_category` on values, given the dialog's text and whether it was
      accepted. */
  function AddCategoryTo(d: Catalogue, name: string, ok: bool): (r: (CategoryOutcome, Catalogue))
    requires Valid(d)
    ensures Valid(r.1)
    ensures r.0 == CategoryAdded <==> ok && name != "" && name !in d.vals
    ensures r.0 == CategoryExists <==> ok && name != "" && name in d.vals
    ensures r.0 != CategoryAdded ==> r.1 == d
    ensures r.0 == CategoryAdded ==> r.1.keys == d.keys + [name] && r.1.vals == d.vals[name := []]
  {
    if ok && name != "" then
      if name !in d.vals then (CategoryAdded, Put(d, name, [])) else (CategoryExists, d)
    else (Cancelled, d)
  }

  /** A new category is empty, so the number of subs stays the same. */
  lemma AddCategoryKeepsCount(d: Catalogue, name: string, ok: bool)
    requires Valid(d)
    ensures Count(AddCategoryTo(d, name, ok).1) == Count(d)
  {
    var r := AddCategoryTo(d, name, ok);
    if r.0 == CategoryAdded {
      TotalAgrees(r.1.vals, d.vals, d.keys);
      TotalSnoc(r.1.vals, d.keys, name);
    }
  }

  /** An item of the tree: a category row, a sub row (its category and its
      index in that list), or nothing. */
  datatype TreeItem = NoItem | CategoryItem(name: string) | SubItem(category: string, index: nat)

  predicate ItemIn(item: TreeItem, d: Catalogue) {
    match item
    case NoItem => true
    case CategoryItem(name) => name in d.vals
    case SubItem(c, i) => c in d.vals && i < |d.vals[c]|
  }

  /** The category `add_sub` appends to: the current category row or the
      category of the current sub row, else "Originals"; when that is not a
      category, the first category; none when there is no category. */
  function AddSubTarget(d: Catalogue, item: TreeItem): (target: Option<string>)
    requires Valid(d)
    ensures target.Some? ==> target.value in d.vals
    ensures target.None? <==> |d.keys| == 0
  {
    var wanted := match item
      case CategoryItem(name) => name
      case SubItem(c, _) => c
      case NoItem => "Originals";
    if wanted in d.vals then Some(wanted)
    else if |d.keys| > 0 then
      assert d.keys[0] in Elements(d.keys);
      Some(d.keys[0])
    else
      assert d.keys == [];
      assert d.vals.Keys == {};
      None
  }

  /** `add_sub` on values: the template appended to the target category. */
  function AddSubTo(d: Catalogue, item: TreeItem): (r: Catalogue)
    requires Valid(d)
    ensures Valid(r) && r.keys == d.keys
    ensures AddSubTarget(d, item).None? ==> r == d
    ensures AddSubTarget(d, item).Some? ==>
              var t := AddSubTarget(d, item).value;
              r.vals == d.vals[t := d.vals[t] + [NewSub]]
  {
    match AddSubTarget(d, item)
    case None => d
    case Some(t) => Put(d, t, d.vals[t] + [NewSub])
  }

  /** Adding a sub adds exactly one when there is a category. */
  lemma AddSubCount(d: Catalogue, item: TreeItem)
    requires Valid(d)
    ensures |d.keys| > 0 ==> Count(AddSubTo(d, item)) == Count(d) + 1
    ensures |d.keys| == 0 ==> AddSubTo(d, item) == d
  {
    var t := AddSubTarget(d, item);
    if t.Some? {
      TotalUpdate(d.vals, d.keys, t.value, d.vals[t.value] + [NewSub]);
    }
  }

  /** `delete_item` on values, for a row of the tree. */
  function DeleteFrom(d: Catalogue, item: TreeItem): (r: Catalogue)
    requires Valid(d) && ItemIn(item, d)
    ensures Valid(r)
    ensures item.NoItem? ==> r == d
    ensures item.CategoryItem? ==> r.vals == d.vals - {item.name} && r.keys == Filter(d.keys, Unequal(item.name))
    ensures item.SubItem? ==>
              (r.keys == d.keys
               && r.vals == d.vals[item.category := d.vals[item.category][..item.index] + d.vals[item.category][item.index + 1..]])
  {
    match item
    case NoItem => d
    case CategoryItem(name) => Remove(d, name)
    case SubItem(c, i) => Put(d, c, d.vals[c][..i] + d.vals[c][i + 1..])
  }

  /** Deleting a sub row removes exactly one sub. */
  lemma DeleteSubCount(d: Catalogue, c: string, i: nat)
    requires Valid(d) && ItemIn(SubItem(c, i), d)
    ensures Count(DeleteFrom(d, SubItem(c, i))) + 1 == Count(d)
  {
    TotalUpdate(d.vals, d.keys, c, d.vals[c][..i] + d.vals[c][i + 1..]);
  }

  /** `save_current` on values: the edited sub replaces the one at `(c, i)`;
      when the chosen category differs, it is taken out of its list and
      appended to the chosen one. */
  function SaveSub(d: Catalogue, c: string, i: nat, updated: Sub, newCat: string): (r: Catalogue)
    requires Valid(d) && c in d.vals && i < |d.vals[c]| && newCat in d.vals
    ensures Valid(r) && r.keys == d.keys
    ensures newCat == c ==> r.vals == d.vals[c := d.vals[c][i := updated]]
    ensures newCat != c ==> r.vals == d.vals[c := d.vals[c][..i] + d.vals[c][i + 1..]][newCat := d.vals[newCat] + [updated]]
  {
    if newCat != c then
      var popped := Put(d, c, d.vals[c][..i] + d.vals[c][i + 1..]);
      Put(popped, newCat, popped.vals[newCat] + [updated])
    else
      Put(d, c, d.vals[c][i := updated])
  }

  /** Saving never changes the number of subs: a move takes one out of the
      old list and puts it at the end of the new one, and the other lists
      stay as they were. */
  lemma SaveKeepsCount(d: Catalogue, c: string, i: nat, updated: Sub, newCat: string)
    requires Valid(d) && c in d.vals && i < |d.vals[c]| && newCat in d.vals
    ensures Count(SaveSub(d, c, i, updated, newCat)) == Count(d)
    ensures newCat != c ==> var r := SaveSub(d, c, i, updated, newCat);
              |r.vals[c]| + 1 == |d.vals[c]| && r.vals[newCat][|r.vals[newCat]| - 1] == updated
              && forall k :: k in d.vals && k != c && k != newCat ==> r.vals[k] == d.vals[k]
  {
    if newCat != c {
      var l := d.vals[c][..i] + d.vals[c][i + 1..];
      TotalUpdate(d.vals, d.keys, c, l);
      var v := d.vals[c := l];
      TotalUpdate(v, d.keys, newCat, d.vals[newCat] + [updated]);
    } else {
      TotalUpdate(d.vals, d.keys, c, d.vals[c][i := updated]);
    }
  }

  datatype SubSaveOutcome = NotEditable | Updated | Moved

  /** The editor page. */
  class SubEditor {
    var subs: Catalogue
    /** `all_ingredients`: only its names matter here. */
    var known: map<string, Ingredient>
    /** The current item of the tree. */
    var currentItem: TreeItem
    /** The sub last opened in the form (`current_category`,
        `current_index`), and whether the form is enabled. */
    var editing: Option<(string, nat)>
    var formEnabled: bool
    /** The "Current" ingredients list of the form. */
    var currentIngs: seq<string>

    /** The catalogue is a valid dictionary and the current item is a row
        of it. The selection handler runs whenever the current item
        changes, including when clearing the tree takes it away, so the
        form is enabled exactly on a sub row and then edits that sub. With
        no current row the last opened place is kept and may be stale. */
    ghost predicate Valid()
      reads this
    {
      Dicts.Valid(subs) && ItemIn(currentItem, subs)
      && (formEnabled <==> currentItem.SubItem?)
      && (currentItem.SubItem? ==> editing == Some((currentItem.category, currentItem.index)))
      && (currentItem.CategoryItem? ==> editing.None?)
    }

    /** The page after `load_data`. */
    constructor(data: Catalogue, ingredients: map<string, Ingredient>)
      requires Dicts.Valid(data)
      ensures Valid()
      ensures subs == data && known == ingredients
      ensures currentItem == NoItem && editing == None && !formEnabled && currentIngs == []
    {
      subs := data;
      known := ingredients;
      currentItem := NoItem;
      editing := None;
      formEnabled := false;
      currentIngs := [];
    }

    /** `on_selection_changed`: a sub row opens the form on that sub and
        fills the ingredients list; a category row closes it; no row
        disables the form and keeps the last opened place. */
    method SelectItem(item: TreeItem)
      requires Dicts.Valid(subs) && ItemIn(item, subs)
      modifies this
      ensures Valid() && currentItem == item
      ensures subs == old(subs) && known == old(known)
      ensures item.SubItem? ==> editing == Some((item.category, item.index)) && formEnabled
                                && currentIngs == subs.vals[item.category][item.index].ingredients
      ensures item.CategoryItem? ==> editing == None && !formEnabled
      ensures item.NoItem? ==> editing == old(editing) && !formEnabled
      ensures !item.SubItem? ==> currentIngs == old(currentIngs)
    {
      currentItem := item;
      match item
      case SubItem(c, i) =>
        editing := Some((c, i));
        formEnabled := true;
        currentIngs := subs.vals[c][i].ingredients;
      case CategoryItem(_) =>
        editing := None;
        formEnabled := false;
      case NoItem =>
        formEnabled := false;
    }

    /** `refresh_tree`: clearing the tree takes away its current item, which
        runs the selection handler with none; the rebuilt tree has no
        current item. */
    method RefreshTree()
      requires Dicts.Valid(subs) && (currentItem.NoItem? ==> !formEnabled)
      modifies this
      ensures Valid() && currentItem == NoItem && !formEnabled
      ensures subs == old(subs) && known == old(known)
      ensures editing == old(editing) && currentIngs == old(currentIngs)
    {
      if !currentItem.NoItem? {
        SelectItem(NoItem);
      }
    }

    /** `add_category`, given the dialog's text and whether it was accepted. */
    method AddCategory(name: string, ok: bool) returns (outcome: CategoryOutcome)
      requires Valid()
      modifies this
      ensures Valid() && known == old(known)
      ensures (outcome, subs) == AddCategoryTo(old(subs), name, ok)
      ensures outcome == CategoryAdded ==> currentItem == NoItem && !formEnabled
      ensures outcome != CategoryAdded ==> currentItem == old(currentItem) && formEnabled == old(formEnabled)
      ensures editing == old(editing) && currentIngs == old(currentIngs)
    {
      if ok && name != "" {
        if name !in subs.vals {
          subs := Put(subs, name, []);
          RefreshTree();
          return CategoryAdded;
        } else {
          return CategoryExists;
        }
      }
      return Cancelled;
    }

    /** `add_sub`: appends the template to the category the current row
        points at. */
    method AddSub()
      requires Valid()
      modifies this
      ensures Valid() && known == old(known)
      ensures subs == AddSubTo(old(subs), old(currentItem))
      ensures |old(subs).keys| > 0 ==> currentItem == NoItem && !formEnabled
      ensures |old(subs).keys| == 0 ==> currentItem == old(currentItem) && formEnabled == old(formEnabled)
      ensures editing == old(editing) && currentIngs == old(currentIngs)
    {
      var target := "Originals";
      match currentItem {
        case CategoryItem(name) => target := name;
        case SubItem(c, _) => target := c;
        case NoItem =>
      }
      if target !in subs.vals {
        if |subs.keys| > 0 {
          target := subs.keys[0];
          assert target in Elements(subs.keys);
        } else {
          return;
        }
      }
      subs := Put(subs, target, subs.vals[target] + [NewSub]);
      RefreshTree();
    }

    /** `delete_item`: with a current row and a confirmation, deletes that
        category or sub and rebuilds the tree. */
    method DeleteItem(confirmed: bool)
      requires Valid()
      modifies this
      ensures Valid() && known == old(known)
      ensures !old(currentItem).NoItem? && confirmed ==>
                subs == DeleteFrom(old(subs), old(currentItem)) && currentItem == NoItem && !formEnabled
      ensures !(!old(currentItem).NoItem? && confirmed) ==>
                subs == old(subs) && currentItem == old(currentItem) && formEnabled == old(formEnabled)
      ensures editing == old(editing) && currentIngs == old(currentIngs)
    {
      if currentItem.NoItem? || !confirmed {
        return;
      }
      subs := DeleteFrom(subs, currentItem);
      RefreshTree();
    }

    /** `add_ingredient_btn` and `add_ingredient_from_list`: the chosen
        available ingredient goes to the end of the current list. */
    method AddIngredient(chosen: Option<string>)
      requires Valid()
      modifies this
      ensures Valid()
      ensures chosen.Some? ==> currentIngs == old(currentIngs) + [chosen.value]
      ensures chosen.None? ==> currentIngs == old(currentIngs)
      ensures subs == old(subs) && known == old(known) && currentItem == old(currentItem)
      ensures editing == old(editing) && formEnabled == old(formEnabled)
    {
      if chosen.Some? {
        currentIngs := currentIngs + [chosen.value];
      }
    }

    /** `remove_ingredient`: drops the selected row of the current list. */
    method RemoveIngredient(row: int)
      requires Valid() && row < |currentIngs|
      modifies this
      ensures Valid()
      ensures row >= 0 ==> currentIngs == old(currentIngs)[..row] + old(currentIngs)[row + 1..]
      ensures row < 0 ==> currentIngs == old(currentIngs)
      ensures subs == old(subs) && known == old(known) && currentItem == old(currentItem)
      ensures editing == old(editing) && formEnabled == old(formEnabled)
    {
      if row >= 0 {
        currentIngs := currentIngs[..row] + currentIngs[row + 1..];
      }
    }

    /** `save_current`, given the name, tip and image fields and the chosen
        category (the category box lists the categories). The ingredients
        are the current list in its order. The tree is rebuilt afterwards,
        so no row stays current and the form is disabled; the last opened
        place is kept, as the Python attributes are. */
    method SaveCurrent(name: string, tip: string, image: string, newCat: string) returns (outcome: SubSaveOutcome)
      requires Valid() && newCat in subs.vals
      modifies this
      ensures Valid() && known == old(known)
      ensures outcome == NotEditable <==> !old(formEnabled)
      ensures outcome == NotEditable ==> subs == old(subs) && currentItem == old(currentItem)
      ensures outcome != NotEditable ==>
                var (c, i) := old(editing).value;
                subs == SaveSub(old(subs), c, i, Sub(name, old(currentIngs), tip, image), newCat)
                && (outcome == Moved <==> newCat != c)
                && currentItem == NoItem
      ensures !formEnabled
      ensures editing == old(editing) && currentIngs == old(currentIngs)
    {
      if !formEnabled {
        return NotEditable;
      }
      var (c, i) := editing.value;
      var ingredients := [];
      for k := 0 to |currentIngs|
        invariant ingredients == currentIngs[..k]
      {
        ingredients := ingredients + [currentIngs[k]];
      }
      assert ingredients == currentIngs;
      var updated := Sub(name, ingredients, tip, image);
      subs := SaveSub(subs, c, i, updated, newCat);
      if newCat != c {
        RefreshTree();
        outcome := Moved;
      } else {
        outcome := Updated;
      }
      RefreshTree();
    }
  }
}

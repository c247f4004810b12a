/** The ingredient browser (src/components/IngredientDisplay.tsx): a
    category picker and the catalogue entries of the picked category. */
module IngredientDisplay {
  import opened Seqs
  import opened Dicts
  import opened DataUtils

  /** One `[name, info]` pair of `Object.entries(ingredientInfo)`. */
  type Entry = (string, Ingredient)

  /** Whether the filter keeps an entry: every entry for "All", otherwise the
      entries whose category is the selected one. */
  predicate Shows(selected: string, e: Entry) {
    selected == "All" || e.1.category == selected
  }

  function Keeps(selected: string): Entry -> bool {
    (e: Entry) => Shows(selected, e)
  }

  /** `filteredIngredients`. */
  function FilteredIngredients(info: Dict<string, Ingredient>, selected: string): (r: seq<Entry>)
    requires Valid(info)
    ensures |r| <= |info.keys|
  {
    Filter(Entries(info), Keeps(selected))
  }

  /** The filter keeps exactly the entries it shows, in catalogue order,
      adds nothing, and keeps everything for "All". */
  lemma FilteredIngredientsSpec(info: Dict<string, Ingredient>, selected: string)
    requires Valid(info)
    ensures forall e :: e in FilteredIngredients(info, selected) <==> e in Entries(info) && Shows(selected, e)
    ensures IsSubsequence(FilteredIngredients(info, selected), Entries(info))
    ensures selected == "All" ==> FilteredIngredients(info, selected) == Entries(info)
  {
    FilterSpec(Entries(info), Keeps(selected));
    if selected == "All" {
      FilterAll(Entries(info), Keeps(selected));
    }
  }

  /** A name is listed exactly when the catalogue has it and, unless "All"
      is picked, its category is the picked one. */
  lemma FilteredNames(info: Dict<string, Ingredient>, selected: string, name: string)
    requires Valid(info)
    ensures (exists e :: e in FilteredIngredients(info, selected) && e.0 == name)
            <==> name in info.vals && (selected == "All" || info.vals[name].category == selected)
  {
    var r := FilteredIngredients(info, selected);
    var es := Entries(info);
    FilteredIngredientsSpec(info, selected);
    if name in info.vals && (selected == "All" || info.vals[name].category == selected) {
      assert name in Elements(info.keys);
      var i :| 0 <= i < |info.keys| && info.keys[i] == name;
      assert es[i] == (name, info.vals[name]);
      assert es[i] in r;
    }
  }

  /** What the grid shows: the "No ingredients found" message or the cards. */
  datatype IngredientView = NoIngredientsFound | IngredientGrid(cards: seq<Entry>)

  function View(info: Dict<string, Ingredient>, selected: string): (v: IngredientView)
    requires Valid(info)
    ensures v.NoIngredientsFound? <==> forall name :: name in info.vals ==> !Shows(selected, (name, info.vals[name]))
    ensures v.IngredientGrid? ==> v.cards == FilteredIngredients(info, selected) && |v.cards| > 0
  {
    var r := FilteredIngredients(info, selected);
    if |r| == 0 then
      assert forall name :: name in info.vals ==> !Shows(selected, (name, info.vals[name])) by {
        forall name | name in info.vals ensures !Shows(selected, (name, info.vals[name])) {
          FilteredNames(info, selected, name);
        }
      }
      NoIngredientsFound
    else
      var e := r[0];
      assert e in Entries(info) && Shows(selected, e) by {
        FilteredIngredientsSpec(info, selected);
        assert e in r;
      }
      var es := Entries(info);
      var i :| 0 <= i < |es| && es[i] == e;
      assert e == (e.0, info.vals[e.0]);
      IngredientGrid(r)
  }

  /** The component's state: the picked category, "All" at first. */
  class IngredientPanel {
    const ingredientInfo: Dict<string, Ingredient>
    var selectedCategory: string

    constructor(info: Dict<string, Ingredient>)
      requires Valid(info)
      ensures ingredientInfo == info && selectedCategory == "All"
      ensures Shown() == Entries(info)
    {
      ingredientInfo := info;
      selectedCategory := "All";
      FilteredIngredientsSpec(info, "All");
    }

    /** A category button. */
    method SelectCategory(category: string)
      modifies this
      ensures selectedCategory == category
    {
      selectedCategory := category;
    }

    function Shown(): seq<Entry>
      reads this
      requires Valid(ingredientInfo)
    {
      FilteredIngredients(ingredientInfo, selectedCategory)
    }
  }
}

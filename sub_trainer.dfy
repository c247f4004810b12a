/** The trainer screen (src/components/SubTrainer.tsx): the flattened list of
    every sub, the category filter over it, the lookup of the selected sub,
    the random tip, and the tab state.

    The catalogue is a dictionary from category to the list of its subs.
    `filteredSubs` asks whether a sub object is an element of the selected
    category's list, which JavaScript decides by object identity, not by
    value. The model therefore carries every sub together with its place
    (category key and position), and two equal subs at different places stay
    distinct, as two parsed JSON objects do. */
module SubTrainer {
  import opened Wrappers
  import opened Seqs
  import opened Dicts
  import opened DataUtils
  import opened QuizRandom

  /** `SubData`: category name to the subs of that category, in key order. */
  type SubData = Dict<string, seq<Sub>>

  /** A sub object together with where it lives in the catalogue. */
  datatype Placed = Placed(category: string, position: nat, sub: Sub)

  /** The subs of one category list, each tagged with its place. */
  function Place(category: string, subs: seq<Sub>): (r: seq<Placed>)
    ensures |r| == |subs|
    ensures forall i :: 0 <= i < |r| ==> r[i] == Placed(category, i, subs[i])
  {
    seq(|subs|, i requires 0 <= i < |subs| => Placed(category, i, subs[i]))
  }

  /** The lists of the given categories, one after the other. */
  function FlattenFrom(vals: map<string, seq<Sub>>, keys: seq<string>): seq<Placed>
    requires forall k :: k in keys ==> k in vals
  {
    if keys == [] then [] else Place(keys[0], vals[keys[0]]) + FlattenFrom(vals, keys[1..])
  }

  /** `Object.values(subData).flat()`, every element with its place. */
  function PlacedSubs(data: SubData): seq<Placed>
    requires Valid(data)
  {
    FlattenFrom(data.vals, data.keys)
  }

  /** The sub objects of placed subs, in the same order. */
  function SubsOf(ps: seq<Placed>): (r: seq<Sub>)
    ensures |r| == |ps|
    ensures forall i :: 0 <= i < |r| ==> r[i] == ps[i].sub
  {
    seq(|ps|, i requires 0 <= i < |ps| => ps[i].sub)
  }

  /** `allSubs`. */
  function AllSubs(data: SubData): seq<Sub>
    requires Valid(data)
  {
    SubsOf(PlacedSubs(data))
  }

  /** The lists of the given categories joined in key order, without places. */
  function Joined(vals: map<string, seq<Sub>>, keys: seq<string>): seq<Sub>
    requires forall k :: k in keys ==> k in vals
  {
    if keys == [] then [] else vals[keys[0]] + Joined(vals, keys[1..])
  }

  lemma SubsOfAppend(a: seq<Placed>, b: seq<Placed>)
    ensures SubsOf(a + b) == SubsOf(a) + SubsOf(b)
  {
    assert forall i :: 0 <= i < |a| + |b| ==> (a + b)[i].sub == (SubsOf(a) + SubsOf(b))[i];
  }

  lemma {:induction false} FlattenJoins(vals: map<string, seq<Sub>>, keys: seq<string>)
    requires forall k :: k in keys ==> k in vals
    ensures SubsOf(FlattenFrom(vals, keys)) == Joined(vals, keys)
  {
    if keys != [] {
      var head := Place(keys[0], vals[keys[0]]);
      SubsOfAppend(head, FlattenFrom(vals, keys[1..]));
      FlattenJoins(vals, keys[1..]);
      assert SubsOf(head) == vals[keys[0]];
    }
  }

  /** `allSubs` is every category's list, one after the other in key order. */
  lemma AllSubsJoinsLists(data: SubData)
    requires Valid(data)
    ensures AllSubs(data) == Joined(data.vals, data.keys)
  {
    FlattenJoins(data.vals, data.keys);
  }

  /** Every element of the flattened list sits at its place: its category is
      one of the listed keys and the list holds it at its position. */
  lemma {:induction false} FlattenSound(vals: map<string, seq<Sub>>, keys: seq<string>)
    requires forall k :: k in keys ==> k in vals
    ensures forall p :: p in FlattenFrom(vals, keys) ==>
              p.category in keys && p.position < |vals[p.category]| && vals[p.category][p.position] == p.sub
  {
    if keys != [] {
      FlattenSound(vals, keys[1..]);
      var head := Place(keys[0], vals[keys[0]]);
      assert FlattenFrom(vals, keys) == head + FlattenFrom(vals, keys[1..]);
      forall p | p in FlattenFrom(vals, keys)
        ensures p.category in keys && p.position < |vals[p.category]| && vals[p.category][p.position] == p.sub
      {
        if p in head {
          var i :| 0 <= i < |head| && head[i] == p;
        } else {
          assert p in FlattenFrom(vals, keys[1..]);
        }
      }
    }
  }

  /** Every place of every listed category appears in the flattened list. */
  lemma {:induction false} FlattenComplete(vals: map<string, seq<Sub>>, keys: seq<string>, k: string, i: nat)
    requires forall k :: k in keys ==> k in vals
    requires k in keys && i < |vals[k]|
    ensures Placed(k, i, vals[k][i]) in FlattenFrom(vals, keys)
  {
    var head := Place(keys[0], vals[keys[0]]);
    assert FlattenFrom(vals, keys) == head + FlattenFrom(vals, keys[1..]);
    if keys[0] == k {
      assert head[i] == Placed(k, i, vals[k][i]);
    } else {
      FlattenComplete(vals, keys[1..], k, i);
    }
  }

  /** No place is listed twice, so each sub object occurs once. */
  lemma {:induction false} FlattenDistinct(vals: map<string, seq<Sub>>, keys: seq<string>)
    requires forall k :: k in keys ==> k in vals
    requires NoDuplicates(keys)
    ensures NoDuplicates(FlattenFrom(vals, keys))
  {
    if keys != [] {
      var rest := keys[1..];
      assert NoDuplicates(rest) by {
        forall i, j | 0 <= i < j < |rest| ensures rest[i] != rest[j] {
          assert rest[i] == keys[i + 1] && rest[j] == keys[j + 1];
        }
      }
      assert keys[0] !in rest by {
        forall j | 0 <= j < |rest| ensures rest[j] != keys[0] {
          assert rest[j] == keys[j + 1];
        }
      }
      FlattenDistinct(vals, rest);
      FlattenSound(vals, rest);
      var head := Place(keys[0], vals[keys[0]]);
      forall x | x in head ensures x !in FlattenFrom(vals, rest) {
        assert x.category == keys[0];
      }
      NoDuplicatesAppend(head, FlattenFrom(vals, rest));
    }
  }

  /** The flattened list holds exactly the places of the catalogue, each
      once, and a sub is in `allSubs` exactly when some category lists it. */
  lemma AllSubsExactly(data: SubData)
    requires Valid(data)
    ensures NoDuplicates(PlacedSubs(data))
    ensures forall p :: p in PlacedSubs(data) <==>
              p.category in data.vals && p.position < |data.vals[p.category]| && data.vals[p.category][p.position] == p.sub
    ensures forall s :: s in AllSubs(data) <==> exists k :: k in data.vals && s in data.vals[k]
  {
    FlattenSound(data.vals, data.keys);
    FlattenDistinct(data.vals, data.keys);
    forall p: Placed | p.category in data.vals && p.position < |data.vals[p.category]| && data.vals[p.category][p.position] == p.sub
      ensures p in PlacedSubs(data)
    {
      FlattenComplete(data.vals, data.keys, p.category, p.position);
    }
    forall s ensures s in AllSubs(data) <==> exists k :: k in data.vals && s in data.vals[k] {
      var all := AllSubs(data);
      if s in all {
        var i :| 0 <= i < |all| && all[i] == s;
        var p := PlacedSubs(data)[i];
        assert s == data.vals[p.category][p.position];
      }
      if exists k :: k in data.vals && s in data.vals[k] {
        var k :| k in data.vals && s in data.vals[k];
        var i :| 0 <= i < |data.vals[k]| && data.vals[k][i] == s;
        FlattenComplete(data.vals, data.keys, k, i);
        var ps := PlacedSubs(data);
        var j :| 0 <= j < |ps| && ps[j] == Placed(k, i, s);
        assert all[j] == s;
      }
    }
  }

  /** `allCategories`: the category names, each once, in key order. */
  function AllCategories(data: SubData): (r: seq<string>)
    requires Valid(data)
    ensures NoDuplicates(r)
    ensures forall c :: c in r <==> c in data.vals
  {
    data.keys
  }

  /** `subData[category].includes(sub)` for a category that is a key: the
      object is an element of that list exactly when it was placed there. */
  function InSelectedList(vals: map<string, seq<Sub>>, category: string): Placed -> bool {
    (p: Placed) => category in vals && p.category == category
  }

  /** `filteredSubs`: everything for "All", otherwise the subs of the
      selected category's list (none for a category that is not a key). */
  function FilteredSubs(data: SubData, category: string): (r: seq<Placed>)
    requires Valid(data)
    ensures |r| <= |PlacedSubs(data)|
    ensures category == "All" ==> SubsOf(r) == AllSubs(data)
  {
    if category == "All" then PlacedSubs(data)
    else Filter(PlacedSubs(data), InSelectedList(data.vals, category))
  }

  lemma {:induction false} FilterFlatten(vals: map<string, seq<Sub>>, keys: seq<string>, c: string)
    requires forall k :: k in keys ==> k in vals
    requires NoDuplicates(keys) && c in vals
    ensures Filter(FlattenFrom(vals, keys), InSelectedList(vals, c)) == if c in keys then Place(c, vals[c]) else []
  {
    var p := InSelectedList(vals, c);
    if keys != [] {
      var rest := keys[1..];
      assert NoDuplicates(rest) by {
        forall i, j | 0 <= i < j < |rest| ensures rest[i] != rest[j] {
          assert rest[i] == keys[i + 1] && rest[j] == keys[j + 1];
        }
      }
      var head := Place(keys[0], vals[keys[0]]);
      FilterAppend(head, FlattenFrom(vals, rest), p);
      FilterFlatten(vals, rest, c);
      if keys[0] == c {
        FilterAll(head, p);
        assert c !in rest by {
          forall j | 0 <= j < |rest| ensures rest[j] != c {
            assert rest[j] == keys[j + 1];
          }
        }
        assert head + [] == head;
      } else {
        forall x | x in head ensures !p(x) {
          assert x.category == keys[0];
        }
        FilterNone(head, p);
        assert c in keys <==> c in rest;
      }
    }
  }

  /** For a category that is a key (other than "All"), the filter yields
      exactly that category's list, in its order. */
  lemma FilteredKnownCategory(data: SubData, category: string)
    requires Valid(data) && category != "All" && category in data.vals
    ensures FilteredSubs(data, category) == Place(category, data.vals[category])
    ensures SubsOf(FilteredSubs(data, category)) == data.vals[category]
  {
    FilterFlatten(data.vals, data.keys, category);
  }

  /** A category that is neither "All" nor a key selects nothing. */
  lemma FilteredUnknownCategory(data: SubData, category: string)
    requires Valid(data) && category != "All" && category !in data.vals
    ensures FilteredSubs(data, category) == []
  {
    FilterNone(PlacedSubs(data), InSelectedList(data.vals, category));
  }

  /** `selectedSubObject`: the first sub in `allSubs` with the selected name;
      nothing when no name is selected. */
  function SelectedSubObject(data: SubData, selected: Option<string>): (r: Option<Sub>)
    requires Valid(data)
    ensures r.Some? ==> selected.Some? && r.value.name == selected.value
    ensures r.Some? ==> exists k :: k in data.vals && r.value in data.vals[k]
    ensures r.None? <==> selected.None? || forall s :: s in AllSubs(data) ==> s.name != selected.value
  {
    match selected
    case None => None
    case Some(name) =>
      AllSubsExactly(data);
      FindByName(AllSubs(data), name)
  }

  /** The selected sub is the first in catalogue order that has the name. */
  lemma SelectedSubIsFirst(data: SubData, name: string, i: nat)
    requires Valid(data) && i < |AllSubs(data)| && AllSubs(data)[i].name == name
    requires forall j :: 0 <= j < i ==> AllSubs(data)[j].name != name
    ensures SelectedSubObject(data, Some(name)) == Some(AllSubs(data)[i])
  {
    var all := AllSubs(data);
    var r := FindByName(all, name);
    var k :| 0 <= k < |all| && all[k] == r.value && r.value.name == name
             && forall j :: 0 <= j < k ==> all[j].name != name;
    assert k == i;
  }

  /** The tip shown at the top: `GENERAL_TIPS[Math.floor(Math.random() * n)]`,
      with the random draw `r` as a parameter. */
  function RandomTip(tips: seq<string>, r: real): (tip: string)
    requires IsRandom(r) && |tips| > 0
    ensures tip in tips
  {
    tips[RandomIndex(r, |tips|)]
  }

  /** The three tabs of the trainer. */
  datatype Tab = SubListTab | IngredientsTab | QuizTab

  /** The state of the trainer component. */
  class Trainer {
    const subData: SubData
    var activeTab: Tab
    var selectedCategory: string
    var selectedSub: Option<string>

    /** The sub list is shown first, for all categories, with nothing selected. */
    constructor(data: SubData)
      requires Valid(data)
      ensures subData == data
      ensures activeTab == SubListTab && selectedCategory == "All" && selectedSub == None
    {
      subData := data;
      activeTab := SubListTab;
      selectedCategory := "All";
      selectedSub := None;
    }

    /** The tab buttons. */
    method SelectTab(tab: Tab)
      modifies this
      ensures activeTab == tab
      ensures selectedCategory == old(selectedCategory) && selectedSub == old(selectedSub)
    {
      activeTab := tab;
    }

    /** `handleExitQuiz`: back to the sub list. */
    method HandleExitQuiz()
      modifies this
      ensures activeTab == SubListTab
      ensures selectedCategory == old(selectedCategory) && selectedSub == old(selectedSub)
    {
      activeTab := SubListTab;
    }

    /** `handleSubSelect`. */
    method HandleSubSelect(name: string)
      modifies this
      ensures selectedSub == Some(name)
      ensures activeTab == old(activeTab) && selectedCategory == old(selectedCategory)
    {
      selectedSub := Some(name);
    }

    /** The category drop-down. */
    method SelectCategory(category: string)
      modifies this
      ensures selectedCategory == category
      ensures activeTab == old(activeTab) && selectedSub == old(selectedSub)
    {
      selectedCategory := category;
    }

    /** The details panel is shown outside the quiz and ingredient tabs when
        the selected name finds a sub. */
    predicate ShowsDetails()
      reads this
      requires Valid(subData)
    {
      activeTab != QuizTab && activeTab != IngredientsTab
      && SelectedSubObject(subData, selectedSub).Some?
    }
  }

  /** The details panel appears only on the sub list, and only for a selected
      name that some sub carries. */
  lemma DetailsOnlyOnSubList(t: Trainer)
    requires Valid(t.subData) && t.ShowsDetails()
    ensures t.activeTab == SubListTab
    ensures t.selectedSub.Some? && exists s :: s in AllSubs(t.subData) && s.name == t.selectedSub.value
  {
  }
}

/** The quiz of the web app (src/components/SubQuiz.tsx). Its state is the
    mode, the current sandwich, the per-ingredient selection, the option
    lists and staged choices of the three multiple-choice modes, whether the
    results are shown, and the running score. `QuizState` is that state as a
    value and the functions below are its transitions; the class `Quiz`
    holds the same state in fields and updates it in place. */
module SubQuiz {
  import opened Wrappers
  import opened Seqs
  import opened Strings
  import opened Dicts
  import opened Sorting
  import opened DataUtils
  import opened QuizRandom

  datatype QuizMode = GuessIngredients | GuessSub | GuessNumber | GuessSubByNumber

  /** The modes that ask about sandwich numbers and so need a numbered sandwich. */
  predicate IsNumberMode(mode: QuizMode) {
    mode == GuessNumber || mode == GuessSubByNumber
  }

  /** The modes whose options are sandwich names. */
  predicate UsesSubOptions(mode: QuizMode) {
    mode == GuessSub || mode == GuessSubByNumber
  }

  datatype Score = Score(correct: nat, total: nat)

  /** The random results one question consumes: one to pick the sandwich,
      three for the distractor loop and three for shuffling at most four
      options. */
  datatype Draws = Draws(sub: real, distractors: seq<real>, swaps: seq<real>)

  predicate ValidDraws(d: Draws) {
    IsRandom(d.sub) && |d.distractors| == 3 && AllRandom(d.distractors)
    && |d.swaps| == 3 && AllRandom(d.swaps)
  }

  datatype QuizState = QuizState(
    mode: QuizMode,
    currentSub: Option<Sub>,
    selected: map<string, bool>,
    showResults: bool,
    score: Score,
    selectedCategory: string,
    sortAlphabetically: bool,
    subOptions: seq<string>,
    selectedSubOption: Option<string>,
    numberOptions: seq<string>,
    selectedNumberOption: Option<string>)

  /** The `useState` initial values. */
  function InitialState(): QuizState {
    QuizState(GuessIngredients, None, map[], false, Score(0, 0), "All", false, [], None, [], None)
  }

  /** `selectedIngredients[k]`, an absent key reading as false. */
  predicate IsSelected(selected: map<string, bool>, k: string) {
    k in selected && selected[k]
  }

  predicate HasNumber(sub: Sub) {
    ExtractSandwichNumber(sub.name).Some?
  }

  /** `getRandomSub`: no sandwich from an empty catalogue; in the number
      modes only a numbered sandwich, and none when there is none. */
  function RandomSub(mode: QuizMode, allSubs: seq<Sub>, r: real): (s: Option<Sub>)
    requires IsRandom(r)
    ensures s.Some? ==> s.value in allSubs
    ensures s.Some? && IsNumberMode(mode) ==> HasNumber(s.value)
    ensures s.None? <==> |allSubs| == 0 || (IsNumberMode(mode) && forall i :: 0 <= i < |allSubs| ==> !HasNumber(allSubs[i]))
  {
    if |allSubs| == 0 then None
    else if IsNumberMode(mode) then
      var numbered := Filter(allSubs, HasNumber);
      FilterMembers(allSubs, HasNumber);
      if |numbered| == 0 then
        assert forall i :: 0 <= i < |allSubs| ==> allSubs[i] !in numbered;
        None
      else
        var pick := numbered[RandomIndex(r, |numbered|)];
        assert pick in numbered;
        Some(pick)
    else Some(allSubs[RandomIndex(r, |allSubs|)])
  }

  function Names(subs: seq<Sub>): (r: seq<string>)
    ensures |r| == |subs| && forall i :: 0 <= i < |subs| ==> r[i] == subs[i].name
  {
    seq(|subs|, i requires 0 <= i < |subs| => subs[i].name)
  }

  /** The names of the other sandwiches, one entry per sandwich whose name
      differs from the correct one: the candidates for wrong options. */
  function OtherNames(allSubs: seq<Sub>, correctName: string): (r: seq<string>)
    ensures correctName !in r
    ensures forall x :: x in r <==> x != correctName && exists i :: 0 <= i < |allSubs| && allSubs[i].name == x
    ensures multiset(r) == multiset(Names(allSubs))[correctName := 0]
    ensures |r| + Occurrences(Names(allSubs), correctName) == |allSubs|
  {
    var names := Names(allSubs);
    FilterMembers(names, Unequal(correctName));
    FilterOutCounts(names, correctName);
    Filter(names, Unequal(correctName))
  }

  /** The numbers of all numbered sandwiches, in catalogue order. */
  function AllNumbers(subs: seq<Sub>): (r: seq<string>)
    ensures forall x :: x in r <==> exists i :: 0 <= i < |subs| && ExtractSandwichNumber(subs[i].name) == Some(x)
  {
    if subs == [] then []
    else
      var rest := AllNumbers(subs[1..]);
      assert forall i :: 1 <= i < |subs| ==> subs[i] == subs[1..][i - 1];
      match ExtractSandwichNumber(subs[0].name)
      case Some(n) => [n] + rest
      case None => rest
  }

  /** `r` lists the numbers of `numbered`, one per sandwich, in order. */
  predicate NumbersOf(numbered: seq<Sub>, r: seq<string>) {
    |r| == |numbered| && forall i :: 0 <= i < |r| ==> ExtractSandwichNumber(numbered[i].name) == Some(r[i])
  }

  lemma NumbersOfCons(s: Sub, n: string, numbered: seq<Sub>, r: seq<string>)
    requires ExtractSandwichNumber(s.name) == Some(n) && NumbersOf(numbered, r)
    ensures NumbersOf([s] + numbered, [n] + r)
  {
    var r', numbered' := [n] + r, [s] + numbered;
    forall i | 0 <= i < |r'| ensures ExtractSandwichNumber(numbered'[i].name) == Some(r'[i]) {
      if i > 0 {
        assert r'[i] == r[i - 1] && numbered'[i] == numbered[i - 1];
      }
    }
  }

  /** One entry per numbered sandwich: the i-th number is the number of the
      i-th numbered sandwich in catalogue order. */
  lemma {:induction false} AllNumbersInOrder(subs: seq<Sub>)
    ensures NumbersOf(Filter(subs, HasNumber), AllNumbers(subs))
  {
    if subs != [] {
      AllNumbersInOrder(subs[1..]);
      var rest, others := AllNumbers(subs[1..]), Filter(subs[1..], HasNumber);
      if HasNumber(subs[0]) {
        var n := ExtractSandwichNumber(subs[0].name).value;
        assert AllNumbers(subs) == [n] + rest;
        assert Filter(subs, HasNumber) == [subs[0]] + others;
        NumbersOfCons(subs[0], n, others, rest);
      } else {
        assert AllNumbers(subs) == rest && Filter(subs, HasNumber) == others;
      }
    }
  }

  /** The candidates for wrong number options: every number of the
      catalogue other than the correct one, as often as sandwiches carry
      it. */
  function IncorrectNumbers(allSubs: seq<Sub>, correctNumber: string): (r: seq<string>)
    ensures correctNumber !in r
    ensures forall x :: x in r <==> x != correctNumber && x in AllNumbers(allSubs)
    ensures multiset(r) == multiset(AllNumbers(allSubs))[correctNumber := 0]
  {
    var all := AllNumbers(allSubs);
    FilterMembers(all, Unequal(correctNumber));
    FilterOutCounts(all, correctNumber);
    Filter(all, Unequal(correctNumber))
  }

  /** Two sandwiches with the same number give it twice as a candidate, so
      two wrong options can show the same number. */
  lemma RepeatedNumberTwice(a: Sub, b: Sub, n: string, correctNumber: string)
    requires ExtractSandwichNumber(a.name) == Some(n) && ExtractSandwichNumber(b.name) == Some(n)
    requires n != correctNumber
    ensures IncorrectNumbers([a, b], correctNumber) == [n, n]
  {
    assert AllNumbers([b]) == [n] by {
      assert [b][1..] == [];
    }
    assert AllNumbers([a, b]) == [n, n] by {
      assert [a, b][1..] == [b];
    }
    FilterAll([n, n], Unequal(correctNumber));
  }

  /** The options of one question: up to three wrong candidates drawn
      without replacement, then the correct answer, shuffled. */
  function Options(candidates: seq<string>, correct: string, d: Draws): seq<string>
    requires ValidDraws(d)
  {
    Shuffled(Sample(candidates, d.distractors) + [correct], d.swaps)
  }

  /** Whatever the draws, the options hold the correct answer exactly once,
      one to three wrong candidates (as many as there are, up to three),
      and no candidate more often than it occurs. */
  lemma OptionsProperties(candidates: seq<string>, correct: string, d: Draws)
    requires ValidDraws(d) && correct !in candidates
    ensures |Options(candidates, correct, d)| == Min(3, |candidates|) + 1
    ensures multiset(Options(candidates, correct, d))[correct] == 1
    ensures forall x :: x in Options(candidates, correct, d) ==> x == correct || x in candidates
    ensures multiset(Options(candidates, correct, d)) - multiset{correct} <= multiset(candidates)
  {
    var chosen := Sample(candidates, d.distractors);
    SampleFromPool(candidates, d.distractors);
    ShuffledPermutes(chosen + [correct], d.swaps);
    var o := Options(candidates, correct, d);
    assert multiset(o) == multiset(chosen) + multiset{correct};
    assert correct !in multiset(candidates);
    assert multiset(chosen)[correct] == 0;
    forall x | x in o ensures x == correct || x in candidates {
      assert x in multiset(o);
    }
  }

  /** The body shared by `generateSubOptions` and `generateNumberOptions`
      once the candidates are known. */
  method DrawOptions(candidates: seq<string>, correct: string, d: Draws) returns (options: seq<string>)
    requires ValidDraws(d)
    ensures options == Options(candidates, correct, d)
  {
    var chosen := SampleThree(candidates, d.distractors);
    options := ShuffleArray(chosen + [correct], d.swaps);
  }

  /** Every ingredient of the catalogue, unselected. */
  function AllUnselected(info: Dict<string, Ingredient>): (m: map<string, bool>)
    ensures m.Keys == info.vals.Keys
    ensures forall k :: !IsSelected(m, k)
  {
    map k | k in info.vals.Keys :: false
  }

  /** `generateNumberOptions`: the number options change only when the
      sandwich has a number. */
  function NumberOptionsFor(st: QuizState, allSubs: seq<Sub>, sub: Sub, d: Draws): QuizState
    requires ValidDraws(d)
  {
    match ExtractSandwichNumber(sub.name)
    case None => st
    case Some(n) => st.(numberOptions := Options(IncorrectNumbers(allSubs, n), n, d))
  }

  /** The option generation step of `initializeQuiz`: name options in the
      two name modes, number options in the number mode. */
  function WithOptions(st: QuizState, allSubs: seq<Sub>, sub: Sub, d: Draws): QuizState
    requires ValidDraws(d)
  {
    if UsesSubOptions(st.mode) then st.(subOptions := Options(OtherNames(allSubs, sub.name), sub.name, d))
    else if st.mode == GuessNumber then NumberOptionsFor(st, allSubs, sub, d)
    else st
  }

  /** `initializeQuiz`. */
  function Initialize(st: QuizState, allSubs: seq<Sub>, info: Dict<string, Ingredient>, d: Draws): QuizState
    requires ValidDraws(d)
  {
    match RandomSub(st.mode, allSubs, d.sub)
    case None => st
    case Some(sub) =>
      var drawnState := st.(currentSub := Some(sub), showResults := false, selected := AllUnselected(info));
      WithOptions(drawnState, allSubs, sub, d).(selectedSubOption := None, selectedNumberOption := None)
  }

  /** Drawing a question resets the answer and the results and keeps the
      score; when no question can be drawn nothing changes. */
  lemma InitializeEffects(st: QuizState, allSubs: seq<Sub>, info: Dict<string, Ingredient>, d: Draws)
    requires ValidDraws(d)
    ensures var r := Initialize(st, allSubs, info, d);
      var drawn := RandomSub(st.mode, allSubs, d.sub);
      && (drawn.None? ==> r == st)
      && (drawn.Some? ==>
            && r.currentSub == drawn
            && !r.showResults
            && r.selected.Keys == info.vals.Keys && (forall k :: !IsSelected(r.selected, k))
            && r.selectedSubOption.None? && r.selectedNumberOption.None?
            && r.mode == st.mode && r.score == st.score
            && r.selectedCategory == st.selectedCategory && r.sortAlphabetically == st.sortAlphabetically)
      && (r.subOptions != st.subOptions ==> UsesSubOptions(st.mode))
      && (r.numberOptions != st.numberOptions ==> st.mode == GuessNumber)
  {
  }

  /** The options a freshly drawn question offers hold its answer exactly
      once, whichever of the option modes the quiz is in. */
  lemma InitializedOptionsHoldAnswer(st: QuizState, allSubs: seq<Sub>, info: Dict<string, Ingredient>, d: Draws)
    requires ValidDraws(d)
    requires RandomSub(st.mode, allSubs, d.sub).Some?
    ensures var r := Initialize(st, allSubs, info, d);
      var sub := r.currentSub.value;
      (UsesSubOptions(st.mode) ==>
         (multiset(r.subOptions)[sub.name] == 1
          && |r.subOptions| == Min(3, |OtherNames(allSubs, sub.name)|) + 1))
      && (st.mode == GuessNumber ==>
         (multiset(r.numberOptions)[ExtractSandwichNumber(sub.name).value] == 1
          && |r.numberOptions| == Min(3, |IncorrectNumbers(allSubs, ExtractSandwichNumber(sub.name).value)|) + 1))
  {
    InitializeEffects(st, allSubs, info, d);
    var sub := RandomSub(st.mode, allSubs, d.sub).value;
    if UsesSubOptions(st.mode) {
      OptionsProperties(OtherNames(allSubs, sub.name), sub.name, d);
    } else if st.mode == GuessNumber {
      var n := ExtractSandwichNumber(sub.name).value;
      OptionsProperties(IncorrectNumbers(allSubs, n), n, d);
    }
  }

  /** `handleModeChange` followed by the effect that depends on the mode:
      the score is reset, and a new question is drawn only when the mode
      actually changes. */
  function ModeChange(st: QuizState, mode: QuizMode, allSubs: seq<Sub>, info: Dict<string, Ingredient>, d: Draws): (r: QuizState)
    requires ValidDraws(d)
    ensures r.mode == mode && r.score == Score(0, 0)
    ensures mode == st.mode ==> r == st.(score := Score(0, 0))
  {
    var switched := st.(mode := mode, score := Score(0, 0));
    if mode == st.mode then switched else Initialize(switched, allSubs, info, d)
  }

  /** `handleIngredientClick`. */
  function IngredientClick(st: QuizState, ingredient: string): (r: QuizState)
    ensures st.showResults ==> r == st
    ensures !st.showResults ==> r == st.(selected := r.selected)
    ensures !st.showResults ==>
      (IsSelected(r.selected, ingredient) == !IsSelected(st.selected, ingredient)
       && forall k :: k != ingredient ==> IsSelected(r.selected, k) == IsSelected(st.selected, k))
  {
    if st.showResults then st
    else st.(selected := st.selected[ingredient := !IsSelected(st.selected, ingredient)])
  }

  /** `handleSubOptionSelect`. */
  function SubOptionSelect(st: QuizState, name: string): (r: QuizState)
    ensures st.showResults ==> r == st
    ensures !st.showResults ==> r == st.(selectedSubOption := Some(name))
  {
    if st.showResults then st else st.(selectedSubOption := Some(name))
  }

  /** `handleNumberOptionSelect`. */
  function NumberOptionSelect(st: QuizState, number: string): (r: QuizState)
    ensures st.showResults ==> r == st
    ensures !st.showResults ==> r == st.(selectedNumberOption := Some(number))
  {
    if st.showResults then st else st.(selectedNumberOption := Some(number))
  }

  /** The set of ingredients currently marked selected. */
  function SelectedKeys(selected: map<string, bool>): set<string> {
    set k | k in selected && selected[k]
  }

  /** The three-part test of the ingredient mode: as many selected as the
      sandwich lists, every listed ingredient selected, every selected
      ingredient listed. */
  predicate IngredientsCorrect(ingredients: seq<string>, selected: map<string, bool>) {
    && |SelectedKeys(selected)| == |ingredients|
    && (forall i :: 0 <= i < |ingredients| ==> IsSelected(selected, ingredients[i]))
    && (forall k :: k in selected && selected[k] ==> k in ingredients)
  }

  /** The test passes exactly when the selection is the set of listed
      ingredients and the list repeats none of them. */
  lemma IngredientsCorrectIff(ingredients: seq<string>, selected: map<string, bool>)
    ensures IngredientsCorrect(ingredients, selected)
        <==> SelectedKeys(selected) == Elements(ingredients) && NoDuplicates(ingredients)
  {
    DistinctCount(ingredients);
    var keys := SelectedKeys(selected);
    if IngredientsCorrect(ingredients, selected) {
      forall x | x in Elements(ingredients) ensures x in keys {
        var i :| 0 <= i < |ingredients| && ingredients[i] == x;
      }
      assert keys == Elements(ingredients);
    }
    if keys == Elements(ingredients) && NoDuplicates(ingredients) {
      forall i | 0 <= i < |ingredients| ensures IsSelected(selected, ingredients[i]) {
        assert ingredients[i] in Elements(ingredients);
      }
      forall k | IsSelected(selected, k) ensures k in ingredients {
        assert k in keys;
      }
    }
  }

  /** A sandwich that lists an ingredient twice can never be answered
      correctly in the ingredient mode. */
  lemma DuplicateIngredientsNeverScore(ingredients: seq<string>, selected: map<string, bool>)
    requires !NoDuplicates(ingredients)
    ensures !IngredientsCorrect(ingredients, selected)
  {
    IngredientsCorrectIff(ingredients, selected);
  }

  /** The point a submitted answer earns: 1 or 0. */
  function Point(st: QuizState): (p: nat)
    requires st.currentSub.Some?
    ensures p <= 1
    ensures st.mode == GuessIngredients ==>
      (p == 1 <==> IngredientsCorrect(st.currentSub.value.ingredients, st.selected))
    ensures UsesSubOptions(st.mode) ==> (p == 1 <==> st.selectedSubOption == Some(st.currentSub.value.name))
    ensures st.mode == GuessNumber ==>
      (p == 1 <==> st.selectedNumberOption == ExtractSandwichNumber(st.currentSub.value.name))
  {
    var sub := st.currentSub.value;
    match st.mode
    case GuessIngredients => if IngredientsCorrect(sub.ingredients, st.selected) then 1 else 0
    case GuessSub => if st.selectedSubOption == Some(sub.name) then 1 else 0
    case GuessNumber => if st.selectedNumberOption == ExtractSandwichNumber(sub.name) then 1 else 0
    case GuessSubByNumber => if st.selectedSubOption == Some(sub.name) then 1 else 0
  }

  /** `handleSubmit`. */
  function Submit(st: QuizState): (r: QuizState)
    ensures st.currentSub.None? ==> r == st
    ensures st.currentSub.Some? ==>
      r.showResults && r.score.total == st.score.total + 1
      && st.score.correct <= r.score.correct <= st.score.correct + 1
      && r == st.(showResults := true, score := r.score)
  {
    if st.currentSub.None? then st
    else st.(showResults := true, score := Score(st.score.correct + Point(st), st.score.total + 1))
  }

  /** The score never counts more correct answers than answers. */
  predicate ScoreValid(st: QuizState) {
    st.score.correct <= st.score.total
  }

  /** Every transition keeps the score valid. */
  /** The category select and the sort box only change which ingredients
      the grid shows: a submit scores the same after either. */
  lemma ViewControlsKeepScore(st: QuizState, category: string)
    ensures Submit(st.(selectedCategory := category)).score == Submit(st).score
    ensures Submit(st.(sortAlphabetically := !st.sortAlphabetically)).score == Submit(st).score
  {
  }

  lemma TransitionsKeepScoreValid(st: QuizState, allSubs: seq<Sub>, info: Dict<string, Ingredient>, d: Draws,
                                  mode: QuizMode, x: string)
    requires ScoreValid(st) && ValidDraws(d)
    ensures ScoreValid(Initialize(st, allSubs, info, d))
    ensures ScoreValid(ModeChange(st, mode, allSubs, info, d))
    ensures ScoreValid(IngredientClick(st, x))
    ensures ScoreValid(SubOptionSelect(st, x)) && ScoreValid(NumberOptionSelect(st, x))
    ensures ScoreValid(Submit(st))
  {
    var switched := st.(mode := mode, score := Score(0, 0));
    InitializeEffects(st, allSubs, info, d);
    InitializeEffects(switched, allSubs, info, d);
  }

  /** A submission in an option mode scores exactly when the staged choice
      is the sandwich's name or number; in the ingredient mode exactly when
      the selection is the sandwich's ingredient set without repeats. */
  lemma SubmitScoresIff(st: QuizState)
    requires st.currentSub.Some?
    ensures var sub := st.currentSub.value;
      var gained := Submit(st).score.correct == st.score.correct + 1;
      && (UsesSubOptions(st.mode) ==> (gained <==> st.selectedSubOption == Some(sub.name)))
      && (st.mode == GuessNumber ==> (gained <==> st.selectedNumberOption == ExtractSandwichNumber(sub.name)))
      && (st.mode == GuessIngredients ==>
            (gained <==> SelectedKeys(st.selected) == Elements(sub.ingredients) && NoDuplicates(sub.ingredients)))
  {
    IngredientsCorrectIff(st.currentSub.value.ingredients, st.selected);
  }

  /** Once the results are shown, the answer can no longer be changed. */
  lemma AnswerLockedAfterResults(st: QuizState, x: string)
    requires st.showResults
    ensures IngredientClick(st, x) == st
    ensures SubOptionSelect(st, x) == st
    ensures NumberOptionSelect(st, x) == st
  {
  }

  /** `isIngredientCorrect`'s four results ('correct', 'none', 'missing',
      'extra'). */
  datatype IngredientResult = Correct | Unneeded | Missing | Extra

  /** `isIngredientCorrect`: nothing before the results are shown, then the
      classification of the ingredient by whether it was selected and
      whether the sandwich lists it. */
  function IngredientStatus(st: QuizState, ingredient: string): (r: Option<IngredientResult>)
    ensures r.None? <==> !st.showResults
    ensures r.Some? ==>
      var chosen := IsSelected(st.selected, ingredient);
      var listed := st.currentSub.Some? && ingredient in st.currentSub.value.ingredients;
      (r.value == Correct <==> chosen && listed)
      && (r.value == Unneeded <==> !chosen && !listed)
      && (r.value == Missing <==> !chosen && listed)
      && (r.value == Extra <==> chosen && !listed)
  {
    if !st.showResults then None
    else
      var chosen := IsSelected(st.selected, ingredient);
      var listed := st.currentSub.Some? && ingredient in st.currentSub.value.ingredients;
      if chosen && listed then Some(Correct)
      else if !chosen && !listed then Some(Unneeded)
      else if !chosen && listed then Some(Missing)
      else Some(Extra)
  }

  /** With results shown, the ingredient answer earned its point exactly
      when no ingredient is missing or extra and the sandwich repeats no
      ingredient. */
  lemma StatusesAgreeWithPoint(st: QuizState)
    requires st.showResults && st.currentSub.Some? && st.mode == GuessIngredients
    ensures Point(st) == 1 <==>
      NoDuplicates(st.currentSub.value.ingredients)
      && forall x :: IngredientStatus(st, x) != Some(Missing) && IngredientStatus(st, x) != Some(Extra)
  {
    var ings := st.currentSub.value.ingredients;
    IngredientsCorrectIff(ings, st.selected);
    if NoDuplicates(ings) && forall x :: IngredientStatus(st, x) != Some(Missing) && IngredientStatus(st, x) != Some(Extra) {
      forall x ensures x in SelectedKeys(st.selected) <==> x in Elements(ings) {
        assert IngredientStatus(st, x) != Some(Missing) && IngredientStatus(st, x) != Some(Extra);
      }
      assert SelectedKeys(st.selected) == Elements(ings);
    }
    if Point(st) == 1 {
      forall x ensures IngredientStatus(st, x) != Some(Missing) && IngredientStatus(st, x) != Some(Extra) {
        assert x in SelectedKeys(st.selected) <==> x in Elements(ings);
      }
    }
  }

  /** A staged choice that JavaScript treats as false: none, or empty. */
  predicate Falsy(o: Option<string>) {
    o.None? || o.value == ""
  }

  /** The `disabled` condition of the submit button. */
  predicate SubmitDisabled(st: QuizState) {
    (UsesSubOptions(st.mode) && Falsy(st.selectedSubOption))
    || (st.mode == GuessNumber && Falsy(st.selectedNumberOption))
  }

  /** When the button lets a number answer through, the answer is a
      non-empty choice, so a sandwich without a number can never be scored
      as answered correctly by an empty choice. */
  lemma EnabledSubmitHasChoice(st: QuizState)
    requires !SubmitDisabled(st) && st.currentSub.Some?
    ensures st.mode == GuessIngredients || UsesSubOptions(st.mode) || st.selectedNumberOption.Some?
    ensures UsesSubOptions(st.mode) ==> st.selectedSubOption.Some? && st.selectedSubOption.value != ""
    ensures st.mode == GuessNumber && !HasNumber(st.currentSub.value) ==> Point(st) == 0
  {
  }

  /** The category of a catalogue ingredient ("" for an unknown one). */
  function CategoryOf(info: Dict<string, Ingredient>, name: string): string {
    if name in info.vals then info.vals[name].category else ""
  }

  /** Category first, then name, both in code-point order. */
  predicate ByCategoryThenName(info: Dict<string, Ingredient>, a: string, b: string) {
    if CategoryOf(info, a) == CategoryOf(info, b) then LexLeq(a, b)
    else LexLeq(CategoryOf(info, a), CategoryOf(info, b))
  }

  lemma CategoryOrderIsTotalPreorder(info: Dict<string, Ingredient>)
    ensures TotalPreorder((a: string, b: string) => ByCategoryThenName(info, a, b))
  {
    var leq := (a: string, b: string) => ByCategoryThenName(info, a, b);
    forall a, b ensures leq(a, b) || leq(b, a) {
      LexLeqTotal(a, b);
      LexLeqTotal(CategoryOf(info, a), CategoryOf(info, b));
    }
    forall a, b, c | leq(a, b) && leq(b, c) ensures leq(a, c) {
      var ca, cb, cc := CategoryOf(info, a), CategoryOf(info, b), CategoryOf(info, c);
      if ca == cb && cb == cc {
        LexLeqTransitive(a, b, c);
      } else if ca == cb {
        assert LexLeq(cb, cc);
      } else if cb == cc {
        assert LexLeq(ca, cb);
      } else if ca == cc {
        LexLeqAntisymmetric(ca, cb);
      } else {
        LexLeqTransitive(ca, cb, cc);
      }
    }
  }

  /** The ingredient filter of the quiz: every ingredient for "All",
      otherwise those of the chosen category. */
  predicate InCategory(info: Dict<string, Ingredient>, category: string, name: string) {
    category == "All" || (name in info.vals && info.vals[name].category == category)
  }

  /** `getFilteredIngredients`: the names of the ingredients in the chosen
      category, ordered by name, or by category and then by name. */
  function FilteredIngredients(info: Dict<string, Ingredient>, category: string, alphabetical: bool): (r: seq<string>)
    requires Valid(info)
    ensures forall x :: x in r <==> x in info.vals && InCategory(info, category, x)
    ensures multiset(r) == multiset(Filter(info.keys, (n: string) => InCategory(info, category, n)))
    ensures alphabetical ==> SortedBy(r, LexLeq)
    ensures !alphabetical ==> SortedBy(r, (a: string, b: string) => ByCategoryThenName(info, a, b))
  {
    var names := Filter(info.keys, (n: string) => InCategory(info, category, n));
    FilterSpec(info.keys, (n: string) => InCategory(info, category, n));
    assert forall x :: x in names <==> x in multiset(names);
    if alphabetical then
      CodePointOrderIsTotalPreorder();
      var r := SortBy(names, LexLeq);
      assert forall x :: x in r <==> x in multiset(r);
      r
    else
      CategoryOrderIsTotalPreorder(info);
      var r := SortBy(names, (a: string, b: string) => ByCategoryThenName(info, a, b));
      assert forall x :: x in r <==> x in multiset(r);
      r
  }

  /** The quiz component: its props as constants and its React state as
      fields that the handlers update. */
  class Quiz {
    const allSubs: seq<Sub>
    const ingredientInfo: Dict<string, Ingredient>
    var mode: QuizMode
    var currentSub: Option<Sub>
    var selected: map<string, bool>
    var showResults: bool
    var score: Score
    var selectedCategory: string
    var sortAlphabetically: bool
    var subOptions: seq<string>
    var selectedSubOption: Option<string>
    var numberOptions: seq<string>
    var selectedNumberOption: Option<string>

    function State(): QuizState
      reads this
    {
      QuizState(mode, currentSub, selected, showResults, score, selectedCategory, sortAlphabetically,
                subOptions, selectedSubOption, numberOptions, selectedNumberOption)
    }

    /** The component before its mount effect has run. */
    constructor(allSubs: seq<Sub>, ingredientInfo: Dict<string, Ingredient>)
      ensures this.allSubs == allSubs && this.ingredientInfo == ingredientInfo
      ensures State() == InitialState()
    {
      this.allSubs := allSubs;
      this.ingredientInfo := ingredientInfo;
      mode := GuessIngredients;
      currentSub := None;
      selected := map[];
      showResults := false;
      score := Score(0, 0);
      selectedCategory := "All";
      sortAlphabetically := false;
      subOptions := [];
      selectedSubOption := None;
      numberOptions := [];
      selectedNumberOption := None;
    }

    /** `initializeQuiz`, also run by the effect on mount and on every
        change of mode. */
    method InitializeQuiz(d: Draws)
      requires ValidDraws(d)
      modifies this
      ensures State() == Initialize(old(State()), allSubs, ingredientInfo, d)
    {
      var drawn := RandomSub(mode, allSubs, d.sub);
      if drawn.None? {
        return;
      }
      var sub := drawn.value;
      currentSub := Some(sub);
      showResults := false;
      selected := AllUnselected(ingredientInfo);
      GenerateOptions(sub, d);
      selectedSubOption := None;
      selectedNumberOption := None;
    }

    /** `generateSubOptions` or `generateNumberOptions`, as the mode asks. */
    method GenerateOptions(sub: Sub, d: Draws)
      requires ValidDraws(d)
      modifies this
      ensures State() == WithOptions(old(State()), allSubs, sub, d)
    {
      if mode == GuessSub || mode == GuessSubByNumber {
        subOptions := DrawOptions(OtherNames(allSubs, sub.name), sub.name, d);
      } else if mode == GuessNumber {
        var correctNumber := ExtractSandwichNumber(sub.name);
        if correctNumber.None? {
          return;
        }
        numberOptions := DrawOptions(IncorrectNumbers(allSubs, correctNumber.value), correctNumber.value, d);
      }
    }

    /** `handleModeChange`, then the mode effect when the mode changed. */
    method HandleModeChange(newMode: QuizMode, d: Draws)
      requires ValidDraws(d)
      modifies this
      ensures State() == ModeChange(old(State()), newMode, allSubs, ingredientInfo, d)
    {
      var changed := newMode != mode;
      mode := newMode;
      score := Score(0, 0);
      if changed {
        InitializeQuiz(d);
      }
    }

    method HandleIngredientClick(ingredient: string)
      modifies this
      ensures State() == IngredientClick(old(State()), ingredient)
    {
      if showResults {
        return;
      }
      selected := selected[ingredient := !IsSelected(selected, ingredient)];
    }

    method HandleSubmit()
      modifies this
      ensures State() == Submit(old(State()))
    {
      if currentSub.None? {
        return;
      }
      showResults := true;
      var gained := Point(State());
      score := Score(score.correct + gained, score.total + 1);
    }

    /** The category select above the ingredient grid. */
    method HandleCategorySelect(category: string)
      modifies this
      ensures State() == old(State()).(selectedCategory := category)
    {
      selectedCategory := category;
    }

    /** The "Sort Alphabetically" checkbox. */
    method HandleSortToggle()
      modifies this
      ensures State() == old(State()).(sortAlphabetically := !old(sortAlphabetically))
    {
      sortAlphabetically := !sortAlphabetically;
    }

    method HandleSubOptionSelect(name: string)
      modifies this
      ensures State() == SubOptionSelect(old(State()), name)
    {
      if showResults {
        return;
      }
      selectedSubOption := Some(name);
    }

    method HandleNumberOptionSelect(number: string)
      modifies this
      ensures State() == NumberOptionSelect(old(State()), number)
    {
      if showResults {
        return;
      }
      selectedNumberOption := Some(number);
    }
  }
}

# Sub trainer: a verified model

The model covers a study aid for a sandwich shop's menu. It has two parts:

- **The web app** (`src/`) shows the catalogue of subs by category, the ingredient catalogue and the site tips. It also runs a quiz with four modes:
  - guess the ingredients of a sub;
  - guess the sub from its ingredients;
  - guess a sub's number;
  - guess the sub from its number.
- **The desktop editor** (`editor/main.py`) edits the tips list, the ingredient dictionary and the category-to-subs dictionary.

This project models the app's logic and the editor's logic in Dafny. It proves what they promise.

## Layout

| module (file) | what it models |
|---|---|
| `Wrappers`, `Seqs`, `Strings`, `Dicts`, `Sorting` | Shared vocabulary. `Option` and `Filter` with its laws. JavaScript and Python whitespace, trimming and code-point order. An insertion-ordered dictionary, which is a JavaScript object or Python `dict`. Sorting by a total preorder. |
| `DataUtils` (`data_utils.dfy`) | The `Sub` and `Ingredient` shapes, `extractSandwichNumber`, `cleanSandwichName` and the `find` by name. |
| `QuizRandom` (`quiz_random.dfy`) | The random index, the splice loop that samples distractors without replacement, and the Fisher–Yates shuffle on an array. |
| `SubQuiz` (`sub_quiz.dfy`) | The quiz state as a value with its transitions, and the class `Quiz` whose handlers update the same state in place. |
| `SubTrainer`, `IngredientDisplay`, `TipsDisplay` | The selectors and small state of the trainer, the ingredient browser and the tips page. |
| `TipsEditor`, `IngredientEditor`, `SubEditor` (`editor_*.dfy`) | The three editor pages as classes whose methods update the catalogue in place. Each is proved against a function on values. |

Every `Math.random()` result is an explicit real in `[0, 1)`. The properties about the quiz therefore hold for every sequence of draws.

Clearing a Qt list or tree takes away its current item, which emits the selection signal with no item. Each editor page therefore runs its selection handler with no item whenever it rebuilds its list or tree: the rebuild ends the editing and disables the form.

Widget reads and confirmation dialogs of the editor are method parameters. These include:

- the text of a field;
- the row the user picked;
- whether "Yes" was clicked.

## Model

| member | source | states |
|---|---|---|
| DataUtils.ExtractSandwichNumber | src/utils/dataUtils.ts:188-196 | A number is found only in a name that starts with `#`. The number is non-empty and all digits. It contains neither `#` nor a space, and it is the text right after the `#`. |
| DataUtils.ExtractIsNumberToken | src/utils/dataUtils.ts:188-196 | The result is `t` exactly when the name is `#`, then the digits `t`, then either the end or a space. Both directions are proved. Any other character, a tab included, leaves the word not all digits. |
| DataUtils.ExtractNoneIffNoToken | src/utils/dataUtils.ts:188-196 | The result is null exactly when the name has no number token. |
| DataUtils.ExtractExamplesWithoutNumber | src/utils/dataUtils.ts:189-195 | `"#"`, `"#abc"` and `"Spicy"` have no number. |
| DataUtils.ExtractExampleTab | src/utils/dataUtils.ts:190-195 | `"#7\tX"` has no number, because only a space ends the first word. |
| DataUtils.ExtractExampleNumbered | src/utils/dataUtils.ts:188-196 | `"#7 Spicy East Coast Italian"` has the number `"7"`. |
| DataUtils.NumberPrefixLength | src/utils/dataUtils.ts:200 | The match of `^#\d+\s+` is empty or at least three characters long. It starts with `#` and a digit. It ends on whitespace that is not followed by more whitespace. |
| DataUtils.NumberPrefixShape | src/utils/dataUtils.ts:200 | A non-empty match is `#`, at least one digit and whitespace, and it runs on through whitespace to its end. |
| DataUtils.NumberPrefixIff | src/utils/dataUtils.ts:200 | The pattern matches exactly when the name starts with `#`, one or more digits and a whitespace character. Both directions are proved. |
| DataUtils.CleanSandwichName | src/utils/dataUtils.ts:199-201 | The display name is no longer than the name. It neither starts nor ends with whitespace. |
| DataUtils.CleanRemovesNumberPrefix | src/utils/dataUtils.ts:200 | `#` followed by digits, whitespace and a rest cleans to the trimmed rest. |
| DataUtils.CleanWithoutHash | src/utils/dataUtils.ts:200 | A name that does not start with `#` is only trimmed. |
| DataUtils.CleanNumberOnly | src/utils/dataUtils.ts:200 | `#` followed only by digits is only trimmed. |
| DataUtils.CleanWithoutNumberPrefix | src/utils/dataUtils.ts:200 | Any name that does not start with `#`, digits and whitespace is only trimmed. |
| DataUtils.CleanExampleHashWord | src/utils/dataUtils.ts:200 | `"#abc def"` comes back unchanged, because no digit follows the `#`. |
| DataUtils.CleanExampleDigitsThenLetter | src/utils/dataUtils.ts:200 | `"#7x Spicy"` comes back unchanged, because a letter, not whitespace, follows the digits. |
| DataUtils.CleanAfterExtractedNumber | src/utils/dataUtils.ts:188-201 | Take a name with number `n` that continues after `#n`. Its display name is the trimmed remainder after `#n`. |
| DataUtils.CleanExampleNumbered | src/utils/dataUtils.ts:200 | `"#7 Spicy East Coast Italian"` cleans to `"Spicy East Coast Italian"`. |
| DataUtils.CleanExamplesUnnumbered | src/utils/dataUtils.ts:200 | `"No Number Item"` and `"#7"` come back unchanged. |
| DataUtils.FindByName | src/components/SubQuiz.tsx:242-244 | The first sub with the name, and none exactly when no sub has it. |
| QuizRandom.RandomIndex | src/components/SubQuiz.tsx:94 | `Math.floor(Math.random() * n)` is an index below `n`. |
| QuizRandom.RemoveAtMultiset | src/components/SubQuiz.tsx:96 | `splice(i, 1)` removes exactly the element at `i`. |
| QuizRandom.SampleInto | src/components/SubQuiz.tsx:93-97 | Continuing the loop from a partial result adds one element per random number, until the numbers or the pool run out. |
| QuizRandom.Sample | src/components/SubQuiz.tsx:92-97 | The loop collects `min(k, n)` elements from a pool of `n` with `k` random numbers. The option generators use three. |
| QuizRandom.SampleIntoFromPool | src/components/SubQuiz.tsx:93-97 | Each draw moves an element from the pool to the result, so the result holds nothing more often than the partial result and the pool together. |
| QuizRandom.SampleFromPool | src/components/SubQuiz.tsx:93-97 | The sample takes no element more often than the pool holds it. In other words it draws without replacement. |
| QuizRandom.SampleThree | src/components/SubQuiz.tsx:91-97 | The splice loop, run on a shrinking copy of the candidates with three random numbers, computes `Sample`. |
| QuizRandom.ShuffleDownPermutes | src/components/SubQuiz.tsx:133-136 | Each remaining step of the shuffle loop permutes the array. |
| QuizRandom.ShuffledPermutes | src/components/SubQuiz.tsx:131-138 | Whatever the draws, the shuffled array is a permutation of the input. |
| QuizRandom.ShuffleArray | src/components/SubQuiz.tsx:131-138 | The in-place swap loop on a copy gives `Shuffled(input)`, which `ShuffledPermutes` shows is a permutation of the input. The input is a value and stays as it was. |
| SubQuiz.RandomSub | src/components/SubQuiz.tsx:39-52 | The result is a sub of the catalogue. In the number modes it is a numbered sub. It is none exactly when the catalogue is empty, or when the mode needs a number and no sub has one. |
| SubQuiz.OtherNames | src/components/SubQuiz.tsx:87-89 | The distractor candidates are exactly the other subs' names, never the correct one. Each name occurs as often as subs carry it, and there are as many candidates as subs with another name. |
| SubQuiz.AllNumbers | src/components/SubQuiz.tsx:110-112 | A value is in the list exactly when some sub's name has that number. |
| SubQuiz.AllNumbersInOrder | src/components/SubQuiz.tsx:110-112 | There is one entry per numbered sub, in catalogue order: the i-th entry is the number of the i-th numbered sub. |
| SubQuiz.IncorrectNumbers | src/components/SubQuiz.tsx:115 | The candidates are exactly the catalogue's numbers other than the correct one, each as often as it occurs in `AllNumbers`. |
| SubQuiz.RepeatedNumberTwice | src/components/SubQuiz.tsx:110-115 | Two subs that share a wrong number give it twice, so two wrong options can show the same number. |
| SubQuiz.OptionsProperties | src/components/SubQuiz.tsx:83-128 | Whatever the draws, the options have `min(3, candidates) + 1` entries. They hold the correct answer exactly once. Every other entry is a candidate, taken no more often than it occurs. |
| SubQuiz.DrawOptions | src/components/SubQuiz.tsx:91-101 | Sampling and then shuffling computes `Options`. |
| SubQuiz.AllUnselected | src/components/SubQuiz.tsx:63-67 | Every catalogue ingredient is a key, and none is selected. |
| SubQuiz.InitializeEffects | src/components/SubQuiz.tsx:55-80 | With no sub drawn, nothing changes. With a sub drawn, that sub becomes current. Results are hidden and every ingredient is unselected. Both staged choices are cleared. Mode, score, category and sort stay as they were. Name options change only in the name modes and number options only in the number mode. |
| SubQuiz.InitializedOptionsHoldAnswer | src/components/SubQuiz.tsx:69-76 | A freshly drawn question's options hold its name (or its number) exactly once. There are `min(3, candidates) + 1` options. |
| SubQuiz.ModeChange | src/components/SubQuiz.tsx:141-144 | A mode change sets the mode and zeroes the score. Re-choosing the current mode changes nothing else, because the mode effect (lines 273-275) does not fire. |
| SubQuiz.IngredientClick | src/components/SubQuiz.tsx:147-154 | With results shown, the click changes nothing. Otherwise it toggles exactly that ingredient. |
| SubQuiz.SubOptionSelect | src/components/SubQuiz.tsx:230-233 | The name choice is staged only while results are hidden. |
| SubQuiz.NumberOptionSelect | src/components/SubQuiz.tsx:236-239 | The number choice is staged only while results are hidden. |
| SubQuiz.IngredientsCorrectIff | src/components/SubQuiz.tsx:186-198 | The three-part test holds exactly when the selection equals the sub's ingredient set and the list has no repeats. |
| SubQuiz.DuplicateIngredientsNeverScore | src/components/SubQuiz.tsx:186-198 | A sub that lists an ingredient twice can never score. |
| SubQuiz.Point | src/components/SubQuiz.tsx:184-221 | The point is 0 or 1. Per mode, it is 1 exactly when the mode's test passes. |
| SubQuiz.Submit | src/components/SubQuiz.tsx:176-227 | Without a sub, nothing changes. With one, results are shown, `total` grows by exactly 1 and `correct` by 0 or 1, and nothing else changes. |
| SubQuiz.TransitionsKeepScoreValid | src/components/SubQuiz.tsx:141-239 | Every transition keeps `correct <= total`. |
| SubQuiz.ViewControlsKeepScore | src/components/SubQuiz.tsx:369-383 | The category filter and the sort toggle do not change what a submission scores. |
| SubQuiz.SubmitScoresIff | src/components/SubQuiz.tsx:184-221 | A submission gains a point exactly when the staged name or number is the sub's. In the ingredient mode it gains a point exactly when the selection is the ingredient set and there are no repeats. |
| SubQuiz.AnswerLockedAfterResults | src/components/SubQuiz.tsx:148 | Once results are shown, toggles and option selections change nothing. The same guard is at lines 231 and 237. |
| SubQuiz.IngredientStatus | src/components/SubQuiz.tsx:157-173 | None before results. After that, exactly one of correct, none, missing or extra, each stated as an iff on (selected, listed). |
| SubQuiz.StatusesAgreeWithPoint | src/components/SubQuiz.tsx:157-198 | The ingredient point is earned exactly when no status is missing or extra and the list has no repeats. |
| SubQuiz.EnabledSubmitHasChoice | src/components/SubQuiz.tsx:584-585 | An enabled button in an option mode means a non-empty staged choice. A sub without a number can never score in the number mode. |
| SubQuiz.CategoryOrderIsTotalPreorder | src/components/SubQuiz.tsx:257-268 | Category-then-name order is total and transitive. |
| SubQuiz.FilteredIngredients | src/components/SubQuiz.tsx:247-270 | The result holds exactly the catalogue names in the category ("All" for every name), each as often as the filter keeps it. It is sorted by name, or by category then name. |
| SubQuiz.Quiz.constructor | src/components/SubQuiz.tsx:20-36 | The initial state. |
| SubQuiz.Quiz.InitializeQuiz | src/components/SubQuiz.tsx:55-80 | The fields become `Initialize` of the old state. |
| SubQuiz.Quiz.GenerateOptions | src/components/SubQuiz.tsx:69-76 | The option fields are generated for the mode. Number options change only for a numbered sub. |
| SubQuiz.Quiz.HandleModeChange | src/components/SubQuiz.tsx:141-144 | The fields become `ModeChange` of the old state. |
| SubQuiz.Quiz.HandleIngredientClick | src/components/SubQuiz.tsx:147-154 | The fields become `IngredientClick` of the old state. |
| SubQuiz.Quiz.HandleSubmit | src/components/SubQuiz.tsx:176-227 | The fields become `Submit` of the old state. |
| SubQuiz.Quiz.HandleSubOptionSelect | src/components/SubQuiz.tsx:230-233 | The fields become `SubOptionSelect` of the old state. |
| SubQuiz.Quiz.HandleNumberOptionSelect | src/components/SubQuiz.tsx:236-239 | The fields become `NumberOptionSelect` of the old state. |
| SubQuiz.Quiz.HandleCategorySelect | src/components/SubQuiz.tsx:369 | Only the ingredient category filter changes. |
| SubQuiz.Quiz.HandleSortToggle | src/components/SubQuiz.tsx:383 | Only the sort flag flips. |
| SubTrainer.AllSubsJoinsLists | src/components/SubTrainer.tsx:54 | `allSubs` is every category's list, one after another in key order. |
| SubTrainer.AllSubsExactly | src/components/SubTrainer.tsx:54 | The flattened list holds each catalogue place once. A sub is in it exactly when some category lists it. |
| SubTrainer.AllCategories | src/components/SubTrainer.tsx:60 | The categories are exactly the keys, without repeats. |
| SubTrainer.FilteredSubs | src/components/SubTrainer.tsx:63-71 | The result is never longer than `allSubs`. For "All" it is `allSubs`. |
| SubTrainer.FilteredKnownCategory | src/components/SubTrainer.tsx:65-71 | For a known category the result is exactly that category's list, in its order. |
| SubTrainer.FilteredUnknownCategory | src/components/SubTrainer.tsx:65-71 | An unknown category selects nothing. |
| SubTrainer.SelectedSubObject | src/components/SubTrainer.tsx:57 | A found sub has the selected name and is in the catalogue. Nothing is found exactly when no name is selected or no sub has it. |
| SubTrainer.SelectedSubIsFirst | src/components/SubTrainer.tsx:57 | The found sub is the first one with the name. |
| SubTrainer.RandomTip | src/components/SubTrainer.tsx:39-40 | The tip shown is one of the tips. |
| SubTrainer.Trainer.constructor | src/components/SubTrainer.tsx:14-22 | Starts on the sub list, with "All" and no selection. |
| SubTrainer.Trainer.SelectTab | src/components/SubTrainer.tsx:76-93 | Only the tab changes. |
| SubTrainer.Trainer.HandleExitQuiz | src/components/SubTrainer.tsx:49-51 | Back to the sub list, and nothing else changes. |
| SubTrainer.Trainer.HandleSubSelect | src/components/SubTrainer.tsx:44-46 | Only the selected name changes. |
| SubTrainer.Trainer.SelectCategory | src/components/SubTrainer.tsx:104-108 | Only the category changes. |
| SubTrainer.DetailsOnlyOnSubList | src/components/SubTrainer.tsx:143 | Details are shown only on the sub list, for a name some sub has. |
| IngredientDisplay.FilteredIngredients | src/components/IngredientDisplay.tsx:21-24 | The filter never adds entries. |
| IngredientDisplay.FilteredIngredientsSpec | src/components/IngredientDisplay.tsx:21-24 | An entry is kept exactly when it is in the catalogue and shown by the selection. Catalogue order is kept. "All" keeps everything. |
| IngredientDisplay.FilteredNames | src/components/IngredientDisplay.tsx:22-23 | A name is listed exactly when it is in the catalogue and "All" or its category is selected. |
| IngredientDisplay.View | src/components/IngredientDisplay.tsx:43-46 | "No ingredients found" appears exactly when no entry is shown. Otherwise the grid holds the filtered entries. |
| IngredientDisplay.IngredientPanel.constructor | src/components/IngredientDisplay.tsx:18 | Starts with "All", showing every entry. |
| IngredientDisplay.IngredientPanel.SelectCategory | src/components/IngredientDisplay.tsx:31-39 | A category button selects that category. |
| TipsDisplay.TipText | src/components/TipsDisplay.tsx:20 | A tip's text is the string or the object's `text`. |
| TipsDisplay.TipIcon | src/components/TipsDisplay.tsx:21 | A tip has its own icon only when it is an object with a non-empty icon. Otherwise it gets `tipIcon`. |
| TipsDisplay.Render | src/components/TipsDisplay.tsx:5-28 | No tips exactly when the list is missing or empty. Otherwise there is one card per tip, in order, with its text and icon; the icon defaults to the light bulb. |
| TipsDisplay.EveryCardHasAnIcon | src/components/TipsDisplay.tsx:10-21 | Without `tipIcon`, every card has a non-empty icon. |
| TipsDisplay.FallbackIcon | src/components/TipsDisplay.tsx:21 | A plain tip, or an object without its own icon, shows the fallback. |
| TipsEditor.Normalize | editor/main.py:186-196 | A string becomes an object with that text and an empty icon. A missing key becomes `""`. Existing values are kept. |
| TipsEditor.NormalizeKeepsNormal | editor/main.py:186-196 | Loading an already well-formed tip changes nothing. |
| TipsEditor.NormalizeAll | editor/main.py:186-196 | Same length, every tip well formed, each one normalized where it stands. |
| TipsEditor.DisplayText | editor/main.py:214 | A text under 50 characters is shown whole. A longer one shows as its first 47 characters and "...", 50 in all. |
| TipsEditor.LabelShape | editor/main.py:213-218 | A label is the shown icon, a space and the display text. |
| TipsEditor.ShownIconChoice | editor/main.py:209-217 | A tip's own non-empty icon, otherwise the config's `tip_icon`, otherwise the fallback literal. |
| TipsEditor.Labels | editor/main.py:202-218 | One label per tip, in order. |
| TipsEditor.SaveTip | editor/main.py:263-285 | Gives nothing for no selection and refuses empty stripped text, leaving the list unchanged. Otherwise it replaces only the selected tip with the stripped text and icon. Each outcome is stated as an iff. |
| TipsEditor.SaveKeepsNormal | editor/main.py:263-285 | Saving keeps every tip well formed. |
| TipsEditor.SaveIdempotent | editor/main.py:263-285 | Saving the same fields twice equals saving once. |
| TipsEditor.TipsEditor.constructor | editor/main.py:80-87 | Empty list, no selection. |
| TipsEditor.TipsEditor.RefreshList | editor/main.py:202-218 | Clearing the list runs the selection handler with -1, so no row is current. The list widget becomes `Labels(tips)`. The tips and config stay. |
| TipsEditor.TipsEditor.LoadData | editor/main.py:186-200 | The tips become `NormalizeAll` of the loaded list, the config is taken and the labels are rebuilt. No row is current. |
| TipsEditor.TipsEditor.SelectRow | editor/main.py:220-236 | The current index is the row, or -1 for none. Nothing else changes. |
| TipsEditor.TipsEditor.SetCurrentRow | editor/main.py:246 | Making a row current runs the handler only when the row changes. Afterwards the current index is that row. Nothing else changes. |
| TipsEditor.TipsEditor.AddTip | editor/main.py:244-249 | Appends "New Tip" with an empty icon. After the rebuild, the new last row is current. |
| TipsEditor.TipsEditor.DeleteTip | editor/main.py:251-261 | With a current row and a confirmation, removes exactly that tip, and no row is current after the rebuild. Otherwise nothing changes. |
| TipsEditor.TipsEditor.SaveCurrent | editor/main.py:263-285 | The outcome and the tips are `SaveTip` of the old state. The outcome is never `IndexOutOfRange`, because the current index is always a row or -1. After a save no row is current: the rebuild resets the index before the reselection reads it. |
| IngredientEditor.Candidate | editor/main.py:428-431 | Every name tried starts with "New Ingredient". |
| IngredientEditor.CandidateInjective | editor/main.py:428-431 | Different tries are different names. |
| IngredientEditor.AllTakenBound | editor/main.py:430-432 | `n` tries all taken means at least `n` names are taken, so the search ends. |
| IngredientEditor.FirstFreeUnique | editor/main.py:428-432 | The first free name is unique. |
| IngredientEditor.FreshName | editor/main.py:428-432 | The loop returns the first candidate not in use. |
| IngredientEditor.ListedNamesSpec | editor/main.py:373-378 | The list is sorted, has no repeats, and holds exactly the names that contain the lower-cased search text. |
| IngredientEditor.EmptySearchListsAll | editor/main.py:373-378 | An empty search lists every name. |
| IngredientEditor.KeepMatching | editor/main.py:375-378 | The loop keeps the matching names, in order. |
| IngredientEditor.BuildList | editor/main.py:373-378 | The list built is `ListedNames`. |
| IngredientEditor.SaveIngredient | editor/main.py:461-494 | Refuses an empty name, and a name another key has, leaving the dictionary unchanged. A rename removes the old key, keeps the other keys in order, and adds the new one last with the record. An update replaces the record in place. |
| IngredientEditor.RenameKeepsCount | editor/main.py:481-484 | A rename keeps the number of ingredients, drops the old name and puts the new one last. |
| IngredientEditor.IngredientEditor.constructor | editor/main.py:287-295 | Empty catalogue, empty search, disabled form. |
| IngredientEditor.IngredientEditor.RefreshList | editor/main.py:373-378 | Clearing the list runs the selection handler with no item: nothing is edited and the form is disabled. The list becomes `ListedNames`. The catalogue and search stay. |
| IngredientEditor.IngredientEditor.SetSearch | editor/main.py:380-381 | The search text is set and the list is rebuilt for it, with no current item. The catalogue stays. |
| IngredientEditor.IngredientEditor.LoadData | editor/main.py:369-371 | Takes the catalogue and rebuilds the list for the unchanged search. Nothing is selected or edited, and the form is disabled. |
| IngredientEditor.IngredientEditor.SelectItem | editor/main.py:383-403 | An item opens the form on that name. No item disables the form. Nothing else changes. |
| IngredientEditor.IngredientEditor.AddIngredient | editor/main.py:427-444 | Adds exactly one key at the end: the first free candidate, with the default record. No entry changes and the search stays. The new key is selected and edited when the search shows it. Otherwise nothing is selected and the form is disabled. |
| IngredientEditor.IngredientEditor.InsertFresh | editor/main.py:428-437 | The first free candidate goes at the end with the default record. The selection, the list and the search stay. |
| IngredientEditor.IngredientEditor.DeleteIngredient | editor/main.py:446-459 | With a current item and a confirmation, the catalogue becomes `Remove` of it, and the other keys keep their order. The rebuilt list has no current item, nothing is edited and the form is disabled. Otherwise nothing changes. The search always stays. |
| IngredientEditor.IngredientEditor.SaveCurrent | editor/main.py:461-494 | Without a name being edited, or with an empty one, nothing changes. Otherwise the outcome and the catalogue are `SaveIngredient`. After a rename the new name is selected and edited when the search shows it; otherwise nothing is selected and the form is disabled. Other outcomes keep the list and the selection. The search always stays. |
| IngredientEditor.IngredientEditor.SelectIfListed | editor/main.py:441-443 | A name the list shows becomes the current item and opens the form; otherwise the selection stays. The catalogue and the list do not change. |
| SubEditor.IsSubIncomplete | editor/main.py:636-655 | True exactly when the name is empty or "New Sub", or there are no ingredients, or a non-empty catalogue lacks one of them, or the image is empty. |
| SubEditor.NewSubIncomplete | editor/main.py:788-793 | A freshly added sub is marked incomplete. |
| SubEditor.TotalUpdate | editor/main.py:794 | Replacing one category's list changes the number of subs by the difference in length. |
| SubEditor.AddCategoryTo | editor/main.py:761-771 | Adds an empty category only for an accepted, non-empty, new name. An existing name is reported and changes nothing. |
| SubEditor.AddCategoryKeepsCount | editor/main.py:766-768 | Adding a category keeps the number of subs. |
| SubEditor.AddSubTarget | editor/main.py:773-786 | The target is the current category, or the current sub's category, or "Originals". When that is not a key, the first key. None only when there are no categories. |
| SubEditor.AddSubTo | editor/main.py:772-795 | Appends the "New Sub" template to exactly the target's list, or changes nothing without categories. |
| SubEditor.AddSubCount | editor/main.py:772-795 | With a category, adding a sub adds exactly one. |
| SubEditor.DeleteFrom | editor/main.py:797-816 | Deleting a category removes its key and keeps the other keys in order. Deleting a sub removes exactly that element of its list. |
| SubEditor.DeleteSubCount | editor/main.py:812-814 | Deleting a sub removes exactly one. |
| SubEditor.SaveSub | editor/main.py:831-866 | With the same category, the sub is replaced at its place. With another category, it is popped from the old list and appended to the new one, and no other list changes. |
| SubEditor.SaveKeepsCount | editor/main.py:849-853 | Saving, a move included, keeps the number of subs. A moved sub ends the new list, the old list is one shorter, and the other lists are unchanged. |
| SubEditor.SubEditor.constructor | editor/main.py:607-611 | The page after loading, with no selection and a disabled form. |
| SubEditor.SubEditor.SelectItem | editor/main.py:671-703 | A sub row opens the form on that place and lists its ingredients in order. A category row clears the selection. No row disables the form. |
| SubEditor.SubEditor.RefreshTree | editor/main.py:613-634 | Clearing the tree runs the selection handler with no item, so no row is current and the form is disabled. The catalogue, the known ingredients, the last opened place and the ingredient list stay. |
| SubEditor.SubEditor.AddCategory | editor/main.py:761-771 | The outcome and the catalogue are `AddCategoryTo`. An added category rebuilds the tree, leaving no current row and a disabled form. The known ingredients and the last opened place stay. |
| SubEditor.SubEditor.AddSub | editor/main.py:772-795 | The catalogue becomes `AddSubTo` for the current row. With categories the tree is rebuilt, leaving no current row. The known ingredients and the last opened place stay. |
| SubEditor.SubEditor.DeleteItem | editor/main.py:797-816 | With a current row and a confirmation, the catalogue becomes `DeleteFrom` for that row, and the rebuilt tree has no current row. Otherwise nothing changes. The last opened place stays, as the Python attributes do. |
| SubEditor.SubEditor.AddIngredient | editor/main.py:818-824 | The chosen ingredient goes to the end of the current list. Nothing else changes and the page stays valid. |
| SubEditor.SubEditor.RemoveIngredient | editor/main.py:826-829 | The selected row, if any, leaves the current list. Nothing else changes and the page stays valid. |
| SubEditor.SubEditor.SaveCurrent | editor/main.py:831-866 | A disabled form changes nothing. Otherwise the catalogue becomes `SaveSub` of the last opened place, with the fields and the current ingredient list in its order. The outcome is Moved exactly when the category changed. The tree is rebuilt, so afterwards no row is current and the form is disabled. |

## Left out

- **Loaders and I/O.** The fetch loaders, JSON files, image copying, the save callback and every message box are not modelled. Dialog answers are parameters.
- **Rendering.** JSX, CSS, image fallbacks, fullscreen toggling, the emoji picker, image previews and all other Qt widget code are not modelled.
- **React scheduling.** Batched state updates and effect scheduling are not modelled. Each handler is one atomic transition. The mode-change handler and the mode effect are taken together as `ModeChange`.
- **Quiz mount.** `SubQuiz.Quiz.constructor` does not run the mount effect. `InitializeQuiz` is that effect.
- **Randomness.** `Math.random` is a parameter in `[0, 1)`. Uniformity, and whether the shuffle is unbiased, are not stated.
- **Sort order.** `localeCompare` and Python's `sorted` are modelled by code-point order. Locale collation is not modelled.
- **Case folding.** Python's `str.lower` is modelled for ASCII letters only (`LowerAscii`).
- **Key order.** JavaScript's `Object.keys` lists integer-like keys first. The model keeps plain insertion order.
- **Optional fields.** `Ingredient.isLto` stands for the optional `is_lto` flag, absent meaning false. A `Sub` always has its four fields, so `sub.get` defaults never apply.
- **Category box.** The category box of the sub form resets on each tree rebuild. The model takes the chosen category as a parameter of `SubEditor.SubEditor.SaveCurrent`, which requires it to be a key, as the box lists only keys.
- **Tips list aliasing.** The tips list is shared by reference with the main window. It is modelled as a field the methods reassign.
- **Config reload.** The config signal chain that follows `load_data` is not modelled.
- **Out-of-range tip.** `TipsEditor.SaveTip` refuses an index past the end with its own outcome (`IndexOutOfRange`), where the Python code would raise. The page never passes such an index.
- **Unreachable save.** Clicking save on the sub page while the form is disabled has the outcome `NotEditable`. The button is unreachable then.
- **Not modelled in the sub editor:** the red marking of incomplete subs in the tree, the field highlighting of `validate_fields`, the drag-and-drop reordering of the current ingredient list, and the filtered list of available ingredients.
- DataUtils.NumberPrefixLength: its own contract fixes only the ends of the match, so that its callers stay cheap to verify. The whole shape, `#` then digits then whitespace, is proved in `NumberPrefixShape` and `NumberPrefixIff`.
- **Main window.** `MainWindow` (editor/main.py:869-948) and `on_config_changed` are not part of this model.
- **Other source files.** `editor/data_manager.py`, `src/App.tsx`, `src/components/SubList.tsx` and `src/components/SubDetails.tsx` are not part of this model. `INGREDIENT_INFO` is not defined in the files read, so the ingredient catalogue is a parameter.

# Recipe Tracker: the recipe-list store

The Recipe Tracker is a single-page editor for an in-memory list of recipes.
Its only logic is the state held by the `App` component: the ordered list
`recipes`, the record `currentRecipe` selected for editing, and `formFields`,
the form's working copy of one record. Four handlers change that state:
Save, Clear, Delete and Edit. A fifth, the input-change handler, writes one
typed value into the form.

This project models that state as the class `RecipeApp.RecipeStore`. Its
fields are `recipes: seq<Recipe>`, `current: Option<Recipe>` and
`form: Recipe`, and each handler is a method whose `ensures` gives the whole
new state in terms of the old one. The list computations inside the handlers
are pure functions on `seq<Recipe>` in module `Recipes`:

- the update `map` (`UpdateMatching`);
- the delete `filter` (`RemoveId`);
- the index `map` that renumbers the survivors (`Renumber`).

Lemmas about these functions say what they do to a list whose ids are
dense.

Every method keeps the object invariant `Valid()`. It has two parts:

- the record at position `i` carries id `i + 1`;
- while a record is selected, the form carries the selected id.

The second part is why an update keeps the record's id. The source spreads
the whole form over the matched record, id included, and that id equals the
one that was matched.

One quirk is reproduced on purpose. Deleting a record other than the
selected one leaves the selection holding its old id while the list is
renumbered. A later Save then writes over whichever record now has that id,
or over none at all. `StaleSelectionAfterDelete` states both outcomes.

Two verified clients drive the store through the form, using the `AddOne`
step, which types a recipe into the form field by field and then saves it:

- `ScenarioAddDelete` adds two recipes and deletes the first. The second is
  renumbered from 2 to 1.
- `ScenarioEdit` selects a saved recipe, changes its cooking time to 20 and
  saves. The recipe keeps id 1 and the selection is dropped.

`handleEdit` stores the clicked record as the selection and copies it into
the form (src/App.tsx:97-100).

## Model

| member | source | states |
|---|---|---|
| Recipes.Blank | src/App.tsx:65-72 | the reset form: id 0, empty strings, cooking time 0, the given date; it never passes Save's guard |
| Recipes.Validates | src/App.tsx:43-47 | name, ingredients and instructions non-empty and cooking time at least 1 |
| Recipes.FindById | src/App.tsx:50-52 | a hit is a position whose record carries the id; no hit exactly when no record carries it |
| Recipes.UpdateMatching | src/App.tsx:50-55 | same length; records whose id matches become the form, every other record is unchanged |
| Recipes.UpdateDense | src/App.tsx:49-56 | on dense ids the update replaces exactly position id-1 (or nothing when the id is out of range), and ids stay dense when the form carries that id |
| Recipes.RemoveId | src/App.tsx:89 | the filter never lengthens the list and no surviving record carries the deleted id |
| Recipes.RemoveIdMembers | src/App.tsx:89 | a record survives the filter iff it was in the list with a different id; a filter that matches nothing returns the list unchanged |
| Recipes.RemoveIdAppend | src/App.tsx:89 | the filter of a concatenation is the concatenation of the filters, so it keeps order and multiplicity on any list |
| Recipes.RemoveFromIdsFrom | src/App.tsx:89 | on ids numbered from k, the filter for an id in range removes exactly the one record at position id-k and keeps the rest in order |
| Recipes.RemoveAbsent | src/App.tsx:89 | on ids numbered from k, the filter for an id out of range returns the list unchanged |
| Recipes.Renumber | src/App.tsx:90 | same length, ids are 1..N in list order, every other field of every record is unchanged |
| Recipes.RenumberDense | src/App.tsx:90 | renumbering a dense list returns it unchanged |
| Recipes.RenumberIdempotent | src/App.tsx:90 | renumbering twice equals renumbering once |
| Recipes.DeleteAndRenumber | src/App.tsx:88-90 | the new list has dense ids 1..N and is no longer than the old one |
| Recipes.DeleteFromDense | src/App.tsx:88-90 | on dense ids, deleting an existing id shortens the list by one, keeps earlier records as they were, and moves each later record up one place with its new position as id; a missing id changes nothing |
| Recipes.AppendDense | src/App.tsx:59-63 | appending the form with id length+1 keeps ids dense and leaves every earlier record unchanged |
| Recipes.StaleSelectionAfterDelete | src/App.tsx:88-93 | after deleting an earlier record, the selected id names the record that followed the selection, or no record if the selection was last; after deleting a later record, it still names the selected record in its old place |
| Recipes.DenseFind | src/App.tsx:51 | on dense ids, id k is found exactly at position k-1, and an id outside 1..N is not found |
| RecipeApp.ApplyInput | src/App.tsx:25-40 | an input change sets exactly the named field and never the id |
| RecipeApp.RecipeStore.constructor | src/App.tsx:14-23 | the initial state is an empty list, no selection and the blank form (id 0, empty strings, cooking time 0, today's date), in Creating mode |
| RecipeApp.RecipeStore.InputChange | src/App.tsx:25-40 | the form takes one typed value; list and selection unchanged; invariant kept |
| RecipeApp.RecipeStore.Save | src/App.tsx:42-74 | an incomplete form changes nothing (all-or-nothing); otherwise it appends the form with id old length+1, or replaces only the record with the selected id in place and keeps its id; either way the selection is dropped and the form is reset; invariant kept |
| RecipeApp.RecipeStore.Clear | src/App.tsx:76-86 | blank form, no selection, list untouched; invariant kept |
| RecipeApp.RecipeStore.Delete | src/App.tsx:88-94 | the list is filtered and renumbered 1..N in order; the selection is dropped exactly when it carries the deleted id; form unchanged; invariant kept |
| RecipeApp.RecipeStore.Edit | src/App.tsx:97-100 | selection and form both become the chosen record, Editing mode, list untouched; invariant kept |

## Left out

- Rendering: JSX markup, the stylesheet import and the click and change wiring (src/App.tsx:2, 102-194). These are presentation only.
- Dates: `new Date()` becomes the `today` parameter of the constructor, Save and Clear. A publication date is an opaque `Date` value that is only copied. Date parsing and formatting are host-library calls with locale and time-zone behaviour.
- Number coercion: the source stores the raw input string into `cookingTime` and relies on JavaScript coercion for the `>= 1` test. Here `cookingTime` is an `int`, and `CookingTimeInput` carries an already-parsed number.
- The display clamp of cooking time to 1 in the number input (src/App.tsx:162). It affects rendering, not stored state.
- Delete together with the bubbled Edit: the Delete button (src/App.tsx:119) sits inside the list item whose click runs `handleEdit` (src/App.tsx:112), and nothing stops the click from bubbling. The model treats `handleDelete` alone; in the UI the same click presumably then also selects the deleted record and loads it into the form.
- React's state batching: each handler is one atomic transition.
- Object identity: the source keeps the clicked record object as the selection. The model keeps a copy of it, and the source only reads its id.

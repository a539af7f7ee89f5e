/**
  The state held by the App component: the ordered recipe list, the record
  selected for editing, and the form's working copy of one record, with the
  event handlers that move them from one state to the next. Each handler is
  one atomic transition.
 */
module RecipeApp {
  import opened Recipes

  /** Save appends while nothing is selected and replaces while a record is. */
  datatype Mode = Creating | Editing

  /** A change to one form input; no input of the form writes the id. */
  datatype FieldInput =
    | NameInput(name: string)
    | IngredientsInput(ingredients: string)
    | InstructionsInput(instructions: string)
    | CookingTimeInput(minutes: int)
    | DateInput(date: Date)

  /** The form after one input change: that one field takes the new value. */
  function ApplyInput(form: Recipe, input: FieldInput): (r: Recipe)
    ensures r.id == form.id
    ensures input.NameInput? ==> r == form.(name := input.name)
    ensures input.IngredientsInput? ==> r == form.(ingredients := input.ingredients)
    ensures input.InstructionsInput? ==> r == form.(instructions := input.instructions)
    ensures input.CookingTimeInput? ==> r == form.(cookingTime := input.minutes)
    ensures input.DateInput? ==> r == form.(publicationDate := input.date)
  {
    match input
    case NameInput(v) => form.(name := v)
    case IngredientsInput(v) => form.(ingredients := v)
    case InstructionsInput(v) => form.(instructions := v)
    case CookingTimeInput(v) => form.(cookingTime := v)
    case DateInput(d) => form.(publicationDate := d)
  }

  class RecipeStore {
    var recipes: seq<Recipe>
    var current: Option<Recipe>
    var form: Recipe

    /**
      Ids are the positions 1..N, and while a record is selected the form
      carries the selected id, so that writing the form back keeps the id.
     */
    ghost predicate Valid()
      reads this
    {
      DenseIds(recipes) && (current.Some? ==> form.id == current.value.id)
    }

    function Mode(): Mode
      reads this
    {
      if current.Some? then Editing else Creating
    }

    /** The initial state: no recipes, nothing selected, a blank form dated today. */
    constructor (today: Date)
      ensures Valid()
      ensures recipes == [] && current == None && form == Blank(today)
      ensures Mode() == Creating
    {
      recipes := [];
      current := None;
      form := Blank(today);
    }

    /** handleInputChange: one form field takes the typed value. */
    method InputChange(input: FieldInput)
      requires Valid()
      modifies this
      ensures Valid()
      ensures form == ApplyInput(old(form), input)
      ensures recipes == old(recipes) && current == old(current)
    {
      form := ApplyInput(form, input);
    }

    /**
      handleSave. An incomplete form changes nothing. A complete form is
      appended with the next id when nothing is selected, or written over
      the record carrying the selected id when something is; either way the
      selection is dropped and the form is reset.
     */
    method Save(today: Date)
      requires Valid()
      modifies this
      ensures Valid()
      ensures !Validates(old(form)) ==>
        recipes == old(recipes) && current == old(current) && form == old(form)
      ensures Validates(old(form)) ==> form == Blank(today) && current == None && Mode() == Creating
      ensures Validates(old(form)) && old(current).None? ==>
        recipes == old(recipes) + [old(form).(id := |old(recipes)| + 1)]
      ensures Validates(old(form)) && old(current).Some? ==>
        recipes == UpdateMatching(old(recipes), old(current).value.id, old(form))
      ensures Validates(old(form)) && old(current).Some? && 1 <= old(current).value.id <= |old(recipes)| ==>
        && recipes == old(recipes)[old(current).value.id - 1 := old(form)]
        && recipes[old(current).value.id - 1].id == old(current).value.id
      ensures Validates(old(form)) && old(current).Some? && !(1 <= old(current).value.id <= |old(recipes)|) ==>
        recipes == old(recipes)
    {
      if Validates(form) {
        if current.Some? {
          UpdateDense(recipes, current.value.id, form);
          recipes := UpdateMatching(recipes, current.value.id, form);
          current := None;
        } else {
          AppendDense(recipes, form);
          recipes := recipes + [form.(id := |recipes| + 1)];
        }
        form := Blank(today);
      }
    }

    /** handleClear: a blank form and no selection; the list is untouched. */
    method Clear(today: Date)
      requires Valid()
      modifies this
      ensures Valid()
      ensures form == Blank(today) && current == None && Mode() == Creating
      ensures recipes == old(recipes)
    {
      form := Blank(today);
      current := None;
    }

    /**
      handleDelete: filter out the id and renumber the rest. The selection is
      dropped only when it carries the deleted id; otherwise it keeps its old
      id, which may now name a different record or none. The form is untouched.
     */
    method Delete(id: int)
      requires Valid()
      modifies this
      ensures Valid()
      ensures recipes == DeleteAndRenumber(old(recipes), id)
      ensures current == if old(current).Some? && old(current).value.id == id then None else old(current)
      ensures form == old(form)
      ensures 1 <= id <= |old(recipes)| ==>
        && |recipes| == |old(recipes)| - 1
        && (forall i :: 0 <= i < id - 1 ==> recipes[i] == old(recipes)[i])
        && (forall i :: id - 1 <= i < |recipes| ==> recipes[i] == old(recipes)[i + 1].(id := i + 1))
      ensures !(1 <= id <= |old(recipes)|) ==> recipes == old(recipes)
    {
      DeleteFromDense(recipes, id);
      recipes := DeleteAndRenumber(recipes, id);
      if current.Some? && current.value.id == id {
        current := None;
      }
    }

    /** handleEdit: select the record and load it into the form; the list is untouched. */
    method Edit(recipe: Recipe)
      requires Valid()
      modifies this
      ensures Valid()
      ensures current == Some(recipe) && form == recipe && Mode() == Editing
      ensures recipes == old(recipes)
    {
      current := Some(recipe);
      form := recipe;
    }
  }

  /** A client step: type a complete recipe into the form field by field, then save it. */
  method AddOne(s: RecipeStore, name: string, ingredients: string, instructions: string,
                minutes: int, day: Date, today: Date) returns (added: Recipe)
    requires s.Valid() && s.current.None?
    requires name != "" && ingredients != "" && instructions != "" && minutes >= 1
    modifies s
    ensures s.Valid() && s.current.None?
    ensures s.recipes == old(s.recipes) + [added]
    ensures added == Recipe(|old(s.recipes)| + 1, name, ingredients, instructions, minutes, day)
  {
    s.InputChange(NameInput(name));
    s.InputChange(IngredientsInput(ingredients));
    s.InputChange(InstructionsInput(instructions));
    s.InputChange(CookingTimeInput(minutes));
    s.InputChange(DateInput(day));
    assert Validates(s.form);
    added := s.form.(id := |s.recipes| + 1);
    s.Save(today);
  }

  /**
    A client of the store: add "Soup" and then "Bread", delete the first,
    and "Bread" is renumbered from 2 to 1.
   */
  method ScenarioAddDelete(day: Date, today: Date)
  {
    var s := new RecipeStore(today);
    var a := AddOne(s, "Soup", "water,salt", "boil", 10, day, today);
    var b := AddOne(s, "Bread", "flour,water", "bake", 45, day, today);
    assert s.recipes == [a, b];
    s.Delete(1);
    assert s.recipes == [b.(id := 1)];
  }

  /**
    A client of the store: select the one recipe, change its cooking time
    to 20 and save; it keeps id 1 with the new time and the selection is
    dropped.
   */
  method ScenarioEdit(day: Date, today: Date)
  {
    var s := new RecipeStore(today);
    var a := AddOne(s, "Soup", "water,salt", "boil", 10, day, today);
    s.Edit(s.recipes[0]);
    s.InputChange(CookingTimeInput(20));
    s.Save(today);
    assert s.recipes == [a.(cookingTime := 20)];
    assert s.current == None;
  }
}

/**
  The recipe record of the Recipe Tracker and the pure list computations its
  handlers perform: the `map` that writes the form back over the selected
  record, the `filter` that drops a record, and the index `map` that
  renumbers the survivors so that ids are again 1..N.
 */
module Recipes {

  datatype Option<+T> = None | Some(value: T)

  /** A host-library date, kept opaque: the model only copies it around. */
  datatype Date = Date(millis: int)

  datatype Recipe = Recipe(
    id: int,
    name: string,
    ingredients: string,
    instructions: string,
    cookingTime: int,
    publicationDate: Date)

  /** The empty form: id 0, empty strings, cooking time 0, and today's date. */
  function Blank(today: Date): (r: Recipe)
    ensures r.id == 0 && r.publicationDate == today
    ensures !Validates(r)
  {
    Recipe(0, "", "", "", 0, today)
  }

  /** Save's guard: every text field non-empty and a cooking time of at least one minute. */
  predicate Validates(r: Recipe) {
    r.name != "" && r.ingredients != "" && r.instructions != "" && r.cookingTime >= 1
  }

  /** Two records agree on everything but their id. */
  predicate SameContent(a: Recipe, b: Recipe) {
    && a.name == b.name
    && a.ingredients == b.ingredients
    && a.instructions == b.instructions
    && a.cookingTime == b.cookingTime
    && a.publicationDate == b.publicationDate
  }

  /** The ids of `rs` are k, k+1, k+2, ... in list order. */
  predicate IdsFrom(rs: seq<Recipe>, k: int) {
    forall i :: 0 <= i < |rs| ==> rs[i].id == k + i
  }

  /** The store's invariant: the record at position i carries id i+1. */
  predicate DenseIds(rs: seq<Recipe>) {
    IdsFrom(rs, 1)
  }

  /** The record with the given id, if any. */
  function FindById(rs: seq<Recipe>, id: int): (r: Option<nat>)
    ensures r.Some? ==> r.value < |rs| && rs[r.value].id == id
    ensures r.None? <==> forall x :: x in rs ==> x.id != id
  {
    if rs == [] then None
    else if rs[0].id == id then Some(0)
    else match FindById(rs[1..], id)
      case None => None
      case Some(j) => Some(j + 1)
  }

  /**
    The update map: every record whose id equals `id` is replaced by the form.
    Spreading the complete form over a record overwrites every field,
    the id included, so the replacement is the form itself.
   */
  function UpdateMatching(rs: seq<Recipe>, id: int, form: Recipe): (r: seq<Recipe>)
    ensures |r| == |rs|
    ensures forall i :: 0 <= i < |rs| && rs[i].id != id ==> r[i] == rs[i]
    ensures forall i :: 0 <= i < |rs| && rs[i].id == id ==> r[i] == form
  {
    seq(|rs|, i requires 0 <= i < |rs| => if rs[i].id == id then form else rs[i])
  }

  /** The delete filter: drop every record whose id equals `id`, keeping the order of the rest. */
  function RemoveId(rs: seq<Recipe>, id: int): (r: seq<Recipe>)
    ensures |r| <= |rs|
    ensures forall i :: 0 <= i < |r| ==> r[i].id != id
  {
    if rs == [] then []
    else if rs[0].id != id then [rs[0]] + RemoveId(rs[1..], id)
    else RemoveId(rs[1..], id)
  }

  /** The filter keeps exactly the records whose id differs from `id`. */
  lemma {:induction false} RemoveIdMembers(rs: seq<Recipe>, id: int)
    ensures forall x :: x in RemoveId(rs, id) <==> x in rs && x.id != id
    ensures (forall x :: x in rs ==> x.id != id) ==> RemoveId(rs, id) == rs
  {
    if rs != [] {
      RemoveIdMembers(rs[1..], id);
      assert rs == [rs[0]] + rs[1..];
    }
  }

  /** The filter works element by element: filtering a concatenation concatenates the filtered parts. */
  lemma {:induction false} RemoveIdAppend(a: seq<Recipe>, b: seq<Recipe>, id: int)
    ensures RemoveId(a + b, id) == RemoveId(a, id) + RemoveId(b, id)
  {
    if a != [] {
      assert (a + b)[1..] == a[1..] + b;
      RemoveIdAppend(a[1..], b, id);
    } else {
      assert a + b == b;
    }
  }

  /** The index map after the filter: each record takes its 1-based position as id. */
  function Renumber(rs: seq<Recipe>): (r: seq<Recipe>)
    ensures |r| == |rs| && DenseIds(r)
    ensures forall i :: 0 <= i < |rs| ==> SameContent(r[i], rs[i])
  {
    seq(|rs|, i requires 0 <= i < |rs| => rs[i].(id := i + 1))
  }

  /** handleDelete's new list: filter out `id`, then renumber. */
  function DeleteAndRenumber(rs: seq<Recipe>, id: int): (r: seq<Recipe>)
    ensures DenseIds(r)
    ensures |r| <= |rs|
  {
    Renumber(RemoveId(rs, id))
  }

  /** Renumbering a list whose ids are already dense changes nothing. */
  lemma RenumberDense(rs: seq<Recipe>)
    requires DenseIds(rs)
    ensures Renumber(rs) == rs
  {
    assert forall i :: 0 <= i < |rs| ==> Renumber(rs)[i] == rs[i];
  }

  /** Renumbering is idempotent. */
  lemma RenumberIdempotent(rs: seq<Recipe>)
    ensures Renumber(Renumber(rs)) == Renumber(rs)
  {
    RenumberDense(Renumber(rs));
  }

  /** The ids of a suffix of a list numbered from k continue the numbering. */
  lemma IdsFromTail(rs: seq<Recipe>, k: int)
    requires IdsFrom(rs, k) && rs != []
    ensures IdsFrom(rs[1..], k + 1)
  {
    forall i | 0 <= i < |rs| - 1 ensures rs[1..][i].id == k + 1 + i {
      assert rs[1..][i] == rs[i + 1];
    }
  }

  /** On a list numbered from k, the filter for an id out of range removes nothing. */
  lemma RemoveAbsent(rs: seq<Recipe>, k: int, id: int)
    requires IdsFrom(rs, k)
    requires !(k <= id < k + |rs|)
    ensures RemoveId(rs, id) == rs
  {
    forall x | x in rs ensures x.id != id {
      var i :| 0 <= i < |rs| && rs[i] == x;
    }
    RemoveIdMembers(rs, id);
  }

  /**
    On a list numbered from k, the filter for an id in range removes exactly
    the record at position id-k and keeps the others in order.
   */
  lemma {:induction false} RemoveFromIdsFrom(rs: seq<Recipe>, k: int, id: int)
    requires IdsFrom(rs, k)
    requires k <= id < k + |rs|
    ensures RemoveId(rs, id) == rs[..id - k] + rs[id - k + 1..]
  {
    var tail := rs[1..];
    IdsFromTail(rs, k);
    if id == k {
      assert RemoveId(rs, id) == RemoveId(tail, id);
      RemoveAbsent(tail, k + 1, id);
      assert rs[..0] + rs[1..] == tail;
    } else {
      var j := id - k;
      RemoveFromIdsFrom(tail, k + 1, id);
      assert RemoveId(rs, id) == [rs[0]] + (tail[..j - 1] + tail[j..]);
      assert [rs[0]] + tail[..j - 1] == rs[..j];
      assert tail[j..] == rs[j + 1..];
    }
  }

  /**
    Deleting from a densely numbered list: when the id exists, the records
    before it are untouched, each record after it moves up one place and
    takes its new position as id, and the list is one shorter; a missing id
    leaves the list as it was.
   */
  lemma DeleteFromDense(rs: seq<Recipe>, id: int)
    requires DenseIds(rs)
    ensures 1 <= id <= |rs| ==>
      && |DeleteAndRenumber(rs, id)| == |rs| - 1
      && (forall i :: 0 <= i < id - 1 ==> DeleteAndRenumber(rs, id)[i] == rs[i])
      && (forall i :: id - 1 <= i < |rs| - 1 ==> DeleteAndRenumber(rs, id)[i] == rs[i + 1].(id := i + 1))
    ensures !(1 <= id <= |rs|) ==> DeleteAndRenumber(rs, id) == rs
  {
    if 1 <= id <= |rs| {
      RemoveFromIdsFrom(rs, 1, id);
      var f := rs[..id - 1] + rs[id..];
      assert forall i :: 0 <= i < id - 1 ==> f[i] == rs[i];
      assert forall i :: id - 1 <= i < |rs| - 1 ==> f[i] == rs[i + 1];
    } else {
      RemoveAbsent(rs, 1, id);
      RenumberDense(rs);
    }
  }

  /**
    On a densely numbered list the update replaces the one record at
    position id-1 (when it exists) and keeps the ids dense as long as the
    form carries that same id.
   */
  lemma UpdateDense(rs: seq<Recipe>, id: int, form: Recipe)
    requires DenseIds(rs)
    ensures 1 <= id <= |rs| ==> UpdateMatching(rs, id, form) == rs[id - 1 := form]
    ensures !(1 <= id <= |rs|) ==> UpdateMatching(rs, id, form) == rs
    ensures form.id == id ==> DenseIds(UpdateMatching(rs, id, form))
  {
    var r := UpdateMatching(rs, id, form);
    if 1 <= id <= |rs| {
      assert forall i :: 0 <= i < |rs| ==> r[i] == rs[id - 1 := form][i];
    } else {
      assert forall i :: 0 <= i < |rs| ==> r[i] == rs[i];
    }
  }

  /** Appending a record numbered |rs|+1 keeps the ids dense. */
  lemma AppendDense(rs: seq<Recipe>, form: Recipe)
    requires DenseIds(rs)
    ensures DenseIds(rs + [form.(id := |rs| + 1)])
    ensures (rs + [form.(id := |rs| + 1)])[..|rs|] == rs
  {
    var r := rs + [form.(id := |rs| + 1)];
    assert forall i :: 0 <= i < |rs| ==> r[i] == rs[i];
  }

  /**
    A selection held across the deletion of another record keeps its old id
    while the list is renumbered. When the deleted record came before the
    selected one, that id now belongs to the record that followed the
    selection, or, if the selection was last, to no record at all. When the
    deleted record came after it, the selected record keeps its place and id.
   */
  lemma StaleSelectionAfterDelete(rs: seq<Recipe>, deleted: int, selected: int)
    requires DenseIds(rs)
    requires 1 <= deleted <= |rs| && 1 <= selected <= |rs| && deleted != selected
    ensures deleted < selected < |rs| ==>
      && FindById(DeleteAndRenumber(rs, deleted), selected) == Some(selected - 1)
      && SameContent(DeleteAndRenumber(rs, deleted)[selected - 1], rs[selected])
    ensures deleted < selected == |rs| ==>
      FindById(DeleteAndRenumber(rs, deleted), selected).None?
    ensures selected < deleted ==>
      && FindById(DeleteAndRenumber(rs, deleted), selected) == Some(selected - 1)
      && DeleteAndRenumber(rs, deleted)[selected - 1] == rs[selected - 1]
  {
    DeleteFromDense(rs, deleted);
    var r := DeleteAndRenumber(rs, deleted);
    if selected == |rs| {
      assert forall x :: x in r ==> x.id != selected;
    } else {
      DenseFind(r, selected);
    }
  }

  /** In a densely numbered list, id k is found exactly at position k-1. */
  lemma {:induction false} DenseFind(rs: seq<Recipe>, k: int)
    requires DenseIds(rs)
    ensures 1 <= k <= |rs| ==> FindById(rs, k) == Some(k - 1)
    ensures !(1 <= k <= |rs|) ==> FindById(rs, k).None?
  {
    if 1 <= k <= |rs| {
      var r := FindById(rs, k);
      assert r.Some? by {
        assert rs[k - 1] in rs;
      }
      assert rs[r.value].id == r.value + 1;
    } else {
      assert forall x :: x in rs ==> x.id != k;
    }
  }
}

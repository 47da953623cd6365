/**
 * The IngredientForRecipe table as a set of rows, and what inserting the
 * submitted (id, amount) list into it does: one row per item, in order,
 * each insert refused by the database (IntegrityError) when the amount is
 * negative (the PositiveSmallIntegerField check), the ingredient does not
 * exist (the foreign key) or the recipe already has a row for that
 * ingredient (unique_ingredient). Nothing after a refused insert runs and
 * nothing before it is undone.
 */
module IngredientRows {
  import opened Models
  import opened Validation

  /** The rows of one recipe. */
  function RowsOf(rows: set<Row>, recipe: RecipeId): set<Row> {
    set row | row in rows && row.recipe == recipe
  }

  /** The rows a submitted list describes for a recipe. */
  function RowsFrom(recipe: RecipeId, items: seq<Item>): set<Row> {
    set item | item in items :: Row(recipe, item.id, item.amount)
  }

  /**
   * The database refuses to insert this item's row: the amount column's
   * non-negative check, the foreign key to Ingredient, or unique_ingredient.
   * A row it accepts keeps one row per (recipe, ingredient).
   */
  predicate Refused(rows: set<Row>, known: set<IngredientId>, recipe: RecipeId, item: Item): (refused: bool)
    ensures !refused && RowsUnique(rows) ==> RowsUnique(rows + {Row(recipe, item.id, item.amount)})
  {
    || item.amount < 0
    || item.id !in known
    || exists row :: row in rows && row.recipe == recipe && row.ingredient == item.id
  }

  /** The table after a run of inserts, and whether every insert went through. */
  datatype Insertion = Insertion(rows: set<Row>, ok: bool)

  /**
   * One IngredientForRecipe.objects.create per item, in order, stopping at
   * the first refused insert. Rows already present are kept, and only rows
   * of the given recipe built from the items are added.
   */
  function InsertAll(rows: set<Row>, known: set<IngredientId>, recipe: RecipeId, items: seq<Item>): (r: Insertion)
    ensures rows <= r.rows <= rows + RowsFrom(recipe, items)
    ensures r.ok ==> r.rows == rows + RowsFrom(recipe, items)
    decreases |items|
  {
    if items == [] then Insertion(rows, true)
    else if Refused(rows, known, recipe, items[0]) then Insertion(rows, false)
    else
      var next := rows + {Row(recipe, items[0].id, items[0].amount)};
      assert RowsFrom(recipe, items) == {Row(recipe, items[0].id, items[0].amount)} + RowsFrom(recipe, items[1..]) by {
        assert items == [items[0]] + items[1..];
      }
      InsertAll(next, known, recipe, items[1..])
  }

  /**
   * When an insert is refused, exactly the items before it were inserted, in
   * order, and nothing after it: the table is the old one plus the rows of
   * the first k items, and the k-th item is the one the database refuses.
   */
  lemma {:induction false} InsertAllStopsAtFirstRefusal(
    rows: set<Row>, known: set<IngredientId>, recipe: RecipeId, items: seq<Item>) returns (k: nat)
    requires !InsertAll(rows, known, recipe, items).ok
    ensures k < |items|
    ensures InsertAll(rows, known, recipe, items).rows == rows + RowsFrom(recipe, items[..k])
    ensures Refused(rows + RowsFrom(recipe, items[..k]), known, recipe, items[k])
    ensures forall j :: 0 <= j < k ==> !Refused(rows + RowsFrom(recipe, items[..j]), known, recipe, items[j])
    decreases |items|
  {
    if Refused(rows, known, recipe, items[0]) {
      k := 0;
      assert RowsFrom(recipe, items[..0]) == {};
    } else {
      var added := Row(recipe, items[0].id, items[0].amount);
      var j := InsertAllStopsAtFirstRefusal(rows + {added}, known, recipe, items[1..]);
      k := j + 1;
      ShiftPrefix(rows, recipe, items, k);
      forall i | 0 <= i < k
        ensures !Refused(rows + RowsFrom(recipe, items[..i]), known, recipe, items[i])
      {
        if i == 0 {
          assert RowsFrom(recipe, items[..0]) == {};
        } else {
          ShiftPrefix(rows, recipe, items, i);
        }
      }
    }
  }

  /**
   * The table after the first i items, seen from the second item on: the
   * first item's row joins the table and the rest of the prefix follows.
   */
  lemma ShiftPrefix(rows: set<Row>, recipe: RecipeId, items: seq<Item>, i: nat)
    requires 0 < i <= |items|
    ensures rows + RowsFrom(recipe, items[..i]) ==
      (rows + {Row(recipe, items[0].id, items[0].amount)}) + RowsFrom(recipe, items[1..][..i - 1])
    ensures i < |items| ==> items[i] == items[1..][i - 1]
  {
    PrefixRows(recipe, items, i);
  }

  /** The rows of a non-empty prefix: the first item's row and the rows of the rest of the prefix. */
  lemma PrefixRows(recipe: RecipeId, items: seq<Item>, i: nat)
    requires 0 < i <= |items|
    ensures RowsFrom(recipe, items[..i]) == {Row(recipe, items[0].id, items[0].amount)} + RowsFrom(recipe, items[1..][..i - 1])
  {
    assert items[..i] == [items[0]] + items[1..][..i - 1] by {
      forall m | 0 <= m < i ensures items[..i][m] == ([items[0]] + items[1..][..i - 1])[m] {
        if m > 0 {
          assert items[1..][..i - 1][m - 1] == items[m];
        }
      }
    }
  }

  /**
   * Every insert of the list goes through: each amount is non-negative,
   * each ingredient exists, the recipe has no row for it yet, and it does
   * not repeat an earlier item.
   */
  predicate Insertable(rows: set<Row>, known: set<IngredientId>, recipe: RecipeId, items: seq<Item>) {
    forall i :: 0 <= i < |items| ==>
      && items[i].amount >= 0
      && items[i].id in known
      && (forall row :: row in rows && row.recipe == recipe ==> row.ingredient != items[i].id)
      && (forall j :: 0 <= j < i ==> items[j].id != items[i].id)
  }

  /** The inserts all succeed exactly when the list is insertable. */
  lemma {:induction false} InsertAllOk(rows: set<Row>, known: set<IngredientId>, recipe: RecipeId, items: seq<Item>)
    ensures InsertAll(rows, known, recipe, items).ok <==> Insertable(rows, known, recipe, items)
    decreases |items|
  {
    if items != [] {
      var item := items[0];
      var next := rows + {Row(recipe, item.id, item.amount)};
      var tail := items[1..];
      if Refused(rows, known, recipe, item) {
        assert !Insertable(rows, known, recipe, items) by {
          if item.amount >= 0 && item.id in known {
            var row :| row in rows && row.recipe == recipe && row.ingredient == item.id;
          }
        }
      } else {
        InsertAllOk(next, known, recipe, tail);
        if Insertable(next, known, recipe, tail) {
          forall i | 0 <= i < |items|
            ensures items[i].amount >= 0 && items[i].id in known
            ensures forall row :: row in rows && row.recipe == recipe ==> row.ingredient != items[i].id
            ensures forall j :: 0 <= j < i ==> items[j].id != items[i].id
          {
            if i > 0 {
              assert items[i] == tail[i - 1];
              assert Row(recipe, item.id, item.amount) in next;
              forall j | 0 <= j < i ensures items[j].id != items[i].id {
                if j > 0 {
                  assert items[j] == tail[j - 1];
                }
              }
            }
          }
        }
        if Insertable(rows, known, recipe, items) {
          forall i | 0 <= i < |tail|
            ensures tail[i].amount >= 0 && tail[i].id in known
            ensures forall row :: row in next && row.recipe == recipe ==> row.ingredient != tail[i].id
            ensures forall j :: 0 <= j < i ==> tail[j].id != tail[i].id
          {
            assert tail[i] == items[i + 1];
            assert items[0].id != items[i + 1].id;
            forall j | 0 <= j < i ensures tail[j].id != tail[i].id {
              assert tail[j] == items[j + 1];
            }
          }
        }
      }
    }
  }

  /**
   * Inserting keeps the table's invariants: one row per (recipe,
   * ingredient), every row naming a known ingredient and an amount of at
   * least the given floor, provided the submitted amounts meet it too.
   */
  lemma {:induction false} InsertAllKeepsInvariants(
    rows: set<Row>, known: set<IngredientId>, recipe: RecipeId, items: seq<Item>, floor: int)
    requires RowsUnique(rows)
    requires forall row :: row in rows ==> row.ingredient in known && row.amount >= floor
    requires forall i :: 0 <= i < |items| ==> items[i].amount >= floor
    ensures RowsUnique(InsertAll(rows, known, recipe, items).rows)
    ensures forall row :: row in InsertAll(rows, known, recipe, items).rows ==> row.ingredient in known && row.amount >= floor
    decreases |items|
  {
    if items != [] && !Refused(rows, known, recipe, items[0]) {
      InsertAllKeepsInvariants(rows + {Row(recipe, items[0].id, items[0].amount)}, known, recipe, items[1..], floor);
    }
  }

  /**
   * The replace step of update: every old row of the recipe is gone and the
   * recipe's rows are exactly the submitted list; other recipes' rows stay.
   */
  function ReplaceRows(rows: set<Row>, recipe: RecipeId, items: seq<Item>): (r: set<Row>)
    ensures RowsOf(r, recipe) == RowsFrom(recipe, items)
    ensures forall other :: other != recipe ==> RowsOf(r, other) == RowsOf(rows, other)
  {
    var r := (rows - RowsOf(rows, recipe)) + RowsFrom(recipe, items);
    assert forall other :: other != recipe ==> RowsOf(r, other) == RowsOf(rows, other) by {
      forall other | other != recipe
        ensures RowsOf(r, other) == RowsOf(rows, other)
      {
        assert forall row :: row in RowsFrom(recipe, items) ==> row.recipe == recipe;
      }
    }
    r
  }

  /**
   * Once the recipe's rows are deleted, a list with distinct ids and
   * non-negative amounts is inserted in full exactly when every id names an
   * existing ingredient, and then the table is the replaced one.
   */
  lemma InsertAfterDelete(rows: set<Row>, known: set<IngredientId>, recipe: RecipeId, items: seq<Item>)
    requires DistinctIds(items)
    requires forall i :: 0 <= i < |items| ==> items[i].amount >= 0
    ensures InsertAll(rows - RowsOf(rows, recipe), known, recipe, items).ok <==>
      forall i :: 0 <= i < |items| ==> items[i].id in known
    ensures InsertAll(rows - RowsOf(rows, recipe), known, recipe, items).ok ==>
      InsertAll(rows - RowsOf(rows, recipe), known, recipe, items).rows == ReplaceRows(rows, recipe, items)
  {
    InsertAllOk(rows - RowsOf(rows, recipe), known, recipe, items);
  }

  /** Replacing twice with the same list is the same as replacing once. */
  lemma ReplaceRowsIdempotent(rows: set<Row>, recipe: RecipeId, items: seq<Item>)
    ensures ReplaceRows(ReplaceRows(rows, recipe, items), recipe, items) == ReplaceRows(rows, recipe, items)
  {
  }

  /**
   * Update only replaces: after it, the amount stored for a submitted
   * ingredient is the submitted amount, whatever amount the recipe held
   * for it before.
   */
  lemma ReplaceDoesNotMerge(rows: set<Row>, recipe: RecipeId, items: seq<Item>, k: nat, row: Row)
    requires DistinctIds(items)
    requires k < |items|
    requires row in ReplaceRows(rows, recipe, items) && row.recipe == recipe && row.ingredient == items[k].id
    ensures row.amount == items[k].amount
  {
  }
}

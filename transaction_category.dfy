/** `Transaction.category`: the mock category a cached transaction refers to. */
module TransactionCategory {
  import opened Models
  import opened Seqs
  import opened CategoriesService

  /**
   * `category`: the first mock category with the transaction's `categoryId`. The force
   * unwrap traps for any other id, so only the ids of the mock table, 1 to 7, may be asked for.
   */
  function CategoryOf(t: Transaction): (c: Category)
    requires 1 <= t.categoryId <= 7
    ensures c in MOCK_CATEGORIES && c.id == t.categoryId
    ensures c == MOCK_CATEGORIES[t.categoryId - 1]
    ensures c.direction == Income <==> t.categoryId <= 2
  {
    assert AllCategories() == MOCK_CATEGORIES;
    var id := t.categoryId;
    assert MOCK_CATEGORIES[id - 1].id == id;
    var r := First(MOCK_CATEGORIES, (x: Category) => x.id == id);
    assert r.Some?;
    var i :| 0 <= i < |MOCK_CATEGORIES| && MOCK_CATEGORIES[i] == r.value && MOCK_CATEGORIES[i].id == id;
    assert i == id - 1;
    r.value
  }
}

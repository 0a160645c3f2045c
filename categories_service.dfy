/** `CategoriesService`: the fixed table of mock categories and its two queries. */
module CategoriesService {
  import opened Models
  import opened Seqs

  /** `mockCategories`: two income categories followed by five outcome ones. */
  const MOCK_CATEGORIES: seq<Category> := [
    Category(1, "Зарплата", '💰', Income),
    Category(2, "Подарок", '🎁', Income),
    Category(3, "Продукты", '🛒', Outcome),
    Category(4, "Кафе", '☕', Outcome),
    Category(5, "Транспорт", '🚕', Outcome),
    Category(6, "Жильё", '🏠', Outcome),
    Category(7, "Развлечения", '🎭', Outcome)
  ]

  /**
   * `categories()`: the whole table, in declaration order: seven categories with the
   * distinct ids 1 to 7, of which the first two are income.
   */
  function AllCategories(): (r: seq<Category>)
    ensures |r| == 7
    ensures forall k :: 0 <= k < 7 ==> r[k].id == k + 1
    ensures forall k :: 0 <= k < 7 ==> (r[k].direction == Income <==> k < 2)
    ensures forall i, j :: 0 <= i < j < 7 ==> r[i].id != r[j].id
  {
    MOCK_CATEGORIES
  }

  predicate IsIncome(c: Category) {
    c.direction == Income
  }

  predicate IsOutcome(c: Category) {
    c.direction == Outcome
  }

  /** `categories(for:)`: the entries with direction `d`, in table order. */
  function CategoriesFor(d: Direction): (r: seq<Category>)
    ensures forall k :: 0 <= k < |r| ==> r[k].direction == d
  {
    Filter(MOCK_CATEGORIES, if d == Income then IsIncome else IsOutcome)
  }

  /** The income and outcome queries split the table: disjoint and together exactly the table. */
  lemma CategoriesForPartition()
    ensures multiset(CategoriesFor(Income)) + multiset(CategoriesFor(Outcome)) == multiset(MOCK_CATEGORIES)
    ensures forall c :: c in CategoriesFor(Income) ==> c !in CategoriesFor(Outcome)
  {
    DirectionsPartition(MOCK_CATEGORIES);
  }

  /** Filtering any table by the two directions splits it. */
  lemma DirectionsPartition(table: seq<Category>)
    ensures multiset(Filter(table, IsIncome)) + multiset(Filter(table, IsOutcome)) == multiset(table)
    ensures forall c :: c in Filter(table, IsIncome) ==> c !in Filter(table, IsOutcome)
  {
    FilterPartition(table, IsIncome, IsOutcome);
    forall c | c in Filter(table, IsIncome)
      ensures c !in Filter(table, IsOutcome)
    {
      FilterDisjoint(table, IsIncome, IsOutcome, c);
    }
  }

  /** A category is returned for `d` exactly when it is in the table with direction `d`. */
  lemma CategoriesForMember(d: Direction, c: Category)
    ensures c in CategoriesFor(d) <==> c in MOCK_CATEGORIES && c.direction == d
  {
    DirectionMember(MOCK_CATEGORIES, d, c);
  }

  lemma DirectionMember(table: seq<Category>, d: Direction, c: Category)
    ensures c in Filter(table, if d == Income then IsIncome else IsOutcome) <==> c in table && c.direction == d
  {
    FilterMember(table, if d == Income then IsIncome else IsOutcome, c);
  }
}

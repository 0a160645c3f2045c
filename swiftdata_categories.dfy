/** `SwiftDataCategoriesStorage`: categories kept in a SwiftData table of `LocalCategory` records. */
module SwiftDataCategories {
  import opened Wrappers
  import opened Foundation
  import opened Models
  import opened Seqs

  /** `LocalCategory`: the emoji as text and the direction as its raw value. */
  datatype LocalCategory = LocalCategory(id: Int64, name: string, emoji: string, directionRaw: string)

  /** `toCategory()`: an empty emoji text becomes " ", an unknown raw direction becomes outcome. */
  function ToCategory(l: LocalCategory): (c: Category)
    ensures c.id == l.id && c.name == l.name
    ensures c.emoji == if l.emoji == [] then ' ' else l.emoji[0]
    ensures c.direction == DirectionFromRawValue(l.directionRaw).GetOr(Outcome)
  {
    Category(l.id, l.name, if l.emoji == [] then ' ' else l.emoji[0],
      DirectionFromRawValue(l.directionRaw).GetOr(Outcome))
  }

  /** `fromCategory(_:)`. */
  function FromCategory(c: Category): (l: LocalCategory)
    ensures l.id == c.id && l.name == c.name && l.emoji == [c.emoji]
    ensures DirectionFromRawValue(l.directionRaw) == Some(c.direction)
  {
    LocalCategory(c.id, c.name, [c.emoji], DirectionRawValue(c.direction))
  }

  /** `toCategory(fromCategory(c)) == c`. */
  lemma ToCategoryFromCategory(c: Category)
    ensures ToCategory(FromCategory(c)) == c
  {
  }

  class SwiftDataCategoriesStorage {
    var records: seq<LocalCategory>

    constructor ()
      ensures records == []
    {
      records := [];
    }

    /** `getAllCategories()`. */
    function GetAllCategories(): (r: seq<Category>)
      reads this
      ensures |r| == |records|
      ensures forall k :: 0 <= k < |r| ==> r[k] == ToCategory(records[k])
    {
      Map(records, ToCategory)
    }

    /** `saveCategories(_:)`: delete every stored record, then insert the given categories. */
    method SaveCategories(categories: seq<Category>)
      modifies this
      ensures records == Map(categories, FromCategory)
      ensures GetAllCategories() == categories
    {
      var all := records;
      var i := 0;
      while i < |all|
        invariant 0 <= i <= |all|
        invariant records == all[i..]
      {
        records := RemoveAt(records, 0);
        i := i + 1;
      }
      var j := 0;
      while j < |categories|
        invariant 0 <= j <= |categories|
        invariant records == Map(categories[..j], FromCategory)
      {
        records := records + [FromCategory(categories[j])];
        j := j + 1;
      }
      assert categories[..j] == categories;
      forall k | 0 <= k < |categories|
        ensures GetAllCategories()[k] == categories[k]
      {
        ToCategoryFromCategory(categories[k]);
      }
    }
  }
}

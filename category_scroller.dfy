/** The category filter above the facility list. */
module CategoryScroller {
  import opened Wrappers

  /** The categories offered, in the order shown. */
  const Categories: seq<string> := ["All", "Diaper Changing Station", "Lactation Room"]

  /** The selection after clicking `category`: clicking the selected one clears it, any other one selects it. */
  function Toggle(selected: Option<string>, category: string): (r: Option<string>)
    ensures r.None? <==> selected == Some(category)
    ensures r.Some? ==> r.value == category
  {
    if selected == Some(category) then None else Some(category)
  }

  /**
   * Clicking the same category twice gives it back when it was selected, and
   * gives nothing selected otherwise: the earlier selection of another
   * category is not restored.
   */
  lemma ToggleTwice(selected: Option<string>, category: string)
    ensures Toggle(Toggle(selected, category), category) == (if selected == Some(category) then selected else None)
  {
  }

  /** From the initial `All`, clicking another category twice leaves nothing selected. */
  lemma ToggleTwiceExample()
    ensures Toggle(Toggle(Some("All"), "Lactation Room"), "Lactation Room") == None
  {
  }

  class Scroller {
    var selectedCategory: Option<string>
    /** The values passed to `onCategorySelect`, in order. */
    var notified: seq<Option<string>>

    constructor ()
      ensures selectedCategory == Some("All") && notified == []
    {
      selectedCategory := Some("All");
      notified := [];
    }

    /** A category's button is highlighted. */
    predicate Highlighted(category: string)
      reads this
    {
      selectedCategory == Some(category)
    }

    /** `handleCategoryClick`: the selection toggles and the parent is told the new one. */
    method CategoryClicked(category: string)
      modifies this
      ensures selectedCategory == Toggle(old(selectedCategory), category)
      ensures notified == old(notified) + [selectedCategory]
    {
      var newCategory := if selectedCategory == Some(category) then None else Some(category);
      selectedCategory := newCategory;
      notified := notified + [newCategory];
    }
  }

  /** At most one of the offered categories is highlighted. */
  lemma OneHighlighted(selected: Option<string>, i: int, j: int)
    requires 0 <= i < |Categories| && 0 <= j < |Categories|
    requires selected == Some(Categories[i]) && selected == Some(Categories[j])
    ensures i == j
  {
  }
}

/**
 * The per-user genre selection: a list of labels in the order the user
 * picked them, flipped one label at a time by the checklist buttons.
 */
module Genres {
  import opened Lists

  /**
   * toggle_genre's update: remove the label when it is selected, otherwise
   * append it at the end. The label is not checked against the catalog.
   */
  function Toggled(genres: seq<string>, g: string): (r: seq<string>)
    ensures g in genres ==> |r| == |genres| - 1
    ensures g in genres ==> exists i :: RemovedFirstAt(genres, g, i, r)
    ensures g !in genres ==> r == genres + [g]
  {
    if g in genres then RemoveFirst(genres, g) else genres + [g]
  }

  /** A toggle flips the membership of its label only, and keeps the list duplicate-free. */
  lemma ToggledFlipsOne(genres: seq<string>, g: string)
    requires Distinct(genres)
    ensures Distinct(Toggled(genres, g))
    ensures forall x :: x in Toggled(genres, g) <==> (x in genres) != (x == g)
  {
    if g in genres {
      RemoveFirstDistinct(genres, g);
    }
  }

  /** Toggling an unselected label twice restores the exact list. */
  lemma ToggleTwiceAbsent(genres: seq<string>, g: string)
    requires g !in genres
    ensures Toggled(Toggled(genres, g), g) == genres
  {
    RemoveFirstAppended(genres, g);
  }

  /**
   * Toggling a selected label twice restores the same selection as a set
   * (and as a multiset), but the label moves to the end of the list.
   */
  lemma ToggleTwicePresent(genres: seq<string>, g: string)
    requires g in genres && Distinct(genres)
    ensures Toggled(Toggled(genres, g), g) == RemoveFirst(genres, g) + [g]
    ensures multiset(Toggled(Toggled(genres, g), g)) == multiset(genres)
    ensures forall x :: x in Toggled(Toggled(genres, g), g) <==> x in genres
  {
    RemoveFirstDistinct(genres, g);
    var r := Toggled(Toggled(genres, g), g);
    forall x ensures x in r <==> x in genres {
      assert x in r <==> multiset(r)[x] > 0;
      assert x in genres <==> multiset(genres)[x] > 0;
    }
  }

  /** Whatever the label, two toggles give back the same selection. */
  lemma ToggleTwiceSameSet(genres: seq<string>, g: string)
    requires Distinct(genres)
    ensures forall x :: x in Toggled(Toggled(genres, g), g) <==> x in genres
    ensures Distinct(Toggled(Toggled(genres, g), g))
  {
    ToggledFlipsOne(genres, g);
    ToggledFlipsOne(Toggled(genres, g), g);
  }
}

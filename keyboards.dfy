/**
 * The fixed genre catalog, the callback payloads the inline buttons carry,
 * and the keyboards the bot attaches to its messages (button layout, such as
 * two buttons per row, is not modelled: a markup is its buttons in order).
 */
module Keyboards {
  import opened Text
  import opened Lists
  import opened Genres

  datatype Button = Button(text: string, data: string)
  type Markup = seq<Button>

  /** The catalog shown in the genre checklist, in display order. */
  const GENRES: seq<string> := [
    "Фэнтези", "Нон-фикшн", "Психология", "Научная фантастика",
    "Детектив", "Роман", "Исторический", "Бизнес", "Саморазвитие",
    "Биография", "Классика", "Триллер", "Ужасы", "Поэзия"
  ]

  // Callback payloads: two prefixes followed by an argument, three exact values.
  const GENRE_WORD := "genre"
  const SAVE_WORD := "save"
  const GENRE_PREFIX := GENRE_WORD + "_"
  const SAVE_PREFIX := SAVE_WORD + "_"
  const GENRES_DONE := "genres_done"
  const CHANGE_GENRES := "change_genres"
  const TOGGLE_NOTIFICATIONS := "toggle_notifications"

  // The texts of the reply keyboard under the input field (main_keyboard).
  const NEW_BOOKS_TEXT := "Новинки за последнюю неделю"
  const SEARCH_TEXT := "Поиск книги"
  const SAVED_TEXT := "Сохраненные книги"
  const SETTINGS_TEXT := "Настройки"

  /** The checklist entry for one label: a check mark when selected, a cross otherwise. */
  function GenreButton(g: string, selected: bool): Button {
    Button((if selected then "✅" else "❌") + " " + g, GENRE_PREFIX + g)
  }

  const DONE_BUTTON := Button("Готово", GENRES_DONE)

  /** The genre checklist for a selection: one entry per catalog label in catalog order, then "done". */
  function GenresMarkup(selected: seq<string>): Markup {
    seq(|GENRES|, i requires 0 <= i < |GENRES| => GenreButton(GENRES[i], GENRES[i] in selected)) + [DONE_BUTTON]
  }

  /** genres_keyboard: builds the checklist by a loop over the catalog. */
  method GenresKeyboard(selected: seq<string>) returns (m: Markup)
    ensures |m| == |GENRES| + 1
    ensures forall i :: 0 <= i < |GENRES| ==> m[i] == GenreButton(GENRES[i], GENRES[i] in selected)
    ensures m[|GENRES|] == DONE_BUTTON
    ensures m == GenresMarkup(selected)
  {
    m := [];
    for i := 0 to |GENRES|
      invariant |m| == i
      invariant forall k :: 0 <= k < i ==> m[k] == GenreButton(GENRES[k], GENRES[k] in selected)
    {
      var genre := GENRES[i];
      m := m + [GenreButton(genre, genre in selected)];
    }
    m := m + [DONE_BUTTON];
  }

  /** save_book_keyboard: the one "save" button under a book card. */
  function SaveBookMarkup(bookId: string): (m: Markup)
    ensures |m| == 1 && m[0].data == SAVE_PREFIX + bookId
    ensures '_' in m[0].data && PayloadArg(m[0].data) == bookId
  {
    PayloadRoundTrip(SAVE_WORD, bookId);
    assert (SAVE_PREFIX + bookId)[|SAVE_WORD|] == '_';
    [Button("💾 Сохранить книгу", SAVE_PREFIX + bookId)]
  }

  /** settings_keyboard: change genres, then toggle notifications. */
  const SETTINGS_MARKUP: Markup := [
    Button("Изменить жанры", CHANGE_GENRES),
    Button("Включить/выключить уведомления", TOGGLE_NOTIFICATIONS)
  ]

  /** The catalog has fourteen distinct labels. */
  lemma CatalogDistinct()
    ensures |GENRES| == 14 && Distinct(GENRES)
  {
  }

  /** No catalog label contains an underscore. */
  lemma CatalogHasNoSeparator()
    ensures forall i :: 0 <= i < |GENRES| ==> '_' !in GENRES[i]
  {
  }

  /**
   * After a toggle the re-rendered checklist differs from the old one only in
   * the toggled label's mark.
   */
  lemma ToggleFlipsOneMark(selected: seq<string>, g: string, i: nat)
    requires Distinct(selected) && i < |GENRES|
    ensures GenresMarkup(Toggled(selected, g))[i]
      == GenreButton(GENRES[i], if GENRES[i] == g then GENRES[i] !in selected else GENRES[i] in selected)
  {
    ToggledFlipsOne(selected, g);
  }
}

/**
 * How aiogram's dispatcher picks a handler: the first registered handler
 * whose filters match, in registration order. Handlers without a state
 * filter match in every state.
 */
module Dispatch {
  import opened Text
  import opened Books
  import opened Keyboards

  /** The BookSearch states group; Idle is the cleared state. */
  datatype SearchState = Idle | WaitingForTitle | WaitingForAuthor

  datatype CallbackHandler =
    | ToggleNotificationsCb | ChangeGenresCb | ToggleGenreCb | GenresDoneCb | SaveBookCb | NoCallbackHandler

  /** Callback queries, in the order the handlers are registered. */
  function RouteCallback(data: string): (h: CallbackHandler)
    ensures h == ToggleGenreCb ==> StartsWith(data, GENRE_PREFIX)
    ensures h == SaveBookCb ==> StartsWith(data, SAVE_PREFIX)
    ensures h == NoCallbackHandler <==>
      (data !in {TOGGLE_NOTIFICATIONS, CHANGE_GENRES, GENRES_DONE}
       && !StartsWith(data, GENRE_PREFIX) && !StartsWith(data, SAVE_PREFIX))
  {
    if data == TOGGLE_NOTIFICATIONS then ToggleNotificationsCb
    else if data == CHANGE_GENRES then ChangeGenresCb
    else if StartsWith(data, GENRE_PREFIX) then ToggleGenreCb
    else if data == GENRES_DONE then GenresDoneCb
    else if StartsWith(data, SAVE_PREFIX) then SaveBookCb
    else NoCallbackHandler
  }

  datatype MessageHandler =
    | StartCmd | NewBooksMsg | SearchMsg | TitleStep | AuthorStep | SavedBooksMsg | SettingsMsg | NoMessageHandler

  /**
   * Text messages, in registration order: /start, the "new books" and
   * "search" buttons, the title step (waiting_for_title), the author step
   * (waiting_for_author, then /skip in any state), the "saved" and
   * "settings" buttons.
   */
  function RouteText(s: SearchState, text: string): (h: MessageHandler)
    ensures h == StartCmd <==> IsCommand(text, "start")
    ensures h == NewBooksMsg <==> !IsCommand(text, "start") && text == NEW_BOOKS_TEXT
    ensures h == SearchMsg <==> !IsCommand(text, "start") && text == SEARCH_TEXT
    ensures h == TitleStep <==>
              !IsCommand(text, "start") && text != NEW_BOOKS_TEXT && text != SEARCH_TEXT && s == WaitingForTitle
    ensures h == AuthorStep <==>
              !IsCommand(text, "start") && text != NEW_BOOKS_TEXT && text != SEARCH_TEXT
              && (s == WaitingForAuthor || (s == Idle && IsCommand(text, "skip")))
    ensures h == SavedBooksMsg || h == SettingsMsg ==> s == Idle && !IsCommand(text, "skip")
    ensures h == SavedBooksMsg ==> text == SAVED_TEXT
    ensures h == SettingsMsg ==> text == SETTINGS_TEXT
  {
    if IsCommand(text, "start") then StartCmd
    else if text == NEW_BOOKS_TEXT then NewBooksMsg
    else if text == SEARCH_TEXT then SearchMsg
    else if s == WaitingForTitle then TitleStep
    else if s == WaitingForAuthor then AuthorStep
    else
      assert s == Idle;
      if IsCommand(text, "skip") then AuthorStep
      else if text == SAVED_TEXT then SavedBooksMsg
      else if text == SETTINGS_TEXT then SettingsMsg
      else NoMessageHandler
  }

  /**
   * Every checklist entry reaches toggle_genre and decodes to its own label
   * (labels with underscores included), and "done" reaches genres_done,
   * not toggle_genre, although "genres_done" begins with "genre".
   */
  lemma GenresMarkupRoutes(selected: seq<string>)
    ensures forall i :: 0 <= i < |GENRES| ==>
      RouteCallback(GenresMarkup(selected)[i].data) == ToggleGenreCb
      && PayloadArg(GenresMarkup(selected)[i].data) == GENRES[i]
    ensures RouteCallback(GenresMarkup(selected)[|GENRES|].data) == GenresDoneCb
  {
    var m := GenresMarkup(selected);
    forall i | 0 <= i < |GENRES|
      ensures RouteCallback(m[i].data) == ToggleGenreCb && PayloadArg(m[i].data) == GENRES[i]
    {
      assert m[i].data == GENRE_WORD + "_" + GENRES[i];
      assert StartsWith(m[i].data, GENRE_PREFIX);
      PayloadRoundTrip(GENRE_WORD, GENRES[i]);
    }
    assert !StartsWith(GENRES_DONE, GENRE_PREFIX) by {
      assert GENRES_DONE[..|GENRE_PREFIX|][5] != GENRE_PREFIX[5];
    }
  }

  /** A genre payload reaches toggle_genre and decodes to its label, for any label. */
  lemma GenrePayloadRoundTrip(g: string)
    ensures RouteCallback(GENRE_PREFIX + g) == ToggleGenreCb
    ensures PayloadArg(GENRE_PREFIX + g) == g
  {
    assert (GENRE_PREFIX + g)[..|GENRE_PREFIX|] == GENRE_PREFIX;
    PayloadRoundTrip(GENRE_WORD, g);
  }

  /** A card's save button reaches save_book and decodes to the record's id, for any id. */
  lemma SavePayloadRoundTrip(bookId: string)
    ensures RouteCallback(SaveBookMarkup(bookId)[0].data) == SaveBookCb
    ensures PayloadArg(SaveBookMarkup(bookId)[0].data) == bookId
  {
    var data := SAVE_PREFIX + bookId;
    assert data[..|SAVE_PREFIX|] == SAVE_PREFIX;
    assert data[0] == 's';
  }

  /** The two settings buttons reach their handlers. */
  lemma SettingsMarkupRoutes()
    ensures RouteCallback(SETTINGS_MARKUP[0].data) == ChangeGenresCb
    ensures RouteCallback(SETTINGS_MARKUP[1].data) == ToggleNotificationsCb
  {
  }

  /** In the title state any text but /start and the first two menu buttons is taken as the title, "/skip" included. */
  lemma TitleStepTakesText(text: string)
    requires !IsCommand(text, "start") && text != NEW_BOOKS_TEXT && text != SEARCH_TEXT
    ensures RouteText(WaitingForTitle, text) == TitleStep
  {
  }

  /** In the author state any text but /start and the first two menu buttons is taken as the author. */
  lemma AuthorStepTakesText(text: string)
    requires !IsCommand(text, "start") && text != NEW_BOOKS_TEXT && text != SEARCH_TEXT
    ensures RouteText(WaitingForAuthor, text) == AuthorStep
  {
  }

  /**
   * /skip reaches the author step outside a search too; while the title is
   * awaited it is taken as a title instead.
   */
  lemma SkipRoutes(s: SearchState)
    ensures RouteText(s, "/skip") == (if s == WaitingForTitle then TitleStep else AuthorStep)
  {
    var skip := "/skip";
    assert TrimStart(skip) == skip;
    assert IsCommand(skip, "skip");
    assert !IsCommand(skip, "start") by {
      assert |"/start"| > |skip|;
    }
    assert skip != NEW_BOOKS_TEXT && skip != SEARCH_TEXT by {
      assert skip[0] != NEW_BOOKS_TEXT[0] && skip[0] != SEARCH_TEXT[0];
    }
  }

  /**
   * The "search" button restarts the dialogue in every state; the "saved" and
   * "settings" buttons reach their handlers only when no search is under way.
   */
  lemma MenuRoutes(s: SearchState)
    ensures RouteText(s, SEARCH_TEXT) == SearchMsg
    ensures RouteText(s, NEW_BOOKS_TEXT) == NewBooksMsg
    ensures RouteText(s, SAVED_TEXT) == (if s == Idle then SavedBooksMsg else if s == WaitingForTitle then TitleStep else AuthorStep)
    ensures RouteText(s, SETTINGS_TEXT) == (if s == Idle then SettingsMsg else if s == WaitingForTitle then TitleStep else AuthorStep)
  {
    NotACommand(NEW_BOOKS_TEXT, "start");
    NotACommand(SEARCH_TEXT, "start");
    NotACommand(SAVED_TEXT, "start");
    NotACommand(SAVED_TEXT, "skip");
    NotACommand(SETTINGS_TEXT, "start");
    NotACommand(SETTINGS_TEXT, "skip");
  }
}

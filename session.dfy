/**
 * The per-user session store behind the bot's handlers: the user_data and
 * saved_books dictionaries and the per-user search-dialogue state that the
 * dispatcher's FSM storage keeps. Each handler is one atomic step; what it
 * sends is returned as a log of actions, and the book providers are
 * function parameters (a record list, or Failed for an exception).
 */
module Session {
  import opened Options
  import opened Text
  import opened Lists
  import opened Books
  import opened Genres
  import opened Keyboards
  import opened Replies
  import opened Dispatch

  type UserId = int

  /** Telegram message ids are positive, so the source's `if message_id:` means "an id is recorded". */
  type MessageId = m: int | m > 0 witness 1

  /** current_search: the empty dict until a title is accepted, then the title and the last results. */
  datatype CurrentSearch = NoSearch | Search(title: string, books: seq<Book>)

  /** current_search.get("books", []) */
  function SearchResults(cs: CurrentSearch): seq<Book> {
    if cs.Search? then cs.books else []
  }

  /** One user_data entry. */
  datatype Profile = Profile(
    genres: seq<string>,
    notifications: bool,
    currentSearch: CurrentSearch,
    genreMessageId: Option<MessageId>)

  /** The entry init_user creates for a user it has not seen. */
  const DEFAULT_PROFILE := Profile([], true, NoSearch, None)

  /** The arguments of one search-provider call. */
  datatype Query = Query(title: string, author: Option<string>)

  datatype SaveOutcome = Saved | AlreadySaved | NotFound | ProviderRaised

  /** A user's entry once init_user has run. */
  function ProfileAfterInit(m: map<UserId, Profile>, u: UserId): Profile {
    if u in m then m[u] else DEFAULT_PROFILE
  }

  /** user_data once init_user has run for u. */
  function UsersAfterInit(m: map<UserId, Profile>, u: UserId): map<UserId, Profile> {
    if u in m then m else m[u := DEFAULT_PROFILE]
  }

  /** saved_books once init_user has run for u. */
  function SavedAfterInit(m: map<UserId, seq<Book>>, u: UserId): map<UserId, seq<Book>> {
    if u in m then m else m[u := []]
  }

  /** What the search step's result leaves in current_search: the results, when there are some. */
  function AfterSearch(cs: CurrentSearch, result: Fetch): CurrentSearch
    requires cs.Search?
  {
    if result.Fetched? && result.books != [] then cs.(books := result.books) else cs
  }

  /** The author process_book_author searches with: none for exactly "/skip", otherwise the stripped text. */
  function AuthorOf(text: string): Option<string> {
    if text != "/skip" then Some(Strip(text)) else None
  }

  /**
   * What process_book_author sends: the query it runs, then an error notice,
   * a "none found" notice (the only path without the closing notice), or
   * one card per result.
   */
  function SearchReplies(query: Query, result: Fetch): seq<Action> {
    [Say(Searching(query.title, query.author))] +
      match result
      case Failed => [Say(SearchError), Say(SearchFinished)]
      case Fetched(bs) => if bs == [] then [Say(NoBooksFound)] else BookCards(bs) + [Say(SearchFinished)]
  }

  /** What new_books_handler sends once it has queried the provider. */
  function NewBooksReplies(result: Fetch): seq<Action> {
    [Say(LookingForNewBooks)] +
      match result
      case Failed => [Say(NewBooksError)]
      case Fetched(bs) => if bs == [] then [Say(NoNewBooks)] else BookCards(bs)
  }

  /** What save_book reports for a lookup. */
  function SaveReply(outcome: SaveOutcome): seq<Action> {
    match outcome
    case Saved => [Say(BookSaved)]
    case AlreadySaved => [Say(BookAlreadySaved)]
    case NotFound => [Say(BookNotFound)]
    case ProviderRaised => []
  }

  /**
   * A card's save button, pressed while its result list is the last search,
   * reaches save_book and resolves to that card's record, provided the list
   * gives each id to one record (otherwise to the first record with the id).
   */
  lemma CardSavesItsBook(books: seq<Book>, i: nat, releases: Fetch)
    requires i < |books|
    ensures var data := BookCards(books)[i].markup[0].data;
      && RouteCallback(data) == SaveBookCb
      && Resolve(books, PayloadArg(data), releases) == Found(FindById(books, books[i].id).value)
      && ((forall j, k :: 0 <= j < k < |books| ==> books[j].id != books[k].id) ==>
            Resolve(books, PayloadArg(data), releases) == Found(books[i]))
  {
    SavePayloadRoundTrip(books[i].id);
    assert HasId(books, books[i].id);
    var f := FindById(books, books[i].id).value;
    var k :| FirstWithId(books, books[i].id, k) && books[k] == f;
    assert k <= i;
  }

  class SessionStore {
    var userData: map<UserId, Profile>
    var savedBooks: map<UserId, seq<Book>>
    var fsm: map<UserId, SearchState>

    /**
     * The invariant every handler keeps: both dictionaries know the same
     * users, no genre label and no saved record occurs twice, a user in a
     * search has an entry, and a user asked for the author has a title.
     */
    ghost predicate Valid()
      reads this
    {
      && userData.Keys == savedBooks.Keys
      && (forall u :: u in userData ==> Distinct(userData[u].genres))
      && (forall u :: u in savedBooks ==> Distinct(savedBooks[u]))
      && (forall u :: u in fsm && fsm[u] != Idle ==> u in userData)
      && (forall u :: u in fsm && fsm[u] == WaitingForAuthor ==> u in userData && userData[u].currentSearch.Search?)
    }

    /** The dialogue state of a user; a user never seen by the FSM is Idle. */
    function StateOf(u: UserId): SearchState
      reads this
    {
      if u in fsm then fsm[u] else Idle
    }

    constructor ()
      ensures Valid()
      ensures userData == map[] && savedBooks == map[] && fsm == map[]
    {
      userData := map[];
      savedBooks := map[];
      fsm := map[];
    }

    /** init_user: creates the default entries for a user not seen before, and changes nothing otherwise. */
    method InitUser(u: UserId)
      requires Valid()
      modifies this
      ensures Valid()
      ensures userData == UsersAfterInit(old(userData), u)
      ensures savedBooks == SavedAfterInit(old(savedBooks), u)
      ensures fsm == old(fsm)
    {
      if u !in userData {
        userData := userData[u := DEFAULT_PROFILE];
      }
      if u !in savedBooks {
        savedBooks := savedBooks[u := []];
      }
    }

    /** search_book_handler: enters the title step. The previous current_search is kept. */
    method StartSearch(u: UserId) returns (acts: seq<Action>)
      requires Valid()
      modifies this
      ensures Valid()
      ensures userData == old(userData)[u := ProfileAfterInit(old(userData), u)]
      ensures savedBooks == SavedAfterInit(old(savedBooks), u)
      ensures fsm == old(fsm)[u := WaitingForTitle]
      ensures acts == [Say(AskTitle)]
    {
      InitUser(u);
      fsm := fsm[u := WaitingForTitle];
      acts := [Say(AskTitle)];
    }

    /**
     * process_book_title: a stripped title shorter than three characters is
     * refused and nothing changes; otherwise it opens a fresh current_search
     * and the author is asked for.
     */
    method ProcessTitle(u: UserId, text: string) returns (acts: seq<Action>)
      requires Valid() && StateOf(u) == WaitingForTitle
      modifies this
      ensures Valid()
      ensures |Strip(text)| < 3 ==>
        userData == old(userData) && fsm == old(fsm) && acts == [Say(TitleTooShort)]
      ensures |Strip(text)| >= 3 ==>
        && userData == old(userData)[u := old(userData)[u].(currentSearch := Search(Strip(text), []))]
        && fsm == old(fsm)[u := WaitingForAuthor]
        && acts == [Say(AskAuthor)]
      ensures savedBooks == old(savedBooks)
    {
      var title := Strip(text);
      if |title| < 3 {
        acts := [Say(TitleTooShort)];
        return;
      }
      userData := userData[u := userData[u].(currentSearch := Search(title, []))];
      fsm := fsm[u := WaitingForAuthor];
      acts := [Say(AskAuthor)];
    }

    /**
     * process_book_author: searches with the stored title and the author
     * (none for "/skip"), keeps non-empty results in current_search for the
     * save buttons, and returns the dialogue to Idle on every path.
     */
    method ProcessAuthor(u: UserId, text: string, search: Query -> Fetch) returns (query: Query, acts: seq<Action>)
      requires Valid() && u in userData && userData[u].currentSearch.Search?
      modifies this
      ensures Valid()
      ensures query.title == old(userData)[u].currentSearch.title
      ensures query.author == None <==> text == "/skip"
      ensures query.author.Some? ==> query.author.value == Strip(text)
      ensures userData == old(userData)[u := old(userData)[u].(currentSearch := AfterSearch(old(userData)[u].currentSearch, search(query)))]
      ensures fsm == old(fsm)[u := Idle]
      ensures savedBooks == old(savedBooks)
      ensures acts == SearchReplies(query, search(query))
    {
      var author := AuthorOf(text);
      query := Query(userData[u].currentSearch.title, author);
      var result := search(query);
      acts := [Say(Searching(query.title, query.author))];
      match result {
        case Failed =>
          acts := acts + [Say(SearchError), Say(SearchFinished)];
        case Fetched(books) =>
          if books == [] {
            acts := acts + [Say(NoBooksFound)];
          } else {
            var cards := RenderCards(books);
            acts := acts + cards + [Say(SearchFinished)];
          }
      }
      EndSearch(u, result);
    }

    /** The state side of the author step: keep non-empty results, then clear the dialogue state. */
    method EndSearch(u: UserId, result: Fetch)
      requires Valid() && u in userData && userData[u].currentSearch.Search?
      modifies this
      ensures Valid()
      ensures userData == old(userData)[u := old(userData)[u].(currentSearch := AfterSearch(old(userData)[u].currentSearch, result))]
      ensures fsm == old(fsm)[u := Idle]
      ensures savedBooks == old(savedBooks)
    {
      if result.Fetched? && result.books != [] {
        userData := userData[u := userData[u].(currentSearch := userData[u].currentSearch.(books := result.books))];
      }
      fsm := fsm[u := Idle];
    }

    /** new_books_handler: with no genre selected nothing is fetched; otherwise one card per new release. */
    method NewBooks(u: UserId, newReleases: seq<string> -> Fetch) returns (queried: Option<seq<string>>, acts: seq<Action>)
      requires Valid()
      modifies this
      ensures Valid()
      ensures userData == old(userData)[u := ProfileAfterInit(old(userData), u)]
      ensures savedBooks == SavedAfterInit(old(savedBooks), u)
      ensures fsm == old(fsm)
      ensures var genres := ProfileAfterInit(old(userData), u).genres;
        && (queried == None <==> genres == [])
        && (queried.Some? ==> queried.value == genres)
      ensures queried == None ==> acts == [Say(ChooseGenresFirst)]
      ensures queried.Some? ==> acts == NewBooksReplies(newReleases(queried.value))
    {
      InitUser(u);
      var genres := userData[u].genres;
      if genres == [] {
        queried := None;
        acts := [Say(ChooseGenresFirst)];
        return;
      }
      queried := Some(genres);
      acts := [Say(LookingForNewBooks)];
      match newReleases(genres) {
        case Failed =>
          acts := acts + [Say(NewBooksError)];
        case Fetched(books) =>
          if books == [] {
            acts := acts + [Say(NoNewBooks)];
          } else {
            var cards := RenderCards(books);
            acts := acts + cards;
          }
      }
    }

    /** toggle_notifications: flips the flag and re-renders the settings keyboard; nothing else changes. */
    method ToggleNotifications(u: UserId) returns (acts: seq<Action>)
      requires Valid()
      modifies this
      ensures Valid()
      ensures var p := ProfileAfterInit(old(userData), u);
        userData == old(userData)[u := p.(notifications := !p.notifications)]
      ensures savedBooks == SavedAfterInit(old(savedBooks), u)
      ensures fsm == old(fsm)
      ensures acts == [Say(NotificationsToggled(userData[u].notifications)), EditCallbackMessage(SETTINGS_MARKUP)]
    {
      InitUser(u);
      var p := userData[u];
      userData := userData[u := p.(notifications := !p.notifications)];
      acts := [Say(NotificationsToggled(!p.notifications)), EditCallbackMessage(SETTINGS_MARKUP)];
    }

    /**
     * change_genres: sends a fresh checklist for the current selection and
     * records the id the transport gave it, replacing any earlier one.
     */
    method ChangeGenres(u: UserId, sent: MessageId) returns (acts: seq<Action>)
      requires Valid()
      modifies this
      ensures Valid()
      ensures var p := ProfileAfterInit(old(userData), u);
        && userData == old(userData)[u := p.(genreMessageId := Some(sent))]
        && acts == [SendWithMarkup(ChooseGenres, GenresMarkup(p.genres)), Say(Ack)]
      ensures savedBooks == SavedAfterInit(old(savedBooks), u)
      ensures fsm == old(fsm)
    {
      InitUser(u);
      var markup := GenresKeyboard(userData[u].genres);
      acts := [SendWithMarkup(ChooseGenres, markup), Say(Ack)];
      userData := userData[u := userData[u].(genreMessageId := Some(sent))];
    }

    /**
     * toggle_genre: flips the decoded label in the selection and, when a
     * checklist is tracked, re-renders that message for the new selection.
     */
    method ToggleGenre(u: UserId, data: string) returns (acts: seq<Action>)
      requires Valid() && u in userData && StartsWith(data, GENRE_PREFIX)
      modifies this
      ensures Valid()
      ensures '_' in data
      ensures var p := old(userData)[u];
        var genres := Toggled(p.genres, PayloadArg(data));
        && userData == old(userData)[u := p.(genres := genres)]
        && acts == (if p.genreMessageId.Some? then [EditMessage(p.genreMessageId.value, GenresMarkup(genres))] else []) + [Say(Ack)]
      ensures savedBooks == old(savedBooks) && fsm == old(fsm)
    {
      assert data[..|GENRE_PREFIX|][5] == '_';
      var genre := PayloadArg(data);
      var p := userData[u];
      ToggledFlipsOne(p.genres, genre);
      var genres := Toggled(p.genres, genre);
      userData := userData[u := p.(genres := genres)];
      acts := [];
      if p.genreMessageId.Some? {
        var markup := GenresKeyboard(genres);
        acts := [EditMessage(p.genreMessageId.value, markup)];
      }
      acts := acts + [Say(Ack)];
    }

    /**
     * genres_done: reports how many labels are selected, deletes the tracked
     * checklist if there is one, and forgets its id.
     */
    method GenresDone(u: UserId) returns (count: nat, acts: seq<Action>)
      requires Valid() && u in userData
      modifies this
      ensures Valid()
      ensures count == |old(userData)[u].genres|
      ensures var p := old(userData)[u];
        && userData == old(userData)[u := p.(genreMessageId := None)]
        && acts == (if p.genreMessageId.Some? then [DeleteMessage(p.genreMessageId.value)] else [])
                   + [Say(GenresChosen(count)), Say(Ack)]
      ensures savedBooks == old(savedBooks) && fsm == old(fsm)
    {
      count := |userData[u].genres|;
      acts := [];
      var messageId := userData[u].genreMessageId;
      if messageId.Some? {
        acts := [DeleteMessage(messageId.value)];
        userData := userData[u := userData[u].(genreMessageId := None)];
      }
      acts := acts + [Say(GenresChosen(count)), Say(Ack)];
    }

    /**
     * save_book: finds the record by the decoded id in the last search
     * results, else in the new releases for the user's genres, and appends it
     * to the saved list unless an equal record is already there.
     */
    method SaveBook(u: UserId, data: string, newReleases: seq<string> -> Fetch)
      returns (outcome: SaveOutcome, consulted: bool, acts: seq<Action>)
      requires Valid() && u in userData && StartsWith(data, SAVE_PREFIX)
      modifies this
      ensures Valid()
      ensures '_' in data
      ensures var p := old(userData)[u];
        var current := SearchResults(p.currentSearch);
        var found := Resolve(current, PayloadArg(data), newReleases(p.genres));
        && consulted == !HasId(current, PayloadArg(data))
        && outcome == (match found
                       case LookupFailed => ProviderRaised
                       case Missing => NotFound
                       case Found(b) => if b in old(savedBooks)[u] then AlreadySaved else Saved)
        && savedBooks == (if found.Found? then old(savedBooks)[u := AppendIfAbsent(old(savedBooks)[u], found.book)]
                          else old(savedBooks))
      ensures userData == old(userData) && fsm == old(fsm)
      ensures acts == SaveReply(outcome)
    {
      assert data[..|SAVE_PREFIX|][4] == '_';
      var bookId := PayloadArg(data);
      var current := SearchResults(userData[u].currentSearch);
      var bookToSave := FindById(current, bookId);
      consulted := bookToSave.None?;
      if bookToSave.None? {
        match newReleases(userData[u].genres) {
          case Failed =>
            outcome := ProviderRaised;
            acts := [];
            return;
          case Fetched(books) =>
            bookToSave := FindById(books, bookId);
        }
      }
      if bookToSave.None? {
        outcome := NotFound;
        acts := [Say(BookNotFound)];
        return;
      }
      var book := bookToSave.value;
      if book !in savedBooks[u] {
        AppendIfAbsentDistinct(savedBooks[u], book);
        savedBooks := savedBooks[u := savedBooks[u] + [book]];
        outcome := Saved;
      } else {
        outcome := AlreadySaved;
      }
      acts := SaveReply(outcome);
    }
  }

  /**
   * A client of the store: a too-short title is refused, a long enough one
   * is taken stripped, and with the author skipped the provider is queried
   * with that title and no author; the dialogue ends Idle.
   */
  method SearchDialogueScenario(u: UserId, short: string, title: string, search: Query -> Fetch)
    requires |Strip(short)| < 3 && |Strip(title)| >= 3
  {
    var store := new SessionStore();
    var _ := store.StartSearch(u);
    var _ := store.ProcessTitle(u, short);
    assert store.StateOf(u) == WaitingForTitle;
    var _ := store.ProcessTitle(u, title);
    assert store.StateOf(u) == WaitingForAuthor;
    var query, _ := store.ProcessAuthor(u, "/skip", search);
    assert query == Query(Strip(title), None);
    assert store.StateOf(u) == Idle;
  }

  /** A client of the store: pressing the same save button twice keeps one copy of the record. */
  method SaveTwiceScenario(store: SessionStore, u: UserId, b: Book, newReleases: seq<string> -> Fetch)
    requires store.Valid() && u in store.userData
    requires SearchResults(store.userData[u].currentSearch) == [b]
    modifies store
  {
    var data := SAVE_PREFIX + b.id;
    SavePayloadRoundTrip(b.id);
    assert [b][0].id == b.id;
    var first, consulted, _ := store.SaveBook(u, data, newReleases);
    assert !consulted && (first == Saved || first == AlreadySaved);
    var second, _, _ := store.SaveBook(u, data, newReleases);
    assert second == AlreadySaved;
    AppendIfAbsentTwice(old(store.savedBooks)[u], b);
    assert multiset(store.savedBooks[u])[b] == 1;
  }
}

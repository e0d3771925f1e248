/**
 * What the handlers send back through the chat transport, as a log of
 * actions. Message wording and Markdown formatting are not modelled: each
 * fixed text is one Notice.
 */
module Replies {
  import opened Options
  import opened Books
  import opened Keyboards

  datatype Notice =
    | AskTitle | TitleTooShort | AskAuthor
    | Searching(title: string, author: Option<string>)
    | NoBooksFound | SearchError | SearchFinished
    | ChooseGenresFirst | LookingForNewBooks | NoNewBooks | NewBooksError
    | NotificationsToggled(enabled: bool)
    | ChooseGenres | GenresChosen(count: nat)
    | BookSaved | BookAlreadySaved | BookNotFound
    | Ack   // callback.answer() without text

  datatype Action =
    | Say(notice: Notice)                           // a text message or callback answer
    | SendWithMarkup(notice: Notice, markup: Markup) // a new message carrying an inline keyboard
    | ShowBook(book: Book, markup: Markup)          // a book card (photo or text) with its save button
    | EditCallbackMessage(markup: Markup)           // replace the keyboard of the pressed message
    | EditMessage(messageId: int, markup: Markup)   // replace the keyboard of a tracked message
    | DeleteMessage(messageId: int)

  /** The card for one record: the record and a save button carrying its id. */
  function BookCard(b: Book): Action {
    ShowBook(b, SaveBookMarkup(b.id))
  }

  /** The cards for a result list, one per record, in the provider's order. */
  function BookCards(books: seq<Book>): seq<Action> {
    seq(|books|, i requires 0 <= i < |books| => BookCard(books[i]))
  }

  /** The `for book in books` loop that sends one card per record. */
  method RenderCards(books: seq<Book>) returns (acts: seq<Action>)
    ensures |acts| == |books|
    ensures forall i :: 0 <= i < |books| ==> acts[i] == ShowBook(books[i], SaveBookMarkup(books[i].id))
    ensures acts == BookCards(books)
  {
    acts := [];
    for i := 0 to |books|
      invariant |acts| == i
      invariant forall k :: 0 <= k < i ==> acts[k] == BookCard(books[k])
    {
      var book := books[i];
      acts := acts + [BookCard(book)];
    }
  }
}

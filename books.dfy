/**
 * Book records as the providers return them (dicts with id, title, author,
 * description, cover_url, price, source_url) and the lookup save_book does
 * over the last search results and the new-releases list.
 */
module Books {
  import opened Options

  /** One provider record. Two records are equal only when every field is (Python dict equality). */
  datatype Book = Book(
    id: string,
    title: string,
    author: string,
    description: string,
    coverUrl: Option<string>,
    price: Option<string>,
    sourceUrl: string)

  /** What a provider call gives: its list of records, or an exception. */
  datatype Fetch = Fetched(books: seq<Book>) | Failed

  /** Some record of books carries the id. */
  predicate HasId(books: seq<Book>, id: string) {
    exists i :: 0 <= i < |books| && books[i].id == id
  }

  /** books[i] is the first record carrying the id. */
  predicate FirstWithId(books: seq<Book>, id: string, i: int) {
    0 <= i < |books| && books[i].id == id && forall j :: 0 <= j < i ==> books[j].id != id
  }

  /** `next((b for b in books if b["id"] == id), None)`: the first record carrying that id. */
  function FindById(books: seq<Book>, id: string): (r: Option<Book>)
    ensures r == None <==> !HasId(books, id)
    ensures r.Some? ==> exists i :: FirstWithId(books, id, i) && books[i] == r.value
  {
    if books == [] then None
    else if books[0].id == id then Some(books[0])
    else
      var r := FindById(books[1..], id);
      assert HasId(books[1..], id) ==> HasId(books, id) by {
        if HasId(books[1..], id) {
          var i :| 0 <= i < |books[1..]| && books[1..][i].id == id;
          assert books[i + 1].id == id;
        }
      }
      assert r.Some? ==> exists i :: FirstWithId(books, id, i) && books[i] == r.value by {
        if r.Some? {
          var i :| FirstWithId(books[1..], id, i) && books[1..][i] == r.value;
          assert FirstWithId(books, id, i + 1) by {
            forall j | 0 <= j < i + 1 ensures books[j].id != id {
              if j > 0 { assert books[j] == books[1..][j - 1]; }
            }
          }
        }
      }
      r
  }

  /** Where save_book's lookup ends: a record, no record, or the new-releases call raised. */
  datatype Lookup = Found(book: Book) | Missing | LookupFailed

  /**
   * save_book's lookup: the last search results first; only when no record
   * there carries the id, the new-releases list.
   */
  function Resolve(current: seq<Book>, id: string, releases: Fetch): (r: Lookup)
    ensures HasId(current, id) ==> r == Found(FindById(current, id).value)
    ensures r.Found? ==> r.book.id == id && (r.book in current || (releases.Fetched? && r.book in releases.books))
    ensures r.LookupFailed? <==> !HasId(current, id) && releases.Failed?
    ensures r.Missing? <==> !HasId(current, id) && releases.Fetched? && !HasId(releases.books, id)
    ensures !HasId(current, id) && releases.Fetched? && HasId(releases.books, id) ==>
              r == Found(FindById(releases.books, id).value)
  {
    match FindById(current, id)
    case Some(b) => Found(b)
    case None =>
      match releases
      case Failed => LookupFailed
      case Fetched(bs) =>
        match FindById(bs, id)
        case Some(b) => Found(b)
        case None => Missing
  }
}

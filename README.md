# BookRadarBot session store, in Dafny

BookRadarBot is a Telegram bot that shows new book releases by genre. It also runs a two-step title/author search, keeps a per-user genre checklist and a per-user list of saved books. Almost all of `book_radar_bot.py` is calls into the aiogram transport. Underneath them sits a small per-user store: the `user_data` and `saved_books` dictionaries, plus the search dialogue state (`BookSearch.waiting_for_title` / `waiting_for_author`) that the dispatcher's FSM storage keeps. aiogram keys that state by chat and user; the model keys it by user alone, which is the same thing when every user talks to the bot in one private chat. This project models that store and the handlers that change it, and proves what they keep.

Layout (one module per component):

- `options.dfy`: `Options`, the `Option` type used for `None`-able values.
- `text.dfy`: `Text`. Python's `str.strip()` (with `str.isspace`), the `split("_", 1)[1]` payload decoding, and aiogram's `Command` filter, related to the `split()` first word it compares.
- `lists.dfy`: `Lists`. `list.remove` (first occurrence), the guarded `append`, and duplicate-freedom.
- `books.dfy`: `Books`. The book record, a provider answer (`Fetch`: a list or an exception), the `next(...)` lookup by id, and `save_book`'s two-stage lookup.
- `genres.dfy`: `Genres`. The genre toggle and its laws.
- `keyboards.dfy`: `Keyboards`. The 14-label catalog, the callback payloads, and the keyboards, including the loop-built genre checklist.
- `replies.dfy`: `Replies`. What a handler sends, as a log of `Action`s, and the loop that sends one card per book.
- `dispatch.dfy`: `Dispatch`. aiogram's first-match dispatch, in the order the handlers are registered, for callback queries and for text messages.
- `session.dfy`: `Session`. Class `SessionStore` holds the three per-user maps (`userData`, `savedBooks`, `fsm`) and has one method per handler. Each method states the whole new state, and `Valid()` is the invariant they all keep:
  - both maps know the same users;
  - no genre label and no saved record occurs twice;
  - a user in a search has an entry;
  - a user asked for the author has a title.

  Two client methods (`SearchDialogueScenario`, `SaveTwiceScenario`) show what callers can conclude from the contracts.

Modelling choices:

- Each handler is one atomic step.
- The two book providers are function parameters: `search: Query -> Fetch` and `newReleases: seq<string> -> Fetch`. A provider either returns a record list or raises (`Failed`).
- Outbound messages are returned as a list of actions. Each fixed text is one `Notice`, and message wording is not modelled.
- The id of the message that `change_genres` sends comes from the transport, so it is a parameter.
- Telegram message ids are positive (`MessageId`), so the source's `if message_id:` means "an id is recorded".

Behaviour of the code that a reader might not expect (the model follows it):

- `SaveBook` skips a record only when an *equal* record (every field) is already saved, not when one with the same id is. Two records with the same id and different titles can both be saved.
- `StartSearch` does not clear the previous `current_search`. The title step replaces it.
- The author is passed to the search provider, but it is not stored in `current_search`.
- `ToggleGenre` does not check the label against the catalog. Any `genre_<x>` payload toggles `x`.
- A callback payload that matches no filter has no handler (`NoCallbackHandler`). No routing error is raised.
- `save_book` calls the new-releases provider (line 461) outside any `try`. A provider exception there is not caught or reported: the handler stops with no reply and no change (`ProviderRaised`).

## Model

| member | source | states |
|---|---|---|
| Text.Strip | book_radar_bot.py:260 | the stripped text is a contiguous slice of the input with only whitespace outside it, has no whitespace at either end, and is empty exactly when the input is all whitespace |
| Text.StripIdempotent | book_radar_bot.py:260 | stripping an already stripped text changes nothing |
| Text.PayloadArg | book_radar_bot.py:404 | `split("_", 1)[1]`: the result is the whole text after the first underscore (the part before it has none) |
| Text.PayloadRoundTrip | book_radar_bot.py:453 | decoding `word + "_" + x`, with no underscore in `word`, gives back exactly `x`, even if `x` contains underscores |
| Text.CommandIsFirstWord | book_radar_bot.py:174 | for a command name without whitespace, the `Command` filter matches exactly when the first whitespace-separated word of the text (`text.split(maxsplit=1)[0]`) is `/` + name |
| Text.NotACommand | book_radar_bot.py:174 | a text that starts with neither whitespace nor `/` matches no `Command` filter |
| Lists.RemoveFirst | book_radar_bot.py:407 | `list.remove` drops the first occurrence of the value and keeps the other elements in order; the length falls by one, and the multiset loses exactly that value |
| Lists.RemoveFirstDistinct | book_radar_bot.py:406-407 | removing from a duplicate-free list keeps it duplicate-free; afterwards it holds exactly the old elements other than the removed one |
| Lists.RemoveFirstAppended | book_radar_bot.py:406-409 | removing a value just appended to a list that lacked it gives the original list back exactly |
| Lists.AppendIfAbsent | book_radar_bot.py:469-470 | after the guarded append the value is present, and the list is unchanged or has it appended at the end; on a duplicate-free list the result stays duplicate-free and holds the value exactly once |
| Lists.AppendIfAbsentDistinct | book_radar_bot.py:469-470 | the guarded append keeps a list duplicate-free |
| Lists.AppendIfAbsentTwice | book_radar_bot.py:469-473 | a second guarded append of the same value changes nothing, and the value occurs exactly once |
| Lists.DistinctCountOne | book_radar_bot.py:469 | in a duplicate-free list every element occurs exactly once |
| Books.FindById | book_radar_bot.py:457 | `next(... if b["id"] == id)`: None exactly when no record has the id; otherwise the first record that has it |
| Books.Resolve | book_radar_bot.py:455-466 | the search results are tried first, and their first record with the id decides regardless of the new releases; otherwise the first record with the id in the new releases is taken; a found record has the id and comes from one of the two lists; "failed" happens exactly when the search results lack the id and the provider raised; "missing" happens exactly when neither list has the id |
| Genres.Toggled | book_radar_bot.py:406-409 | the first occurrence of a selected label is removed and the other labels keep their order; an unselected label is appended at the end |
| Genres.ToggledFlipsOne | book_radar_bot.py:406-409 | on a duplicate-free selection, a toggle flips the membership of its label only and keeps the list duplicate-free |
| Genres.ToggleTwiceAbsent | book_radar_bot.py:406-409 | toggling an unselected label twice restores the exact list |
| Genres.ToggleTwicePresent | book_radar_bot.py:406-409 | toggling a selected label twice restores the same set and multiset, but the label moves to the end |
| Genres.ToggleTwiceSameSet | book_radar_bot.py:406-409 | for any label, two toggles give back the same selection and the list stays duplicate-free |
| Keyboards.GenresKeyboard | book_radar_bot.py:92-105 | one button per catalog label, in catalog order, marked ✅ exactly when the label is selected, with payload `genre_<label>`; the "done" button comes last |
| Keyboards.SaveBookMarkup | book_radar_bot.py:108-114 | one button, whose payload `save_<id>` decodes back to exactly the record's id, whatever the id holds |
| Keyboards.CatalogDistinct | book_radar_bot.py:39-43 | the catalog has 14 distinct labels |
| Keyboards.CatalogHasNoSeparator | book_radar_bot.py:39-43 | no label of the 14-label catalog contains an underscore |
| Keyboards.ToggleFlipsOneMark | book_radar_bot.py:411-419 | the checklist re-rendered after a toggle differs only in the toggled label's mark |
| Replies.RenderCards | book_radar_bot.py:301-324 | one card per record, in order, each with a save button for that record's id |
| Dispatch.RouteCallback | book_radar_bot.py:372-453 | the toggle and save handlers are reached only by payloads with their prefix; no handler exactly when the payload is none of the three exact values and has neither prefix |
| Dispatch.GenresMarkupRoutes | book_radar_bot.py:92-105 | every checklist button reaches `toggle_genre` and decodes to its own label; "done" reaches `genres_done`, because `genres_done` does not start with `genre_` |
| Dispatch.GenrePayloadRoundTrip | book_radar_bot.py:401-404 | for any label, `genre_<label>` reaches `toggle_genre` and decodes to that label |
| Dispatch.SavePayloadRoundTrip | book_radar_bot.py:450-453 | for any id, a card's save button reaches `save_book` and decodes to that id |
| Dispatch.SettingsMarkupRoutes | book_radar_bot.py:79-89 | the two settings buttons reach `change_genres` and `toggle_notifications` |
| Dispatch.RouteText | book_radar_bot.py:174-354 | first match in registration order: `/start` wins in every state; then the "new books" and "search" buttons; then the title step exactly in the title state; the author step in the author state, or for `/skip` when Idle; the "saved" and "settings" handlers only when Idle and for their exact text |
| Dispatch.TitleStepTakesText | book_radar_bot.py:257-262 | while the title is awaited, any text except `/start` and the first two menu buttons is taken as the title, including "/skip" |
| Dispatch.AuthorStepTakesText | book_radar_bot.py:279-283 | while the author is awaited, any text except `/start` and the first two menu buttons is taken as the author |
| Dispatch.SkipRoutes | book_radar_bot.py:257-280 | `/skip` reaches the author step when Idle and when the author is awaited, but becomes the title when the title is awaited |
| Dispatch.MenuRoutes | book_radar_bot.py:195-354 | the "search" and "new books" buttons work in every state; during a search, "saved" and "settings" are taken as the title or author |
| Session.CardSavesItsBook | book_radar_bot.py:450-457 | a card's save button, pressed against the same result list, resolves to the first record with that card's id; if ids are unique, to the card's own record |
| Session.SessionStore.constructor | book_radar_bot.py:34-36 | the store starts with empty dictionaries and every user Idle |
| Session.SessionStore.InitUser | book_radar_bot.py:53-62 | an unseen user gets empty genres, notifications on, an empty search, no checklist id and an empty saved list; a known user is left unchanged |
| Session.SessionStore.StartSearch | book_radar_bot.py:245-254 | the user gets an entry and moves to the title step; the previous search record is kept |
| Session.SessionStore.ProcessTitle | book_radar_bot.py:257-276 | a stripped title under 3 characters changes nothing and re-prompts; otherwise the search record becomes the stripped title with no results, and the state becomes the author step |
| Session.SessionStore.ProcessAuthor | book_radar_bot.py:279-331 | the query is the stored title plus an author (none exactly for "/skip", otherwise the stripped text); results are stored only if non-empty; the state is Idle on every path (empty, raised, found); the replies are the query, then an error notice and the closing notice, or "none found" with no closing notice, or one card per result (built by the rendering loop) and the closing notice |
| Session.SessionStore.EndSearch | book_radar_bot.py:292-330 | the state side of the author step: only non-empty results replace the stored list, and the dialogue state becomes Idle |
| Session.SessionStore.NewBooks | book_radar_bot.py:195-242 | with no genre selected the provider is not queried and the user is told to pick genres; otherwise the provider is queried with the genres, and "looking" is followed by an error notice, "none found", or one card per release |
| Session.SessionStore.ToggleNotifications | book_radar_bot.py:372-382 | only the flag flips (after init); the new status is reported and the settings keyboard re-rendered |
| Session.SessionStore.ChangeGenres | book_radar_bot.py:385-398 | sends the checklist for the current selection and records the new message id, overwriting any previous one |
| Session.SessionStore.ToggleGenre | book_radar_bot.py:401-423 | only the genres change, to the decoded label's toggle; the tracked checklist is re-rendered exactly when one is tracked |
| Session.SessionStore.GenresDone | book_radar_bot.py:426-447 | reports the number of selected labels, leaves them unchanged, deletes the tracked checklist if any, and afterwards no checklist id is held |
| Session.SessionStore.SaveBook | book_radar_bot.py:450-473 | new releases are fetched exactly when the search results lack the id; found records are appended unless an equal one is saved; the three replies (saved, already saved, not found) are distinguished; when the new-releases provider raises (`ProviderRaised`) nothing is sent and nothing changes; `user_data` and the dialogue state are untouched |

## Left out

- Transport: message texts, Markdown, emoji wording, the reply keyboard layout (`adjust(2)`, `resize_keyboard`) and the photo-to-text fallback. A book card is one `ShowBook` action whether it went out as a photo or as text. Failed edits and deletes are logged and swallowed, so they change no state and are not modelled.
- Transport failures outside the handlers' `try` blocks (for example the "searching" message at line 288) would abort a handler midway. The model assumes the transport does not raise there.
- Bot and dispatcher setup, environment loading, logging and the polling loop (lines 21-32, 477-483).
- The stub providers `get_new_books_api` and `search_books_api` (lines 118-154). They are placeholders, so provider output is an arbitrary parameter.
- `cmd_start`, `saved_books_handler` and `settings_handler` only display text; their one state effect is `init_user`, which is modelled (`InitUser`).
- `format_book_info` and the saved-books listing: display strings only.
- Concurrency: the handlers are async, and two events for one user could interleave at an `await`. The model runs each handler as one atomic step.
- The `/start@botname` and `/skip@botname` command forms: `IsCommand` matches only a bare first word.
- Text-less messages (photos, stickers) reaching the title or author step would fail on `message.text.strip()`. The model takes text messages only.
- Session.SessionStore.ProcessAuthor: requires a stored title. `/skip` from a user who never entered one raises `KeyError` (line 286), and that crash is not modelled. `Valid()` shows that a user in the author step always has a title.
- Session.SessionStore.ToggleGenre, Session.SessionStore.GenresDone, Session.SessionStore.SaveBook: require the user to be known. These handlers do not call `init_user`, and an unknown user (for example after a restart) would raise `KeyError`.
- Session.SessionStore.SaveBook: book ids are strings. A provider giving numeric ids would never match the decoded string.
- Session.SessionStore.ProcessAuthor, Session.SessionStore.NewBooks: the reply logs assume every card send succeeds. A card send that fails inside the handlers' `try` (for example Markdown that Telegram cannot parse, which also sinks the plain-text fallback at lines 228/314 or the direct send at 234/320) ends the card loop at the outer `except` (lines 240/326). The source then sends the error notice, and in the author step the closing notice. The model lists one card per result instead. The state is unaffected either way, since the author step stores the results (line 298) before sending any card.
- Chats: aiogram's FSM keys the dialogue state by chat and user, and `toggle_genre` / `genres_done` edit or delete the tracked checklist in the chat of the pressed button (lines 416, 436). The model assumes one private chat per user, so `fsm` is keyed by user and `EditMessage` / `DeleteMessage` carry no chat. Group chats, where one user can hold a different state per chat, are not modelled.
- Persistence: all state lives in memory and is lost on restart, as in the source.

# Question-and-answer application: a Dafny model of its route handlers

The application lets registered users ask questions of designated experts.
Experts answer them, and answered questions appear on a public feed. An admin
lists the users and promotes users to experts. All of this lives in the Flask
handlers of `app.py`. Below the Flask and MongoDB calls, each handler is a
small operation over three things:

- the **users** table: id, name, password digest, `expert` flag, `admin` flag;
- the **questions** table: id, question text, answer text (`""` means
  unanswered), asker id, expert id;
- the **session**: the name of the logged-in user, if any.

The model has these parts:

- `QAData` (`qa_data.dfy`) holds the records and the document-store queries.
  `find_one` becomes a first-match search (`FirstIndex`, with
  `FindUserByName`, `FindUserById`, `FindQuestion` on top). `find` becomes an
  order-keeping filter (`Filter`, used by `AnsweredQuestions`, `PendingFor`,
  `Experts`). `update_one` becomes a change to the first matching
  record (`GrantAdmin`, `SetExpert`, `SetAnswer`).
- `QALemmas` (`qa_lemmas.dfy`) proves what the handlers rely on. On tables
  whose ids are unique, `update_one` changes exactly the record with that id.
  Promotion is idempotent. The filters distribute over concatenation, so they
  keep store order. Registering "admin" sets the flag on the new record. A
  non-empty answer moves a question from its expert's pending list to the feed.
- `QAStore` (`qa_store.dfy`) has a class `Store` with fields `users`,
  `questions`, `session` and `nextId`, and one method per route. The feed
  and the unanswered page build their lines with the loops `FeedLines` and
  `PendingLines`, one user lookup per question. The
  invariant `Valid()` says that names are unique and that ids are unique and
  below `nextId`. Every method that writes keeps that invariant. Each method
  states its `Response` (a redirect, or a rendered page with an optional error)
  and the whole new state of the store. Every authorisation redirect leaves the
  store unchanged.
- `QAScenario` (`qa_scenario.dfy`) is a client of `Store`. It follows one
  history from an empty store and verifies each step from the method contracts
  alone: admin, alice and bob
  register; bob is refused the admin and expert pages; a second "alice" is
  refused; admin promotes bob; alice asks bob; the feed is empty; bob sees one
  pending question and answers it; the feed then shows the question as asked by
  alice of bob, and bob's pending list is empty.

Flags are the strings `"0"` and `"1"`. The handlers test a flag with
`== '0'`, so any other value counts as set (`IsSet`). The one exception is the
expert list on the ask form, which asks for `expert == '1'` exactly
(`Experts`). Password hashing is two functions that the store is constructed
with: `hashPassword(salt, password)` and `checkPassword(digest, password)`.
Neither is interpreted. The salt is a parameter of `Register`, because the
hashing library draws it at random.

The model follows the code as written, including these gaps:

- `Answer` lets any expert overwrite the answer of any question. It does not
  compare the question's `expert_id` with the current user (`app.py:174-177`).
- `Ask` stores the submitted expert id without checking that it names a user,
  let alone an expert (`app.py:131`).
- `ShowQuestion` renders with no question when the id matches none; there is
  no not-found response (`app.py:187-188`).
- The feed shows "Unknown" for an id that matches no user (`app.py:36-37`).
- The unanswered list filters on the current expert's id (`app.py:149-151`).

## Model

| member | source | states |
|---|---|---|
| `QAData.FirstIndex` | app.py:48 | the position of the first record that matches, or the table's length when none does; no earlier record matches |
| `QAData.Filter` | app.py:27 | holds exactly the records that match |
| `QAData.FindUserByName` | app.py:74-76 | none exactly when no user has the name; otherwise a stored user with that name, the only one when names are unique |
| `QAData.FindUserById` | app.py:31-32 | none exactly when no user has the id; otherwise a stored user with that id, the only one when ids are unique |
| `QAData.FindQuestion` | app.py:187 | none exactly when no question has the id; otherwise a stored question with that id, the only one when ids are unique |
| `QAData.CurrentUser` | app.py:11-19 | a user exactly when the session holds a name that some user has, and then a stored user with that name |
| `QAStore.Store.Current` | app.py:11-19 | the current user of this store: `CurrentUser` over its users table and session |
| `QAData.DisplayName` | app.py:36-37 | an id that matches no user shows as "Unknown"; an id that some user has shows as the name of a user with that id, and with unique ids as its user's name |
| `QAData.FeedEntryOf` | app.py:33-38 | a feed line carries the question's id and text, and the asker and expert each as the name of a user with that id, or "Unknown" for an id that matches no user |
| `QAData.PendingEntryOf` | app.py:156-160 | a pending line carries the question's id and text, and the asker as the name of a user with that id, or "Unknown" for an id that matches no user |
| `QAData.AnsweredQuestions` | app.py:27 | holds exactly the questions with non-empty answer text |
| `QAData.PendingFor` | app.py:149-151 | holds exactly the questions with empty answer text addressed to the given expert id |
| `QAData.Experts` | app.py:136 | holds exactly the users whose expert flag is "1" |
| `QAData.GrantAdmin` | app.py:59-60 | only the first user with the name gets admin "1"; every other record is unchanged |
| `QAData.SetExpert` | app.py:113 | only the first user with the id gets expert "1"; every other record is unchanged |
| `QAData.SetAnswer` | app.py:176 | only the first question with the id gets the new answer text; every other record is unchanged |
| `QALemmas.SetExpertExact` | app.py:113 | with unique ids, promotion sets expert "1" on the user with the id and changes no other field and no other user |
| `QALemmas.SetAnswerExact` | app.py:176 | with unique ids, an answer overwrites the answer text of the question with the id and changes nothing else |
| `QALemmas.SetExpertIdempotent` | app.py:113 | promoting the same id twice gives the same users table as promoting it once |
| `QALemmas.SetExpertKeepsKeys` | app.py:113 | promotion keeps every id and name, so unique names and unique ids stay unique |
| `QALemmas.SetAnswerKeepsIds` | app.py:176 | answering keeps question ids unique |
| `QALemmas.AppendedUserFound` | app.py:53-58 | a user appended under a name nobody had is what a lookup by that name returns |
| `QALemmas.GrantAdminOnAppended` | app.py:53-60 | when no earlier user has the name, the admin update after the insert reaches the new record and only it |
| `QALemmas.FilterConcat` | app.py:27 | filtering distributes over concatenation, so a query result keeps store order |
| `QALemmas.AnsweredConcat` | app.py:27 | the feed filter distributes over concatenation, so the feed keeps store order |
| `QALemmas.PendingConcat` | app.py:149-151 | the pending filter distributes over concatenation, so the pending list keeps store order |
| `QALemmas.AnswerLeavesPending` | app.py:174-177 | after a non-empty answer, the question is on no expert's pending list |
| `QALemmas.AnswerReachesFeed` | app.py:174-177 | after a non-empty answer, the question with its new answer is on the feed |
| `QAStore.FeedLines` | app.py:29-38 | the loop over the answered questions builds one feed line per question, in order, each the question's `FeedEntryOf` |
| `QAStore.PendingLines` | app.py:153-160 | the loop over the pending questions builds one pending line per question, in order, each the question's `PendingEntryOf` |
| `QAStore.Store.Index` | app.py:21-40 | the feed has one entry per answered question, in store order, with asker and expert shown by name or "Unknown" |
| `QAStore.Store.Register` | app.py:42-64 | a taken name renders "User already registered" and changes nothing; a new name appends exactly one user with a fresh id, the digest of the password, expert "0" and admin "1" exactly when the name is "admin", and sets the session to the name |
| `QAStore.Store.Login` | app.py:66-84 | an unknown name renders "User not found" and a failed password check "Invalid password", both keeping the session; otherwise the session becomes the name; neither table changes |
| `QAStore.Store.Logout` | app.py:86-90 | the session is cleared and the tables are unchanged |
| `QAStore.Store.Users` | app.py:92-102 | no current user redirects to login; admin "0" redirects to the feed; an admin gets the whole users table |
| `QAStore.Store.Promote` | app.py:104-114 | login and admin redirects leave the store unchanged; an admin sets expert "1" on the user with the id, changing no other field, user, question or session |
| `QAStore.Store.Ask` | app.py:116-137 | no current user redirects to login and changes nothing; empty text redirects back to the form and changes nothing; otherwise exactly one question is appended with a fresh id, empty answer, the current user as asker and the submitted id as expert |
| `QAStore.Store.Unanswered` | app.py:139-162 | login and expert redirects as in Users; an expert gets one entry per question with empty answer addressed to them, in store order, with the asker by name or "Unknown" |
| `QAStore.Store.Answer` | app.py:164-180 | login and expert redirects leave the store unchanged; any expert's POST overwrites the answer text of the question with the id and nothing else, with no check of that question's expert id |
| `QAStore.Store.ShowQuestion` | app.py:182-188 | anyone gets the question with the id, or no question when none has it |

## Left out

- The connection lifecycle in `database_helpers.py` is not modelled: opening one MongoDB client per request, loading `.env`, and closing it at teardown.
- Flask itself is not modelled: routing, `render_template`, `url_for`, the random `SECRET_KEY`, and `app.run` with its port (app.py:7-9, 190-192). A response is the `Response` datatype. The current user that each template receives for display is not part of it.
- The pbkdf2:sha256 hashing is a foreign library. It becomes the two uninterpreted functions the store is given, and its random salt becomes a parameter.
- Ids are `nat`s that the store issues from one counter. It stands in for `ObjectId`. Route parameters are ids that have already been parsed. `ObjectId(...)` raising on a malformed id string is not modelled.
- A form field missing from a POST makes Flask answer 400. That case is not modelled: every form field is a parameter.
- Concurrent requests are not modelled, including two answers to one question where the last write wins. The model is sequential.
- A session cookie that outlives the process, or that names a user missing from the store, is not modelled separately. `get_current_user` returns no user in that case, and so does `CurrentUser`.

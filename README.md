# Trivia API: request-handling model

This project models the request handlers of a small trivia-quiz HTTP API, `backend/flaskr/__init__.py`.
The API serves two tables, `Question` (`id`, `question`, `answer`, `category`, `difficulty`) and
`Category` (`id`, `type`). It has seven routes:

- `GET /categories`
- `GET /questions?page=N`
- `DELETE /questions/{id}`
- `POST /questions`, which searches or creates
- `GET /categories/{id}/questions?page=N`
- `POST /quizzes`
- error handlers for 400, 404 and 422

The database is replaced by an in-memory store. Each handler's decisions are stated as contracts:

- which rows it selects;
- when it answers 400, 404 or 422 instead of success;
- what the counts in its response mean;
- how the table changes.

Layout, one module per file:

- `base.dfy` (`Base`): `Option`, `Result`, and `Filter`, which stands for a query's WHERE clause. It also proves that over distinct rows the filter's length is the number of matching rows.
- `numerals.dfy` (`Numerals`): Python's `int(text)` and `str(n)` for decimal integers, with the round trip between them.
- `json.dfy` (`Json`): decoded request bodies as a `Json` datatype, plus the Python operations the handlers apply to them: truthiness, `dict.get`, `int(...)` and `str(...)`/`repr(...)`.
- `text.dfy` (`Text`): the search's `ILIKE '%term%'`, read as a case-insensitive substring test. `OccursAt` relates it to the positional definition of "substring".
- `pagination.dfy` (`Pagination`): `paginate_questions`. It reads the page argument as `request.args.get("page", 1, type=int)` does, then takes Python's slice `rows[(page-1)*10 : page*10]`. Python slicing is modelled exactly, negative bounds included.
- `trivia.dfy` (`Trivia`): the rows, the success payloads, the failures, and the error envelope.
- `routes.dfy` (`Routes`): the read-only routes and the quiz, over the rows a query loads. `GET /categories` and `GET /categories/{id}/questions` are functions. `GET /questions` is a method, because its `formatted_categories` loop is a method with a loop (`CategoryLabels`). The quiz is a method, because its random pick is a nondeterministic choice.
- `store.dfy` (`Store`): the class `QuestionStore`. Its fields are the question table (kept in id order), the category table, and the serial counter that hands out ids. Its methods are `DeleteQuestion` and `CreateOrSearchQuestions`, which change the question table.

Modelling decisions:

- **Page numbers.** Page numbers are not restricted to `page >= 1`; Python slicing is modelled as written.
  - Page 0 is always empty, so it gives 404.
  - A negative page `-p` is the ten-row window that ends `10*p` rows before the end of the list. It is non-empty whenever there are more than `10*p` rows (`Pagination.NegativePage`), so it does not by itself give 404; `GET /questions` still answers 404 when there are no categories.
- **Truthiness.** The create check uses Python truthiness (`Json.Truthy`). So `difficulty: 0`, `category: 0` and `""` are rejected with 400, as are missing fields.
- **Failures the app does not handle.** Some errors are not handled by the app; Flask then answers 500 with its own page. The model names this outcome `ServerError`, and `ErrorEnvelope` gives it no JSON body. These cases are:
  - a truthy body that is not a JSON object (`body.get` raises);
  - a `quiz_category` that is not an object with an `int`-convertible `id`;
  - a `previous_questions` that is not a list of integers (see "## Left out" for the entries the database would accept);
  - a non-empty category page whose category id has no `Category` row (`[0]` raises IndexError).
- **Quiz category shift.** The quiz adds 1 to the client's category id before filtering, and the model keeps that shift. The `str(...)` comparison in the query is left to the database's coercion, so the model compares integers.
- **Quiz pick.** The quiz's `random.choice` is a nondeterministic pick (`:|`) from the candidate list. Only membership is proved.
- **Storage failures.** A delete or insert that fails is the boolean input `deleteFails` or `insertFails`. Either one gives 422 and leaves the store unchanged.
- **Ids.** Fresh ids come from the counter `nextId`, as a serial column hands them out. The ghost set `issued` records every id ever handed out, so "never used before" can be stated.
- **Row order.** `order_by(id)` is the row sequence itself. The read routes that sort (`GET /categories`, `GET /questions`, `GET /categories/{id}/questions`) require their tables in strictly ascending id order, which is what `order_by(id)` delivers and what the store keeps (`QuestionStore.Valid`). They promise the page in id order.

Three behaviours of the code that the model keeps as written:

- On `GET /categories/{id}/questions`, a non-empty page whose category id has no `Category` row makes the `[0]` lookup raise `IndexError`. The model answers `ServerError`, not 404.
- The quiz adds 1 to the client's category id before filtering (backend/flaskr/__init__.py:277). The model applies the same shift.
- The page argument is any integer `int` accepts. Page 0 and negative pages go through Python's slice, and the model does the same.

## Model

| member | source | states |
|---|---|---|
| `Base.Filter` | backend/flaskr/__init__.py:224-230 | the rows a WHERE clause keeps: a row is in the result iff it is in the table and satisfies the condition; never more rows than the table |
| `Base.FilterCount` | backend/flaskr/__init__.py:244 | over rows without duplicates the filtered list has no duplicates and its length is the number of matching rows, so `len(questions)` counts matches |
| `Numerals.ParseInt` | backend/flaskr/__init__.py:37 | `int(text)` succeeds exactly on a non-empty run of digits or a sign followed by a non-empty run of digits, and every unsigned run parses to a non-negative value |
| `Numerals.ParseIntRoundTrip` | backend/flaskr/__init__.py:277-278 | `int(str(n)) == n` for every integer: the decimal text the quiz builds reads back as the same id |
| `Json.Get` | backend/flaskr/__init__.py:169-173 | `body.get(key, None)`: None when the key is absent; otherwise the value of the last pair with that key |
| `Json.PyInt` | backend/flaskr/__init__.py:277 | `int(v)` keeps integers and fails (TypeError) on null, lists and objects |
| `Json.PyIntOfDecimalString` | backend/flaskr/__init__.py:277 | `int` of the decimal text of n is n, so a client sending the id as a string gets the same category |
| `Json.PyStr` | backend/flaskr/__init__.py:175-177 | `str(v)` is empty only for the empty string, so a truthy search term never turns the pattern into `'%%'`, which would match every row |
| `Text.OccursAt` | backend/flaskr/__init__.py:176-178 | the substring test behind `ILIKE '%term%'` holds iff some window of the text, of the term's length, equals the term |
| `Pagination.PageNumber` | backend/flaskr/__init__.py:37 | the page is 1 when the argument is absent or `int` rejects it |
| `Pagination.PageNumberOfDecimal` | backend/flaskr/__init__.py:37 | an argument holding the decimal text of any integer n, as `str(n)` writes it, selects page n |
| `Pagination.Paginate` | backend/flaskr/__init__.py:36-44 | at most 10 rows; for page >= 1 exactly `rows[(page-1)*10 .. min(page*10, total)]`, of length `min(10, total-(page-1)*10)` when non-empty, and empty exactly when `(page-1)*10 >= total`; page 0 is empty |
| `Pagination.NegativePage` | backend/flaskr/__init__.py:37-42 | a negative page is Python's tail window: page -p is the ten rows ending 10*p before the end, non-empty iff there are more than 10*p rows |
| `Pagination.PagesCover` | backend/flaskr/__init__.py:38-42 | pages 1..k read in turn are exactly the first 10*k rows, in order: no row skipped or repeated |
| `Pagination.RowOnItsPage` | backend/flaskr/__init__.py:38-42 | the row at index i is on page i/10 + 1, at position i mod 10 |
| `Trivia.FilterKeepsIdOrder` | backend/flaskr/__init__.py:224-230 | filtering rows that are in id order keeps them in id order |
| `Trivia.HandledFailure` | backend/flaskr/__init__.py:303-331 | exactly 400, 404 and 422 have a registered handler, and the handler for a code is the failure with that code |
| `Trivia.ErrorEnvelope` | backend/flaskr/__init__.py:303-331 | 400, 404 and 422 (and only they) get a JSON body with `success: false`, `error` equal to the status code, and the message "bad request", "resource not found" or "unprocessable" respectively; an unhandled exception gets none |
| `Routes.RetrieveCategories` | backend/flaskr/__init__.py:51-65 | given the categories as `order_by(Category.id)` loads them: 404 iff the table is empty; otherwise the i-th entry is the `type` of the category with the i-th smallest id, one entry per category |
| `Routes.CategoryLabels` | backend/flaskr/__init__.py:95-99 | the loop builds one key per category id, and each key maps to the `type` of the last category with that id |
| `Routes.AscendingCategoriesLastWithId` | backend/flaskr/__init__.py:90-99 | with ids in ascending order, every category is the last one with its id, so its own `type` is the one kept |
| `Routes.RetrieveQuestions` | backend/flaskr/__init__.py:80-109 | given both tables as `order_by(id)` loads them: 404 iff the page is empty or there are no categories; otherwise the page slice of the questions, itself in id order, `totalQuestions` = count of ALL questions (not the page length), and `categories` maps exactly the category ids, each to its own type |
| `Routes.QuestionsInCategory` | backend/flaskr/__init__.py:224-230 | exactly the questions of that category; from rows in id order it keeps id order, and its length is the number of questions in the category |
| `Routes.FindCategory` | backend/flaskr/__init__.py:237 | a category with the requested id when one exists; none iff no category has that id |
| `Routes.RetrieveCategoryQuestions` | backend/flaskr/__init__.py:222-247 | given the questions as `order_by(Question.id)` loads them: 404 iff the page of that category's questions is empty; an unhandled error iff the page is non-empty but no category has that id; otherwise only questions of that category, paginated and in id order, `totalQuestions` = the number of questions in the category (not the page length), `currentCategory` = that category's type |
| `Routes.PageKeepsIdOrder` | backend/flaskr/__init__.py:36-44 | a page of rows in id order is in id order |
| `Routes.SearchQuestions` | backend/flaskr/__init__.py:175-185 | a question is in the result iff its text contains the term, ignoring case; the count equals the number of matching questions |
| `Routes.QuizCategory` | backend/flaskr/__init__.py:275-278 | a falsy `quiz_category` gives no category filter; a truthy one must be an object whose `id` converts with `int`, and the filter is that id plus one; anything else is an unhandled error |
| `Routes.PreviousIds` | backend/flaskr/__init__.py:279-280 | a falsy `previous_questions` gives no exclusion; a truthy list of integers excludes exactly those ids; anything else is an unhandled error |
| `Routes.ParseQuizRequest` | backend/flaskr/__init__.py:263-280 | 400 iff the body is falsy; accepted iff the body is a truthy object whose `quiz_category` and `previous_questions` are both usable as above, and then the filters are exactly the ones those two fields give; every other body is an unhandled error |
| `Routes.QuizCandidates` | backend/flaskr/__init__.py:273-282 | a question is a candidate iff it is in the category filter (when given) and not among the previous ids (when given) |
| `Routes.PlayQuiz` | backend/flaskr/__init__.py:261-295 | 400 (not 404) iff there are no candidates; otherwise the returned question is a candidate: never one of `previous_questions`, and its category is the client's id plus one |
| `Routes.QuizCategoryShift` | backend/flaskr/__init__.py:275-278 | a category id sent as the string "n" selects the questions of category n+1 |
| `Routes.VerbatimOccurrenceMatches` | backend/flaskr/__init__.py:176-178 | a text that contains the term, in any letter case, is matched by the search |
| `Routes.SearchFindsFixtureQuestion` | backend/test_flaskr.py:55-66 | searching "country" over the fixture's question 11 returns exactly that question |
| `Store.NewRow` | backend/flaskr/__init__.py:196-202 | the inserted row carries exactly the submitted question, answer, category and difficulty under the given id; no row when a value has the wrong type for its column |
| `Store.IndexOfId` | backend/flaskr/__init__.py:121 | the position of the row with that id, and none iff no row has it |
| `Store.RemoveAtIndex` | backend/flaskr/__init__.py:121-127 | removing one row keeps id order, shortens the table by one and removes that row's id and nothing else |
| `Store.QuestionStore.DeleteQuestion` | backend/flaskr/__init__.py:119-137 | 404 with the store unchanged when no question has the id; 422 with the store unchanged when the delete fails; otherwise exactly that row is removed, all others stay in order, and the response carries `questionID == id` |
| `Store.QuestionStore.CreateOrSearchQuestions` | backend/flaskr/__init__.py:160-212 | falsy body: 400; truthy `searchTerm`: the search results and their count, store unchanged, success even with no match; otherwise a falsy field: 400, store unchanged; an insert failure: 422, store unchanged; else exactly one row with the submitted values is appended under a fresh id above every existing id and never issued before, returned as `created` |

## Left out

- Flask app construction, route decorators, `jsonify`, the CORS setup and the `after_request` header injection (backend/flaskr/__init__.py:11-33). These are framework plumbing.
- `setup_db` and the `Question`/`Category` models. `models.py` is not part of this model; the tables are the store's fields.
- Primary-key assignment is modelled as a counter starting at 1, as a serial column behaves. Unlike a PostgreSQL sequence, which is not rolled back, the model's counter does not advance on a failed insert (422); ids are still fresh, but the model never skips one.
- HTTP status plumbing beyond the failure kinds. The success status (200) is not modelled.
- `jsonify` turns the integer keys of `categories` into strings; the model keeps them as integers.
- The constant `currentCategory: null` of the question list and the search results is not modelled.
- `print(sys.exc_info())` logging.
- Database failures on the read routes (which have no `try`) are not modelled. Only the delete and insert failures, which the code maps to 422, are modelled, as boolean inputs. In particular the integer columns are 32-bit SQL integers while the model's integers are unbounded: a quiz category `id` of 2147483647 makes `str(id + 1)` out of range when the query runs, which the code answers with a bare 500 and the model with 400 (no candidates).
- Routes.SearchQuestions: `ILIKE` treats `%`, `_` and `\` in the term as wildcards or escapes, because the term is interpolated unescaped. The model reads the term as plain text.
- Routes.SearchQuestions: case folding covers ASCII letters only. PostgreSQL's locale-aware folding of other letters is not modelled.
- Routes.SearchQuestions: the search query has no `ORDER BY`, so the model promises no order of the results. The model returns them in table order.
- Routes.PlayQuiz: `random.choice` is uniform, but the model proves only that the pick is a candidate. Uniformity is a probabilistic claim.
- Numerals.ParseInt: Python's `int` also accepts surrounding whitespace, `_` between digits and non-ASCII digits. The model rejects those, so for the page argument they fall back to page 1 as a rejected value would.
- JSON numbers with a fraction or exponent are not part of the `Json` datatype. So their truthiness and their `int()` truncation are not modelled.
- Store.NewRow: PostgreSQL converts some values to the column's type before storing them, such as a decimal string for an integer column or a number for a text column. The model treats any value of the wrong JSON type as an insert the database refuses (422). The integer columns are 32-bit SQL integers, so a `difficulty` or `category` outside that range is refused at insert (422) in the code; the model, with unbounded integers, answers `Created` unless `insertFails` is set.
- Routes.PreviousIds: PostgreSQL would also accept decimal-string ids in `previous_questions`, and a `null` entry makes `id NOT IN (NULL, ...)` keep no row, so the route answers 400. The model answers `ServerError` for any entry that is not an integer, decimal strings and nulls included.
- Routes.PreviousIds: a truthy non-list `previous_questions` (for example an object, whose keys SQLAlchemy might iterate) is modelled as `ServerError`.
- Json.PyStr: in `str()` of an object-valued search term, an object with a repeated key lists every pair. Python would show one pair per key.
- Json.PyStr: non-printable characters other than newline, carriage return and tab are not escaped as `repr` does.
- A request body that is missing or cannot be decoded is modelled as JSON `null`, which gives 400. Some Flask versions answer a wrong content type themselves (415).

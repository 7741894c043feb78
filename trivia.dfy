/** The two tables, the responses the routes send, and the error handlers. */
module Trivia {
  import opened Base

  /** A row of the `Question` table, as `Question.format()` renders it. */
  datatype Question = Question(id: int, question: string, answer: string, category: int, difficulty: int)

  /** A row of the `Category` table; `typeName` is the column `type`. */
  datatype Category = Category(id: int, typeName: string)

  /** The row order `order_by(Question.id)` produces: ids strictly ascending. */
  predicate QuestionIdsAscending(qs: seq<Question>) {
    forall i, j :: 0 <= i < j < |qs| ==> qs[i].id < qs[j].id
  }

  predicate CategoryIdsAscending(cs: seq<Category>) {
    forall i, j :: 0 <= i < j < |cs| ==> cs[i].id < cs[j].id
  }

  lemma AscendingDistinct(qs: seq<Question>)
    requires QuestionIdsAscending(qs)
    ensures Distinct(qs)
  {
  }

  /** A filter over rows in id order leaves them in id order. */
  lemma {:induction false} FilterKeepsIdOrder(qs: seq<Question>, p: Question -> bool)
    requires QuestionIdsAscending(qs)
    ensures QuestionIdsAscending(Filter(qs, p))
  {
    if qs != [] {
      var rest := qs[1..];
      FilterKeepsIdOrder(rest, p);
      var f := Filter(rest, p);
      forall k | 0 <= k < |f| ensures qs[0].id < f[k].id {
        assert f[k] in rest;
        var m :| 0 <= m < |rest| && rest[m] == f[k];
        assert rest[m] == qs[m + 1];
      }
      if p(qs[0]) {
        var r := Filter(qs, p);
        assert r == [qs[0]] + f;
        forall i, j | 0 <= i < j < |r| ensures r[i].id < r[j].id {
          assert r[j] == f[j - 1];
          if i > 0 {
            assert r[i] == f[i - 1];
          }
        }
      }
    }
  }

  /** The failures a route can end in: the three the app aborts with, and an exception the
      handler does not catch, which the framework turns into a bare 500. */
  datatype Failure = BadRequest | NotFound | Unprocessable | ServerError

  /** The success bodies, one per route. The constant `currentCategory: null` of the question
      list and the search results is left implicit. */
  datatype Payload =
    | CategoryList(categories: seq<string>)
    | QuestionPage(questions: seq<Question>, totalQuestions: nat, categoryLabels: map<int, string>)
    | Deleted(questionId: int)
    | SearchResults(questions: seq<Question>, totalQuestions: nat)
    | Created(created: int)
    | CategoryPage(questions: seq<Question>, totalQuestions: nat, currentCategory: string)
    | QuizQuestion(question: Question)

  datatype Response = Success(payload: Payload) | Failed(failure: Failure)

  /** The JSON body of an error response: `{success, error, message}`. */
  datatype ErrorBody = ErrorBody(success: bool, error: int, message: string)

  function StatusCode(f: Failure): int {
    match f
    case BadRequest => 400
    case NotFound => 404
    case Unprocessable => 422
    case ServerError => 500
  }

  /** The handler registered for a status code, if any: 400, 404 and 422 have one. */
  function HandledFailure(code: int): (f: Option<Failure>)
    ensures f.Some? <==> code == 400 || code == 404 || code == 422
    ensures f.Some? ==> StatusCode(f.value) == code
  {
    if code == 400 then Some(BadRequest)
    else if code == 404 then Some(NotFound)
    else if code == 422 then Some(Unprocessable)
    else None
  }

  /** The body the registered error handler sends for a failure; a ServerError has no handler of
      the app's own. Every envelope says `success: false`, carries the status code that
      selected its handler, and the message that handler writes. */
  function ErrorEnvelope(f: Failure): (r: Option<ErrorBody>)
    ensures r.Some? <==> HandledFailure(StatusCode(f)) == Some(f)
    ensures r.Some? ==> !r.value.success && r.value.error == StatusCode(f)
    ensures f == BadRequest ==> r.Some? && r.value.message == "bad request"
    ensures f == NotFound ==> r.Some? && r.value.message == "resource not found"
    ensures f == Unprocessable ==> r.Some? && r.value.message == "unprocessable"
  {
    match f
    case BadRequest => Some(ErrorBody(false, 400, "bad request"))
    case NotFound => Some(ErrorBody(false, 404, "resource not found"))
    case Unprocessable => Some(ErrorBody(false, 422, "unprocessable"))
    case ServerError => None
  }
}

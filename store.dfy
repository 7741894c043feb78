/** The two routes that change the question table, DELETE /questions/{id} and POST /questions,
    over an in-memory store that stands for the database. */
module Store {
  import opened Base
  import opened Json
  import opened Trivia
  import Routes

  /** The row a create request inserts under `id`, when the database accepts the values: text
      for `question` and `answer`, integers for `difficulty` and `category`. */
  function NewRow(id: int, body: Json): (r: Option<Question>)
    ensures r.Some? ==>
              r.value.id == id &&
              Field(body, "question") == JStr(r.value.question) &&
              Field(body, "answer") == JStr(r.value.answer) &&
              Field(body, "difficulty") == JInt(r.value.difficulty) &&
              Field(body, "category") == JInt(r.value.category)
    ensures r.None? ==>
              !Field(body, "question").JStr? || !Field(body, "answer").JStr? ||
              !Field(body, "difficulty").JInt? || !Field(body, "category").JInt?
  {
    var question, answer := Field(body, "question"), Field(body, "answer");
    var difficulty, category := Field(body, "difficulty"), Field(body, "category");
    if question.JStr? && answer.JStr? && difficulty.JInt? && category.JInt? then
      Some(Question(id, question.s, answer.s, category.n, difficulty.n))
    else None
  }

  /** The check before an insert: every one of the four fields is truthy, so an empty text, a
      zero difficulty and a zero category are all rejected. */
  predicate CreateFieldsTruthy(body: Json) {
    Truthy(Field(body, "question")) && Truthy(Field(body, "answer")) &&
    Truthy(Field(body, "difficulty")) && Truthy(Field(body, "category"))
  }

  /** Where a row with that id sits, if there is one. */
  function IndexOfId(qs: seq<Question>, id: int): (r: Option<nat>)
    ensures r.Some? ==> r.value < |qs| && qs[r.value].id == id
    ensures r.None? <==> forall q :: q in qs ==> q.id != id
  {
    if qs == [] then None
    else if qs[0].id == id then Some(0)
    else match IndexOfId(qs[1..], id)
      case None => None
      case Some(i) => Some(i + 1)
  }

  /** Removing the row at index `i` from rows in id order leaves them in id order, and removes
      that row's id and nothing else. */
  lemma {:induction false} RemoveAtIndex(qs: seq<Question>, i: nat)
    requires QuestionIdsAscending(qs) && i < |qs|
    ensures var r := qs[..i] + qs[i + 1..];
            QuestionIdsAscending(r) && |r| == |qs| - 1 &&
            forall q :: q in r <==> q in qs && q.id != qs[i].id
  {
    var r := qs[..i] + qs[i + 1..];
    forall a, b | 0 <= a < b < |r| ensures r[a].id < r[b].id {
      var a' := if a < i then a else a + 1;
      var b' := if b < i then b else b + 1;
      assert r[a] == qs[a'] && r[b] == qs[b'];
    }
    forall q ensures q in r <==> q in qs && q.id != qs[i].id {
      if q in r {
        var k :| 0 <= k < |r| && r[k] == q;
        var k' := if k < i then k else k + 1;
        assert r[k] == qs[k'];
      }
      if q in qs && q.id != qs[i].id {
        var k :| 0 <= k < |qs| && qs[k] == q;
        if k < i {
          assert r[k] == q;
        } else {
          assert r[k - 1] == q;
        }
      }
    }
  }

  /** The database: the question table in id order, the category table, and the serial counter
      that hands out question ids. `issued` records every id ever handed out. */
  class QuestionStore {
    var questions: seq<Question>
    var categories: seq<Category>
    var nextId: int
    ghost var issued: set<int>

    ghost predicate Valid()
      reads this
    {
      && QuestionIdsAscending(questions)
      && CategoryIdsAscending(categories)
      && 1 <= nextId
      && (forall q :: q in questions ==> q.id in issued)
      && (forall id :: id in issued ==> 1 <= id < nextId)
    }

    constructor (cats: seq<Category>)
      requires CategoryIdsAscending(cats)
      ensures Valid()
      ensures questions == [] && categories == cats && nextId == 1 && issued == {}
    {
      questions := [];
      categories := cats;
      nextId := 1;
      issued := {};
    }

    /** DELETE /questions/{id}: 404 with the table unchanged when no question has that id; 422 with
        the table unchanged when the delete fails; otherwise exactly that row is removed, every
        other row stays where it was, and the response echoes the id. */
    method DeleteQuestion(id: nat, deleteFails: bool) returns (r: Response)
      requires Valid()
      modifies this
      ensures Valid()
      ensures categories == old(categories) && nextId == old(nextId) && issued == old(issued)
      ensures (forall q :: q in old(questions) ==> q.id != id) ==>
                r == Failed(NotFound) && questions == old(questions)
      ensures (exists q :: q in old(questions) && q.id == id) && deleteFails ==>
                r == Failed(Unprocessable) && questions == old(questions)
      ensures (exists q :: q in old(questions) && q.id == id) && !deleteFails ==>
                r == Success(Deleted(id)) &&
                |questions| == |old(questions)| - 1 &&
                (exists i :: 0 <= i < |old(questions)| && old(questions)[i].id == id &&
                             questions == old(questions)[..i] + old(questions)[i + 1..]) &&
                forall q :: q in questions <==> q in old(questions) && q.id != id
    {
      match IndexOfId(questions, id)
      case None =>
        r := Failed(NotFound);
      case Some(i) =>
        if deleteFails {
          r := Failed(Unprocessable);
        } else {
          RemoveAtIndex(questions, i);
          questions := questions[..i] + questions[i + 1..];
          r := Success(Deleted(id));
        }
    }

    /** POST /questions. A falsy body is a 400; a body that is not an object makes `body.get`
        raise (a bare 500). A truthy `searchTerm` answers with every question whose text contains
        it, ignoring case, and their number, changing nothing, even when nothing matches.
        Otherwise the four fields must all be truthy (400 if not); an insert the database refuses
        is a 422 with the table unchanged; a successful insert appends exactly one row with the
        submitted values under a fresh id, above every id in the table and never handed out
        before, and answers with that id. */
    method CreateOrSearchQuestions(body: Json, insertFails: bool) returns (r: Response)
      requires Valid()
      modifies this
      ensures Valid()
      ensures categories == old(categories)
      ensures !Truthy(body) ==>
                r == Failed(BadRequest) && questions == old(questions) && nextId == old(nextId) &&
                issued == old(issued)
      ensures Truthy(body) && !body.JObject? ==>
                r == Failed(ServerError) && questions == old(questions) && nextId == old(nextId) &&
                issued == old(issued)
      ensures Truthy(body) && body.JObject? && Truthy(Field(body, "searchTerm")) ==>
                var found := Routes.SearchQuestions(old(questions), PyStr(Field(body, "searchTerm")));
                r == Success(SearchResults(found, |found|)) &&
                questions == old(questions) && nextId == old(nextId) && issued == old(issued)
      ensures Truthy(body) && body.JObject? && !Truthy(Field(body, "searchTerm")) &&
              !CreateFieldsTruthy(body) ==>
                r == Failed(BadRequest) && questions == old(questions) && nextId == old(nextId) &&
                issued == old(issued)
      ensures Truthy(body) && body.JObject? && !Truthy(Field(body, "searchTerm")) &&
              CreateFieldsTruthy(body) && (insertFails || NewRow(old(nextId), body).None?) ==>
                r == Failed(Unprocessable) && questions == old(questions) && nextId == old(nextId) &&
                issued == old(issued)
      ensures Truthy(body) && body.JObject? && !Truthy(Field(body, "searchTerm")) &&
              CreateFieldsTruthy(body) && !insertFails && NewRow(old(nextId), body).Some? ==>
                r == Success(Created(old(nextId))) &&
                questions == old(questions) + [NewRow(old(nextId), body).value] &&
                old(nextId) !in old(issued) &&
                (forall q :: q in old(questions) ==> q.id < old(nextId)) &&
                issued == old(issued) + {old(nextId)}
    {
      if !Truthy(body) {
        return Failed(BadRequest);
      }
      if !body.JObject? {
        return Failed(ServerError);
      }
      var searchTerm := Field(body, "searchTerm");
      if Truthy(searchTerm) {
        var found := Routes.SearchQuestions(questions, PyStr(searchTerm));
        return Success(SearchResults(found, |found|));
      }
      if !CreateFieldsTruthy(body) {
        return Failed(BadRequest);
      }
      var row := NewRow(nextId, body);
      if insertFails || row.None? {
        return Failed(Unprocessable);
      }
      var created := nextId;
      questions := questions + [row.value];
      issued := issued + {created};
      nextId := nextId + 1;
      r := Success(Created(created));
    }
  }
}

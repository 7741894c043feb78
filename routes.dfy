/** The routes that read the tables: the category list, the question list, the questions of one
    category, the search branch of POST /questions and the quiz. Each takes the rows a query
    would load; a table is passed in id order, which `order_by(id)` would produce. */
module Routes {
  import opened Base
  import opened Json
  import opened Text
  import opened Pagination
  import opened Trivia
  import Numerals

  /** GET /categories: the `type` of every category in id order, or 404 when the table is empty.
      `cats` is the table as `order_by(Category.id)` loads it. */
  function RetrieveCategories(cats: seq<Category>): (r: Response)
    requires CategoryIdsAscending(cats)
    ensures r.Failed? <==> cats == []
    ensures r.Failed? ==> r.failure == NotFound
    ensures r.Success? ==>
              r.payload.CategoryList? && |r.payload.categories| == |cats| &&
              forall i :: 0 <= i < |cats| ==> r.payload.categories[i] == cats[i].typeName
  {
    if cats == [] then Failed(NotFound)
    else Success(CategoryList(seq(|cats|, i requires 0 <= i < |cats| => cats[i].typeName)))
  }

  /** No category after index `i` and before index `k` has the id of category `i`. */
  predicate LastWithIdBefore(cats: seq<Category>, i: int, k: int)
    requires 0 <= i < |cats| && k <= |cats|
  {
    forall j :: i < j < k ==> cats[j].id != cats[i].id
  }

  /** The `formatted_categories` loop of GET /questions: one key per category id, and each key
      holds the `type` of the last category with that id (of the only one, when ids are unique). */
  method CategoryLabels(cats: seq<Category>) returns (labels: map<int, string>)
    ensures forall id :: id in labels <==> exists i :: 0 <= i < |cats| && cats[i].id == id
    ensures forall i :: 0 <= i < |cats| && LastWithIdBefore(cats, i, |cats|) ==>
                          cats[i].id in labels && labels[cats[i].id] == cats[i].typeName
  {
    labels := map[];
    var k := 0;
    while k < |cats|
      invariant 0 <= k <= |cats|
      invariant forall id :: id in labels <==> exists i :: 0 <= i < k && cats[i].id == id
      invariant forall i :: 0 <= i < k && LastWithIdBefore(cats, i, k) ==>
                              cats[i].id in labels && labels[cats[i].id] == cats[i].typeName
    {
      labels := labels[cats[k].id := cats[k].typeName];
      k := k + 1;
    }
  }

  /** With ids strictly ascending every category is the last with its id, so the label map sends
      each category's id to its own `type`. */
  lemma AscendingCategoriesLastWithId(cats: seq<Category>, i: int)
    requires CategoryIdsAscending(cats) && 0 <= i < |cats|
    ensures LastWithIdBefore(cats, i, |cats|)
  {
  }

  /** GET /questions?page=N: 404 when the page is empty or there are no categories; otherwise the
      page of questions in id order, the count of ALL questions, and the id-to-type map of the
      categories. Both tables arrive as `order_by(id)` loads them. */
  method RetrieveQuestions(qs: seq<Question>, cats: seq<Category>, pageArg: Option<string>)
    returns (r: Response)
    requires QuestionIdsAscending(qs) && CategoryIdsAscending(cats)
    ensures r.Failed? <==> Paginate(qs, PageNumber(pageArg)) == [] || cats == []
    ensures r.Failed? ==> r.failure == NotFound
    ensures r.Success? ==>
              r.payload.QuestionPage? &&
              r.payload.questions == Paginate(qs, PageNumber(pageArg)) &&
              r.payload.totalQuestions == |qs| &&
              QuestionIdsAscending(r.payload.questions)
    ensures r.Success? ==>
              forall id :: id in r.payload.categoryLabels <==>
                             exists i :: 0 <= i < |cats| && cats[i].id == id
    ensures r.Success? ==>
              forall c :: c in cats ==>
                            c.id in r.payload.categoryLabels &&
                            r.payload.categoryLabels[c.id] == c.typeName
  {
    var page := Paginate(qs, PageNumber(pageArg));
    if page == [] {
      return Failed(NotFound);
    }
    if cats == [] {
      return Failed(NotFound);
    }
    var labels := CategoryLabels(cats);
    PageKeepsIdOrder(qs, PageNumber(pageArg));
    forall c | c in cats
      ensures c.id in labels && labels[c.id] == c.typeName
    {
      var i :| 0 <= i < |cats| && cats[i] == c;
      AscendingCategoriesLastWithId(cats, i);
    }
    r := Success(QuestionPage(page, |qs|, labels));
  }

  /** The set of questions of one category. */
  ghost function CategoryMembers(qs: seq<Question>, categoryId: int): set<Question> {
    set q | q in qs && q.category == categoryId
  }

  /** The set of questions whose text contains the term, ignoring case. */
  ghost function SearchMatches(qs: seq<Question>, term: string): set<Question> {
    set q | q in qs && ContainsIgnoringCase(q.question, term)
  }

  /** `Question.query.filter(Question.category == id).order_by(Question.id).all()`: the rows of
      one category. From rows in id order it keeps them in id order, one entry per matching row. */
  function QuestionsInCategory(qs: seq<Question>, categoryId: int): (r: seq<Question>)
    ensures forall q :: q in r <==> q in qs && q.category == categoryId
    ensures QuestionIdsAscending(qs) ==>
              QuestionIdsAscending(r) && |r| == |CategoryMembers(qs, categoryId)|
  {
    var p := (q: Question) => q.category == categoryId;
    if QuestionIdsAscending(qs) then
      AscendingDistinct(qs);
      FilterCount(qs, p);
      FilterKeepsIdOrder(qs, p);
      assert Matching(qs, p) == CategoryMembers(qs, categoryId);
      Filter(qs, p)
    else
      Filter(qs, p)
  }

  /** `Category.query.filter(Category.id == id).all()`, of which the route takes the first. */
  function FindCategory(cats: seq<Category>, categoryId: int): (r: Option<Category>)
    ensures r.Some? ==> r.value in cats && r.value.id == categoryId
    ensures r.None? <==> forall c :: c in cats ==> c.id != categoryId
  {
    if cats == [] then None
    else if cats[0].id == categoryId then Some(cats[0])
    else FindCategory(cats[1..], categoryId)
  }

  /** GET /categories/{id}/questions?page=N: 404 when the page of that category's questions is
      empty; an uncaught IndexError (a bare 500) when the page is not empty but no category has
      that id; otherwise the page, the number of questions in the category and its `type`. The
      question table arrives as `order_by(Question.id)` loads it, so the page is in id order. */
  function RetrieveCategoryQuestions(qs: seq<Question>, cats: seq<Category>, categoryId: nat,
                                     pageArg: Option<string>): (r: Response)
    requires QuestionIdsAscending(qs)
    ensures r == Failed(NotFound) <==>
              Paginate(QuestionsInCategory(qs, categoryId), PageNumber(pageArg)) == []
    ensures r == Failed(ServerError) <==>
              Paginate(QuestionsInCategory(qs, categoryId), PageNumber(pageArg)) != [] &&
              forall c :: c in cats ==> c.id != categoryId
    ensures r.Failed? ==> r.failure == NotFound || r.failure == ServerError
    ensures r.Success? ==>
              r.payload.CategoryPage? &&
              r.payload.questions == Paginate(QuestionsInCategory(qs, categoryId), PageNumber(pageArg)) &&
              (forall q :: q in r.payload.questions ==> q in qs && q.category == categoryId) &&
              r.payload.totalQuestions == |CategoryMembers(qs, categoryId)| &&
              QuestionIdsAscending(r.payload.questions) &&
              exists c :: c in cats && c.id == categoryId && c.typeName == r.payload.currentCategory
  {
    var inCategory := QuestionsInCategory(qs, categoryId);
    var page := Paginate(inCategory, PageNumber(pageArg));
    PageKeepsIdOrder(inCategory, PageNumber(pageArg));
    if page == [] then Failed(NotFound)
    else
      match FindCategory(cats, categoryId)
      case None => Failed(ServerError)
      case Some(c) => Success(CategoryPage(page, |inCategory|, c.typeName))
  }

  /** A slice of rows in id order is in id order. */
  lemma PageKeepsIdOrder(qs: seq<Question>, page: int)
    requires QuestionIdsAscending(qs)
    ensures QuestionIdsAscending(Paginate(qs, page))
  {
    var r := Paginate(qs, page);
    forall i, j | 0 <= i < j < |r| ensures r[i].id < r[j].id {
      assert r[i] in qs && r[j] in qs;
      var lo := SliceBound((page - 1) * QuestionsPerPage, |qs|);
      assert r[i] == qs[lo + i] && r[j] == qs[lo + j];
    }
  }

  /** The search branch of POST /questions: the rows whose question text contains the term,
      ignoring case. The query has no ORDER BY, so only membership and count are promised. */
  function SearchQuestions(qs: seq<Question>, term: string): (r: seq<Question>)
    ensures forall q :: q in r <==> q in qs && ContainsIgnoringCase(q.question, term)
    ensures QuestionIdsAscending(qs) ==>
              |r| == |SearchMatches(qs, term)|
  {
    var p := (q: Question) => ContainsIgnoringCase(q.question, term);
    if QuestionIdsAscending(qs) then
      AscendingDistinct(qs);
      FilterCount(qs, p);
      assert Matching(qs, p) == SearchMatches(qs, term);
      Filter(qs, p)
    else
      Filter(qs, p)
  }

  /** The filters a quiz request selects: `category` is the shifted category id when
      `quiz_category` is truthy, `previous` the ids to skip when `previous_questions` is truthy. */
  datatype QuizFilter = QuizFilter(category: Option<int>, previous: Option<seq<int>>)

  /** `quiz_category["id"] = int(quiz_category["id"]) + 1` when `quiz_category` is truthy; the
      subscript or the `int` raises (a bare 500) when the value is not an object with a usable id. */
  function QuizCategory(v: Json): (r: Result<Option<int>, Failure>)
    ensures !Truthy(v) ==> r == Ok(None)
    ensures Truthy(v) && r.Ok? ==>
              v.JObject? && r.value.Some? && PyInt(Get(v.fields, "id")) == Some(r.value.value - 1)
    ensures r.Err? <==> Truthy(v) && (!v.JObject? || PyInt(Get(v.fields, "id")).None?)
    ensures r.Err? ==> r.error == ServerError
  {
    if !Truthy(v) then Ok(None)
    else if !v.JObject? then Err(ServerError)
    else
      match PyInt(Get(v.fields, "id"))
      case None => Err(ServerError)
      case Some(n) => Ok(Some(n + 1))
  }

  predicate AllInts(items: seq<Json>) {
    forall i :: 0 <= i < |items| ==> items[i].JInt?
  }

  /** `previous_questions` when truthy: the list of question ids to leave out. Anything else makes
      the query raise, which the route does not catch. */
  function PreviousIds(v: Json): (r: Result<Option<seq<int>>, Failure>)
    ensures !Truthy(v) ==> r == Ok(None)
    ensures Truthy(v) && r.Ok? ==>
              v.JList? && r.value.Some? &&
              forall n :: n in r.value.value <==> JInt(n) in v.items
    ensures r.Err? <==> Truthy(v) && !(v.JList? && AllInts(v.items))
    ensures r.Err? ==> r.error == ServerError
  {
    if !Truthy(v) then Ok(None)
    else if v.JList? && AllInts(v.items) then
      var ids := seq(|v.items|, i requires 0 <= i < |v.items| => v.items[i].n);
      assert forall n :: n in ids ==> JInt(n) in v.items by {
        forall n | n in ids ensures JInt(n) in v.items {
          var i :| 0 <= i < |ids| && ids[i] == n;
          assert v.items[i] == JInt(n);
        }
      }
      assert forall n :: JInt(n) in v.items ==> n in ids by {
        forall n | JInt(n) in v.items ensures n in ids {
          var i :| 0 <= i < |v.items| && v.items[i] == JInt(n);
          assert ids[i] == n;
        }
      }
      Ok(Some(ids))
    else Err(ServerError)
  }

  /** The body of POST /quizzes: 400 when it is missing or falsy; a bare 500 when it is not an
      object or one of its two fields cannot be used. */
  function ParseQuizRequest(body: Json): (r: Result<QuizFilter, Failure>)
    ensures r == Err(BadRequest) <==> !Truthy(body)
    ensures r.Err? ==> r.error == BadRequest || r.error == ServerError
    ensures r.Ok? <==>
              Truthy(body) && body.JObject? &&
              QuizCategory(Field(body, "quiz_category")).Ok? &&
              PreviousIds(Field(body, "previous_questions")).Ok?
    ensures r.Ok? ==>
              body.JObject? &&
              QuizCategory(Field(body, "quiz_category")) == Ok(r.value.category) &&
              PreviousIds(Field(body, "previous_questions")) == Ok(r.value.previous)
  {
    if !Truthy(body) then Err(BadRequest)
    else if !body.JObject? then Err(ServerError)
    else
      match QuizCategory(Field(body, "quiz_category"))
      case Err(e) => Err(e)
      case Ok(category) =>
        match PreviousIds(Field(body, "previous_questions"))
        case Err(e) => Err(e)
        case Ok(previous) => Ok(QuizFilter(category, previous))
  }

  /** A question passes the quiz filters: in the (shifted) category when one is given, and not
      among the previous questions when they are given. */
  predicate Admits(f: QuizFilter, q: Question) {
    (f.category.Some? ==> q.category == f.category.value) &&
    (f.previous.Some? ==> q.id !in f.previous.value)
  }

  /** `quiz_query.all()`: the questions that pass the quiz filters. */
  function QuizCandidates(qs: seq<Question>, f: QuizFilter): (r: seq<Question>)
    ensures forall q :: q in r <==> q in qs && Admits(f, q)
  {
    Filter(qs, q => Admits(f, q))
  }

  /** POST /quizzes: 400 when no question passes the filters (not 404); otherwise one of the
      candidates, picked at random. The returned question is never one of `previous_questions`,
      and with a `quiz_category` its category is the client's id plus one. */
  method PlayQuiz(qs: seq<Question>, body: Json) returns (r: Response)
    ensures ParseQuizRequest(body).Err? ==> r == Failed(ParseQuizRequest(body).error)
    ensures ParseQuizRequest(body).Ok? ==>
              var candidates := QuizCandidates(qs, ParseQuizRequest(body).value);
              (r.Failed? <==> candidates == []) &&
              (r.Failed? ==> r.failure == BadRequest) &&
              (r.Success? ==> r.payload.QuizQuestion? && r.payload.question in candidates)
    ensures r.Success? ==>
              r.payload.QuizQuestion? && r.payload.question in qs &&
              (Truthy(Field(body, "previous_questions")) ==>
                 JInt(r.payload.question.id) !in Field(body, "previous_questions").items) &&
              (Truthy(Field(body, "quiz_category")) ==>
                 PyInt(Get(Field(body, "quiz_category").fields, "id")) ==
                 Some(r.payload.question.category - 1))
  {
    match ParseQuizRequest(body)
    case Err(e) =>
      r := Failed(e);
    case Ok(f) =>
      var candidates := QuizCandidates(qs, f);
      if candidates == [] {
        r := Failed(BadRequest);
      } else {
        assert candidates[0] in candidates;
        var q :| q in candidates;
        r := Success(QuizQuestion(q));
      }
  }

  /** A quiz category whose id arrives as a decimal string, as the web client sends it, selects
      the questions of the NEXT category id: "0" selects category 1. */
  lemma QuizCategoryShift(qs: seq<Question>, n: nat)
    ensures var body := JObject([("quiz_category", JObject([("id", JStr(Numerals.IntToString(n)))]))]);
            ParseQuizRequest(body) == Ok(QuizFilter(Some(n + 1), None)) &&
            forall q :: q in QuizCandidates(qs, QuizFilter(Some(n + 1), None)) <==>
                          q in qs && q.category == n + 1
  {
    PyIntOfDecimalString(n);
  }

  /** A text that holds the term verbatim, in any letter case, is found by the search. */
  lemma VerbatimOccurrenceMatches(before: string, word: string, after: string, term: string)
    requires Lower(term) == Lower(word)
    ensures ContainsIgnoringCase(before + word + after, term)
  {
    var text := before + word + after;
    LowerConcat(before + word, after);
    LowerConcat(before, word);
    assert Lower(text)[|before|..|before| + |word|] == Lower(word);
    assert WindowAt(Lower(term), Lower(text), |before|);
    OccursAt(Lower(term), Lower(text));
  }

  /** The search for "country" (in either case) over a table holding the question the test
      fixture expects returns that question and a count of one. */
  lemma SearchFindsFixtureQuestion(term: string)
    requires term == "COUNTRY" || term == "country"
    ensures var q := Question(11, "Which " + "country" + " won the first ever soccer World Cup in 1930?",
                              "Uruguay", 6, 4);
            SearchQuestions([q], term) == [q]
  {
    var q := Question(11, "Which " + "country" + " won the first ever soccer World Cup in 1930?",
                      "Uruguay", 6, 4);
    assert Lower(term) == Lower("country");
    VerbatimOccurrenceMatches("Which ", "country", " won the first ever soccer World Cup in 1930?", term);
    var r := SearchQuestions([q], term);
    assert q in r;
    assert forall x :: x in r ==> x == q;
  }
}

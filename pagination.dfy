/** `paginate_questions`: the page number from the query string and the window of ten rows that
    Python's slice `rows[start:end]` takes. */
module Pagination {
  import opened Base
  import Numerals

  const QuestionsPerPage: nat := 10

  function Min(a: int, b: int): int {
    if a <= b then a else b
  }

  /** `request.args.get("page", 1, type=int)`: the query argument converted with `int`, or 1 when
      it is absent or `int` rejects it. */
  function PageNumber(arg: Option<string>): (page: int)
    ensures arg.None? ==> page == 1
    ensures arg.Some? && Numerals.ParseInt(arg.value).None? ==> page == 1
  {
    match arg
    case None => 1
    case Some(text) =>
      match Numerals.ParseInt(text)
      case Some(n) => n
      case None => 1
  }

  /** Any integer the argument spells in decimal, as `str(n)` writes it, is the page. */
  lemma PageNumberOfDecimal(n: int)
    ensures PageNumber(Some(Numerals.IntToString(n))) == n
  {
    Numerals.ParseIntRoundTrip(n);
  }

  /** How Python normalises one bound of a slice of a length-`n` list: a negative bound counts
      from the end, and the result is clamped to [0, n]. */
  function SliceBound(i: int, n: nat): nat {
    if i < 0 then (if i + n < 0 then 0 else i + n)
    else if i > n then n
    else i
  }

  /** Python's `s[i:j]`. */
  function PySlice<T>(s: seq<T>, i: int, j: int): seq<T> {
    var lo, hi := SliceBound(i, |s|), SliceBound(j, |s|);
    if lo < hi then s[lo..hi] else []
  }

  /** The rows `paginate_questions` returns for `page`: `rows[(page-1)*10 : page*10]`. For
      page >= 1 it is the window of rows from index (page-1)*10 on, cut at the end of the list,
      at most ten rows long, and full-length up to what is left. Page 0 is always empty. */
  function Paginate<T>(rows: seq<T>, page: int): (r: seq<T>)
    ensures |r| <= QuestionsPerPage
    ensures page >= 1 ==>
              var start := (page - 1) * QuestionsPerPage;
              r == rows[Min(start, |rows|)..Min(start + QuestionsPerPage, |rows|)]
    ensures page >= 1 && r != [] ==>
              |r| == Min(QuestionsPerPage, |rows| - (page - 1) * QuestionsPerPage)
    ensures page >= 1 ==> (r == [] <==> |rows| <= (page - 1) * QuestionsPerPage)
    ensures page == 0 ==> r == []
  {
    var start := (page - 1) * QuestionsPerPage;
    PySlice(rows, start, start + QuestionsPerPage)
  }

  /** A negative page is not rejected: Python counts both slice bounds from the end of the list,
      so page -p (p >= 1) is the ten-row window ending 10*p rows before the end, and it is
      non-empty exactly when the list holds more than 10*p rows. */
  lemma NegativePage<T>(rows: seq<T>, page: int)
    requires page < 0
    ensures var end := |rows| + page * QuestionsPerPage;
            Paginate(rows, page) == if end <= 0 then [] else rows[if end < 10 then 0 else end - 10..end]
    ensures Paginate(rows, page) != [] <==> |rows| > -page * QuestionsPerPage
  {
  }

  /** The first `k` pages read one after the other. */
  function Pages<T>(rows: seq<T>, k: nat): seq<T> {
    if k == 0 then [] else Pages(rows, k - 1) + Paginate(rows, k)
  }

  /** Pages 1..k together are exactly the first 10*k rows, in order: paging neither skips nor
      repeats a row. */
  lemma {:induction false} PagesCover<T>(rows: seq<T>, k: nat)
    ensures Pages(rows, k) == rows[..Min(k * QuestionsPerPage, |rows|)]
  {
    if k > 0 {
      PagesCover(rows, k - 1);
      var a := Min((k - 1) * QuestionsPerPage, |rows|);
      var b := Min(k * QuestionsPerPage, |rows|);
      assert rows[..b] == rows[..a] + rows[a..b];
    }
  }

  /** Every row is on exactly one page: the page of the row at index i is i / 10 + 1. */
  lemma RowOnItsPage<T>(rows: seq<T>, i: nat)
    requires i < |rows|
    ensures var page := i / QuestionsPerPage + 1;
            Paginate(rows, page)[i % QuestionsPerPage] == rows[i]
  {
  }
}

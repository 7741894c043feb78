/** Option and Result wrappers, and the row filter that stands for a SQL WHERE clause. */
module Base {

  datatype Option<+T> = None | Some(value: T)

  datatype Result<+T, +E> = Ok(value: T) | Err(error: E)

  /** No element occurs twice in `s`. */
  predicate Distinct<T(==)>(s: seq<T>) {
    forall i, j :: 0 <= i < j < |s| ==> s[i] != s[j]
  }

  /** The elements of `s` that satisfy `p`, kept in the order of `s`: a query's WHERE clause. */
  function Filter<T(==,!new)>(s: seq<T>, p: T -> bool): (r: seq<T>)
    ensures |r| <= |s|
    ensures forall x :: x in r <==> x in s && p(x)
  {
    if s == [] then []
    else if p(s[0]) then [s[0]] + Filter(s[1..], p)
    else Filter(s[1..], p)
  }

  /** The set of elements of `s` that satisfy `p`. */
  ghost function Matching<T>(s: seq<T>, p: T -> bool): set<T> {
    set x | x in s && p(x)
  }

  /** Dropping the first element keeps a sequence free of duplicates, and that element does not
      occur in the rest. */
  lemma DistinctTail<T>(s: seq<T>)
    requires s != [] && Distinct(s)
    ensures Distinct(s[1..]) && s[0] !in s[1..]
  {
    var rest := s[1..];
    forall i, j | 0 <= i < j < |rest| ensures rest[i] != rest[j] {
      assert rest[i] == s[i + 1] && rest[j] == s[j + 1];
    }
    forall k | 0 <= k < |rest| ensures rest[k] != s[0] {
      assert rest[k] == s[k + 1];
    }
  }

  /** Over rows without duplicates the filter yields each matching row once, so its length is the
      number of matching rows. */
  lemma {:induction false} FilterCount<T(!new)>(s: seq<T>, p: T -> bool)
    requires Distinct(s)
    ensures Distinct(Filter(s, p))
    ensures |Filter(s, p)| == |Matching(s, p)|
  {
    if s != [] {
      var rest := s[1..];
      DistinctTail(s);
      FilterCount(rest, p);
      var tail := Matching(rest, p);
      var matching := Matching(s, p);
      assert forall x :: x in s <==> x == s[0] || x in rest by {
        assert s == [s[0]] + rest;
      }
      if p(s[0]) {
        assert matching == {s[0]} + tail;
        var r := Filter(s, p);
        var f := Filter(rest, p);
        assert r == [s[0]] + f;
        forall i, j | 0 <= i < j < |r| ensures r[i] != r[j] {
          assert r[j] == f[j - 1];
          if i > 0 {
            assert r[i] == f[i - 1];
          } else {
            assert r[j] in f;
          }
        }
      } else {
        assert matching == tail;
      }
    }
  }
}

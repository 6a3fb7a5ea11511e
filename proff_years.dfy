/**
 * What the two Proff year lists share: the fetched years are put in display order, and a
 * new year is named after the count of the years already there.
 */
module ProffYears {
  import opened Wrappers
  import opened Strings
  import opened Sorting

  /** A JSMU paper; `None` is a missing field (the default papers have no id). */
  datatype Paper = Paper(id: Option<string>, name: Option<string>, kind: Option<string>, order: Option<int>)

  /** A JSMU year with its papers. */
  datatype JsmuYear = JsmuYear(id: Option<string>, name: Option<string>, order: Option<int>, papers: Option<seq<Paper>>)

  /** A subject of an other-university year. */
  datatype Subject = Subject(id: Option<string>, name: Option<string>, order: Option<int>)

  /** An other-university year with its subjects. */
  datatype OtherYear = OtherYear(id: Option<string>, name: Option<string>, order: Option<int>, subjects: Option<seq<Subject>>)

  /** The body of an other-university year update. */
  datatype OtherYearBody = OtherYearBody(name: Option<string>, subjects: seq<Subject>)

  /** The year being removed, if any (`deletingId`). */
  datatype Mark = NoMark | Deleting(yearId: Option<string>)

  /** `x._id` is truthy. */
  predicate HasId(id: Option<string>) {
    id.Some? && id.value != ""
  }

  /** `(y.order ?? 0)`: a year's sort key. */
  function OrderKey(order: Option<int>): (k: int)
    ensures order.Some? ==> k == order.value
    ensures order.None? ==> k == 0
  {
    order.GetOr(0)
  }

  /**
   * `normalizeYears`: missing or empty years give the empty list; otherwise the fetched
   * array itself is sorted in place by `key` (the year's order, or 0) and returned, so
   * the result is in key order and holds exactly the fetched years.
   */
  method NormalizeYears<T(==)>(years: Option<array<T>>, key: T -> int) returns (r: seq<T>)
    modifies if years.Some? then {years.value} else {}
    ensures years.None? ==> r == []
    ensures years.Some? ==> r == years.value[..]
    ensures years.Some? ==> NormalizedFrom(r, Some(old(years.value[..])), key)
  {
    if years.None? || years.value.Length == 0 {
      return [];
    }
    SortByKey(years.value, key);
    r := years.value[..];
  }

  /** The years a list response carries: none for a failed response or one without years. */
  function Fetched<T>(response: Outcome<Option<array<T>>>): (f: Option<seq<T>>)
    reads if response.Ok? && response.data.Some? then {response.data.value} else {}
    ensures f.Some? <==> response.Ok? && response.data.Some?
  {
    if response.Ok? && response.data.Some? then Some(response.data.value[..]) else None
  }

  /** `r` is what the list shows after fetching `fetched`: nothing, or those years in key order. */
  predicate NormalizedFrom<T(==)>(r: seq<T>, fetched: Option<seq<T>>, key: T -> int) {
    match fetched
    case None => r == []
    case Some(s) => SortedBy(r, key) && multiset(r) == multiset(s)
  }

  /** Normalizing neither loses nor invents a year. */
  lemma NormalizedKeepsYears<T>(r: seq<T>, s: seq<T>, key: T -> int)
    requires NormalizedFrom(r, Some(s), key)
    ensures |r| == |s|
    ensures forall y :: y in r <==> y in s
  {
    assert |multiset(r)| == |multiset(s)|;
    forall y ensures y in r <==> y in s {
      assert y in r <==> y in multiset(r);
      assert y in s <==> y in multiset(s);
    }
  }

  /** The name offered for a new year when `n` years exist: `Year n+1`. */
  function NewYearName(n: nat): (name: string)
    ensures |name| > 5 && name[..5] == "Year "
  {
    "Year " + NatToString(n + 1)
  }

  /** The number in a new year's name reads back as one more than the count. */
  lemma NewYearNameNumber(n: nat)
    ensures ParseInt(NewYearName(n)[5..]) == Some(n + 1)
  {
    assert NewYearName(n)[5..] == NatToString(n + 1);
    ParseIntOfNatToString(n + 1);
  }

  /** Different counts give different names. */
  lemma NewYearNameInjective(m: nat, n: nat)
    requires m != n
    ensures NewYearName(m) != NewYearName(n)
  {
    NewYearNameNumber(m);
    NewYearNameNumber(n);
  }
}

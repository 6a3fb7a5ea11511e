/**
 * The shared list-view logic of the admin topic, subject and module lists: each row refers
 * to a parent (a topic to its subject, a subject to its module, a module to its year);
 * the page offers one filter entry per distinct parent, filters by parent and by a
 * case-insensitive search, and shows the result one page at a time.
 */
module ListView {
  import opened Wrappers
  import opened Strings
  import opened Seqs
  import opened Sorting

  /**
   * A reference field as the server returns it: missing (`null`/`undefined`), a raw id
   * string, or a populated object with `_id`, optional `name` and its own parent reference.
   * The empty id string stands for a missing or empty `_id`.
   */
  datatype Ref = Absent | Raw(rawId: string) | Obj(id: string, name: Option<string>, parent: Ref)

  /** One listed record: its `_id`, optional `name` and the reference to its parent. */
  datatype Row = Row(id: string, name: Option<string>, parent: Ref)

  /** An entry of the parent filter drop-down. */
  datatype ParentOption = ParentOption(id: string, name: string)

  /** `ref?._id || ref`, as a string: the empty string when there is no usable id. */
  function RefId(r: Ref): string {
    match r
    case Absent => ""
    case Raw(id) => id
    case Obj(id, _, _) => id
  }

  /** `ref?.name`: only a populated object has a name. */
  function RefName(r: Ref): Option<string> {
    match r
    case Obj(_, name, _) => name
    case _ => None
  }

  /** `ref?.<field>` for the grandparent link: only a populated object has one. */
  function RefParent(r: Ref): Ref {
    match r
    case Obj(_, _, p) => p
    case _ => Absent
  }

  /** The drop-down entry built for a parent: its id, and its name falling back to the id. */
  function OptionOf(r: Ref): (o: ParentOption)
    ensures o.id == RefId(r)
    ensures RefName(r).Some? ==> o.name == RefName(r).value
    ensures RefName(r).None? ==> o.name == o.id
  {
    ParentOption(RefId(r), RefName(r).GetOr(RefId(r)))
  }

  /** The ids carried by some drop-down entries. */
  function Ids(s: seq<ParentOption>): set<string> {
    set o | o in s :: o.id
  }

  lemma IdsAppend(s: seq<ParentOption>, o: ParentOption)
    ensures Ids(s + [o]) == Ids(s) + {o.id}
  {
    assert o in s + [o];
    forall x | x in Ids(s + [o]) ensures x in Ids(s) + {o.id} {
      var w :| w in s + [o] && w.id == x;
      if w in s { assert x in Ids(s); }
    }
    forall x | x in Ids(s) ensures x in Ids(s + [o]) {
      var w :| w in s && w.id == x;
      assert w in s + [o];
    }
  }

  /** The non-empty parent ids among the rows. */
  function ParentIds(rows: seq<Row>): set<string> {
    set k | 0 <= k < |rows| && RefId(rows[k].parent) != "" :: RefId(rows[k].parent)
  }

  /**
   * The entries of the de-duplicating `Map` in insertion order: a row's parent is added
   * when it has an id not seen before.
   */
  function FirstOccurrences(rows: seq<Row>): seq<ParentOption>
    decreases |rows|
  {
    if |rows| == 0 then []
    else
      var prev := FirstOccurrences(rows[..|rows| - 1]);
      var p := rows[|rows| - 1].parent;
      if RefId(p) == "" || RefId(p) in Ids(prev) then prev else prev + [OptionOf(p)]
  }

  /** Row `i` is the first row whose parent carries its (non-empty) id. */
  predicate FirstWithId(rows: seq<Row>, i: int)
    requires 0 <= i < |rows|
  {
    RefId(rows[i].parent) != "" && forall j :: 0 <= j < i ==> RefId(rows[j].parent) != RefId(rows[i].parent)
  }

  /** No two entries share an id, and no entry is listed twice. */
  predicate UniqueIds(s: seq<ParentOption>) {
    (forall x, y :: x in s && y in s && x.id == y.id ==> x == y)
    && (forall x :: x in s ==> multiset(s)[x] == 1)
  }

  /** Every distinct parent id of the rows has an entry, and only those. */
  lemma {:induction false} FirstOccurrencesIds(rows: seq<Row>)
    ensures Ids(FirstOccurrences(rows)) == ParentIds(rows)
    decreases |rows|
  {
    if |rows| > 0 {
      var init := rows[..|rows| - 1];
      FirstOccurrencesIds(init);
      var p := rows[|rows| - 1].parent;
      var prev := FirstOccurrences(init);
      assert ParentIds(rows) == ParentIds(init) + (if RefId(p) == "" then {} else {RefId(p)}) by {
        forall id | id in ParentIds(rows)
          ensures id in ParentIds(init) + (if RefId(p) == "" then {} else {RefId(p)})
        {
          var k :| 0 <= k < |rows| && RefId(rows[k].parent) != "" && RefId(rows[k].parent) == id;
          if k < |rows| - 1 {
            assert rows[k] == init[k];
          }
        }
        forall id | id in ParentIds(init) ensures id in ParentIds(rows) {
          var k :| 0 <= k < |init| && RefId(init[k].parent) != "" && RefId(init[k].parent) == id;
          assert rows[k] == init[k];
        }
        if RefId(p) != "" {
          assert RefId(rows[|rows| - 1].parent) in ParentIds(rows);
        }
      }
      if !(RefId(p) == "" || RefId(p) in Ids(prev)) {
        IdsAppend(prev, OptionOf(p));
      }
    }
  }

  /** The entries never repeat an id. */
  lemma {:induction false} FirstOccurrencesUnique(rows: seq<Row>)
    ensures UniqueIds(FirstOccurrences(rows))
    decreases |rows|
  {
    if |rows| > 0 {
      var init := rows[..|rows| - 1];
      FirstOccurrencesUnique(init);
      var p := rows[|rows| - 1].parent;
      var prev := FirstOccurrences(init);
      if !(RefId(p) == "" || RefId(p) in Ids(prev)) {
        var s := prev + [OptionOf(p)];
        assert OptionOf(p) !in prev;
        forall x | x in s ensures multiset(s)[x] == 1 {
          assert multiset(s) == multiset(prev) + multiset{OptionOf(p)};
          if x in prev {
            assert x != OptionOf(p);
          } else {
            assert x == OptionOf(p);
          }
        }
        forall x | x in prev ensures x.id != RefId(p) {
          assert x.id in Ids(prev);
        }
      }
    }
  }

  /** Dropping the last row does not change which earlier rows are first with their id. */
  lemma FirstWithIdInit(rows: seq<Row>, i: int)
    requires 0 <= i < |rows| - 1
    ensures FirstWithId(rows, i) == FirstWithId(rows[..|rows| - 1], i)
  {
    var init := rows[..|rows| - 1];
    assert forall j :: 0 <= j <= i ==> rows[j] == init[j];
  }

  /** The last row is first with its id exactly when the earlier rows do not carry it. */
  lemma FirstWithIdLast(rows: seq<Row>)
    requires |rows| > 0
    ensures FirstWithId(rows, |rows| - 1) <==>
            RefId(rows[|rows| - 1].parent) != "" && RefId(rows[|rows| - 1].parent) !in ParentIds(rows[..|rows| - 1])
  {
    var init := rows[..|rows| - 1];
    var last := |rows| - 1;
    var id := RefId(rows[last].parent);
    if id != "" && id in ParentIds(init) {
      var k :| 0 <= k < |init| && RefId(init[k].parent) != "" && RefId(init[k].parent) == id;
      assert rows[k] == init[k];
    }
    if id != "" && !FirstWithId(rows, last) {
      var j :| 0 <= j < last && RefId(rows[j].parent) == id;
      assert rows[j] == init[j];
      assert id in ParentIds(init);
    }
  }

  /** An entry is exactly the option built from the first row carrying its id. */
  lemma {:induction false} FirstOccurrencesFirstWins(rows: seq<Row>, o: ParentOption)
    ensures o in FirstOccurrences(rows) <==>
            exists i :: 0 <= i < |rows| && FirstWithId(rows, i) && o == OptionOf(rows[i].parent)
    decreases |rows|
  {
    if |rows| > 0 {
      var init := rows[..|rows| - 1];
      var last := |rows| - 1;
      FirstOccurrencesFirstWins(init, o);
      FirstOccurrencesIds(init);
      FirstWithIdLast(rows);
      var p := rows[last].parent;
      var prev := FirstOccurrences(init);
      if o in FirstOccurrences(rows) {
        if o in prev {
          var i :| 0 <= i < |init| && FirstWithId(init, i) && o == OptionOf(init[i].parent);
          FirstWithIdInit(rows, i);
          assert rows[i] == init[i];
        } else {
          assert o == OptionOf(p) && FirstWithId(rows, last);
        }
      }
      if exists i :: 0 <= i < |rows| && FirstWithId(rows, i) && o == OptionOf(rows[i].parent) {
        var i :| 0 <= i < |rows| && FirstWithId(rows, i) && o == OptionOf(rows[i].parent);
        if i < last {
          FirstWithIdInit(rows, i);
          assert rows[i] == init[i];
          assert o in prev;
        } else {
          assert o == OptionOf(p);
        }
      }
    }
  }

  /** Drop-down entries in the collation order of their names (`localeCompare`). */
  predicate SortedByName(opts: seq<ParentOption>, collate: string -> int) {
    forall x, y :: 0 <= x < y < |opts| ==> collate(opts[x].name) <= collate(opts[y].name)
  }

  /**
   * The parent filter entries: a `forEach` over the rows fills a `Map` keyed by parent id,
   * keeping the first entry per id; its values are then sorted by name.
   */
  method ParentOptions(rows: seq<Row>, collate: string -> int) returns (opts: seq<ParentOption>)
    ensures multiset(opts) == multiset(FirstOccurrences(rows))
    ensures SortedByName(opts, collate)
  {
    var seen: map<string, ParentOption> := map[];
    var inserted: seq<ParentOption> := [];
    var i := 0;
    while i < |rows|
      invariant 0 <= i <= |rows|
      invariant inserted == FirstOccurrences(rows[..i])
      invariant seen.Keys == Ids(inserted)
    {
      var p := rows[i].parent;
      assert rows[..i + 1][..i] == rows[..i];
      if p != Absent && RefId(p) != "" {
        var id := RefId(p);
        if id !in seen {
          var o := OptionOf(p);
          seen := seen[id := o];
          IdsAppend(inserted, o);
          inserted := inserted + [o];
        }
      }
      i := i + 1;
    }
    assert rows[..|rows|] == rows;
    opts := SortOptions(inserted, collate);
  }

  /** `Array.from(seen.values()).sort((a, b) => (a.name || '').localeCompare(b.name || ''))`. */
  method SortOptions(entries: seq<ParentOption>, collate: string -> int) returns (opts: seq<ParentOption>)
    ensures multiset(opts) == multiset(entries)
    ensures SortedByName(opts, collate)
  {
    var a := new ParentOption[|entries|](k requires 0 <= k < |entries| => entries[k]);
    assert a[..] == entries;
    var key := (o: ParentOption) => collate(o.name);
    SortByKey(a, key);
    opts := a[..];
    assert forall x :: 0 <= x < a.Length ==> key(a[x]) == collate(opts[x].name);
  }

  /** The sorted entries hold one entry per distinct parent id of the rows, first name winning. */
  lemma ParentOptionsSpec(rows: seq<Row>, opts: seq<ParentOption>)
    requires multiset(opts) == multiset(FirstOccurrences(rows))
    ensures Ids(opts) == ParentIds(rows)
    ensures UniqueIds(opts)
    ensures forall o :: o in opts <==>
              exists i :: 0 <= i < |rows| && FirstWithId(rows, i) && o == OptionOf(rows[i].parent)
  {
    var fo := FirstOccurrences(rows);
    FirstOccurrencesIds(rows);
    FirstOccurrencesUnique(rows);
    assert forall o :: o in opts <==> o in fo by {
      forall o ensures o in opts <==> o in fo {
        assert o in opts <==> o in multiset(opts);
        assert o in fo <==> o in multiset(fo);
      }
    }
    assert Ids(opts) == Ids(fo);
    forall o ensures o in opts <==>
              exists i :: 0 <= i < |rows| && FirstWithId(rows, i) && o == OptionOf(rows[i].parent)
    {
      FirstOccurrencesFirstWins(rows, o);
    }
  }

  /** `(row.parent?._id || row.parent) === filter`, applied only when a filter is chosen. */
  function FilterByParent(rows: seq<Row>, filter: string): seq<Row> {
    if filter == "" then rows else Filter(rows, (r: Row) => RefId(r.parent) == filter)
  }

  /** With a filter chosen, exactly the rows whose parent id equals it stay, each as often as before. */
  lemma FilterByParentSpec(rows: seq<Row>, filter: string, r: Row)
    ensures filter == "" ==> FilterByParent(rows, filter) == rows
    ensures filter != "" ==>
              multiset(FilterByParent(rows, filter))[r] ==
              (if RefId(r.parent) == filter then multiset(rows)[r] else 0)
  {
    if filter != "" {
      FilterCount(rows, (x: Row) => RefId(x.parent) == filter, r);
    }
  }

  /**
   * The filter keeps the rows' order: filtering two runs of rows one after the other gives the
   * two filtered runs one after the other, and a single row stays exactly when it matches.
   */
  lemma FilterByParentInOrder(a: seq<Row>, b: seq<Row>, filter: string)
    ensures FilterByParent(a + b, filter) == FilterByParent(a, filter) + FilterByParent(b, filter)
    ensures |a| == 1 ==>
              FilterByParent(a, filter) == (if filter == "" || RefId(a[0].parent) == filter then a else [])
  {
    if filter != "" {
      FilterAppend(a, b, (x: Row) => RefId(x.parent) == filter);
    }
  }

  /** `search.trim().toLowerCase()`. */
  function Query(search: string, fold: char -> char): string {
    Lower(Trim(search), fold)
  }

  /**
   * `(row.name && row.name.toLowerCase().includes(q)) ||
   *  (row.parent?.name && row.parent.name.toLowerCase().includes(q))`.
   */
  predicate Matches(r: Row, q: string, fold: char -> char) {
    (r.name.Some? && r.name.value != "" && Contains(Lower(r.name.value, fold), q))
    || (RefName(r.parent).Some? && RefName(r.parent).value != ""
        && Contains(Lower(RefName(r.parent).value, fold), q))
  }

  /** The search step: a blank query keeps the list, any other keeps the matching rows. */
  function Search(rows: seq<Row>, search: string, fold: char -> char): seq<Row> {
    var q := Query(search, fold);
    if q == "" then rows else Filter(rows, (r: Row) => Matches(r, q, fold))
  }

  /** A blank search keeps every row; any other keeps exactly the matching rows. */
  lemma SearchSpec(rows: seq<Row>, search: string, fold: char -> char, r: Row)
    ensures IsBlank(search) ==> Search(rows, search, fold) == rows
    ensures !IsBlank(search) ==>
              (r in Search(rows, search, fold) <==> r in rows && Matches(r, Query(search, fold), fold))
  {
    if !IsBlank(search) {
      var q := Query(search, fold);
      assert |q| == |Trim(search)|;
      FilterMembership(rows, (x: Row) => Matches(x, q, fold), r);
    }
  }

  /** The rows on display before paging: parent filter first, then the search. */
  function Filtered(rows: seq<Row>, filter: string, search: string, fold: char -> char): seq<Row> {
    Search(FilterByParent(rows, filter), search, fold)
  }

  /** The choices of the per-page drop-down. */
  const PageSizeOptions: seq<nat> := [5, 10, 25, 50]

  /** `Math.max(1, Math.ceil(n / pageSize))`. */
  function TotalPages(n: nat, pageSize: nat): (tp: nat)
    requires pageSize > 0
    ensures tp >= 1
    ensures n <= tp * pageSize
    ensures n == 0 || (tp - 1) * pageSize < n
    ensures n == 0 ==> tp == 1
  {
    if n == 0 then 1 else (n + pageSize - 1) / pageSize
  }

  /** `Math.min(page, totalPages)`. */
  function CurrentPage(page: int, totalPages: nat): (cp: int)
    ensures cp <= totalPages
    ensures cp == page || cp == totalPages
    ensures page <= totalPages ==> cp == page
  {
    if page < totalPages then page else totalPages
  }

  /** `list.slice((page - 1) * pageSize, page * pageSize)`. */
  function PageSlice<T>(list: seq<T>, page: nat, pageSize: nat): seq<T>
    requires page >= 1
  {
    Slice(list, (page - 1) * pageSize, page * pageSize)
  }

  /** A page never holds more than `pageSize` rows, and every row on it comes from the list in order. */
  lemma PageSliceBounds<T>(list: seq<T>, page: nat, pageSize: nat)
    requires page >= 1
    ensures |PageSlice(list, page, pageSize)| <= pageSize
    ensures forall k :: 0 <= k < |PageSlice(list, page, pageSize)| ==>
              PageSlice(list, page, pageSize)[k] == list[(page - 1) * pageSize + k]
  {
    assert page * pageSize == (page - 1) * pageSize + pageSize;
  }

  /** Pages `1..count` laid end to end. */
  function Pages<T>(list: seq<T>, count: nat, pageSize: nat): seq<T> {
    if count == 0 then [] else Pages(list, count - 1, pageSize) + PageSlice(list, count, pageSize)
  }

  lemma {:induction false} PagesPrefix<T>(list: seq<T>, count: nat, pageSize: nat)
    ensures Pages(list, count, pageSize) ==
            list[..if count * pageSize < |list| then count * pageSize else |list|]
  {
    if count > 0 {
      PagesPrefix(list, count - 1, pageSize);
      var lo := (count - 1) * pageSize;
      var hi := count * pageSize;
      assert hi == lo + pageSize;
      var a := if lo < |list| then lo else |list|;
      var b := if hi < |list| then hi else |list|;
      assert list[..b] == list[..a] + list[a..b];
      if lo < b {
        assert PageSlice(list, count, pageSize) == list[a..b];
      } else {
        assert a == b;
      }
    }
  }

  /** The pages `1..totalPages` partition the list, in order. */
  lemma PagesPartition<T>(list: seq<T>, pageSize: nat)
    requires pageSize > 0
    ensures Pages(list, TotalPages(|list|, pageSize), pageSize) == list
  {
    PagesPrefix(list, TotalPages(|list|, pageSize), pageSize);
    assert list[..|list|] == list;
  }

  /** The pager is rendered when there are more rows than fit on one page. */
  predicate PagerShown(n: nat, pageSize: nat) {
    n > pageSize
  }

  /** The pager is shown exactly when there is more than one page. */
  lemma PagerShownIffSeveralPages(n: nat, pageSize: nat)
    requires pageSize > 0
    ensures PagerShown(n, pageSize) <==> TotalPages(n, pageSize) > 1
  {
    var tp := TotalPages(n, pageSize);
    if tp == 1 {
      assert n <= 1 * pageSize;
    } else if n > 0 {
      assert (tp - 1) * pageSize >= pageSize by {
        MulAtLeastOne(tp - 1, pageSize);
      }
    }
  }

  /** A positive whole multiple of `b` is at least `b`. */
  lemma MulAtLeastOne(a: nat, b: nat)
    requires a >= 1
    ensures a * b >= b
  {
    assert a * b == (a - 1) * b + b;
  }

  /** First row number of "Showing a–b of n". */
  function RangeStart(currentPage: nat, pageSize: nat): int {
    (currentPage - 1) * pageSize + 1
  }

  /** Last row number of "Showing a–b of n". */
  function RangeEnd(currentPage: nat, pageSize: nat, n: nat): int {
    if currentPage * pageSize < n then currentPage * pageSize else n
  }

  /** The range text names exactly the rows of the page on display. */
  lemma RangeMatchesPage<T>(list: seq<T>, page: int, pageSize: nat)
    requires pageSize > 0 && page >= 1
    ensures var cp := CurrentPage(page, TotalPages(|list|, pageSize));
            var a := RangeStart(cp, pageSize);
            var b := RangeEnd(cp, pageSize, |list|);
            |list| > 0 ==> 1 <= a <= b <= |list| && PageSlice(list, cp, pageSize) == list[a - 1..b]
  {
    var tp := TotalPages(|list|, pageSize);
    var cp := CurrentPage(page, tp);
    if |list| > 0 {
      assert (cp - 1) * pageSize <= (tp - 1) * pageSize;
      assert cp * pageSize == (cp - 1) * pageSize + pageSize;
    }
  }

  /**
   * The paging and filter state of one list page. `rows` is the fetched list; `search`,
   * `filter`, `page` and `pageSize` are the page's controls.
   */
  class ListPager {
    var rows: seq<Row>
    var search: string
    var filter: string
    var page: int
    var pageSize: nat
    const fold: char -> char

    predicate Valid()
      reads this
    {
      page >= 1 && pageSize in PageSizeOptions
    }

    /** The initial state: empty list, no search or filter, page 1 of 10 rows. */
    constructor (fold: char -> char)
      ensures Valid()
      ensures rows == [] && search == "" && filter == "" && page == 1 && pageSize == 10
      ensures this.fold == fold
    {
      rows := [];
      search := "";
      filter := "";
      page := 1;
      pageSize := 10;
      this.fold := fold;
    }

    /** The rows remaining after the parent filter and the search. */
    function Shown(): seq<Row>
      reads this
    {
      Filtered(rows, filter, search, fold)
    }

    function TotalPagesNow(): (tp: nat)
      reads this
      requires Valid()
      ensures tp >= 1
    {
      TotalPages(|Shown()|, pageSize)
    }

    function CurrentPageNow(): (cp: int)
      reads this
      requires Valid()
      ensures 1 <= cp <= TotalPagesNow()
    {
      CurrentPage(page, TotalPagesNow())
    }

    /** The rows of the page on display. */
    function Paginated(): (r: seq<Row>)
      reads this
      requires Valid()
      ensures |r| <= pageSize
    {
      PageSliceBounds(Shown(), CurrentPageNow(), pageSize);
      PageSlice(Shown(), CurrentPageNow(), pageSize)
    }

    /** The list request settled: its data, or `[]` when it failed. */
    method Loaded(response: Outcome<seq<Row>>)
      requires Valid()
      modifies this
      ensures Valid()
      ensures rows == (if response.Ok? then response.data else [])
      ensures search == old(search) && filter == old(filter) && page == old(page) && pageSize == old(pageSize)
    {
      rows := if response.Ok? then response.data else [];
    }

    /** Typing in the search box: new query, back to page 1. */
    method SetSearch(s: string)
      requires Valid()
      modifies this
      ensures Valid()
      ensures search == s && page == 1
      ensures rows == old(rows) && filter == old(filter) && pageSize == old(pageSize)
    {
      search := s;
      page := 1;
    }

    /** Choosing a parent in the drop-down (`""` for all): new filter, back to page 1. */
    method SetFilter(f: string)
      requires Valid()
      modifies this
      ensures Valid()
      ensures filter == f && page == 1
      ensures rows == old(rows) && search == old(search) && pageSize == old(pageSize)
    {
      filter := f;
      page := 1;
    }

    /** Choosing a page size from the drop-down: back to page 1. */
    method SetPageSize(ps: nat)
      requires Valid() && ps in PageSizeOptions
      modifies this
      ensures Valid()
      ensures pageSize == ps && page == 1
      ensures rows == old(rows) && search == old(search) && filter == old(filter)
    {
      pageSize := ps;
      page := 1;
    }

    /** The effect after each render: a page beyond the last one falls back to page 1. */
    method SyncPage()
      requires Valid()
      modifies this
      ensures Valid()
      ensures page == (if old(page) > old(TotalPagesNow()) then 1 else old(page))
      ensures 1 <= page <= TotalPagesNow()
      ensures rows == old(rows) && search == old(search) && filter == old(filter) && pageSize == old(pageSize)
    {
      if page > TotalPagesNow() {
        page := 1;
      }
    }

    /** "Previous", enabled only past the first page: `Math.max(1, p - 1)`. */
    method Previous()
      requires Valid() && CurrentPageNow() > 1
      modifies this
      ensures Valid()
      ensures page == (if old(page) - 1 > 1 then old(page) - 1 else 1)
      ensures old(page) <= TotalPagesNow() ==> 1 <= page <= TotalPagesNow()
      ensures rows == old(rows) && search == old(search) && filter == old(filter) && pageSize == old(pageSize)
    {
      page := if page - 1 > 1 then page - 1 else 1;
    }

    /** "Next", enabled only before the last page: `Math.min(totalPages, p + 1)`. */
    method Next()
      requires Valid() && CurrentPageNow() < TotalPagesNow()
      modifies this
      ensures Valid()
      ensures page == old(page) + 1
      ensures 1 <= page <= TotalPagesNow()
      ensures rows == old(rows) && search == old(search) && filter == old(filter) && pageSize == old(pageSize)
    {
      var tp := TotalPagesNow();
      page := if tp < page + 1 then tp else page + 1;
    }
  }
}

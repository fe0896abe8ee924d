/**
 Paging: LIMIT and OFFSET over rows that the engine orders anew for every query, and what the pages
 show together.
 */
module Listing {
  import opened Sqlite

  // ---------------------------------------------------------------- ORDER BY

  /** The order of the key columns; rows with equal keys are not ordered. */
  ghost predicate WeakOrder<T(!new)>(less: (T, T) -> bool) {
    && (forall a :: !less(a, a))
    && (forall a, b, c :: less(a, b) && less(b, c) ==> less(a, c))
    && (forall a, b, c :: !less(a, b) && !less(b, c) ==> !less(a, c))
  }

  ghost predicate Tied<T>(less: (T, T) -> bool, a: T, b: T) {
    a != b && !less(a, b) && !less(b, a)
  }

  ghost predicate NoTies<T>(q: set<T>, less: (T, T) -> bool) {
    forall a, b | a in q && b in q :: !Tied(less, a, b)
  }

  ghost predicate Ordered<T>(s: seq<T>, less: (T, T) -> bool) {
    forall i, j | 0 <= i < j < |s| :: !less(s[j], s[i])
  }

  /** The engine may return the rows in any order that ORDER BY allows. */
  ghost predicate Answers<T>(s: seq<T>, q: set<T>, less: (T, T) -> bool) {
    && (forall x | x in s :: x in q) && (forall x | x in q :: x in s)
    && (forall i, j | 0 <= i < j < |s| :: s[i] != s[j])
    && Ordered(s, less)
  }

  lemma {:induction false} AnswerCounts<T>(s: seq<T>, q: set<T>)
    requires (forall x | x in s :: x in q) && (forall x | x in q :: x in s) && (forall i, j | 0 <= i < j < |s| :: s[i] != s[j])
    ensures |s| == |q| && multiset(s) == multiset(q)
    decreases |s|
  {
    if s == [] {
      assert q == {};
    } else {
      forall x ensures x in s[1..] <==> x in q - {s[0]} {
        if x in q - {s[0]} { assert x in s; }
      }
      AnswerCounts(s[1..], q - {s[0]});
      assert s == [s[0]] + s[1..];
      assert q == q - {s[0]} + {s[0]};
    }
  }

  lemma AnswerCountsIt<T>(s: seq<T>, q: set<T>, less: (T, T) -> bool)
    requires Answers(s, q, less)
    ensures |s| == |q| && multiset(s) == multiset(q)
  {
    AnswerCounts(s, q);
  }

  /** Without ties there is one answer. */
  lemma {:induction false} OneAnswer<T>(s: seq<T>, t: seq<T>, q: set<T>, less: (T, T) -> bool)
    requires Answers(s, q, less) && Answers(t, q, less) && NoTies(q, less)
    ensures s == t
    decreases |s|
  {
    assert (s != [] ==> s[0] in q) && (t != [] ==> t[0] in q);
    if s != [] {
      assert s[0] in t && t[0] in s;
      assert !Tied(less, s[0], t[0]);
      assert s[0] == t[0];
      AnswersRest(s, q, less);
      AnswersRest(t, q, less);
      OneAnswer(s[1..], t[1..], q - {s[0]}, less);
    }
  }

  lemma AnswersRest<T>(s: seq<T>, q: set<T>, less: (T, T) -> bool)
    requires Answers(s, q, less) && s != []
    ensures Answers(s[1..], q - {s[0]}, less)
  {
    forall x ensures x in s[1..] <==> x in q - {s[0]} {
      if x in q - {s[0]} { assert x in s; }
      if x in s[1..] { assert x in s; }
    }
  }

  lemma {:induction false} LeastExists<T(!new)>(q: set<T>, less: (T, T) -> bool) returns (least: T)
    requires WeakOrder(less) && q != {}
    ensures least in q && forall x | x in q :: !less(x, least)
    decreases q
  {
    var a :| a in q;
    if q == {a} {
      least := a;
    } else {
      var b := LeastExists(q - {a}, less);
      least := if less(a, b) then a else b;
    }
  }

  /** Every set of rows has an answer. */
  lemma {:induction false} AnswerExists<T(!new)>(q: set<T>, less: (T, T) -> bool) returns (s: seq<T>)
    requires WeakOrder(less)
    ensures Answers(s, q, less)
    decreases q
  {
    if q == {} {
      s := [];
    } else {
      var least := LeastExists(q, less);
      var rest := AnswerExists(q - {least}, less);
      s := [least] + rest;
      assert forall i | 0 <= i < |rest| :: rest[i] in rest;
    }
  }

  // ---------------------------------------------------------------- LIMIT and OFFSET

  /** A negative limit is no limit, a negative offset is none. */
  function Limited<T>(s: seq<T>, limit: int, offset: int): seq<T> {
    var from := if offset < 0 then 0 else if offset > |s| then |s| else offset;
    if limit < 0 || from + limit >= |s| then s[from..] else s[from..from + limit]
  }

  predicate Fits32(x: int) {
    -0x8000_0000 <= x <= 0x7FFF_FFFF
  }

  /** The edges: COUNT, then the page unless there is nothing at all. */
  function EdgePage<T>(ordered: seq<T>, page: int, size: int): (seq<T>, nat)
    requires Fits32((page - 1) * size)
  {
    if |ordered| == 0 then ([], 0) else (Limited(ordered, size, (page - 1) * size), |ordered|)
  }

  /** The projects and the phases: no second query when the page lies behind the end. */
  function ProjectPage<T>(ordered: seq<T>, page: int, size: int): (seq<T>, nat)
    requires Fits32((page - 1) * size)
  {
    if |ordered| == 0 || (page - 1) * size >= |ordered| then ([], |ordered|)
    else (Limited(ordered, size, (page - 1) * size), |ordered|)
  }

  /** The early exit shows what the query would, for any page number and page size, negative ones too. */
  lemma EarlyExitAgrees<T>(ordered: seq<T>, page: int, size: int)
    requires Fits32((page - 1) * size)
    ensures ProjectPage(ordered, page, size) == EdgePage(ordered, page, size)
    ensures ProjectPage(ordered, page, size).1 == |ordered|
  {
  }

  /** The services mend what the caller asks for. */
  function Clamp(page: int, size: int): (int, int) {
    (if page < 1 then 1 else page, if size < 1 then 20 else size)
  }

  function ServePage<T>(ordered: seq<T>, page: int, size: int): (seq<T>, nat)
    requires Fits32((Clamp(page, size).0 - 1) * Clamp(page, size).1)
  {
    ProjectPage(ordered, Clamp(page, size).0, Clamp(page, size).1)
  }

  // ---------------------------------------------------------------- the pages together

  function Concat<T>(pages: seq<seq<T>>): seq<T> {
    if pages == [] then [] else Concat(pages[..|pages| - 1]) + pages[|pages| - 1]
  }

  /** How many pages there are: the total over the page size, rounded up. */
  function PageCount(total: nat, size: nat): nat
    requires size >= 1
  {
    (total + size - 1) / size
  }

  /** The offset of the last of n pages is an int. */
  predicate FitsPages(n: nat, size: int) {
    n == 0 || Fits32((n - 1) * size)
  }

  /** The pages from the first on, the k-th cut from the k-th answer. */
  ghost function Shown<T>(answers: seq<seq<T>>, size: int): seq<seq<T>>
    requires size >= 1 && FitsPages(|answers|, size)
  {
    seq(|answers|, k requires 0 <= k < |answers| => Smaller(k, |answers|, size); ServePage(answers[k], k + 1, size).0)
  }

  lemma Smaller(k: nat, n: nat, size: int)
    requires k < n && size >= 1 && FitsPages(n, size)
    ensures Fits32(k * size) && (k + 1) * size == k * size + size
  {
    TimesGrows(k, n - 1, size);
    TimesGrows(0, k, size);
  }

  lemma {:induction false} TimesGrows(k: nat, n: nat, size: int)
    requires k <= n && size >= 0
    ensures k * size <= n * size && (k + 1) * size == k * size + size
    decreases n - k
  {
    if k < n { TimesGrows(k, n - 1, size); }
  }

  function Min(a: int, b: int): int {
    if a < b then a else b
  }

  lemma PageSlice<T>(s: seq<T>, k: nat, size: int)
    requires size >= 1 && Fits32(k * size)
    ensures k * size >= 0
    ensures ServePage(s, k + 1, size).0 == s[Min(k * size, |s|)..Min(k * size + size, |s|)]
  {
    assert k * size >= 0;
  }

  lemma ShownFront<T>(answers: seq<seq<T>>, size: int)
    requires size >= 1 && FitsPages(|answers|, size) && answers != []
    ensures FitsPages(|answers| - 1, size)
    ensures Shown(answers, size)[..|answers| - 1] == Shown(answers[..|answers| - 1], size)
  {
    Smaller(|answers| - 1, |answers|, size);
  }

  lemma {:induction false} Prefixes<T>(s: seq<T>, answers: seq<seq<T>>, size: int)
    requires size >= 1 && FitsPages(|answers|, size)
    requires forall k | 0 <= k < |answers| :: answers[k] == s
    ensures |answers| * size >= 0
    ensures Concat(Shown(answers, size)) == s[..Min(|answers| * size, |s|)]
    decreases |answers|
  {
    if answers != [] {
      var n := |answers| - 1;
      ShownFront(answers, size);
      Smaller(n, |answers|, size);
      Prefixes(s, answers[..n], size);
      PageSlice(s, n, size);
      Joins(s, n * size, |answers| * size);
    }
  }

  lemma Joins<T>(s: seq<T>, m: nat, n: nat)
    requires m <= n
    ensures s[..Min(m, |s|)] + s[Min(m, |s|)..Min(n, |s|)] == s[..Min(n, |s|)]
  {
  }

  lemma EnoughPages(total: nat, size: int, n: nat)
    requires size >= 1 && n >= PageCount(total, size)
    ensures n * size >= total
  {
    var c := PageCount(total, size);
    assert c * size >= total;
    TimesGrows(c, n, size);
  }

  lemma ShownAt<T>(s: seq<T>, answers: seq<seq<T>>, size: int, k: nat)
    requires size >= 1 && FitsPages(|answers|, size) && k < |answers| && answers[k] == s
    ensures Fits32(k * size) && ServePage(answers[k], k + 1, size).1 == |s|
    ensures k >= PageCount(|s|, size) ==> Shown(answers, size)[k] == []
  {
    Smaller(k, |answers|, size);
    if k >= PageCount(|s|, size) {
      EnoughPages(|s|, size, k);
      PageSlice(s, k, size);
    }
  }

  /**
   Where the order has no ties, the pages 1 to n put together are the ordered rows, each once, as soon
   as n reaches the page count; so all later pages are empty. Every page gives the number of rows.
   */
  lemma PagesConcatenate<T>(q: set<T>, less: (T, T) -> bool, s: seq<T>, answers: seq<seq<T>>, size: int)
    requires size >= 1 && FitsPages(|answers|, size) && NoTies(q, less)
    requires Answers(s, q, less) && (forall k | 0 <= k < |answers| :: Answers(answers[k], q, less))
    requires |answers| >= PageCount(|q|, size)
    ensures Concat(Shown(answers, size)) == s && multiset(s) == multiset(q)
    ensures forall k | PageCount(|q|, size) <= k < |answers| :: Shown(answers, size)[k] == []
    ensures forall k | 0 <= k < |answers| :: Fits32(k * size) && ServePage(answers[k], k + 1, size).1 == |q|
  {
    hide Concat, Answers, NoTies, PageCount, ServePage;
    AnswerCountsIt(s, q, less);
    forall k | 0 <= k < |answers| ensures answers[k] == s { OneAnswer(answers[k], s, q, less); }
    Prefixes(s, answers, size);
    EnoughPages(|q|, size, |answers|);
    forall k | 0 <= k < |answers|
      ensures Fits32(k * size) && ServePage(answers[k], k + 1, size).1 == |q|
      ensures k >= PageCount(|q|, size) ==> Shown(answers, size)[k] == []
    {
      ShownAt(s, answers, size, k);
    }
  }

  /** The first page for a number below one, twenty rows for a size below one; the total is always there. */
  lemma MendedPages<T>(s: seq<T>, page: int, size: int, first: nat, rows: int)
    requires first == if page < 1 then 0 else page - 1
    requires rows == if size < 1 then 20 else size
    requires Fits32(first * rows)
    ensures first * rows >= 0
    ensures ServePage(s, page, size) == (s[Min(first * rows, |s|)..Min(first * rows + rows, |s|)], |s|)
  {
    PageSlice(s, first, rows);
    assert Clamp(page, size) == Clamp(first + 1, rows) == (first + 1, rows);
  }

  /** The page count is the least number of pages that holds all rows. */
  lemma PageCountIsLeast(total: nat, size: int, n: nat)
    requires size >= 1
    ensures n >= PageCount(total, size) <==> n * size >= total
  {
    if n >= PageCount(total, size) {
      EnoughPages(total, size, n);
    } else {
      var c := PageCount(total, size);
      assert (c - 1) * size < total;
      TimesGrows(n, c - 1, size);
    }
  }

  // ---------------------------------------------------------------- ties

  /** However the engine orders tied rows for each of the pages, every row is shown once. */
  ghost predicate ShowsEachOnce<T(!new)>(q: set<T>, less: (T, T) -> bool, size: int)
    requires size >= 1
  {
    forall answers: seq<seq<T>> | (forall k | 0 <= k < |answers| :: Answers(answers[k], q, less))
                                  && |answers| == PageCount(|q|, size) && FitsPages(|answers|, size) ::
      multiset(Concat(Shown(answers, size))) == multiset(q)
  }

  /** Tied rows can change places. */
  lemma SwapTied<T(!new)>(s: seq<T>, q: set<T>, less: (T, T) -> bool, i: nat, j: nat)
    requires WeakOrder(less) && Answers(s, q, less) && i < j < |s| && Tied(less, s[i], s[j])
    ensures Answers(s[i := s[j]][j := s[i]], q, less)
  {
    var t := s[i := s[j]][j := s[i]];
    forall x ensures x in t <==> x in q {
      if x in t { var k :| 0 <= k < |t| && t[k] == x; assert x in s; }
      if x in s {
        var k :| 0 <= k < |s| && s[k] == x;
        var k' := if k == i then j else if k == j then i else k;
        assert t[k'] == x;
      }
    }
    forall a, b | 0 <= a < b < |t| ensures !less(t[b], t[a]) {
      TiedBetween(s, less, i, j, a);
      TiedBetween(s, less, i, j, b);
    }
  }

  lemma TiedBetween<T(!new)>(s: seq<T>, less: (T, T) -> bool, i: nat, j: nat, k: nat)
    requires WeakOrder(less) && Ordered(s, less) && i < j < |s| && Tied(less, s[i], s[j]) && k < |s|
    ensures k <= j ==> !less(s[j], s[k]) && !less(s[i], s[k])
    ensures k >= i ==> !less(s[k], s[i]) && !less(s[k], s[j])
  {
    if k <= j {
      assert !less(s[j], s[k]);
      assert !less(s[i], s[j]);
    }
    if k >= i {
      assert !less(s[k], s[i]);
      assert !less(s[i], s[j]);
    }
  }

  lemma {:induction false} ConcatSingles<T>(pages: seq<seq<T>>)
    requires forall k | 0 <= k < |pages| :: |pages[k]| == 1
    ensures |Concat(pages)| == |pages|
    ensures forall k | 0 <= k < |pages| :: Concat(pages)[k] == pages[k][0]
    decreases |pages|
  {
    if pages != [] { ConcatSingles(pages[..|pages| - 1]); }
  }

  lemma TwiceCounted<T>(s: seq<T>, i: nat, j: nat)
    requires i < j < |s| && s[i] == s[j]
    ensures multiset(s)[s[i]] >= 2
  {
    assert s == s[..j] + s[j..];
    assert s[..j][i] == s[i] && s[j..][0] == s[j];
    assert s[i] in s[..j] && s[i] in s[j..];
    assert multiset(s) == multiset(s[..j]) + multiset(s[j..]);
  }

  lemma SinglePage<T>(s: seq<T>, k: nat)
    requires k < |s| && Fits32(|s|)
    ensures ServePage(s, k + 1, 1).0 == [s[k]]
  {
  }

  /** Pages of one row, the j-th of which is cut from another answer than the rest. */
  ghost function Mixed<T>(s: seq<T>, t: seq<T>, j: nat): seq<seq<T>> {
    seq(|s|, k => if k == j then t else s)
  }

  lemma MixedShows<T>(s: seq<T>, t: seq<T>, j: nat)
    requires |t| == |s| && Fits32(|s|)
    ensures |Concat(Shown(Mixed(s, t, j), 1))| == |s|
    ensures forall k | 0 <= k < |s| :: Concat(Shown(Mixed(s, t, j), 1))[k] == if k == j then t[k] else s[k]
  {
    var pages := Shown(Mixed(s, t, j), 1);
    forall k | 0 <= k < |s| ensures pages[k] == [if k == j then t[k] else s[k]] {
      SinglePage(Mixed(s, t, j)[k], k);
    }
    ConcatSingles(pages);
  }

  lemma MixedRepeats<T>(s: seq<T>, q: set<T>, i: nat, j: nat)
    requires i < j < |s| && Fits32(|s|)
    ensures multiset(Concat(Shown(Mixed(s, s[i := s[j]][j := s[i]], j), 1))) != multiset(q)
  {
    var all := Concat(Shown(Mixed(s, s[i := s[j]][j := s[i]], j), 1));
    MixedShows(s, s[i := s[j]][j := s[i]], j);
    TwiceCounted(all, i, j);
    assert multiset(q)[all[i]] <= 1;
  }

  lemma TiesRepeat<T(!new)>(q: set<T>, less: (T, T) -> bool, a: T, b: T)
    requires WeakOrder(less) && a in q && b in q && Tied(less, a, b) && Fits32(|q|)
    ensures !ShowsEachOnce(q, less, 1)
  {
    hide WeakOrder, Shown, Concat;
    var s := AnswerExists(q, less);
    AnswerCounts(s, q);
    var i, j := Positions(s, q, less, a, b);
    SwapTied(s, q, less, i, j);
    MixedRepeats(s, q, i, j);
    var t := s[i := s[j]][j := s[i]];
    assert forall k | 0 <= k < |s| :: Answers(Mixed(s, t, j)[k], q, less);
    assert |Mixed(s, t, j)| == PageCount(|q|, 1);
  }

  lemma Positions<T>(s: seq<T>, q: set<T>, less: (T, T) -> bool, a: T, b: T) returns (i: nat, j: nat)
    requires Answers(s, q, less) && a in q && b in q && Tied(less, a, b)
    ensures i < j < |s| && Tied(less, s[i], s[j])
  {
    assert a in s && b in s;
    var x, y :| 0 <= x < |s| && 0 <= y < |s| && s[x] == a && s[y] == b;
    i, j := if x < y then x else y, if x < y then y else x;
  }

  /** Paging shows every row once, whatever the page size, if and only if the order has no ties. */
  lemma PagingNeedsTotalOrder<T(!new)>(q: set<T>, less: (T, T) -> bool)
    requires WeakOrder(less) && Fits32(|q|)
    ensures (forall size: int | size >= 1 :: ShowsEachOnce(q, less, size)) <==> NoTies(q, less)
  {
    if NoTies(q, less) {
      var s := AnswerExists(q, less);
      forall size: int, answers: seq<seq<T>> | size >= 1 && (forall k | 0 <= k < |answers| :: Answers(answers[k], q, less))
                                          && |answers| == PageCount(|q|, size) && FitsPages(|answers|, size)
        ensures multiset(Concat(Shown(answers, size))) == multiset(q)
      {
        PagesConcatenate(q, less, s, answers, size);
      }
    } else {
      var a, b :| a in q && b in q && Tied(less, a, b);
      TiesRepeat(q, less, a, b);
    }
  }

  // ---------------------------------------------------------------- the orders in use

  /** What a listed row is ordered by, with its id. */
  datatype Key = Key(id: int, workflowId: int, orderNumber: int, beginDate: Option<int>)

  /** Edges and projects: ORDER BY id. */
  predicate ById(a: Key, b: Key) {
    a.id < b.id
  }

  /** Phases: ORDER BY beginDate, id, with NULL before every date. */
  predicate ByBeginDate(a: Key, b: Key) {
    match (a.beginDate, b.beginDate)
    case (None, None) => a.id < b.id
    case (None, Some(_)) => true
    case (Some(_), None) => false
    case (Some(x), Some(y)) => x < y || (x == y && a.id < b.id)
  }

  /** States: ORDER BY workflowId, orderNumber. */
  predicate ByOrderNumber(a: Key, b: Key) {
    a.workflowId < b.workflowId || (a.workflowId == b.workflowId && a.orderNumber < b.orderNumber)
  }

  ghost predicate DistinctIds(q: set<Key>) {
    forall a, b | a in q && b in q && a.id == b.id :: a == b
  }

  /** Edges, projects and phases page faultlessly. */
  lemma EdgesProjectsPhasesPage(q: set<Key>, size: int)
    requires DistinctIds(q) && size >= 1 && Fits32(|q|)
    ensures ShowsEachOnce(q, ById, size) && ShowsEachOnce(q, ByBeginDate, size)
  {
    assert NoTies(q, ById) && NoTies(q, ByBeginDate);
    assert WeakOrder(ById) && WeakOrder(ByBeginDate);
    PagingNeedsTotalOrder(q, ById);
    PagingNeedsTotalOrder(q, ByBeginDate);
  }

  /** States do exactly when no two of a workflow share an order number, which nothing keeps them from. */
  lemma StatesPageIff(q: set<Key>)
    requires DistinctIds(q) && Fits32(|q|)
    ensures (forall size: int | size >= 1 :: ShowsEachOnce(q, ByOrderNumber, size))
            <==> forall a, b | a in q && b in q && a != b :: (a.workflowId, a.orderNumber) != (b.workflowId, b.orderNumber)
  {
    PagingNeedsTotalOrder(q, ByOrderNumber);
    forall a, b | a in q && b in q
      ensures Tied(ByOrderNumber, a, b) <==> a != b && (a.workflowId, a.orderNumber) == (b.workflowId, b.orderNumber)
    {
    }
  }

  /** What each ORDER BY shows: ids ascending; no date first, then by date, then by id; by workflow, then by order number. */
  lemma OrdersSpelledOut(s: seq<Key>)
    ensures Ordered(s, ById) <==> forall i, j | 0 <= i < j < |s| :: s[i].id <= s[j].id
    ensures Ordered(s, ByBeginDate)
            <==> forall i, j | 0 <= i < j < |s| ::
                   && (s[j].beginDate.None? ==> s[i].beginDate.None?)
                   && (s[i].beginDate.Some? && s[j].beginDate.Some? ==> s[i].beginDate.value <= s[j].beginDate.value)
                   && (s[i].beginDate == s[j].beginDate ==> s[i].id <= s[j].id)
    ensures Ordered(s, ByOrderNumber)
            <==> forall i, j | 0 <= i < j < |s| ::
                   s[i].workflowId <= s[j].workflowId
                   && (s[i].workflowId == s[j].workflowId ==> s[i].orderNumber <= s[j].orderNumber)
  {
  }
}

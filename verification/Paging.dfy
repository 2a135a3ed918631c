/** Seek pagination over transactions in descending (time, number) order. */
module Paging {
  import opened Domain
  import opened Collections
  import opened Tokens

  datatype Row = Row(txnNo: string, merchant: string, outUserId: string, scene: string, status: string, createdAt: int)

  datatype Query = Query(
    merchant: string, outUserId: string, scene: string, status: string,
    startTime: Option<int>, endTime: Option<int>, pageSize: int)

  const DEFAULT_PAGE_SIZE := 20

  // ---------- the order ----------

  /** Byte-wise order of texts. */
  predicate TextLess(a: string, b: string) {
    if b == "" then false
    else if a == "" then true
    else a[0] < b[0] || (a[0] == b[0] && TextLess(a[1..], b[1..]))
  }

  lemma {:induction false} TextLessTransitive(a: string, b: string, c: string)
    requires TextLess(a, b) && TextLess(b, c)
    ensures TextLess(a, c)
  {
    if a != "" && a[0] == b[0] && b[0] == c[0] {
      TextLessTransitive(a[1..], b[1..], c[1..]);
    }
  }

  lemma {:induction false} TextLessTotal(a: string, b: string)
    ensures TextLess(a, b) || TextLess(b, a) || a == b
    ensures !(TextLess(a, b) && TextLess(b, a)) && !TextLess(a, a)
  {
    if a != "" && b != "" {
      TextLessTotal(a[1..], b[1..]);
      if a[0] == b[0] && a[1..] == b[1..] {
        assert a == [a[0]] + a[1..] && b == [b[0]] + b[1..];
      }
    }
    if a != "" {
      TextLessTotal(a[1..], a[1..]);
    }
  }

  datatype Cursor = Cursor(at: int, txnNo: string)

  function CursorOf(x: Row): Cursor {
    Cursor(x.createdAt, x.txnNo)
  }

  /** `x` comes after the cursor: it is older, or as old with a smaller number. */
  predicate After(c: Cursor, x: Row) {
    x.createdAt < c.at || (x.createdAt == c.at && TextLess(x.txnNo, c.txnNo))
  }

  lemma AfterTransitive(c: Cursor, x: Row, y: Row)
    requires After(c, x) && After(CursorOf(x), y)
    ensures After(c, y)
  {
    if x.createdAt == c.at && y.createdAt == x.createdAt {
      TextLessTransitive(y.txnNo, x.txnNo, c.txnNo);
    }
  }

  ghost predicate Descending(s: seq<Row>) {
    forall i, j | 0 <= i < j < |s| :: After(CursorOf(s[i]), s[j])
  }

  function Insert(s: seq<Row>, x: Row): seq<Row> {
    if s == [] || After(CursorOf(x), s[0]) then [x] + s else [s[0]] + Insert(s[1..], x)
  }

  /** sort.Slice with the descending order. */
  function SortDescending(s: seq<Row>): seq<Row> {
    if s == [] then [] else Insert(SortDescending(s[..|s| - 1]), s[|s| - 1])
  }

  // ---------- one page ----------

  predicate Matches(q: Query, x: Row) {
    && (q.merchant == "" || x.merchant == q.merchant)
    && (q.outUserId == "" || x.outUserId == q.outUserId)
    && (q.scene == "" || x.scene == q.scene)
    && (q.status == "" || x.status == q.status)
    && (q.startTime.None? || x.createdAt >= q.startTime.value)
    && (q.endTime.None? || x.createdAt <= q.endTime.value)
  }

  function MatchesOf(q: Query): Row -> bool {
    (x: Row) => Matches(q, x)
  }

  function AfterOf(c: Cursor): Row -> bool {
    (x: Row) => After(c, x)
  }

  /** All rows the query selects, in order. */
  function Selected(rows: seq<Row>, q: Query): seq<Row> {
    SortDescending(Filter(MatchesOf(q), rows))
  }

  function Seek(sorted: seq<Row>, token: string): seq<Row> {
    if token == "" then sorted
    else
      match DecodePageToken(token)
      case None => sorted
      case Some((at, no)) => Filter(AfterOf(Cursor(at, no)), sorted)
  }

  function PageSize(q: Query): (n: nat)
    ensures n > 0
  {
    if q.pageSize <= 0 then DEFAULT_PAGE_SIZE else q.pageSize
  }

  /** The rows of one page and the token of the next one, or "". */
  function List(rows: seq<Row>, q: Query, token: string): (seq<Row>, string) {
    var rest := Seek(Selected(rows, q), token);
    var n := PageSize(q);
    if |rest| <= n then (rest, "")
    else (rest[..n], EncodePageToken(rest[n - 1].createdAt, rest[n - 1].txnNo))
  }

  /** The row does not come after the cursor of the token. */
  predicate StaysBehind(x: Row, token: string) {
    token != "" && DecodePageToken(token).Some?
    && var (at, no) := DecodePageToken(token).value; !After(Cursor(at, no), x)
  }

  class TxnQueryService {
    var txns: seq<Row>

    constructor ()
      ensures txns == []
    {
      txns := [];
    }

    method AddTxn(x: Row)
      modifies this
      ensures txns == old(txns) + [x]
      ensures forall q, token | StaysBehind(x, token) :: List(txns, q, token) == List(old(txns), q, token)
    {
      forall q, token | StaysBehind(x, token)
        ensures List(txns + [x], q, token) == List(txns, q, token)
      {
        LaterPagesUnchanged(txns, [x], q, token);
      }
      txns := txns + [x];
    }

    /** The rows that pass the filters, in table order. */
    method Filtered(q: Query) returns (filtered: seq<Row>)
      ensures filtered == Filter(MatchesOf(q), txns)
    {
      filtered := [];
      var i := 0;
      while i < |txns|
        invariant 0 <= i <= |txns| && filtered == Filter(MatchesOf(q), txns[..i])
      {
        FilterNext(MatchesOf(q), txns, i);
        if Matches(q, txns[i]) {
          filtered := filtered + [txns[i]];
        }
        i := i + 1;
      }
      assert txns[..i] == txns;
    }

    method ListPage(q: Query, token: string) returns (page: seq<Row>, next: string)
      ensures (page, next) == List(txns, q, token)
    {
      var filtered := Filtered(q);
      filtered := SortDescending(filtered);
      var cursor := if token == "" then None else DecodePageToken(token);
      if cursor.Some? {
        filtered := RowsAfter(filtered, Cursor(cursor.value.0, cursor.value.1));
      }
      var pageSize := if q.pageSize <= 0 then DEFAULT_PAGE_SIZE else q.pageSize;
      if |filtered| <= pageSize {
        return filtered, "";
      }
      page := filtered[..pageSize];
      var last := page[|page| - 1];
      return page, EncodePageToken(last.createdAt, last.txnNo);
    }
  }

  /** Skip what the cursor has already passed. */
  method RowsAfter(sorted: seq<Row>, c: Cursor) returns (rest: seq<Row>)
    ensures rest == Filter(AfterOf(c), sorted)
  {
    rest := [];
    var j := 0;
    while j < |sorted|
      invariant 0 <= j <= |sorted| && rest == Filter(AfterOf(c), sorted[..j])
    {
      FilterNext(AfterOf(c), sorted, j);
      if After(c, sorted[j]) {
        rest := rest + [sorted[j]];
      }
      j := j + 1;
    }
    assert sorted[..j] == sorted;
  }

  // ---------- sorting ----------

  lemma {:induction false} InsertKeeps(s: seq<Row>, x: Row)
    ensures multiset(Insert(s, x)) == multiset(s) + multiset{x}
  {
    if !(s == [] || After(CursorOf(x), s[0])) {
      InsertKeeps(s[1..], x);
      assert s == [s[0]] + s[1..];
    }
  }

  lemma {:induction false} SortKeeps(s: seq<Row>)
    ensures multiset(SortDescending(s)) == multiset(s)
  {
    if s == [] {
    } else {
      var n := |s| - 1;
      SortKeeps(s[..n]);
      InsertKeeps(SortDescending(s[..n]), s[n]);
      assert s == s[..n] + [s[n]];
    }
  }

  ghost predicate DistinctNumbers(s: seq<Row>) {
    forall i, j | 0 <= i < j < |s| :: s[i].txnNo != s[j].txnNo
  }

  lemma {:induction false} InsertSorted(s: seq<Row>, x: Row)
    requires Descending(s) && forall y | y in s :: y.txnNo != x.txnNo
    ensures Descending(Insert(s, x))
  {
    var r := Insert(s, x);
    if s != [] {
      if After(CursorOf(x), s[0]) {
        forall j | 0 < j < |s|
          ensures After(CursorOf(x), s[j])
        {
          AfterTransitive(CursorOf(x), s[0], s[j]);
        }
      } else {
        TextLessTotal(s[0].txnNo, x.txnNo);
        assert After(CursorOf(s[0]), x);
        var t := Insert(s[1..], x);
        InsertSorted(s[1..], x);
        forall j | 0 <= j < |t|
          ensures After(CursorOf(s[0]), t[j])
        {
          InsertKeeps(s[1..], x);
          assert t[j] in multiset(t);
          if t[j] != x {
            assert t[j] in s[1..];
            var k :| 0 <= k < |s[1..]| && s[1..][k] == t[j];
            assert s[k + 1] == t[j];
          }
        }
      }
    }
  }

  lemma {:induction false} SortMember(s: seq<Row>, y: Row)
    requires y in SortDescending(s)
    ensures y in s
  {
    SortKeeps(s);
    assert y in multiset(SortDescending(s));
  }

  /** The result is in strictly descending order. */
  lemma {:induction false} SortSorts(s: seq<Row>)
    requires DistinctNumbers(s)
    ensures Descending(SortDescending(s))
  {
    if s == [] {
    } else {
      var n := |s| - 1;
      SortSorts(s[..n]);
      forall y | y in SortDescending(s[..n])
        ensures y.txnNo != s[n].txnNo
      {
        SortMember(s[..n], y);
        var k :| 0 <= k < n && s[k] == y;
      }
      InsertSorted(SortDescending(s[..n]), s[n]);
    }
  }

  // ---------- following tokens ----------

  /** Transaction numbers are unique and times fit 64-bit nanoseconds. */
  ghost predicate Good(rows: seq<Row>) {
    DistinctNumbers(rows) && forall x | x in rows :: InInt64(x.createdAt)
  }

  lemma {:induction false} FilterDistinct(p: Row -> bool, rows: seq<Row>)
    requires DistinctNumbers(rows)
    ensures DistinctNumbers(Filter(p, rows))
  {
    if rows == [] {
    } else {
      var rest := Filter(p, rows[1..]);
      FilterDistinct(p, rows[1..]);
      forall y | y in rest
        ensures y.txnNo != rows[0].txnNo
      {
        FilterMember(p, rows[1..], y);
        var k :| 0 <= k < |rows[1..]| && rows[1..][k] == y;
        assert rows[k + 1] == y;
      }
    }
  }

  /** The query's answer: exactly the matching rows, each once, in strictly descending order. */
  lemma {:induction false} SelectedIsSorted(rows: seq<Row>, q: Query)
    requires DistinctNumbers(rows)
    ensures Descending(Selected(rows, q))
    ensures multiset(Selected(rows, q)) == multiset(Filter(MatchesOf(q), rows))
    ensures forall x :: x in Selected(rows, q) <==> x in rows && Matches(q, x)
  {
    var matching := Filter(MatchesOf(q), rows);
    FilterDistinct(MatchesOf(q), rows);
    SortSorts(matching);
    SortKeeps(matching);
    forall x
      ensures x in Selected(rows, q) <==> x in rows && Matches(q, x)
    {
      FilterMember(MatchesOf(q), rows, x);
      assert x in Selected(rows, q) <==> x in multiset(Selected(rows, q));
      assert x in matching <==> x in multiset(matching);
    }
  }

  lemma {:induction false} NotBefore(s: seq<Row>, i: nat, j: nat)
    requires Descending(s) && i <= j < |s|
    ensures !After(CursorOf(s[j]), s[i])
  {
    TextLessTotal(s[i].txnNo, s[j].txnNo);
    if i < j {
      assert After(CursorOf(s[i]), s[j]);
    }
  }

  /** The rows after the k-th row are the rows from position k on. */
  lemma {:induction false} SeekPast(s: seq<Row>, k: nat)
    requires Descending(s) && 0 < k <= |s|
    ensures Filter(AfterOf(CursorOf(s[k - 1])), s) == s[k..]
  {
    var p := AfterOf(CursorOf(s[k - 1]));
    assert s == s[..k] + s[k..];
    FilterConcat(p, s[..k], s[k..]);
    forall x | x in s[..k]
      ensures !p(x)
    {
      var i :| 0 <= i < k && s[i] == x;
      NotBefore(s, i, k - 1);
    }
    FilterNone(p, s[..k]);
    forall x | x in s[k..]
      ensures p(x)
    {
      var i :| 0 <= i < |s[k..]| && s[k..][i] == x;
      assert s[k + i] == x;
    }
    FilterAll(p, s[k..]);
  }

  /** What is left after any cursor is a tail of the sorted rows. */
  lemma {:induction false} AfterIsTail(s: seq<Row>, c: Cursor) returns (m: nat)
    requires Descending(s)
    ensures m <= |s| && Filter(AfterOf(c), s) == s[m..]
  {
    if s == [] {
      m := 0;
    } else if After(c, s[0]) {
      m := 0;
      forall x | x in s
        ensures AfterOf(c)(x)
      {
        var i :| 0 <= i < |s| && s[i] == x;
        if i > 0 {
          AfterTransitive(c, s[0], s[i]);
        }
      }
      FilterAll(AfterOf(c), s);
    } else {
      m := AfterIsTail(s[1..], c);
      assert s[1..][m..] == s[m + 1..];
      m := m + 1;
    }
  }

  lemma {:induction false} SeekIsTail(s: seq<Row>, token: string) returns (m: nat)
    requires Descending(s)
    ensures m <= |s| && Seek(s, token) == s[m..]
  {
    m := 0;
    if token != "" && DecodePageToken(token).Some? {
      var (at, no) := DecodePageToken(token).value;
      m := AfterIsTail(s, Cursor(at, no));
    }
  }

  /** The token of the k-th row leads to the rows after it. */
  lemma {:induction false} SeekFrom(s: seq<Row>, k: nat)
    requires Descending(s) && 0 < k <= |s| && InInt64(s[k - 1].createdAt)
    ensures var next := EncodePageToken(s[k - 1].createdAt, s[k - 1].txnNo);
            next != "" && Seek(s, next) == s[k..]
  {
    var last := s[k - 1];
    DecodeUndoesEncode(last.createdAt, last.txnNo);
    SeekPast(s, k);
    assert |EncodePageToken(last.createdAt, last.txnNo)| > 0;
  }

  lemma {:induction false} TailOfTail<T>(s: seq<T>, m: nat, n: nat, rest: seq<T>)
    requires 0 < n < |rest| && m <= |s| && rest == s[m..]
    ensures m + n <= |s| && rest[n..] == s[m + n..] && rest[n - 1] == s[m + n - 1] && s[m + n - 1] in s
  {
  }

  /** The next token leads exactly to where the page ended. */
  lemma {:induction false} NextPageContinues(rows: seq<Row>, q: Query, token: string)
    requires Good(rows)
    ensures var rest := Seek(Selected(rows, q), token);
            var next := List(rows, q, token).1;
            next != "" ==> |rest| > PageSize(q) && Seek(Selected(rows, q), next) == rest[PageSize(q)..]
  {
    SelectedIsSorted(rows, q);
    var s, n := Selected(rows, q), PageSize(q);
    if |Seek(s, token)| > n {
      var m := SeekIsTail(s, token);
      TailOfTail(s, m, n, Seek(s, token));
      SeekFrom(s, m + n);
    }
  }

  /** All pages from `token` on, following the tokens to the end. */
  ghost function AllPages(rows: seq<Row>, q: Query, token: string): seq<Row>
    requires Good(rows)
    decreases |Seek(Selected(rows, q), token)|
  {
    var (page, next) := List(rows, q, token);
    if next == "" then page
    else
      NextPageContinues(rows, q, token);
      page + AllPages(rows, q, next)
  }

  lemma {:induction false} PagesFromToken(rows: seq<Row>, q: Query, token: string)
    requires Good(rows)
    ensures AllPages(rows, q, token) == Seek(Selected(rows, q), token)
    decreases |Seek(Selected(rows, q), token)|
  {
    var rest, n := Seek(Selected(rows, q), token), PageSize(q);
    var next := List(rows, q, token).1;
    if next != "" {
      NextPageContinues(rows, q, token);
      PagesFromToken(rows, q, next);
      assert rest == rest[..n] + rest[n..];
    }
  }

  /** Following tokens from the start concatenates to the whole answer: every matching row once,
      in descending order, with no gap and no repeat. */
  lemma {:induction false} PagesCoverAnswer(rows: seq<Row>, q: Query)
    requires Good(rows)
    ensures AllPages(rows, q, "") == Selected(rows, q)
    ensures Descending(AllPages(rows, q, ""))
    ensures forall x :: x in AllPages(rows, q, "") <==> x in rows && Matches(q, x)
  {
    PagesFromToken(rows, q, "");
    SelectedIsSorted(rows, q);
  }

  // ---------- rows that arrive meanwhile ----------

  lemma {:induction false} FilterInsert(p: Row -> bool, s: seq<Row>, x: Row)
    requires !p(x)
    ensures Filter(p, Insert(s, x)) == Filter(p, s)
  {
    if s == [] || After(CursorOf(x), s[0]) {
      assert ([x] + s)[1..] == s;
    } else {
      FilterInsert(p, s[1..], x);
      assert ([s[0]] + Insert(s[1..], x))[1..] == Insert(s[1..], x);
    }
  }

  lemma {:induction false} FilterSortAppended(p: Row -> bool, a: seq<Row>, b: seq<Row>)
    requires forall x | x in b :: !p(x)
    ensures Filter(p, SortDescending(a + b)) == Filter(p, SortDescending(a))
  {
    if b == [] {
      assert a + b == a;
    } else {
      var n := |b| - 1;
      assert (a + b)[..|a| + n] == a + b[..n];
      FilterSortAppended(p, a, b[..n]);
      FilterInsert(p, SortDescending(a + b[..n]), b[n]);
    }
  }

  /** New rows that do not come after the cursor leave its page, and all later ones, as they were. */
  lemma {:induction false} LaterPagesUnchanged(rows: seq<Row>, more: seq<Row>, q: Query, token: string)
    requires token != "" && DecodePageToken(token).Some?
    requires var (at, no) := DecodePageToken(token).value;
             forall x | x in more && Matches(q, x) :: !After(Cursor(at, no), x)
    ensures List(rows + more, q, token) == List(rows, q, token)
    ensures Good(rows) && Good(rows + more) ==> AllPages(rows + more, q, token) == AllPages(rows, q, token)
  {
    var (at, no) := DecodePageToken(token).value;
    var added := Filter(MatchesOf(q), more);
    FilterConcat(MatchesOf(q), rows, more);
    forall x | x in added
      ensures !AfterOf(Cursor(at, no))(x)
    {
      FilterMember(MatchesOf(q), more, x);
    }
    FilterSortAppended(AfterOf(Cursor(at, no)), Filter(MatchesOf(q), rows), added);
    if Good(rows) && Good(rows + more) {
      PagesFromToken(rows, q, token);
      PagesFromToken(rows + more, q, token);
    }
  }

  // ---------- the answer, filter by filter ----------

  function Everything(pageSize: int): Query {
    Query("", "", "", "", None, None, pageSize)
  }

  /** Without filters the pages show every row. */
  lemma {:induction false} NoFilterShowsAll(rows: seq<Row>, pageSize: int)
    requires Good(rows)
    ensures multiset(AllPages(rows, Everything(pageSize), "")) == multiset(rows)
  {
    var q := Everything(pageSize);
    PagesCoverAnswer(rows, q);
    FilterAll(MatchesOf(q), rows);
    SelectedIsSorted(rows, q);
  }

  /** Some page of the query shows the row. */
  ghost predicate Shown(rows: seq<Row>, q: Query, x: Row)
    requires Good(rows)
  {
    x in AllPages(rows, q, "")
  }

  lemma {:induction false} ShownIffMatches(rows: seq<Row>, q: Query, x: Row)
    requires Good(rows)
    ensures Shown(rows, q, x) <==> x in rows && Matches(q, x)
  {
    PagesCoverAnswer(rows, q);
  }

  /** Each filter narrows the answer to exactly the rows with the wanted value, whatever the other
      filters are: so for the merchant and the user, */
  lemma {:induction false} PartiesNarrow(rows: seq<Row>, q: Query, text: string, x: Row)
    requires Good(rows) && text != ""
    ensures Shown(rows, q.(merchant := text), x) <==> Shown(rows, q.(merchant := ""), x) && x.merchant == text
    ensures Shown(rows, q.(outUserId := text), x) <==> Shown(rows, q.(outUserId := ""), x) && x.outUserId == text
  {
    ShownIffMatches(rows, q.(merchant := text), x);
    ShownIffMatches(rows, q.(merchant := ""), x);
    ShownIffMatches(rows, q.(outUserId := text), x);
    ShownIffMatches(rows, q.(outUserId := ""), x);
  }

  /** and for the scene and the status. */
  lemma {:induction false} KindsNarrow(rows: seq<Row>, q: Query, text: string, x: Row)
    requires Good(rows) && text != ""
    ensures Shown(rows, q.(scene := text), x) <==> Shown(rows, q.(scene := ""), x) && x.scene == text
    ensures Shown(rows, q.(status := text), x) <==> Shown(rows, q.(status := ""), x) && x.status == text
  {
    ShownIffMatches(rows, q.(scene := text), x);
    ShownIffMatches(rows, q.(scene := ""), x);
    ShownIffMatches(rows, q.(status := text), x);
    ShownIffMatches(rows, q.(status := ""), x);
  }

  /** The times asked for are the first and the last that are shown. */
  lemma {:induction false} TimesNarrow(rows: seq<Row>, q: Query, time: int, x: Row)
    requires Good(rows)
    ensures Shown(rows, q.(startTime := Some(time)), x)
            <==> Shown(rows, q.(startTime := None), x) && time <= x.createdAt
    ensures Shown(rows, q.(endTime := Some(time)), x) <==> Shown(rows, q.(endTime := None), x) && x.createdAt <= time
  {
    ShownIffMatches(rows, q.(startTime := Some(time)), x);
    ShownIffMatches(rows, q.(startTime := None), x);
    ShownIffMatches(rows, q.(endTime := Some(time)), x);
    ShownIffMatches(rows, q.(endTime := None), x);
  }

  /** Newest first: a row is never shown before a younger one, and rows of the same time are shown in
      descending order of their numbers. */
  lemma {:induction false} NewestFirst(rows: seq<Row>, q: Query, i: nat, j: nat)
    requires Good(rows) && i < j < |AllPages(rows, q, "")|
    ensures var s := AllPages(rows, q, "");
            && s[i].createdAt >= s[j].createdAt
            && (s[i].createdAt == s[j].createdAt ==> exists k: nat :: LessAt(s[j].txnNo, s[i].txnNo, k))
  {
    PagesCoverAnswer(rows, q);
    var s := AllPages(rows, q, "");
    assert After(CursorOf(s[i]), s[j]);
    if s[i].createdAt == s[j].createdAt {
      var k := FirstDifference(s[j].txnNo, s[i].txnNo);
    }
  }

  /** The texts agree up to position `k`, where `a` ends or has the smaller character. */
  predicate LessAt(a: string, b: string, k: nat) {
    && k <= |a| && k < |b| && a[..k] == b[..k]
    && (k == |a| || a[k] < b[k])
  }

  lemma {:induction false} FirstDifference(a: string, b: string) returns (k: nat)
    requires TextLess(a, b)
    ensures LessAt(a, b, k)
  {
    if a == "" || a[0] < b[0] {
      k := 0;
    } else {
      k := FirstDifference(a[1..], b[1..]);
      k := k + 1;
      assert a[..k] == [a[0]] + a[1..][..k - 1] && b[..k] == [b[0]] + b[1..][..k - 1];
    }
  }

  /** A page holds as many rows as were asked for, 20 if that is not positive, and fewer only at the
      end; only then there is no next page. */
  lemma {:induction false} PageIsFull(rows: seq<Row>, q: Query, token: string)
    ensures var (page, next) := List(rows, q, token);
            var asked := if q.pageSize > 0 then q.pageSize else 20;
            && |page| <= asked
            && (next != "" ==> |page| == asked)
            && (next == "" <==> page == Seek(Selected(rows, q), token))
  {
    var rest, n := Seek(Selected(rows, q), token), PageSize(q);
    if |rest| > n {
      assert |EncodePageToken(rest[n - 1].createdAt, rest[n - 1].txnNo)| > 0;
    }
  }

  /** A token without a bar in it, or with no number before its first bar, starts from the beginning. */
  lemma {:induction false} BadTokenStartsOver(rows: seq<Row>, q: Query, before: string, after: string)
    requires '|' !in before
    ensures List(rows, q, before) == List(rows, q, "")
    ensures ParseInt(before) == None ==>
              List(rows, q, before + "|" + after) == List(rows, q, "")
  {
    NoSplit(before);
    SplitAtFirst(before, after);
  }

  lemma {:induction false} NoSplit(s: string)
    requires '|' !in s
    ensures Split(s) == None
  {
    if s != "" {
      NoSplit(s[1..]);
    }
  }
}

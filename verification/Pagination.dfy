/**
 Keyset pagination: pages of rows in descending order of id, each page starting below the last
 row of the page before, over a table that changes between the requests.
 */
module Pagination {
  import opened Wrappers
  import opened CursorCodec

  /* ----- the query: WHERE id < cursor ORDER BY id DESC LIMIT limit ----- */

  predicate Descending(ids: seq<nat>) {
    forall i, j :: 0 <= i < j < |ids| ==> ids[i] > ids[j]
  }

  function Largest(ids: set<nat>): (x: nat)
    requires ids != {}
    ensures x in ids && forall y :: y in ids ==> y <= x
  {
    LargestExists(ids);
    var x :| x in ids && forall y :: y in ids ==> y <= x;
    x
  }

  lemma {:induction false} LargestExists(ids: set<nat>)
    requires ids != {}
    ensures exists x :: x in ids && forall y :: y in ids ==> y <= x
    decreases |ids|
  {
    var x :| x in ids;
    var rest := ids - {x};
    assert ids == rest + {x};
    if rest != {} {
      LargestExists(rest);
      var m :| m in rest && forall y :: y in rest ==> y <= m;
      if m > x {
        assert m in ids && forall y :: y in ids ==> y <= m;
      } else {
        assert forall y :: y in ids ==> y <= x;
      }
    }
  }

  function SortedDescending(ids: set<nat>): (r: seq<nat>)
    ensures |r| == |ids| && forall x :: x in r <==> x in ids
    decreases |ids|
  {
    if ids == {} then []
    else
      var x := Largest(ids);
      assert ids == {x} + (ids - {x});
      [x] + SortedDescending(ids - {x})
  }

  lemma SortedUnfolds(ids: set<nat>)
    requires ids != {}
    ensures SortedDescending(ids) == [Largest(ids)] + SortedDescending(ids - {Largest(ids)})
    ensures forall y :: y in ids - {Largest(ids)} ==> y < Largest(ids)
  {
  }

  lemma {:induction false} SortedIsDescending(ids: set<nat>)
    ensures Descending(SortedDescending(ids))
    decreases |ids|
  {
    hide Descending, SortedDescending, Largest;
    if ids == {} {
      DescendingShort();
    } else {
      SortedUnfolds(ids);
      var rest := ids - {Largest(ids)};
      assert rest < ids && |rest| < |ids| by { assert ids == rest + {Largest(ids)}; }
      SortedIsDescending(rest);
      DescendingCons(Largest(ids), SortedDescending(rest));
    }
  }

  lemma DescendingShort()
    ensures Descending([])
  {
  }

  lemma DescendingCons(x: nat, s: seq<nat>)
    requires Descending(s) && forall y :: y in s ==> y < x
    ensures Descending([x] + s)
  {
    var t := [x] + s;
    forall i, j | 0 <= i < j < |t| ensures t[i] > t[j] {
      assert t[j] == s[j - 1] && s[j - 1] in s;
      if i > 0 { assert t[i] == s[i - 1]; }
    }
  }

  /** The rows a query may return: the ids below the cursor, or all of them without one. */
  function Below(table: set<nat>, cursor: Option<nat>): set<nat> {
    if cursor.None? then table else set x | x in table && x < cursor.value
  }

  function Take<T>(s: seq<T>, n: nat): seq<T> {
    if |s| <= n then s else s[..n]
  }

  function Query(table: set<nat>, cursor: Option<nat>, limit: nat): seq<nat> {
    Take(SortedDescending(Below(table, cursor)), limit)
  }

  /* ----- one request ----- */

  /** How ids are written in cursors and read by the server's cast to uuid. */
  datatype IdText = IdText(show: nat -> string, parse: string -> Option<nat>)

  ghost predicate Faithful(text: IdText) {
    forall id: nat {:trigger text.show(id)} :: text.show(id) != "" && text.parse(text.show(id)) == Some(id)
  }

  datatype Page = Page(items: seq<nat>, endCursor: Option<string>)

  datatype PageError = NotAnId

  /** The keyset a request asks for; a cursor that does not decode, or to nothing, asks for the start. */
  function CursorOf(after: Option<string>): string {
    if after.None? || after.value == "" then ""
    else
      var decoded := DecodeCursor(after.value);
      if decoded.None? then "" else decoded.value
  }

  function FetchPage(table: set<nat>, cursor: string, limit: nat, text: IdText): Result<seq<nat>, PageError> {
    if cursor == "" then Ok(Query(table, None, limit))
    else if text.parse(cursor).None? then Err(NotAnId)
    else Ok(Query(table, text.parse(cursor), limit))
  }

  /** apply_cursor_pagination over the rows in the table at the time of the request. */
  function Paginate(table: set<nat>, first: nat, after: Option<string>, text: IdText): Result<Page, PageError> {
    var fetched := FetchPage(table, CursorOf(after), first + 1, text);
    if fetched.Err? then Err(fetched.error)
    else
      var items := if |fetched.value| > first then fetched.value[..first] else fetched.value;
      Ok(Page(items, if items == [] then None else Some(EncodeCursor(text.show(items[|items| - 1])))))
  }

  /** The cursor a client holds after a page that ended at this id (None: it starts). */
  function Held(last: Option<nat>, text: IdText): Option<string> {
    if last.None? then None else Some(EncodeCursor(text.show(last.value)))
  }

  lemma HeldCursorIsRead(table: set<nat>, limit: nat, last: Option<nat>, text: IdText)
    requires Faithful(text)
    ensures FetchPage(table, CursorOf(Held(last, text)), limit, text) == Ok(Query(table, last, limit))
  {
    hide EncodeCursor, DecodeCursor, Query;
    if last.Some? { CursorRoundTrip(text.show(last.value)); }
  }

  function Last(items: seq<nat>): nat
    requires items != []
  {
    items[|items| - 1]
  }

  /** The largest ids below the cursor. */
  function Top(table: set<nat>, last: Option<nat>, first: nat): seq<nat> {
    Take(SortedDescending(Below(table, last)), first)
  }

  lemma TakenFromTheTop(table: set<nat>, first: nat, last: Option<nat>)
    ensures
      var items := Top(table, last, first);
      && Descending(items)
      && |items| == (if |Below(table, last)| <= first then |Below(table, last)| else first)
      && (forall x :: x in items ==> x in Below(table, last))
      && (|items| > 0 ==> forall x :: x in Below(table, last) && x >= Last(items) ==> x in items)
  {
    SortedIsDescending(Below(table, last));
    hide SortedDescending, Below;
    var all := SortedDescending(Below(table, last));
    var items := Take(all, first);
    forall x | x in Below(table, last) && |items| > 0 && x >= items[|items| - 1] ensures x in items {
      var k :| 0 <= k < |all| && all[k] == x;
      assert k < |items|;
      assert items[k] == x;
    }
  }

  predicate Asked(table: set<nat>, last: Option<nat>, x: nat) {
    x in table && (last.Some? ==> x < last.value)
  }

  /**
   In descending order, ids of the table below the cursor, `first` of them at most; one that is left out is below
   all of them, and there are then `first`.
   */
  ghost predicate IsTop(table: set<nat>, last: Option<nat>, first: nat, items: seq<nat>) {
    && |items| <= first && Descending(items)
    && (forall x :: x in items ==> Asked(table, last, x))
    && forall x :: Asked(table, last, x) && x !in items ==> |items| == first && forall y :: y in items ==> x < y
  }

  /** What a full page leaves out is below all of it. */
  lemma TakeIs(all: seq<nat>, first: nat, x: nat)
    requires Descending(all) && x in all && x !in Take(all, first)
    ensures |Take(all, first)| == first && forall y :: y in Take(all, first) ==> x < y
  {
    var k :| 0 <= k < |all| && all[k] == x;
    var items := Take(all, first);
    assert forall j :: 0 <= j < |items| ==> items[j] == all[j] && items[j] in items;
    forall y | y in items ensures x < y {
      var j :| 0 <= j < |items| && items[j] == y;
      assert all[j] == y;
    }
  }

  lemma TakenIsTop(table: set<nat>, last: Option<nat>, first: nat, all: seq<nat>)
    requires Descending(all) && forall x :: x in all <==> Asked(table, last, x)
    ensures IsTop(table, last, first, Take(all, first))
  {
    var items := Take(all, first);
    forall x | x in all && x !in items ensures |items| == first && forall y :: y in items ==> x < y {
      TakeIs(all, first, x);
    }
    assert forall x :: x in items ==> x in all;
    hide Asked;
  }

  lemma TopIs(table: set<nat>, last: Option<nat>, first: nat)
    ensures IsTop(table, last, first, Top(table, last, first))
  {
    SortedIsDescending(Below(table, last));
    var all := SortedDescending(Below(table, last));
    hide SortedDescending, IsTop;
    TakenIsTop(table, last, first, all);
  }

  lemma TakeTwice(all: seq<nat>, first: nat)
    ensures
      var fetched := Take(all, first + 1);
      Take(all, first) == if |fetched| > first then fetched[..first] else fetched
  {
  }

  /** A page is the largest ids below the cursor, at most `first` of them, with the cursor of its last row. */
  lemma PageIsTheNextRows(table: set<nat>, first: nat, last: Option<nat>, text: IdText)
    requires Faithful(text)
    ensures
      var items := Top(table, last, first);
      Paginate(table, first, Held(last, text), text)
        == Ok(Page(items, if items == [] then None else Held(Some(Last(items)), text)))
  {
    HeldCursorIsRead(table, first + 1, last, text);
    TakeTwice(SortedDescending(Below(table, last)), first);
    hide EncodeCursor, FetchPage, CursorOf, SortedDescending, Below, Faithful, Take;
  }

  /** The start is what a client gets with no cursor, an empty one, or one that does not decode. */
  lemma UnreadableCursorStartsOver(table: set<nat>, first: nat, after: string, text: IdText)
    requires DecodeCursor(after) == None
    ensures Paginate(table, first, Some(after), text) == Paginate(table, first, None, text)
    ensures Paginate(table, first, Some(""), text) == Paginate(table, first, None, text)
  {
    hide DecodeCursor, EncodeCursor, FetchPage;
    assert CursorOf(Some(after)) == CursorOf(Some("")) == CursorOf(None) == "";
  }

  /* ----- a walk ----- */

  /** The pages of a client that follows end cursors while the table changes; it stops at an empty page. */
  function Walk(tables: seq<set<nat>>, first: nat, after: Option<string>, text: IdText): seq<seq<nat>>
    decreases |tables|
  {
    if tables == [] then []
    else
      var r := Paginate(tables[0], first, after, text);
      if r.Err? || r.value.endCursor.None? then [[]]
      else [r.value.items] + Walk(tables[1..], first, r.value.endCursor, text)
  }

  /** The same walk over ids, without cursors. */
  function IdWalk(tables: seq<set<nat>>, first: nat, last: Option<nat>): seq<seq<nat>>
    decreases |tables|
  {
    if tables == [] then []
    else
      var items := Top(tables[0], last, first);
      if items == [] then [[]] else [items] + IdWalk(tables[1..], first, Some(Last(items)))
  }

  /** Nothing is lost in transit: following cursors is walking by id. */
  lemma {:induction false} CursorsCarryIds(tables: seq<set<nat>>, first: nat, last: Option<nat>, text: IdText)
    requires Faithful(text)
    ensures Walk(tables, first, Held(last, text), text) == IdWalk(tables, first, last)
    decreases |tables|
  {
    hide Paginate, Top, Faithful;
    if tables != [] {
      PageIsTheNextRows(tables[0], first, last, text);
      var items := Top(tables[0], last, first);
      if items != [] {
        CursorsCarryIds(tables[1..], first, Some(Last(items)), text);
      }
    }
  }

  function Flatten(pages: seq<seq<nat>>): seq<nat> {
    if pages == [] then [] else pages[0] + Flatten(pages[1..])
  }

  predicate Finished(pages: seq<seq<nat>>) {
    |pages| > 0 && pages[|pages| - 1] == []
  }

  predicate Before(last: Option<nat>, x: nat) {
    last.Some? ==> x < last.value
  }

  lemma DescendingConcat(a: seq<nat>, b: seq<nat>)
    requires Descending(a) && Descending(b) && a != [] && forall x :: x in b ==> x < Last(a)
    ensures Descending(a + b)
  {
    forall i, j | 0 <= i < j < |a + b| ensures (a + b)[i] > (a + b)[j] {
      if i < |a| <= j { assert (a + b)[j] in b; }
    }
  }

  lemma LastIsIn(items: seq<nat>)
    requires items != []
    ensures Last(items) in items
  {
  }

  lemma {:induction false} IdWalkDescends(tables: seq<set<nat>>, first: nat, last: Option<nat>)
    requires first >= 1
    ensures
      var pages := IdWalk(tables, first, last);
      && Descending(Flatten(pages))
      && (forall x :: x in Flatten(pages) ==> Before(last, x))
      && |pages| <= |tables|
      && forall i :: 0 <= i < |pages| ==> forall x :: x in pages[i] ==> x in tables[i]
    decreases |tables|
  {
    hide Top, Descending;
    DescendingShort();
    if tables != [] {
      TakenFromTheTop(tables[0], first, last);
      var items := Top(tables[0], last, first);
      if items == [] {
        assert IdWalk(tables, first, last) == [items] && Flatten([items]) == [];
      } else {
        IdWalkDescends(tables[1..], first, Some(Last(items)));
        var rest := IdWalk(tables[1..], first, Some(Last(items)));
        assert IdWalk(tables, first, last) == [items] + rest;
        assert ([items] + rest)[1..] == rest;
        DescendingConcat(items, Flatten(rest));
        LastIsIn(items);
      }
    }
  }

  lemma LastIsLeast(items: seq<nat>)
    requires Descending(items) && items != []
    ensures forall x :: x in items ==> x >= Last(items)
  {
  }

  /**
   Whatever is inserted and deleted between the requests, the rows of a walk come in strictly
   descending order, so none comes twice, and none was absent when its page was read.
   */
  lemma WalkDescends(tables: seq<set<nat>>, first: nat, text: IdText)
    requires Faithful(text) && first >= 1
    ensures
      var pages := Walk(tables, first, None, text);
      && Descending(Flatten(pages)) && |pages| <= |tables|
      && forall i :: 0 <= i < |pages| ==> forall x :: x in pages[i] ==> x in tables[i]
  {
    hide Descending, Flatten;
    CursorsCarryIds(tables, first, None, text);
    IdWalkDescends(tables, first, None);
  }

  lemma {:induction false} IdWalkMissesNothing(tables: seq<set<nat>>, first: nat, last: Option<nat>, x: nat)
    requires first >= 1 && Finished(IdWalk(tables, first, last))
    requires Before(last, x) && forall i :: 0 <= i < |tables| ==> x in tables[i]
    ensures x in Flatten(IdWalk(tables, first, last))
    decreases |tables|
  {
    hide Top, Descending;
    TakenFromTheTop(tables[0], first, last);
    var items := Top(tables[0], last, first);
    assert x in Below(tables[0], last);
    var rest := IdWalk(tables[1..], first, Some(Last(items)));
    assert IdWalk(tables, first, last) == [items] + rest;
    assert ([items] + rest)[1..] == rest;
    if x < Last(items) {
      IdWalkMissesNothing(tables[1..], first, Some(Last(items)), x);
    }
  }

  /** A walk that has come to its empty page has returned every row that was there at every request, exactly once. */
  lemma StayedRowsComeExactlyOnce(tables: seq<set<nat>>, first: nat, text: IdText, x: nat)
    requires Faithful(text) && first >= 1 && Finished(Walk(tables, first, None, text))
    requires forall i :: 0 <= i < |tables| ==> x in tables[i]
    ensures multiset(Flatten(Walk(tables, first, None, text)))[x] == 1
  {
    hide Walk, Flatten, IdWalk;
    CursorsCarryIds(tables, first, None, text);
    IdWalkDescends(tables, first, None);
    IdWalkMissesNothing(tables, first, None, x);
    DescendingIsOnce(Flatten(Walk(tables, first, None, text)), x);
  }

  lemma HeadIsLargest(s: seq<nat>)
    requires Descending(s) && s != []
    ensures Descending(s[1..]) && s[0] !in s[1..] && s == [s[0]] + s[1..]
  {
  }

  lemma {:induction false} DescendingIsOnce(s: seq<nat>, x: nat)
    requires Descending(s)
    ensures multiset(s)[x] == if x in s then 1 else 0
  {
    hide Descending;
    if s != [] {
      HeadIsLargest(s);
      DescendingIsOnce(s[1..], x);
    }
  }

  /**
   The guarantee cannot cover a row inserted at or above the place a walk has reached: the rest of it never
   returns one.
   */
  lemma LateRowsAreNotSeen(tables: seq<set<nat>>, first: nat, last: nat, text: IdText, x: nat)
    requires Faithful(text) && first >= 1 && x >= last
    ensures x !in Flatten(Walk(tables, first, Held(Some(last), text), text))
  {
    hide Walk, Flatten, IdWalk, Descending;
    CursorsCarryIds(tables, first, Some(last), text);
    IdWalkDescends(tables, first, Some(last));
  }

  /* ----- a table that does not change ----- */

  function Repeat(table: set<nat>, n: nat): (r: seq<set<nat>>)
    ensures |r| == n && forall i :: 0 <= i < n ==> r[i] == table
  {
    seq(n, _ => table)
  }

  function Members(items: seq<nat>): (r: set<nat>)
    ensures forall x :: x in r <==> x in items
  {
    if items == [] then {} else {items[0]} + Members(items[1..])
  }

  lemma {:induction false} DescendingSetSize(items: seq<nat>)
    requires Descending(items)
    ensures |Members(items)| == |items|
  {
    hide Descending;
    if items != [] {
      HeadIsLargest(items);
      DescendingSetSize(items[1..]);
    }
  }

  lemma SplitAt(all: set<nat>, taken: set<nat>, m: nat)
    requires taken <= all && (forall x :: x in all && x >= m ==> x in taken) && (forall x :: x in taken ==> x >= m)
    ensures |set x | x in all && x < m| == |all| - |taken|
  {
    var rest := set x | x in all && x < m;
    assert all == taken + rest && taken !! rest;
  }

  /** Moving the cursor to the end of a page takes exactly the page away. */
  lemma PageIsTakenAway(table: set<nat>, first: nat, last: Option<nat>)
    requires Top(table, last, first) != []
    ensures |Below(table, Some(Last(Top(table, last, first))))| == |Below(table, last)| - |Top(table, last, first)|
  {
    TakenFromTheTop(table, first, last);
    var items := Top(table, last, first);
    hide Top, Descending, Last, Members;
    LastIsLeast(items);
    DescendingSetSize(items);
    LastIsIn(items);
    SplitAt(Below(table, last), Members(items), Last(items));
    BelowTheLast(table, last, Last(items));
  }

  lemma BelowTheLast(table: set<nat>, last: Option<nat>, m: nat)
    requires m in Below(table, last)
    ensures Below(table, Some(m)) == set x | x in Below(table, last) && x < m
  {
  }

  lemma {:induction false} FixedIdWalk(table: set<nat>, first: nat, last: Option<nat>, n: nat)
    requires first >= 1 && n > |Below(table, last)|
    ensures
      var pages := IdWalk(Repeat(table, n), first, last);
      var full := |pages| - 1;
      && full >= 0 && pages[full] == []
      && (forall i :: 0 <= i < full ==> |pages[i]| == if i < full - 1 then first else |Below(table, last)| - i * first)
      && (forall i :: 0 <= i < full ==> 1 <= |pages[i]| <= first)
      && (full == 0 <==> Below(table, last) == {})
    decreases n
  {
    hide Top, Descending, Below;
    TakenFromTheTop(table, first, last);
    var items := Top(table, last, first);
    assert Repeat(table, n)[1..] == Repeat(table, n - 1);
    if items != [] {
      PageIsTakenAway(table, first, last);
      var next := Some(Last(items));
      FixedIdWalk(table, first, next, n - 1);
      var rest := IdWalk(Repeat(table, n - 1), first, next);
      var pages := IdWalk(Repeat(table, n), first, last);
      assert pages == [items] + rest;
      var full := |pages| - 1;
      forall i | 0 <= i < full
        ensures |pages[i]| == (if i < full - 1 then first else |Below(table, last)| - i * first)
          && 1 <= |pages[i]| <= first
      {
        if i > 0 {
          assert pages[i] == rest[i - 1] && (i - 1) * first == i * first - first;
        }
      }
    }
  }

  /**
   Over N unchanging rows a walk is ceil(N / first) non-empty pages, all but the last of them full, then one
   empty page.
   */
  lemma FixedTableWalk(table: set<nat>, first: nat, text: IdText, n: nat)
    requires Faithful(text) && first >= 1 && n > |table|
    ensures
      var pages := Walk(Repeat(table, n), first, None, text);
      var full := |pages| - 1;
      && full >= 0 && pages[full] == []
      && full * first >= |table| && (full > 0 ==> (full - 1) * first < |table|)
      && (forall i :: 0 <= i < full - 1 ==> |pages[i]| == first)
      && (full > 0 ==> |pages[full - 1]| == |table| - (full - 1) * first)
  {
    hide Walk, IdWalk;
    CursorsCarryIds(Repeat(table, n), first, None, text);
    FixedIdWalk(table, first, None, n);
    assert Below(table, None) == table;
    var pages := Walk(Repeat(table, n), first, None, text);
    var full := |pages| - 1;
    if full > 0 {
      assert 1 <= |pages[full - 1]| == |table| - (full - 1) * first <= first;
      assert full * first == (full - 1) * first + first;
    }
  }

  /* ----- pages keyed by a time that is not unique ----- */

  /** The times of the rows, newest first. */
  predicate NewestFirst(times: seq<int>) {
    forall i, j :: 0 <= i < j < |times| ==> times[i] >= times[j]
  }

  /** WHERE created_at < cursor, over rows that are newest first. */
  function Earlier(times: seq<int>, cursor: int): (r: seq<int>)
    ensures |r| <= |times|
  {
    if times == [] then [] else if times[0] < cursor then times else Earlier(times[1..], cursor)
  }

  /** The rows a client sees that asks for `first` rows and then for those before the time of the last. */
  function TimeWalk(times: seq<int>, first: nat): (r: seq<int>)
    requires first >= 1
    ensures |r| <= |times|
    decreases |times|
  {
    if |times| <= first then times
    else times[..first] + TimeWalk(Earlier(times[first..], times[first - 1]), first)
  }

  /** No two rows of one time fall to both sides of a page boundary. */
  predicate NoTieAtAPageEnd(times: seq<int>, first: nat)
    requires first >= 1
    decreases |times|
  {
    |times| <= first || (times[first] != times[first - 1] && NoTieAtAPageEnd(times[first..], first))
  }

  /** Such pages lose rows exactly if one ends between rows of the same time; else they are all the rows in order. */
  lemma {:induction false} TiesAtAPageEndAreLost(times: seq<int>, first: nat)
    requires first >= 1 && NewestFirst(times)
    ensures TimeWalk(times, first) == times <==> NoTieAtAPageEnd(times, first)
    ensures !NoTieAtAPageEnd(times, first) ==> |TimeWalk(times, first)| < |times|
    decreases |times|
  {
    if |times| > first {
      assert times == times[..first] + times[first..];
      TiesAtAPageEndAreLost(times[first..], first);
    }
  }

  /** Such a loss: of two rows of one time, pages of one row show one. */
  lemma TiedRowIsLost(time: int)
    ensures NewestFirst([time, time]) && !NoTieAtAPageEnd([time, time], 1) && TimeWalk([time, time], 1) == [time]
  {
    var both := [time, time];
    assert both[1..] == [time] && both[..1] == [time];
    assert Earlier([time], time) == [] && TimeWalk([], 1) == [];
  }
}

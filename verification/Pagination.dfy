/** Page numbers with runs left out, and the arithmetic of moving between pages. */
module Pagination {
  import opened Prelude

  function Max(a: int, b: int): int { if a < b then b else a }

  function Min(a: int, b: int): int { if a < b then a else b }

  function Pages(total: nat, limit: nat): int
    requires limit > 0
  {
    Max(1, (total + limit - 1) / limit)
  }

  function Current(total: nat, offset: nat, limit: nat): int
    requires limit > 0
  {
    Min(Pages(total, limit), offset / limit + 1)
  }

  /** The numbers a drawn row stands for: a gap stands for every page strictly
      between its neighbours. */
  function Expand(row: seq<Option<int>>, after: int): seq<int>
  {
    if row == [] then [] else First(row, after) + Expand(row[1..], Next(row, after))
  }

  /** What the first item of a row stands for, after a page. */
  function First(row: seq<Option<int>>, after: int): seq<int>
    requires row != []
  {
    if row[0].Some? then [row[0].value]
    else if |row| > 1 && row[1].Some? && row[1].value > after then Between(after, row[1].value)
    else []
  }

  /** The page the first item of a row reaches. */
  function Next(row: seq<Option<int>>, after: int): int
    requires row != []
  {
    if row[0].Some? then row[0].value
    else if |row| > 1 && row[1].Some? && row[1].value > after then row[1].value - 1
    else after
  }

  function Between(a: int, b: int): (r: seq<int>)
    requires a < b
    ensures |r| == b - a - 1 && forall i :: 0 <= i < |r| ==> r[i] == a + 1 + i
  {
    seq(b - a - 1, i requires 0 <= i < b - a - 1 => a + 1 + i)
  }

  function UpTo(n: int): (r: seq<int>)
    ensures |r| == (if n < 0 then 0 else n) && forall i :: 0 <= i < |r| ==> r[i] == i + 1
  {
    if n < 0 then [] else seq(n, i requires 0 <= i < n => i + 1)
  }

  /** The page a drawn row ends at, or `start` for an empty row. */
  function LastPage(row: seq<Option<int>>, start: int): int {
    if row == [] then start
    else if row[|row| - 1].Some? then row[|row| - 1].value
    else start
  }

  /** Items put behind a row that ends in a page leave its first item's meaning. */
  lemma {:induction false} ExpandBefore(row: seq<Option<int>>, after: int, more: seq<Option<int>>)
    requires row != [] && row[|row| - 1].Some?
    ensures Expand(row + more, after) == First(row, after) + Expand(row[1..] + more, Next(row, after))
  {
    assert (row + more)[1..] == row[1..] + more;
    assert |row| > 1 ==> (row + more)[1] == row[1];
  }

  lemma Regroup(a: seq<int>, b: seq<int>, c: seq<int>)
    ensures a + (b + c) == a + b + c
  {
  }

  lemma {:induction false} ExpandAppendPage(row: seq<Option<int>>, after: int, p: int)
    requires row == [] || row[|row| - 1].Some?
    ensures Expand(row + [Some(p)], after) == Expand(row, after) + [p]
  {
    if row == [] {
      assert row + [Some(p)] == [Some(p)];
      assert [Some(p)][1..] == [];
    } else {
      ExpandBefore(row, after, [Some(p)]);
      ExpandAppendPage(row[1..], Next(row, after), p);
      Regroup(First(row, after), Expand(row[1..], Next(row, after)), [p]);
    }
  }

  lemma {:induction false} ExpandAppendGap(row: seq<Option<int>>, after: int, p: int)
    requires row == [] || row[|row| - 1].Some?
    requires LastPage(row, after) < p
    ensures Expand(row + [None, Some(p)], after) == Expand(row, after) + (Between(LastPage(row, after), p) + [p])
  {
    var more: seq<Option<int>> := [None, Some(p)];
    if row == [] {
      assert row + more == more;
      assert more[1..] == [Some(p)] && [Some(p)][1..] == [];
      assert Expand([Some(p)], p - 1) == [p];
    } else {
      var next := Next(row, after);
      ExpandBefore(row, after, more);
      assert LastPage(row[1..], next) == LastPage(row, after);
      ExpandAppendGap(row[1..], next, p);
      Regroup(First(row, after), Expand(row[1..], next), Between(LastPage(row, after), p) + [p]);
    }
  }

  /** No gap hides fewer than two pages. */
  predicate GapsHideTwo(row: seq<Option<int>>) {
    forall i :: 0 <= i < |row| && row[i].None? ==>
      0 < i < |row| - 1 && row[i - 1].Some? && row[i + 1].Some? && row[i + 1].value - row[i - 1].value > 2
  }

  /** One more page drawn after `previous`: a lone missing page is drawn too, a
      longer run leaves a gap. */
  function Draw(out: seq<Option<int>>, previous: int, page: int): seq<Option<int>> {
    (if page - previous == 2 then out + [Some(page - 1)]
     else if page - previous > 2 then out + [None]
     else out) + [Some(page)]
  }

  /** The row so far ends at `previous` and stands for every page up to it. */
  ghost predicate Drawn(out: seq<Option<int>>, previous: int) {
    && previous == LastPage(out, 0)
    && (out == [] ==> previous == 0) && (out != [] ==> out[|out| - 1] == Some(previous))
    && Expand(out, 0) == UpTo(previous)
    && GapsHideTwo(out)
  }

  lemma DrawKeeps(out: seq<Option<int>>, previous: int, page: int)
    requires Drawn(out, previous) && 0 <= previous < page && (previous == 0 ==> page == 1)
    ensures Drawn(Draw(out, previous, page), page)
  {
    DrawExpands(out, previous, page);
    DrawGaps(out, previous, page);
  }

  lemma DrawExpands(out: seq<Option<int>>, previous: int, page: int)
    requires Drawn(out, previous) && 0 <= previous < page
    ensures Expand(Draw(out, previous, page), 0) == UpTo(page)
  {
    if page - previous > 2 {
      ExpandAppendGap(out, 0, page);
      assert Draw(out, previous, page) == out + [None, Some(page)];
      UpToFurther(previous, page);
    } else if page - previous == 2 {
      OnePageFurther(out, page - 1);
      OnePageFurther(out + [Some(page - 1)], page);
    } else {
      OnePageFurther(out, page);
    }
  }

  lemma OnePageFurther(out: seq<Option<int>>, page: int)
    requires 0 < page && (out == [] || out[|out| - 1].Some?) && Expand(out, 0) == UpTo(page - 1)
    ensures Expand(out + [Some(page)], 0) == UpTo(page)
  {
    ExpandAppendPage(out, 0, page);
    UpToNext(page);
  }

  lemma UpToNext(page: int)
    requires 0 < page
    ensures UpTo(page - 1) + [page] == UpTo(page)
  {
    var r := UpTo(page - 1) + [page];
    assert |r| == |UpTo(page)|;
    assert forall i :: 0 <= i < page ==> r[i] == UpTo(page)[i];
  }

  lemma UpToFurther(previous: int, page: int)
    requires 0 <= previous < page
    ensures UpTo(previous) + (Between(previous, page) + [page]) == UpTo(page)
  {
  }

  lemma DrawGaps(out: seq<Option<int>>, previous: int, page: int)
    requires Drawn(out, previous) && 0 <= previous < page && (previous == 0 ==> page == 1)
    ensures GapsHideTwo(Draw(out, previous, page))
  {
    var row := Draw(out, previous, page);
    forall i | 0 <= i < |row| && row[i].None?
      ensures 0 < i < |row| - 1 && row[i - 1].Some? && row[i + 1].Some? && row[i + 1].value - row[i - 1].value > 2
    {
      if i < |out| {
        assert row[i] == out[i];
        assert row[i - 1] == out[i - 1] && row[i + 1] == out[i + 1];
      }
    }
  }

  ghost predicate Covers(out: seq<Option<int>>, shown: seq<int>, k: nat)
    requires k <= |shown|
  {
    |out| <= Slots(shown, k) && forall j :: 0 <= j < k ==> Some(shown[j]) in out
  }

  lemma DrawCovers(out: seq<Option<int>>, shown: seq<int>, k: nat)
    requires k < |shown| && Covers(out, shown, k)
    ensures Covers(Draw(out, if k == 0 then 0 else shown[k - 1], shown[k]), shown, k + 1)
  {
  }

  ghost predicate Ascending(shown: seq<int>) {
    forall k :: 0 < k < |shown| ==> shown[k - 1] < shown[k]
  }

  /** The drawn row always expands back to every page, reaches the first, the
      last, the current page and its neighbours, and never grows with the total. */
  method PageNumbers(current: int, pages: int) returns (out: seq<Option<int>>)
    requires 1 <= current <= pages
    ensures Expand(out, 0) == UpTo(pages)
    ensures |out| <= 7 && GapsHideTwo(out)
    ensures Some(1) in out && Some(current) in out && Some(pages) in out
    ensures (current > 1 ==> Some(current - 1) in out) && (current < pages ==> Some(current + 1) in out)
  {
    if pages <= 7 {
      out := Map((i: int) => Some(i), UpTo(pages));
      AllPages(pages, out);
      AllShown(pages, out, current);
      return;
    }
    var near := Filter([current - 1, current, current + 1], n => 1 < n < pages);
    var shown := [1] + near + [pages];
    assert near == Near(current, pages);
    ShownPages(current, pages);
    out := [];
    var previous := 0;
    for k := 0 to |shown|
      invariant previous == (if k == 0 then 0 else shown[k - 1]) && previous >= 0
      invariant Drawn(out, previous)
      invariant Covers(out, shown, k)
    {
      var page := shown[k];
      DrawKeeps(out, previous, page);
      DrawCovers(out, shown, k);
      ghost var drawn := Draw(out, previous, page);
      if page - previous == 2 {
        out := out + [Some(page - 1)];
      } else if page - previous > 2 {
        out := out + [None];
      }
      out := out + [Some(page)];
      assert out == drawn;
      previous := page;
    }
    assert forall p :: p in shown ==> Some(p) in out;
  }

  /** How many items the first k shown pages can take: one each, and one more
      wherever a page was skipped before it. */
  function Slots(shown: seq<int>, k: nat): nat
    requires k <= |shown|
  {
    if k == 0 then 0
    else Slots(shown, k - 1) + if shown[k - 1] - (if k == 1 then 0 else shown[k - 2]) >= 2 then 2 else 1
  }

  lemma {:induction false} AllPages(pages: int, out: seq<Option<int>>)
    requires 0 <= pages == |out| && forall i :: 0 <= i < pages ==> out[i] == Some(i + 1)
    ensures Expand(out, 0) == UpTo(pages)
  {
    if pages > 0 {
      var front := out[..pages - 1];
      AllPages(pages - 1, front);
      ExpandAppendPage(front, 0, pages);
      assert out == front + [Some(pages)];
      UpToNext(pages);
    }
  }

  lemma AllShown(pages: int, out: seq<Option<int>>, current: int)
    requires 1 <= current <= pages == |out| && forall i :: 0 <= i < pages ==> out[i] == Some(i + 1)
    ensures GapsHideTwo(out) && Some(1) in out && Some(current) in out && Some(pages) in out
    ensures (current > 1 ==> Some(current - 1) in out) && (current < pages ==> Some(current + 1) in out)
  {
    assert out[0] == Some(1) && out[current - 1] == Some(current) && out[pages - 1] == Some(pages);
    assert current > 1 ==> out[current - 2] == Some(current - 1);
    assert current < pages ==> out[current] == Some(current + 1);
  }

  /** The current page and its neighbours, without the first and last pages. */
  function Near(current: int, pages: int): seq<int> {
    Filter([current - 1, current, current + 1], n => 1 < n < pages)
  }

  lemma NearPages(current: int, pages: int)
    requires 1 <= current <= pages && pages > 7
    ensures Near(current, pages) ==
            if current == 1 then [2]
            else if current == 2 then [2, 3]
            else if current == pages then [current - 1]
            else if current == pages - 1 then [current - 1, current]
            else [current - 1, current, current + 1]
  {
    var keep := (n: int) => 1 < n < pages;
    var a, b, c := current - 1, current, current + 1;
    assert [a, b, c][..2] == [a, b] && [a, b][..1] == [a];
    assert Filter([a], keep) == if keep(a) then [a] else [];
    assert Filter([a, b], keep) == Filter([a], keep) + if keep(b) then [b] else [];
    assert Near(current, pages) == Filter([a, b], keep) + if keep(c) then [c] else [];
  }

  lemma ShownPages(current: int, pages: int)
    requires 1 <= current <= pages && pages > 7
    ensures var shown := [1] + Near(current, pages) + [pages];
            3 <= |shown| <= 5 && Slots(shown, |shown|) <= 7 &&
            shown[0] == 1 && shown[|shown| - 1] == pages &&
            Ascending(shown) &&
            current in shown && (current > 1 ==> current - 1 in shown) && (current < pages ==> current + 1 in shown)
  {
    NearPages(current, pages);
    SlotsOf([1] + Near(current, pages) + [pages]);
  }

  lemma SlotsOf(shown: seq<int>)
    requires 3 <= |shown| <= 5 && shown[0] == 1
    requires |shown| == 4 ==> shown[2] == shown[1] + 1
    requires |shown| == 5 ==> shown[2] == shown[1] + 1 && shown[3] == shown[2] + 1
    ensures Slots(shown, |shown|) <= 7
  {
    assert Slots(shown, 1) == 1;
    assert Slots(shown, 2) <= 3;
    assert |shown| >= 4 ==> Slots(shown, 3) <= 4;
    assert |shown| == 5 ==> Slots(shown, 4) <= 5;
  }

  /** Resizing keeps the first row on screen inside the page it lands on, and a
      page that is not past the end holds the row it was found from. */
  lemma ResizeKeepsPlace(total: nat, offset: nat, next: nat)
    requires next > 0 && offset < total
    ensures var start := offset / next * next;
            start <= offset < start + next &&
            start == (Current(total, start, next) - 1) * next &&
            Current(total, start, next) == Current(total, offset, next)
  {
    var k := offset / next;
    assert offset == next * k + offset % next;
    QuotientOfMultiple(k, next);
    PageWithinTotal(total, offset, next);
  }

  lemma QuotientOfMultiple(k: nat, n: nat)
    requires n > 0
    ensures (k * n) / n == k
  {
    var q, r := (k * n) / n, (k * n) % n;
    assert k * n == n * q + r && 0 <= r < n;
    if q < k {
      Scale(n, q + 1, k);
    } else if q > k {
      Scale(n, k + 1, q);
    }
  }

  lemma Scale(d: int, a: int, b: int)
    requires d > 0 && a <= b
    ensures d * a <= d * b
  {
  }

  lemma PageWithinTotal(total: nat, offset: nat, limit: nat)
    requires limit > 0 && offset < total
    ensures offset / limit + 1 <= Pages(total, limit)
  {
    var k, m := offset / limit, (total + limit - 1) / limit;
    assert total + limit - 1 == limit * m + (total + limit - 1) % limit;
    assert offset == limit * k + offset % limit;
    if m < k + 1 {
      Scale(limit, m, k);
    }
  }

  /** The pages are enough for all rows, and one fewer would not be, but for the one page
      there is of nothing. */
  lemma NoPageTooMany(total: nat, limit: nat)
    requires limit > 0
    ensures var n := Pages(total, limit); 1 <= n && total <= n * limit && (n == 1 || (n - 1) * limit < total)
  {
    var n := (total + limit - 1) / limit;
    assert total + limit - 1 == limit * n + (total + limit - 1) % limit;
    assert (n - 1) * limit == limit * n - limit;
    if n < 1 { Scale(limit, n, 0); }
  }

  /** The page that is current holds the row at the offset; past the rows it is the last. */
  lemma CurrentHoldsTheRow(total: nat, offset: nat, limit: nat)
    requires limit > 0
    ensures var k := Current(total, offset, limit);
            1 <= k <= Pages(total, limit)
            && (offset < total ==> (k - 1) * limit <= offset < k * limit) && (offset >= total ==> k == Pages(total, limit))
  {
    var k, n := offset / limit + 1, Pages(total, limit);
    Quotient(offset, limit);
    NoPageTooMany(total, limit);
    if offset < total {
      PageWithinTotal(total, offset, limit);
    } else if k < n {
      Scale(limit, k, n - 1);
    }
  }

  lemma Quotient(offset: nat, limit: nat)
    requires limit > 0
    ensures 0 <= offset / limit && offset / limit * limit <= offset < (offset / limit + 1) * limit
  {
    assert offset == limit * (offset / limit) + offset % limit;
  }
}

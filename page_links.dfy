/**
  The page-link strip under the movie table and the pagination block that
  holds it: a "previous" arrow, an optional link to page 1 with an optional
  ellipsis, a window of at most five numbered pages around the current one,
  an optional ellipsis with a link to the last page, and a "next" arrow.
  HTML, CSS classes and the `&search=` suffix of each link are rendering and
  are not modelled; an entry records what is printed and which page it targets.
 */
module PageLinks {
  import opened Wrappers
  import opened Pagination

  datatype Entry =
    | Prev(target: int)     // the "previous" arrow, linking to page `target`
    | Link(number: int)     // a numbered link to another page
    | Current(number: int)  // the current page, printed without a link
    | Ellipsis              // the "..." marker for skipped pages
    | Next(target: int)     // the "next" arrow, linking to page `target`

  predicate IsNumbered(e: Entry) { e.Link? || e.Current? }

  predicate IsCurrent(e: Entry) { e.Current? }

  predicate IsEllipsis(e: Entry) { e.Ellipsis? }

  predicate IsArrow(e: Entry) { e.Prev? || e.Next? }

  /** First page of the numbered window (`$startPage`). */
  function StartPage(page: int): int { Max(1, page - 2) }

  /** Last page of the numbered window (`$endPage`). */
  function EndPage(page: int, totalPages: nat): int { Min(totalPages, page + 2) }

  /** What one iteration of the window loop prints for page `i`. */
  function NumberedEntry(i: int, page: int): Entry
  {
    if i == page then Current(i) else Link(i)
  }

  /** The entries the window loop prints for pages lo..hi, in order. */
  function Window(lo: int, hi: int, page: int): (w: seq<Entry>)
    ensures |w| == if hi < lo then 0 else hi - lo + 1
    decreases hi - lo
  {
    if hi < lo then [] else Window(lo, hi - 1, page) + [NumberedEntry(hi, page)]
  }

  /** The k-th entry of the window is the one printed for page lo + k. */
  lemma {:induction false} WindowEntries(lo: int, hi: int, page: int)
    ensures forall k :: 0 <= k < |Window(lo, hi, page)| ==>
      Window(lo, hi, page)[k] == NumberedEntry(lo + k, page)
    decreases hi - lo
  {
    if hi >= lo {
      WindowEntries(lo, hi - 1, page);
    }
  }

  /** Every window entry is a numbered entry for a page in lo..hi, and it is
      the current page exactly when its number is `page`. */
  lemma WindowMembers(lo: int, hi: int, page: int)
    ensures forall x :: x in Window(lo, hi, page) ==>
      IsNumbered(x) && lo <= x.number <= hi && x == NumberedEntry(x.number, page)
  {
    WindowEntries(lo, hi, page);
    var w := Window(lo, hi, page);
    forall x | x in w
      ensures IsNumbered(x) && lo <= x.number <= hi && x == NumberedEntry(x.number, page)
    {
      var k :| 0 <= k < |w| && w[k] == x;
    }
  }

  /** The link to page 1 and the ellipsis printed before the window. */
  function Leading(startPage: int): seq<Entry>
  {
    if startPage > 1 then [Link(1)] + (if startPage > 2 then [Ellipsis] else []) else []
  }

  /** The ellipsis and the link to the last page printed after the window. */
  function Trailing(endPage: int, totalPages: nat): seq<Entry>
  {
    if endPage < totalPages then
      (if endPage < totalPages - 1 then [Ellipsis] else []) + [Link(totalPages)]
    else []
  }

  function PrevArrow(page: int): seq<Entry>
  {
    if page > 1 then [Prev(page - 1)] else []
  }

  function NextArrow(page: int, totalPages: nat): seq<Entry>
  {
    if page < totalPages then [Next(page + 1)] else []
  }

  /** The whole desktop strip, in the order the page prints it. */
  function Strip(page: int, totalPages: nat): seq<Entry>
  {
    var s, e := StartPage(page), EndPage(page, totalPages);
    PrevArrow(page) + Leading(s) + Window(s, e, page) + Trailing(e, totalPages) + NextArrow(page, totalPages)
  }

  /** Everything between the two arrows. */
  function Middle(page: int, totalPages: nat): seq<Entry>
  {
    var s, e := StartPage(page), EndPage(page, totalPages);
    Leading(s) + Window(s, e, page) + Trailing(e, totalPages)
  }

  lemma AppendAssoc(a: seq<Entry>, b: seq<Entry>, c: seq<Entry>)
    ensures a + b + c == a + (b + c)
  {
  }

  /** The window loop: prints pages lo..hi after `strip`, the current page
      unlinked and every other page as a link. */
  method AppendWindow(strip: seq<Entry>, lo: int, hi: int, page: int) returns (out: seq<Entry>)
    ensures out == strip + Window(lo, hi, page)
  {
    out := strip;
    var i := lo;
    while i <= hi
      invariant lo <= i <= Max(lo, hi + 1)
      invariant out == strip + Window(lo, i - 1, page)
      decreases hi + 1 - i
    {
      AppendAssoc(strip, Window(lo, i - 1, page), [NumberedEntry(i, page)]);
      if i == page {
        out := out + [Current(i)];
      } else {
        out := out + [Link(i)];
      }
      i := i + 1;
    }
    assert Window(lo, i - 1, page) == Window(lo, hi, page);
  }

  /** Prints the desktop strip entry by entry. */
  method RenderStrip(page: int, totalPages: nat) returns (strip: seq<Entry>)
    ensures strip == Strip(page, totalPages)
  {
    strip := [];
    if page > 1 {
      strip := strip + [Prev(page - 1)];
    }
    ghost var prev := strip;
    assert prev == PrevArrow(page);
    var startPage := Max(1, page - 2);
    var endPage := Min(totalPages, page + 2);
    if startPage > 1 {
      strip := strip + [Link(1)];
      if startPage > 2 {
        AppendAssoc(prev, [Link(1)], [Ellipsis]);
        strip := strip + [Ellipsis];
      }
    }
    assert strip == prev + Leading(startPage);
    strip := AppendWindow(strip, startPage, endPage, page);
    ghost var body := strip;
    if endPage < totalPages {
      if endPage < totalPages - 1 {
        strip := strip + [Ellipsis];
        AppendAssoc(body, [Ellipsis], [Link(totalPages)]);
      }
      strip := strip + [Link(totalPages)];
    }
    assert strip == body + Trailing(endPage, totalPages);
    if page < totalPages {
      strip := strip + [Next(page + 1)];
    }
  }

  /** The small-screen navigation (`sm:hidden`): only the two arrows. */
  function MobileNav(page: int, totalPages: nat): seq<Entry>
  {
    PrevArrow(page) + NextArrow(page, totalPages)
  }

  // ---------------------------------------------------------------------
  // Filters over entries

  function Filter(s: seq<Entry>, keep: Entry -> bool): (r: seq<Entry>)
    ensures |r| <= |s|
    ensures forall x :: x in r ==> x in s && keep(x)
  {
    if s == [] then [] else (if keep(s[0]) then [s[0]] else []) + Filter(s[1..], keep)
  }

  lemma {:induction false} FilterAppend(a: seq<Entry>, b: seq<Entry>, keep: Entry -> bool)
    ensures Filter(a + b, keep) == Filter(a, keep) + Filter(b, keep)
  {
    if a == [] {
      assert a + b == b;
    } else {
      assert (a + b)[1..] == a[1..] + b;
      FilterAppend(a[1..], b, keep);
    }
  }

  /** How many entries satisfy `keep`. */
  function Count(s: seq<Entry>, keep: Entry -> bool): nat
  {
    |Filter(s, keep)|
  }

  /** The page numbers printed, as links or as the current page, in order. */
  function Numbers(s: seq<Entry>): seq<int>
  {
    if s == [] then [] else (if IsNumbered(s[0]) then [s[0].number] else []) + Numbers(s[1..])
  }

  lemma {:induction false} NumbersAppend(a: seq<Entry>, b: seq<Entry>)
    ensures Numbers(a + b) == Numbers(a) + Numbers(b)
  {
    if a == [] {
      assert a + b == b;
    } else {
      var head := if IsNumbered(a[0]) then [a[0].number] else [];
      assert (a + b)[0] == a[0];
      assert (a + b)[1..] == a[1..] + b;
      NumbersAppend(a[1..], b);
      assert Numbers(a + b) == head + (Numbers(a[1..]) + Numbers(b));
    }
  }

  /** The integers lo..hi in increasing order. */
  function Range(lo: int, hi: int): (r: seq<int>)
    ensures |r| == if hi < lo then 0 else hi - lo + 1
    ensures forall k :: 0 <= k < |r| ==> r[k] == lo + k
    decreases hi - lo
  {
    if hi < lo then [] else Range(lo, hi - 1) + [hi]
  }

  predicate Increasing(ns: seq<int>)
  {
    forall i, j :: 0 <= i < j < |ns| ==> ns[i] < ns[j]
  }

  /** Number of places where consecutive numbers skip at least one page. */
  function Jumps(ns: seq<int>): nat
  {
    if |ns| < 2 then 0 else (if ns[1] > ns[0] + 1 then 1 else 0) + Jumps(ns[1..])
  }

  // ---------------------------------------------------------------------
  // The parts of the strip

  lemma {:induction false} WindowNumbers(lo: int, hi: int, page: int)
    ensures Numbers(Window(lo, hi, page)) == Range(lo, hi)
    decreases hi - lo
  {
    if hi >= lo {
      WindowNumbers(lo, hi - 1, page);
      NumbersAppend(Window(lo, hi - 1, page), [NumberedEntry(hi, page)]);
    }
  }

  lemma {:induction false} WindowCurrentCount(lo: int, hi: int, page: int)
    ensures Count(Window(lo, hi, page), IsCurrent) == if lo <= page <= hi then 1 else 0
    decreases hi - lo
  {
    if hi >= lo {
      WindowCurrentCount(lo, hi - 1, page);
      FilterAppend(Window(lo, hi - 1, page), [NumberedEntry(hi, page)], IsCurrent);
    }
  }

  lemma {:induction false} FilterNone(s: seq<Entry>, keep: Entry -> bool)
    requires forall x :: x in s ==> !keep(x)
    ensures Filter(s, keep) == []
  {
    if s != [] {
      assert s[0] in s;
      FilterNone(s[1..], keep);
    }
  }

  /** The window holds neither arrows nor ellipses. */
  lemma WindowOnlyNumbers(lo: int, hi: int, page: int)
    ensures Filter(Window(lo, hi, page), IsArrow) == []
    ensures Filter(Window(lo, hi, page), IsEllipsis) == []
  {
    WindowMembers(lo, hi, page);
    FilterNone(Window(lo, hi, page), IsArrow);
    FilterNone(Window(lo, hi, page), IsEllipsis);
  }

  lemma LeadingParts(s: int)
    ensures Numbers(Leading(s)) == if s > 1 then [1] else []
    ensures Filter(Leading(s), IsCurrent) == [] && Filter(Leading(s), IsArrow) == []
    ensures Count(Leading(s), IsEllipsis) == if s > 2 then 1 else 0
    ensures forall x :: x in Leading(s) ==> x == Link(1) || x == Ellipsis
  {
    if s > 2 {
      assert Leading(s) == [Link(1)] + [Ellipsis];
      NumbersAppend([Link(1)], [Ellipsis]);
      FilterAppend([Link(1)], [Ellipsis], IsCurrent);
      FilterAppend([Link(1)], [Ellipsis], IsArrow);
      FilterAppend([Link(1)], [Ellipsis], IsEllipsis);
    } else if s > 1 {
      assert Leading(s) == [Link(1)];
    }
  }

  lemma TrailingParts(e: int, totalPages: nat)
    ensures Numbers(Trailing(e, totalPages)) == if e < totalPages then [totalPages as int] else []
    ensures Filter(Trailing(e, totalPages), IsCurrent) == [] && Filter(Trailing(e, totalPages), IsArrow) == []
    ensures Count(Trailing(e, totalPages), IsEllipsis) == if e < totalPages - 1 then 1 else 0
    ensures forall x :: x in Trailing(e, totalPages) ==> x == Link(totalPages) || x == Ellipsis
  {
    if e < totalPages - 1 {
      assert Trailing(e, totalPages) == [Ellipsis] + [Link(totalPages)];
      NumbersAppend([Ellipsis], [Link(totalPages)]);
      FilterAppend([Ellipsis], [Link(totalPages)], IsCurrent);
      FilterAppend([Ellipsis], [Link(totalPages)], IsArrow);
      FilterAppend([Ellipsis], [Link(totalPages)], IsEllipsis);
    } else if e < totalPages {
      assert Trailing(e, totalPages) == [Link(totalPages)];
    }
  }

  lemma ArrowParts(page: int, totalPages: nat)
    ensures Numbers(PrevArrow(page)) == [] && Numbers(NextArrow(page, totalPages)) == []
    ensures Filter(PrevArrow(page), IsCurrent) == [] && Filter(NextArrow(page, totalPages), IsCurrent) == []
    ensures Filter(PrevArrow(page), IsEllipsis) == [] && Filter(NextArrow(page, totalPages), IsEllipsis) == []
    ensures Filter(PrevArrow(page), IsArrow) == PrevArrow(page)
    ensures Filter(NextArrow(page, totalPages), IsArrow) == NextArrow(page, totalPages)
  {
  }

  /** Filtering the strip filters each of its five parts. */
  lemma StripFilter(page: int, totalPages: nat, keep: Entry -> bool)
    ensures var s, e := StartPage(page), EndPage(page, totalPages);
      Filter(Strip(page, totalPages), keep) ==
        Filter(PrevArrow(page), keep) + Filter(Leading(s), keep) + Filter(Window(s, e, page), keep)
        + Filter(Trailing(e, totalPages), keep) + Filter(NextArrow(page, totalPages), keep)
  {
    var s, e := StartPage(page), EndPage(page, totalPages);
    var p, l, w, t, n := PrevArrow(page), Leading(s), Window(s, e, page), Trailing(e, totalPages), NextArrow(page, totalPages);
    FilterAppend(p + l + w + t, n, keep);
    FilterAppend(p + l + w, t, keep);
    FilterAppend(p + l, w, keep);
    FilterAppend(p, l, keep);
  }

  /** The strip is the two arrows around the middle part. */
  lemma StripAroundMiddle(page: int, totalPages: nat)
    ensures Strip(page, totalPages) == PrevArrow(page) + Middle(page, totalPages) + NextArrow(page, totalPages)
  {
    var s, e := StartPage(page), EndPage(page, totalPages);
    var p, l, w, t := PrevArrow(page), Leading(s), Window(s, e, page), Trailing(e, totalPages);
    AppendAssoc(p, l, w);
    AppendAssoc(p, l + w, t);
  }

  /** Every entry between the arrows is a page-1 link, an ellipsis, a window
      entry or a last-page link; none of them is an arrow. */
  lemma MiddleMembers(page: int, totalPages: nat)
    ensures var s, e := StartPage(page), EndPage(page, totalPages);
      forall x :: x in Middle(page, totalPages) ==>
        !IsArrow(x) && (x == Link(1) || x == Ellipsis || x == Link(totalPages) || x in Window(s, e, page))
  {
    var s, e := StartPage(page), EndPage(page, totalPages);
    LeadingParts(s);
    TrailingParts(e, totalPages);
    WindowMembers(s, e, page);
    forall x | x in Middle(page, totalPages)
      ensures !IsArrow(x) && (x == Link(1) || x == Ellipsis || x == Link(totalPages) || x in Window(s, e, page))
    {
      assert x in Leading(s) || x in Window(s, e, page) || x in Trailing(e, totalPages);
    }
  }

  // ---------------------------------------------------------------------
  // Properties of the whole strip

  /** The window is bounded by page 1 and the page count, lies within two pages
      of the current page, and so holds at most five numbered entries. */
  lemma WindowBounds(page: int, totalPages: nat)
    ensures StartPage(page) >= 1 && EndPage(page, totalPages) <= totalPages
    ensures |Window(StartPage(page), EndPage(page, totalPages), page)| <= 5
    ensures forall x :: x in Window(StartPage(page), EndPage(page, totalPages), page) ==>
      IsNumbered(x) && page - 2 <= x.number <= page + 2
  {
    WindowMembers(StartPage(page), EndPage(page, totalPages), page);
  }

  lemma NumbersOfParts(p: seq<Entry>, l: seq<Entry>, w: seq<Entry>, t: seq<Entry>, n: seq<Entry>)
    ensures Numbers(p + l + w + t + n) == Numbers(p) + Numbers(l) + Numbers(w) + Numbers(t) + Numbers(n)
  {
    NumbersAppend(p + l + w + t, n);
    NumbersAppend(p + l + w, t);
    NumbersAppend(p + l, w);
    NumbersAppend(p, l);
  }

  /** The printed page numbers: page 1 when the window starts after it,
      the window, and the last page when the window ends before it. */
  lemma StripNumbers(page: int, totalPages: nat)
    ensures Numbers(Strip(page, totalPages)) ==
      (if StartPage(page) > 1 then [1] else [])
      + Range(StartPage(page), EndPage(page, totalPages))
      + (if EndPage(page, totalPages) < totalPages then [totalPages as int] else [])
  {
    var s, e := StartPage(page), EndPage(page, totalPages);
    var p, l, w, t, n := PrevArrow(page), Leading(s), Window(s, e, page), Trailing(e, totalPages), NextArrow(page, totalPages);
    NumbersOfParts(p, l, w, t, n);
    WindowNumbers(s, e, page);
    LeadingParts(s);
    TrailingParts(e, totalPages);
    ArrowParts(page, totalPages);
    var lead, mid, trail := Numbers(l), Numbers(w), Numbers(t);
    assert Numbers(p) + lead == lead;
    assert lead + mid + trail + Numbers(n) == lead + mid + trail;
  }

  lemma IncreasingConcat(a: seq<int>, b: seq<int>)
    requires Increasing(a) && Increasing(b)
    requires forall x, y :: x in a && y in b ==> x < y
    ensures Increasing(a + b)
  {
    forall i, j | 0 <= i < j < |a + b|
      ensures (a + b)[i] < (a + b)[j]
    {
      if i < |a| && j >= |a| {
        assert a[i] in a && b[j - |a|] in b;
      }
    }
  }

  /** The printed page numbers strictly increase, so no page (in particular
      neither page 1 nor the last page) is printed twice. */
  lemma StripNumbersIncreasing(page: int, totalPages: nat)
    ensures Increasing(Numbers(Strip(page, totalPages)))
  {
    var s, e := StartPage(page), EndPage(page, totalPages);
    StripNumbers(page, totalPages);
    var lead := if s > 1 then [1] else [];
    var r := Range(s, e);
    var trail := if e < totalPages then [totalPages as int] else [];
    assert forall x :: x in r ==> s <= x <= e by {
      forall x | x in r
        ensures s <= x <= e
      {
        var k :| 0 <= k < |r| && r[k] == x;
      }
    }
    IncreasingConcat(lead, r);
    IncreasingConcat(lead + r, trail);
  }

  /** When the current page exists, the strip begins its numbers with page 1,
      ends them with the last page, and prints at most seven numbers. */
  lemma StripReachesFirstAndLast(page: int, totalPages: nat)
    requires 1 <= page <= totalPages
    ensures var ns := Numbers(Strip(page, totalPages));
      |ns| >= 1 && ns[0] == 1 && ns[|ns| - 1] == totalPages && page in ns && |ns| <= 7
  {
    var s, e := StartPage(page), EndPage(page, totalPages);
    StripNumbers(page, totalPages);
    var r := Range(s, e);
    var ns := Numbers(Strip(page, totalPages));
    var lead := if s > 1 then [1] else [];
    assert r[page - s] == page;
    assert ns[|lead| + page - s] == page;
  }

  /** The current page is printed, unlinked, exactly once when it exists and
      not at all otherwise. */
  lemma StripCurrentCount(page: int, totalPages: nat)
    ensures Count(Strip(page, totalPages), IsCurrent) == if 1 <= page <= totalPages then 1 else 0
  {
    var s, e := StartPage(page), EndPage(page, totalPages);
    StripFilter(page, totalPages, IsCurrent);
    WindowCurrentCount(s, e, page);
    LeadingParts(s);
    TrailingParts(e, totalPages);
    ArrowParts(page, totalPages);
  }

  /** Only the current page is printed unlinked, and no link points at it. */
  lemma StripCurrentUnlinked(page: int, totalPages: nat)
    ensures forall n :: Current(n) in Strip(page, totalPages) ==> n == page
    ensures Link(page) !in Strip(page, totalPages)
  {
    var s, e := StartPage(page), EndPage(page, totalPages);
    StripAroundMiddle(page, totalPages);
    MiddleMembers(page, totalPages);
    WindowMembers(s, e, page);
    assert Link(page) !in Middle(page, totalPages);
  }

  lemma {:induction false} JumpsConsecutive(ns: seq<int>)
    requires forall k :: 0 <= k < |ns| - 1 ==> ns[k + 1] == ns[k] + 1
    ensures Jumps(ns) == 0
  {
    if |ns| >= 2 {
      JumpsConsecutive(ns[1..]);
    }
  }

  lemma {:induction false} JumpsSnoc(ns: seq<int>, y: int)
    requires |ns| >= 1
    ensures Jumps(ns + [y]) == Jumps(ns) + (if y > ns[|ns| - 1] + 1 then 1 else 0)
  {
    if |ns| >= 2 {
      assert (ns + [y])[1..] == ns[1..] + [y];
      JumpsSnoc(ns[1..], y);
    } else {
      assert ns + [y] == [ns[0], y];
    }
  }

  /** One ellipsis is printed before the window when it skips pages after
      page 1, and one after it when it skips pages before the last. */
  lemma StripEllipsisCount(page: int, totalPages: nat)
    ensures Count(Strip(page, totalPages), IsEllipsis) ==
      (if StartPage(page) > 2 then 1 else 0) + (if EndPage(page, totalPages) < totalPages - 1 then 1 else 0)
  {
    var s, e := StartPage(page), EndPage(page, totalPages);
    StripFilter(page, totalPages, IsEllipsis);
    WindowOnlyNumbers(s, e, page);
    LeadingParts(s);
    TrailingParts(e, totalPages);
    ArrowParts(page, totalPages);
  }

  /** Jumps in the numbers the strip prints around a non-empty window s..e
      inside 1..totalPages: one before the window when it starts after page 2,
      one after it when it ends before the second-to-last page. */
  lemma JumpsAroundWindow(s: int, e: int, totalPages: int)
    requires 1 <= s <= e <= totalPages
    ensures Jumps((if s > 1 then [1] else []) + Range(s, e) + (if e < totalPages then [totalPages] else []))
      == (if s > 2 then 1 else 0) + (if e < totalPages - 1 then 1 else 0)
  {
    var r := Range(s, e);
    JumpsConsecutive(r);
    var front := (if s > 1 then [1] else []) + r;
    if s > 1 {
      assert front[1..] == r;
    } else {
      assert front == r;
    }
    assert Jumps(front) == if s > 2 then 1 else 0;
    if e < totalPages {
      JumpsSnoc(front, totalPages);
      assert front[|front| - 1] == e;
    } else {
      assert front + [] == front;
    }
  }

  /** When the current page exists, an ellipsis is printed exactly where the
      printed numbers skip pages: once per gap, and never between neighbours. */
  lemma StripEllipsisMarksGaps(page: int, totalPages: nat)
    requires 1 <= page <= totalPages
    ensures Count(Strip(page, totalPages), IsEllipsis) == Jumps(Numbers(Strip(page, totalPages)))
  {
    StripEllipsisCount(page, totalPages);
    StripNumbers(page, totalPages);
    JumpsAroundWindow(StartPage(page), EndPage(page, totalPages), totalPages);
  }

  lemma ArrowsAtEnds(p: seq<Entry>, m: seq<Entry>, n: seq<Entry>, page: int, totalPages: nat)
    requires p == PrevArrow(page) && n == NextArrow(page, totalPages)
    requires forall x :: x in m ==> !IsArrow(x)
    ensures var strip := p + m + n;
      (|strip| > 0 && strip[0] == Prev(page - 1) <==> page > 1) &&
      (|strip| > 0 && strip[|strip| - 1] == Next(page + 1) <==> page < totalPages) &&
      (forall k :: 0 < k < |strip| - 1 ==> !IsArrow(strip[k]))
  {
    var strip := p + m + n;
    forall k | 0 < k < |strip| - 1
      ensures !IsArrow(strip[k])
    {
      assert strip[k] == m[k - |p|];
      assert m[k - |p|] in m;
    }
    if |strip| > 0 && p == [] {
      if m != [] {
        assert strip[0] == m[0] && m[0] in m;
      }
    }
    if |strip| > 0 && n == [] {
      if m != [] {
        assert strip[|strip| - 1] == m[|m| - 1] && m[|m| - 1] in m;
      }
    }
  }

  /** The "previous" arrow opens the strip exactly when there is an earlier
      page, the "next" arrow closes it exactly when there is a later page,
      and no arrow appears anywhere else. */
  lemma StripArrows(page: int, totalPages: nat)
    ensures var strip := Strip(page, totalPages);
      (|strip| > 0 && strip[0] == Prev(page - 1) <==> page > 1) &&
      (|strip| > 0 && strip[|strip| - 1] == Next(page + 1) <==> page < totalPages) &&
      (forall k :: 0 < k < |strip| - 1 ==> !IsArrow(strip[k]))
  {
    StripAroundMiddle(page, totalPages);
    MiddleMembers(page, totalPages);
    ArrowsAtEnds(PrevArrow(page), Middle(page, totalPages), NextArrow(page, totalPages), page, totalPages);
  }

  /** The small-screen navigation offers exactly the arrows of the desktop strip. */
  lemma MobileNavMatchesStrip(page: int, totalPages: nat)
    ensures MobileNav(page, totalPages) == Filter(Strip(page, totalPages), IsArrow)
  {
    var s, e := StartPage(page), EndPage(page, totalPages);
    StripFilter(page, totalPages, IsArrow);
    WindowOnlyNumbers(s, e, page);
    LeadingParts(s);
    TrailingParts(e, totalPages);
    ArrowParts(page, totalPages);
  }
  // ---------------------------------------------------------------------
  // The pagination block

  /** What the pagination block prints: the small-screen arrows, the
      "showing X to Y of Z" range and the desktop strip. */
  datatype Pager = Pager(mobile: seq<Entry>, shown: ShownRange, strip: seq<Entry>)

  /** The pagination block for the requested page. `total` is the row count
      the count query returned, `None` when that query failed (the page count
      is then unset and the block is skipped). */
  method Paginate(page: int, total: Option<nat>) returns (pager: Option<Pager>)
    ensures pager.Some? <==> total.Some? && TotalPages(total.value) > 1
    ensures pager.Some? ==>
      pager.value.mobile == MobileNav(page, TotalPages(total.value)) &&
      pager.value.shown == DisplayRange(page, total.value) &&
      pager.value.strip == Strip(page, TotalPages(total.value))
  {
    if total.None? {
      return None;
    }
    var totalPages := TotalPages(total.value);
    if totalPages > 1 {
      var strip := RenderStrip(page, totalPages);
      pager := Some(Pager(MobileNav(page, totalPages), DisplayRange(page, total.value), strip));
    } else {
      pager := None;
    }
  }
}

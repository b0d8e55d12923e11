/**
 * Numbered pagination: from the current page, the number of pages and a caller-supplied link
 * builder, the ordered controls to show — an optional "previous" link, the kept page links
 * (page 1, the last page and the neighbours of the current page), each possibly preceded by
 * an ellipsis, and an optional "next" link. The link builder is only ever applied, never inspected.
 */
module PaginationControls {
  import opened Wrappers

  /**
   * One rendered control. A page link carries the ellipsis drawn in front of it, as the view
   * draws both inside one element per page.
   */
  datatype Control =
    | Previous(href: string)
    | PageLink(page: int, href: string, isActive: bool, ellipsisBefore: bool)
    | Next(href: string)

  /** The `pagesToShow` filter: the first page, the last page and pages at distance at most 1 from the current one. */
  predicate Kept(p: int, current: int, total: int)
  {
    p == 1 || p == total || (p - current <= 1 && current - p <= 1)
  }

  predicate StrictlyIncreasing(s: seq<int>)
  {
    forall i, j :: 0 <= i < j < |s| ==> s[i] < s[j]
  }

  /** The kept pages among 1..n, in increasing order. */
  function KeptUpTo(n: int, current: int, total: int): (s: seq<int>)
    ensures StrictlyIncreasing(s)
    ensures forall p :: p in s <==> 1 <= p <= n && Kept(p, current, total)
    decreases n
  {
    if n < 1 then []
    else
      var below := KeptUpTo(n - 1, current, total);
      IncreasingExtend(below, n);
      below + (if Kept(n, current, total) then [n] else [])
  }

  lemma IncreasingExtend(s: seq<int>, n: int)
    requires StrictlyIncreasing(s)
    requires forall x :: x in s ==> x < n
    ensures StrictlyIncreasing(s + [n])
  {
    forall i, j | 0 <= i < j < |s| + 1
      ensures (s + [n])[i] < (s + [n])[j]
    {
      if j == |s| { assert s[i] in s; }
    }
  }

  /** `Array.from({length: totalPages}, (_, i) => i + 1).filter(...)` */
  function PagesToShow(current: int, total: int): (shown: seq<int>)
    ensures StrictlyIncreasing(shown)
    ensures forall p :: p in shown <==> 1 <= p <= total && Kept(p, current, total)
  {
    KeptUpTo(total, current, total)
  }

  /** The page links, one per shown page; an ellipsis goes before a page more than 1 above the previous shown page. */
  function PageEntries(shown: seq<int>, current: int, buildHref: int -> string): (entries: seq<Control>)
    ensures |entries| == |shown|
  {
    seq(|shown|, i requires 0 <= i < |shown| =>
      PageLink(shown[i], buildHref(shown[i]), shown[i] == current, i > 0 && shown[i] - shown[i - 1] > 1))
  }

  /** The whole control strip, or None when there is at most one page (nothing is rendered). */
  function Controls(current: int, total: int, buildHref: int -> string): (r: Option<seq<Control>>)
    ensures r.None? <==> total <= 1
  {
    if total <= 1 then None
    else
      var prev := if current > 1 then [Previous(buildHref(current - 1))] else [];
      var next := if current < total then [Next(buildHref(current + 1))] else [];
      Some(prev + PageEntries(PagesToShow(current, total), current, buildHref) + next)
  }

  /** The page numbers of the page links of a control strip, in order. */
  function LinkedPages(controls: seq<Control>): seq<int>
  {
    if |controls| == 0 then []
    else (if controls[0].PageLink? then [controls[0].page] else []) + LinkedPages(controls[1..])
  }

  lemma {:induction false} LinkedPagesAppend(a: seq<Control>, b: seq<Control>)
    ensures LinkedPages(a + b) == LinkedPages(a) + LinkedPages(b)
    decreases |a|
  {
    if |a| == 0 {
      assert a + b == b;
    } else {
      assert (a + b)[0] == a[0] && (a + b)[1..] == a[1..] + b;
      LinkedPagesAppend(a[1..], b);
    }
  }

  lemma {:induction false} LinkedPagesOfEntries(shown: seq<int>, current: int, buildHref: int -> string)
    ensures LinkedPages(PageEntries(shown, current, buildHref)) == shown
    decreases |shown|
  {
    if |shown| > 0 {
      var n := |shown| - 1;
      var entries := PageEntries(shown, current, buildHref);
      var front := PageEntries(shown[..n], current, buildHref);
      assert entries == front + [entries[n]];
      LinkedPagesAppend(front, [entries[n]]);
      LinkedPagesOfEntries(shown[..n], current, buildHref);
      assert shown == shown[..n] + [shown[n]];
    }
  }

  /** A strictly increasing sequence drawn from a set is no longer than the set. */
  lemma {:induction false} IncreasingWithin(s: seq<int>, pool: set<int>)
    requires StrictlyIncreasing(s)
    requires forall x :: x in s ==> x in pool
    ensures |s| <= |pool|
    decreases |s|
  {
    if |s| > 0 {
      var rest := s[1..];
      assert StrictlyIncreasing(rest) by {
        forall i, j | 0 <= i < j < |rest|
          ensures rest[i] < rest[j]
        {
          assert rest[i] == s[i + 1] && rest[j] == s[j + 1];
        }
      }
      forall x | x in rest
        ensures x in pool - {s[0]}
      {
        var i :| 0 <= i < |rest| && rest[i] == x;
        assert s[i + 1] == x;
      }
      IncreasingWithin(rest, pool - {s[0]});
      assert s[0] in s && s[0] in pool;
      var others := pool - {s[0]};
      assert pool == others + {s[0]} && s[0] !in others;
      assert |pool| == |others| + 1;
    }
  }

  /** At most five page numbers are shown. */
  lemma AtMostFivePages(current: int, total: int)
    ensures |PagesToShow(current, total)| <= 5
  {
    var pool := {1, total, current - 1, current, current + 1};
    IncreasingWithin(PagesToShow(current, total), pool);
  }

  /**
   * With more than one page: the strip starts with a "previous" link exactly when the current
   * page is above 1 and ends with a "next" link exactly when it is below the last page; every
   * control in between is a page link, and the page links list exactly the shown pages.
   */
  lemma ControlsLayout(current: int, total: int, buildHref: int -> string)
    requires total > 1
    ensures var r := Controls(current, total, buildHref).value;
      && |r| >= 2
      && (r[0].Previous? <==> current > 1)
      && (r[0].Previous? ==> r[0].href == buildHref(current - 1))
      && (r[|r| - 1].Next? <==> current < total)
      && (r[|r| - 1].Next? ==> r[|r| - 1].href == buildHref(current + 1))
      && (forall i :: 0 < i < |r| - 1 ==> r[i].PageLink?)
      && LinkedPages(r) == PagesToShow(current, total)
  {
    var shown := PagesToShow(current, total);
    var entries := PageEntries(shown, current, buildHref);
    var prev := if current > 1 then [Previous(buildHref(current - 1))] else [];
    var next := if current < total then [Next(buildHref(current + 1))] else [];
    var r := Controls(current, total, buildHref).value;
    assert r == prev + entries + next;
    assert 1 in shown && total in shown;
    assert |shown| >= 2 by {
      var i :| 0 <= i < |shown| && shown[i] == 1;
      var j :| 0 <= j < |shown| && shown[j] == total;
      assert i != j;
    }
    assert |r| == |prev| + |entries| + |next| && |entries| == |shown|;
    assert LinkedPages(r) == shown by {
      LinkedPagesAppend(prev + entries, next);
      LinkedPagesAppend(prev, entries);
      LinkedPagesOfEntries(shown, current, buildHref);
    }
    forall i | 0 < i < |r| - 1
      ensures r[i].PageLink?
    {
      assert r[i] == entries[i - |prev|];
    }
  }

  /** Where each control of the strip comes from: the previous link, a page entry, or the next link. */
  lemma ControlOrigin(current: int, total: int, buildHref: int -> string, i: int)
    requires total > 1
    requires 0 <= i < |Controls(current, total, buildHref).value|
    ensures var r := Controls(current, total, buildHref).value;
      var shown := PagesToShow(current, total);
      var offset := if current > 1 then 1 else 0;
      r[i].PageLink? ==>
        && offset <= i < offset + |shown|
        && r[i] == PageEntries(shown, current, buildHref)[i - offset]
        && r[i].page == shown[i - offset]
  {
    var shown := PagesToShow(current, total);
    var entries := PageEntries(shown, current, buildHref);
    var prev := if current > 1 then [Previous(buildHref(current - 1))] else [];
    var next := if current < total then [Next(buildHref(current + 1))] else [];
    var r := Controls(current, total, buildHref).value;
    assert r == prev + entries + next;
    if i < |prev| {
      assert r[i] == prev[i];
    } else if i < |prev| + |entries| {
      assert r[i] == entries[i - |prev|];
    } else {
      assert r[i] == next[i - |prev| - |entries|];
    }
  }

  /** Every page link points at the link built for its page and is active exactly when it is the current page. */
  lemma PageLinkTargets(current: int, total: int, buildHref: int -> string)
    requires total > 1
    ensures var r := Controls(current, total, buildHref).value;
      forall i :: 0 <= i < |r| && r[i].PageLink? ==>
        && 1 <= r[i].page <= total
        && r[i].href == buildHref(r[i].page)
        && (r[i].isActive <==> r[i].page == current)
  {
    var r := Controls(current, total, buildHref).value;
    var shown := PagesToShow(current, total);
    forall i | 0 <= i < |r| && r[i].PageLink?
      ensures 1 <= r[i].page <= total
      ensures r[i].href == buildHref(r[i].page)
      ensures r[i].isActive <==> r[i].page == current
    {
      ControlOrigin(current, total, buildHref, i);
      var offset := if current > 1 then 1 else 0;
      assert shown[i - offset] in shown;
    }
  }

  /** Some page link is active exactly when the current page is in 1..total, and never more than one. */
  lemma OneActiveLink(current: int, total: int, buildHref: int -> string)
    requires total > 1
    ensures var r := Controls(current, total, buildHref).value;
      && ((exists i :: 0 <= i < |r| && r[i].PageLink? && r[i].isActive) <==> 1 <= current <= total)
      && (forall i, j ::
            (0 <= i < |r| && 0 <= j < |r| && r[i].PageLink? && r[i].isActive && r[j].PageLink? && r[j].isActive)
            ==> i == j)
  {
    var r := Controls(current, total, buildHref).value;
    var shown := PagesToShow(current, total);
    var offset := if current > 1 then 1 else 0;
    PageLinkTargets(current, total, buildHref);
    if 1 <= current <= total {
      assert current in shown;
      var k :| 0 <= k < |shown| && shown[k] == current;
      ControlsLayout(current, total, buildHref);
      var entries := PageEntries(shown, current, buildHref);
      var prev := if current > 1 then [Previous(buildHref(current - 1))] else [];
      var next := if current < total then [Next(buildHref(current + 1))] else [];
      assert r == prev + entries + next;
      assert r[k + offset] == entries[k];
    }
    forall i, j | 0 <= i < |r| && 0 <= j < |r| && r[i].PageLink? && r[i].isActive && r[j].PageLink? && r[j].isActive
      ensures i == j
    {
      ControlOrigin(current, total, buildHref, i);
      ControlOrigin(current, total, buildHref, j);
      var a, b := i - offset, j - offset;
      assert shown[a] == current == shown[b];
    }
  }

  /**
   * An ellipsis stands for hidden pages: a page link has one in front of it exactly when it is
   * not the first shown page and some page between it and the previous shown page is filtered out.
   * Only the pages just below the current one and the last page can carry one.
   */
  lemma EllipsisMarksHiddenPages(current: int, total: int, buildHref: int -> string)
    ensures var shown := PagesToShow(current, total);
      var entries := PageEntries(shown, current, buildHref);
      forall k :: 0 <= k < |shown| ==>
        && (entries[k].ellipsisBefore <==>
              k > 0 && exists q :: shown[k - 1] < q < shown[k] && !Kept(q, current, total))
        && (entries[k].ellipsisBefore ==> shown[k] == current - 1 || shown[k] == total)
  {
    var shown := PagesToShow(current, total);
    var entries := PageEntries(shown, current, buildHref);
    forall k | 0 < k < |shown|
      ensures entries[k].ellipsisBefore <==> exists q :: shown[k - 1] < q < shown[k] && !Kept(q, current, total)
      ensures entries[k].ellipsisBefore ==> shown[k] == current - 1 || shown[k] == total
    {
      var lo, hi := shown[k - 1], shown[k];
      assert lo < hi;
      assert 1 <= lo && hi <= total by { assert lo in shown && hi in shown; }
      // Nothing strictly between two neighbouring shown pages is shown.
      forall q | lo < q < hi
        ensures !Kept(q, current, total)
      {
        forall m | 0 <= m < |shown|
          ensures shown[m] != q
        {
          if m < k - 1 { assert shown[m] < shown[k - 1]; }
          else if m > k { assert shown[k] < shown[m]; }
        }
        assert q !in shown;
      }
      if hi - lo > 1 {
        assert lo < lo + 1 < hi && !Kept(lo + 1, current, total);
        // hi is kept and the page just below it is not, so hi cannot be the current page or the next one.
        assert Kept(hi, current, total) by { assert hi in shown; }
        assert !Kept(hi - 1, current, total);
      }
    }
  }

  /** Page 5 of 10 shows pages 1, 4, 5, 6 and 10. */
  lemma ShownForFiveOfTen()
    ensures PagesToShow(5, 10) == [1, 4, 5, 6, 10]
  {
    assert KeptUpTo(0, 5, 10) == [];
    assert KeptUpTo(1, 5, 10) == [1];
    assert KeptUpTo(2, 5, 10) == [1];
    assert KeptUpTo(3, 5, 10) == [1];
    assert KeptUpTo(4, 5, 10) == [1, 4];
    assert KeptUpTo(5, 5, 10) == [1, 4, 5];
    assert KeptUpTo(6, 5, 10) == [1, 4, 5, 6];
    assert KeptUpTo(7, 5, 10) == [1, 4, 5, 6];
    assert KeptUpTo(8, 5, 10) == [1, 4, 5, 6];
    assert KeptUpTo(9, 5, 10) == [1, 4, 5, 6];
  }

  /** The strip for page 5 of 10: previous, 1, …, 4, 5 (active), 6, …, 10, next. */
  lemma FiveOfTen(buildHref: int -> string)
    ensures Controls(5, 10, buildHref) == Some([
      Previous(buildHref(4)),
      PageLink(1, buildHref(1), false, false),
      PageLink(4, buildHref(4), false, true),
      PageLink(5, buildHref(5), true, false),
      PageLink(6, buildHref(6), false, false),
      PageLink(10, buildHref(10), false, true),
      Next(buildHref(6))])
  {
    ShownForFiveOfTen();
    var entries := PageEntries([1, 4, 5, 6, 10], 5, buildHref);
    assert entries[0] == PageLink(1, buildHref(1), false, false);
    assert entries[1] == PageLink(4, buildHref(4), false, true);
    assert entries[2] == PageLink(5, buildHref(5), true, false);
    assert entries[3] == PageLink(6, buildHref(6), false, false);
    assert entries[4] == PageLink(10, buildHref(10), false, true);
    assert entries == [entries[0], entries[1], entries[2], entries[3], entries[4]];
    assert Controls(5, 10, buildHref).value == [Previous(buildHref(4))] + entries + [Next(buildHref(6))];
    assert Controls(5, 10, buildHref).Some?;
    assert [Previous(buildHref(4))] + entries + [Next(buildHref(6))] == [
      Previous(buildHref(4)),
      PageLink(1, buildHref(1), false, false),
      PageLink(4, buildHref(4), false, true),
      PageLink(5, buildHref(5), true, false),
      PageLink(6, buildHref(6), false, false),
      PageLink(10, buildHref(10), false, true),
      Next(buildHref(6))];
  }

  /** A single page renders nothing; the first page has no "previous" link and the last no "next" link. */
  lemma EdgePages(total: int, buildHref: int -> string)
    requires total > 1
    ensures Controls(1, 1, buildHref).None?
    ensures !Controls(1, total, buildHref).value[0].Previous?
    ensures var r := Controls(total, total, buildHref).value; !r[|r| - 1].Next?
  {
    ControlsLayout(1, total, buildHref);
    ControlsLayout(total, total, buildHref);
  }
}

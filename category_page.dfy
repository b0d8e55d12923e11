/**
 * The "All Posts" route (`/category`): it reads the `page` query parameter, fetches that page
 * of 12 posts, renders them in a grid with infinite loading switched off, and renders numbered
 * pagination whose links are built back into `/category?page=N` URLs.
 */
module CategoryPage {
  import opened Wrappers
  import opened Posts
  import opened PaginationControls
  import opened BlogGrid

  /** Posts per page on this route. */
  const PerPage: int := 12

  const RoutePath: string := "/category"

  // ---------------------------------------------------------------------------------------
  // parseInt(s, 10)

  /** The characters `parseInt` skips at the front: ECMAScript white space and line terminators. */
  predicate IsJsSpace(c: char)
  {
    c == '\t' || c == '\n' || c == '\U{000B}' || c == '\U{000C}' || c == '\r' || c == ' ' ||
    c == '\U{00A0}' || c == '\U{1680}' || ('\U{2000}' <= c <= '\U{200A}') ||
    c == '\U{2028}' || c == '\U{2029}' || c == '\U{202F}' || c == '\U{205F}' ||
    c == '\U{3000}' || c == '\U{FEFF}'
  }

  predicate IsDigit(c: char)
  {
    '0' <= c <= '9'
  }

  function DigitValue(c: char): nat
    requires IsDigit(c)
  {
    c as nat - '0' as nat
  }

  function TrimStart(s: string): (t: string)
    ensures |t| <= |s| && t == s[|s| - |t|..]
    ensures |t| > 0 ==> !IsJsSpace(t[0])
  {
    if |s| > 0 && IsJsSpace(s[0]) then TrimStart(s[1..]) else s
  }

  /** Everything `TrimStart` drops is white space. */
  lemma {:induction false} TrimStartDropsSpace(s: string)
    ensures forall i :: 0 <= i < |s| - |TrimStart(s)| ==> IsJsSpace(s[i])
  {
    if |s| > 0 && IsJsSpace(s[0]) {
      TrimStartDropsSpace(s[1..]);
      forall i | 0 < i < |s| - |TrimStart(s)|
        ensures IsJsSpace(s[i])
      {
        assert s[i] == s[1..][i - 1];
      }
    }
  }

  /** The longest prefix of decimal digits. */
  function DigitPrefix(s: string): (d: string)
    ensures d <= s
    ensures forall i :: 0 <= i < |d| ==> IsDigit(d[i])
    ensures |d| < |s| ==> !IsDigit(s[|d|])
  {
    if |s| > 0 && IsDigit(s[0]) then [s[0]] + DigitPrefix(s[1..]) else ""
  }

  /** The number a string of decimal digits denotes. */
  function DigitsValue(d: string): nat
    requires forall i :: 0 <= i < |d| ==> IsDigit(d[i])
  {
    if |d| == 0 then 0 else DigitsValue(d[..|d| - 1]) * 10 + DigitValue(d[|d| - 1])
  }

  /**
   * `parseInt(s, 10)`: skip leading white space, take an optional sign, then the longest run of
   * decimal digits; None stands for NaN (no digit). The value is an exact integer.
   */
  function ParseInt(s: string): (r: Option<int>)
  {
    ParseTrimmed(TrimStart(s))
  }

  /** `parseInt` once the leading white space is gone: an optional sign, then the digit run. */
  function ParseTrimmed(t: string): (r: Option<int>)
  {
    if |t| > 0 && t[0] == '-' then
      match ParseUnsigned(t[1..])
      case None => None
      case Some(n) => Some(-n)
    else if |t| > 0 && t[0] == '+' then ParseUnsigned(t[1..])
    else ParseUnsigned(t)
  }

  /** The value of the leading digit run; None when there is no digit. */
  function ParseUnsigned(u: string): (r: Option<int>)
  {
    var digits := DigitPrefix(u);
    if |digits| == 0 then None else Some(DigitsValue(digits))
  }

  /** Leading white space does not change what `TrimStart` leaves. */
  lemma {:induction false} TrimStartSkipsSpace(w: string, s: string)
    requires forall i :: 0 <= i < |w| ==> IsJsSpace(w[i])
    ensures TrimStart(w + s) == TrimStart(s)
    decreases |w|
  {
    if |w| > 0 {
      assert (w + s)[0] == w[0] && (w + s)[1..] == w[1..] + s;
      TrimStartSkipsSpace(w[1..], s);
    } else {
      assert w + s == s;
    }
  }

  /** `parseInt` skips any amount of leading white space. */
  lemma ParseIntSkipsSpace(w: string, s: string)
    requires forall i :: 0 <= i < |w| ==> IsJsSpace(w[i])
    ensures ParseInt(w + s) == ParseInt(s)
  {
    TrimStartSkipsSpace(w, s);
  }

  /** A run of digits followed by a non-digit is exactly the longest digit prefix. */
  lemma {:induction false} DigitPrefixOfRun(d: string, rest: string)
    requires forall i :: 0 <= i < |d| ==> IsDigit(d[i])
    requires |rest| > 0 ==> !IsDigit(rest[0])
    ensures DigitPrefix(d + rest) == d
    decreases |d|
  {
    if |d| > 0 {
      assert (d + rest)[0] == d[0] && (d + rest)[1..] == d[1..] + rest;
      DigitPrefixOfRun(d[1..], rest);
      assert d == [d[0]] + d[1..];
    } else {
      assert d + rest == rest;
    }
  }

  /** A digit is neither white space nor a sign. */
  lemma DigitIsPlain(c: char)
    requires IsDigit(c)
    ensures !IsJsSpace(c) && c != '-' && c != '+'
  {
  }

  lemma MinusIsNoSpace()
    ensures !IsJsSpace('-')
  {
  }

  /** A string that starts with no white space is left alone by `TrimStart`. */
  lemma TrimStartKeeps(t: string)
    requires |t| > 0 && !IsJsSpace(t[0])
    ensures TrimStart(t) == t
  {
  }

  /** Without a sign, the digit run is the value. */
  lemma ParseUnsignedRun(d: string, rest: string)
    requires |d| > 0 && forall i :: 0 <= i < |d| ==> IsDigit(d[i])
    requires |rest| > 0 ==> !IsDigit(rest[0])
    ensures ParseUnsigned(d + rest) == Some(DigitsValue(d))
  {
    DigitPrefixOfRun(d, rest);
  }

  /** A leading digit is no sign, so the trimmed string is read as unsigned. */
  lemma ParseTrimmedDigits(d: string, rest: string)
    requires |d| > 0 && forall i :: 0 <= i < |d| ==> IsDigit(d[i])
    requires |rest| > 0 ==> !IsDigit(rest[0])
    ensures ParseTrimmed(d + rest) == Some(DigitsValue(d))
  {
    var x := d + rest;
    assert x[0] == d[0];
    DigitIsPlain(d[0]);
    ParseUnsignedRun(d, rest);
  }

  /** `parseInt` reads a leading digit run and ignores whatever follows it. */
  lemma ParseIntDigits(d: string, rest: string)
    requires |d| > 0 && forall i :: 0 <= i < |d| ==> IsDigit(d[i])
    requires |rest| > 0 ==> !IsDigit(rest[0])
    ensures ParseInt(d + rest) == Some(DigitsValue(d))
  {
    var x := d + rest;
    assert x[0] == d[0];
    DigitIsPlain(d[0]);
    TrimStartKeeps(x);
    ParseTrimmedDigits(d, rest);
  }

  /** With a minus sign, the value read after it is negated. */
  lemma ParseTrimmedNegative(u: string)
    requires ParseUnsigned(u).Some?
    ensures ParseTrimmed(['-'] + u) == Some(-ParseUnsigned(u).value)
  {
    assert (['-'] + u)[1..] == u;
  }

  /** `parseInt` of a minus sign and an unsigned number is its negation. */
  lemma ParseIntMinus(u: string, v: int)
    requires ParseUnsigned(u) == Some(v)
    ensures ParseInt(['-'] + u) == Some(-v)
  {
    var x := ['-'] + u;
    assert x[0] == '-';
    MinusIsNoSpace();
    TrimStartKeeps(x);
    ParseTrimmedNegative(u);
  }

  /** A minus sign in front of a digit run negates its value. */
  lemma ParseIntNegative(d: string, rest: string)
    requires |d| > 0 && forall i :: 0 <= i < |d| ==> IsDigit(d[i])
    requires |rest| > 0 ==> !IsDigit(rest[0])
    ensures ParseInt("-" + d + rest) == Some(-1 * DigitsValue(d))
  {
    var x := "-" + d + rest;
    MinusInFront(d, rest);
    assert x[0] == '-';
    MinusIsNoSpace();
    TrimStartKeeps(x);
    ParseUnsignedRun(d, rest);
    ParseTrimmedNegative(d + rest);
  }

  /** Concatenation regrouped: a minus sign, then the digits and the rest. */
  lemma MinusInFront(d: string, rest: string)
    ensures "-" + d + rest == ['-'] + (d + rest)
  {
  }

  /** `params?.page ? parseInt(params.page, 10) || 1 : 1` */
  function ParsePage(param: Option<string>): (page: int)
    ensures page != 0
    ensures param.None? || param == Some("") ==> page == 1
    ensures page != 1 ==> param.Some? && ParseInt(param.value) == Some(page)
    ensures param.Some? && ParseInt(param.value).Some? && ParseInt(param.value).value != 0 ==>
      page == ParseInt(param.value).value
    ensures param.None? || ParseInt(param.value).None? || ParseInt(param.value) == Some(0) ==> page == 1
  {
    match param
    case None => 1
    case Some(s) =>
      if s == "" then 1
      else
        match ParseInt(s)
        case None => 1
        case Some(n) => if n == 0 then 1 else n
  }

  // ---------------------------------------------------------------------------------------
  // String(p) and buildHref

  function DigitChar(d: nat): (c: char)
    requires d < 10
    ensures IsDigit(c) && DigitValue(c) == d
  {
    ('0' as nat + d) as char
  }

  /** `String(n)` for a natural number: its decimal digits, without leading zeros. */
  function Decimal(n: nat): (s: string)
    ensures |s| > 0
    ensures forall i :: 0 <= i < |s| ==> IsDigit(s[i])
    ensures DigitsValue(s) == n
    ensures |s| > 1 ==> s[0] != '0'
  {
    if n < 10 then [DigitChar(n)]
    else
      var front := Decimal(n / 10);
      var s := front + [DigitChar(n % 10)];
      assert s[..|s| - 1] == front;
      s
  }

  /** The digits of a number, parsed back, give the number. */
  lemma ParseIntDecimal(n: nat)
    ensures ParseInt(Decimal(n)) == Some(n)
  {
    var s := Decimal(n);
    assert IsDigit(s[0]) && !IsJsSpace(s[0]);
    assert TrimStart(s) == s;
    assert s[0] != '-' && s[0] != '+';
    AllDigitsPrefix(s);
    assert DigitPrefix(s) == s;
  }

  /** A string of digits is its own longest digit prefix. */
  lemma {:induction false} AllDigitsPrefix(s: string)
    requires forall i :: 0 <= i < |s| ==> IsDigit(s[i])
    ensures DigitPrefix(s) == s
  {
    if |s| > 0 {
      AllDigitsPrefix(s[1..]);
    }
  }

  /** The `page` search parameter `buildHref(p)` sets: only for pages above 1. */
  function PageSearchParam(p: int): Option<string>
  {
    if p > 1 then Some(Decimal(p)) else None
  }

  /** `buildHref`: "/category", followed by "?page=" and the page number when the page is above 1. */
  function BuildHref(p: int): (href: string)
    ensures p <= 1 ==> href == RoutePath
    ensures p > 1 ==> href == RoutePath + "?page=" + Decimal(p)
  {
    match PageSearchParam(p)
    case None => RoutePath
    case Some(v) => RoutePath + "?page=" + v
  }

  /** Following a link built for page p lands on page p, or on page 1 for p below 2. */
  lemma LinkRoundTrip(p: int)
    ensures ParsePage(PageSearchParam(p)) == if p > 1 then p else 1
  {
    if p > 1 {
      ParseIntDecimal(p);
    }
  }

  /** Every page link of this route's pagination strip leads back to the page it shows. */
  lemma PageLinksNavigateToTheirPage(currentPage: int, totalPages: int)
    requires totalPages > 1
    ensures var r := Controls(currentPage, totalPages, BuildHref).value;
      forall i :: 0 <= i < |r| && r[i].PageLink? ==>
        r[i].href == BuildHref(r[i].page) && ParsePage(PageSearchParam(r[i].page)) == r[i].page
  {
    PageLinkTargets(currentPage, totalPages, BuildHref);
    var r := Controls(currentPage, totalPages, BuildHref).value;
    forall i | 0 <= i < |r| && r[i].PageLink?
      ensures ParsePage(PageSearchParam(r[i].page)) == r[i].page
    {
      LinkRoundTrip(r[i].page);
    }
  }

  /** A missing or empty parameter means page 1. */
  lemma ParsePageAbsent()
    ensures ParsePage(None) == 1
    ensures ParsePage(Some("")) == 1
  {
  }

  /** "0" parses to 0, which counts as false and falls back to page 1. */
  lemma ParsePageZero()
    ensures ParsePage(Some("0")) == 1
  {
    assert IsDigit('0') && !IsJsSpace('0');
    assert TrimStart("0") == "0";
    assert "0"[1..] == "";
    assert DigitPrefix("0") == "0";
    assert DigitsValue("0") == 0;
  }

  /** A parameter without leading digits parses to NaN, which falls back to page 1. */
  lemma ParsePageNotANumber()
    ensures ParsePage(Some("abc")) == 1
  {
    assert !IsDigit('a') && !IsJsSpace('a');
    assert TrimStart("abc") == "abc";
    assert DigitPrefix("abc") == "";
  }

  /** Leading white space is skipped. */
  lemma ParsePageSkipsSpace()
    ensures ParsePage(Some(" 7")) == 7
  {
    assert !IsJsSpace('7') && IsDigit('7');
    assert IsJsSpace(' ');
    assert " 7"[0] == ' ' && " 7"[1..] == "7";
    assert TrimStart("7") == "7";
    assert TrimStart(" 7") == "7";
    assert DigitPrefix("7") == "7";
    assert DigitsValue("7") == 7;
    assert ParseInt(" 7") == Some(7);
  }

  /** Whatever follows the leading digits is ignored. */
  lemma ParsePageIgnoresTrailing()
    ensures ParsePage(Some("2abc")) == 2
  {
    assert TrimStart("2abc") == "2abc";
    assert "2abc"[1..] == "abc";
    assert DigitPrefix("abc") == "";
    assert DigitPrefix("2abc") == "2";
    assert DigitsValue("2") == 2;
  }

  /** A negative number is passed through: nothing bounds the page from below. */
  lemma ParsePageNegative()
    ensures ParsePage(Some("-3")) == -3
  {
    assert TrimStart("-3") == "-3";
    assert "-3"[1..] == "3";
    assert DigitPrefix("3") == "3";
    assert DigitsValue("3") == 3;
  }

  // ---------------------------------------------------------------------------------------
  // The page

  /** What the route renders: the request it makes, the grid's props and the pagination strip. */
  datatype AllPostsView = AllPostsView(request: FetchRequest, grid: GridProps, controls: Option<seq<Control>>)

  /**
   * The route: the fetch is an external call, given as a function of the request. The grid and
   * the pagination see the same page and total.
   */
  function AllPostsPage(pageParam: Option<string>, fetch: FetchRequest -> Envelope): (view: AllPostsView)
    ensures view.request == FetchRequest(ParsePage(pageParam), PerPage, None)
    ensures view.grid.posts == fetch(view.request).posts
    ensures view.grid.totalPages == Some(fetch(view.request).totalPages)
    ensures !view.grid.enableInfinite && view.grid.categoryId.None?
    ensures view.controls == Controls(view.request.page, fetch(view.request).totalPages, BuildHref)
  {
    var page := ParsePage(pageParam);
    var request := FetchRequest(page, PerPage, None);
    var response := fetch(request);
    AllPostsView(
      request,
      GridProps(response.posts, None, Some(response.totalPages), false),
      Controls(page, response.totalPages, BuildHref))
  }

  /** The route's grid never shows its sentinel, so it never loads more pages by itself. */
  lemma AllPostsGridNeverLoads(pageParam: Option<string>, fetch: FetchRequest -> Envelope, s: ListState, intersecting: bool)
    ensures Intersect(s, AllPostsPage(pageParam, fetch).grid, intersecting) == Step(s, None)
  {
  }
}

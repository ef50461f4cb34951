/**
 * The dashboard's presentation logic: the screen-size breakpoints that fix the
 * page size, the split of the user's links into active and inactive tabs, the
 * page window of each tab and its page count, the newest-first ordering of a
 * freshly loaded list, the local removal after a confirmed delete, and the
 * "time ago" label. Timestamps are integer milliseconds.
 */
module Dashboard {
  import opened JsText
  import opened JsArray

  /** A link as the backend's list endpoint returns it (the fields the page reads). */
  datatype ListedLink = ListedLink(
    id: string,
    customCode: string,
    originalUrl: string,
    createdAt: int,
    active: bool,
    clicks: int)

  datatype ScreenSize = Small | Medium | Large

  // ---------------------------------------------------------------------------
  // Page size

  /** The resize handler's breakpoints. */
  function ScreenSizeFor(width: int): (s: ScreenSize)
    ensures s == Small <==> width < 768
    ensures s == Medium <==> 768 <= width < 1024
    ensures s == Large <==> 1024 <= width
  {
    if width < 768 then Small else if width < 1024 then Medium else Large
  }

  /** Cards per page for a screen size. */
  function ItemsPerPage(s: ScreenSize): (n: nat)
    ensures n > 0
    ensures s == Small ==> n == 3
    ensures s == Medium ==> n == 4
    ensures s == Large ==> n == 6
  {
    match s
    case Small => 3
    case Medium => 4
    case Large => 6
  }

  // ---------------------------------------------------------------------------
  // Active / inactive tabs

  /** `links.filter(link => link.active)`: exactly the active links. */
  function ActiveLinks(links: seq<ListedLink>): (r: seq<ListedLink>)
    ensures forall k :: 0 <= k < |r| ==> r[k].active && r[k] in links
    ensures forall k :: 0 <= k < |links| && links[k].active ==> links[k] in r
  {
    Filter(links, (l: ListedLink) => l.active)
  }

  /** `links.filter(link => !link.active)`: exactly the inactive links. */
  function InactiveLinks(links: seq<ListedLink>): (r: seq<ListedLink>)
    ensures forall k :: 0 <= k < |r| ==> !r[k].active && r[k] in links
    ensures forall k :: 0 <= k < |links| && !links[k].active ==> links[k] in r
  {
    Filter(links, (l: ListedLink) => !l.active)
  }

  /** Every link lands in exactly one tab, according to its `active` flag. */
  lemma PartitionIsExact(links: seq<ListedLink>)
    ensures multiset(ActiveLinks(links)) + multiset(InactiveLinks(links)) == multiset(links)
    ensures |ActiveLinks(links)| + |InactiveLinks(links)| == |links|
  {
    FilterComplement(links, (l: ListedLink) => l.active, (l: ListedLink) => !l.active);
  }

  /** Both tabs keep the list's order: splitting the list splits each tab. */
  lemma PartitionKeepsOrder(xs: seq<ListedLink>, ys: seq<ListedLink>)
    ensures ActiveLinks(xs + ys) == ActiveLinks(xs) + ActiveLinks(ys)
    ensures InactiveLinks(xs + ys) == InactiveLinks(xs) + InactiveLinks(ys)
  {
    FilterAppend(xs, ys, (l: ListedLink) => l.active);
    FilterAppend(xs, ys, (l: ListedLink) => !l.active);
  }

  // ---------------------------------------------------------------------------
  // Pages

  function Min(a: int, b: int): int { if a <= b then a else b }

  /** `xs.slice((page - 1) * size, page * size)`: a run of the list, and for
      a page counted from 1 never more than `size` items. */
  function PageOf<T>(xs: seq<T>, page: int, size: nat): (r: seq<T>)
    ensures exists a, b :: 0 <= a <= b <= |xs| && r == xs[a..b]
    ensures page >= 1 ==> |r| <= size
  {
    var lo, hi := (page - 1) * size, page * size;
    if page >= 1 then
      MulMonotone(0, page - 1, size);
      assert hi == lo + size;
      SliceWithinBounds(xs, lo, hi);
      Slice(xs, lo, hi)
    else Slice(xs, lo, hi)
  }

  /** `Math.ceil(len / size)`: the least number of pages of `size` items
      that holds `len` items. */
  function PageCount(len: nat, size: nat): (n: nat)
    requires size > 0
    ensures n * size >= len
    ensures n > 0 ==> (n - 1) * size < len
  {
    var q := len / size;
    assert len == q * size + len % size;
    assert (q + 1) * size == q * size + size;
    if len % size == 0 then q else q + 1
  }

  /** Page `page` (counted from 1) is the window [(page-1)*size, page*size) of
      the list, cut off at its end: never more than `size` items, and empty
      past the last item. */
  lemma PageIsWindow<T>(xs: seq<T>, page: int, size: nat)
    requires page >= 1
    ensures PageOf(xs, page, size) == xs[Min((page - 1) * size, |xs|)..Min(page * size, |xs|)]
    ensures |PageOf(xs, page, size)| <= size
    ensures (page - 1) * size >= |xs| ==> PageOf(xs, page, size) == []
  {
    var lo, hi := (page - 1) * size, page * size;
    MulMonotone(0, page - 1, size);
    assert hi == lo + size;
    SliceWithinBounds(xs, lo, hi);
  }

  /** Pages 1..k laid end to end. */
  function PagesUpTo<T>(xs: seq<T>, size: nat, k: nat): seq<T>
  {
    if k == 0 then [] else PagesUpTo(xs, size, k - 1) + PageOf(xs, k, size)
  }

  lemma {:induction false} PagesUpToIsPrefix<T>(xs: seq<T>, size: nat, k: nat)
    ensures PagesUpTo(xs, size, k) == xs[..Min(k * size, |xs|)]
  {
    if k > 0 {
      var lo, hi := (k - 1) * size, k * size;
      PagesUpToIsPrefix(xs, size, k - 1);
      PageIsWindow(xs, k, size);
      MulMonotone(0, k - 1, size);
      assert hi == lo + size;
      PrefixThenWindow(xs, lo, hi);
    }
  }

  lemma PrefixThenWindow<T>(xs: seq<T>, lo: int, hi: int)
    requires 0 <= lo <= hi
    ensures xs[..Min(lo, |xs|)] + xs[Min(lo, |xs|)..Min(hi, |xs|)] == xs[..Min(hi, |xs|)]
  {
  }

  /** Concatenating pages 1..PageCount gives back the list exactly. */
  lemma PagesReassemble<T>(xs: seq<T>, size: nat)
    requires size > 0
    ensures PagesUpTo(xs, size, PageCount(|xs|, size)) == xs
  {
    PagesUpToIsPrefix(xs, size, PageCount(|xs|, size));
  }

  /** Every page the pager offers holds at least one item; the page after the
      last is empty. */
  lemma OfferedPagesAreNonEmpty<T>(xs: seq<T>, size: nat, page: int)
    requires size > 0 && page >= 1
    ensures page <= PageCount(|xs|, size) ==> PageOf(xs, page, size) != []
    ensures page > PageCount(|xs|, size) ==> PageOf(xs, page, size) == []
  {
    PageIsWindow(xs, page, size);
    var n := PageCount(|xs|, size);
    if page <= n {
      MulMonotone(page - 1, n - 1, size);
    } else {
      MulMonotone(n, page - 1, size);
    }
  }

  /** A page of a list holds links of that list only, and when every link of
      the list carries one flag, so does every link on the page. */
  lemma PageKeepsFlag(xs: seq<ListedLink>, page: int, size: nat, flag: bool)
    requires forall k :: 0 <= k < |xs| ==> xs[k].active == flag
    ensures forall k :: 0 <= k < |PageOf(xs, page, size)| ==>
              PageOf(xs, page, size)[k].active == flag && PageOf(xs, page, size)[k] in xs
  {
    var shown := PageOf(xs, page, size);
    var a, b :| 0 <= a <= b <= |xs| && shown == xs[a..b];
    WindowKeepsFlag(xs, a, b, flag);
  }

  lemma WindowKeepsFlag(xs: seq<ListedLink>, a: int, b: int, flag: bool)
    requires 0 <= a <= b <= |xs|
    requires forall k :: 0 <= k < |xs| ==> xs[k].active == flag
    ensures forall k :: 0 <= k < b - a ==> xs[a..b][k].active == flag && xs[a..b][k] in xs
  {
    forall k | 0 <= k < b - a ensures xs[a..b][k].active == flag && xs[a..b][k] in xs {
      assert xs[a..b][k] == xs[a + k];
    }
  }

  lemma MulMonotone(a: int, b: int, c: nat)
    requires a <= b
    ensures a * c <= b * c
  {
    assert b * c - a * c == (b - a) * c;
  }

  // ---------------------------------------------------------------------------
  // Newest first

  ghost predicate NewestFirst(s: seq<ListedLink>) {
    forall p, q :: 0 <= p < q < |s| ==> s[p].createdAt >= s[q].createdAt
  }

  /** Exchanges two neighbours; nothing else moves. */
  method SwapWithPrevious(a: array<ListedLink>, j: int)
    requires 0 < j < a.Length
    modifies a
    ensures a[j - 1] == old(a[j]) && a[j] == old(a[j - 1])
    ensures forall k :: 0 <= k < a.Length && k != j - 1 && k != j ==> a[k] == old(a[k])
    ensures multiset(a[..]) == multiset(old(a[..]))
  {
    a[j - 1], a[j] := a[j], a[j - 1];
  }

  /** One step of the sort: moves `a[i]` left past every strictly older
      neighbour, so that `a[..i+1]` is newest first. */
  method SinkNewest(a: array<ListedLink>, i: int)
    requires 0 <= i < a.Length
    requires forall p, q :: 0 <= p < q < i ==> a[p].createdAt >= a[q].createdAt
    modifies a
    ensures forall p, q :: 0 <= p < q <= i ==> a[p].createdAt >= a[q].createdAt
    ensures multiset(a[..]) == multiset(old(a[..]))
  {
    var j := i;
    while j > 0 && a[j - 1].createdAt < a[j].createdAt
      invariant 0 <= j <= i
      invariant forall p, q :: 0 <= p < q <= i && p != j && q != j ==> a[p].createdAt >= a[q].createdAt
      invariant forall q :: j < q <= i ==> a[q].createdAt < a[j].createdAt
      invariant multiset(a[..]) == multiset(old(a[..]))
    {
      SwapWithPrevious(a, j);
      j := j - 1;
    }
  }

  /** `res.sort((a, b) => new Date(b.createdAt) - new Date(a.createdAt))`, in place. */
  method SortNewestFirst(a: array<ListedLink>)
    modifies a
    ensures NewestFirst(a[..])
    ensures multiset(a[..]) == multiset(old(a[..]))
  {
    var i := 0;
    while i < a.Length
      invariant 0 <= i <= a.Length
      invariant forall p, q :: 0 <= p < q < i ==> a[p].createdAt >= a[q].createdAt
      invariant multiset(a[..]) == multiset(old(a[..]))
    {
      SinkNewest(a, i);
      i := i + 1;
    }
  }

  // ---------------------------------------------------------------------------
  // Delete

  /** `prevLinks.filter(link => link.id !== id)`: no link with the id is
      left, and every link with another id stays. */
  function RemoveById(links: seq<ListedLink>, id: string): (r: seq<ListedLink>)
    ensures forall k :: 0 <= k < |r| ==> r[k].id != id && r[k] in links
    ensures forall k :: 0 <= k < |links| && links[k].id != id ==> links[k] in r
  {
    Filter(links, (l: ListedLink) => l.id != id)
  }

  /** After a confirmed delete every other link is still there as often as
      before, and the deleted id not at all. */
  lemma RemoveByIdSpec(links: seq<ListedLink>, id: string, x: ListedLink)
    ensures multiset(RemoveById(links, id))[x] == if x.id == id then 0 else multiset(links)[x]
  {
    FilterCounts(links, (l: ListedLink) => l.id != id, x);
  }

  /** The survivors keep their order: removing from a split list removes from
      each part. */
  lemma RemoveByIdKeepsOrder(xs: seq<ListedLink>, ys: seq<ListedLink>, id: string)
    ensures RemoveById(xs + ys, id) == RemoveById(xs, id) + RemoveById(ys, id)
  {
    FilterAppend(xs, ys, (l: ListedLink) => l.id != id);
  }

  // ---------------------------------------------------------------------------
  // "Time ago"

  datatype Unit = Year | Month | Week | Day | Hour | Minute

  function UnitSeconds(u: Unit): nat
  {
    match u
    case Year => 31536000
    case Month => 2592000
    case Week => 604800
    case Day => 86400
    case Hour => 3600
    case Minute => 60
  }

  function UnitName(u: Unit): string
  {
    match u
    case Year => "year"
    case Month => "month"
    case Week => "week"
    case Day => "day"
    case Hour => "hour"
    case Minute => "minute"
  }

  /** The units in the order the loop tries them, largest first. */
  const Units: seq<Unit> := [Year, Month, Week, Day, Hour, Minute]

  datatype Age = JustNow | Ago(count: nat, unit: Unit)

  /** A floor quotient by a positive divisor is positive exactly when the
      dividend reaches the divisor. */
  lemma QuotientPositive(s: int, d: int)
    requires d > 0
    ensures s / d > 0 <==> s >= d
  {
    var q, r := s / d, s % d;
    assert s == q * d + r && 0 <= r < d;
    if q > 0 {
      MulMonotone(1, q, d);
    } else {
      MulMonotone(q, 0, d);
    }
  }

  /** The label the loop produces when it starts at unit `i`: the first unit
      from there that fits at least once. */
  function AgeFrom(seconds: int, i: nat): (a: Age)
    requires i <= |Units|
    decreases |Units| - i
    ensures a.JustNow? <==> forall j :: i <= j < |Units| ==> seconds < UnitSeconds(Units[j])
    ensures a.Ago? ==> a.count >= 1 && a.count == seconds / UnitSeconds(a.unit) && i <= IndexOfUnit(a.unit)
    ensures a.Ago? ==> UnitSeconds(a.unit) <= seconds
    ensures a.Ago? ==> forall j :: i <= j < IndexOfUnit(a.unit) ==> seconds < UnitSeconds(Units[j])
  {
    if i == |Units| then JustNow
    else
      var d := UnitSeconds(Units[i]);
      QuotientPositive(seconds, d);
      var count := seconds / d;
      if count > 0 then Ago(count, Units[i]) else AgeFrom(seconds, i + 1)
  }

  function AgeOf(seconds: int): Age
  {
    AgeFrom(seconds, 0)
  }

  /** `Math.floor((now - date) / 1000)`. */
  /** `Math.floor((now - date) / 1000)`: whole seconds, rounded down (also
      for a date in the future). */
  function ElapsedSeconds(nowMs: int, thenMs: int): (r: int)
    ensures r * 1000 <= nowMs - thenMs < r * 1000 + 1000
  {
    (nowMs - thenMs) / 1000
  }

  /** The label is "Just now" exactly for less than a minute (a date in the
      future included); otherwise it names the largest unit that fits at least
      once, with the whole number of such units. */
  lemma AgeIsLargestFittingUnit(seconds: int)
    ensures AgeOf(seconds) == JustNow <==> seconds < 60
    ensures AgeOf(seconds).Ago? ==>
      var u := AgeOf(seconds).unit;
      AgeOf(seconds).count == seconds / UnitSeconds(u) && UnitSeconds(u) <= seconds &&
      forall v: Unit :: UnitSeconds(v) > UnitSeconds(u) ==> seconds < UnitSeconds(v)
  {
    var a := AgeOf(seconds);
    assert Units[5] == Minute;
    if a.Ago? {
      forall v: Unit | UnitSeconds(v) > UnitSeconds(a.unit) ensures seconds < UnitSeconds(v) {
        assert IndexOfUnit(v) < IndexOfUnit(a.unit);
      }
    }
  }

  function IndexOfUnit(u: Unit): (i: nat)
    ensures i < |Units| && Units[i] == u
  {
    match u
    case Year => 0
    case Month => 1
    case Week => 2
    case Day => 3
    case Hour => 4
    case Minute => 5
  }

  function DigitChar(d: nat): char
    requires d < 10
  {
    ('0' as int + d) as char
  }

  /** `${n}` for a non-negative integer. */
  function DecimalString(n: nat): (s: string)
    ensures |s| >= 1 && (s[0] == '0' ==> n == 0)
    ensures forall k :: 0 <= k < |s| ==> '0' <= s[k] <= '9'
  {
    if n < 10 then [DigitChar(n)] else DecimalString(n / 10) + [DigitChar(n % 10)]
  }

  /** The number a string of decimal digits denotes. */
  function DecimalValue(s: string): int
  {
    if s == [] then 0 else DecimalValue(s[..|s| - 1]) * 10 + (s[|s| - 1] as int - '0' as int)
  }

  lemma {:induction false} DecimalRoundTrip(n: nat)
    ensures DecimalValue(DecimalString(n)) == n
  {
    if n >= 10 {
      DecimalRoundTrip(n / 10);
      var s := DecimalString(n);
      assert s[..|s| - 1] == DecimalString(n / 10);
    }
  }

  /** The label: "Just now", or the count in decimal, the unit and " ago". */
  function Render(a: Age): (r: string)
    ensures r == "Just now" <==> a.JustNow?
    ensures a.Ago? ==> var d := DecimalString(a.count);
      |r| >= |d| + 4 && r[..|d|] == d && r[|r| - 4..] == " ago"
  {
    match a
    case JustNow => "Just now"
    case Ago(count, unit) =>
      DecimalString(count) + " " + UnitName(unit) + (if count > 1 then "s" else "") + " ago"
  }

  /** The unit takes a plural "s" exactly when the count is above one. */
  lemma PluralExactlyAboveOne(count: nat, unit: Unit)
    ensures var t := Render(Ago(count, unit));
      |t| >= 5 && (t[|t| - 5..] == "s ago" <==> count > 1)
  {
    var t := Render(Ago(count, unit));
    var name := UnitName(unit);
    if count <= 1 {
      assert t[|t| - 5] == name[|name| - 1];
    }
  }

  /** `getTimeAgo`: tries the units largest first and returns at the first
      whose floor quotient is positive. */
  method TimeAgo(nowMs: int, createdMs: int) returns (text: string)
    ensures text == Render(AgeOf(ElapsedSeconds(nowMs, createdMs)))
  {
    var seconds := (nowMs - createdMs) / 1000;
    var i := 0;
    while i < |Units|
      invariant 0 <= i <= |Units|
      invariant AgeFrom(seconds, i) == AgeFrom(seconds, 0)
    {
      var count := seconds / UnitSeconds(Units[i]);
      if count > 0 {
        return Render(Ago(count, Units[i]));
      }
      i := i + 1;
    }
    return "Just now";
  }

  // ---------------------------------------------------------------------------
  // Short URL

  /** `${origin}/${code}`. For a fixed origin the short URL determines the
      code: the origin, a slash, and the code, with nothing lost. */
  function FullShortUrl(origin: string, code: string): (r: string)
    ensures |r| == |origin| + 1 + |code|
    ensures r[..|origin|] == origin && r[|origin|] == '/' && r[|origin| + 1..] == code
  {
    origin + "/" + code
  }

  /** The short URL as the route table expects it: under the redirect route
      `/r/:shortCode`. */
  function RedirectShortUrl(origin: string, code: string): (r: string)
    ensures |r| == |origin| + 3 + |code|
    ensures r[..|origin|] == origin && r[|origin|..] == "/r/" + code
  {
    origin + "/r/" + code
  }

  // ---------------------------------------------------------------------------
  // Page state

  class DashboardPage {
    var links: seq<ListedLink>
    var activePage: int
    var inactivePage: int
    var screenSize: ScreenSize

    /** Both pagers sit on a page counted from 1: the pager only ever sends
        page numbers from 1 to its total. */
    ghost predicate Valid()
      reads this
    {
      activePage >= 1 && inactivePage >= 1
    }

    constructor ()
      ensures Valid()
      ensures links == [] && activePage == 1 && inactivePage == 1 && screenSize == Large
    {
      links := [];
      activePage := 1;
      inactivePage := 1;
      screenSize := Large;
    }

    /** The resize listener. */
    method HandleResize(width: int)
      modifies this
      ensures screenSize == ScreenSizeFor(width)
      ensures links == old(links) && activePage == old(activePage) && inactivePage == old(inactivePage)
    {
      screenSize := ScreenSizeFor(width);
    }

    /** The fetch's success callback: sorts the response in place and stores it. */
    method OnLinksLoaded(res: array<ListedLink>)
      modifies this, res
      ensures links == res[..] && NewestFirst(links)
      ensures multiset(links) == multiset(old(res[..]))
      ensures activePage == old(activePage) && inactivePage == old(inactivePage)
      ensures screenSize == old(screenSize)
    {
      SortNewestFirst(res);
      links := res[..];
    }

    /** `handleDeleteLink`, once the backend call has settled: `deleted` says
        whether it succeeded, `errorMessage` is the rejection's message. */
    method HandleDeleteLink(id: string, deleted: bool, errorMessage: Option<string>)
      returns (note: Notice)
      modifies this
      ensures deleted ==> links == RemoveById(old(links), id)
      ensures !deleted ==> links == old(links)
      ensures deleted ==> note == Notice("Link Deleted", "Your link has been successfully deleted", "green")
      ensures !deleted ==> note == Notice("Delete failed", OrElse(errorMessage, "Could not delete the link"), "red")
      ensures activePage == old(activePage) && inactivePage == old(inactivePage)
      ensures screenSize == old(screenSize)
    {
      if deleted {
        links := RemoveById(links, id);
        note := Notice("Link Deleted", "Your link has been successfully deleted", "green");
      } else {
        note := Notice("Delete failed", OrElse(errorMessage, "Could not delete the link"), "red");
      }
    }

    /** The active tab's pager. */
    method SetActivePage(page: int)
      requires Valid() && page >= 1
      modifies this
      ensures Valid() && activePage == page
      ensures links == old(links) && inactivePage == old(inactivePage) && screenSize == old(screenSize)
    {
      activePage := page;
    }

    /** The inactive tab's pager. */
    method SetInactivePage(page: int)
      requires Valid() && page >= 1
      modifies this
      ensures Valid() && inactivePage == page
      ensures links == old(links) && activePage == old(activePage) && screenSize == old(screenSize)
    {
      inactivePage := page;
    }

    /** The cards shown in the active tab: active links of the list only,
        and, while both pagers sit on a page counted from 1, at most a page
        of them. */
    function ShownActive(): (r: seq<ListedLink>)
      reads this
      ensures forall k :: 0 <= k < |r| ==> r[k].active && r[k] in links
      ensures Valid() ==> |r| <= ItemsPerPage(screenSize)
    {
      PageKeepsFlag(ActiveLinks(links), activePage, ItemsPerPage(screenSize), true);
      PageOf(ActiveLinks(links), activePage, ItemsPerPage(screenSize))
    }

    /** The cards shown in the inactive tab: inactive links of the list only,
        and, while both pagers sit on a page counted from 1, at most a page
        of them. */
    function ShownInactive(): (r: seq<ListedLink>)
      reads this
      ensures forall k :: 0 <= k < |r| ==> !r[k].active && r[k] in links
      ensures Valid() ==> |r| <= ItemsPerPage(screenSize)
    {
      PageKeepsFlag(InactiveLinks(links), inactivePage, ItemsPerPage(screenSize), false);
      PageOf(InactiveLinks(links), inactivePage, ItemsPerPage(screenSize))
    }

    /** The `total` given to the active tab's pager: its pages, laid end to
        end, give back every active link, the last of them holds a card, and
        the page after it is empty. */
    function ActivePageTotal(): (n: nat)
      reads this
      ensures PagesUpTo(ActiveLinks(links), ItemsPerPage(screenSize), n) == ActiveLinks(links)
      ensures n > 0 ==> PageOf(ActiveLinks(links), n, ItemsPerPage(screenSize)) != []
      ensures PageOf(ActiveLinks(links), n + 1, ItemsPerPage(screenSize)) == []
    {
      var xs, size := ActiveLinks(links), ItemsPerPage(screenSize);
      var n := PageCount(|xs|, size);
      PagesReassemble(xs, size);
      OfferedPagesAreNonEmpty(xs, size, if n > 0 then n else 1);
      OfferedPagesAreNonEmpty(xs, size, n + 1);
      n
    }

    /** The `total` given to the inactive tab's pager, with the same
        guarantees over the inactive links. */
    function InactivePageTotal(): (n: nat)
      reads this
      ensures PagesUpTo(InactiveLinks(links), ItemsPerPage(screenSize), n) == InactiveLinks(links)
      ensures n > 0 ==> PageOf(InactiveLinks(links), n, ItemsPerPage(screenSize)) != []
      ensures PageOf(InactiveLinks(links), n + 1, ItemsPerPage(screenSize)) == []
    {
      var xs, size := InactiveLinks(links), ItemsPerPage(screenSize);
      var n := PageCount(|xs|, size);
      PagesReassemble(xs, size);
      OfferedPagesAreNonEmpty(xs, size, if n > 0 then n else 1);
      OfferedPagesAreNonEmpty(xs, size, n + 1);
      n
    }
  }
}

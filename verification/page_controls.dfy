/**
  The two page-navigation controls of the admin screens. The plan list's control
  renders page 1, the last page and the pages next to the current one as links,
  an ellipsis at page 2 or at the second-to-last page when pages are skipped there,
  and guarded Previous/Next buttons. The e-mail template list's control shows a
  "page x of y" label and two buttons disabled by equality tests.
*/
module PageControls {
  import opened Wrappers
  import Lists

  // ---------------------------------------------------------------------------------------
  // The plan list's control

  /** Page `p` is rendered as a link: the first page, the last page, or next to the current one. */
  predicate Linked(p: int, current: int, total: int) {
    p == 1 || p == total || (current - 1 <= p <= current + 1)
  }

  /** Page `p` is rendered as an ellipsis: not a link, and page 2 past an early gap or the second-to-last page before a late one. */
  predicate Elided(p: int, current: int, total: int) {
    !Linked(p, current, total) && ((p == 2 && current > 3) || (p == total - 1 && current < total - 2))
  }

  datatype Item = Link(page: int, active: bool) | Ellipsis(page: int)

  predicate IsLink(it: Item) {
    it.Link?
  }

  /** What the map over `1..totalPages` produces for page `p`: a link, an ellipsis or nothing. */
  function ItemAt(p: int, current: int, total: int): Option<Item> {
    if Linked(p, current, total) then Some(Link(p, p == current))
    else if (p == 2 && current > 3) || (p == total - 1 && current < total - 2) then Some(Ellipsis(p))
    else None
  }

  /** Pages ordered strictly by page number. */
  predicate Increasing(items: seq<Item>) {
    forall i, j :: 0 <= i < j < |items| ==> items[i].page < items[j].page
  }

  /** The items the map produces for pages `1..n`, the nothings dropped. */
  function ItemsUpTo(n: nat, current: int, total: int): (r: seq<Item>)
    ensures forall i :: 0 <= i < |r| ==> 1 <= r[i].page <= n && ItemAt(r[i].page, current, total) == Some(r[i])
    ensures Increasing(r)
    ensures forall p :: 1 <= p <= n && ItemAt(p, current, total).Some? ==> ItemAt(p, current, total).value in r
  {
    if n == 0 then []
    else
      var rest := ItemsUpTo(n - 1, current, total);
      match ItemAt(n, current, total)
      case None => rest
      case Some(it) => rest + [it]
  }

  /** What the plan pagination renders: its items and the page Previous and Next ask for, if any. */
  datatype PlanView = PlanView(items: seq<Item>, previous: Option<int>, next: Option<int>)

  /** The plan list's control; `None` when there are no pages and nothing is rendered. */
  function PlanPagination(current: int, total: int): (r: Option<PlanView>)
    ensures r.None? <==> total <= 0
    ensures r.Some? ==> (r.value.previous.Some? <==> current > 1)
    ensures r.Some? && r.value.previous.Some? ==> r.value.previous.value == current - 1 >= 1
    ensures r.Some? ==> (r.value.next.Some? <==> current < total)
    ensures r.Some? && r.value.next.Some? ==> r.value.next.value == current + 1 <= total
  {
    if total <= 0 then None
    else
      Some(PlanView(
        ItemsUpTo(total, current, total),
        if current > 1 then Some(current - 1) else None,
        if current < total then Some(current + 1) else None))
  }

  /** The rendered items are exactly the links of `Linked` pages and the ellipses of `Elided` pages, in page order. */
  lemma PlanItemsExact(current: int, total: int, p: int)
    requires total > 0
    ensures var items := PlanPagination(current, total).value.items;
      && Increasing(items)
      && (Link(p, p == current) in items <==> 1 <= p <= total && Linked(p, current, total))
      && (Ellipsis(p) in items <==> 1 <= p <= total && Elided(p, current, total))
      && (forall i :: 0 <= i < |items| ==> 1 <= items[i].page <= total)
  {
    var items := PlanPagination(current, total).value.items;
    if Link(p, p == current) in items || Ellipsis(p) in items {
      var i :| 0 <= i < |items| && (items[i] == Link(p, p == current) || items[i] == Ellipsis(p));
      assert ItemAt(items[i].page, current, total) == Some(items[i]);
    }
    if 1 <= p <= total {
      assert ItemAt(p, current, total).Some? ==> ItemAt(p, current, total).value in items;
    }
  }

  /** Page 1 and the last page are always links. */
  lemma FirstAndLastAreLinks(current: int, total: int)
    requires total > 0
    ensures Link(1, current == 1) in PlanPagination(current, total).value.items
    ensures Link(total, current == total) in PlanPagination(current, total).value.items
  {
    PlanItemsExact(current, total, 1);
    PlanItemsExact(current, total, total);
  }

  /** A link is marked active exactly when it is the current page. */
  lemma ActiveIffCurrent(current: int, total: int)
    requires total > 0
    ensures var items := PlanPagination(current, total).value.items;
      forall i :: 0 <= i < |items| && items[i].Link? ==> (items[i].active <==> items[i].page == current)
  {
  }

  /** The pages the items are for. */
  function Pages(items: seq<Item>): set<int> {
    set i | 0 <= i < |items| :: items[i].page
  }

  /** The pages of a non-empty list are those of its front and the last item's. */
  lemma PagesOfFront(items: seq<Item>)
    requires items != []
    ensures Pages(items) == Pages(items[..|items| - 1]) + {items[|items| - 1].page}
  {
    var n := |items| - 1;
    var front := items[..n];
    forall x | x in Pages(items) ensures x in Pages(front) + {items[n].page} {
      var i :| 0 <= i < |items| && items[i].page == x;
      if i < n {
        assert front[i].page == x;
      }
    }
    forall x | x in Pages(front) ensures x in Pages(items) {
      var i :| 0 <= i < |front| && front[i].page == x;
      assert items[i].page == x;
    }
  }

  /** A strictly increasing list of items has as many distinct pages as items. */
  lemma {:induction false} IncreasingPages(items: seq<Item>)
    requires Increasing(items)
    ensures |Pages(items)| == |items|
  {
    if items != [] {
      var n := |items| - 1;
      var front := items[..n];
      IncreasingPages(front);
      PagesOfFront(items);
      assert items[n].page !in Pages(front) by {
        forall i | 0 <= i < |front| ensures front[i].page < items[n].page {
          assert front[i] == items[i];
        }
      }
    }
  }

  /** A set inside a set of at most five elements has at most five elements. */
  lemma AtMostFive(s: set<int>, a: int, b: int, c: int, d: int, e: int)
    requires s <= {a, b, c, d, e}
    ensures |s| <= 5
  {
    var big := {a, b, c, d, e};
    assert |big| <= 5;
    assert big == s + (big - s);
    assert |big| == |s| + |big - s|;
  }

  /** A filter keeps the items in page order. */
  lemma LinksIncreasing(items: seq<Item>)
    requires Increasing(items)
    ensures Increasing(Lists.Filter(items, IsLink))
  {
    var before := (x: Item, y: Item) => x.page < y.page;
    assert Lists.Pairwise(items, before);
    Lists.FilterKeepsPairwise(items, IsLink, before);
    assert Lists.Pairwise(Lists.Filter(items, IsLink), before);
  }

  /** Of items each rendered as `ItemAt` says, the links are for `Linked` pages. */
  lemma LinkPagesLinked(items: seq<Item>, current: int, total: int)
    requires forall i :: 0 <= i < |items| ==> ItemAt(items[i].page, current, total) == Some(items[i])
    ensures forall i :: 0 <= i < |Lists.Filter(items, IsLink)| ==> Linked(Lists.Filter(items, IsLink)[i].page, current, total)
  {
    var links := Lists.Filter(items, IsLink);
    Lists.FilterMembers(items, IsLink);
    forall i | 0 <= i < |links|
      ensures Linked(links[i].page, current, total)
    {
      assert links[i] in items && links[i].Link?;
      var k :| 0 <= k < |items| && items[k] == links[i];
      assert ItemAt(links[i].page, current, total) == Some(links[i]);
    }
  }

  /** Items in page order whose pages are all `Linked` number at most five. */
  lemma LinkedItemsAtMostFive(items: seq<Item>, current: int, total: int)
    requires Increasing(items)
    requires forall i :: 0 <= i < |items| ==> Linked(items[i].page, current, total)
    ensures |items| <= 5
  {
    IncreasingPages(items);
    assert Pages(items) <= {1, total, current - 1, current, current + 1};
    AtMostFive(Pages(items), 1, total, current - 1, current, current + 1);
  }

  /** Of items in page order, each rendered as `ItemAt` says, at most five are links. */
  lemma AtMostFiveOf(items: seq<Item>, current: int, total: int)
    requires Increasing(items)
    requires forall i :: 0 <= i < |items| ==> ItemAt(items[i].page, current, total) == Some(items[i])
    ensures |Lists.Filter(items, IsLink)| <= 5
  {
    LinksIncreasing(items);
    LinkPagesLinked(items, current, total);
    LinkedItemsAtMostFive(Lists.Filter(items, IsLink), current, total);
  }

  /** At most five links are ever rendered: the first, the last and the three around the current page. */
  lemma AtMostFiveLinks(current: int, total: int)
    requires total > 0
    ensures |Lists.Filter(PlanPagination(current, total).value.items, IsLink)| <= 5
  {
    AtMostFiveOf(PlanPagination(current, total).value.items, current, total);
  }

  /** No item is rendered for a page that lies strictly between two neighbouring items. */
  lemma NothingBetween(items: seq<Item>, i: nat, m: int)
    requires Increasing(items) && i + 1 < |items|
    ensures items[i].page < m < items[i + 1].page ==> forall k :: 0 <= k < |items| ==> items[k].page != m
  {
    if items[i].page < m < items[i + 1].page {
      forall k | 0 <= k < |items|
        ensures items[k].page != m
      {
        if k < i {
          assert items[k].page < items[i].page;
        } else if k > i + 1 {
          assert items[i + 1].page < items[k].page;
        }
      }
    }
  }

  /** Between two links more than one page apart, some page in between is rendered too. */
  lemma SkippedPageRendered(current: int, total: int, p: int, q: int) returns (m: int)
    ensures Linked(p, current, total) && Linked(q, current, total) && 1 <= p && p + 1 < q <= total ==>
      p < m < q && ItemAt(m, current, total).Some?
  {
    m := if p == 1 && q == total && current <= 3 then total - 1
      else if p == 1 then 2
      else if current - 1 <= p <= current + 1 && q == total then total - 1
      else p + 1;
  }

  /**
    No pages are skipped silently: two links rendered side by side are for consecutive
    pages; wherever pages are left out an ellipsis stands in for them.
  */
  lemma NeighbouringLinksAreConsecutive(current: int, total: int, i: nat)
    requires total > 0
    requires i + 1 < |PlanPagination(current, total).value.items|
    requires PlanPagination(current, total).value.items[i].Link?
    requires PlanPagination(current, total).value.items[i + 1].Link?
    ensures PlanPagination(current, total).value.items[i + 1].page == PlanPagination(current, total).value.items[i].page + 1
  {
    var items := PlanPagination(current, total).value.items;
    var p := items[i].page;
    var q := items[i + 1].page;
    assert Linked(p, current, total) && Linked(q, current, total) by {
      assert ItemAt(p, current, total) == Some(items[i]);
      assert ItemAt(q, current, total) == Some(items[i + 1]);
    }
    var m := SkippedPageRendered(current, total, p, q);
    NothingBetween(items, i, m);
    var it := ItemAt(m, current, total);
    assert it.Some? ==> it.value.page == m;
  }

  // ---------------------------------------------------------------------------------------
  // The e-mail template list's control

  /** What the template pagination renders: the page count the label shows and the page each button asks for, if enabled. */
  datatype TemplateView = TemplateView(shownTotal: int, previous: Option<int>, next: Option<int>)

  /** `totalPages || 1`: the label shows 1 instead of 0. */
  function LabelTotal(total: int): (r: int)
    ensures r != 0
    ensures total != 0 ==> r == total
  {
    if total == 0 then 1 else total
  }

  /** The template list's control: Previous disabled when `current == 1`, Next when `current == total` or `total == 0`. */
  function TemplatePagination(current: int, total: int): (r: TemplateView)
    ensures r.shownTotal != 0
    ensures r.previous.None? <==> current == 1
    ensures r.previous.Some? ==> r.previous.value == current - 1
    ensures r.next.None? <==> current == total || total == 0
    ensures r.next.Some? ==> r.next.value == current + 1
  {
    TemplateView(
      LabelTotal(total),
      if current == 1 then None else Some(current - 1),
      if current == total || total == 0 then None else Some(current + 1))
  }

  /** On a page inside `1..total`, both controls offer the same Previous and Next. */
  lemma ControlsAgreeInRange(current: int, total: int)
    requires 1 <= current <= total
    ensures PlanPagination(current, total).Some?
    ensures TemplatePagination(current, total).previous == PlanPagination(current, total).value.previous
    ensures TemplatePagination(current, total).next == PlanPagination(current, total).value.next
  {
  }

  /**
    Past the last page the template control's Next stays enabled and leads further away,
    while the plan control's Next is disabled there.
  */
  lemma TemplateNextPastEnd(current: int, total: int)
    requires 0 < total < current
    ensures TemplatePagination(current, total).next == Some(current + 1)
    ensures TemplatePagination(current + 1, total).next == Some(current + 2)
    ensures PlanPagination(current, total).value.next.None?
  {
  }

  /** The template control with Next disabled from the last page on, as the plan control does it. */
  function TemplatePaginationFixed(current: int, total: int): (r: TemplateView)
    ensures r.previous == TemplatePagination(current, total).previous
    ensures r.next.Some? ==> r.next.value == current + 1 <= total
  {
    TemplateView(
      LabelTotal(total),
      if current == 1 then None else Some(current - 1),
      if current >= total then None else Some(current + 1))
  }

  /** The fixed Next agrees with the template control on `1..total` and with the plan control everywhere. */
  lemma FixedNextAgrees(current: int, total: int)
    requires total > 0
    ensures TemplatePaginationFixed(current, total).next == PlanPagination(current, total).value.next
    ensures 1 <= current <= total ==> TemplatePaginationFixed(current, total) == TemplatePagination(current, total)
  {
  }
}

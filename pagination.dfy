/**
 * The page arithmetic shared by the events and players lists: a page number
 * starting at 1, a Prev button that clamps at 1 and a Next button disabled
 * once the page reaches the last one.
 */
module Pagination {

  /** `Math.ceil(total / perPage)` for a non-negative total and a positive page size. */
  function CeilDiv(total: nat, perPage: nat): (c: nat)
    requires perPage > 0
    ensures c * perPage >= total
    ensures c > 0 ==> (c - 1) * perPage < total
  {
    (total + perPage - 1) / perPage
  }

  /** The "of N" shown next to the page number: never less than 1. */
  function PageCount(total: nat, perPage: nat): (n: nat)
    requires perPage > 0
    ensures n >= 1
    ensures n == if total == 0 then 1 else CeilDiv(total, perPage)
  {
    var c := CeilDiv(total, perPage);
    if c > 1 then c else 1
  }

  /**
   * The pages shown cover the whole list and none of them is empty: N pages
   * hold every item, and the last one starts before the end of a non-empty list.
   */
  lemma PagesCover(total: nat, perPage: nat)
    requires perPage > 0
    ensures total <= PageCount(total, perPage) * perPage
    ensures total > 0 ==> (PageCount(total, perPage) - 1) * perPage < total
  {
  }

  /** Prev: `setPage(p => Math.max(1, p - 1))`. */
  function Prev(page: int): int {
    if page - 1 > 1 then page - 1 else 1
  }

  /** Next: `setPage(p => p + 1)`. */
  function Next(page: int): int {
    page + 1
  }

  predicate PrevDisabled(page: int) {
    page == 1
  }

  predicate NextDisabled(page: int, total: nat, perPage: nat)
    requires perPage > 0
  {
    page >= CeilDiv(total, perPage)
  }

  /** Prev never goes below 1, and on page 1 it is disabled and would stay there anyway. */
  lemma PrevClamps(page: int)
    ensures Prev(page) >= 1
    ensures page > 1 ==> Prev(page) == page - 1
    ensures PrevDisabled(page) ==> Prev(page) == page
  {
  }

  /** With nothing to show both buttons are disabled on page 1. */
  lemma EmptyListIsOnePage(perPage: nat)
    requires perPage > 0
    ensures PageCount(0, perPage) == 1
    ensures NextDisabled(1, 0, perPage) && PrevDisabled(1)
  {
  }

  /** When there is something to show, Next is disabled exactly from the last page on. */
  lemma NextDisabledFromLastPage(page: int, total: nat, perPage: nat)
    requires perPage > 0 && total > 0
    ensures NextDisabled(page, total, perPage) <==> page >= PageCount(total, perPage)
  {
  }

  datatype Click = PrevClick | NextClick

  /** The page after the clicks, each applied only when its button is enabled. */
  function Navigate(page: int, clicks: seq<Click>, total: nat, perPage: nat): int
    requires perPage > 0
    decreases |clicks|
  {
    if clicks == [] then page
    else
      var p :=
        match clicks[0]
        case PrevClick => if PrevDisabled(page) then page else Prev(page)
        case NextClick => if NextDisabled(page, total, perPage) then page else Next(page);
      Navigate(p, clicks[1..], total, perPage)
  }

  /**
   * Starting from any page in range (page 1 in particular), clicking enabled
   * buttons keeps the page between 1 and the page count shown.
   */
  lemma {:induction false} NavigateStaysInRange(page: int, clicks: seq<Click>, total: nat, perPage: nat)
    requires perPage > 0
    requires 1 <= page <= PageCount(total, perPage)
    ensures 1 <= Navigate(page, clicks, total, perPage) <= PageCount(total, perPage)
    decreases |clicks|
  {
    if clicks != [] {
      var p :=
        match clicks[0]
        case PrevClick => if PrevDisabled(page) then page else Prev(page)
        case NextClick => if NextDisabled(page, total, perPage) then page else Next(page);
      NavigateStaysInRange(p, clicks[1..], total, perPage);
    }
  }

  /** From any page, pressing Next k times reaches k pages further as long as that is within the count shown. */
  lemma {:induction false} NextFrom(page: int, k: nat, total: nat, perPage: nat)
    requires perPage > 0
    requires 1 <= page && page + k <= PageCount(total, perPage)
    ensures Navigate(page, seq(k, _ => NextClick), total, perPage) == page + k
    decreases k
  {
    if k > 0 {
      var clicks := seq(k, _ => NextClick);
      assert clicks[0] == NextClick;
      assert clicks[1..] == seq(k - 1, _ => NextClick);
      NextFrom(page + 1, k - 1, total, perPage);
    }
  }
}

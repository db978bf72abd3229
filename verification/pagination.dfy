/**
 * The pagination widget of src/components/Pagination.tsx: a pure function of
 * the current page, the page count and a `disabled` flag. Each handler
 * yields the page it reports through `onPageChange`, or `None` when it
 * reports nothing.
 */
module Pagination {
  import opened Options

  function Max(a: int, b: int): int { if a >= b then a else b }
  function Min(a: int, b: int): int { if a <= b then a else b }

  /** `handlePrev`: one page back, clamped at page 1, reported only when it moves. */
  function Prev(current: int, totalPages: int, disabled: bool): (r: Option<int>)
    ensures disabled || current == 1 ==> r.None?
    ensures !disabled && current > 1 ==> r == Some(current - 1)
    ensures !disabled && current < 1 ==> r == Some(1)
    ensures r.Some? ==> r.value >= 1 && r.value != current
  {
    if disabled then None
    else
      var target := Max(1, current - 1);
      if target != current then Some(target) else None
  }

  /** `handleNext`: one page forward, clamped at the last page, reported only when it moves. */
  function Next(current: int, totalPages: int, disabled: bool): (r: Option<int>)
    ensures disabled || current == totalPages ==> r.None?
    ensures !disabled && current < totalPages ==> r == Some(current + 1)
    ensures !disabled && current > totalPages ==> r == Some(totalPages)
    ensures r.Some? ==> r.value <= totalPages && r.value != current
  {
    if disabled then None
    else
      var target := Min(totalPages, current + 1);
      if target != current then Some(target) else None
  }

  /** `handlePage`: a click on page `p` is reported iff it is a real page other than the current one. */
  function Click(p: int, current: int, totalPages: int, disabled: bool): (r: Option<int>)
    ensures r.Some? <==> !disabled && 1 <= p <= totalPages && p != current
    ensures r.Some? ==> r.value == p
  {
    if disabled then None
    else if p < 1 || p > totalPages then None
    else if p != current then Some(p)
    else None
  }

  /** The Previous button's `disabled` attribute. */
  predicate PrevDisabled(current: int, disabled: bool) {
    disabled || current <= 1
  }

  /** The Next button's `disabled` attribute. */
  predicate NextDisabled(current: int, totalPages: int, disabled: bool) {
    disabled || current >= totalPages
  }

  /** The numbered buttons in order: one per page from 1 to the page count, none for a count below 1. */
  function PageList(totalPages: int): (r: seq<int>)
    ensures |r| == Max(0, totalPages)
    ensures forall i :: 0 <= i < |r| ==> r[i] == i + 1
    decreases Max(0, totalPages)
  {
    if totalPages <= 0 then [] else PageList(totalPages - 1) + [totalPages]
  }

  /** The buttons that carry `aria-current="page"`. */
  function CurrentButtons(current: int, totalPages: int): set<int> {
    set p | p in PageList(totalPages) && p == current
  }

  /** The numbered buttons are exactly the pages 1 to totalPages, none when there are no pages. */
  lemma PageListIsRange(totalPages: int, p: int)
    ensures p in PageList(totalPages) <==> 1 <= p <= totalPages
    ensures totalPages <= 0 ==> PageList(totalPages) == []
  {
    if 1 <= p <= totalPages {
      assert PageList(totalPages)[p - 1] == p;
    }
  }

  /** Exactly one button is marked current when the current page exists, none otherwise. */
  lemma OneCurrentButton(current: int, totalPages: int)
    ensures 1 <= current <= totalPages ==> CurrentButtons(current, totalPages) == {current}
    ensures !(1 <= current <= totalPages) ==> CurrentButtons(current, totalPages) == {}
  {
    PageListIsRange(totalPages, current);
  }

  /** From a page in range, every page any control reports is in range too. */
  lemma ReportedPagesInRange(current: int, totalPages: int, disabled: bool, p: int)
    requires 1 <= current <= totalPages
    ensures Prev(current, totalPages, disabled).Some? ==> 1 <= Prev(current, totalPages, disabled).value <= totalPages
    ensures Next(current, totalPages, disabled).Some? ==> 1 <= Next(current, totalPages, disabled).value <= totalPages
    ensures Click(p, current, totalPages, disabled).Some? ==> 1 <= Click(p, current, totalPages, disabled).value <= totalPages
  {
  }

  /** A disabled widget reports nothing, whichever control is used. */
  lemma DisabledReportsNothing(current: int, totalPages: int, p: int)
    ensures Prev(current, totalPages, true).None?
    ensures Next(current, totalPages, true).None?
    ensures Click(p, current, totalPages, true).None?
  {
  }

  /** On a page in range, Previous and Next are enabled exactly when their handlers would report a page. */
  lemma ButtonsEnabledIffHandlersReport(current: int, totalPages: int, disabled: bool)
    requires 1 <= current <= totalPages
    ensures !PrevDisabled(current, disabled) <==> Prev(current, totalPages, disabled).Some?
    ensures !NextDisabled(current, totalPages, disabled) <==> Next(current, totalPages, disabled).Some?
  {
  }
}

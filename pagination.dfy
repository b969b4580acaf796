/** The previous/next rules of `components/shared/pagination.tsx`, with
    `page` already converted by `Number(page)`. */
module Pagination {
  import opened Common

  /** `handleClick`: 'next' moves one page on, any other button one back. */
  function PageAfterClick(page: int, btnType: string): (r: int)
    ensures btnType == "next" ==> r == page + 1
    ensures btnType != "next" ==> r == page - 1
  {
    if btnType == "next" then page + 1 else page - 1
  }

  /** Previous is disabled exactly when its click would leave page 1 behind. */
  predicate PreviousDisabled(page: int)
    ensures PreviousDisabled(page) <==> PageAfterClick(page, "prev") < 1
  {
    page <= 1
  }

  /** Next is disabled exactly when its click would pass the last page. */
  predicate NextDisabled(page: int, totalPages: int)
    ensures NextDisabled(page, totalPages) <==> PageAfterClick(page, "next") > totalPages
  {
    page >= totalPages
  }

  /** `urlParamName || 'page'`: an absent or empty name falls back. */
  function ParamKey(urlParamName: Option<string>): (key: string)
    ensures key != ""
    ensures urlParamName.Some? && urlParamName.value != "" ==> key == urlParamName.value
    ensures urlParamName.None? || urlParamName.value == "" ==> key == "page"
  {
    if urlParamName.Some? && urlParamName.value != "" then urlParamName.value else "page"
  }

  /** From a page inside the range, every click on an enabled button lands
      inside the range again. */
  lemma EnabledClickStaysInRange(page: int, totalPages: int, btnType: string)
    requires 1 <= page <= totalPages
    requires btnType == "next" ==> !NextDisabled(page, totalPages)
    requires btnType != "next" ==> !PreviousDisabled(page)
    ensures 1 <= PageAfterClick(page, btnType) <= totalPages
  {
  }

  /** A single page disables both buttons. */
  lemma SinglePageDisablesBoth(totalPages: int)
    requires totalPages <= 1
    ensures PreviousDisabled(1) && NextDisabled(1, totalPages)
  {
  }
}

/** The page-number and page-size defaults shared by the list endpoints. */
module Paging {

  const DefaultPageNum := 1
  const DefaultPageSize := 10

  /** A page parameter as the list endpoints normalise it: a positive value is kept, anything else becomes the default. */
  function PageOrDefault(n: int, default: int): (r: int)
    requires default > 0
    ensures r > 0
    ensures n > 0 ==> r == n
    ensures n <= 0 ==> r == default
  {
    if n <= 0 then default else n
  }

}

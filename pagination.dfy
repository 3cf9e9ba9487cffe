/** The page arithmetic of the paginated list queries: the row offset of a page
    and the number of pages for a row count. */
module Pagination {
  const EXERCISES_PER_PAGE: nat := 10
  const WORKOUTS_PER_PAGE: nat := 10
  const PLANS_PER_PAGE: nat := 20

  /** `(currentPage - 1) * perPage`: the rows of the earlier pages are skipped. */
  function PageOffset(currentPage: int, perPage: nat): (offset: int)
    ensures currentPage == 1 ==> offset == 0
    ensures currentPage >= 1 ==> offset >= 0
  {
    (currentPage - 1) * perPage
  }

  /** Consecutive pages start `perPage` rows apart, so pages do not overlap. */
  lemma PageOffsetStep(currentPage: int, perPage: nat)
    ensures PageOffset(currentPage + 1, perPage) == PageOffset(currentPage, perPage) + perPage
  {
  }

  /** `Math.ceil(count / perPage)`: the least number of pages of `perPage` rows
      that holds `count` rows. */
  function TotalPages(count: nat, perPage: nat): (pages: nat)
    requires perPage > 0
    ensures count == 0 <==> pages == 0
    ensures pages > 0 ==> (pages - 1) * perPage < count <= pages * perPage
  {
    (count + perPage - 1) / perPage
  }

  /** Every page from 1 to the page count starts at a row that exists, and the
      page after the last starts past the end. */
  lemma PagesCoverRows(count: nat, perPage: nat, page: int)
    requires perPage > 0
    ensures 1 <= page <= TotalPages(count, perPage) ==> PageOffset(page, perPage) < count
    ensures page == TotalPages(count, perPage) + 1 ==> PageOffset(page, perPage) >= count
  {
    var pages := TotalPages(count, perPage);
    if 1 <= page <= pages {
      assert (page - 1) * perPage <= (pages - 1) * perPage by {
        MultiplyMonotone(page - 1, pages - 1, perPage);
      }
    }
  }

  lemma MultiplyMonotone(a: int, b: int, n: nat)
    requires a <= b
    ensures a * n <= b * n
  {
  }

  /** The three list queries' offsets and page counts. */
  function ExercisesPageOffset(currentPage: int): (offset: int)
    ensures currentPage >= 1 ==> offset >= 0 && offset % EXERCISES_PER_PAGE == 0
  {
    PageOffset(currentPage, EXERCISES_PER_PAGE)
  }

  function ExercisesTotalPages(count: nat): (pages: nat)
    ensures pages > 0 ==> (pages - 1) * EXERCISES_PER_PAGE < count <= pages * EXERCISES_PER_PAGE
    ensures count == 0 <==> pages == 0
  {
    TotalPages(count, EXERCISES_PER_PAGE)
  }

  function WorkoutsPageOffset(currentPage: int): (offset: int)
    ensures currentPage >= 1 ==> offset >= 0 && offset % WORKOUTS_PER_PAGE == 0
  {
    PageOffset(currentPage, WORKOUTS_PER_PAGE)
  }

  function WorkoutsTotalPages(count: nat): (pages: nat)
    ensures pages > 0 ==> (pages - 1) * WORKOUTS_PER_PAGE < count <= pages * WORKOUTS_PER_PAGE
    ensures count == 0 <==> pages == 0
  {
    TotalPages(count, WORKOUTS_PER_PAGE)
  }

  function PlansPageOffset(currentPage: int): (offset: int)
    ensures currentPage >= 1 ==> offset >= 0 && offset % PLANS_PER_PAGE == 0
  {
    PageOffset(currentPage, PLANS_PER_PAGE)
  }

  function PlansTotalPages(count: nat): (pages: nat)
    ensures pages > 0 ==> (pages - 1) * PLANS_PER_PAGE < count <= pages * PLANS_PER_PAGE
    ensures count == 0 <==> pages == 0
  {
    TotalPages(count, PLANS_PER_PAGE)
  }
}

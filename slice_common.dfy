/** What the client state slices share: the pagination block a list request answers with. */
module SliceCommon {
  /** `{ total, page, pages }` */
  datatype Pagination = Pagination(total: int, page: int, pages: int)

  /** The pagination a slice starts with: `{ total: 0, page: 1, pages: 1 }`. */
  const NoPages := Pagination(0, 1, 1)
}

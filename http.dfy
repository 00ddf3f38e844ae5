/**
 * The status the script compares against, and the one `get_page` starts from
 * when no response arrives; any other HTTP status is passed on as received.
 */
module Http {

  /** The status of a page that was fetched. */
  const StatusOk: int := 200

  /** The status `get_page` starts from and keeps when no HTTP response arrived. */
  const Unreachable: int := 404
}

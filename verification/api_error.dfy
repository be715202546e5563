/** What the pages read from a failed call's error object. */
module ApiError {
  import opened Optional

  /** `error.response?.status === code`; the status is absent when no response arrived. */
  predicate HasStatus(status: Option<int>, code: int) {
    status == Some(code)
  }
}

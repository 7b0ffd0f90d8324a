/** The fields of a go-github `Issue` that the poll cycle reads. */
module GitHub {

  /**
   * One item of the open-issue listing. `isPullRequest` is what
   * `IsPullRequest()` reports (the item carries pull-request links).
   */
  datatype Issue = Issue(
    id: int,
    number: int,
    title: string,
    body: string,
    htmlURL: string,
    isPullRequest: bool)
}

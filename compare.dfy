/** How the two drafts' occurrence queries relate. */
module DraftComparison {
  import opened ImageRef
  import Executor
  import MainProgram

  /**
   * Both drafts reject the same references as malformed, with the same message, and
   * query the same project path; only the filter differs: the executor puts "https://"
   * in front of the image, the main draft adds the package-vulnerability kind.
   */
  lemma SameValidationDifferentFilter(image: string)
    ensures Executor.OccurrencesQuery(image).Failure? <==> MainProgram.OccurrencesQuery(image).Failure?
    ensures Executor.OccurrencesQuery(image).Failure? ==>
      Executor.OccurrencesQuery(image).error == MainProgram.OccurrencesQuery(image).error
    ensures Executor.OccurrencesQuery(image).Success? ==>
      && Executor.OccurrencesQuery(image).value.path == MainProgram.OccurrencesQuery(image).value.path
      && Executor.OccurrencesQuery(image).value.filter == "resourceUrl=\"https://" + image + "\""
      && MainProgram.OccurrencesQuery(image).value.filter == "kind=\"PACKAGE_VULNERABILITY\" AND resourceUrl=\"" + image + "\""
  {
  }
}

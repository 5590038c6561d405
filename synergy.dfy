/**
 * The values both view-controllers of the synergy plugin consume and produce:
 * issues, fetch results, rendered content, and JavaScript truthiness of the
 * optional fields they branch on.
 */
module Synergy {
  import opened Wrappers

  /**
   * One tracked issue of an inner-source project. `title` and `url` stand for the
   * descriptive fields the view-controllers only pass through.
   */
  datatype Issue = Issue(title: string, url: string, primaryLanguage: Option<string>, isPinned: bool)

  /** The failure a fetch reports; it is only handed to the error panel. */
  datatype ApiError = ApiError(message: string)

  /** What the data-fetch hook reports on one render: still loading, a failure, and the value so far. */
  datatype Fetch<T> = Fetch(loading: bool, error: Option<ApiError>, value: Option<T>)

  /** The body of a card or tab: an issue list, rendered markdown, or a paragraph of text. */
  datatype Content =
    | IssuesList(issues: seq<Issue>)
    | Markdown(content: string)
    | Paragraph(message: string)

  /** An optional string is truthy when present and not "": its only falsy values are `undefined` and "". */
  predicate TruthyText(s: Option<string>)
    ensures TruthyText(s) <==> s != None && s != Some("")
  {
    s.Some? && s.value != ""
  }

  /** An optional boolean is truthy only when present and true: `undefined` and `false` are falsy. */
  predicate TruthyFlag(b: Option<bool>)
    ensures TruthyFlag(b) <==> b == Some(true)
  {
    match b
    case None => false
    case Some(flag) => flag
  }

  /** `xs?.length` is truthy when the collection is present and non-empty: `undefined` and a length of 0 are falsy. */
  predicate TruthyLength(xs: Option<seq<Issue>>)
    ensures TruthyLength(xs) <==> xs != None && |xs.value| != 0
  {
    xs.Some? && xs.value != []
  }
}

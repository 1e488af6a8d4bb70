/** The judgment wrapper around the text-generation service. */
module Gate {
  import opened Wrappers
  import opened Articles

  /** What the wrapper returns when the call fails or its answer does not decode. */
  const Rejection: Judgment := Judgment(false, Some(""))

  /** Asks the service about one article and fails closed: a failed call or an
      undecodable answer becomes a low-signal judgment with an empty summary. */
  function GetHighSignalSummary(judge: Oracle, title: string, link: string, founderName: string): (j: Judgment)
    ensures judge(title, link, founderName).None? ==> j == Judgment(false, Some(""))
    ensures judge(title, link, founderName).Some? ==> j == judge(title, link, founderName).value
    ensures j.highSignal ==> judge(title, link, founderName) == Some(j)
  {
    match judge(title, link, founderName)
    case Some(analysis) => analysis
    case None => Rejection
  }
}

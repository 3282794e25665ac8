/** The fields of a stored user document, as the screens read them. */
module UserDocuments {
  import opened Wrappers

  /** The progress of a new account, and the reading of a missing progress field. */
  const DefaultProgress: string := "00000000"

  /** A stored user; a field the document lacks is None. */
  datatype UserDocument = UserDocument(
    username: string,
    password: Option<string>,
    stagesProgress: Option<string>,
    statistic: Option<string>)

  /** `getString("stagesProgress") ?: "00000000"` */
  function StoredProgress(doc: UserDocument): (r: string)
    ensures doc.stagesProgress.Some? ==> r == doc.stagesProgress.value
    ensures doc.stagesProgress.None? ==> |r| == 8 && forall i | 0 <= i < |r| :: r[i] == '0'
  {
    doc.stagesProgress.GetOr(DefaultProgress)
  }

  /** `getString("statistic") ?: ""` */
  function StoredStatistic(doc: UserDocument): string
  {
    doc.statistic.GetOr("")
  }
}

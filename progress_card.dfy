/** What the progress card shows for each page status. */
module ProgressCard {
  import opened ApiTypes

  datatype CardText = CardText(title: string, statusText: string, statusColor: string)

  const DefaultTitle: string := "Upload a video to begin"
  const JobIdPrefix: string := "Analyzing video (Job ID: "

  /** `jobId || 'Unknown'`. */
  function JobIdLabel(jobId: Option<string>): string {
    if Truthy(jobId) then jobId.value else "Unknown"
  }

  /** The title, status line and colour chosen by the if/else chain; "idle" keeps
      the defaults. */
  function Describe(status: AppStatus, jobId: Option<string>): (r: CardText)
    ensures r.title == DefaultTitle <==> status == Idle
    ensures status == Processing ==> JobIdPrefix <= r.statusText
  {
    match status
    case Idle => CardText(DefaultTitle, "Ready to analyze your apple trees", "text-muted-foreground")
    case Uploading => CardText("Uploading Video", "Please wait while your video uploads...", "text-secondary")
    case Processing => CardText("Processing Video", JobIdPrefix + JobIdLabel(jobId) + ")", "text-primary")
    case Completed => CardText("Analysis Complete", "Your results are ready below", "text-green-500")
    case Error => CardText("Error Occurred", "There was an issue processing your video", "text-destructive")
  }

  /** The progress bar and percentage are rendered only while something is in flight. */
  predicate ShowProgress(status: AppStatus) {
    status == Uploading || status == Processing
  }

  /** The arrow marker precedes the status line in every status but "idle". */
  predicate ShowArrow(status: AppStatus) {
    status != Idle
  }

  /** The five titles are pairwise distinct, so the title alone identifies the status;
      the colour does too. */
  lemma TitlesIdentifyStatus(a: AppStatus, b: AppStatus, ja: Option<string>, jb: Option<string>)
    ensures Describe(a, ja).title == Describe(b, jb).title ==> a == b
    ensures Describe(a, ja).statusColor == Describe(b, jb).statusColor ==> a == b
  {
  }

  /** Only the processing line depends on the job id. */
  lemma OnlyProcessingNamesTheJob(status: AppStatus, ja: Option<string>, jb: Option<string>)
    ensures status != Processing ==> Describe(status, ja) == Describe(status, jb)
  {
  }

  /** The processing line embeds the job id verbatim right after the prefix, or
      "Unknown" when no id is known. */
  lemma ProcessingTextEmbedsJobId(jobId: Option<string>)
    ensures var t := Describe(Processing, jobId).statusText;
      var idText := if Truthy(jobId) then jobId.value else "Unknown";
      |t| == |JobIdPrefix| + |idText| + 1 &&
      t[|JobIdPrefix|..|JobIdPrefix| + |idText|] == idText &&
      t[|t| - 1] == ')'
  {
  }

  /** The bar and the arrow agree with the card's title: the bar appears exactly for
      the "Uploading Video" and "Processing Video" titles, and the arrow exactly when
      the title is not the default one. */
  lemma ProgressVisibility(status: AppStatus, jobId: Option<string>)
    ensures ShowProgress(status) <==> Describe(status, jobId).title in {"Uploading Video", "Processing Video"}
    ensures ShowArrow(status) <==> Describe(status, jobId).title != DefaultTitle
  {
  }
}

/** The file-intake validator of the upload area (`onDrop`) and the rule that
    decides whether the drop zone accepts anything at all. */
module UploadArea {
  import opened ApiTypes
  import opened Toasts

  /** A picked file: its name and its MIME type as the browser reports it. */
  datatype VideoFile = VideoFile(name: string, mimeType: string)

  /** The three mutually exclusive outcomes of one drop. */
  datatype DropOutcome =
    | RejectedEmpty            // nothing selected: "No file selected"
    | RejectedType             // first file is not a video: "Invalid file type"
    | Handed(file: VideoFile)  // the upload callback runs once, with this file

  const VideoPrefix: string := "video/"

  /** `type.startsWith('video/')`. */
  predicate IsVideoType(mimeType: string) {
    VideoPrefix <= mimeType
  }

  /** The validator: only the first entry of the selection is looked at. */
  function OnDrop(acceptedFiles: seq<VideoFile>): (r: DropOutcome)
    ensures r.RejectedEmpty? <==> |acceptedFiles| == 0
    ensures r.RejectedType? <==> |acceptedFiles| > 0 && !IsVideoType(acceptedFiles[0].mimeType)
    ensures r.Handed? <==> |acceptedFiles| > 0 && IsVideoType(acceptedFiles[0].mimeType)
    ensures r.Handed? ==> r.file == acceptedFiles[0] && |r.file.mimeType| >= |VideoPrefix|
  {
    if |acceptedFiles| == 0 then RejectedEmpty
    else if !IsVideoType(acceptedFiles[0].mimeType) then RejectedType
    else Handed(acceptedFiles[0])
  }

  /** The notice a drop raises: one for each rejection, none when the file is handed over. */
  function DropNotice(r: DropOutcome): (n: Option<Notice>)
    ensures n.None? <==> r.Handed?
  {
    match r
    case RejectedEmpty => Some(NoFileSelected)
    case RejectedType => Some(InvalidFileType)
    case Handed(_) => None
  }

  /** The drop zone is configured with `disabled: isUploading`: while an upload
      runs, a drop reaches no handler; otherwise `onDrop` decides. */
  function Intake(isUploading: bool, acceptedFiles: seq<VideoFile>): (r: Option<DropOutcome>)
    ensures r.None? <==> isUploading
    ensures r.Some? ==> r.value == OnDrop(acceptedFiles)
  {
    if isUploading then None else Some(OnDrop(acceptedFiles))
  }
}

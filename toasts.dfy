/** The kinds of user notification the page and the upload area raise. Only the
    kind and the computed description are kept; rendering is not modelled. */
module Toasts {
  import opened ApiTypes

  datatype Notice =
    | UploadSucceeded(jobId: string)          // "Video uploaded successfully"
    | UploadFailed(description: string)       // "Upload failed"
    | AnalysisComplete(appleCount: Option<nat>) // "Analysis complete"
    | ProcessingFailed(description: string)   // "Processing failed"
    | ConnectionProblems                      // "Connection problems"
    | NoFileSelected                          // "No file selected"
    | InvalidFileType                         // "Invalid file type"

  /** Number of "Connection problems" notices in a log. */
  function ConnectionNotices(log: seq<Notice>): nat {
    if log == [] then 0
    else ConnectionNotices(log[..|log| - 1]) + (if log[|log| - 1].ConnectionProblems? then 1 else 0)
  }

  /** Appending one notice adds at most one "Connection problems" notice, and
      exactly one when the appended notice is of that kind. */
  lemma ConnectionNoticesAppend(log: seq<Notice>, n: Notice)
    ensures ConnectionNotices(log + [n]) == ConnectionNotices(log) + (if n.ConnectionProblems? then 1 else 0)
  {
    assert (log + [n])[..|log + [n]| - 1] == log;
  }
}

/** The recording upload endpoint, src/app/api/upload/route.ts: the validation of
    the form fields, where a recording is stored and under which name.

    The form is given as its parsed fields, `Date.now()` as `now` (milliseconds
    since the epoch, so never negative) and the S3 upload by whether it
    succeeds. */
module UploadRoute {
  import opened Text

  /** The multipart fields read; a missing field is `None`. */
  datatype UploadForm = UploadForm(hasFile: bool, fileType: Option<string>, submissionId: Option<string>,
                                   questionNumber: Option<string>)

  /** What is handed to `uploadToS3`. */
  datatype UploadRequest = UploadRequest(fileName: string, contentType: string, folder: string)

  /** The request made, if any, and the JSON reply. */
  datatype Outcome = Outcome(request: Option<UploadRequest>, status: nat, error: Option<string>,
                             message: Option<string>)

  /** A form value is truthy: present and not empty. */
  predicate Given(x: Option<string>) {
    x.Some? && x.value != ""
  }

  /** The S3 folder of a recording kind. */
  function Folder(fileType: string): (folder: string)
    ensures folder == "audio" <==> fileType == "audio"
    ensures folder == "screen-recordings" <==> fileType == "screen"
    ensures fileType != "audio" && fileType != "screen" ==> folder == "video"
  {
    if fileType == "audio" then "audio" else if fileType == "screen" then "screen-recordings" else "video"
  }

  /** Audio is stored as audio, everything else as video. */
  function ContentType(fileType: string): (contentType: string)
    ensures contentType == "audio/webm" <==> fileType == "audio"
    ensures contentType != "audio/webm" ==> contentType == "video/webm"
  {
    if fileType == "audio" then "audio/webm" else "video/webm"
  }

  /** `questionNumber ? '-q' + questionNumber : ''`. */
  function QuestionSuffix(questionNumber: Option<string>): (suffix: string)
    ensures suffix == "" <==> !Given(questionNumber)
    ensures suffix != "" ==> suffix == "-q" + questionNumber.value
  {
    if Given(questionNumber) then "-q" + questionNumber.value else ""
  }

  /** `${submissionId}-${type}${questionSuffix}-${Date.now()}.webm`. */
  function FileName(submissionId: string, fileType: string, questionNumber: Option<string>, now: nat): (name: string)
    ensures |name| == |submissionId| + |fileType| + |QuestionSuffix(questionNumber)| + |IntToString(now)| + 7
    ensures StartsWith(name, submissionId + "-" + fileType)
    ensures name[|name| - 5..] == ".webm"
  {
    var name := submissionId + "-" + fileType + QuestionSuffix(questionNumber) + "-" + IntToString(now) + ".webm";
    assert name[..|submissionId| + 1 + |fileType|] == submissionId + "-" + fileType;
    name
  }

  /** What follows the submission id and the recording kind in a file name
      starts with '-q' exactly when a question number was given. */
  lemma QuestionSuffixIsMarked(submissionId: string, fileType: string, questionNumber: Option<string>, now: nat)
    ensures var name := FileName(submissionId, fileType, questionNumber, now);
      var k := |submissionId| + 1 + |fileType|;
      k + 2 <= |name| && (name[k..k + 2] == "-q" <==> Given(questionNumber))
  {
    var name := FileName(submissionId, fileType, questionNumber, now);
    var stamp := IntToString(now);
    var k := |submissionId| + 1 + |fileType|;
    assert IsDigit(stamp[0]);
    assert name[k..k + 2] == [name[k], name[k + 1]];
    assert name[k] == '-';
    assert name[k + 1] == if Given(questionNumber) then 'q' else stamp[0];
  }

  /** The last dash-separated field of a file name before '.webm' is the
      timestamp, and reads back as the same number. */
  lemma TimestampReadsBack(submissionId: string, fileType: string, questionNumber: Option<string>, now: nat)
    ensures var name := FileName(submissionId, fileType, questionNumber, now);
      ParseInt(LastField(name[..|name| - 5], '-')) == Some(now)
  {
    var name := FileName(submissionId, fileType, questionNumber, now);
    var stamp := IntToString(now);
    var head := submissionId + "-" + fileType + QuestionSuffix(questionNumber);
    assert name == head + ['-'] + stamp + ".webm";
    assert name[..|name| - 5] == head + ['-'] + stamp;
    assert '-' !in stamp by {
      assert forall i :: 0 <= i < |stamp| ==> IsDigit(stamp[i]);
    }
    LastFieldAfterSeparator(head, stamp, '-');
    ParseIntOfIntToString(now);
  }

  /** `POST /api/upload`: a form missing its file, kind or submission id is
      refused with 400 before anything is stored; otherwise the recording is
      uploaded and the reply is 200, or 500 when the upload throws. */
  function Post(form: UploadForm, now: nat, uploadSucceeds: bool): (out: Outcome)
    ensures out.request.None? <==> !form.hasFile || !Given(form.fileType) || !Given(form.submissionId)
    ensures out.request.None? ==> out == Outcome(None, 400, Some("Missing required fields"), None)
    ensures out.request.Some? ==>
      var t := form.fileType.value;
      out.request.value.folder == Folder(t) && out.request.value.contentType == ContentType(t)
      && out.request.value.fileName == FileName(form.submissionId.value, t, form.questionNumber, now)
    ensures out.request.Some? && uploadSucceeds ==>
      out.status == 200 && out.error.None? && out.message == Some("File uploaded successfully")
    ensures out.request.Some? && !uploadSucceeds ==>
      out.status == 500 && out.error == Some("Failed to upload file") && out.message.None?
  {
    if !form.hasFile || !Given(form.fileType) || !Given(form.submissionId) then
      Outcome(None, 400, Some("Missing required fields"), None)
    else
      var t := form.fileType.value;
      var request := UploadRequest(FileName(form.submissionId.value, t, form.questionNumber, now), ContentType(t), Folder(t));
      if uploadSucceeds then Outcome(Some(request), 200, None, Some("File uploaded successfully"))
      else Outcome(Some(request), 500, Some("Failed to upload file"), None)
  }

  /** Every stored name is a WebM file inside the kind's folder, and the
      content type agrees with the folder: audio goes to 'audio' as audio, the
      rest as video. */
  lemma StoredRecordingsAreWebm(form: UploadForm, now: nat, uploadSucceeds: bool)
    ensures var out := Post(form, now, uploadSucceeds);
      out.request.Some? ==>
        var r := out.request.value;
        r.fileName[|r.fileName| - 5..] == ".webm"
        && (r.folder == "audio" <==> r.contentType == "audio/webm")
  {
  }
}

/** The dropzone uploader `FileUpload` (`src/components/FileUpload/FileUpload.tsx`):
    its `onDrop` callback turns react-dropzone's accepted and rejected lists
    into at most one toast or one call of the `onFileSelect` prop. */
module DropzoneUpload {
  import opened Files

  /** One entry of react-dropzone's rejection list: the file and the `code`s of
      its `errors`, in order. */
  datatype Rejection = Rejection(file: File, errorCodes: seq<string>)

  /** The three toasts `onDrop` can raise. */
  datatype DropMessage = TooLargeMessage | InvalidTypeMessage | GenericMessage

  /** What one call of `onDrop` does: the toasts shown and the files passed to
      `onFileSelect`, in order. */
  datatype DropEffects = DropEffects(toasts: seq<DropMessage>, selections: seq<File>)

  const FileTooLarge: string := "file-too-large"
  const FileInvalidType: string := "file-invalid-type"

  /** `rejection.errors[0]?.code`, compared with the two known codes; a missing
      first error or any other code gives the generic message. */
  function MessageFor(r: Rejection): (m: DropMessage)
    ensures m == TooLargeMessage <==> |r.errorCodes| > 0 && r.errorCodes[0] == FileTooLarge
    ensures m == InvalidTypeMessage <==> |r.errorCodes| > 0 && r.errorCodes[0] == FileInvalidType
    ensures m == GenericMessage <==> |r.errorCodes| == 0 || r.errorCodes[0] !in {FileTooLarge, FileInvalidType}
  {
    if |r.errorCodes| > 0 && r.errorCodes[0] == FileTooLarge then TooLargeMessage
    else if |r.errorCodes| > 0 && r.errorCodes[0] == FileInvalidType then InvalidTypeMessage
    else GenericMessage
  }

  /** `onDrop(acceptedFiles, rejectedFiles)`. */
  function OnDrop(accepted: seq<File>, rejected: seq<Rejection>): (e: DropEffects)
    // exactly one toast when anything was rejected, none otherwise
    ensures |e.toasts| == (if |rejected| > 0 then 1 else 0)
    // a rejection suppresses the callback, even beside accepted files
    ensures |rejected| > 0 ==> e.toasts == [MessageFor(rejected[0])] && e.selections == []
    // otherwise only the first accepted file is passed on, once
    ensures |rejected| == 0 ==> e.selections == (if |accepted| > 0 then [accepted[0]] else [])
    ensures |e.toasts| + |e.selections| <= 1
  {
    if |rejected| > 0 then DropEffects([MessageFor(rejected[0])], [])
    else if |accepted| > 0 then DropEffects([], [accepted[0]])
    else DropEffects([], [])
  }

  /** Only the first error code of the first rejection decides the message:
      later rejections, later codes and the accepted list make no difference. */
  lemma OnlyFirstCodeMatters(accepted: seq<File>, others: seq<File>, first: Rejection,
                             moreCodes: seq<string>, moreRejections: seq<Rejection>)
    requires |first.errorCodes| > 0
    ensures OnDrop(accepted, [first] + moreRejections)
         == OnDrop(others, [Rejection(first.file, first.errorCodes[..1] + moreCodes)])
  {
  }

  /** The message names the codes it was chosen by. */
  lemma MessageExamples(f: File, rest: seq<string>)
    ensures MessageFor(Rejection(f, [FileTooLarge] + rest)) == TooLargeMessage
    ensures MessageFor(Rejection(f, [FileInvalidType] + rest)) == InvalidTypeMessage
    ensures MessageFor(Rejection(f, ["too-many-files", FileTooLarge])) == GenericMessage
    ensures MessageFor(Rejection(f, [])) == GenericMessage
  {
  }

  /** With nothing rejected and nothing accepted, `onDrop` does nothing. */
  lemma EmptyDropDoesNothing()
    ensures OnDrop([], []) == DropEffects([], [])
  {
  }
}

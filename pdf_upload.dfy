/** The PDF picker `ChakraFileUpload` (`src/components/FileUpload/ChakraFileUpload.tsx`):
    a type-then-size validator in front of the component state `selectedFile`
    and `isDragOver`, and the event handlers that update it. Toasts, calls of
    the `onFileSelect` prop and clicks on the hidden input are recorded in
    order, so that what each handler does to the outside world is part of the
    state. */
module PdfUpload {
  import opened Wrappers
  import opened Files

  // ---- The validator ----

  /** `toLowerCase` on one character, for the ASCII letters. */
  function AsciiLower(c: char): char {
    if 'A' <= c <= 'Z' then (c as int + 32) as char else c
  }

  function ToLower(s: string): (r: string)
    ensures |r| == |s| && forall i :: 0 <= i < |s| ==> r[i] == AsciiLower(s[i])
  {
    seq(|s|, i requires 0 <= i < |s| => AsciiLower(s[i]))
  }

  /** `sub` occurs in `s` starting at index `i`. */
  predicate OccursAt(s: string, sub: string, i: int) {
    0 <= i <= |s| - |sub| && s[i..i + |sub|] == sub
  }

  /** `s.includes(sub)`. */
  predicate Contains(s: string, sub: string) {
    exists i | 0 <= i <= |s| - |sub| :: OccursAt(s, sub, i)
  }

  /** `s.endsWith(suffix)`. */
  predicate EndsWith(s: string, suffix: string) {
    |suffix| <= |s| && s[|s| - |suffix|..] == suffix
  }

  /** The type test: the MIME type mentions "pdf" or the lower-cased name ends in ".pdf". */
  predicate LooksLikePdf(f: File) {
    Contains(f.mimeType, "pdf") || EndsWith(ToLower(f.name), ".pdf")
  }

  datatype Verdict = Accepted | WrongType | TooLarge

  /** The two guards of `handleFileSelect`, in their order. */
  function Validate(f: File, maxFileSize: int): (v: Verdict)
    ensures v == WrongType <==> !LooksLikePdf(f)
    ensures v == TooLarge <==> LooksLikePdf(f) && f.size > maxFileSize
    ensures v == Accepted <==> LooksLikePdf(f) && f.size <= maxFileSize
  {
    if !LooksLikePdf(f) then WrongType
    else if f.size > maxFileSize then TooLarge
    else Accepted
  }

  /** The type check comes first: a file that is neither typed nor named as a
      PDF is refused for its type whatever its size. */
  lemma TypeCheckedBeforeSize(f: File, maxFileSize: int)
    requires !LooksLikePdf(f) && f.size > maxFileSize
    ensures Validate(f, maxFileSize) == WrongType
  {
  }

  /** The size limit is inclusive: a PDF exactly at the limit is accepted, one
      byte more is too large. */
  lemma SizeLimitInclusive(name: string, mimeType: string, maxFileSize: nat)
    requires LooksLikePdf(File(name, mimeType, maxFileSize))
    ensures Validate(File(name, mimeType, maxFileSize), maxFileSize) == Accepted
    ensures Validate(File(name, mimeType, maxFileSize + 1), maxFileSize) == TooLarge
  {
  }

  /** Either half of the type test suffices on its own. */
  lemma EitherTypeConditionSuffices(size: nat)
    ensures LooksLikePdf(File("PLAN.PDF", "", size))
    ensures LooksLikePdf(File("plan", "application/pdf", size))
    ensures !LooksLikePdf(File("plan.txt", "text/plain", size))
  {
    assert ToLower("PLAN.PDF")[4..] == ".pdf";
    assert OccursAt("application/pdf", "pdf", 12);
    var t := "text/plain";
    forall i | 0 <= i <= |t| - 3 ensures !OccursAt(t, "pdf", i) {
      assert t[i] != 'p' || t[i + 1] != 'd';
    }
    assert ToLower("plan.txt")[4..] != ".pdf" by {
      assert ToLower("plan.txt")[5] == 't';
    }
  }

  /** The name test ignores case: a name passes exactly when it ends in a dot
      followed by `p`, `d` and `f`, each in either case. */
  lemma PdfSuffixIgnoresCase(name: string)
    ensures EndsWith(ToLower(name), ".pdf") <==>
              |name| >= 4 && name[|name| - 4] == '.' && name[|name| - 3] in "pP" &&
              name[|name| - 2] in "dD" && name[|name| - 1] in "fF"
  {
    if |name| >= 4 {
      var l := ToLower(name);
      assert l[|name| - 4..] == [l[|name| - 4], l[|name| - 3], l[|name| - 2], l[|name| - 1]];
    }
  }

  /** The default `maxFileSize` is 10 MiB, and a PDF of exactly that size passes. */
  lemma DefaultLimit(name: string, mimeType: string)
    requires LooksLikePdf(File(name, mimeType, DefaultMaxFileSize))
    ensures DefaultMaxFileSize == 10_485_760
    ensures Validate(File(name, mimeType, DefaultMaxFileSize), DefaultMaxFileSize) == Accepted
  {
  }

  // ---- The component state ----

  datatype Toast = InvalidTypeToast | TooLargeToast(maxFileSize: int)

  /** Everything the handlers read or change: the two `useState` values, the
      hidden input's `value`, and the records of toasts, `onFileSelect` calls
      and file-dialog openings. */
  datatype UploadView = UploadView(
    selectedFile: Option<File>,
    isDragOver: bool,
    inputValue: string,
    toasts: seq<Toast>,
    selections: seq<File>,
    dialogOpens: nat)

  const InitialView: UploadView := UploadView(None, false, "", [], [], 0)

  /** The state invariant: every file handed to `onFileSelect` passed the
      validator, and the selected file, when there is one, is the last of them. */
  predicate Consistent(v: UploadView, maxFileSize: int) {
    (forall i :: 0 <= i < |v.selections| ==> Validate(v.selections[i], maxFileSize) == Accepted) &&
    (v.selectedFile.Some? ==> |v.selections| > 0 && v.selectedFile.value == v.selections[|v.selections| - 1])
  }

  /** `handleFileSelect`: a rejected file raises one toast and changes nothing
      else; an accepted file becomes `selectedFile` and is passed to
      `onFileSelect` once. Each call has exactly one visible effect. */
  function SelectFile(v: UploadView, file: File, maxFileSize: int): (w: UploadView)
    ensures w.isDragOver == v.isDragOver && w.inputValue == v.inputValue && w.dialogOpens == v.dialogOpens
    ensures |w.toasts| + |w.selections| == |v.toasts| + |v.selections| + 1
    ensures Validate(file, maxFileSize) == WrongType ==>
              w.toasts == v.toasts + [InvalidTypeToast] && w.selections == v.selections && w.selectedFile == v.selectedFile
    ensures Validate(file, maxFileSize) == TooLarge ==>
              w.toasts == v.toasts + [TooLargeToast(maxFileSize)] && w.selections == v.selections && w.selectedFile == v.selectedFile
    ensures Validate(file, maxFileSize) == Accepted ==>
              w.toasts == v.toasts && w.selections == v.selections + [file] && w.selectedFile == Some(file)
  {
    match Validate(file, maxFileSize)
    case WrongType => v.(toasts := v.toasts + [InvalidTypeToast])
    case TooLarge => v.(toasts := v.toasts + [TooLargeToast(maxFileSize)])
    case Accepted => v.(selectedFile := Some(file), selections := v.selections + [file])
  }

  /** Only the first file of an event is used; an empty list changes nothing. */
  function SelectFirst(v: UploadView, files: seq<File>, maxFileSize: int): (w: UploadView)
    ensures files == [] ==> w == v
    ensures files != [] ==> w == SelectFile(v, files[0], maxFileSize)
  {
    if |files| > 0 then SelectFile(v, files[0], maxFileSize) else v
  }

  /** `handleInputChange`. The browser has stored the chosen file's path in the
      input's `value` by the time the change event fires; `value` carries it. */
  function InputChange(v: UploadView, files: seq<File>, value: string, maxFileSize: int): (w: UploadView)
    ensures w.inputValue == value && w.isDragOver == v.isDragOver
    ensures files == [] ==> w == v.(inputValue := value)
    ensures files != [] ==> w == SelectFile(v.(inputValue := value), files[0], maxFileSize)
  {
    SelectFirst(v.(inputValue := value), files, maxFileSize)
  }

  /** `handleDragOver` and `handleDragLeave`. */
  function DragOver(v: UploadView): (w: UploadView)
    ensures w.isDragOver && w == v.(isDragOver := true)
  {
    v.(isDragOver := true)
  }

  function DragLeave(v: UploadView): (w: UploadView)
    ensures !w.isDragOver && w == v.(isDragOver := false)
  {
    v.(isDragOver := false)
  }

  /** `handleDrop`: the drag highlight goes off, then the first dropped file is validated. */
  function Drop(v: UploadView, files: seq<File>, maxFileSize: int): (w: UploadView)
    ensures !w.isDragOver && w.inputValue == v.inputValue && w.dialogOpens == v.dialogOpens
    ensures files == [] ==> w == v.(isDragOver := false)
    ensures files != [] ==> w == SelectFile(v.(isDragOver := false), files[0], maxFileSize)
  {
    SelectFirst(v.(isDragOver := false), files, maxFileSize)
  }

  /** `clearFile`: nothing is selected any more, and the input's value is reset
      when the input element is mounted. Nothing is recorded as delivered. */
  function ClearSelection(v: UploadView, hasInputElement: bool): (w: UploadView)
    ensures w.selectedFile == None
    ensures w.inputValue == (if hasInputElement then "" else v.inputValue)
    ensures w.toasts == v.toasts && w.selections == v.selections && w.isDragOver == v.isDragOver && w.dialogOpens == v.dialogOpens
  {
    if hasInputElement then v.(selectedFile := None, inputValue := "") else v.(selectedFile := None)
  }

  /** `openFileDialog`: the input is clicked only when it is mounted and the
      component is neither disabled nor uploading. */
  function RequestDialog(v: UploadView, hasInputElement: bool, disabled: bool, isUploading: bool): (w: UploadView)
    ensures w.dialogOpens == v.dialogOpens + (if hasInputElement && !disabled && !isUploading then 1 else 0)
    ensures w.(dialogOpens := v.dialogOpens) == v
  {
    if hasInputElement && !disabled && !isUploading then v.(dialogOpens := v.dialogOpens + 1) else v
  }

  /** Every handler keeps the invariant. */
  lemma HandlersKeepConsistent(v: UploadView, files: seq<File>, file: File, value: string,
                               maxFileSize: int, hasInputElement: bool, disabled: bool, isUploading: bool)
    requires Consistent(v, maxFileSize)
    ensures Consistent(SelectFile(v, file, maxFileSize), maxFileSize)
    ensures Consistent(InputChange(v, files, value, maxFileSize), maxFileSize)
    ensures Consistent(Drop(v, files, maxFileSize), maxFileSize)
    ensures Consistent(DragOver(v), maxFileSize) && Consistent(DragLeave(v), maxFileSize)
    ensures Consistent(ClearSelection(v, hasInputElement), maxFileSize)
    ensures Consistent(RequestDialog(v, hasInputElement, disabled, isUploading), maxFileSize)
  {
    SelectFileKeepsConsistent(v, file, maxFileSize);
    if files != [] {
      SelectFileKeepsConsistent(v.(inputValue := value), files[0], maxFileSize);
      SelectFileKeepsConsistent(v.(isDragOver := false), files[0], maxFileSize);
    }
  }

  lemma SelectFileKeepsConsistent(v: UploadView, file: File, maxFileSize: int)
    requires Consistent(v, maxFileSize)
    ensures Consistent(SelectFile(v, file, maxFileSize), maxFileSize)
  {
  }

  /** A rejected file leaves the current selection in place: choosing a bad
      file after a good one keeps the good one. */
  lemma RejectionKeepsSelection(good: File, bad: File, maxFileSize: int)
    requires Validate(good, maxFileSize) == Accepted && Validate(bad, maxFileSize) != Accepted
    ensures SelectFile(SelectFile(InitialView, good, maxFileSize), bad, maxFileSize).selectedFile == Some(good)
    ensures SelectFile(SelectFile(InitialView, good, maxFileSize), bad, maxFileSize).selections == [good]
    ensures |SelectFile(SelectFile(InitialView, good, maxFileSize), bad, maxFileSize).toasts| == 1
  {
  }

  /** The component itself, holding the props the handlers close over.
      `disabled` and `isUploading` change when the parent re-renders with new
      props (`SetFlags`); the size limit and the input ref stay fixed. */
  class ChakraFileUpload {
    const maxFileSize: int
    var disabled: bool
    var isUploading: bool
    /** `fileInputRef.current` is set (the hidden input is mounted). */
    const hasInputElement: bool

    var selectedFile: Option<File>
    var isDragOver: bool
    var inputValue: string
    var toasts: seq<Toast>
    var selections: seq<File>
    var dialogOpens: nat

    function View(): UploadView
      reads this
    {
      UploadView(selectedFile, isDragOver, inputValue, toasts, selections, dialogOpens)
    }

    ghost predicate Valid()
      reads this
    {
      Consistent(View(), maxFileSize)
    }

    constructor (maxFileSize: int, disabled: bool, isUploading: bool, hasInputElement: bool)
      ensures Valid() && View() == InitialView
      ensures this.maxFileSize == maxFileSize && this.disabled == disabled
      ensures this.isUploading == isUploading && this.hasInputElement == hasInputElement
    {
      this.maxFileSize := maxFileSize;
      this.disabled := disabled;
      this.isUploading := isUploading;
      this.hasInputElement := hasInputElement;
      selectedFile := None;
      isDragOver := false;
      inputValue := "";
      toasts := [];
      selections := [];
      dialogOpens := 0;
    }

    /** The component with its default props: a 10 MiB limit, enabled, not uploading. */
    constructor WithDefaults(hasInputElement: bool)
      ensures Valid() && View() == InitialView
      ensures maxFileSize == DefaultMaxFileSize && !disabled && !isUploading
      ensures this.hasInputElement == hasInputElement
    {
      maxFileSize := DefaultMaxFileSize;
      disabled := false;
      isUploading := false;
      this.hasInputElement := hasInputElement;
      selectedFile := None;
      isDragOver := false;
      inputValue := "";
      toasts := [];
      selections := [];
      dialogOpens := 0;
    }

    /** A re-render with new `disabled` and `isUploading` props: the state
        is kept, and later handlers see the new flags. */
    method SetFlags(disabled: bool, isUploading: bool)
      requires Valid()
      modifies this
      ensures Valid()
      ensures View() == old(View())
      ensures this.disabled == disabled && this.isUploading == isUploading
    {
      this.disabled := disabled;
      this.isUploading := isUploading;
    }

    method HandleFileSelect(file: File)
      requires Valid()
      modifies this
      ensures Valid()
      ensures disabled == old(disabled) && isUploading == old(isUploading)
      ensures View() == SelectFile(old(View()), file, maxFileSize)
    {
      SelectFileKeepsConsistent(View(), file, maxFileSize);
      var verdict := Validate(file, maxFileSize);
      if verdict == WrongType {
        toasts := toasts + [InvalidTypeToast];
        return;
      }
      if verdict == TooLarge {
        toasts := toasts + [TooLargeToast(maxFileSize)];
        return;
      }
      selectedFile := Some(file);
      selections := selections + [file];
    }

    method HandleInputChange(files: seq<File>, value: string)
      requires Valid()
      modifies this
      ensures Valid()
      ensures disabled == old(disabled) && isUploading == old(isUploading)
      ensures View() == InputChange(old(View()), files, value, maxFileSize)
    {
      inputValue := value;
      if |files| > 0 {
        HandleFileSelect(files[0]);
      }
    }

    method HandleDragOver()
      requires Valid()
      modifies this
      ensures Valid()
      ensures disabled == old(disabled) && isUploading == old(isUploading)
      ensures View() == DragOver(old(View()))
    {
      isDragOver := true;
    }

    method HandleDragLeave()
      requires Valid()
      modifies this
      ensures Valid()
      ensures disabled == old(disabled) && isUploading == old(isUploading)
      ensures View() == DragLeave(old(View()))
    {
      isDragOver := false;
    }

    method HandleDrop(files: seq<File>)
      requires Valid()
      modifies this
      ensures Valid()
      ensures disabled == old(disabled) && isUploading == old(isUploading)
      ensures View() == Drop(old(View()), files, maxFileSize)
    {
      isDragOver := false;
      if |files| > 0 {
        HandleFileSelect(files[0]);
      }
    }

    method ClearFile()
      requires Valid()
      modifies this
      ensures Valid()
      ensures disabled == old(disabled) && isUploading == old(isUploading)
      ensures View() == ClearSelection(old(View()), hasInputElement)
    {
      selectedFile := None;
      if hasInputElement {
        inputValue := "";
      }
    }

    method OpenFileDialog()
      requires Valid()
      modifies this
      ensures Valid()
      ensures disabled == old(disabled) && isUploading == old(isUploading)
      ensures View() == RequestDialog(old(View()), hasInputElement, disabled, isUploading)
    {
      if hasInputElement && !disabled && !isUploading {
        dialogOpens := dialogOpens + 1;
      }
    }
  }
}

/** The upload dialog of the project list
    (src/components/projects/UploadProjectDialog.tsx): file validation, the
    open / selected-file / error state, and the upload mutation's status.
    The upload request itself is not modelled; it is started by
    `HandleSubmit` and settled by `UploadSucceeded` or `UploadFailed`. */
module UploadProjectDialog {
  import opened Wrappers
  import opened ApiTypes

  /** The parts of a browser `File` the dialog reads. */
  datatype FileInfo = FileInfo(name: string, mimeType: string, size: nat)

  const PdfMimeType := "application/pdf"
  /** 50 MiB. */
  const MaxUploadBytes: nat := 50 * 1024 * 1024

  const NotPdfError := "Please select a PDF file."
  const TooLargeError := "File size should not exceed 50MB."
  const NoFileError := "Please select a PDF file to upload."
  const UploadFailedFallback := "Failed to upload PDF. Please try again."

  /** The check of `handleFileChange`: the error a chosen file is refused
      with, `None` when the file is accepted. The type is checked first. */
  function FileError(file: FileInfo): (e: Option<string>)
    ensures file.mimeType != PdfMimeType ==> e == Some(NotPdfError)
    ensures file.mimeType == PdfMimeType && file.size > MaxUploadBytes ==> e == Some(TooLargeError)
    ensures e.None? <==> file.mimeType == PdfMimeType && file.size <= MaxUploadBytes
  {
    if file.mimeType != PdfMimeType then Some(NotPdfError)
    else if file.size > MaxUploadBytes then Some(TooLargeError)
    else None
  }

  /** A PDF of exactly 50 MiB is accepted; one byte more is refused. */
  lemma {:induction false} SizeLimitIsInclusive(name: string)
    ensures FileError(FileInfo(name, PdfMimeType, 52428800)).None?
    ensures FileError(FileInfo(name, PdfMimeType, 52428801)) == Some(TooLargeError)
  {
  }

  /** A file that is both of the wrong type and too large gets the type error. */
  lemma {:induction false} TypeCheckedBeforeSize(file: FileInfo)
    requires file.mimeType != PdfMimeType && file.size > MaxUploadBytes
    ensures FileError(file) == Some(NotPdfError)
  {
  }

  /** The upload mutation: idle, running with a file, failed, or succeeded. */
  datatype UploadStatus = Idle | Pending(file: FileInfo) | Failed(message: string) | Succeeded(project: ProjectResponse)

  class UploadDialog {
    var isOpen: bool
    var selectedFile: Option<FileInfo>
    var error: Option<string>
    var status: UploadStatus

    /** A selected file is always one the check accepted. */
    predicate Valid()
      reads this
    {
      selectedFile.Some? ==> FileError(selectedFile.value).None?
    }

    constructor ()
      ensures Valid()
      ensures !isOpen && selectedFile.None? && error.None? && status == Idle
    {
      isOpen := false;
      selectedFile := None;
      error := None;
      status := Idle;
    }

    /** A change of the file input; `files` is the input's file list and
        only its first file is looked at. An empty list changes nothing. */
    method HandleFileChange(files: seq<FileInfo>)
      requires Valid()
      modifies this
      ensures Valid()
      ensures isOpen == old(isOpen) && status == old(status)
      ensures files == [] ==> selectedFile == old(selectedFile) && error == old(error)
      ensures files != [] && FileError(files[0]).Some? ==> selectedFile.None? && error == FileError(files[0])
      ensures files != [] && FileError(files[0]).None? ==> selectedFile == Some(files[0]) && error.None?
    {
      if files != [] {
        var file := files[0];
        if file.mimeType != PdfMimeType {
          error := Some(NotPdfError);
          selectedFile := None;
          return;
        }
        if file.size > MaxUploadBytes {
          error := Some(TooLargeError);
          selectedFile := None;
          return;
        }
        selectedFile := Some(file);
        error := None;
      }
    }

    /** Submitting the form: without a selection only the error is set and no
        upload starts; otherwise the error is cleared and the upload of the
        selected file starts. `started` is the file handed to the upload. */
    method HandleSubmit() returns (started: Option<FileInfo>)
      requires Valid()
      modifies this
      ensures Valid()
      ensures started == old(selectedFile)
      ensures isOpen == old(isOpen) && selectedFile == old(selectedFile)
      ensures old(selectedFile).None? ==> error == Some(NoFileError) && status == old(status)
      ensures old(selectedFile).Some? ==> error.None? && status == Pending(old(selectedFile).value)
      ensures started.Some? ==> FileError(started.value).None?
    {
      if selectedFile.None? {
        error := Some(NoFileError);
        return None;
      }
      error := None;
      status := Pending(selectedFile.value);
      started := selectedFile;
    }

    /** The dialog's `onOpenChange`: closing clears the selection and the
        error and resets the mutation; opening only opens. */
    method OpenChange(open: bool)
      requires Valid()
      modifies this
      ensures Valid()
      ensures isOpen == open
      ensures !open ==> selectedFile.None? && error.None? && status == Idle
      ensures open ==> selectedFile == old(selectedFile) && error == old(error) && status == old(status)
    {
      isOpen := open;
      if !open {
        selectedFile := None;
        error := None;
        status := Idle;
      }
    }

    /** The upload's `onSuccess`: the dialog closes and forgets the file and the error. */
    method UploadSucceeded(project: ProjectResponse)
      requires Valid()
      modifies this
      ensures Valid()
      ensures !isOpen && selectedFile.None? && error.None? && status == Succeeded(project)
    {
      status := Succeeded(project);
      isOpen := false;
      selectedFile := None;
      error := None;
    }

    /** The upload's `onError`: the message (or a fallback when it is empty)
        is shown; the dialog stays as it was. */
    method UploadFailed(message: string)
      requires Valid()
      modifies this
      ensures Valid()
      ensures isOpen == old(isOpen) && selectedFile == old(selectedFile)
      ensures error == Some(if message != "" then message else UploadFailedFallback)
      ensures status == Failed(message)
    {
      status := Failed(message);
      error := Some(if message != "" then message else UploadFailedFallback);
    }
  }
}

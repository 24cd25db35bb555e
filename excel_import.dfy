/**
 * The Excel import form: which file is selected, the import status and the
 * error message, as changed by the file input, the import button, the
 * delayed completion and the reset button. The completion the form
 * schedules with a timer is an explicit step here.
 */
module ExcelImportForm {
  import opened Wrappers
  import opened Text

  datatype ImportStatus = Idle | Processing | Success | Error

  datatype SelectedFile = SelectedFile(name: string)

  const InvalidFileMessage := "Por favor, selecione um arquivo Excel v\U{00E1}lido (.xlsx ou .xls)"

  /** The extension gate: a case-sensitive suffix test. */
  predicate IsExcelFileName(name: string) {
    EndsWith(name, ".xlsx") || EndsWith(name, ".xls")
  }

  /** The gate tests the name's suffix, with no case folding. */
  lemma ExtensionExamples()
    ensures IsExcelFileName("dados.xlsx") && IsExcelFileName("dados.xls")
    ensures !IsExcelFileName("DADOS.XLSX") && !IsExcelFileName("dados.csv")
  {
    assert "dados.xlsx"[5..] == ".xlsx";
    assert "dados.xls"[5..] == ".xls";
    assert "DADOS.XLSX"[6..] != ".xlsx"[1..] by { assert "DADOS.XLSX"[6] == 'X'; }
    assert "DADOS.XLSX"[7] != ".xls"[1];
    assert "dados.csv"[6] != ".xls"[1];
  }

  class ExcelImport {
    var fileSelected: Option<SelectedFile>
    var importStatus: ImportStatus
    var errorMessage: Option<string>
    /** Completions scheduled by the import button that have not run yet. */
    var pendingCompletions: nat

    /**
     * What holds in every state the handlers reach: the status is never
     * `error`, a stored file has an Excel name, the only message is the
     * invalid-file one, and a processing import has a completion pending.
     */
    predicate Valid()
      reads this
    {
      && importStatus != Error
      && (fileSelected.Some? ==> IsExcelFileName(fileSelected.value.name))
      && (errorMessage.Some? ==> errorMessage.value == InvalidFileMessage)
      && (importStatus == Processing ==> pendingCompletions > 0)
    }

    /** The import button's `disabled` condition. */
    predicate ImportButtonDisabled()
      reads this
    {
      fileSelected.None? || importStatus == Processing
    }

    /** The file input's `disabled` condition; the import button is then disabled too. */
    predicate FileInputDisabled(): (disabled: bool)
      reads this
      ensures disabled ==> ImportButtonDisabled()
    {
      importStatus == Processing
    }

    constructor()
      ensures fileSelected == None && importStatus == Idle && errorMessage == None
      ensures pendingCompletions == 0
      ensures Valid()
    {
      fileSelected := None;
      importStatus := Idle;
      errorMessage := None;
      pendingCompletions := 0;
    }

    /** `handleFileChange`: `file` is the first selected file, if any. */
    method HandleFileChange(file: Option<SelectedFile>)
      requires Valid()
      modifies this
      ensures Valid()
      ensures file.None? ==> fileSelected == None && errorMessage == old(errorMessage)
      ensures file.Some? && !IsExcelFileName(file.value.name) ==>
        fileSelected == None && errorMessage == Some(InvalidFileMessage)
      ensures file.Some? && IsExcelFileName(file.value.name) ==>
        fileSelected == file && errorMessage == None
      ensures importStatus == old(importStatus) && pendingCompletions == old(pendingCompletions)
    {
      if file.Some? {
        if !EndsWith(file.value.name, ".xlsx") && !EndsWith(file.value.name, ".xls") {
          errorMessage := Some(InvalidFileMessage);
          fileSelected := None;
          return;
        }
        fileSelected := file;
        errorMessage := None;
      } else {
        fileSelected := None;
      }
    }

    /** `handleImport`: with a file, start processing and schedule the completion. */
    method HandleImport()
      requires Valid()
      modifies this
      ensures Valid()
      ensures old(fileSelected).None? ==>
        importStatus == old(importStatus) && pendingCompletions == old(pendingCompletions)
      ensures old(fileSelected).Some? ==>
        && importStatus == Processing && pendingCompletions == old(pendingCompletions) + 1
        && ImportButtonDisabled() && FileInputDisabled()
      ensures fileSelected == old(fileSelected) && errorMessage == old(errorMessage)
    {
      if fileSelected.None? {
        return;
      }
      importStatus := Processing;
      pendingCompletions := pendingCompletions + 1;
    }

    /** The timer callback of `handleImport`: the import is reported as a success. */
    method CompleteImport()
      requires Valid() && pendingCompletions > 0
      modifies this
      ensures Valid()
      ensures importStatus == ImportStatus.Success && pendingCompletions == old(pendingCompletions) - 1
      ensures fileSelected == old(fileSelected) && errorMessage == old(errorMessage)
    {
      importStatus := ImportStatus.Success;
      pendingCompletions := pendingCompletions - 1;
    }

    /** `resetForm`. */
    method ResetForm()
      requires Valid()
      modifies this
      ensures Valid()
      ensures fileSelected == None && importStatus == Idle && errorMessage == None
      ensures pendingCompletions == old(pendingCompletions)
    {
      fileSelected := None;
      importStatus := Idle;
      errorMessage := None;
    }
  }

  /**
   * An Excel file goes through idle, processing, success and back to idle;
   * the import button is disabled while processing and again after reset.
   */
  method AcceptedFileWalkthrough(name: string) returns (statuses: seq<ImportStatus>, disabledWhileProcessing: bool)
    requires IsExcelFileName(name)
    ensures statuses == [Idle, Processing, ImportStatus.Success, Idle]
    ensures disabledWhileProcessing
  {
    var form := new ExcelImport();
    statuses := [form.importStatus];
    form.HandleFileChange(Some(SelectedFile(name)));
    form.HandleImport();
    statuses := statuses + [form.importStatus];
    disabledWhileProcessing := form.ImportButtonDisabled() && form.FileInputDisabled();
    form.CompleteImport();
    statuses := statuses + [form.importStatus];
    form.ResetForm();
    statuses := statuses + [form.importStatus];
  }

  /** A file with another extension is refused with the message, and the import button does nothing. */
  method RejectedFileWalkthrough(name: string) returns (message: Option<string>, status: ImportStatus, disabled: bool)
    requires !IsExcelFileName(name)
    ensures message == Some(InvalidFileMessage)
    ensures status == Idle && disabled
  {
    var form := new ExcelImport();
    form.HandleFileChange(Some(SelectedFile(name)));
    form.HandleImport();
    message := form.errorMessage;
    status := form.importStatus;
    disabled := form.ImportButtonDisabled();
  }
}

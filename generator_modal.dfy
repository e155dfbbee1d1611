/** The dialog a teacher creates an assignment link in
    (Client/src/Components/GeneratorModal.tsx): the three-page stepper, the
    handling of an uploaded question file, and the body posted to the
    assignment route. */
module GeneratorModal {
  import opened Js
  import Utils
  import AssignmentRoutes

  const PdfType: string := "application/pdf"
  const DocxType: string := "application/vnd.openxmlformats-" + "officedocument.wordprocessingml.document"

  /** A dropped or chosen file, and the outcome of extracting its text with
      the PDF or Word library, which runs outside the model. */
  datatype DroppedFile = DroppedFile(name: string, mimeType: string)
  datatype Extraction = Extracted(text: string) | ExtractionFailed

  /** The body `handleGenerateLink` posts (GeneratorModal.tsx:109-121): the
      seven check boxes under the flag names, the file text as `Questions`
      (null without a file), and the title, description and deadline. */
  function LinkPayload(checked: seq<bool>, fileContent: Option<string>,
                       title: string, description: string, deadline: string): Record
    requires |checked| == 7
  {
    CheckedFlags(Utils.FlagKeys, checked) + DetailFields(fileContent, title, description, deadline)
  }

  /** Each check box is sent under its flag name, the file text as
      `Questions` (null without a file), and the title, description and
      deadline as typed. */
  lemma LinkPayloadFields(checked: seq<bool>, fileContent: Option<string>,
                          title: string, description: string, deadline: string)
    requires |checked| == 7
    ensures var r := LinkPayload(checked, fileContent, title, description, deadline);
            && (forall i | 0 <= i < 7 :: Get(r, Utils.FlagKeys[i]) == Bool(checked[i]))
            && Get(r, "Questions") == (if fileContent.Some? then Str(fileContent.value) else Null)
            && Get(r, "Title") == Str(title) && Get(r, "Description") == Str(description)
            && Get(r, "Deadline") == Str(deadline)
  {
    var details := DetailFields(fileContent, title, description, deadline);
    Utils.FlagKeysDistinct();
    DetailsMissFlags(fileContent, title, description, deadline);
    PayloadFlags(Utils.FlagKeys, checked, details);
  }

  /** The flags of the payload are the check boxes, whatever texts are
      merged over them under other keys. */
  lemma PayloadFlags(keys: seq<string>, checked: seq<bool>, details: Record)
    requires |keys| == |checked|
    requires forall i, j | 0 <= i < j < |keys| :: keys[i] != keys[j]
    requires forall i | 0 <= i < |keys| :: keys[i] !in details
    ensures forall i | 0 <= i < |keys| :: Get(CheckedFlags(keys, checked) + details, keys[i]) == Bool(checked[i])
  {
    CheckedFlagsAt(keys, checked);
  }

  /** No text of the payload sits under a flag's name. */
  lemma DetailsMissFlags(fileContent: Option<string>, title: string, description: string, deadline: string)
    ensures forall i | 0 <= i < 7 :: Utils.FlagKeys[i] !in DetailFields(fileContent, title, description, deadline)
  {
    Utils.FlagKeysApart();
  }

  /** The `i`-th check box under the `i`-th key. */
  function CheckedFlags(keys: seq<string>, checked: seq<bool>): Record
    requires |keys| == |checked|
    decreases |keys|
  {
    if keys == [] then map[]
    else CheckedFlags(keys[..|keys| - 1], checked[..|checked| - 1])[keys[|keys| - 1] := Bool(checked[|checked| - 1])]
  }

  /** With distinct keys, each key holds its own check box and there are no
      other keys. */
  lemma {:induction false} CheckedFlagsAt(keys: seq<string>, checked: seq<bool>)
    requires |keys| == |checked|
    requires forall i, j | 0 <= i < j < |keys| :: keys[i] != keys[j]
    ensures forall k :: k in CheckedFlags(keys, checked) <==> k in keys
    ensures forall i | 0 <= i < |keys| :: CheckedFlags(keys, checked)[keys[i]] == Bool(checked[i])
  {
    if keys != [] {
      var n := |keys| - 1;
      CheckedFlagsAt(keys[..n], checked[..n]);
      forall i | 0 <= i < n
        ensures CheckedFlags(keys, checked)[keys[i]] == Bool(checked[i])
      {
        assert keys[..n][i] == keys[i];
        assert keys[i] != keys[n];
      }
      forall k
        ensures k in CheckedFlags(keys, checked) <==> k in keys
      {
        assert keys == keys[..n] + [keys[n]];
      }
    }
  }

  /** The texts of the payload. */
  function DetailFields(fileContent: Option<string>, title: string, description: string, deadline: string): Record
  {
    map["Questions" := if fileContent.Some? then Str(fileContent.value) else Null,
        "Title" := Str(title), "Description" := Str(description), "Deadline" := Str(deadline)]
  }

  /** What the server makes of the body: it is accepted exactly when a file
      was read to some text and a title and a deadline were typed, and the
      assignment it stores carries each check box as its flag. */
  lemma PayloadAsStored(checked: seq<bool>, fileContent: Option<string>, title: string,
                        description: string, deadline: string, hash: string, userId: string, id: string)
    requires |checked| == 7
    ensures var body := LinkPayload(checked, fileContent, title, description, deadline);
            && (AssignmentRoutes.GenerateAccepted(body) <==>
                  fileContent.Some? && fileContent.value != "" && title != "" && deadline != "")
            && (AssignmentRoutes.GenerateAccepted(body) ==>
                  forall i | 0 <= i < 7 ::
                    AssignmentRoutes.NewAssignment(body, hash, userId, id)[Utils.FlagKeys[i]] == Bool(checked[i]))
  {
    var body := LinkPayload(checked, fileContent, title, description, deadline);
    LinkPayloadFields(checked, fileContent, title, description, deadline);
    PayloadFlagsStored(checked, body, hash, userId, id);
  }

  /** Whatever the body's other fields, a body carrying the check boxes
      under the flag keys is stored with those flags. */
  lemma PayloadFlagsStored(checked: seq<bool>, body: Record, hash: string, userId: string, id: string)
    requires |checked| == 7
    requires forall i | 0 <= i < 7 :: Get(body, Utils.FlagKeys[i]) == Bool(checked[i])
    ensures forall i | 0 <= i < 7 ::
              AssignmentRoutes.NewAssignment(body, hash, userId, id)[Utils.FlagKeys[i]] == Bool(checked[i])
  {
    AssignmentRoutes.StoredFlags(body, hash, userId, id);
    forall i | 0 <= i < 7
      ensures AssignmentRoutes.NewAssignment(body, hash, userId, id)[Utils.FlagKeys[i]] == Bool(checked[i])
    {
      assert Utils.FlagKeys[i] in Utils.FlagKeys;
    }
  }

  class GeneratorDialog {
    var currentPage: int
    var fileContent: Option<string>
    var fileName: Option<string>
    var isLoadingFile: bool
    var title: string
    var description: string
    var deadline: string
    /** The seven check boxes, in the order Name..PhoneNumber. */
    var checked: seq<bool>

    /** The stepper is on page 1, 2 or 3, and there are seven check boxes. */
    predicate Valid()
      reads this
    {
      1 <= currentPage <= 3 && |checked| == 7
    }

    /** The generate button is enabled (GeneratorModal.tsx:504). */
    predicate CanGenerate()
      reads this
    {
      fileContent.Some? && fileContent.value != ""
    }

    constructor ()
      ensures Valid()
      ensures currentPage == 1 && fileContent.None? && fileName.None? && !isLoadingFile
      ensures title == "" && description == "" && deadline == ""
      ensures checked == [false, false, false, false, false, false, false]
    {
      currentPage := 1;
      fileContent := None;
      fileName := None;
      isLoadingFile := false;
      title := "";
      description := "";
      deadline := "";
      checked := [false, false, false, false, false, false, false];
    }

    /** `nextPage` (GeneratorModal.tsx:34). */
    method NextPage()
      requires Valid()
      modifies this
      ensures Valid()
      ensures currentPage == if old(currentPage) < 3 then old(currentPage) + 1 else 3
      ensures fileContent == old(fileContent) && fileName == old(fileName) && checked == old(checked)
      ensures isLoadingFile == old(isLoadingFile) && title == old(title) && description == old(description) && deadline == old(deadline)
    {
      if currentPage < 3 {
        currentPage := currentPage + 1;
      }
    }

    /** `prevPage` (GeneratorModal.tsx:35). */
    method PrevPage()
      requires Valid()
      modifies this
      ensures Valid()
      ensures currentPage == if old(currentPage) > 1 then old(currentPage) - 1 else 1
      ensures fileContent == old(fileContent) && fileName == old(fileName) && checked == old(checked)
      ensures isLoadingFile == old(isLoadingFile) && title == old(title) && description == old(description) && deadline == old(deadline)
    {
      if currentPage > 1 {
        currentPage := currentPage - 1;
      }
    }

    /** `processFile` (GeneratorModal.tsx:44-83): a PDF or Word file whose
        text could be extracted becomes the content under its name; a failed
        extraction or any other type leaves the content empty and no name;
        loading is over at the end of every branch. */
    method ProcessFile(file: DroppedFile, extraction: Extraction)
      requires Valid()
      modifies this
      ensures Valid()
      ensures (file.mimeType == PdfType || file.mimeType == DocxType) && extraction.Extracted? ==>
                fileContent == Some(extraction.text) && fileName == Some(file.name)
      ensures !((file.mimeType == PdfType || file.mimeType == DocxType) && extraction.Extracted?) ==>
                fileContent == Some("") && fileName.None? && !CanGenerate()
      ensures !isLoadingFile
      ensures currentPage == old(currentPage) && checked == old(checked)
      ensures title == old(title) && description == old(description) && deadline == old(deadline)
    {
      isLoadingFile := true;
      if file.mimeType == PdfType || file.mimeType == DocxType {
        match extraction {
          case Extracted(text) =>
            fileContent := Some(text);
            fileName := Some(file.name);
          case ExtractionFailed =>
            fileContent := Some("");
            fileName := None;
        }
        isLoadingFile := false;
      } else {
        fileContent := Some("");
        fileName := None;
        isLoadingFile := false;
      }
    }

    /** The remove button of GeneratorModal.tsx:444-447. */
    method RemoveFile()
      requires Valid()
      modifies this
      ensures Valid()
      ensures fileContent.None? && fileName.None? && !CanGenerate()
      ensures currentPage == old(currentPage) && checked == old(checked) && isLoadingFile == old(isLoadingFile)
      ensures title == old(title) && description == old(description) && deadline == old(deadline)
    {
      fileContent := None;
      fileName := None;
    }

    /** A check box's change handler. */
    method SetChecked(index: nat, value: bool)
      requires Valid() && index < 7
      modifies this
      ensures Valid()
      ensures checked == old(checked)[index := value]
      ensures currentPage == old(currentPage) && fileContent == old(fileContent) && fileName == old(fileName)
      ensures isLoadingFile == old(isLoadingFile) && title == old(title) && description == old(description) && deadline == old(deadline)
    {
      checked := checked[index := value];
    }

    /** The title, description and deadline inputs. */
    method SetDetails(newTitle: string, newDescription: string, newDeadline: string)
      requires Valid()
      modifies this
      ensures Valid()
      ensures title == newTitle && description == newDescription && deadline == newDeadline
      ensures currentPage == old(currentPage) && fileContent == old(fileContent) && checked == old(checked)
      ensures fileName == old(fileName) && isLoadingFile == old(isLoadingFile)
    {
      title := newTitle;
      description := newDescription;
      deadline := newDeadline;
    }

    /** `handleGenerateLink` up to the request (GeneratorModal.tsx:105-121). */
    method GenerateLink() returns (body: Record)
      requires Valid()
      ensures body == LinkPayload(checked, fileContent, title, description, deadline)
    {
      body := LinkPayload(checked, fileContent, title, description, deadline);
    }
  }
}

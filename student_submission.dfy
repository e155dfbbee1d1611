/** The student's assignment submission page
    (Client/src/pages/StudentSubmission.tsx): which file it keeps, the
    simulated upload progress, the form data it posts, and the labels of
    the student fields. */
module StudentSubmission {
  import opened Js
  import opened JsText
  import Utils

  // ------------------------------------------------------------------ files

  /** The parts of a browser `File` the page looks at. */
  datatype UploadFile = UploadFile(name: string, mimeType: string, size: nat)

  const MaxSize: nat := 2 * 1024 * 1024
  const PdfType: string := "application/pdf"
  const SizeError: string := "File size exceeds 2MB limit."
  const TypeError: string := "Invalid file type. Please upload a PDF document."
  const MissingFileError: string := "Please upload the assignment file."
  const FetchFallback: string := "Failed to fetch data."
  const SubmitFallback: string := "Failed to submit data." + " Please check your input and file."

  /** A PDF of at most 2 MiB. */
  predicate Acceptable(f: UploadFile)
  {
    f.mimeType == PdfType && f.size <= MaxSize
  }

  /** What `handleFileChange` decides about a chosen file
      (StudentSubmission.tsx:90-117): the type is checked first, then the
      size. */
  function FileVerdict(f: UploadFile): Result<UploadFile, string>
  {
    if f.mimeType != PdfType then Err(TypeError)
    else if f.size > MaxSize then Err(SizeError)
    else Ok(f)
  }

  /** A file is kept exactly when it is an acceptable PDF; a rejected PDF is
      too large and anything else has the wrong type. */
  lemma FileVerdictIff(f: UploadFile)
    ensures FileVerdict(f) == Ok(f) <==> Acceptable(f)
    ensures FileVerdict(f) == Err(SizeError) <==> f.mimeType == PdfType && f.size > 2097152
    ensures FileVerdict(f) == Err(TypeError) <==> f.mimeType != PdfType
  {
  }

  // --------------------------------------------------------------- progress

  /** The state the progress interval touches. */
  datatype Progress = Progress(percent: int, uploading: bool)

  /** One interval tick (StudentSubmission.tsx:99-106): at 100 or more the
      upload is over and the value is pinned to 100, otherwise it rises by 5. */
  function Tick(p: Progress): Progress
  {
    if p.percent >= 100 then Progress(100, false) else Progress(p.percent + 5, p.uploading)
  }

  /** The state after `n` ticks from `start`. */
  function Ticks(start: Progress, n: nat): Progress
  {
    if n == 0 then start else Tick(Ticks(start, n - 1))
  }

  /** From the state a new upload starts in, the progress after `n` ticks
      is 5n capped at 100, and the upload stays on for the first 20 ticks
      and ends at the 21st. */
  lemma {:induction false} TicksFromStart(n: nat)
    ensures Ticks(Progress(0, true), n) ==
              if n <= 20 then Progress(5 * n, true) else Progress(100, false)
  {
    if n > 0 {
      TicksFromStart(n - 1);
    }
  }

  /** A tick keeps the progress a multiple of 5 within 0..100. */
  predicate ProgressInRange(p: Progress)
  {
    0 <= p.percent <= 100 && p.percent % 5 == 0
  }

  lemma TickKeepsRange(p: Progress)
    requires ProgressInRange(p)
    ensures ProgressInRange(Tick(p))
    ensures Tick(p).percent >= p.percent
    ensures p.uploading ==> (Tick(p).uploading <==> p.percent < 100)
  {
  }

  // ------------------------------------------------------------ form data

  /** The hash sent with a submission: the route's `shareId`, or the text
      "null" when there is none (StudentSubmission.tsx:145). */
  function HashValue(shareId: Option<string>): string
  {
    if shareId.Some? && shareId.value != "" then shareId.value else "null"
  }

  /** Whether the `forEach` of StudentSubmission.tsx:148-152 keeps `key`. */
  predicate Selected(assignment: Option<Record>, key: string)
  {
    (assignment.Some? && Truthy(Get(assignment.value, key))) || key == "hash"
  }

  /** The entries of `pairs` the page keeps, in order. */
  function SelectFields(assignment: Option<Record>, pairs: seq<(string, string)>): seq<(string, string)>
    decreases |pairs|
  {
    if pairs == [] then []
    else
      var last := pairs[|pairs| - 1];
      SelectFields(assignment, pairs[..|pairs| - 1]) + (if Selected(assignment, last.0) then [last] else [])
  }

  /** The candidate entries of StudentSubmission.tsx:137-146: the seven
      student fields with the values typed in, then the hash. */
  function FieldPairs(values: seq<string>, shareId: Option<string>): (r: seq<(string, string)>)
    requires |values| == 7
    ensures |r| == 8
    ensures forall i | 0 <= i < 7 :: r[i] == (Utils.FlagKeys[i], values[i])
    ensures r[7] == ("hash", HashValue(shareId))
  {
    seq(7, i requires 0 <= i < 7 => (Utils.FlagKeys[i], values[i])) + [("hash", HashValue(shareId))]
  }

  /** An entry is kept exactly when it is a candidate whose key the
      assignment asks for, or the hash; the kept entries keep their order,
      so no key is kept twice when the candidates' keys are distinct. */
  lemma SelectFieldsMembers(assignment: Option<Record>, pairs: seq<(string, string)>)
    ensures forall p :: p in SelectFields(assignment, pairs) <==> p in pairs && Selected(assignment, p.0)
    ensures |SelectFields(assignment, pairs)| <= |pairs|
    ensures (forall i, j | 0 <= i < j < |pairs| :: pairs[i].0 != pairs[j].0) ==>
              forall i, j | 0 <= i < j < |SelectFields(assignment, pairs)| ::
                SelectFields(assignment, pairs)[i].0 != SelectFields(assignment, pairs)[j].0
  {
    SelectFieldsKept(assignment, pairs);
    if (forall i, j | 0 <= i < j < |pairs| :: pairs[i].0 != pairs[j].0) {
      SelectFieldsDistinct(assignment, pairs);
    }
  }

  lemma {:induction false} SelectFieldsKept(assignment: Option<Record>, pairs: seq<(string, string)>)
    ensures forall p :: p in SelectFields(assignment, pairs) <==> p in pairs && Selected(assignment, p.0)
    ensures |SelectFields(assignment, pairs)| <= |pairs|
    decreases |pairs|
  {
    if pairs != [] {
      var front := pairs[..|pairs| - 1];
      SelectFieldsKept(assignment, front);
      assert pairs == front + [pairs[|pairs| - 1]];
    }
  }

  lemma {:induction false} SelectFieldsDistinct(assignment: Option<Record>, pairs: seq<(string, string)>)
    requires forall i, j | 0 <= i < j < |pairs| :: pairs[i].0 != pairs[j].0
    ensures forall i, j | 0 <= i < j < |SelectFields(assignment, pairs)| ::
              SelectFields(assignment, pairs)[i].0 != SelectFields(assignment, pairs)[j].0
    decreases |pairs|
  {
    if pairs != [] {
      var front := pairs[..|pairs| - 1];
      var last := pairs[|pairs| - 1];
      SelectFieldsDistinct(assignment, front);
      SelectFieldsKept(assignment, front);
      forall p | p in SelectFields(assignment, front) ensures p.0 != last.0 {
        var k :| 0 <= k < |front| && front[k] == p;
        assert pairs[k] == p;
      }
    }
  }

  /** The student fields sent: the hash always, with the route's value, and
      each of the seven fields exactly when the assignment's flag for it is
      truthy, with the value typed in; each key at most once. */
  lemma SubmittedFields(assignment: Option<Record>, values: seq<string>, shareId: Option<string>)
    requires |values| == 7
    ensures var data := SelectFields(assignment, FieldPairs(values, shareId));
            && ("hash", HashValue(shareId)) in data
            && (forall i | 0 <= i < 7 ::
                  (Utils.FlagKeys[i], values[i]) in data <==> assignment.Some? && Truthy(Get(assignment.value, Utils.FlagKeys[i])))
            && (forall p | p in data :: p.0 in Utils.FlagKeys || p == ("hash", HashValue(shareId)))
            && forall i, j | 0 <= i < j < |data| :: data[i].0 != data[j].0
  {
    var pairs := FieldPairs(values, shareId);
    var data := SelectFields(assignment, pairs);
    Utils.FlagKeysApart();
    FieldPairsKeys(values, shareId);
    SelectFieldsMembers(assignment, pairs);
    assert pairs[7] in pairs;
    forall i | 0 <= i < 7
      ensures (Utils.FlagKeys[i], values[i]) in data <==> assignment.Some? && Truthy(Get(assignment.value, Utils.FlagKeys[i]))
    {
      assert pairs[i] in pairs;
      assert Utils.FlagKeys[i] in Utils.FlagKeys;
    }
  }

  /** The candidates carry each flag key once, then the hash. */
  lemma FieldPairsKeys(values: seq<string>, shareId: Option<string>)
    requires |values| == 7
    ensures var pairs := FieldPairs(values, shareId);
            && (forall p | p in pairs :: p.0 in Utils.FlagKeys || p == ("hash", HashValue(shareId)))
            && forall i, j | 0 <= i < j < |pairs| :: pairs[i].0 != pairs[j].0
  {
    var pairs := FieldPairs(values, shareId);
    Utils.FlagKeysApart();
    Utils.FlagKeysDistinct();
    forall p | p in pairs ensures p.0 in Utils.FlagKeys || p == ("hash", HashValue(shareId)) {
      var k :| 0 <= k < |pairs| && pairs[k] == p;
      if k < 7 {
        assert p.0 == Utils.FlagKeys[k];
      }
    }
    forall i, j | 0 <= i < j < |pairs| ensures pairs[i].0 != pairs[j].0 {
      assert pairs[i].0 == Utils.FlagKeys[i];
      if j < 7 {
        assert pairs[j].0 == Utils.FlagKeys[j];
      } else {
        assert Utils.FlagKeys[i] in Utils.FlagKeys;
      }
    }
  }

  /** One entry of the posted `FormData`. */
  datatype FormEntry = TextEntry(key: string, value: string) | FileEntry(key: string, file: UploadFile)

  /** The posted form: one text entry per kept field, in order, then the
      file under `assignmentFile` (StudentSubmission.tsx:154-159). */
  function FormEntries(data: seq<(string, string)>, file: UploadFile): (r: seq<FormEntry>)
    ensures |r| == |data| + 1
    ensures r[|data|] == FileEntry("assignmentFile", file)
    ensures forall i | 0 <= i < |data| :: r[i] == TextEntry(data[i].0, data[i].1)
  {
    seq(|data|, i requires 0 <= i < |data| => TextEntry(data[i].0, data[i].1)) + [FileEntry("assignmentFile", file)]
  }

  // ------------------------------------------------------------------ labels

  predicate IsUpper(c: char)
  {
    'A' <= c <= 'Z'
  }

  /** `key.replace(/([A-Z])/g, " $1")`: a space before every capital. */
  function SpaceCapitals(key: string): string
    decreases |key|
  {
    if key == [] then []
    else (if IsUpper(key[0]) then [' ', key[0]] else [key[0]]) + SpaceCapitals(key[1..])
  }

  /** The label shown for a student field (StudentSubmission.tsx:397). */
  function LabelText(key: string): string
  {
    Trim(SpaceCapitals(key))
  }

  /** `s` with every ' ' removed. */
  function Unspaced(s: string): string
    decreases |s|
  {
    if s == [] then [] else (if s[0] == ' ' then [] else [s[0]]) + Unspaced(s[1..])
  }

  lemma {:induction false} UnspacedAppend(a: string, b: string)
    ensures Unspaced(a + b) == Unspaced(a) + Unspaced(b)
    decreases |a|
  {
    if a == [] {
      assert a + b == b;
    } else {
      assert (a + b)[0] == a[0];
      assert (a + b)[1..] == a[1..] + b;
      UnspacedAppend(a[1..], b);
    }
  }

  /** Putting spaces before capitals adds only spaces, and taking the
      spaces out again restores a key that had none. */
  lemma {:induction false} SpaceCapitalsChars(key: string)
    ensures forall c | c in SpaceCapitals(key) :: c in key || c == ' '
    ensures ' ' !in key ==> Unspaced(SpaceCapitals(key)) == key
    ensures key != [] ==> |SpaceCapitals(key)| > 0 && SpaceCapitals(key)[|SpaceCapitals(key)| - 1] == key[|key| - 1]
    decreases |key|
  {
    if key != [] {
      SpaceCapitalsChars(key[1..]);
      var head := if IsUpper(key[0]) then [' ', key[0]] else [key[0]];
      UnspacedAppend(head, SpaceCapitals(key[1..]));
      assert key == [key[0]] + key[1..];
    }
  }

  /** Trim only cuts the space that precedes a leading capital: the label
      is the spaced key, less its first character when the key starts with
      a capital. */
  lemma LabelShape(key: string)
    requires forall c | c in key :: !IsSpace(c)
    ensures LabelText(key) ==
              if key != [] && IsUpper(key[0]) then SpaceCapitals(key)[1..] else SpaceCapitals(key)
  {
    var s := SpaceCapitals(key);
    SpaceCapitalsChars(key);
    if key == [] {
      TrimTrimmed(s);
    } else {
      assert !IsSpace(key[0]) && !IsSpace(key[|key| - 1]);
      if IsUpper(key[0]) {
        var t := s[1..];
        assert t[0] == key[0];
        assert IsSpace(s[0]);
        assert LeadingSpaces(s) == 1 by {
          assert LeadingSpaces(t) == 0;
        }
        TrimTrimmed(t);
      } else {
        TrimTrimmed(s);
      }
    }
  }

  /** The label of a key without whitespace is that key with spaces put in:
      removing the spaces gives the key back. */
  lemma LabelRestoresKey(key: string)
    requires forall c | c in key :: !IsSpace(c)
    ensures Unspaced(LabelText(key)) == key
  {
    LabelShape(key);
    SpaceCapitalsChars(key);
    assert ' ' !in key by {
      assert IsSpace(' ');
    }
  }

  /** Spacing capitals works character by character. */
  lemma {:induction false} SpaceCapitalsAppend(a: string, b: string)
    ensures SpaceCapitals(a + b) == SpaceCapitals(a) + SpaceCapitals(b)
    decreases |a|
  {
    if a == [] {
      assert a + b == b;
    } else {
      assert (a + b)[0] == a[0];
      assert (a + b)[1..] == a[1..] + b;
      SpaceCapitalsAppend(a[1..], b);
    }
  }

  /** A key without capitals is spaced as it is. */
  lemma {:induction false} SpaceCapitalsNoCapitals(s: string)
    requires forall i | 0 <= i < |s| :: !IsUpper(s[i])
    ensures SpaceCapitals(s) == s
    decreases |s|
  {
    if s != [] {
      SpaceCapitalsNoCapitals(s[1..]);
    }
  }

  /** A letter in upper case followed by letters in lower case, such as
      "Roll" or "Number". */
  predicate CapitalisedWord(s: string)
  {
    |s| > 0 && IsUpper(s[0]) && forall i | 1 <= i < |s| :: 'a' <= s[i] <= 'z'
  }

  /** A capitalised word holds no whitespace. */
  lemma CapitalisedWordHasNoSpace(s: string)
    requires CapitalisedWord(s)
    ensures forall c | c in s :: !IsSpace(c)
  {
    forall c | c in s ensures !IsSpace(c) {
      var k :| 0 <= k < |s| && s[k] == c;
    }
  }

  /** A capitalised word gets one space in front. */
  lemma SpaceCapitalsWord(s: string)
    requires CapitalisedWord(s)
    ensures SpaceCapitals(s) == [' '] + s
  {
    SpaceCapitalsNoCapitals(s[1..]);
    assert s == [s[0]] + s[1..];
  }

  /** A key made of two capitalised words, such as "RollNo" or
      "PhoneNumber", is labelled with the two words apart ("Roll No",
      "Phone Number"). */
  lemma TwoWordLabel(a: string, b: string)
    requires CapitalisedWord(a) && CapitalisedWord(b)
    ensures LabelText(a + b) == a + " " + b
  {
    var key := a + b;
    CapitalisedWordHasNoSpace(a);
    CapitalisedWordHasNoSpace(b);
    assert forall c | c in key :: c in a || c in b;
    LabelShape(key);
    assert key[0] == a[0];
    SpaceCapitalsAppend(a, b);
    SpaceCapitalsWord(a);
    SpaceCapitalsWord(b);
    assert SpaceCapitals(key) == [' '] + a + [' '] + b;
    assert SpaceCapitals(key)[1..] == a + " " + b;
  }

  // -------------------------------------------------------------------- page

  /** The result of the request that loads the shared assignment. */
  datatype Fetched = Loaded(info: Record) | FetchFailed(message: Option<string>)

  /** The field a text input writes to. */
  datatype StudentField = NameField | ClassField | SectionField | RollNoField
                        | DepartmentField | EmailField | PhoneNumberField

  class StudentSubmissionPage {
    const shareId: Option<string>
    var assignment: Option<Record>
    var loading: bool
    var error: Option<string>
    var submissionStatus: Option<string>
    var uploadedFile: Option<UploadFile>
    var progress: Progress
    var fieldValues: seq<string>

    /** The page's state invariant: seven field values and a progress that
        moves in steps of 5 within 0..100. */
    predicate Valid()
      reads this
    {
      |fieldValues| == 7 && ProgressInRange(progress)
    }

    constructor (shareId: Option<string>)
      ensures Valid()
      ensures this.shareId == shareId && assignment.None? && loading && error.None?
      ensures submissionStatus.None? && uploadedFile.None?
      ensures progress == Progress(0, false) && fieldValues == ["", "", "", "", "", "", ""]
    {
      this.shareId := shareId;
      assignment := None;
      loading := true;
      error := None;
      submissionStatus := None;
      uploadedFile := None;
      progress := Progress(0, false);
      fieldValues := ["", "", "", "", "", "", ""];
    }

    /** The end of the fetch effect (StudentSubmission.tsx:72-80). */
    method Receive(result: Fetched)
      modifies this
      ensures result.Loaded? ==> assignment == Some(result.info) && error == old(error)
      ensures result.FetchFailed? ==>
                assignment == old(assignment)
                && error == Some(if result.message.Some? && result.message.value != "" then result.message.value else FetchFallback)
      ensures !loading
      ensures submissionStatus == old(submissionStatus) && uploadedFile == old(uploadedFile)
      ensures progress == old(progress) && fieldValues == old(fieldValues)
    {
      match result {
        case Loaded(info) =>
          assignment := Some(info);
        case FetchFailed(message) =>
          error := Some(if message.Some? && message.value != "" then message.value else FetchFallback);
      }
      loading := false;
    }

    /** A text input's change handler. */
    method SetField(field: StudentField, value: string)
      requires Valid()
      modifies this
      ensures Valid()
      ensures fieldValues == old(fieldValues)[FieldIndex(field) := value]
      ensures assignment == old(assignment) && error == old(error) && uploadedFile == old(uploadedFile)
      ensures progress == old(progress) && loading == old(loading) && submissionStatus == old(submissionStatus)
    {
      fieldValues := fieldValues[FieldIndex(field) := value];
    }

    /** `handleFileChange` (StudentSubmission.tsx:85-121). */
    method HandleFileChange(chosen: Option<UploadFile>)
      requires Valid()
      modifies this
      ensures Valid()
      ensures chosen.None? ==> uploadedFile.None? && error == old(error) && progress == old(progress)
      ensures chosen.Some? && Acceptable(chosen.value) ==>
                uploadedFile == chosen && error.None? && progress == Progress(0, true)
      ensures chosen.Some? && !Acceptable(chosen.value) ==>
                && uploadedFile.None? && progress == old(progress)
                && error == Some(FileVerdict(chosen.value).error)
      ensures assignment == old(assignment) && fieldValues == old(fieldValues)
      ensures loading == old(loading) && submissionStatus == old(submissionStatus)
    {
      if chosen.None? {
        uploadedFile := None;
        return;
      }
      var file := chosen.value;
      if file.mimeType == PdfType {
        if file.size <= MaxSize {
          uploadedFile := Some(file);
          error := None;
          progress := Progress(0, true);
        } else {
          uploadedFile := None;
          error := Some(SizeError);
        }
      } else {
        uploadedFile := None;
        error := Some(TypeError);
      }
    }

    /** One run of the interval callback (StudentSubmission.tsx:98-107). */
    method ProgressTick()
      requires Valid()
      modifies this
      ensures Valid()
      ensures progress == Tick(old(progress))
      ensures uploadedFile == old(uploadedFile) && error == old(error) && fieldValues == old(fieldValues)
      ensures assignment == old(assignment) && loading == old(loading) && submissionStatus == old(submissionStatus)
    {
      if progress.percent >= 100 {
        progress := Progress(100, false);
      } else {
        progress := progress.(percent := progress.percent + 5);
      }
    }

    /** `handleFormSubmit` up to the request (StudentSubmission.tsx:123-166):
        without a file it stops with an error; otherwise it returns the
        form data it posts. */
    method FormSubmit() returns (form: Option<seq<FormEntry>>)
      requires Valid()
      modifies this
      ensures Valid()
      ensures old(uploadedFile).None? ==>
                form.None? && error == Some(MissingFileError) && submissionStatus.None? && !loading
      ensures old(uploadedFile).Some? ==>
                && form == Some(FormEntries(SelectFields(assignment, FieldPairs(fieldValues, shareId)), old(uploadedFile).value))
                && error.None? && submissionStatus == Some("submitting") && loading
      ensures uploadedFile == old(uploadedFile) && assignment == old(assignment)
      ensures fieldValues == old(fieldValues) && progress == old(progress)
    {
      loading := true;
      submissionStatus := Some("submitting");
      error := None;
      if uploadedFile.None? {
        error := Some(MissingFileError);
        submissionStatus := None;
        loading := false;
        return None;
      }
      var pairs := FieldPairs(fieldValues, shareId);
      var data: seq<(string, string)> := [];
      for i := 0 to |pairs|
        invariant data == SelectFields(assignment, pairs[..i])
      {
        assert pairs[..i + 1][..i] == pairs[..i];
        if Selected(assignment, pairs[i].0) {
          data := data + [pairs[i]];
        }
      }
      assert pairs[..|pairs|] == pairs;
      var entries: seq<FormEntry> := [];
      for i := 0 to |data|
        invariant |entries| == i
        invariant forall j | 0 <= j < i :: entries[j] == TextEntry(data[j].0, data[j].1)
      {
        entries := entries + [TextEntry(data[i].0, data[i].1)];
      }
      entries := entries + [FileEntry("assignmentFile", uploadedFile.value)];
      assert entries == FormEntries(data, uploadedFile.value);
      form := Some(entries);
    }

    /** The end of the submit request (StudentSubmission.tsx:175-191). */
    method SubmitFinished(succeeded: bool, apiMessage: Option<string>)
      modifies this
      ensures succeeded ==> submissionStatus == Some("success") && error == old(error)
      ensures !succeeded ==>
                submissionStatus == Some("error")
                && error == Some(if apiMessage.Some? && apiMessage.value != "" then apiMessage.value else SubmitFallback)
      ensures !loading
      ensures uploadedFile == old(uploadedFile) && assignment == old(assignment)
      ensures fieldValues == old(fieldValues) && progress == old(progress)
    {
      if succeeded {
        submissionStatus := Some("success");
      } else {
        submissionStatus := Some("error");
        error := Some(if apiMessage.Some? && apiMessage.value != "" then apiMessage.value else SubmitFallback);
      }
      loading := false;
    }
  }

  /** Position of a student field among Name..PhoneNumber. */
  function FieldIndex(field: StudentField): (i: nat)
    ensures i < 7
  {
    match field
    case NameField => 0
    case ClassField => 1
    case SectionField => 2
    case RollNoField => 3
    case DepartmentField => 4
    case EmailField => 5
    case PhoneNumberField => 6
  }
}

// The profile form (Social-Good-Juba-main/client/src/pages/Profile.js): the
// client-side check of a document before it is uploaded, the comma-separated
// list fields, and the form state that every input change updates.

module ProfileForm {
  import opened Common
  import opened Profiles

  /** The page's own limit: 5 MB. */
  const MaxFileSize: nat := 5 * 1024 * 1024
  /** The MIME types the page lets through. */
  const FileTypes: seq<string> := ["application/pdf", "image/jpeg", "image/png", "image/jpg"]

  /**
   * `validateFile(file, type)`: no message without a file; a file over 5 MB
   * is refused for its size before its type is looked at; then a type
   * outside the list is refused.
   */
  function ValidateFile(file: Option<UploadedFile>, what: string): (r: Option<string>)
    ensures file.None? ==> r.None?
    ensures file.Some? && file.value.size > MaxFileSize ==>
      r == Some(what + " file size must be less than 5MB")
    ensures file.Some? && file.value.size <= MaxFileSize && file.value.mimeType !in FileTypes ==>
      r == Some(what + " must be a PDF, JPG, JPEG, or PNG file")
    ensures r.None? <==> file.None? || (file.value.size <= MaxFileSize && file.value.mimeType in FileTypes)
  {
    if file.None? then None
    else if file.value.size > MaxFileSize then Some(what + " file size must be less than 5MB")
    else if file.value.mimeType !in FileTypes then Some(what + " must be a PDF, JPG, JPEG, or PNG file")
    else None
  }

  /** The page lets a file through exactly when the server's upload filter would accept it. */
  lemma ClientCheckMatchesServer(f: UploadedFile, what: string)
    ensures ValidateFile(Some(f), what).None? <==> AcceptedUpload(f)
  {
  }

  /** A list item as the form stores it: not empty, no surrounding white space, no comma. */
  predicate CleanItem(x: string)
  {
    x != [] && !IsSpace(x[0]) && !IsSpace(x[|x| - 1]) && ',' !in x
  }

  /** Trimming never brings in a character that was not there. */
  lemma TrimKeepsOut(p: string, c: char)
    requires c !in p
    ensures c !in Trim(p)
  {
    var t := Trim(p);
    var k :| SpaceFramed(p, t, k);
    forall i | 0 <= i < |t| ensures t[i] != c {
      assert t[i] == p[k + i];
    }
  }

  /** A trimmed comma-free piece is empty or a clean item. */
  lemma TrimmedPieceClean(p: string)
    requires ',' !in p
    ensures Trim(p) == "" || CleanItem(Trim(p))
  {
    TrimKeepsOut(p, ',');
  }

  /** `parts.map(item => item.trim()).filter(item => item)`. */
  function TrimmedItems(parts: seq<string>): (r: seq<string>)
    requires forall p :: p in parts ==> ',' !in p
    ensures forall x :: x in r ==> CleanItem(x)
    ensures |r| <= |parts|
  {
    if parts == [] then []
    else
      assert parts[0] in parts;
      TrimmedPieceClean(parts[0]);
      assert forall p :: p in parts[1..] ==> p in parts;
      var rest := TrimmedItems(parts[1..]);
      if Trim(parts[0]) != "" then [Trim(parts[0])] + rest else rest
  }

  /** An item is kept exactly when it is the non-empty trim of some part. */
  lemma {:induction false} TrimmedItemsMembers(parts: seq<string>, x: string)
    requires forall p :: p in parts ==> ',' !in p
    ensures x in TrimmedItems(parts) <==> x != "" && exists p :: p in parts && Trim(p) == x
  {
    if parts != [] {
      assert forall p :: p in parts[1..] ==> p in parts;
      TrimmedItemsMembers(parts[1..], x);
      assert forall p :: p in parts <==> p == parts[0] || p in parts[1..];
    }
  }

  /** `handleArrayChange`'s array: split on ',', trim each item and drop the empty ones. */
  function ArrayField(value: string): (r: seq<string>)
    ensures forall x :: x in r ==> CleanItem(x)
  {
    TrimmedItems(Split(value, ','))
  }

  /** A value of the list is kept exactly when it is the non-empty trim of one of the comma-separated pieces. */
  lemma ArrayFieldMembers(value: string, x: string)
    ensures x in ArrayField(value) <==> x != "" && exists p :: p in Split(value, ',') && Trim(p) == x
  {
    TrimmedItemsMembers(Split(value, ','), x);
  }

  lemma TrimClean(x: string)
    requires CleanItem(x)
    ensures Trim(x) == x
  {
  }

  lemma {:induction false} TrimmedItemsKeepsClean(items: seq<string>)
    requires forall x :: x in items ==> CleanItem(x)
    requires forall x :: x in items ==> ',' !in x
    ensures TrimmedItems(items) == items
  {
    if items != [] {
      TrimClean(items[0]);
      assert forall x :: x in items[1..] ==> x in items;
      TrimmedItemsKeepsClean(items[1..]);
    }
  }

  /** Writing clean items back as "a, b, c"-style text without spaces and parsing it gives the same items. */
  lemma ArrayFieldRoundTrip(items: seq<string>)
    requires forall x :: x in items ==> CleanItem(x)
    ensures ArrayField(Join(items, ',')) == items
  {
    if items == [] {
      assert Split("", ',') == [""];
    } else {
      assert forall x :: x in items ==> ',' !in x by {
        forall x | x in items ensures ',' !in x {
          assert CleanItem(x);
        }
      }
      JoinSplit(items, ',');
      TrimmedItemsKeepsClean(items);
    }
  }

  /** Parsing is idempotent: the stored list, joined and parsed again, is unchanged. */
  lemma ArrayFieldIdempotent(value: string)
    ensures ArrayField(Join(ArrayField(value), ',')) == ArrayField(value)
  {
    ArrayFieldRoundTrip(ArrayField(value));
  }

  /** `type === 'checkbox' ? checked : value`. */
  function InputValue(inputType: string, value: string, checked: bool): (v: JsValue)
    ensures inputType == "checkbox" <==> v.Bool?
    ensures v.Bool? ==> v.b == checked
    ensures !v.Bool? ==> v == Str(value)
  {
    if inputType == "checkbox" then Bool(checked) else Str(value)
  }

  /** The form's initial fields. */
  const InitialForm: map<string, JsValue> := map[
    "first_name" := Str(""), "last_name" := Str(""), "phone" := Str(""), "address" := Str(""),
    "date_of_birth" := Str(""), "gender" := Str(""), "education_level" := Str(""),
    "employment_status" := Str(""), "profile_picture_url" := Str(""), "bio" := Str(""),
    "experience_years" := Str(""), "hourly_rate_min" := Str(""), "hourly_rate_max" := Str(""),
    "service_areas" := List([]), "languages_spoken" := List([]),
    "transportation_available" := Bool(false), "insurance_coverage" := Bool(false)
  ]

  /** The page's form data and its per-document upload messages. */
  class ProfileFormState {
    var formData: map<string, JsValue>
    var uploadErrors: map<string, Option<string>>

    constructor ()
      ensures formData == InitialForm && uploadErrors == map[]
    {
      formData := InitialForm;
      uploadErrors := map[];
    }

    /** `handleInputChange`: only the named field changes. */
    method HandleInputChange(name: string, value: string, inputType: string, checked: bool)
      modifies this
      ensures formData == old(formData)[name := InputValue(inputType, value, checked)]
      ensures uploadErrors == old(uploadErrors)
    {
      formData := formData[name := InputValue(inputType, value, checked)];
    }

    /** `handleArrayChange`: the named field becomes the parsed list; nothing else changes. */
    method HandleArrayChange(name: string, value: string)
      modifies this
      ensures formData == old(formData)[name := List(ArrayField(value))]
      ensures uploadErrors == old(uploadErrors)
    {
      formData := formData[name := List(ArrayField(value))];
    }

    /**
     * The check at the start of `handleFileUpload`: the message of
     * `validateFile` with the document type in capitals is stored under the
     * document type, and the upload goes ahead only without one.
     */
    method CheckUpload(file: Option<UploadedFile>, documentType: string) returns (proceed: bool)
      modifies this
      ensures proceed <==> ValidateFile(file, Upper(documentType)).None?
      ensures uploadErrors == old(uploadErrors)[documentType := ValidateFile(file, Upper(documentType))]
      ensures formData == old(formData)
    {
      var fileError := ValidateFile(file, Upper(documentType));
      uploadErrors := uploadErrors[documentType := fileError];
      proceed := fileError.None?;
    }
  }
}

// Freelancer profiles: becoming a freelancer (Social-Good-Juba-main/server/routes/users.js)
// and the profile routes of Social-Good-Juba-main/server/routes/profile.js, i.e. the
// profile update with its field normalisation, and the `documents` map kept by the
// document upload and delete routes.

module Profiles {
  import opened Common
  import opened JobTables
  import opened Users

  /** One entry of a profile's `documents` map. */
  datatype Document = Document(url: string, uploadedAt: int, fileName: string, fileSize: nat)

  /** A row of `freelancer_profiles`: its free-form columns, its documents and its approval status. */
  datatype FreelancerProfile = FreelancerProfile(
    userId: UserId,
    fields: map<string, JsValue>,
    documents: Option<map<string, Document>>,
    approval: ApprovalStatus)

  /** The file multer hands to the upload route. */
  datatype UploadedFile = UploadedFile(originalName: string, mimeType: string, size: nat)

  datatype ProfileError =
    | ProfileExists         // 400
    | UserUpdateFailed      // 400: no user row to update
    | FileRejected          // 500: multer refused the file before the route ran
    | NoFile                // 400
    | InvalidDocumentType   // 400
    | DocumentNotFound      // 404

  function ProfileHttpStatus(e: ProfileError): (code: int)
    ensures code == 404 <==> e == DocumentNotFound
    ensures code == 500 <==> e == FileRejected
    ensures code == 400 <==> e != DocumentNotFound && e != FileRejected
  {
    match e
    case DocumentNotFound => 404
    case FileRejected => 500
    case _ => 400
  }

  // ---------------------------------------------------------------------
  // Uploads

  const MaxUploadBytes: nat := 5 * 1024 * 1024
  const AllowedMimeTypes: seq<string> := ["application/pdf", "image/jpeg", "image/png", "image/jpg"]
  const DocumentTypes: seq<string> := ["cv", "police_clearance"]
  /** The extensions the delete route removes from storage. */
  const StoredExtensions: seq<string> := [".pdf", ".jpg", ".jpeg", ".png"]

  /** multer's limits and file filter: an allowed MIME type of at most 5 MB. */
  predicate AcceptedUpload(f: UploadedFile)
  {
    f.mimeType in AllowedMimeTypes && f.size <= MaxUploadBytes
  }

  /** Index of the last occurrence of `c` in `s`, or -1. */
  function LastIndexOf(s: string, c: char): (k: int)
    ensures -1 <= k < |s|
    ensures k >= 0 ==> s[k] == c
    ensures forall i :: k < i < |s| ==> s[i] != c
  {
    if s == [] then -1
    else if s[|s| - 1] == c then |s| - 1
    else LastIndexOf(s[..|s| - 1], c)
  }

  /**
   * `path.extname` of a file name without '/': from the last '.' to the end,
   * except that a name with no dot, a name whose only dot leads it, and ".."
   * have no extension.
   */
  function ExtName(name: string): (r: string)
    ensures r == [] || (r[0] == '.' && '.' !in r[1..] && EndsWith(name, r) && |r| < |name|)
    ensures '.' !in name ==> r == []
  {
    var k := LastIndexOf(name, '.');
    if k <= 0 || name == ".." then ""
    else
      name[k..]
  }

  /** The storage key `<userId>/<document_type><ext>`. */
  function DocumentPath(userId: UserId, documentType: string, originalName: string): (p: string)
    ensures p == NatToString(userId) + "/" + documentType + ExtName(originalName)
    ensures EndsWith(p, ExtName(originalName))
  {
    NatToString(userId) + "/" + documentType + ExtName(originalName)
  }

  /** The keys become-freelancer copies from the request body. */
  const ApplicationKeys: set<string> :=
    {"bio", "experience_years", "service_areas", "hourly_rate_min", "hourly_rate_max", "certifications", "coverage_areas"}

  /** The columns of `users` the profile update writes besides phone and address. */
  const PersonalKeys: set<string> :=
    {"first_name", "last_name", "date_of_birth", "gender", "education_level", "employment_status", "profile_picture_url"}

  /** The submitted values for `keys`, without the undefined ones (which JSON drops). */
  function Submitted(body: map<string, JsValue>, keys: set<string>): (r: map<string, JsValue>)
    ensures forall k :: k in r <==> k in keys && k in body && body[k] != Missing
    ensures forall k :: k in r ==> r[k] == body[k]
  {
    map k | k in body && k in keys && body[k] != Missing :: body[k]
  }

  // ---------------------------------------------------------------------
  // Profile update normalisation

  /** Value of a non-empty string of ASCII digits. */
  function DigitsValue(s: string): (n: nat)
    requires forall i :: 0 <= i < |s| ==> '0' <= s[i] <= '9'
  {
    if s == [] then 0 else 10 * DigitsValue(s[..|s| - 1]) + (s[|s| - 1] as int - '0' as int)
  }

  /** `parseInt`/`parseFloat` on a submitted number: a number, a digit string, or NaN (stored as null). */
  function ParseNumber(v: JsValue): (r: JsValue)
    ensures r.Num? || r == Null
    ensures v.Num? ==> r == v
  {
    match v
    case Num(n) => Num(n)
    case Str(s) => if s != [] && forall i :: 0 <= i < |s| ==> '0' <= s[i] <= '9' then Num(DigitsValue(s)) else Null
    case _ => Null
  }

  /** `v || null`. */
  function OrNull(v: JsValue): (r: JsValue)
    ensures Truthy(v) ==> r == v
    ensures !Truthy(v) ==> r == Null
  {
    if Truthy(v) then v else Null
  }

  /** `v ? parse(v) : null`. */
  function NumberOrNull(v: JsValue): (r: JsValue)
    ensures !Truthy(v) ==> r == Null
    ensures Truthy(v) ==> r == ParseNumber(v)
  {
    if Truthy(v) then ParseNumber(v) else Null
  }

  /** `Array.isArray(v) ? v : []`. */
  function ListOrEmpty(v: JsValue): (r: JsValue)
    ensures r.List?
    ensures v.List? ==> r == v
    ensures !v.List? ==> r == List([])
  {
    if v.List? then v else List([])
  }

  /** `v || false`. */
  function OrFalse(v: JsValue): (r: JsValue)
    ensures Truthy(v) ==> r == v
    ensures !Truthy(v) ==> r == Bool(false)
  {
    if Truthy(v) then v else Bool(false)
  }

  function Field(body: map<string, JsValue>, key: string): JsValue
  {
    if key in body then body[key] else Missing
  }

  /** The columns of `freelancerData`, grouped by how the update normalises them. */
  const NumberFields: set<string> := {"experience_years", "hourly_rate_min", "hourly_rate_max"}
  const ListFields: set<string> := {"service_areas", "languages_spoken"}
  const FlagFields: set<string> := {"transportation_available", "insurance_coverage"}
  const FreelancerFields: set<string> := {"bio"} + NumberFields + ListFields + FlagFields

  /** How the update writes one column: numbers parsed or null, lists or [], flags or false, the bio or null. */
  function Normalise(key: string, v: JsValue): (r: JsValue)
    ensures key in NumberFields ==> r == NumberOrNull(v)
    ensures key in ListFields ==> r == ListOrEmpty(v)
    ensures key in FlagFields ==> r == OrFalse(v)
    ensures key == "bio" ==> r == OrNull(v)
  {
    if key in NumberFields then NumberOrNull(v)
    else if key in ListFields then ListOrEmpty(v)
    else if key in FlagFields then OrFalse(v)
    else OrNull(v)
  }

  /** The `freelancerData` object of the profile update: each of its eight columns, normalised from the body. */
  function FreelancerData(body: map<string, JsValue>): (r: map<string, JsValue>)
    ensures r.Keys == FreelancerFields
    ensures forall k :: k in r ==> r[k] == Normalise(k, Field(body, k))
  {
    map k | k in FreelancerFields :: Normalise(k, Field(body, k))
  }

  /** Every normalised value is of the column's shape: missing numbers and text become null, lists lists, flags false. */
  lemma FreelancerDataShapes(body: map<string, JsValue>)
    ensures var r := FreelancerData(body);
      forall k :: k in r ==>
        && (k in NumberFields ==> r[k].Num? || r[k] == Null)
        && (k in ListFields ==> r[k].List?)
        && (k in FlagFields ==> r[k] == Bool(false) || Truthy(r[k]))
        && (k == "bio" ==> r[k] == Null || Truthy(r[k]))
  {
  }

  /** An empty body gives nulls, empty lists and false flags. */
  lemma EmptyBodyDefaults()
    ensures var r := FreelancerData(map[]);
      forall k :: k in r ==>
        && (k in NumberFields || k == "bio" ==> r[k] == Null)
        && (k in ListFields ==> r[k] == List([]))
        && (k in FlagFields ==> r[k] == Bool(false))
  {
  }

  /** Position of the user with this id, or `|users|`. */
  function UserIndex(users: seq<User>, id: UserId): (k: nat)
    ensures k <= |users|
    ensures k < |users| ==> users[k].id == id
    ensures forall i :: 0 <= i < k ==> users[i].id != id
  {
    if users == [] || users[0].id == id then 0 else 1 + UserIndex(users[1..], id)
  }

  /** The user row after the profile update: submitted columns overwrite, undefined ones stay. */
  function UpdatedPersonal(u: User, phone: Option<string>, address: Option<string>, body: map<string, JsValue>): (r: User)
    ensures r.phone == (if phone.Some? then phone else u.phone)
    ensures r.address == (if address.Some? then address else u.address)
    ensures r.personal == u.personal + Submitted(body, PersonalKeys)
    ensures r.(phone := u.phone, address := u.address, personal := u.personal) == u
  {
    u.(phone := if phone.Some? then phone else u.phone,
       address := if address.Some? then address else u.address,
       personal := u.personal + Submitted(body, PersonalKeys))
  }

  /** The `freelancer_profiles` table (one row per user: the upload route upserts on `user_id`) and the document bucket. */
  class ProfileBook {
    var profiles: map<UserId, FreelancerProfile>
    var storage: set<string>
    const publicBase: string

    ghost predicate Valid()
      reads this
    {
      forall u :: u in profiles ==> profiles[u].userId == u
    }

    constructor (publicBase: string)
      ensures Valid() && profiles == map[] && storage == {} && this.publicBase == publicBase
    {
      this.profiles, this.storage, this.publicBase := map[], {}, publicBase;
    }

    /**
     * POST /become-freelancer: refused when the caller already has a
     * profile; otherwise a profile holding the submitted application fields,
     * approved at once.
     */
    method BecomeFreelancer(caller: UserId, body: map<string, JsValue>) returns (r: Result<FreelancerProfile, ProfileError>)
      requires Valid()
      modifies this
      ensures Valid()
      ensures caller in old(profiles) ==> r == Err(ProfileExists) && unchanged(this)
      ensures caller !in old(profiles) ==>
        && r == Ok(FreelancerProfile(caller, Submitted(body, ApplicationKeys), None, Approved))
        && profiles == old(profiles)[caller := r.value]
        && storage == old(storage)
    {
      if caller in profiles {
        return Err(ProfileExists);
      }
      var p := FreelancerProfile(caller, Submitted(body, ApplicationKeys), None, Approved);
      profiles := profiles[caller := p];
      r := Ok(p);
    }

    /**
     * PUT /api/profile: writes the user's submitted columns; for a
     * freelancer, also writes the normalised freelancer fields into the
     * profile (creating a pending one if none exists), keeping the
     * documents and the approval status.
     */
    method UpdateProfile(dir: UserDirectory, caller: UserId, phone: Option<string>, address: Option<string>,
                         body: map<string, JsValue>) returns (r: Result<User, ProfileError>)
      requires Valid() && dir.Valid()
      modifies this, dir
      ensures Valid() && dir.Valid()
      ensures UserIndex(old(dir.users), caller) == |old(dir.users)| ==>
        r == Err(UserUpdateFailed) && unchanged(this) && unchanged(dir)
      ensures UserIndex(old(dir.users), caller) < |old(dir.users)| ==>
        var k := UserIndex(old(dir.users), caller);
        && r == Ok(UpdatedPersonal(old(dir.users)[k], phone, address, body))
        && dir.users == old(dir.users)[k := r.value] && dir.nextId == old(dir.nextId)
        && storage == old(storage)
        && (r.value.role != FreelancerRole ==> profiles == old(profiles))
        && (r.value.role == FreelancerRole && caller in old(profiles) ==>
              profiles == old(profiles)[caller := old(profiles)[caller].(fields := old(profiles)[caller].fields + FreelancerData(body))])
        && (r.value.role == FreelancerRole && caller !in old(profiles) ==>
              profiles == old(profiles)[caller := FreelancerProfile(caller, FreelancerData(body), None, ApprovalPending)])
    {
      var k := UserIndex(dir.users, caller);
      if k == |dir.users| {
        return Err(UserUpdateFailed);
      }
      var user := UpdatedPersonal(dir.users[k], phone, address, body);
      ReplaceKeepsConsistent(dir.users, dir.nextId, k, user);
      dir.users := dir.users[k := user];
      r := Ok(user);
      if user.role == FreelancerRole {
        WriteFreelancerFields(caller, body);
      }
    }

    /** The freelancer half of the profile update: merge the normalised fields, or open a pending profile with them. */
    method WriteFreelancerFields(caller: UserId, body: map<string, JsValue>)
      requires Valid()
      modifies this
      ensures Valid() && storage == old(storage)
      ensures caller in old(profiles) ==>
        profiles == old(profiles)[caller := old(profiles)[caller].(fields := old(profiles)[caller].fields + FreelancerData(body))]
      ensures caller !in old(profiles) ==>
        profiles == old(profiles)[caller := FreelancerProfile(caller, FreelancerData(body), None, ApprovalPending)]
    {
      if caller in profiles {
        var p := profiles[caller];
        profiles := profiles[caller := p.(fields := p.fields + FreelancerData(body))];
      } else {
        profiles := profiles[caller := FreelancerProfile(caller, FreelancerData(body), None, ApprovalPending)];
      }
    }

    /** The documents map the upload route starts from: the profile's, or `{}`. */
    function CurrentDocuments(user: UserId): (d: map<string, Document>)
      reads this
      ensures user in profiles && profiles[user].documents.Some? ==> d == profiles[user].documents.value
      ensures !(user in profiles && profiles[user].documents.Some?) ==> d == map[]
    {
      if user in profiles && profiles[user].documents.Some? then profiles[user].documents.value else map[]
    }

    /**
     * POST /upload-document: the file must pass multer's filter, be
     * present, and carry type `cv` or `police_clearance`; it is stored at
     * `<userId>/<type><ext>` and recorded under its type in the documents
     * map, whose other entries are kept.
     */
    method UploadDocument(caller: UserId, file: Option<UploadedFile>, documentType: Option<string>, now: int)
      returns (r: Result<Document, ProfileError>)
      requires Valid()
      modifies this
      ensures Valid()
      ensures file.Some? && !AcceptedUpload(file.value) ==> r == Err(FileRejected) && unchanged(this)
      ensures file.None? ==> r == Err(NoFile) && unchanged(this)
      ensures file.Some? && AcceptedUpload(file.value) && !(documentType.Some? && documentType.value in DocumentTypes) ==>
        r == Err(InvalidDocumentType) && unchanged(this)
      ensures file.Some? && AcceptedUpload(file.value) && documentType.Some? && documentType.value in DocumentTypes ==>
        var path := DocumentPath(caller, documentType.value, file.value.originalName);
        && r == Ok(Document(publicBase + path, now, file.value.originalName, file.value.size))
        && storage == old(storage) + {path}
        && caller in profiles
        && profiles[caller].documents == Some(old(CurrentDocuments(caller))[documentType.value := r.value])
        && (caller in old(profiles) ==>
              profiles == old(profiles)[caller := old(profiles)[caller].(documents := profiles[caller].documents)])
        && (caller !in old(profiles) ==>
              profiles == old(profiles)[caller := FreelancerProfile(caller, map[], profiles[caller].documents, ApprovalPending)])
    {
      if file.Some? && !AcceptedUpload(file.value) {
        return Err(FileRejected);
      }
      if file.None? {
        return Err(NoFile);
      }
      if !(documentType.Some? && documentType.value in DocumentTypes) {
        return Err(InvalidDocumentType);
      }
      var f := file.value;
      var path := DocumentPath(caller, documentType.value, f.originalName);
      storage := storage + {path};
      var doc := Document(publicBase + path, now, f.originalName, f.size);
      var documents := CurrentDocuments(caller)[documentType.value := doc];
      if caller in profiles {
        profiles := profiles[caller := profiles[caller].(documents := Some(documents))];
      } else {
        profiles := profiles[caller := FreelancerProfile(caller, map[], Some(documents), ApprovalPending)];
      }
      r := Ok(doc);
    }

    /**
     * DELETE /delete-document/:document_type: an invalid type is refused,
     * a missing document is 404; otherwise the four possible stored files
     * are removed and exactly that key leaves the documents map.
     */
    method DeleteDocument(caller: UserId, documentType: string) returns (r: Result<(), ProfileError>)
      requires Valid()
      modifies this
      ensures Valid()
      ensures documentType !in DocumentTypes ==> r == Err(InvalidDocumentType) && unchanged(this)
      ensures documentType in DocumentTypes && documentType !in old(CurrentDocuments(caller)) ==>
        r == Err(DocumentNotFound) && unchanged(this)
      ensures documentType in DocumentTypes && documentType in old(CurrentDocuments(caller)) ==>
        && r == Ok(())
        && caller in old(profiles)
        && storage == old(storage) - (set e | e in StoredExtensions :: NatToString(caller) + "/" + documentType + e)
        && profiles == old(profiles)[caller := old(profiles)[caller].(documents := Some(old(CurrentDocuments(caller)) - {documentType}))]
    {
      if documentType !in DocumentTypes {
        return Err(InvalidDocumentType);
      }
      var documents := CurrentDocuments(caller);
      if documentType !in documents {
        return Err(DocumentNotFound);
      }
      var i := 0;
      while i < |StoredExtensions|
        invariant 0 <= i <= |StoredExtensions|
        invariant storage == old(storage) - (set e | e in StoredExtensions[..i] :: NatToString(caller) + "/" + documentType + e)
        invariant profiles == old(profiles)
      {
        storage := storage - {NatToString(caller) + "/" + documentType + StoredExtensions[i]};
        assert StoredExtensions[..i + 1] == StoredExtensions[..i] + [StoredExtensions[i]];
        i := i + 1;
      }
      assert StoredExtensions[..i] == StoredExtensions;
      profiles := profiles[caller := profiles[caller].(documents := Some(documents - {documentType}))];
      r := Ok(());
    }
  }

  /** Uploading then deleting a document type removes it again and leaves the other entries as they were. */
  lemma UploadThenDelete(docs: map<string, Document>, t: string, d: Document)
    requires t !in docs
    ensures docs[t := d] - {t} == docs
  {
  }
}

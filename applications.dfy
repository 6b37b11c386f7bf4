/**
 * The certification application record (models/application.py): the
 * candidate's personal data, scheme, uploaded documents and declarations,
 * the `state` selection (draft, submitted, verified), the `current_step`
 * cursor of the candidate's wizard, and the two admin actions.
 */
module Applications {
  import opened Wrappers

  datatype AppState = Draft | Submitted | Verified

  /** The key the `state` selection stores for each value. */
  function StateKey(s: AppState): string
  {
    match s
    case Draft => "draft"
    case Submitted => "submitted"
    case Verified => "verified"
  }

  /** Distinct states are stored under distinct keys. */
  lemma StateKeyInjective(s: AppState, t: AppState)
    ensures StateKey(s) == StateKey(t) <==> s == t
  {
  }

  datatype Scheme = Level1 | Level2
  datatype AppType = NewCert | Recert

  /** The document fields the candidate uploads in step 3. */
  datatype DocField =
    | CvFile | PasFoto | KtpFile | IjazahFile | IshiharaTest | SkckFile | TrainingCert
    | PreviousCertFile | LogbookFile | CertLevel1File | AdditionalFile

  type Blob = seq<bv8>

  /** The step-1 fields (personal data). */
  datatype PersonalData = PersonalData(
    nik: Option<string>,
    birthDate: Option<string>,
    placeOfBirth: Option<string>,
    lastEducation: Option<string>,
    phone: Option<string>,
    address: Option<string>,
    nationality: Option<nat>,
    specialNeeds: bool,
    specialNeedsDesc: Option<string>)

  /** The three step-4 declarations. */
  datatype Declarations = Declarations(compliance: bool, truth: bool, liability: bool)

  /** Every column of an application the model keeps, as one value. */
  datatype AppRecord = AppRecord(
    state: AppState,
    /** How far the wizard got: 1 personal data, 2 scheme, 3 documents, 4 done. */
    currentStep: int,
    scheme: Option<Scheme>,
    appType: Option<AppType>,
    previousCertNumber: Option<string>,
    personal: PersonalData,
    files: map<DocField, Blob>,
    declarations: Declarations,
    signature: Option<string>,
    adminNote: Option<string>)

  /** A `certification.application` record. */
  class Application {
    const partner: nat
    var state: AppState
    var currentStep: int
    var scheme: Option<Scheme>
    var appType: Option<AppType>
    var previousCertNumber: Option<string>
    var personal: PersonalData
    var files: map<DocField, Blob>
    var declarations: Declarations
    var signature: Option<string>
    var adminNote: Option<string>

    ghost function Record(): AppRecord
      reads this
    {
      AppRecord(state, currentStep, scheme, appType, previousCertNumber, personal, files,
                declarations, signature, adminNote)
    }

    /**
     * `create(vals)` with the step-1 values: the given state (`draft` unless
     * the caller names one) and personal data; every other column takes its default (`current_step` 1, type
     * `new`, no scheme, no documents, no declarations).
     */
    constructor (partner: nat, personal: PersonalData, state: AppState := Draft)
      ensures this.partner == partner
      ensures Record() == AppRecord(state, 1, None, Some(NewCert), None, personal, map[],
                                    Declarations(false, false, false), None, None)
    {
      this.partner := partner;
      this.state := state;
      currentStep := 1;
      scheme := None;
      appType := Some(NewCert);
      previousCertNumber := None;
      this.personal := personal;
      files := map[];
      declarations := Declarations(false, false, false);
      signature := None;
      adminNote := None;
    }

    /** `action_verify_documents`: verified, from any state. */
    method VerifyDocuments()
      modifies this
      ensures Record() == old(Record()).(state := Verified)
    {
      state := Verified;
    }

    /** `action_request_revision`: back to draft, from any state, whatever the admin note. */
    method RequestRevision()
      modifies this
      ensures Record() == old(Record()).(state := Draft)
    {
      state := Draft;
    }
  }
}

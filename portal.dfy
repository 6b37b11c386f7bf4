/**
 * The candidate portal's application wizard (controllers/main.py): which
 * page each request is sent to, decided from whether the candidate has an
 * application, its state, its `current_step` and the `edit` flag; and what
 * the step handlers write onto the candidate's application.
 *
 * The `edit` flag is true when the request carries a non-empty `edit`
 * parameter. Each handler first looks the candidate's application up by
 * partner; the table of applications is kept in creation order, which is
 * the order that lookup returns them in.
 */
module Portal {
  import opened Wrappers
  import opened Applications

  /** A redirect to another route, or a rendered page. */
  datatype Response =
    | ToWizard | ToStatus | ToStep2 | ToStep3 | ToStep4
    | ShowWizard | ShowStatus | ShowStep2 | ShowStep3 | ShowStep4

  // ---------------------------------------------------------------------
  // Routing decisions
  // ---------------------------------------------------------------------

  /** `application_status`. */
  function StatusRoute(exists_: bool, state: AppState): Response
  {
    if !exists_ || StateKey(state) == "draft" then ToWizard else ShowStatus
  }

  /**
   * `certification_wizard`: the response, and whether the branch that writes
   * `state = draft` on an application in state `revision` ran.
   */
  function WizardDecision(exists_: bool, state: AppState, step: int, edit: bool): (Response, bool)
  {
    if exists_ && edit && StateKey(state) == "revision" then
      if step >= 3 then (ToStep3, true)
      else if step == 2 then (ToStep2, true)
      else (ShowWizard, true)
    else if exists_ && !edit then
      if StateKey(state) != "draft" then (ToStatus, false)
      else if step == 2 then (ToStep2, false)
      else if step == 3 then (ToStep3, false)
      else if step >= 4 then (ToStep4, false)
      else (ShowWizard, false)
    else (ShowWizard, false)
  }

  /** `step2_page`. */
  function Step2Route(exists_: bool, step: int, edit: bool): Response
  {
    if !exists_ then ToWizard
    else if step == 3 && !edit then ToStep3
    else ShowStep2
  }

  /** `step3_page`. */
  function Step3Route(exists_: bool, step: int, edit: bool): Response
  {
    if !exists_ then ToWizard
    else if step == 4 && !edit then ToStep4
    else ShowStep3
  }

  /** The status page is shown exactly for an existing application that is not in draft. */
  lemma StatusRouteSpec(exists_: bool, state: AppState)
    ensures StatusRoute(exists_, state) == ShowStatus <==> exists_ && state != Draft
    ensures StatusRoute(exists_, state) == ToWizard <==> !exists_ || state == Draft
  {
    StateKeyInjective(state, Draft);
  }

  /**
   * The wizard's `revision` branch never runs: no state is stored under the
   * key `revision`, so the wizard never writes the state.
   */
  lemma RevisionBranchUnreachable(exists_: bool, state: AppState, step: int, edit: bool)
    ensures StateKey(state) != "revision"
    ensures !WizardDecision(exists_, state, step, edit).1
  {
  }

  /**
   * Without the edit flag: a non-draft application goes to the status page;
   * a draft one to the page of its step (2, 3, 4 and beyond); otherwise, and
   * always with the edit flag, the wizard page is shown.
   */
  lemma WizardRouteSpec(exists_: bool, state: AppState, step: int, edit: bool)
    ensures var r := WizardDecision(exists_, state, step, edit).0;
      && (exists_ && !edit && state != Draft ==> r == ToStatus)
      && (exists_ && !edit && state == Draft ==>
            r == (if step == 2 then ToStep2 else if step == 3 then ToStep3 else if step >= 4 then ToStep4 else ShowWizard))
      && (!exists_ || edit ==> r == ShowWizard)
  {
    StateKeyInjective(state, Draft);
  }

  /** `step4_page`: without an application, back to the wizard. */
  function Step4Route(exists_: bool): Response
  {
    if !exists_ then ToWizard else ShowStep4
  }

  /** Step 4 is shown exactly when the candidate has an application. */
  lemma Step4RouteSpec(exists_: bool)
    ensures Step4Route(exists_) == ShowStep4 <==> exists_
    ensures Step4Route(exists_) == ToWizard <==> !exists_
  {
  }

  /** Step 2 sends a candidate on to step 3 only when at step 3 and not editing. */
  lemma Step2RouteSpec(exists_: bool, step: int, edit: bool)
    ensures Step2Route(exists_, step, edit) == ToStep3 <==> exists_ && step == 3 && !edit
    ensures Step2Route(exists_, step, edit) == ToWizard <==> !exists_
    ensures Step2Route(exists_, step, edit) == ShowStep2 <==> exists_ && (step != 3 || edit)
  {
  }

  /** Step 3 sends a candidate on to step 4 only when at step 4 and not editing. */
  lemma Step3RouteSpec(exists_: bool, step: int, edit: bool)
    ensures Step3Route(exists_, step, edit) == ToStep4 <==> exists_ && step == 4 && !edit
    ensures Step3Route(exists_, step, edit) == ToWizard <==> !exists_
    ensures Step3Route(exists_, step, edit) == ShowStep3 <==> exists_ && (step != 4 || edit)
  {
  }

  // ---------------------------------------------------------------------
  // Form inputs
  // ---------------------------------------------------------------------

  /** A posted form value: an uploaded file, or a plain text value. */
  datatype Upload = FileUpload(filename: string, content: Blob) | TextValue(text: string)

  /** The file inputs of step 3, in the order the handler visits them. */
  const FileInputs: seq<DocField> := [CvFile, PasFoto, KtpFile, IjazahFile, IshiharaTest, SkckFile,
                                      TrainingCert, PreviousCertFile, LogbookFile, CertLevel1File, AdditionalFile]

  lemma FileInputsComplete(f: DocField)
    ensures f in FileInputs
  {
  }

  /**
   * `get_file_data`: an uploaded file is used when it is truthy, which a
   * posted file is exactly when it has a file name, and when its encoded
   * content is non-empty, which it is exactly when the content is.
   */
  predicate Uploaded(uploads: map<DocField, Upload>, f: DocField)
  {
    f in uploads && uploads[f].FileUpload? && |uploads[f].filename| > 0 && |uploads[f].content| > 0
  }

  /** A check box counts as ticked exactly when the form sent `on`. */
  function Ticked(value: Option<string>): (b: bool)
    ensures b <==> value == Some("on")
  {
    value.Some? && value.value == "on"
  }

  /** The step-4 form. */
  datatype FinalForm = FinalForm(compliance: Option<string>, truth: Option<string>,
                                 liability: Option<string>, signature: Option<string>)

  /**
   * The file part of the step-3 `vals`: one entry per file input that
   * carried a non-empty file, and nothing else.
   */
  method FileVals(uploads: map<DocField, Upload>) returns (vals: map<DocField, Blob>)
    ensures forall f :: f in vals <==> Uploaded(uploads, f)
    ensures forall f :: f in vals ==> Uploaded(uploads, f) && vals[f] == uploads[f].content
  {
    vals := map[];
    for k := 0 to |FileInputs|
      invariant forall f :: f in vals <==> f in FileInputs[..k] && Uploaded(uploads, f)
      invariant forall f :: f in vals ==> Uploaded(uploads, f) && vals[f] == uploads[f].content
    {
      var f := FileInputs[k];
      if f in uploads && uploads[f].FileUpload? && |uploads[f].filename| > 0 && |uploads[f].content| > 0 {
        vals := vals[f := uploads[f].content];
      }
    }
    forall f ensures f in FileInputs[..|FileInputs|] {
      FileInputsComplete(f);
    }
  }

  /** Step 3 keeps every document that was not uploaded and takes every one that was. */
  lemma Step3FilesSpec(files: map<DocField, Blob>, vals: map<DocField, Blob>, uploads: map<DocField, Upload>)
    requires forall f :: f in vals <==> Uploaded(uploads, f)
    requires forall f :: f in vals ==> Uploaded(uploads, f) && vals[f] == uploads[f].content
    ensures forall f :: Uploaded(uploads, f) ==> f in files + vals && (files + vals)[f] == uploads[f].content
    ensures forall f :: !Uploaded(uploads, f) ==> (f in files + vals <==> f in files)
    ensures forall f :: !Uploaded(uploads, f) && f in files ==> (files + vals)[f] == files[f]
  {
  }

  // ---------------------------------------------------------------------
  // The application table and the handlers that write it
  // ---------------------------------------------------------------------

  /** The position of the first application in `apps` owned by `partner`. */
  function FindByPartner(apps: seq<Application>, partner: nat): (r: Option<nat>)
    ensures r.Some? ==> r.value < |apps| && apps[r.value].partner == partner
    ensures r.Some? ==> forall j :: 0 <= j < r.value ==> apps[j].partner != partner
    ensures r.None? ==> forall j :: 0 <= j < |apps| ==> apps[j].partner != partner
  {
    if apps == [] then None
    else if apps[0].partner == partner then Some(0)
    else
      match FindByPartner(apps[1..], partner)
      case Some(i) => Some(i + 1)
      case None => None
  }

  /** How many applications `partner` owns (`Sessions.CountOf` is the same count over sessions). */
  function CountFor(apps: seq<Application>, partner: nat): (n: nat)
    ensures n <= |apps|
  {
    if apps == [] then 0 else (if apps[0].partner == partner then 1 else 0) + CountFor(apps[1..], partner)
  }

  lemma {:induction false} CountForAppend(apps: seq<Application>, a: Application, partner: nat)
    ensures CountFor(apps + [a], partner) == CountFor(apps, partner) + (if a.partner == partner then 1 else 0)
  {
    if apps != [] {
      assert (apps + [a])[1..] == apps[1..] + [a];
      CountForAppend(apps[1..], a, partner);
    } else {
      assert ([] + [a])[1..] == [];
    }
  }

  lemma {:induction false} CountForNone(apps: seq<Application>, partner: nat)
    requires FindByPartner(apps, partner).None?
    ensures CountFor(apps, partner) == 0
  {
    if apps != [] {
      assert FindByPartner(apps[1..], partner).None?;
      CountForNone(apps[1..], partner);
    }
  }

  /** No partner owns two applications. */
  ghost predicate OnePerPartner(apps: seq<Application>)
  {
    forall i, j :: 0 <= i < j < |apps| ==> apps[i].partner != apps[j].partner
  }

  class ApplicationTable {
    var apps: seq<Application>

    constructor ()
      ensures apps == []
    {
      apps := [];
    }

    /**
     * `submit_step_1`: updates the candidate's application with the personal
     * data and state draft, or creates one when there is none; returns it.
     * No other application changes, and a partner never gets a second one.
     */
    method SubmitStep1(partner: nat, form: PersonalData) returns (app: Application)
      modifies this, apps
      ensures app.partner == partner && app.state == Draft && app.personal == form
      ensures old(FindByPartner(apps, partner)).Some? ==>
                apps == old(apps) && app == old(apps)[old(FindByPartner(apps, partner)).value]
      ensures old(FindByPartner(apps, partner)).Some? ==>
                app.Record() == old(app.Record()).(state := Draft, personal := form)
      ensures old(FindByPartner(apps, partner)).None? ==>
                fresh(app) && apps == old(apps) + [app] &&
                app.Record() == AppRecord(Draft, 1, None, Some(NewCert), None, form, map[],
                                          Declarations(false, false, false), None, None)
      ensures forall a :: a in old(apps) && a != app ==> unchanged(a)
      ensures CountFor(apps, partner) == (if old(CountFor(apps, partner)) == 0 then 1 else old(CountFor(apps, partner)))
      ensures old(OnePerPartner(apps)) ==> OnePerPartner(apps)
    {
      var existing := FindByPartner(apps, partner);
      if existing.Some? {
        app := apps[existing.value];
        app.personal := form;
        app.state := Draft;
        assert CountFor(old(apps), partner) > 0 by {
          CountForPositive(apps, existing.value, partner);
        }
      } else {
        app := new Application(partner, form);
        CountForNone(apps, partner);
        CountForAppend(apps, app, partner);
        apps := apps + [app];
      }
    }

    /** `submit_step_2`: scheme, type and previous certificate, and step 2; nothing without an application. */
    method SubmitStep2(partner: nat, appType: Option<AppType>, previousCertNumber: Option<string>, scheme: Option<Scheme>)
      modifies apps
      ensures old(FindByPartner(apps, partner)).None? ==> forall a :: a in apps ==> unchanged(a)
      ensures old(FindByPartner(apps, partner)).Some? ==>
                var app := apps[old(FindByPartner(apps, partner)).value];
                app.Record() == old(app.Record()).(appType := appType, previousCertNumber := previousCertNumber,
                                                    scheme := scheme, currentStep := 2)
      ensures forall a :: a in apps && Some(a) != Owned(apps, partner) ==> unchanged(a)
    {
      var existing := FindByPartner(apps, partner);
      if existing.Some? {
        var app := apps[existing.value];
        app.appType := appType;
        app.previousCertNumber := previousCertNumber;
        app.scheme := scheme;
        app.currentStep := 2;
      }
    }

    /**
     * `submit_step_3`: step 3, and each document that came with a non-empty
     * file replaced by it; every other document stays as it was.
     */
    method SubmitStep3(partner: nat, uploads: map<DocField, Upload>)
      modifies apps
      ensures old(FindByPartner(apps, partner)).None? ==> forall a :: a in apps ==> unchanged(a)
      ensures old(FindByPartner(apps, partner)).Some? ==>
                var app := apps[old(FindByPartner(apps, partner)).value];
                && app.Record() == old(app.Record()).(currentStep := 3, files := app.files)
                && (forall f :: Uploaded(uploads, f) ==> f in app.files && app.files[f] == uploads[f].content)
                && (forall f :: !Uploaded(uploads, f) ==> (f in app.files <==> f in old(app.files)))
                && (forall f :: !Uploaded(uploads, f) && f in old(app.files) ==> app.files[f] == old(app.files)[f])
      ensures forall a :: a in apps && Some(a) != Owned(apps, partner) ==> unchanged(a)
    {
      var existing := FindByPartner(apps, partner);
      if existing.Some? {
        var app := apps[existing.value];
        var vals := FileVals(uploads);
        Step3FilesSpec(app.files, vals, uploads);
        app.currentStep := 3;
        app.files := app.files + vals;
      }
    }

    /** `submit_final`: the declarations and signature, state submitted and step 4. */
    method SubmitFinal(partner: nat, form: FinalForm)
      modifies apps
      ensures old(FindByPartner(apps, partner)).None? ==> forall a :: a in apps ==> unchanged(a)
      ensures old(FindByPartner(apps, partner)).Some? ==>
                var app := apps[old(FindByPartner(apps, partner)).value];
                && app.Record() == old(app.Record()).(declarations := app.declarations, signature := form.signature,
                                                       state := Submitted, currentStep := 4)
                && (app.declarations.compliance <==> form.compliance == Some("on"))
                && (app.declarations.truth <==> form.truth == Some("on"))
                && (app.declarations.liability <==> form.liability == Some("on"))
      ensures forall a :: a in apps && Some(a) != Owned(apps, partner) ==> unchanged(a)
    {
      var existing := FindByPartner(apps, partner);
      if existing.Some? {
        var app := apps[existing.value];
        app.declarations := Declarations(Ticked(form.compliance), Ticked(form.truth), Ticked(form.liability));
        app.signature := form.signature;
        app.state := Submitted;
        app.currentStep := 4;
      }
    }

    /** `application_status`. */
    method ApplicationStatus(partner: nat) returns (r: Response)
      ensures var found := FindByPartner(apps, partner);
        r == (if found.Some? then StatusRoute(true, apps[found.value].state) else StatusRoute(false, Draft))
    {
      var found := FindByPartner(apps, partner);
      if found.Some? {
        r := StatusRoute(true, apps[found.value].state);
      } else {
        r := StatusRoute(false, Draft);
      }
    }

    /** `certification_wizard`: the response; its state write never happens, so nothing changes. */
    method CertificationWizard(partner: nat, edit: bool) returns (r: Response)
      modifies apps
      ensures var found := FindByPartner(apps, partner);
        r == (if found.Some? then WizardDecision(true, apps[found.value].state, apps[found.value].currentStep, edit).0
              else WizardDecision(false, Draft, 1, edit).0)
      ensures forall a :: a in apps ==> unchanged(a)
    {
      var found := FindByPartner(apps, partner);
      if found.Some? {
        var app := apps[found.value];
        var decision := WizardDecision(true, app.state, app.currentStep, edit);
        if decision.1 {
          // The source writes `state = draft` here; no stored state is `revision`.
          assert false;
        }
        r := decision.0;
      } else {
        r := WizardDecision(false, Draft, 1, edit).0;
      }
    }
  }

  /** The application `partner` owns, when there is one. */
  function Owned(apps: seq<Application>, partner: nat): Option<Application>
  {
    match FindByPartner(apps, partner)
    case Some(i) => Some(apps[i])
    case None => None
  }

  lemma {:induction false} CountForPositive(apps: seq<Application>, i: nat, partner: nat)
    requires i < |apps| && apps[i].partner == partner
    ensures CountFor(apps, partner) >= 1
  {
    if i > 0 {
      CountForPositive(apps[1..], i - 1, partner);
    }
  }
}

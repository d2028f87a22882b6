/** Request sequences run against a fresh store. The first two show that the
    company serializer as written lets a client activate its own company,
    which then posts jobs without approval; the others follow the workflows
    end to end on the corrected model. */
module Scenarios {
  import opened Outcomes
  import opened Entities
  import opened Accounts
  import opened Postings
  import opened ResumeFiles
  import opened JobBoard

  function SeekerSignup(username: string): Registration {
    Registration(username, username + "@example.com", Some("secret"), SeekerRole, "Ann", "Lee", None, None, None, None)
  }

  /** As written: a job seeker creates a company sending `is_active = true`,
      and the job it then posts is accepted. */
  method SelfActivationAsWritten() returns (posted: Result<nat>)
    ensures posted.Ok?
  {
    var store := new Store();
    var account := store.Register(SeekerSignup("ann"), RegistrationSucceeds);
    var company := store.CreateCompanyAsWritten(account.value, CompanyInput(None, "Acme", "", "", None, true));
    posted := store.CreateJob(account.value, JobInput(None, "Engineer", ""));
  }

  /** Corrected: the same requests leave the company inactive, and the job is
      refused until the company is approved. */
  method SelfActivationRefused() returns (posted: Result<nat>)
    ensures posted == Err(PermissionDenied, None, ApprovalPending)
  {
    var store := new Store();
    var account := store.Register(SeekerSignup("ann"), RegistrationSucceeds);
    var company := store.CreateCompany(account.value, CompanyInput(None, "Acme", "", "", None, true));
    posted := store.CreateJob(account.value, JobInput(None, "Engineer", ""));
  }

  /** A company registers with an empty website and no description: its
      profile gets the welcome line, no website, and starts inactive. */
  method CompanyRegistration() returns (c: Company)
    ensures c == Company(1, "Acme", "", "Welcome to Acme!", None, false)
  {
    var store := new Store();
    var employer := store.Register(
      Registration("acme", "hr@acme.example", Some("pw"), CompanyRole, "Ada", "Byron", Some("Acme"), None, None, Some("")),
      RegistrationSucceeds);
    c := store.companies[store.companyOf[employer.value]];
  }

  /** An approved company posts a job naming another company: the job is
      recorded under the poster's own company. */
  method PostJob() returns (store: Store, job: Result<nat>)
    ensures fresh(store) && store.Valid()
    ensures job == Ok(3) && store.jobs == map[3 := Job(2, "Engineer", "Build things")]
    ensures store.seekerOf == map[] && store.applications == map[] && store.nextId == 4
  {
    store := new Store();
    var employer := store.Register(
      Registration("acme", "hr@acme.example", Some("pw"), CompanyRole, "Ada", "Byron", Some("Acme"), None, None, None),
      RegistrationSucceeds);
    store.AdminActivate(2);
    job := store.CreateJob(1, JobInput(Some(77), "Engineer", "Build things"));
  }

  /** A job seeker applies to that job naming another applicant: the
      application is recorded under the seeker's own profile, and its view
      names the job and the seeker. */
  method Apply() returns (application: Result<nat>, view: ApplicationRepr)
    ensures application == Ok(6)
    ensures view.job.id == 3 && view.job.title == "Engineer" && view.applicant == SeekerRepr(5, 4)
  {
    var store, job := PostJob();
    var seeker := store.Register(SeekerSignup("bob"), RegistrationSucceeds);
    application := store.CreateApplication(4, ApplicationInput(3, Some(99), "Hello"));
    view := store.ApplicationView(6);
  }

  /** A job seeker uploads a file that passes the screening, without a
      title: the resume takes the file's default title, is listed for its
      uploader, and not for another job seeker. */
  method UploadWithoutTitle(f: UploadedFile) returns (receipt: Result<UploadReceipt>, mine: seq<nat>, theirs: seq<nat>)
    requires ScreenUpload(Some(f)).Ok?
    ensures receipt == Ok(UploadReceipt(5, ResumeTitle(None, f.name)))
    ensures 5 in mine && 5 !in theirs
  {
    var store := new Store();
    var ann := store.Register(SeekerSignup("ann"), RegistrationSucceeds);
    var bob := store.Register(SeekerSignup("bob"), RegistrationSucceeds);
    receipt := store.UploadResume(1, Some(f), None, UploadSucceeds);
    mine := store.ResumeListing(1);
    theirs := store.ResumeListing(3);
  }

  /** Building the response of an upload raises: the request fails with a
      500, yet the resume row it wrote stays and is listed. */
  method FailedUploadStillStored(f: UploadedFile, detail: string) returns (receipt: Result<UploadReceipt>, mine: seq<nat>)
    requires ScreenUpload(Some(f)).Ok?
    ensures receipt == Err(ServerError, Some("error"), UploadFailed + detail)
    ensures 3 in mine
  {
    var store := new Store();
    var ann := store.Register(SeekerSignup("ann"), RegistrationSucceeds);
    receipt := store.UploadResume(1, Some(f), Some("CV"), UploadFailsAt(ResponseBuild, detail));
    mine := store.ResumeListing(1);
  }
}

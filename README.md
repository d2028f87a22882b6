# Job portal backend: registration, postings and resumes

A Dafny model of the request-handling core of a job portal. Three kinds of
user exist: a company, a job seeker and everyone else. The model covers
four workflows:

- **Registration** (`Accounts`, `JobBoard.Store.Register`). The
  company-title rule is checked first. Creation then inserts the account
  and, by role, a company profile with its defaults (inactive until an
  administrator approves it) or a seeker profile. Creation is atomic.
- **Companies, jobs and applications** (`JobBoard.Store.CreateCompany`,
  `CreateJob`, `CreateApplication`).
  - A company always belongs to the requesting account.
  - A job always belongs to the poster's company. It is refused when the
    poster has no company, and refused when that company is not yet
    approved.
  - An application always belongs to the caller's seeker profile.
  - A job's representation embeds its company and adds a company name and
    an application count. An application's representation embeds the full
    job and the full seeker profile (`JobBoard.Store.*View`, `Postings`).
- **Resume upload** (`ResumeFiles`, `JobBoard.Store.UploadResume`).
  - The request is screened in order: a file must be present, its last
    extension must be PDF, DOC or DOCX (case-insensitive), and it must be no
    larger than 10 MiB.
  - The caller's seeker profile is fetched, or created if missing.
  - The title defaults to the file name without its last extension.
  - A store error ends the request with a 500, keeping whatever was already
    written.
- **Owner-scoped views** (`JobBoard.Store.ResumeListing`,
  `ExperienceListing`, `MyProfile`). A caller sees only the rows of their
  own seeker profile, newest first. `MyProfile` creates that profile once.

The database is the class `JobBoard.Store`.
- Each table is a `map` from id to row.
- Two owner indexes, `companyOf` and `seekerOf`, map an account to its
  company or seeker profile. They stand for the one-to-one owner columns.
- All tables draw ids from one increasing counter.
- `Store.Valid()` is the invariant every operation keeps:
  - the indexes agree with the tables;
  - every foreign key points to an existing row;
  - every id is below the counter.

Other modules:
- `Outcomes`: the result of a request. It is `Ok`, or an `Err` carrying an
  error kind (validation 400, permission 403, bad request 400, server 500),
  the field the error is keyed under, and the message.
- `Entities`: the stored rows.
- `Scoping`: the owner filter with descending order.
- `Scenarios`: concrete request sequences on a fresh store. Two of them show
  the finding below.

Things the program gets from outside become parameters:
- A store exception at a given step is a `RegistrationFault` or
  `UploadFault` value.
- The requesting account is a `caller` id.
- An uploaded file is its name and size.

## Model

| member | source | states |
|---|---|---|
| Accounts.Validate | account/serializers.py:24-31 | A company registration without a non-empty title fails with a validation error keyed `company_title` and the fixed message. Any other registration passes unchanged. For role company, it passes iff the title is given. |
| Accounts.CompanyDefaults | account/serializers.py:36-62 | A company profile belongs to the new account and starts inactive. Its title is the given one or "first last". Its description is the given one or "Welcome to <title>!". Its location is the given one or empty. Its website is the given one, or none when absent or empty. |
| Accounts.CompanyTextsNormalised | account/serializers.py:36-62 | A company's description is never empty, and its website is never the empty text. |
| Accounts.ValidatedCompanyKeepsItsTitle | account/serializers.py:26-53 | After validation, a company's title is the supplied non-empty title; the name fallback is never taken. |
| Accounts.ProfileDispatch | account/serializers.py:50-69 | Role company gives a company profile and no seeker profile. Role job_seeker gives a seeker profile and no company. Any other role gives neither. The profile is owned by the new account. |
| Accounts.AccountIgnoresCompanyFields | account/serializers.py:36-45 | The stored account depends only on the account attributes, never on the four company attributes. |
| Accounts.PasswordStoredHashed | account/serializers.py:44-48 | A non-empty password is stored only hashed, and equal hashes mean equal passwords. An empty or absent password leaves the column blank. |
| Postings.ShowUserHidesOnlyPassword | account/serializers.py:18-22 | The shown account omits the password and nothing else. |
| JobBoard.Store.Register | account/serializers.py:24-71 | A request failing validation returns that error and leaves the store untouched. A valid one behaves as `Create`. Any error leaves the store as it was. On success the account has a company iff its role is company, and a seeker profile iff its role is job_seeker. |
| JobBoard.Store.Create | account/serializers.py:33-71 | A fault while inserting the account or the profile rolls everything back. Otherwise the account is stored under the next id with its hashed password, and its role's profile under the id after it. The invariant is kept. |
| JobBoard.Store.InsertCompany | account/serializers.py:55-62 | A company row is added under the next id and indexed by its owner. An account that already owns a company is refused, and nothing changes. |
| JobBoard.Store.GetOrCreateSeeker | seeker/views.py:70-72 | Returns the caller's one seeker profile. An existing profile is reused unchanged. A missing one is created under the next id. |
| JobBoard.Store.CreateCompany | company/serializers.py:9-38 | The new company belongs to the caller whatever the input names, and starts inactive. See Findings. |
| JobBoard.Store.CreateCompanyAsWritten | company/serializers.py:9-38 | As written: the caller owns the company, and `is_active` is taken from the input. |
| JobBoard.Store.AdminActivate | company/serializers.py:65-66 | Approving a company sets only its active flag. |
| JobBoard.Store.CreateJob | company/serializers.py:58-69 | A caller without a company gets the validation error and no change. A caller whose company is inactive gets PermissionDenied and no change; the existence check comes first. Otherwise the job is stored under the next id with the caller's company, whatever the input names, and that company's job count rises by one. |
| JobBoard.Store.CreateApplication | company/serializers.py:71-101 | An unknown job id is refused with an error keyed `job`. A caller with no seeker profile is refused with a validation error. Otherwise the application is stored with the caller's own profile as applicant, whatever the input names, and the job's application count rises by one. Any error changes nothing. |
| JobBoard.Store.CompanyView | company/serializers.py:9-34 | The company's representation embeds its owner's shown account and counts exactly the jobs referencing the company. |
| JobBoard.Store.JobView | company/serializers.py:40-56 | The job's representation embeds the full company representation, names the company's title, and counts exactly the applications to the job. |
| JobBoard.Store.ApplicationView | company/serializers.py:84-107 | The application's representation replaces the job id by the full job representation and the applicant id by the seeker profile representation. It carries the job's title and its company's title. |
| Postings.JobCountAfterPosting | company/serializers.py:32-34 | Adding a job under a fresh id raises its company's total by one and leaves every other company's total alone. |
| Postings.ApplicationCountAfterApplying | company/serializers.py:54-56 | Adding an application under a fresh id raises its job's count by one and leaves every other job's count alone. |
| ResumeFiles.ScreenUpload | seeker/views.py:43-66 | A missing file gives "No resume file provided". A file of the wrong type gives the type message. An allowed file over 10 MiB gives the size message. Each is a 400 keyed `error`. A file passes iff its type and size are both allowed. |
| ResumeFiles.Lower | seeker/views.py:53 | Lowering keeps the length and lowers each character. |
| ResumeFiles.LastDot | seeker/views.py:53-77 | Finds the position of the last dot: a dot at the result with none after it. No result means the name has no dot. |
| ResumeFiles.AcceptedIffEndsWithAllowedSuffix | seeker/views.py:52-54 | A file passes the type test iff its lowered name is "pdf", "doc" or "docx", or ends in ".pdf", ".doc" or ".docx". |
| ResumeFiles.UpperCaseExtensionAccepted | seeker/views.py:53-54 | "CV.PDF" passes the type test. |
| ResumeFiles.DottedNameAccepted | seeker/views.py:53-54 | "my.cv.docx" passes the type test. |
| ResumeFiles.ExecutableRejected | seeker/views.py:53-58 | "a.exe" fails the type test. |
| ResumeFiles.DoubleExtensionRejected | seeker/views.py:53-58 | "cv.pdf.exe" fails: only the last extension counts. |
| ResumeFiles.BareExtensionNameAccepted | seeker/views.py:53-54 | A name with no dot is its own extension, so "pdf" and "DOCX" pass. |
| ResumeFiles.SizeBoundary | seeker/views.py:61-62 | Exactly 10 MiB passes; one byte more fails. |
| ResumeFiles.TypeCheckedBeforeSize | seeker/views.py:51-66 | A file that is too large is reported as too large only when its type passes; otherwise it is reported for its type. |
| ResumeFiles.PiecesRebuildName | seeker/views.py:53-77 | The part before the last dot, a dot, and the part after it rebuild the name. The last part has no dot. Without a dot, both parts are the whole name. |
| ResumeFiles.DefaultTitleDropsExtension | seeker/views.py:75-77 | Without a given title, the title plus "." plus the extension is the file name. With no dot in the name, the title is the whole name. |
| ResumeFiles.TitleExamples | seeker/views.py:75-77 | "my.cv.docx" gets the title "my.cv". An empty title falls back to the file name. A given title is kept. |
| JobBoard.Store.UploadResume | seeker/views.py:39-101 | A request failing screening returns that 400 and leaves the store untouched. A fault at the profile lookup gives the 500 "Upload failed: ..." and changes nothing. Otherwise the outcome follows `UploadStored`: the caller ends with exactly one seeker profile, reused or created. Unless the insert raised, a resume row with the title, name and size is stored under the next id and reported. A fault while building the response gives the 500 with the row kept. |
| JobBoard.Store.StoreUpload | seeker/views.py:68-101 | The part after screening, with the same outcomes as `UploadStored`. |
| JobBoard.Store.InsertResume | seeker/views.py:80-84 | A resume row is added under the next id; nothing else changes. |
| JobBoard.Store.MyProfile | seeker/views.py:16-21 | Returns the caller's own profile. It creates the profile once if missing; a repeated call changes nothing. |
| Scoping.OwnedDescending | seeker/views.py:35-36 | The ids are strictly descending. Every id is a row whose owner is in the given set. Every such row below the bound is included. |
| JobBoard.Store.ResumeListing | seeker/views.py:35-36 | The caller's resumes, newest first: strictly descending ids, exactly the resumes whose profile belongs to the caller. |
| JobBoard.Store.ExperienceListing | seeker/views.py:108-109 | The caller's experiences, newest first: strictly descending ids, exactly those whose profile belongs to the caller. |
| Scenarios.CompanyRegistration | account/serializers.py:53-62 | Registering company "Acme" with an empty website and no description gives the profile (owner 1, "Acme", "", "Welcome to Acme!", none, inactive). |
| Scenarios.PostJob | company/serializers.py:58-69 | An approved company posting a job that names another company gets the job stored under its own company. |
| Scenarios.Apply | company/serializers.py:96-107 | A seeker applying with another applicant named gets the application stored under their own profile. Its view shows job 3 and the seeker's profile. |
| Scenarios.UploadWithoutTitle | seeker/views.py:35-95 | An upload without a title is stored with the default title and listed for its uploader. It is not listed for another seeker. |
| Scenarios.FailedUploadStillStored | seeker/views.py:80-101 | When building the response raises, the request reports a 500, yet the resume stays stored and listed. |
| Scenarios.SelfActivationAsWritten | company/serializers.py:16-69 | As written, a seeker who creates a company with `is_active` set can post a job at once. |
| Scenarios.SelfActivationRefused | company/serializers.py:65-66 | Corrected, the same requests end in PermissionDenied with the approval message. |

## Left out

- Framework field validation is not modelled. This covers `max_length=150`, URL syntax for the website and the model field types, all library behaviour that is not visible here.
- Job existence is modelled as "the id names an existing job", with the message "Invalid pk - object does not exist."; the framework's message also quotes the id.
- A framework validation error raised from `create` with a plain message is modelled with no field key (the non-field error).
- `get_full_name`, `user_info.full_name` and `applicant_name` are left out. They depend on the unseen user model.
- `user_info` is not reproduced as a separate dictionary. The embedded account representation carries the same id, username and email.
- Password hashing is the injective tag `Hashed(p)`. The hashing algorithm and salt are not modelled.
- `Lower` lowers only ASCII letters. Python's `lower()` also lowers other scripts. No non-ASCII character lowers to one of the letters in "pdf", "doc" or "docx", so the type test is unaffected.
- File storage, the file's URL, `date_created` and the success message text of an upload are left out (external storage and clock). Building the response is the step that the fault `ResponseBuild` stands for.
- `my_profile` with PATCH is left out: it runs the seeker profile serializer, which is not part of this model.
- Creating, updating and deleting experiences, resumes and profiles through the generic viewset actions are left out, along with the object permission `IsAdminOrOwner`. seeker/serializers.py and seeker/permissions.py are not part of this model.
- The role values and which fields the account model requires come from the unseen account model. Roles are any text, and "company" and "job_seeker" are special.
- One account owning at most one company and one seeker profile is taken from the one-to-one owner columns of the unseen models. A second company for the same account is refused with a server error.
- All tables share one id counter. The database numbers each table on its own, but only distinctness and increasing order are used.
- Authentication (`IsAuthenticated`) is assumed: every operation takes a known caller.
- URL routing in seeker/urls.py is left out; it only registers the view sets.
- The model is sequential: concurrent requests and database isolation are not modelled.

## Findings

| source | as written | input that shows it | evidently intended | confidence | as-written member | corrected member |
|---|---|---|---|---|---|---|
| company/serializers.py:16-19 | `fields = "__all__"` with only `user` read-only, so a client creating a company may set `is_active` | A job seeker posts a company with `is_active: true`, then posts a job: the job is accepted without any approval | New companies start inactive, as at registration (account/serializers.py:61), and only an administrator activates them (company/serializers.py:65-66) | medium, not executed | JobBoard.Store.CreateCompanyAsWritten, Scenarios.SelfActivationAsWritten | JobBoard.Store.CreateCompany, Scenarios.SelfActivationRefused |

/** The job board's store and its workflows. The tables are maps from ids to
    rows; `companyOf` and `seekerOf` index the one-to-one owner columns of
    companies and seeker profiles by account id. Ids come from one increasing
    counter, so every new row's id is larger than every id issued before. */
module JobBoard {
  import opened Outcomes
  import opened Entities
  import opened Accounts
  import opened Postings
  import opened ResumeFiles
  import Scoping

  /** Where the store raises an exception during registration, if anywhere. */
  datatype RegistrationStep = UserInsert | ProfileInsert
  datatype RegistrationFault = RegistrationSucceeds | RegistrationFailsAt(step: RegistrationStep, detail: string)

  /** Where the store or the file storage raises an exception during an upload. */
  datatype UploadStep = ProfileLookup | ResumeInsert | ResponseBuild
  datatype UploadFault = UploadSucceeds | UploadFailsAt(step: UploadStep, detail: string)

  /** A company creation request; `user` is what the client sent for the
      read-only owner field. */
  datatype CompanyInput = CompanyInput(
    user: Option<nat>, title: string, location: string, description: string,
    website: Option<string>, isActive: bool)

  /** A job creation request; `company` is what the client sent for the
      read-only company field. */
  datatype JobInput = JobInput(company: Option<nat>, title: string, description: string)

  /** An application request; `applicant` is what the client sent for the
      read-only applicant field. */
  datatype ApplicationInput = ApplicationInput(job: nat, applicant: Option<nat>, coverLetter: string)

  /** What a successful upload reports: the new resume's id and title. */
  datatype UploadReceipt = UploadReceipt(id: nat, title: string)

  const NoCompany := "The user does not have an associated company."
  const ApprovalPending := "The company approval is pending at the Admin."
  const NoSeekerProfile := "The user does not have an associated seeker profile."
  const InvalidJob := "Invalid pk - object does not exist."
  const DuplicateOwner := "A company for this user already exists."
  const UploadFailed := "Upload failed: "

  predicate CreatesProfile(d: Registration) {
    d.role == CompanyRole || d.role == SeekerRole
  }

  ghost predicate Below<T>(m: map<nat, T>, n: nat) {
    forall k :: k in m ==> k < n
  }

  /** The owner index `companyOf` agrees with the owner column of companies:
      one company per account at most, and every owner an existing account. */
  ghost predicate CompaniesIndexed(users: map<nat, User>, companies: map<nat, Company>, companyOf: map<nat, nat>) {
    && (forall k :: k in companies ==> companies[k].owner in users)
    && (forall u :: u in companyOf ==> companyOf[u] in companies && companies[companyOf[u]].owner == u)
    && (forall k :: k in companies ==> companies[k].owner in companyOf && companyOf[companies[k].owner] == k)
  }

  /** The same for seeker profiles and `seekerOf`. */
  ghost predicate SeekersIndexed(users: map<nat, User>, seekers: map<nat, SeekerProfile>, seekerOf: map<nat, nat>) {
    && (forall k :: k in seekers ==> seekers[k].owner in users)
    && (forall u :: u in seekerOf ==> seekerOf[u] in seekers && seekers[seekerOf[u]].owner == u)
    && (forall k :: k in seekers ==> seekers[k].owner in seekerOf && seekerOf[seekers[k].owner] == k)
  }

  ghost predicate JobsReferenced(jobs: map<nat, Job>, companies: map<nat, Company>) {
    forall k :: k in jobs ==> jobs[k].company in companies
  }

  ghost predicate ApplicationsReferenced(applications: map<nat, Application>, jobs: map<nat, Job>, seekers: map<nat, SeekerProfile>) {
    forall k :: k in applications ==> applications[k].job in jobs && applications[k].applicant in seekers
  }

  ghost predicate ResumesReferenced(resumes: map<nat, Resume>, seekers: map<nat, SeekerProfile>) {
    forall k :: k in resumes ==> resumes[k].seeker in seekers
  }

  ghost predicate ExperiencesReferenced(experiences: map<nat, Experience>, seekers: map<nat, SeekerProfile>) {
    forall k :: k in experiences ==> experiences[k].seeker in seekers
  }

  class Store {
    var users: map<nat, User>
    var companies: map<nat, Company>
    var seekers: map<nat, SeekerProfile>
    var jobs: map<nat, Job>
    var applications: map<nat, Application>
    var resumes: map<nat, Resume>
    var experiences: map<nat, Experience>
    var companyOf: map<nat, nat>
    var seekerOf: map<nat, nat>
    var nextId: nat

    /** The store's invariant: ids are below the counter, every reference
        names an existing row, and the owner indexes agree with the owner
        columns (one company and one seeker profile per account at most). */
    ghost predicate Valid()
      reads this
    {
      && Below(users, nextId) && Below(companies, nextId) && Below(seekers, nextId) && Below(jobs, nextId)
      && Below(applications, nextId) && Below(resumes, nextId) && Below(experiences, nextId)
      && CompaniesIndexed(users, companies, companyOf)
      && SeekersIndexed(users, seekers, seekerOf)
      && JobsReferenced(jobs, companies)
      && ApplicationsReferenced(applications, jobs, seekers)
      && ResumesReferenced(resumes, seekers)
      && ExperiencesReferenced(experiences, seekers)
    }

    constructor ()
      ensures Valid()
      ensures users == map[] && companies == map[] && seekers == map[] && jobs == map[]
      ensures applications == map[] && resumes == map[] && experiences == map[]
      ensures companyOf == map[] && seekerOf == map[] && nextId == 1
    {
      users, companies, seekers, jobs := map[], map[], map[], map[];
      applications, resumes, experiences := map[], map[], map[];
      companyOf, seekerOf := map[], map[];
      nextId := 1;
    }

    // ---------------------------------------------------------------------
    // Registration

    /** Nothing in the store differs from the state before the call. */
    twostate predicate Untouched()
      reads this
    {
      && users == old(users) && companies == old(companies) && seekers == old(seekers)
      && jobs == old(jobs) && applications == old(applications) && resumes == old(resumes)
      && experiences == old(experiences) && companyOf == old(companyOf) && seekerOf == old(seekerOf)
      && nextId == old(nextId)
    }

    /** The outcome of creating the account of `data`: an exception from the
        store (at the account insert, or at a profile insert when the role
        calls for one) leaves the store as it was; otherwise the account is
        stored under the next id and its profile under the one after. */
    twostate predicate AccountCreated(data: Registration, fault: RegistrationFault, new r: Result<nat>)
      reads this
    {
      && (fault.RegistrationFailsAt? && (fault.step == UserInsert || CreatesProfile(data)) ==>
            r == Err(ServerError, None, fault.detail) && Untouched())
      && (fault.RegistrationSucceeds? || (fault.step == ProfileInsert && !CreatesProfile(data)) ==> r.Ok?)
      && (r.Ok? ==>
            && r.value == old(nextId) && users == old(users)[r.value := NewUser(data)]
            && jobs == old(jobs) && applications == old(applications)
            && resumes == old(resumes) && experiences == old(experiences)
            && match ProfileFor(data, r.value)
               case CompanyProfile(c) =>
                 && companies == old(companies)[r.value + 1 := c] && companyOf == old(companyOf)[r.value := r.value + 1]
                 && seekers == old(seekers) && seekerOf == old(seekerOf) && nextId == old(nextId) + 2
               case JobSeekerProfile(p) =>
                 && seekers == old(seekers)[r.value + 1 := p] && seekerOf == old(seekerOf)[r.value := r.value + 1]
                 && companies == old(companies) && companyOf == old(companyOf) && nextId == old(nextId) + 2
               case NoProfile =>
                 && companies == old(companies) && companyOf == old(companyOf)
                 && seekers == old(seekers) && seekerOf == old(seekerOf) && nextId == old(nextId) + 1)
    }

    /** Registers an account: the company-title rule first, and only a request
        that passes it reaches the creation of the account. */
    method Register(attrs: Registration, fault: RegistrationFault) returns (r: Result<nat>)
      requires Valid()
      modifies this
      ensures Valid()
      ensures Validate(attrs).Err? ==> r == Err(ValidationError, Some("company_title"), TitleRequired) && Untouched()
      ensures Validate(attrs).Ok? ==> AccountCreated(attrs, fault, r)
      ensures r.Err? ==> Untouched()
      ensures r.Ok? ==> (r.value in companyOf <==> attrs.role == CompanyRole) && (r.value in seekerOf <==> attrs.role == SeekerRole)
    {
      var checked := Validate(attrs);
      if checked.Err? {
        return Err(checked.kind, checked.field, checked.message);
      }
      r := Create(checked.value, fault);
    }

    /** Creates the account of a validated request as one transaction: the
        account row, its password hashed when a non-empty one was given, then
        the one profile its role calls for. If the store raises an exception
        on the way, the transaction is rolled back and nothing is stored. */
    method Create(data: Registration, fault: RegistrationFault) returns (r: Result<nat>)
      requires Valid()
      modifies this
      ensures Valid()
      ensures AccountCreated(data, fault, r)
      ensures r.Err? ==> Untouched()
      ensures r.Ok? ==> (r.value in companyOf <==> data.role == CompanyRole) && (r.value in seekerOf <==> data.role == SeekerRole)
    {
      if fault.RegistrationFailsAt? && fault.step == UserInsert {
        return Err(ServerError, None, fault.detail);
      }
      var savedUsers, savedNext := users, nextId;
      var uid := AddUser(UserRow(data));
      if Given(data.password) {
        SavePassword(uid, Hashed(data.password.value));
      }
      var profile := ProfileFor(data, uid);
      if !profile.NoProfile? && fault.RegistrationFailsAt? && fault.step == ProfileInsert {
        // the transaction is rolled back: the account row goes too
        users, nextId := savedUsers, savedNext;
        return Err(ServerError, None, fault.detail);
      }
      assert uid !in companyOf && uid !in seekerOf by {
        assert uid !in old(users);
      }
      AddProfile(uid, profile);
      r := Ok(uid);
    }

    /** Stores the profile chosen for the new account `uid`. */
    method AddProfile(uid: nat, profile: Profile)
      requires Valid() && uid in users && uid !in companyOf && uid !in seekerOf
      requires profile.CompanyProfile? ==> profile.company.owner == uid
      requires profile.JobSeekerProfile? ==> profile.seeker == SeekerProfile(uid)
      modifies this
      ensures Valid()
      ensures match profile
        case CompanyProfile(c) =>
          && companies == old(companies)[old(nextId) := c] && companyOf == old(companyOf)[uid := old(nextId)]
          && seekers == old(seekers) && seekerOf == old(seekerOf) && nextId == old(nextId) + 1
        case JobSeekerProfile(p) =>
          && seekers == old(seekers)[old(nextId) := p] && seekerOf == old(seekerOf)[uid := old(nextId)]
          && companies == old(companies) && companyOf == old(companyOf) && nextId == old(nextId) + 1
        case NoProfile =>
          && companies == old(companies) && companyOf == old(companyOf)
          && seekers == old(seekers) && seekerOf == old(seekerOf) && nextId == old(nextId)
      ensures users == old(users) && jobs == old(jobs) && applications == old(applications)
      ensures resumes == old(resumes) && experiences == old(experiences)
    {
      match profile {
        case CompanyProfile(c) =>
          var _ := InsertCompany(uid, c);
        case JobSeekerProfile(p) =>
          var _ := GetOrCreateSeeker(uid);
        case NoProfile =>
      }
    }

    /** Inserts an account row under a fresh id. */
    method AddUser(u: User) returns (id: nat)
      requires Valid()
      modifies this
      ensures Valid()
      ensures id == old(nextId) && nextId == old(nextId) + 1 && users == old(users)[id := u]
      ensures companies == old(companies) && seekers == old(seekers) && jobs == old(jobs)
      ensures applications == old(applications) && resumes == old(resumes) && experiences == old(experiences)
      ensures companyOf == old(companyOf) && seekerOf == old(seekerOf)
    {
      id := nextId;
      users := users[id := u];
      nextId := nextId + 1;
    }

    /** Stores a new password column for an existing account. */
    method SavePassword(id: nat, c: Credential)
      requires Valid() && id in users
      modifies this
      ensures Valid()
      ensures users == old(users)[id := old(users)[id].(password := c)] && nextId == old(nextId)
      ensures companies == old(companies) && seekers == old(seekers) && jobs == old(jobs)
      ensures applications == old(applications) && resumes == old(resumes) && experiences == old(experiences)
      ensures companyOf == old(companyOf) && seekerOf == old(seekerOf)
    {
      users := users[id := users[id].(password := c)];
    }

    // ---------------------------------------------------------------------
    // Companies, jobs and applications

    /** Stores a new company for `caller`, unless the caller already owns one
        (the owner column is one-to-one). */
    method InsertCompany(caller: nat, c: Company) returns (r: Result<nat>)
      requires Valid() && caller in users && c.owner == caller
      modifies this
      ensures Valid()
      ensures caller in old(companyOf) ==> r == Err(ServerError, None, DuplicateOwner) && unchanged(this)
      ensures caller !in old(companyOf) ==>
        && r == Ok(old(nextId)) && nextId == old(nextId) + 1
        && companies == old(companies)[r.value := c] && companyOf == old(companyOf)[caller := r.value]
      ensures users == old(users) && seekers == old(seekers) && seekerOf == old(seekerOf) && jobs == old(jobs)
      ensures applications == old(applications) && resumes == old(resumes) && experiences == old(experiences)
    {
      if caller in companyOf {
        return Err(ServerError, None, DuplicateOwner);
      }
      r := Ok(nextId);
      companies := companies[nextId := c];
      companyOf := companyOf[caller := nextId];
      nextId := nextId + 1;
    }

    /** Company creation as the serializer is written: the owner is forced to
        the caller, but every other model field is writable, `is_active`
        included. */
    method CreateCompanyAsWritten(caller: nat, input: CompanyInput) returns (r: Result<nat>)
      requires Valid() && caller in users
      modifies this
      ensures Valid()
      ensures caller in old(companyOf) ==> r.Err? && unchanged(this)
      ensures caller !in old(companyOf) ==>
        && r == Ok(old(nextId)) && nextId == old(nextId) + 1 && companyOf == old(companyOf)[caller := r.value]
        && companies == old(companies)[r.value :=
             Company(caller, input.title, input.location, input.description, input.website, input.isActive)]
      ensures users == old(users) && seekers == old(seekers) && seekerOf == old(seekerOf) && jobs == old(jobs)
      ensures applications == old(applications) && resumes == old(resumes) && experiences == old(experiences)
    {
      r := InsertCompany(caller, Company(caller, input.title, input.location, input.description, input.website, input.isActive));
    }

    /** Company creation with the owner forced to the caller and the company
        created inactive, whatever the client sent for either field. */
    method CreateCompany(caller: nat, input: CompanyInput) returns (r: Result<nat>)
      requires Valid() && caller in users
      modifies this
      ensures Valid()
      ensures caller in old(companyOf) ==> r == Err(ServerError, None, DuplicateOwner) && unchanged(this)
      ensures caller !in old(companyOf) ==>
        && r == Ok(old(nextId)) && nextId == old(nextId) + 1 && companyOf == old(companyOf)[caller := r.value]
        && companies == old(companies)[r.value :=
             Company(caller, input.title, input.location, input.description, input.website, false)]
      ensures r.Ok? ==> companies[r.value].owner == caller && !companies[r.value].isActive
      ensures users == old(users) && seekers == old(seekers) && seekerOf == old(seekerOf) && jobs == old(jobs)
      ensures applications == old(applications) && resumes == old(resumes) && experiences == old(experiences)
    {
      r := InsertCompany(caller, Company(caller, input.title, input.location, input.description, input.website, false));
    }

    /** The administrative approval of a company, which happens outside the
        workflows modelled here; it is the only way a company becomes active. */
    method AdminActivate(id: nat)
      requires Valid() && id in companies
      modifies this
      ensures Valid()
      ensures companies == old(companies)[id := old(companies)[id].(isActive := true)]
      ensures users == old(users) && seekers == old(seekers) && jobs == old(jobs) && applications == old(applications)
      ensures resumes == old(resumes) && experiences == old(experiences)
      ensures companyOf == old(companyOf) && seekerOf == old(seekerOf) && nextId == old(nextId)
    {
      companies := companies[id := companies[id].(isActive := true)];
    }

    /** Posts a job for the caller's company. Fails with a validation error when
        the caller has no company, then with permission denied when the company
        is not active; the job's company is always the caller's. */
    method CreateJob(caller: nat, input: JobInput) returns (r: Result<nat>)
      requires Valid() && caller in users
      modifies this
      ensures Valid()
      ensures r.Err? ==> unchanged(this)
      ensures caller !in old(companyOf) ==> r == Err(ValidationError, None, NoCompany)
      ensures caller in old(companyOf) && !old(companies)[old(companyOf)[caller]].isActive ==>
                r == Err(PermissionDenied, None, ApprovalPending)
      ensures caller in old(companyOf) && old(companies)[old(companyOf)[caller]].isActive ==>
                && r == Ok(old(nextId)) && nextId == old(nextId) + 1
                && jobs == old(jobs)[r.value := Job(old(companyOf)[caller], input.title, input.description)]
      ensures r.Ok? ==> caller in companyOf && jobs[r.value].company == companyOf[caller]
      ensures r.Ok? ==> TotalJobs(jobs, companyOf[caller]) == TotalJobs(old(jobs), companyOf[caller]) + 1
      ensures users == old(users) && companies == old(companies) && seekers == old(seekers)
      ensures applications == old(applications) && resumes == old(resumes) && experiences == old(experiences)
      ensures companyOf == old(companyOf) && seekerOf == old(seekerOf)
    {
      if caller !in companyOf {
        return Err(ValidationError, None, NoCompany);
      }
      var cid := companyOf[caller];
      if !companies[cid].isActive {
        return Err(PermissionDenied, None, ApprovalPending);
      }
      var job := Job(cid, input.title, input.description);
      JobCountAfterPosting(jobs, nextId, job, cid);
      jobs := jobs[nextId := job];
      r := Ok(nextId);
      nextId := nextId + 1;
    }

    /** Applies the caller to a job. The job must exist (checked when the
        request is parsed), then the caller must have a seeker profile, which
        becomes the applicant whatever the client sent. */
    method CreateApplication(caller: nat, input: ApplicationInput) returns (r: Result<nat>)
      requires Valid() && caller in users
      modifies this
      ensures Valid()
      ensures r.Err? ==> unchanged(this)
      ensures input.job !in old(jobs) ==> r == Err(ValidationError, Some("job"), InvalidJob)
      ensures input.job in old(jobs) && caller !in old(seekerOf) ==> r == Err(ValidationError, None, NoSeekerProfile)
      ensures input.job in old(jobs) && caller in old(seekerOf) ==>
                && r == Ok(old(nextId)) && nextId == old(nextId) + 1
                && applications == old(applications)[r.value := Application(input.job, old(seekerOf)[caller], input.coverLetter)]
      ensures r.Ok? ==> caller in seekerOf && applications[r.value].applicant == seekerOf[caller]
      ensures r.Ok? ==> seekers[applications[r.value].applicant].owner == caller
      ensures r.Ok? ==> ApplicationsCount(applications, input.job) == ApplicationsCount(old(applications), input.job) + 1
      ensures users == old(users) && companies == old(companies) && seekers == old(seekers) && jobs == old(jobs)
      ensures resumes == old(resumes) && experiences == old(experiences)
      ensures companyOf == old(companyOf) && seekerOf == old(seekerOf)
    {
      if input.job !in jobs {
        return Err(ValidationError, Some("job"), InvalidJob);
      }
      if caller !in seekerOf {
        return Err(ValidationError, None, NoSeekerProfile);
      }
      var a := Application(input.job, seekerOf[caller], input.coverLetter);
      ApplicationCountAfterApplying(applications, nextId, a, input.job);
      applications := applications[nextId := a];
      r := Ok(nextId);
      nextId := nextId + 1;
    }

    // ---------------------------------------------------------------------
    // Seeker profiles and resumes

    /** The caller's seeker profile, created when missing: get-or-create by owner. */
    method GetOrCreateSeeker(caller: nat) returns (id: nat)
      requires Valid() && caller in users
      modifies this
      ensures Valid()
      ensures caller in seekerOf && id == seekerOf[caller] && seekers[id].owner == caller
      ensures caller in old(seekerOf) ==> unchanged(this)
      ensures caller !in old(seekerOf) ==>
        && id == old(nextId) && nextId == old(nextId) + 1
        && seekers == old(seekers)[id := SeekerProfile(caller)] && seekerOf == old(seekerOf)[caller := id]
      ensures users == old(users) && companies == old(companies) && jobs == old(jobs) && applications == old(applications)
      ensures resumes == old(resumes) && experiences == old(experiences) && companyOf == old(companyOf)
    {
      if caller in seekerOf {
        return seekerOf[caller];
      }
      id := nextId;
      seekers := seekers[id := SeekerProfile(caller)];
      seekerOf := seekerOf[caller := id];
      nextId := nextId + 1;
    }

    /** Inserts a resume row under a fresh id. */
    method InsertResume(row: Resume) returns (id: nat)
      requires Valid() && row.seeker in seekers
      modifies this
      ensures Valid()
      ensures id == old(nextId) && nextId == old(nextId) + 1 && resumes == old(resumes)[id := row]
      ensures users == old(users) && companies == old(companies) && seekers == old(seekers) && jobs == old(jobs)
      ensures applications == old(applications) && experiences == old(experiences)
      ensures companyOf == old(companyOf) && seekerOf == old(seekerOf)
    {
      id := nextId;
      resumes := resumes[id := row];
      nextId := nextId + 1;
    }

    /** The caller's own profile, as shown; created on the first call only. */
    method MyProfile(caller: nat) returns (r: SeekerRepr)
      requires Valid() && caller in users
      modifies this
      ensures Valid()
      ensures caller in seekerOf && r == SeekerRepr(seekerOf[caller], caller)
      ensures caller in old(seekerOf) ==> unchanged(this)
      ensures caller !in old(seekerOf) ==>
        && r.id == old(nextId) && nextId == old(nextId) + 1
        && seekers == old(seekers)[r.id := SeekerProfile(caller)] && seekerOf == old(seekerOf)[caller := r.id]
      ensures users == old(users) && companies == old(companies) && jobs == old(jobs) && applications == old(applications)
      ensures resumes == old(resumes) && experiences == old(experiences) && companyOf == old(companyOf)
    {
      var id := GetOrCreateSeeker(caller);
      r := SeekerView(id);
    }

    /** Uploads a resume for the caller: the screening checks, then
        get-or-create of the caller's profile, the title, and the new resume
        row. An exception from the store ends the request with a 500; being
        outside any transaction, what was stored before it stays. */
    method UploadResume(caller: nat, file: Option<UploadedFile>, title: Option<string>, fault: UploadFault)
      returns (r: Result<UploadReceipt>)
      requires Valid() && caller in users
      modifies this
      ensures Valid()
      ensures ScreenUpload(file).Err? ==>
                r == Err(BadRequest, Some("error"), ScreenUpload(file).message) && Untouched()
      ensures ScreenUpload(file).Ok? && fault.UploadFailsAt? && fault.step == ProfileLookup ==>
                r == Err(ServerError, Some("error"), UploadFailed + fault.detail) && Untouched()
      ensures ScreenUpload(file).Ok? && !(fault.UploadFailsAt? && fault.step == ProfileLookup) ==>
                UploadStored(caller, file.value, title, fault, r)
    {
      var screened := ScreenUpload(file);
      if screened.Err? {
        return Err(screened.kind, screened.field, screened.message);
      }
      if fault.UploadFailsAt? && fault.step == ProfileLookup {
        return Err(ServerError, Some("error"), UploadFailed + fault.detail);
      }
      r := StoreUpload(caller, screened.value, title, fault);
    }

    /** What an upload that passed the screening leaves behind: the caller
        has exactly one profile (the one found, or one made under the next
        id); unless the resume insert raised, a resume row holding the title
        and the file is stored under the next free id, and the request
        reports it, or a 500 when building the response raised. */
    twostate predicate UploadStored(caller: nat, f: UploadedFile, title: Option<string>, fault: UploadFault,
                                    new r: Result<UploadReceipt>)
      reads this
    {
      && caller in seekerOf && seekerOf[caller] in seekers && seekers[seekerOf[caller]].owner == caller
      && (caller in old(seekerOf) ==> seekers == old(seekers) && seekerOf == old(seekerOf))
      && (caller !in old(seekerOf) ==>
            && seekers == old(seekers)[old(nextId) := SeekerProfile(caller)]
            && seekerOf == old(seekerOf)[caller := old(nextId)])
      && users == old(users) && companies == old(companies) && jobs == old(jobs)
      && applications == old(applications) && experiences == old(experiences) && companyOf == old(companyOf)
      && (fault.UploadFailsAt? && fault.step == ResumeInsert ==>
            r == Err(ServerError, Some("error"), UploadFailed + fault.detail) && resumes == old(resumes))
      && (!(fault.UploadFailsAt? && fault.step == ResumeInsert) ==>
            var rid := if caller in old(seekerOf) then old(nextId) else old(nextId) + 1;
            && rid !in old(resumes) && nextId == rid + 1
            && resumes == old(resumes)[rid := Resume(seekerOf[caller], ResumeTitle(title, f.name), f.name, f.size)]
            && r == if fault.UploadSucceeds? then Ok(UploadReceipt(rid, ResumeTitle(title, f.name)))
                    else Err(ServerError, Some("error"), UploadFailed + fault.detail))
    }

    /** The part of an upload after the screening. */
    method StoreUpload(caller: nat, f: UploadedFile, title: Option<string>, fault: UploadFault)
      returns (r: Result<UploadReceipt>)
      requires Valid() && caller in users
      requires !(fault.UploadFailsAt? && fault.step == ProfileLookup)
      modifies this
      ensures Valid()
      ensures UploadStored(caller, f, title, fault, r)
    {
      var profile := GetOrCreateSeeker(caller);
      var resumeTitle := ResumeTitle(title, f.name);
      if fault.UploadFailsAt? && fault.step == ResumeInsert {
        return Err(ServerError, Some("error"), UploadFailed + fault.detail);
      }
      var rid := InsertResume(Resume(profile, resumeTitle, f.name, f.size));
      if fault.UploadFailsAt? {
        // the row is stored, but building the response (the file's URL) fails
        return Err(ServerError, Some("error"), UploadFailed + fault.detail);
      }
      r := Ok(UploadReceipt(rid, resumeTitle));
    }

    // ---------------------------------------------------------------------
    // Owner-scoped listings

    /** The ids of the seeker profiles that belong to account `caller`. */
    function ProfilesOf(caller: nat): set<nat>
      reads this
    {
      set s | s in seekers && seekers[s].owner == caller
    }

    /** The caller's resumes, newest first: exactly the resumes whose profile
        belongs to the caller, in strictly descending id order. */
    function ResumeListing(caller: nat): (r: seq<nat>)
      reads this
      requires Valid()
      ensures forall i, j :: 0 <= i < j < |r| ==> r[i] > r[j]
      ensures forall i :: 0 <= i < |r| ==> r[i] in resumes && seekers[resumes[r[i]].seeker].owner == caller
      ensures forall k :: k in resumes && seekers[resumes[k].seeker].owner == caller ==> k in r
    {
      Scoping.OwnedDescending(map k | k in resumes :: resumes[k].seeker, ProfilesOf(caller), nextId)
    }

    /** The caller's experiences, newest first, and no one else's. */
    function ExperienceListing(caller: nat): (r: seq<nat>)
      reads this
      requires Valid()
      ensures forall i, j :: 0 <= i < j < |r| ==> r[i] > r[j]
      ensures forall i :: 0 <= i < |r| ==> r[i] in experiences && seekers[experiences[r[i]].seeker].owner == caller
      ensures forall k :: k in experiences && seekers[experiences[k].seeker].owner == caller ==> k in r
    {
      Scoping.OwnedDescending(map k | k in experiences :: experiences[k].seeker, ProfilesOf(caller), nextId)
    }

    // ---------------------------------------------------------------------
    // Representations

    function UserView(id: nat): (r: UserRepr)
      reads this
      requires id in users
    {
      ShowUser(id, users[id])
    }

    function SeekerView(id: nat): (r: SeekerRepr)
      reads this
      requires id in seekers
    {
      SeekerRepr(id, seekers[id].owner)
    }

    /** A company as shown: its owner's account in full and its job count. */
    function CompanyView(id: nat): (r: CompanyRepr)
      reads this
      requires Valid() && id in companies
      ensures r.id == id && r.user == UserView(companies[id].owner) && r.user.id == companies[id].owner
      ensures r.totalJobs == TotalJobs(jobs, id)
      ensures r.title == companies[id].title && r.isActive == companies[id].isActive
    {
      var c := companies[id];
      CompanyRepr(id, UserView(c.owner), c.title, c.location, c.description, c.website, c.isActive, TotalJobs(jobs, id))
    }

    /** A job as shown: its company in full, the company's name (never absent,
        every job having a company) and its application count. */
    function JobView(id: nat): (r: JobRepr)
      reads this
      requires Valid() && id in jobs
      ensures r.id == id && r.company == CompanyView(jobs[id].company) && r.company.id == jobs[id].company
      ensures r.companyName == Some(companies[jobs[id].company].title)
      ensures r.applicationsCount == ApplicationsCount(applications, id)
    {
      var j := jobs[id];
      JobRepr(id, CompanyView(j.company), Some(companies[j.company].title), j.title, j.description,
              ApplicationsCount(applications, id))
    }

    /** An application as shown: the job and the applicant are the full
        representations of the referenced rows, and still carry their ids. */
    function ApplicationView(id: nat): (r: ApplicationRepr)
      reads this
      requires Valid() && id in applications
      ensures r.id == id
      ensures r.job == JobView(applications[id].job) && r.job.id == applications[id].job
      ensures r.applicant == SeekerView(applications[id].applicant) && r.applicant.id == applications[id].applicant
      ensures r.jobTitle == Some(jobs[applications[id].job].title)
      ensures r.companyName == Some(companies[jobs[applications[id].job].company].title)
    {
      var a := applications[id];
      var job := JobView(a.job);
      ApplicationRepr(id, job, SeekerView(a.applicant), a.coverLetter, Some(jobs[a.job].title), job.companyName)
    }
  }
}

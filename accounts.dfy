/** Registration of an account: the company-title rule applied to the request,
    and the rows that creating the account makes, with the defaults a company
    profile receives. */
module Accounts {
  import opened Outcomes
  import opened Entities

  const CompanyRole := "company"
  const SeekerRole := "job_seeker"
  const TitleRequired := "Company title is required when registering as a company."

  /** The attributes of a registration request once its fields have been
      parsed; absent optional attributes are `None`. The four company
      attributes are write-only inputs, never part of the account. */
  datatype Registration = Registration(
    username: string,
    email: string,
    password: Option<string>,
    role: string,
    firstName: string,
    lastName: string,
    companyTitle: Option<string>,
    companyLocation: Option<string>,
    companyDescription: Option<string>,
    companyWebsite: Option<string>)

  /** The object-level validation rule: a company must come with a title;
      no other request is rejected by it. */
  function Validate(attrs: Registration): (r: Result<Registration>)
    ensures attrs.role != CompanyRole ==> r == Ok(attrs)
    ensures attrs.role == CompanyRole ==> (r.Ok? <==> Given(attrs.companyTitle))
    ensures r.Ok? ==> r.value == attrs
    ensures r.Err? ==> r.kind == ValidationError && r.field == Some("company_title") && r.message == TitleRequired
  {
    if attrs.role == CompanyRole && !Given(attrs.companyTitle) then
      Err(ValidationError, Some("company_title"), TitleRequired)
    else
      Ok(attrs)
  }

  /** The account row as first inserted: built from the account attributes
      only, with the password column not yet set. */
  function UserRow(d: Registration): User {
    User(d.username, d.email, Blank, d.role, d.firstName, d.lastName)
  }

  /** The password column after creation: hashed when a non-empty password
      was supplied, left blank otherwise. */
  function CredentialFor(password: Option<string>): Credential {
    if Given(password) then Hashed(password.value) else Blank
  }

  /** The account as stored once creation is complete. */
  function NewUser(d: Registration): User {
    UserRow(d).(password := CredentialFor(d.password))
  }

  /** The company title: the supplied one, or the owner's first and last name. */
  function CompanyTitle(d: Registration): string {
    if Given(d.companyTitle) then d.companyTitle.value else d.firstName + " " + d.lastName
  }

  /** The company profile created for a company account owned by `owner`. */
  function NewCompany(d: Registration, owner: nat): Company {
    var title := CompanyTitle(d);
    Company(
      owner,
      title,
      if Given(d.companyLocation) then d.companyLocation.value else "",
      if Given(d.companyDescription) then d.companyDescription.value else "Welcome to " + title + "!",
      if Given(d.companyWebsite) then Some(d.companyWebsite.value) else None,
      false)
  }

  /** The profile a registration creates, chosen by role. */
  datatype Profile = CompanyProfile(company: Company) | JobSeekerProfile(seeker: SeekerProfile) | NoProfile

  function ProfileFor(d: Registration, owner: nat): Profile {
    if d.role == CompanyRole then CompanyProfile(NewCompany(d, owner))
    else if d.role == SeekerRole then JobSeekerProfile(SeekerProfile(owner))
    else NoProfile
  }

  /** The defaults of a company profile: the title falls back to the owner's
      name, the description to a welcome line naming the title, the location
      to the empty text and the website to none; the company starts inactive
      and belongs to the new account. */
  lemma CompanyDefaults(d: Registration, owner: nat)
    ensures NewCompany(d, owner).owner == owner
    ensures NewCompany(d, owner).title ==
      if Given(d.companyTitle) then d.companyTitle.value else d.firstName + " " + d.lastName
    ensures var c := NewCompany(d, owner);
      c.description == if Given(d.companyDescription) then d.companyDescription.value
                       else "Welcome to " + c.title + "!"
    ensures NewCompany(d, owner).location == if Given(d.companyLocation) then d.companyLocation.value else ""
    ensures NewCompany(d, owner).website == if Given(d.companyWebsite) then d.companyWebsite else None
    ensures !NewCompany(d, owner).isActive
  {
  }

  /** Consequences of the defaults: a company's description is never empty,
      and its website is never the empty text (empty becomes none). */
  lemma CompanyTextsNormalised(d: Registration, owner: nat)
    ensures NewCompany(d, owner).description != ""
    ensures NewCompany(d, owner).website != Some("")
  {
    var c := NewCompany(d, owner);
    if !Given(d.companyDescription) {
      assert c.description[0] == 'W';
    }
  }

  /** Once the request has passed validation, the title of a company is the
      supplied one: the fallback to the owner's name is never used on that path. */
  lemma ValidatedCompanyKeepsItsTitle(d: Registration, owner: nat)
    requires Validate(d).Ok? && d.role == CompanyRole
    ensures NewCompany(d, owner).title == d.companyTitle.value != ""
  {
  }

  /** Exactly one profile kind per role: a company account gets a company and
      no seeker profile, a job seeker the reverse, any other role neither. */
  lemma ProfileDispatch(d: Registration, owner: nat)
    ensures ProfileFor(d, owner).CompanyProfile? <==> d.role == CompanyRole
    ensures ProfileFor(d, owner).JobSeekerProfile? <==> d.role == SeekerRole
    ensures ProfileFor(d, owner).NoProfile? <==> d.role != CompanyRole && d.role != SeekerRole
    ensures ProfileFor(d, owner).CompanyProfile? ==> ProfileFor(d, owner).company.owner == owner
    ensures ProfileFor(d, owner).JobSeekerProfile? ==> ProfileFor(d, owner).seeker.owner == owner
  {
  }

  /** The account row does not depend on the company attributes: they are
      removed from the request before the account is created. */
  lemma AccountIgnoresCompanyFields(d: Registration, e: Registration)
    requires d.username == e.username && d.email == e.email && d.password == e.password
    requires d.role == e.role && d.firstName == e.firstName && d.lastName == e.lastName
    ensures NewUser(d) == NewUser(e)
  {
  }

  /** The password is only ever stored hashed: two accounts with the same
      stored hash were given the same password, an empty or absent password
      leaves the column blank, and the plaintext is never the column's value. */
  lemma PasswordStoredHashed(d: Registration, e: Registration)
    ensures Given(d.password) ==> NewUser(d).password == Hashed(d.password.value)
    ensures !Given(d.password) ==> NewUser(d).password == Blank
    ensures NewUser(d).password == NewUser(e).password && NewUser(d).password != Blank ==> d.password == e.password
  {
  }
}

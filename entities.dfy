/** The rows of the job board's store. Every row is kept in a table keyed by
    its id; references between rows are ids. */
module Entities {
  import opened Outcomes

  /** What the account's password column holds. `Hashed(p)` stands for the
      opaque, injective result of hashing `p`; `Blank` is the empty column an
      account gets when no password was supplied (an unusable password). */
  datatype Credential = Blank | Hashed(secret: string)

  datatype User = User(
    username: string,
    email: string,
    password: Credential,
    role: string,
    firstName: string,
    lastName: string)

  /** A company profile; `owner` is the id of the account it belongs to
      (one company per account). */
  datatype Company = Company(
    owner: nat,
    title: string,
    location: string,
    description: string,
    website: Option<string>,
    isActive: bool)

  /** A job seeker profile; `owner` is the id of its account (one per account). */
  datatype SeekerProfile = SeekerProfile(owner: nat)

  datatype Job = Job(company: nat, title: string, description: string)

  /** An application of the seeker profile `applicant` to the job `job`. */
  datatype Application = Application(job: nat, applicant: nat, coverLetter: string)

  /** A resume row: its owner profile, its title and the uploaded file's name
      and size in bytes (the file's bytes live in external storage). */
  datatype Resume = Resume(seeker: nat, title: string, fileName: string, size: nat)

  datatype Experience = Experience(seeker: nat, position: string)
}

/** The read side of companies, jobs and applications: the counts a company
    and a job report, and the shapes of their representations, in which
    references are replaced by the full nested objects. */
module Postings {
  import opened Outcomes
  import opened Entities

  /** The ids of the rows whose key, as `key` reads it off the row, is `k`. */
  function Having<T>(rows: map<nat, T>, key: T -> nat, k: nat): set<nat> {
    set i | i in rows && key(rows[i]) == k
  }

  /** The number of jobs posted by company `company`. */
  function TotalJobs(jobs: map<nat, Job>, company: nat): nat {
    |Having(jobs, (j: Job) => j.company, company)|
  }

  /** The number of applications made to job `job`. */
  function ApplicationsCount(applications: map<nat, Application>, job: nat): nat {
    |Having(applications, (a: Application) => a.job, job)|
  }

  /** Inserting a row under a fresh id adds one to the count of its own key
      and leaves every other key's count as it was. */
  lemma {:induction false} InsertCountsOnce<T>(rows: map<nat, T>, key: T -> nat, k: nat, id: nat, row: T)
    requires id !in rows
    ensures |Having(rows[id := row], key, k)| == |Having(rows, key, k)| + (if key(row) == k then 1 else 0)
  {
    if key(row) == k {
      assert Having(rows[id := row], key, k) == Having(rows, key, k) + {id};
    } else {
      assert Having(rows[id := row], key, k) == Having(rows, key, k);
    }
  }

  /** Posting a job adds one to its company's job count and to no other. */
  lemma JobCountAfterPosting(jobs: map<nat, Job>, id: nat, job: Job, c: nat)
    requires id !in jobs
    ensures TotalJobs(jobs[id := job], c) == TotalJobs(jobs, c) + (if job.company == c then 1 else 0)
  {
    InsertCountsOnce(jobs, (j: Job) => j.company, c, id, job);
  }

  /** Applying adds one to the job's application count and to no other. */
  lemma ApplicationCountAfterApplying(applications: map<nat, Application>, id: nat, a: Application, job: nat)
    requires id !in applications
    ensures ApplicationsCount(applications[id := a], job) ==
            ApplicationsCount(applications, job) + (if a.job == job then 1 else 0)
  {
    InsertCountsOnce(applications, (x: Application) => x.job, job, id, a);
  }

  /** An account as it is shown: no password and no company attributes. */
  datatype UserRepr = UserRepr(
    id: nat, username: string, email: string, role: string, firstName: string, lastName: string)

  datatype CompanyRepr = CompanyRepr(
    id: nat, user: UserRepr, title: string, location: string, description: string,
    website: Option<string>, isActive: bool, totalJobs: nat)

  datatype JobRepr = JobRepr(
    id: nat, company: CompanyRepr, companyName: Option<string>, title: string,
    description: string, applicationsCount: nat)

  datatype SeekerRepr = SeekerRepr(id: nat, user: nat)

  /** An application as it is shown: `job` and `applicant` are the full
      representations of the job and of the seeker profile, not their ids. */
  datatype ApplicationRepr = ApplicationRepr(
    id: nat, job: JobRepr, applicant: SeekerRepr, coverLetter: string,
    jobTitle: Option<string>, companyName: Option<string>)

  function ShowUser(id: nat, u: User): (r: UserRepr) {
    UserRepr(id, u.username, u.email, u.role, u.firstName, u.lastName)
  }

  /** Showing an account loses only the password: two accounts shown alike
      differ at most in their password column. */
  lemma ShowUserHidesOnlyPassword(id: nat, u: User, v: User)
    requires ShowUser(id, u) == ShowUser(id, v)
    ensures u.(password := Blank) == v.(password := Blank)
  {
  }
}

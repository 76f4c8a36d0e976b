/** The records both store adapters hold, and the difficulty gate that the
    recommendation route and the Firestore adapter share. Dates are
    milliseconds since the epoch; `number` fields are integers. */
module Entities {
  import opened Seqs

  /** A stored account. The password is kept as given (plaintext). */
  datatype User = User(
    id: string,
    firstName: string,
    lastName: string,
    email: string,
    password: string,
    githubUsername: Option<string>,
    experience: string,
    goals: seq<string>,
    timeCommitment: string,
    createdAt: int,
    updatedAt: int)

  /** A project in the catalogue. */
  datatype Project = Project(
    id: string,
    title: string,
    description: string,
    difficulty: string,
    technologies: seq<string>,
    estimatedHours: int,
    category: string,
    githubUrl: Option<string>,
    createdAt: int)

  /** A login session: a bearer token that stops being valid at `expiresAt`. */
  datatype Session = Session(
    id: string,
    userId: string,
    token: string,
    expiresAt: int,
    createdAt: int)

  /** A session is valid for one day: 24 * 60 * 60 * 1000 milliseconds. */
  const SessionLifetime: int := 24 * 60 * 60 * 1000

  /** The difficulty gate of the recommendation route and of the Firestore
      adapter's recommend: a beginner is shown everything except advanced
      projects, intermediate and advanced users are shown everything, and
      any other level string is shown nothing. */
  predicate AdmitsDifficulty(level: string, difficulty: string) {
    || (level == "beginner" && difficulty != "advanced")
    || level == "intermediate"
    || level == "advanced"
  }

  /** The projects a skill level admits, in catalogue order. */
  function AdmittedFor(projects: seq<Project>, level: string): (r: seq<Project>)
    ensures forall j :: 0 <= j < |r| ==> r[j] in projects && AdmitsDifficulty(level, r[j].difficulty)
    ensures forall j :: 0 <= j < |projects| && AdmitsDifficulty(level, projects[j].difficulty) ==> projects[j] in r
    ensures forall p :: multiset(r)[p] == if AdmitsDifficulty(level, p.difficulty) then multiset(projects)[p] else 0
  {
    FilterCount(projects, (p: Project) => AdmitsDifficulty(level, p.difficulty));
    Filter(projects, (p: Project) => AdmitsDifficulty(level, p.difficulty))
  }

  /** The gate admits a project for every known level except the
      beginner/advanced pair, and nothing for an unknown level. */
  lemma AdmittedForLevels(projects: seq<Project>, level: string)
    ensures level == "beginner" ==> forall p :: p in AdmittedFor(projects, level) ==> p.difficulty != "advanced"
    ensures level == "intermediate" || level == "advanced" ==> AdmittedFor(projects, level) == projects
    ensures level != "beginner" && level != "intermediate" && level != "advanced" ==> AdmittedFor(projects, level) == []
  {
    var gate := (p: Project) => AdmitsDifficulty(level, p.difficulty);
    if level == "intermediate" || level == "advanced" {
      FilterKeepsAll(projects, gate);
    }
    if level != "beginner" && level != "intermediate" && level != "advanced" {
      FilterDropsAll(projects, gate);
    }
  }
}

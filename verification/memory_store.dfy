/** The process-local store of src/lib/database.ts: three module-level
    arrays (users, projects, sessions) changed in place, the queries over
    them, the rule-based `recommend`, and the password placeholders.
    Random ids and tokens and the clock are parameters. */
module MemoryStore {
  import opened Seqs
  import opened Strings
  import opened Entities

  // ---------------------------------------------------------------------
  // Password placeholders

  const HashPrefix: string := "hashed_"

  /** The placeholder hash: the password behind a fixed prefix. */
  function HashPassword(password: string): (h: string)
    ensures VerifyPassword(password, h)
  {
    HashPrefix + password
  }

  /** A stored hash matches a password when it is that password's hash. */
  predicate VerifyPassword(password: string, hashedPassword: string) {
    hashedPassword == HashPrefix + password
  }

  /** A hash verifies against the password it was made from and against no
      other password. */
  lemma {:induction false} VerifyHashedPassword(password: string, attempt: string)
    ensures VerifyPassword(password, HashPassword(password))
    ensures VerifyPassword(attempt, HashPassword(password)) <==> attempt == password
  {
    if VerifyPassword(attempt, HashPassword(password)) {
      calc {
        attempt;
        (HashPrefix + attempt)[|HashPrefix|..];
        (HashPrefix + password)[|HashPrefix|..];
        password;
      }
    }
  }

  // ---------------------------------------------------------------------
  // Users

  /** What `users.create` is given: every field except the id and the dates. */
  datatype NewUser = NewUser(
    firstName: string,
    lastName: string,
    email: string,
    password: string,
    githubUsername: Option<string>,
    experience: string,
    goals: seq<string>,
    timeCommitment: string)

  /** The fields a `Partial<User>` update may carry; `updatedAt` is left out
      because `users.update` overwrites it with the current time anyway. */
  datatype UserUpdate = UserUpdate(
    id: Option<string>,
    firstName: Option<string>,
    lastName: Option<string>,
    email: Option<string>,
    password: Option<string>,
    githubUsername: Option<string>,
    experience: Option<string>,
    goals: Option<seq<string>>,
    timeCommitment: Option<string>,
    createdAt: Option<int>)

  /** The user carries every field it was created from. */
  predicate Carries(u: User, data: NewUser) {
    && u.firstName == data.firstName && u.lastName == data.lastName
    && u.email == data.email && u.password == data.password
    && u.githubUsername == data.githubUsername && u.experience == data.experience
    && u.goals == data.goals && u.timeCommitment == data.timeCommitment
  }

  /** The record `users.create` builds from its data, a fresh id and the time. */
  function NewRecord(data: NewUser, id: string, now: int): (u: User)
    ensures Carries(u, data) && u.id == id && u.createdAt == now && u.updatedAt == now
  {
    User(id, data.firstName, data.lastName, data.email, data.password, data.githubUsername,
         data.experience, data.goals, data.timeCommitment, now, now)
  }

  /** `{ ...user, ...updates, updatedAt: now }`. */
  function ApplyUpdate(u: User, upd: UserUpdate, now: int): (r: User)
    ensures r.updatedAt == now
  {
    User(
      upd.id.GetOr(u.id), upd.firstName.GetOr(u.firstName), upd.lastName.GetOr(u.lastName),
      upd.email.GetOr(u.email), upd.password.GetOr(u.password),
      if upd.githubUsername.Some? then upd.githubUsername else u.githubUsername,
      upd.experience.GetOr(u.experience), upd.goals.GetOr(u.goals),
      upd.timeCommitment.GetOr(u.timeCommitment), upd.createdAt.GetOr(u.createdAt), now)
  }

  /** `users.find(u => u.email === email) || null`. */
  function FindByEmail(users: seq<User>, email: string): (r: Option<User>)
    ensures r.None? <==> forall j :: 0 <= j < |users| ==> users[j].email != email
    ensures r.Some? ==> exists i :: 0 <= i < |users| && users[i] == r.value && r.value.email == email
                                    && forall j :: 0 <= j < i ==> users[j].email != email
  {
    FindFirst(users, (u: User) => u.email == email)
  }

  /** `users.findIndex(u => u.id === id)`. */
  function IndexOfId(users: seq<User>, id: string): (r: Option<nat>)
    ensures r.Some? ==> r.value < |users| && users[r.value].id == id
    ensures r.Some? ==> forall j :: 0 <= j < r.value ==> users[j].id != id
    ensures r.None? <==> forall j :: 0 <= j < |users| ==> users[j].id != id
  {
    FindIndex(users, (u: User) => u.id == id)
  }

  /** `users.find(u => u.id === id) || null`. */
  function FindById(users: seq<User>, id: string): (r: Option<User>)
    ensures r.None? <==> forall j :: 0 <= j < |users| ==> users[j].id != id
    ensures r.Some? ==> exists i :: 0 <= i < |users| && users[i] == r.value && r.value.id == id
                                    && forall j :: 0 <= j < i ==> users[j].id != id
  {
    FindFirst(users, (u: User) => u.id == id)
  }

  /** A user appended to the store is what findByEmail returns for its
      email, unless an earlier user already has that email. */
  lemma {:induction false} FindByEmailAfterCreate(users: seq<User>, u: User, email: string)
    ensures FindByEmail(users + [u], email) ==
      if FindByEmail(users, email).Some? then FindByEmail(users, email)
      else if u.email == email then Some(u)
      else None
  {
    var p := (x: User) => x.email == email;
    FindIndexAppend(users, u, p);
    assert forall j :: 0 <= j < |users| ==> (users + [u])[j] == users[j];
  }

  /** No two users share an email. */
  ghost predicate EmailsUnique(users: seq<User>) {
    forall i, j :: 0 <= i < |users| && 0 <= j < |users| && users[i].email == users[j].email ==> i == j
  }

  /** After an update of an existing user that leaves the id alone,
      findById finds the updated record. */
  lemma {:induction false} FindByIdAfterUpdate(users: seq<User>, id: string, upd: UserUpdate, now: int)
    requires IndexOfId(users, id).Some?
    requires upd.id.None? || upd.id == Some(id)
    ensures var i := IndexOfId(users, id).value;
            FindById(users[i := ApplyUpdate(users[i], upd, now)], id) == Some(ApplyUpdate(users[i], upd, now))
  {
    var i := IndexOfId(users, id).value;
    var updated := users[i := ApplyUpdate(users[i], upd, now)];
    FindIndexIsFirst(updated, (u: User) => u.id == id, i);
  }

  // ---------------------------------------------------------------------
  // Projects

  /** `projects.filter(p => p.difficulty === difficulty)`. */
  function FindByDifficulty(projects: seq<Project>, difficulty: string): (r: seq<Project>)
    ensures forall j :: 0 <= j < |r| ==> r[j] in projects && r[j].difficulty == difficulty
    ensures forall j :: 0 <= j < |projects| && projects[j].difficulty == difficulty ==> projects[j] in r
    ensures forall p :: multiset(r)[p] == if p.difficulty == difficulty then multiset(projects)[p] else 0
  {
    FilterCount(projects, (p: Project) => p.difficulty == difficulty);
    Filter(projects, (p: Project) => p.difficulty == difficulty)
  }

  /** The finder keeps stored order: on a store split in two, it answers
      the first part's matches, then the second part's. */
  lemma FindByDifficultyKeepsOrder(front: seq<Project>, back: seq<Project>, difficulty: string)
    ensures FindByDifficulty(front + back, difficulty) == FindByDifficulty(front, difficulty) + FindByDifficulty(back, difficulty)
  {
    FilterConcat(front, back, (p: Project) => p.difficulty == difficulty);
  }

  /** Some technology contains the query, ignoring ASCII case. */
  predicate UsesTechnology(technologies: seq<string>, technology: string) {
    exists t :: t in technologies && Includes(ToLower(t), ToLower(technology))
  }

  /** `projects.filter(p => p.technologies.some(t =>
      t.toLowerCase().includes(technology.toLowerCase())))`. */
  function FindByTechnology(projects: seq<Project>, technology: string): (r: seq<Project>)
    ensures forall j :: 0 <= j < |r| ==> r[j] in projects && UsesTechnology(r[j].technologies, technology)
    ensures forall j :: 0 <= j < |projects| && UsesTechnology(projects[j].technologies, technology) ==> projects[j] in r
    ensures forall p :: multiset(r)[p] == if UsesTechnology(p.technologies, technology) then multiset(projects)[p] else 0
  {
    FilterCount(projects, (p: Project) => UsesTechnology(p.technologies, technology));
    Filter(projects, (p: Project) => UsesTechnology(p.technologies, technology))
  }

  /** The technology query is case-insensitive: it finds the same projects
      as its lower-cased form. */
  lemma FindByTechnologyIgnoresCase(projects: seq<Project>, technology: string)
    ensures FindByTechnology(projects, technology) == FindByTechnology(projects, ToLower(technology))
  {
    ToLowerIdempotent(technology);
    FilterCongruent(projects,
      (p: Project) => UsesTechnology(p.technologies, technology),
      (p: Project) => UsesTechnology(p.technologies, ToLower(technology)));
  }

  /** The hour window a time commitment describes: `min+` or `min-max`.
      A present but unparsable maximum is NaN, which no hour count satisfies. */
  datatype HourWindow = AtLeast(min: int) | Between(min: int, max: Num)

  predicate InWindow(w: HourWindow, hours: int) {
    match w
    case AtLeast(m) => hours >= m
    case Between(m, NaN) => false
    case Between(m, Int(x)) => m <= hours <= x
  }

  /** `timeCommitment.split("-").map(s => s.replace("+", ""))`, then
      `min = parseInt(parts[0]) || 0` and, when `parts[1]` is non-empty,
      `max = parseInt(parts[1])`. */
  function TimeWindow(timeCommitment: string): HourWindow {
    var parts := Split(timeCommitment, '-');
    var min := ParseIntOrZero(RemoveFirst(parts[0], '+'));
    if |parts| >= 2 && RemoveFirst(parts[1], '+') != "" then
      Between(min, ParseInt(RemoveFirst(parts[1], '+')))
    else
      AtLeast(min)
  }

  /** `"a-b"` is the window from a to b hours. */
  lemma TimeWindowOfRange(a: nat, b: nat)
    ensures TimeWindow(NatToString(a) + "-" + NatToString(b)) == Between(a, Int(b))
  {
    var A, B := NatToString(a), NatToString(b);
    NatToStringHasNoPunctuation(a);
    NatToStringHasNoPunctuation(b);
    assert Join([A, B], '-') == A + "-" + B by {
      assert [A, B][1..] == [B];
    }
    SplitJoin([A, B], '-');
    ParseIntOfNatToString(a, "");
    ParseIntOfNatToString(b, "");
    assert A + "" == A && B + "" == B;
  }

  /** `"a+"` is the window of a hours or more. */
  lemma TimeWindowOfOpenRange(a: nat)
    ensures TimeWindow(NatToString(a) + "+") == AtLeast(a)
  {
    var A := NatToString(a);
    NatToStringHasNoPunctuation(a);
    assert '-' !in A + "+";
    SplitNoSeparator(A + "+", '-');
    RemoveFirstOccurrence(A, '+', "");
    assert A + "+" == A + ['+'] + "" && A + "" == A;
    ParseIntOfNatToString(a, "");
  }

  /** The level gate of the in-memory recommend: only a beginner is
      restricted, and only away from advanced projects. */
  predicate ExperienceAdmits(experience: string, difficulty: string) {
    if experience == "beginner" then difficulty != "advanced" else true
  }

  /** The projects that pass both of recommend's filters. */
  predicate Recommendable(user: User, p: Project) {
    ExperienceAdmits(user.experience, p.difficulty) && InWindow(TimeWindow(user.timeCommitment), p.estimatedHours)
  }

  /** `projects.recommend(user)`: the level filter, then the hour filter,
      then the first five. */
  function Recommend(projects: seq<Project>, user: User): (r: seq<Project>)
    ensures |r| <= 5
    ensures forall j :: 0 <= j < |r| ==> r[j] in projects && Recommendable(user, r[j])
    ensures user.experience == "beginner" ==> forall j :: 0 <= j < |r| ==> r[j].difficulty != "advanced"
    ensures |r| < 5 ==> forall j :: 0 <= j < |projects| && Recommendable(user, projects[j]) ==> projects[j] in r
  {
    var byLevel := Filter(projects, (p: Project) => ExperienceAdmits(user.experience, p.difficulty));
    var window := TimeWindow(user.timeCommitment);
    var byHours := Filter(byLevel, (p: Project) => InWindow(window, p.estimatedHours));
    Take(byHours, 5)
  }

  /** The two filters are one order-preserving filter by both conditions,
      so recommend is the first five recommendable projects in store order. */
  lemma RecommendIsFirstFive(projects: seq<Project>, user: User)
    ensures Recommend(projects, user) == Take(Filter(projects, (p: Project) => Recommendable(user, p)), 5)
  {
    var window := TimeWindow(user.timeCommitment);
    FilterTwice(projects,
      (p: Project) => ExperienceAdmits(user.experience, p.difficulty),
      (p: Project) => InWindow(window, p.estimatedHours),
      (p: Project) => Recommendable(user, p));
  }

  /** With a time commitment `"a-b"`, recommend keeps exactly the hours in
      [a, b]; with `"a+"`, the hours from a up. */
  lemma RecommendHonoursTimeCommitment(projects: seq<Project>, user: User, a: nat, b: nat)
    ensures user.timeCommitment == NatToString(a) + "-" + NatToString(b) ==>
      forall p :: p in Recommend(projects, user) ==> a <= p.estimatedHours <= b
    ensures user.timeCommitment == NatToString(a) + "+" ==>
      forall p :: p in Recommend(projects, user) ==> a <= p.estimatedHours
  {
    TimeWindowOfRange(a, b);
    TimeWindowOfOpenRange(a);
  }

  /** Every experience other than "beginner", known or not, is shown every
      level (the hour filter and the cap of five still apply). */
  lemma RecommendAdmitsAllLevelsBeyondBeginner(projects: seq<Project>, user: User)
    requires user.experience != "beginner"
    ensures forall p :: p in projects ==> (Recommendable(user, p) <==> InWindow(TimeWindow(user.timeCommitment), p.estimatedHours))
  {
  }

  // ---------------------------------------------------------------------
  // Sessions

  /** `sessions.findIndex(s => s.token === token)`. */
  function IndexOfToken(sessions: seq<Session>, token: string): (r: Option<nat>)
    ensures r.Some? ==> r.value < |sessions| && sessions[r.value].token == token
    ensures r.Some? ==> forall j :: 0 <= j < r.value ==> sessions[j].token != token
    ensures r.None? <==> forall j :: 0 <= j < |sessions| ==> sessions[j].token != token
  {
    FindIndex(sessions, (s: Session) => s.token == token)
  }

  /** `sessions.findByToken(token)`: the first session with the token,
      unless there is none or it expired before `now`. */
  function FindByToken(sessions: seq<Session>, token: string, now: int): (r: Option<Session>)
    ensures r.Some? ==> r.value in sessions && r.value.token == token && now <= r.value.expiresAt
    ensures r.Some? ==> exists i :: 0 <= i < |sessions| && sessions[i] == r.value
                                    && forall j :: 0 <= j < i ==> sessions[j].token != token
    ensures r.None? <==>
      || (forall j :: 0 <= j < |sessions| ==> sessions[j].token != token)
      || (exists i :: 0 <= i < |sessions| && sessions[i].token == token && sessions[i].expiresAt < now
                      && forall j :: 0 <= j < i ==> sessions[j].token != token)
  {
    var s := FindFirst(sessions, (x: Session) => x.token == token);
    if s.None? || s.value.expiresAt < now then None else s
  }

  /** The sessions left by `sessions.delete(token)`: the first session with
      the token is spliced out. */
  function AfterDelete(sessions: seq<Session>, token: string): (r: seq<Session>)
    ensures (forall j :: 0 <= j < |sessions| ==> sessions[j].token != token) ==> r == sessions
    ensures (exists j :: 0 <= j < |sessions| && sessions[j].token == token) ==>
      exists i :: 0 <= i < |sessions| && sessions[i].token == token
               && (forall j :: 0 <= j < i ==> sessions[j].token != token)
               && r == sessions[..i] + sessions[i + 1..]
  {
    match IndexOfToken(sessions, token)
    case None => sessions
    case Some(i) => sessions[..i] + sessions[i + 1..]
  }

  /** No two sessions share a token. */
  ghost predicate TokensUnique(sessions: seq<Session>) {
    forall i, j :: 0 <= i < |sessions| && 0 <= j < |sessions| && sessions[i].token == sessions[j].token ==> i == j
  }

  /** The session record `sessions.create` builds: valid for one day. */
  function NewSession(userId: string, id: string, token: string, now: int): (s: Session)
    ensures s.userId == userId && s.token == token && s.expiresAt == now + SessionLifetime
  {
    Session(id, userId, token, now + SessionLifetime, now)
  }

  /** A session created with a fresh token is found by that token until it
      expires, one day later, and not after. */
  lemma {:induction false} CreatedSessionIsFound(sessions: seq<Session>, userId: string, id: string, token: string, now: int, later: int)
    requires forall j :: 0 <= j < |sessions| ==> sessions[j].token != token
    ensures var s := NewSession(userId, id, token, now);
            FindByToken(sessions + [s], token, later) == if later <= now + SessionLifetime then Some(s) else None
  {
    var s := NewSession(userId, id, token, now);
    FindIndexAppend(sessions, s, (x: Session) => x.token == token);
    FindIndexIsFirst(sessions + [s], (x: Session) => x.token == token, |sessions|);
  }

  /** With unique tokens, a deleted token is no longer found. */
  lemma {:induction false} DeletedSessionIsGone(sessions: seq<Session>, token: string, now: int)
    requires TokensUnique(sessions)
    ensures FindByToken(AfterDelete(sessions, token), token, now).None?
  {
    var r := AfterDelete(sessions, token);
    if i :| 0 <= i < |sessions| && sessions[i].token == token {
      forall j | 0 <= j < |r| ensures r[j].token != token {
        if j < i {
          assert r[j] == sessions[j];
        } else {
          assert r[j] == sessions[j + 1];
        }
      }
    }
  }

  // ---------------------------------------------------------------------
  // The store

  /** The three catalogue entries the module starts with. */
  function SeedProjects(now: int): seq<Project> {
    [ Project("1", "Todo App with React", "Build a modern todo application using React and TypeScript",
              "beginner", ["React", "TypeScript", "CSS"], 8, "Frontend", None, now),
      Project("2", "REST API with Node.js", "Create a RESTful API using Node.js, Express, and MongoDB",
              "intermediate", ["Node.js", "Express", "MongoDB"], 16, "Backend", None, now),
      Project("3", "E-commerce Platform", "Full-stack e-commerce platform with payment integration",
              "advanced", ["Next.js", "PostgreSQL", "Stripe"], 40, "Full Stack", None, now) ]
  }

  /** The module-level arrays of database.ts and the operations that change
      them in place. */
  class Database {
    var users: seq<User>
    var projects: seq<Project>
    var sessions: seq<Session>

    /** The store as the module loads: no users, no sessions, the seed catalogue. */
    constructor (now: int)
      ensures users == [] && sessions == [] && projects == SeedProjects(now)
    {
      users := [];
      projects := SeedProjects(now);
      sessions := [];
    }

    /** `users.create`: appends exactly one user carrying the given fields. */
    method CreateUser(data: NewUser, id: string, now: int) returns (u: User)
      modifies this
      ensures Carries(u, data) && u.id == id && u.createdAt == now && u.updatedAt == now
      ensures users == old(users) + [u]
      ensures projects == old(projects) && sessions == old(sessions)
    {
      u := NewRecord(data, id, now);
      users := users + [u];
    }

    /** `users.update`: overlays the updates on the first user with the id
        and stamps it; nothing changes when no user has the id. */
    method UpdateUser(id: string, upd: UserUpdate, now: int) returns (r: Option<User>)
      modifies this
      ensures IndexOfId(old(users), id).None? ==> r.None? && users == old(users)
      ensures IndexOfId(old(users), id).Some? ==>
        var i := IndexOfId(old(users), id).value;
        users == old(users)[i := ApplyUpdate(old(users)[i], upd, now)] && r == Some(users[i])
      ensures projects == old(projects) && sessions == old(sessions)
    {
      var idx := IndexOfId(users, id);
      if idx.None? {
        return None;
      }
      users := users[idx.value := ApplyUpdate(users[idx.value], upd, now)];
      r := Some(users[idx.value]);
    }

    /** `sessions.create`: appends one session for the user, valid for a day. */
    method CreateSession(userId: string, id: string, token: string, now: int) returns (s: Session)
      modifies this
      ensures s == NewSession(userId, id, token, now)
      ensures sessions == old(sessions) + [s]
      ensures users == old(users) && projects == old(projects)
    {
      s := NewSession(userId, id, token, now);
      sessions := sessions + [s];
    }

    /** `sessions.delete`: splices out the first session with the token, if any. */
    method DeleteSession(token: string)
      modifies this
      ensures sessions == AfterDelete(old(sessions), token)
      ensures users == old(users) && projects == old(projects)
    {
      var idx := IndexOfToken(sessions, token);
      if idx.Some? {
        sessions := sessions[..idx.value] + sessions[idx.value + 1..];
      }
    }
  }
}

/** The logic of the Firestore adapter in src/lib/firestoreDb.ts. A
    collection is the sequence of documents a query returns, in the order
    it returns them; the reads and writes themselves are not modelled. The
    password placeholders are the same definitions as the in-memory
    store's (MemoryStore.HashPassword, MemoryStore.VerifyPassword). */
module FirestoreStore {
  import opened Seqs
  import opened Strings
  import opened Entities
  import MemoryStore

  /** A project document. Its `technologies` field may be absent. */
  datatype ProjectDoc = ProjectDoc(
    id: string,
    title: string,
    description: string,
    difficulty: string,
    technologies: Option<seq<string>>,
    estimatedHours: int,
    category: string,
    createdAt: int)

  /** `(timeCommitment || "0+").split("-").map(h => parseInt(h.replace("+", "")) || 0)`,
      destructured as `[minHours, maxHours]`; the upper bound applies only
      when `maxHours` is present and positive. An empty time commitment is
      the missing one. */
  function TimeWindow(timeCommitment: string): MemoryStore.HourWindow {
    var parts := Split(if timeCommitment == "" then "0+" else timeCommitment, '-');
    var minHours := ParseIntOrZero(RemoveFirst(parts[0], '+'));
    if |parts| >= 2 && ParseIntOrZero(RemoveFirst(parts[1], '+')) > 0 then
      MemoryStore.Between(minHours, Int(ParseIntOrZero(RemoveFirst(parts[1], '+'))))
    else MemoryStore.AtLeast(minHours)
  }

  /** A missing time commitment admits every non-negative hour count. */
  lemma TimeWindowOfMissing()
    ensures TimeWindow("") == MemoryStore.AtLeast(0)
  {
    assert '-' !in "0+";
    SplitNoSeparator("0+", '-');
    RemoveFirstOccurrence("0", '+', "");
    assert "0+" == "0" + ['+'] + "" && "0" + "" == "0";
    ParseIntOfNatToString(0, "");
    assert NatToString(0) == "0";
  }

  /** `"a-b"` bounds the hours by [a, b] when b is positive; `"a-0"` only
      from below. */
  lemma TimeWindowOfRange(a: nat, b: nat)
    ensures TimeWindow(NatToString(a) + "-" + NatToString(b)) ==
      if b > 0 then MemoryStore.Between(a, Int(b)) else MemoryStore.AtLeast(a)
  {
    var A, B := NatToString(a), NatToString(b);
    NatToStringHasNoPunctuation(a);
    NatToStringHasNoPunctuation(b);
    assert Join([A, B], '-') == A + "-" + B by {
      assert [A, B][1..] == [B];
    }
    SplitJoin([A, B], '-');
    ParseIntOfNatToString(a, "");
    ParseIntOfNatToString(b, "");
    assert A + "" == A && B + "" == B;
  }

  /** `"a+"` admits a hours or more. */
  lemma TimeWindowOfOpenRange(a: nat)
    ensures TimeWindow(NatToString(a) + "+") == MemoryStore.AtLeast(a)
  {
    var A := NatToString(a);
    NatToStringHasNoPunctuation(a);
    assert '-' !in A + "+";
    SplitNoSeparator(A + "+", '-');
    RemoveFirstOccurrence(A, '+', "");
    assert A + "+" == A + ['+'] + "" && A + "" == A;
    ParseIntOfNatToString(a, "");
  }

  /** Where the two adapters' time parsing parts ways on a zero upper
      bound: it is ignored here, while the in-memory store admits only hours
      up to 0. */
  lemma TimeWindowsDifferOnZero(a: nat)
    ensures TimeWindow(NatToString(a) + "-" + NatToString(0)) == MemoryStore.AtLeast(a)
    ensures MemoryStore.TimeWindow(NatToString(a) + "-" + NatToString(0)) == MemoryStore.Between(a, Int(0))
  {
    TimeWindowOfRange(a, 0);
    MemoryStore.TimeWindowOfRange(a, 0);
  }

  /** An unreadable upper bound is read as 0 here, so ignored, while the
      in-memory store reads it as NaN, which admits no project. */
  lemma TimeWindowsDifferOnText(a: nat)
    ensures TimeWindow(NatToString(a) + "-x") == MemoryStore.AtLeast(a)
    ensures MemoryStore.TimeWindow(NatToString(a) + "-x") == MemoryStore.Between(a, NaN)
  {
    var A := NatToString(a);
    NatToStringHasNoPunctuation(a);
    SplitTwo(A, "x", '-');
    assert A + "-x" == A + ['-'] + "x";
    assert '+' !in A;
    ParseIntOfNatToString(a, "");
    assert A + "" == A;
    assert RemoveFirst("x", '+') == "x";
    assert ParseInt("x") == NaN;
  }

  /** Both filters of the adapter's recommend. */
  predicate Recommendable(user: User, p: ProjectDoc) {
    AdmitsDifficulty(user.experience, p.difficulty) && MemoryStore.InWindow(TimeWindow(user.timeCommitment), p.estimatedHours)
  }

  /** `projects.recommend(user)` over the documents findAll returns: the
      level gate, then the hour filter, then the first five. */
  function Recommend(projects: seq<ProjectDoc>, user: User): (r: seq<ProjectDoc>)
    ensures |r| <= 5
    ensures forall j :: 0 <= j < |r| ==> r[j] in projects && Recommendable(user, r[j])
    ensures |r| < 5 ==> forall j :: 0 <= j < |projects| && Recommendable(user, projects[j]) ==> projects[j] in r
  {
    var byLevel := Filter(projects, (p: ProjectDoc) => AdmitsDifficulty(user.experience, p.difficulty));
    var window := TimeWindow(user.timeCommitment);
    var byHours := Filter(byLevel, (p: ProjectDoc) => MemoryStore.InWindow(window, p.estimatedHours));
    Take(byHours, 5)
  }

  /** The two filters are one order-preserving filter by both conditions,
      so recommend is the first five recommendable documents in order. */
  lemma RecommendIsFirstFive(projects: seq<ProjectDoc>, user: User)
    ensures Recommend(projects, user) == Take(Filter(projects, (p: ProjectDoc) => Recommendable(user, p)), 5)
  {
    var window := TimeWindow(user.timeCommitment);
    FilterTwice(projects,
      (p: ProjectDoc) => AdmitsDifficulty(user.experience, p.difficulty),
      (p: ProjectDoc) => MemoryStore.InWindow(window, p.estimatedHours),
      (p: ProjectDoc) => Recommendable(user, p));
  }

  /** A beginner never gets an advanced project; an experience value other
      than the three levels gets nothing. */
  lemma RecommendLevels(projects: seq<ProjectDoc>, user: User)
    ensures user.experience == "beginner" ==> forall p :: p in Recommend(projects, user) ==> p.difficulty != "advanced"
    ensures user.experience != "beginner" && user.experience != "intermediate" && user.experience != "advanced" ==>
      Recommend(projects, user) == []
  {
    var r := Recommend(projects, user);
    if |r| > 0 {
      assert Recommendable(user, r[0]);
    }
  }

  /** Technologies as the in-memory store sees them: an absent field is
      an empty list. */
  function AsProject(d: ProjectDoc): Project {
    Project(d.id, d.title, d.description, d.difficulty, d.technologies.GetOr([]), d.estimatedHours,
            d.category, None, d.createdAt)
  }

  /** `findByTechnology`: documents without technologies are skipped, the
      rest match by case-insensitive substring. */
  function FindByTechnology(projects: seq<ProjectDoc>, technology: string): (r: seq<ProjectDoc>)
    ensures forall j :: 0 <= j < |r| ==> r[j] in projects && r[j].technologies.Some? &&
                                         MemoryStore.UsesTechnology(r[j].technologies.value, technology)
    ensures forall j ::
      (0 <= j < |projects| && projects[j].technologies.Some? &&
       MemoryStore.UsesTechnology(projects[j].technologies.value, technology)) ==> projects[j] in r
    ensures forall p :: multiset(r)[p] == (if p.technologies.Some? && MemoryStore.UsesTechnology(p.technologies.value, technology)
                                           then multiset(projects)[p] else 0)
  {
    FilterCount(projects, (p: ProjectDoc) => p.technologies.Some? && MemoryStore.UsesTechnology(p.technologies.value, technology));
    Filter(projects, (p: ProjectDoc) => p.technologies.Some? && MemoryStore.UsesTechnology(p.technologies.value, technology))
  }

  /** Skipping documents without technologies is the same as reading them
      as having none: the adapter answers as the in-memory store would. */
  lemma {:induction false} FindByTechnologyAgrees(projects: seq<ProjectDoc>, technology: string)
    ensures Map(FindByTechnology(projects, technology), AsProject)
         == MemoryStore.FindByTechnology(Map(projects, AsProject), technology)
  {
    MapFilter(projects, AsProject,
      (p: Project) => MemoryStore.UsesTechnology(p.technologies, technology),
      (p: ProjectDoc) => p.technologies.Some? && MemoryStore.UsesTechnology(p.technologies.value, technology));
  }

  /** `sessions.findByToken`: the first document with the token (the query's
      `limit(1)`), unless its expiry lies before `now`. */
  function FindByToken(sessions: seq<Session>, token: string, now: int): (r: Option<Session>)
    ensures r.Some? ==> r.value in sessions && r.value.token == token && now <= r.value.expiresAt
  {
    var q := Take(Filter(sessions, (s: Session) => s.token == token), 1);
    if |q| == 0 then None
    else if q[0].expiresAt < now then None
    else Some(q[0])
  }

  /** Both adapters answer a token lookup alike. */
  lemma {:induction false} FindByTokenAgrees(sessions: seq<Session>, token: string, now: int)
    ensures FindByToken(sessions, token, now) == MemoryStore.FindByToken(sessions, token, now)
  {
    FirstOfFilter(sessions, (s: Session) => s.token == token);
  }

  /** The head of a filter is the first match. */
  lemma {:induction false} FirstOfFilter<T>(s: seq<T>, p: T -> bool)
    ensures |Filter(s, p)| == 0 <==> FindFirst(s, p).None?
    ensures |Filter(s, p)| > 0 ==> FindFirst(s, p) == Some(Filter(s, p)[0])
  {
    if |s| > 0 {
      FirstOfFilter(s[1..], p);
      if !p(s[0]) {
        if FindIndex(s[1..], p).Some? {
          FindIndexIsFirst(s, p, FindIndex(s[1..], p).value + 1);
        }
      }
    }
  }
}

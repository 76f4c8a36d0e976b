/** The recommendation route, src/app/api/projects/recommendations/route.ts.
    GET ranks catalogue projects by position, either from the store's
    recommend for a known user or from the difficulty gate alone. POST
    applies the difficulty gate and an exact technology gate, then lets an
    optional language-model answer reorder and re-annotate the candidates.
    The model's text and its JSON parsing are an input outcome. */
module Recommendations {
  import opened Seqs
  import opened Strings
  import opened Entities
  import MemoryStore

  /** A project as the route returns it, with a match score and reasons. */
  datatype Recommendation = Recommendation(
    id: string,
    title: string,
    description: string,
    difficulty: string,
    technologies: seq<string>,
    estimatedHours: int,
    category: string,
    matchScore: int,
    reasons: seq<string>)

  /** The response body's `data`. */
  datatype Listing = Listing(projects: seq<Recommendation>, totalCount: nat, matchingCriteria: seq<string>)

  /** The recommendation shows this project's fields. */
  predicate SameProject(r: Recommendation, p: Project) {
    && r.id == p.id && r.title == p.title && r.description == p.description
    && r.difficulty == p.difficulty && r.technologies == p.technologies
    && r.estimatedHours == p.estimatedHours && r.category == p.category
  }

  /** Two recommendations show the same project, whatever their scores and reasons. */
  predicate SameBase(a: Recommendation, b: Recommendation) {
    && a.id == b.id && a.title == b.title && a.description == b.description
    && a.difficulty == b.difficulty && a.technologies == b.technologies
    && a.estimatedHours == b.estimatedHours && a.category == b.category
  }

  function Annotate(p: Project, score: int, reasons: seq<string>): (r: Recommendation)
    ensures SameProject(r, p)
  {
    Recommendation(p.id, p.title, p.description, p.difficulty, p.technologies, p.estimatedHours,
                   p.category, score, reasons)
  }

  /** `projects.map((project, index) => ({ ...project, matchScore: base - index * 5, reasons }))`:
      the first project scores `base` and each next one 5 less. */
  function Ranked(ps: seq<Project>, base: int, reasons: seq<string>): (r: seq<Recommendation>)
    ensures |r| == |ps|
    ensures forall i :: 0 <= i < |r| ==> SameProject(r[i], ps[i]) && r[i].reasons == reasons
    ensures |r| > 0 ==> r[0].matchScore == base
    ensures forall i :: 0 < i < |r| ==> r[i].matchScore == r[i - 1].matchScore - 5
  {
    seq(|ps|, i requires 0 <= i < |ps| => Annotate(ps[i], base - i * 5, reasons))
  }

  /** A query parameter or body field that JavaScript reads as truthy. */
  predicate Given(field: Option<string>) {
    field.Some? && field.value != ""
  }

  // ---------------------------------------------------------------------
  // GET

  /** The query string: every parameter may be absent. */
  datatype GetQuery = GetQuery(userId: Option<string>, skillLevel: Option<string>, interests: Option<string>, limit: Option<string>)

  function PersonalReasons(u: User): seq<string> {
    ["Matches your " + u.experience + " level", "Aligns with your interests"]
  }

  function GeneralReasons(experience: string): seq<string> {
    ["Perfect for " + experience + " level", "Popular project type"]
  }

  /** The skill level of the general path: `skillLevel || "beginner"`. */
  function GeneralLevel(q: GetQuery): string {
    if Given(q.skillLevel) then q.skillLevel.value else "beginner"
  }

  /** Every candidate before truncation. */
  function GetCandidates(users: seq<User>, projects: seq<Project>, q: GetQuery): seq<Recommendation> {
    if Given(q.userId) then
      match MemoryStore.FindById(users, q.userId.value)
      case None => []
      case Some(u) => Ranked(MemoryStore.Recommend(projects, u), 95, PersonalReasons(u))
    else
      Ranked(AdmittedFor(projects, GeneralLevel(q)), 90, GeneralReasons(GeneralLevel(q)))
  }

  /** How many elements `slice(0, end)` keeps of `n`: a NaN end keeps none,
      a negative end counts back from the end. */
  function SliceEnd(n: nat, end: Num): (k: nat)
    ensures k <= n
  {
    match end
    case NaN => 0
    case Int(v) => if v < 0 then (if n + v < 0 then 0 else n + v) else if v < n then v else n
  }

  /** `skillLevel ? [skillLevel, ...interests] : ["general"]`, with
      `interests = searchParams.get("interests")?.split(",") || []`. */
  function GetCriteria(q: GetQuery): seq<string> {
    if Given(q.skillLevel) then
      [q.skillLevel.value] + (if q.interests.Some? then Split(q.interests.value, ',') else [])
    else
      ["general"]
  }

  /** The GET handler; it only reads the store. */
  function Get(users: seq<User>, projects: seq<Project>, q: GetQuery): (r: Listing)
    ensures r.projects <= GetCandidates(users, projects, q)
    ensures r.totalCount == |GetCandidates(users, projects, q)| >= |r.projects|
  {
    var candidates := GetCandidates(users, projects, q);
    var limit := ParseInt(if Given(q.limit) then q.limit.value else "5");
    Listing(candidates[..SliceEnd(|candidates|, limit)], |candidates|, GetCriteria(q))
  }

  /** On the general path a beginner (also a missing or empty skill level)
      never sees an advanced project; intermediate and advanced see the
      whole catalogue; any other level sees nothing. */
  lemma GetGeneralLevelGate(users: seq<User>, projects: seq<Project>, q: GetQuery)
    requires !Given(q.userId)
    ensures GeneralLevel(q) == "beginner" ==>
      forall i :: 0 <= i < |Get(users, projects, q).projects| ==> Get(users, projects, q).projects[i].difficulty != "advanced"
    ensures GeneralLevel(q) == "intermediate" || GeneralLevel(q) == "advanced" ==>
      Get(users, projects, q).totalCount == |projects|
    ensures GeneralLevel(q) !in {"beginner", "intermediate", "advanced"} ==>
      Get(users, projects, q) == Listing([], 0, GetCriteria(q))
  {
    var level := GeneralLevel(q);
    AdmittedForLevels(projects, level);
    var admitted := AdmittedFor(projects, level);
    var r := Get(users, projects, q);
    if level == "beginner" {
      forall i | 0 <= i < |r.projects| ensures r.projects[i].difficulty != "advanced" {
        assert r.projects[i] == GetCandidates(users, projects, q)[i];
        assert admitted[i] in admitted;
      }
    }
  }

  /** An unknown user id gives an empty list and a total of 0. */
  lemma GetUnknownUser(users: seq<User>, projects: seq<Project>, q: GetQuery)
    requires Given(q.userId) && MemoryStore.FindById(users, q.userId.value).None?
    ensures Get(users, projects, q) == Listing([], 0, GetCriteria(q))
  {
  }

  /** A known user gets at most five projects, each of which passes the
      store's recommend for that user; a beginner never gets an advanced one. */
  lemma GetPersonalised(users: seq<User>, projects: seq<Project>, q: GetQuery, u: User)
    requires Given(q.userId) && MemoryStore.FindById(users, q.userId.value) == Some(u)
    ensures Get(users, projects, q).totalCount <= 5
    ensures forall i :: 0 <= i < |Get(users, projects, q).projects| ==>
      exists p :: p in projects && MemoryStore.Recommendable(u, p) && SameProject(Get(users, projects, q).projects[i], p)
    ensures u.experience == "beginner" ==>
      forall i :: 0 <= i < |Get(users, projects, q).projects| ==> Get(users, projects, q).projects[i].difficulty != "advanced"
  {
    var r := Get(users, projects, q).projects;
    var rec := MemoryStore.Recommend(projects, u);
    var c := Ranked(rec, 95, PersonalReasons(u));
    assert GetCandidates(users, projects, q) == c;
    forall i | 0 <= i < |r|
      ensures exists p :: p in projects && MemoryStore.Recommendable(u, p) && SameProject(r[i], p)
      ensures u.experience == "beginner" ==> r[i].difficulty != "advanced"
    {
      assert r[i] == c[i];
      assert SameProject(r[i], rec[i]);
      assert rec[i] in projects && MemoryStore.Recommendable(u, rec[i]);
    }
  }

  /** The candidate at position i scores 95 - 5i on the personalised path
      and 90 - 5i on the general path. */
  lemma {:induction false} GetScores(users: seq<User>, projects: seq<Project>, q: GetQuery)
    ensures var base := if Given(q.userId) then 95 else 90;
      forall i :: 0 <= i < |Get(users, projects, q).projects| ==> Get(users, projects, q).projects[i].matchScore == base - 5 * i
  {
    var base := if Given(q.userId) then 95 else 90;
    var c := GetCandidates(users, projects, q);
    var r := Get(users, projects, q);
    forall i | 0 <= i < |r.projects| ensures r.projects[i].matchScore == base - 5 * i {
      RankedScoreAt(c, base, i);
      assert r.projects[i] == c[i];
    }
  }

  /** The step-by-5 law of Ranked, unrolled to position i. */
  lemma {:induction false} RankedScoreAt(c: seq<Recommendation>, base: int, i: nat)
    requires i < |c| && c[0].matchScore == base
    requires forall k :: 0 < k < |c| ==> c[k].matchScore == c[k - 1].matchScore - 5
    ensures c[i].matchScore == base - 5 * i
  {
    if i > 0 {
      RankedScoreAt(c, base, i - 1);
    }
  }

  /** Without a `limit` parameter at most five candidates are returned. */
  lemma GetDefaultLimit(users: seq<User>, projects: seq<Project>, q: GetQuery)
    requires q.limit.None?
    ensures var r := Get(users, projects, q);
      |r.projects| == if r.totalCount < 5 then r.totalCount else 5
  {
    ParseIntOfNatToString(5, "");
    assert NatToString(5) + "" == "5";
  }

  /** A `limit` of k keeps the first min(k, n) of the n candidates. */
  lemma GetPositiveLimit(users: seq<User>, projects: seq<Project>, q: GetQuery, k: nat)
    requires q.limit == Some(NatToString(k))
    ensures var r := Get(users, projects, q);
      |r.projects| == if r.totalCount < k then r.totalCount else k
  {
    ParseIntOfNatToString(k, "");
    assert NatToString(k) + "" == NatToString(k);
  }

  /** A `limit` of -k drops the last k candidates (k > 0: "-0" reads as
      zero and keeps nothing). */
  lemma GetNegativeLimit(users: seq<User>, projects: seq<Project>, q: GetQuery, k: nat)
    requires k > 0 && q.limit == Some("-" + NatToString(k))
    ensures var r := Get(users, projects, q);
      |r.projects| == if r.totalCount < k then 0 else r.totalCount - k
  {
    ParseIntOfNegated(k);
  }

  /** A `limit` without digits makes the slice end NaN, which keeps nothing,
      while the total still counts every candidate. */
  lemma GetNaNLimit(users: seq<User>, projects: seq<Project>, q: GetQuery)
    requires Given(q.limit) && ParseInt(q.limit.value) == NaN
    ensures Get(users, projects, q).projects == []
    ensures Get(users, projects, q).totalCount == |GetCandidates(users, projects, q)|
  {
  }

  /** The criteria echo is the skill level followed by the interests, whose
      comma-join is the `interests` parameter, or `["general"]` without a
      skill level. */
  lemma GetCriteriaEcho(users: seq<User>, projects: seq<Project>, q: GetQuery)
    ensures var m := Get(users, projects, q).matchingCriteria;
      && (Given(q.skillLevel) ==> |m| >= 1 && m[0] == q.skillLevel.value)
      && (Given(q.skillLevel) && q.interests.Some? ==> |m| >= 2 && Join(m[1..], ',') == q.interests.value)
      && (Given(q.skillLevel) && q.interests.None? ==> m == [q.skillLevel.value])
      && (!Given(q.skillLevel) ==> m == ["general"])
  {
    var m := Get(users, projects, q).matchingCriteria;
    if Given(q.skillLevel) && q.interests.Some? {
      assert m[1..] == Split(q.interests.value, ',');
    }
  }

  // ---------------------------------------------------------------------
  // POST

  /** The JSON body: every field may be absent. */
  datatype PostBody = PostBody(skillLevel: Option<string>, interests: Option<seq<string>>, preferredTechnologies: Option<seq<string>>)

  /** `skillLevel || "beginner"`. */
  function Level(body: PostBody): string {
    if Given(body.skillLevel) then body.skillLevel.value else "beginner"
  }

  /** The technology gate: with a non-empty preference list, some technology
      of the project must equal a preferred one exactly. */
  predicate UsesPreferred(preferred: Option<seq<string>>, technologies: seq<string>) {
    if preferred.Some? && |preferred.value| > 0 then exists t :: t in technologies && t in preferred.value
    else true
  }

  /** The projects passing the difficulty gate, then the technology gate. */
  function Shortlist(projects: seq<Project>, body: PostBody): seq<Project> {
    Filter(AdmittedFor(projects, Level(body)), (p: Project) => UsesPreferred(body.preferredTechnologies, p.technologies))
  }

  function PostReasons(level: string): seq<string> {
    ["Matches " + level + " level", "Uses preferred technologies"]
  }

  /** The rule-based recommendations, scored 95 - 5i. */
  function RuleBased(projects: seq<Project>, body: PostBody): seq<Recommendation> {
    Ranked(Shortlist(projects, body), 95, PostReasons(Level(body)))
  }

  /** Both gates together. */
  predicate PassesGates(body: PostBody, p: Project) {
    AdmitsDifficulty(Level(body), p.difficulty) && UsesPreferred(body.preferredTechnologies, p.technologies)
  }

  /** The two filters are one order-preserving filter by both gates, so a
      project is kept if and only if it passes both. */
  lemma ShortlistIsOneFilter(projects: seq<Project>, body: PostBody)
    ensures Shortlist(projects, body) == Filter(projects, (p: Project) => PassesGates(body, p))
    ensures forall p :: p in projects ==> (p in Shortlist(projects, body) <==> PassesGates(body, p))
  {
    FilterTwice(projects,
      (p: Project) => AdmitsDifficulty(Level(body), p.difficulty),
      (p: Project) => UsesPreferred(body.preferredTechnologies, p.technologies),
      (p: Project) => PassesGates(body, p));
    var s := Shortlist(projects, body);
    forall p | p in projects ensures p in s <==> PassesGates(body, p) {
      if p in s {
        var j :| 0 <= j < |s| && s[j] == p;
      } else {
        var j :| 0 <= j < |projects| && projects[j] == p;
      }
    }
  }

  /** One element of the model's parsed array. `id` is `String(item.id)`;
      `score` is present when `item.score` is a number, `reasons` when
      `item.reasons` is an array. A `null` element makes reading `item.id`
      throw. */
  datatype LlmItem = NullItem | Item(id: string, score: Option<int>, reasons: Option<seq<string>>)

  /** What became of the model call: no text (not configured, failed or
      empty), text that yields no JSON, a JSON value that is not an array,
      or an array. */
  datatype LlmOutcome = NoText | Unparsable | NotArray | Parsed(items: seq<LlmItem>)

  /** The index of the last candidate with the id. */
  function LastIndex(recs: seq<Recommendation>, id: string): (r: Option<nat>)
    ensures r.Some? ==> r.value < |recs| && recs[r.value].id == id
    ensures r.Some? ==> forall j :: r.value < j < |recs| ==> recs[j].id != id
    ensures r.None? <==> forall j :: 0 <= j < |recs| ==> recs[j].id != id
  {
    if |recs| == 0 then None
    else if recs[|recs| - 1].id == id then Some(|recs| - 1)
    else LastIndex(recs[..|recs| - 1], id)
  }

  /** `new Map(recommendations.map(r => [String(r.id), r])).get(id)`: when
      ids repeat, the last entry wins. */
  function Lookup(recs: seq<Recommendation>, id: string): (r: Option<Recommendation>)
    ensures r.None? <==> forall j :: 0 <= j < |recs| ==> recs[j].id != id
    ensures r.Some? ==> exists i :: 0 <= i < |recs| && recs[i] == r.value && r.value.id == id
                                    && forall j :: i < j < |recs| ==> recs[j].id != id
  {
    match LastIndex(recs, id)
    case None => None
    case Some(i) => Some(recs[i])
  }

  /** `{ ...base, matchScore: typeof score === "number" ? score : base.matchScore,
      reasons: Array.isArray(reasons) ? reasons : base.reasons }`. */
  function Overlay(base: Recommendation, item: LlmItem): (r: Recommendation)
    requires item.Item?
    ensures SameBase(r, base)
  {
    base.(matchScore := item.score.GetOr(base.matchScore), reasons := item.reasons.GetOr(base.reasons))
  }

  /** The `merged` array once the given items have been read: for each item
      whose id names a candidate, that candidate overlaid with the item. */
  function MergedItems(recs: seq<Recommendation>, items: seq<LlmItem>): seq<Recommendation> {
    if |items| == 0 then []
    else
      var prior := MergedItems(recs, items[..|items| - 1]);
      var item := items[|items| - 1];
      if item.NullItem? then prior
      else match Lookup(recs, item.id)
        case None => prior
        case Some(b) => prior + [Overlay(b, item)]
  }

  /** The ids of the merged recommendations. */
  function MergedIds(merged: seq<Recommendation>): set<string> {
    set m | m in merged :: m.id
  }

  /** `recommendations.filter(r => !merged.find(m => m.id === r.id))`. */
  function Leftovers(recs: seq<Recommendation>, merged: seq<Recommendation>): seq<Recommendation> {
    Filter(recs, (r: Recommendation) => r.id !in MergedIds(merged))
  }

  /** `[...merged, ...leftovers]`. */
  function MergedRanking(recs: seq<Recommendation>, items: seq<LlmItem>): seq<Recommendation> {
    var merged := MergedItems(recs, items);
    merged + Leftovers(recs, merged)
  }

  /** The recommendations after the model step: merged when the model gave
      an array without a null element, otherwise unchanged (fail-open). */
  function Rerank(recs: seq<Recommendation>, outcome: LlmOutcome): seq<Recommendation> {
    match outcome
    case Parsed(items) => if NullItem in items then recs else MergedRanking(recs, items)
    case _ => recs
  }

  /** The merge loop of the POST handler. None stands for the TypeError a
      null element raises, after which the handler keeps its list. */
  method Merge(recs: seq<Recommendation>, items: seq<LlmItem>) returns (r: Option<seq<Recommendation>>)
    ensures r.None? <==> NullItem in items
    ensures r.Some? ==> r.value == MergedRanking(recs, items)
  {
    var merged: seq<Recommendation> := [];
    for k := 0 to |items|
      invariant merged == MergedItems(recs, items[..k])
      invariant NullItem !in items[..k]
    {
      assert items[..k + 1][..k] == items[..k];
      var item := items[k];
      if item.NullItem? {
        assert items[k] in items;
        return None;
      }
      var base := Lookup(recs, item.id);
      if base.Some? {
        merged := merged + [Overlay(base.value, item)];
      }
    }
    assert items[..|items|] == items;
    var leftovers := Leftovers(recs, merged);
    r := Some(merged + leftovers);
  }

  /** Every merged entry is a candidate re-annotated by an item that names
      it, so its id is some item's id. */
  lemma {:induction false} MergedItemsFromCandidates(recs: seq<Recommendation>, items: seq<LlmItem>)
    ensures forall m :: m in MergedItems(recs, items) ==>
      (exists c :: c in recs && SameBase(m, c)) &&
      (exists k :: 0 <= k < |items| && items[k].Item? && items[k].id == m.id)
  {
    if |items| > 0 {
      var prefix := items[..|items| - 1];
      MergedItemsFromCandidates(recs, prefix);
      forall m | m in MergedItems(recs, items)
        ensures (exists c :: c in recs && SameBase(m, c)) &&
                (exists k :: 0 <= k < |items| && items[k].Item? && items[k].id == m.id)
      {
        if m in MergedItems(recs, prefix) {
          var k :| 0 <= k < |prefix| && prefix[k].Item? && prefix[k].id == m.id;
          assert items[k] == prefix[k];
        } else {
          var item := items[|items| - 1];
          var b := Lookup(recs, item.id).value;
          assert m == Overlay(b, item);
        }
      }
    }
  }

  /** The merge never drops a candidate: every candidate's id is in the result. */
  lemma MergeKeepsEveryCandidate(recs: seq<Recommendation>, items: seq<LlmItem>)
    ensures forall c :: c in recs ==> exists o :: o in MergedRanking(recs, items) && o.id == c.id
  {
    var merged := MergedItems(recs, items);
    forall c | c in recs ensures exists o :: o in MergedRanking(recs, items) && o.id == c.id {
      if c.id in MergedIds(merged) {
        var m :| m in merged && m.id == c.id;
        assert m in MergedRanking(recs, items);
      } else {
        var j :| 0 <= j < |recs| && recs[j] == c;
        assert c in Leftovers(recs, merged);
        assert c in MergedRanking(recs, items);
      }
    }
  }

  /** The merge introduces no project: every result shows a candidate's
      project, with the candidate's id. */
  lemma MergeAddsNoProject(recs: seq<Recommendation>, items: seq<LlmItem>)
    ensures forall o :: o in MergedRanking(recs, items) ==> exists c :: c in recs && SameBase(o, c)
  {
    MergedItemsFromCandidates(recs, items);
    var merged := MergedItems(recs, items);
    forall o | o in MergedRanking(recs, items) ensures exists c :: c in recs && SameBase(o, c) {
      if o !in merged {
        assert o in Leftovers(recs, merged);
        var j :| 0 <= j < |Leftovers(recs, merged)| && Leftovers(recs, merged)[j] == o;
        assert SameBase(o, o);
      }
    }
  }

  /** No two candidates share an id. */
  ghost predicate IdsDistinct(recs: seq<Recommendation>) {
    forall i, j :: 0 <= i < |recs| && 0 <= j < |recs| && recs[i].id == recs[j].id ==> i == j
  }

  /** No two array elements name the same id. */
  ghost predicate ItemIdsDistinct(items: seq<LlmItem>) {
    forall i, j :: 0 <= i < |items| && 0 <= j < |items| && items[i].Item? && items[j].Item? && items[i].id == items[j].id ==> i == j
  }

  /** The ids of the candidates. */
  function CandidateIds(recs: seq<Recommendation>): set<string> {
    set c | c in recs :: c.id
  }

  /** A prefix of an array with distinct ids has distinct ids. */
  lemma ItemIdsDistinctPrefix(items: seq<LlmItem>, n: nat)
    requires ItemIdsDistinct(items) && n <= |items|
    ensures ItemIdsDistinct(items[..n])
  {
    assert forall k :: 0 <= k < n ==> items[..n][k] == items[k];
  }

  /** With distinct item ids, the last item's id is not yet among the
      ids merged from the items before it. */
  lemma LastItemNotYetMerged(recs: seq<Recommendation>, items: seq<LlmItem>)
    requires |items| > 0 && ItemIdsDistinct(items) && items[|items| - 1].Item?
    ensures items[|items| - 1].id !in MergedIds(MergedItems(recs, items[..|items| - 1]))
  {
    var prefix := items[..|items| - 1];
    MergedItemsFromCandidates(recs, prefix);
    assert forall k :: 0 <= k < |prefix| ==> prefix[k] == items[k];
  }

  /** When the model names each id at most once, the merged entries have
      distinct ids, one per named candidate. */
  lemma {:induction false} MergedItemsDistinct(recs: seq<Recommendation>, items: seq<LlmItem>)
    requires ItemIdsDistinct(items)
    ensures |MergedIds(MergedItems(recs, items))| == |MergedItems(recs, items)|
    ensures MergedIds(MergedItems(recs, items)) <= CandidateIds(recs)
  {
    if |items| > 0 {
      var prefix := items[..|items| - 1];
      var item := items[|items| - 1];
      ItemIdsDistinctPrefix(items, |items| - 1);
      MergedItemsDistinct(recs, prefix);
      var prior := MergedItems(recs, prefix);
      if item.Item? && Lookup(recs, item.id).Some? {
        var b := Lookup(recs, item.id).value;
        var m := Overlay(b, item);
        assert b in recs;
        LastItemNotYetMerged(recs, items);
        assert MergedIds(prior + [m]) == MergedIds(prior) + {m.id};
      }
    }
  }

  /** The candidate ids are the first id and the ids of the rest; with
      distinct ids the first id is not among the rest. */
  lemma CandidateIdsCons(recs: seq<Recommendation>)
    requires |recs| > 0 && IdsDistinct(recs)
    ensures CandidateIds(recs) == {recs[0].id} + CandidateIds(recs[1..])
    ensures recs[0].id !in CandidateIds(recs[1..])
    ensures IdsDistinct(recs[1..])
  {
    var rest := recs[1..];
    assert forall c :: c in recs <==> c == recs[0] || c in rest;
    assert forall j :: 0 <= j < |rest| ==> rest[j] == recs[j + 1];
  }

  /** With distinct candidate ids, removing the ids of a set keeps the
      candidates outside it: as many as the candidates minus the ids hit. */
  lemma {:induction false} LeftoverCount(recs: seq<Recommendation>, ids: set<string>)
    requires IdsDistinct(recs)
    ensures |Filter(recs, (r: Recommendation) => r.id !in ids)| + |ids * CandidateIds(recs)| == |recs|
  {
    if |recs| > 0 {
      var rest := recs[1..];
      var a := recs[0].id;
      CandidateIdsCons(recs);
      LeftoverCount(rest, ids);
      var hitRest := ids * CandidateIds(rest);
      assert a !in hitRest;
      if a in ids {
        assert ids * CandidateIds(recs) == {a} + hitRest;
        assert |{a} + hitRest| == 1 + |hitRest|;
      } else {
        assert ids * CandidateIds(recs) == hitRest;
      }
    }
  }

  /** When candidate ids are distinct and the model names each id at most
      once, the merge is a reordering: same length, same ids. */
  lemma MergeIsReordering(recs: seq<Recommendation>, items: seq<LlmItem>)
    requires IdsDistinct(recs) && ItemIdsDistinct(items)
    ensures |MergedRanking(recs, items)| == |recs|
    ensures CandidateIds(MergedRanking(recs, items)) == CandidateIds(recs)
  {
    var merged := MergedItems(recs, items);
    MergedItemsDistinct(recs, items);
    LeftoverCount(recs, MergedIds(merged));
    assert MergedIds(merged) * CandidateIds(recs) == MergedIds(merged);
    MergeKeepsEveryCandidate(recs, items);
    MergeAddsNoProject(recs, items);
    var out := MergedRanking(recs, items);
    assert CandidateIds(out) <= CandidateIds(recs) by {
      forall id | id in CandidateIds(out) ensures id in CandidateIds(recs) {
        var o :| o in out && o.id == id;
        var c :| c in recs && SameBase(o, c);
      }
    }
    assert CandidateIds(recs) <= CandidateIds(out) by {
      forall id | id in CandidateIds(recs) ensures id in CandidateIds(out) {
        var c :| c in recs && c.id == id;
        var o :| o in out && o.id == c.id;
      }
    }
  }

  /** When the model repeats an id, the candidate appears twice and the
      result is longer than the input. */
  lemma MergeRepeatedIdDuplicates(c: Recommendation)
    ensures var item := Item(c.id, None, None);
      MergedRanking([c], [item, item]) == [c, c]
  {
    var item := Item(c.id, None, None);
    assert Lookup([c], c.id) == Some(c);
    assert Overlay(c, item) == c;
    assert [item, item][..1] == [item];
    assert [item][..0] == [];
    assert MergedItems([c], []) == [];
    assert MergedItems([c], [item]) == [c];
    var merged := MergedItems([c], [item, item]);
    assert merged == [c, c];
    FilterDropsAll([c], (r: Recommendation) => r.id !in MergedIds(merged));
  }

  /** An array naming no candidate, the empty array included, leaves the
      recommendations as they were. */
  lemma {:induction false} MergeWithoutKnownIds(recs: seq<Recommendation>, items: seq<LlmItem>)
    requires forall k :: 0 <= k < |items| && items[k].Item? ==> Lookup(recs, items[k].id).None?
    ensures MergedRanking(recs, items) == recs
  {
    MergedItemsEmpty(recs, items);
    FilterKeepsAll(recs, (r: Recommendation) => r.id !in MergedIds([]));
  }

  lemma {:induction false} MergedItemsEmpty(recs: seq<Recommendation>, items: seq<LlmItem>)
    requires forall k :: 0 <= k < |items| && items[k].Item? ==> Lookup(recs, items[k].id).None?
    ensures MergedItems(recs, items) == []
  {
    if |items| > 0 {
      var prefix := items[..|items| - 1];
      assert forall k :: 0 <= k < |prefix| ==> prefix[k] == items[k];
      MergedItemsEmpty(recs, prefix);
    }
  }

  /** A single item naming candidate j: that candidate comes first, with
      the model's score when it gave a number and its reasons when it gave
      an array, else with its own; the others follow in their own order. */
  lemma MergeSingleItem(recs: seq<Recommendation>, j: nat, score: Option<int>, reasons: Option<seq<string>>)
    requires IdsDistinct(recs) && j < |recs|
    ensures MergedRanking(recs, [Item(recs[j].id, score, reasons)])
         == [recs[j].(matchScore := score.GetOr(recs[j].matchScore), reasons := reasons.GetOr(recs[j].reasons))]
            + recs[..j] + recs[j + 1..]
  {
    var item := Item(recs[j].id, score, reasons);
    var k := LastIndex(recs, item.id).value;
    assert recs[k].id == recs[j].id;
    assert Lookup(recs, item.id) == Some(recs[j]);
    assert [item][..0] == [];
    assert MergedItems(recs, []) == [];
    var merged := MergedItems(recs, [item]);
    assert merged == [Overlay(recs[j], item)];
    assert MergedIds(merged) == {recs[j].id};
    var p := (r: Recommendation) => r.id !in MergedIds(merged);
    assert forall k :: 0 <= k < |recs| && k != j ==> recs[k].id != recs[j].id;
    FilterRemovesOne(recs, j, p);
  }

  /** The POST handler over the catalogue, the body and the model outcome. */
  method Post(projects: seq<Project>, body: PostBody, llm: LlmOutcome) returns (r: Listing)
    ensures r.totalCount == |Rerank(RuleBased(projects, body), llm)|
    ensures r.projects == Take(Rerank(RuleBased(projects, body), llm), 10)
    ensures |r.projects| <= 10
    ensures r.matchingCriteria == [Level(body)] + body.interests.GetOr([]) + body.preferredTechnologies.GetOr([])
    ensures forall i :: 0 <= i < |r.projects| ==>
      AdmitsDifficulty(Level(body), r.projects[i].difficulty) && UsesPreferred(body.preferredTechnologies, r.projects[i].technologies)
  {
    var recommendations := RuleBased(projects, body);
    if llm.Parsed? {
      var merged := Merge(recommendations, llm.items);
      if merged.Some? {
        recommendations := merged.value;
      }
    }
    assert recommendations == Rerank(RuleBased(projects, body), llm);
    RerankKeepsGates(projects, body, llm);
    r := Listing(Take(recommendations, 10), |recommendations|,
                 [Level(body)] + body.interests.GetOr([]) + body.preferredTechnologies.GetOr([]));
  }

  /** Whatever the model answers, every recommendation passes both gates. */
  lemma RerankKeepsGates(projects: seq<Project>, body: PostBody, llm: LlmOutcome)
    ensures forall o :: o in Rerank(RuleBased(projects, body), llm) ==>
      AdmitsDifficulty(Level(body), o.difficulty) && UsesPreferred(body.preferredTechnologies, o.technologies)
  {
    var recs := RuleBased(projects, body);
    var short := Shortlist(projects, body);
    ShortlistIsOneFilter(projects, body);
    assert forall c :: c in recs ==> AdmitsDifficulty(Level(body), c.difficulty) && UsesPreferred(body.preferredTechnologies, c.technologies) by {
      forall c | c in recs ensures AdmitsDifficulty(Level(body), c.difficulty) && UsesPreferred(body.preferredTechnologies, c.technologies) {
        var i :| 0 <= i < |recs| && recs[i] == c;
        assert SameProject(c, short[i]) && short[i] in short;
      }
    }
    if llm.Parsed? && NullItem !in llm.items {
      MergeAddsNoProject(recs, llm.items);
    }
  }

  /** Without a usable model answer POST returns the rule-based list: the
      gated projects in catalogue order, scored 95, 90, 85, ... */
  lemma PostFailsOpen(projects: seq<Project>, body: PostBody, llm: LlmOutcome)
    requires !llm.Parsed? || NullItem in llm.items
    ensures Rerank(RuleBased(projects, body), llm) == RuleBased(projects, body)
    ensures forall i :: 0 <= i < |RuleBased(projects, body)| ==> RuleBased(projects, body)[i].matchScore == 95 - 5 * i
  {
    var recs := RuleBased(projects, body);
    forall i | 0 <= i < |recs| ensures recs[i].matchScore == 95 - 5 * i {
      RankedScoreAt(recs, 95, i);
    }
  }
}

/** The skill profile: per problem tag, how many problems the user has solved and the level that this gives. */
module Skills {
  import opened Common
  import opened Sums

  datatype Level = Beginner | Intermediate | Advanced | Expert

  function Rank(l: Level): nat {
    match l
    case Beginner => 0
    case Intermediate => 1
    case Advanced => 2
    case Expert => 3
  }

  datatype Difficulty = Easy | Medium | Hard | Unrated(name: string)

  datatype Skill = Skill(
    name: string, level: Level, solved: int, easy: int, medium: int, hard: int, lastPracticed: int)

  function CalculateSkillLevel(solved: int, easy: int, medium: int, hard: int): Level {
    if hard >= 10 || solved >= 50 then Expert
    else if hard >= 5 || medium >= 15 || solved >= 30 then Advanced
    else if medium >= 5 || solved >= 15 then Intermediate
    else Beginner
  }

  lemma LevelIsMonotone(solved: int, easy: int, medium: int, hard: int,
                        solved': int, easy': int, medium': int, hard': int)
    requires solved <= solved' && easy <= easy' && medium <= medium' && hard <= hard'
    ensures Rank(CalculateSkillLevel(solved, easy, medium, hard)) <=
            Rank(CalculateSkillLevel(solved', easy', medium', hard'))
  {
  }

  // ---- One update ----

  function Find(skills: seq<Skill>, tag: string): (i: nat)
    ensures i <= |skills|
    ensures i < |skills| ==> skills[i].name == tag
    ensures forall j :: 0 <= j < i ==> skills[j].name != tag
  {
    FirstWhere((s: Skill) => s.name == tag, skills)
  }

  function Raised(s: Skill, d: Difficulty, now: int): Skill {
    var solved, easy := s.solved + 1, s.easy + Is(d == Easy);
    var medium, hard := s.medium + Is(d == Medium), s.hard + Is(d == Hard);
    Skill(s.name, CalculateSkillLevel(solved, easy, medium, hard), solved, easy, medium, hard, now)
  }

  function Unpractised(tag: string): Skill { Skill(tag, Beginner, 0, 0, 0, 0, 0) }

  function Count(skills: seq<Skill>, tag: string, d: Difficulty, now: int): seq<Skill> {
    var i := Find(skills, tag);
    if i < |skills| then skills[i := Raised(skills[i], d, now)] else skills + [Raised(Unpractised(tag), d, now)]
  }

  function CountAll(skills: seq<Skill>, tags: seq<string>, d: Difficulty, now: int): seq<Skill> {
    if tags == [] then skills else Count(CountAll(skills, tags[..|tags| - 1], d, now), tags[|tags| - 1], d, now)
  }

  function Practised(skills: seq<Skill>, tags: seq<string>, now: int): seq<Skill> {
    seq(|skills|, i requires 0 <= i < |skills| =>
      if skills[i].name in tags then skills[i].(lastPracticed := now) else skills[i])
  }

  /** The profile after an accepted submission, when the user has `count` accepted ones for the problem. */
  function Update(skills: seq<Skill>, tags: seq<string>, d: Difficulty, count: nat, now: int): seq<Skill> {
    if tags == [] then skills
    else if count > 1 then Practised(skills, tags, now)
    else CountAll(skills, tags, d, now)
  }

  // ---- What every profile keeps ----

  predicate Rated(s: Skill) { s.easy + s.medium + s.hard == s.solved }

  predicate SkillOk(s: Skill) {
    && 0 <= s.easy && 0 <= s.medium && 0 <= s.hard
    && s.easy + s.medium + s.hard <= s.solved
    && s.level == CalculateSkillLevel(s.solved, s.easy, s.medium, s.hard)
  }

  predicate ProfileOk(skills: seq<Skill>) {
    && (forall i, j :: 0 <= i < j < |skills| ==> skills[i].name != skills[j].name)
    && (forall i :: 0 <= i < |skills| ==> SkillOk(skills[i]))
  }

  predicate AllRated(skills: seq<Skill>) { forall i :: 0 <= i < |skills| ==> Rated(skills[i]) }

  /** The second profile continues the first: no skill goes, no name moves, no level drops. */
  predicate Grows(a: seq<Skill>, b: seq<Skill>) {
    |a| <= |b| && forall i :: 0 <= i < |a| ==> a[i].name == b[i].name && Rank(a[i].level) <= Rank(b[i].level)
  }

  lemma RaisedKeeps(s: Skill, d: Difficulty, now: int)
    requires SkillOk(s)
    ensures var r := Raised(s, d, now);
      && SkillOk(r) && r.name == s.name && Rank(s.level) <= Rank(r.level)
      && (Rated(s) && !d.Unrated? ==> Rated(r))
  {
    var r := Raised(s, d, now);
    LevelIsMonotone(s.solved, s.easy, s.medium, s.hard, r.solved, r.easy, r.medium, r.hard);
  }

  lemma CountKeeps(skills: seq<Skill>, tag: string, d: Difficulty, now: int)
    requires ProfileOk(skills)
    ensures var after := Count(skills, tag, d, now);
      && ProfileOk(after) && Grows(skills, after)
      && (AllRated(skills) && !d.Unrated? ==> AllRated(after))
  {
    var i := Find(skills, tag);
    var s := if i < |skills| then skills[i] else Unpractised(tag);
    RaisedKeeps(s, d, now);
    var r, after := Raised(s, d, now), Count(skills, tag, d, now);
    assert forall k :: 0 <= k < |after| ==> after[k] == if k == i then r else skills[k];
    assert Grows(skills, after);
  }

  lemma {:induction false} CountAllKeeps(skills: seq<Skill>, tags: seq<string>, d: Difficulty, now: int)
    requires ProfileOk(skills)
    ensures var after := CountAll(skills, tags, d, now);
      && ProfileOk(after) && Grows(skills, after)
      && (AllRated(skills) && !d.Unrated? ==> AllRated(after))
  {
    if tags != [] {
      CountAllKeeps(skills, tags[..|tags| - 1], d, now);
      CountKeeps(CountAll(skills, tags[..|tags| - 1], d, now), tags[|tags| - 1], d, now);
    }
  }

  lemma PractisedKeeps(skills: seq<Skill>, tags: seq<string>, now: int)
    requires ProfileOk(skills)
    ensures var after := Practised(skills, tags, now);
      && ProfileOk(after) && Grows(skills, after)
      && (AllRated(skills) ==> AllRated(after))
  {
    var after := Practised(skills, tags, now);
    forall i | 0 <= i < |skills|
      ensures after[i].(lastPracticed := skills[i].lastPracticed) == skills[i]
    {
    }
  }

  lemma UpdateKeeps(skills: seq<Skill>, tags: seq<string>, d: Difficulty, count: nat, now: int)
    requires ProfileOk(skills)
    ensures var after := Update(skills, tags, d, count, now);
      && ProfileOk(after) && Grows(skills, after)
      && (AllRated(skills) && !d.Unrated? ==> AllRated(after))
  {
    if tags == [] {
    } else if count > 1 {
      PractisedKeeps(skills, tags, now);
    } else {
      CountAllKeeps(skills, tags, d, now);
    }
  }

  // ---- Runs ----

  /** Fixed data of the problems. */
  datatype Problems = Problems(tags: nat -> seq<string>, difficulty: nat -> Difficulty)

  /** What submissions that pass do, each in its own time: one is recorded as ACCEPTED, and the goroutine of one updates
      the profile. A submission of a problem without tests does only the first, one whose record could not be written
      only the second, and the second may come after the first of other submissions. */
  datatype Event =
    | Acceptance(problem: nat)
    | ProfileUpdate(problem: nat, now: int)

  function Acceptances(run: seq<Event>, problem: nat): nat {
    if run == [] then 0
    else Acceptances(run[..|run| - 1], problem) + Is(run[|run| - 1] == Acceptance(problem))
  }

  function ProfileAfter(ps: Problems, run: seq<Event>): seq<Skill> {
    if run == [] then []
    else
      var before := ProfileAfter(ps, run[..|run| - 1]);
      match run[|run| - 1]
      case Acceptance(_) => before
      case ProfileUpdate(p, now) => Update(before, ps.tags(p), ps.difficulty(p), Acceptances(run, p), now)
  }

  lemma StepKeeps(ps: Problems, run: seq<Event>)
    requires run != [] && ProfileOk(ProfileAfter(ps, run[..|run| - 1]))
    ensures var before, after := ProfileAfter(ps, run[..|run| - 1]), ProfileAfter(ps, run);
      && ProfileOk(after) && Grows(before, after)
      && (AllRated(before) && !ps.difficulty(run[|run| - 1].problem).Unrated? ==> AllRated(after))
  {
    match run[|run| - 1]
    case Acceptance(_) =>
    case ProfileUpdate(p, now) =>
      UpdateKeeps(ProfileAfter(ps, run[..|run| - 1]), ps.tags(p), ps.difficulty(p), Acceptances(run, p), now);
  }

  /** Every reachable profile has unique names, no more rated problems than solved ones, as many when all problems are
      rated Easy, Medium or Hard, and the level that its counts give. */
  lemma {:induction false} ReachableProfileOk(ps: Problems, run: seq<Event>)
    ensures ProfileOk(ProfileAfter(ps, run))
    ensures (forall i :: 0 <= i < |run| ==> !ps.difficulty(run[i].problem).Unrated?) ==>
              AllRated(ProfileAfter(ps, run))
  {
    if run != [] {
      ReachableProfileOk(ps, run[..|run| - 1]);
      StepKeeps(ps, run);
    }
  }

  /** No skill disappears and no level drops between any two moments of a run. */
  lemma {:induction false} LevelsNeverDrop(ps: Problems, run: seq<Event>, n: nat)
    requires n <= |run|
    ensures Grows(ProfileAfter(ps, run[..n]), ProfileAfter(ps, run))
  {
    if n == |run| {
      assert run[..n] == run;
    } else {
      var init := run[..|run| - 1];
      assert init[..n] == run[..n];
      LevelsNeverDrop(ps, init, n);
      ReachableProfileOk(ps, init);
      StepKeeps(ps, run);
    }
  }

  // ---- The counters and the sets ----

  /** The four counters of a skill and the problems that each is about. */
  datatype Counter = AllProblems | EasyOnes | MediumOnes | HardOnes
  {
    predicate About(d: Difficulty) {
      match this
      case AllProblems => true
      case EasyOnes => d == Easy
      case MediumOnes => d == Medium
      case HardOnes => d == Hard
    }

    function Of(s: Skill): int {
      match this
      case AllProblems => s.solved
      case EasyOnes => s.easy
      case MediumOnes => s.medium
      case HardOnes => s.hard
    }
  }

  function Reading(skills: seq<Skill>, tag: string, c: Counter): int {
    var i := Find(skills, tag);
    if i < |skills| then c.Of(skills[i]) else 0
  }

  lemma FindByNames(a: seq<Skill>, b: seq<Skill>, tag: string)
    requires |a| <= |b| && forall i :: 0 <= i < |a| ==> a[i].name == b[i].name
    ensures Find(a, tag) < |a| ==> Find(b, tag) == Find(a, tag)
    ensures |a| == |b| ==> Find(b, tag) == Find(a, tag)
  {
  }

  lemma FindAppended(skills: seq<Skill>, s: Skill, tag: string)
    ensures Find(skills + [s], tag) ==
            if Find(skills, tag) < |skills| then Find(skills, tag) else |skills| + Is(s.name != tag)
  {
    var all := skills + [s];
    assert all[|skills|] == s;
    assert forall k :: 0 <= k < |skills| ==> all[k] == skills[k];
  }

  /** Counting a tag raises its skill and leaves every other where it was. */
  lemma CountChangesOneSkill(skills: seq<Skill>, tag: string, d: Difficulty, now: int, other: string)
    ensures var i, k, after := Find(skills, tag), Find(skills, other), Count(skills, tag, d, now);
      && Find(after, tag) == i < |after|
      && after[i] == Raised(if i < |skills| then skills[i] else Unpractised(tag), d, now)
      && (other != tag && k < |skills| ==> Find(after, other) == k && after[k] == skills[k])
      && (other != tag && k == |skills| ==> Find(after, other) == |after|)
  {
    var i := Find(skills, tag);
    if i < |skills| {
      FindByNames(skills, Count(skills, tag, d, now), other);
      FindByNames(skills, Count(skills, tag, d, now), tag);
    } else {
      FindAppended(skills, Raised(Unpractised(tag), d, now), tag);
      FindAppended(skills, Raised(Unpractised(tag), d, now), other);
    }
  }

  lemma ReadingAfterCount(skills: seq<Skill>, tag: string, d: Difficulty, now: int, other: string, c: Counter)
    ensures Reading(Count(skills, tag, d, now), other, c) == Reading(skills, other, c) + Is(other == tag && c.About(d))
  {
    CountChangesOneSkill(skills, tag, d, now, other);
  }

  lemma {:induction false} ReadingAfterCountAll(
      skills: seq<Skill>, tags: seq<string>, d: Difficulty, now: int, tag: string, c: Counter)
    ensures Reading(CountAll(skills, tags, d, now), tag, c) ==
            Reading(skills, tag, c) + if c.About(d) then multiset(tags)[tag] else 0
  {
    if tags != [] {
      var init, last := tags[..|tags| - 1], tags[|tags| - 1];
      assert tags == init + [last];
      ReadingAfterCountAll(skills, init, d, now, tag, c);
      ReadingAfterCount(CountAll(skills, init, d, now), last, d, now, tag, c);
    }
  }

  lemma ReadingAfterPractising(skills: seq<Skill>, tags: seq<string>, now: int, tag: string, c: Counter)
    ensures Reading(Practised(skills, tags, now), tag, c) == Reading(skills, tag, c)
  {
    FindByNames(skills, Practised(skills, tags, now), tag);
  }

  /** The problem carries the tag and is one that the counter is about. */
  predicate Carries(ps: Problems, problem: nat, tag: string, c: Counter) {
    tag in ps.tags(problem) && c.About(ps.difficulty(problem))
  }

  /** How often the problem lists the tag, if the counter is about it. */
  function Listed(ps: Problems, problem: nat, tag: string, c: Counter): (n: nat)
    ensures n > 0 <==> Carries(ps, problem, tag, c)
  {
    if c.About(ps.difficulty(problem)) then multiset(ps.tags(problem))[tag] else 0
  }

  function Updates(run: seq<Event>, problem: nat): nat {
    if run == [] then 0
    else
      var e := run[|run| - 1];
      Updates(run[..|run| - 1], problem) + Is(e.ProfileUpdate? && e.problem == problem)
  }

  /** The run up to the second time that a submission for the problem is recorded as accepted. */
  function BeforeRepeat(run: seq<Event>, problem: nat): seq<Event> {
    if Acceptances(run, problem) <= 1 then run else BeforeRepeat(run[..|run| - 1], problem)
  }

  /** How often the problem is counted: once for every update before its second acceptance. */
  function TimesCounted(run: seq<Event>, problem: nat): nat { Updates(BeforeRepeat(run, problem), problem) }

  function Mentioned(run: seq<Event>): set<nat> { set i | 0 <= i < |run| :: run[i].problem }

  /** The distinct problems with a recorded acceptance that the counter of the tag is about. */
  function Carrying(ps: Problems, run: seq<Event>, tag: string, c: Counter): set<nat> {
    set p | p in Mentioned(run) && Carries(ps, p, tag, c) && Acceptances(run, p) > 0
  }

  /** Those of them that no update counts. */
  function Missed(ps: Problems, run: seq<Event>, tag: string, c: Counter): set<nat> {
    set p | p in Carrying(ps, run, tag, c) && TimesCounted(run, p) == 0
  }

  function Weights(ps: Problems, run: seq<Event>, tag: string, c: Counter): nat -> nat {
    p => TimesCounted(run, p) * Listed(ps, p, tag, c)
  }

  /** What a problem adds to the counter beyond the one that an accepted problem should. */
  function Surplus(ps: Problems, run: seq<Event>, tag: string, c: Counter): nat -> nat {
    p =>
      var weight, due := Weights(ps, run, tag, c)(p), Is(p in Carrying(ps, run, tag, c));
      if weight > due then weight - due else 0
  }

  /** No problem is counted twice, lists the tag twice and is counted, or is counted without being accepted. */
  predicate CountedAtMostOnce(ps: Problems, run: seq<Event>, tag: string, c: Counter) {
    forall p :: p in Mentioned(run) && Carries(ps, p, tag, c) && TimesCounted(run, p) > 0 ==>
      TimesCounted(run, p) == 1 && multiset(ps.tags(p))[tag] == 1 && Acceptances(run, p) > 0
  }

  lemma TimesStep(run: seq<Event>, e: Event, problem: nat)
    ensures TimesCounted(run + [e], problem) ==
            TimesCounted(run, problem) + Is(e.ProfileUpdate? && e.problem == problem && Acceptances(run, problem) <= 1)
    ensures Acceptances(run + [e], problem) == Acceptances(run, problem) + Is(e == Acceptance(problem))
  {
    assert (run + [e])[..|run|] == run;
  }

  lemma {:induction false} OnlyMentionedCount(run: seq<Event>, problem: nat)
    ensures Acceptances(run, problem) > 0 || TimesCounted(run, problem) > 0 ==> problem in Mentioned(run)
  {
    if run != [] {
      var init, e := run[..|run| - 1], run[|run| - 1];
      assert run == init + [e];
      OnlyMentionedCount(init, problem);
      TimesStep(init, e, problem);
      assert problem in Mentioned(init) ==> problem in Mentioned(run) by {
        if i :| 0 <= i < |init| && init[i].problem == problem {
          assert run[i].problem == problem;
        }
      }
    }
  }

  lemma ReadingStep(ps: Problems, run: seq<Event>, e: Event, tag: string, c: Counter)
    ensures Reading(ProfileAfter(ps, run + [e]), tag, c) == Reading(ProfileAfter(ps, run), tag, c) +
            if e.ProfileUpdate? && Acceptances(run, e.problem) <= 1 then Listed(ps, e.problem, tag, c) else 0
  {
    assert (run + [e])[..|run|] == run;
    TimesStep(run, e, e.problem);
    if e.ProfileUpdate? {
      var before, tags := ProfileAfter(ps, run), ps.tags(e.problem);
      ReadingAfterPractising(before, tags, e.now, tag, c);
      ReadingAfterCountAll(before, tags, ps.difficulty(e.problem), e.now, tag, c);
    }
  }

  lemma OneMoreTime(n: nat, m: nat)
    ensures (n + 1) * m == n * m + m && (n + 0) * m == n * m
  {
  }

  lemma WeightsStep(ps: Problems, run: seq<Event>, e: Event, tag: string, c: Counter, problem: nat)
    ensures Weights(ps, run + [e], tag, c)(problem) == Weights(ps, run, tag, c)(problem) +
            if e.ProfileUpdate? && e.problem == problem && Acceptances(run, problem) <= 1
            then Listed(ps, problem, tag, c) else 0
  {
    TimesStep(run, e, problem);
    OneMoreTime(TimesCounted(run, problem), Listed(ps, problem, tag, c));
  }

  /** In every run each of the four counters of a tag is the sum, over the distinct problems it is about, of how often
      the problem is counted times how often it lists the tag. */
  lemma {:induction false} CountersLaw(ps: Problems, run: seq<Event>, tag: string, c: Counter, problems: set<nat>)
    requires Mentioned(run) <= problems
    ensures Reading(ProfileAfter(ps, run), tag, c) == Sum(Weights(ps, run, tag, c), problems)
  {
    if run == [] {
      SumIsZeroIff(Weights(ps, run, tag, c), problems);
    } else {
      var init, e := run[..|run| - 1], run[|run| - 1];
      assert run == init + [e];
      forall p | p in Mentioned(init)
        ensures p in Mentioned(run)
      {
        var i :| 0 <= i < |init| && init[i].problem == p;
        assert run[i].problem == p;
      }
      CountersLaw(ps, init, tag, c, problems);
      ReadingStep(ps, init, e, tag, c);
      forall p | p in problems
        ensures p != e.problem ==> Weights(ps, run, tag, c)(p) == Weights(ps, init, tag, c)(p)
      {
        WeightsStep(ps, init, e, tag, c, p);
      }
      WeightsStep(ps, init, e, tag, c, e.problem);
      assert e.problem in Mentioned(run);
      SumChangesAt(Weights(ps, init, tag, c), Weights(ps, run, tag, c), problems, e.problem);
    }
  }

  /** What a problem adds to a skill, of all problems or of those of one difficulty. */
  function Share(ps: Problems, run: seq<Event>, tag: string, d: Option<Difficulty>, problem: nat): nat {
    if d == None || d == Some(ps.difficulty(problem)) then TimesCounted(run, problem) * multiset(ps.tags(problem))[tag]
    else 0
  }

  function Shares(ps: Problems, run: seq<Event>, tag: string, d: Option<Difficulty>): nat -> nat {
    p => Share(ps, run, tag, d, p)
  }

  lemma ReadingIsSum(ps: Problems, run: seq<Event>, tag: string, c: Counter, d: Option<Difficulty>)
    requires forall p: nat :: c.About(ps.difficulty(p)) <==> d == None || d == Some(ps.difficulty(p))
    ensures Reading(ProfileAfter(ps, run), tag, c) == Sum(Shares(ps, run, tag, d), Mentioned(run))
  {
    CountersLaw(ps, run, tag, c, Mentioned(run));
    var f, g := Weights(ps, run, tag, c), Shares(ps, run, tag, d);
    forall p | p in Mentioned(run)
      ensures f(p) + f(p) == g(p) + g(p)
    {
    }
    SumsBalance(f, f, g, g, Mentioned(run));
  }

  /** What a skill of any reachable profile shows: its four counters in terms of the run alone, and the level as the
      numbers of the counters alone decide it. */
  lemma SkillShows(ps: Problems, run: seq<Event>, i: nat)
    requires i < |ProfileAfter(ps, run)|
    ensures var s := ProfileAfter(ps, run)[i];
      && s.solved == Sum(Shares(ps, run, s.name, None), Mentioned(run))
      && s.easy == Sum(Shares(ps, run, s.name, Some(Easy)), Mentioned(run))
      && s.medium == Sum(Shares(ps, run, s.name, Some(Medium)), Mentioned(run))
      && s.hard == Sum(Shares(ps, run, s.name, Some(Hard)), Mentioned(run))
    ensures var s := ProfileAfter(ps, run)[i];
      && (s.level == Expert <==> s.hard >= 10 || s.solved >= 50)
      && (s.level == Expert || s.level == Advanced <==> s.hard >= 5 || s.medium >= 15 || s.solved >= 30)
      && (s.level == Beginner <==> s.hard < 5 && s.medium < 5 && s.solved < 15)
  {
    var skills := ProfileAfter(ps, run);
    ReachableProfileOk(ps, run);
    assert SkillOk(skills[i]);
    FindOfOwnName(skills, i);
    ReadingIsSum(ps, run, skills[i].name, AllProblems, None);
    ReadingIsSum(ps, run, skills[i].name, EasyOnes, Some(Easy));
    ReadingIsSum(ps, run, skills[i].name, MediumOnes, Some(Medium));
    ReadingIsSum(ps, run, skills[i].name, HardOnes, Some(Hard));
  }

  lemma FindOfOwnName(skills: seq<Skill>, i: nat)
    requires ProfileOk(skills) && i < |skills|
    ensures Find(skills, skills[i].name) == i
  {
  }

  lemma SurplusIsZeroIff(ps: Problems, run: seq<Event>, tag: string, c: Counter)
    ensures Sum(Surplus(ps, run, tag, c), Mentioned(run)) == 0 <==> CountedAtMostOnce(ps, run, tag, c)
  {
    SumIsZeroIff(Surplus(ps, run, tag, c), Mentioned(run));
    forall p | p in Mentioned(run)
      ensures Surplus(ps, run, tag, c)(p) == 0 <==>
              (Carries(ps, p, tag, c) && TimesCounted(run, p) > 0 ==>
                 TimesCounted(run, p) == 1 && multiset(ps.tags(p))[tag] == 1 && Acceptances(run, p) > 0)
    {
      SurplusOfOne(ps, run, tag, c, p);
    }
  }

  lemma SurplusOfOne(ps: Problems, run: seq<Event>, tag: string, c: Counter, p: nat)
    requires p in Mentioned(run)
    ensures Surplus(ps, run, tag, c)(p) == 0 <==>
              (Carries(ps, p, tag, c) && TimesCounted(run, p) > 0 ==>
                 TimesCounted(run, p) == 1 && multiset(ps.tags(p))[tag] == 1 && Acceptances(run, p) > 0)
  {
    var n, m := TimesCounted(run, p), Listed(ps, p, tag, c);
    ProductAtMostOne(n, m);
    assert p in Carrying(ps, run, tag, c) <==> m > 0 && Acceptances(run, p) > 0;
    assert Weights(ps, run, tag, c)(p) == n * m;
    assert Carries(ps, p, tag, c) ==> m == multiset(ps.tags(p))[tag];
  }

  lemma ProductAtMostOne(n: nat, m: nat)
    ensures n * m == 0 <==> n == 0 || m == 0
    ensures n * m <= 1 <==> n == 0 || m == 0 || (n == 1 && m == 1)
  {
    if n >= 1 && m >= 1 {
      assert n * m >= n && n * m >= m;
    }
  }

  /** In every run a counter and the missed problems together make the distinct accepted problems that it is about, and
      the surplus. */
  lemma CountersBalance(ps: Problems, run: seq<Event>, tag: string, c: Counter)
    ensures Reading(ProfileAfter(ps, run), tag, c) + |Missed(ps, run, tag, c)| ==
            |Carrying(ps, run, tag, c)| + Sum(Surplus(ps, run, tag, c), Mentioned(run))
  {
    var all, missed := Carrying(ps, run, tag, c), Missed(ps, run, tag, c);
    CountersLaw(ps, run, tag, c, Mentioned(run));
    SumOfMembers(all, Mentioned(run));
    SumOfMembers(missed, Mentioned(run));
    forall p | p in Mentioned(run)
      ensures Weights(ps, run, tag, c)(p) + Members(missed)(p) == Members(all)(p) + Surplus(ps, run, tag, c)(p)
    {
      ProductAtMostOne(TimesCounted(run, p), Listed(ps, p, tag, c));
    }
    SumsBalance(Weights(ps, run, tag, c), Members(missed), Members(all), Surplus(ps, run, tag, c), Mentioned(run));
  }

  /** A counter is the number of distinct accepted problems that it is about if and only if the surplus makes up for the
      problems that no update counts; so, if no problem is counted too often, if and only if none is missed, and if none
      is missed, if and only if no problem is counted too often. */
  lemma CountersCountDistinctProblemsIff(ps: Problems, run: seq<Event>, tag: string, c: Counter)
    ensures var reading, all := Reading(ProfileAfter(ps, run), tag, c), |Carrying(ps, run, tag, c)|;
      var missed := Missed(ps, run, tag, c);
      && (reading == all <==> Sum(Surplus(ps, run, tag, c), Mentioned(run)) == |missed|)
      && (CountedAtMostOnce(ps, run, tag, c) ==> reading <= all && (reading == all <==> missed == {}))
      && (missed == {} ==> reading >= all && (reading == all <==> CountedAtMostOnce(ps, run, tag, c)))
  {
    CountersBalance(ps, run, tag, c);
    SurplusIsZeroIff(ps, run, tag, c);
  }

  // ---- Submissions one after the other ----

  /** A submission that passes, with its update before the next one passes: judged on its tests, or accepted because the
      problem had none at the time, which leads to no update. */
  datatype Passing = Passing(problem: nat, now: int, judged: bool)

  function EventsOf(passings: seq<Passing>): seq<Event> {
    if passings == [] then []
    else
      var a := passings[|passings| - 1];
      var recorded := EventsOf(passings[..|passings| - 1]) + [Acceptance(a.problem)];
      if a.judged then recorded + [ProfileUpdate(a.problem, a.now)] else recorded
  }

  /** The first submission that passes for a problem. */
  function First(passings: seq<Passing>, problem: nat): Option<Passing> {
    if passings == [] then None
    else
      var earlier, a := First(passings[..|passings| - 1], problem), passings[|passings| - 1];
      if earlier.None? && a.problem == problem then Some(a) else earlier
  }

  predicate FirstJudged(passings: seq<Passing>, problem: nat) {
    First(passings, problem).Some? && First(passings, problem).value.judged
  }

  lemma {:induction false} InOrderCountsOnce(passings: seq<Passing>, problem: nat)
    ensures Acceptances(EventsOf(passings), problem) > 0 <==> First(passings, problem).Some?
    ensures TimesCounted(EventsOf(passings), problem) == Is(FirstJudged(passings, problem))
  {
    if passings != [] {
      var init, a := passings[..|passings| - 1], passings[|passings| - 1];
      InOrderCountsOnce(init, problem);
      TimesStep(EventsOf(init), Acceptance(a.problem), problem);
      TimesStep(EventsOf(init) + [Acceptance(a.problem)], ProfileUpdate(a.problem, a.now), problem);
    }
  }

  predicate TaggedAtMostOnce(ps: Problems, problems: set<nat>, tag: string) {
    forall problem :: problem in problems ==> multiset(ps.tags(problem))[tag] <= 1
  }

  predicate AllFirstJudged(passings: seq<Passing>, problems: set<nat>) {
    forall problem :: problem in problems ==> FirstJudged(passings, problem)
  }

  /** With submissions that are all recorded and do not overtake each other, no problem counts too often unless it lists
      a tag twice, and none is missed unless its first accepted submission was not judged on tests. */
  lemma InOrderCountersIff(ps: Problems, passings: seq<Passing>, tag: string, c: Counter)
    ensures var run := EventsOf(passings);
      var reading, all := Reading(ProfileAfter(ps, run), tag, c), Carrying(ps, run, tag, c);
      && (TaggedAtMostOnce(ps, all, tag) ==>
            reading <= |all| && (reading == |all| <==> AllFirstJudged(passings, all)))
      && (AllFirstJudged(passings, all) ==>
            reading >= |all| && (reading == |all| <==> TaggedAtMostOnce(ps, all, tag)))
  {
    InOrderConditions(ps, passings, tag, c);
    CountersCountDistinctProblemsIff(ps, EventsOf(passings), tag, c);
  }

  lemma InOrderConditions(ps: Problems, passings: seq<Passing>, tag: string, c: Counter)
    ensures var run := EventsOf(passings);
      var all := Carrying(ps, run, tag, c);
      && (Missed(ps, run, tag, c) == {} <==> AllFirstJudged(passings, all))
      && (TaggedAtMostOnce(ps, all, tag) ==> CountedAtMostOnce(ps, run, tag, c))
      && (CountedAtMostOnce(ps, run, tag, c) && AllFirstJudged(passings, all) ==> TaggedAtMostOnce(ps, all, tag))
  {
    var run := EventsOf(passings);
    forall p: nat
      ensures Acceptances(run, p) > 0 <==> First(passings, p).Some?
      ensures TimesCounted(run, p) == Is(FirstJudged(passings, p))
    {
      InOrderCountsOnce(passings, p);
    }
    var all, missed := Carrying(ps, run, tag, c), Missed(ps, run, tag, c);
    assert forall p :: p in all ==> (p in missed <==> !FirstJudged(passings, p));
  }

  // ---- Practice ----

  /** When an update for a problem with the tag last came. */
  function LastUpdate(ps: Problems, run: seq<Event>, tag: string): Option<int> {
    if run == [] then None
    else
      var e := run[|run| - 1];
      if e.ProfileUpdate? && tag in ps.tags(e.problem) then Some(e.now) else LastUpdate(ps, run[..|run| - 1], tag)
  }

  /** Some problem with the tag is counted. */
  ghost predicate TagCounted(ps: Problems, run: seq<Event>, tag: string) {
    exists p: nat :: tag in ps.tags(p) && TimesCounted(run, p) > 0
  }

  function LastPractised(skills: seq<Skill>, tag: string): Option<int> {
    var i := Find(skills, tag);
    if i < |skills| then Some(skills[i].lastPracticed) else None
  }

  lemma {:induction false} PractisedByCountAll(
      skills: seq<Skill>, tags: seq<string>, d: Difficulty, now: int, tag: string)
    ensures LastPractised(CountAll(skills, tags, d, now), tag) ==
            if tag in tags then Some(now) else LastPractised(skills, tag)
  {
    if tags != [] {
      var init, last := tags[..|tags| - 1], tags[|tags| - 1];
      assert tags == init + [last];
      PractisedByCountAll(skills, init, d, now, tag);
      CountChangesOneSkill(CountAll(skills, init, d, now), last, d, now, tag);
    }
  }

  lemma PractisedByPractising(skills: seq<Skill>, tags: seq<string>, now: int, tag: string)
    ensures LastPractised(Practised(skills, tags, now), tag) ==
            if tag in tags && Find(skills, tag) < |skills| then Some(now) else LastPractised(skills, tag)
  {
    FindByNames(skills, Practised(skills, tags, now), tag);
  }

  lemma PracticeStep(ps: Problems, run: seq<Event>, e: Event, tag: string)
    ensures var before := LastPractised(ProfileAfter(ps, run), tag);
      LastPractised(ProfileAfter(ps, run + [e]), tag) ==
        if e.ProfileUpdate? && tag in ps.tags(e.problem) && (Acceptances(run, e.problem) <= 1 || before.Some?)
        then Some(e.now) else before
  {
    assert (run + [e])[..|run|] == run;
    TimesStep(run, e, e.problem);
    if e.ProfileUpdate? {
      var before, tags := ProfileAfter(ps, run), ps.tags(e.problem);
      PractisedByCountAll(before, tags, ps.difficulty(e.problem), e.now, tag);
      PractisedByPractising(before, tags, e.now, tag);
    }
  }

  lemma TagCountedStep(ps: Problems, run: seq<Event>, e: Event, tag: string)
    ensures TagCounted(ps, run + [e], tag) <==>
              (TagCounted(ps, run, tag) ||
               (e.ProfileUpdate? && tag in ps.tags(e.problem) && Acceptances(run, e.problem) <= 1))
  {
    forall p: nat
      ensures TimesCounted(run + [e], p) ==
              TimesCounted(run, p) + Is(e.ProfileUpdate? && e.problem == p && Acceptances(run, p) <= 1)
    {
      TimesStep(run, e, p);
    }
  }

  /** A tag has a skill in the profile exactly when some problem with it is counted, and the skill then shows when the
      last update for a problem with the tag came, whether that one counted its problem or not. */
  lemma {:induction false} PracticeIsLastUpdate(ps: Problems, run: seq<Event>, tag: string)
    ensures LastPractised(ProfileAfter(ps, run), tag) ==
            if TagCounted(ps, run, tag) then LastUpdate(ps, run, tag) else None
    ensures TagCounted(ps, run, tag) ==> LastUpdate(ps, run, tag).Some?
  {
    if run != [] {
      var init, e := run[..|run| - 1], run[|run| - 1];
      assert run == init + [e];
      PracticeIsLastUpdate(ps, init, tag);
      PracticeStep(ps, init, e, tag);
      TagCountedStep(ps, init, e, tag);
    }
  }

  // ---- Two runs that miscount ----

  function OneTag(): Problems { Problems(p => ["arrays"], p => Easy) }

  /** A submission passes but its record cannot be written, and the next one is recorded: one problem counts twice. */
  lemma UnrecordedPassCountsTwice()
    ensures var run := [ProfileUpdate(0, 5), Acceptance(0), ProfileUpdate(0, 6)];
      && Reading(ProfileAfter(OneTag(), run), "arrays", AllProblems) == 2
      && Carrying(OneTag(), run, "arrays", AllProblems) == {0}
  {
    var run := [ProfileUpdate(0, 5), Acceptance(0), ProfileUpdate(0, 6)];
    RunOfThree(run[0], run[1], run[2], 0);
    ReadingStep(OneTag(), [], run[0], "arrays", AllProblems);
    ReadingStep(OneTag(), [run[0]], run[1], "arrays", AllProblems);
    ReadingStep(OneTag(), [run[0], run[1]], run[2], "arrays", AllProblems);
    assert run[1].problem == 0;
  }

  /** Two submissions are recorded before the goroutine of the first updates the profile: the problem never counts. */
  lemma OvertakenUpdateNeverCounts()
    ensures var run := [Acceptance(0), Acceptance(0), ProfileUpdate(0, 5)];
      && Reading(ProfileAfter(OneTag(), run), "arrays", AllProblems) == 0
      && Carrying(OneTag(), run, "arrays", AllProblems) == {0}
  {
    var run := [Acceptance(0), Acceptance(0), ProfileUpdate(0, 5)];
    RunOfThree(run[0], run[1], run[2], 0);
    ReadingStep(OneTag(), [], run[0], "arrays", AllProblems);
    ReadingStep(OneTag(), [run[0]], run[1], "arrays", AllProblems);
    ReadingStep(OneTag(), [run[0], run[1]], run[2], "arrays", AllProblems);
    assert run[1].problem == 0;
  }

  lemma RunOfThree(a: Event, b: Event, c: Event, problem: nat)
    ensures [] + [a] == [a] && [a] + [b] == [a, b] && [a, b] + [c] == [a, b, c]
    ensures Acceptances([a], problem) == Is(a == Acceptance(problem))
    ensures Acceptances([a, b], problem) == Acceptances([a], problem) + Is(b == Acceptance(problem))
    ensures Acceptances([a, b, c], problem) == Acceptances([a, b], problem) + Is(c == Acceptance(problem))
  {
    assert [a][..0] == [] && [a, b][..1] == [a] && [a, b, c][..2] == [a, b];
  }

  // ---- The profile in place ----

  class Profile {
    var skills: seq<Skill>

    constructor ()
      ensures skills == []
    {
      skills := [];
    }

    /** The branch for a problem that was solved before. */
    method Practise(tags: seq<string>, now: int)
      modifies this
      ensures skills == Practised(old(skills), tags, now)
    {
      ghost var before := skills;
      for i := 0 to |skills|
        invariant |skills| == |before|
        invariant forall k :: 0 <= k < i ==> skills[k] == Practised(before, tags, now)[k]
        invariant forall k :: i <= k < |skills| ==> skills[k] == before[k]
      {
        var name := skills[i].name;
        for j := 0 to |tags|
          invariant |skills| == |before|
          invariant forall k :: 0 <= k < |skills| && k != i ==>
            skills[k] == if k < i then Practised(before, tags, now)[k] else before[k]
          invariant skills[i] == if name in tags[..j] then before[i].(lastPracticed := now) else before[i]
        {
          if name == tags[j] {
            skills := skills[i := skills[i].(lastPracticed := now)];
          }
        }
        assert tags[..|tags|] == tags;
      }
    }

    method FindSkill(tag: string) returns (i: nat)
      ensures i == Find(skills, tag)
    {
      i := Search((s: Skill) => s.name == tag, skills);
    }

    method CountTag(tag: string, difficulty: Difficulty, now: int)
      modifies this
      ensures skills == Count(old(skills), tag, difficulty, now)
    {
      var i := FindSkill(tag);
      if i < |skills| {
        var s := skills[i].(solved := skills[i].solved + 1);
        match difficulty {
          case Easy => s := s.(easy := s.easy + 1);
          case Medium => s := s.(medium := s.medium + 1);
          case Hard => s := s.(hard := s.hard + 1);
          case Unrated(_) =>
        }
        s := s.(level := CalculateSkillLevel(s.solved, s.easy, s.medium, s.hard), lastPracticed := now);
        skills := skills[i := s];
      } else {
        var easy, medium, hard := 0, 0, 0;
        match difficulty {
          case Easy => easy := 1;
          case Medium => medium := 1;
          case Hard => hard := 1;
          case Unrated(_) =>
        }
        skills := skills + [Skill(tag, CalculateSkillLevel(1, easy, medium, hard), 1, easy, medium, hard, now)];
      }
    }

    /** The branch for a newly solved problem. */
    method CountProblem(tags: seq<string>, difficulty: Difficulty, now: int)
      modifies this
      ensures skills == CountAll(old(skills), tags, difficulty, now)
    {
      assert tags[..0] == [];
      for j := 0 to |tags|
        invariant skills == CountAll(old(skills), tags[..j], difficulty, now)
      {
        assert tags[..j + 1][..j] == tags[..j];
        CountTag(tags[j], difficulty, now);
      }
      assert tags[..|tags|] == tags;
    }

    /** UpdateUserSkill; `count` is the number of accepted submissions of the user for the problem. */
    method UpdateUserSkill(tags: seq<string>, difficulty: Difficulty, accepted: bool, count: nat, now: int)
      modifies this
      ensures skills == if accepted then Update(old(skills), tags, difficulty, count, now) else old(skills)
      ensures ProfileOk(old(skills)) ==> ProfileOk(skills) && Grows(old(skills), skills)
    {
      ghost var before := skills;
      if !accepted || |tags| == 0 {
        return;
      }
      if count > 1 {
        Practise(tags, now);
      } else {
        CountProblem(tags, difficulty, now);
      }
      if ProfileOk(before) {
        UpdateKeeps(before, tags, difficulty, count, now);
      }
    }
  }
}

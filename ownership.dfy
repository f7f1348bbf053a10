/** Code ownership and dependency risk in analyze_repository_data
    (backend/app/github.py): who authored each commit, the per-author size estimates,
    each contributor's risk level, and the dependency counts derived from the
    contributors' shares of the commits. Python's float percentages are exact
    rationals here and every threshold test is an integer cross-multiplication. */
module Ownership {
  import opened Common
  import opened Counting

  // ---------------------------------------------------------------------------
  // Commit authors
  // ---------------------------------------------------------------------------

  /** The `name` field of an author block: absent, JSON null, or a string. */
  datatype NameField = NameAbsent | NameNull | Name(text: string)

  /** An author block. `login` is "" when the field is absent, null or empty, the
      three cases `or` treats alike. */
  datatype Account = Account(login: string, name: NameField)

  /** The parts of a GitHub commit the analysis reads: the linked GitHub account (None
      when `author` is null or empty), the git author block under `commit`
      (Account("", NameAbsent) when missing), and that block's date ("" when missing). */
  datatype CommitRecord = CommitRecord(linked: Option<Account>, gitAuthor: Account, date: string)

  /** A key of `author_commits`: a name, or Python's None for a null git author name. */
  type AuthorKey = Option<string>

  /** `author.get('login') or author.get('name', 'Unknown')`, on the linked account when
      there is one and on the git author block otherwise. */
  function AuthorName(c: CommitRecord): AuthorKey
  {
    var author := if c.linked.Some? then c.linked.value else c.gitAuthor;
    if author.login != "" then Some(author.login)
    else match author.name
      case NameAbsent => Some("Unknown")
      case NameNull => None
      case Name(n) => Some(n)
  }

  // ---------------------------------------------------------------------------
  // module_impact estimates
  // ---------------------------------------------------------------------------

  /** The integer fields of a module_impact entry. */
  datatype Estimates = Estimates(primaryFilesCount: int, primaryFoldersCount: int,
                                 totalAdditions: int, totalDeletions: int)

  function EstimatesFor(commitCount: nat): Estimates
  {
    Estimates(Max(2, commitCount / 2 + 1), Max(1, commitCount / 5 + 1),
              Max(commitCount * 20, 15), Max(commitCount * 10, 8))
  }

  /** The estimates are never zero, and they never shrink as the commit count grows. */
  lemma EstimatesGrowWithCommits(a: nat, b: nat)
    requires a <= b
    ensures var e := EstimatesFor(a);
      e.primaryFilesCount >= 2 && e.primaryFoldersCount >= 1 && e.totalAdditions >= 15 && e.totalDeletions >= 8
    ensures var e, f := EstimatesFor(a), EstimatesFor(b);
      e.primaryFilesCount <= f.primaryFilesCount && e.primaryFoldersCount <= f.primaryFoldersCount &&
      e.totalAdditions <= f.totalAdditions && e.totalDeletions <= f.totalDeletions
  {
  }

  /** module_impact: each author with the estimates for their commit count. */
  function ImpactOf(authorCommits: seq<(AuthorKey, nat)>): seq<(AuthorKey, Estimates)>
  {
    seq(|authorCommits|, i requires 0 <= i < |authorCommits| => (authorCommits[i].0, EstimatesFor(authorCommits[i].1)))
  }

  /** The loop over `author_commits` that fills module_impact, one entry per author in
      insertion order. */
  method ModuleImpact(authorCommits: seq<(AuthorKey, nat)>) returns (impact: seq<(AuthorKey, Estimates)>)
    ensures impact == ImpactOf(authorCommits)
    ensures KeysOf(impact) == KeysOf(authorCommits)
    ensures forall i :: 0 <= i < |impact| ==> impact[i].1 == EstimatesFor(authorCommits[i].1)
  {
    impact := [];
    var i := 0;
    while i < |authorCommits|
      invariant 0 <= i <= |authorCommits| && |impact| == i
      invariant forall k :: 0 <= k < i ==>
        impact[k] == (authorCommits[k].0, EstimatesFor(authorCommits[k].1))
    {
      var (authorName, commitCount) := authorCommits[i];
      impact := impact + [(authorName, EstimatesFor(commitCount))];
      i := i + 1;
    }
  }

  // ---------------------------------------------------------------------------
  // Risk levels
  // ---------------------------------------------------------------------------

  datatype RiskLevel = Critical | High | Medium | Low

  /** `commits / total * 100`, or 0 when there are no commits, as an exact rational. */
  function Share(commits: int, total: int): real
  {
    if total > 0 then (commits as real / total as real) * 100.0 else 0.0
  }

  /** The risk level of a contributor with `commits` of `total` commits. */
  function RiskLevelOf(commits: int, total: int): RiskLevel
  {
    if total > 0 && 100 * commits > 50 * total then Critical
    else if total > 0 && 100 * commits > 30 * total then High
    else if total > 0 && 100 * commits > 10 * total then Medium
    else Low
  }

  lemma ShareAbove(commits: int, total: int, t: real)
    requires total > 0
    ensures Share(commits, total) > t <==> 100.0 * commits as real > t * total as real
  {
    var x := commits as real / total as real;
    assert x * total as real == commits as real;
    if x * 100.0 > t {
      assert x * 100.0 * total as real > t * total as real;
    }
    if 100.0 * commits as real > t * total as real {
      assert (x * 100.0) * total as real > t * total as real;
    }
  }

  /** The cross-multiplied thresholds classify exactly as comparing the percentage
      with 50, 30 and 10 would. */
  lemma RiskLevelMeaning(commits: int, total: int)
    ensures RiskLevelOf(commits, total) ==
      if Share(commits, total) > 50.0 then Critical
      else if Share(commits, total) > 30.0 then High
      else if Share(commits, total) > 10.0 then Medium
      else Low
  {
    if total > 0 {
      ShareAbove(commits, total, 50.0);
      ShareAbove(commits, total, 30.0);
      ShareAbove(commits, total, 10.0);
    }
  }

  /** `round(percentage, 2) > t` for a whole number `t`, read on exact rationals: the
      rounded share is above t exactly when the share exceeds t + 0.005. */
  predicate RoundedShareAbove(commits: int, total: int, t: int)
  {
    total > 0 && 20000 * commits > (200 * t + 1) * total
  }

  lemma RoundedShareAboveMeaning(commits: int, total: int, t: int)
    ensures RoundedShareAbove(commits, total, t) <==> total > 0 && Share(commits, total) > t as real + 0.005
  {
    if total > 0 {
      ShareAbove(commits, total, t as real + 0.005);
    }
  }

  // ---------------------------------------------------------------------------
  // key_contributors and the dependency counts
  // ---------------------------------------------------------------------------

  /** An entry of key_contributors, its percentage kept as the commit count it comes
      from. */
  datatype KeyContributor = KeyContributor(name: AuthorKey, commits: nat, riskLevel: RiskLevel)

  /** key_contributors: each ranked author with their commits and the risk level of
      their share. */
  function KeyContributorsOf(topContributors: seq<(AuthorKey, nat)>, totalContributions: int): seq<KeyContributor>
  {
    seq(|topContributors|, i requires 0 <= i < |topContributors| =>
      KeyContributor(topContributors[i].0, topContributors[i].1, RiskLevelOf(topContributors[i].1, totalContributions)))
  }

  /** The loop over top_contributors that builds key_contributors. */
  method KeyContributors(topContributors: seq<(AuthorKey, nat)>, totalContributions: int)
    returns (contributors: seq<KeyContributor>)
    ensures contributors == KeyContributorsOf(topContributors, totalContributions)
    ensures |contributors| == |topContributors|
    ensures forall i :: 0 <= i < |contributors| ==>
      contributors[i].name == topContributors[i].0 && contributors[i].commits == topContributors[i].1 &&
      contributors[i].riskLevel == RiskLevelOf(topContributors[i].1, totalContributions)
  {
    contributors := [];
    for i := 0 to |topContributors|
      invariant |contributors| == i
      invariant forall k :: 0 <= k < i ==>
        contributors[k] == KeyContributor(topContributors[k].0, topContributors[k].1,
                                          RiskLevelOf(topContributors[k].1, totalContributions))
    {
      var (name, commits) := topContributors[i];
      var riskLevel := RiskLevelOf(commits, totalContributions);
      contributors := contributors + [KeyContributor(name, commits, riskLevel)];
    }
  }

  /** `len([c for c in key_contributors if c['percentage'] > t])`. */
  function CountAbove(contributors: seq<KeyContributor>, total: int, t: int): nat
  {
    if contributors == [] then 0
    else (if RoundedShareAbove(contributors[0].commits, total, t) then 1 else 0) +
         CountAbove(contributors[1..], total, t)
  }

  function BusFactor(contributors: seq<KeyContributor>, total: int): nat
  {
    CountAbove(contributors, total, 10)
  }

  function HighDependency(contributors: seq<KeyContributor>, total: int): nat
  {
    CountAbove(contributors, total, 30)
  }

  function CriticalDependency(contributors: seq<KeyContributor>, total: int): nat
  {
    CountAbove(contributors, total, 50)
  }

  /** The commits of all the listed contributors. */
  function CommitsOf(contributors: seq<KeyContributor>): nat
  {
    if contributors == [] then 0 else contributors[0].commits + CommitsOf(contributors[1..])
  }

  lemma {:induction false} CountAboveExists(contributors: seq<KeyContributor>, total: int, t: int)
    ensures CountAbove(contributors, total, t) > 0 <==>
      exists i :: 0 <= i < |contributors| && RoundedShareAbove(contributors[i].commits, total, t)
  {
    if contributors != [] {
      CountAboveExists(contributors[1..], total, t);
      if RoundedShareAbove(contributors[0].commits, total, t) {
        assert RoundedShareAbove(contributors[0].commits, total, t);
      } else {
        forall i | 0 <= i < |contributors| && RoundedShareAbove(contributors[i].commits, total, t)
          ensures exists j :: 0 <= j < |contributors[1..]| && RoundedShareAbove(contributors[1..][j].commits, total, t)
        {
          assert contributors[1..][i - 1] == contributors[i];
        }
      }
    }
  }

  /** A higher threshold never counts more contributors: bus_factor >=
      high_dependency_count >= critical_dependency_count. */
  lemma {:induction false} DependencyCountsOrdered(contributors: seq<KeyContributor>, total: int)
    ensures CriticalDependency(contributors, total) <= HighDependency(contributors, total) <= BusFactor(contributors, total)
  {
    if contributors != [] {
      DependencyCountsOrdered(contributors[1..], total);
    }
  }

  /** Each counted contributor carries more than a fixed weight of the commits. */
  lemma {:induction false} CountAboveWeight(contributors: seq<KeyContributor>, total: int, t: int)
    requires t >= 0
    ensures 20000 * CommitsOf(contributors) >= CountAbove(contributors, total, t) * ((200 * t + 1) * total)
  {
    if contributors != [] {
      var w := (200 * t + 1) * total;
      var k := CountAbove(contributors[1..], total, t);
      CountAboveWeight(contributors[1..], total, t);
      assert (k + 1) * w == k * w + w;
    }
  }

  /** Shares are parts of one whole: at most one contributor is above 50%, at most three
      above 30% and at most nine above 10%. */
  lemma DependencyCountsBounded(contributors: seq<KeyContributor>, total: int)
    requires CommitsOf(contributors) <= total
    ensures CriticalDependency(contributors, total) <= 1
    ensures HighDependency(contributors, total) <= 3
    ensures BusFactor(contributors, total) <= 9
  {
    if total > 0 {
      CountAboveBound(contributors, total, 50, 2);
      CountAboveBound(contributors, total, 30, 4);
      CountAboveBound(contributors, total, 10, 10);
    } else {
      CountAboveExists(contributors, total, 50);
      CountAboveExists(contributors, total, 30);
      CountAboveExists(contributors, total, 10);
    }
  }

  lemma CountAboveBound(contributors: seq<KeyContributor>, total: int, t: nat, limit: nat)
    requires CommitsOf(contributors) <= total && total > 0 && limit * (200 * t + 1) > 20000
    ensures CountAbove(contributors, total, t) < limit
  {
    var k := CountAbove(contributors, total, t);
    var w := (200 * t + 1) * total;
    CountAboveWeight(contributors, total, t);
    if k >= limit {
      var lw := limit * (200 * t + 1);
      MulMono(k, limit, w);
      MulAssoc(limit, 200 * t + 1, total);
      MulMono(lw, 20001, total);
      assert false;
    }
  }

  // ---------------------------------------------------------------------------
  // risk_assessment and recommendations
  // ---------------------------------------------------------------------------

  /** 'overall_risk', from the three counts. */
  function OverallRisk(critical: nat, high: nat, busFactor: nat): RiskLevel
  {
    if critical > 0 then Critical
    else if high > 0 then High
    else if busFactor < 3 then Medium
    else Low
  }

  const KnowledgeTransferAdvice: string := "Critical: One contributor has >50% of commits. Consider knowledge transfer."
  const DocumentationAdvice: string := "High risk: Contributors with >30% commits should document their work."
  const BusFactorAdvice: string := "Low bus factor: Encourage more contributors to join the project."

  function Recommendations(critical: nat, high: nat, busFactor: nat): seq<string>
  {
    (if critical > 0 then [KnowledgeTransferAdvice] else []) +
    (if high > 0 then [DocumentationAdvice] else []) +
    (if busFactor < 2 then [BusFactorAdvice] else [])
  }

  /** The overall risk is critical exactly when some contributor's rounded share is
      above 50%, and low exactly when none is above 30% and at least three are above
      10%. No advice is given exactly when the risk is medium or low and at least two
      contributors are above 10%; a critical risk always brings both of the first two
      pieces of advice. */
  lemma RiskAssessmentMeaning(contributors: seq<KeyContributor>, total: int)
    ensures var risk := OverallRisk(CriticalDependency(contributors, total), HighDependency(contributors, total),
                                    BusFactor(contributors, total));
      (risk == Critical <==> exists i :: 0 <= i < |contributors| && RoundedShareAbove(contributors[i].commits, total, 50)) &&
      (risk == Low <==> (forall i :: 0 <= i < |contributors| ==> !RoundedShareAbove(contributors[i].commits, total, 30)) &&
                         BusFactor(contributors, total) >= 3)
    ensures var c, h, b := CriticalDependency(contributors, total), HighDependency(contributors, total),
                           BusFactor(contributors, total);
      (Recommendations(c, h, b) == [] <==> OverallRisk(c, h, b) in {Medium, Low} && b >= 2) &&
      (OverallRisk(c, h, b) == Critical ==>
         |Recommendations(c, h, b)| >= 2 && Recommendations(c, h, b)[..2] == [KnowledgeTransferAdvice, DocumentationAdvice])
  {
    CountAboveExists(contributors, total, 50);
    CountAboveExists(contributors, total, 30);
    DependencyCountsOrdered(contributors, total);
  }
}

/**
 * The seven factors whose product weighs one vote, the credibility sub-factors, the
 * percentile rank and the display score. Everything here is a pure function of a ledger
 * snapshot, the configuration and the clock.
 */
module Weights {
  import opened Wrappers
  import opened Text
  import Time
  import opened Ledger

  /** The reputation section of the configuration. */
  datatype ReputationConfig = ReputationConfig(
    timeDecayRate: real,
    fullCredibilityDays: int,
    singleDirectionWeight: real,
    spamDampenerFactor: real,
    noCommentWeight: real,
    vagueCommentWeight: real,
    shortCommentWeight: real,
    detailedCommentWeight: real,
    vagueCommentPatterns: seq<string>,
    reciprocalQuickWeight: real,
    reciprocalDelayedWeight: real,
    brigadingWeight: real,
    highPercentileThreshold: real,
    highPercentileMinWeight: real,
    lowPercentileThreshold: real,
    lowPercentileMaxWeight: real,
    smallServerMaxMultiplier: real,
    smallServer16to20: int,
    smallServer16to20Multiplier: real,
    smallServer11to15: int,
    smallServer11to15Multiplier: real,
    smallServer6to10: int,
    smallServer6to10Multiplier: real,
    smallServer3to5: int,
    smallServer3to5Multiplier: real,
    cacheStaleMinutes: int,
    displayRecentVotesCount: int,
    voteCooldownDays: int,
    consensusDays: int)

  /** The settings the formulas divide by are non-zero, and the spam factor is not negative. */
  predicate WellDefined(cfg: ReputationConfig) {
    cfg.fullCredibilityDays > 0 && cfg.spamDampenerFactor >= 0.0
    && cfg.highPercentileThreshold < 100.0 && cfg.lowPercentileThreshold > 0.0
  }

  /** `Math.exp`, `Math.tanh` and `Math.pow(x, 0.5)`, supplied by the caller. */
  datatype Numerics = Numerics(exp: real -> real, tanh: real -> real, sqrt: real -> real)

  ghost predicate TanhBounded(n: Numerics) {
    forall x :: -1.0 < n.tanh(x) < 1.0
  }

  ghost predicate ExpMonotone(n: Numerics) {
    forall x, y :: x <= y ==> n.exp(x) <= n.exp(y)
  }

  function Min(a: real, b: real): real { if a <= b then a else b }
  function Max(a: real, b: real): real { if a >= b then a else b }

  // ---------------------------------------------------------------- time decay

  /** `getTimeDecay`: exp(-rate * whole days since the vote). */
  function TimeDecay(n: Numerics, cfg: ReputationConfig, votedAt: Time.Instant, now: Time.Instant): real {
    n.exp(-cfg.timeDecayRate * Time.DaysBetween(votedAt, now) as real)
  }

  /** With a non-negative rate, an older vote never decays less than a newer one. */
  lemma OlderVotesDecayMore(n: Numerics, cfg: ReputationConfig, older: Time.Instant, newer: Time.Instant, now: Time.Instant)
    requires ExpMonotone(n) && cfg.timeDecayRate >= 0.0 && older <= newer
    ensures TimeDecay(n, cfg, older, now) <= TimeDecay(n, cfg, newer, now)
  {
    Time.DaysBetweenAntitone(older, newer, now);
    var d1, d2 := Time.DaysBetween(older, now) as real, Time.DaysBetween(newer, now) as real;
    assert cfg.timeDecayRate * (d1 - d2) >= 0.0;
    assert -cfg.timeDecayRate * d1 <= -cfg.timeDecayRate * d2;
  }

  // ---------------------------------------------------------------- voter credibility

  /** The statistics assumed for a voter without a row: created at the vote's time, every counter zero. */
  function DefaultStats(voter: string, voteTime: Time.Instant): VoterStats {
    VoterStats(voter, voteTime, 0, 0, 0, 0, None, 0, 0, 1.0)
  }

  /** Account age: min(1, whole days since the stats row's creation / full-credibility days). */
  function AccountAgeFactor(cfg: ReputationConfig, createdAt: Time.Instant, now: Time.Instant): (r: real)
    requires cfg.fullCredibilityDays > 0
    ensures r <= 1.0
    ensures r == 1.0 <==> Time.DaysBetween(createdAt, now) >= cfg.fullCredibilityDays
    ensures Time.DaysBetween(createdAt, now) >= 0 ==> r >= 0.0
    ensures Time.DaysBetween(createdAt, now) == 0 ==> r == 0.0
  {
    Min(1.0, Time.DaysBetween(createdAt, now) as real / cfg.fullCredibilityDays as real)
  }

  lemma RatioAtMostOne(a: int, b: int)
    requires 0 <= a <= b && b > 0
    ensures 0.0 <= a as real / b as real <= 1.0
  {
  }

  /**
   * Direction skew: after more than five votes, if over 95 % went one way, a penalty falling
   * linearly from 1 toward 0.7 as the skew approaches 100 %, floored at the configured weight.
   */
  function SkewPenalty(cfg: ReputationConfig, s: VoterStats): real {
    if s.totalVotesCast > 5 then
      var positiveRatio := s.positiveVotesCast as real / s.totalVotesCast as real;
      var negativeRatio := s.negativeVotesCast as real / s.totalVotesCast as real;
      if positiveRatio > 0.95 || negativeRatio > 0.95 then
        Max(cfg.singleDirectionWeight, 1.0 - (Max(positiveRatio, negativeRatio) - 0.95) * 6.0)
      else
        1.0
    else
      1.0
  }

  /**
   * For counters that add up and a floor of at most 1, the skew penalty lies in [0.7, 1], never
   * below the floor, and is 1 up to five votes.
   */
  lemma SkewPenaltyRange(cfg: ReputationConfig, s: VoterStats)
    requires CountersNonNegative(s) && s.positiveVotesCast + s.negativeVotesCast <= s.totalVotesCast
    requires cfg.singleDirectionWeight <= 1.0
    ensures 0.7 <= SkewPenalty(cfg, s) <= 1.0
    ensures cfg.singleDirectionWeight <= SkewPenalty(cfg, s)
    ensures s.totalVotesCast <= 5 ==> SkewPenalty(cfg, s) == 1.0
  {
    if s.totalVotesCast > 5 {
      RatioAtMostOne(s.positiveVotesCast, s.totalVotesCast);
      RatioAtMostOne(s.negativeVotesCast, s.totalVotesCast);
    }
  }

  /** Spam dampener: 1 / (1 + votes in the last 24 h * factor). */
  function SpamDampener(cfg: ReputationConfig, votesLast24h: int): (r: real)
    requires cfg.spamDampenerFactor >= 0.0 && votesLast24h >= 0
    ensures 0.0 < r <= 1.0
    ensures r == 1.0 <==> votesLast24h == 0 || cfg.spamDampenerFactor == 0.0
  {
    var d := 1.0 + votesLast24h as real * cfg.spamDampenerFactor;
    assert d >= 1.0;
    1.0 / d
  }

  /** More recent votes never make the dampener larger. */
  lemma SpamDampenerAntitone(cfg: ReputationConfig, fewer: int, more: int)
    requires cfg.spamDampenerFactor >= 0.0 && 0 <= fewer <= more
    ensures SpamDampener(cfg, more) <= SpamDampener(cfg, fewer)
  {
    var a := 1.0 + fewer as real * cfg.spamDampenerFactor;
    var b := 1.0 + more as real * cfg.spamDampenerFactor;
    assert (more - fewer) as real * cfg.spamDampenerFactor >= 0.0;
    InverseAntitone(a, b);
  }

  lemma InverseAntitone(a: real, b: real)
    requires 0.0 < a <= b
    ensures 1.0 / b <= 1.0 / a
  {
    assert 1.0 / b * b == 1.0 && 1.0 / a * a == 1.0;
    assert (1.0 / b) * a <= (1.0 / b) * b;
  }

  /** A quotient of a part by a positive whole lies in [0, 1], and is 1 for the whole itself. */
  lemma UnitQuotient(x: real, y: real)
    requires 0.0 <= x <= y && y > 0.0
    ensures 0.0 <= x / y <= 1.0
    ensures x == y ==> x / y == 1.0
  {
  }

  lemma NonNegativeQuotient(x: real, y: real)
    requires x >= 0.0 && y > 0.0
    ensures x / y >= 0.0
  {
  }

  lemma ScaledAtMost(t: real, k: real)
    requires 0.0 <= t <= 1.0 && k >= 0.0
    ensures 0.0 <= t * k <= k
  {
    assert (1.0 - t) * k >= 0.0;
  }

  lemma DivMonotone(a: real, b: real, d: real)
    requires a <= b && d > 0.0
    ensures a / d <= b / d
  {
    assert (b - a) / d >= 0.0;
  }

  /** The voter's own-reputation multiplier; no cached score counts as neutral. */
  function OwnReputationMultiplier(voterScore: Option<int>): (r: real)
    ensures voterScore.None? ==> r == 1.0
    ensures voterScore.Some? && -50 < voterScore.value < 50 ==> r == 1.0
  {
    if voterScore.None? then 1.0
    else
      var score := voterScore.value;
      if score >= 50 then 1.0 + (score - 50) as real / 100.0 * 0.5
      else if score <= -50 then 1.0 - ((if score < 0 then -score else score) - 50) as real / 100.0 * 0.5
      else 1.0
  }

  /**
   * On the display range the multiplier runs from 0.75 at -100 to 1.25 at 100 (not to 0.5 and
   * 1.5), and it never decreases as the voter's score rises.
   */
  lemma OwnReputationRange(a: int, b: int)
    requires -100 <= a <= b <= 100
    ensures 0.75 <= OwnReputationMultiplier(Some(a)) <= OwnReputationMultiplier(Some(b)) <= 1.25
    ensures OwnReputationMultiplier(Some(100)) == 1.25 && OwnReputationMultiplier(Some(-100)) == 0.75
  {
  }

  /** Consensus agreement: after ten checks, a step function of the agreement rate. */
  function ConsensusMultiplier(agreements: int, disagreements: int): (r: real)
    ensures r == 1.0 || r == 0.9 || r == 0.7 || r == 0.5
    ensures agreements + disagreements < 10 ==> r == 1.0
  {
    var total := agreements + disagreements;
    if total >= 10 then
      var rate := agreements as real / total as real;
      if rate >= 0.70 then 1.0
      else if rate >= 0.50 then 0.9
      else if rate >= 0.30 then 0.7
      else 0.5
    else
      1.0
  }

  /** With the same number of checks, more agreements never lower the multiplier. */
  lemma ConsensusMonotone(a1: int, a2: int, total: int)
    requires 10 <= total && a1 <= a2
    ensures ConsensusMultiplier(a1, total - a1) <= ConsensusMultiplier(a2, total - a2)
  {
    assert a1 as real / total as real <= a2 as real / total as real;
  }

  /** The voter's statistics row, or the defaults for a voter without one. */
  function StatsOrDefault(stats: map<string, VoterStats>, voter: string, voteTime: Time.Instant): VoterStats {
    if voter in stats then stats[voter] else DefaultStats(voter, voteTime)
  }

  /** The display score of a voter's own cache row, if any. */
  function OwnScore(caches: seq<Cache>, voter: string): Option<int> {
    var c := FindCache(caches, voter);
    if c.Some? then Some(c.value.displayScore) else None
  }

  /** `getVoterCredibility`: the product of the five sub-factors. */
  function Credibility(cfg: ReputationConfig, stats: map<string, VoterStats>, caches: seq<Cache>,
                       voter: string, voteTime: Time.Instant, now: Time.Instant): real
    requires WellDefined(cfg) && StatsWellFormed(stats)
  {
    var s := StatsOrDefault(stats, voter, voteTime);
    AccountAgeFactor(cfg, s.accountCreatedAt, now) * SkewPenalty(cfg, s) * SpamDampener(cfg, s.votesLast24h)
      * OwnReputationMultiplier(OwnScore(caches, voter)) * ConsensusMultiplier(s.consensusAgreements, s.consensusDisagreements)
  }

  /** A voter whose statistics row is less than a day old has no credibility at all. */
  lemma FreshVoterHasNoCredibility(cfg: ReputationConfig, stats: map<string, VoterStats>, caches: seq<Cache>,
                                   voter: string, voteTime: Time.Instant, now: Time.Instant)
    requires WellDefined(cfg) && StatsWellFormed(stats)
    requires Time.DaysBetween(StatsOrDefault(stats, voter, voteTime).accountCreatedAt, now) == 0
    ensures Credibility(cfg, stats, caches, voter, voteTime, now) == 0.0
  {
  }

  // ---------------------------------------------------------------- comment quality

  /** The lower-cased comment contains one of the configured patterns (taken as written). */
  predicate IsVague(cfg: ReputationConfig, comment: string) {
    exists i :: 0 <= i < |cfg.vagueCommentPatterns| && Contains(ToLower(comment), cfg.vagueCommentPatterns[i])
  }

  /** `getCommentQualityMultiplier`. */
  function CommentQuality(cfg: ReputationConfig, comment: Option<string>): (r: real)
    ensures r == cfg.noCommentWeight || r == cfg.vagueCommentWeight || r == cfg.shortCommentWeight || r == cfg.detailedCommentWeight
    ensures comment.None? || comment.value == [] ==> r == cfg.noCommentWeight
  {
    if comment.None? || comment.value == [] then cfg.noCommentWeight
    else if IsVague(cfg, comment.value) then cfg.vagueCommentWeight
    else if Utf16Length(comment.value) >= 50 then cfg.detailedCommentWeight
    else if Utf16Length(comment.value) >= 10 then cfg.shortCommentWeight
    else cfg.noCommentWeight
  }

  /** A vague pattern outranks length; otherwise only the length band counts. */
  lemma CommentQualityBands(cfg: ReputationConfig, a: string, b: string)
    requires a != [] && b != []
    ensures IsVague(cfg, a) ==> CommentQuality(cfg, Some(a)) == cfg.vagueCommentWeight
    ensures !IsVague(cfg, a) && !IsVague(cfg, b)
            && (Utf16Length(a) >= 50 <==> Utf16Length(b) >= 50) && (Utf16Length(a) >= 10 <==> Utf16Length(b) >= 10)
      ==> CommentQuality(cfg, Some(a)) == CommentQuality(cfg, Some(b))
  {
  }

  /**
   * Lengths are counted in UTF-16 code units: a non-vague comment of five to twenty-four
   * supplementary chars (emoji, say) is short, not missing, though it has fewer than ten chars.
   */
  lemma CommentLengthInCodeUnits(cfg: ReputationConfig, comment: string)
    requires !IsVague(cfg, comment) && 5 <= |comment| < 25
    requires forall i :: 0 <= i < |comment| ==> comment[i] as int >= 0x10000
    ensures CommentQuality(cfg, Some(comment)) == cfg.shortCommentWeight
  {
    Utf16LengthOfSupplementary(comment);
  }

  /** An empty pattern in the configuration makes every non-empty comment vague. */
  lemma EmptyPatternMakesEveryCommentVague(cfg: ReputationConfig, comment: string)
    requires exists i :: 0 <= i < |cfg.vagueCommentPatterns| && cfg.vagueCommentPatterns[i] == []
    requires comment != []
    ensures CommentQuality(cfg, Some(comment)) == cfg.vagueCommentWeight
  {
    var i :| 0 <= i < |cfg.vagueCommentPatterns| && cfg.vagueCommentPatterns[i] == [];
    assert ToLower(comment)[..0] == cfg.vagueCommentPatterns[i];
  }

  // ---------------------------------------------------------------- anti-abuse

  /** Reciprocal voting: the target's same-sign vote on the voter, by how far apart the two were cast. */
  function ReciprocalFactor(cfg: ReputationConfig, votes: seq<Vote>, vote: Vote): real {
    var recip := FindVote(votes, vote.targetDiscordId, vote.voterDiscordId);
    if recip.Some? && recip.value.voteValue == vote.voteValue then
      if Time.AbsHoursBetween(vote.votedAt, recip.value.votedAt) < 1 then cfg.reciprocalQuickWeight
      else if Time.AbsDaysBetween(vote.votedAt, recip.value.votedAt) < 7 then cfg.reciprocalDelayedWeight
      else 1.0
    else
      1.0
  }

  /** Under the unique key, two same-sign votes A on B and B on A are damped by the same factor. */
  lemma ReciprocalIsSymmetric(cfg: ReputationConfig, votes: seq<Vote>, a: Vote, b: Vote)
    requires UniqueVotes(votes) && a in votes && b in votes
    requires a.voterDiscordId == b.targetDiscordId && a.targetDiscordId == b.voterDiscordId
    ensures ReciprocalFactor(cfg, votes, a) == ReciprocalFactor(cfg, votes, b)
  {
    FindVoteOfMember(votes, a);
    FindVoteOfMember(votes, b);
  }

  /** Under the unique key, looking a row's key up finds that row. */
  lemma {:induction false} FindVoteOfMember(votes: seq<Vote>, v: Vote)
    requires UniqueVotes(votes) && v in votes
    ensures FindVote(votes, v.voterDiscordId, v.targetDiscordId) == Some(v)
  {
    if votes[0] != v {
      UniqueVotesTail(votes);
      FindVoteOfMember(votes[1..], v);
    }
  }

  /** Same sign as `vote` and cast strictly within ten minutes either side of it. */
  predicate IsNearby(v: Vote, vote: Vote) {
    vote.votedAt - Time.Minutes(10) < v.votedAt < vote.votedAt + Time.Minutes(10) && v.voteValue == vote.voteValue
  }

  function NearbyVotes(votes: seq<Vote>, vote: Vote): seq<Vote> {
    if votes == [] then []
    else (if IsNearby(votes[0], vote) then [votes[0]] else []) + NearbyVotes(votes[1..], vote)
  }

  lemma {:induction false} NearbyVotesMembers(votes: seq<Vote>, vote: Vote)
    ensures forall v :: v in NearbyVotes(votes, vote) <==> v in votes && IsNearby(v, vote)
  {
    if votes != [] {
      NearbyVotesMembers(votes[1..], vote);
      assert forall v :: v in votes <==> v == votes[0] || v in votes[1..];
    }
  }

  /** Brigading: three or more same-sign votes on the target within the window. */
  function BrigadingFactor(cfg: ReputationConfig, votes: seq<Vote>, vote: Vote): real {
    if |NearbyVotes(VotesForTarget(votes, vote.targetDiscordId), vote)| >= 3 then cfg.brigadingWeight else 1.0
  }

  /** `getAntiAbuseMultiplier`. */
  function AntiAbuse(cfg: ReputationConfig, votes: seq<Vote>, vote: Vote): real {
    ReciprocalFactor(cfg, votes, vote) * BrigadingFactor(cfg, votes, vote)
  }

  lemma {:induction false} DistinctElementsBound(s: seq<Vote>, e: set<Vote>)
    requires forall x :: x in e ==> x in s
    ensures |e| <= |s|
  {
    if s != [] {
      DistinctElementsBound(s[1..], e - {s[0]});
    }
  }

  /**
   * The vote being weighed is in its own window, so two other same-sign votes on the target
   * within ten minutes already trigger the brigading weight.
   */
  lemma BrigadingCountsTheVoteItself(cfg: ReputationConfig, votes: seq<Vote>, vote: Vote, x: Vote, y: Vote)
    requires vote in votes && x in votes && y in votes
    requires x.targetDiscordId == vote.targetDiscordId && y.targetDiscordId == vote.targetDiscordId
    requires IsNearby(x, vote) && IsNearby(y, vote)
    requires vote != x && vote != y && x != y
    ensures BrigadingFactor(cfg, votes, vote) == cfg.brigadingWeight
  {
    var tv := VotesForTarget(votes, vote.targetDiscordId);
    VotesForTargetMembers(votes, vote.targetDiscordId);
    NearbyVotesMembers(tv, vote);
    DistinctElementsBound(NearbyVotes(tv, vote), {vote, x, y});
  }

  // ---------------------------------------------------------------- diversity

  /** The voters on the positive side (value > 0) or the other side, as the loop collects them. */
  function SideVoters(votes: seq<Vote>, positive: bool): set<string> {
    if votes == [] then {}
    else
      var last := votes[|votes| - 1];
      SideVoters(votes[..|votes| - 1], positive) + (if (last.voteValue > 0) == positive then {last.voterDiscordId} else {})
  }

  function SideCount(votes: seq<Vote>, positive: bool): nat {
    if votes == [] then 0
    else
      var last := votes[|votes| - 1];
      SideCount(votes[..|votes| - 1], positive) + (if (last.voteValue > 0) == positive then 1 else 0)
  }

  /** `getDiversityMultiplier`: the less diverse side is scaled by the square root of the diversity ratio. */
  function DiversityMultiplier(n: Numerics, targetVotes: seq<Vote>, vote: Vote): real {
    var positiveCount := SideCount(targetVotes, true);
    var negativeCount := SideCount(targetVotes, false);
    if positiveCount == 0 || negativeCount == 0 then 1.0
    else
      var positiveDiversity := |SideVoters(targetVotes, true)| as real / positiveCount as real;
      var negativeDiversity := |SideVoters(targetVotes, false)| as real / negativeCount as real;
      if vote.voteValue > 0 && positiveDiversity < negativeDiversity then
        n.sqrt(positiveDiversity / negativeDiversity)
      else if vote.voteValue < 0 && negativeDiversity < positiveDiversity then
        n.sqrt(negativeDiversity / positiveDiversity)
      else
        1.0
  }

  /** With votes on one side only there is no penalty; otherwise, for a square root that keeps [0, 1], it is at most 1. */
  lemma DiversityAtMostOne(n: Numerics, targetVotes: seq<Vote>, vote: Vote)
    requires forall x :: 0.0 <= x <= 1.0 ==> 0.0 <= n.sqrt(x) <= 1.0
    ensures SideCount(targetVotes, true) == 0 || SideCount(targetVotes, false) == 0 ==> DiversityMultiplier(n, targetVotes, vote) == 1.0
    ensures 0.0 <= DiversityMultiplier(n, targetVotes, vote) <= 1.0
  {
    var pc, nc := SideCount(targetVotes, true), SideCount(targetVotes, false);
    if pc != 0 && nc != 0 {
      var pd := |SideVoters(targetVotes, true)| as real / pc as real;
      var nd := |SideVoters(targetVotes, false)| as real / nc as real;
      NonNegativeQuotient(|SideVoters(targetVotes, true)| as real, pc as real);
      NonNegativeQuotient(|SideVoters(targetVotes, false)| as real, nc as real);
      if vote.voteValue > 0 && pd < nd {
        UnitQuotient(pd, nd);
      } else if vote.voteValue < 0 && nd < pd {
        UnitQuotient(nd, pd);
      }
    }
  }

  /** With pairwise different voters, each side has as many voters as votes. */
  lemma {:induction false} SideVotersCount(votes: seq<Vote>, positive: bool)
    requires DistinctVoters(votes)
    ensures |SideVoters(votes, positive)| == SideCount(votes, positive)
    ensures forall x :: x in SideVoters(votes, positive) ==> exists i :: 0 <= i < |votes| && votes[i].voterDiscordId == x
  {
    if votes != [] {
      var init := votes[..|votes| - 1];
      var last := votes[|votes| - 1];
      assert DistinctVoters(init) by {
        forall i, j | 0 <= i < j < |init|
          ensures init[i].voterDiscordId != init[j].voterDiscordId
        {
          assert init[i] == votes[i] && init[j] == votes[j];
        }
      }
      SideVotersCount(init, positive);
      if (last.voteValue > 0) == positive {
        assert last.voterDiscordId !in SideVoters(init, positive);
      }
      forall x | x in SideVoters(votes, positive)
        ensures exists i :: 0 <= i < |votes| && votes[i].voterDiscordId == x
      {
        if x in SideVoters(init, positive) {
          var i :| 0 <= i < |init| && init[i].voterDiscordId == x;
          assert votes[i] == init[i];
        } else {
          assert votes[|votes| - 1].voterDiscordId == x;
        }
      }
    }
  }

  /** Under the unique (voter, target) key every side is fully diverse, so the multiplier is always 1. */
  lemma DiversityAlwaysOne(n: Numerics, votes: seq<Vote>, target: string, vote: Vote)
    requires UniqueVotes(votes)
    ensures DiversityMultiplier(n, VotesForTarget(votes, target), vote) == 1.0
  {
    TargetVotersDistinct(votes, target);
    DiversityOfDistinctVoters(n, VotesForTarget(votes, target), vote);
  }

  lemma DiversityOfDistinctVoters(n: Numerics, targetVotes: seq<Vote>, vote: Vote)
    requires DistinctVoters(targetVotes)
    ensures DiversityMultiplier(n, targetVotes, vote) == 1.0
  {
    if SideCount(targetVotes, true) > 0 && SideCount(targetVotes, false) > 0 {
      SideFullyDiverse(targetVotes, true);
      SideFullyDiverse(targetVotes, false);
    }
  }

  lemma SideFullyDiverse(votes: seq<Vote>, positive: bool)
    requires DistinctVoters(votes) && SideCount(votes, positive) > 0
    ensures |SideVoters(votes, positive)| as real / SideCount(votes, positive) as real == 1.0
  {
    SideVotersCount(votes, positive);
    var c := SideCount(votes, positive);
    assert |SideVoters(votes, positive)| == c;
    UnitQuotient(c as real, c as real);
  }

  // ---------------------------------------------------------------- progressive percentile

  /** `getProgressiveMultiplier`, from the target's cached percentile before this recomputation. */
  function ProgressiveMultiplier(cfg: ReputationConfig, vote: Vote, targetCache: Option<Cache>): (r: real)
    requires WellDefined(cfg)
    ensures targetCache.None? ==> r == 1.0
  {
    if targetCache.None? then 1.0
    else
      var percentile := targetCache.value.percentileRank;
      if vote.voteValue < 0 && percentile >= cfg.highPercentileThreshold then
        var progress := (percentile - cfg.highPercentileThreshold) / (100.0 - cfg.highPercentileThreshold);
        1.0 - progress * (1.0 - cfg.highPercentileMinWeight)
      else if vote.voteValue > 0 && percentile <= cfg.lowPercentileThreshold then
        var progress := (cfg.lowPercentileThreshold - percentile) / cfg.lowPercentileThreshold;
        1.0 + progress * (cfg.lowPercentileMaxWeight - 1.0)
      else
        1.0
  }

  /**
   * A downvote on a target at or above the high threshold is scaled between the minimum weight
   * (reached at percentile 100) and 1 (at the threshold).
   */
  lemma ProgressiveDownvote(cfg: ReputationConfig, vote: Vote, c: Cache)
    requires WellDefined(cfg) && vote.voteValue < 0
    requires cfg.highPercentileThreshold <= c.percentileRank <= 100.0 && cfg.highPercentileMinWeight <= 1.0
    ensures cfg.highPercentileMinWeight <= ProgressiveMultiplier(cfg, vote, Some(c)) <= 1.0
    ensures c.percentileRank == 100.0 ==> ProgressiveMultiplier(cfg, vote, Some(c)) == cfg.highPercentileMinWeight
  {
    var h, k := cfg.highPercentileThreshold, 1.0 - cfg.highPercentileMinWeight;
    var progress := (c.percentileRank - h) / (100.0 - h);
    UnitQuotient(c.percentileRank - h, 100.0 - h);
    ScaledAtMost(progress, k);
    assert ProgressiveMultiplier(cfg, vote, Some(c)) == 1.0 - progress * k;
  }

  /**
   * An upvote on a target at or below the low threshold is scaled between 1 (at the threshold)
   * and the maximum weight (reached at percentile 0).
   */
  lemma ProgressiveUpvote(cfg: ReputationConfig, vote: Vote, c: Cache)
    requires WellDefined(cfg) && vote.voteValue > 0
    requires 0.0 <= c.percentileRank <= cfg.lowPercentileThreshold && 1.0 <= cfg.lowPercentileMaxWeight
    ensures 1.0 <= ProgressiveMultiplier(cfg, vote, Some(c)) <= cfg.lowPercentileMaxWeight
    ensures c.percentileRank == 0.0 ==> ProgressiveMultiplier(cfg, vote, Some(c)) == cfg.lowPercentileMaxWeight
  {
    var l, k := cfg.lowPercentileThreshold, cfg.lowPercentileMaxWeight - 1.0;
    var progress := (l - c.percentileRank) / l;
    UnitQuotient(l - c.percentileRank, l);
    ScaledAtMost(progress, k);
    assert ProgressiveMultiplier(cfg, vote, Some(c)) == 1.0 + progress * k;
  }

  /** Zero votes, and votes on targets strictly between the two thresholds, are not scaled. */
  lemma ProgressiveNeutral(cfg: ReputationConfig, vote: Vote, c: Cache)
    requires WellDefined(cfg)
    requires vote.voteValue == 0 || cfg.lowPercentileThreshold < c.percentileRank < cfg.highPercentileThreshold
    ensures ProgressiveMultiplier(cfg, vote, Some(c)) == 1.0
  {
  }

  // ---------------------------------------------------------------- small-server scaling

  function VoterIds(votes: seq<Vote>): set<string> {
    set v | v in votes :: v.voterDiscordId
  }

  /** `getSmallServerScaling`: the tier of the number of different voters. */
  function SmallServerScaling(cfg: ReputationConfig, count: int): real {
    if count >= 20 then cfg.smallServerMaxMultiplier
    else if count >= cfg.smallServer16to20 then cfg.smallServer16to20Multiplier
    else if count >= cfg.smallServer11to15 then cfg.smallServer11to15Multiplier
    else if count >= cfg.smallServer6to10 then cfg.smallServer6to10Multiplier
    else if count >= cfg.smallServer3to5 then cfg.smallServer3to5Multiplier
    else 1.0
  }

  /** Tiers ordered upward by threshold and by multiplier make the scaling grow with the voter count. */
  lemma SmallServerMonotone(cfg: ReputationConfig, fewer: int, more: int)
    requires fewer <= more
    requires cfg.smallServer3to5 <= cfg.smallServer6to10 <= cfg.smallServer11to15 <= cfg.smallServer16to20 <= 20
    requires 1.0 <= cfg.smallServer3to5Multiplier <= cfg.smallServer6to10Multiplier <= cfg.smallServer11to15Multiplier
             <= cfg.smallServer16to20Multiplier <= cfg.smallServerMaxMultiplier
    ensures SmallServerScaling(cfg, fewer) <= SmallServerScaling(cfg, more)
  {
  }

  /** Under the unique key the number of different voters on a target is its number of votes. */
  lemma {:induction false} VoterIdsOfDistinct(votes: seq<Vote>)
    requires DistinctVoters(votes)
    ensures |VoterIds(votes)| == |votes|
  {
    if votes != [] {
      var init := votes[..|votes| - 1];
      var last := votes[|votes| - 1];
      assert DistinctVoters(init) by {
        forall i, j | 0 <= i < j < |init|
          ensures init[i].voterDiscordId != init[j].voterDiscordId
        {
          assert init[i] == votes[i] && init[j] == votes[j];
        }
      }
      VoterIdsOfDistinct(init);
      assert VoterIds(votes) == VoterIds(init) + {last.voterDiscordId} by {
        assert forall v :: v in votes <==> v in init || v == last;
      }
      assert last.voterDiscordId !in VoterIds(init);
    }
  }

  // ---------------------------------------------------------------- percentile and display

  /** How many cached scores have a display score strictly below `d`. */
  function CountBelow(scores: seq<Cache>, d: int): (r: nat)
    ensures r <= |scores|
  {
    if scores == [] then 0
    else CountBelow(scores[..|scores| - 1], d) + (if scores[|scores| - 1].displayScore < d then 1 else 0)
  }

  lemma {:induction false} CountBelowMonotone(scores: seq<Cache>, d1: int, d2: int)
    requires d1 <= d2
    ensures CountBelow(scores, d1) <= CountBelow(scores, d2)
  {
    if scores != [] {
      CountBelowMonotone(scores[..|scores| - 1], d1, d2);
    }
  }

  lemma {:induction false} CountBelowAll(scores: seq<Cache>, d: int)
    requires forall i :: 0 <= i < |scores| ==> scores[i].displayScore < d
    ensures CountBelow(scores, d) == |scores|
  {
    if scores != [] {
      CountBelowAll(scores[..|scores| - 1], d);
    }
  }

  lemma {:induction false} CountBelowNone(scores: seq<Cache>, d: int)
    requires forall i :: 0 <= i < |scores| ==> scores[i].displayScore >= d
    ensures CountBelow(scores, d) == 0
  {
    if scores != [] {
      CountBelowNone(scores[..|scores| - 1], d);
    }
  }

  /** Only the display scores matter to the count. */
  lemma {:induction false} CountBelowSameScores(s: seq<Cache>, t: seq<Cache>, d: int)
    requires |s| == |t| && forall k :: 0 <= k < |s| ==> s[k].displayScore == t[k].displayScore
    ensures CountBelow(s, d) == CountBelow(t, d)
  {
    if s != [] {
      var s', t' := s[..|s| - 1], t[..|t| - 1];
      assert forall k :: 0 <= k < |s'| ==> s'[k] == s[k] && t'[k] == t[k];
      CountBelowSameScores(s', t', d);
    }
  }

  /** `calculatePercentileRank`: 50 with no scores, else the share of strictly lower display scores. */
  function PercentileRank(d: int, scores: seq<Cache>): (r: real)
    ensures 0.0 <= r <= 100.0
    ensures scores == [] ==> r == 50.0
  {
    if scores == [] then 50.0
    else
      var below := CountBelow(scores, d);
      RatioAtMostOne(below, |scores|);
      below as real / |scores| as real * 100.0
  }

  /**
   * A higher display score never has a lower percentile; a score at or below every other gets 0,
   * and one strictly above every other gets 100.
   */
  lemma PercentileOrdering(scores: seq<Cache>, d1: int, d2: int)
    requires scores != [] && d1 <= d2
    ensures PercentileRank(d1, scores) <= PercentileRank(d2, scores)
    ensures (forall i :: 0 <= i < |scores| ==> scores[i].displayScore >= d1) ==> PercentileRank(d1, scores) == 0.0
    ensures (forall i :: 0 <= i < |scores| ==> scores[i].displayScore < d2) ==> PercentileRank(d2, scores) == 100.0
  {
    CountBelowMonotone(scores, d1, d2);
    DivMonotone(CountBelow(scores, d1) as real, CountBelow(scores, d2) as real, |scores| as real);
    if forall i :: 0 <= i < |scores| ==> scores[i].displayScore >= d1 {
      PercentileOfLowest(scores, d1);
    }
    if forall i :: 0 <= i < |scores| ==> scores[i].displayScore < d2 {
      PercentileOfHighest(scores, d2);
    }
  }

  /** A score no cached score lies below ranks at 0. */
  lemma PercentileOfLowest(scores: seq<Cache>, d: int)
    requires scores != []
    requires forall i :: 0 <= i < |scores| ==> scores[i].displayScore >= d
    ensures PercentileRank(d, scores) == 0.0
  {
    CountBelowNone(scores, d);
  }

  /** A score above every cached score ranks at 100. */
  lemma PercentileOfHighest(scores: seq<Cache>, d: int)
    requires scores != []
    requires forall i :: 0 <= i < |scores| ==> scores[i].displayScore < d
    ensures PercentileRank(d, scores) == 100.0
  {
    CountBelowAll(scores, d);
    var n := |scores| as real;
    assert CountBelow(scores, d) as real == n;
    assert n / n == 1.0;
  }

  /** `Math.round`: the floor of x + 1/2. */
  function Round(x: real): int {
    (x + 0.5).Floor
  }

  /** The display score: round(tanh(raw / 10) * 100). */
  function DisplayScore(n: Numerics, totalScore: real): int {
    Round(n.tanh(totalScore / 10.0) * 100.0)
  }

  /** With tanh inside (-1, 1), the display score lies in [-100, 100]. */
  lemma DisplayScoreBounded(n: Numerics, totalScore: real)
    requires TanhBounded(n)
    ensures -100 <= DisplayScore(n, totalScore) <= 100
  {
    var x := n.tanh(totalScore / 10.0) * 100.0;
    assert -100.0 < x < 100.0;
    assert -99.5 < x + 0.5 < 100.5;
  }

  // ---------------------------------------------------------------- the whole weight

  /** The ledger as one recomputation reads it: nothing is written while the votes are weighed. */
  datatype Snapshot = Snapshot(votes: seq<Vote>, caches: seq<Cache>, stats: map<string, VoterStats>)

  /**
   * `calculateVoteWeight`: the product of the seven factors for one vote on `targetId`, with the
   * target's votes as the diversity and small-server factors see them.
   */
  datatype Factors = Factors(decay: real, credibility: real, commentQuality: real, antiAbuse: real,
                             diversity: real, progressive: real, smallServer: real)

  /** The seven factors of one vote on `targetId`, with the target's votes as diversity and scaling see them. */
  function FactorsOf(n: Numerics, cfg: ReputationConfig, snap: Snapshot, targetId: string, vote: Vote, now: Time.Instant): Factors
    requires WellDefined(cfg) && StatsWellFormed(snap.stats)
  {
    var targetVotes := VotesForTarget(snap.votes, targetId);
    Factors(TimeDecay(n, cfg, vote.votedAt, now),
            Credibility(cfg, snap.stats, snap.caches, vote.voterDiscordId, vote.votedAt, now),
            CommentQuality(cfg, vote.comment),
            AntiAbuse(cfg, snap.votes, vote),
            DiversityMultiplier(n, targetVotes, vote),
            ProgressiveMultiplier(cfg, vote, FindCache(snap.caches, targetId)),
            SmallServerScaling(cfg, |VoterIds(targetVotes)|))
  }

  /** The weight: the product of the factors, multiplied in from 1 in their order. */
  function Product(f: Factors): real {
    1.0 * f.decay * f.credibility * f.commentQuality * f.antiAbuse * f.diversity * f.progressive * f.smallServer
  }

  /** `calculateVoteWeight`. */
  function VoteWeight(n: Numerics, cfg: ReputationConfig, snap: Snapshot, targetId: string, vote: Vote, now: Time.Instant): real
    requires WellDefined(cfg) && StatsWellFormed(snap.stats)
  {
    Product(FactorsOf(n, cfg, snap, targetId, vote, now))
  }

  /** A vote from a voter whose statistics row is less than a day old weighs nothing. */
  lemma FreshVoterVoteWeighsNothing(n: Numerics, cfg: ReputationConfig, snap: Snapshot, targetId: string, vote: Vote, now: Time.Instant)
    requires WellDefined(cfg) && StatsWellFormed(snap.stats)
    requires Time.DaysBetween(StatsOrDefault(snap.stats, vote.voterDiscordId, vote.votedAt).accountCreatedAt, now) == 0
    ensures VoteWeight(n, cfg, snap, targetId, vote, now) == 0.0
  {
    FreshVoterHasNoCredibility(cfg, snap.stats, snap.caches, vote.voterDiscordId, vote.votedAt, now);
  }

  /** The weigher one recomputation applies to every vote on `targetId`. */
  function Weigher(n: Numerics, cfg: ReputationConfig, snap: Snapshot, targetId: string, now: Time.Instant): Vote -> real
    requires WellDefined(cfg) && StatsWellFormed(snap.stats)
  {
    v => VoteWeight(n, cfg, snap, targetId, v, now)
  }

  /** The raw score: the sum of value * weight over the given votes. */
  function WeightedSum(vs: seq<Vote>, weight: Vote -> real): real {
    if vs == [] then 0.0
    else WeightedSum(vs[..|vs| - 1], weight) + vs[|vs| - 1].voteValue as real * weight(vs[|vs| - 1])
  }

  /** One more vote adds its value times its weight. */
  lemma WeightedSumExtend(vs: seq<Vote>, i: int, weight: Vote -> real, w: real, total: real)
    requires 0 <= i < |vs| && weight(vs[i]) == w && total == WeightedSum(vs[..i], weight)
    ensures WeightedSum(vs[..i + 1], weight) == total + vs[i].voteValue as real * w
  {
    assert vs[..i + 1][..i] == vs[..i];
  }

  lemma ProductSign(x: real, w: real)
    requires w >= 0.0
    ensures x > 0.0 ==> x * w >= 0.0
    ensures x < 0.0 ==> x * w <= 0.0
  {
  }

  /**
   * With every weight non-negative, votes that are all upvotes never sum to a negative raw score,
   * and votes that are all downvotes never to a positive one.
   */
  lemma {:induction false} WeightedSumSign(vs: seq<Vote>, weight: Vote -> real)
    requires forall i :: 0 <= i < |vs| ==> weight(vs[i]) >= 0.0
    ensures (forall i :: 0 <= i < |vs| ==> vs[i].voteValue > 0) ==> WeightedSum(vs, weight) >= 0.0
    ensures (forall i :: 0 <= i < |vs| ==> vs[i].voteValue < 0) ==> WeightedSum(vs, weight) <= 0.0
  {
    if vs != [] {
      var init := vs[..|vs| - 1];
      assert forall i :: 0 <= i < |init| ==> init[i] == vs[i];
      WeightedSumSign(init, weight);
      ProductSign(vs[|vs| - 1].voteValue as real, weight(vs[|vs| - 1]));
    }
  }

  /** Votes that all weigh nothing leave the raw score at 0. */
  lemma {:induction false} WeightlessVotesSumToZero(vs: seq<Vote>, weight: Vote -> real)
    requires forall i :: 0 <= i < |vs| ==> weight(vs[i]) == 0.0
    ensures WeightedSum(vs, weight) == 0.0
  {
    if vs != [] {
      var init := vs[..|vs| - 1];
      assert forall i :: 0 <= i < |init| ==> init[i] == vs[i];
      WeightlessVotesSumToZero(init, weight);
    }
  }
}

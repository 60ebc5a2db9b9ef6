/**
 * The reputation engine: vote submission with its checks, the voter statistics update, the
 * weighted recomputation of a target's cached score, the read-through cache and the
 * percentile pass over every cached score.
 */
module Reputation {
  import opened Wrappers
  import Time
  import opened Ledger
  import opened Weights

  /** `ReputationResult`. */
  datatype ReputationResult = ReputationResult(cache: Cache, recentVotes: seq<Vote>, fromCache: bool)

  /** The message of a `VoteResult`, one variant per text the player can see. */
  datatype VoteMessage = SelfVote | Cooldown(daysRemaining: int) | InvalidValue | WriteFailed | Submitted

  /** `VoteResult`. */
  datatype VoteResult = VoteResult(success: bool, message: VoteMessage)

  function Abs(x: real): real { if x < 0.0 then -x else x }

  /** The `count` newest votes, newest first: `ORDER BY voted_at DESC` followed by `limit(count)`. */
  function Recent(votes: seq<Vote>, count: int): (r: seq<Vote>)
    ensures |r| == if count <= 0 then 0 else if count >= |votes| then |votes| else count
    ensures multiset(r) <= multiset(votes)
    ensures NewestOrdered(r)
  {
    var sorted := NewestFirst(votes);
    var m := if count <= 0 then 0 else if count >= |votes| then |votes| else count;
    assert |sorted| == |votes| by {
      assert |multiset(sorted)| == |multiset(votes)|;
    }
    assert sorted == sorted[..m] + sorted[m..];
    sorted[..m]
  }

  /** No vote left out of the recent list is newer than a vote in it. */
  lemma RecentAreNewest(votes: seq<Vote>, count: int)
    ensures var r := Recent(votes, count);
      forall v, k :: v in multiset(votes) - multiset(r) && k in r ==> v.votedAt <= k.votedAt
  {
    var sorted := NewestFirst(votes);
    var r := Recent(votes, count);
    assert |sorted| == |votes| by {
      assert |multiset(sorted)| == |multiset(votes)|;
    }
    var m := |r|;
    assert r == sorted[..m];
    assert sorted == r + sorted[m..];
    assert multiset(votes) - multiset(r) == multiset(sorted[m..]);
    OrderedCut(sorted, m);
    forall v, k | v in multiset(votes) - multiset(r) && k in r
      ensures v.votedAt <= k.votedAt
    {
      assert v in sorted[m..];
    }
  }

  // ---------------------------------------------------------------- the cache

  /** The cached row exists and is younger, in whole minutes, than the staleness threshold. */
  predicate IsFresh(cfg: ReputationConfig, caches: seq<Cache>, id: string, now: Time.Instant) {
    var c := FindCache(caches, id);
    c.Some? && Time.MinutesBetween(c.value.lastCalculated, now) < cfg.cacheStaleMinutes
  }

  /** The row written for a target nobody has voted on. */
  function NeutralCache(id: string, now: Time.Instant): Cache {
    Cache(id, 0.0, 0, now, 0, 50.0)
  }

  /** The row `calculateReputation` writes for a target: weighed votes, display and percentile from the snapshot. */
  function RecalculatedCache(n: Numerics, cfg: ReputationConfig, snap: Snapshot, id: string, now: Time.Instant): Cache
    requires WellDefined(cfg) && StatsWellFormed(snap.stats)
  {
    var targetVotes := VotesForTarget(snap.votes, id);
    if targetVotes == [] then NeutralCache(id, now)
    else
      var total := WeightedSum(targetVotes, Weigher(n, cfg, snap, id, now));
      var display := DisplayScore(n, total);
      Cache(id, total, display, now, |targetVotes|, PercentileRank(display, snap.caches))
  }

  /** What `calculateReputation` returns: the written row, not the one the percentile pass may rewrite. */
  function RecalculatedResult(n: Numerics, cfg: ReputationConfig, snap: Snapshot, id: string, now: Time.Instant): ReputationResult
    requires WellDefined(cfg) && StatsWellFormed(snap.stats)
  {
    ReputationResult(RecalculatedCache(n, cfg, snap, id, now),
                     Recent(VotesForTarget(snap.votes, id), cfg.displayRecentVotesCount), false)
  }

  /** The cache table after `calculateReputation`; the percentile pass runs only when there were votes. */
  function Recalculated(n: Numerics, cfg: ReputationConfig, snap: Snapshot, id: string, now: Time.Instant): seq<Cache>
    requires WellDefined(cfg) && StatsWellFormed(snap.stats)
  {
    Rewritten(snap.caches, RecalculatedCache(n, cfg, snap, id, now), VotesForTarget(snap.votes, id) != [])
  }

  /** The table after writing row `c`, followed by the percentile pass when `rerank` holds. */
  function Rewritten(caches: seq<Cache>, c: Cache, rerank: bool): seq<Cache> {
    var written := UpsertCache(caches, c);
    if rerank then RepercentiledAll(written) else written
  }

  /** The percentile pass finds every row it found before, with the same time of calculation. */
  lemma RepercentiledFind(caches: seq<Cache>, id: string)
    requires UniqueCaches(caches) && FindCache(caches, id).Some?
    ensures var r := FindCache(RepercentiledAll(caches), id);
      r.Some? && r.value.lastCalculated == FindCache(caches, id).value.lastCalculated
  {
    var after := RepercentiledAll(caches);
    RepercentileKeepsKey(caches);
    var r := FindCache(after, id).value;
    var k :| 0 <= k < |after| && after[k] == r;
    FoundIsMember(caches, caches[k], k);
  }

  /** Writing a row and re-ranking keeps the primary key, and finds the written row with its time of calculation. */
  lemma RewrittenFinds(caches: seq<Cache>, c: Cache, rerank: bool)
    requires UniqueCaches(caches)
    ensures UniqueCaches(Rewritten(caches, c, rerank))
    ensures var r := FindCache(Rewritten(caches, c, rerank), c.discordId);
      r.Some? && r.value.lastCalculated == c.lastCalculated
  {
    var written := UpsertCache(caches, c);
    UpsertCacheFind(caches, c);
    UpsertCacheUnique(caches, c);
    if rerank {
      RepercentileKeepsKey(written);
      RepercentiledFind(written, c.discordId);
    }
  }

  /** Writing a row and re-ranking leaves every other id's row with its time of calculation. */
  lemma RewrittenKeepsOthers(caches: seq<Cache>, c: Cache, rerank: bool, other: string)
    requires UniqueCaches(caches) && other != c.discordId && FindCache(caches, other).Some?
    ensures var r := FindCache(Rewritten(caches, c, rerank), other);
      r.Some? && r.value.lastCalculated == FindCache(caches, other).value.lastCalculated
  {
    var written := UpsertCache(caches, c);
    UpsertCacheFind(caches, c);
    assert FindCache(written, other) == FindCache(caches, other);
    UpsertCacheUnique(caches, c);
    if rerank {
      RepercentiledFind(written, other);
    }
  }

  /**
   * The recomputed row carries the target's vote count and the current time, a percentile in
   * [0, 100], a display score in [-100, 100] for a bounded tanh, and is the neutral row exactly
   * when the target has no votes.
   */
  lemma RecalculatedCacheFacts(n: Numerics, cfg: ReputationConfig, snap: Snapshot, id: string, now: Time.Instant)
    requires WellDefined(cfg) && StatsWellFormed(snap.stats) && TanhBounded(n)
    ensures var c := RecalculatedCache(n, cfg, snap, id, now);
      && c.discordId == id && c.lastCalculated == now
      && c.totalVotesReceived == |VotesForTarget(snap.votes, id)|
      && 0.0 <= c.percentileRank <= 100.0
      && -100 <= c.displayScore <= 100
      && (c == NeutralCache(id, now) <==> VotesForTarget(snap.votes, id) == [])
  {
    var targetVotes := VotesForTarget(snap.votes, id);
    if targetVotes != [] {
      DisplayScoreBounded(n, WeightedSum(targetVotes, Weigher(n, cfg, snap, id, now)));
    }
  }

  /** `updatePercentileRanks` on one row: the rank against the snapshot, written only if it moved by more than 0.1. */
  function Repercentiled(snapshot: seq<Cache>, c: Cache): Cache {
    var p := PercentileRank(c.displayScore, snapshot);
    if Abs(p - c.percentileRank) > 0.1 then c.(percentileRank := p) else c
  }

  function RepercentiledAll(snapshot: seq<Cache>): (r: seq<Cache>)
    ensures |r| == |snapshot|
    ensures forall k :: 0 <= k < |r| ==> r[k] == Repercentiled(snapshot, snapshot[k])
  {
    seq(|snapshot|, k requires 0 <= k < |snapshot| => Repercentiled(snapshot, snapshot[k]))
  }

  /**
   * The percentile pass changes no field but `percentileRank`, and afterwards every row's rank is
   * within 0.1 of its percentile in the new table.
   */
  lemma RepercentileSettles(caches: seq<Cache>)
    ensures var after := RepercentiledAll(caches);
      && (forall k :: 0 <= k < |caches| ==> after[k] == caches[k].(percentileRank := after[k].percentileRank))
      && (forall k :: 0 <= k < |caches| ==>
            Abs(after[k].percentileRank - PercentileRank(after[k].displayScore, after)) <= 0.1)
  {
    var after := RepercentiledAll(caches);
    forall d: int
      ensures PercentileRank(d, after) == PercentileRank(d, caches)
    {
      CountBelowSameScores(after, caches, d);
    }
  }

  /** Running the percentile pass twice changes nothing the first run did not. */
  lemma RepercentileIdempotent(caches: seq<Cache>)
    ensures RepercentiledAll(RepercentiledAll(caches)) == RepercentiledAll(caches)
  {
    var after := RepercentiledAll(caches);
    RepercentileSettles(caches);
    assert forall k :: 0 <= k < |after| ==> Repercentiled(after, after[k]) == after[k];
  }

  /** The percentile pass keeps the primary key. */
  lemma RepercentileKeepsKey(caches: seq<Cache>)
    requires UniqueCaches(caches)
    ensures UniqueCaches(RepercentiledAll(caches))
    ensures forall id :: FindCache(RepercentiledAll(caches), id).Some? <==> FindCache(caches, id).Some?
  {
    var after := RepercentiledAll(caches);
    assert forall k :: 0 <= k < |after| ==> after[k].discordId == caches[k].discordId;
    forall id
      ensures FindCache(after, id).Some? <==> FindCache(caches, id).Some?
    {
      assert (exists k :: 0 <= k < |after| && after[k].discordId == id)
         <==> (exists k :: 0 <= k < |caches| && caches[k].discordId == id);
    }
  }

  /** Under the primary key, the row found for `c`'s id is `c` itself. */
  lemma FoundIsMember(caches: seq<Cache>, c: Cache, i: int)
    requires UniqueCaches(caches) && 0 <= i < |caches| && caches[i] == c
    ensures FindCache(caches, c.discordId) == Some(c)
  {
    var r := FindCache(caches, c.discordId);
    var j :| 0 <= j < |caches| && caches[j] == r.value;
    assert caches[j].discordId == caches[i].discordId;
  }

  /** Right after a recomputation at `now` the target's row is fresh, so a read at the same time hits the cache. */
  lemma RecalculationIsFresh(n: Numerics, cfg: ReputationConfig, snap: Snapshot, id: string, now: Time.Instant)
    requires WellDefined(cfg) && StatsWellFormed(snap.stats) && UniqueCaches(snap.caches)
    requires cfg.cacheStaleMinutes > 0
    ensures UniqueCaches(Recalculated(n, cfg, snap, id, now))
    ensures IsFresh(cfg, Recalculated(n, cfg, snap, id, now), id, now)
  {
    var c := RecalculatedCache(n, cfg, snap, id, now);
    assert c.discordId == id && c.lastCalculated == now;
    RewrittenFinds(snap.caches, c, VotesForTarget(snap.votes, id) != []);
  }

  // ---------------------------------------------------------------- vote submission

  /** The checks before the write, in their order: self-vote, cooldown, vote value. */
  function VoteCheck(cfg: ReputationConfig, votes: seq<Vote>, voter: string, target: string, value: int,
                     now: Time.Instant): Option<VoteMessage>
  {
    if voter == target then Some(SelfVote)
    else
      var existing := FindVote(votes, voter, target);
      if existing.Some? && Time.DaysBetween(existing.value.votedAt, now) < cfg.voteCooldownDays then
        Some(Cooldown(cfg.voteCooldownDays - Time.DaysBetween(existing.value.votedAt, now)))
      else if value != 1 && value != -1 then Some(InvalidValue)
      else None
  }

  /** What `submitVote` reports. */
  function SubmitOutcome(cfg: ReputationConfig, votes: seq<Vote>, voter: string, target: string, value: int,
                         now: Time.Instant, writeOk: bool): VoteResult
  {
    var check := VoteCheck(cfg, votes, voter, target, value, now);
    if check.Some? then VoteResult(false, check.value)
    else if !writeOk then VoteResult(false, WriteFailed)
    else VoteResult(true, Submitted)
  }

  /** The cooldown window: an earlier vote on the same target, fewer whole days old than the cooldown. */
  predicate InCooldown(cfg: ReputationConfig, votes: seq<Vote>, voter: string, target: string, now: Time.Instant) {
    var existing := FindVote(votes, voter, target);
    existing.Some? && Time.DaysBetween(existing.value.votedAt, now) < cfg.voteCooldownDays
  }

  /**
   * A vote passes the checks exactly when it is not on oneself, not in the cooldown and worth
   * +1 or -1; a self-vote is reported as such whatever else is wrong, and an invalid value only
   * once the cooldown has passed.
   */
  lemma VoteCheckOrder(cfg: ReputationConfig, votes: seq<Vote>, voter: string, target: string, value: int, now: Time.Instant)
    ensures VoteCheck(cfg, votes, voter, target, value, now).None?
      <==> voter != target && !InCooldown(cfg, votes, voter, target, now) && (value == 1 || value == -1)
    ensures voter == target ==> VoteCheck(cfg, votes, voter, target, value, now) == Some(SelfVote)
    ensures VoteCheck(cfg, votes, voter, target, value, now) == Some(InvalidValue)
      <==> voter != target && !InCooldown(cfg, votes, voter, target, now) && value != 1 && value != -1
  {
  }

  /**
   * A vote in the cooldown reports cooldown - d remaining days, where d is the whole days since
   * the earlier vote; for an earlier vote not in the future that is between 1 and the cooldown.
   */
  lemma CooldownRemaining(cfg: ReputationConfig, votes: seq<Vote>, voter: string, target: string, value: int, now: Time.Instant)
    requires voter != target && InCooldown(cfg, votes, voter, target, now)
    requires FindVote(votes, voter, target).value.votedAt <= now
    ensures var d := Time.DaysBetween(FindVote(votes, voter, target).value.votedAt, now);
      VoteCheck(cfg, votes, voter, target, value, now) == Some(Cooldown(cfg.voteCooldownDays - d))
      && 1 <= cfg.voteCooldownDays - d <= cfg.voteCooldownDays
  {
    Time.DaysBetweenForward(FindVote(votes, voter, target).value.votedAt, now);
  }

  /** The statistics row `updateVoterStatistics` writes, before the ledger keeps the stored creation time. */
  function NextStats(stats: map<string, VoterStats>, votes: seq<Vote>, voter: string, value: int, now: Time.Instant): VoterStats {
    var positive := if value > 0 then 1 else 0;
    var negative := if value < 0 then 1 else 0;
    if voter in stats then
      var o := stats[voter];
      var recent := VotesInTimeframe(votes, voter, now - Time.Days(1));
      VoterStats(voter, o.accountCreatedAt, o.totalVotesCast + 1, o.positiveVotesCast + positive,
                 o.negativeVotesCast + negative, |recent| + 1, Some(now),
                 o.consensusAgreements, o.consensusDisagreements, o.credibilityScore)
    else
      VoterStats(voter, now, 1, positive, negative, 1, Some(now), 0, 0, 1.0)
  }

  /**
   * For a vote worth +1 or -1 the total goes up by one and exactly one of the two direction
   * counters with it, so positive + negative = total is kept; creation time, consensus counters
   * and the credibility scalar carry over, and a new voter starts at one vote, created now.
   */
  lemma NextStatsCounters(stats: map<string, VoterStats>, votes: seq<Vote>, voter: string, value: int, now: Time.Instant)
    requires StatsWellFormed(stats) && (value == 1 || value == -1)
    ensures var s := NextStats(stats, votes, voter, value, now);
      && CountersNonNegative(s)
      && s.positiveVotesCast + s.negativeVotesCast - s.totalVotesCast
         == (if voter in stats then stats[voter].positiveVotesCast + stats[voter].negativeVotesCast - stats[voter].totalVotesCast else 0)
      && (voter in stats ==>
            && s.totalVotesCast == stats[voter].totalVotesCast + 1
            && s.accountCreatedAt == stats[voter].accountCreatedAt
            && s.consensusAgreements == stats[voter].consensusAgreements
            && s.consensusDisagreements == stats[voter].consensusDisagreements
            && s.credibilityScore == stats[voter].credibilityScore)
      && (voter !in stats ==>
            s == VoterStats(voter, now, 1, if value > 0 then 1 else 0, if value < 0 then 1 else 0, 1, Some(now), 0, 0, 1.0))
  {
  }

  /**
   * The 24-hour count is taken after the vote was written, so the window already holds the vote
   * just cast and the extra one counts it a second time.
   */
  lemma SubmittedVoteCountedTwice(stats: map<string, VoterStats>, votes: seq<Vote>, voter: string, target: string,
                                  value: int, comment: Option<string>, now: Time.Instant, newId: int)
    requires voter in stats
    ensures var after := UpsertVote(votes, voter, target, value, comment, now, newId);
      var window := VotesInTimeframe(after, voter, now - Time.Days(1));
      && FindVote(after, voter, target).Some? && FindVote(after, voter, target).value in window
      && NextStats(stats, after, voter, value, now).votesLast24h == |window| + 1
  {
    var after := UpsertVote(votes, voter, target, value, comment, now, newId);
    UpsertVoteFind(votes, voter, target, value, comment, now, newId);
    VotesInTimeframeMembers(after, voter, now - Time.Days(1));
  }

  /** A submitted vote is stored under its key with the new value, the stored comment and the current time. */
  lemma SubmittedVoteStored(votes: seq<Vote>, voter: string, target: string, value: int, comment: Option<string>,
                            now: Time.Instant, newId: int)
    ensures var v := FindVote(UpsertVote(votes, voter, target, value, comment, now, newId), voter, target);
      && v.Some? && v.value.voteValue == value && v.value.votedAt == now
      && v.value.comment == StoredComment(comment)
      && (FindVote(votes, voter, target).Some? ==> v.value.id == FindVote(votes, voter, target).value.id)
  {
    UpsertVoteFind(votes, voter, target, value, comment, now, newId);
  }

  /** The ledger after a successful submission, before the recomputation of the target. */
  function VotesAfterSubmit(votes: seq<Vote>, voter: string, target: string, value: int, comment: Option<string>,
                            now: Time.Instant, newId: int): seq<Vote>
  {
    UpsertVote(votes, voter, target, value, comment, now, newId)
  }

  function StatsAfterSubmit(stats: map<string, VoterStats>, votes: seq<Vote>, voter: string, target: string, value: int,
                            comment: Option<string>, now: Time.Instant, newId: int): map<string, VoterStats>
  {
    UpsertStats(stats, NextStats(stats, VotesAfterSubmit(votes, voter, target, value, comment, now, newId), voter, value, now))
  }

  lemma StatsAfterSubmitWellFormed(stats: map<string, VoterStats>, votes: seq<Vote>, voter: string, target: string, value: int,
                                   comment: Option<string>, now: Time.Instant, newId: int)
    requires StatsWellFormed(stats) && (value == 1 || value == -1)
    ensures StatsWellFormed(StatsAfterSubmit(stats, votes, voter, target, value, comment, now, newId))
  {
    NextStatsCounters(stats, VotesAfterSubmit(votes, voter, target, value, comment, now, newId), voter, value, now);
  }

  /**
   * A voter's first vote weighs nothing in the recomputation it triggers: the statistics row is
   * created at the time of the vote, so its account age is zero whole days.
   */
  lemma FirstVoteWeighsNothing(n: Numerics, cfg: ReputationConfig, votes: seq<Vote>, caches: seq<Cache>,
                               stats: map<string, VoterStats>, voter: string, target: string, value: int,
                               comment: Option<string>, now: Time.Instant, newId: int)
    requires WellDefined(cfg) && StatsWellFormed(stats) && voter !in stats && (value == 1 || value == -1)
    ensures var votes' := VotesAfterSubmit(votes, voter, target, value, comment, now, newId);
      var stats' := StatsAfterSubmit(stats, votes, voter, target, value, comment, now, newId);
      StatsWellFormed(stats') && FindVote(votes', voter, target).Some?
      && VoteWeight(n, cfg, Snapshot(votes', caches, stats'), target, FindVote(votes', voter, target).value, now) == 0.0
  {
    var votes' := VotesAfterSubmit(votes, voter, target, value, comment, now, newId);
    var stats' := StatsAfterSubmit(stats, votes, voter, target, value, comment, now, newId);
    StatsAfterSubmitWellFormed(stats, votes, voter, target, value, comment, now, newId);
    SubmittedVoteStored(votes, voter, target, value, comment, now, newId);
    var v := FindVote(votes', voter, target).value;
    assert stats'[voter].accountCreatedAt == now;
    FreshVoterVoteWeighsNothing(n, cfg, Snapshot(votes', caches, stats'), target, v, now);
  }

  /** On a target nobody has voted on, the vote just submitted is the target's only vote. */
  lemma SubmittedVoteIsOnlyVote(votes: seq<Vote>, voter: string, target: string, value: int,
                                comment: Option<string>, now: Time.Instant, newId: int)
    requires VotesForTarget(votes, target) == []
    ensures var votes' := VotesAfterSubmit(votes, voter, target, value, comment, now, newId);
      FindVote(votes', voter, target).Some? && VotesForTarget(votes', target) == [FindVote(votes', voter, target).value]
  {
    var votes' := VotesAfterSubmit(votes, voter, target, value, comment, now, newId);
    assert FindVote(votes, voter, target).None? by {
      VotesForTargetMembers(votes, target);
    }
    var row := Vote(newId, voter, target, value, StoredComment(comment), StoredLength(comment), now);
    UpsertVoteAppends(votes, voter, target, value, comment, now, newId);
    VotesForTargetAppend(votes, row, target);
    UpsertVoteFind(votes, voter, target, value, comment, now, newId);
  }

  /**
   * So a first vote from a new voter on a target nobody has voted on leaves the target at raw
   * score 0 and, for a tanh with tanh(0) = 0, display score 0.
   */
  lemma FirstVoteOnNewTargetScoresZero(n: Numerics, cfg: ReputationConfig, votes: seq<Vote>, caches: seq<Cache>,
                                       stats: map<string, VoterStats>, voter: string, target: string, value: int,
                                       comment: Option<string>, now: Time.Instant, newId: int)
    requires WellDefined(cfg) && StatsWellFormed(stats) && voter !in stats && (value == 1 || value == -1)
    requires VotesForTarget(votes, target) == [] && n.tanh(0.0) == 0.0
    ensures var votes' := VotesAfterSubmit(votes, voter, target, value, comment, now, newId);
      var stats' := StatsAfterSubmit(stats, votes, voter, target, value, comment, now, newId);
      StatsWellFormed(stats')
      && var c := RecalculatedCache(n, cfg, Snapshot(votes', caches, stats'), target, now);
         c.totalScore == 0.0 && c.displayScore == 0 && c.totalVotesReceived == 1
  {
    var votes' := VotesAfterSubmit(votes, voter, target, value, comment, now, newId);
    var stats' := StatsAfterSubmit(stats, votes, voter, target, value, comment, now, newId);
    FirstVoteWeighsNothing(n, cfg, votes, caches, stats, voter, target, value, comment, now, newId);
    SubmittedVoteIsOnlyVote(votes, voter, target, value, comment, now, newId);
    var snap := Snapshot(votes', caches, stats');
    WeightlessVotesSumToZero(VotesForTarget(votes', target), Weigher(n, cfg, snap, target, now));
    assert DisplayScore(n, 0.0) == 0 by {
      assert 0.0 / 10.0 == 0.0;
    }
  }

  // ---------------------------------------------------------------- the manager

  /** `ReputationManager`: the engine over one ledger, configuration and numerics. */
  class ReputationManager {
    const db: ReputationLedger
    const n: Numerics
    const cfg: ReputationConfig

    constructor (db: ReputationLedger, n: Numerics, cfg: ReputationConfig)
      ensures this.db == db && this.n == n && this.cfg == cfg
    {
      this.db := db;
      this.n := n;
      this.cfg := cfg;
    }

    /** The ledger as it stands. */
    function Snap(): Snapshot
      reads db
    {
      Snapshot(db.votes, db.caches, db.stats)
    }

    /** The loop of `getDiversityMultiplier`: each side's distinct voters and vote count in one pass. */
    method CountSides(allTargetVotes: seq<Vote>)
      returns (positiveVoters: set<string>, negativeVoters: set<string>, positiveCount: nat, negativeCount: nat)
      ensures positiveVoters == SideVoters(allTargetVotes, true) && negativeVoters == SideVoters(allTargetVotes, false)
      ensures positiveCount == SideCount(allTargetVotes, true) && negativeCount == SideCount(allTargetVotes, false)
    {
      positiveVoters, negativeVoters := {}, {};
      positiveCount, negativeCount := 0, 0;
      var i := 0;
      while i < |allTargetVotes|
        invariant 0 <= i <= |allTargetVotes|
        invariant positiveVoters == SideVoters(allTargetVotes[..i], true)
        invariant negativeVoters == SideVoters(allTargetVotes[..i], false)
        invariant positiveCount == SideCount(allTargetVotes[..i], true)
        invariant negativeCount == SideCount(allTargetVotes[..i], false)
      {
        var v := allTargetVotes[i];
        assert allTargetVotes[..i + 1][..i] == allTargetVotes[..i];
        if v.voteValue > 0 {
          positiveVoters := positiveVoters + {v.voterDiscordId};
          positiveCount := positiveCount + 1;
        } else {
          negativeVoters := negativeVoters + {v.voterDiscordId};
          negativeCount := negativeCount + 1;
        }
        i := i + 1;
      }
      assert allTargetVotes[..i] == allTargetVotes;
    }

    /** `getDiversityMultiplier`: the less diverse side is scaled down by the square root of the ratio. */
    method ComputeDiversity(vote: Vote, allTargetVotes: seq<Vote>) returns (r: real)
      ensures r == DiversityMultiplier(n, allTargetVotes, vote)
    {
      var positiveVoters, negativeVoters, positiveCount, negativeCount := CountSides(allTargetVotes);
      if positiveCount == 0 || negativeCount == 0 {
        return 1.0;
      }
      var positiveDiversity := |positiveVoters| as real / positiveCount as real;
      var negativeDiversity := |negativeVoters| as real / negativeCount as real;
      if vote.voteValue > 0 && positiveDiversity < negativeDiversity {
        return n.sqrt(positiveDiversity / negativeDiversity);
      } else if vote.voteValue < 0 && negativeDiversity < positiveDiversity {
        return n.sqrt(negativeDiversity / positiveDiversity);
      }
      return 1.0;
    }

    /** `calculateVoteWeight`: multiplies the seven factors into the weight in turn. */
    method ComputeVoteWeight(vote: Vote, targetId: string, allTargetVotes: seq<Vote>, now: Time.Instant) returns (weight: real)
      requires db.Valid() && WellDefined(cfg)
      requires allTargetVotes == VotesForTarget(db.votes, targetId)
      ensures weight == VoteWeight(n, cfg, Snap(), targetId, vote, now)
    {
      var diversity := ComputeDiversity(vote, allTargetVotes);
      var factors := Factors(TimeDecay(n, cfg, vote.votedAt, now),
                             Credibility(cfg, db.stats, db.caches, vote.voterDiscordId, vote.votedAt, now),
                             CommentQuality(cfg, vote.comment),
                             AntiAbuse(cfg, db.votes, vote),
                             diversity,
                             ProgressiveMultiplier(cfg, vote, FindCache(db.caches, targetId)),
                             SmallServerScaling(cfg, |VoterIds(allTargetVotes)|));
      assert factors == FactorsOf(n, cfg, Snap(), targetId, vote, now);
      weight := Product(factors);
    }

    /** `updatePercentileRanks`: ranks every row against one snapshot and rewrites those that moved. */
    method UpdatePercentileRanks()
      requires db.Valid()
      modifies db
      ensures db.Valid()
      ensures db.caches == RepercentiledAll(old(db.caches))
      ensures db.votes == old(db.votes) && db.stats == old(db.stats) && db.nextVoteId == old(db.nextVoteId)
    {
      var allScores := db.caches;
      var i := 0;
      while i < |allScores|
        invariant 0 <= i <= |allScores|
        invariant db.Valid()
        invariant db.votes == old(db.votes) && db.stats == old(db.stats) && db.nextVoteId == old(db.nextVoteId)
        invariant |db.caches| == |allScores|
        invariant forall k :: 0 <= k < |allScores| ==>
          db.caches[k] == if k < i then Repercentiled(allScores, allScores[k]) else allScores[k]
      {
        var cache := allScores[i];
        var percentile := PercentileRank(cache.displayScore, allScores);
        if Abs(percentile - cache.percentileRank) > 0.1 {
          var updated := Cache(cache.discordId, cache.totalScore, cache.displayScore,
                               cache.lastCalculated, cache.totalVotesReceived, percentile);
          UpsertCacheAt(db.caches, i, updated);
          db.UpdateReputationCache(updated);
        }
        i := i + 1;
      }
      assert db.caches == RepercentiledAll(allScores);
    }

    /** The loop of `calculateReputation`: each vote's value times its weight, summed in order. */
    method WeighVotes(votes: seq<Vote>, id: string, now: Time.Instant) returns (totalScore: real)
      requires db.Valid() && WellDefined(cfg)
      requires votes == VotesForTarget(db.votes, id)
      ensures totalScore == WeightedSum(votes, Weigher(n, cfg, Snap(), id, now))
    {
      totalScore := 0.0;
      var i := 0;
      while i < |votes|
        invariant 0 <= i <= |votes|
        invariant totalScore == WeightedSum(votes[..i], Weigher(n, cfg, Snap(), id, now))
      {
        var weight := ComputeVoteWeight(votes[i], id, votes, now);
        WeightedSumExtend(votes, i, Weigher(n, cfg, Snap(), id, now), weight, totalScore);
        totalScore := totalScore + votes[i].voteValue as real * weight;
        i := i + 1;
      }
      assert votes[..i] == votes;
    }

    /** `calculateReputation`: weighs every vote on the target against one snapshot, writes the row, re-ranks. */
    method CalculateReputation(id: string, now: Time.Instant) returns (r: ReputationResult)
      requires db.Valid() && WellDefined(cfg)
      modifies db
      ensures db.Valid()
      ensures db.votes == old(db.votes) && db.stats == old(db.stats) && db.nextVoteId == old(db.nextVoteId)
      ensures db.caches == Recalculated(n, cfg, old(Snap()), id, now)
      ensures r == RecalculatedResult(n, cfg, old(Snap()), id, now)
    {
      var votes := VotesForTarget(db.votes, id);
      if votes == [] {
        var neutral := Cache(id, 0.0, 0, now, 0, 50.0);
        db.UpdateReputationCache(neutral);
        return ReputationResult(neutral, [], false);
      }
      var allScores := db.caches;
      var totalScore := WeighVotes(votes, id, now);
      var displayScore := DisplayScore(n, totalScore);
      var percentile := PercentileRank(displayScore, allScores);
      var cache := Cache(id, totalScore, displayScore, now, |votes|, percentile);
      db.UpdateReputationCache(cache);
      UpdatePercentileRanks();
      var recentVotes := Recent(votes, cfg.displayRecentVotesCount);
      r := ReputationResult(cache, recentVotes, false);
    }

    /** `getReputation`: the cached row while it is fresh, otherwise a recomputation. */
    method GetReputation(id: string, now: Time.Instant) returns (r: ReputationResult)
      requires db.Valid() && WellDefined(cfg)
      modifies db
      ensures db.Valid()
      ensures db.votes == old(db.votes) && db.stats == old(db.stats) && db.nextVoteId == old(db.nextVoteId)
      ensures IsFresh(cfg, old(db.caches), id, now) ==>
        && db.caches == old(db.caches)
        && r == ReputationResult(FindCache(old(db.caches), id).value,
                                 Recent(VotesForTarget(old(db.votes), id), cfg.displayRecentVotesCount), true)
      ensures !IsFresh(cfg, old(db.caches), id, now) ==>
        && db.caches == Recalculated(n, cfg, old(Snap()), id, now)
        && r == RecalculatedResult(n, cfg, old(Snap()), id, now)
    {
      var cached := FindCache(db.caches, id);
      if cached.Some? {
        var minutesSinceCalculation := Time.MinutesBetween(cached.value.lastCalculated, now);
        if minutesSinceCalculation < cfg.cacheStaleMinutes {
          var recentVotes := Recent(VotesForTarget(db.votes, id), cfg.displayRecentVotesCount);
          return ReputationResult(cached.value, recentVotes, true);
        }
      }
      r := CalculateReputation(id, now);
    }

    /** `updateVoterStatistics`: writes the voter's next statistics row. */
    method UpdateVoterStatistics(voter: string, value: int, now: Time.Instant)
      requires db.Valid() && (value == 1 || value == -1)
      modifies db
      ensures db.Valid()
      ensures db.stats == UpsertStats(old(db.stats), NextStats(old(db.stats), old(db.votes), voter, value, now))
      ensures db.votes == old(db.votes) && db.caches == old(db.caches) && db.nextVoteId == old(db.nextVoteId)
    {
      var stats: VoterStats;
      if voter in db.stats {
        var o := db.stats[voter];
        var recent := VotesInTimeframe(db.votes, voter, now - Time.Days(1));
        stats := VoterStats(voter, o.accountCreatedAt, o.totalVotesCast + 1,
                            o.positiveVotesCast + (if value > 0 then 1 else 0),
                            o.negativeVotesCast + (if value < 0 then 1 else 0),
                            |recent| + 1, Some(now), o.consensusAgreements, o.consensusDisagreements,
                            o.credibilityScore);
      } else {
        stats := VoterStats(voter, now, 1, if value > 0 then 1 else 0, if value < 0 then 1 else 0,
                            1, Some(now), 0, 0, 1.0);
      }
      NextStatsCounters(db.stats, db.votes, voter, value, now);
      db.UpdateVoterStats(stats);
    }

    /**
     * `submitVote`: self-vote, cooldown and value checks, then the write, the statistics update
     * and the recomputation of the target. `writeOk` is whether the ledger write succeeds.
     */
    method SubmitVote(voter: string, target: string, value: int, comment: Option<string>, now: Time.Instant,
                      writeOk: bool) returns (r: VoteResult)
      requires db.Valid() && WellDefined(cfg)
      modifies db
      ensures db.Valid()
      ensures r == SubmitOutcome(cfg, old(db.votes), voter, target, value, now, writeOk)
      ensures !r.success ==> db.votes == old(db.votes) && db.caches == old(db.caches) && db.stats == old(db.stats)
      ensures r.success ==>
        var votes' := VotesAfterSubmit(old(db.votes), voter, target, value, comment, now, old(db.nextVoteId));
        var stats' := StatsAfterSubmit(old(db.stats), old(db.votes), voter, target, value, comment, now, old(db.nextVoteId));
        && StatsWellFormed(stats')
        && db.votes == votes' && db.stats == stats'
        && db.caches == Recalculated(n, cfg, Snapshot(votes', old(db.caches), stats'), target, now)
    {
      if voter == target {
        return VoteResult(false, SelfVote);
      }
      var existing := FindVote(db.votes, voter, target);
      if existing.Some? {
        var daysSinceVote := Time.DaysBetween(existing.value.votedAt, now);
        if daysSinceVote < cfg.voteCooldownDays {
          return VoteResult(false, Cooldown(cfg.voteCooldownDays - daysSinceVote));
        }
      }
      if value != 1 && value != -1 {
        return VoteResult(false, InvalidValue);
      }
      ghost var oldVotes, oldStats, oldId := db.votes, db.stats, db.nextVoteId;
      var success := db.AddOrUpdateVote(voter, target, value, comment, now, writeOk);
      if !success {
        return VoteResult(false, WriteFailed);
      }
      UpdateVoterStatistics(voter, value, now);
      StatsAfterSubmitWellFormed(oldStats, oldVotes, voter, target, value, comment, now, oldId);
      var _ := CalculateReputation(target, now);
      return VoteResult(true, Submitted);
    }
  }
}

/**
 * The periodic reputation jobs: the refresh of stale cached scores, the consensus tracking that
 * credits voters whose old votes agree with the settled opinion on a target, the percentile pass
 * and the (unscheduled) reset of the 24-hour vote counters.
 */
module Scheduler {
  import Time
  import opened Ledger
  import opened Weights
  import opened Reputation

  // ---------------------------------------------------------------- cache refresh

  /**
   * The test `refreshStaleCache` applies to a row of the table as read when the pass starts: the
   * row is older than the staleness threshold and some vote on the target is strictly newer than it.
   */
  predicate NeedsRefresh(cfg: ReputationConfig, votes: seq<Vote>, c: Cache, now: Time.Instant) {
    && c.lastCalculated < now - Time.Minutes(cfg.cacheStaleMinutes)
    && exists v :: v in VotesForTarget(votes, c.discordId) && v.votedAt > c.lastCalculated
  }

  /** The ids the pass recomputes, in table order. */
  function RefreshTargets(cfg: ReputationConfig, votes: seq<Vote>, rows: seq<Cache>, now: Time.Instant): (ids: seq<string>)
    ensures |ids| <= |rows|
    ensures forall id :: id in ids ==> exists k :: 0 <= k < |rows| && rows[k].discordId == id && NeedsRefresh(cfg, votes, rows[k], now)
    ensures forall k :: 0 <= k < |rows| && NeedsRefresh(cfg, votes, rows[k], now) ==> rows[k].discordId in ids
  {
    if rows == [] then []
    else
      var init := RefreshTargets(cfg, votes, rows[..|rows| - 1], now);
      assert forall k :: 0 <= k < |rows| - 1 ==> rows[..|rows| - 1][k] == rows[k];
      var last := rows[|rows| - 1];
      init + (if NeedsRefresh(cfg, votes, last, now) then [last.discordId] else [])
  }

  /** The cache table after recomputing the given targets one after the other. */
  function Refreshed(n: Numerics, cfg: ReputationConfig, votes: seq<Vote>, stats: map<string, VoterStats>,
                     caches: seq<Cache>, ids: seq<string>, now: Time.Instant): seq<Cache>
    requires WellDefined(cfg) && StatsWellFormed(stats)
  {
    if ids == [] then caches
    else
      var prev := Refreshed(n, cfg, votes, stats, caches, ids[..|ids| - 1], now);
      Recalculated(n, cfg, Snapshot(votes, prev, stats), ids[|ids| - 1], now)
  }

  /** One more row of the pass: it adds its id, and one recomputation, exactly when it needs a refresh. */
  lemma RefreshStep(n: Numerics, cfg: ReputationConfig, votes: seq<Vote>, stats: map<string, VoterStats>,
                    caches: seq<Cache>, rows: seq<Cache>, i: int, now: Time.Instant)
    requires WellDefined(cfg) && StatsWellFormed(stats) && 0 <= i < |rows|
    ensures var ids := RefreshTargets(cfg, votes, rows[..i], now);
      var next := RefreshTargets(cfg, votes, rows[..i + 1], now);
      && (NeedsRefresh(cfg, votes, rows[i], now) ==>
            && next == ids + [rows[i].discordId]
            && Refreshed(n, cfg, votes, stats, caches, next, now)
               == Recalculated(n, cfg, Snapshot(votes, Refreshed(n, cfg, votes, stats, caches, ids, now), stats), rows[i].discordId, now))
      && (!NeedsRefresh(cfg, votes, rows[i], now) ==> next == ids)
  {
    assert rows[..i + 1][..i] == rows[..i];
    var ids := RefreshTargets(cfg, votes, rows[..i], now);
    assert (ids + [rows[i].discordId])[..|ids|] == ids;
  }

  /** A recomputation keeps the primary key of the cache table. */
  lemma RecalculatedUnique(n: Numerics, cfg: ReputationConfig, snap: Snapshot, id: string, now: Time.Instant)
    requires WellDefined(cfg) && StatsWellFormed(snap.stats) && UniqueCaches(snap.caches)
    ensures UniqueCaches(Recalculated(n, cfg, snap, id, now))
  {
    RewrittenFinds(snap.caches, RecalculatedCache(n, cfg, snap, id, now), VotesForTarget(snap.votes, id) != []);
  }

  /** A recomputation of one target leaves every other target's row in place with its time of calculation. */
  lemma RecalculatedKeepsOtherRows(n: Numerics, cfg: ReputationConfig, snap: Snapshot, id: string, other: string,
                                   now: Time.Instant)
    requires WellDefined(cfg) && StatsWellFormed(snap.stats) && UniqueCaches(snap.caches)
    requires other != id && FindCache(snap.caches, other).Some?
    ensures var r := FindCache(Recalculated(n, cfg, snap, id, now), other);
      r.Some? && r.value.lastCalculated == FindCache(snap.caches, other).value.lastCalculated
  {
    var c := RecalculatedCache(n, cfg, snap, id, now);
    assert c.discordId == id;
    RewrittenKeepsOthers(snap.caches, c, VotesForTarget(snap.votes, id) != [], other);
  }

  /** A recomputation of one target keeps every fresh row fresh. */
  lemma RecalculatedKeepsFresh(n: Numerics, cfg: ReputationConfig, snap: Snapshot, id: string, other: string,
                               now: Time.Instant)
    requires WellDefined(cfg) && StatsWellFormed(snap.stats) && UniqueCaches(snap.caches)
    requires cfg.cacheStaleMinutes > 0 && (other == id || IsFresh(cfg, snap.caches, other, now))
    ensures IsFresh(cfg, Recalculated(n, cfg, snap, id, now), other, now)
  {
    if other == id {
      RecalculationIsFresh(n, cfg, snap, id, now);
    } else {
      RecalculatedKeepsOtherRows(n, cfg, snap, id, other, now);
    }
  }

  /**
   * After recomputing a list of targets at `now`, the table keeps its primary key and every
   * recomputed target's row is fresh.
   */
  lemma {:induction false} RefreshedFresh(n: Numerics, cfg: ReputationConfig, votes: seq<Vote>, stats: map<string, VoterStats>,
                                          caches: seq<Cache>, ids: seq<string>, now: Time.Instant)
    requires WellDefined(cfg) && StatsWellFormed(stats) && UniqueCaches(caches) && cfg.cacheStaleMinutes > 0
    ensures UniqueCaches(Refreshed(n, cfg, votes, stats, caches, ids, now))
    ensures forall id :: id in ids ==> IsFresh(cfg, Refreshed(n, cfg, votes, stats, caches, ids, now), id, now)
  {
    if ids != [] {
      var init := ids[..|ids| - 1];
      var last := ids[|ids| - 1];
      RefreshedFresh(n, cfg, votes, stats, caches, init, now);
      var snap := Snapshot(votes, Refreshed(n, cfg, votes, stats, caches, init, now), stats);
      RecalculatedUnique(n, cfg, snap, last, now);
      forall id | id in ids
        ensures IsFresh(cfg, Refreshed(n, cfg, votes, stats, caches, ids, now), id, now)
      {
        if id != last {
          assert id in init;
        }
        RecalculatedKeepsFresh(n, cfg, snap, last, id, now);
      }
    }
  }

  /** A target that is not recomputed keeps its row and its time of calculation. */
  lemma {:induction false} RefreshedSkipsOthers(n: Numerics, cfg: ReputationConfig, votes: seq<Vote>, stats: map<string, VoterStats>,
                                                caches: seq<Cache>, ids: seq<string>, other: string, now: Time.Instant)
    requires WellDefined(cfg) && StatsWellFormed(stats) && UniqueCaches(caches)
    requires other !in ids && FindCache(caches, other).Some?
    ensures var r := FindCache(Refreshed(n, cfg, votes, stats, caches, ids, now), other);
      r.Some? && r.value.lastCalculated == FindCache(caches, other).value.lastCalculated
  {
    if ids != [] {
      var init := ids[..|ids| - 1];
      assert other !in init by {
        assert forall x :: x in init ==> x in ids;
      }
      RefreshedSkipsOthers(n, cfg, votes, stats, caches, init, other, now);
      RefreshedUnique(n, cfg, votes, stats, caches, init, now);
      var snap := Snapshot(votes, Refreshed(n, cfg, votes, stats, caches, init, now), stats);
      RecalculatedKeepsOtherRows(n, cfg, snap, ids[|ids| - 1], other, now);
    }
  }

  /** Recomputations keep the primary key of the cache table. */
  lemma {:induction false} RefreshedUnique(n: Numerics, cfg: ReputationConfig, votes: seq<Vote>, stats: map<string, VoterStats>,
                                           caches: seq<Cache>, ids: seq<string>, now: Time.Instant)
    requires WellDefined(cfg) && StatsWellFormed(stats) && UniqueCaches(caches)
    ensures UniqueCaches(Refreshed(n, cfg, votes, stats, caches, ids, now))
  {
    if ids != [] {
      var init := ids[..|ids| - 1];
      RefreshedUnique(n, cfg, votes, stats, caches, init, now);
      RecalculatedUnique(n, cfg, Snapshot(votes, Refreshed(n, cfg, votes, stats, caches, init, now), stats), ids[|ids| - 1], now);
    }
  }

  /**
   * The refresh pass leaves every row it found stale, with a newer vote, fresh; a row it did not
   * pick keeps its time of calculation.
   */
  lemma RefreshPass(n: Numerics, cfg: ReputationConfig, votes: seq<Vote>, stats: map<string, VoterStats>,
                    caches: seq<Cache>, now: Time.Instant)
    requires WellDefined(cfg) && StatsWellFormed(stats) && UniqueCaches(caches) && cfg.cacheStaleMinutes > 0
    ensures var after := Refreshed(n, cfg, votes, stats, caches, RefreshTargets(cfg, votes, caches, now), now);
      && (forall k :: 0 <= k < |caches| && NeedsRefresh(cfg, votes, caches[k], now) ==>
            IsFresh(cfg, after, caches[k].discordId, now))
      && (forall k :: 0 <= k < |caches| && !NeedsRefresh(cfg, votes, caches[k], now) ==>
            FindCache(after, caches[k].discordId).Some?
            && FindCache(after, caches[k].discordId).value.lastCalculated == caches[k].lastCalculated)
  {
    var ids := RefreshTargets(cfg, votes, caches, now);
    RefreshedFresh(n, cfg, votes, stats, caches, ids, now);
    forall k | 0 <= k < |caches| && !NeedsRefresh(cfg, votes, caches[k], now)
      ensures FindCache(Refreshed(n, cfg, votes, stats, caches, ids, now), caches[k].discordId).Some?
      ensures FindCache(Refreshed(n, cfg, votes, stats, caches, ids, now), caches[k].discordId).value.lastCalculated
              == caches[k].lastCalculated
    {
      var id := caches[k].discordId;
      assert id !in ids;
      FoundIsMember(caches, caches[k], k);
      RefreshedSkipsOthers(n, cfg, votes, stats, caches, ids, id, now);
    }
  }

  // ---------------------------------------------------------------- consensus tracking

  /** `ConsensusUpdate`: the agreements and disagreements to add to one voter's counters. */
  datatype Credit = Credit(agreements: nat, disagreements: nat)

  function Add(a: Credit, b: Credit): Credit {
    Credit(a.agreements + b.agreements, a.disagreements + b.disagreements)
  }

  /** One more credited vote. */
  function Bump(c: Credit, agrees: bool): Credit {
    if agrees then c.(agreements := c.agreements + 1) else c.(disagreements := c.disagreements + 1)
  }

  /** The credit recorded for a voter, none when absent. */
  function Get(credits: map<string, Credit>, voter: string): Credit {
    if voter in credits then credits[voter] else Credit(0, 0)
  }

  function Positives(votes: seq<Vote>): (r: nat)
    ensures r <= |votes|
  {
    if votes == [] then 0 else (if votes[0].voteValue > 0 then 1 else 0) + Positives(votes[1..])
  }

  function Negatives(votes: seq<Vote>): (r: nat)
    ensures r <= |votes|
  {
    if votes == [] then 0 else (if votes[0].voteValue < 0 then 1 else 0) + Negatives(votes[1..])
  }

  /**
   * The settled opinion on a target, over all its votes: 1 when upvotes outnumber downvotes by
   * more than half as much again, -1 the other way round, 0 otherwise. The source's
   * `count > other * 1.5` is exact on these counts and is written `2 * count > 3 * other`.
   */
  function ConsensusDirection(votes: seq<Vote>): (d: int)
    ensures d == 1 <==> 2 * Positives(votes) > 3 * Negatives(votes)
    ensures d == -1 <==> 2 * Negatives(votes) > 3 * Positives(votes)
    ensures d == 1 ==> Positives(votes) > Negatives(votes)
    ensures d == -1 ==> Negatives(votes) > Positives(votes)
    ensures -1 <= d <= 1
  {
    var p := Positives(votes);
    var q := Negatives(votes);
    if 2 * p > 3 * q then 1 else if 2 * q > 3 * p then -1 else 0
  }

  /** Unanimous upvotes are a consensus. */
  lemma {:induction false} UnanimousUpvotes(votes: seq<Vote>)
    requires votes != [] && forall i :: 0 <= i < |votes| ==> votes[i].voteValue > 0
    ensures ConsensusDirection(votes) == 1
  {
    AllPositive(votes);
  }

  lemma {:induction false} AllPositive(votes: seq<Vote>)
    requires forall i :: 0 <= i < |votes| ==> votes[i].voteValue > 0
    ensures Positives(votes) == |votes| && Negatives(votes) == 0
  {
    if votes != [] {
      assert forall i :: 0 <= i < |votes[1..]| ==> votes[1..][i] == votes[i + 1];
      AllPositive(votes[1..]);
    }
  }

  /** An even split, and any split within a factor of 1.5, has no consensus. */
  lemma NoConsensusWhenClose(votes: seq<Vote>)
    requires 2 * Positives(votes) <= 3 * Negatives(votes) && 2 * Negatives(votes) <= 3 * Positives(votes)
    ensures ConsensusDirection(votes) == 0
  {
  }

  /** A vote agrees with the consensus when it points the same way. */
  predicate Agrees(value: int, direction: int) {
    (value > 0 && direction > 0) || (value < 0 && direction < 0)
  }

  /** The votes on a target cast strictly before the threshold. */
  function OldVotes(votes: seq<Vote>, threshold: Time.Instant): (r: seq<Vote>)
    ensures forall v :: v in r <==> v in votes && v.votedAt < threshold
  {
    if votes == [] then []
    else (if votes[0].votedAt < threshold then [votes[0]] else []) + OldVotes(votes[1..], threshold)
  }

  /** The credits after crediting the given votes one by one against `direction`. */
  function CreditVotes(credits: map<string, Credit>, vs: seq<Vote>, direction: int): map<string, Credit> {
    if vs == [] then credits
    else
      var prev := CreditVotes(credits, vs[..|vs| - 1], direction);
      var v := vs[|vs| - 1];
      prev[v.voterDiscordId := Bump(Get(prev, v.voterDiscordId), Agrees(v.voteValue, direction))]
  }

  /** One target of the tracking pass: its old votes are credited only when it has some and a consensus. */
  function CreditTarget(credits: map<string, Credit>, votes: seq<Vote>, id: string, threshold: Time.Instant): map<string, Credit> {
    var targetVotes := VotesForTarget(votes, id);
    var oldVotes := OldVotes(targetVotes, threshold);
    if oldVotes == [] then credits
    else
      var direction := ConsensusDirection(targetVotes);
      if direction == 0 then credits else CreditVotes(credits, oldVotes, direction)
  }

  /** The credits the pass collects over the given rows of the cache table. */
  function Tally(votes: seq<Vote>, rows: seq<Cache>, threshold: Time.Instant): map<string, Credit> {
    if rows == [] then map[]
    else CreditTarget(Tally(votes, rows[..|rows| - 1], threshold), votes, rows[|rows| - 1].discordId, threshold)
  }

  /** Reference count: the agreements and disagreements among one voter's votes in `vs`. */
  function VoterCount(vs: seq<Vote>, voter: string, direction: int): Credit {
    if vs == [] then Credit(0, 0)
    else
      var c := VoterCount(vs[..|vs| - 1], voter, direction);
      var v := vs[|vs| - 1];
      if v.voterDiscordId == voter then Bump(c, Agrees(v.voteValue, direction)) else c
  }

  /** Reference count: what one voter earns from one target. */
  function TargetCredit(votes: seq<Vote>, id: string, threshold: Time.Instant, voter: string): Credit {
    var targetVotes := VotesForTarget(votes, id);
    var oldVotes := OldVotes(targetVotes, threshold);
    var direction := ConsensusDirection(targetVotes);
    if oldVotes == [] || direction == 0 then Credit(0, 0) else VoterCount(oldVotes, voter, direction)
  }

  /** Reference count: what one voter earns from every target in `rows`. */
  function VoterTally(votes: seq<Vote>, rows: seq<Cache>, threshold: Time.Instant, voter: string): Credit {
    if rows == [] then Credit(0, 0)
    else Add(VoterTally(votes, rows[..|rows| - 1], threshold, voter),
             TargetCredit(votes, rows[|rows| - 1].discordId, threshold, voter))
  }

  /** Every recorded credit counts at least one vote. */
  predicate Positive(credits: map<string, Credit>) {
    forall k :: k in credits ==> credits[k].agreements + credits[k].disagreements > 0
  }

  lemma BumpAdd(a: Credit, b: Credit, agrees: bool)
    ensures Bump(Add(a, b), agrees) == Add(a, Bump(b, agrees))
  {
  }

  /** Crediting one vote keeps every recorded credit positive. */
  lemma BumpPositive(credits: map<string, Credit>, voter: string, agrees: bool)
    requires Positive(credits)
    ensures Positive(credits[voter := Bump(Get(credits, voter), agrees)])
  {
  }

  /** Crediting votes one by one adds, for every voter, exactly the reference count of their votes. */
  lemma {:induction false} CreditVotesPerVoter(credits: map<string, Credit>, vs: seq<Vote>, direction: int, voter: string)
    requires Positive(credits)
    ensures Positive(CreditVotes(credits, vs, direction))
    ensures Get(CreditVotes(credits, vs, direction), voter) == Add(Get(credits, voter), VoterCount(vs, voter, direction))
  {
    if vs != [] {
      var init := vs[..|vs| - 1];
      var v := vs[|vs| - 1];
      var agrees := Agrees(v.voteValue, direction);
      var prev := CreditVotes(credits, init, direction);
      CreditVotesPerVoter(credits, init, direction, voter);
      BumpPositive(prev, v.voterDiscordId, agrees);
      if v.voterDiscordId == voter {
        BumpAdd(Get(credits, voter), VoterCount(init, voter, direction), agrees);
      }
    }
  }

  /** One target adds, for every voter, exactly what the voter earns from it. */
  lemma CreditTargetPerVoter(credits: map<string, Credit>, votes: seq<Vote>, id: string, threshold: Time.Instant, voter: string)
    requires Positive(credits)
    ensures Positive(CreditTarget(credits, votes, id, threshold))
    ensures Get(CreditTarget(credits, votes, id, threshold), voter) == Add(Get(credits, voter), TargetCredit(votes, id, threshold, voter))
  {
    var targetVotes := VotesForTarget(votes, id);
    var oldVotes := OldVotes(targetVotes, threshold);
    var direction := ConsensusDirection(targetVotes);
    if oldVotes != [] && direction != 0 {
      CreditVotesPerVoter(credits, oldVotes, direction, voter);
    }
  }

  /** In a map of positive credits, a voter is present exactly when the credit it gets is not zero. */
  lemma PositiveMembership(credits: map<string, Credit>, voter: string)
    requires Positive(credits)
    ensures voter in credits <==> Get(credits, voter).agreements + Get(credits, voter).disagreements > 0
  {
  }

  /**
   * The tally agrees with the per-voter reference count: a voter is in it exactly when they earn
   * some credit, and then holds exactly what they earn.
   */
  lemma {:induction false} TallyPerVoter(votes: seq<Vote>, rows: seq<Cache>, threshold: Time.Instant, voter: string)
    ensures Positive(Tally(votes, rows, threshold))
    ensures Get(Tally(votes, rows, threshold), voter) == VoterTally(votes, rows, threshold, voter)
    ensures var c := VoterTally(votes, rows, threshold, voter);
      voter in Tally(votes, rows, threshold) <==> c.agreements + c.disagreements > 0
  {
    if rows != [] {
      var init := rows[..|rows| - 1];
      TallyPerVoter(votes, init, threshold, voter);
      CreditTargetPerVoter(Tally(votes, init, threshold), votes, rows[|rows| - 1].discordId, threshold, voter);
    }
    PositiveMembership(Tally(votes, rows, threshold), voter);
  }

  /** One voter's row with the credit added to its consensus counters. */
  function Credited(s: VoterStats, c: Credit): VoterStats {
    s.(consensusAgreements := s.consensusAgreements + c.agreements,
       consensusDisagreements := s.consensusDisagreements + c.disagreements)
  }

  /** The statistics after the credits are applied: only voters that already have a row are touched. */
  function ApplyCredits(stats: map<string, VoterStats>, credits: map<string, Credit>): map<string, VoterStats> {
    map k | k in stats :: if k in credits then Credited(stats[k], credits[k]) else stats[k]
  }

  /** Applying credits creates no row, keeps the table well formed and adds each voter's credit to its counters. */
  lemma ApplyCreditsFacts(stats: map<string, VoterStats>, credits: map<string, Credit>)
    requires StatsWellFormed(stats)
    ensures var after := ApplyCredits(stats, credits);
      && after.Keys == stats.Keys
      && StatsWellFormed(after)
      && forall k :: k in stats ==> after[k] == Credited(stats[k], Get(credits, k))
  {
  }

  /** Votes cast strictly before this instant are old enough to be credited. */
  function ConsensusThreshold(cfg: ReputationConfig, now: Time.Instant): Time.Instant {
    now - Time.Days(cfg.consensusDays)
  }

  /** The statistics while the credits are applied, with the voters in `pending` still to do. */
  function PartlyApplied(stats: map<string, VoterStats>, credits: map<string, Credit>, pending: set<string>): map<string, VoterStats> {
    map k | k in stats :: if k in credits && k !in pending then Credited(stats[k], credits[k]) else stats[k]
  }

  /** Applying one pending voter's credit through the statistics upsert moves it out of `pending`. */
  lemma ApplyOne(stats: map<string, VoterStats>, credits: map<string, Credit>, pending: set<string>, voter: string)
    requires StatsWellFormed(stats) && voter in pending && voter in credits
    ensures var current := PartlyApplied(stats, credits, pending);
      && current.Keys == stats.Keys
      && (voter !in stats ==> current == PartlyApplied(stats, credits, pending - {voter}))
      && (voter in stats ==>
            && current[voter] == stats[voter]
            && UpsertStats(current, Credited(current[voter], credits[voter])) == PartlyApplied(stats, credits, pending - {voter}))
  {
    var current := PartlyApplied(stats, credits, pending);
    if voter in stats {
      var next := UpsertStats(current, Credited(current[voter], credits[voter]));
      assert next.Keys == PartlyApplied(stats, credits, pending - {voter}).Keys;
    }
  }

  /** The statistics after one tracking pass at `now`. */
  function ConsensusPass(cfg: ReputationConfig, stats: map<string, VoterStats>, votes: seq<Vote>, caches: seq<Cache>,
                         now: Time.Instant): map<string, VoterStats>
  {
    ApplyCredits(stats, Tally(votes, caches, ConsensusThreshold(cfg, now)))
  }

  /**
   * A pass creates no row, keeps the table well formed, adds to each voter's consensus counters
   * exactly what the reference count says they earn, and changes nothing else.
   */
  lemma TallyCounters(stats: map<string, VoterStats>, votes: seq<Vote>, caches: seq<Cache>, threshold: Time.Instant)
    requires StatsWellFormed(stats)
    ensures var after := ApplyCredits(stats, Tally(votes, caches, threshold));
      && after.Keys == stats.Keys
      && StatsWellFormed(after)
      && forall k :: k in stats ==> after[k] == Credited(stats[k], VoterTally(votes, caches, threshold, k))
  {
    var credits := Tally(votes, caches, threshold);
    ApplyCreditsFacts(stats, credits);
    forall k | k in stats
      ensures Get(credits, k) == VoterTally(votes, caches, threshold, k)
    {
      TallyPerVoter(votes, caches, threshold, k);
    }
  }

  lemma ConsensusPassCounters(cfg: ReputationConfig, stats: map<string, VoterStats>, votes: seq<Vote>, caches: seq<Cache>,
                              now: Time.Instant)
    requires StatsWellFormed(stats)
    ensures var after := ConsensusPass(cfg, stats, votes, caches, now);
      && after.Keys == stats.Keys
      && StatsWellFormed(after)
      && forall k :: k in stats ==> after[k] == Credited(stats[k], VoterTally(votes, caches, ConsensusThreshold(cfg, now), k))
  {
    TallyCounters(stats, votes, caches, ConsensusThreshold(cfg, now));
  }

  /**
   * Nothing records which votes were already credited, so a second pass over unchanged votes
   * credits the same old votes again and every counter grows by twice the earned credit.
   */
  lemma ConsensusPassTwice(cfg: ReputationConfig, stats: map<string, VoterStats>, votes: seq<Vote>, caches: seq<Cache>,
                           now: Time.Instant)
    requires StatsWellFormed(stats)
    ensures var twice := ConsensusPass(cfg, ConsensusPass(cfg, stats, votes, caches, now), votes, caches, now);
      && twice.Keys == stats.Keys
      && forall k :: k in stats ==>
           var c := VoterTally(votes, caches, ConsensusThreshold(cfg, now), k);
           && twice[k].consensusAgreements == stats[k].consensusAgreements + 2 * c.agreements
           && twice[k].consensusDisagreements == stats[k].consensusDisagreements + 2 * c.disagreements
  {
    ConsensusPassCounters(cfg, stats, votes, caches, now);
    ConsensusPassCounters(cfg, ConsensusPass(cfg, stats, votes, caches, now), votes, caches, now);
  }

  // ---------------------------------------------------------------- 24-hour counter reset

  /** The Discord ids the cache table holds rows for. */
  function CacheIds(rows: seq<Cache>): set<string> {
    set c | c in rows :: c.discordId
  }

  /** The statistics after the reset: every voter with a cached score gets its real 24-hour count. */
  function ResetCounts(stats: map<string, VoterStats>, votes: seq<Vote>, rows: seq<Cache>, now: Time.Instant): map<string, VoterStats> {
    map k | k in stats ::
      if k in CacheIds(rows) then stats[k].(votesLast24h := |VotesInTimeframe(votes, k, now - Time.Days(1))|) else stats[k]
  }

  /** One more cached id in the reset: its row, if any, gets the window's size through the statistics upsert. */
  lemma ResetStep(stats: map<string, VoterStats>, votes: seq<Vote>, rows: seq<Cache>, i: int, now: Time.Instant)
    requires StatsWellFormed(stats) && 0 <= i < |rows|
    ensures var current := ResetCounts(stats, votes, rows[..i], now);
      var id := rows[i].discordId;
      var count := |VotesInTimeframe(votes, id, now - Time.Days(1))|;
      var next := ResetCounts(stats, votes, rows[..i + 1], now);
      && (id !in current ==> next == current)
      && (id in current && count == current[id].votesLast24h ==> next == current)
      && (id in current ==> next == UpsertStats(current, current[id].(votesLast24h := count)))
  {
    assert rows[..i + 1] == rows[..i] + [rows[i]];
    assert CacheIds(rows[..i + 1]) == CacheIds(rows[..i]) + {rows[i].discordId};
  }

  /**
   * The reset creates no row, keeps the table well formed and changes only the 24-hour counter;
   * a voter nobody has a cached score for keeps whatever count it had.
   */
  lemma ResetCountsFacts(stats: map<string, VoterStats>, votes: seq<Vote>, rows: seq<Cache>, now: Time.Instant)
    requires StatsWellFormed(stats)
    ensures var after := ResetCounts(stats, votes, rows, now);
      && after.Keys == stats.Keys
      && StatsWellFormed(after)
      && (forall k :: k in stats ==> after[k] == stats[k].(votesLast24h := after[k].votesLast24h))
      && (forall k :: k in stats && k in CacheIds(rows) ==>
            after[k].votesLast24h == |VotesInTimeframe(votes, k, now - Time.Days(1))|)
      && (forall k :: k in stats && k !in CacheIds(rows) ==> after[k] == stats[k])
  {
  }

  /** Running the reset twice is running it once. */
  lemma ResetIdempotent(stats: map<string, VoterStats>, votes: seq<Vote>, rows: seq<Cache>, now: Time.Instant)
    ensures ResetCounts(ResetCounts(stats, votes, rows, now), votes, rows, now) == ResetCounts(stats, votes, rows, now)
  {
    var once := ResetCounts(stats, votes, rows, now);
    var twice := ResetCounts(once, votes, rows, now);
    assert twice.Keys == once.Keys;
    forall k | k in once
      ensures twice[k] == once[k]
    {
    }
  }

  /** The reset undoes the double count a submission leaves: the row holds the size of the window again. */
  lemma ResetUndoesDoubleCount(stats: map<string, VoterStats>, votes: seq<Vote>, rows: seq<Cache>, voter: string,
                               value: int, now: Time.Instant)
    requires voter in stats && voter in CacheIds(rows) && StatsWellFormed(stats)
    ensures var s := NextStats(stats, votes, voter, value, now);
      var after := ResetCounts(UpsertStats(stats, s), votes, rows, now);
      && s.votesLast24h == |VotesInTimeframe(votes, voter, now - Time.Days(1))| + 1
      && after[voter].votesLast24h == s.votesLast24h - 1
  {
  }

  // ---------------------------------------------------------------- the scheduler

  /** `ReputationScheduler`: the jobs over one ledger, run through the manager that shares it. */
  class ReputationScheduler {
    const db: ReputationLedger
    const repManager: ReputationManager
    const cfg: ReputationConfig

    ghost predicate Valid()
      reads db
    {
      repManager.db == db && repManager.cfg == cfg && db.Valid() && WellDefined(cfg)
    }

    /**
     * Keeps its collaborators. The requires is not a check the Java constructor makes: it is the
     * wiring the application sets up, where the scheduler and the manager share one database and
     * one configuration, stated here so that the jobs can rely on it.
     */
    constructor (db: ReputationLedger, repManager: ReputationManager, cfg: ReputationConfig)
      requires repManager.db == db && repManager.cfg == cfg
      ensures this.db == db && this.repManager == repManager && this.cfg == cfg
    {
      this.db := db;
      this.repManager := repManager;
      this.cfg := cfg;
    }

    /** `refreshStaleCache`: recomputes, in table order, every stale row whose target has a newer vote. */
    method RefreshStaleCache(now: Time.Instant) returns (refreshed: nat)
      requires Valid()
      modifies db
      ensures Valid()
      ensures db.votes == old(db.votes) && db.stats == old(db.stats)
      ensures var ids := RefreshTargets(cfg, old(db.votes), old(db.caches), now);
        && db.caches == Refreshed(repManager.n, cfg, old(db.votes), old(db.stats), old(db.caches), ids, now)
        && refreshed == |ids|
    {
      var allCaches := db.caches;
      var staleThreshold := now - Time.Minutes(cfg.cacheStaleMinutes);
      refreshed := 0;
      var i := 0;
      while i < |allCaches|
        invariant 0 <= i <= |allCaches|
        invariant Valid()
        invariant db.votes == old(db.votes) && db.stats == old(db.stats)
        invariant var ids := RefreshTargets(cfg, db.votes, allCaches[..i], now);
          && db.caches == Refreshed(repManager.n, cfg, db.votes, db.stats, allCaches, ids, now)
          && refreshed == |ids|
      {
        RefreshStep(repManager.n, cfg, db.votes, db.stats, allCaches, allCaches, i, now);
        var recalculated := RefreshRow(allCaches[i], staleThreshold, now);
        if recalculated {
          refreshed := refreshed + 1;
        }
        i := i + 1;
      }
      assert allCaches[..i] == allCaches;
    }

    /** The body of the loop of `refreshStaleCache`: recomputes the row's target when the row needs it. */
    method RefreshRow(cache: Cache, staleThreshold: Time.Instant, now: Time.Instant) returns (recalculated: bool)
      requires Valid() && staleThreshold == now - Time.Minutes(cfg.cacheStaleMinutes)
      modifies db
      ensures Valid()
      ensures db.votes == old(db.votes) && db.stats == old(db.stats)
      ensures recalculated == NeedsRefresh(cfg, old(db.votes), cache, now)
      ensures db.caches == if recalculated then Recalculated(repManager.n, cfg, old(repManager.Snap()), cache.discordId, now)
                           else old(db.caches)
    {
      recalculated := false;
      if cache.lastCalculated < staleThreshold {
        var votes := VotesForTarget(db.votes, cache.discordId);
        if votes != [] {
          var hasRecentVotes := exists v :: v in votes && v.votedAt > cache.lastCalculated;
          if hasRecentVotes {
            var _ := repManager.CalculateReputation(cache.discordId, now);
            recalculated := true;
          }
        }
      }
    }

    /** `updateConsensusTracking`: tallies the credits over every cached target, then applies them. */
    method UpdateConsensusTracking(now: Time.Instant)
      requires Valid()
      modifies db
      ensures Valid()
      ensures db.votes == old(db.votes) && db.caches == old(db.caches)
      ensures db.stats == ConsensusPass(cfg, old(db.stats), old(db.votes), old(db.caches), now)
    {
      var consensusThreshold := ConsensusThreshold(cfg, now);
      var allScores := db.caches;
      var voterUpdates: map<string, Credit> := map[];
      var i := 0;
      while i < |allScores|
        invariant 0 <= i <= |allScores|
        invariant voterUpdates == Tally(db.votes, allScores[..i], consensusThreshold)
        invariant db.votes == old(db.votes) && db.caches == old(db.caches) && db.stats == old(db.stats)
      {
        assert allScores[..i + 1][..i] == allScores[..i];
        voterUpdates := CreditOldVotes(voterUpdates, allScores[i].discordId, consensusThreshold);
        i := i + 1;
      }
      assert allScores[..i] == allScores;
      ApplyUpdates(voterUpdates);
    }

    /** The body of the first loop of `updateConsensusTracking`: one target's old votes against its consensus. */
    method CreditOldVotes(credits: map<string, Credit>, id: string, consensusThreshold: Time.Instant)
      returns (voterUpdates: map<string, Credit>)
      requires Valid()
      ensures voterUpdates == CreditTarget(credits, db.votes, id, consensusThreshold)
    {
      voterUpdates := credits;
      var votes := VotesForTarget(db.votes, id);
      var oldVotes := OldVotes(votes, consensusThreshold);
      if oldVotes == [] {
        return;
      }
      var positiveCount := Positives(votes);
      var negativeCount := Negatives(votes);
      var consensusDirection;
      if 2 * positiveCount > 3 * negativeCount {
        consensusDirection := 1;
      } else if 2 * negativeCount > 3 * positiveCount {
        consensusDirection := -1;
      } else {
        consensusDirection := 0;
      }
      if consensusDirection == 0 {
        return;
      }
      voterUpdates := CreditEach(credits, oldVotes, consensusDirection);
    }

    /** The inner loop of `updateConsensusTracking`: credits each old vote to its voter. */
    method CreditEach(credits: map<string, Credit>, oldVotes: seq<Vote>, consensusDirection: int)
      returns (voterUpdates: map<string, Credit>)
      ensures voterUpdates == CreditVotes(credits, oldVotes, consensusDirection)
    {
      voterUpdates := credits;
      var j := 0;
      while j < |oldVotes|
        invariant 0 <= j <= |oldVotes|
        invariant voterUpdates == CreditVotes(credits, oldVotes[..j], consensusDirection)
      {
        assert oldVotes[..j + 1][..j] == oldVotes[..j];
        var vote := oldVotes[j];
        var voterId := vote.voterDiscordId;
        var agrees := (vote.voteValue > 0 && consensusDirection > 0) || (vote.voteValue < 0 && consensusDirection < 0);
        voterUpdates := voterUpdates[voterId := Bump(Get(voterUpdates, voterId), agrees)];
        j := j + 1;
      }
      assert oldVotes[..j] == oldVotes;
    }

    /** The second half of `updateConsensusTracking`: adds each voter's credit to an existing row. */
    method ApplyUpdates(voterUpdates: map<string, Credit>)
      requires Valid()
      modifies db
      ensures Valid()
      ensures db.votes == old(db.votes) && db.caches == old(db.caches)
      ensures db.stats == ApplyCredits(old(db.stats), voterUpdates)
    {
      var pending := voterUpdates.Keys;
      assert PartlyApplied(db.stats, voterUpdates, pending) == db.stats;
      while pending != {}
        invariant Valid()
        invariant pending <= voterUpdates.Keys
        invariant db.votes == old(db.votes) && db.caches == old(db.caches)
        invariant db.stats == PartlyApplied(old(db.stats), voterUpdates, pending)
        decreases |pending|
      {
        var voterId :| voterId in pending;
        ApplyOne(old(db.stats), voterUpdates, pending, voterId);
        if voterId in db.stats {
          var oldStats := db.stats[voterId];
          var update := voterUpdates[voterId];
          var newStats := VoterStats(oldStats.voterDiscordId, oldStats.accountCreatedAt, oldStats.totalVotesCast,
                                     oldStats.positiveVotesCast, oldStats.negativeVotesCast, oldStats.votesLast24h,
                                     oldStats.lastVoteAt, oldStats.consensusAgreements + update.agreements,
                                     oldStats.consensusDisagreements + update.disagreements, oldStats.credibilityScore);
          assert newStats == Credited(oldStats, update);
          db.UpdateVoterStats(newStats);
        }
        pending := pending - {voterId};
      }
      assert PartlyApplied(old(db.stats), voterUpdates, {}) == ApplyCredits(old(db.stats), voterUpdates);
    }

    /** `updateAllPercentiles`: the manager's percentile pass. */
    method UpdateAllPercentiles()
      requires Valid()
      modifies db
      ensures Valid()
      ensures db.caches == RepercentiledAll(old(db.caches))
      ensures db.votes == old(db.votes) && db.stats == old(db.stats)
    {
      repManager.UpdatePercentileRanks();
    }

    /** `resetDaily24hCounts`: rewrites the 24-hour counter of every cached id that has a statistics row. */
    method ResetDaily24hCounts(now: Time.Instant)
      requires Valid()
      modifies db
      ensures Valid()
      ensures db.votes == old(db.votes) && db.caches == old(db.caches)
      ensures db.stats == ResetCounts(old(db.stats), old(db.votes), old(db.caches), now)
    {
      var allScores := db.caches;
      var oneDayAgo := now - Time.Days(1);
      var i := 0;
      while i < |allScores|
        invariant 0 <= i <= |allScores|
        invariant Valid()
        invariant db.votes == old(db.votes) && db.caches == old(db.caches)
        invariant db.stats == ResetCounts(old(db.stats), db.votes, allScores[..i], now)
      {
        var id := allScores[i].discordId;
        ResetStep(old(db.stats), db.votes, allScores, i, now);
        if id in db.stats {
          var oldStats := db.stats[id];
          var recentVotes := VotesInTimeframe(db.votes, id, oneDayAgo);
          if |recentVotes| != oldStats.votesLast24h {
            var newStats := VoterStats(oldStats.voterDiscordId, oldStats.accountCreatedAt, oldStats.totalVotesCast,
                                       oldStats.positiveVotesCast, oldStats.negativeVotesCast, |recentVotes|,
                                       oldStats.lastVoteAt, oldStats.consensusAgreements,
                                       oldStats.consensusDisagreements, oldStats.credibilityScore);
            db.UpdateVoterStats(newStats);
          }
        }
        i := i + 1;
      }
      assert allScores[..i] == allScores;
    }
  }
}

/**
 * The three reputation tables as an in-memory ledger: votes upserted on their
 * (voter, target) key, score caches keyed by Discord id, and voter statistics keyed
 * by voter id.
 */
module Ledger {
  import opened Wrappers
  import Time
  import Text

  /** One row of `reputation_votes`; an empty comment is stored as absent. */
  datatype Vote = Vote(
    id: int,
    voterDiscordId: string,
    targetDiscordId: string,
    voteValue: int,
    comment: Option<string>,
    commentLength: int,
    votedAt: Time.Instant)

  /** One row of `reputation_cache`. */
  datatype Cache = Cache(
    discordId: string,
    totalScore: real,
    displayScore: int,
    lastCalculated: Time.Instant,
    totalVotesReceived: int,
    percentileRank: real)

  /** One row of `reputation_voter_stats`. */
  datatype VoterStats = VoterStats(
    voterDiscordId: string,
    accountCreatedAt: Time.Instant,
    totalVotesCast: int,
    positiveVotesCast: int,
    negativeVotesCast: int,
    votesLast24h: int,
    lastVoteAt: Option<Time.Instant>,
    consensusAgreements: int,
    consensusDisagreements: int,
    credibilityScore: real)

  predicate HasKey(v: Vote, voter: string, target: string) {
    v.voterDiscordId == voter && v.targetDiscordId == target
  }

  /** The `unique_vote` key: no two rows share a (voter, target) pair. */
  predicate UniqueVotes(votes: seq<Vote>) {
    forall i, j :: 0 <= i < j < |votes| ==> !HasKey(votes[j], votes[i].voterDiscordId, votes[i].targetDiscordId)
  }

  /** The primary key of `reputation_cache`. */
  predicate UniqueCaches(caches: seq<Cache>) {
    forall i, j :: 0 <= i < j < |caches| ==> caches[i].discordId != caches[j].discordId
  }

  predicate CountersNonNegative(s: VoterStats) {
    s.totalVotesCast >= 0 && s.positiveVotesCast >= 0 && s.negativeVotesCast >= 0 && s.votesLast24h >= 0
    && s.consensusAgreements >= 0 && s.consensusDisagreements >= 0
  }

  /** Every stats row sits under its own voter id and has no negative counter. */
  predicate StatsWellFormed(stats: map<string, VoterStats>) {
    forall k :: k in stats ==> stats[k].voterDiscordId == k && CountersNonNegative(stats[k])
  }

  /** `getVoteByVoterAndTarget`. */
  function FindVote(votes: seq<Vote>, voter: string, target: string): (r: Option<Vote>)
    ensures r.Some? <==> exists i :: 0 <= i < |votes| && HasKey(votes[i], voter, target)
    ensures r.Some? ==> r.value in votes && HasKey(r.value, voter, target)
  {
    if votes == [] then None
    else if HasKey(votes[0], voter, target) then Some(votes[0])
    else
      var r := FindVote(votes[1..], voter, target);
      assert forall i :: 0 < i < |votes| ==> votes[i] == votes[1..][i - 1];
      r
  }

  /** The row an upsert writes over an existing one: value, comment and time change, the id stays. */
  function Revote(v: Vote, value: int, comment: Option<string>, now: Time.Instant): Vote {
    v.(voteValue := value, comment := StoredComment(comment), commentLength := StoredLength(comment), votedAt := now)
  }

  function StoredComment(comment: Option<string>): Option<string> {
    if comment.Some? && comment.value != [] then comment else None
  }

  function StoredLength(comment: Option<string>): int {
    if comment.Some? && comment.value != [] then Text.Utf16Length(comment.value) else 0
  }

  /** `addOrUpdateVote`: insert, or on a duplicate (voter, target) key overwrite that row in place. */
  function UpsertVote(votes: seq<Vote>, voter: string, target: string, value: int, comment: Option<string>,
                      now: Time.Instant, newId: int): seq<Vote>
  {
    if votes == [] then
      [Vote(newId, voter, target, value, StoredComment(comment), StoredLength(comment), now)]
    else if HasKey(votes[0], voter, target) then
      [Revote(votes[0], value, comment, now)] + votes[1..]
    else
      [votes[0]] + UpsertVote(votes[1..], voter, target, value, comment, now, newId)
  }

  /** Putting a row in front of a unique table keeps it unique when its key is not in the table. */
  lemma ConsUniqueVotes(first: Vote, tail: seq<Vote>)
    requires UniqueVotes(tail)
    requires forall v :: v in tail ==> !HasKey(v, first.voterDiscordId, first.targetDiscordId)
    ensures UniqueVotes([first] + tail)
  {
    var all := [first] + tail;
    forall i, j | 0 <= i < j < |all|
      ensures !HasKey(all[j], all[i].voterDiscordId, all[i].targetDiscordId)
    {
      assert all[j] == tail[j - 1] && tail[j - 1] in tail;
      if i > 0 { assert all[i] == tail[i - 1]; }
    }
  }

  /** The unique key survives dropping the first row, whose key the rest does not repeat. */
  lemma UniqueVotesTail(votes: seq<Vote>)
    requires UniqueVotes(votes) && votes != []
    ensures UniqueVotes(votes[1..])
    ensures forall v :: v in votes[1..] ==> !HasKey(v, votes[0].voterDiscordId, votes[0].targetDiscordId)
  {
    var rest := votes[1..];
    forall i, j | 0 <= i < j < |rest|
      ensures !HasKey(rest[j], rest[i].voterDiscordId, rest[i].targetDiscordId)
    {
      assert rest[i] == votes[i + 1] && rest[j] == votes[j + 1];
    }
    forall v | v in rest
      ensures !HasKey(v, votes[0].voterDiscordId, votes[0].targetDiscordId)
    {
      var k :| 0 <= k < |rest| && rest[k] == v;
      assert votes[k + 1] == v;
    }
  }

  /** An upsert adds no row except under the written key, and grows the table only on an insert. */
  lemma {:induction false} UpsertVoteRows(votes: seq<Vote>, voter: string, target: string, value: int,
                                          comment: Option<string>, now: Time.Instant, newId: int)
    ensures var after := UpsertVote(votes, voter, target, value, comment, now, newId);
      && (forall v :: v in after ==> v in votes || HasKey(v, voter, target))
      && |after| == |votes| + (if FindVote(votes, voter, target).Some? then 0 else 1)
  {
    if votes != [] && !HasKey(votes[0], voter, target) {
      UpsertVoteRows(votes[1..], voter, target, value, comment, now, newId);
      assert forall v :: v in votes[1..] ==> v in votes;
    }
  }

  /**
   * After an upsert the key holds the written row (the old id kept, or the new id), and every
   * other key is found as before.
   */
  lemma {:induction false} UpsertVoteFind(votes: seq<Vote>, voter: string, target: string, value: int,
                                          comment: Option<string>, now: Time.Instant, newId: int)
    ensures var after := UpsertVote(votes, voter, target, value, comment, now, newId);
      var before := FindVote(votes, voter, target);
      && FindVote(after, voter, target) ==
           Some(if before.Some? then Revote(before.value, value, comment, now)
                else Vote(newId, voter, target, value, StoredComment(comment), StoredLength(comment), now))
      && (forall x, y :: !(x == voter && y == target) ==> FindVote(after, x, y) == FindVote(votes, x, y))
  {
    var after := UpsertVote(votes, voter, target, value, comment, now, newId);
    if votes != [] {
      if HasKey(votes[0], voter, target) {
        assert after[1..] == votes[1..];
      } else {
        UpsertVoteFind(votes[1..], voter, target, value, comment, now, newId);
        assert after[1..] == UpsertVote(votes[1..], voter, target, value, comment, now, newId);
      }
    }
  }

  /** An upsert keeps the (voter, target) key unique. */
  lemma {:induction false} UpsertVoteUnique(votes: seq<Vote>, voter: string, target: string, value: int,
                                            comment: Option<string>, now: Time.Instant, newId: int)
    requires UniqueVotes(votes)
    ensures UniqueVotes(UpsertVote(votes, voter, target, value, comment, now, newId))
  {
    if votes != [] {
      UniqueVotesTail(votes);
      if HasKey(votes[0], voter, target) {
        ConsUniqueVotes(Revote(votes[0], value, comment, now), votes[1..]);
      } else {
        var tail := UpsertVote(votes[1..], voter, target, value, comment, now, newId);
        UpsertVoteUnique(votes[1..], voter, target, value, comment, now, newId);
        UpsertVoteRows(votes[1..], voter, target, value, comment, now, newId);
        ConsUniqueVotes(votes[0], tail);
      }
    }
  }

  /** Without a row under the key, an upsert appends the new row at the end. */
  lemma {:induction false} UpsertVoteAppends(votes: seq<Vote>, voter: string, target: string, value: int,
                                             comment: Option<string>, now: Time.Instant, newId: int)
    requires FindVote(votes, voter, target).None?
    ensures UpsertVote(votes, voter, target, value, comment, now, newId)
      == votes + [Vote(newId, voter, target, value, StoredComment(comment), StoredLength(comment), now)]
  {
    if votes != [] {
      UpsertVoteAppends(votes[1..], voter, target, value, comment, now, newId);
      assert votes == [votes[0]] + votes[1..];
    }
  }

  /** `getVotesForTarget`: the rows on one target, in table order. */
  function VotesForTarget(votes: seq<Vote>, target: string): seq<Vote> {
    if votes == [] then []
    else (if votes[0].targetDiscordId == target then [votes[0]] else []) + VotesForTarget(votes[1..], target)
  }

  /** A row is among a target's votes exactly when it is in the table and on that target. */
  lemma {:induction false} VotesForTargetMembers(votes: seq<Vote>, target: string)
    ensures forall v :: v in VotesForTarget(votes, target) <==> v in votes && v.targetDiscordId == target
    ensures |VotesForTarget(votes, target)| <= |votes|
  {
    if votes != [] {
      VotesForTargetMembers(votes[1..], target);
      assert forall v :: v in votes <==> v == votes[0] || v in votes[1..];
    }
  }

  /** Rows in `ORDER BY voted_at DESC` order: no row is newer than one before it. */
  predicate NewestOrdered(s: seq<Vote>) {
    forall i, j :: 0 <= i < j < |s| ==> s[j].votedAt <= s[i].votedAt
  }

  /** A row no older than every row of an ordered sequence can lead it. */
  lemma PrependOrdered(x: Vote, s: seq<Vote>)
    requires NewestOrdered(s)
    requires forall y :: y in s ==> y.votedAt <= x.votedAt
    ensures NewestOrdered([x] + s)
  {
    forall i, j | 0 <= i < j < |[x] + s|
      ensures ([x] + s)[j].votedAt <= ([x] + s)[i].votedAt
    {
      assert ([x] + s)[j] == s[j - 1];
      if i > 0 {
        assert ([x] + s)[i] == s[i - 1];
      } else {
        assert s[j - 1] in s;
      }
    }
  }

  /** Places `v` before the first row that is not newer than it. */
  function InsertByTime(v: Vote, s: seq<Vote>): seq<Vote> {
    if s == [] || s[0].votedAt <= v.votedAt then [v] + s
    else [s[0]] + InsertByTime(v, s[1..])
  }

  /** Inserting into an ordered sequence adds exactly that row and keeps the order. */
  lemma {:induction false} InsertByTimeKeepsOrder(v: Vote, s: seq<Vote>)
    requires NewestOrdered(s)
    ensures multiset(InsertByTime(v, s)) == multiset(s) + multiset{v}
    ensures NewestOrdered(InsertByTime(v, s))
  {
    if s == [] || s[0].votedAt <= v.votedAt {
      forall y | y in s
        ensures y.votedAt <= v.votedAt
      {
        var k :| 0 <= k < |s| && s[k] == y;
      }
      PrependOrdered(v, s);
    } else {
      var rest := InsertByTime(v, s[1..]);
      InsertByTimeKeepsOrder(v, s[1..]);
      assert s == [s[0]] + s[1..];
      forall y | y in rest
        ensures y.votedAt <= s[0].votedAt
      {
        assert y in multiset(rest);
        if y != v {
          assert y in multiset(s[1..]);
          var k :| 0 <= k < |s[1..]| && s[1..][k] == y;
          assert s[k + 1] == y;
        }
      }
      PrependOrdered(s[0], rest);
    }
  }

  /**
   * The order of `getVotesForTarget` and `getRecentVotes` (`ORDER BY voted_at DESC`): the same
   * rows, newest first. Rows cast at the same instant keep their table order.
   */
  function NewestFirst(votes: seq<Vote>): (r: seq<Vote>)
    ensures multiset(r) == multiset(votes)
    ensures NewestOrdered(r)
  {
    if votes == [] then []
    else
      var rest := NewestFirst(votes[1..]);
      InsertByTimeKeepsOrder(votes[0], rest);
      assert votes == [votes[0]] + votes[1..];
      InsertByTime(votes[0], rest)
  }

  /** In an ordered sequence, no row after a cut is newer than a row before it. */
  lemma OrderedCut(s: seq<Vote>, m: nat)
    requires NewestOrdered(s) && m <= |s|
    ensures forall v, k :: v in s[m..] && k in s[..m] ==> v.votedAt <= k.votedAt
  {
    forall v, k | v in s[m..] && k in s[..m]
      ensures v.votedAt <= k.votedAt
    {
      var j :| 0 <= j < |s[m..]| && s[m..][j] == v;
      var i :| 0 <= i < m && s[..m][i] == k;
      assert s[m + j] == v && s[i] == k;
    }
  }

  /** Appending a row appends it to its target's votes and to no other target's. */
  lemma {:induction false} VotesForTargetAppend(votes: seq<Vote>, v: Vote, target: string)
    ensures VotesForTarget(votes + [v], target)
      == VotesForTarget(votes, target) + (if v.targetDiscordId == target then [v] else [])
  {
    if votes != [] {
      assert (votes + [v])[1..] == votes[1..] + [v];
      VotesForTargetAppend(votes[1..], v, target);
    }
  }

  /** Votes whose voters are pairwise different. */
  predicate DistinctVoters(votes: seq<Vote>) {
    forall i, j :: 0 <= i < j < |votes| ==> votes[i].voterDiscordId != votes[j].voterDiscordId
  }

  /** Under the unique key, the votes on one target come from pairwise different voters. */
  lemma {:induction false} TargetVotersDistinct(votes: seq<Vote>, target: string)
    requires UniqueVotes(votes)
    ensures DistinctVoters(VotesForTarget(votes, target))
  {
    if votes != [] {
      var rest := votes[1..];
      UniqueVotesTail(votes);
      TargetVotersDistinct(rest, target);
      var tail := VotesForTarget(rest, target);
      if votes[0].targetDiscordId == target {
        VotesForTargetMembers(rest, target);
        FirstVoterNotRepeated(votes[0], tail);
      } else {
        assert VotesForTarget(votes, target) == tail;
      }
    }
  }

  lemma FirstVoterNotRepeated(first: Vote, tail: seq<Vote>)
    requires DistinctVoters(tail)
    requires forall v :: v in tail ==> v.targetDiscordId == first.targetDiscordId
    requires forall v :: v in tail ==> !HasKey(v, first.voterDiscordId, first.targetDiscordId)
    ensures DistinctVoters([first] + tail)
  {
    var tv := [first] + tail;
    forall i, j | 0 <= i < j < |tv|
      ensures tv[i].voterDiscordId != tv[j].voterDiscordId
    {
      assert tv[j] == tail[j - 1] && tail[j - 1] in tail;
      if i > 0 { assert tv[i] == tail[i - 1]; }
    }
  }

  /** `getVotesInTimeframe`: a voter's rows cast at or after `since`. */
  function VotesInTimeframe(votes: seq<Vote>, voter: string, since: Time.Instant): seq<Vote> {
    if votes == [] then []
    else (if votes[0].voterDiscordId == voter && votes[0].votedAt >= since then [votes[0]] else [])
         + VotesInTimeframe(votes[1..], voter, since)
  }

  /** A row is in the window exactly when it is the voter's and not older than `since`. */
  lemma {:induction false} VotesInTimeframeMembers(votes: seq<Vote>, voter: string, since: Time.Instant)
    ensures forall v :: v in VotesInTimeframe(votes, voter, since) <==>
      v in votes && v.voterDiscordId == voter && v.votedAt >= since
  {
    if votes != [] {
      VotesInTimeframeMembers(votes[1..], voter, since);
      assert forall v :: v in votes <==> v == votes[0] || v in votes[1..];
    }
  }

  /** `getReputationCache`. */
  function FindCache(caches: seq<Cache>, id: string): (r: Option<Cache>)
    ensures r.Some? <==> exists i :: 0 <= i < |caches| && caches[i].discordId == id
    ensures r.Some? ==> r.value in caches && r.value.discordId == id
  {
    if caches == [] then None
    else if caches[0].discordId == id then Some(caches[0])
    else
      var r := FindCache(caches[1..], id);
      assert forall i :: 0 < i < |caches| ==> caches[i] == caches[1..][i - 1];
      r
  }

  /** `updateReputationCache`: insert, or overwrite the row with the same Discord id in place. */
  function UpsertCache(caches: seq<Cache>, c: Cache): seq<Cache> {
    if caches == [] then [c]
    else if caches[0].discordId == c.discordId then [c] + caches[1..]
    else [caches[0]] + UpsertCache(caches[1..], c)
  }

  lemma ConsUniqueCaches(first: Cache, tail: seq<Cache>)
    requires UniqueCaches(tail)
    requires forall c :: c in tail ==> c.discordId != first.discordId
    ensures UniqueCaches([first] + tail)
  {
    var all := [first] + tail;
    forall i, j | 0 <= i < j < |all|
      ensures all[i].discordId != all[j].discordId
    {
      assert all[j] == tail[j - 1] && tail[j - 1] in tail;
      if i > 0 { assert all[i] == tail[i - 1]; }
    }
  }

  lemma UniqueCachesTail(caches: seq<Cache>)
    requires UniqueCaches(caches) && caches != []
    ensures UniqueCaches(caches[1..])
    ensures forall c :: c in caches[1..] ==> c.discordId != caches[0].discordId
  {
    var rest := caches[1..];
    forall i, j | 0 <= i < j < |rest|
      ensures rest[i].discordId != rest[j].discordId
    {
      assert rest[i] == caches[i + 1] && rest[j] == caches[j + 1];
    }
    forall c | c in rest
      ensures c.discordId != caches[0].discordId
    {
      var k :| 0 <= k < |rest| && rest[k] == c;
      assert caches[k + 1] == c;
    }
  }

  /** An upsert adds no row except the written one, and grows the table only on an insert. */
  lemma {:induction false} UpsertCacheRows(caches: seq<Cache>, c: Cache)
    ensures var after := UpsertCache(caches, c);
      && (forall x :: x in after ==> x in caches || x == c)
      && |after| == |caches| + (if FindCache(caches, c.discordId).Some? then 0 else 1)
  {
    if caches != [] && caches[0].discordId != c.discordId {
      UpsertCacheRows(caches[1..], c);
      assert forall x :: x in caches[1..] ==> x in caches;
    }
  }

  /** After an upsert the id holds the written row and every other id is found as before. */
  lemma {:induction false} UpsertCacheFind(caches: seq<Cache>, c: Cache)
    ensures FindCache(UpsertCache(caches, c), c.discordId) == Some(c)
    ensures forall id :: id != c.discordId ==> FindCache(UpsertCache(caches, c), id) == FindCache(caches, id)
  {
    var after := UpsertCache(caches, c);
    if caches != [] {
      if caches[0].discordId == c.discordId {
        assert after[1..] == caches[1..];
      } else {
        UpsertCacheFind(caches[1..], c);
        assert after[1..] == UpsertCache(caches[1..], c);
      }
    }
  }

  /** Under the primary key, writing a row whose id sits at index `i` replaces exactly that index. */
  lemma {:induction false} UpsertCacheAt(caches: seq<Cache>, i: int, c: Cache)
    requires UniqueCaches(caches) && 0 <= i < |caches| && caches[i].discordId == c.discordId
    ensures UpsertCache(caches, c) == caches[i := c]
  {
    if i > 0 {
      UniqueCachesTail(caches);
      assert caches[1..][i - 1] == caches[i];
      UpsertCacheAt(caches[1..], i - 1, c);
      assert caches[i := c] == [caches[0]] + caches[1..][i - 1 := c];
    }
  }

  /** An upsert keeps the Discord id unique. */
  lemma {:induction false} UpsertCacheUnique(caches: seq<Cache>, c: Cache)
    requires UniqueCaches(caches)
    ensures UniqueCaches(UpsertCache(caches, c))
  {
    if caches != [] {
      UniqueCachesTail(caches);
      if caches[0].discordId == c.discordId {
        ConsUniqueCaches(c, caches[1..]);
      } else {
        UpsertCacheUnique(caches[1..], c);
        UpsertCacheRows(caches[1..], c);
        ConsUniqueCaches(caches[0], UpsertCache(caches[1..], c));
      }
    }
  }

  /** `updateVoterStats`: the duplicate-key branch rewrites every column except `account_created_at`. */
  function UpsertStats(stats: map<string, VoterStats>, s: VoterStats): (r: map<string, VoterStats>)
    ensures r.Keys == stats.Keys + {s.voterDiscordId}
    ensures forall k :: k in stats && k != s.voterDiscordId ==> r[k] == stats[k]
    ensures s.voterDiscordId !in stats ==> r[s.voterDiscordId] == s
    ensures s.voterDiscordId in stats ==>
      r[s.voterDiscordId] == s.(accountCreatedAt := stats[s.voterDiscordId].accountCreatedAt)
  {
    var k := s.voterDiscordId;
    stats[k := if k in stats then s.(accountCreatedAt := stats[k].accountCreatedAt) else s]
  }

  /** The reputation tables. */
  class ReputationLedger {
    var votes: seq<Vote>
    var caches: seq<Cache>
    var stats: map<string, VoterStats>
    /** The id the next inserted vote row receives. */
    var nextVoteId: int

    ghost predicate Valid()
      reads this
    {
      UniqueVotes(votes) && UniqueCaches(caches) && StatsWellFormed(stats)
    }

    constructor ()
      ensures Valid()
      ensures votes == [] && caches == [] && stats == map[] && nextVoteId == 1
    {
      votes := [];
      caches := [];
      stats := map[];
      nextVoteId := 1;
    }

    /** `addOrUpdateVote`; `writeOk` is whether the statement succeeds. */
    method AddOrUpdateVote(voter: string, target: string, value: int, comment: Option<string>,
                           now: Time.Instant, writeOk: bool) returns (success: bool)
      requires Valid()
      modifies this
      ensures Valid()
      ensures success == writeOk
      ensures votes == if success then UpsertVote(old(votes), voter, target, value, comment, now, old(nextVoteId)) else old(votes)
      ensures caches == old(caches) && stats == old(stats)
    {
      if !writeOk {
        return false;
      }
      UpsertVoteUnique(votes, voter, target, value, comment, now, nextVoteId);
      var inserted := FindVote(votes, voter, target).None?;
      votes := UpsertVote(votes, voter, target, value, comment, now, nextVoteId);
      if inserted {
        nextVoteId := nextVoteId + 1;
      }
      success := true;
    }

    /** `updateReputationCache`. */
    method UpdateReputationCache(c: Cache)
      requires Valid()
      modifies this
      ensures Valid()
      ensures caches == UpsertCache(old(caches), c)
      ensures votes == old(votes) && stats == old(stats) && nextVoteId == old(nextVoteId)
    {
      UpsertCacheUnique(caches, c);
      caches := UpsertCache(caches, c);
    }

    /** `updateVoterStats`. */
    method UpdateVoterStats(s: VoterStats)
      requires Valid() && CountersNonNegative(s)
      modifies this
      ensures Valid()
      ensures stats == UpsertStats(old(stats), s)
      ensures votes == old(votes) && caches == old(caches) && nextVoteId == old(nextVoteId)
    {
      stats := UpsertStats(stats, s);
    }
  }
}

# Sentinel core in Dafny

This project models the decision-making core of Sentinel, a Minecraft/Hytale login gate backed by
Discord account links, and proves properties of that model. The core covered here consists of:

- **Reputation engine** (`ReputationManager`). It validates and records peer votes and keeps
  per-voter statistics. It scores a member as the sum of value × weight over the votes they
  received. Each weight is the product of seven factors:
  - time decay;
  - voter credibility, which combines account age, direction skew, a spam dampener, the voter's
    own reputation and the consensus agreement rate;
  - comment quality;
  - reciprocal-vote and brigading penalties;
  - side diversity;
  - a progressive percentile adjustment;
  - small-server scaling.

  It normalises the score to a display value and a percentile rank, and serves it through a
  read-through cache with a staleness threshold.
- **Periodic jobs** (`ReputationScheduler`): refresh stale caches, credit voters with consensus
  agreements or disagreements, re-rank percentiles, and re-sync the 24-hour vote counters.
- **Durations** (`DurationParser`): parse `<digits><s|m|h|d|w>` into seconds or an expiry, and
  format a number of seconds as `Nw Nd Nh Nm Ns`.
- **Quarantines** (`QuarantineInfo`): permanence, activity, remaining seconds and the
  remaining-time text.
- **Impersonation registry** (`ImpersonationManager`): pending impersonations, the active
  impersonated → original map, and a case-insensitive allow-list.
- **Login decision chain** (`LoginHandler.handleLogin`). Its order is:
  1. impersonation resolution;
  2. bypass host;
  3. linked check;
  4. Discord-left, which deletes the link rows of a user found in no guild unless they have moderation history;
  5. expired-quarantine cleanup;
  6. active quarantine;
  7. Terms of Service;
  8. allow.

  Every call ends in exactly one allow or one deny with a `DenialReason`.
- **Terms of Service** (`TosManager`): whether a member has agreed to the current version,
  recording an attestation, and seeding a version's content.

## Representation

- The SQL ledger is an in-memory `ReputationLedger` class:
  - `votes`: a sequence of rows, unique on the (voter, target) key;
  - `caches`: a sequence, unique on the Discord id;
  - `stats`: a map keyed by voter id.

  The link, quarantine and Terms-of-Service tables are small classes of maps. A failing write is
  modelled by a `writeOk` parameter. In the login chain, each of eight calls whose SQL can fail has a `CallSite`, and the failing ones form a `faults` set: `isLinked`, `getDiscordId`, the quarantine read, the ToS attestation read, `savePendingCode`, `updateUsername`, the link removal and the expired-quarantine cleanup. Each catches its own error and falls back. A failed read answers false, no id, no active quarantine or no attestation, and a failed write changes nothing.
- Instants are integer epoch milliseconds. The clock is a `now` parameter.
  - `Duration.toDays`/`toMinutes` are whole seconds followed by Java's truncating division
    (`Time.JavaDiv`).
  - `Math.round(x)` is `floor(x + 0.5)`.
- `Math.exp`, `Math.tanh` and `Math.pow(x, 0.5)` are the fields of a `Numerics` parameter.
  Lemmas that need their shape assume it explicitly, for example `tanh` in (−1, 1) or `exp`
  monotone.
- Each factor of the vote weight is a pure function. The vote weight is their product, held in a
  `Factors` record. The score is `WeightedSum`, a left fold that mirrors the accumulation loop.
- The loops of the Java code are methods with loop invariants. They are proved equal to the
  specification functions (`Recalculated`, `RepercentiledAll`, `Refreshed`, `ConsensusPass`,
  `ResetCounts`), and the properties are lemmas about those functions.
- The mutable `ConsensusUpdate` objects of the consensus job are the `Credit` value held in a map
  that the methods reassign.

Where the code and its comments or documentation disagree, the model follows the code:

- The voter's own-reputation multiplier reaches 1.25 at display score 100 and 0.75 at −100. The
  comments say 1.5 and 0.5.
- A voter's first vote weighs 0, because the account-age factor of a brand-new voter is 0.
- `votesLast24h` is written as the 24-hour window count + 1. The window already contains the vote
  just stored, so that vote is counted twice until the daily re-sync.
- Under the unique (voter, target) key, the diversity multiplier is always 1.
- Vague-comment patterns are matched as configured, without lower-casing the pattern.
- The percentile of a recomputed score is ranked against the scores read before the new cache
  row is written.
- The consensus job credits every old vote on every run. Nothing records that a vote was already
  credited.
- The 24-hour re-sync walks the ids of the cache rows (the vote targets), not the voters.

## Model

| member | source | states |
|---|---|---|
| Text.Utf16Length | core/src/main/java/world/landfall/sentinel/reputation/ReputationManager.java:239 | `String.length()`: at least the number of chars and at most twice it, zero exactly for the empty string |
| Text.Utf16LengthOfBmp | core/src/main/java/world/landfall/sentinel/reputation/ReputationManager.java:239 | text within the Basic Multilingual Plane has one code unit per char |
| Text.Utf16LengthOfSupplementary | core/src/main/java/world/landfall/sentinel/db/DatabaseManager.java:875 | text of supplementary chars has two code units per char |
| DurationParser.UnitSeconds | src/main/java/com/confect1on/sentinel/util/DurationParser.java:39-46 | each of the five unit letters maps to a positive number of seconds |
| DurationParser.ParseDurationToSeconds | src/main/java/com/confect1on/sentinel/util/DurationParser.java:26-47 | the result is −1 exactly when the input is null or its trimmed, lower-cased form is not one or more digits followed by a unit letter; otherwise it is non-negative |
| DurationParser.ParsePrinted | src/main/java/com/confect1on/sentinel/util/DurationParser.java:36-46 | the parse of the decimal text of n followed by unit u is n times the seconds of u |
| DurationParser.ParseIgnoresPaddingAndCase | src/main/java/com/confect1on/sentinel/util/DurationParser.java:31 | for every input, padding it on either side with chars up to U+0020 or lower-casing it does not change the parse |
| Text.TrimPadded | src/main/java/com/confect1on/sentinel/util/DurationParser.java:31 | `trim()` of a string padded on both sides with chars up to U+0020 equals the trim of the bare string |
| DurationParser.ParseTrimsControlChars | src/main/java/com/confect1on/sentinel/util/DurationParser.java:27-31 | example of the padding rule: "\t15m\n" is 900 s |
| DurationParser.ParseRejectsNonDigitBeforeUnit | src/main/java/com/confect1on/sentinel/util/DurationParser.java:31-34 | for every input, a non-digit anywhere before the last char of the trimmed, lower-cased text (a sign, a second unit) gives −1 |
| DurationParser.ParseRejectsCompound | src/main/java/com/confect1on/sentinel/util/DurationParser.java:31-34 | example: the compound duration "1h30m" gives −1 |
| DurationParser.ParseRejectsSign | src/main/java/com/confect1on/sentinel/util/DurationParser.java:31-34 | example: the signed amount "-5m" gives −1 |
| DurationParser.ParseRejectsEmpty | src/main/java/com/confect1on/sentinel/util/DurationParser.java:27-34 | null gives −1, and so does every input whose trimmed text has fewer than two chars (blank, or a bare unit) |
| DurationParser.IsValidDuration | src/main/java/com/confect1on/sentinel/util/DurationParser.java:99-101 | valid exactly when the input matches the pattern with a positive amount |
| DurationParser.PrintedValidIffPositive | src/main/java/com/confect1on/sentinel/util/DurationParser.java:99-101 | for every amount and unit, the printed duration is valid exactly when the amount is positive, so "0m" is not |
| DurationParser.ParseDurationToExpiry | src/main/java/com/confect1on/sentinel/util/DurationParser.java:55-61 | no expiry exactly when the duration is not valid; otherwise the expiry lies after now by exactly the parsed number of epoch seconds |
| DurationParser.BreakdownRecomposes | src/main/java/com/confect1on/sentinel/util/DurationParser.java:74-81 | weeks, days, hours, minutes and seconds recompose to the input, with days < 7, hours < 24, minutes < 60 and seconds < 60 |
| DurationParser.FormatShape | src/main/java/com/confect1on/sentinel/util/DurationParser.java:83-90 | for a positive total the text is non-empty and has no leading or trailing space |
| DurationParser.FormatDuration | src/main/java/com/confect1on/sentinel/util/DurationParser.java:69-91 | "0s" for a non-positive input; otherwise the space-joined non-zero components in w, d, h, m, s order |
| DurationParser.FormatParsesBack | src/main/java/com/confect1on/sentinel/util/DurationParser.java:69-91 | parsing each token of the formatted text and summing gives back the input seconds |
| Quarantine.IsActive | core/src/main/java/world/landfall/sentinel/db/QuarantineInfo.java:15-17 | a permanent quarantine is active; a timed one exactly while now is strictly before its expiry |
| Quarantine.IsPermanent | core/src/main/java/world/landfall/sentinel/db/QuarantineInfo.java:22-24 | permanent exactly when there is no expiry; a permanent quarantine is active at every instant; a timed one is no longer active at its own expiry |
| Quarantine.ExpiryIsFinal | core/src/main/java/world/landfall/sentinel/db/QuarantineInfo.java:15-17 | an inactive quarantine is timed, and stays inactive at every later instant |
| Quarantine.RemainingSeconds | core/src/main/java/world/landfall/sentinel/db/QuarantineInfo.java:29-35 | −1 exactly when permanent; otherwise never negative, 0 exactly when the expiry's epoch second is not after now's, and a positive value added to now's epoch second gives the expiry's |
| Quarantine.FormattedTimeRemaining | core/src/main/java/world/landfall/sentinel/db/QuarantineInfo.java:40-48 | "Permanent" exactly when permanent; "Expired" exactly when timed with no seconds left |
| Quarantine.InactiveShowsExpired | core/src/main/java/world/landfall/sentinel/db/QuarantineInfo.java:15-48 | an inactive quarantine has 0 seconds left and shows "Expired" |
| Quarantine.ActiveCanShowExpired | core/src/main/java/world/landfall/sentinel/db/QuarantineInfo.java:15-17 | a quarantine that expires within the current second is still active yet already shows "Expired" |
| Quarantine.RemainingNeverGrows | core/src/main/java/world/landfall/sentinel/db/QuarantineInfo.java:15-35 | as time advances the remaining seconds do not grow, and a quarantine active later was active earlier |
| Quarantine.RemainingAtIssue | core/src/main/java/world/landfall/sentinel/db/QuarantineInfo.java:29-35 | a quarantine issued with a valid duration is active at issue and has exactly that duration left |
| Quarantine.ClockTextStartsWithDigit | core/src/main/java/world/landfall/sentinel/db/QuarantineInfo.java:50-63 | the remaining-time text starts with a digit, so it never reads as "Permanent" or "Expired" |
| Quarantine.ClockTextParsesBack | core/src/main/java/world/landfall/sentinel/db/QuarantineInfo.java:50-63 | the tokens of the text sum back to the remaining seconds, except that seconds are dropped once an hour or more is left |
| Impersonation.AllowedNamesMembership | src/main/java/com/confect1on/sentinel/impersonation/ImpersonationManager.java:21-31 | a name is in the built allow-list exactly when some non-null, non-blank entry lower-cases to it |
| Impersonation.AllowedNamesAreLowerCase | src/main/java/com/confect1on/sentinel/impersonation/ImpersonationManager.java:27 | every name in the built allow-list is already lower case |
| Impersonation.ImpersonationManager.constructor | src/main/java/com/confect1on/sentinel/impersonation/ImpersonationManager.java:16-19 | starts with no pending, no active and no allowed users |
| Impersonation.ImpersonationManager.SetAllowedUsers | src/main/java/com/confect1on/sentinel/impersonation/ImpersonationManager.java:21-31 | replaces the whole allow-list (empty for a null array) and leaves both maps unchanged |
| Impersonation.ImpersonationManager.AddImpersonation | src/main/java/com/confect1on/sentinel/impersonation/ImpersonationManager.java:37-41 | sets (or overwrites) only the pending entry of the original UUID |
| Impersonation.ImpersonationManager.GetImpersonation | src/main/java/com/confect1on/sentinel/impersonation/ImpersonationManager.java:43-45 | present exactly when a pending entry exists, and then is that entry |
| Impersonation.ImpersonationManager.RemoveImpersonation | src/main/java/com/confect1on/sentinel/impersonation/ImpersonationManager.java:47-49 | returns the previous pending entry, if any, and removes only that key |
| Impersonation.ImpersonationManager.ClearImpersonation | src/main/java/com/confect1on/sentinel/impersonation/ImpersonationManager.java:55-59 | removes only that pending key and touches nothing else |
| Impersonation.ImpersonationManager.SetActiveImpersonation | src/main/java/com/confect1on/sentinel/impersonation/ImpersonationManager.java:65-68 | maps the impersonated UUID to the original and changes only the active map |
| Impersonation.ImpersonationManager.GetOriginalUuid | src/main/java/com/confect1on/sentinel/impersonation/ImpersonationManager.java:70-72 | present exactly when the UUID is being impersonated, and then is its original |
| Impersonation.ImpersonationManager.RemoveActiveImpersonation | src/main/java/com/confect1on/sentinel/impersonation/ImpersonationManager.java:78-83 | removes only that active key and changes neither the pending map nor the allow-list |
| Impersonation.AddThenGet | src/main/java/com/confect1on/sentinel/impersonation/ImpersonationManager.java:37-45 | after an add, the entry is found and reported present, and every other UUID reads as before |
| Impersonation.RemoveThenGet | src/main/java/com/confect1on/sentinel/impersonation/ImpersonationManager.java:47-63 | after a removal the entry is gone and every other UUID reads as before |
| Impersonation.ActivateThenResolve | src/main/java/com/confect1on/sentinel/impersonation/ImpersonationManager.java:65-76 | after activation the UUID is impersonating and resolves to the original; other keys are untouched |
| Impersonation.AllowedIgnoresCase | src/main/java/com/confect1on/sentinel/impersonation/ImpersonationManager.java:33-35 | a user is allowed exactly when some kept entry equals their name up to case |
| Login.StillInServer | core/src/main/java/world/landfall/sentinel/LoginHandler.java:192-200 | a missing Discord id counts as gone; otherwise the user is still present unless the lookup says they are not a member |
| Login.ActiveQuarantine | core/src/main/java/world/landfall/sentinel/discord/QuarantineChecker.java:52-77 | found exactly when the user has a quarantine row that is active now |
| Login.CleanupKeepsActiveQuarantine | core/src/main/java/world/landfall/sentinel/discord/QuarantineChecker.java:247-287 | cleaning up an expired quarantine never removes an active one, so the quarantine check gives the same answer before and after |
| Login.QuarantineStore.CheckAndCleanupExpiredQuarantine | core/src/main/java/world/landfall/sentinel/discord/QuarantineChecker.java:247-287 | deletes the user's row exactly when it is timed and expired and the cleanup's calls succeed (a failure removes nothing), and reports whether it deleted |
| Login.QuarantineStore.GetQuarantineInfo | core/src/main/java/world/landfall/sentinel/discord/QuarantineChecker.java:52-71 | returns the user's active quarantine, if any; a failed read answers none |
| Login.LinkStore.GetDiscordId | core/src/main/java/world/landfall/sentinel/db/DatabaseManager.java:424-447 | present exactly when a Discord id is stored for the account, and then is that id |
| Login.LinkStore.SavePendingCode | core/src/main/java/world/landfall/sentinel/db/DatabaseManager.java:255-278 | replaces only that account's pending code; a failed write is caught and changes nothing |
| Login.LinkStore.UpdateUsername | core/src/main/java/world/landfall/sentinel/db/DatabaseManager.java:240-253 | replaces only that account's username; a failed write is caught and changes nothing |
| Login.LinkStore.RemoveLinkByDiscordId | core/src/main/java/world/landfall/sentinel/db/DatabaseManager.java:400-418 | with moderation history nothing is deleted; otherwise every link row carrying the Discord id goes (link, stored id, username) unless the delete fails. Afterwards no stored id equals it, and the result says whether some row went |
| Login.Gatekeeper.AllowLogin | core/src/main/java/world/landfall/sentinel/LoginHandler.java:77 | appends one allow decision for the context |
| Login.Gatekeeper.DenyLogin | core/src/main/java/world/landfall/sentinel/LoginHandler.java:102 | appends one deny decision with its reason |
| Login.LoginHandler.constructor | core/src/main/java/world/landfall/sentinel/LoginHandler.java:32-46 | keeps the collaborators it is given |
| Login.LoginHandler.Resolve | core/src/main/java/world/landfall/sentinel/LoginHandler.java:55-61 | an impersonated UUID resolves to its original and is flagged; any other UUID is itself, unflagged |
| Login.LoginHandler.BypassMatches | core/src/main/java/world/landfall/sentinel/LoginHandler.java:67-81 | the loop finds a match exactly when the lower-cased host contains some lower-cased configured server |
| Login.LoginHandler.SeesLink | core/src/main/java/world/landfall/sentinel/db/DatabaseManager.java:223-237 | `isLinked` as the chain sees it: true only for a linked account, and false whenever the lookup fails |
| Login.LoginHandler.LookedUpId | core/src/main/java/world/landfall/sentinel/db/DatabaseManager.java:424-447 | `getDiscordId` as the chain sees it: an id returned is the one stored for the account, and a failed lookup returns none |
| Login.LoginHandler.Departing | core/src/main/java/world/landfall/sentinel/discord/QuarantineChecker.java:90-117 | the rows deleted when a user has left are rows carrying that user's id, and rows are deleted only for a user who counts as gone |
| Login.LoginHandler.IsUserStillInDiscord | core/src/main/java/world/landfall/sentinel/discord/QuarantineChecker.java:90-117 | answers the membership rule of `StillInServer`; a user found in no guild loses every link row carrying their id, except with moderation history or a failed delete; pending codes are untouched |
| Login.LoginHandler.DecideLinked | core/src/main/java/world/landfall/sentinel/LoginHandler.java:84-154 | a linked account is allowed exactly when it is still in the server and no active quarantine is read (with a checker) and the ToS does not block it; Discord-left is the answer exactly when the member is gone; every denial is Discord-left, quarantined or ToS |
| Login.LoginHandler.DecideUnlinked | core/src/main/java/world/landfall/sentinel/LoginHandler.java:155-180 | an account seen as unlinked is always denied: needs-relink exactly when an id is found, otherwise not-linked with the fresh code |
| Login.LoginHandler.Decide | core/src/main/java/world/landfall/sentinel/LoginHandler.java:48-190 | a bypass is allowed; the decision is never the server-error denial; it is a not-linked or needs-relink denial exactly when the login is not a bypass and the account is seen as unlinked |
| Login.LoginHandler.HandleLinked | core/src/main/java/world/landfall/sentinel/LoginHandler.java:84-154 | records exactly one decision for a linked account, the chain's outcome. It saves a fresh code on Discord-left when that write succeeds, deletes the link rows of a user who left, updates the username on an allowed login without impersonation when that write succeeds, and removes an expired quarantine only when the chain reaches the cleanup and it succeeds |
| Login.LoginHandler.HandleUnlinked | core/src/main/java/world/landfall/sentinel/LoginHandler.java:155-180 | records exactly one decision for an account seen as unlinked and saves a fresh code only when denying it as not linked and the write succeeds; links, ids and usernames are untouched |
| Login.LoginHandler.HandleLogin | core/src/main/java/world/landfall/sentinel/LoginHandler.java:48-190 | every call records exactly one decision, the outcome of the chain. Codes, usernames and quarantine rows change only as that outcome requires, and links change only by the Discord-left deletion |
| Login.EmptyBypassEntryMatchesAll | core/src/main/java/world/landfall/sentinel/LoginHandler.java:68-69 | an empty configured bypass server matches every host |
| Login.BypassAdmitsUnconditionally | core/src/main/java/world/landfall/sentinel/LoginHandler.java:67-81 | a bypass host is allowed whatever the link, quarantine, ToS and fault state |
| Login.AllowedIff | core/src/main/java/world/landfall/sentinel/LoginHandler.java:48-190 | a login is allowed exactly when it comes via bypass, or when the account is seen as linked and every check passes as read (still in server and no active quarantine read when a checker exists, ToS agreed as read) |
| Login.FailedWritesKeepDecision | core/src/main/java/world/landfall/sentinel/db/DatabaseManager.java:240-278 | a failing pending-code, username, link-removal or cleanup write never changes the decision, since those methods catch their errors |
| Login.FailedQuarantineReadAdmits | core/src/main/java/world/landfall/sentinel/discord/QuarantineChecker.java:52-71 | a failing quarantine read admits a linked member who is still present and passes the ToS, whatever quarantine is stored |
| Login.FailedAttestationReadBlocks | core/src/main/java/world/landfall/sentinel/db/DatabaseManager.java:660-681 | with ToS enforced, a failing attestation read blocks the login, even for a member who agreed |
| Login.LoginHandler.QuarantineSeen | core/src/main/java/world/landfall/sentinel/discord/QuarantineChecker.java:52-71 | a quarantine the chain sees is the stored active one, and a failed read sees none |
| Login.FailedLinkLookupDeniesAsUnlinked | core/src/main/java/world/landfall/sentinel/db/DatabaseManager.java:223-237 | a failing `isLinked` answers false, so even a linked account is denied on the unlinked path, as needs-relink or not-linked |
| Login.DepartureRemovesOwnLink | core/src/main/java/world/landfall/sentinel/discord/QuarantineChecker.java:106-107 | a linked user found in no guild and without moderation history loses the account's own link row, and the decision is Discord-left |
| Login.LinkedCheckOrder | core/src/main/java/world/landfall/sentinel/LoginHandler.java:88-141 | for a linked account: Discord-left comes first, then an active quarantine with its reason, remaining-time text and permanence, then the ToS denial with the current version |
| Login.UnlinkedOutcome | core/src/main/java/world/landfall/sentinel/LoginHandler.java:155-180 | an unlinked account needs relinking exactly when a Discord id is still stored, otherwise it is denied as not linked with the fresh code |
| Login.ImpersonationJudgedAsOriginal | core/src/main/java/world/landfall/sentinel/LoginHandler.java:55-61 | an impersonated login gets the same decision as a login by the original UUID itself |
| Tos.TosStore.constructor | core/src/main/java/world/landfall/sentinel/db/DatabaseManager.java:89-105 | starts with no attestations, no versions and no active version |
| Tos.TosStore.GetTosAttestation | core/src/main/java/world/landfall/sentinel/db/DatabaseManager.java:660-681 | present exactly when the member attested, and then is the attested version |
| Tos.TosStore.GetTosVersionContent | core/src/main/java/world/landfall/sentinel/db/DatabaseManager.java:749-773 | present exactly when the version is stored, and then is its content |
| Tos.TosStore.AddTosAttestation | core/src/main/java/world/landfall/sentinel/db/DatabaseManager.java:632-658 | succeeds exactly when the write succeeds and a version is given, and then records it for that member only |
| Tos.TosStore.AddTosVersion | core/src/main/java/world/landfall/sentinel/db/DatabaseManager.java:683-727 | on success stores the content and makes the version active; on failure changes nothing |
| Tos.DefaultContent | core/src/main/java/world/landfall/sentinel/tos/TosManager.java:35-48 | the seeded content is never blank: the configured content when that is non-blank, else the review-the-URL text when the URL is non-blank, else the not-configured notice |
| Tos.TosManager.constructor | core/src/main/java/world/landfall/sentinel/tos/TosManager.java:15-24 | seeds the version only when enforcement is on and the version is non-blank; otherwise the ledger is untouched |
| Tos.TosManager.InitializeTosVersion | core/src/main/java/world/landfall/sentinel/tos/TosManager.java:30-62 | writes the default content only when the content read finds no such version, which includes a failed read caught as null; never touches attestations |
| Tos.InitializedVersionHasContent | core/src/main/java/world/landfall/sentinel/tos/TosManager.java:55-61 | when the content read succeeds, an existing version keeps its stored content; a version written (new, or after a failed read) gets the non-blank default content |
| Tos.FailedContentReadOverwrites | core/src/main/java/world/landfall/sentinel/db/DatabaseManager.java:749-763 | a failed content read followed by a successful write replaces a stored version's different content with the default and makes it active |
| Tos.TosManager.HasAgreedToCurrentVersion | core/src/main/java/world/landfall/sentinel/tos/TosManager.java:70-77 | true when not enforced; otherwise exactly when the attestation read succeeds and the member's stored attestation equals the configured version, so never when no version is configured or the read fails |
| Tos.TosManager.RecordAttestation | core/src/main/java/world/landfall/sentinel/tos/TosManager.java:85-97 | succeeds without writing when not enforced; otherwise reports the write. Success means the member has agreed to the current version, and no other member's agreement changes |
| Ledger.FindVote | core/src/main/java/world/landfall/sentinel/db/DatabaseManager.java:937-974 | found exactly when a row has that (voter, target) key, and the row found has it |
| Ledger.UpsertVoteFind | core/src/main/java/world/landfall/sentinel/db/DatabaseManager.java:856-865 | after the upsert the key holds the new value, comment, length and time (keeping the old id on a duplicate); every other key reads as before |
| Ledger.UpsertVoteUnique | core/src/main/java/world/landfall/sentinel/db/DatabaseManager.java:149 | the upsert keeps the (voter, target) key unique |
| Ledger.UpsertVoteAppends | core/src/main/java/world/landfall/sentinel/db/DatabaseManager.java:856-889 | a vote on a new key is appended with the next id, the stored comment and its length in UTF-16 code units |
| Ledger.VotesForTargetMembers | core/src/main/java/world/landfall/sentinel/db/DatabaseManager.java:897-935 | a row is among a target's votes exactly when it is stored and on that target |
| Ledger.InsertByTimeKeepsOrder | core/src/main/java/world/landfall/sentinel/db/DatabaseManager.java:902 | inserting a vote into a newest-first list adds exactly that vote and keeps the list newest first |
| Ledger.NewestFirst | core/src/main/java/world/landfall/sentinel/db/DatabaseManager.java:897-902 | `ORDER BY voted_at DESC`: the same votes (as a multiset), with no vote newer than one before it |
| Ledger.OrderedCut | core/src/main/java/world/landfall/sentinel/db/DatabaseManager.java:981-982 | in a newest-first list, no vote after a cut is newer than any vote before it |
| Ledger.TargetVotersDistinct | core/src/main/java/world/landfall/sentinel/db/DatabaseManager.java:149 | under the unique key, a target's votes come from pairwise different voters |
| Ledger.VotesInTimeframeMembers | core/src/main/java/world/landfall/sentinel/db/DatabaseManager.java:1018-1056 | a row is in the window exactly when it is the voter's and not older than the bound |
| Ledger.FindCache | core/src/main/java/world/landfall/sentinel/db/DatabaseManager.java:1186-1219 | found exactly when a cache row has that id, and the row found has it |
| Ledger.UpsertCacheFind | core/src/main/java/world/landfall/sentinel/db/DatabaseManager.java:1150-1178 | after the upsert the id holds the new row and every other id reads as before |
| Ledger.UpsertCacheAt | core/src/main/java/world/landfall/sentinel/db/DatabaseManager.java:159 | with unique ids, the upsert replaces the existing row in place |
| Ledger.UpsertCacheUnique | core/src/main/java/world/landfall/sentinel/db/DatabaseManager.java:159 | the upsert keeps the id unique |
| Ledger.UpsertStats | core/src/main/java/world/landfall/sentinel/db/DatabaseManager.java:1058-1100 | inserts or overwrites only that voter's row; an overwrite keeps the stored account creation time |
| Ledger.ReputationLedger.constructor | core/src/main/java/world/landfall/sentinel/db/DatabaseManager.java:140-180 | starts with empty tables that satisfy the key invariants |
| Ledger.ReputationLedger.AddOrUpdateVote | core/src/main/java/world/landfall/sentinel/db/DatabaseManager.java:856-889 | reports the write; on success the votes are the upsert, and on failure nothing changes |
| Ledger.ReputationLedger.UpdateReputationCache | core/src/main/java/world/landfall/sentinel/db/DatabaseManager.java:1150-1178 | the caches become the upsert of the row, and the key invariants are kept |
| Ledger.ReputationLedger.UpdateVoterStats | core/src/main/java/world/landfall/sentinel/db/DatabaseManager.java:1058-1100 | the stats become the upsert of the row, and the key invariants are kept |
| Weights.OlderVotesDecayMore | core/src/main/java/world/landfall/sentinel/reputation/ReputationManager.java:144-151 | an older vote never decays less than a newer one |
| Weights.AccountAgeFactor | core/src/main/java/world/landfall/sentinel/reputation/ReputationManager.java:165-168 | at most 1; exactly 1 once the account is at least the full-credibility age in whole days; 0 on the creation day |
| Weights.SkewPenaltyRange | core/src/main/java/world/landfall/sentinel/reputation/ReputationManager.java:170-187 | for any floor of at most 1, the direction-skew penalty lies in [0.7, 1], never below the floor, and is 1 for at most five votes |
| Weights.SpamDampener | core/src/main/java/world/landfall/sentinel/reputation/ReputationManager.java:189-191 | in (0, 1], and exactly 1 when no recent votes or a zero factor |
| Weights.SpamDampenerAntitone | core/src/main/java/world/landfall/sentinel/reputation/ReputationManager.java:189-191 | more recent votes never raise the dampener |
| Weights.OwnReputationMultiplier | core/src/main/java/world/landfall/sentinel/reputation/ReputationManager.java:193-209 | 1 without a cached score and for any score strictly between −50 and 50 |
| Weights.OwnReputationRange | core/src/main/java/world/landfall/sentinel/reputation/ReputationManager.java:197-207 | monotone in the score over [−100, 100], from 0.75 to 1.25 |
| Weights.ConsensusMultiplier | core/src/main/java/world/landfall/sentinel/reputation/ReputationManager.java:211-226 | one of 1, 0.9, 0.7, 0.5, and 1 below ten consensus checks |
| Weights.ConsensusMonotone | core/src/main/java/world/landfall/sentinel/reputation/ReputationManager.java:212-224 | for a fixed number of checks, more agreements never lower the multiplier |
| Weights.FreshVoterHasNoCredibility | core/src/main/java/world/landfall/sentinel/reputation/ReputationManager.java:153-168 | a voter whose account is less than a day old has credibility 0 |
| Weights.CommentQuality | core/src/main/java/world/landfall/sentinel/reputation/ReputationManager.java:234-257 | always one of the four configured weights; the no-comment weight for a missing or empty comment; the length bands count UTF-16 code units |
| Weights.CommentLengthInCodeUnits | core/src/main/java/world/landfall/sentinel/reputation/ReputationManager.java:239-256 | a non-vague comment of five to twenty-four supplementary chars gets the short-comment weight, because `length()` counts each as two code units |
| Weights.CommentQualityBands | core/src/main/java/world/landfall/sentinel/reputation/ReputationManager.java:239-256 | a vague comment gets the vague weight; non-vague comments in the same length band get the same weight |
| Weights.EmptyPatternMakesEveryCommentVague | core/src/main/java/world/landfall/sentinel/reputation/ReputationManager.java:243-246 | an empty configured pattern makes every non-empty comment vague |
| Weights.ReciprocalIsSymmetric | core/src/main/java/world/landfall/sentinel/reputation/ReputationManager.java:265-281 | two stored votes that are each other's reciprocal get the same reciprocal factor |
| Weights.NearbyVotesMembers | core/src/main/java/world/landfall/sentinel/reputation/ReputationManager.java:284-290 | a vote is nearby exactly when it has the same sign and lies strictly within 10 minutes either side |
| Weights.BrigadingCountsTheVoteItself | core/src/main/java/world/landfall/sentinel/reputation/ReputationManager.java:283-294 | the vote counts itself among its nearby votes, so two other nearby votes already trigger the brigading weight |
| Weights.DiversityAtMostOne | core/src/main/java/world/landfall/sentinel/reputation/ReputationManager.java:302-337 | 1 when either side has no votes; never above 1 |
| Weights.SideVotersCount | core/src/main/java/world/landfall/sentinel/reputation/ReputationManager.java:307-320 | with distinct voters, each side's unique voters equal its vote count |
| Weights.DiversityOfDistinctVoters | core/src/main/java/world/landfall/sentinel/reputation/ReputationManager.java:302-337 | with distinct voters the multiplier is exactly 1 |
| Weights.DiversityAlwaysOne | core/src/main/java/world/landfall/sentinel/reputation/ReputationManager.java:302-337 | under the unique vote key, every target's diversity multiplier is 1 |
| Weights.ProgressiveMultiplier | core/src/main/java/world/landfall/sentinel/reputation/ReputationManager.java:339-344 | 1 when the target has no cache row |
| Weights.ProgressiveDownvote | core/src/main/java/world/landfall/sentinel/reputation/ReputationManager.java:348-354 | a downvote on a top-percentile target weighs between the minimum weight and 1, reaching the minimum at percentile 100 |
| Weights.ProgressiveUpvote | core/src/main/java/world/landfall/sentinel/reputation/ReputationManager.java:356-362 | an upvote on a bottom-percentile target weighs between 1 and the maximum weight, reaching the maximum at percentile 0 |
| Weights.ProgressiveNeutral | core/src/main/java/world/landfall/sentinel/reputation/ReputationManager.java:364 | outside both bands, or for a zero value, the multiplier is 1 |
| Weights.SmallServerMonotone | core/src/main/java/world/landfall/sentinel/reputation/ReputationManager.java:370-390 | with ordered tiers, more unique voters never lower the scaling |
| Weights.VoterIdsOfDistinct | core/src/main/java/world/landfall/sentinel/reputation/ReputationManager.java:371-375 | with distinct voters, the unique-voter count is the vote count |
| Weights.PercentileRank | core/src/main/java/world/landfall/sentinel/reputation/ReputationManager.java:395-405 | always in [0, 100], and 50 when there are no scores |
| Weights.PercentileOrdering | core/src/main/java/world/landfall/sentinel/reputation/ReputationManager.java:395-405 | monotone in the display score; 0 when no score is lower and 100 when every score is lower |
| Weights.DisplayScoreBounded | core/src/main/java/world/landfall/sentinel/reputation/ReputationManager.java:86-87 | with tanh in (−1, 1), the rounded display score lies in [−100, 100] |
| Weights.FreshVoterVoteWeighsNothing | core/src/main/java/world/landfall/sentinel/reputation/ReputationManager.java:111-138 | a vote by a voter whose account is less than a day old weighs 0 |
| Weights.WeightedSumSign | core/src/main/java/world/landfall/sentinel/reputation/ReputationManager.java:77-84 | with non-negative weights, all-positive votes give a non-negative total and all-negative votes a non-positive one |
| Weights.WeightlessVotesSumToZero | core/src/main/java/world/landfall/sentinel/reputation/ReputationManager.java:77-84 | votes that all weigh 0 give a total of 0 |
| Reputation.Recent | core/src/main/java/world/landfall/sentinel/reputation/ReputationManager.java:101-103 | min(count, n) votes drawn from the given ones (as a sub-multiset), none for a non-positive count, ordered newest first |
| Reputation.RecentAreNewest | core/src/main/java/world/landfall/sentinel/db/DatabaseManager.java:978-984 | no vote left out of the recent list is newer than a vote in it: the list is the N most recent votes |
| Reputation.RecalculatedCacheFacts | core/src/main/java/world/landfall/sentinel/reputation/ReputationManager.java:62-96 | the recomputed row has the id, time now, the number of votes, a percentile in [0, 100] and a display in [−100, 100]; it is the neutral row exactly when there are no votes |
| Reputation.RepercentiledAll | core/src/main/java/world/landfall/sentinel/reputation/ReputationManager.java:411-426 | every row is re-ranked against the same snapshot, row by row |
| Reputation.RepercentileSettles | core/src/main/java/world/landfall/sentinel/reputation/ReputationManager.java:411-426 | only the percentile changes, and afterwards every row is within 0.1 of its rank in the result |
| Reputation.RepercentileIdempotent | core/src/main/java/world/landfall/sentinel/reputation/ReputationManager.java:411-426 | a second re-rank changes nothing |
| Reputation.RepercentileKeepsKey | core/src/main/java/world/landfall/sentinel/reputation/ReputationManager.java:411-426 | the re-rank keeps ids unique and the same set of ids |
| Reputation.RepercentiledFind | core/src/main/java/world/landfall/sentinel/reputation/ReputationManager.java:411-426 | the re-rank keeps every row's calculation time |
| Reputation.RewrittenFinds | core/src/main/java/world/landfall/sentinel/reputation/ReputationManager.java:93-99 | writing a row, then re-ranking, keeps ids unique and leaves the row's calculation time in place |
| Reputation.RewrittenKeepsOthers | core/src/main/java/world/landfall/sentinel/reputation/ReputationManager.java:93-99 | writing one row and re-ranking keeps every other row's calculation time |
| Reputation.RecalculationIsFresh | core/src/main/java/world/landfall/sentinel/reputation/ReputationManager.java:38-106 | right after a recalculation the target's cache is fresh, so the next read is served from the cache |
| Reputation.VoteCheckOrder | core/src/main/java/world/landfall/sentinel/reputation/ReputationManager.java:437-462 | a vote passes the checks exactly when it is not a self-vote, not in cooldown and ±1; a self-vote is always reported as such; an invalid value is reported only after the cooldown passed |
| Reputation.CooldownRemaining | core/src/main/java/world/landfall/sentinel/reputation/ReputationManager.java:444-456 | in cooldown, the reply gives the cooldown minus the whole days elapsed, between 1 and the cooldown |
| Reputation.NextStatsCounters | core/src/main/java/world/landfall/sentinel/reputation/ReputationManager.java:481-523 | total +1 and exactly one side +1, so positive + negative − total is preserved. Creation time, consensus counters and credibility are kept, and a new voter starts from the fixed initial row |
| Reputation.SubmittedVoteCountedTwice | core/src/main/java/world/landfall/sentinel/reputation/ReputationManager.java:481-500 | the stored vote is already in the 24-hour window, and the counter is set to the window size + 1 |
| Reputation.SubmittedVoteStored | core/src/main/java/world/landfall/sentinel/reputation/ReputationManager.java:464 | after submitting, the vote is stored with the new value, time and comment, keeping the old id on a revote |
| Reputation.StatsAfterSubmitWellFormed | core/src/main/java/world/landfall/sentinel/reputation/ReputationManager.java:464-470 | a submission keeps every stats row under its own id with non-negative counters |
| Reputation.FirstVoteWeighsNothing | core/src/main/java/world/landfall/sentinel/reputation/ReputationManager.java:464-473 | a brand-new voter's first vote weighs 0 in the recomputation it triggers |
| Reputation.SubmittedVoteIsOnlyVote | core/src/main/java/world/landfall/sentinel/reputation/ReputationManager.java:464 | on a target without votes, the submitted vote becomes its only vote |
| Reputation.FirstVoteOnNewTargetScoresZero | core/src/main/java/world/landfall/sentinel/reputation/ReputationManager.java:62-99 | a new voter's first vote on an unvoted target gives score 0, display 0 and one vote received |
| Reputation.ReputationManager.constructor | core/src/main/java/world/landfall/sentinel/reputation/ReputationManager.java:25-29 | keeps the ledger and configuration it is given |
| Reputation.ReputationManager.CountSides | core/src/main/java/world/landfall/sentinel/reputation/ReputationManager.java:303-320 | the loop collects each side's voter set and vote count |
| Reputation.ReputationManager.ComputeDiversity | core/src/main/java/world/landfall/sentinel/reputation/ReputationManager.java:302-337 | equals the diversity multiplier, which is at most 1 and is 1 under the unique key |
| Reputation.ReputationManager.ComputeVoteWeight | core/src/main/java/world/landfall/sentinel/reputation/ReputationManager.java:111-138 | equals the product of the seven factors for the current ledger |
| Reputation.ReputationManager.WeighVotes | core/src/main/java/world/landfall/sentinel/reputation/ReputationManager.java:77-84 | the accumulation loop computes the weighted sum of the target's votes |
| Reputation.ReputationManager.CalculateReputation | core/src/main/java/world/landfall/sentinel/reputation/ReputationManager.java:62-106 | writes the recomputed row and re-ranks, leaving votes and stats unchanged, and returns the fresh result |
| Reputation.ReputationManager.UpdatePercentileRanks | core/src/main/java/world/landfall/sentinel/reputation/ReputationManager.java:411-435 | the loop re-ranks every cache row against the snapshot taken before it |
| Reputation.ReputationManager.GetReputation | core/src/main/java/world/landfall/sentinel/reputation/ReputationManager.java:38-54 | a fresh cache is returned unchanged with its recent votes and the cached flag; otherwise the result is a recalculation |
| Reputation.ReputationManager.UpdateVoterStatistics | core/src/main/java/world/landfall/sentinel/reputation/ReputationManager.java:481-526 | upserts the voter's next statistics row and nothing else |
| Reputation.ReputationManager.SubmitVote | core/src/main/java/world/landfall/sentinel/reputation/ReputationManager.java:437-479 | the reply follows the check order. A rejection writes nothing; success stores the vote, updates the voter's stats and recomputes the target |
| Scheduler.RefreshTargets | core/src/main/java/world/landfall/sentinel/reputation/ReputationScheduler.java:80-98 | a target is refreshed exactly when its cache is older than the stale threshold and one of its votes is newer than the cache |
| Scheduler.RefreshStep | core/src/main/java/world/landfall/sentinel/reputation/ReputationScheduler.java:80-98 | each visited row either adds its id and one recalculation, or leaves the pass unchanged |
| Scheduler.RecalculatedUnique | core/src/main/java/world/landfall/sentinel/reputation/ReputationManager.java:62-99 | a recalculation keeps cache ids unique |
| Scheduler.RecalculatedKeepsOtherRows | core/src/main/java/world/landfall/sentinel/reputation/ReputationManager.java:62-99 | a recalculation keeps every other row's calculation time |
| Scheduler.RecalculatedKeepsFresh | core/src/main/java/world/landfall/sentinel/reputation/ReputationManager.java:62-99 | a recalculation leaves fresh rows fresh and makes its own row fresh |
| Scheduler.RefreshedFresh | core/src/main/java/world/landfall/sentinel/reputation/ReputationScheduler.java:75-110 | after the refresh pass every refreshed target is fresh |
| Scheduler.RefreshedSkipsOthers | core/src/main/java/world/landfall/sentinel/reputation/ReputationScheduler.java:75-110 | rows the pass skips keep their calculation time |
| Scheduler.RefreshedUnique | core/src/main/java/world/landfall/sentinel/reputation/ReputationScheduler.java:75-110 | the refresh pass keeps cache ids unique |
| Scheduler.RefreshPass | core/src/main/java/world/landfall/sentinel/reputation/ReputationScheduler.java:75-110 | every stale row with newer votes is fresh afterwards, and every other row keeps its calculation time |
| Scheduler.ConsensusDirection | core/src/main/java/world/landfall/sentinel/reputation/ReputationScheduler.java:142-156 | +1 exactly when positives exceed 1.5 × negatives (2P > 3N), −1 exactly when negatives exceed 1.5 × positives, otherwise 0 |
| Scheduler.UnanimousUpvotes | core/src/main/java/world/landfall/sentinel/reputation/ReputationScheduler.java:142-156 | a non-empty set of upvotes has direction +1 |
| Scheduler.NoConsensusWhenClose | core/src/main/java/world/landfall/sentinel/reputation/ReputationScheduler.java:142-156 | when neither side exceeds 1.5 × the other, the direction is 0 |
| Scheduler.OldVotes | core/src/main/java/world/landfall/sentinel/reputation/ReputationScheduler.java:120-139 | exactly the votes strictly older than the consensus threshold |
| Scheduler.CreditVotesPerVoter | core/src/main/java/world/landfall/sentinel/reputation/ReputationScheduler.java:159-174 | crediting adds to each voter exactly their own agreeing and disagreeing votes |
| Scheduler.CreditTargetPerVoter | core/src/main/java/world/landfall/sentinel/reputation/ReputationScheduler.java:120-174 | a target adds to each voter their old votes judged against the target's direction, or nothing when it has no old votes or no consensus |
| Scheduler.PositiveMembership | core/src/main/java/world/landfall/sentinel/reputation/ReputationScheduler.java:159-174 | a voter has a credit entry exactly when they have at least one credit |
| Scheduler.TallyPerVoter | core/src/main/java/world/landfall/sentinel/reputation/ReputationScheduler.java:116-174 | the loop's map gives every voter the per-target sum of their credits, and holds exactly the voters with a credit |
| Scheduler.ApplyCreditsFacts | core/src/main/java/world/landfall/sentinel/reputation/ReputationScheduler.java:179-204 | the credits are added onto existing stats rows only, and no other field or row changes |
| Scheduler.ApplyOne | core/src/main/java/world/landfall/sentinel/reputation/ReputationScheduler.java:179-204 | applying one voter's credit advances the partial application by exactly that voter |
| Scheduler.TallyCounters | core/src/main/java/world/landfall/sentinel/reputation/ReputationScheduler.java:116-204 | each existing voter's counters grow by their per-target credit sum; the keys are kept |
| Scheduler.ConsensusPassCounters | core/src/main/java/world/landfall/sentinel/reputation/ReputationScheduler.java:116-215 | the consensus job adds to each existing voter exactly their credits at the threshold now − consensus days |
| Scheduler.ConsensusPassTwice | core/src/main/java/world/landfall/sentinel/reputation/ReputationScheduler.java:179-204 | running the job twice on unchanged votes credits every vote twice |
| Scheduler.ResetStep | core/src/main/java/world/landfall/sentinel/reputation/ReputationScheduler.java:252-268 | each visited id writes only when its stored count differs, and then only that row's 24-hour field |
| Scheduler.ResetCountsFacts | core/src/main/java/world/landfall/sentinel/reputation/ReputationScheduler.java:234-278 | every cached id with stats gets its true 24-hour count; no other field and no other row changes |
| Scheduler.ResetIdempotent | core/src/main/java/world/landfall/sentinel/reputation/ReputationScheduler.java:234-278 | a second re-sync changes nothing |
| Scheduler.ResetUndoesDoubleCount | core/src/main/java/world/landfall/sentinel/reputation/ReputationScheduler.java:252-268 | the re-sync removes exactly the extra 1 that a vote submission adds to the counter |
| Scheduler.ReputationScheduler.constructor | core/src/main/java/world/landfall/sentinel/reputation/ReputationScheduler.java:30-36 | keeps the ledger, manager and configuration it is given |
| Scheduler.ReputationScheduler.RefreshStaleCache | core/src/main/java/world/landfall/sentinel/reputation/ReputationScheduler.java:75-110 | the loop recalculates exactly the refresh targets, in row order, and counts them; votes and stats are unchanged |
| Scheduler.ReputationScheduler.RefreshRow | core/src/main/java/world/landfall/sentinel/reputation/ReputationScheduler.java:80-98 | recalculates one row exactly when it needs a refresh |
| Scheduler.ReputationScheduler.UpdateConsensusTracking | core/src/main/java/world/landfall/sentinel/reputation/ReputationScheduler.java:116-215 | the stats become the consensus pass; votes and caches are unchanged |
| Scheduler.ReputationScheduler.CreditOldVotes | core/src/main/java/world/landfall/sentinel/reputation/ReputationScheduler.java:120-174 | one target's old votes are credited as the consensus rule says |
| Scheduler.ReputationScheduler.CreditEach | core/src/main/java/world/landfall/sentinel/reputation/ReputationScheduler.java:159-174 | the loop bumps each old vote's voter by agreement with the direction |
| Scheduler.ReputationScheduler.ApplyUpdates | core/src/main/java/world/landfall/sentinel/reputation/ReputationScheduler.java:179-204 | the loop adds every credit onto the matching existing stats row |
| Scheduler.ReputationScheduler.UpdateAllPercentiles | core/src/main/java/world/landfall/sentinel/reputation/ReputationScheduler.java:220-228 | re-ranks every cache row; votes and stats are unchanged |
| Scheduler.ReputationScheduler.ResetDaily24hCounts | core/src/main/java/world/landfall/sentinel/reputation/ReputationScheduler.java:234-278 | the stats become the re-synced counts; votes and caches are unchanged |

## Left out

- SQL, JDBC and connection handling: the tables are in-memory sequences and maps. A failed write is a `writeOk` parameter. Failed cache and stats writes in the reputation engine are not modelled (those writes always succeed). Outside the login chain and `Tos.TosManager.InitializeTosVersion`, reads always succeed. In Java each reputation read catches its `SQLException` and answers an empty list, an empty `Optional` or `null`. The three lines below name the consequences that matter. Beyond those, a failed `getReputationCache` or `getAllReputationScores` read makes the own-reputation and progressive factors 1, the percentile 50, and the percentile pass a no-op. A failed `getVotesInTimeframe` read sets `votesLast24h` to 1.
- Reputation.ReputationManager.CalculateReputation: a failed `getVotesForTarget` read (DatabaseManager.java:897-935) answers an empty list. Java then writes the neutral row (score 0, display 0, percentile 50) over the target's real cached score. The model always reads the votes.
- Reputation.ReputationManager.SubmitVote: a failed `getVoteByVoterAndTarget` read (DatabaseManager.java:937-974) answers no earlier vote. Java then skips the cooldown and accepts a revote inside it. The model always finds the earlier vote, so `VoteCheckOrder` and `CooldownRemaining` hold only when that read succeeds.
- Reputation.ReputationManager.UpdateVoterStatistics: a failed `getVoterStats` read (DatabaseManager.java:1108-1141) answers no row. Java then takes the new-voter path, and its upsert resets the voter's counters, consensus counters and credibility to a first vote's values; only `account_created_at` is kept. The model always reads the stored row.
- `DECIMAL` column rounding and IEEE-754 arithmetic: factors are exact reals.
- `Math.exp`, `Math.tanh` and `Math.pow(x, 0.5)` are parameters. Only the ranges or monotonicity that a lemma assumes are stated.
- Query orderings: `getVotesForTarget` and `getRecentVotes` sort by `voted_at DESC`. The model sorts the same way (`Ledger.NewestFirst`) for the recent-votes list. Rows cast at the same instant keep their table order, where MySQL leaves their order unspecified. A target's score is summed over its votes in table order; exact real addition does not depend on the order. `getAllReputationScores` (`ORDER BY display_score DESC`) is read in table order.
- Time.Instant: `voted_at`, `last_calculated`, `account_created_at` and `last_vote_at` are `TIMESTAMP` columns without fractional seconds, so Java compares the stored instants in whole seconds. The model keeps milliseconds. Two instants within the same second can therefore compare differently: the refresh job's newer-vote test, the vote cooldown, the 24-hour window and the staleness test may decide differently from Java when the gap is under a second.
- Scheduler.ReputationScheduler.RefreshStaleCache: the refresh pass walks the cache rows in storage order, not in descending display score as `getAllReputationScores` returns them. Each recalculation re-ranks every percentile, and the progressive factor of a later target reads its current percentile, so the order can change the scores of targets refreshed later in the pass. The model fixes one order and does not capture the descending-score one.
- Reputation.Recent: a negative recent-votes count is treated as 0, where Java's `Stream.limit` would throw.
- DurationParser.ParseDurationToSeconds: amounts are unbounded integers, so `Long.parseLong` overflow and `long` multiplication wrap-around are not modelled.
- Text.ToLower: lower-cases ASCII letters only; `String.toLowerCase` handles all of Unicode.
- Reading the clock: each call takes a single `now`. Java reads `Instant.now()` several times per call, including once per recalculation inside the refresh job.
- `IpLogger` calls in the login chain: an audit side effect that does not change any decision.
- Logging throughout.
- The Discord and JDA side of `QuarantineChecker`: membership is the `membership` answer of a login's environment, and role removal is not modelled.
- Pending-code generation (`generateCode`): random, so the fresh code is a parameter.
- Platform-specific database keys: link rows are keyed by (UUID, platform) as the login handler calls them. The (UUID, platform) overloads are not among the source files modelled. The model gives them the error handling of the UUID-keyed methods of `core/.../db/DatabaseManager.java` (`isLinked`, `updateUsername`, `savePendingCode`, `getDiscordId`), each of which catches its own SQL error. The older single-platform `DatabaseManager` is not part of this model.
- Login.LoginHandler.HandleLogin: the catch-all's `ServerError` denial is never produced, because every ledger and checker call on the way catches its own failure. Unchecked runtime exceptions, which would reach that catch-all in Java, are not modelled.
- Executors and threads: the `ReputationScheduler` constructor's job scheduling, its shutdown, and the fact that the 24-hour re-sync is never scheduled. The jobs are methods called in sequence, and the scheduler constructor only keeps its collaborators.
- Scheduler.ReputationScheduler.RefreshStaleCache: the exception catch-all of each job is not modelled, and the refreshed count (used only for logging) is returned.
- Weights.WellDefined: the configuration is assumed to have a positive full-credibility age, a non-negative spam factor and percentile thresholds strictly inside (0, 100). Other configurations would make Java divide by zero or yield infinities.
- The mutable `ConsensusUpdate` objects are the immutable `Credit` value, replaced in the map on each increment.
- `ImpersonationManager.reloadConfig`: file and JSON I/O.
- `TosManager.getTosUrl`, `getTosContent` and `getUserAgreedVersion`: plain reads of the configuration and of `Tos.TosStore.GetTosVersionContent` and `Tos.TosStore.GetTosAttestation`, so they have no members of their own.

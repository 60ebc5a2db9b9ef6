/**
 * The login gate: for every connection attempt it decides, in a fixed order, whether the
 * player is let in or turned away with a reason, and performs the ledger writes that go
 * with that decision.
 */
module Login {
  import opened Wrappers
  import opened Text
  import Time
  import Quarantine
  import Impersonation
  import Tos

  datatype GamePlatform = Minecraft | Hytale

  /** What the platform tells us about a connection. */
  datatype LoginContext = LoginContext(
    playerUuid: Impersonation.Uuid,
    username: string,
    ipAddress: string,
    virtualHost: Option<string>,
    platform: GamePlatform)

  /** Why a login was refused. */
  datatype DenialReason =
    | NotLinked(linkCode: string)
    | Quarantined(reason: string, timeRemaining: string, permanent: bool)
    | TosNotAccepted(version: Option<string>)
    | DiscordLeft(linkCode: string)
    | NeedsRelink
    /** The catch-all's denial; no ledger call of the chain lets a failure reach it (see `Decide`). */
    | ServerError

  /** The one call the gate makes on the platform's gatekeeper. */
  datatype Outcome = Allowed | Denied(reason: DenialReason)

  /** A player account on one platform: the key of the link ledger. */
  datatype Account = Account(uuid: Impersonation.Uuid, platform: GamePlatform)

  /**
   * The ledger calls of the chain whose SQL can fail. Each catches its own error: a failed
   * `isLinked` answers false, a failed `getDiscordId` answers no id, a failed quarantine read
   * answers no active quarantine, a failed attestation read answers no attestation, and a
   * failed `savePendingCode`, `updateUsername`, link removal or expired-quarantine cleanup
   * writes nothing.
   */
  datatype CallSite =
    | IsLinkedCall | GetDiscordIdCall | SavePendingCodeCall | UpdateUsernameCall | RemoveLinkCall
    | CleanupCall | QuarantineReadCall | TosAttestationCall

  /**
   * The Discord member lookup. `Member`: found in some guild. `NotMember`: found in no guild,
   * where a failed lookup in one guild counts as not found there, so a failure in every guild is
   * `NotMember` too. `LookupFailed`: the guild walk itself failed, which counts as still present.
   */
  datatype Membership = Member | NotMember | LookupFailed

  /**
   * Everything the gate gets from outside the ledgers: the clock, the freshly generated
   * link code, the Discord member lookup, whether the Discord user's moderation history as read
   * is non-empty (a failing history query reads as empty), and which ledger calls fail.
   */
  datatype LoginEnv = LoginEnv(now: Time.Instant, freshCode: string, membership: Membership,
                               hasModerationHistory: bool, faults: set<CallSite>)

  /** `isDiscordUserStillInServer`: an absent Discord id counts as gone; a failed lookup as present. */
  function StillInServer(discordId: Option<string>, membership: Membership): (b: bool)
    ensures discordId.None? ==> !b
    ensures discordId.Some? ==> (b <==> membership != NotMember)
  {
    if discordId.None? then false
    else match membership
      case Member => true
      case NotMember => false
      case LookupFailed => true
  }

  /** The quarantine rows with an expired row of this user removed, as the login-time cleanup does. */
  function Cleaned(rows: map<string, Quarantine.QuarantineInfo>, discordId: Option<string>, now: Time.Instant): map<string, Quarantine.QuarantineInfo> {
    if discordId.Some? && discordId.value in rows
       && !Quarantine.IsPermanent(rows[discordId.value]) && !Quarantine.IsActive(rows[discordId.value], now)
    then rows - {discordId.value}
    else rows
  }

  /** The active quarantine of a user, if the ledger holds one. */
  function ActiveQuarantine(rows: map<string, Quarantine.QuarantineInfo>, discordId: Option<string>, now: Time.Instant): (r: Option<Quarantine.QuarantineInfo>)
    ensures r.Some? <==> discordId.Some? && discordId.value in rows && Quarantine.IsActive(rows[discordId.value], now)
  {
    if discordId.Some? && discordId.value in rows && Quarantine.IsActive(rows[discordId.value], now)
    then Some(rows[discordId.value])
    else None
  }

  /** Cleaning up an expired row never changes which quarantine is active. */
  lemma CleanupKeepsActiveQuarantine(rows: map<string, Quarantine.QuarantineInfo>, discordId: Option<string>, now: Time.Instant)
    ensures ActiveQuarantine(Cleaned(rows, discordId, now), discordId, now) == ActiveQuarantine(rows, discordId, now)
    ensures forall id :: id in rows && Quarantine.IsActive(rows[id], now) ==> id in Cleaned(rows, discordId, now)
  {
  }

  /** The `linked_accounts` and `pending_links` tables as the gate sees them. */
  class LinkStore {
    var linked: set<Account>
    /** The stored Discord id; it may outlive the link itself. */
    var discordIds: map<Account, string>
    var pendingCodes: map<Account, string>
    var usernames: map<Account, string>

    constructor ()
      ensures linked == {} && discordIds == map[] && pendingCodes == map[] && usernames == map[]
    {
      linked := {};
      discordIds := map[];
      pendingCodes := map[];
      usernames := map[];
    }

    predicate IsLinked(a: Account)
      reads this
    {
      a in linked
    }

    function GetDiscordId(a: Account): (r: Option<string>)
      reads this
      ensures r.Some? <==> a in discordIds
      ensures r.Some? ==> r.value == discordIds[a]
    {
      if a in discordIds then Some(discordIds[a]) else None
    }

    /** `savePendingCode`: inserts or rotates the account's code; a failed write is logged and changes nothing. */
    method SavePendingCode(a: Account, code: string, writeOk: bool)
      modifies this
      ensures pendingCodes == if writeOk then old(pendingCodes)[a := code] else old(pendingCodes)
      ensures linked == old(linked) && discordIds == old(discordIds) && usernames == old(usernames)
    {
      if writeOk {
        pendingCodes := pendingCodes[a := code];
      }
    }

    /** `updateUsername`: remembers the last-seen name; a failed write is logged and changes nothing. */
    method UpdateUsername(a: Account, username: string, writeOk: bool)
      modifies this
      ensures usernames == if writeOk then old(usernames)[a := username] else old(usernames)
      ensures linked == old(linked) && discordIds == old(discordIds) && pendingCodes == old(pendingCodes)
    {
      if writeOk {
        usernames := usernames[a := username];
      }
    }

    /** The accounts whose link row carries this Discord id. */
    function Holders(discordId: string): (r: set<Account>)
      reads this
      ensures forall a :: a in r <==> a in discordIds && discordIds[a] == discordId
    {
      set a | a in discordIds && discordIds[a] == discordId
    }

    /**
     * `removeLinkByDiscordId`: unless the user has moderation history, deletes every link row
     * carrying the Discord id (link, stored id and username); a failed delete changes nothing.
     * Reports whether some row went.
     */
    method RemoveLinkByDiscordId(discordId: string, hasModerationHistory: bool, writeOk: bool) returns (removed: bool)
      modifies this
      ensures var gone := if !hasModerationHistory && writeOk then old(Holders(discordId)) else {};
        linked == old(linked) - gone && discordIds == old(discordIds) - gone && usernames == old(usernames) - gone
      ensures pendingCodes == old(pendingCodes)
      ensures removed <==> !hasModerationHistory && writeOk && old(Holders(discordId)) != {}
      ensures !hasModerationHistory && writeOk ==> forall a :: a in discordIds ==> discordIds[a] != discordId
    {
      if hasModerationHistory || !writeOk {
        return false;
      }
      var gone := Holders(discordId);
      linked := linked - gone;
      discordIds := discordIds - gone;
      usernames := usernames - gone;
      removed := gone != {};
    }
  }

  /** The `quarantines` table, reached through the quarantine checker. */
  class QuarantineStore {
    var rows: map<string, Quarantine.QuarantineInfo>

    constructor ()
      ensures rows == map[]
    {
      rows := map[];
    }

    /**
     * `checkAndCleanupExpiredQuarantine`: removes the user's row if it has expired, and says so;
     * `cleanupOk` is whether its reads and the delete succeed (a failure is caught and removes nothing).
     */
    method CheckAndCleanupExpiredQuarantine(discordId: Option<string>, now: Time.Instant, cleanupOk: bool) returns (cleanedUp: bool)
      modifies this
      ensures rows == if cleanupOk then Cleaned(old(rows), discordId, now) else old(rows)
      ensures cleanedUp <==> rows != old(rows)
    {
      if !cleanupOk || discordId.None? || discordId.value !in rows {
        return false;
      }
      var info := rows[discordId.value];
      if Quarantine.IsPermanent(info) || Quarantine.IsActive(info, now) {
        return false;
      }
      rows := rows - {discordId.value};
      assert discordId.value !in rows;
      cleanedUp := true;
    }

    /**
     * `getQuarantineInfo`: the user's row, if it is still active; `readOk` is whether the read
     * succeeds (a failure is caught and answers no quarantine).
     */
    function GetQuarantineInfo(discordId: Option<string>, now: Time.Instant, readOk: bool): (r: Option<Quarantine.QuarantineInfo>)
      reads this
      ensures r == if readOk then ActiveQuarantine(rows, discordId, now) else None
    {
      if discordId.None? || !readOk then None
      else if discordId.value in rows && Quarantine.IsActive(rows[discordId.value], now) then Some(rows[discordId.value])
      else None
    }
  }

  /** The platform side: whether it can route bypass hosts, and the decisions it has been handed. */
  class Gatekeeper {
    const supportsBypassRouting: bool
    var decisions: seq<(LoginContext, Outcome)>

    constructor (supportsBypassRouting: bool)
      ensures this.supportsBypassRouting == supportsBypassRouting && decisions == []
    {
      this.supportsBypassRouting := supportsBypassRouting;
      decisions := [];
    }

    method AllowLogin(ctx: LoginContext)
      modifies this
      ensures decisions == old(decisions) + [(ctx, Allowed)]
    {
      decisions := decisions + [(ctx, Allowed)];
    }

    method DenyLogin(ctx: LoginContext, reason: DenialReason)
      modifies this
      ensures decisions == old(decisions) + [(ctx, Denied(reason))]
    {
      decisions := decisions + [(ctx, Denied(reason))];
    }
  }

  /** Some configured server name, lower-cased, occurs in the lower-cased virtual host. */
  predicate MatchesBypassServer(servers: seq<string>, host: string) {
    exists i :: 0 <= i < |servers| && Contains(ToLower(host), ToLower(servers[i]))
  }

  /** The bypass rule: bypass routing supported, a non-empty virtual host, and a matching server. */
  predicate IsBypass(servers: seq<string>, supportsBypass: bool, host: string) {
    supportsBypass && host != [] && MatchesBypassServer(servers, host)
  }

  class LoginHandler {
    const links: LinkStore
    const quarantines: QuarantineStore
    /** Whether a Discord manager with a quarantine checker is present. */
    const hasQuarantineChecker: bool
    const impersonation: Option<Impersonation.ImpersonationManager>
    const tos: Option<Tos.TosManager>
    const bypassServers: seq<string>

    constructor (links: LinkStore, quarantines: QuarantineStore, hasQuarantineChecker: bool,
                 impersonation: Option<Impersonation.ImpersonationManager>, tos: Option<Tos.TosManager>,
                 bypassServers: seq<string>)
      ensures this.links == links && this.quarantines == quarantines
      ensures this.hasQuarantineChecker == hasQuarantineChecker && this.impersonation == impersonation
      ensures this.tos == tos && this.bypassServers == bypassServers
    {
      this.links := links;
      this.quarantines := quarantines;
      this.hasQuarantineChecker := hasQuarantineChecker;
      this.impersonation := impersonation;
      this.tos := tos;
      this.bypassServers := bypassServers;
    }

    function ImpersonationFrame(): set<object>
      reads this
    {
      if impersonation.Some? then {impersonation.value} else {}
    }

    function TosFrame(): set<object>
      reads this
    {
      if tos.Some? then {tos.value, tos.value.db} else {}
    }

    /** The account every check is made against: the original one when the UUID is impersonated. */
    function Resolve(uuid: Impersonation.Uuid): (r: (Impersonation.Uuid, bool))
      reads this, ImpersonationFrame()
      ensures r.1 <==> impersonation.Some? && impersonation.value.IsImpersonating(uuid)
      ensures r.1 ==> r.0 == impersonation.value.active[uuid]
      ensures !r.1 ==> r.0 == uuid
    {
      if impersonation.Some? && impersonation.value.IsImpersonating(uuid) then
        (impersonation.value.GetOriginalUuid(uuid).value, true)
      else
        (uuid, false)
    }

    /** ToS blocks the login: enforced, and the user has not agreed to the current version. */
    predicate TosBlocks(discordId: Option<string>, env: LoginEnv)
      reads this, TosFrame()
    {
      tos.Some? && tos.value.IsEnforced()
      && !(discordId.Some? && tos.value.HasAgreedToCurrentVersion(discordId.value, TosAttestationCall !in env.faults))
    }

    /** The quarantine check as the chain sees it: a failed read answers no active quarantine. */
    function QuarantineSeen(discordId: Option<string>, env: LoginEnv): (r: Option<Quarantine.QuarantineInfo>)
      reads this, quarantines
      ensures r.Some? ==> r == ActiveQuarantine(quarantines.rows, discordId, env.now)
      ensures QuarantineReadCall in env.faults ==> r.None?
    {
      quarantines.GetQuarantineInfo(discordId, env.now, QuarantineReadCall !in env.faults)
    }

    /** `isLinked` as the chain sees it: a failed lookup answers false. */
    predicate SeesLink(acct: Account, env: LoginEnv): (b: bool)
      reads this, links
      ensures b ==> acct in links.linked
      ensures IsLinkedCall in env.faults ==> !b
    {
      IsLinkedCall !in env.faults && links.IsLinked(acct)
    }

    /** `getDiscordId` as the chain sees it: a failed lookup answers no id. */
    function LookedUpId(acct: Account, env: LoginEnv): (r: Option<string>)
      reads this, links
      ensures r.Some? ==> acct in links.discordIds && r.value == links.discordIds[acct]
      ensures GetDiscordIdCall in env.faults ==> r.None?
    {
      if GetDiscordIdCall in env.faults then None else links.GetDiscordId(acct)
    }

    /** The link rows the Discord-left check deletes: all rows of a user found in no guild who has no moderation history. */
    function Departing(discordId: Option<string>, env: LoginEnv): (r: set<Account>)
      reads this, links
      ensures r != {} ==> discordId.Some? && !StillInServer(discordId, env.membership)
      ensures forall a :: a in r ==> a in links.discordIds && Some(links.discordIds[a]) == discordId
    {
      if discordId.Some? && env.membership == NotMember && !env.hasModerationHistory && RemoveLinkCall !in env.faults
      then links.Holders(discordId.value)
      else {}
    }

    /** The link rows a login of this account deletes: those of `Departing`, once the membership check is reached. */
    function Departed(acct: Account, env: LoginEnv): set<Account>
      reads this, links
    {
      if SeesLink(acct, env) && hasQuarantineChecker then Departing(LookedUpId(acct, env), env) else {}
    }

    /** Whether the login-time quarantine cleanup is reached for this account and its calls succeed. */
    predicate CleanupReached(acct: Account, env: LoginEnv)
      reads this, links
    {
      SeesLink(acct, env) && hasQuarantineChecker && StillInServer(LookedUpId(acct, env), env.membership)
      && CleanupCall !in env.faults
    }

    /** The decision for a linked account, in the order the gate checks. */
    function DecideLinked(acct: Account, env: LoginEnv): (r: Outcome)
      reads this, links, quarantines, TosFrame()
      ensures var discordId := LookedUpId(acct, env);
        r == Allowed <==>
          (hasQuarantineChecker ==> StillInServer(discordId, env.membership)
                                    && QuarantineSeen(discordId, env).None?)
          && !TosBlocks(discordId, env)
      ensures r == Denied(DiscordLeft(env.freshCode)) <==> hasQuarantineChecker && !StillInServer(LookedUpId(acct, env), env.membership)
      ensures r.Denied? ==> r.reason.DiscordLeft? || r.reason.Quarantined? || r.reason.TosNotAccepted?
    {
      var discordId := LookedUpId(acct, env);
      var q := QuarantineSeen(discordId, env);
      if hasQuarantineChecker && !StillInServer(discordId, env.membership) then
        Denied(DiscordLeft(env.freshCode))
      else if hasQuarantineChecker && q.Some? then
        Denied(Quarantined(q.value.reason, Quarantine.FormattedTimeRemaining(q.value, env.now), Quarantine.IsPermanent(q.value)))
      else if TosBlocks(discordId, env) then
        Denied(TosNotAccepted(tos.value.GetCurrentVersion()))
      else
        Allowed
    }

    /** The decision for an account the chain sees as unlinked. */
    function DecideUnlinked(acct: Account, env: LoginEnv): (r: Outcome)
      reads this, links
      ensures r.Denied?
      ensures r == Denied(NeedsRelink) <==> LookedUpId(acct, env).Some?
      ensures r != Denied(NeedsRelink) ==> r == Denied(NotLinked(env.freshCode))
    {
      if LookedUpId(acct, env).Some? then Denied(NeedsRelink)
      else Denied(NotLinked(env.freshCode))
    }

    /**
     * The decision `handleLogin` hands to the gatekeeper. Every ledger call on the way catches
     * its own failure, so the server-error denial of the catch-all is never the answer.
     */
    function Decide(ctx: LoginContext, supportsBypass: bool, env: LoginEnv): (r: Outcome)
      reads this, links, quarantines, ImpersonationFrame(), TosFrame()
      ensures IsBypass(bypassServers, supportsBypass, ctx.virtualHost.GetOr("")) ==> r == Allowed
      ensures r != Denied(ServerError)
      ensures r.Denied? && (r.reason.NotLinked? || r.reason.NeedsRelink?) <==>
        !IsBypass(bypassServers, supportsBypass, ctx.virtualHost.GetOr("")) && !SeesLink(AccountOf(ctx), env)
    {
      var acct := AccountOf(ctx);
      if IsBypass(bypassServers, supportsBypass, ctx.virtualHost.GetOr("")) then Allowed
      else if SeesLink(acct, env) then DecideLinked(acct, env)
      else DecideUnlinked(acct, env)
    }

    /** The account the checks of this login are made against. */
    function AccountOf(ctx: LoginContext): Account
      reads this, ImpersonationFrame()
    {
      Account(Resolve(ctx.playerUuid).0, ctx.platform)
    }

    /** The bypass scan: whether some configured server occurs in the host, ignoring ASCII case. */
    method BypassMatches(host: string) returns (matched: bool)
      ensures matched <==> MatchesBypassServer(bypassServers, host)
    {
      var i := 0;
      while i < |bypassServers|
        invariant 0 <= i <= |bypassServers|
        invariant forall k :: 0 <= k < i ==> !Contains(ToLower(host), ToLower(bypassServers[k]))
      {
        if Contains(ToLower(host), ToLower(bypassServers[i])) {
          return true;
        }
        i := i + 1;
      }
      return false;
    }

    /**
     * `isDiscordUserStillInServer` with the checker's `isUserStillInDiscord`: no id counts as
     * gone; a user found in no guild is gone and loses every link row, unless they have
     * moderation history; a failed lookup counts as present.
     */
    method IsUserStillInDiscord(discordId: Option<string>, env: LoginEnv) returns (still: bool)
      modifies links
      ensures still == StillInServer(discordId, env.membership)
      ensures var gone := old(Departing(discordId, env));
        links.linked == old(links.linked) - gone && links.discordIds == old(links.discordIds) - gone
        && links.usernames == old(links.usernames) - gone
      ensures links.pendingCodes == old(links.pendingCodes)
    {
      if discordId.None? {
        return false;
      }
      match env.membership
      case Member =>
        still := true;
      case LookupFailed =>
        still := true;
      case NotMember =>
        var removed := links.RemoveLinkByDiscordId(discordId.value, env.hasModerationHistory, RemoveLinkCall !in env.faults);
        still := false;
    }

    /**
     * The checks on a linked account, in order: Discord membership, quarantine (after the
     * expired-row cleanup), ToS, then the username update.
     */
    method HandleLinked(ctx: LoginContext, acct: Account, isImpersonating: bool, gatekeeper: Gatekeeper, env: LoginEnv)
      requires SeesLink(acct, env)
      modifies gatekeeper, links, quarantines
      ensures gatekeeper.decisions == old(gatekeeper.decisions) + [(ctx, old(DecideLinked(acct, env)))]
      ensures links.pendingCodes ==
        if old(DecideLinked(acct, env)) == Denied(DiscordLeft(env.freshCode)) && SavePendingCodeCall !in env.faults
        then old(links.pendingCodes)[acct := env.freshCode]
        else old(links.pendingCodes)
      ensures var gone := old(Departed(acct, env));
        links.linked == old(links.linked) - gone && links.discordIds == old(links.discordIds) - gone
      ensures links.usernames ==
        (if old(DecideLinked(acct, env)) == Allowed && !isImpersonating && UpdateUsernameCall !in env.faults
         then old(links.usernames)[acct := ctx.username]
         else old(links.usernames)) - old(Departed(acct, env))
      ensures quarantines.rows ==
        if old(CleanupReached(acct, env))
        then Cleaned(old(quarantines.rows), old(LookedUpId(acct, env)), env.now)
        else old(quarantines.rows)
    {
      ghost var out := DecideLinked(acct, env);
      ghost var gone := Departed(acct, env);
      var discordId := LookedUpId(acct, env);
      if hasQuarantineChecker {
        var isStillInDiscord := IsUserStillInDiscord(discordId, env);
        if !isStillInDiscord {
          var code := env.freshCode;
          links.SavePendingCode(acct, code, SavePendingCodeCall !in env.faults);
          gatekeeper.DenyLogin(ctx, DiscordLeft(code));
          return;
        }
        assert gone == {};
        CleanupKeepsActiveQuarantine(quarantines.rows, discordId, env.now);
        var cleanedUp := quarantines.CheckAndCleanupExpiredQuarantine(discordId, env.now, CleanupCall !in env.faults);
        var quarantine := quarantines.GetQuarantineInfo(discordId, env.now, QuarantineReadCall !in env.faults);
        if quarantine.Some? {
          var q := quarantine.value;
          gatekeeper.DenyLogin(ctx, Quarantined(q.reason, Quarantine.FormattedTimeRemaining(q, env.now), Quarantine.IsPermanent(q)));
          return;
        }
      }
      if tos.Some? && tos.value.IsEnforced() {
        if !(discordId.Some? && tos.value.HasAgreedToCurrentVersion(discordId.value, TosAttestationCall !in env.faults)) {
          gatekeeper.DenyLogin(ctx, TosNotAccepted(tos.value.GetCurrentVersion()));
          return;
        }
      }
      if !isImpersonating {
        links.UpdateUsername(acct, ctx.username, UpdateUsernameCall !in env.faults);
      }
      gatekeeper.AllowLogin(ctx);
    }

    /** The unlinked path: a stored Discord id means the link was lost; otherwise a fresh code is issued. */
    method HandleUnlinked(ctx: LoginContext, acct: Account, gatekeeper: Gatekeeper, env: LoginEnv)
      modifies gatekeeper, links
      ensures gatekeeper.decisions == old(gatekeeper.decisions) + [(ctx, old(DecideUnlinked(acct, env)))]
      ensures links.pendingCodes ==
        if old(DecideUnlinked(acct, env)) == Denied(NotLinked(env.freshCode)) && SavePendingCodeCall !in env.faults
        then old(links.pendingCodes)[acct := env.freshCode]
        else old(links.pendingCodes)
      ensures links.usernames == old(links.usernames)
      ensures links.linked == old(links.linked) && links.discordIds == old(links.discordIds)
    {
      var discordId := LookedUpId(acct, env);
      if discordId.Some? {
        gatekeeper.DenyLogin(ctx, NeedsRelink);
        return;
      }
      var code := env.freshCode;
      links.SavePendingCode(acct, code, SavePendingCodeCall !in env.faults);
      gatekeeper.DenyLogin(ctx, NotLinked(code));
    }

    /**
     * `handleLogin`: hands exactly one decision to the gatekeeper, the one `Decide` gives
     * on the state before the call; saves the fresh code when it is shown to the player and the
     * write succeeds; records the username on a non-impersonated, non-bypass admission; removes
     * the user's expired quarantine when the cleanup step is reached; and deletes the link rows
     * of a user who left Discord.
     */
    method HandleLogin(ctx: LoginContext, gatekeeper: Gatekeeper, env: LoginEnv)
      modifies gatekeeper, links, quarantines
      ensures gatekeeper.decisions == old(gatekeeper.decisions) + [(ctx, old(Decide(ctx, gatekeeper.supportsBypassRouting, env)))]
      ensures var out := old(Decide(ctx, gatekeeper.supportsBypassRouting, env));
        links.pendingCodes ==
          if out.Denied? && (out.reason.NotLinked? || out.reason.DiscordLeft?) && SavePendingCodeCall !in env.faults
          then old(links.pendingCodes)[old(AccountOf(ctx)) := env.freshCode]
          else old(links.pendingCodes)
      ensures var gone := if IsBypass(bypassServers, gatekeeper.supportsBypassRouting, ctx.virtualHost.GetOr(""))
                          then {} else old(Departed(AccountOf(ctx), env));
        links.linked == old(links.linked) - gone && links.discordIds == old(links.discordIds) - gone
      ensures var out := old(Decide(ctx, gatekeeper.supportsBypassRouting, env));
        var bypass := IsBypass(bypassServers, gatekeeper.supportsBypassRouting, ctx.virtualHost.GetOr(""));
        links.usernames ==
          (if out == Allowed && !old(Resolve(ctx.playerUuid)).1 && !bypass && UpdateUsernameCall !in env.faults
           then old(links.usernames)[old(AccountOf(ctx)) := ctx.username]
           else old(links.usernames)) - (if bypass then {} else old(Departed(AccountOf(ctx), env)))
      ensures quarantines.rows ==
        if !IsBypass(bypassServers, gatekeeper.supportsBypassRouting, ctx.virtualHost.GetOr(""))
           && old(CleanupReached(AccountOf(ctx), env))
        then Cleaned(old(quarantines.rows), old(LookedUpId(AccountOf(ctx), env)), env.now)
        else old(quarantines.rows)
    {
      var originalUuid := ctx.playerUuid;
      var isImpersonating := false;
      if impersonation.Some? && impersonation.value.IsImpersonating(ctx.playerUuid) {
        originalUuid := impersonation.value.GetOriginalUuid(ctx.playerUuid).value;
        isImpersonating := true;
      }

      var acct := Account(originalUuid, ctx.platform);
      assert acct == AccountOf(ctx) && isImpersonating == Resolve(ctx.playerUuid).1;
      ghost var out := Decide(ctx, gatekeeper.supportsBypassRouting, env);

      var virtualHost := ctx.virtualHost.GetOr("");
      if gatekeeper.supportsBypassRouting && virtualHost != [] {
        var matched := BypassMatches(virtualHost);
        if matched {
          assert out == Allowed;
          gatekeeper.AllowLogin(ctx);
          assert links.usernames == links.usernames - {};
          return;
        }
      }
      assert !IsBypass(bypassServers, gatekeeper.supportsBypassRouting, virtualHost);

      var isLinked := IsLinkedCall !in env.faults && links.IsLinked(acct);
      if isLinked {
        assert out == DecideLinked(acct, env);
        HandleLinked(ctx, acct, isImpersonating, gatekeeper, env);
      } else {
        assert out == DecideUnlinked(acct, env);
        assert !CleanupReached(acct, env) && Departed(acct, env) == {};
        HandleUnlinked(ctx, acct, gatekeeper, env);
        assert links.usernames == links.usernames - {};
      }
    }
  }

  /** An empty bypass entry matches every non-empty virtual host. */
  lemma EmptyBypassEntryMatchesAll(servers: seq<string>, host: string)
    requires exists i :: 0 <= i < |servers| && servers[i] == []
    ensures MatchesBypassServer(servers, host)
  {
    var i :| 0 <= i < |servers| && servers[i] == [];
    assert ToLower(host)[..0] == ToLower(servers[i]);
  }

  /** A bypass login is admitted whatever the ledgers hold and whichever ledger call would fail. */
  lemma BypassAdmitsUnconditionally(h: LoginHandler, ctx: LoginContext, supportsBypass: bool, env: LoginEnv)
    requires IsBypass(h.bypassServers, supportsBypass, ctx.virtualHost.GetOr(""))
    ensures h.Decide(ctx, supportsBypass, env) == Allowed
  {
  }

  /**
   * A login is admitted exactly when it is a bypass, or the chain sees the account as linked,
   * the Discord member is still present and not under an active quarantine (when a checker is
   * present), and the current ToS is accepted.
   */
  lemma AllowedIff(h: LoginHandler, ctx: LoginContext, supportsBypass: bool, env: LoginEnv)
    ensures var acct := h.AccountOf(ctx);
      var discordId := h.LookedUpId(acct, env);
      h.Decide(ctx, supportsBypass, env) == Allowed <==>
        IsBypass(h.bypassServers, supportsBypass, ctx.virtualHost.GetOr(""))
        || (h.SeesLink(acct, env)
            && (h.hasQuarantineChecker ==>
                  StillInServer(discordId, env.membership)
                  && h.QuarantineSeen(discordId, env).None?)
            && !h.TosBlocks(discordId, env))
  {
  }

  /**
   * A failing write (pending code, username, link removal or expired-quarantine cleanup) never
   * changes the decision; only failing reads can.
   */
  lemma FailedWritesKeepDecision(h: LoginHandler, ctx: LoginContext, supportsBypass: bool, env: LoginEnv)
    ensures h.Decide(ctx, supportsBypass, env)
         == h.Decide(ctx, supportsBypass, env.(faults := env.faults - {SavePendingCodeCall, UpdateUsernameCall, RemoveLinkCall, CleanupCall}))
  {
  }

  /**
   * A failing quarantine read lets a quarantined user in: with the member still present and the
   * ToS not blocking, a linked account is admitted although an active quarantine is stored.
   */
  lemma FailedQuarantineReadAdmits(h: LoginHandler, ctx: LoginContext, supportsBypass: bool, env: LoginEnv)
    requires h.SeesLink(h.AccountOf(ctx), env) && QuarantineReadCall in env.faults
    requires var discordId := h.LookedUpId(h.AccountOf(ctx), env);
      (h.hasQuarantineChecker ==> StillInServer(discordId, env.membership)) && !h.TosBlocks(discordId, env)
    ensures h.Decide(ctx, supportsBypass, env) == Allowed
  {
  }

  /** With ToS enforced, a failing attestation read denies even a member who agreed to the current version. */
  lemma FailedAttestationReadBlocks(h: LoginHandler, discordId: Option<string>, env: LoginEnv)
    requires h.tos.Some? && h.tos.value.IsEnforced() && TosAttestationCall in env.faults
    ensures h.TosBlocks(discordId, env)
  {
  }

  /** A failing `isLinked` sends a linked account down the unlinked path, where it is told to relink or to link. */
  lemma FailedLinkLookupDeniesAsUnlinked(h: LoginHandler, ctx: LoginContext, supportsBypass: bool, env: LoginEnv)
    requires !IsBypass(h.bypassServers, supportsBypass, ctx.virtualHost.GetOr(""))
    requires IsLinkedCall in env.faults
    ensures h.Decide(ctx, supportsBypass, env) == h.DecideUnlinked(h.AccountOf(ctx), env)
    ensures h.Decide(ctx, supportsBypass, env) in {Denied(NeedsRelink), Denied(NotLinked(env.freshCode))}
  {
  }

  /**
   * When a linked user is found in no guild and has no moderation history, the login deletes the
   * account's own link row along with the others of that user, and the decision is Discord-left.
   */
  lemma DepartureRemovesOwnLink(h: LoginHandler, acct: Account, env: LoginEnv)
    requires h.SeesLink(acct, env) && h.hasQuarantineChecker
    requires acct in h.links.discordIds && GetDiscordIdCall !in env.faults
    requires env.membership == NotMember && !env.hasModerationHistory && RemoveLinkCall !in env.faults
    ensures acct in h.Departed(acct, env)
    ensures h.DecideLinked(acct, env) == Denied(DiscordLeft(env.freshCode))
  {
    assert h.LookedUpId(acct, env) == Some(h.links.discordIds[acct]);
  }

  /**
   * The order of the checks on a linked account: having left Discord is reported before any
   * quarantine, and a quarantine before the ToS.
   */
  lemma LinkedCheckOrder(h: LoginHandler, ctx: LoginContext, supportsBypass: bool, env: LoginEnv)
    requires !IsBypass(h.bypassServers, supportsBypass, ctx.virtualHost.GetOr(""))
    requires env.faults == {} && h.AccountOf(ctx) in h.links.linked && h.hasQuarantineChecker
    ensures var discordId := h.links.GetDiscordId(h.AccountOf(ctx));
      var q := ActiveQuarantine(h.quarantines.rows, discordId, env.now);
      var out := h.Decide(ctx, supportsBypass, env);
      && (!StillInServer(discordId, env.membership) ==> out == Denied(DiscordLeft(env.freshCode)))
      && (StillInServer(discordId, env.membership) && q.Some? ==>
            out == Denied(Quarantined(q.value.reason, Quarantine.FormattedTimeRemaining(q.value, env.now), Quarantine.IsPermanent(q.value))))
      && (StillInServer(discordId, env.membership) && q.None? && h.TosBlocks(discordId, env) ==>
            out == Denied(TosNotAccepted(h.tos.value.GetCurrentVersion())))
  {
  }

  /** An unlinked account is told to relink exactly when a Discord id is still stored for it; otherwise it gets the fresh code. */
  lemma UnlinkedOutcome(h: LoginHandler, ctx: LoginContext, supportsBypass: bool, env: LoginEnv)
    requires !IsBypass(h.bypassServers, supportsBypass, ctx.virtualHost.GetOr(""))
    requires env.faults == {} && h.AccountOf(ctx) !in h.links.linked
    ensures h.Decide(ctx, supportsBypass, env) == Denied(NeedsRelink) <==> h.links.GetDiscordId(h.AccountOf(ctx)).Some?
    ensures h.links.GetDiscordId(h.AccountOf(ctx)).None? ==> h.Decide(ctx, supportsBypass, env) == Denied(NotLinked(env.freshCode))
  {
  }

  /** An impersonated login is judged as the staff member's own login: the decision is the one the original UUID would get. */
  lemma ImpersonationJudgedAsOriginal(h: LoginHandler, ctx: LoginContext, supportsBypass: bool, env: LoginEnv)
    requires h.impersonation.Some? && h.impersonation.value.IsImpersonating(ctx.playerUuid)
    requires h.impersonation.value.active[ctx.playerUuid] !in h.impersonation.value.active
    ensures h.AccountOf(ctx) == Account(h.impersonation.value.active[ctx.playerUuid], ctx.platform)
    ensures h.Decide(ctx, supportsBypass, env) ==
      h.Decide(ctx.(playerUuid := h.impersonation.value.active[ctx.playerUuid]), supportsBypass, env)
  {
  }
}

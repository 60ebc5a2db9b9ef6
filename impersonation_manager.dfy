/**
 * The impersonation registry: which staff names may impersonate, which impersonations
 * are waiting for the next login, and which connected profiles stand in for whom.
 */
module Impersonation {
  import opened Wrappers
  import opened Text

  /** A `java.util.UUID`: its two 64-bit halves. */
  datatype Uuid = Uuid(mostSignificantBits: int, leastSignificantBits: int)

  /** One signed game-profile property (skin textures and the like). */
  datatype ProfileProperty = ProfileProperty(name: string, value: string, signature: string)

  /** The profile a staff member will appear as. */
  datatype ImpersonationData = ImpersonationData(username: string, uuid: Uuid, properties: seq<ProfileProperty>)

  /** An entry of the configured allow-list that is kept: present and not empty once trimmed. */
  predicate IsListedName(entry: Option<string>) {
    entry.Some? && Trim(entry.value) != []
  }

  /** The allow-list built from the configured entries: every kept entry, lower-cased. */
  function AllowedNames(users: seq<Option<string>>): set<string> {
    if users == [] then {}
    else
      var last := users[|users| - 1];
      AllowedNames(users[..|users| - 1]) + (if IsListedName(last) then {ToLower(last.value)} else {})
  }

  /** A name is on the built list exactly when some kept entry lower-cases to it. */
  lemma {:induction false} AllowedNamesMembership(users: seq<Option<string>>, name: string)
    ensures name in AllowedNames(users) <==>
      exists i :: 0 <= i < |users| && IsListedName(users[i]) && ToLower(users[i].value) == name
  {
    if users != [] {
      var init := users[..|users| - 1];
      AllowedNamesMembership(init, name);
      if name in AllowedNames(init) {
        var i :| 0 <= i < |init| && IsListedName(init[i]) && ToLower(init[i].value) == name;
        assert users[i] == init[i];
      }
      if exists i :: 0 <= i < |users| && IsListedName(users[i]) && ToLower(users[i].value) == name {
        var i :| 0 <= i < |users| && IsListedName(users[i]) && ToLower(users[i].value) == name;
        if i < |init| {
          assert init[i] == users[i];
        }
      }
    }
  }

  /** Every name on the built list is already in lower case. */
  lemma AllowedNamesAreLowerCase(users: seq<Option<string>>, name: string)
    requires name in AllowedNames(users)
    ensures ToLower(name) == name
  {
    AllowedNamesMembership(users, name);
    var i :| 0 <= i < |users| && IsListedName(users[i]) && ToLower(users[i].value) == name;
    ToLowerIdempotent(users[i].value);
  }

  class ImpersonationManager {
    /** Staff original UUID to the profile they will log in as. */
    var pending: map<Uuid, ImpersonationData>
    /** Impersonated UUID to the staff member's original UUID. */
    var active: map<Uuid, Uuid>
    /** Lower-cased names allowed to impersonate. */
    var allowedUsers: set<string>

    constructor ()
      ensures pending == map[] && active == map[] && allowedUsers == {}
    {
      pending := map[];
      active := map[];
      allowedUsers := {};
    }

    /**
     * `setAllowedUsers`: clears the list and refills it with the lower-cased entries that are
     * present and non-empty after trimming; a missing array leaves it empty.
     */
    method SetAllowedUsers(users: Option<seq<Option<string>>>)
      modifies this
      ensures users.None? ==> allowedUsers == {}
      ensures users.Some? ==> allowedUsers == AllowedNames(users.value)
      ensures pending == old(pending) && active == old(active)
    {
      allowedUsers := {};
      if users.Some? {
        var us := users.value;
        var i := 0;
        while i < |us|
          invariant 0 <= i <= |us|
          invariant allowedUsers == AllowedNames(us[..i])
          invariant pending == old(pending) && active == old(active)
        {
          assert us[..i + 1][..i] == us[..i];
          var user := us[i];
          if user.Some? && Trim(user.value) != [] {
            allowedUsers := allowedUsers + {ToLower(user.value)};
          }
          i := i + 1;
        }
        assert us[..|us|] == us;
      }
    }

    /** `isUserAllowed`: membership of the lower-cased name. */
    predicate IsUserAllowed(username: string)
      reads this
    {
      ToLower(username) in allowedUsers
    }

    /** `addImpersonation`: stores (or overwrites) the pending profile for a staff UUID. */
    method AddImpersonation(originalUuid: Uuid, data: ImpersonationData)
      modifies this
      ensures pending == old(pending)[originalUuid := data]
      ensures active == old(active) && allowedUsers == old(allowedUsers)
    {
      pending := pending[originalUuid := data];
    }

    /** `getImpersonation`: the pending profile, if any. */
    function GetImpersonation(originalUuid: Uuid): (r: Option<ImpersonationData>)
      reads this
      ensures r.Some? <==> HasImpersonation(originalUuid)
      ensures r.Some? ==> pending[originalUuid] == r.value
    {
      if originalUuid in pending then Some(pending[originalUuid]) else None
    }

    /** `removeImpersonation`: removes the pending profile and returns what was there. */
    method RemoveImpersonation(originalUuid: Uuid) returns (removed: Option<ImpersonationData>)
      modifies this
      ensures removed == old(GetImpersonation(originalUuid))
      ensures pending == old(pending) - {originalUuid}
      ensures active == old(active) && allowedUsers == old(allowedUsers)
    {
      removed := GetImpersonation(originalUuid);
      pending := pending - {originalUuid};
    }

    /** `clearImpersonation`: the same removal, without a result. */
    method ClearImpersonation(originalUuid: Uuid)
      modifies this
      ensures pending == old(pending) - {originalUuid}
      ensures active == old(active) && allowedUsers == old(allowedUsers)
    {
      pending := pending - {originalUuid};
    }

    /** `hasImpersonation`. */
    predicate HasImpersonation(originalUuid: Uuid)
      reads this
    {
      originalUuid in pending
    }

    /** `setActiveImpersonation`: records that `impersonatedUuid` is really `originalUuid`. */
    method SetActiveImpersonation(impersonatedUuid: Uuid, originalUuid: Uuid)
      modifies this
      ensures active == old(active)[impersonatedUuid := originalUuid]
      ensures pending == old(pending) && allowedUsers == old(allowedUsers)
    {
      active := active[impersonatedUuid := originalUuid];
    }

    /** `getOriginalUuid`: the staff UUID behind an impersonated one, if any. */
    function GetOriginalUuid(impersonatedUuid: Uuid): (r: Option<Uuid>)
      reads this
      ensures r.Some? <==> IsImpersonating(impersonatedUuid)
      ensures r.Some? ==> active[impersonatedUuid] == r.value
    {
      if impersonatedUuid in active then Some(active[impersonatedUuid]) else None
    }

    /** `isImpersonating`. */
    predicate IsImpersonating(uuid: Uuid)
      reads this
    {
      uuid in active
    }

    /** `removeActiveImpersonation`: drops only that key. */
    method RemoveActiveImpersonation(impersonatedUuid: Uuid)
      modifies this
      ensures active == old(active) - {impersonatedUuid}
      ensures pending == old(pending) && allowedUsers == old(allowedUsers)
    {
      active := active - {impersonatedUuid};
    }
  }

  /** After a pending profile is added it is found, and any other staff UUID's entry is untouched. */
  lemma AddThenGet(m: ImpersonationManager, before: map<Uuid, ImpersonationData>, o: Uuid, d: ImpersonationData, other: Uuid)
    requires m.pending == before[o := d]
    requires other != o
    ensures m.GetImpersonation(o) == Some(d) && m.HasImpersonation(o)
    ensures m.GetImpersonation(other) == (if other in before then Some(before[other]) else None)
  {
  }

  /** After a removal the staff UUID has no pending profile, and the others are untouched. */
  lemma RemoveThenGet(m: ImpersonationManager, before: map<Uuid, ImpersonationData>, o: Uuid, other: Uuid)
    requires m.pending == before - {o}
    requires other != o
    ensures m.GetImpersonation(o) == None && !m.HasImpersonation(o)
    ensures m.GetImpersonation(other) == (if other in before then Some(before[other]) else None)
  {
  }

  /** After an activation the impersonated UUID resolves to the original; removal undoes only it. */
  lemma ActivateThenResolve(m: ImpersonationManager, before: map<Uuid, Uuid>, i: Uuid, o: Uuid)
    requires m.active == before[i := o]
    ensures m.IsImpersonating(i) && m.GetOriginalUuid(i) == Some(o)
    ensures (m.active - {i}) == before - {i}
  {
  }

  /**
   * `isUserAllowed` after `setAllowedUsers(users)`: a name is allowed exactly when some kept
   * entry matches it ignoring ASCII case.
   */
  lemma AllowedIgnoresCase(m: ImpersonationManager, users: seq<Option<string>>, username: string)
    requires m.allowedUsers == AllowedNames(users)
    ensures m.IsUserAllowed(username) <==>
      exists i :: 0 <= i < |users| && IsListedName(users[i]) && ToLower(users[i].value) == ToLower(username)
  {
    AllowedNamesMembership(users, ToLower(username));
  }
}

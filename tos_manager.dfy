/**
 * Terms-of-Service versions and attestations: which version is current, who agreed to it,
 * and what text seeds a version the ledger does not yet hold.
 */
module Tos {
  import opened Wrappers
  import opened Text

  /** The `tos` section of the configuration; `version` may be absent. */
  datatype TosConfig = TosConfig(enforcement: bool, version: Option<string>, content: string, url: string)

  /** The `tos_attestations` and `tos_versions` tables. */
  class TosStore {
    /** discord_id to the version that user agreed to (primary key discord_id). */
    var attestations: map<string, string>
    /** version to its content (primary key version). */
    var versions: map<string, string>
    /** The version whose `active` flag is set, if any. */
    var activeVersion: Option<string>

    constructor ()
      ensures attestations == map[] && versions == map[] && activeVersion == None
    {
      attestations := map[];
      versions := map[];
      activeVersion := None;
    }

    /** `getTosAttestation`. */
    function GetTosAttestation(discordId: string): (r: Option<string>)
      reads this
      ensures r.Some? <==> discordId in attestations
      ensures r.Some? ==> r.value == attestations[discordId]
    {
      if discordId in attestations then Some(attestations[discordId]) else None
    }

    /** `getTosVersionContent`. */
    function GetTosVersionContent(version: string): (r: Option<string>)
      reads this
      ensures r.Some? <==> version in versions
      ensures r.Some? ==> r.value == versions[version]
    {
      if version in versions then Some(versions[version]) else None
    }

    /**
     * `addTosAttestation`: upsert on discord_id; `writeOk` is whether the statement succeeds.
     * A missing version violates NOT NULL and fails.
     */
    method AddTosAttestation(discordId: string, version: Option<string>, writeOk: bool) returns (success: bool)
      modifies this
      ensures success <==> writeOk && version.Some?
      ensures attestations == if success then old(attestations)[discordId := version.value] else old(attestations)
      ensures versions == old(versions) && activeVersion == old(activeVersion)
    {
      if writeOk && version.Some? {
        attestations := attestations[discordId := version.value];
        success := true;
      } else {
        success := false;
      }
    }

    /**
     * `addTosVersion`: in one transaction, clears every active flag and upserts the version as
     * the active one; on failure the transaction rolls back.
     */
    method AddTosVersion(version: string, content: string, writeOk: bool) returns (success: bool)
      modifies this
      ensures success == writeOk
      ensures versions == if success then old(versions)[version := content] else old(versions)
      ensures activeVersion == if success then Some(version) else old(activeVersion)
      ensures attestations == old(attestations)
    {
      if writeOk {
        versions := versions[version := content];
        activeVersion := Some(version);
      }
      success := writeOk;
    }
  }

  const UrlReferencePrefix: string := "Please review our Terms of Service at: "
  const MissingContentNotice: string := "Terms of Service " + "content not configured. Please contact an administrator."

  /**
   * The content a new version is seeded with: the configured content if it is not blank,
   * else a reference to the configured URL if that is not blank, else a notice.
   */
  function DefaultContent(config: TosConfig): (r: string)
    ensures !IsBlank(r)
    ensures !IsBlank(config.content) ==> r == config.content
    ensures IsBlank(config.content) && !IsBlank(config.url) ==> r == UrlReferencePrefix + config.url
    ensures IsBlank(config.content) && IsBlank(config.url) ==> r == MissingContentNotice
  {
    if !IsBlank(config.content) then
      config.content
    else if !IsBlank(config.url) then
      assert (UrlReferencePrefix + config.url)[0] == UrlReferencePrefix[0] == 'P';
      UrlReferencePrefix + config.url
    else
      assert MissingContentNotice[0] == 'T';
      MissingContentNotice
  }

  /** The constructor's guard: enforcement on and a non-blank version configured. */
  predicate ShouldInitialize(config: TosConfig) {
    config.enforcement && config.version.Some? && !IsBlank(config.version.value)
  }

  class TosManager {
    const db: TosStore
    const config: TosConfig

    /**
     * Seeds the configured version when the guard holds; `readOk` is whether the content read
     * succeeds and `writeOk` whether the ledger write would succeed.
     */
    constructor (db: TosStore, config: TosConfig, readOk: bool, writeOk: bool)
      modifies db
      ensures this.db == db && this.config == config
      ensures !ShouldInitialize(config) ==> unchanged(db)
      ensures ShouldInitialize(config) ==> InitializedState(db, config, old(db.versions), old(db.activeVersion), readOk, writeOk)
      ensures db.attestations == old(db.attestations)
    {
      this.db := db;
      this.config := config;
      new;
      if ShouldInitialize(config) {
        InitializeTosVersion(readOk, writeOk);
      }
    }

    /**
     * `initializeTosVersion`: stores the default content under the configured version when the
     * content read finds no such version. When the read succeeds, an existing version's content is
     * kept whatever the configuration says. A failed read is caught and answers no content, so the
     * version is then written again, replacing the stored content.
     */
    method InitializeTosVersion(readOk: bool, writeOk: bool)
      requires config.version.Some?
      modifies db
      ensures InitializedState(db, config, old(db.versions), old(db.activeVersion), readOk, writeOk)
      ensures db.attestations == old(db.attestations)
    {
      var version := config.version.value;
      var existingContent := if readOk then db.GetTosVersionContent(version) else None;
      if existingContent.None? {
        var defaultContent := DefaultContent(config);
        var ok := db.AddTosVersion(version, defaultContent, writeOk);
      }
    }

    /**
     * `hasAgreedToCurrentVersion`: always when not enforced; otherwise the stored version equals
     * the configured one. `attestationReadOk` is whether the attestation read succeeds; a failed
     * read is caught and answers no attestation.
     */
    predicate HasAgreedToCurrentVersion(discordId: string, attestationReadOk: bool): (agreed: bool)
      reads this, db
      ensures agreed <==> !config.enforcement
                          || (attestationReadOk && discordId in db.attestations
                              && config.version == Some(db.attestations[discordId]))
      ensures config.enforcement && config.version.None? ==> !agreed
      ensures !attestationReadOk ==> (agreed <==> !config.enforcement)
    {
      if !config.enforcement then true
      else
        var agreedVersion := if attestationReadOk then db.GetTosAttestation(discordId) else None;
        agreedVersion.Some? && config.version == agreedVersion
    }

    /**
     * `recordAttestation`: succeeds without writing when not enforced; otherwise reports the
     * ledger write of the configured version.
     */
    method RecordAttestation(discordId: string, writeOk: bool) returns (success: bool)
      modifies db
      ensures !config.enforcement ==> success && unchanged(db)
      ensures config.enforcement ==> (success <==> writeOk && config.version.Some?)
      ensures config.enforcement && success ==> db.attestations == old(db.attestations)[discordId := config.version.value]
      ensures !success ==> db.attestations == old(db.attestations)
      ensures db.versions == old(db.versions) && db.activeVersion == old(db.activeVersion)
      ensures success ==> HasAgreedToCurrentVersion(discordId, true)
      ensures forall other :: other != discordId ==>
        (HasAgreedToCurrentVersion(other, true) <==> old(HasAgreedToCurrentVersion(other, true)))
    {
      if !config.enforcement {
        return true;
      }
      success := db.AddTosAttestation(discordId, config.version, writeOk);
    }

    /** `getCurrentVersion`. */
    function GetCurrentVersion(): Option<string>
      reads this
    {
      config.version
    }

    /** `isEnforced`. */
    predicate IsEnforced()
      reads this
    {
      config.enforcement
    }
  }

  /**
   * What initialisation leaves behind: a version the content read finds keeps its content and
   * nothing changes; otherwise, if the write succeeds, the version is stored with the default
   * content and made active.
   */
  ghost predicate InitializedState(db: TosStore, config: TosConfig, oldVersions: map<string, string>,
                                   oldActive: Option<string>, readOk: bool, writeOk: bool)
    requires config.version.Some?
    reads db
  {
    var v := config.version.value;
    if (readOk && v in oldVersions) || !writeOk then
      db.versions == oldVersions && db.activeVersion == oldActive
    else
      db.versions == oldVersions[v := DefaultContent(config)] && db.activeVersion == Some(v)
  }

  /**
   * After initialisation the configured version has non-blank content unless the write failed.
   * A version the read finds keeps its stored content.
   */
  lemma InitializedVersionHasContent(db: TosStore, config: TosConfig, oldVersions: map<string, string>,
                                     oldActive: Option<string>, readOk: bool, writeOk: bool)
    requires config.version.Some?
    requires InitializedState(db, config, oldVersions, oldActive, readOk, writeOk)
    ensures readOk && config.version.value in oldVersions ==>
      db.versions[config.version.value] == oldVersions[config.version.value]
    ensures (!readOk || config.version.value !in oldVersions) && writeOk ==>
      db.versions[config.version.value] == DefaultContent(config) && !IsBlank(db.versions[config.version.value])
  {
  }

  /**
   * A failed content read followed by a successful write replaces a stored version's content with
   * the default content, and the version becomes the active one.
   */
  lemma FailedContentReadOverwrites(db: TosStore, config: TosConfig, oldVersions: map<string, string>,
                                    oldActive: Option<string>)
    requires config.version.Some? && config.version.value in oldVersions
    requires oldVersions[config.version.value] != DefaultContent(config)
    requires InitializedState(db, config, oldVersions, oldActive, false, true)
    ensures db.versions[config.version.value] != oldVersions[config.version.value]
    ensures db.activeVersion == config.version
  {
  }
}

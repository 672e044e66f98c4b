/** The package-wide names: collections, database classes, mission naming, file names. */
module Constants {
  import opened Optional

  const PackageName := "cyber_radar"
  const ClientConfigPath := "config/client_config.toml"
  const MissionPrefix := "mission-"
  const DefaultMission := "default"
  const DefaultCommandCollection := "raw-commands"
  const DefaultMetadataCollection := "command-metadata"
  const DefaultTargetCollection := "targets"
  const ProtectedDatabases := ["admin", "config", "local"]
  const RestrictedDatabases := ["radar-control"]
  const LocalCommAddr := "127.0.0.1"
  const UplinkSavedQueueFilename := "uplink_queue.txt"

  /** The list-valued attributes of the module. */
  const ListAttributes: set<string> := {"PROTECTED_DATABASES", "RESTRICTED_DATABASES"}

  /** The text-valued attributes of the module, by name. */
  const TextAttributes: map<string, string> := map[
    "PACKAGE_NAME" := PackageName,
    "CLIENT_CONFIG" := ClientConfigPath,
    "UPLINK_CONFIG" := "config/uplink_config.toml",
    "SERVER_CONFIG" := "config/server_config.toml",
    "MISSION_PREFIX" := MissionPrefix,
    "DEFAULT_MISSION" := DefaultMission,
    "DEFAULT_COMMAND_COLLECTION" := DefaultCommandCollection,
    "DEFAULT_METADATA_COLLECTION" := DefaultMetadataCollection,
    "DEFAULT_TARGET_COLLECTION" := DefaultTargetCollection,
    "LOCAL_COMM_ADDR" := LocalCommAddr,
    "UPLINK_API_KEY_FILENAME" := "uplink_api_key.txt",
    "UPLINK_SAVED_QUEUE_FILENAME" := UplinkSavedQueueFilename]

  /**
   * `const.<name>` for a text attribute: its value, or `None` where the module has no attribute
   * of that name, which Python reports as an AttributeError. Every text attribute is a non-empty
   * string, and no name is both a text and a list attribute.
   */
  function Attribute(name: string): (r: Option<string>)
    ensures r.Some? <==> name in TextAttributes
    ensures r.Some? ==> r.value == TextAttributes[name]
    ensures r.Some? ==> r.value != "" && name !in ListAttributes
  {
    if name in TextAttributes then Some(TextAttributes[name]) else None
  }

  /** Whether the module has an attribute of that name at all. */
  predicate Defines(name: string)
  {
    name in TextAttributes || name in ListAttributes
  }

  /**
   * The share collection and the three address patterns that the worker, the server, the uplink
   * client and the commander look up are not attributes of the module, so each lookup raises
   * AttributeError; the collections next to them are defined.
   */
  lemma SharePatternsUndefined()
    ensures !Defines("DEFAULT_SHARE_COLLECTION") && Attribute("DEFAULT_SHARE_COLLECTION").None?
    ensures !Defines("IPADDR_REX") && !Defines("IPRANGE_REX") && !Defines("IPCIDR_REX")
    ensures Attribute("DEFAULT_COMMAND_COLLECTION") == Some("raw-commands")
    ensures Attribute("DEFAULT_METADATA_COLLECTION") == Some("command-metadata")
    ensures Attribute("DEFAULT_TARGET_COLLECTION") == Some("targets")
  {
  }
}

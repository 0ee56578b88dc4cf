/**
 * The user's configuration (pkg/config/config.go) as plain values. Reading
 * and decoding the TOML file is not part of this model: a load is either a
 * configuration or a failure.
 */
module Config {
  import opened Wrappers

  datatype ContainerConfig = ContainerConfig(image: string, version: string)

  datatype Config = Config(
    name: string,
    packages: map<string, string>,
    containers: map<string, ContainerConfig>)

  /** What LoadConfig returns: a configuration only when `name` is set. */
  function Loaded(decoded: Option<Config>): (r: Option<Config>)
    ensures r.Some? <==> decoded.Some? && decoded.value.name != ""
    ensures r.Some? ==> r == decoded
  {
    match decoded
    case None => None
    case Some(c) => if c.name == "" then None else Some(c)
  }

  /** The names of the configured containers; a missing configuration configures none. */
  function ActiveContainers(cfg: Option<Config>): (r: set<string>)
    ensures cfg.Some? ==> r == cfg.value.containers.Keys
    ensures cfg.None? ==> r == {}
  {
    if cfg.Some? then cfg.value.containers.Keys else {}
  }
}

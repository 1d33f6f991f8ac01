/** The fixed URL tables and `parseConfig` of the Blockscout verifier. */
module BlockscoutConfig {
  import opened Optional
  import opened BlockscoutTypes

  /** Verification API per supported network id. */
  const ApiUrls: map<int, string> := map[
    1 := "https://blockscout.com/eth/mainnet/api",
    77 := "https://blockscout.com/poa/sokol/api",
    100 := "https://blockscout.com/poa/xdai/api"]

  /** Explorer address pages per network id (id 1 points at sokol, as the source has it). */
  const ExplorerUrls: map<int, string> := map[
    1 := "https://blockscout.com/poa/sokol/address",
    77 := "https://blockscout.com/poa/sokol/address",
    100 := "https://blockscout.com/poa/xdai/address"]

  /**
   * Derives the run's options. The network id must be one of the three
   * supported ids, checked first; then there must be at least one token
   * after the subcommand. The optimizer flag is reduced to its truthiness;
   * runs, EVM target and license are copied through.
   */
  function ParseConfig(c: Config): (r: Result<Options>)
    ensures r.Ok? <==> c.networkId in {1, 77, 100} && |c.args| > 1
    ensures c.networkId !in {1, 77, 100} ==> r == Err(UnsupportedNetwork(c.network, c.networkId))
    ensures c.networkId in {1, 77, 100} && |c.args| <= 1 ==> r == Err(NoContractNames)
    ensures r.Ok? ==>
      && r.value.networkId == c.networkId
      && r.value.networkId in ApiUrls && r.value.networkId in ExplorerUrls
      && r.value.apiUrl == ApiUrls[c.networkId]
      && (r.value.optimizationUsed <==> Truthy(c.optimizerEnabled))
      && r.value.runs == c.optimizerRuns
      && r.value.evmVersion == c.evmTarget
      && r.value.license == c.license
      && r.value.workingDir == c.workingDirectory
      && r.value.buildDir == c.buildDirectory
  {
    if c.networkId !in ApiUrls then
      Err(UnsupportedNetwork(c.network, c.networkId))
    else if |c.args| <= 1 then
      Err(NoContractNames)
    else
      Ok(Options(
        apiUrl := ApiUrls[c.networkId],
        networkId := c.networkId,
        workingDir := c.workingDirectory,
        buildDir := c.buildDirectory,
        optimizationUsed := if Truthy(c.optimizerEnabled) then true else false,
        runs := c.optimizerRuns,
        evmVersion := c.evmTarget,
        license := c.license))
  }
}

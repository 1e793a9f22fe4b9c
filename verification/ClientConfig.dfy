/** The configuration values that the modelled code reads. */
module ClientConfig {
  import opened Wrappers
  import opened Domain

  datatype Config = Config(
    url: string,
    clientKey: string,
    appName: string,
    instanceId: string,
    connectionId: string,
    headerName: string,
    /** In the key order of the map that holds them. */
    customHeaders: seq<(string, string)>,
    usePostRequests: bool,
    bootstrap: Option<ToggleSet>,
    bootstrapOverride: bool,
    impressionDataAll: bool,
    refreshEnabled: bool,
    metricsEnabled: bool,
    metricsDelayed: bool)
}

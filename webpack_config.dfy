/**
 * The environment-dependent part of the bundler configuration object that
 * webpack.config.js exports: the production switch read from NODE_ENV, the
 * settings derived from it, the dev-server host, and the plugin list that is
 * extended in place for production builds.
 */
module WebpackConfig {
  import opened HostResolver

  /** An environment variable that may be unset (undefined in the source). */
  datatype Option<T> = None | Some(value: T)

  /**
   * Plugin instances are objects of third-party libraries; the model keeps
   * only which plugin each one is.
   */
  datatype Plugin =
    | HappyPack
    | ExtractText
    | HtmlWebpack
    | ProgressBar
    | HardSource
    | CopyWebpack
    | CleanWebpack

  const Production: string := "production"

  /** The plugins listed in the configuration literal, in order. */
  const BasePlugins: seq<Plugin> :=
    [HappyPack, ExtractText, HtmlWebpack, ProgressBar, HardSource, CopyWebpack]

  /** `NODE_ENV === 'production'`; an unset variable is not production. */
  predicate IsProd(nodeEnv: Option<string>) {
    nodeEnv == Some(Production)
  }

  /** The bundle name carries a content hash only in production. */
  function OutputFilename(isProd: bool): string {
    if isProd then "bundle@[chunkhash].js" else "bundle.js"
  }

  /** Source maps are produced only outside production. */
  function Devtool(isProd: bool): string {
    if isProd then "none" else "cheap-module-source-map"
  }

  /**
   * The plugin list after the configuration file has run: the base plugins,
   * unchanged and in order, followed by the clean-up plugin exactly in
   * production.
   */
  function PluginsFor(isProd: bool): (r: seq<Plugin>)
    ensures |r| == |BasePlugins| + (if isProd then 1 else 0)
    ensures r[..|BasePlugins|] == BasePlugins
    ensures CleanWebpack in r <==> isProd
  {
    if isProd then BasePlugins + [CleanWebpack] else BasePlugins
  }

  /** The exported configuration object, restricted to its modelled fields. */
  class Config {
    var mode: Option<string>
    var outputFilename: string
    var devtool: string
    var minimize: bool
    var host: string
    var plugins: seq<Plugin>

    /** The object literal, evaluated with the given NODE_ENV and host. */
    constructor (nodeEnv: Option<string>, devHost: string)
      ensures mode == nodeEnv
      ensures outputFilename == OutputFilename(IsProd(nodeEnv))
      ensures devtool == Devtool(IsProd(nodeEnv))
      ensures minimize == IsProd(nodeEnv)
      ensures host == devHost
      ensures plugins == BasePlugins
    {
      var isProd := IsProd(nodeEnv);
      mode := nodeEnv;
      outputFilename := if isProd then "bundle@[chunkhash].js" else "bundle.js";
      devtool := if isProd then "none" else "cheap-module-source-map";
      minimize := isProd;
      host := devHost;
      plugins := BasePlugins;
    }

    /** `config.plugins.push(p)`: appends and touches no other field. */
    method PushPlugin(p: Plugin)
      modifies this
      ensures plugins == old(plugins) + [p]
      ensures mode == old(mode) && outputFilename == old(outputFilename)
      ensures devtool == old(devtool) && minimize == old(minimize) && host == old(host)
    {
      plugins := plugins + [p];
    }
  }

  /**
   * Loading the configuration file: resolve the dev-server host, build the
   * literal, then add the clean-up plugin in production.
   */
  method LoadConfig(nodeEnv: Option<string>, network: Network) returns (config: Config)
    ensures fresh(config)
    ensures config.mode == nodeEnv
    ensures config.outputFilename == OutputFilename(IsProd(nodeEnv))
    ensures config.devtool == Devtool(IsProd(nodeEnv))
    ensures config.minimize == IsProd(nodeEnv)
    ensures config.host == ResolveHost(network)
    ensures config.plugins == PluginsFor(IsProd(nodeEnv))
  {
    var isProd := IsProd(nodeEnv);
    var devHost := GetNetworkIp(network);
    config := new Config(nodeEnv, devHost);
    if isProd {
      config.PushPlugin(CleanWebpack);
    }
  }

  /**
   * The production-specific settings are in force exactly when NODE_ENV is
   * "production": the hashed bundle name, no source maps and the clean-up
   * plugin.  That `minimize` equals the switch is stated by the constructor of
   * Config and by LoadConfig.
   */
  lemma ProductionSwitch(nodeEnv: Option<string>)
    ensures OutputFilename(IsProd(nodeEnv)) == "bundle@[chunkhash].js" <==> nodeEnv == Some("production")
    ensures OutputFilename(IsProd(nodeEnv)) == "bundle.js" <==> nodeEnv != Some("production")
    ensures Devtool(IsProd(nodeEnv)) == "none" <==> nodeEnv == Some("production")
    ensures Devtool(IsProd(nodeEnv)) == "cheap-module-source-map" <==> nodeEnv != Some("production")
    ensures CleanWebpack in PluginsFor(IsProd(nodeEnv)) <==> nodeEnv == Some("production")
  {
  }

  /** An unset NODE_ENV gives the development settings. */
  lemma UnsetIsDevelopment()
    ensures !IsProd(None)
    ensures PluginsFor(IsProd(None)) == BasePlugins
  {
  }
}

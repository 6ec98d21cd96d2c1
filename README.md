# webpackDemo configuration: dev-server host selection and the production switch

This project models the only logic in `webpack.config.js`, the configuration
file of a small front-end bundling setup.

- **Host selection** (`getNetworkIp`). The function walks the operating
  system's network-interface table: every interface in enumeration order,
  then its address records by index. It keeps the most recent address that is
  IPv4, is not `127.0.0.1` and is not flagged internal. If no record passes,
  the result is `""`. If the enumeration throws, the result is `"localhost"`.
  The result becomes the dev server's `host`.
- **The production switch**. `isProd` means `NODE_ENV === 'production'`. It
  decides the bundle file name, the `devtool` setting, `minimize` and whether
  the clean-up plugin is pushed onto the plugin list after the configuration
  literal is built.

Module `HostResolver` (`host_resolver.dfy`) holds the host selection.
`GetNetworkIp` is a method with the source's two nested loops. It is proved
equal to `ResolveHost`, a function over the enumeration outcome. `ResolveHost`
is defined by `LastQualifying`, the last qualifying address of the flattened
record sequence. Its meaning is then proved on the nested interface/index
structure in `ResolveHostInOrder`. The loop invariant is the source's own:
after any prefix of the records, `needHost` is the last qualifying address of
that prefix, or `""` if there is none.

Module `WebpackConfig` (`webpack_config.dfy`) holds the configuration object.
It is a class `Config` with the modelled fields. `PushPlugin` appends to its
`plugins` sequence in place. `LoadConfig` runs the file: it resolves the host,
builds the literal, then pushes the clean-up plugin in production.

The operating system's interface table is an input of type `Network`. It is
either `Interfaces(entries)`, listed in the order the `for ... in` loop visits
the keys, or `EnumerationError` when `os.networkInterfaces()` throws.
`NODE_ENV` is an input `Option<string>`: `None` stands for an unset variable,
which the source compares as `undefined`.

Because `GetNetworkIp` is proved equal to a function of its input, two calls on
the same interface table return the same host.

One behaviour can be surprising: an IPv4, non-internal record whose address
is the empty string passes the test, so `""` does not always mean that nothing
qualified (`EmptyAddressQualifies`).

## Model

| member | source | states |
|---|---|---|
| HostResolver.LastQualifying | webpack.config.js:17-30 | the selected address is `""` or the address of some record that is IPv4, not `127.0.0.1` and not internal; it is never the loopback literal |
| HostResolver.LastQualifyingSnoc | webpack.config.js:25-29 | one loop step: a qualifying record makes its address the current host; any other record leaves the current host unchanged |
| HostResolver.LastQualifyingIsLast | webpack.config.js:22-30 | if some record qualifies, the result is the address of a qualifying record after which no record qualifies; if none qualifies, the result is `""` |
| HostResolver.LastQualifyingConcat | webpack.config.js:22-30 | over two consecutive blocks of records, a qualifying record in the later block overrides all of the earlier block; otherwise the earlier block decides |
| HostResolver.FlattenSnoc | webpack.config.js:22-25 | the records seen after k+1 interfaces are those seen after k interfaces followed by interface k's records in index order |
| HostResolver.ResolveHostInOrder | webpack.config.js:16-37 | on a successful enumeration: `""` when no record of any interface qualifies (including no interfaces, or only empty lists); otherwise the address of the qualifying record at (interface k, index j) with no qualifying record at a later interface or at a later index of interface k |
| HostResolver.GetNetworkIp | webpack.config.js:16-37 | the nested loops return exactly `ResolveHost` of the enumeration outcome; a failed enumeration gives `"localhost"` |
| HostResolver.LoopbackOnly | webpack.config.js:27 | a single internal `127.0.0.1` record gives `""` |
| HostResolver.SingleExternal | webpack.config.js:27-28 | a single external IPv4 record `192.168.1.5` is selected |
| HostResolver.LaterInterfaceWins | webpack.config.js:22-30 | with qualifying records on `eth0` and then `wlan0`, the `wlan0` address is selected |
| HostResolver.EmptyAddressQualifies | webpack.config.js:27-28 | a qualifying record with an empty address exists, and the result is `""` |
| WebpackConfig.PluginsFor | webpack.config.js:171-225 | the final plugin list starts with the six base plugins, in order and unaltered; it has one more entry exactly in production; it contains the clean-up plugin exactly in production |
| WebpackConfig.Config.constructor | webpack.config.js:39-220 | the literal: `mode` is NODE_ENV, the file name, devtool and minimize follow `isProd`, the host is the given one, the plugins are the six base plugins |
| WebpackConfig.Config.PushPlugin | webpack.config.js:224 | the plugin list gains the new plugin at its end and no other field changes |
| WebpackConfig.LoadConfig | webpack.config.js:13-225 | the loaded configuration has the NODE_ENV-derived settings, the host `ResolveHost` selects, and the plugins `PluginsFor(isProd)` |
| WebpackConfig.ProductionSwitch | webpack.config.js:14-54 | the hashed bundle name, `devtool` `"none"` and the clean-up plugin appear exactly when NODE_ENV is `"production"`; `"bundle.js"` and `"cheap-module-source-map"` appear exactly otherwise |
| WebpackConfig.UnsetIsDevelopment | webpack.config.js:13-14 | an unset NODE_ENV is not production and yields only the base plugins |

## Left out

- `os.networkInterfaces()` is not modelled: the table it returns is an input, and its throwing is the `EnumerationError` case.
- The `hasOwnProperty` check and JavaScript's key enumeration order (integer-like keys first, then insertion order) are not modelled: the input sequence is taken to be in the order the loop visits it, and every entry is an own property.
- Interface names are carried but not required to be distinct, since only the visiting order matters to the selection.
- Some Node.js 18 releases report the `family` field as a number; the model keeps it a string, as `webpack.config.js:27` compares it with the string `'IPv4'`.
- The third-party plugins, loaders and their options are foreign objects; the model keeps only which plugin each list entry is.
- `path.resolve` and `path.join` with `__dirname`, the module rules with their regular expressions and `include`/`exclude`, `entry`, `stats`, `splitChunks`, `minimizer`, `usedExports` and `resolve` are static data interpreted by the bundler and are not modelled.
- The dev server's runtime behaviour (port 8080, gzip, hot reload, opening the browser, the error overlay) is network and I/O and is not modelled; only the `host` value is.

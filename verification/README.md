# srvx configuration and error layer, in Dafny

This project models `src/_utils.ts` of srvx, the layer that every runtime
adapter of the server uses to resolve its configuration and to guard its
request handler:

- `resolvePort` picks the listening port. The `port` option wins over the
  `PORT` environment variable, and the default is 3000. Text is parsed with
  `Number.parseInt(…, 10)`, so a non-numeric value gives NaN.
- `fmtURL` builds the public URL `http[s]://host:port/`. IPv6 hosts are
  bracketed. There is no URL without a host and a truthy port.
- `resolveTLSOptions` and `resolveCertOrKey` turn the `tls` option into PEM
  material. The material is inline PEM or a file path. The result is no TLS,
  a `{cert, key, passphrase}` record, or a configuration error.
- `wrapFetchOnError` routes a handler's synchronous throws and promise
  rejections to an optional `onError` callback.

Everything is pure. The modules are:

- `Wrappers`: Option and Result.
- `JsValues`: JavaScript numbers, as an integer or NaN; `unknown` values; truthiness.
- `Decimal`: `Number.parseInt` in base 10, and the decimal text of a whole number.
- `Port`, `Url`, `Tls`, `OnError`: one module per function group of `src/_utils.ts`.

Modelling choices:

- The file read of `resolveCertOrKey` is a map from path to contents. A path outside the map is a read error.
- A handler call is an outcome value: returned, thrown, or a promise that fulfils or rejects.
- The wrapped handler also reports the arguments it passed to `onError`. This makes "called at most once" a statement about the model.
- `SplitURL` reads a URL back into scheme, host and port. It is the partner of `FmtURL`, and the round trip is proved.

Two behaviours of the code worth noting:

- A falsy non-string cert or key (`0`, `false`, `null`) counts as absent. Only a truthy non-string value is an error (src/_utils.ts:57-60).
- Only a real `Promise` gets `.catch(onError)`. Other thenables are returned untouched, like any synchronous value (src/_utils.ts:79).

## Model

| member | source | states |
|---|---|---|
| Decimal.ParseInt | src/_utils.ts:15 | the result is NaN exactly when no digit follows the leading white space and the optional sign. |
| Decimal.ParseIntSigned | src/_utils.ts:15 | white space, then an optional `+` or `-`, then digits, then anything not starting with a digit: the result is the digits' value, negated after `-` ("  -80x" gives -80, "+80" gives 80). |
| Decimal.ParseIntAfterWhiteSpace | src/_utils.ts:15 | leading white space never changes the parse. |
| Decimal.ParseIntLeadingDigits | src/_utils.ts:13-15 | text that starts with digits parses to the value of those digits, whatever follows them. |
| Decimal.ParseIntOfDecimalString | src/_utils.ts:15 | parsing the decimal text of any whole number gives that number back. |
| Decimal.DecimalString | src/_utils.ts:29 | the text of a port starts with `-` exactly for negative numbers. After the sign come the shortest decimal digits: at least one, and no leading zero except for 0 itself. It contains no `:` and no `/`, so it cannot be confused with the rest of a URL. |
| Port.ResolvePort | src/_utils.ts:5-16 | a present option decides the port: a number unchanged (0 and NaN included), text parsed in base 10. Otherwise `PORT` is parsed. With neither, the port is 3000. |
| Port.OptionIgnoresEnv | src/_utils.ts:9-12 | with an explicit option, the environment value has no influence. |
| Port.EnvPortDecimal | src/_utils.ts:9-15 | a `PORT` holding the decimal text of n gives n. |
| Port.EnvPortLeadingDigits | src/_utils.ts:13-15 | a `PORT` such as "8080abc" gives the value of its leading digits. |
| Port.EnvPortNonNumeric | src/_utils.ts:9-15 | a `PORT` that is empty or starts with no digit, sign or white space gives NaN, never 3000. |
| Url.FmtURL | src/_utils.ts:18-30 | there is no URL exactly when the host is absent or empty, or the port is absent, 0 or NaN. |
| Url.FmtURLShape | src/_utils.ts:26-29 | the URL starts with `https://` iff secure. A host containing `:` appears as `[host]`, any other host verbatim. The URL ends with `:` + the port's decimal text + `/`. |
| Url.FmtURLRoundTrip | src/_utils.ts:23-29 | reading the URL back gives the same security flag, host and port. |
| Tls.ResolveCertOrKey | src/_utils.ts:56-69 | a falsy value is absent and a truthy non-string is an error. PEM text is returned unchanged, without reading the file system. Other text becomes the file's contents, or a read error exactly when the file is missing. |
| Tls.ResolveTLSOptions | src/_utils.ts:32-54 | a missing `tls` block or protocol `http` gives no TLS. Otherwise cert errors come first, then key errors. A success holds the resolved non-empty cert and key and the passphrase unchanged. |
| Tls.PartialMaterialFails | src/_utils.ts:46-48 | exactly one of cert and key present is the "provided together" error, whichever one is missing. |
| Tls.NoMaterial | src/_utils.ts:38-45 | neither present is an error when https is forced, and no TLS otherwise. |
| Tls.BothOrNeither | src/_utils.ts:36-53 | TLS material results exactly when TLS is enabled and both cert and key resolve to non-empty text. |
| Tls.InlineIgnoresFiles | src/_utils.ts:65-68 | with inline or falsy cert and key, the result does not depend on the file system. |
| Tls.CertWithoutKeyFails | src/_utils.ts:36-48 | an inline certificate with an undefined key fails with the "provided together" error unless the protocol is http. |
| OnError.Adopt | src/_utils.ts:80 | `promise.catch(onError)` fulfils exactly when `onError` succeeds, with `onError`'s response, and otherwise rejects with `onError`'s error. |
| OnError.Guarded | src/_utils.ts:76-86 | `onError` is called at most once, and not at all on success. A successful outcome is returned unaltered. On failure, `onError` is called once with the thrown or rejected error and settles the response. A synchronous throw returns `onError`'s outcome itself. A promise stays a promise. |
| OnError.WrapFetchOnError | src/_utils.ts:71-87 | without `onError` the result is the handler itself. With `onError`, every request goes through the guarded call. |
| OnError.WrappedResponse | src/_utils.ts:78-85 | through the wrapper, a successful response is unchanged. A failed request eventually yields exactly what `onError` yields for its error. |

## Left out

- Runtime adapters (the Deno adapter and the others), the plugin pipeline (`src/_plugin.ts`) and the server lifecycle are not part of this model. The Deno adapter's `url` only calls `fmtURL` with `secure` false.
- Number precision: `ParseInt` and `DecimalString` work on exact integers. Rounding beyond 2^53 is not modelled. The more-than-20-digit approximation of `Number.parseInt` and the exponent form of numbers from 1e21 up are not modelled either.
- Port.ResolvePort: fractional and infinite numbers are not represented (a number is an integer or NaN). A `null` option is excluded by the option's type, so it is not modelled, although `??` would skip it too.
- Url.FmtURL: only integer ports are formatted, as above.
- Tls.ResolveTLSOptions: the `TypeError` message texts are not modelled; each error is a distinct constructor. Only the `protocol` and `tls` fields of the server options are modelled.
- Tls.ResolveCertOrKey: a file read fails only when the path is missing. The reasons a read can fail are not told apart. UTF-8 decoding is part of the map, and the read happens once, at construction.
- OnError.Guarded: promises that never settle, the timing of settlement and interleaving between requests are not modelled. Thenables that are not `Promise` instances are treated like synchronous values.

/** Resolving the TLS certificate and key: inline PEM text or a file path,
    both or neither, with configuration errors for anything else. */
module Tls {
  import opened Wrappers
  import opened JsValues

  datatype Protocol = Http | Https

  /** The `tls` block of the server options, as given by the user. */
  datatype TlsOptions = TlsOptions(cert: JsValue, key: JsValue, passphrase: JsValue)

  /** The part of the server options that TLS resolution reads. */
  datatype ServerOptions = ServerOptions(protocol: Option<Protocol>, tls: Option<TlsOptions>)

  /** Resolved TLS material: PEM text for both, and the passphrase as given. */
  datatype TlsConfig = TlsConfig(cert: string, key: string, passphrase: JsValue)

  /** The configuration errors, one per `TypeError` the resolver throws, and a
      failed file read. */
  datatype TlsError =
    | NotPemOrPath          // a truthy cert or key that is not a string
    | ReadFailed(path: string) // the file of a cert or key path cannot be read
    | MissingForHttps       // https is forced but neither cert nor key resolves
    | NotTogether           // exactly one of cert and key resolves

  /** The readable files and their UTF-8 contents; a path outside the map
      cannot be read. */
  type FileSystem = map<string, string>

  const PemPrefix: string := "-----BEGIN "

  /** `resolveCertOrKey`: falsy means absent, a non-string is an error, text
      starting with the PEM header is the material itself, and any other text
      is a path whose file contents are the material. */
  function ResolveCertOrKey(value: JsValue, fs: FileSystem): (r: Result<Option<string>, TlsError>)
    ensures Falsy(value) ==> r == Ok(None)
    ensures !Falsy(value) && !value.Str? ==> r == Err(NotPemOrPath)
    ensures value.Str? && PemPrefix <= value.s ==> r == Ok(Some(value.s))
    ensures value.Str? && value.s != "" && !(PemPrefix <= value.s) && value.s in fs ==>
      r == Ok(Some(fs[value.s]))
    ensures r.Ok? && r.value.Some? && r.value.value != value.s ==>
      value.Str? && value.s in fs && fs[value.s] == r.value.value
    ensures r.Err? && r.error.ReadFailed? <==>
      value.Str? && value.s != "" && !(PemPrefix <= value.s) && value.s !in fs
    ensures r.Err? && r.error.ReadFailed? ==> value.Str? && r.error == ReadFailed(value.s)
  {
    if Falsy(value) then Ok(None)
    else if !value.Str? then Err(NotPemOrPath)
    else if PemPrefix <= value.s then Ok(Some(value.s))
    else if value.s in fs then Ok(Some(fs[value.s]))
    else Err(ReadFailed(value.s))
  }

  /** Truthiness of a resolved cert or key: absent and empty are both falsy
      (an empty file resolves to ""). */
  predicate Present(m: Option<string>) {
    m.Some? && m.value != ""
  }

  /** TLS is switched off without looking at cert and key. */
  predicate Disabled(opts: ServerOptions) {
    opts.tls.None? || opts.protocol == Some(Http)
  }

  /** `resolveTLSOptions`: no TLS when there is no `tls` block or the protocol
      is http; otherwise cert then key are resolved and must both be present,
      and neither present is an error only when https is forced. */
  function ResolveTLSOptions(opts: ServerOptions, fs: FileSystem): (r: Result<Option<TlsConfig>, TlsError>)
    ensures Disabled(opts) ==> r == Ok(None)
    ensures !Disabled(opts) && ResolveCertOrKey(opts.tls.value.cert, fs).Err? ==>
      r == Err(ResolveCertOrKey(opts.tls.value.cert, fs).error)
    ensures !Disabled(opts) && ResolveCertOrKey(opts.tls.value.cert, fs).Ok? && ResolveCertOrKey(opts.tls.value.key, fs).Err? ==>
      r == Err(ResolveCertOrKey(opts.tls.value.key, fs).error)
    ensures r.Ok? && r.value.Some? ==>
      && !Disabled(opts)
      && ResolveCertOrKey(opts.tls.value.cert, fs) == Ok(Some(r.value.value.cert))
      && ResolveCertOrKey(opts.tls.value.key, fs) == Ok(Some(r.value.value.key))
      && r.value.value.cert != "" && r.value.value.key != ""
      && r.value.value.passphrase == opts.tls.value.passphrase
  {
    if Disabled(opts) then Ok(None)
    else
      var tls := opts.tls.value;
      match ResolveCertOrKey(tls.cert, fs)
      case Err(e) => Err(e)
      case Ok(cert) =>
        match ResolveCertOrKey(tls.key, fs)
        case Err(e) => Err(e)
        case Ok(key) =>
          if !Present(cert) && !Present(key) then
            if opts.protocol == Some(Https) then Err(MissingForHttps) else Ok(None)
          else if !Present(cert) || !Present(key) then Err(NotTogether)
          else Ok(Some(TlsConfig(cert.value, key.value, tls.passphrase)))
  }

  /** Exactly one of cert and key resolving is an error, whichever is missing. */
  lemma PartialMaterialFails(opts: ServerOptions, fs: FileSystem, cert: Option<string>, key: Option<string>)
    requires !Disabled(opts)
    requires ResolveCertOrKey(opts.tls.value.cert, fs) == Ok(cert)
    requires ResolveCertOrKey(opts.tls.value.key, fs) == Ok(key)
    requires Present(cert) != Present(key)
    ensures ResolveTLSOptions(opts, fs) == Err(NotTogether)
  {
  }

  /** Neither resolving is an error when https is forced and plain http otherwise. */
  lemma NoMaterial(opts: ServerOptions, fs: FileSystem, cert: Option<string>, key: Option<string>)
    requires !Disabled(opts)
    requires ResolveCertOrKey(opts.tls.value.cert, fs) == Ok(cert)
    requires ResolveCertOrKey(opts.tls.value.key, fs) == Ok(key)
    requires !Present(cert) && !Present(key)
    ensures ResolveTLSOptions(opts, fs) == (if opts.protocol == Some(Https) then Err(MissingForHttps) else Ok(None))
  {
  }

  /** The result is TLS material exactly when both cert and key resolve to
      non-empty text: material is never partial. */
  lemma BothOrNeither(opts: ServerOptions, fs: FileSystem)
    ensures ResolveTLSOptions(opts, fs).Ok? && ResolveTLSOptions(opts, fs).value.Some? <==>
      && !Disabled(opts)
      && ResolveCertOrKey(opts.tls.value.cert, fs).Ok? && Present(ResolveCertOrKey(opts.tls.value.cert, fs).value)
      && ResolveCertOrKey(opts.tls.value.key, fs).Ok? && Present(ResolveCertOrKey(opts.tls.value.key, fs).value)
  {
  }

  /** Inline PEM or falsy cert and key never consult the file system. */
  lemma InlineIgnoresFiles(opts: ServerOptions, fs1: FileSystem, fs2: FileSystem)
    requires opts.tls.Some?
    requires var t := opts.tls.value;
      && (Falsy(t.cert) || (t.cert.Str? && PemPrefix <= t.cert.s))
      && (Falsy(t.key) || (t.key.Str? && PemPrefix <= t.key.s))
    ensures ResolveTLSOptions(opts, fs1) == ResolveTLSOptions(opts, fs2)
  {
  }

  /** An inline PEM certificate without a key fails before anything listens,
      whatever the protocol other than http. */
  lemma CertWithoutKeyFails(pem: string, protocol: Option<Protocol>, passphrase: JsValue, fs: FileSystem)
    requires PemPrefix <= pem
    requires protocol != Some(Http)
    ensures ResolveTLSOptions(ServerOptions(protocol, Some(TlsOptions(Str(pem), Undefined, passphrase))), fs) == Err(NotTogether)
  {
  }
}

/** Choosing the listening port from the `port` option and the `PORT`
    environment variable. */
module Port {
  import opened Wrappers
  import opened JsValues
  import opened Decimal

  /** The `port` option may be given as a number or as text. */
  datatype PortOption = PortNumber(n: Number) | PortText(s: string)

  const DefaultPort: int := 3000

  /** `resolvePort`: the option wins over the environment (`??` only skips
      an absent option), 3000 when both are absent; a number is kept as it
      is and text is parsed in base 10, so text without leading digits gives
      NaN rather than the default. */
  function ResolvePort(portOption: Option<PortOption>, portEnv: Option<string>): (r: Number)
    ensures portOption.Some? && portOption.value.PortNumber? ==> r == portOption.value.n
    ensures portOption.Some? && portOption.value.PortText? ==> r == ParseInt(portOption.value.s)
    ensures portOption.None? && portEnv.Some? ==> r == ParseInt(portEnv.value)
    ensures portOption.None? && portEnv.None? ==> r == Num(DefaultPort)
  {
    var input := if portOption.Some? then portOption
      else if portEnv.Some? then Some(PortText(portEnv.value))
      else None;
    match input
    case None => Num(DefaultPort)
    case Some(PortNumber(n)) => n
    case Some(PortText(s)) => ParseInt(s)
  }

  /** A `PORT` value that is the decimal text of a number gives that number. */
  lemma EnvPortDecimal(n: int)
    ensures ResolvePort(None, Some(DecimalString(n))) == Num(n)
  {
    ParseIntOfDecimalString(n);
  }

  /** A `PORT` value with digits followed by other text (as in "8080abc") gives
      the value of the digits. */
  lemma EnvPortLeadingDigits(d: string, rest: string)
    requires d != [] && AllDigits(d)
    requires rest == [] || !IsDigit(rest[0])
    ensures ResolvePort(None, Some(d + rest)) == Num(DigitsValue(d))
  {
    ParseIntLeadingDigits(d, rest);
  }

  /** A `PORT` value that does not start with a digit, a sign or white space
      (or is empty) gives NaN, never the default 3000. */
  lemma EnvPortNonNumeric(s: string)
    requires s == [] || !(IsDigit(s[0]) || IsWhiteSpace(s[0]) || s[0] == '-' || s[0] == '+')
    ensures ResolvePort(None, Some(s)) == NaN
    ensures ResolvePort(None, Some(s)) != Num(DefaultPort)
  {
    assert TrimStart(s) == s;
  }

  /** An explicit option decides the port whatever the environment holds. */
  lemma OptionIgnoresEnv(p: PortOption, env1: Option<string>, env2: Option<string>)
    ensures ResolvePort(Some(p), env1) == ResolvePort(Some(p), env2)
  {
  }
}

/** `config/env.js`: the configuration object derived from the process
    environment, here a map from variable names to their string values. */
module Env {
  import opened Base
  import opened Strings
  import opened JsValues

  type Environment = map<string, string>

  /** `process.env[name]`. */
  function Lookup(env: Environment, name: string): Option<string> {
    if name in env then Some(env[name]) else None
  }

  /** `process.env[name] || fallback`: an unset or empty variable gives the fallback. */
  function OrDefault(env: Environment, name: string, fallback: string): (r: string)
    ensures name in env && env[name] != "" ==> r == env[name]
    ensures name !in env || env[name] == "" ==> r == fallback
  {
    if name in env && |env[name]| > 0 then env[name] else fallback
  }

  // ---------------------------------------------------------------------
  // parseInt
  // ---------------------------------------------------------------------

  /** The length of the longest prefix of `s` made of digits in `base`. */
  function DigitPrefix(s: string, base: nat): (k: nat)
    ensures k <= |s|
    ensures forall i :: 0 <= i < k ==> IsDigitIn(s[i], base)
    ensures k == |s| || !IsDigitIn(s[k], base)
  {
    if |s| == 0 || !IsDigitIn(s[0], base) then 0 else 1 + DigitPrefix(s[1..], base)
  }

  /** `parseInt(s)` without a radix: leading whitespace and one sign are
      skipped, a `0x`/`0X` prefix selects base 16, and the longest run of
      digits is read; `None` stands for `NaN`. */
  function ParseInt(s: string): (r: Option<int>)
    ensures r.None? <==> var u := SignStripped(s[LeadingWhitespace(s)..]).1; DigitPrefix(RadixStripped(u).1, RadixStripped(u).0) == 0
  {
    var (sign, u) := SignStripped(s[LeadingWhitespace(s)..]);
    var (base, v) := RadixStripped(u);
    var k := DigitPrefix(v, base);
    if k == 0 then None else Some(sign * DigitsValue(v[..k], base))
  }

  function SignStripped(t: string): (int, string) {
    if |t| > 0 && t[0] == '-' then (-1, t[1..])
    else if |t| > 0 && t[0] == '+' then (1, t[1..])
    else (1, t)
  }

  function RadixStripped(u: string): (r: (nat, string))
    ensures r.0 == 10 || r.0 == 16
  {
    if |u| >= 2 && u[0] == '0' && (u[1] == 'x' || u[1] == 'X') then (16, u[2..]) else (10, u)
  }

  /** Text that cannot continue a decimal number: empty, or starting with
      neither a decimal digit nor the `x` of a hex prefix. */
  predicate EndsNumber(rest: string) {
    rest == "" || (!IsDigitIn(rest[0], 10) && rest[0] != 'x' && rest[0] != 'X')
  }

  lemma DecimalRadix(d: string, rest: string)
    requires |d| >= 1 && forall i :: 0 <= i < |d| ==> IsDigitIn(d[i], 10)
    requires EndsNumber(rest)
    ensures RadixStripped(d + rest) == (10, d + rest)
  {
    var s := d + rest;
    if |s| >= 2 {
      if |d| >= 2 {
        assert s[1] == d[1] && IsDigitIn(d[1], 10);
      } else {
        assert s[1] == rest[0];
      }
    }
  }

  lemma DigitPrefixIs(s: string, base: nat, k: nat)
    requires k <= |s| && forall i :: 0 <= i < k ==> IsDigitIn(s[i], base)
    requires k == |s| || !IsDigitIn(s[k], base)
    ensures DigitPrefix(s, base) == k
  {
  }

  lemma DecimalPrefix(d: string, rest: string)
    requires forall i :: 0 <= i < |d| ==> IsDigitIn(d[i], 10)
    requires EndsNumber(rest)
    ensures DigitPrefix(d + rest, 10) == |d| && (d + rest)[..|d|] == d
  {
    var s := d + rest;
    assert forall i :: 0 <= i < |d| ==> s[i] == d[i];
    if |rest| > 0 {
      assert s[|d|] == rest[0];
    }
    DigitPrefixIs(s, 10, |d|);
  }

  /** Reading the unsigned digits of `n` followed by `rest`. */
  lemma ParseUnsigned(n: nat, rest: string)
    requires EndsNumber(rest)
    ensures var d := NatToDigits(n, 10);
      var (base, v) := RadixStripped(d + rest);
      base == 10 && v == d + rest && DigitPrefix(v, 10) == |d| && DigitsValue(v[..|d|], 10) == n
  {
    var d := NatToDigits(n, 10);
    DecimalRadix(d, rest);
    DecimalPrefix(d, rest);
    DigitsValueOfNatToDigits(n, 10);
  }

  /** `parseInt` on text with no leading whitespace, once its sign is read. */
  lemma ParseIntAfterSign(s: string, sign: int, u: string)
    requires LeadingWhitespace(s) == 0 && SignStripped(s) == (sign, u)
    ensures ParseInt(s) ==
      var (base, v) := RadixStripped(u);
      if DigitPrefix(v, base) == 0 then None else Some(sign * DigitsValue(v[..DigitPrefix(v, base)], base))
  {
    assert s[0..] == s;
  }

  /** `parseInt(String(n) + rest)` is `n` whenever `rest` does not continue
      the number: formatting and parsing are inverse. */
  lemma ParseIntOfDecimal(n: int, rest: string)
    requires EndsNumber(rest)
    ensures ParseInt(Decimal(n) + rest) == Some(n)
  {
    if n < 0 {
      ParseIntOfNegative(n, rest);
    } else {
      ParseIntOfDigits(n, rest);
    }
  }

  /** A negative number's text reads back as that number. */
  lemma ParseIntOfNegative(n: int, rest: string)
    requires n < 0 && EndsNumber(rest)
    ensures ParseInt(Decimal(n) + rest) == Some(n)
  {
    var m: nat := -n;
    assert Decimal(n) + rest == "-" + (NatToDigits(m, 10) + rest);
    ParseIntOfMinusDigits(m, rest);
  }

  /** The digits of `m` after a minus sign read as minus `m`. */
  lemma ParseIntOfMinusDigits(m: nat, rest: string)
    requires EndsNumber(rest)
    ensures ParseInt("-" + (NatToDigits(m, 10) + rest)) == Some(-(m as int))
  {
    var u := NatToDigits(m, 10) + rest;
    ParseUnsigned(m, rest);
    assert u[0] == NatToDigits(m, 10)[0];
    var s := "-" + u;
    assert s[0] == '-' && s[1..] == u;
    assert LeadingWhitespace(s) == 0;
    ParseIntAfterSign(s, -1, u);
  }

  /** The digits of `m` read as `m`. */
  lemma ParseIntOfDigits(m: nat, rest: string)
    requires EndsNumber(rest)
    ensures ParseInt(NatToDigits(m, 10) + rest) == Some(m)
  {
    var u := NatToDigits(m, 10) + rest;
    ParseUnsigned(m, rest);
    assert u[0] == NatToDigits(m, 10)[0];
    DigitStartsNoSpaceOrSign(u[0]);
    assert LeadingWhitespace(u) == 0;
    ParseIntAfterSign(u, 1, u);
  }

  lemma DigitStartsNoSpaceOrSign(c: char)
    requires IsDigitIn(c, 10)
    ensures !IsJsWhitespace(c) && c != '-' && c != '+'
  {
  }

  /** A `0x` prefix switches to hexadecimal: "0x10" reads as 16. */
  lemma HexPrefixRead()
    ensures ParseInt("0x10") == Some(16)
  {
    var s := "0x10";
    assert LeadingWhitespace(s) == 0;
    assert SignStripped(s[0..]) == (1, s);
    assert RadixStripped(s) == (16, "10");
    DigitPrefixIs("10", 16, 2);
    assert "10"[..2] == "10";
    assert "10"[..1] == "1" && "1"[..0] == "";
    assert DigitValue('1') == Some(1) && DigitValue('0') == Some(0);
    assert DigitsValue("1", 16) == 1;
    assert DigitsValue("10", 16) == 16;
  }

  /** Leading whitespace does not change what `parseInt` reads. */
  lemma ParseIntSkipsWhitespace(s: string)
    ensures ParseInt(" " + s) == ParseInt(s)
  {
    assert (" " + s)[1..] == s;
  }

  // ---------------------------------------------------------------------
  // The configuration object
  // ---------------------------------------------------------------------

  const DefaultCorsOrigins: seq<string> := [
    "http://localhost:5173", "http://localhost:5174", "http://127.0.0.1:5173", "http://127.0.0.1:5174"]

  /** The non-blank pieces, trimmed, in order. */
  function CleanOrigins(parts: seq<string>): (r: seq<string>)
    ensures |r| <= |parts|
    ensures forall i :: 0 <= i < |r| ==> |r[i]| > 0 && !IsJsWhitespace(r[i][0]) && !IsJsWhitespace(r[i][|r[i]| - 1])
    decreases |parts|
  {
    if |parts| == 0 then []
    else
      var init := CleanOrigins(parts[..|parts| - 1]);
      var t := Trim(parts[|parts| - 1]);
      if |t| > 0 then init + [t] else init
  }

  /** `CORS_ORIGIN?.split(',').map(trim).filter(Boolean) || defaults`: the
      defaults apply only when the variable is unset, since even an empty
      list is truthy. */
  function CorsOrigins(env: Environment): (r: seq<string>)
    ensures "CORS_ORIGIN" !in env ==> r == DefaultCorsOrigins
  {
    if "CORS_ORIGIN" in env then CleanOrigins(Split(env["CORS_ORIGIN"], ',')) else DefaultCorsOrigins
  }

  /** The cleaned list holds exactly the trimmed non-blank pieces: every such
      piece is kept, and nothing else appears. */
  lemma CleanOriginsMembers(parts: seq<string>)
    ensures forall i :: 0 <= i < |parts| && Trim(parts[i]) != "" ==> Trim(parts[i]) in CleanOrigins(parts)
    ensures forall o :: o in CleanOrigins(parts) ==> exists i :: 0 <= i < |parts| && o == Trim(parts[i])
  {
    CleanOriginsKeepsPieces(parts);
    CleanOriginsOnlyPieces(parts);
  }

  /** Helper: every trimmed non-blank piece is kept. */
  lemma {:induction false} CleanOriginsKeepsPieces(parts: seq<string>)
    ensures forall i :: 0 <= i < |parts| && Trim(parts[i]) != "" ==> Trim(parts[i]) in CleanOrigins(parts)
    decreases |parts|
  {
    if |parts| > 0 {
      var init := parts[..|parts| - 1];
      CleanOriginsKeepsPieces(init);
      forall i | 0 <= i < |parts| && Trim(parts[i]) != ""
        ensures Trim(parts[i]) in CleanOrigins(parts)
      {
        if i < |init| {
          assert parts[i] == init[i];
        }
      }
    }
  }

  /** Helper: everything kept is a trimmed piece. */
  lemma {:induction false} CleanOriginsOnlyPieces(parts: seq<string>)
    ensures forall o :: o in CleanOrigins(parts) ==> exists i :: 0 <= i < |parts| && o == Trim(parts[i])
    decreases |parts|
  {
    if |parts| > 0 {
      var init := parts[..|parts| - 1];
      CleanOriginsOnlyPieces(init);
      forall o | o in CleanOrigins(parts)
        ensures exists i :: 0 <= i < |parts| && o == Trim(parts[i])
      {
        if o in CleanOrigins(init) {
          var i :| 0 <= i < |init| && o == Trim(init[i]);
          assert parts[i] == init[i];
        } else {
          assert o == Trim(parts[|parts| - 1]);
        }
      }
    }
  }

  /** When the variable is set, the origins are its comma-separated entries,
      trimmed, with blank entries dropped. */
  lemma CorsOriginsOfVariable(env: Environment)
    requires "CORS_ORIGIN" in env
    ensures var parts := Split(env["CORS_ORIGIN"], ',');
      && (forall i :: 0 <= i < |parts| && Trim(parts[i]) != "" ==> Trim(parts[i]) in CorsOrigins(env))
      && (forall o :: o in CorsOrigins(env) ==> exists i :: 0 <= i < |parts| && o == Trim(parts[i]))
  {
    CleanOriginsMembers(Split(env["CORS_ORIGIN"], ','));
  }

  /** An empty variable gives no origins at all, and a trailing comma adds none. */
  lemma CorsOriginsEdgeCases(env: Environment, v: string)
    ensures "CORS_ORIGIN" in env && env["CORS_ORIGIN"] == "" ==> CorsOrigins(env) == []
    ensures CleanOrigins(Split(v + ",", ',')) == CleanOrigins(Split(v, ','))
  {
    SplitAtSep(v, "", ',');
    assert v + "," == v + [','] + "";
    var ps := Split(v, ',');
    assert (ps + [""])[..|ps|] == ps;
    assert Trim("") == "";
  }

  /** A single origin is kept, trimmed. */
  lemma SingleOrigin(v: string)
    requires ',' !in v && Trim(v) != ""
    ensures CleanOrigins(Split(v, ',')) == [Trim(v)]
  {
    SplitNoSep(v, ',');
  }

  datatype Port = PortVariable(text: string) | DefaultPort

  datatype Mongo = Mongo(sourceUri: Option<string>, resultsUri: Option<string>, quizCollection: string, quizId: string)

  /** SMTP settings; `pass` is `None` when the built-in default password applies. */
  datatype Smtp = Smtp(host: string, port: int, secure: bool, user: string, pass: Option<string>, fromEmail: string, fromName: string)

  datatype Config = Config(
    port: Port, nodeEnv: string, corsOrigins: seq<string>, corsOrigin: string,
    mongo: Mongo, smtp: Smtp, brandingSite: string)

  /** `parseInt(process.env.SMTP_PORT) || 465`: `NaN` and 0 fall back. */
  function SmtpPort(env: Environment): (p: int)
    ensures p != 0
    ensures "SMTP_PORT" !in env ==> p == 465
  {
    var parsed := if "SMTP_PORT" in env then ParseInt(env["SMTP_PORT"]) else None;
    if parsed.Some? && parsed.value != 0 then parsed.value else 465
  }

  /** A port written in decimal is used as written, except 0. */
  lemma SmtpPortOfDecimal(env: Environment, p: int)
    requires "SMTP_PORT" in env && env["SMTP_PORT"] == Decimal(p)
    ensures SmtpPort(env) == (if p == 0 then 465 else p)
  {
    ParseIntOfDecimal(p, "");
    assert Decimal(p) + "" == Decimal(p);
  }

  /** `(process.env[name] || fallback).trim()`. */
  function TrimmedOr(env: Environment, name: string, fallback: string): (r: string)
    ensures |r| == 0 || (!IsJsWhitespace(r[0]) && !IsJsWhitespace(r[|r| - 1]))
  {
    Trim(OrDefault(env, name, fallback))
  }

  /** `BRAND_SITE || (NODE_ENV === 'production' ? '' : 'http://localhost:5173')`. */
  function BrandingSite(env: Environment): (r: string)
    ensures "BRAND_SITE" in env && env["BRAND_SITE"] != "" ==> r == env["BRAND_SITE"]
    ensures r == "" <==> ("BRAND_SITE" !in env || env["BRAND_SITE"] == "") && Lookup(env, "NODE_ENV") == Some("production")
  {
    if "BRAND_SITE" in env && |env["BRAND_SITE"]| > 0 then env["BRAND_SITE"]
    else if Lookup(env, "NODE_ENV") == Some("production") then ""
    else "http://localhost:5173"
  }

  /** The whole `config` object. */
  function LoadConfig(env: Environment): (c: Config)
    ensures c.smtp.secure <==> Lookup(env, "SMTP_SECURE") == Some("true")
    ensures c.smtp.port != 0
    ensures c.corsOrigin != "" && c.nodeEnv != "" && c.mongo.quizId != ""
    ensures c.port.PortVariable? <==> "PORT" in env && env["PORT"] != ""
    ensures c.port.PortVariable? ==> c.port.text == env["PORT"]
    ensures "NODE_ENV" in env && env["NODE_ENV"] != "" ==> c.nodeEnv == env["NODE_ENV"]
    ensures "QUIZ_ID" in env && env["QUIZ_ID"] != "" ==> c.mongo.quizId == env["QUIZ_ID"]
    ensures "QUIZ_ID" !in env || env["QUIZ_ID"] == "" ==> c.mongo.quizId == "career_school_v1"
    ensures c.mongo.sourceUri == Lookup(env, "MONGO_URI_SOURCE") && c.mongo.resultsUri == Lookup(env, "MONGO_URI_RESULTS")
    ensures c.smtp.pass.Some? <==> "SMTP_PASS" in env && env["SMTP_PASS"] != ""
  {
    Config(
      if "PORT" in env && |env["PORT"]| > 0 then PortVariable(env["PORT"]) else DefaultPort,
      OrDefault(env, "NODE_ENV", "development"),
      CorsOrigins(env),
      OrDefault(env, "CORS_ORIGIN", "http://localhost:5173"),
      Mongo(Lookup(env, "MONGO_URI_SOURCE"), Lookup(env, "MONGO_URI_RESULTS"),
            OrDefault(env, "QUIZ_COLLECTION", "school students"),
            OrDefault(env, "QUIZ_ID", "career_school_v1")),
      Smtp(OrDefault(env, "SMTP_HOST", "smtp.gmail.com"),
           SmtpPort(env),
           Lookup(env, "SMTP_SECURE") == Some("true"),
           TrimmedOr(env, "SMTP_USER", "ikscbandhan@gmail.com"),
           if "SMTP_PASS" in env && |env["SMTP_PASS"]| > 0 then Some(Trim(env["SMTP_PASS"])) else None,
           TrimmedOr(env, "FROM_EMAIL", "ikscbandhan@gmail.com"),
           TrimmedOr(env, "FROM_NAME", "IKSC Bandhan")),
      BrandingSite(env))
  }

  /** Only the exact string "true" turns TLS on. */
  lemma SecureOnlyForExactTrue(env: Environment)
    requires Lookup(env, "SMTP_SECURE") == Some("TRUE")
    ensures !LoadConfig(env).smtp.secure
  {
  }

  /** With an empty environment every setting takes its default. */
  lemma EmptyEnvironmentDefaults()
    ensures var c := LoadConfig(map[]);
      && c.port == DefaultPort && c.nodeEnv == "development"
      && c.corsOrigins == DefaultCorsOrigins && c.smtp.port == 465 && !c.smtp.secure
      && c.smtp.pass.None? && c.brandingSite == "http://localhost:5173"
  {
  }
}

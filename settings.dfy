/**
 * The application settings that the core reads: database coordinates, token signing
 * parameters and the CORS origin list, with their declared defaults, the origin-list
 * parser and the database URI property.
 */
module Settings {
  import opened Text

  const AsyncScheme := "postgresql+asyncpg"

  /** The declared default of `ACCESS_TOKEN_EXPIRE_MINUTES`. */
  const DefaultAccessTokenExpireMinutes: nat := 30

  datatype Config = Config(
    postgresServer: string,
    postgresUser: string,
    postgresPassword: string,
    postgresDb: string,
    postgresPort: string,
    secretKey: string,
    algorithm: string,
    accessTokenExpireMinutes: nat,
    backendCorsOrigins: seq<string>)

  /** The configuration built from the required settings alone: every optional setting
      takes its declared default. */
  function WithDefaults(server: string, user: string, password: string, db: string, secretKey: string): (c: Config)
    ensures c.postgresServer == server && c.postgresUser == user && c.postgresPassword == password
    ensures c.postgresDb == db && c.secretKey == secretKey
    ensures c.postgresPort == "5432" && c.algorithm == "HS256"
    ensures c.accessTokenExpireMinutes == DefaultAccessTokenExpireMinutes
    ensures c.backendCorsOrigins == ["http://127.0.0.1:5500"]
  {
    Config(server, user, password, db, "5432", secretKey, "HS256", DefaultAccessTokenExpireMinutes, ["http://127.0.0.1:5500"])
  }

  /** What the environment may supply for `BACKEND_CORS_ORIGINS`. */
  datatype CorsValue = CorsText(text: string) | CorsList(items: seq<string>)

  /** `assemble_cors_origins`: a text is split on commas and every piece stripped; a list
      is kept as it is. */
  function AssembleCorsOrigins(v: CorsValue): (r: seq<string>)
    ensures v.CorsList? ==> r == v.items
    ensures v.CorsText? ==>
      && |r| == CountChar(v.text, ',') + 1
      && forall i :: 0 <= i < |r| ==> r[i] == Strip(Split(v.text, ',')[i])
    ensures v.CorsText? ==> forall i :: 0 <= i < |r| ==>
      ',' !in r[i] && (r[i] == [] || (!IsSpace(r[i][0]) && !IsSpace(r[i][|r[i]| - 1])))
  {
    match v
    case CorsList(items) => items
    case CorsText(text) =>
      var pieces := Split(text, ',');
      var r := seq(|pieces|, i requires 0 <= i < |pieces| => Strip(pieces[i]));
      forall i | 0 <= i < |r|
        ensures ',' !in r[i] && (r[i] == [] || (!IsSpace(r[i][0]) && !IsSpace(r[i][|r[i]| - 1])))
      {
        StripKeepsOut(pieces[i], ',');
        StripTrimmed(pieces[i]);
      }
      r
  }

  /** Origins without commas or surrounding whitespace survive a round trip through the
      comma-separated text form. */
  lemma CorsRoundTrip(origins: seq<string>)
    requires |origins| >= 1
    requires forall i :: 0 <= i < |origins| ==> ',' !in origins[i]
    requires forall i :: 0 <= i < |origins| ==>
      origins[i] == [] || (!IsSpace(origins[i][0]) && !IsSpace(origins[i][|origins[i]| - 1]))
    ensures AssembleCorsOrigins(CorsText(Join(origins, ','))) == origins
  {
    var text := Join(origins, ',');
    JoinSplit(origins, ',');
    var r := AssembleCorsOrigins(CorsText(text));
    assert |r| == |Split(text, ',')| == |origins|;
    forall i | 0 <= i < |origins| ensures r[i] == origins[i] {
      StripUntrimmed(origins[i]);
    }
  }

  /** `SQLALCHEMY_DATABASE_URI`. */
  function DatabaseUri(c: Config): (r: string)
    ensures StartsWith(r, AsyncScheme + "://")
    ensures r == AsyncScheme + UriAfterScheme(c)
  {
    AsyncScheme + "://" + c.postgresUser + ":" + c.postgresPassword + "@" + c.postgresServer + ":"
      + c.postgresPort + "/" + c.postgresDb
  }

  /** The part of the URI after the driver scheme: `://user:password@server:port/db`. */
  function UriAfterScheme(c: Config): string {
    "://" + c.postgresUser + ":" + c.postgresPassword + "@" + c.postgresServer + ":" + c.postgresPort
      + "/" + c.postgresDb
  }
}

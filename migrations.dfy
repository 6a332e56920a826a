/**
 * The one piece of the migration environment that computes something: the rewrite of the
 * application's asynchronous database URL into the synchronous driver's URL.
 */
module Migrations {
  import opened Text
  import Settings

  const AsyncPrefix := "postgresql+asyncpg"
  const SyncPrefix := "postgresql+psycopg2"

  /** `get_sync_database_url`: a URL that starts with the asyncpg driver name has every
      occurrence of that name replaced by the psycopg2 driver name (one character longer);
      any other URL is returned unchanged. */
  function GetSyncDatabaseUrl(url: string): (r: string)
    ensures !StartsWith(url, AsyncPrefix) ==> r == url
    ensures StartsWith(url, AsyncPrefix) ==>
      && StartsWith(r, SyncPrefix)
      && |r| == |url| + Occurrences(url, AsyncPrefix)
  {
    if StartsWith(url, AsyncPrefix) then
      ReplaceAllLength(url, AsyncPrefix, SyncPrefix);
      ReplaceAll(url, AsyncPrefix, SyncPrefix)
    else
      url
  }

  /** A second rewrite changes nothing: a rewritten URL starts with the psycopg2 name,
      which is not the asyncpg name. */
  lemma GetSyncDatabaseUrlIdempotent(url: string)
    ensures GetSyncDatabaseUrl(GetSyncDatabaseUrl(url)) == GetSyncDatabaseUrl(url)
  {
    var r := GetSyncDatabaseUrl(url);
    if StartsWith(url, AsyncPrefix) {
      assert r[11] == SyncPrefix[11] == 'p';
      assert AsyncPrefix[11] == 'a';
      assert !StartsWith(r, AsyncPrefix);
    }
  }

  /** Applied to the configured URI, the rewrite only swaps the scheme, provided no
      configured component itself contains the asyncpg driver name (`replace` would rewrite
      that occurrence too). */
  lemma GetSyncOfConfiguredUri(c: Settings.Config)
    requires !Contains(c.postgresUser, AsyncPrefix) && !Contains(c.postgresPassword, AsyncPrefix)
    requires !Contains(c.postgresServer, AsyncPrefix) && !Contains(c.postgresPort, AsyncPrefix)
    requires !Contains(c.postgresDb, AsyncPrefix)
    ensures GetSyncDatabaseUrl(Settings.DatabaseUri(c)) == SyncPrefix + Settings.UriAfterScheme(c)
  {
    var rest := Settings.UriAfterScheme(c);
    UriAfterSchemeFree(c);
    var uri := Settings.DatabaseUri(c);
    assert StartsWith(uri, AsyncPrefix) && uri[|AsyncPrefix|..] == rest;
    ReplaceAllAbsent(rest, AsyncPrefix, SyncPrefix);
  }

  /** The separators `:`, `/` and `@` are not in the driver name, so the part after the
      scheme contains it only if some component does. */
  lemma UriAfterSchemeFree(c: Settings.Config)
    requires !Contains(c.postgresUser, AsyncPrefix) && !Contains(c.postgresPassword, AsyncPrefix)
    requires !Contains(c.postgresServer, AsyncPrefix) && !Contains(c.postgresPort, AsyncPrefix)
    requires !Contains(c.postgresDb, AsyncPrefix)
    ensures !Contains(Settings.UriAfterScheme(c), AsyncPrefix)
  {
    var u := "://" + c.postgresUser;
    assert !Contains(u, AsyncPrefix) by {
      ShortNotContains(":/", AsyncPrefix);
      NotContainsAround(":/", '/', c.postgresUser, AsyncPrefix);
      assert ":/" + ['/'] + c.postgresUser == u;
    }
    var up := u + ":" + c.postgresPassword;
    assert !Contains(up, AsyncPrefix) by {
      NotContainsAround(u, ':', c.postgresPassword, AsyncPrefix);
    }
    var ups := up + "@" + c.postgresServer;
    assert !Contains(ups, AsyncPrefix) by {
      NotContainsAround(up, '@', c.postgresServer, AsyncPrefix);
    }
    var upsp := ups + ":" + c.postgresPort;
    assert !Contains(upsp, AsyncPrefix) by {
      NotContainsAround(ups, ':', c.postgresPort, AsyncPrefix);
    }
    NotContainsAround(upsp, '/', c.postgresDb, AsyncPrefix);
  }
}

/** API credentials (src/hooks/useSecureApiCredentials.ts): the rows the
    credentials query reports, the key `generateApiKey` builds and the row it
    inserts, and the two constant stubs. The random key suffix and the
    signed-in user are inputs. */
module ApiCredentials {
  import opened Common
  import opened AuthProvider

  const NotAuthenticated := "User not authenticated"
  const DefaultServiceName := "mspace"
  const GenerateFailed := "Failed to generate API key"

  /** A stored `api_credentials` row; `username` may be null. Columns the
      model does not read are left out. */
  datatype ApiCredential = ApiCredential(
    id: string,
    userId: string,
    username: Option<string>,
    serviceName: string,
    apiKeyEncrypted: Option<string>,
    isActive: bool,
    expiresAt: Option<string>)

  /** `{ ...row, username: row.username ?? '' }`: only null or undefined is replaced. */
  function Normalise(row: ApiCredential): (r: ApiCredential)
    ensures r.username.Some?
    ensures row.username.Some? ==> r == row
    ensures row.username.None? ==> r == row.(username := Some(""))
  {
    row.(username := Some(row.username.GetOr("")))
  }

  /** The outcome of the credentials read. */
  datatype CredentialsRead = ReadError(message: string) | Rows(rows: Option<seq<ApiCredential>>)

  /** The query function: `(data || []).map(...)`, or the thrown error. */
  function Credentials(read: CredentialsRead): (r: Result<seq<ApiCredential>>)
    ensures read.ReadError? <==> r.Err?
    ensures r.Err? ==> r.message == read.message
    ensures read == Rows(None) ==> r == Ok([])
    ensures read.Rows? && read.rows.Some? ==>
      |r.value| == |read.rows.value|
      && forall i :: 0 <= i < |r.value| ==> r.value[i] == Normalise(read.rows.value[i])
  {
    match read
    case ReadError(m) => Err(m)
    case Rows(rows) =>
      var rs := rows.GetOr([]);
      Ok(seq(|rs|, i requires 0 <= i < |rs| => Normalise(rs[i])))
  }

  /** Every reported row has a username, and reading again what was reported
      changes nothing. */
  lemma CredentialsNormalised(rows: seq<ApiCredential>)
    ensures var r := Credentials(Rows(Some(rows))).value;
      (forall i :: 0 <= i < |r| ==> r[i].username.Some?)
      && Credentials(Rows(Some(r))) == Ok(r)
  {
    var r := Credentials(Rows(Some(rows))).value;
    var again := Credentials(Rows(Some(r))).value;
    assert |again| == |r|;
    forall i | 0 <= i < |r| ensures again[i] == r[i] {
      assert r[i].username.Some?;
    }
    assert again == r;
  }

  // ---------------------------------------------------------------------
  // generateApiKey

  /** The mutation's argument; an omitted property is `None`. */
  datatype GenerateRequest = GenerateRequest(
    keyName: string,
    serviceName: Option<string>,
    permissions: Option<seq<string>>,
    rateLimit: Option<int>,
    expiresAt: Option<string>)

  /** The row `generateApiKey` inserts. */
  datatype KeyRecord = KeyRecord(
    serviceName: string,
    apiKeyEncrypted: string,
    userId: string,
    username: string,
    isActive: bool,
    expiresAt: Option<string>)

  /** What the mutation resolves with: the inserted row and the plain key. */
  datatype GeneratedKey = GeneratedKey(record: KeyRecord, apiKey: string)

  /** `live` when the key name mentions it, else `test`. */
  function KeyMode(keyName: string): (m: string)
    ensures m == "live" <==> Contains(keyName, "live")
    ensures m == "live" || m == "test"
  {
    if Contains(keyName, "live") then "live" else "test"
  }

  /** The template string; `suffix` stands for the two random base-36 runs. */
  function ApiKey(serviceName: string, keyName: string, suffix: string): (k: string)
    ensures |k| == |serviceName| + 6 + |suffix|
    ensures k[..|serviceName|] == serviceName && k[|serviceName|] == '_'
    ensures k[|serviceName| + 1..|serviceName| + 5] == KeyMode(keyName)
    ensures k[|serviceName| + 5] == '_' && k[|serviceName| + 6..] == suffix
  {
    serviceName + "_" + KeyMode(keyName) + "_" + suffix
  }

  /** A key determines its service name, mode and suffix: keys that differ in
      any of them differ. */
  lemma ApiKeyInjective(s1: string, n1: string, x1: string, s2: string, n2: string, x2: string)
    requires |s1| == |s2|
    requires ApiKey(s1, n1, x1) == ApiKey(s2, n2, x2)
    ensures s1 == s2 && x1 == x2 && KeyMode(n1) == KeyMode(n2)
  {
    var k := ApiKey(s1, n1, x1);
    assert s1 == k[..|s1|] == s2;
  }

  /** The insert and the result, or the error: the user check comes before
      any insert, and a failed insert reports its message or the fallback. */
  function GenerateApiKey(user: Option<User>, req: GenerateRequest, suffix: string, insertError: Option<string>): (r: Result<GeneratedKey>)
    ensures user.None? ==> r == Err(NotAuthenticated)
    ensures user.Some? && insertError.Some? ==> r == Err(OrElse(insertError, GenerateFailed))
    ensures r.Ok? ==>
      var serviceName := req.serviceName.GetOr(DefaultServiceName);
      r.value.apiKey == r.value.record.apiKeyEncrypted == ApiKey(serviceName, req.keyName, suffix)
      && r.value.record == KeyRecord(serviceName, r.value.apiKey, user.value.id, req.keyName, true, req.expiresAt)
  {
    if user.None? then Err(NotAuthenticated)
    else if insertError.Some? then Err(OrElse(insertError, GenerateFailed))
    else
      var serviceName := req.serviceName.GetOr(DefaultServiceName);
      var key := ApiKey(serviceName, req.keyName, suffix);
      Ok(GeneratedKey(KeyRecord(serviceName, key, user.value.id, req.keyName, true, req.expiresAt), key))
  }

  /** Without a service name the key is an `mspace` key; the requested
      permissions and rate limit never reach the stored row. */
  lemma GenerateDefaults(user: Option<User>, req: GenerateRequest, suffix: string,
                         permissions: Option<seq<string>>, rateLimit: Option<int>)
    requires user.Some?
    ensures var r := GenerateApiKey(user, req, suffix, None);
      r.Ok? && r.value.record.isActive && r.value.record.username == req.keyName
      && (req.serviceName.None? ==>
            r.value.record.serviceName == DefaultServiceName
            && r.value.apiKey[..|DefaultServiceName| + 1] == DefaultServiceName + "_")
      && GenerateApiKey(user, req.(permissions := permissions, rateLimit := rateLimit), suffix, None) == r
  {
    var r := GenerateApiKey(user, req, suffix, None);
    if req.serviceName.None? {
      assert r.value.apiKey[..|DefaultServiceName| + 1]
          == r.value.apiKey[..|DefaultServiceName|] + [r.value.apiKey[|DefaultServiceName|]];
    }
  }

  // ---------------------------------------------------------------------
  // Stubs

  /** Decrypted credentials are never handed to the client. */
  function GetDecryptedCredential(serviceName: string): (r: Option<string>)
    ensures r.None?
  {
    None
  }

  /** `api_usage` is not queried: the usage list is always empty. */
  function GetApiUsage(keyId: string): (r: seq<string>)
    ensures |r| == 0
  {
    []
  }
}

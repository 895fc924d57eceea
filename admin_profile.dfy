/** The admin profile endpoint (supabase/functions/admin-profile-management/index.ts):
    the request gate, the dispatch over the six actions, the profile merge,
    the writes each update sends and the audit-log query. Every database
    read and write outcome is an input (`Backend`); the writes the handler
    sends are part of its result. */
module AdminProfile {
  import opened Common
  import opened TopK

  /** A JSON value. Object key order is not modelled. */
  datatype Value = Null | Str(s: string) | Num(n: int) | Bool(b: bool) | Arr(items: seq<Value>) | Obj(fields: map<string, Value>)

  type Header = (string, string)
  type Row = map<string, Value>

  const CorsHeaders: seq<Header> := [
    ("Access-Control-Allow-Origin", "*"),
    ("Access-Control-Allow-Headers", "authorization, x-client-info, apikey, content-type"),
    ("Access-Control-Allow-Methods", "GET, POST, PUT, DELETE, OPTIONS")]
  const JsonHeaders: seq<Header> := CorsHeaders + [("Content-Type", "application/json")]

  datatype Body = Text(text: string) | Json(value: Value)
  datatype Response = Response(status: int, headers: seq<Header>, body: Body)

  function JsonResponse(status: int, v: Value): (r: Response)
    ensures r.status == status && r.headers == JsonHeaders && r.body == Json(v)
  {
    Response(status, JsonHeaders, Json(v))
  }

  function ErrorResponse(status: int, error: string): (r: Response)
    ensures r == JsonResponse(status, Obj(map["error" := Str(error)]))
  {
    JsonResponse(status, Obj(map["error" := Str(error)]))
  }

  function InternalError(details: string): (r: Response)
    ensures r.status == 500
    ensures r.body == Json(Obj(map["error" := Str("Internal server error"), "details" := Str(details)]))
  {
    JsonResponse(500, Obj(map["error" := Str("Internal server error"), "details" := Str(details)]))
  }

  /** A thrown value: an `Error` instance carries a message; anything else
      (a plain error object from a query, say) does not. */
  datatype Thrown = ErrorInstance(message: string) | NonErrorValue

  /** `error instanceof Error ? error.message : 'Unknown error'`. */
  function ErrorMessage(t: Thrown): (m: string)
    ensures t.ErrorInstance? ==> m == t.message
    ensures t.NonErrorValue? ==> m == "Unknown error"
  {
    if t.ErrorInstance? then t.message else "Unknown error"
  }

  // ---------------------------------------------------------------------
  // Request payloads

  /** A payload property of the request body: absent, JSON `null`, or an
      object given by its own properties in the order `Object.keys` lists them. */
  datatype Payload = Undefined | NullPayload | Given(entries: seq<(string, Value)>)

  function KeysOf(entries: seq<(string, Value)>): (r: seq<string>)
    ensures |r| == |entries| && forall i :: 0 <= i < |r| ==> r[i] == entries[i].0
  {
    seq(|entries|, i requires 0 <= i < |entries| => entries[i].0)
  }

  /** `obj[key]`: the value of the first property with that name. */
  function PropertyOf(entries: seq<(string, Value)>, key: string): (r: Option<Value>)
    ensures r.Some? <==> key in KeysOf(entries)
    ensures r.Some? ==> exists i :: 0 <= i < |entries| && entries[i] == (key, r.value)
    decreases |entries|
  {
    if |entries| == 0 then None
    else if entries[0].0 == key then Some(entries[0].1)
    else
      var r := PropertyOf(entries[1..], key);
      assert KeysOf(entries) == [entries[0].0] + KeysOf(entries[1..]);
      assert r.Some? ==> (key, r.value) in entries[1..];
      r
  }

  /** `{ k1: obj.k1, ..., kn: obj.kn }` as sent: `JSON.stringify` drops the
      properties whose value is `undefined`. */
  function Picked(entries: seq<(string, Value)>, keys: seq<string>): (r: Row)
    ensures forall k :: k in r <==> k in keys && k in KeysOf(entries)
    ensures forall k :: k in r ==> PropertyOf(entries, k) == Some(r[k])
  {
    map k | k in keys && k in KeysOf(entries) :: PropertyOf(entries, k).value
  }

  /** `{ ...obj }`. */
  function Spread(entries: seq<(string, Value)>): (r: Row)
    ensures r.Keys == set k | k in KeysOf(entries)
    ensures forall k :: k in r ==> PropertyOf(entries, k) == Some(r[k])
  {
    map k | k in KeysOf(entries) :: PropertyOf(entries, k).value
  }

  /** V8's message for reading a property of `undefined` or `null`. */
  function PropertyReadError(p: Payload, key: string): (m: string)
    requires !p.Given?
  {
    "Cannot read properties of " + (if p.Undefined? then "undefined" else "null") + " (reading '" + key + "')"
  }

  const KeysOfNothing := "Cannot convert undefined or null to object"

  function KeyValues(keys: seq<string>): (v: Value)
    ensures v.Arr? && |v.items| == |keys| && forall i :: 0 <= i < |keys| ==> v.items[i] == Str(keys[i])
  {
    Arr(seq(|keys|, i requires 0 <= i < |keys| => Str(keys[i])))
  }

  // ---------------------------------------------------------------------
  // Backend outcomes and writes

  datatype RowRead = RowError(thrown: Thrown) | RowOk(row: Row)

  /** A stored `audit_logs` row; `timestamp` is its instant in milliseconds. */
  datatype AuditLog = AuditLog(id: string, userId: string, action: string, resource: string, data: Value, timestamp: int)

  datatype AuditRead = AuditError(thrown: Thrown) | AuditRows(rows: seq<AuditLog>)

  /** What each query the endpoint makes returns. `.single()` reads whose
      error the code ignores are plain options: `None` is a null `data`. */
  datatype Backend = Backend(
    profileRow: RowRead,
    adminRow: Option<Row>,
    securityRow: Option<Row>,
    preferencesRow: Option<Row>,
    profileUpdate: RowRead,
    upsertError: Option<Thrown>,
    auditRows: AuditRead,
    now: string)

  datatype Op = Insert | Upsert | UpdateById(id: string)
  datatype Write = Write(table: string, op: Op, row: Row)

  /** A handler's outcome: the response, or the message of the `Error` it
      throws, and the writes it sent on the way. */
  datatype Handled = Handled(result: Result<Response>, writes: seq<Write>)

  const AuditTable := "audit_logs"
  const ProfileUpdate := "ADMIN_PROFILE_UPDATE"
  const AvatarUpdate := "ADMIN_AVATAR_UPDATE"
  const SecurityUpdate := "ADMIN_SECURITY_UPDATE"
  const PreferencesUpdate := "ADMIN_PREFERENCES_UPDATE"
  const AuditActions := [ProfileUpdate, AvatarUpdate, SecurityUpdate, PreferencesUpdate]
  const AuditLimit := 50

  function AuditWrite(userId: string, action: string, resource: string, data: Row, now: string): (w: Write)
    ensures w.table == AuditTable && w.op == Insert
    ensures w.row == map["user_id" := Str(userId), "action" := Str(action), "resource" := Str(resource),
                         "data" := Obj(data), "timestamp" := Str(now)]
  {
    Write(AuditTable, Insert, map["user_id" := Str(userId), "action" := Str(action), "resource" := Str(resource),
                                  "data" := Obj(data), "timestamp" := Str(now)])
  }

  /** A handler's writes as far as the audit log goes: on success the last
      write, and only that one, is the audit record for `userId` with this
      action and resource, and the response is a 200; on failure no write
      goes to the audit log. */
  predicate AuditedAs(h: Handled, userId: string, action: string, resource: string) {
    && (h.result.Ok? ==>
          && h.result.value.status == 200
          && |h.writes| > 0
          && var last := h.writes[|h.writes| - 1];
             last.table == AuditTable && last.op == Insert
             && "user_id" in last.row && last.row["user_id"] == Str(userId)
             && "action" in last.row && last.row["action"] == Str(action)
             && "resource" in last.row && last.row["resource"] == Str(resource))
    && (forall i :: 0 <= i < |h.writes| && (h.result.Err? || i < |h.writes| - 1) ==> h.writes[i].table != AuditTable)
  }

  /** The handlers' `catch`: `Failed to <what>: <message>`. */
  function Failed(what: string, t: Thrown): (m: string) {
    "Failed to " + what + ": " + ErrorMessage(t)
  }

  // ---------------------------------------------------------------------
  // get

  /** `{ ...profileData, ...adminProfile, admin_security_settings, admin_preferences }`. */
  function Combined(profile: Row, admin: Option<Row>, security: Option<Row>, preferences: Option<Row>): (r: Row)
    ensures r.Keys == profile.Keys + admin.GetOr(map[]).Keys + {"admin_security_settings", "admin_preferences"}
    ensures r["admin_security_settings"] == (if security.Some? then Obj(security.value) else Null)
    ensures r["admin_preferences"] == (if preferences.Some? then Obj(preferences.value) else Null)
  {
    (profile + admin.GetOr(map[]))
      ["admin_security_settings" := if security.Some? then Obj(security.value) else Null]
      ["admin_preferences" := if preferences.Some? then Obj(preferences.value) else Null]
  }

  /** Key by key, outside the two nested settings, the admin row overrides
      the profile row. (The nested settings override both rows; `Combined`
      states their values.) */
  lemma CombinedOverrides(profile: Row, admin: Option<Row>, security: Option<Row>, preferences: Option<Row>, k: string)
    requires k != "admin_security_settings" && k != "admin_preferences"
    requires k in profile || (admin.Some? && k in admin.value)
    ensures var r := Combined(profile, admin, security, preferences);
      k in r
      && (admin.Some? && k in admin.value ==> r[k] == admin.value[k])
      && (admin.None? || k !in admin.value ==> r[k] == profile[k])
  {
  }

  function GetAdminProfile(b: Backend): (h: Handled)
    ensures h.writes == []
    ensures b.profileRow.RowError? <==> h.result.Err?
    ensures h.result.Err? ==> h.result.message == Failed("get admin profile", b.profileRow.thrown)
    ensures h.result.Ok? ==> h.result.value == JsonResponse(200, Obj(map["data" :=
      Obj(Combined(b.profileRow.row, b.adminRow, b.securityRow, b.preferencesRow))]))
  {
    match b.profileRow
    case RowError(t) => Handled(Err(Failed("get admin profile", t)), [])
    case RowOk(profile) =>
      Handled(Ok(JsonResponse(200, Obj(map["data" := Obj(Combined(profile, b.adminRow, b.securityRow, b.preferencesRow))]))), [])
  }

  // ---------------------------------------------------------------------
  // The four updates

  function UpdateAdminProfile(userId: string, p: Payload, b: Backend): (h: Handled)
    ensures |h.writes| <= 3
    ensures AuditedAs(h, userId, ProfileUpdate, "admin_profile/" + userId)
    ensures p.Given? && b.profileUpdate.RowOk? && b.upsertError.None? <==> h.result.Ok?
    ensures !p.Given? ==> h.result.Err? && h.result.message == Failed("update admin profile", ErrorInstance(PropertyReadError(p, "first_name")))
    ensures p.Given? && b.profileUpdate.RowError? ==> h.result.Err? && h.result.message == Failed("update admin profile", b.profileUpdate.thrown)
    ensures p.Given? && b.profileUpdate.RowOk? && b.upsertError.Some? ==>
      h.result.Err? && h.result.message == Failed("update admin profile", b.upsertError.value)
  {
    if !p.Given? then Handled(Err(Failed("update admin profile", ErrorInstance(PropertyReadError(p, "first_name")))), [])
    else
      var e := p.entries;
      var w1 := Write("profiles", UpdateById(userId),
                      Picked(e, ["first_name", "last_name", "email"])["updated_at" := Str(b.now)]);
      match b.profileUpdate
      case RowError(t) => Handled(Err(Failed("update admin profile", t)), [w1])
      case RowOk(updated) =>
        var w2 := Write("admin_profiles", Upsert,
                        Picked(e, ["phone", "company", "department", "job_title", "bio"])
                          ["user_id" := Str(userId)]["updated_at" := Str(b.now)]);
        if b.upsertError.Some? then Handled(Err(Failed("update admin profile", b.upsertError.value)), [w1, w2])
        else
          var w3 := AuditWrite(userId, ProfileUpdate, "admin_profile/" + userId,
                               map["updated_fields" := KeyValues(KeysOf(e)), "timestamp" := Str(b.now)], b.now);
          Handled(Ok(JsonResponse(200, Obj(map["data" := Obj(updated),
                                               "message" := Str("Admin profile updated successfully")]))),
                  [w1, w2, w3])
  }

  function UpdateAdminAvatar(userId: string, p: Payload, b: Backend): (h: Handled)
    ensures |h.writes| <= 2
    ensures AuditedAs(h, userId, AvatarUpdate, "admin_profile/" + userId)
    ensures p.Given? && b.upsertError.None? <==> h.result.Ok?
    ensures !p.Given? ==> h.result.Err? && h.result.message == Failed("update admin avatar", ErrorInstance(PropertyReadError(p, "avatar_url")))
    ensures p.Given? && b.upsertError.Some? ==> h.result.Err? && h.result.message == Failed("update admin avatar", b.upsertError.value)
  {
    if !p.Given? then Handled(Err(Failed("update admin avatar", ErrorInstance(PropertyReadError(p, "avatar_url")))), [])
    else
      var e := p.entries;
      var w1 := Write("admin_profiles", Upsert,
                      Picked(e, ["avatar_url", "avatar_file_name"])["user_id" := Str(userId)]["updated_at" := Str(b.now)]);
      if b.upsertError.Some? then Handled(Err(Failed("update admin avatar", b.upsertError.value)), [w1])
      else
        var w2 := AuditWrite(userId, AvatarUpdate, "admin_profile/" + userId,
                             Picked(e, ["avatar_url"])["timestamp" := Str(b.now)], b.now);
        Handled(Ok(JsonResponse(200, Obj(map["message" := Str("Admin avatar updated successfully")]))), [w1, w2])
  }

  function UpdateAdminSecurity(userId: string, p: Payload, b: Backend): (h: Handled)
    ensures |h.writes| <= 2
    ensures AuditedAs(h, userId, SecurityUpdate, "admin_security/" + userId)
    ensures p.Given? && b.upsertError.None? <==> h.result.Ok?
    ensures !p.Given? ==>
      h.result.Err? && h.result.message == Failed("update admin security settings", ErrorInstance(PropertyReadError(p, "two_factor_enabled")))
    ensures p.Given? && b.upsertError.Some? ==>
      h.result.Err? && h.result.message == Failed("update admin security settings", b.upsertError.value)
  {
    if !p.Given? then Handled(Err(Failed("update admin security settings", ErrorInstance(PropertyReadError(p, "two_factor_enabled")))), [])
    else
      var e := p.entries;
      var w1 := Write("admin_security_settings", Upsert,
                      Picked(e, ["two_factor_enabled", "session_timeout", "ip_whitelist", "password_change_required"])
                        ["user_id" := Str(userId)]["updated_at" := Str(b.now)]);
      if b.upsertError.Some? then Handled(Err(Failed("update admin security settings", b.upsertError.value)), [w1])
      else
        var w2 := AuditWrite(userId, SecurityUpdate, "admin_security/" + userId,
                             map["updated_settings" := KeyValues(KeysOf(e)), "timestamp" := Str(b.now)], b.now);
        Handled(Ok(JsonResponse(200, Obj(map["message" := Str("Admin security settings updated successfully")]))), [w1, w2])
  }

  /** `{ user_id: userId, ...preferences, updated_at }` as written: a
      `user_id` in the payload replaces the caller's. */
  function PreferencesRowAsWritten(userId: string, e: seq<(string, Value)>, now: string): (r: Row)
    ensures "user_id" in r && "updated_at" in r && r["updated_at"] == Str(now)
    ensures "user_id" !in KeysOf(e) ==> r["user_id"] == Str(userId)
    ensures "user_id" in KeysOf(e) ==> r["user_id"] == PropertyOf(e, "user_id").value
  {
    (map["user_id" := Str(userId)] + Spread(e))["updated_at" := Str(now)]
  }

  /** As written, the payload decides whose preferences row is upserted. */
  lemma PreferencesCanTargetAnotherUser(userId: string, other: string, now: string)
    requires other != userId
    ensures PreferencesRowAsWritten(userId, [("user_id", Str(other))], now)["user_id"] == Str(other)
  {
    assert KeysOf([("user_id", Str(other))]) == ["user_id"];
  }

  /** The preferences row as evidently intended: the payload's settings, but
      always filed under the caller and stamped with the time. */
  function PreferencesRow(userId: string, e: seq<(string, Value)>, now: string): (r: Row)
    ensures "user_id" in r && "updated_at" in r && r["user_id"] == Str(userId) && r["updated_at"] == Str(now)
    ensures r.Keys == Spread(e).Keys + {"user_id", "updated_at"}
    ensures forall k :: k in r && k != "user_id" && k != "updated_at" ==> PropertyOf(e, k) == Some(r[k])
  {
    Spread(e)["user_id" := Str(userId)]["updated_at" := Str(now)]
  }

  /** The two agree whenever the payload carries no `user_id`. */
  lemma PreferencesRowAgrees(userId: string, e: seq<(string, Value)>, now: string)
    requires "user_id" !in KeysOf(e)
    ensures PreferencesRow(userId, e, now) == PreferencesRowAsWritten(userId, e, now)
  {
  }

  /** updatePreferences as written. Spreading a missing payload is harmless,
      so the upsert is still sent; `Object.keys` of it then throws. The row
      upserted is filed under the payload's `user_id` when it carries one. */
  function UpdateAdminPreferences(userId: string, p: Payload, b: Backend): (h: Handled)
    ensures |h.writes| <= 2
    ensures AuditedAs(h, userId, PreferencesUpdate, "admin_preferences/" + userId)
    ensures p.Given? && b.upsertError.None? <==> h.result.Ok?
    ensures |h.writes| > 0 && h.writes[0].table == "admin_preferences" && "user_id" in h.writes[0].row
    ensures !p.Given? || "user_id" !in KeysOf(p.entries) ==> h.writes[0].row["user_id"] == Str(userId)
    ensures p.Given? && "user_id" in KeysOf(p.entries) ==>
      h.writes[0].row["user_id"] == PropertyOf(p.entries, "user_id").value
    ensures b.upsertError.Some? ==> h.result.Err? && h.result.message == Failed("update admin preferences", b.upsertError.value)
    ensures b.upsertError.None? && !p.Given? ==>
      h.result.Err? && h.result.message == Failed("update admin preferences", ErrorInstance(KeysOfNothing))
  {
    var e := if p.Given? then p.entries else [];
    var w1 := Write("admin_preferences", Upsert, PreferencesRowAsWritten(userId, e, b.now));
    if b.upsertError.Some? then Handled(Err(Failed("update admin preferences", b.upsertError.value)), [w1])
    else if !p.Given? then Handled(Err(Failed("update admin preferences", ErrorInstance(KeysOfNothing))), [w1])
    else
      var w2 := AuditWrite(userId, PreferencesUpdate, "admin_preferences/" + userId,
                           map["updated_preferences" := KeyValues(KeysOf(e)), "timestamp" := Str(b.now)], b.now);
      Handled(Ok(JsonResponse(200, Obj(map["message" := Str("Admin preferences updated successfully")]))), [w1, w2])
  }

  // ---------------------------------------------------------------------
  // getAuditLog

  predicate IsAdminEntry(userId: string, log: AuditLog) {
    log.userId == userId && log.action in AuditActions
  }

  function Stamp(log: AuditLog): int { log.timestamp }

  /** The caller's ADMIN_* entries, newest first, at most 50. Equal
      timestamps keep their stored order. */
  function AuditLogFor(userId: string, rows: seq<AuditLog>): (r: seq<AuditLog>)
    ensures |r| <= AuditLimit
    ensures NonIncreasing(r, Stamp)
  {
    Top(Filter(rows, (log: AuditLog) => IsAdminEntry(userId, log)), AuditLimit, Stamp)
  }

  /** Every reported entry is one of the caller's ADMIN_* entries, and an
      entry of theirs left out is no newer than any reported one. */
  lemma AuditLogSelection(userId: string, rows: seq<AuditLog>, x: AuditLog)
    ensures forall i :: 0 <= i < |AuditLogFor(userId, rows)| ==>
      AuditLogFor(userId, rows)[i] in rows && IsAdminEntry(userId, AuditLogFor(userId, rows)[i])
    ensures x in rows && IsAdminEntry(userId, x) && x !in AuditLogFor(userId, rows) ==>
      |AuditLogFor(userId, rows)| == AuditLimit
      && forall i :: 0 <= i < AuditLimit ==> x.timestamp <= AuditLogFor(userId, rows)[i].timestamp
  {
    var f := Filter(rows, (log: AuditLog) => IsAdminEntry(userId, log));
    TopFromInput(f, AuditLimit, Stamp);
    if x in rows && IsAdminEntry(userId, x) && x !in AuditLogFor(userId, rows) {
      TopIsMaximal(f, AuditLimit, Stamp, x);
      if |f| <= AuditLimit {
        TopKeepsAllWhenFew(f, AuditLimit, Stamp, x);
      }
    }
  }

  function LogValue(log: AuditLog): Value {
    Obj(map["id" := Str(log.id), "user_id" := Str(log.userId), "action" := Str(log.action),
            "resource" := Str(log.resource), "data" := log.data, "timestamp" := Num(log.timestamp)])
  }

  function GetAuditLog(userId: string, b: Backend): (h: Handled)
    ensures h.writes == []
    ensures b.auditRows.AuditError? <==> h.result.Err?
    ensures h.result.Err? ==> h.result.message == Failed("get admin profile audit log", b.auditRows.thrown)
    ensures h.result.Ok? ==> h.result.value.status == 200
  {
    match b.auditRows
    case AuditError(t) => Handled(Err(Failed("get admin profile audit log", t)), [])
    case AuditRows(rows) =>
      var logs := AuditLogFor(userId, rows);
      Handled(Ok(JsonResponse(200, Obj(map["data" := Arr(seq(|logs|, i requires 0 <= i < |logs| => LogValue(logs[i])))]))), [])
  }

  // ---------------------------------------------------------------------
  // The gate and the dispatch

  const Actions := ["get", "update", "updateAvatar", "updateSecurity", "updatePreferences", "getAuditLog"]
  const UpdateActions := ["update", "updateAvatar", "updateSecurity", "updatePreferences"]

  /** `req.json()`: a body that does not parse throws. A non-string action
      is `None`. */
  datatype BodyRead = Malformed(thrown: Thrown) | Parsed(
    action: Option<string>,
    profileData: Payload,
    securityData: Payload,
    preferences: Payload,
    avatarData: Payload)

  /** The `profiles.role` lookup: no row, or the role (which may be null). */
  datatype RoleRead = NoProfile | ProfileRole(role: Option<string>)

  datatype Request = Request(httpMethod: string, user: Option<string>, profile: RoleRead, body: BodyRead)

  datatype Outcome = Outcome(response: Response, writes: seq<Write>)

  predicate IsAdmin(p: RoleRead) {
    p.ProfileRole? && p.role.Some? && (p.role.value == "super_admin" || p.role.value == "admin")
  }

  function Dispatch(userId: string, action: Option<string>, body: BodyRead, b: Backend): (h: Handled)
    requires body.Parsed?
    ensures action.None? || action.value !in Actions ==> h == Handled(Ok(ErrorResponse(400, "Invalid action")), [])
  {
    if action == Some("get") then GetAdminProfile(b)
    else if action == Some("update") then UpdateAdminProfile(userId, body.profileData, b)
    else if action == Some("updateAvatar") then UpdateAdminAvatar(userId, body.avatarData, b)
    else if action == Some("updateSecurity") then UpdateAdminSecurity(userId, body.securityData, b)
    else if action == Some("updatePreferences") then UpdateAdminPreferences(userId, body.preferences, b)
    else if action == Some("getAuditLog") then GetAuditLog(userId, b)
    else Handled(Ok(ErrorResponse(400, "Invalid action")), [])
  }

  /** The endpoint. */
  function Serve(req: Request, b: Backend): (o: Outcome)
    ensures req.httpMethod == "OPTIONS" ==> o == Outcome(Response(200, CorsHeaders, Text("ok")), [])
    ensures req.httpMethod != "OPTIONS" && req.user.None? ==> o == Outcome(ErrorResponse(401, "Unauthorized"), [])
    ensures req.httpMethod != "OPTIONS" && req.user.Some? && !IsAdmin(req.profile) ==>
      o == Outcome(ErrorResponse(403, "Insufficient permissions"), [])
    ensures req.httpMethod != "OPTIONS" && req.user.Some? && IsAdmin(req.profile) && req.body.Malformed? ==>
      o == Outcome(InternalError(ErrorMessage(req.body.thrown)), [])
  {
    if req.httpMethod == "OPTIONS" then Outcome(Response(200, CorsHeaders, Text("ok")), [])
    else if req.user.None? then Outcome(ErrorResponse(401, "Unauthorized"), [])
    else if !IsAdmin(req.profile) then Outcome(ErrorResponse(403, "Insufficient permissions"), [])
    else match req.body
      case Malformed(t) => Outcome(InternalError(ErrorMessage(t)), [])
      case Parsed(action, _, _, _, _) =>
        var h := Dispatch(req.user.value, action, req.body, b);
        match h.result
        case Ok(resp) => Outcome(resp, h.writes)
        case Err(m) => Outcome(InternalError(m), h.writes)
  }

  /** Through the whole endpoint, an admin whose preferences payload names
      another user upserts that user's preferences row. */
  lemma PreferencesEndpointTargetsPayloadUser(req: Request, b: Backend, other: string)
    requires req.httpMethod != "OPTIONS" && req.user.Some? && IsAdmin(req.profile) && req.body.Parsed?
    requires req.body.action == Some("updatePreferences")
    requires req.body.preferences == Given([("user_id", Str(other))]) && other != req.user.value
    ensures var o := Serve(req, b);
      |o.writes| > 0 && o.writes[0].table == "admin_preferences"
      && "user_id" in o.writes[0].row && o.writes[0].row["user_id"] == Str(other)
  {
    var e := [("user_id", Str(other))];
    assert KeysOf(e) == ["user_id"];
    assert PropertyOf(e, "user_id") == Some(Str(other));
  }

  /** Requests refused at the gate are refused whatever their body says and
      whatever the database holds, and send no write. */
  lemma GateIgnoresBody(req: Request, body: BodyRead, b: Backend, b2: Backend)
    requires req.httpMethod == "OPTIONS" || req.user.None? || !IsAdmin(req.profile)
    ensures Serve(req.(body := body), b2) == Serve(req, b)
    ensures Serve(req, b).writes == []
    ensures Serve(req, b).response.status in {200, 401, 403}
  {
  }

  /** Every response carries the CORS headers, and its status is one of the
      five the endpoint uses. */
  lemma ResponsesCarryCors(req: Request, b: Backend)
    ensures CorsHeaders <= Serve(req, b).response.headers
    ensures Serve(req, b).response.status in {200, 400, 401, 403, 500}
  {
    if req.httpMethod != "OPTIONS" && req.user.Some? && IsAdmin(req.profile) && req.body.Parsed? {
      ServeParsed(req, b);
      DispatchResponse(req.user.value, req.body.action, req.body, b);
    }
  }

  /** Past the gate, the endpoint answers with what the dispatched handler
      returns, or a 500 carrying its failure, and sends its writes. */
  lemma ServeParsed(req: Request, b: Backend)
    requires req.httpMethod != "OPTIONS" && req.user.Some? && IsAdmin(req.profile) && req.body.Parsed?
    ensures var h, o := Dispatch(req.user.value, req.body.action, req.body, b), Serve(req, b);
      o.writes == h.writes
      && (h.result.Ok? ==> o.response == h.result.value)
      && (h.result.Err? ==> o.response == InternalError(h.result.message))
  {
  }

  /** A handler that returns answers with JSON and the CORS headers, 200 or,
      for an unknown action, 400. */
  lemma DispatchResponse(userId: string, action: Option<string>, body: BodyRead, b: Backend)
    requires body.Parsed?
    ensures var h := Dispatch(userId, action, body, b);
      h.result.Ok? ==> h.result.value.headers == JsonHeaders && h.result.value.status in {200, 400}
  {
    var h := Dispatch(userId, action, body, b);
    if action == Some("get") {
      assert h == GetAdminProfile(b);
    } else if action == Some("update") {
      assert h == UpdateAdminProfile(userId, body.profileData, b);
    } else if action == Some("updateAvatar") {
      assert h == UpdateAdminAvatar(userId, body.avatarData, b);
    } else if action == Some("updateSecurity") {
      assert h == UpdateAdminSecurity(userId, body.securityData, b);
    } else if action == Some("updatePreferences") {
      assert h == UpdateAdminPreferences(userId, body.preferences, b);
    } else if action == Some("getAuditLog") {
      assert h == GetAuditLog(userId, b);
    }
  }

  /** Only the six actions are dispatched; anything else is a 400 with no writes. */
  lemma InvalidActionRejected(req: Request, b: Backend)
    requires req.httpMethod != "OPTIONS" && req.user.Some? && IsAdmin(req.profile) && req.body.Parsed?
    requires req.body.action.None? || req.body.action.value !in Actions
    ensures Serve(req, b) == Outcome(ErrorResponse(400, "Invalid action"), [])
  {
  }

  function AuditWrites(writes: seq<Write>): (r: seq<Write>)
    ensures forall i :: 0 <= i < |r| ==> r[i] in writes && r[i].table == AuditTable
  {
    Filter(writes, (w: Write) => w.table == AuditTable)
  }

  /** The audit action and resource each update records. */
  function AuditFor(action: string, userId: string): (r: (string, string))
    requires action in UpdateActions
  {
    if action == "update" then (ProfileUpdate, "admin_profile/" + userId)
    else if action == "updateAvatar" then (AvatarUpdate, "admin_profile/" + userId)
    else if action == "updateSecurity" then (SecurityUpdate, "admin_security/" + userId)
    else (PreferencesUpdate, "admin_preferences/" + userId)
  }

  /** What `AuditedAs` says about the audit writes themselves. */
  lemma AuditedOnce(h: Handled, userId: string, action: string, resource: string)
    requires AuditedAs(h, userId, action, resource)
    ensures h.result.Ok? ==> AuditWrites(h.writes) == [h.writes[|h.writes| - 1]]
    ensures h.result.Err? ==> AuditWrites(h.writes) == []
  {
    var isAudit := (w: Write) => w.table == AuditTable;
    if h.result.Err? {
      FilterNone(h.writes, isAudit);
    } else {
      var init := h.writes[..|h.writes| - 1];
      assert h.writes == init + [h.writes[|h.writes| - 1]];
      FilterAppend(init, h.writes[|h.writes| - 1], isAudit);
      FilterNone(init, isAudit);
    }
  }

  /** The writes end with the one audit record, for `userId` with this action
      and resource. */
  predicate EndsWithAudit(writes: seq<Write>, userId: string, action: string, resource: string) {
    && |writes| > 0
    && AuditWrites(writes) == [writes[|writes| - 1]]
    && var last := writes[|writes| - 1];
       "user_id" in last.row && last.row["user_id"] == Str(userId)
       && "action" in last.row && last.row["action"] == Str(action)
       && "resource" in last.row && last.row["resource"] == Str(resource)
  }

  /** Each update action is audited under its own action name and resource. */
  lemma DispatchAudited(userId: string, action: string, body: BodyRead, b: Backend)
    requires body.Parsed? && action in UpdateActions
    ensures var a := AuditFor(action, userId);
      AuditedAs(Dispatch(userId, Some(action), body, b), userId, a.0, a.1)
  {
    if action == "update" {
      UpdateAudited(userId, body, b);
    } else if action == "updateAvatar" {
      AvatarAudited(userId, body, b);
    } else if action == "updateSecurity" {
      SecurityAudited(userId, body, b);
    } else {
      PreferencesAudited(userId, body, b);
    }
  }

  lemma UpdateAudited(userId: string, body: BodyRead, b: Backend)
    requires body.Parsed?
    ensures AuditedAs(Dispatch(userId, Some("update"), body, b), userId, ProfileUpdate, "admin_profile/" + userId)
  {
    assert Dispatch(userId, Some("update"), body, b) == UpdateAdminProfile(userId, body.profileData, b);
  }

  lemma AvatarAudited(userId: string, body: BodyRead, b: Backend)
    requires body.Parsed?
    ensures AuditedAs(Dispatch(userId, Some("updateAvatar"), body, b), userId, AvatarUpdate, "admin_profile/" + userId)
  {
    assert Dispatch(userId, Some("updateAvatar"), body, b) == UpdateAdminAvatar(userId, body.avatarData, b);
  }

  lemma SecurityAudited(userId: string, body: BodyRead, b: Backend)
    requires body.Parsed?
    ensures AuditedAs(Dispatch(userId, Some("updateSecurity"), body, b), userId, SecurityUpdate, "admin_security/" + userId)
  {
    assert Dispatch(userId, Some("updateSecurity"), body, b) == UpdateAdminSecurity(userId, body.securityData, b);
  }

  lemma PreferencesAudited(userId: string, body: BodyRead, b: Backend)
    requires body.Parsed?
    ensures AuditedAs(Dispatch(userId, Some("updatePreferences"), body, b), userId, PreferencesUpdate, "admin_preferences/" + userId)
  {
    assert Dispatch(userId, Some("updatePreferences"), body, b) == UpdateAdminPreferences(userId, body.preferences, b);
  }

  /** An update that succeeds writes exactly one audit record, as its last
      write, for the caller with its own action and resource; one that fails
      writes none. The two reads write nothing. */
  lemma OneAuditRecordPerUpdate(req: Request, b: Backend)
    requires req.httpMethod != "OPTIONS" && req.user.Some? && IsAdmin(req.profile) && req.body.Parsed?
    ensures var o := Serve(req, b);
      var action := req.body.action;
      (action.Some? && action.value in UpdateActions && o.response.status == 200 ==>
        var a := AuditFor(action.value, req.user.value);
        EndsWithAudit(o.writes, req.user.value, a.0, a.1))
      && (action.Some? && action.value in UpdateActions && o.response.status != 200 ==> AuditWrites(o.writes) == [])
      && (action == Some("get") || action == Some("getAuditLog") ==> o.writes == [])
  {
    var userId := req.user.value;
    var action := req.body.action;
    var h := Dispatch(userId, action, req.body, b);
    ServeParsed(req, b);
    if action.Some? && action.value in UpdateActions {
      var a := AuditFor(action.value, userId);
      DispatchAudited(userId, action.value, req.body, b);
      AuditedOnce(h, userId, a.0, a.1);
    } else if action == Some("get") {
      assert h == GetAdminProfile(b);
    } else if action == Some("getAuditLog") {
      assert h == GetAuditLog(userId, b);
    }
  }

  /** The text each handler puts after "Failed to " in the error it throws. */
  function HandlerTask(action: string): string {
    if action == "get" then "get admin profile"
    else if action == "update" then "update admin profile"
    else if action == "updateAvatar" then "update admin avatar"
    else if action == "updateSecurity" then "update admin security settings"
    else if action == "updatePreferences" then "update admin preferences"
    else "get admin profile audit log"
  }

  /** Every handler that fails throws "Failed to <its task>: <message>", where
      the message is the caught error's, or 'Unknown error'. */
  lemma DispatchFailureNamed(userId: string, action: string, body: BodyRead, b: Backend)
    requires body.Parsed? && action in Actions
    ensures FailureNamed(Dispatch(userId, Some(action), body, b), action)
  {
    if action == "get" {
      GetFailureNamed(userId, body, b);
    } else if action == "update" {
      UpdateFailureNamed(userId, body, b);
    } else if action == "updateAvatar" {
      AvatarFailureNamed(userId, body, b);
    } else if action == "updateSecurity" {
      SecurityFailureNamed(userId, body, b);
    } else if action == "updatePreferences" {
      PreferencesFailureNamed(userId, body, b);
    } else {
      AuditLogFailureNamed(userId, body, b);
    }
  }

  /** A failed handler's message is "Failed to <its task>: " and a caught error's message. */
  ghost predicate FailureNamed(h: Handled, action: string) {
    h.result.Err? ==> exists t: Thrown :: h.result.message == Failed(HandlerTask(action), t)
  }

  lemma GetFailureNamed(userId: string, body: BodyRead, b: Backend)
    requires body.Parsed?
    ensures FailureNamed(Dispatch(userId, Some("get"), body, b), "get")
  {
    var h := Dispatch(userId, Some("get"), body, b);
    assert h == GetAdminProfile(b);
    if h.result.Err? {
      assert h.result.message == Failed(HandlerTask("get"), b.profileRow.thrown);
    }
  }

  lemma UpdateFailureNamed(userId: string, body: BodyRead, b: Backend)
    requires body.Parsed?
    ensures FailureNamed(Dispatch(userId, Some("update"), body, b), "update")
  {
    var p := body.profileData;
    var h := Dispatch(userId, Some("update"), body, b);
    assert h == UpdateAdminProfile(userId, p, b);
    if !p.Given? {
      assert h.result.message == Failed(HandlerTask("update"), ErrorInstance(PropertyReadError(p, "first_name")));
    } else if b.profileUpdate.RowError? {
      assert h.result.message == Failed(HandlerTask("update"), b.profileUpdate.thrown);
    } else if b.upsertError.Some? {
      assert h.result.message == Failed(HandlerTask("update"), b.upsertError.value);
    }
  }

  lemma AvatarFailureNamed(userId: string, body: BodyRead, b: Backend)
    requires body.Parsed?
    ensures FailureNamed(Dispatch(userId, Some("updateAvatar"), body, b), "updateAvatar")
  {
    var p := body.avatarData;
    var h := Dispatch(userId, Some("updateAvatar"), body, b);
    assert h == UpdateAdminAvatar(userId, p, b);
    if !p.Given? {
      assert h.result.message == Failed(HandlerTask("updateAvatar"), ErrorInstance(PropertyReadError(p, "avatar_url")));
    } else if b.upsertError.Some? {
      assert h.result.message == Failed(HandlerTask("updateAvatar"), b.upsertError.value);
    }
  }

  lemma SecurityFailureNamed(userId: string, body: BodyRead, b: Backend)
    requires body.Parsed?
    ensures FailureNamed(Dispatch(userId, Some("updateSecurity"), body, b), "updateSecurity")
  {
    var p := body.securityData;
    var h := Dispatch(userId, Some("updateSecurity"), body, b);
    assert h == UpdateAdminSecurity(userId, p, b);
    if !p.Given? {
      assert h.result.message == Failed(HandlerTask("updateSecurity"), ErrorInstance(PropertyReadError(p, "two_factor_enabled")));
    } else if b.upsertError.Some? {
      assert h.result.message == Failed(HandlerTask("updateSecurity"), b.upsertError.value);
    }
  }

  lemma PreferencesFailureNamed(userId: string, body: BodyRead, b: Backend)
    requires body.Parsed?
    ensures FailureNamed(Dispatch(userId, Some("updatePreferences"), body, b), "updatePreferences")
  {
    var p := body.preferences;
    var h := Dispatch(userId, Some("updatePreferences"), body, b);
    assert h == UpdateAdminPreferences(userId, p, b);
    if b.upsertError.Some? {
      assert h.result.message == Failed(HandlerTask("updatePreferences"), b.upsertError.value);
    } else if !p.Given? {
      assert h.result.message == Failed(HandlerTask("updatePreferences"), ErrorInstance(KeysOfNothing));
    }
  }

  lemma AuditLogFailureNamed(userId: string, body: BodyRead, b: Backend)
    requires body.Parsed?
    ensures FailureNamed(Dispatch(userId, Some("getAuditLog"), body, b), "getAuditLog")
  {
    var h := Dispatch(userId, Some("getAuditLog"), body, b);
    assert h == GetAuditLog(userId, b);
    if h.result.Err? {
      assert h.result.message == Failed(HandlerTask("getAuditLog"), b.auditRows.thrown);
    }
  }

  /** Through the endpoint, any of the six handlers failing gives 500 whose
      details name the handler's task and carry the caught error's message. */
  lemma FailingHandlerIs500(req: Request, b: Backend)
    requires req.httpMethod != "OPTIONS" && req.user.Some? && IsAdmin(req.profile) && req.body.Parsed?
    requires req.body.action.Some? && req.body.action.value in Actions
    ensures var h := Dispatch(req.user.value, req.body.action, req.body, b);
      h.result.Err? ==>
        && Serve(req, b).response == InternalError(h.result.message)
        && Serve(req, b).response.status == 500
        && exists t: Thrown :: h.result.message == Failed(HandlerTask(req.body.action.value), t)
  {
    ServeParsed(req, b);
    DispatchFailureNamed(req.user.value, req.body.action.value, req.body, b);
  }

  /** A failing get handler turns into a 500 whose details name the handler
      and the underlying message, or 'Unknown error' for a non-`Error` value. */
  lemma HandlerFailureIs500(req: Request, b: Backend, t: Thrown)
    requires req.httpMethod != "OPTIONS" && req.user.Some? && IsAdmin(req.profile) && req.body.Parsed?
    requires req.body.action == Some("get") && b.profileRow == RowError(t)
    ensures Serve(req, b).response == InternalError("Failed to get admin profile: " + ErrorMessage(t))
    ensures t.NonErrorValue? ==> Serve(req, b).response == InternalError("Failed to get admin profile: Unknown error")
  {
    assert "Failed to " + "get admin profile" + ": " == "Failed to get admin profile: ";
    if t.NonErrorValue? {
      assert "Failed to get admin profile: " + "Unknown error" == "Failed to get admin profile: Unknown error";
    }
  }
}

/**
 * The decision rules of the web server: the reply for a task's state, the
 * cookie check that decides whether the user is authorised, the formatting
 * of the cookies a session received, the sweep that deletes old files, and
 * the configuration loader's validation with its fallback. Flask, Celery,
 * Redis, the HTTP session and the clock stay outside; what they return is
 * given to these operations as values.
 */
module Server {
  import opened Wrappers
  import opened Text
  import opened Values
  import opened FileStore

  // ---------------------------------------------------------------------------
  // get_task_status

  /** The state the task backend reports, with the payload each state carries. */
  datatype TaskState =
    | Pending
    | Success(result: Value)
    | Failure(message: string)   // `str(task.result)`
    | Progress(info: Value)      // `task.info`
    | Other(name: string)        // any other state name, such as STARTED

  /** The JSON reply and its HTTP status code. */
  datatype StatusReply = StatusReply(status: string, progress: Option<Value>, result: Option<Value>, error: Option<string>, code: int)

  /** `task.info.get('progress', 0) if task.info else 0`: an error where `info` has no `get`. */
  function ReportedProgress(info: Value): (r: Result<Value, string>)
    ensures !Truthy(info) ==> r == Ok(Int(0))
    ensures Truthy(info) ==> (r.Ok? <==> info.Dict?)
    ensures Truthy(info) && info.Dict? ==>
      r == Ok(if "progress" in info.entries then info.entries["progress"] else Int(0))
  {
    if !Truthy(info) then Ok(Int(0)) else GetOr(info, "progress", Int(0))
  }

  /**
   * `get_task_status`: pending and unrecognised states are processing at 0,
   * success is completed at 100 with the result, failure is failed at 0 with
   * the error text, progress carries the reported progress; a failed lookup
   * or a non-dictionary progress payload is a 500 error reply.
   */
  function GetTaskStatus(lookup: Result<TaskState, string>): (r: StatusReply)
    ensures r.code == 200 || r.code == 500
    ensures r.code == 500 <==>
      lookup.Err? || (lookup.value.Progress? && ReportedProgress(lookup.value.info).Err?)
    ensures r.code == 500 ==> r.status == "error" && r.progress.None? && r.result.None? && r.error.Some?
    ensures lookup.Err? ==> r.error == Some(lookup.error)
    ensures lookup.Ok? && (lookup.value.Pending? || lookup.value.Other?) ==>
      r == StatusReply("processing", Some(Int(0)), None, None, 200)
    ensures (r.status == "completed") <==> lookup.Ok? && lookup.value.Success?
    ensures r.status == "completed" ==>
      r.progress == Some(Int(100)) && r.result == Some(lookup.value.result) && r.error.None?
    ensures (r.status == "failed") <==> lookup.Ok? && lookup.value.Failure?
    ensures r.status == "failed" ==>
      r.progress == Some(Int(0)) && r.error == Some(lookup.value.message) && r.result.None?
    ensures lookup.Ok? && lookup.value.Progress? && r.code == 200 ==>
      r == StatusReply("processing", Some(ReportedProgress(lookup.value.info).value), None, None, 200)
  {
    match lookup
    case Err(e) => StatusReply("error", None, None, Some(e), 500)
    case Ok(state) =>
      match state
      case Pending => StatusReply("processing", Some(Int(0)), None, None, 200)
      case Success(result) => StatusReply("completed", Some(Int(100)), Some(result), None, 200)
      case Failure(message) => StatusReply("failed", Some(Int(0)), None, Some(message), 200)
      case Progress(info) =>
        (match ReportedProgress(info)
         case Err(e) => StatusReply("error", None, None, Some(e), 500)
         case Ok(p) => StatusReply("processing", Some(p), None, None, 200))
      case Other(_) => StatusReply("processing", Some(Int(0)), None, None, 200)
  }

  // ---------------------------------------------------------------------------
  // check_auth

  /** The cookies a logged-in YouTube session must carry. */
  const RequiredCookies: seq<string> := ["CONSENT", "VISITOR_INFO1_LIVE", "LOGIN_INFO"]

  /** `config/youtube.cookies`: absent, unreadable (the error text), or the JSON it holds. */
  datatype CookieFile = NoCookieFile | CookieReadError(message: string) | CookieDocument(json: Value)

  /** The JSON reply of `check_auth`. */
  datatype AuthReply = AuthReply(authorized: bool, error: Option<string>)

  /**
   * `for cookie in cookies`, as far as the check can tell: a list gives its
   * items; a dict or a string gives strings, so a non-empty one fails at the
   * first `cookie['name']`; anything else is not iterable.
   */
  function Elements(v: Value): (r: Result<seq<Value>, string>)
    ensures r.Ok? ==> v.List? || r.value == []
    ensures v.List? ==> r == Ok(v.items)
  {
    match v
    case List(items) => Ok(items)
    case Dict(entries) => if entries == map[] then Ok([]) else Err("string indices must be integers, not 'str'")
    case Str(s) => if s == [] then Ok([]) else Err("string indices must be integers, not 'str'")
    case _ => Err("'" + TypeName(v) + "' object is not iterable")
  }

  /** `any(cookie['name'] == req for cookie in cookies[j:])`, stopping at the first match or error. */
  function AnyNamed(cookies: seq<Value>, req: string, j: nat): Result<bool, string>
    decreases |cookies| - j
  {
    if j >= |cookies| then Ok(false)
    else
      match Subscript(cookies[j], "name")
      case Err(e) => Err(e)
      case Ok(name) => if name == Str(req) then Ok(true) else AnyNamed(cookies, req, j + 1)
  }

  /** `all(any(...) for req in required[i:])`, stopping at the first miss or error. */
  function AllRequired(cookies: seq<Value>, required: seq<string>, i: nat): Result<bool, string>
    decreases |required| - i
  {
    if i >= |required| then Ok(true)
    else
      match AnyNamed(cookies, required[i], 0)
      case Err(e) => Err(e)
      case Ok(found) => if !found then Ok(false) else AllRequired(cookies, required, i + 1)
  }

  /** `check_auth`. */
  function CheckAuth(file: CookieFile): (r: AuthReply)
    ensures file.NoCookieFile? ==> r == AuthReply(false, Some("No cookies found"))
    ensures r.error.Some? ==> !r.authorized
  {
    match file
    case NoCookieFile => AuthReply(false, Some("No cookies found"))
    case CookieReadError(message) => AuthReply(false, Some(message))
    case CookieDocument(json) =>
      match Elements(json)
      case Err(e) => AuthReply(false, Some(e))
      case Ok(cookies) =>
        match AllRequired(cookies, RequiredCookies, 0)
        case Err(e) => AuthReply(false, Some(e))
        case Ok(all) => AuthReply(all, None)
  }

  /** Some cookie at or after position j is named `req`. */
  predicate NamedFrom(cookies: seq<Value>, req: string, j: nat) {
    exists k :: j <= k < |cookies| && Subscript(cookies[k], "name") == Ok(Str(req))
  }

  /** Every cookie at or after position j has a name. */
  predicate AllNamedFrom(cookies: seq<Value>, j: nat) {
    forall k :: j <= k < |cookies| ==> Subscript(cookies[k], "name").Ok?
  }

  lemma {:induction false} AnyNamedSound(cookies: seq<Value>, req: string, j: nat)
    requires AnyNamed(cookies, req, j) == Ok(true)
    ensures NamedFrom(cookies, req, j)
    decreases |cookies| - j
  {
    if Subscript(cookies[j], "name") != Ok(Str(req)) {
      AnyNamedSound(cookies, req, j + 1);
      var k :| j + 1 <= k < |cookies| && Subscript(cookies[k], "name") == Ok(Str(req));
      assert j <= k;
    }
  }

  lemma {:induction false} AnyNamedComplete(cookies: seq<Value>, req: string, j: nat)
    requires AllNamedFrom(cookies, j)
    ensures AnyNamed(cookies, req, j) == Ok(NamedFrom(cookies, req, j))
    decreases |cookies| - j
  {
    if j < |cookies| && Subscript(cookies[j], "name") != Ok(Str(req)) {
      AnyNamedComplete(cookies, req, j + 1);
      if NamedFrom(cookies, req, j) {
        var k :| j <= k < |cookies| && Subscript(cookies[k], "name") == Ok(Str(req));
        assert k != j;
      }
    }
  }

  lemma {:induction false} AllRequiredSound(cookies: seq<Value>, required: seq<string>, i: nat)
    requires AllRequired(cookies, required, i) == Ok(true)
    ensures forall m :: i <= m < |required| ==> NamedFrom(cookies, required[m], 0)
    decreases |required| - i
  {
    if i < |required| {
      AnyNamedSound(cookies, required[i], 0);
      AllRequiredSound(cookies, required, i + 1);
    }
  }

  lemma {:induction false} AllRequiredComplete(cookies: seq<Value>, required: seq<string>, i: nat)
    requires AllNamedFrom(cookies, 0)
    ensures AllRequired(cookies, required, i) == Ok(forall m :: i <= m < |required| ==> NamedFrom(cookies, required[m], 0))
    decreases |required| - i
  {
    if i < |required| {
      AnyNamedComplete(cookies, required[i], 0);
      AllRequiredComplete(cookies, required, i + 1);
    }
  }

  /** An authorised reply means the file is a list naming every required cookie. */
  lemma CheckAuthSound(file: CookieFile)
    requires CheckAuth(file).authorized
    ensures file.CookieDocument? && file.json.List?
    ensures forall m :: 0 <= m < |RequiredCookies| ==> NamedFrom(file.json.items, RequiredCookies[m], 0)
  {
    AllRequiredSound(Elements(file.json).value, RequiredCookies, 0);
  }

  /** With every cookie named, the reply is exactly whether each required name occurs. */
  lemma CheckAuthComplete(cookies: seq<Value>)
    requires AllNamedFrom(cookies, 0)
    ensures CheckAuth(CookieDocument(List(cookies))) ==
      AuthReply(forall m :: 0 <= m < |RequiredCookies| ==> NamedFrom(cookies, RequiredCookies[m], 0), None)
  {
    AllRequiredComplete(cookies, RequiredCookies, 0);
  }

  // ---------------------------------------------------------------------------
  // Cookie formatting in get_youtube_cookies

  /** A cookie as `get_youtube_cookies` saves it. */
  datatype Cookie = Cookie(name: string, value: string, domain: string, path: string)

  /** `'.youtube.com' if 'youtube' in name.lower() else '.google.com'`. */
  function CookieDomain(name: string): (d: string)
    ensures d == ".youtube.com" <==> exists i :: OccursAt(Lower(name), "youtube", i)
    ensures d != ".youtube.com" ==> d == ".google.com"
  {
    ContainsIff(Lower(name), "youtube");
    if Contains(Lower(name), "youtube") then ".youtube.com" else ".google.com"
  }

  /**
   * The formatting loop of `get_youtube_cookies`: one entry per received
   * cookie, in order, with its domain and path `/`; none at all is a 404.
   */
  method FormatCookies(jar: seq<(string, string)>) returns (r: Result<seq<Cookie>, int>)
    ensures r.Err? <==> jar == []
    ensures r.Err? ==> r.error == 404
    ensures r.Ok? ==> |r.value| == |jar| && forall i :: 0 <= i < |jar| ==>
      r.value[i] == Cookie(jar[i].0, jar[i].1, CookieDomain(jar[i].0), "/")
  {
    var formatted: seq<Cookie> := [];
    for i := 0 to |jar|
      invariant |formatted| == i
      invariant forall j :: 0 <= j < i ==> formatted[j] == Cookie(jar[j].0, jar[j].1, CookieDomain(jar[j].0), "/")
    {
      var (name, value) := jar[i];
      var cookie := Cookie(name, value, CookieDomain(name), "/");
      formatted := formatted + [cookie];
    }
    if formatted == [] {
      return Err(404);
    }
    return Ok(formatted);
  }

  /** A saved cookie as `json.dump` writes it and `json.load` reads it back. */
  function CookieJson(c: Cookie): Value {
    Dict(map["name" := Str(c.name), "value" := Str(c.value), "domain" := Str(c.domain), "path" := Str(c.path)])
  }

  /** The saved cookie file, read back. */
  function SavedCookies(cookies: seq<Cookie>): (v: seq<Value>)
    ensures |v| == |cookies|
    ensures forall j :: 0 <= j < |cookies| ==> v[j] == CookieJson(cookies[j])
  {
    seq(|cookies|, j requires 0 <= j < |cookies| => CookieJson(cookies[j]))
  }

  /** A cookie file that `get_youtube_cookies` saved authorises exactly when it names every required cookie. */
  lemma SavedCookiesAuthorize(cookies: seq<Cookie>)
    ensures CheckAuth(CookieDocument(List(SavedCookies(cookies)))) == AuthReply(
      forall m :: 0 <= m < |RequiredCookies| ==> exists j :: 0 <= j < |cookies| && cookies[j].name == RequiredCookies[m],
      None)
  {
    var saved := SavedCookies(cookies);
    assert forall j :: 0 <= j < |saved| ==> Subscript(saved[j], "name") == Ok(Str(cookies[j].name));
    CheckAuthComplete(saved);
    forall m | 0 <= m < |RequiredCookies|
      ensures NamedFrom(saved, RequiredCookies[m], 0) <==>
        exists j :: 0 <= j < |cookies| && cookies[j].name == RequiredCookies[m]
    {
      if NamedFrom(saved, RequiredCookies[m], 0) {
        var k :| 0 <= k < |saved| && Subscript(saved[k], "name") == Ok(Str(RequiredCookies[m]));
        assert cookies[k].name == RequiredCookies[m];
      }
      if exists j :: 0 <= j < |cookies| && cookies[j].name == RequiredCookies[m] {
        var j :| 0 <= j < |cookies| && cookies[j].name == RequiredCookies[m];
        assert Subscript(saved[j], "name") == Ok(Str(RequiredCookies[m]));
      }
    }
  }

  // ---------------------------------------------------------------------------
  // cleanup_old_files

  /** How far the sweep gets: the position of the first listed file without a creation time. */
  function Reached(listing: seq<string>, ctimes: map<string, real>): (n: nat)
    ensures n <= |listing|
    ensures forall k :: 0 <= k < n ==> listing[k] in ctimes
    ensures n < |listing| ==> listing[n] !in ctimes
  {
    if listing == [] || listing[0] !in ctimes then 0
    else 1 + Reached(listing[1..], ctimes)
  }

  /**
   * The files the sweep removes among the first n listed: those older than
   * `maxAge` (strictly) whose removal does not fail.
   */
  function Expired(listing: seq<string>, ctimes: map<string, real>, maxAge: real, now: real, locked: set<string>, n: nat): set<string>
    requires n <= |listing| && forall k :: 0 <= k < n ==> listing[k] in ctimes
  {
    set k | 0 <= k < n && ctimes[listing[k]] + maxAge < now && listing[k] !in locked :: listing[k]
  }

  /**
   * `cleanup_old_files`: with no configured maximum age nothing is removed;
   * otherwise each listed file created more than `maxAge` before `now` is
   * removed. A failed removal is skipped; a file whose creation time cannot
   * be read ends the whole sweep.
   */
  method CleanupOldFiles(maxAge: Option<real>, now: real, listing: seq<string>, ctimes: map<string, real>,
                         locked: set<string>, disk: Disk)
    modifies disk
    ensures maxAge.None? ==> disk.files == old(disk.files)
    ensures maxAge.Some? ==>
      disk.files == old(disk.files) - Expired(listing, ctimes, maxAge.value, now, locked, Reached(listing, ctimes))
  {
    if maxAge.None? {
      return;
    }
    var age := maxAge.value;
    ghost var stop := Reached(listing, ctimes);
    for i := 0 to |listing|
      invariant i <= stop
      invariant disk.files == old(disk.files) - Expired(listing, ctimes, age, now, locked, i)
    {
      var path := listing[i];
      if path !in ctimes {
        return;
      }
      if ctimes[path] + age < now {
        if path !in locked {
          var _ := disk.Remove(path);
        }
      }
      assert Expired(listing, ctimes, age, now, locked, i + 1) ==
        Expired(listing, ctimes, age, now, locked, i) + (if ctimes[path] + age < now && path !in locked then {path} else {});
    }
  }

  // ---------------------------------------------------------------------------
  // load_config

  /** The top-level keys the configuration must have. */
  const RequiredParams: seq<string> := ["temp_dir", "memory", "server", "storage"]

  /** `/app/config/config.yaml`: unreadable or not YAML, or the document it holds. */
  datatype ConfigFile = ConfigReadError | ConfigDocument(document: Value)

  /** The configuration used when the file cannot be used. */
  const DefaultConfig: Value := Dict(map[
    "temp_dir" := Str("/app/temp"),
    "memory" := Dict(map["emergency_cleanup_threshold" := Int(85), "cleanup_interval" := Int(3600)]),
    "server" := Dict(map["host" := Str("0.0.0.0"), "port" := Int(8080)]),
    "storage" := Dict(map["temp_lifetime" := Int(3600), "cache_size_mb" := Int(1000), "cache_dir" := Str("/app/temp")])
  ])

  /** `param in config` holds for every required parameter (a TypeError counts as failing). */
  predicate HasRequired(config: Value) {
    forall i :: 0 <= i < |RequiredParams| ==> HasMember(config, RequiredParams[i]) == Some(true)
  }

  /**
   * `load_config`: the document when every required key passes Python's
   * `in` test on it, the defaults otherwise; either way the required keys
   * are there.
   */
  function LoadConfig(file: ConfigFile): (config: Value)
    ensures HasRequired(config)
    ensures file.ConfigDocument? && HasRequired(file.document) ==> config == file.document
    ensures !(file.ConfigDocument? && HasRequired(file.document)) ==> config == DefaultConfig
  {
    assert HasMember(DefaultConfig, "temp_dir") == Some(true);
    assert HasRequired(DefaultConfig);
    match file
    case ConfigReadError => DefaultConfig
    case ConfigDocument(document) => if HasRequired(document) then document else DefaultConfig
  }

  /** Loading what `load_config` returned gives it back unchanged. */
  lemma LoadConfigIdempotent(file: ConfigFile)
    ensures LoadConfig(ConfigDocument(LoadConfig(file))) == LoadConfig(file)
  {
  }
}

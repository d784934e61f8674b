/**
 * `YouTubeAPI`: OAuth authentication with a bounded number of attempts and
 * exponential back-off, the video-information lookup, and the watch URL
 * built from a video id. The OAuth flow, the token file and the HTTP
 * request are outside answers given as functions; sleeping is recorded as
 * the list of delays slept.
 */
module YouTubeApi {
  import opened Wrappers
  import opened Text
  import opened Values

  const MaxTokenRefreshAttempts: nat := 3

  /** The RuntimeError text after the last failed attempt. */
  const RefreshFailedMessage: string :=
    "Не удалось обновить токен после " + NatToString(MaxTokenRefreshAttempts) + " попыток"

  const VideoNotFoundMessage: string := "Видео не найдено"
  const WatchUrlPrefix: string := "https://www.youtube.com/watch?v="

  /** The credentials one authentication attempt yields. */
  datatype Credentials = Credentials(token: string)

  /** The service object `build('youtube', 'v3', credentials=...)` returns. */
  datatype Client = Client(credentials: Credentials)

  /**
   * One pass through the body of the authentication loop, in its two steps:
   * the credentials assigned to `self.credentials` (None where loading,
   * refreshing, the OAuth flow or saving the token raises before that
   * assignment), and whether `build` then returns a client for them.
   */
  datatype AttemptOutcome = AttemptOutcome(creds: Option<Credentials>, built: bool)

  /** The attempt returns True: credentials were obtained and the client was built. */
  predicate Succeeds(o: AttemptOutcome) {
    o.creds.Some? && o.built
  }

  /** The three fields of the dictionary `get_video_info` returns. */
  datatype VideoInfo = VideoInfo(title: Value, duration: Value, description: Value)

  /** The pair `(info, error)` of `get_video_info`. */
  datatype InfoReply = InfoReply(info: Option<VideoInfo>, error: Option<string>)

  /** The pair `get_download_url` returns: `(None, error)` or `(url, title)`. */
  datatype UrlReply = NoUrl(error: string) | Url(url: string, title: Value)

  /** `_load_api_key`: the stripped contents of the key file, or the error raised when it is missing. */
  function LoadApiKey(file: Option<string>): (r: Result<string, string>)
    ensures r.Err? <==> file.None?
    ensures r.Err? ==> r.error == "API key file (api.txt) not found"
    ensures r.Ok? ==> r.value == Strip(file.value)
  {
    match file
    case None => Err("API key file (api.txt) not found")
    case Some(text) => Ok(Strip(text))
  }

  /** 2 to the power n. */
  function Pow2(n: nat): (p: nat)
    ensures p >= 1
  {
    if n == 0 then 1 else 2 * Pow2(n - 1)
  }

  /** The delays slept after the first n failed attempts: 1, 2, 4, ... */
  function Backoff(n: nat): (delays: seq<nat>)
    ensures |delays| == n
    ensures forall a :: 0 <= a < n ==> delays[a] == Pow2(a)
  {
    if n == 0 then [] else Backoff(n - 1) + [Pow2(n - 1)]
  }

  /** The first attempt from `a` on, below n, that succeeds. */
  function FirstSuccess(attempt: nat -> AttemptOutcome, a: nat, n: nat): (r: Option<nat>)
    decreases n - a
    ensures r.Some? ==> a <= r.value < n && Succeeds(attempt(r.value))
    ensures r.Some? ==> forall j :: a <= j < r.value ==> !Succeeds(attempt(j))
    ensures r.None? ==> forall j :: a <= j < n ==> !Succeeds(attempt(j))
  {
    if a >= n then None
    else if Succeeds(attempt(a)) then Some(a)
    else FirstSuccess(attempt, a + 1, n)
  }

  /**
   * `self.credentials` after the first n attempts failed, starting from
   * `initial`: the credentials of the last of them that got as far as the
   * assignment, or `initial` where none did.
   */
  function CredentialsAfter(attempt: nat -> AttemptOutcome, n: nat, initial: Option<Credentials>): Option<Credentials> {
    if n == 0 then initial
    else if attempt(n - 1).creds.Some? then attempt(n - 1).creds
    else CredentialsAfter(attempt, n - 1, initial)
  }

  /**
   * After n failed attempts the credentials are either the initial ones,
   * when no attempt obtained credentials, or those of an attempt whose
   * client could not be built, with no later attempt obtaining any.
   */
  lemma {:induction false} CredentialsAfterFailures(attempt: nat -> AttemptOutcome, n: nat, initial: Option<Credentials>)
    requires forall j :: 0 <= j < n ==> !Succeeds(attempt(j))
    ensures var c := CredentialsAfter(attempt, n, initial);
      || (c == initial && forall j :: 0 <= j < n ==> attempt(j).creds.None?)
      || (exists j :: 0 <= j < n && c == attempt(j).creds && c.Some? && !attempt(j).built
            && forall m :: j < m < n ==> attempt(m).creds.None?)
  {
    if n > 0 {
      CredentialsAfterFailures(attempt, n - 1, initial);
      var c := CredentialsAfter(attempt, n, initial);
      if attempt(n - 1).creds.Some? {
        assert c == attempt(n - 1).creds && !attempt(n - 1).built;
      } else {
        var c' := CredentialsAfter(attempt, n - 1, initial);
        assert c == c';
        if c' == initial && forall j :: 0 <= j < n - 1 ==> attempt(j).creds.None? {
        } else {
          var j :| 0 <= j < n - 1 && c' == attempt(j).creds && c'.Some? && !attempt(j).built
            && forall m :: j < m < n - 1 ==> attempt(m).creds.None?;
          assert forall m :: j < m < n ==> attempt(m).creds.None?;
        }
      }
    }
  }

  /** How many attempts fail before the run of attempts ends: before the success, or all but the last. */
  function FailedBeforeEnd(attempt: nat -> AttemptOutcome): nat {
    match FirstSuccess(attempt, 0, MaxTokenRefreshAttempts)
    case Some(k) => k
    case None => MaxTokenRefreshAttempts - 1
  }

  /** The back-off never runs past the attempts: at most 1 + 2 seconds in all. */
  lemma BackoffBounded(attempt: nat -> AttemptOutcome)
    ensures FailedBeforeEnd(attempt) < MaxTokenRefreshAttempts
    ensures var d := Backoff(FailedBeforeEnd(attempt));
      forall a :: 0 <= a < |d| ==> d[a] <= 2
    ensures FirstSuccess(attempt, 0, MaxTokenRefreshAttempts).None? ==>
      Backoff(FailedBeforeEnd(attempt)) == [1, 2]
  {
    var d := Backoff(FailedBeforeEnd(attempt));
    assert Pow2(0) == 1 && Pow2(1) == 2;
    if FirstSuccess(attempt, 0, MaxTokenRefreshAttempts).None? {
      assert d == [Pow2(0), Pow2(1)];
    }
  }

  /** `items[0]`, or the text of the error Python raises. */
  function FirstItem(items: Value): (r: Result<Value, string>)
    ensures items.List? && items.items != [] ==> r == Ok(items.items[0])
    ensures r.Ok? ==> items.List? || items.Str?
  {
    match items
    case List(xs) => if xs == [] then Err("list index out of range") else Ok(xs[0])
    case Str(s) => if s == [] then Err("string index out of range") else Ok(Str([s[0]]))
    case Dict(_) => Err("0")
    case _ => Err("'" + TypeName(items) + "' object is not subscriptable")
  }

  /** The three fields read from the first item, or the first lookup's error. */
  function ReadInfo(item: Value): (r: Result<VideoInfo, string>)
    ensures r.Ok? <==>
      && Subscript(item, "snippet").Ok?
      && Subscript(Subscript(item, "snippet").value, "title").Ok?
      && Subscript(item, "contentDetails").Ok?
      && Subscript(Subscript(item, "contentDetails").value, "duration").Ok?
      && Subscript(Subscript(item, "snippet").value, "description").Ok?
    ensures r.Ok? ==> r.value == VideoInfo(
      item.entries["snippet"].entries["title"],
      item.entries["contentDetails"].entries["duration"],
      item.entries["snippet"].entries["description"])
  {
    match (Subscript(item, "snippet"), Subscript(item, "contentDetails"))
    case (Err(e), _) => Err(e)
    case (Ok(snippet), details) =>
      match Subscript(snippet, "title")
      case Err(e) => Err(e)
      case Ok(title) =>
        match details
        case Err(e) => Err(e)
        case Ok(details) =>
          match (Subscript(details, "duration"), Subscript(snippet, "description"))
          case (Ok(duration), Ok(description)) => Ok(VideoInfo(title, duration, description))
          case (Err(e), _) => Err(e)
          case (_, Err(e)) => Err(e)
  }

  /**
   * The body of `get_video_info`'s try block for the request's outcome: not
   * found when the response has no items, the raised error's text when the
   * request or a lookup fails, otherwise the three fields.
   */
  function InfoFromResponse(response: Result<Value, string>): (r: InfoReply)
    ensures r.info.Some? <==> r.error.None?
    ensures response.Err? ==> r == InfoReply(None, Some(response.error))
    ensures response.Ok? && response.value.Dict? && !Truthy(GetOr(response.value, "items", Null).value) ==>
      r == InfoReply(None, Some(VideoNotFoundMessage))
    ensures r.info.Some? ==>
      && response.Ok? && response.value.Dict? && "items" in response.value.entries
      && response.value.entries["items"].List? && response.value.entries["items"].items != []
      && ReadInfo(response.value.entries["items"].items[0]) == Ok(r.info.value)
    ensures (&& response.Ok? && response.value.Dict? && "items" in response.value.entries
             && response.value.entries["items"].List? && response.value.entries["items"].items != []) ==>
      var first := ReadInfo(response.value.entries["items"].items[0]);
      r == if first.Ok? then InfoReply(Some(first.value), None) else InfoReply(None, Some(first.error))
    ensures response.Ok? && !response.value.Dict? ==>
      r == InfoReply(None, Some(GetOr(response.value, "items", Null).error))
    ensures (&& response.Ok? && response.value.Dict? && Truthy(GetOr(response.value, "items", Null).value)
             && FirstItem(GetOr(response.value, "items", Null).value).Err?) ==>
      r == InfoReply(None, Some(FirstItem(GetOr(response.value, "items", Null).value).error))
  {
    match response
    case Err(e) => InfoReply(None, Some(e))
    case Ok(body) =>
      match GetOr(body, "items", Null)
      case Err(e) => InfoReply(None, Some(e))
      case Ok(items) =>
        if !Truthy(items) then InfoReply(None, Some(VideoNotFoundMessage))
        else
          match FirstItem(items)
          case Err(e) => InfoReply(None, Some(e))
          case Ok(item) =>
            match ReadInfo(item)
            case Err(e) => InfoReply(None, Some(e))
            case Ok(info) => InfoReply(Some(info), None)
  }

  /** The watch URL of a video. */
  function WatchUrl(videoId: string): (url: string)
    ensures |url| == |WatchUrlPrefix| + |videoId|
    ensures url[..|WatchUrlPrefix|] == WatchUrlPrefix && url[|WatchUrlPrefix|..] == videoId
  {
    WatchUrlPrefix + videoId
  }

  /** Different videos get different URLs. */
  lemma WatchUrlInjective(a: string, b: string)
    requires WatchUrl(a) == WatchUrl(b)
    ensures a == b
  {
    assert a == WatchUrl(a)[|WatchUrlPrefix|..] == WatchUrl(b)[|WatchUrlPrefix|..] == b;
  }

  /**
   * The body of `get_download_url` after the lookup: a non-empty error is
   * passed through; otherwise the URL with the title, and Err for the
   * TypeError of subscripting a missing info.
   */
  function DownloadReply(videoId: string, reply: InfoReply): (r: Result<UrlReply, string>)
    ensures reply.error.Some? && reply.error.value != [] ==> r == Ok(NoUrl(reply.error.value))
    ensures r.Ok? && r.value.Url? ==> reply.info.Some? && r.value == Url(WatchUrl(videoId), reply.info.value.title)
    ensures r.Err? <==> (reply.error.None? || reply.error.value == []) && reply.info.None?
    ensures (reply.error.None? || reply.error.value == []) && reply.info.Some? ==>
      r == Ok(Url(WatchUrl(videoId), reply.info.value.title))
  {
    if reply.error.Some? && reply.error.value != [] then Ok(NoUrl(reply.error.value))
    else
      match reply.info
      case None => Err("'NoneType' object is not subscriptable")
      case Some(info) => Ok(Url(WatchUrl(videoId), info.title))
  }

  /**
   * For a lookup that did not raise, the download reply is the URL with the
   * title exactly when the video was found, and raises only for an error
   * with empty text.
   */
  lemma DownloadReplyOfResponse(videoId: string, response: Result<Value, string>)
    ensures var reply := InfoFromResponse(response);
      var r := DownloadReply(videoId, reply);
      && (r.Err? <==> reply.error == Some([]))
      && (r.Ok? && r.value.Url? <==> reply.info.Some?)
      && (reply.info.Some? ==> r == Ok(Url(WatchUrl(videoId), reply.info.value.title)))
  {
  }

  class YouTubeApi {
    const apiKey: string
    var credentials: Option<Credentials>
    var youtube: Option<Client>

    /** `__init__`, given the key `_load_api_key` read: no credentials and no client yet. */
    constructor(apiKey: string)
      ensures this.apiKey == apiKey && credentials.None? && youtube.None?
    {
      this.apiKey := apiKey;
      credentials := None;
      youtube := None;
    }

    /**
     * `authenticate`: up to three attempts. An attempt that gets credentials
     * stores them in `credentials` before building the client; the first
     * attempt whose client is built also stores the client and returns True.
     * A failed attempt other than the last sleeps 2^attempt seconds; the
     * last failure raises without sleeping, and the client is left as it
     * was, while `credentials` keeps what the failed attempts stored.
     */
    method Authenticate(attempt: nat -> AttemptOutcome) returns (r: Result<bool, string>, sleeps: seq<nat>)
      modifies this
      ensures r.Ok? <==> FirstSuccess(attempt, 0, MaxTokenRefreshAttempts).Some?
      ensures r.Ok? ==> var k := FirstSuccess(attempt, 0, MaxTokenRefreshAttempts).value;
        r.value && credentials == attempt(k).creds && youtube == Some(Client(attempt(k).creds.value))
      ensures r.Err? ==> && r.error == RefreshFailedMessage
                         && credentials == CredentialsAfter(attempt, MaxTokenRefreshAttempts, old(credentials))
                         && youtube == old(youtube)
      ensures sleeps == Backoff(FailedBeforeEnd(attempt))
    {
      sleeps := [];
      var a: nat := 0;
      while true
        invariant a < MaxTokenRefreshAttempts
        invariant forall j :: 0 <= j < a ==> !Succeeds(attempt(j))
        invariant FirstSuccess(attempt, 0, MaxTokenRefreshAttempts) == FirstSuccess(attempt, a, MaxTokenRefreshAttempts)
        invariant sleeps == Backoff(a)
        invariant credentials == CredentialsAfter(attempt, a, old(credentials)) && youtube == old(youtube)
        decreases MaxTokenRefreshAttempts - a
      {
        var outcome := attempt(a);
        if outcome.creds.Some? {
          credentials := outcome.creds;
          if outcome.built {
            youtube := Some(Client(outcome.creds.value));
            return Ok(true), sleeps;
          }
        }
        if a == MaxTokenRefreshAttempts - 1 {
          return Err(RefreshFailedMessage), sleeps;
        }
        sleeps := sleeps + [Pow2(a)];
        a := a + 1;
      }
    }

    /**
     * `get_video_info`: authenticates first when there is no client (a
     * failure there propagates as Err), then answers from the request's
     * outcome for the client and the video id.
     */
    method GetVideoInfo(videoId: string, attempt: nat -> AttemptOutcome,
                        execute: (Client, string) -> Result<Value, string>)
      returns (r: Result<InfoReply, string>)
      modifies this
      ensures old(youtube).Some? ==> credentials == old(credentials) && youtube == old(youtube)
      ensures old(youtube).None? && FirstSuccess(attempt, 0, MaxTokenRefreshAttempts).Some? ==>
        var k := FirstSuccess(attempt, 0, MaxTokenRefreshAttempts).value;
        credentials == attempt(k).creds && youtube == Some(Client(attempt(k).creds.value))
      ensures old(youtube).None? && FirstSuccess(attempt, 0, MaxTokenRefreshAttempts).None? ==>
        credentials == CredentialsAfter(attempt, MaxTokenRefreshAttempts, old(credentials)) && youtube == old(youtube)
      ensures r.Err? <==> old(youtube).None? && FirstSuccess(attempt, 0, MaxTokenRefreshAttempts).None?
      ensures r.Err? ==> r.error == RefreshFailedMessage
      ensures r.Ok? ==> youtube.Some? && r.value == InfoFromResponse(execute(youtube.value, videoId))
    {
      if youtube.None? {
        var authenticated, _ := Authenticate(attempt);
        if authenticated.Err? {
          return Err(authenticated.error);
        }
      }
      r := Ok(InfoFromResponse(execute(youtube.value, videoId)));
    }

    /** `get_download_url`: the lookup, then the URL or the lookup's error. */
    method GetDownloadUrl(videoId: string, attempt: nat -> AttemptOutcome,
                          execute: (Client, string) -> Result<Value, string>)
      returns (r: Result<UrlReply, string>)
      modifies this
      ensures old(youtube).Some? ==> credentials == old(credentials) && youtube == old(youtube)
      ensures old(youtube).None? && FirstSuccess(attempt, 0, MaxTokenRefreshAttempts).Some? ==>
        var k := FirstSuccess(attempt, 0, MaxTokenRefreshAttempts).value;
        credentials == attempt(k).creds && youtube == Some(Client(attempt(k).creds.value))
      ensures old(youtube).None? && FirstSuccess(attempt, 0, MaxTokenRefreshAttempts).None? ==>
        credentials == CredentialsAfter(attempt, MaxTokenRefreshAttempts, old(credentials)) && youtube == old(youtube)
      ensures old(youtube).None? && FirstSuccess(attempt, 0, MaxTokenRefreshAttempts).None? ==>
        r == Err(RefreshFailedMessage)
      ensures old(youtube).Some? || FirstSuccess(attempt, 0, MaxTokenRefreshAttempts).Some? ==>
        youtube.Some? && r == DownloadReply(videoId, InfoFromResponse(execute(youtube.value, videoId)))
    {
      var looked := GetVideoInfo(videoId, attempt, execute);
      match looked
      case Err(e) => r := Err(e);
      case Ok(reply) => r := DownloadReply(videoId, reply);
    }
  }
}

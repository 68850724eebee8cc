/**
 * Link resolution and the retrying downloads of douyin_download.py.
 *
 * The network is a script of replies: the k-th request sent gets the k-th reply of the script, and
 * every request past its end fails as a connection error. The filesystem is a map from path to
 * size. Both are threaded through the operations in a `World`, whose trace records every exchange
 * (request and reply) and every sleep, in order.
 */
module DouyinDownload {
  import opened Wrappers
  import opened Text
  import CookieExtractor

  // ---------------------------------------------------------------------------------------------
  // Cookies

  /** Python truthiness of an optional cookie string. */
  predicate Truthy(cookie: Option<string>) {
    cookie.Some? && cookie.value != ""
  }

  /** A character `[\x00-\x7F]` matches. */
  predicate IsAscii(c: char) {
    c as int < 0x80
  }

  /** `clean_cookie` */
  function CleanCookie(cookie: Option<string>): (r: string)
    ensures forall i | 0 <= i < |r| :: IsAscii(r[i])
    ensures !Truthy(cookie) ==> r == ""
  {
    if !Truthy(cookie) then ""
    else Filter(IsAscii, CookieExtractor.ExtractAndFormatCookies(cookie.value))
  }

  /** Every extracted value with its non-ASCII characters removed. */
  function AsciiValues(e: map<string, string>): map<string, string> {
    map n | n in e :: Filter(IsAscii, e[n])
  }

  predicate AllAscii(s: string) {
    forall i | 0 <= i < |s| :: IsAscii(s[i])
  }

  /** Filtering one `name=value;` field filters its value only. */
  lemma FilterField(name: string, value: string)
    requires AllAscii(name)
    ensures Filter(IsAscii, CookieExtractor.Field(name, value)) == CookieExtractor.Field(name, Filter(IsAscii, value))
  {
    var eq, semi := "=", ";";
    FilterAppend(IsAscii, name + eq + value, semi);
    FilterAppend(IsAscii, name + eq, value);
    FilterAppend(IsAscii, name, eq);
    FilterKeepsAll(IsAscii, name);
    FilterKeepsAll(IsAscii, eq);
    FilterKeepsAll(IsAscii, semi);
  }

  lemma {:induction false} FilterFields(names: seq<string>, e: map<string, string>)
    requires forall k | 0 <= k < |names| :: AllAscii(names[k])
    ensures Filter(IsAscii, CookieExtractor.Fields(names, e)) == CookieExtractor.Fields(names, AsciiValues(e))
  {
    if names != [] {
      var n := names[0];
      var v := CookieExtractor.CookieValue(e, n);
      var field := CookieExtractor.Field(n, v);
      var rest := CookieExtractor.Fields(names[1..], e);
      assert CookieExtractor.Fields(names, e) == field + rest;
      FilterFields(names[1..], e);
      FilterAppend(IsAscii, field, rest);
      FilterField(n, v);
      var placeholder := CookieExtractor.Placeholder;
      FilterKeepsAll(IsAscii, placeholder);
      assert CookieExtractor.CookieValue(AsciiValues(e), n) == Filter(IsAscii, v);
    }
  }

  lemma RequiredCookiesAscii()
    ensures forall k | 0 <= k < |CookieExtractor.RequiredCookies| :: AllAscii(CookieExtractor.RequiredCookies[k])
  {
    var names := CookieExtractor.RequiredCookies;
    forall k | 0 <= k < |names| ensures AllAscii(names[k]) {
      var n := names[k];
      assert forall i | 0 <= i < |n| :: 'a' <= n[i] <= 'z' || n[i] == '_' || '0' <= n[i] <= '9';
    }
  }

  /**
   * The cleaned cookie keeps the layout of the formatted one: the twelve names in order, each
   * with its value stripped of non-ASCII characters.
   */
  lemma CleanCookieLayout(raw: string)
    requires raw != ""
    ensures CleanCookie(Some(raw)) ==
      CookieExtractor.Fields(CookieExtractor.RequiredCookies, AsciiValues(CookieExtractor.Extract(raw).extracted))
  {
    RequiredCookiesAscii();
    FilterFields(CookieExtractor.RequiredCookies, CookieExtractor.Extract(raw).extracted);
  }

  /** A cookie whose required values are all ASCII is sent exactly as formatted. */
  lemma CleanCookieOfAscii(raw: string)
    requires raw != ""
    requires forall n | n in CookieExtractor.Extract(raw).extracted :: AllAscii(CookieExtractor.Extract(raw).extracted[n])
    ensures CleanCookie(Some(raw)) == CookieExtractor.Extract(raw).formatted
  {
    CleanCookieLayout(raw);
    AsciiValuesOfAscii(CookieExtractor.Extract(raw).extracted);
    CookieExtractor.FormattedLayout(raw);
  }

  lemma AsciiValuesOfAscii(e: map<string, string>)
    requires forall n | n in e :: AllAscii(e[n])
    ensures AsciiValues(e) == e
  {
    forall n | n in e ensures Filter(IsAscii, e[n]) == e[n] {
      FilterKeepsAll(IsAscii, e[n]);
    }
  }

  // ---------------------------------------------------------------------------------------------
  // The network and the filesystem

  /** What the server does with one request. */
  datatype Reply =
      /** the request raised an `aiohttp.ClientError` before any response */
    | ConnectionError
      /**
       * a response; `bodyLength` bytes of body arrive, after which reading the body raises
       * when `bodyFails` holds
       */
    | Response(status: int, bodyLength: nat, location: Option<string>, bodyFails: bool)

  /** The header sets the requests are sent with. */
  datatype Profile =
    | Desktop | IPhone | Android | DouyinApp | Crawler  // the five image strategies
    | VideoDesktop | VideoMobile                        // the video headers and the 403 fallback
    | PageBrowser                                       // the redirect probe

  /** The image strategies, in rotation order. */
  const ImageStrategies: seq<Profile> := [Desktop, IPhone, Android, DouyinApp, Crawler]

  datatype Request = Request(url: string, profile: Profile, cookie: Option<string>, followRedirects: bool)

  datatype Event = Exchange(request: Request, reply: Reply) | Sleep(seconds: nat)

  /** Files on disk (path to size), how many replies of the script are used, and what happened so far. */
  datatype World = World(files: map<string, nat>, served: nat, trace: seq<Event>)

  function ReplyAt(script: seq<Reply>, k: nat): Reply {
    if k < |script| then script[k] else ConnectionError
  }

  /** Send a request: it gets the next reply of the script. */
  function Send(w: World, req: Request, script: seq<Reply>): (w': World)
    ensures w'.files == w.files && w'.served == w.served + 1
    ensures w'.trace == w.trace + [Exchange(req, ReplyAt(script, w.served))]
  {
    w.(served := w.served + 1, trace := w.trace + [Exchange(req, ReplyAt(script, w.served))])
  }

  function Pause(w: World, seconds: nat): World {
    w.(trace := w.trace + [Sleep(seconds)])
  }

  /** `os.path.dirname(path)` is not empty; `os.makedirs("")` raises `FileNotFoundError`. */
  predicate HasDirectory(path: string) {
    '/' in path
  }

  /** The exchanges of a trace, in order. */
  function Exchanges(trace: seq<Event>): (ex: seq<Event>)
    ensures |ex| <= |trace|
    ensures forall k | 0 <= k < |ex| :: ex[k].Exchange?
  {
    if trace == [] then []
    else Exchanges(trace[..|trace| - 1]) + (if trace[|trace| - 1].Exchange? then [trace[|trace| - 1]] else [])
  }

  lemma {:induction false} ExchangesAppend(a: seq<Event>, b: seq<Event>)
    ensures Exchanges(a + b) == Exchanges(a) + Exchanges(b)
  {
    if b != [] {
      var init := b[..|b| - 1];
      ExchangesAppend(a, init);
      assert (a + b)[..|a + b| - 1] == a + init;
    } else {
      assert a + b == a;
    }
  }

  /** Every sleep in the events is directly followed by an exchange: sleeps happen only between attempts. */
  predicate SleepsBetweenAttempts(events: seq<Event>) {
    forall j | 0 <= j < |events| :: SleepFollowed(events, j)
  }

  /** Event `j` is not a sleep, or an exchange comes right after it. */
  predicate SleepFollowed(events: seq<Event>, j: nat)
    requires j < |events|
  {
    events[j].Sleep? ==> j + 1 < |events| && events[j + 1].Exchange?
  }

  /** What a run added to the trace of `w`, when its trace extends that of `w`. */
  function Added(w: World, w': World): seq<Event>
    requires |w.trace| <= |w'.trace|
  {
    w'.trace[|w.trace|..]
  }

  predicate Extends(w: World, w': World) {
    |w.trace| <= |w'.trace| && w'.trace[..|w.trace|] == w.trace
  }

  // ---------------------------------------------------------------------------------------------
  // get_location_from_url

  /** The record `get_location_from_url` returns. */
  datatype ResolvedLink =
      /** `{"url": url, "location": location}` after a 301 or 302 */
    | Redirected(url: string, location: Option<string>)
      /** `{"url": url, "location": None, "status_code": status}` */
    | NotRedirected(url: string, statusCode: int)
      /** `{"url": url, "error": ...}` after a client error */
    | Failed(url: string)
  {
    /** `link.get("location")` */
    function Location(): Option<string> {
      if Redirected? then location else None
    }
  }

  /** The cookie header attached to a request: the cleaned cookie, when one is given. */
  function CookieHeader(cookie: Option<string>): (h: Option<string>)
    ensures h.Some? <==> Truthy(cookie)
    ensures h.Some? ==> h.value == CleanCookie(cookie)
  {
    if Truthy(cookie) then Some(CleanCookie(cookie)) else None
  }

  /**
   * `get_location_from_url`: one request with redirects disabled; a 301 or 302 gives the
   * `Location` header, any other status gives no location, a client error gives an error record.
   */
  function GetLocationFromUrl(url: string, cookie: Option<string>, w: World, script: seq<Reply>): (r: (ResolvedLink, World))
    ensures r.1 == Send(w, Request(url, PageBrowser, CookieHeader(cookie), false), script)
    ensures r.0.url == url
    ensures var reply := ReplyAt(script, w.served);
      && (r.0.Redirected? <==> reply.Response? && (reply.status == 301 || reply.status == 302))
      && (r.0.Redirected? ==> r.0.location == reply.location)
      && (r.0.NotRedirected? <==> reply.Response? && reply.status != 301 && reply.status != 302)
      && (r.0.NotRedirected? ==> r.0.statusCode == reply.status)
      && (r.0.Failed? <==> reply.ConnectionError?)
  {
    var reply := ReplyAt(script, w.served);
    var w' := Send(w, Request(url, PageBrowser, CookieHeader(cookie), false), script);
    match reply
    case ConnectionError => (Failed(url), w')
    case Response(status, _, location, _) =>
      if status == 302 || status == 301 then (Redirected(url, location), w')
      else (NotRedirected(url, status), w')
  }


  // ---------------------------------------------------------------------------------------------
  // Gluing the events of one attempt to those of the attempts after it

  /** What a run adds after `w` is one step's events followed by what it adds after `mid`. */
  lemma AddedChain(w: World, mid: World, w': World, step: seq<Event>)
    requires mid.trace == w.trace + step
    requires Extends(mid, w')
    ensures Extends(w, w')
    ensures Added(w, w') == step + Added(mid, w')
    ensures Exchanges(Added(w, w')) == Exchanges(step) + Exchanges(Added(mid, w'))
  {
    assert w'.trace == mid.trace + Added(mid, w');
    assert Added(w, w') == step + Added(mid, w');
    ExchangesAppend(step, Added(mid, w'));
  }

  lemma SleepsChain(step: seq<Event>, rest: seq<Event>)
    requires step != [] && SleepsBetweenAttempts(step[..|step| - 1])
    requires step[|step| - 1].Sleep? ==> rest != [] && rest[0].Exchange?
    requires SleepsBetweenAttempts(rest)
    ensures SleepsBetweenAttempts(step + rest)
  {
    var all := step + rest;
    forall j | 0 <= j < |all|
      ensures SleepFollowed(all, j)
    {
      if j >= |step| {
        assert SleepFollowed(rest, j - |step|);
        assert all[j] == rest[j - |step|];
        if all[j].Sleep? {
          assert all[j + 1] == rest[j + 1 - |step|];
        }
      } else if j == |step| - 1 {
        if all[j].Sleep? {
          assert all[j + 1] == rest[0];
        }
      } else {
        assert SleepFollowed(step[..|step| - 1], j);
        assert step[..|step| - 1][j] == step[j];
      }
    }
  }

  // ---------------------------------------------------------------------------------------------
  // download_douyin_image

  const MaxImageAttempts: nat := 5

  /** A body of this many bytes or fewer is taken for an error page. */
  const MinImageBytes: nat := 1000

  /**
   * The request of attempt `attempt`: strategy `attempt mod 5`, with the cookie header (see
   * `CookieHeader`) only on the browser strategies.
   */
  function ImageRequest(url: string, header: Option<string>, attempt: nat): Request {
    var profile := ImageStrategies[attempt % |ImageStrategies|];
    var withCookie := profile != DouyinApp && profile != Crawler;
    Request(url, profile, if withCookie then header else None, true)
  }

  /** Which strategies carry the cookie. */
  lemma ImageRequestPolicy(url: string, cookie: Option<string>, attempt: nat)
    ensures var request := ImageRequest(url, CookieHeader(cookie), attempt);
      && request.profile == ImageStrategies[attempt % 5]
      && (request.cookie.Some? <==> Truthy(cookie) && attempt % 5 < 3)
      && (request.cookie.Some? ==> request.cookie == Some(CleanCookie(cookie)))
      && (request.profile in {DouyinApp, Crawler} ==> request.cookie.None?)
  {
  }

  /** A 200 whose body arrives in full, with a directory to save it in. */
  predicate BodyReceived(reply: Reply, filename: string) {
    reply.Response? && reply.status == 200 && HasDirectory(filename) && !reply.bodyFails
  }

  datatype ImageRun = ImageRun(success: bool, world: World)

  /** How the `try` block of one image attempt ends. */
  datatype ImageOutcome =
    | Downloaded  // a 200 with more than 1000 bytes: the file is written, `return True`
    | TooSmall    // a 200 with at most 1000 bytes: `continue`, without the sleep
    | NotFound    // a 404: `return False`
    | Unusable    // any other status, or an exception: the sleep before the next attempt

  function ClassifyImage(reply: Reply, filename: string): ImageOutcome {
    if BodyReceived(reply, filename) then
      if reply.bodyLength > MinImageBytes then Downloaded else TooSmall
    else if reply.Response? && reply.status == 404 then NotFound
    else Unusable
  }

  datatype ImageStep = ImageStep(outcome: ImageOutcome, world: World)

  /** The `try` block of attempt `attempt` of `download_douyin_image`. */
  function ImageAttempt(url: string, filename: string, header: Option<string>, attempt: nat, w: World, script: seq<Reply>): ImageStep {
    var reply := ReplyAt(script, w.served);
    var o := ClassifyImage(reply, filename);
    ImageStep(o, World(if o == Downloaded then w.files[filename := reply.bodyLength] else w.files,
                       w.served + 1,
                       w.trace + [Exchange(ImageRequest(url, header, attempt), reply)]))
  }

  /** Attempts `attempt` to 4 of the image download. */
  function ImageFrom(url: string, filename: string, header: Option<string>, attempt: nat, w: World, script: seq<Reply>): ImageRun
    requires attempt <= MaxImageAttempts
    decreases MaxImageAttempts - attempt
  {
    if attempt == MaxImageAttempts then ImageRun(false, w)
    else
      var step := ImageAttempt(url, filename, header, attempt, w, script);
      match step.outcome
      case Downloaded => ImageRun(true, step.world)
      case NotFound => ImageRun(false, step.world)
      case TooSmall => ImageFrom(url, filename, header, attempt + 1, step.world, script)
      case Unusable =>
        if attempt == MaxImageAttempts - 1 then ImageRun(false, step.world)
        else ImageFrom(url, filename, header, attempt + 1, Pause(step.world, 2), script)
  }

  /** What `download_douyin_image` does. */
  function ImageSpec(url: string, filename: string, cookie: Option<string>, w: World, script: seq<Reply>): ImageRun {
    if filename in w.files then ImageRun(true, w) else ImageFrom(url, filename, CookieHeader(cookie), 0, w, script)
  }

  /** The body of the `try` block of one image attempt. */
  method TryImage(url: string, filename: string, header: Option<string>, attempt: nat, w0: World, script: seq<Reply>)
    returns (outcome: ImageOutcome, w: World)
    ensures ImageStep(outcome, w) == ImageAttempt(url, filename, header, attempt, w0, script)
  {
    var profile := ImageStrategies[attempt % |ImageStrategies|];
    var headerCookie := None;
    if profile != DouyinApp && profile != Crawler {
      headerCookie := header;
    }
    var reply := ReplyAt(script, w0.served);
    w := Send(w0, Request(url, profile, headerCookie, true), script);
    if reply.Response? {
      if reply.status == 200 {
        // `os.makedirs` raises without a directory part, and reading the body may raise
        if HasDirectory(filename) && !reply.bodyFails {
          if reply.bodyLength > MinImageBytes {
            w := w.(files := w.files[filename := reply.bodyLength]);
            return Downloaded, w;
          }
          return TooSmall, w;
        }
      } else if reply.status == 404 {
        return NotFound, w;
      }
    }
    return Unusable, w;
  }

  /** `download_douyin_image` */
  method DownloadDouyinImage(url: string, filename: string, cookie: Option<string>, w0: World, script: seq<Reply>)
    returns (success: bool, w: World)
    ensures ImageRun(success, w) == ImageSpec(url, filename, cookie, w0, script)
    ensures filename in w0.files ==> success && w == w0
  {
    if filename in w0.files {
      return true, w0;
    }
    success, w := ImageRetries(url, filename, CookieHeader(cookie), w0, script);
  }

  /** The `for attempt` loop of `download_douyin_image`, with the cookie header already cleaned. */
  method ImageRetries(url: string, filename: string, header: Option<string>, w0: World, script: seq<Reply>)
    returns (success: bool, w: World)
    ensures ImageRun(success, w) == ImageFrom(url, filename, header, 0, w0, script)
  {
    w := w0;
    var attempt := 0;
    while attempt < MaxImageAttempts
      invariant 0 <= attempt <= MaxImageAttempts
      invariant ImageFrom(url, filename, header, attempt, w, script) == ImageFrom(url, filename, header, 0, w0, script)
      decreases MaxImageAttempts - attempt
    {
      var stop;
      stop, success, w := ImageRound(url, filename, header, attempt, w, script);
      if stop {
        return success, w;
      }
      attempt := attempt + 1;
    }
    return false, w;
  }

  /**
   * One pass of the loop: the attempt, then the two-second sleep unless the body was merely small
   * (`continue`) or this was the last attempt. `stop` when the pass returns from the function.
   */
  method ImageRound(url: string, filename: string, header: Option<string>, attempt: nat, w0: World, script: seq<Reply>)
    returns (stop: bool, success: bool, w: World)
    requires attempt < MaxImageAttempts
    ensures stop <==> ImageAttempt(url, filename, header, attempt, w0, script).outcome in {Downloaded, NotFound}
    ensures stop ==> ImageFrom(url, filename, header, attempt, w0, script) == ImageRun(success, w)
    ensures !stop ==> ImageFrom(url, filename, header, attempt, w0, script) == ImageFrom(url, filename, header, attempt + 1, w, script)
  {
    var outcome;
    outcome, w := TryImage(url, filename, header, attempt, w0, script);
    if outcome == Downloaded {
      return true, true, w;
    } else if outcome == NotFound {
      return true, false, w;
    } else if outcome == TooSmall {
      return false, false, w;
    }
    if attempt < MaxImageAttempts - 1 {
      w := Pause(w, 2);
    }
    return false, false, w;
  }

  /** After a complete but small body, the next event (if any) is the next request, not a sleep. */
  predicate NoSleepAfterSmallBody(events: seq<Event>, filename: string) {
    forall j | 0 <= j < |events| :: SmallBodyFollowed(events, filename, j)
  }

  /** Event `j` is not a small body, or it is the last event or the next request follows it. */
  predicate SmallBodyFollowed(events: seq<Event>, filename: string, j: nat)
    requires j < |events|
  {
    events[j].Exchange? && ClassifyImage(events[j].reply, filename) == TooSmall ==>
      j + 1 == |events| || events[j + 1].Exchange?
  }

  /** A 404 is the last thing that happens. */
  predicate NothingAfter404(events: seq<Event>) {
    forall j | 0 <= j < |events| :: Last404(events, j)
  }

  /** Event `j` is not a 404, or it is the last event. */
  predicate Last404(events: seq<Event>, j: nat)
    requires j < |events|
  {
    events[j].Exchange? && events[j].reply.Response? && events[j].reply.status == 404 ==> j + 1 == |events|
  }

  /** One image attempt: one exchange, answered by the next reply of the script. */
  lemma ImageAttemptEvents(url: string, filename: string, header: Option<string>, attempt: nat, w: World, script: seq<Reply>)
    ensures var step := ImageAttempt(url, filename, header, attempt, w, script);
      var e := Exchange(ImageRequest(url, header, attempt), ReplyAt(script, w.served));
      && step.outcome == ClassifyImage(e.reply, filename)
      && step.world.served == w.served + 1 && step.world.trace == w.trace + [e]
  {
  }

  /** How one image attempt ends: only a large complete body writes the file. */
  lemma ImageAttemptOutcome(url: string, filename: string, header: Option<string>, attempt: nat, w: World, script: seq<Reply>)
    ensures var step := ImageAttempt(url, filename, header, attempt, w, script);
      var reply := ReplyAt(script, w.served);
      && (step.outcome == Downloaded ==>
            BodyReceived(reply, filename) && reply.bodyLength > MinImageBytes && step.world.files == w.files[filename := reply.bodyLength])
      && (step.outcome != Downloaded ==> step.world.files == w.files)
  {
  }

  /**
   * The exchanges `w'` added to `w` are attempts `attempt`, `attempt + 1`, ... in order, each sent
   * with its attempt's strategy and answered by the next reply of the script, at most one per
   * attempt.
   */
  predicate ImageExchanges(url: string, header: Option<string>, attempt: nat, w: World, w': World, script: seq<Reply>) {
    && Extends(w, w')
    && var ex := Exchanges(Added(w, w'));
    && w'.served == w.served + |ex|
    && attempt + |ex| <= MaxImageAttempts
    && (forall k | 0 <= k < |ex| :: ex[k] == Exchange(ImageRequest(url, header, attempt + k), ReplyAt(script, w.served + k)))
  }

  /**
   * The events after `w`: they open with a request, sleeps come only between attempts and never
   * after a small body, and nothing comes after a 404.
   */
  predicate ImageTiming(filename: string, w: World, w': World) {
    && Extends(w, w')
    && (Added(w, w') != [] ==> Added(w, w')[0].Exchange?)
    && SleepsBetweenAttempts(Added(w, w'))
    && NoSleepAfterSmallBody(Added(w, w'), filename)
    && NothingAfter404(Added(w, w'))
  }

  /** Prefixing one attempt's events to the exchanges of the attempts after it. */
  lemma ImageExchangesPrepend(url: string, header: Option<string>, attempt: nat, w: World, mid: World, w': World,
                              step: seq<Event>, script: seq<Reply>)
    requires attempt < MaxImageAttempts
    requires mid.trace == w.trace + step && mid.served == w.served + 1
    requires Exchanges(step) == [Exchange(ImageRequest(url, header, attempt), ReplyAt(script, w.served))]
    requires ImageExchanges(url, header, attempt + 1, mid, w', script)
    ensures ImageExchanges(url, header, attempt, w, w', script)
  {
    AddedChain(w, mid, w', step);
    var first := Exchange(ImageRequest(url, header, attempt), ReplyAt(script, w.served));
    var exRest := Exchanges(Added(mid, w'));
    assert Exchanges(Added(w, w')) == [first] + exRest;
    ImageExchangesShift(url, header, attempt, w.served, first, exRest, script);
  }

  /** One exchange of attempt `attempt` followed by the exchanges of attempts `attempt + 1`, ... */
  lemma ImageExchangesShift(url: string, header: Option<string>, attempt: nat, served: nat, first: Event,
                            rest: seq<Event>, script: seq<Reply>)
    requires first == Exchange(ImageRequest(url, header, attempt), ReplyAt(script, served))
    requires forall k | 0 <= k < |rest| :: rest[k] == Exchange(ImageRequest(url, header, attempt + 1 + k), ReplyAt(script, served + 1 + k))
    ensures forall k | 0 <= k < |[first] + rest| ::
      ([first] + rest)[k] == Exchange(ImageRequest(url, header, attempt + k), ReplyAt(script, served + k))
  {
    var ex := [first] + rest;
    forall k | 0 <= k < |ex|
      ensures ex[k] == Exchange(ImageRequest(url, header, attempt + k), ReplyAt(script, served + k))
    {
      if k > 0 {
        assert ex[k] == rest[k - 1];
        assert attempt + 1 + (k - 1) == attempt + k && served + 1 + (k - 1) == served + k;
      }
    }
  }

  /** The events of one attempt: its exchange, and a sleep after it or not. */
  lemma OneAttemptEvents(e: Event, slept: bool)
    requires e.Exchange?
    ensures Exchanges(if slept then [e, Sleep(2)] else [e]) == [e]
  {
    assert Exchanges([e]) == Exchanges([]) + [e];
    assert [e, Sleep(2)][..1] == [e];
  }

  /** Prefixing one attempt's events to the timing of the attempts after it. */
  lemma ImageTimingPrepend(filename: string, w: World, mid: World, w': World, step: seq<Event>)
    requires step != [] && step[0].Exchange? && (|step| == 1 || (|step| == 2 && step[1].Sleep?))
    requires !(step[0].reply.Response? && step[0].reply.status == 404)
    requires |step| == 2 ==> ClassifyImage(step[0].reply, filename) == Unusable
    requires mid.trace == w.trace + step
    requires |step| == 2 ==> |w'.trace| > |mid.trace|
    requires ImageTiming(filename, mid, w')
    ensures ImageTiming(filename, w, w')
  {
    AddedChain(w, mid, w', step);
    var rest := Added(mid, w');
    if |step| == 2 {
      assert step[..1] == [step[0]];
    }
    SleepsChain(step, rest);
    ImageChainFacts(step, rest, filename);
  }

  /** The requests of attempts `attempt`..4 and the replies they get. */
  lemma {:induction false} ImageAttempts(url: string, filename: string, header: Option<string>, attempt: nat, w: World, script: seq<Reply>)
    requires attempt <= MaxImageAttempts
    ensures ImageExchanges(url, header, attempt, w, ImageFrom(url, filename, header, attempt, w, script).world, script)
    ensures attempt < MaxImageAttempts ==> |ImageFrom(url, filename, header, attempt, w, script).world.trace| > |w.trace|
    decreases MaxImageAttempts - attempt, 1
  {
    var r := ImageFrom(url, filename, header, attempt, w, script);
    if attempt == MaxImageAttempts {
      ImageNoAttempt(url, header, w, script);
    } else {
      var o := ImageAttempt(url, filename, header, attempt, w, script).outcome;
      if o == TooSmall || (o == Unusable && attempt < MaxImageAttempts - 1) {
        ImageAttemptsGoesOn(url, filename, header, attempt, w, r.world, script);
      } else {
        ImageLastExchange(url, filename, header, attempt, w, r.world, script);
      }
    }
  }

  /** No attempt left: nothing happens. */
  lemma ImageNoAttempt(url: string, header: Option<string>, w: World, script: seq<Reply>)
    ensures ImageExchanges(url, header, MaxImageAttempts, w, w, script)
  {
    assert Added(w, w) == [];
  }

  /** An attempt after which the download goes on: the rest of it starts from `ImageNext`. */
  lemma ImageGoesOn(url: string, filename: string, header: Option<string>, attempt: nat, w: World, script: seq<Reply>)
    returns (mid: World)
    requires attempt < MaxImageAttempts
    requires var o := ImageAttempt(url, filename, header, attempt, w, script).outcome;
      o == TooSmall || (o == Unusable && attempt < MaxImageAttempts - 1)
    ensures var o := ImageAttempt(url, filename, header, attempt, w, script).outcome;
      mid == ImageNext(url, filename, header, attempt, w, o == Unusable, script)
    ensures ImageFrom(url, filename, header, attempt, w, script) == ImageFrom(url, filename, header, attempt + 1, mid, script)
  {
    var o := ImageAttempt(url, filename, header, attempt, w, script).outcome;
    mid := ImageNext(url, filename, header, attempt, w, o == Unusable, script);
  }

  /** Where attempt `attempt` leads when the download goes on: its world, and a sleep if `slept`. */
  function ImageNext(url: string, filename: string, header: Option<string>, attempt: nat, w: World, slept: bool, script: seq<Reply>): World {
    var mid := ImageAttempt(url, filename, header, attempt, w, script).world;
    if slept then Pause(mid, 2) else mid
  }

  /** An attempt after which nothing else happens. */
  lemma ImageLastExchange(url: string, filename: string, header: Option<string>, attempt: nat, w: World, w': World, script: seq<Reply>)
    requires attempt < MaxImageAttempts
    requires w' == ImageAttempt(url, filename, header, attempt, w, script).world
    ensures ImageExchanges(url, header, attempt, w, w', script) && |w'.trace| > |w.trace|
  {
    var e := Exchange(ImageRequest(url, header, attempt), ReplyAt(script, w.served));
    ImageAttemptEvents(url, filename, header, attempt, w, script);
    assert Added(w, w') == [e];
    OneAttemptEvents(e, false);
    var ex := Exchanges(Added(w, w'));
    assert ex == [e];
    forall k | 0 <= k < |ex|
      ensures ex[k] == Exchange(ImageRequest(url, header, attempt + k), ReplyAt(script, w.served + k))
    {
      assert k == 0;
    }
  }

  /** The events attempt `attempt` adds when the download goes on after it, with a sleep if `slept`. */
  lemma ImageNextEvents(url: string, filename: string, header: Option<string>, attempt: nat, w: World, slept: bool, script: seq<Reply>)
    returns (events: seq<Event>)
    requires var o := ImageAttempt(url, filename, header, attempt, w, script).outcome;
      if slept then o == Unusable else o == TooSmall
    ensures var mid := ImageNext(url, filename, header, attempt, w, slept, script);
      mid.trace == w.trace + events && mid.served == w.served + 1
    ensures Exchanges(events) == [Exchange(ImageRequest(url, header, attempt), ReplyAt(script, w.served))]
    ensures events != [] && events[0] == Exchange(ImageRequest(url, header, attempt), ReplyAt(script, w.served))
    ensures |events| == 1 || (|events| == 2 && events[1].Sleep?)
    ensures !(events[0].reply.Response? && events[0].reply.status == 404)
    ensures |events| == 2 ==> slept && ClassifyImage(events[0].reply, filename) == Unusable
  {
    var e := Exchange(ImageRequest(url, header, attempt), ReplyAt(script, w.served));
    ImageAttemptEvents(url, filename, header, attempt, w, script);
    OneAttemptEvents(e, slept);
    events := if slept then [e, Sleep(2)] else [e];
  }

  /** `ImageAttempts` for the world `w'` a download leaves when it goes on after attempt `attempt`. */
  lemma {:induction false} ImageAttemptsGoesOn(url: string, filename: string, header: Option<string>, attempt: nat, w: World,
                                               w': World, script: seq<Reply>)
    requires attempt < MaxImageAttempts
    requires var o := ImageAttempt(url, filename, header, attempt, w, script).outcome;
      o == TooSmall || (o == Unusable && attempt < MaxImageAttempts - 1)
    requires w' == ImageFrom(url, filename, header, attempt, w, script).world
    ensures ImageExchanges(url, header, attempt, w, w', script) && |w'.trace| > |w.trace|
    decreases MaxImageAttempts - attempt, 0
  {
    var o := ImageAttempt(url, filename, header, attempt, w, script).outcome;
    var mid := ImageGoesOn(url, filename, header, attempt, w, script);
    ImageAttempts(url, filename, header, attempt + 1, mid, script);
    ImageAttemptsAfter(url, filename, header, attempt, w, o == Unusable, w', script);
  }

  /** One attempt after which the download goes on, with a sleep if `slept`, prefixed to the exchanges of the rest. */
  lemma ImageAttemptsAfter(url: string, filename: string, header: Option<string>, attempt: nat, w: World,
                           slept: bool, w': World, script: seq<Reply>)
    requires attempt < MaxImageAttempts
    requires var o := ImageAttempt(url, filename, header, attempt, w, script).outcome;
      if slept then o == Unusable else o == TooSmall
    requires ImageExchanges(url, header, attempt + 1, ImageNext(url, filename, header, attempt, w, slept, script), w', script)
    ensures ImageExchanges(url, header, attempt, w, w', script) && |w'.trace| > |w.trace|
  {
    var mid := ImageNext(url, filename, header, attempt, w, slept, script);
    var events := ImageNextEvents(url, filename, header, attempt, w, slept, script);
    ImageExchangesPrepend(url, header, attempt, w, mid, w', events, script);
  }

  /** When sleeps and the end of the download happen in attempts `attempt`..4. */
  lemma {:induction false} ImageAttemptsTiming(url: string, filename: string, header: Option<string>, attempt: nat, w: World, script: seq<Reply>)
    requires attempt <= MaxImageAttempts
    ensures ImageTiming(filename, w, ImageFrom(url, filename, header, attempt, w, script).world)
    decreases MaxImageAttempts - attempt, 1
  {
    var r := ImageFrom(url, filename, header, attempt, w, script);
    if attempt == MaxImageAttempts {
      assert Added(w, r.world) == [];
    } else {
      var o := ImageAttempt(url, filename, header, attempt, w, script).outcome;
      if o == TooSmall || (o == Unusable && attempt < MaxImageAttempts - 1) {
        ImageTimingGoesOn(url, filename, header, attempt, w, r.world, script);
      } else {
        ImageLastTiming(url, filename, header, attempt, w, r.world, script);
      }
    }
  }

  /** `ImageAttemptsTiming` for the world `w'` a download leaves when it goes on after attempt `attempt`. */
  lemma {:induction false} ImageTimingGoesOn(url: string, filename: string, header: Option<string>, attempt: nat, w: World,
                                             w': World, script: seq<Reply>)
    requires attempt < MaxImageAttempts
    requires var o := ImageAttempt(url, filename, header, attempt, w, script).outcome;
      o == TooSmall || (o == Unusable && attempt < MaxImageAttempts - 1)
    requires w' == ImageFrom(url, filename, header, attempt, w, script).world
    ensures ImageTiming(filename, w, w')
    decreases MaxImageAttempts - attempt, 0
  {
    var o := ImageAttempt(url, filename, header, attempt, w, script).outcome;
    var mid := ImageGoesOn(url, filename, header, attempt, w, script);
    ImageAttemptsTiming(url, filename, header, attempt + 1, mid, script);
    if o == Unusable {
      ImageFirstEvent(url, filename, header, attempt + 1, mid, script);
    }
    ImageTimingAfter(url, filename, header, attempt, w, o == Unusable, w', script);
  }

  /** One attempt after which the download goes on, with a sleep if `slept`, prefixed to the timing of the rest. */
  lemma ImageTimingAfter(url: string, filename: string, header: Option<string>, attempt: nat, w: World,
                         slept: bool, w': World, script: seq<Reply>)
    requires var o := ImageAttempt(url, filename, header, attempt, w, script).outcome;
      if slept then o == Unusable else o == TooSmall
    requires var mid := ImageNext(url, filename, header, attempt, w, slept, script);
      ImageTiming(filename, mid, w') && (slept ==> |w'.trace| > |mid.trace|)
    ensures ImageTiming(filename, w, w')
  {
    var mid := ImageNext(url, filename, header, attempt, w, slept, script);
    var events := ImageNextEvents(url, filename, header, attempt, w, slept, script);
    ImageTimingPrepend(filename, w, mid, w', events);
  }

  /** An attempt that remains adds to the trace. */
  lemma ImageFirstEvent(url: string, filename: string, header: Option<string>, attempt: nat, w: World, script: seq<Reply>)
    requires attempt < MaxImageAttempts
    ensures |ImageFrom(url, filename, header, attempt, w, script).world.trace| > |w.trace|
  {
    ImageAttempts(url, filename, header, attempt, w, script);
  }

  /** The timing of an attempt after which nothing else happens. */
  lemma ImageLastTiming(url: string, filename: string, header: Option<string>, attempt: nat, w: World, w': World, script: seq<Reply>)
    requires w' == ImageAttempt(url, filename, header, attempt, w, script).world
    ensures ImageTiming(filename, w, w')
  {
    ImageAttemptEvents(url, filename, header, attempt, w, script);
    assert Added(w, w') == [Exchange(ImageRequest(url, header, attempt), ReplyAt(script, w.served))];
  }

  /** The small-body and 404 facts across the boundary between one attempt and the next. */
  lemma ImageChainFacts(step: seq<Event>, rest: seq<Event>, filename: string)
    requires step != [] && step[0].Exchange? && (|step| == 1 || (|step| == 2 && step[1].Sleep?))
    requires !(step[0].reply.Response? && step[0].reply.status == 404)
    requires |step| == 2 ==> ClassifyImage(step[0].reply, filename) == Unusable
    requires rest != [] ==> rest[0].Exchange?
    requires NoSleepAfterSmallBody(rest, filename) && NothingAfter404(rest)
    ensures NoSleepAfterSmallBody(step + rest, filename) && NothingAfter404(step + rest)
  {
    var all := step + rest;
    forall j | 0 <= j < |all|
      ensures SmallBodyFollowed(all, filename, j) && Last404(all, j)
    {
      if j >= |step| {
        assert SmallBodyFollowed(rest, filename, j - |step|) && Last404(rest, j - |step|);
        assert all[j] == rest[j - |step|];
        if j + 1 < |all| {
          assert all[j + 1] == rest[j + 1 - |step|];
        }
      } else if j == 0 && |step| == 1 && j + 1 < |all| {
        assert all[j + 1] == rest[0];
      }
    }
  }

  /**
   * What the image download leaves on disk: the file exactly when it succeeds, with more than
   * 1000 bytes; every other path untouched.
   */
  lemma {:induction false} ImageFiles(url: string, filename: string, header: Option<string>, attempt: nat, w: World, script: seq<Reply>)
    requires attempt <= MaxImageAttempts
    ensures ImageFilesAfter(w.files, filename, ImageFrom(url, filename, header, attempt, w, script))
    decreases MaxImageAttempts - attempt
  {
    if attempt < MaxImageAttempts {
      ImageAttemptOutcome(url, filename, header, attempt, w, script);
      var step := ImageAttempt(url, filename, header, attempt, w, script);
      if step.outcome == TooSmall || (step.outcome == Unusable && attempt < MaxImageAttempts - 1) {
        var next := if step.outcome == TooSmall then step.world else Pause(step.world, 2);
        assert next.files == w.files;
        assert ImageFrom(url, filename, header, attempt, w, script) == ImageFrom(url, filename, header, attempt + 1, next, script);
        ImageFiles(url, filename, header, attempt + 1, next, script);
      }
    }
  }

  /** The file exactly on success, with more than 1000 bytes; every other path untouched. */
  predicate ImageFilesAfter(before: map<string, nat>, filename: string, r: ImageRun) {
    && (r.success ==>
          filename in r.world.files && r.world.files[filename] > MinImageBytes && r.world.files == before[filename := r.world.files[filename]])
    && (!r.success ==> r.world.files == before)
  }

  /** `download_douyin_image` reports success exactly when the destination exists afterwards. */
  lemma ImageSuccessIffSaved(url: string, filename: string, cookie: Option<string>, w: World, script: seq<Reply>)
    ensures var r := ImageSpec(url, filename, cookie, w, script);
      && (r.success <==> filename in r.world.files)
      && (filename !in w.files && r.success ==> r.world.files[filename] > MinImageBytes)
  {
    if filename !in w.files {
      ImageFiles(url, filename, CookieHeader(cookie), 0, w, script);
    }
  }

  /** A 404 on the first attempt ends the download after one request and no sleep. */
  lemma ImageStopsOn404(url: string, filename: string, cookie: Option<string>, w: World, script: seq<Reply>)
    requires filename !in w.files
    requires ReplyAt(script, w.served).Response? && ReplyAt(script, w.served).status == 404
    ensures ImageSpec(url, filename, cookie, w, script) ==
      ImageRun(false, Send(w, ImageRequest(url, CookieHeader(cookie), 0), script))
  {
  }

  // ---------------------------------------------------------------------------------------------
  // download_video

  const MaxVideoAttempts: nat := 3

  /** How `download_video` ends. */
  datatype VideoExit =
    | AlreadyPresent  // the destination existed: nothing was requested
    | NotModified     // a 304
    | Saved           // a non-empty file was written
    | GaveUp          // all attempts failed

  datatype VideoRun = VideoRun(exit: VideoExit, world: World)

  /** How one attempt of `download_video` ends. */
  datatype Outcome =
    | Raises       // a client error, an error status or `os.makedirs`: nothing written
    | Unmodified   // a 304: `return`
    | StreamBroke  // reading the body raised after the file was opened: the partial file stays
    | Complete     // a non-empty file: `return`
    | EmptyFile    // an empty file, removed before `continue`

  predicate Forbidden(reply: Reply) {
    reply.Response? && reply.status == 403
  }

  /** `raise_for_status()` raises from 400 on, and a client error raises anyway. */
  predicate ErrorReply(reply: Reply) {
    reply.ConnectionError? || reply.status >= 400
  }

  /** The exchanges of one attempt: the desktop request, and the mobile request after a 403. */
  function AttemptExchanges(url: string, header: Option<string>, w: World, script: seq<Reply>): (ex: seq<Event>)
    ensures 1 <= |ex| <= 2
  {
    var first := ReplyAt(script, w.served);
    [Exchange(Request(url, VideoDesktop, header, true), first)]
    + if Forbidden(first) then [Exchange(Request(url, VideoMobile, header, true), ReplyAt(script, w.served + 1))] else []
  }

  /** The response an attempt goes on with: the last of its exchanges. */
  function VideoReply(url: string, header: Option<string>, w: World, script: seq<Reply>): Reply {
    var ex := AttemptExchanges(url, header, w, script);
    ex[|ex| - 1].reply
  }

  /**
   * How the body of the mobile response is read after a 403. As written, that response is used
   * after its `async with` block has released it, and aiohttp fails the first read of a released
   * response that has a body with `ClientConnectionError` (`AsWritten`); an empty body is aiohttp's
   * empty payload, which the release leaves readable. `Intended` streams the body as the code
   * evidently means to.
   */
  datatype Reading = AsWritten | Intended

  /** The response the attempt goes on with has been released before its body is read. */
  predicate Released(reading: Reading, w: World, script: seq<Reply>) {
    reading == AsWritten && Forbidden(ReplyAt(script, w.served))
  }

  /**
   * What the `try` block makes of the response it goes on with; `released` says that reading a
   * non-empty body raises at once.
   */
  function Classify(reply: Reply, released: bool, filename: string): Outcome {
    if ErrorReply(reply) then Raises
    else if reply.status == 304 then Unmodified
    else if !HasDirectory(filename) then Raises  // `os.makedirs("")`
    else if reply.bodyFails || (released && reply.bodyLength > 0) then StreamBroke
    else if reply.bodyLength > 0 then Complete
    else EmptyFile
  }

  /** The files after an attempt with outcome `o`, where `size` bytes of body arrived. */
  function FilesAfter(o: Outcome, files: map<string, nat>, filename: string, size: nat): map<string, nat> {
    match o
    case Raises => files
    case Unmodified => files
    case StreamBroke => files[filename := size]
    case Complete => files[filename := size]
    case EmptyFile => files - {filename}
  }

  datatype VideoStep = VideoStep(outcome: Outcome, world: World)

  /**
   * One attempt of `download_video` with the cookie header `header`: its requests, then the body
   * of the last response streamed into the file (or, when it was released, the file opened empty
   * and the read failing).
   */
  function VideoAttempt(reading: Reading, url: string, filename: string, header: Option<string>, w: World, script: seq<Reply>): VideoStep {
    var ex := AttemptExchanges(url, header, w, script);
    var reply := VideoReply(url, header, w, script);
    var released := Released(reading, w, script);
    var o := Classify(reply, released, filename);
    VideoStep(o, World(FilesAfter(o, w.files, filename, if reply.Response? && !released then reply.bodyLength else 0),
                       w.served + |ex|, w.trace + ex))
  }

  /** Attempts `attempt`..2 of `download_video`. */
  function VideoFrom(reading: Reading, url: string, filename: string, header: Option<string>, attempt: nat, w: World, script: seq<Reply>): VideoRun
    requires attempt <= MaxVideoAttempts
    decreases MaxVideoAttempts - attempt
  {
    if attempt == MaxVideoAttempts then VideoRun(GaveUp, w)
    else
      var step := VideoAttempt(reading, url, filename, header, w, script);
      match step.outcome
      case Unmodified => VideoRun(NotModified, step.world)
      case Complete => VideoRun(Saved, step.world)
      case EmptyFile => VideoFrom(reading, url, filename, header, attempt + 1, step.world, script)
      case _ =>
        if attempt == MaxVideoAttempts - 1 then VideoRun(GaveUp, step.world)
        else VideoFrom(reading, url, filename, header, attempt + 1, Pause(step.world, 1), script)
  }

  /** What `download_video` does. */
  function VideoSpec(reading: Reading, url: string, filename: string, cookie: Option<string>, w: World, script: seq<Reply>): VideoRun {
    if filename in w.files then VideoRun(AlreadyPresent, w)
    else VideoFrom(reading, url, filename, CookieHeader(cookie), 0, w, script)
  }

  /** The body of the `try` block of one video attempt. */
  method TryVideo(url: string, filename: string, header: Option<string>, w0: World, script: seq<Reply>)
    returns (outcome: Outcome, w: World)
    ensures VideoStep(outcome, w) == VideoAttempt(AsWritten, url, filename, header, w0, script)
  {
    var reply := ReplyAt(script, w0.served);
    w := Send(w0, Request(url, VideoDesktop, header, true), script);
    var released := false;
    if reply.Response? && reply.status == 403 {
      reply := ReplyAt(script, w.served);
      w := Send(w, Request(url, VideoMobile, header, true), script);
      released := true;  // the `async with` of the mobile request has ended
    }
    if reply.ConnectionError? || reply.status >= 400 {
      return Raises, w;
    }
    if reply.status == 304 {
      return Unmodified, w;
    }
    if !HasDirectory(filename) {
      return Raises, w;
    }
    if released && reply.bodyLength > 0 {
      // the file is opened empty, then the first chunk read raises
      w := w.(files := w.files[filename := 0]);
      return StreamBroke, w;
    }
    w := w.(files := w.files[filename := reply.bodyLength]);
    if reply.bodyFails {
      return StreamBroke, w;
    }
    if filename in w.files && w.files[filename] > 0 {
      return Complete, w;
    }
    if filename in w.files {
      w := w.(files := w.files - {filename});
    }
    return EmptyFile, w;
  }

  /** `download_video` */
  method DownloadVideo(url: string, filename: string, cookie: Option<string>, w0: World, script: seq<Reply>)
    returns (exit: VideoExit, w: World)
    ensures VideoRun(exit, w) == VideoSpec(AsWritten, url, filename, cookie, w0, script)
    ensures filename in w0.files ==> exit == AlreadyPresent && w == w0
  {
    w := w0;
    if filename in w.files {
      return AlreadyPresent, w;
    }
    var header := None;
    if Truthy(cookie) {
      header := Some(CleanCookie(cookie));
    }
    exit, w := VideoRetries(url, filename, header, w, script);
  }

  /** The retry loop of `download_video`, with the headers already built. */
  method VideoRetries(url: string, filename: string, header: Option<string>, w0: World, script: seq<Reply>)
    returns (exit: VideoExit, w: World)
    ensures VideoRun(exit, w) == VideoFrom(AsWritten, url, filename, header, 0, w0, script)
  {
    w := w0;
    var attempt := 0;
    while attempt < MaxVideoAttempts
      invariant 0 <= attempt <= MaxVideoAttempts
      invariant VideoFrom(AsWritten, url, filename, header, attempt, w, script) == VideoFrom(AsWritten, url, filename, header, 0, w0, script)
      decreases MaxVideoAttempts - attempt
    {
      var outcome;
      outcome, w := TryVideo(url, filename, header, w, script);
      if outcome == Unmodified {
        return NotModified, w;
      } else if outcome == Complete {
        return Saved, w;
      } else if outcome == EmptyFile {
        attempt := attempt + 1;
        continue;
      }
      // one of the `except` clauses
      if attempt == MaxVideoAttempts - 1 {
        return GaveUp, w;
      }
      w := Pause(w, 1);
      attempt := attempt + 1;
    }
    return GaveUp, w;
  }

  /**
   * The exchanges split into `n` attempts, each a desktop request that is followed by a mobile
   * request exactly when it got a 403.
   */
  predicate AttemptBlocks(ex: seq<Event>, n: nat)
    decreases |ex|
  {
    if ex == [] then n == 0
    else
      && n > 0 && ex[0].Exchange? && ex[0].request.profile == VideoDesktop
      && if Forbidden(ex[0].reply) then
           |ex| >= 2 && ex[1].Exchange? && ex[1].request.profile == VideoMobile && AttemptBlocks(ex[2..], n - 1)
         else AttemptBlocks(ex[1..], n - 1)
  }

  lemma {:induction false} AttemptBlocksAppend(a: seq<Event>, n: nat, b: seq<Event>, m: nat)
    requires AttemptBlocks(a, n) && AttemptBlocks(b, m)
    ensures AttemptBlocks(a + b, n + m)
    decreases |a|
  {
    if a == [] {
      assert a + b == b;
    } else if Forbidden(a[0].reply) {
      AttemptBlocksAppend(a[2..], n - 1, b, m);
      assert (a + b)[2..] == a[2..] + b;
    } else {
      AttemptBlocksAppend(a[1..], n - 1, b, m);
      assert (a + b)[1..] == a[1..] + b;
    }
  }

  /** Every exchange is a request for `url` with cookie header `header`, answered in script order. */
  predicate VideoExchanges(url: string, header: Option<string>, w: World, w': World, script: seq<Reply>)
    requires Extends(w, w')
  {
    var ex := Exchanges(Added(w, w'));
    && w'.served == w.served + |ex|
    && (forall k | 0 <= k < |ex| ::
          ex[k].request.url == url && ex[k].request.cookie == header && ex[k].request.followRedirects
          && ex[k].reply == ReplyAt(script, w.served + k))
  }

  /** The one or two exchanges of one video attempt. */
  lemma AttemptExchangesShape(reading: Reading, url: string, filename: string, header: Option<string>, w: World, script: seq<Reply>)
    ensures var w' := VideoAttempt(reading, url, filename, header, w, script).world;
      && Extends(w, w')
      && Added(w, w') == AttemptExchanges(url, header, w, script)
      && Exchanges(Added(w, w')) == Added(w, w')
      && AttemptBlocks(Added(w, w'), 1)
      && VideoExchanges(url, header, w, w', script)
  {
    var w' := VideoAttempt(reading, url, filename, header, w, script).world;
    var ex := AttemptExchanges(url, header, w, script);
    assert w'.trace == w.trace + ex && w'.served == w.served + |ex|;
    assert Added(w, w') == ex;
    BlockShape(url, header, w, w', ex, script);
  }

  /** The exchanges `ex` of one attempt from `w`, as they appear in `w'`. */
  lemma BlockShape(url: string, header: Option<string>, w: World, w': World, ex: seq<Event>, script: seq<Reply>)
    requires ex == AttemptExchanges(url, header, w, script)
    requires Extends(w, w') && Added(w, w') == ex && w'.served == w.served + |ex|
    ensures Exchanges(ex) == ex && AttemptBlocks(ex, 1)
    ensures VideoExchanges(url, header, w, w', script)
  {
    var e1 := Exchange(Request(url, VideoDesktop, header, true), ReplyAt(script, w.served));
    if Forbidden(e1.reply) {
      var e2 := Exchange(Request(url, VideoMobile, header, true), ReplyAt(script, w.served + 1));
      assert ex == [e1, e2];
      DoubleBlock(e1, e2);
    } else {
      assert ex == [e1];
      SingleBlock(e1);
    }
  }

  lemma SingleBlock(e1: Event)
    requires e1.Exchange? && e1.request.profile == VideoDesktop && !Forbidden(e1.reply)
    ensures Exchanges([e1]) == [e1] && AttemptBlocks([e1], 1)
  {
    assert Exchanges([e1]) == Exchanges([]) + [e1];
    assert [e1][1..] == [];
    assert AttemptBlocks([], 0);
  }

  lemma DoubleBlock(e1: Event, e2: Event)
    requires e1.Exchange? && e1.request.profile == VideoDesktop && Forbidden(e1.reply)
    requires e2.Exchange? && e2.request.profile == VideoMobile
    ensures Exchanges([e1, e2]) == [e1, e2] && AttemptBlocks([e1, e2], 1)
  {
    assert [e1, e2][..1] == [e1];
    assert Exchanges([e1]) == Exchanges([]) + [e1];
    assert [e1, e2][2..] == [];
    assert AttemptBlocks([], 0);
  }

  /**
   * From `w` to `w'`: `n` attempts of one or two exchanges each, all for `url` with cookie header
   * `header`, answered in script order.
   */
  predicate VideoShape(url: string, header: Option<string>, w: World, w': World, script: seq<Reply>, n: nat) {
    && Extends(w, w')
    && AttemptBlocks(Exchanges(Added(w, w')), n)
    && VideoExchanges(url, header, w, w', script)
  }

  /** One video attempt: one attempt block, and nothing else. */
  lemma VideoAttemptEvents(reading: Reading, url: string, filename: string, header: Option<string>, w: World, script: seq<Reply>)
    ensures VideoShape(url, header, w, VideoAttempt(reading, url, filename, header, w, script).world, script, 1)
  {
    AttemptExchangesShape(reading, url, filename, header, w, script);
  }

  /** Joining two stretches of attempts. */
  lemma VideoPrepend(url: string, header: Option<string>, w: World, mid: World, w': World, n: nat, m: nat, script: seq<Reply>)
    requires VideoShape(url, header, w, mid, script, n) && VideoShape(url, header, mid, w', script, m)
    ensures VideoShape(url, header, w, w', script, n + m)
  {
    var step := Added(w, mid);
    assert mid.trace == w.trace + step;
    AddedChain(w, mid, w', step);
    AttemptBlocksAppend(Exchanges(step), n, Exchanges(Added(mid, w')), m);
    var ex := Exchanges(Added(w, w'));
    var first := Exchanges(step);
    var rest := Exchanges(Added(mid, w'));
    forall k | 0 <= k < |ex|
      ensures ex[k].request.url == url && ex[k].request.cookie == header && ex[k].request.followRedirects
      ensures ex[k].reply == ReplyAt(script, w.served + k)
    {
      if k < |first| {
        assert ex[k] == first[k];
      } else {
        assert ex[k] == rest[k - |first|];
        assert mid.served + (k - |first|) == w.served + k;
      }
    }
  }

  /** A sleep is no attempt. */
  lemma SleepShape(url: string, header: Option<string>, w: World, seconds: nat, script: seq<Reply>)
    ensures VideoShape(url, header, w, Pause(w, seconds), script, 0)
  {
    assert Added(w, Pause(w, seconds)) == [Sleep(seconds)];
    assert [Sleep(seconds)][..0] == [];
  }

  /** One attempt, possibly a sleep, then `m` more attempts. */
  lemma VideoCombine(url: string, header: Option<string>, w: World, mid: World, next: World, w': World,
                     slept: bool, m: nat, script: seq<Reply>)
    requires VideoShape(url, header, w, mid, script, 1)
    requires next == if slept then Pause(mid, 1) else mid
    requires VideoShape(url, header, next, w', script, m)
    ensures VideoShape(url, header, w, w', script, 1 + m)
  {
    if slept {
      SleepShape(url, header, mid, 1, script);
      VideoPrepend(url, header, mid, next, w', 0, m, script);
    }
    VideoPrepend(url, header, w, mid, w', 1, m, script);
  }

  /**
   * The requests of attempts `attempt`..2: `n` attempts at most `3 - attempt`, each a desktop
   * request followed by a mobile one exactly after a 403, all for `url` with the cookie header,
   * answered in script order.
   */
  lemma {:induction false} VideoAttempts(reading: Reading, url: string, filename: string, header: Option<string>, attempt: nat, w: World, script: seq<Reply>)
    returns (n: nat)
    requires attempt <= MaxVideoAttempts
    ensures n <= MaxVideoAttempts - attempt
    ensures VideoShape(url, header, w, VideoFrom(reading, url, filename, header, attempt, w, script).world, script, n)
    decreases MaxVideoAttempts - attempt, 1
  {
    var r := VideoFrom(reading, url, filename, header, attempt, w, script);
    if attempt == MaxVideoAttempts {
      assert Added(w, r.world) == [];
      assert AttemptBlocks([], 0);
      return 0;
    }
    var step := VideoAttempt(reading, url, filename, header, w, script);
    var o := step.outcome;
    if o == Unmodified || o == Complete || (o != EmptyFile && attempt == MaxVideoAttempts - 1) {
      assert r.world == step.world;
      VideoAttemptEvents(reading, url, filename, header, w, script);
      return 1;
    }
    var next := if o != EmptyFile then Pause(step.world, 1) else step.world;
    n := VideoAttemptsAfter(reading, url, filename, header, attempt, w, next, o != EmptyFile, script);
  }

  /** `VideoAttempts` for a run that goes on from `next` after attempt `attempt`, and a sleep if `slept`. */
  lemma {:induction false} VideoAttemptsAfter(reading: Reading, url: string, filename: string, header: Option<string>, attempt: nat, w: World,
                                              next: World, slept: bool, script: seq<Reply>)
    returns (n: nat)
    requires attempt < MaxVideoAttempts
    requires var mid := VideoAttempt(reading, url, filename, header, w, script).world;
      next == if slept then Pause(mid, 1) else mid
    requires VideoFrom(reading, url, filename, header, attempt, w, script) == VideoFrom(reading, url, filename, header, attempt + 1, next, script)
    ensures n <= MaxVideoAttempts - attempt
    ensures VideoShape(url, header, w, VideoFrom(reading, url, filename, header, attempt, w, script).world, script, n)
    decreases MaxVideoAttempts - attempt, 0
  {
    var mid := VideoAttempt(reading, url, filename, header, w, script).world;
    VideoAttemptEvents(reading, url, filename, header, w, script);
    var m := VideoAttempts(reading, url, filename, header, attempt + 1, next, script);
    VideoCombine(url, header, w, mid, next, VideoFrom(reading, url, filename, header, attempt + 1, next, script).world, slept, m, script);
    n := 1 + m;
  }

  /** A video download sends at most six requests: three attempts of at most two. */
  lemma VideoRequestBound(reading: Reading, url: string, filename: string, cookie: Option<string>, w: World, script: seq<Reply>)
    ensures var w' := VideoSpec(reading, url, filename, cookie, w, script).world;
      Extends(w, w') && |Exchanges(Added(w, w'))| <= 2 * MaxVideoAttempts && w'.served <= w.served + 2 * MaxVideoAttempts
  {
    var w' := VideoSpec(reading, url, filename, cookie, w, script).world;
    if filename !in w.files {
      var n := VideoAttempts(reading, url, filename, CookieHeader(cookie), 0, w, script);
      assert VideoShape(url, CookieHeader(cookie), w, w', script, n);
      BlocksBound(Exchanges(Added(w, w')), n);
    } else {
      assert Added(w, w') == [];
    }
  }

  lemma {:induction false} BlocksBound(ex: seq<Event>, n: nat)
    requires AttemptBlocks(ex, n)
    ensures |ex| <= 2 * n
    decreases |ex|
  {
    if ex != [] {
      if Forbidden(ex[0].reply) {
        BlocksBound(ex[2..], n - 1);
      } else {
        BlocksBound(ex[1..], n - 1);
      }
    }
  }

  /**
   * Reading a body after this exchange may break off: its response broke mid-body, or, as written,
   * it was a 403 whose attempt went on with the released mobile response.
   */
  predicate BreaksOff(reading: Reading, e: Event) {
    e.Exchange? && e.reply.Response? && (e.reply.bodyFails || (reading == AsWritten && e.reply.status == 403))
  }

  /** Some body read of the events broke off. */
  predicate SomeBrokenStream(reading: Reading, events: seq<Event>) {
    exists j | 0 <= j < |events| :: BreaksOff(reading, events[j])
  }

  lemma BrokenStreamExtends(reading: Reading, a: seq<Event>, b: seq<Event>)
    requires SomeBrokenStream(reading, a) || SomeBrokenStream(reading, b)
    ensures SomeBrokenStream(reading, a + b)
  {
    if SomeBrokenStream(reading, a) {
      var j :| 0 <= j < |a| && BreaksOff(reading, a[j]);
      assert (a + b)[j] == a[j];
    } else {
      var j :| 0 <= j < |b| && BreaksOff(reading, b[j]);
      assert (a + b)[|a| + j] == b[j];
    }
  }

  /**
   * What one attempt does to the files: only the destination changes, a completed attempt leaves
   * it non-empty and an empty write is removed, also when the empty body is the released mobile
   * response's; as written, an attempt that went on with the released mobile response never
   * completes, and when its read breaks off it leaves the destination empty.
   */
  lemma VideoAttemptFiles(reading: Reading, url: string, filename: string, header: Option<string>, w: World, script: seq<Reply>)
    ensures var step := VideoAttempt(reading, url, filename, header, w, script);
      && step.world.files - {filename} == w.files - {filename}
      && (step.outcome == Complete ==> filename in step.world.files && step.world.files[filename] > 0)
      && (step.outcome == EmptyFile ==> filename !in step.world.files)
      && (step.outcome == Raises || step.outcome == Unmodified ==> step.world.files == w.files)
      && (Released(reading, w, script) ==> step.outcome != Complete)
      && (var reply := VideoReply(url, header, w, script);
          (reply.Response? && reply.status < 400 && reply.status != 304 && HasDirectory(filename)
           && reply.bodyLength == 0 && !reply.bodyFails) ==> step.outcome == EmptyFile)
      && (Released(reading, w, script) && step.outcome == StreamBroke ==> step.world.files == w.files[filename := 0])
  {
    AttemptFiles(reading, url, filename, header, w, script);
  }

  /** The part of `VideoAttemptFiles` the runs need. */
  lemma AttemptFiles(reading: Reading, url: string, filename: string, header: Option<string>, w: World, script: seq<Reply>)
    ensures var step := VideoAttempt(reading, url, filename, header, w, script);
      && step.world.files - {filename} == w.files - {filename}
      && (step.outcome == Complete ==> filename in step.world.files && step.world.files[filename] > 0)
      && (step.outcome == EmptyFile ==> filename !in step.world.files)
      && (step.outcome == Raises || step.outcome == Unmodified ==> step.world.files == w.files)
  {
    var step := VideoAttempt(reading, url, filename, header, w, script);
    var reply := VideoReply(url, header, w, script);
    var size := if reply.Response? && !Released(reading, w, script) then reply.bodyLength else 0;
    assert step.world.files == FilesAfter(step.outcome, w.files, filename, size);
    FilesAfterOthers(step.outcome, w.files, filename, size);
  }

  lemma FilesAfterOthers(o: Outcome, files: map<string, nat>, filename: string, size: nat)
    ensures FilesAfter(o, files, filename, size) - {filename} == files - {filename}
  {
  }

  /** An attempt that broke off while streaming received a broken response. */
  lemma VideoAttemptBroken(reading: Reading, url: string, filename: string, header: Option<string>, w: World, script: seq<Reply>)
    requires VideoAttempt(reading, url, filename, header, w, script).outcome == StreamBroke
    ensures Extends(w, VideoAttempt(reading, url, filename, header, w, script).world)
    ensures SomeBrokenStream(reading, Added(w, VideoAttempt(reading, url, filename, header, w, script).world))
  {
    AttemptExchangesShape(reading, url, filename, header, w, script);
    var ex := AttemptExchanges(url, header, w, script);
    if Released(reading, w, script) {
      assert BreaksOff(reading, ex[0]);
    } else {
      assert BreaksOff(reading, ex[|ex| - 1]);
    }
  }

  /** What attempts `attempt`..2 do to the files: nothing but `filename` changes, and a saved file is not empty. */
  lemma {:induction false} VideoFiles(reading: Reading, url: string, filename: string, header: Option<string>, attempt: nat, w: World, script: seq<Reply>)
    requires attempt <= MaxVideoAttempts
    ensures var r := VideoFrom(reading, url, filename, header, attempt, w, script);
      && r.world.files - {filename} == w.files - {filename}
      && (r.exit == Saved ==> filename in r.world.files && r.world.files[filename] > 0)
    decreases MaxVideoAttempts - attempt
  {
    if attempt < MaxVideoAttempts {
      var step := VideoAttempt(reading, url, filename, header, w, script);
      AttemptFiles(reading, url, filename, header, w, script);
      var o := step.outcome;
      if !(o == Unmodified || o == Complete || (o != EmptyFile && attempt == MaxVideoAttempts - 1)) {
        var next := if o != EmptyFile then Pause(step.world, 1) else step.world;
        assert VideoFrom(reading, url, filename, header, attempt, w, script)
            == VideoFrom(reading, url, filename, header, attempt + 1, next, script);
        VideoFiles(reading, url, filename, header, attempt + 1, next, script);
      }
    }
  }

  /**
   * A file that was not there before is left behind by failed attempts `attempt`..2 only when a
   * body read broke off: a response broke mid-body, or, as written, a 403 sent an attempt to the
   * released mobile response. An empty body alone is never left on disk.
   */
  lemma {:induction false} VideoLeftover(reading: Reading, url: string, filename: string, header: Option<string>, attempt: nat, w: World, script: seq<Reply>)
    requires attempt <= MaxVideoAttempts
    ensures var r := VideoFrom(reading, url, filename, header, attempt, w, script);
      && Extends(w, r.world)
      && (filename in r.world.files && filename !in w.files && r.exit != Saved ==> SomeBrokenStream(reading, Added(w, r.world)))
    decreases MaxVideoAttempts - attempt, 1
  {
    var r := VideoFrom(reading, url, filename, header, attempt, w, script);
    if attempt < MaxVideoAttempts {
      var step := VideoAttempt(reading, url, filename, header, w, script);
      var o := step.outcome;
      if !(o == Unmodified || o == Complete || (o != EmptyFile && attempt == MaxVideoAttempts - 1)) {
        VideoLeftoverGoesOn(reading, url, filename, header, attempt, w, r, script);
      } else {
        AttemptLeftover(reading, url, filename, header, w, script);
        assert r.world == step.world;
      }
    }
  }

  /** `VideoLeftover` for the run `r` of a download that goes on after attempt `attempt`. */
  lemma {:induction false} VideoLeftoverGoesOn(reading: Reading, url: string, filename: string, header: Option<string>, attempt: nat,
                                               w: World, r: VideoRun, script: seq<Reply>)
    requires attempt < MaxVideoAttempts
    requires var o := VideoAttempt(reading, url, filename, header, w, script).outcome;
      !(o == Unmodified || o == Complete || (o != EmptyFile && attempt == MaxVideoAttempts - 1))
    requires r == VideoFrom(reading, url, filename, header, attempt, w, script)
    ensures Extends(w, r.world)
    ensures filename in r.world.files && filename !in w.files && r.exit != Saved ==> SomeBrokenStream(reading, Added(w, r.world))
    decreases MaxVideoAttempts - attempt, 0
  {
    var step := VideoAttempt(reading, url, filename, header, w, script);
    var mid := step.world;
    var o := step.outcome;
    AttemptLeftover(reading, url, filename, header, w, script);
    var next := if o != EmptyFile then Pause(mid, 1) else mid;
    assert r == VideoFrom(reading, url, filename, header, attempt + 1, next, script);
    VideoLeftover(reading, url, filename, header, attempt + 1, next, script);
    LeftoverCombine(reading, filename, w, mid, next, r.world, o != EmptyFile, o == StreamBroke, r.exit == Saved);
  }

  /** What one attempt leaves: the destination changes only on success, an empty body or a broken stream. */
  lemma AttemptLeftover(reading: Reading, url: string, filename: string, header: Option<string>, w: World, script: seq<Reply>)
    ensures var step := VideoAttempt(reading, url, filename, header, w, script);
      && Extends(w, step.world)
      && (step.outcome == StreamBroke ==> SomeBrokenStream(reading, Added(w, step.world)))
      && (step.outcome == Raises || step.outcome == Unmodified ==> step.world.files == w.files)
      && (step.outcome == EmptyFile ==> filename !in step.world.files)
  {
    AttemptFiles(reading, url, filename, header, w, script);
    AttemptExchangesShape(reading, url, filename, header, w, script);
    if VideoAttempt(reading, url, filename, header, w, script).outcome == StreamBroke {
      VideoAttemptBroken(reading, url, filename, header, w, script);
    }
  }

  /** One attempt (and possibly a sleep) followed by more attempts: where a leftover file comes from. */
  lemma LeftoverCombine(reading: Reading, filename: string, w: World, mid: World, next: World, w': World, slept: bool, broke: bool, saved: bool)
    requires Extends(w, mid) && Extends(next, w')
    requires next == if slept then Pause(mid, 1) else mid
    requires filename in mid.files && filename !in w.files ==> broke
    requires broke ==> SomeBrokenStream(reading, Added(w, mid))
    requires filename in w'.files && filename !in next.files && !saved ==> SomeBrokenStream(reading, Added(next, w'))
    requires w.files == mid.files || filename !in mid.files || broke
    ensures Extends(w, w')
    ensures filename in w'.files && filename !in w.files && !saved ==> SomeBrokenStream(reading, Added(w, w'))
  {
    var step := Added(w, mid) + (if slept then [Sleep(1)] else []);
    assert next.trace == w.trace + step;
    AddedChain(w, next, w', step);
    if filename in w'.files && filename !in w.files && !saved {
      if broke {
        BrokenStreamExtends(reading, Added(w, mid), if slept then [Sleep(1)] else []);
        BrokenStreamExtends(reading, step, Added(next, w'));
      } else {
        BrokenStreamExtends(reading, step, Added(next, w'));
      }
    }
  }

  /**
   * A saved video is never empty, only the destination changes, and a destination left by a
   * download that did not save it comes from a body read that broke off (under `reading`).
   */
  lemma VideoSavedNonEmpty(reading: Reading, url: string, filename: string, cookie: Option<string>, w: World, script: seq<Reply>)
    requires filename !in w.files
    ensures var r := VideoSpec(reading, url, filename, cookie, w, script);
      && (r.exit == Saved ==> filename in r.world.files && r.world.files[filename] > 0)
      && r.world.files - {filename} == w.files - {filename}
      && Extends(w, r.world)
      && (filename in r.world.files && r.exit != Saved ==> SomeBrokenStream(reading, Added(w, r.world)))
  {
    VideoFiles(reading, url, filename, CookieHeader(cookie), 0, w, script);
    VideoLeftover(reading, url, filename, CookieHeader(cookie), 0, w, script);
  }

  /**
   * Unlike the image path, a 404 does not end the video download: three 404s make three
   * requests with a one-second sleep between them, and the download gives up.
   */
  lemma VideoRetriesOn404(reading: Reading, url: string, filename: string, w: World)
    requires filename !in w.files && w.served == 0
    ensures var notFound := Response(404, 0, None, false);
      var e := Exchange(Request(url, VideoDesktop, None, true), notFound);
      VideoSpec(reading, url, filename, None, w, [notFound, notFound, notFound]) ==
        VideoRun(GaveUp, w.(served := 3, trace := w.trace + [e, Sleep(1), e, Sleep(1), e]))
  {
  }

  // ---------------------------------------------------------------------------------------------
  // The mobile fallback, as written and as intended

  /** As written, an attempt that met a 403 never saves the video, and any file it leaves is empty. */
  lemma MobileFallbackNeverSaves(url: string, filename: string, header: Option<string>, w: World, script: seq<Reply>)
    requires Forbidden(ReplyAt(script, w.served))
    ensures VideoAttempt(AsWritten, url, filename, header, w, script).outcome != Complete
    ensures VideoAttempt(AsWritten, url, filename, header, w, script).outcome == StreamBroke ==>
      VideoAttempt(AsWritten, url, filename, header, w, script).world.files[filename] == 0
  {
  }

  /**
   * A 403 answered by an empty 200 on the mobile headers: under either reading the empty file is
   * removed and the next attempt follows at once, without a sleep.
   */
  lemma ReleasedEmptyBodyRemoved(reading: Reading, url: string, filename: string, header: Option<string>, w: World)
    requires HasDirectory(filename) && w.served == 0
    ensures var script := [Response(403, 0, None, false), Response(200, 0, None, false)];
      var step := VideoAttempt(reading, url, filename, header, w, script);
      && step.outcome == EmptyFile
      && step.world.files == w.files - {filename}
      && VideoFrom(reading, url, filename, header, 0, w, script)
         == VideoFrom(reading, url, filename, header, 1, step.world, script)
  {
    var script := [Response(403, 0, None, false), Response(200, 0, None, false)];
    assert ReplyAt(script, w.served) == script[0];
    assert ReplyAt(script, w.served + 1) == script[1];
  }

  /**
   * A 403 answered by a full 200 on the mobile headers, and then no answer: as written the
   * download gives up after four requests and leaves an empty file; with the mobile response
   * streamed it saves the 5000 bytes after two requests.
   */
  lemma MobileFallbackRun(url: string, filename: string, cookie: Option<string>, w: World)
    requires HasDirectory(filename) && filename !in w.files && w.served == 0
    ensures var script := [Response(403, 0, None, false), Response(200, 5000, None, false)];
      var asWritten := VideoSpec(AsWritten, url, filename, cookie, w, script);
      var intended := VideoSpec(Intended, url, filename, cookie, w, script);
      && asWritten.exit == GaveUp && asWritten.world.files == w.files[filename := 0] && asWritten.world.served == 4
      && intended.exit == Saved && intended.world.files == w.files[filename := 5000] && intended.world.served == 2
  {
  }

  /** With the mobile response streamed, a full body after a 403 saves the video on the first attempt. */
  lemma MobileFallbackSaves(url: string, filename: string, cookie: Option<string>, w: World, script: seq<Reply>)
    requires filename !in w.files && Forbidden(ReplyAt(script, w.served)) && HasDirectory(filename)
    requires var retry := ReplyAt(script, w.served + 1);
      retry.Response? && retry.status < 400 && retry.status != 304 && !retry.bodyFails && retry.bodyLength > 0
    ensures VideoSpec(Intended, url, filename, cookie, w, script).exit == Saved
    ensures VideoSpec(Intended, url, filename, cookie, w, script).world.files ==
      w.files[filename := ReplyAt(script, w.served + 1).bodyLength]
    ensures VideoSpec(Intended, url, filename, cookie, w, script).world.served == w.served + 2
  {
  }

  // ---------------------------------------------------------------------------------------------
  // download

  /** The markers of which the lower-cased URL must hold one to take the image path. */
  const ImageMarkers: seq<string> := [".jpg", ".jpeg", ".png", ".webp", "image"]

  /** The image path is taken for a `douyinpic.com` URL that names an image. */
  predicate IsDouyinImageUrl(url: string) {
    Contains(url, "douyinpic.com") && exists k | 0 <= k < |ImageMarkers| :: Contains(LowerAscii(url), ImageMarkers[k])
  }

  /** `download` returns the image path's result, and `None` on the video path. */
  datatype DownloadRun = DownloadRun(result: Option<bool>, world: World)

  /** The URL the video path downloads: the non-empty `Location` of a 301 or 302, else the URL itself. */
  function VideoTarget(url: string, link: ResolvedLink): string {
    var location := link.Location();
    if location.Some? && location.value != "" then location.value else url
  }

  /** What `download` does. */
  function DownloadSpec(url: string, filename: string, cookie: Option<string>, w: World, script: seq<Reply>): DownloadRun {
    if IsDouyinImageUrl(url) then
      var r := ImageSpec(url, filename, cookie, w, script);
      DownloadRun(Some(r.success), r.world)
    else
      var (link, w1) := GetLocationFromUrl(url, cookie, w, script);
      DownloadRun(None, VideoSpec(AsWritten, VideoTarget(url, link), filename, cookie, w1, script).world)
  }

  /** `download` */
  method Download(url: string, filename: string, cookie: Option<string>, w0: World, script: seq<Reply>)
    returns (result: Option<bool>, w: World)
    ensures DownloadRun(result, w) == DownloadSpec(url, filename, cookie, w0, script)
  {
    if IsDouyinImageUrl(url) {
      var success;
      success, w := DownloadDouyinImage(url, filename, cookie, w0, script);
      return Some(success), w;
    }
    var (link, w1) := GetLocationFromUrl(url, cookie, w0, script);
    var target := url;
    if link.Location().Some? && link.Location().value != "" {
      target := link.Location().value;
    }
    var exit;
    exit, w := DownloadVideo(target, filename, cookie, w1, script);
    return None, w;
  }

  /**
   * Off the image path, `download` first probes the URL without following redirects, and every
   * later request goes to the `Location` of a 301 or 302 when it is not empty, else to the URL.
   */
  lemma DownloadProbesThenFollows(url: string, filename: string, cookie: Option<string>, w: World, script: seq<Reply>)
    requires !IsDouyinImageUrl(url)
    ensures var r := DownloadSpec(url, filename, cookie, w, script);
      var probe := ReplyAt(script, w.served);
      var target := if probe.Response? && (probe.status == 301 || probe.status == 302) && probe.location.Some? && probe.location.value != ""
                    then probe.location.value else url;
      && r.result == None
      && Extends(w, r.world)
      && Added(w, r.world) != []
      && Added(w, r.world)[0] == Exchange(Request(url, PageBrowser, CookieHeader(cookie), false), probe)
      && (forall k | 1 <= k < |Exchanges(Added(w, r.world))| :: Exchanges(Added(w, r.world))[k].request.url == target)
  {
    var (link, w1) := GetLocationFromUrl(url, cookie, w, script);
    var target := VideoTarget(url, link);
    VideoGoesTo(AsWritten, target, filename, cookie, w1, script);
    var e := Exchange(Request(url, PageBrowser, CookieHeader(cookie), false), ReplyAt(script, w.served));
    ProbeThenTarget(w, w1, VideoSpec(AsWritten, target, filename, cookie, w1, script).world, e, target);
  }

  /** Every request of `download_video` goes to its URL. */
  lemma VideoGoesTo(reading: Reading, url: string, filename: string, cookie: Option<string>, w: World, script: seq<Reply>)
    ensures var w' := VideoSpec(reading, url, filename, cookie, w, script).world;
      && Extends(w, w')
      && forall k | 0 <= k < |Exchanges(Added(w, w'))| :: Exchanges(Added(w, w'))[k].request.url == url
  {
    var w' := VideoSpec(reading, url, filename, cookie, w, script).world;
    if filename in w.files {
      assert Added(w, w') == [];
    } else {
      var n := VideoAttempts(reading, url, filename, CookieHeader(cookie), 0, w, script);
    }
  }

  /** A probe `e`, then requests that all go to `target`. */
  lemma ProbeThenTarget(w: World, w1: World, w': World, e: Event, target: string)
    requires e.Exchange? && w1.trace == w.trace + [e] && Extends(w1, w')
    requires forall k | 0 <= k < |Exchanges(Added(w1, w'))| :: Exchanges(Added(w1, w'))[k].request.url == target
    ensures Extends(w, w') && Added(w, w') != [] && Added(w, w')[0] == e
    ensures forall k | 1 <= k < |Exchanges(Added(w, w'))| :: Exchanges(Added(w, w'))[k].request.url == target
  {
    assert Exchanges([e]) == [e] by {
      assert Exchanges([e]) == Exchanges([]) + [e];
    }
    AddedChain(w, w1, w', [e]);
    var ex := Exchanges(Added(w, w'));
    var rest := Exchanges(Added(w1, w'));
    forall k | 1 <= k < |ex| ensures ex[k].request.url == target {
      assert ex[k] == rest[k - 1];
    }
  }

  /** On the image path, `download` is `download_douyin_image`: no probe, and its result. */
  lemma DownloadImagePath(url: string, filename: string, cookie: Option<string>, w: World, script: seq<Reply>)
    requires IsDouyinImageUrl(url)
    ensures var r := DownloadSpec(url, filename, cookie, w, script);
      && r.result == Some(ImageSpec(url, filename, cookie, w, script).success)
      && Extends(w, r.world)
      && forall k | 0 <= k < |Exchanges(Added(w, r.world))| :: Exchanges(Added(w, r.world))[k].request.profile in ImageStrategies
  {
    var r := DownloadSpec(url, filename, cookie, w, script);
    if filename in w.files {
      assert Added(w, r.world) == [];
    } else {
      ImageAttempts(url, filename, CookieHeader(cookie), 0, w, script);
      var ex := Exchanges(Added(w, r.world));
      forall k | 0 <= k < |ex| ensures ex[k].request.profile in ImageStrategies {
        assert ex[k].request == ImageRequest(url, CookieHeader(cookie), k);
      }
    }
  }

  /**
   * Downloading to a destination that exists changes no file; the image path then sends
   * nothing, the video path only its redirect probe.
   */
  lemma DownloadExistingDestination(url: string, filename: string, cookie: Option<string>, w: World, script: seq<Reply>)
    requires filename in w.files
    ensures var r := DownloadSpec(url, filename, cookie, w, script);
      && r.world.files == w.files
      && r.world.served == w.served + (if IsDouyinImageUrl(url) then 0 else 1)
      && (IsDouyinImageUrl(url) ==> r.result == Some(true))
  {
  }

  /** Without a directory part (the default "video.mp4"), the video path never writes a file. */
  lemma NoDirectoryNeverSaves(reading: Reading, url: string, filename: string, cookie: Option<string>, w: World, script: seq<Reply>)
    requires !HasDirectory(filename) && filename !in w.files
    ensures VideoSpec(reading, url, filename, cookie, w, script).exit != Saved
    ensures VideoSpec(reading, url, filename, cookie, w, script).world.files == w.files
  {
    NoDirectoryFrom(reading, url, filename, CookieHeader(cookie), 0, w, script);
  }

  lemma {:induction false} NoDirectoryFrom(reading: Reading, url: string, filename: string, header: Option<string>, attempt: nat, w: World, script: seq<Reply>)
    requires !HasDirectory(filename) && attempt <= MaxVideoAttempts
    ensures VideoFrom(reading, url, filename, header, attempt, w, script).exit != Saved
    ensures VideoFrom(reading, url, filename, header, attempt, w, script).world.files == w.files
    decreases MaxVideoAttempts - attempt
  {
    if attempt < MaxVideoAttempts {
      var step := VideoAttempt(reading, url, filename, header, w, script);
      if step.outcome == Raises && attempt < MaxVideoAttempts - 1 {
        NoDirectoryFrom(reading, url, filename, header, attempt + 1, Pause(step.world, 1), script);
      }
    }
  }
}

/** `modutils/http.py` and `modutils/sessionutils.py`: the two copies of
    `BaseSession`, a `requests.Session` that re-sends a request until its
    status code is one it accepts, then logs the final response. The copies
    differ only in their default accepted codes and the label of the error
    log line. Also `BaseAsyncSession`'s constructor and verbs and the plain
    text branch of `urlscraper` (`modutils/http.py`). */
module Sessions {
  import opened Base
  import opened PyValues
  import opened Text

  /** Which copy of `BaseSession`. */
  datatype Flavour = Http | SessionUtils

  /** The accepted codes every session starts with: the ten 2xx codes, and
      in `http.py` also 400, 401 and 404. */
  function DefaultCodes(f: Flavour): seq<int> {
    match f
    case Http => [200, 201, 202, 203, 204, 205, 206, 207, 208, 226, 400, 401, 404]
    case SessionUtils => [200, 201, 202, 203, 204, 205, 206, 207, 208, 226]
  }

  /** The prefix of the error log line (`sessionutils.py` misspells it). */
  function ErrorLabel(f: Flavour): string {
    match f
    case Http => "RESPONSE: "
    case SessionUtils => "REPONSE: "
  }

  /** Client errors end the retrying in `http.py` but are retried in
      `sessionutils.py`; both accept every 2xx code either lists. */
  lemma ClientErrorCodes()
    ensures forall c :: c in [400, 401, 404] ==> c in DefaultCodes(Http) && c !in DefaultCodes(SessionUtils)
    ensures forall c :: c in DefaultCodes(SessionUtils) ==> c in DefaultCodes(Http) && 200 <= c < 300
    ensures |DefaultCodes(Http)| == 13 && |DefaultCodes(SessionUtils)| == 10
  {
  }

  /** What `isinstance(v, int)` admits, as the int it compares equal to:
      `bool` is a subclass of `int`, and `True == 1`. */
  function IntCode(v: Value): seq<int> {
    match v
    case Int(i) => [i]
    case Bool(b) => [if b then 1 else 0]
    case _ => []
  }

  /** The int elements of a list, in order. */
  function IntElems(xs: seq<Value>): (r: seq<int>)
    ensures |r| <= |xs|
  {
    if xs == [] then [] else IntElems(xs[..|xs| - 1]) + IntCode(xs[|xs| - 1])
  }

  /** The codes the `resolve_status_codes` argument adds: an int itself, a
      list its int elements, anything else nothing. */
  function ExtraCodes(v: Value): seq<int> {
    if v.List? then IntElems(v.items) else IntCode(v)
  }

  lemma {:induction false} IntElemsInto(xs: seq<Value>, c: int, k: nat)
    requires k < |xs| && IntCode(xs[k]) == [c]
    ensures c in IntElems(xs)
    decreases |xs|
  {
    var init := xs[..|xs| - 1];
    if k < |init| {
      assert init[k] == xs[k];
      IntElemsInto(init, c, k);
    }
  }

  lemma {:induction false} IntElemsFrom(xs: seq<Value>, c: int)
    requires c in IntElems(xs)
    ensures exists k :: 0 <= k < |xs| && IntCode(xs[k]) == [c]
    decreases |xs|
  {
    var init := xs[..|xs| - 1];
    if c in IntElems(init) {
      IntElemsFrom(init, c);
      var k :| 0 <= k < |init| && IntCode(init[k]) == [c];
      assert xs[k] == init[k];
    } else {
      assert IntCode(xs[|xs| - 1]) == [c];
    }
  }

  /** A code is kept exactly when some element of the list is that int. */
  lemma IntElemsMembership(xs: seq<Value>, c: int)
    ensures c in IntElems(xs) <==> exists k :: 0 <= k < |xs| && IntCode(xs[k]) == [c]
  {
    if c in IntElems(xs) {
      IntElemsFrom(xs, c);
    }
    if exists k :: 0 <= k < |xs| && IntCode(xs[k]) == [c] {
      var k :| 0 <= k < |xs| && IntCode(xs[k]) == [c];
      IntElemsInto(xs, c, k);
    }
  }

  /** `for sc in resolve_status_codes: if isinstance(sc, int): append(sc)`
      after the defaults (http.py:43-49, sessionutils.py:29-35). */
  method CollectCodes(f: Flavour, extra: Value) returns (codes: seq<int>)
    ensures codes == DefaultCodes(f) + ExtraCodes(extra)
  {
    codes := DefaultCodes(f);
    if extra.Int? || extra.Bool? {
      codes := codes + IntCode(extra);
    } else if extra.List? {
      var xs := extra.items;
      for k := 0 to |xs|
        invariant codes == DefaultCodes(f) + IntElems(xs[..k])
      {
        assert xs[..k + 1][..k] == xs[..k];
        codes := codes + IntCode(xs[k]);
      }
      assert xs[..|xs|] == xs;
    }
  }

  /** The part of a request that is logged. The headers are those of
      `requests`' case-insensitive dict, held as it holds them: by the
      lower-cased header name. */
  datatype Request = Request(verb: string, pathUrl: string, headers: map<string, string>)

  /** `headers.get(name)` on that dict: the name is lower-cased before the
      lookup. */
  function Header(headers: map<string, string>, name: string): (r: Option<string>)
    ensures r.Some? <==> Lower(name) in headers
    ensures r.Some? ==> r.value == headers[Lower(name)]
  {
    if Lower(name) in headers then Some(headers[Lower(name)]) else None
  }

  /** Setting `headers[name] = value` on that dict. */
  function WithHeader(headers: map<string, string>, name: string, value: string): map<string, string> {
    headers[Lower(name) := value]
  }

  /** A lookup does not depend on the letter case of the name, and finds
      the value last set under any spelling of it. */
  lemma HeaderIgnoresCase(headers: map<string, string>, name: string, other: string, value: string)
    requires Lower(name) == Lower(other)
    ensures Header(headers, name) == Header(headers, other)
    ensures Header(WithHeader(headers, other, value), name) == Some(value)
  {
  }

  /** The name `User-Agent` is stored under `user-agent`. */
  lemma UserAgentKey()
    ensures Lower("User-Agent") == "user-agent"
  {
    var name := "User-Agent";
    assert forall i :: 0 <= i < |name| ==> Lower(name)[i] == "user-agent"[i];
  }

  /** The logged user agent: the `User-Agent` header in any letter case, or
      `"Unknown"`. */
  function UserAgent(headers: map<string, string>): string {
    match Header(headers, "User-Agent")
    case Some(agent) => agent
    case None => "Unknown"
  }

  /** A response as the session sees it. */
  datatype Response = Response(url: string, status: int, request: Request, content: seq<bv8>, text: string)

  /** The fields of the access log line. */
  datatype AccessRecord = AccessRecord(verb: string, scheme: string, host: string, path: string,
                                       contentSize: nat, userAgent: string, status: int)

  datatype LogLine = Info(record: AccessRecord) | Failure(message: string)

  /** The access line as `_log_msg_fmt` renders it. */
  function Message(r: AccessRecord): string {
    r.verb + ", " + r.scheme + ", " + r.host + ", " + r.path + ", " + IntToStr(r.contentSize) + ", " +
    r.userAgent + ", " + IntToStr(r.status)
  }

  /** `log_response`: the access line, then the response body when the
      status is at least 300 and the session is verbose. The host is field 2
      of `url.split('/')`, so a URL with fewer than two slashes raises
      IndexError before anything is logged. */
  function LogResponse(f: Flavour, verbose: bool, resp: Response): Result<seq<LogLine>> {
    var fields := Split(resp.url, "/");
    if |fields| < 3 then Err(IndexError)
    else
      var record := AccessRecord(resp.request.verb, Split(resp.url, "://")[0], fields[2], resp.request.pathUrl,
                                 |resp.content|, UserAgent(resp.request.headers), resp.status);
      Ok([Info(record)] + if resp.status >= 300 && verbose then [Failure(ErrorLabel(f) + resp.text)] else [])
  }

  lemma CountAfterFirst(s: string, c: char, j: nat)
    requires j < |s| && s[j] == c && c !in s[..j]
    ensures multiset(s)[c] == multiset(s[j + 1..])[c] + 1
  {
    assert s[j..] == [c] + s[j + 1..];
    assert s == s[..j] + s[j..];
  }

  /** Splitting at the first `c` takes one `c` out of `s`. */
  lemma SplitCountStep(s: string, c: char, j: nat)
    requires FindFrom(s, [c], 0) == Some(j)
    ensures j < |s| && Split(s, [c]) == [s[..j]] + Split(s[j + 1..], [c])
    ensures multiset(s)[c] == multiset(s[j + 1..])[c] + 1
  {
    SplitStep(s, [c], j);
    forall k | 0 <= k < j
      ensures s[..j][k] != c
    {
      OccursChar(s, c, k);
    }
    OccursChar(s, c, j);
    CountAfterFirst(s, c, j);
  }

  /** `s.split(c)` has one more field than `s` has occurrences of `c`. */
  lemma {:induction false} SplitCount(s: string, c: char)
    ensures |Split(s, [c])| == multiset(s)[c] + 1
    decreases |s|
  {
    match FindFrom(s, [c], 0)
    case None =>
      forall k | 0 <= k < |s|
        ensures s[k] != c
      {
        OccursChar(s, c, k);
      }
    case Some(j) =>
      SplitCountStep(s, c, j);
      SplitCount(s[j + 1..], c);
  }

  /** When `sep` occurs, `s` is the first field, `sep`, and the rest, whose
      fields are the remaining ones. */
  lemma SplitHead(s: string, sep: string)
    requires |sep| > 0 && |Split(s, sep)| >= 2
    ensures var n := |Split(s, sep)[0]| + |sep|;
            n <= |s| && s == Split(s, sep)[0] + sep + s[n..] && Split(s, sep)[1..] == Split(s[n..], sep)
  {
    match FindFrom(s, sep, 0)
    case None =>
    case Some(j) =>
      SplitStep(s, sep, j);
      assert s == s[..j] + s[j..j + |sep|] + s[j + |sep|..];
  }

  /** No field of `url.split('/')` holds a `/`. */
  lemma FieldNoSlash(url: string, k: nat)
    requires k < |Split(url, "/")|
    ensures '/' !in Split(url, "/")[k]
  {
    SplitFieldsFree(url, "/");
    ContainsChar(Split(url, "/")[k], '/');
  }

  /** The host is the third `/`-field of the URL: the URL is the first two
      fields, each followed by `/`, then a rest that starts with the
      host. */
  lemma ThirdField(url: string)
    requires |Split(url, "/")| >= 3
    ensures var fs := Split(url, "/");
            var i := |fs[0]| + |fs[1]| + 2;
            i <= |url| && url == fs[0] + "/" + fs[1] + "/" + url[i..] && StartsWith(url[i..], fs[2])
  {
    var fs := Split(url, "/");
    SplitHead(url, "/");
    var r1 := url[|fs[0]| + 1..];
    SplitHead(r1, "/");
    var r2 := r1[|fs[1]| + 1..];
    FirstField(r2, "/");
    assert r2 == url[|fs[0]| + |fs[1]| + 2..];
  }

  /** `log_response` succeeds exactly when the URL has two slashes; it then
      logs one access line with the response's method, path, size, status
      and user agent (`"Unknown"` when the request sent none), followed by
      the labelled body exactly when the status is at least 300 and the
      session is verbose. */
  lemma LogResponseSpec(f: Flavour, verbose: bool, resp: Response)
    ensures LogResponse(f, verbose, resp).Ok? <==> multiset(resp.url)['/'] >= 2
    ensures LogResponse(f, verbose, resp).Ok? ==>
              var lines := LogResponse(f, verbose, resp).value;
              var r := lines[0].record;
              var headers := resp.request.headers;
              |lines| == (if resp.status >= 300 && verbose then 2 else 1) && lines[0].Info? &&
              r.verb == resp.request.verb && r.path == resp.request.pathUrl &&
              r.status == resp.status && r.contentSize == |resp.content| &&
              (r.userAgent == if "user-agent" in headers then headers["user-agent"] else "Unknown") &&
              (|lines| == 2 ==> lines[1] == Failure(ErrorLabel(f) + resp.text))
  {
    SplitCount(resp.url, '/');
    UserAgentKey();
  }

  /** The logged scheme is the text before the first `://` and the logged
      host the text after the second `/`, up to the next `/` or the end. */
  lemma LogResponseAddress(f: Flavour, verbose: bool, resp: Response)
    requires LogResponse(f, verbose, resp).Ok?
    ensures var r := LogResponse(f, verbose, resp).value[0].record;
            var url := resp.url;
            var fs := Split(url, "/");
            var i := |fs[0]| + |fs[1]| + 2;
            StartsWith(url, r.scheme) && !Contains(r.scheme, "://") &&
            (Contains(url, "://") ==> StartsWith(url, r.scheme + "://")) &&
            i <= |url| && url == fs[0] + "/" + fs[1] + "/" + url[i..] && '/' !in fs[0] + fs[1] &&
            StartsWith(url[i..], r.host) && '/' !in r.host
  {
    var fs := Split(resp.url, "/");
    FirstField(resp.url, "://");
    ThirdField(resp.url);
    FieldNoSlash(resp.url, 0);
    FieldNoSlash(resp.url, 1);
    FieldNoSlash(resp.url, 2);
  }

  /** The number of calls of `request` the retry loop makes from attempt
      `attempt` on: it stops at an accepted status or once `attempt`
      exceeds `retries`. */
  function AttemptsFrom(request: nat -> Response, codes: seq<int>, retries: int, attempt: nat): nat
    requires attempt >= 1
    decreases if attempt <= retries then retries - attempt + 1 else 0
  {
    if attempt <= retries && request(attempt - 1).status !in codes
    then AttemptsFrom(request, codes, retries, attempt + 1)
    else attempt
  }

  function Attempts(request: nat -> Response, codes: seq<int>, retries: int): nat {
    AttemptsFrom(request, codes, retries, 1)
  }

  lemma {:induction false} AttemptsFromSpec(request: nat -> Response, codes: seq<int>, retries: int, attempt: nat)
    requires attempt >= 1
    ensures var n := AttemptsFrom(request, codes, retries, attempt);
            attempt <= n && (n == attempt || n <= retries + 1) &&
            (forall k :: attempt - 1 <= k < n - 1 ==> request(k).status !in codes) &&
            (n <= retries ==> request(n - 1).status in codes)
    decreases if attempt <= retries then retries - attempt + 1 else 0
  {
    if attempt <= retries && request(attempt - 1).status !in codes {
      AttemptsFromSpec(request, codes, retries, attempt + 1);
    }
  }

  /** The retry policy: `request` is called at least once and at most
      `max_retries + 1` times (once when `max_retries <= 0`); every status
      but the last was refused; the loop stops early only at an accepted
      status, so a refused final status means all `max_retries + 1` calls
      were made. */
  lemma AttemptsSpec(request: nat -> Response, codes: seq<int>, retries: int)
    ensures var n := Attempts(request, codes, retries);
            1 <= n <= (if retries > 0 then retries else 0) + 1 &&
            (retries <= 0 ==> n == 1) &&
            (forall k :: 0 <= k < n - 1 ==> request(k).status !in codes) &&
            (n <= retries ==> request(n - 1).status in codes) &&
            (request(n - 1).status !in codes ==> n == (if retries > 0 then retries else 0) + 1)
  {
    AttemptsFromSpec(request, codes, retries, 1);
  }

  /** A single call is made exactly when retrying is off or the first
      status is accepted. */
  lemma OneAttempt(request: nat -> Response, codes: seq<int>, retries: int)
    ensures Attempts(request, codes, retries) == 1 <==> retries < 1 || request(0).status in codes
  {
    if retries >= 1 && request(0).status !in codes {
      AttemptsFromSpec(request, codes, retries, 2);
    }
  }

  /** A `BaseSession` of either flavour after `__init__`. */
  class BaseSession {
    const flavour: Flavour
    const retries: int
    const verbose: bool
    const poolConnections: int
    const poolMaxsize: int
    var resolveStatusCodes: seq<int>

    /** `__init__`: the adapter settings, the retry bound, verbosity, and the
        accepted codes: the defaults, then the extra codes in order. */
    constructor (flavour: Flavour, maxRetries: int, poolConnections: int, poolMaxsize: int,
                 resolveStatusCodes: Value, verbose: bool)
      ensures this.flavour == flavour && retries == maxRetries && this.verbose == verbose
      ensures this.poolConnections == poolConnections && this.poolMaxsize == poolMaxsize
      ensures this.resolveStatusCodes == DefaultCodes(flavour) + ExtraCodes(resolveStatusCodes)
    {
      this.flavour := flavour;
      retries := maxRetries;
      this.verbose := verbose;
      this.poolConnections := poolConnections;
      this.poolMaxsize := poolMaxsize;
      var codes := CollectCodes(flavour, resolveStatusCodes);
      this.resolveStatusCodes := codes;
    }

    /** `session_request` (http.py) / `_resolver` (sessionutils.py), behind
        every verb (`get`, `head`, `delete`, `patch`, `post`, `put`): the
        `k`-th call of the request yields `request(k)`. Returns the final
        response, the number of calls made and the lines logged for it. */
    method SessionRequest(request: nat -> Response) returns (r: Result<Response>, calls: nat, logged: seq<LogLine>)
      ensures calls == Attempts(request, resolveStatusCodes, retries) && calls >= 1
      ensures var log := LogResponse(flavour, verbose, request(calls - 1));
              (r.Ok? <==> log.Ok?) &&
              (r.Ok? ==> r.value == request(calls - 1) && logged == log.value) &&
              (r.Err? ==> r.error == IndexError && logged == [])
    {
      var attempt: nat := 1;
      var resp := request(0);
      while attempt <= retries && resp.status !in resolveStatusCodes
        invariant attempt >= 1 && resp == request(attempt - 1)
        invariant AttemptsFrom(request, resolveStatusCodes, retries, attempt) == Attempts(request, resolveStatusCodes, retries)
        decreases retries - attempt
      {
        resp := request(attempt);
        attempt := attempt + 1;
      }
      calls := attempt;
      var log := LogResponse(flavour, verbose, resp);
      if log.Err? {
        return Err(IndexError), calls, [];
      }
      return Ok(resp), calls, log.value;
    }
  }

  /** The parameters of `BaseSession.__init__` after `self`, and their
      defaults. */
  const SessionParams: seq<string> := ["max_retries", "pool_connections", "pool_maxsize",
                                       "resolve_status_codes", "verbose", "auth"]
  const SessionDefaults: seq<Value> := [Int(3), Int(16), Int(16), PyNone, Bool(false), PyNone]

  /** Python's binding of `BaseSession.__init__(*args, **kwargs)`: too many
      positional arguments, an unknown keyword, or a parameter given both
      positionally and by keyword raise TypeError. */
  function BindSession(args: seq<Value>, kwargs: map<string, Value>): (r: Result<seq<Value>>)
    ensures r.Ok? ==> |r.value| == 6
  {
    if |args| > 6 then Err(TypeError)
    else if exists key :: key in kwargs && key !in SessionParams then Err(TypeError)
    else if exists k :: 0 <= k < |args| && SessionParams[k] in kwargs then Err(TypeError)
    else Ok(seq(6, k requires 0 <= k < 6 =>
                  if k < |args| then args[k]
                  else if SessionParams[k] in kwargs then kwargs[SessionParams[k]]
                  else SessionDefaults[k]))
  }

  /** The six parameter names are pairwise different. */
  lemma SessionParamsDistinct()
    ensures forall i, j :: 0 <= i < j < 6 ==> SessionParams[i] != SessionParams[j]
  {
    assert SessionParams[1][5] != SessionParams[2][5];
  }

  /** Binding raises TypeError exactly for more than six positional
      arguments, an unknown keyword, or a parameter given both ways.
      Otherwise the positional arguments fill the first parameters, every
      keyword lands on its parameter, and the remaining parameters take
      their defaults. */
  lemma BindSessionSpec(args: seq<Value>, kwargs: map<string, Value>)
    ensures BindSession(args, kwargs).Ok? <==>
              |args| <= 6 && (forall key :: key in kwargs ==> key in SessionParams) &&
              (forall k :: 0 <= k < |args| ==> SessionParams[k] !in kwargs)
    ensures BindSession(args, kwargs).Err? ==> BindSession(args, kwargs).error == TypeError
    ensures BindSession(args, kwargs).Ok? ==>
              var b := BindSession(args, kwargs).value;
              b[..|args|] == args &&
              (forall k :: 0 <= k < 6 && SessionParams[k] in kwargs ==> b[k] == kwargs[SessionParams[k]]) &&
              (forall k :: |args| <= k < 6 && SessionParams[k] !in kwargs ==> b[k] == SessionDefaults[k])
  {
  }

  /** `BaseSession()` binds the defaults `3, 16, 16, None, False, None`. */
  lemma BindDefaults()
    ensures BindSession([], map[]) == Ok([Int(3), Int(16), Int(16), PyNone, Bool(false), PyNone])
  {
    var b := BindSession([], map[]);
    assert b.Ok?;
    assert b.value == SessionDefaults;
  }

  /** Passing `v` as the next positional argument binds what passing it as
      that parameter's keyword binds, error or values. */
  lemma BindPositionalOrKeyword(args: seq<Value>, kwargs: map<string, Value>, v: Value)
    requires |args| < 6 && SessionParams[|args|] !in kwargs
    ensures BindSession(args + [v], kwargs) == BindSession(args, kwargs[SessionParams[|args|] := v])
  {
    SessionParamsDistinct();
    var k := |args|;
    var pa := args + [v];
    var kw := kwargs[SessionParams[k] := v];
    BindSessionSpec(pa, kwargs);
    BindSessionSpec(args, kw);
    assert forall j :: 0 <= j < k ==> pa[j] == args[j];
    assert forall j :: 0 <= j < 6 && j != k ==> (SessionParams[j] in kw <==> SessionParams[j] in kwargs);
    assert SessionParams[k] in SessionParams;
    var p := BindSession(pa, kwargs);
    var q := BindSession(args, kw);
    assert p.Ok? <==> q.Ok?;
    if p.Ok? {
      forall j | 0 <= j < 6 ensures p.value[j] == q.value[j] {
        if j < k {
          assert p.value[j] == p.value[..|pa|][j] == pa[j];
          assert q.value[j] == q.value[..k][j] == args[j];
        } else if j == k {
          assert p.value[j] == p.value[..|pa|][j] == v;
        } else if SessionParams[j] in kwargs {
          assert kw[SessionParams[j]] == kwargs[SessionParams[j]];
        }
      }
      assert p.value == q.value;
    }
  }

  /** `BaseAsyncSession.__init__` as written (http.py:166-170): the pool
      sizes default to 32 when they are not keyword arguments, even when
      they were passed positionally. */
  function AsyncBindAsWritten(args: seq<Value>, kwargs: map<string, Value>): Result<seq<Value>> {
    var kw1 := if "pool_maxsize" in kwargs then kwargs else kwargs["pool_maxsize" := Int(32)];
    var kw2 := if "pool_connections" in kw1 then kw1 else kw1["pool_connections" := Int(32)];
    BindSession(args, kw2)
  }

  /** `BaseAsyncSession(3, 16)` raises TypeError (two values for
      `pool_connections`) although `BaseSession(3, 16)` is accepted. */
  lemma AsyncPositionalPoolRaises()
    ensures BindSession([Int(3), Int(16)], map[]).Ok?
    ensures AsyncBindAsWritten([Int(3), Int(16)], map[]) == Err(TypeError)
  {
    var kw: map<string, Value> := map["pool_maxsize" := Int(32), "pool_connections" := Int(32)];
    var empty: map<string, Value> := map[];
    assert (empty["pool_maxsize" := Int(32)])["pool_connections" := Int(32)] == kw;
    assert SessionParams[1] in kw;
  }

  /** `BaseAsyncSession.__init__` as intended: a pool size defaults to 32
      only when the caller gave it neither by keyword nor by position. */
  function AsyncBind(args: seq<Value>, kwargs: map<string, Value>): Result<seq<Value>> {
    BindSession(args, AsyncKwargs(args, kwargs))
  }

  /** The keywords the intended `BaseAsyncSession.__init__` passes on. */
  function AsyncKwargs(args: seq<Value>, kwargs: map<string, Value>): map<string, Value> {
    var kw1 := if "pool_maxsize" in kwargs || |args| > 2 then kwargs else kwargs["pool_maxsize" := Int(32)];
    if "pool_connections" in kw1 || |args| > 1 then kw1 else kw1["pool_connections" := Int(32)]
  }

  /** The intended defaults never raise: `BaseAsyncSession(...)` binds
      exactly when `BaseSession(...)` does. */
  lemma AsyncBindOk(args: seq<Value>, kwargs: map<string, Value>)
    ensures AsyncBind(args, kwargs).Ok? <==> BindSession(args, kwargs).Ok?
  {
    if |args| <= 6 {
      var kw := AsyncKwargs(args, kwargs);
      assert AsyncBind(args, kwargs) == BindSession(args, kw);
      assert SessionParams[1] == "pool_connections" && SessionParams[2] == "pool_maxsize";
      if exists k :: 0 <= k < |args| && SessionParams[k] in kw {
        var k :| 0 <= k < |args| && SessionParams[k] in kw;
        assert SessionParams[k] in kwargs;
      }
      if exists key :: key in kw && key !in SessionParams {
        var key :| key in kw && key !in SessionParams;
        assert key in kwargs;
      }
    }
  }

  /** When it binds, `BaseAsyncSession(...)` has the values `BaseSession(...)`
      would have, except that a pool size the caller did not give is 32. */
  lemma AsyncBindValues(args: seq<Value>, kwargs: map<string, Value>)
    requires BindSession(args, kwargs).Ok?
    ensures AsyncBind(args, kwargs).Ok?
    ensures var a := AsyncBind(args, kwargs).value;
            var b := BindSession(args, kwargs).value;
            a[0] == b[0] && a[3..] == b[3..] &&
            a[1] == (if |args| > 1 || "pool_connections" in kwargs then b[1] else Int(32)) &&
            a[2] == (if |args| > 2 || "pool_maxsize" in kwargs then b[2] else Int(32))
  {
    AsyncBindOk(args, kwargs);
    assert AsyncBind(args, kwargs) == BindSession(args, AsyncKwargs(args, kwargs));
    assert SessionParams[1] == "pool_connections" && SessionParams[2] == "pool_maxsize";
  }

  /** A verb of `BaseAsyncSession` (http.py:173-243) calls
      `requests.Session`'s verb directly: one call, no retry, no log
      line. */
  function AsyncVerb(request: nat -> Response): (Response, nat) {
    (request(0), 1)
  }

  /** The async verbs retry less than `BaseSession`'s: where the resolver
      would retry, the async verb does not. */
  lemma AsyncVerbSingleAttempt(request: nat -> Response, codes: seq<int>, retries: int)
    ensures AsyncVerb(request).1 <= Attempts(request, codes, retries)
    ensures AsyncVerb(request).1 == Attempts(request, codes, retries) <==> retries < 1 || request(0).status in codes
  {
    OneAttempt(request, codes, retries);
    AttemptsSpec(request, codes, retries);
  }

  /** Text strings of the final page containing `pattern`, as a set: the
      result of `list(set(matches))` has no duplicates and no order. */
  function Matches(strings: seq<string>, pattern: string): (r: set<string>)
  {
    set t | t in strings && Contains(t, pattern)
  }

  /** `urlscraper(url, pattern)` without `regex` (http.py:344-352): a new
      `BaseSession` fetches the page through the resolver; `strings` are the
      stripped strings of the final page. A status other than 200 yields no
      matches. */
  method UrlScraper(request: nat -> Response, strings: seq<string>, pattern: string) returns (r: Result<set<string>>)
    ensures var n := Attempts(request, DefaultCodes(Http), 3);
            var final := request(n - 1);
            (r.Ok? <==> LogResponse(Http, false, final).Ok?) &&
            (r.Ok? ==> r.value == if final.status == 200 then Matches(strings, pattern) else {})
  {
    var session := new BaseSession(Http, 3, 16, 16, PyNone, false);
    assert session.resolveStatusCodes == DefaultCodes(Http) + [];
    var resp, _, _ := session.SessionRequest(request);
    if resp.Err? {
      return Err(resp.error);
    }
    if resp.value.status == 200 {
      return Ok(Matches(strings, pattern));
    }
    return Ok({});
  }
}

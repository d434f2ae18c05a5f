/** `modutils/stdutils.py` (repeated in `modutils/__init__.py`):
    `response_to_str`, which describes a response by its status code, and
    the text `echo` prints for an object. */
module StdUtils {
  import opened Base
  import opened PyValues
  import opened Text

  /** The parts of a response `response_to_str` reads. `json` is
      `dumps(response.json(), indent=4)`, or `None` when the body is not
      JSON. */
  datatype Response = Response(status: int, url: string, text: string, json: Option<string>)

  const SuccessCodes: seq<int> := [200, 201, 202, 203, 204, 205, 206, 207, 208, 226]

  /** The branch of `response_to_str` a status code takes. */
  datatype Kind = Body | Permissions | NotFound | BadRequest | ServerError | Other

  /** The first matching branch, in the order the code tests them. */
  function Classify(status: int): Kind {
    if status in SuccessCodes then Body
    else if status in [401, 403] then Permissions
    else if status == 404 then NotFound
    else if status == 400 then BadRequest
    else if status >= 500 then ServerError
    else Other
  }

  /** Each branch is taken for exactly these codes: the branches are
      disjoint, so their order only matters where the code says so. */
  lemma ClassifySpec(status: int)
    ensures Classify(status) == Body <==> status in SuccessCodes
    ensures Classify(status) == Permissions <==> status == 401 || status == 403
    ensures Classify(status) == NotFound <==> status == 404
    ensures Classify(status) == BadRequest <==> status == 400
    ensures Classify(status) == ServerError <==> status >= 500
    ensures Classify(status) == Other <==>
              status < 500 && status !in SuccessCodes && status !in [400, 401, 403, 404]
  {
  }

  /** Every 1xx and 3xx code, and every 4xx code but 400, 401, 403 and 404,
      is reported generically. */
  lemma OtherCodes(status: int)
    requires 100 <= status < 200 || 300 <= status < 400 || (400 <= status < 500 && status !in [400, 401, 403, 404])
    ensures Classify(status) == Other
  {
  }

  function Code(status: int): string {
    "(" + IntToStr(status) + ")"
  }

  predicate EndsWith(s: string, suffix: string) {
    |suffix| <= |s| && s[|s| - |suffix|..] == suffix
  }

  lemma EndsWithAppend(prefix: string, suffix: string)
    ensures EndsWith(prefix + suffix, suffix)
  {
    assert (prefix + suffix)[|prefix|..] == suffix;
  }

  lemma EndsWithExtend(prefix: string, s: string, suffix: string)
    requires EndsWith(s, suffix)
    ensures EndsWith(prefix + s, suffix)
  {
    assert (prefix + s)[|prefix + s| - |suffix|..] == s[|s| - |suffix|..];
  }

  lemma StartsWithAppend(prefix: string, rest: string)
    ensures StartsWith(prefix + rest, prefix)
  {
    assert (prefix + rest)[..|prefix|] == prefix;
  }

  /** What follows the code in parentheses for a response that is not a
      success. */
  function Detail(r: Response): string {
    match Classify(r.status)
    case Permissions => "Invalid permissions for requests: " + r.url
    case NotFound => "Unable to find requested resource for: " + r.url
    case BadRequest => "Bad request to: " + r.url
    case ServerError => "Server error - " + r.url + " - " + IntToStr(r.status) + " - " + r.text
    case _ => r.text
  }

  /** `response_to_str`. */
  function ResponseToStr(r: Response): string {
    if Classify(r.status) == Body then (if r.json.Some? then r.json.value else r.text)
    else Code(r.status) + " " + Detail(r)
  }

  /** A success gives the body, pretty-printed when it is JSON; every
      other response is described starting with its code in
      parentheses. */
  lemma ResponseToStrSpec(r: Response)
    ensures r.status in SuccessCodes ==> ResponseToStr(r) == (if r.json.Some? then r.json.value else r.text)
    ensures r.status !in SuccessCodes ==> StartsWith(ResponseToStr(r), Code(r.status) + " ")
  {
    if r.status !in SuccessCodes {
      StartsWithAppend(Code(r.status) + " ", Detail(r));
    }
  }

  /** The error descriptions end with the URL asked for; the server-error
      and generic ones with the response text. */
  lemma ResponseDetail(r: Response)
    ensures var k := Classify(r.status); k.Permissions? || k.NotFound? || k.BadRequest? ==> EndsWith(ResponseToStr(r), r.url)
    ensures var k := Classify(r.status); k.ServerError? || k.Other? ==> EndsWith(ResponseToStr(r), r.text)
  {
    var c := Code(r.status) + " ";
    match Classify(r.status)
    case Body =>
    case Permissions =>
      EndsWithAppend("Invalid permissions for requests: ", r.url);
      EndsWithExtend(c, Detail(r), r.url);
    case NotFound =>
      EndsWithAppend("Unable to find requested resource for: ", r.url);
      EndsWithExtend(c, Detail(r), r.url);
    case BadRequest =>
      EndsWithAppend("Bad request to: ", r.url);
      EndsWithExtend(c, Detail(r), r.url);
    case ServerError =>
      EndsWithAppend("Server error - " + r.url + " - " + IntToStr(r.status) + " - ", r.text);
      EndsWithExtend(c, Detail(r), r.text);
    case Other =>
      EndsWithAppend(c, r.text);
  }

  /** What `echo` may be given: a value or a response. */
  datatype Content = Val(v: Value) | Resp(r: Response)

  /** `str` of every element, when all have a modelled `str`. */
  function StrAll(xs: seq<Value>): Option<seq<string>> {
    if forall i :: 0 <= i < |xs| ==> !HasDict(xs[i])
    then Some(seq(|xs|, i requires 0 <= i < |xs| => PyStr(xs[i]).value))
    else None
  }

  /** The text `echo` prints: a list or tuple is its elements' `str` joined
      by `delimiter`, a dict its JSON dump (`dumps`), a response its
      `response_to_str`, anything else its `str`; a truthy `color` wraps
      it as `fg(color) + text + RESET`. `None` where the text depends on a
      dict's key order (an element holding a dict). */
  function EchoText(content: Content, delimiter: string, color: Option<string>,
                    dumps: Value -> string, fg: string -> string, reset: string): Option<string>
  {
    var plain :=
      match content
      case Resp(r) => Some(ResponseToStr(r))
      case Val(v) =>
        if v.List? || v.Tuple? then
          match StrAll(v.items)
          case None => None
          case Some(parts) => Some(Join(parts, delimiter))
        else if v.Dict? then Some(dumps(v))
        else PyStr(v);
    match plain
    case None => None
    case Some(t) => if color.Some? && color.value != "" then Some(fg(color.value) + t + reset) else Some(t)
  }

  /** A list of strings is printed joined by the delimiter; when no string
      holds a one-character delimiter, splitting the printed text at it
      gives the list back. Without a color nothing is added. */
  lemma EchoStrings(items: seq<string>, delimiter: char, dumps: Value -> string, fg: string -> string, reset: string)
    requires |items| >= 1 && forall i :: 0 <= i < |items| ==> delimiter !in items[i]
    ensures var shown := EchoText(Val(List(seq(|items|, i requires 0 <= i < |items| => Str(items[i])))), [delimiter],
                                  None, dumps, fg, reset);
            shown == Some(Join(items, [delimiter])) && Split(shown.value, [delimiter]) == items
  {
    var xs := seq(|items|, i requires 0 <= i < |items| => Str(items[i]));
    assert forall i :: 0 <= i < |xs| ==> !HasDict(xs[i]);
    var strs := seq(|xs|, i requires 0 <= i < |xs| => PyStr(xs[i]).value);
    assert forall i :: 0 <= i < |xs| ==> strs[i] == items[i];
    assert strs == items;
    assert StrAll(xs) == Some(strs);
    JoinSplit(items, delimiter);
  }

  /** A truthy color wraps the uncolored text; an empty or absent one
      leaves it as it is. */
  lemma EchoColor(content: Content, delimiter: string, color: string,
                  dumps: Value -> string, fg: string -> string, reset: string)
    ensures var plain := EchoText(content, delimiter, None, dumps, fg, reset);
            var shown := EchoText(content, delimiter, Some(color), dumps, fg, reset);
            shown.Some? == plain.Some? &&
            (shown.Some? ==> shown.value == if color == "" then plain.value else fg(color) + plain.value + reset)
  {
  }

  /** A string is printed as it is, a number as its decimal digits and a
      response as `response_to_str` describes it. */
  lemma EchoScalars(s: string, n: int, r: Response, dumps: Value -> string, fg: string -> string, reset: string)
    ensures EchoText(Val(Str(s)), "\n", None, dumps, fg, reset) == Some(s)
    ensures EchoText(Val(Int(n)), "\n", None, dumps, fg, reset) == Some(IntToStr(n))
    ensures EchoText(Resp(r), "\n", None, dumps, fg, reset) == Some(ResponseToStr(r))
  {
  }
}

// The GitLab API client: URL construction from path templates, the mapping
// of response status codes to client errors, and the unrolling of paginated
// listings. The HTTP function is a parameter, as it is in the client.
module GitLabClient {
  import opened Wrappers
  import opened Text

  /** `MAX_PER_PAGE`. */
  const MaxPerPage := 100

  datatype Verb = Get | Post | Delete

  /** A value in a query-parameter dictionary. */
  datatype Param = PStr(s: string) | PInt(i: int) | PNone

  /** What the client hands to the HTTP function: verb, URL, `params` and `data`. */
  datatype Request = Request(verb: Verb, url: string, params: Option<map<string, Param>>, data: Option<Json>)

  /**
   * What the HTTP function returns: the status code, the raw content as the
   * client prints it, the decoded JSON body (`None` when it does not decode)
   * and the parsed `Link` header.
   */
  datatype Response = Response(status: int, content: string, body: Option<Json>, links: map<string, map<string, string>>)

  /** `GitLabClientInvalidToken` and `GitLabClientRequestError`. */
  datatype ClientError =
    | InvalidToken(message: string)
    | RequestError(response: Response, message: string)

  datatype Client = Client(host: string, accessToken: Option<string>)

  /** The HTTP function the client was built with. */
  type Http = Request -> Response

  // ---------------------------------------------------------------------
  // Path templates and `str.format`
  // ---------------------------------------------------------------------

  /** Why `str.format` with keyword arguments only fails. */
  datatype FormatError =
    | KeyError(key: string)  // a named field with no argument
    | IndexError             // an automatic or numbered field: there are no positional arguments
    | ValueError             // a single or unbalanced brace
    | Unsupported            // a field with an attribute, an index, a conversion or a format spec

  /** Characters that make a field more than a plain keyword lookup. */
  const Compound := {'.', '[', '!', ':'}

  function Prepend(s: string, r: Result<string, FormatError>): (q: Result<string, FormatError>)
    ensures q.Err? <==> r.Err?
    ensures r.Err? ==> q.error == r.error
    ensures r.Ok? ==> q.value == s + r.value
  {
    match r
    case Ok(v) => Ok(s + v)
    case Err(e) => Err(e)
  }

  predicate AllDigits(s: string)
  {
    forall k :: 0 <= k < |s| ==> '0' <= s[k] <= '9'
  }

  /** Looking up one replacement field by its name. */
  function FieldValue(name: string, args: map<string, string>, rest: Result<string, FormatError>): Result<string, FormatError>
  {
    if exists k :: 0 <= k < |name| && name[k] in Compound then Err(Unsupported)
    else if '{' in name then Err(ValueError)
    else if name == [] || AllDigits(name) then Err(IndexError)
    else if name !in args then Err(KeyError(name))
    else Prepend(args[name], rest)
  }

  /** `t.format(**args)`: doubled braces stand for one, `{name}` for `args[name]`. */
  function Format(t: string, args: map<string, string>): Result<string, FormatError>
    decreases |t|
  {
    if t == [] then Ok([])
    else if t[0] == '{' && |t| > 1 && t[1] == '{' then Prepend(['{'], Format(t[2..], args))
    else if t[0] == '{' then
      if '}' !in t[1..] then Err(ValueError)
      else
        var j := FirstIndex(t[1..], '}');
        FieldValue(t[1..j + 1], args, Format(t[j + 2..], args))
    else if t[0] == '}' && |t| > 1 && t[1] == '}' then Prepend(['}'], Format(t[2..], args))
    else if t[0] == '}' then Err(ValueError)
    else Prepend([t[0]], Format(t[1..], args))
  }

  /** A piece of a template: literal text, or a placeholder for a keyword argument. */
  datatype Piece = Lit(text: string) | Field(name: string)

  /** A placeholder name `str.format` looks up as a keyword. */
  predicate PlainName(n: string)
  {
    && n != [] && !AllDigits(n) && '{' !in n && '}' !in n
    && forall k :: 0 <= k < |n| ==> n[k] !in Compound
  }

  predicate PlainPieces(ps: seq<Piece>)
  {
    forall k :: 0 <= k < |ps| && ps[k].Field? ==> PlainName(ps[k].name)
  }

  /** Literal text written as a template: each brace doubled. */
  function Escape(s: string): string
  {
    if s == [] then []
    else if s[0] == '{' || s[0] == '}' then [s[0], s[0]] + Escape(s[1..])
    else [s[0]] + Escape(s[1..])
  }

  function RenderPiece(p: Piece): string
  {
    match p
    case Lit(text) => Escape(text)
    case Field(name) => ['{'] + name + ['}']
  }

  /** The template text that stands for a sequence of pieces. */
  function Render(ps: seq<Piece>): string
  {
    if ps == [] then [] else RenderPiece(ps[0]) + Render(ps[1..])
  }

  /** The reference meaning of a template: literals kept, each field replaced by its argument. */
  function Fill(ps: seq<Piece>, args: map<string, string>): Result<string, FormatError>
  {
    if ps == [] then Ok([])
    else match ps[0]
      case Lit(text) => Prepend(text, Fill(ps[1..], args))
      case Field(name) => if name in args then Prepend(args[name], Fill(ps[1..], args)) else Err(KeyError(name))
  }

  lemma PrependPrepend(a: string, b: string, r: Result<string, FormatError>)
    ensures Prepend(a, Prepend(b, r)) == Prepend(a + b, r)
  {
    if r.Ok? {
      assert a + (b + r.value) == (a + b) + r.value;
    }
  }

  lemma PrependEmpty(r: Result<string, FormatError>)
    ensures Prepend([], r) == r
  {
    if r.Ok? {
      assert [] + r.value == r.value;
    }
  }

  /** A doubled brace formats to one. */
  lemma FormatBraceStep(b: char, tail: string, args: map<string, string>)
    requires b == '{' || b == '}'
    ensures Format([b, b] + tail, args) == Prepend([b], Format(tail, args))
  {
    assert ([b, b] + tail)[2..] == tail;
  }

  /** Any other character formats to itself. */
  lemma FormatCharStep(ch: char, tail: string, args: map<string, string>)
    requires ch != '{' && ch != '}'
    ensures Format([ch] + tail, args) == Prepend([ch], Format(tail, args))
  {
    assert ([ch] + tail)[1..] == tail;
  }

  /** Escaped literal text formats back to itself. */
  lemma {:induction false} FormatEscape(s: string, rest: string, args: map<string, string>)
    ensures Format(Escape(s) + rest, args) == Prepend(s, Format(rest, args))
    decreases |s|
  {
    if s == [] {
      assert Escape(s) + rest == rest;
      PrependEmpty(Format(rest, args));
    } else {
      var tail := Escape(s[1..]) + rest;
      FormatEscape(s[1..], rest, args);
      PrependPrepend([s[0]], s[1..], Format(rest, args));
      assert [s[0]] + s[1..] == s;
      if s[0] == '{' || s[0] == '}' {
        assert Escape(s) + rest == [s[0], s[0]] + tail;
        FormatBraceStep(s[0], tail, args);
      } else {
        assert Escape(s) + rest == [s[0]] + tail;
        FormatCharStep(s[0], tail, args);
      }
    }
  }

  lemma {:induction false} FirstCloseAfterName(n: string, rest: string)
    requires '}' !in n
    ensures '}' in n + ['}'] + rest && FirstIndex(n + ['}'] + rest, '}') == |n|
  {
    var s := n + ['}'] + rest;
    assert s[|n|] == '}';
    if n != [] {
      assert s[0] == n[0] && s[1..] == n[1..] + ['}'] + rest;
      FirstCloseAfterName(n[1..], rest);
    }
  }

  /** A plain placeholder formats to its argument. */
  lemma FormatField(n: string, rest: string, args: map<string, string>)
    requires PlainName(n)
    ensures Format(['{'] + n + ['}'] + rest, args)
         == if n in args then Prepend(args[n], Format(rest, args)) else Err(KeyError(n))
  {
    var t := ['{'] + n + ['}'] + rest;
    assert t[1..] == n + ['}'] + rest;
    FirstCloseAfterName(n, rest);
    assert t[1] == n[0];
    var j := FirstIndex(t[1..], '}');
    assert t[1..j + 1] == n;
    assert t[j + 2..] == rest;
    assert !exists k :: 0 <= k < |n| && n[k] in Compound;
  }

  /**
   * A template written from pieces with plain placeholders formats exactly as
   * its pieces say.
   */
  lemma {:induction false} FormatRender(ps: seq<Piece>, args: map<string, string>)
    requires PlainPieces(ps)
    ensures Format(Render(ps), args) == Fill(ps, args)
  {
    if ps == [] {
    } else {
      assert PlainPieces(ps[1..]) by {
        forall k | 0 <= k < |ps[1..]| && ps[1..][k].Field?
          ensures PlainName(ps[1..][k].name)
        {
          assert ps[1..][k] == ps[k + 1];
        }
      }
      FormatRender(ps[1..], args);
      var rest := Render(ps[1..]);
      assert Render(ps) == RenderPiece(ps[0]) + rest;
      match ps[0]
      case Lit(text) =>
        FormatEscape(text, rest, args);
      case Field(name) =>
        assert PlainName(ps[0].name);
        FormatField(name, rest, args);
        assert RenderPiece(ps[0]) + rest == ['{'] + name + ['}'] + rest;
    }
  }

  // ---------------------------------------------------------------------
  // `_make_url`
  // ---------------------------------------------------------------------

  const Https := "https://"
  const ApiV4 := "/api/v4/"

  /** `https://{host}/api/v4/`. */
  function ApiRoot(host: string): string
  {
    Https + host + ApiV4
  }

  /** The keyword arguments after `quote_plus`. */
  function Quoted(args: map<string, string>, quote: string -> string): (q: map<string, string>)
    ensures q.Keys == args.Keys
    ensures forall k :: k in args ==> q[k] == quote(args[k])
  {
    map k | k in args :: quote(args[k])
  }

  /**
   * `_make_url`: the API root followed by the path, stripped of leading
   * slashes and formatted with the quoted arguments.
   */
  function MakeUrl(c: Client, path: string, args: map<string, string>, quote: string -> string): Result<string, FormatError>
  {
    Prepend(ApiRoot(c.host), Format(LStrip(path, {'/'}), Quoted(args, quote)))
  }

  /** Leading slashes on the path make no difference. */
  lemma LeadingSlashesIgnored(c: Client, path: string, args: map<string, string>, quote: string -> string)
    ensures MakeUrl(c, "/" + path, args, quote) == MakeUrl(c, path, args, quote)
  {
    assert ("/" + path)[1..] == path;
  }

  /** Every URL `_make_url` builds lies under the API root of the client's host. */
  lemma MakeUrlUnderApi(c: Client, path: string, args: map<string, string>, quote: string -> string)
    ensures MakeUrl(c, path, args, quote).Ok? ==> ApiRoot(c.host) <= MakeUrl(c, path, args, quote).value
  {
  }

  /** A template of pieces not starting with a slash gives the API root and its filled pieces. */
  lemma UrlOfPieces(c: Client, ps: seq<Piece>, args: map<string, string>, quote: string -> string)
    requires PlainPieces(ps)
    requires Render(ps) == [] || Render(ps)[0] != '/'
    ensures MakeUrl(c, Render(ps), args, quote) == Prepend(ApiRoot(c.host), Fill(ps, Quoted(args, quote)))
  {
    FormatRender(ps, Quoted(args, quote));
  }

  /** Characters a template's first piece of text must not start with for the shapes below. */
  const NotLeading := {'/', '{', '}'}

  lemma RenderStart(t: string, ps: seq<Piece>)
    requires t != [] && t[0] !in NotLeading
    ensures Render([Lit(t)] + ps) != [] && Render([Lit(t)] + ps)[0] == t[0]
  {
    assert ([Lit(t)] + ps)[0] == Lit(t);
  }

  lemma FillLit(t: string, ps: seq<Piece>, m: map<string, string>)
    ensures Fill([Lit(t)] + ps, m) == Prepend(t, Fill(ps, m))
  {
    assert ([Lit(t)] + ps)[1..] == ps;
  }

  lemma FillField(n: string, ps: seq<Piece>, m: map<string, string>)
    requires n in m
    ensures Fill([Field(n)] + ps, m) == Prepend(m[n], Fill(ps, m))
  {
    assert ([Field(n)] + ps)[1..] == ps;
  }

  lemma FillLast(t: string, m: map<string, string>)
    ensures Fill([Lit(t)], m) == Ok(t)
  {
    assert [Lit(t)][1..] == [];
    assert t + [] == t;
  }

  /** `_make_url` on a fixed path. */
  lemma UrlOfText(c: Client, a: string, args: map<string, string>, quote: string -> string)
    requires a != [] && a[0] !in NotLeading
    ensures MakeUrl(c, Render([Lit(a)]), args, quote) == Ok(ApiRoot(c.host) + a)
  {
    RenderStart(a, []);
    assert [Lit(a)] + [] == [Lit(a)];
    UrlOfPieces(c, [Lit(a)], args, quote);
    FillLast(a, Quoted(args, quote));
  }

  /** `_make_url` on a path with one placeholder between two pieces of text. */
  lemma UrlOfOneField(c: Client, a: string, x: string, b: string, args: map<string, string>, quote: string -> string)
    requires a != [] && a[0] !in NotLeading && PlainName(x) && x in args
    ensures MakeUrl(c, Render([Lit(a), Field(x), Lit(b)]), args, quote)
         == Ok(ApiRoot(c.host) + (a + (quote(args[x]) + b)))
  {
    var ps := [Lit(a), Field(x), Lit(b)];
    var m := Quoted(args, quote);
    RenderStart(a, ps[1..]);
    assert [Lit(a)] + ps[1..] == ps;
    assert PlainPieces(ps);
    UrlOfPieces(c, ps, args, quote);
    FillLast(b, m);
    FillField(x, [Lit(b)], m);
    assert [Field(x)] + [Lit(b)] == ps[1..];
    FillLit(a, ps[1..], m);
  }

  /** `_make_url` on a path with text, a placeholder, text and a placeholder. */
  lemma UrlOfTwoFields(c: Client, a: string, x: string, b: string, y: string, args: map<string, string>, quote: string -> string)
    requires a != [] && a[0] !in NotLeading && PlainName(x) && x in args && PlainName(y) && y in args
    ensures MakeUrl(c, Render([Lit(a), Field(x), Lit(b), Field(y)]), args, quote)
         == Ok(ApiRoot(c.host) + (a + (quote(args[x]) + (b + quote(args[y])))))
  {
    var ps := [Lit(a), Field(x), Lit(b), Field(y)];
    var m := Quoted(args, quote);
    RenderStart(a, ps[1..]);
    assert [Lit(a)] + ps[1..] == ps;
    assert PlainPieces(ps);
    UrlOfPieces(c, ps, args, quote);
    assert Fill([], m) == Ok([]);
    FillField(y, [], m);
    assert [Field(y)] + [] == [Field(y)];
    assert m[y] + [] == m[y];
    FillLit(b, [Field(y)], m);
    assert [Lit(b)] + [Field(y)] == ps[2..];
    FillField(x, ps[2..], m);
    assert [Field(x)] + ps[2..] == ps[1..];
    FillLit(a, ps[1..], m);
  }

  /** `_make_url` on a path with two placeholders, each between pieces of text. */
  lemma UrlOfTwoFieldsText(c: Client, a: string, x: string, b: string, y: string, d: string,
                           args: map<string, string>, quote: string -> string)
    requires a != [] && a[0] !in NotLeading && PlainName(x) && x in args && PlainName(y) && y in args
    ensures MakeUrl(c, Render([Lit(a), Field(x), Lit(b), Field(y), Lit(d)]), args, quote)
         == Ok(ApiRoot(c.host) + (a + (quote(args[x]) + (b + (quote(args[y]) + d)))))
  {
    var ps := [Lit(a), Field(x), Lit(b), Field(y), Lit(d)];
    var m := Quoted(args, quote);
    RenderStart(a, ps[1..]);
    assert [Lit(a)] + ps[1..] == ps;
    assert PlainPieces(ps);
    UrlOfPieces(c, ps, args, quote);
    FillLast(d, m);
    FillField(y, [Lit(d)], m);
    assert [Field(y)] + [Lit(d)] == ps[3..];
    FillLit(b, ps[3..], m);
    assert [Lit(b)] + ps[3..] == ps[2..];
    FillField(x, ps[2..], m);
    assert [Field(x)] + ps[2..] == ps[1..];
    FillLit(a, ps[1..], m);
  }

  // ---------------------------------------------------------------------
  // `_request`
  // ---------------------------------------------------------------------

  const Failed := "GitLab API request failed: "
  const CommaSpace := ", "
  const MessageKey := "message"
  const DescriptionKey := "error_description"
  const InvalidTokenMessage := "GitLab token invalid or missing, please go to your profile page on REANA and reconnect to GitLab."

  /** `f"{value}"` for a JSON value; lists and objects are rendered by `repr`. */
  function PyStr(j: Json, repr: Json -> string): string
  {
    match j
    case JStr(s) => s
    case JInt(i) => IntToString(i)
    case JBool(b) => if b then "True" else "False"
    case JNull => "None"
    case _ => repr(j)
  }

  /** What follows the status code in the error message. */
  function ErrorDetail(res: Response, repr: Json -> string): string
  {
    match res.body
    case Some(JObject(fields)) =>
      if MessageKey in fields then PyStr(fields[MessageKey], repr)
      else if DescriptionKey in fields then PyStr(fields[DescriptionKey], repr)
      else res.content
    case _ => res.content
  }

  function ErrorMessage(res: Response, repr: Json -> string): string
  {
    Failed + IntToString(res.status) + CommaSpace + ErrorDetail(res, repr)
  }

  /** `_request` after the HTTP call: a 401 or any other status of 400 and above is an error. */
  function CheckResponse(res: Response, repr: Json -> string): (r: Result<Response, ClientError>)
    ensures r.Ok? <==> res.status < 400
    ensures r.Ok? ==> r.value == res
    ensures res.status == 401 ==> r == Err(InvalidToken(InvalidTokenMessage))
    ensures res.status >= 400 && res.status != 401 ==> r.Err? && r.error.RequestError? && r.error.response == res
  {
    if res.status == 401 then Err(InvalidToken(InvalidTokenMessage))
    else if res.status >= 400 then Err(RequestError(res, ErrorMessage(res, repr)))
    else Ok(res)
  }

  /** `_request`: make the call, then check its status. */
  function Send(http: Http, req: Request, repr: Json -> string): Result<Response, ClientError>
  {
    CheckResponse(http(req), repr)
  }

  /** The message of a failed request names the status code first. */
  lemma ErrorMessageNamesStatus(res: Response, repr: Json -> string)
    requires res.status >= 400 && res.status != 401
    ensures var r := CheckResponse(res, repr);
      Failed + NatToString(res.status) + CommaSpace <= r.error.message
  {
  }

  /** A `message` field in the JSON body is preferred over everything else. */
  lemma MessageFieldPreferred(res: Response, repr: Json -> string, fields: map<string, Json>)
    requires res.status >= 400 && res.status != 401
    requires res.body == Some(JObject(fields)) && MessageKey in fields
    ensures CheckResponse(res, repr).error.message == Failed + NatToString(res.status) + CommaSpace + PyStr(fields[MessageKey], repr)
  {
  }

  /** Without `message`, an `error_description` field is used. */
  lemma DescriptionFieldNext(res: Response, repr: Json -> string, fields: map<string, Json>)
    requires res.status >= 400 && res.status != 401
    requires res.body == Some(JObject(fields)) && MessageKey !in fields && DescriptionKey in fields
    ensures CheckResponse(res, repr).error.message == Failed + NatToString(res.status) + CommaSpace + PyStr(fields[DescriptionKey], repr)
  {
  }

  /** A body that is not JSON, not an object, or has neither field gives the raw content. */
  lemma ContentOtherwise(res: Response, repr: Json -> string)
    requires res.status >= 400 && res.status != 401
    requires res.body.None? || !res.body.value.JObject?
          || (MessageKey !in res.body.value.fields && DescriptionKey !in res.body.value.fields)
    ensures CheckResponse(res, repr).error.message == Failed + NatToString(res.status) + CommaSpace + res.content
  {
  }

  // ---------------------------------------------------------------------
  // `from_k8s_secret` and the endpoints
  // ---------------------------------------------------------------------

  const TokenSecret := "gitlab_access_token"

  /** `from_k8s_secret`: the user's secrets, by name; without the token secret the token is invalid. */
  function FromSecret(secrets: map<string, string>, host: string): (r: Result<Client, ClientError>)
    ensures TokenSecret !in secrets <==> r == Err(InvalidToken(InvalidTokenMessage))
    ensures TokenSecret in secrets ==> r == Ok(Client(host, Some(secrets[TokenSecret])))
  {
    if TokenSecret !in secrets then Err(InvalidToken(InvalidTokenMessage))
    else Ok(Client(host, Some(secrets[TokenSecret])))
  }

  const AccessTokenKey := "access_token"
  const RefKey := "ref"
  const PageKey := "page"
  const PerPageKey := "per_page"
  const StateKey := "state"
  const DescriptionParam := "description"
  const NameKey := "name"

  const ProjectArg := "project"
  const FilePathArg := "file_path"
  const HookIdArg := "hook_id"
  const CommitShaArg := "commit_sha"

  const ProjectsPart := "projects/"
  const Projects := "projects"
  const FilesPart := "/repository/files/"
  const RawPart := "/raw"
  const HooksPart := "/hooks"
  const HooksSlash := "/hooks/"
  const StatusesPart := "/statuses/"
  const UserPart := "user"
  const OAuthPart := "/oauth/token"

  const FilePieces := [Lit(ProjectsPart), Field(ProjectArg), Lit(FilesPart), Field(FilePathArg), Lit(RawPart)]
  const ProjectsPieces := [Lit(Projects)]
  const HooksPieces := [Lit(ProjectsPart), Field(ProjectArg), Lit(HooksPart)]
  const HookPieces := [Lit(ProjectsPart), Field(ProjectArg), Lit(HooksSlash), Field(HookIdArg)]
  const StatusPieces := [Lit(ProjectsPart), Field(ProjectArg), Lit(StatusesPart), Field(CommitShaArg)]
  const UserPieces := [Lit(UserPart)]

  function TokenParam(c: Client): Param
  {
    if c.accessToken.Some? then PStr(c.accessToken.value) else PNone
  }

  function OptParam(s: Option<string>): Param
  {
    if s.Some? then PStr(s.value) else PNone
  }

  function OptIntParam(i: Option<int>): Param
  {
    if i.Some? then PInt(i.value) else PNone
  }

  lemma PlainProject()
    ensures PlainName(ProjectArg)
  {
    assert ProjectArg[0] == 'p';
  }

  lemma PlainFilePath()
    ensures PlainName(FilePathArg)
  {
    assert FilePathArg[0] == 'f';
  }

  lemma PlainHookId()
    ensures PlainName(HookIdArg)
  {
    assert HookIdArg[0] == 'h';
  }

  lemma PlainCommitSha()
    ensures PlainName(CommitShaArg)
  {
    assert CommitShaArg[0] == 'c';
  }

  /** `get_file`: the raw file at `file_path` in `project`, at `ref`. */
  function GetFile(c: Client, project: string, filePath: string, ref: Option<string>, quote: string -> string): (r: Request)
    ensures r.verb == Get && r.data.None?
    ensures r.url == ApiRoot(c.host) + (ProjectsPart + (quote(project) + (FilesPart + (quote(filePath) + RawPart))))
    ensures r.params == Some(map[AccessTokenKey := TokenParam(c), RefKey := OptParam(ref)])
  {
    var args := map[ProjectArg := project, FilePathArg := filePath];
    assert ProjectArg[0] != FilePathArg[0];
    PlainProject();
    PlainFilePath();
    assert ProjectsPart[0] == 'p';
    UrlOfTwoFieldsText(c, ProjectsPart, ProjectArg, FilesPart, FilePathArg, RawPart, args, quote);
    Request(Get, MakeUrl(c, Render(FilePieces), args, quote).value,
            Some(map[AccessTokenKey := TokenParam(c), RefKey := OptParam(ref)]), None)
  }

  /** `get_projects`: one page of projects; extra keyword arguments override the others. */
  function GetProjects(c: Client, page: int, perPage: Option<int>, extra: map<string, Param>, quote: string -> string): (r: Request)
    ensures r.verb == Get && r.data.None?
    ensures r.url == ApiRoot(c.host) + Projects
    ensures r.params == Some(map[AccessTokenKey := TokenParam(c), PageKey := PInt(page), PerPageKey := OptIntParam(perPage)] + extra)
  {
    assert Projects[0] == 'p';
    UrlOfText(c, Projects, map[], quote);
    Request(Get, MakeUrl(c, Render(ProjectsPieces), map[], quote).value,
            Some(map[AccessTokenKey := TokenParam(c), PageKey := PInt(page), PerPageKey := OptIntParam(perPage)] + extra), None)
  }

  function HooksUrl(c: Client, project: string, quote: string -> string): (u: string)
    ensures u == ApiRoot(c.host) + (ProjectsPart + (quote(project) + HooksPart))
  {
    PlainProject();
    assert ProjectsPart[0] == 'p';
    UrlOfOneField(c, ProjectsPart, ProjectArg, HooksPart, map[ProjectArg := project], quote);
    MakeUrl(c, Render(HooksPieces), map[ProjectArg := project], quote).value
  }

  /** `get_webhooks`: one page of a project's webhooks. */
  function GetWebhooks(c: Client, project: string, page: int, perPage: Option<int>, quote: string -> string): (r: Request)
    ensures r.verb == Get && r.data.None?
    ensures r.url == ApiRoot(c.host) + (ProjectsPart + (quote(project) + HooksPart))
    ensures r.params == Some(map[AccessTokenKey := TokenParam(c), PageKey := PInt(page), PerPageKey := OptIntParam(perPage)])
  {
    Request(Get, HooksUrl(c, project, quote),
            Some(map[AccessTokenKey := TokenParam(c), PageKey := PInt(page), PerPageKey := OptIntParam(perPage)]), None)
  }

  /** `create_webhook`: the configuration goes in the body. */
  function CreateWebhook(c: Client, project: string, config: Json, quote: string -> string): (r: Request)
    ensures r.verb == Post && r.data == Some(config)
    ensures r.url == ApiRoot(c.host) + (ProjectsPart + (quote(project) + HooksPart))
    ensures r.params == Some(map[AccessTokenKey := TokenParam(c)])
  {
    Request(Post, HooksUrl(c, project, quote), Some(map[AccessTokenKey := TokenParam(c)]), Some(config))
  }

  /** `delete_webhook`. */
  function DeleteWebhook(c: Client, project: string, hookId: int, quote: string -> string): (r: Request)
    ensures r.verb == Delete && r.data.None?
    ensures r.url == ApiRoot(c.host) + (ProjectsPart + (quote(project) + (HooksSlash + quote(IntToString(hookId)))))
    ensures r.params == Some(map[AccessTokenKey := TokenParam(c)])
  {
    var args := map[ProjectArg := project, HookIdArg := IntToString(hookId)];
    PlainProject();
    PlainHookId();
    assert ProjectsPart[0] == 'p' && ProjectArg[0] != HookIdArg[0];
    UrlOfTwoFields(c, ProjectsPart, ProjectArg, HooksSlash, HookIdArg, args, quote);
    Request(Delete, MakeUrl(c, Render(HookPieces), args, quote).value, Some(map[AccessTokenKey := TokenParam(c)]), None)
  }

  /** `set_commit_build_status`: everything goes in the query parameters. */
  function SetCommitBuildStatus(c: Client, project: string, commitSha: string, state: string,
                                description: Option<string>, name: string, quote: string -> string): (r: Request)
    ensures r.verb == Post && r.data.None?
    ensures r.url == ApiRoot(c.host) + (ProjectsPart + (quote(project) + (StatusesPart + quote(commitSha))))
    ensures r.params == Some(map[AccessTokenKey := TokenParam(c), StateKey := PStr(state),
                                 DescriptionParam := OptParam(description), NameKey := PStr(name)])
  {
    var args := map[ProjectArg := project, CommitShaArg := commitSha];
    PlainProject();
    PlainCommitSha();
    assert ProjectsPart[0] == 'p' && ProjectArg[0] != CommitShaArg[0];
    UrlOfTwoFields(c, ProjectsPart, ProjectArg, StatusesPart, CommitShaArg, args, quote);
    Request(Post, MakeUrl(c, Render(StatusPieces), args, quote).value,
            Some(map[AccessTokenKey := TokenParam(c), StateKey := PStr(state),
                     DescriptionParam := OptParam(description), NameKey := PStr(name)]), None)
  }

  /** `get_user`. */
  function GetUser(c: Client, quote: string -> string): (r: Request)
    ensures r.verb == Get && r.data.None?
    ensures r.url == ApiRoot(c.host) + UserPart
    ensures r.params == Some(map[AccessTokenKey := TokenParam(c)])
  {
    assert UserPart[0] == 'u';
    UrlOfText(c, UserPart, map[], quote);
    Request(Get, MakeUrl(c, Render(UserPieces), map[], quote).value, Some(map[AccessTokenKey := TokenParam(c)]), None)
  }

  /** `oauth_token`: posted to `/oauth/token`, which is not under the API root. */
  function OAuthToken(c: Client, data: Json): (r: Request)
    ensures r.verb == Post && r.params.None? && r.data == Some(data)
    ensures r.url == Https + c.host + OAuthPart
    ensures !(ApiRoot(c.host) <= r.url)
  {
    var u := Https + c.host + OAuthPart;
    assert u[|Https + c.host| + 1] == 'o';
    assert ApiRoot(c.host)[|Https + c.host| + 1] == 'a';
    Request(Post, u, None, Some(data))
  }

  // ---------------------------------------------------------------------
  // `_unroll_pagination`
  // ---------------------------------------------------------------------

  const NextKey := "next"
  const UrlKey := "url"

  /** `res.links.get("next", {}).get("url")`, where an empty URL counts as none. */
  function NextUrl(res: Response): (u: Option<string>)
    ensures u.Some? ==> u.value != []
  {
    if NextKey in res.links && UrlKey in res.links[NextKey] && res.links[NextKey][UrlKey] != []
    then Some(res.links[NextKey][UrlKey])
    else None
  }

  /** How the listing ended. */
  datatype Stop =
    | Finished                      // a page without a `next` link
    | Rejected(error: ClientError)  // a request that `_request` rejected
    | Undecodable                   // a page whose body is not JSON
    | NotAList                      // a page whose JSON is not a list
    | OutOfFuel                     // more `next` links than the bound allows

  datatype Listing = Listing(items: seq<Json>, stop: Stop)

  /** The request for a `next` link: a plain GET, with no parameters. */
  function NextRequest(u: string): Request
  {
    Request(Get, u, None, None)
  }

  /**
   * The items of an accepted page and of every page after it, following at
   * most `fuel` further `next` links.
   */
  function Pages(res: Response, http: Http, repr: Json -> string, fuel: nat): Listing
    decreases fuel
  {
    if res.body.None? then Listing([], Undecodable)
    else if !res.body.value.JList? then Listing([], NotAList)
    else
      var items := res.body.value.items;
      var next := NextUrl(res);
      if next.None? then Listing(items, Finished)
      else if fuel == 0 then Listing(items, OutOfFuel)
      else match Send(http, NextRequest(next.value), repr)
        case Err(e) => Listing(items, Rejected(e))
        case Ok(r) => var later := Pages(r, http, repr, fuel - 1); Listing(items + later.items, later.stop)
  }

  /** The first request of a listing: the given parameters with `per_page` set to the maximum. */
  function FirstRequest(url: string, params: map<string, Param>): Request
  {
    Request(Get, url, Some(params[PerPageKey := PInt(MaxPerPage)]), None)
  }

  /** The whole listing `_unroll_pagination` yields. */
  function Unrolled(url: string, params: map<string, Param>, http: Http, repr: Json -> string, fuel: nat): Listing
  {
    match Send(http, FirstRequest(url, params), repr)
    case Err(e) => Listing([], Rejected(e))
    case Ok(r) => Pages(r, http, repr, fuel)
  }

  /** `_unroll_pagination`, collecting what it yields until it stops. */
  method UnrollPagination(url: string, params: map<string, Param>, http: Http, repr: Json -> string, fuel: nat)
    returns (items: seq<Json>, stop: Stop)
    ensures Listing(items, stop) == Unrolled(url, params, http, repr, fuel)
  {
    var p := params[PerPageKey := PInt(MaxPerPage)];
    var first := Send(http, Request(Get, url, Some(p), None), repr);
    if first.Err? {
      return [], Rejected(first.error);
    }
    var res := first.value;
    var left := fuel;
    items := [];
    while true
      invariant Unrolled(url, params, http, repr, fuel)
             == var rest := Pages(res, http, repr, left); Listing(items + rest.items, rest.stop)
      decreases left
    {
      if res.body.None? {
        return items, Undecodable;
      }
      if !res.body.value.JList? {
        return items, NotAList;
      }
      var page := res.body.value.items;
      var next := NextUrl(res);
      if next.None? {
        return items + page, Finished;
      }
      if left == 0 {
        return items + page, OutOfFuel;
      }
      var r := Send(http, NextRequest(next.value), repr);
      if r.Err? {
        return items + page, Rejected(r.error);
      }
      AppendAssoc(items, page, Pages(r.value, http, repr, left - 1).items);
      items := items + page;
      res := r.value;
      left := left - 1;
    }
  }

  lemma AppendAssoc(a: seq<Json>, b: seq<Json>, c: seq<Json>)
    ensures (a + b) + c == a + (b + c)
  {
  }

  /** The first request asks for the largest page size and keeps the other parameters. */
  lemma FirstRequestShape(url: string, params: map<string, Param>)
    ensures var r := FirstRequest(url, params);
      && r.verb == Get && r.url == url && r.data.None? && r.params.Some?
      && r.params.value[PerPageKey] == PInt(100)
      && forall k :: k in params && k != PerPageKey ==> k in r.params.value && r.params.value[k] == params[k]
  {
  }

  /** A page without a `next` link ends the listing with its own items: no further request. */
  lemma LastPageEnds(res: Response, http: Http, repr: Json -> string, fuel: nat, items: seq<Json>)
    requires res.body == Some(JList(items)) && NextUrl(res).None?
    ensures Pages(res, http, repr, fuel) == Listing(items, Finished)
  {
  }

  /** Pages follow one another: the items of a page come before those of the page it links to. */
  lemma PagesInOrder(res: Response, http: Http, repr: Json -> string, fuel: nat, items: seq<Json>, u: string, next: Response)
    requires res.body == Some(JList(items)) && NextUrl(res) == Some(u) && fuel > 0
    requires http(NextRequest(u)) == next && next.status < 400
    ensures Pages(res, http, repr, fuel).items == items + Pages(next, http, repr, fuel - 1).items
  {
  }

  /** More fuel never changes a listing that finished. */
  lemma {:induction false} FuelMonotone(res: Response, http: Http, repr: Json -> string, fuel: nat, more: nat)
    requires Pages(res, http, repr, fuel).stop != OutOfFuel && fuel <= more
    ensures Pages(res, http, repr, more) == Pages(res, http, repr, fuel)
    decreases fuel
  {
    if res.body.Some? && res.body.value.JList? && NextUrl(res).Some? && fuel > 0 {
      var r := Send(http, NextRequest(NextUrl(res).value), repr);
      if r.Ok? {
        FuelMonotone(r.value, http, repr, fuel - 1, more - 1);
      }
    }
  }

  /** `get_all_webhooks`: every webhook of a project, page by page. */
  method GetAllWebhooks(c: Client, project: string, http: Http, repr: Json -> string, quote: string -> string, fuel: nat)
    returns (items: seq<Json>, stop: Stop)
    ensures Listing(items, stop) == Unrolled(HooksUrl(c, project, quote), map[AccessTokenKey := TokenParam(c)], http, repr, fuel)
  {
    items, stop := UnrollPagination(HooksUrl(c, project, quote), map[AccessTokenKey := TokenParam(c)], http, repr, fuel);
  }
}

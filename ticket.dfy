/** The ticket gateway: three functions that talk to a Jira Cloud REST API.
    Each builds a request, and the HTTP exchange that follows is an input
    here (an `Exchange`); the model then says what the function returns or
    raises for every possible exchange. */
module Ticket {
  import opened PyValues
  import Base64
  import Utf8

  // ---------------------------------------------------------------------
  // Settings read from the environment when the module is loaded
  // ---------------------------------------------------------------------

  datatype JiraSettings = JiraSettings(project: string, cloud: string, token: string, email: string)

  /** The variables the module requires, in the order it reads them. */
  const RequiredKeys: seq<string> := ["JIRA_PROJECT", "JIRA_CLOUD", "JIRA_TOKEN", "JIRA_EMAIL"]

  predicate IsSet(env: map<string, string>, key: string)
  {
    key in env && env[key] != ""
  }

  /** `_get_required_env(key)` */
  function RequiredEnv(env: map<string, string>, key: string): (r: Outcome<string>)
    ensures r.Returned? <==> IsSet(env, key)
    ensures r.Returned? ==> r.value == env[key]
    ensures r.Raised? ==> r.exception == ValueError("Missing required environment variable: " + key)
  {
    if key in env && env[key] != "" then Returned(env[key])
    else Raised(ValueError("Missing required environment variable: " + key))
  }

  /** The four module-level reads: loading succeeds exactly when all four
      variables are set and non-empty, and otherwise fails naming the first
      one, in reading order, that is not. */
  function LoadSettings(env: map<string, string>): (r: Outcome<JiraSettings>)
    ensures r.Returned? <==>
      IsSet(env, "JIRA_PROJECT") && IsSet(env, "JIRA_CLOUD") && IsSet(env, "JIRA_TOKEN") && IsSet(env, "JIRA_EMAIL")
    ensures r.Returned? ==>
      r.value == JiraSettings(env["JIRA_PROJECT"], env["JIRA_CLOUD"], env["JIRA_TOKEN"], env["JIRA_EMAIL"])
    ensures r.Raised? ==> exists i :: (0 <= i < |RequiredKeys| && !IsSet(env, RequiredKeys[i])
      && (forall j :: 0 <= j < i ==> IsSet(env, RequiredKeys[j]))
      && r.exception == ValueError("Missing required environment variable: " + RequiredKeys[i]))
  {
    assert RequiredKeys[0] == "JIRA_PROJECT" && RequiredKeys[1] == "JIRA_CLOUD";
    assert RequiredKeys[2] == "JIRA_TOKEN" && RequiredKeys[3] == "JIRA_EMAIL";
    match RequiredEnv(env, "JIRA_PROJECT")
    case Raised(e) => Raised(e)
    case Returned(project) =>
      match RequiredEnv(env, "JIRA_CLOUD")
      case Raised(e) => Raised(e)
      case Returned(cloud) =>
        match RequiredEnv(env, "JIRA_TOKEN")
        case Raised(e) => Raised(e)
        case Returned(token) =>
          match RequiredEnv(env, "JIRA_EMAIL")
          case Raised(e) => Raised(e)
          case Returned(email) => Returned(JiraSettings(project, cloud, token, email))
  }

  // ---------------------------------------------------------------------
  // Authorization header (section 2 of RFC 7617)
  // ---------------------------------------------------------------------

  /** The user-pass the header carries. */
  function Credentials(settings: JiraSettings): string
  {
    settings.email + ":" + settings.token
  }

  /** `_get_auth_header()`: one header whose value is "Basic " followed by
      base 64 alphabet characters (their decoding is `AuthHeaderDecodes`). */
  function AuthHeader(settings: JiraSettings): (h: map<string, string>)
    ensures h.Keys == {"Authorization"}
    ensures |h["Authorization"]| >= 6 && h["Authorization"][..6] == "Basic "
    ensures Base64.InAlphabet(h["Authorization"][6..])
  {
    var bytes := Utf8.Encode(Credentials(settings));
    var value := "Basic " + Base64.Encode(bytes);
    assert value[6..] == Base64.Encode(bytes);
    Base64.EncodeAlphabet(bytes);
    map["Authorization" := value]
  }

  /** Decoding the header value after "Basic ", through base 64 and then
      UTF-8, gives `email:token` back. */
  lemma AuthHeaderDecodes(settings: JiraSettings)
    ensures var value := AuthHeader(settings)["Authorization"];
      && Base64.Decode(value[6..]).Some?
      && Utf8.Decode(Base64.Decode(value[6..]).value) == Some(Credentials(settings))
  {
    var bytes := Utf8.Encode(Credentials(settings));
    assert AuthHeader(settings)["Authorization"][6..] == Base64.Encode(bytes);
    Base64.DecodeEncode(bytes);
    Utf8.DecodeEncode(Credentials(settings));
  }

  /** How a server reads a user-pass: the user-id is everything before the
      first colon, the password everything after it. */
  function SplitUserPass(s: string): (string, string)
  {
    if |s| == 0 then ("", "")
    else if s[0] == ':' then ("", s[1..])
    else var (user, pass) := SplitUserPass(s[1..]); ([s[0]] + user, pass)
  }

  /** An account e-mail without a colon, as section 2 of RFC 7617
      requires of a user-id, is read back from the header unchanged, and so
      is the token. */
  lemma {:induction false} CredentialsReadBack(email: string, token: string)
    requires ':' !in email
    ensures SplitUserPass(email + ":" + token) == (email, token)
    decreases |email|
  {
    if |email| > 0 {
      CredentialsReadBack(email[1..], token);
      assert (email + ":" + token)[1..] == email[1..] + ":" + token;
      assert [email[0]] + email[1..] == email;
    } else {
      assert email + ":" + token == [':'] + token;
    }
  }

  // ---------------------------------------------------------------------
  // Requests
  // ---------------------------------------------------------------------

  datatype HttpMethod = HttpPost | HttpGet

  /** What is handed to `requests.post` or `requests.get`. */
  datatype Request = Request(
    verb: HttpMethod,
    url: string,
    headers: map<string, string>,
    params: map<string, Json>,
    payload: Option<Json>,
    timeout: int)

  /** What came back: a RequestException, another exception, or a response
      whose body `response.json()` decodes (None when it is not JSON). */
  datatype Exchange =
    | RequestException
    | OtherException
    | Response(status: int, body: Option<Json>)

  const OwnerField := "customfield_10088"
  const SearchFields := "summary,description,issuetype,status,resolution"

  function ApiUrl(settings: JiraSettings, resource: string): string
  {
    "https://api.atlassian.com/ex/jira/" + settings.cloud + "/rest/api/3/" + resource
  }

  /** The filter of the list request. */
  function UserJql(project: string, userId: string): string
  {
    "project = " + project + " AND \"customfield_10088\" ~ \"" + userId + "\""
  }

  /** The filter of the by-key request. */
  function KeyJql(project: string, userId: string, ticketId: string): string
  {
    "key = " + ticketId + " AND project = " + project + " AND \"customfield_10088\" ~ \"" + userId + "\""
  }

  /** The rich-text document that carries a description: one paragraph
      holding one text run. */
  function DescriptionDoc(description: string): Json
  {
    JObj(map[
      "type" := JStr("doc"),
      "version" := JInt(1),
      "content" := DictList([map[
        "type" := JStr("paragraph"),
        "content" := DictList([map["type" := JStr("text"), "text" := JStr(description)]])]])])
  }

  /** The request `create_jira_ticket` sends. */
  function CreateTicketRequest(settings: JiraSettings, userId: string, summary: string,
                               description: string, issueType: string): Request
  {
    var fields := IssueFields(settings.project, userId, summary, description, issueType);
    var headers := AuthHeader(settings)
      + map["Accept" := "application/json", "Content-Type" := "application/json"];
    Request(HttpPost, ApiUrl(settings, "issue"), headers, map[], Some(JObj(map["fields" := JObj(fields)])), 10)
  }

  /** The "fields" object of the create payload. */
  function IssueFields(project: string, userId: string, summary: string,
                       description: string, issueType: string): map<string, Json>
  {
    map[
      "project" := JObj(map["key" := JStr(project)]),
      "summary" := JStr(summary),
      "description" := DescriptionDoc(description),
      "issuetype" := JObj(map["name" := JStr(issueType)]),
      OwnerField := JStr(userId)]
  }

  /** The search request with the given filter and page size. */
  function SearchRequest(settings: JiraSettings, jql: string, maxResults: int): Request
  {
    var params := map["jql" := JStr(jql), "fields" := JStr(SearchFields), "maxResults" := JInt(maxResults)];
    var headers := AuthHeader(settings) + map["Accept" := "application/json"];
    Request(HttpGet, ApiUrl(settings, "search/jql"), headers, params, None, 10)
  }

  /** The request `get_user_tickets` sends. */
  function UserTicketsRequest(settings: JiraSettings, userId: string): Request
  {
    SearchRequest(settings, UserJql(settings.project, userId), 100)
  }

  /** The request `get_ticket_by_key` sends. */
  function TicketByKeyRequest(settings: JiraSettings, userId: string, ticketId: string): Request
  {
    SearchRequest(settings, KeyJql(settings.project, userId, ticketId), 1)
  }

  /** The by-key search is the list search with "key = <id> AND " in front
      of its filter and a page size of one instead of 100. */
  lemma SearchRequestsAgree(settings: JiraSettings, userId: string, ticketId: string)
    ensures var list, one := UserTicketsRequest(settings, userId), TicketByKeyRequest(settings, userId, ticketId);
      && list.params["maxResults"] == JInt(100)
      && one == list.(params := list.params["jql" := JStr("key = " + ticketId + " AND " + list.params["jql"].s)]
                                            ["maxResults" := JInt(1)])
  {
    var p := settings.project;
    KeyJqlNarrows(p, userId, ticketId);
    SearchRequestRefilter(settings, UserJql(p, userId), 100, KeyJql(p, userId, ticketId), 1);
  }

  /** The by-key filter is the list filter with "key = <id> AND " in front. */
  lemma KeyJqlNarrows(project: string, userId: string, ticketId: string)
    ensures KeyJql(project, userId, ticketId) == "key = " + ticketId + " AND " + UserJql(project, userId)
  {
  }

  /** A search is a GET without a body, with a ten-second timeout, the
      basic-auth and JSON accept headers, and exactly the filter, the
      returned fields and the page size as parameters. */
  lemma SearchRequestShape(settings: JiraSettings, jql: string, maxResults: int)
    ensures var r := SearchRequest(settings, jql, maxResults);
      && r.verb == HttpGet && r.payload == None && r.timeout == 10
      && r.url == "https://api.atlassian.com/ex/jira/" + settings.cloud + "/rest/api/3/search/jql"
      && r.headers.Keys == {"Authorization", "Accept"}
      && r.headers["Authorization"] == AuthHeader(settings)["Authorization"]
      && r.params.Keys == {"jql", "fields", "maxResults"}
      && r.params["jql"] == JStr(jql) && r.params["fields"] == JStr(SearchFields)
      && r.params["maxResults"] == JInt(maxResults)
  {
  }

  /** A search with another filter and page size is the same request with
      those two parameters replaced. */
  lemma SearchRequestRefilter(settings: JiraSettings, jql: string, maxResults: int,
                              jql': string, maxResults': int)
    ensures var r := SearchRequest(settings, jql, maxResults);
      SearchRequest(settings, jql', maxResults') == r.(params := r.params["jql" := JStr(jql')]["maxResults" := JInt(maxResults')])
  {
    var params := map["jql" := JStr(jql), "fields" := JStr(SearchFields), "maxResults" := JInt(maxResults)];
    var params' := map["jql" := JStr(jql'), "fields" := JStr(SearchFields), "maxResults" := JInt(maxResults')];
    assert params' == params["jql" := JStr(jql')]["maxResults" := JInt(maxResults')];
  }

  /** The create request is a POST to the tracker's issue resource with a
      ten-second timeout, no query parameters and a payload that wraps the
      issue's fields in one "fields" object. */
  lemma CreateRequestShape(settings: JiraSettings, userId: string, summary: string,
                           description: string, issueType: string)
    ensures var req := CreateTicketRequest(settings, userId, summary, description, issueType);
      && req.verb == HttpPost && req.timeout == 10 && req.params == map[]
      && req.url == "https://api.atlassian.com/ex/jira/" + settings.cloud + "/rest/api/3/issue"
      && req.payload.Some? && req.payload.value.JObj?
      && req.payload.value.fields.Keys == {"fields"}
      && req.payload.value.fields["fields"] == JObj(IssueFields(settings.project, userId, summary, description, issueType))
  {
  }

  /** The owner, summary, type and project are stored in their fields, and
      the description is read back by flattening the document. */
  lemma IssueFieldsReadBack(project: string, userId: string, summary: string,
                            description: string, issueType: string)
    ensures var fields := IssueFields(project, userId, summary, description, issueType);
      && fields.Keys == {"project", "summary", "description", "issuetype", OwnerField}
      && fields[OwnerField] == JStr(userId)
      && fields["summary"] == JStr(summary)
      && fields["issuetype"] == JObj(map["name" := JStr(issueType)])
      && fields["project"] == JObj(map["key" := JStr(project)])
      && DescriptionText(fields["description"]) == Some(description)
  {
    DescriptionRoundTrip(description);
  }

  /** The create request carries the basic-auth header together with the
      JSON accept and content-type headers. */
  lemma CreateRequestHeaders(settings: JiraSettings, userId: string, summary: string,
                             description: string, issueType: string)
    ensures var req := CreateTicketRequest(settings, userId, summary, description, issueType);
      && req.headers.Keys == {"Authorization", "Accept", "Content-Type"}
      && req.headers["Authorization"] == AuthHeader(settings)["Authorization"]
      && req.headers["Accept"] == req.headers["Content-Type"] == "application/json"
  {
  }

  // ---------------------------------------------------------------------
  // Flattening a rich-text description
  // ---------------------------------------------------------------------

  /** Both texts, concatenated, or None when either is None. */
  function Both(a: Option<string>, b: Option<string>): Option<string>
  {
    if a.Some? && b.Some? then Some(a.value + b.value) else None
  }

  /** The texts of `xs`, concatenated in order, or None when any of them is
      None (the loop over them raised). */
  function JoinTexts(xs: seq<map<string, Json>>, text: map<string, Json> -> Option<string>): Option<string>
    decreases |xs|
  {
    if |xs| == 0 then Some("")
    else Both(JoinTexts(xs[..|xs| - 1], text), text(xs[|xs| - 1]))
  }

  /** The text one content item adds: its `text` when its `type` is
      "text" (nothing when it has no `text`), nothing for any other type,
      and None when the text is not a string (`+=` raises). */
  function RunText(item: map<string, Json>): Option<string>
  {
    if Get(item, "type", JNull) != JStr("text") then Some("")
    else match Get(item, "text", JStr(""))
      case JStr(t) => Some(t)
      case _ => None
  }

  /** The text of one block: the text of its `content` items. */
  function BlockText(block: map<string, Json>): Option<string>
  {
    match DictElems(Get(block, "content", JArr([])))
    case None => None
    case Some(items) => JoinTexts(items, RunText)
  }

  /** The plain text of a description: the text of every block of its
      `content`, in order; "" when the description is not a dict. None
      when Python raises while reading it. */
  function DescriptionText(description: Json): (r: Option<string>)
    ensures !description.JObj? ==> r == Some("")
  {
    if !description.JObj? then Some("")
    else match DictElems(Get(description.fields, "content", JArr([])))
      case None => None
      case Some(blocks) => JoinTexts(blocks, BlockText)
  }

  /** Texts of consecutive runs of items concatenate: the text of `a + b`
      is the text of `a` followed by the text of `b`. */
  lemma {:induction false} JoinTextsAppend(a: seq<map<string, Json>>, b: seq<map<string, Json>>,
                                           text: map<string, Json> -> Option<string>)
    ensures JoinTexts(a + b, text) == Both(JoinTexts(a, text), JoinTexts(b, text))
    decreases |b|
  {
    if |b| == 0 {
      assert a + b == a;
      var x := JoinTexts(a, text);
      if x.Some? {
        assert x.value + "" == x.value;
      }
    } else {
      var b' := b[..|b| - 1];
      JoinTextsAppend(a, b', text);
      assert (a + b)[..|a + b| - 1] == a + b';
      assert (a + b)[|a + b| - 1] == b[|b| - 1];
      var x, y, z := JoinTexts(a, text), JoinTexts(b', text), text(b[|b| - 1]);
      if x.Some? && y.Some? && z.Some? {
        assert x.value + y.value + z.value == x.value + (y.value + z.value);
      }
    }
  }

  /** A prefix whose text cannot be read makes the whole text unreadable. */
  lemma JoinTextsPrefixFails(xs: seq<map<string, Json>>, k: nat, text: map<string, Json> -> Option<string>)
    requires k <= |xs| && JoinTexts(xs[..k], text).None?
    ensures JoinTexts(xs, text).None?
  {
    JoinTextsAppend(xs[..k], xs[k..], text);
    assert xs[..k] + xs[k..] == xs;
  }

  /** Flattening the document that `create_jira_ticket` builds gives the
      description back. */
  lemma DescriptionRoundTrip(description: string)
    ensures DescriptionText(DescriptionDoc(description)) == Some(description)
  {
    var run := map["type" := JStr("text"), "text" := JStr(description)];
    var block := map["type" := JStr("paragraph"), "content" := DictList([run])];
    assert [run][..0] == [];
    assert JoinTexts([run], RunText) == Some("" + description);
    assert "" + description == description;
    assert BlockText(block) == Some(description);
    assert [block][..0] == [];
    assert JoinTexts([block], BlockText) == Some("" + description);
  }

  /** Document order: a description whose blocks are `a` then `b` flattens
      to the text of `a` followed by the text of `b`. */
  lemma DescriptionConcat(a: seq<map<string, Json>>, b: seq<map<string, Json>>)
    ensures DescriptionText(JObj(map["content" := DictList(a + b)]))
         == Both(DescriptionText(JObj(map["content" := DictList(a)])),
                 DescriptionText(JObj(map["content" := DictList(b)])))
  {
    JoinTextsAppend(a, b, BlockText);
  }

  /** An item whose type is not "text" is skipped: putting it anywhere in a
      block leaves the block's text as it was. */
  lemma NonTextSkipped(before: seq<map<string, Json>>, item: map<string, Json>, after: seq<map<string, Json>>)
    requires Get(item, "type", JNull) != JStr("text")
    ensures BlockText(map["content" := DictList(before + [item] + after)])
         == BlockText(map["content" := DictList(before + after)])
  {
    JoinTextsAppend(before + [item], after, RunText);
    JoinTextsAppend(before, [item], RunText);
    JoinTextsAppend(before, after, RunText);
    assert [item][..0] == [];
    var x := JoinTexts(before, RunText);
    if x.Some? {
      assert x.value + "" == x.value;
    }
  }

  /** The inner loop of the flattening: adds the text of one block's items
      to `acc`, or gives None when an item's text is not a string. */
  method AppendBlockText(block: map<string, Json>, acc: string) returns (r: Option<string>)
    ensures r == Both(Some(acc), BlockText(block))
  {
    var items := DictElems(Get(block, "content", JArr([])));
    if items.None? {
      return None;
    }
    var text := acc;
    var j := 0;
    while j < |items.value|
      invariant 0 <= j <= |items.value|
      invariant JoinTexts(items.value[..j], RunText).Some?
      invariant text == acc + JoinTexts(items.value[..j], RunText).value
    {
      var item := items.value[j];
      assert items.value[..j + 1][..j] == items.value[..j];
      if Get(item, "type", JNull) == JStr("text") {
        var t := Get(item, "text", JStr(""));
        if !t.JStr? {
          JoinTextsPrefixFails(items.value, j + 1, RunText);
          return None;
        }
        text := text + t.s;
      }
      j := j + 1;
    }
    assert items.value[..j] == items.value;
    return Some(text);
  }

  /** `for content_block in ...: for item in ...: description_text += ...`:
      the loops of both getters, which flatten a description into plain
      text or raise. */
  method FlattenDescription(description: Json) returns (text: Option<string>)
    ensures text == DescriptionText(description)
  {
    if !description.JObj? {
      return Some("");
    }
    var blocks := DictElems(Get(description.fields, "content", JArr([])));
    if blocks.None? {
      return None;
    }
    var acc := "";
    var i := 0;
    while i < |blocks.value|
      invariant 0 <= i <= |blocks.value|
      invariant JoinTexts(blocks.value[..i], BlockText) == Some(acc)
    {
      assert blocks.value[..i + 1][..i] == blocks.value[..i];
      var next := AppendBlockText(blocks.value[i], acc);
      if next.None? {
        JoinTextsPrefixFails(blocks.value, i + 1, BlockText);
        return None;
      }
      acc := next.value;
      i := i + 1;
    }
    assert blocks.value[..i] == blocks.value;
    return Some(acc);
  }

  // ---------------------------------------------------------------------
  // Results
  // ---------------------------------------------------------------------

  /** `{"error": message, "status_code": status}` */
  function ErrorResult(message: string, status: int): map<string, Json>
  {
    map["error" := JStr(message), "status_code" := JInt(status)]
  }

  /** What `create_jira_ticket` does with the exchange: a status other than
      200 or 201 is reported with that status; a network failure (also a
      body that is not JSON, whose decoding error is a RequestException)
      is reported as status 500; on success every key of the body is
      returned, merged after "status_code" so that the body wins. */
  function CreateTicketOutcome(ex: Exchange): (r: Outcome<map<string, Json>>)
    ensures ex.RequestException? ==> r == Returned(ErrorResult("Network error creating ticket", 500))
    ensures ex.OtherException? ==> r == Raised(ForeignError)
    ensures ex.Response? && ex.status != 200 && ex.status != 201 ==>
      r == Returned(ErrorResult("Failed to create ticket", ex.status))
    ensures ex.Response? && (ex.status == 200 || ex.status == 201) ==>
      match ex.body
      case None => r == Returned(ErrorResult("Network error creating ticket", 500))
      case Some(JObj(body)) =>
        && r.Returned?
        && r.value.Keys == body.Keys + {"status_code"}
        && (forall k :: k in body ==> r.value[k] == body[k])
        && ("status_code" !in body ==> r.value["status_code"] == JInt(ex.status))
      case Some(_) => r == Raised(ShapeError)
  {
    match ex
    case RequestException => Returned(ErrorResult("Network error creating ticket", 500))
    case OtherException => Raised(ForeignError)
    case Response(status, body) =>
      if status != 200 && status != 201 then Returned(ErrorResult("Failed to create ticket", status))
      else match body
        case None => Returned(ErrorResult("Network error creating ticket", 500))
        case Some(JObj(fields)) => Returned(map["status_code" := JInt(status)] + fields)
        case Some(_) => Raised(ShapeError)
  }

  /** A successful creation reports the tracker's key unchanged and no
      error, as long as the tracker's body has no "error" of its own. */
  lemma CreatedKeyReported(status: int, body: map<string, Json>)
    requires status == 200 || status == 201
    requires "key" in body && "error" !in body
    ensures var r := CreateTicketOutcome(Response(status, Some(JObj(body))));
      r.Returned? && r.value["key"] == body["key"] && "error" !in r.value
  {
  }

  /** The fields of an issue, `issue.get("fields", {})`. */
  function FieldsOf(issue: map<string, Json>): Json
  {
    Get(issue, "fields", JObj(map[]))
  }

  /** An issue of a list response is read without raising: its fields are
      a dict and its description can be flattened. */
  predicate SummaryReadable(issue: map<string, Json>)
  {
    FieldsOf(issue).JObj? && DescriptionText(Get(FieldsOf(issue).fields, "description", JObj(map[]))).Some?
  }

  /** The summary of one issue: its key and its summary, nothing else. */
  function TicketSummary(issue: map<string, Json>): (t: map<string, Json>)
    requires FieldsOf(issue).JObj?
    ensures t.Keys == {"ticket_id", "summary"}
  {
    map["ticket_id" := Get(issue, "key", JNull), "summary" := Get(FieldsOf(issue).fields, "summary", JNull)]
  }

  /** What `get_user_tickets` does with the exchange. A status other than
      200 is reported with that status and a network failure as status
      500. On status 200 the result has one summary per issue, in the
      issues' order, each with only "ticket_id" and "summary"; the
      description is read (and may raise) but left out. */
  function UserTicketsOutcome(ex: Exchange): (r: Outcome<map<string, Json>>)
    ensures ex.RequestException? ==> r == Returned(ErrorResult("Network error retrieving tickets", 500))
    ensures ex.OtherException? ==> r == Raised(ForeignError)
    ensures ex.Response? && ex.status != 200 ==> r == Returned(ErrorResult("Failed to retrieve tickets", ex.status))
    ensures ex.Response? && ex.status == 200 && ex.body.None? ==> r == Raised(JsonDecodeError)
    ensures ex.Response? && ex.status == 200 && ex.body.Some? ==>
      (r.Returned? <==>
        && ex.body.value.JObj?
        && var issues := DictElems(Get(ex.body.value.fields, "issues", JArr([])));
        && issues.Some?
        && forall i :: 0 <= i < |issues.value| ==> SummaryReadable(issues.value[i]))
    ensures ex.Response? && ex.status == 200 && r.Returned? ==> "error" !in r.value
    ensures r.Returned? && "error" !in r.value ==>
      && ex.Response? && ex.status == 200 && ex.body.Some? && ex.body.value.JObj?
      && var issues := DictElems(Get(ex.body.value.fields, "issues", JArr([])));
      && issues.Some?
      && r.value.Keys == {"status_code", "tickets"} && r.value["status_code"] == JInt(200)
      && r.value["tickets"].JArr?
      && |r.value["tickets"].items| == |issues.value|
      && forall i :: 0 <= i < |issues.value| ==>
           && FieldsOf(issues.value[i]).JObj?
           && r.value["tickets"].items[i] == JObj(TicketSummary(issues.value[i]))
           && r.value["tickets"].items[i].fields.Keys == {"ticket_id", "summary"}
  {
    match ex
    case RequestException => Returned(ErrorResult("Network error retrieving tickets", 500))
    case OtherException => Raised(ForeignError)
    case Response(status, body) =>
      if status != 200 then Returned(ErrorResult("Failed to retrieve tickets", status))
      else if body.None? then Raised(JsonDecodeError)
      else if !body.value.JObj? then Raised(ShapeError)
      else match DictElems(Get(body.value.fields, "issues", JArr([])))
        case None => Raised(ShapeError)
        case Some(issues) =>
          if forall i :: 0 <= i < |issues| ==> SummaryReadable(issues[i]) then
            var tickets := seq(|issues|, i requires 0 <= i < |issues| => JObj(TicketSummary(issues[i])));
            Returned(map["status_code" := JInt(status), "tickets" := JArr(tickets)])
          else Raised(ShapeError)
  }

  /** A 200 response whose "issues" lists readable issues returns their
      summaries, in order, with status 200 and no error. */
  lemma UserTicketsListed(data: map<string, Json>, issues: seq<map<string, Json>>)
    requires forall i :: 0 <= i < |issues| ==> SummaryReadable(issues[i])
    ensures var r := UserTicketsOutcome(Response(200, Some(JObj(data["issues" := DictList(issues)]))));
      && r.Returned? && "error" !in r.value && r.value["status_code"] == JInt(200)
      && r.value["tickets"].JArr? && |r.value["tickets"].items| == |issues|
      && forall i :: 0 <= i < |issues| ==> r.value["tickets"].items[i] == JObj(TicketSummary(issues[i]))
  {
    var body := data["issues" := DictList(issues)];
    assert Get(body, "issues", JArr([])) == DictList(issues);
  }

  /** `get_user_tickets(user_id)` after the request: the loop that builds
      the list of summaries, one issue at a time. */
  method GetUserTickets(ex: Exchange) returns (r: Outcome<map<string, Json>>)
    ensures r == UserTicketsOutcome(ex)
  {
    if ex.RequestException? {
      return Returned(ErrorResult("Network error retrieving tickets", 500));
    }
    if ex.OtherException? {
      return Raised(ForeignError);
    }
    if ex.status != 200 {
      return Returned(ErrorResult("Failed to retrieve tickets", ex.status));
    }
    if ex.body.None? {
      return Raised(JsonDecodeError);
    }
    var data := ex.body.value;
    if !data.JObj? {
      return Raised(ShapeError);
    }
    var issues := DictElems(Get(data.fields, "issues", JArr([])));
    if issues.None? {
      return Raised(ShapeError);
    }
    var tickets: seq<Json> := [];
    var i := 0;
    while i < |issues.value|
      invariant 0 <= i <= |issues.value|
      invariant forall k :: 0 <= k < i ==> SummaryReadable(issues.value[k])
      invariant tickets == seq(i, k requires 0 <= k < i => JObj(TicketSummary(issues.value[k])))
    {
      var issue := issues.value[i];
      var fields := Get(issue, "fields", JObj(map[]));
      if !fields.JObj? {
        return Raised(ShapeError);
      }
      var text := FlattenDescription(Get(fields.fields, "description", JObj(map[])));
      if text.None? {
        return Raised(ShapeError);
      }
      tickets := tickets + [JObj(TicketSummary(issue))];
      i := i + 1;
    }
    return Returned(map["status_code" := JInt(ex.status), "tickets" := JArr(tickets)]);
  }

  /** The ticket dict of an issue whose description reads as `text`, or
      None when reading its type, status or resolution raises. The
      resolution is None when the field is falsy and the field's name
      otherwise. */
  function TicketRecord(issue: map<string, Json>, fields: map<string, Json>, text: string): (r: Option<map<string, Json>>)
    ensures var issueType, status, resolution :=
        Get(fields, "issuetype", JObj(map[])), Get(fields, "status", JObj(map[])), Get(fields, "resolution", JNull);
      r.Some? <==> issueType.JObj? && status.JObj? && (!Truthy(resolution) || resolution.JObj?)
    ensures r.Some? ==> r.value.Keys == {"ticket_id", "summary", "description", "issue_type", "status", "resolution"}
    ensures r.Some? ==> r.value["ticket_id"] == Get(issue, "key", JNull) && r.value["summary"] == Get(fields, "summary", JNull)
    ensures r.Some? ==> r.value["description"] == JStr(text)
    ensures r.Some? ==> r.value["issue_type"] == Get(Get(fields, "issuetype", JObj(map[])).fields, "name", JNull)
    ensures r.Some? ==> r.value["status"] == Get(Get(fields, "status", JObj(map[])).fields, "name", JNull)
    ensures r.Some? ==> var resolution := Get(fields, "resolution", JNull);
      if Truthy(resolution) then resolution.JObj? && r.value["resolution"] == Get(resolution.fields, "name", JNull)
      else r.value["resolution"] == JNull
  {
    var issueType := Get(fields, "issuetype", JObj(map[]));
    var status := Get(fields, "status", JObj(map[]));
    var resolution := Get(fields, "resolution", JNull);
    if !issueType.JObj? || !status.JObj? || (Truthy(resolution) && !resolution.JObj?) then None
    else Some(map[
      "ticket_id" := Get(issue, "key", JNull),
      "summary" := Get(fields, "summary", JNull),
      "description" := JStr(text),
      "issue_type" := Get(issueType.fields, "name", JNull),
      "status" := Get(status.fields, "name", JNull),
      "resolution" := if Truthy(resolution) then Get(resolution.fields, "name", JNull) else JNull])
  }

  /** The ticket dict of the first issue, or None when reading it raises. */
  function TicketDetails(issue: Json): Option<map<string, Json>>
  {
    if !issue.JObj? || !FieldsOf(issue.fields).JObj? then None
    else
      var fields := FieldsOf(issue.fields).fields;
      match DescriptionText(Get(fields, "description", JObj(map[])))
      case None => None
      case Some(text) => TicketRecord(issue.fields, fields, text)
  }

  /** What `get_ticket_by_key` does with the exchange. A status other than
      200 is reported with that status and a network failure as status
      500; a falsy "issues" becomes a 404 naming the ticket and the user;
      otherwise only the first issue is read, into a ticket dict. */
  function TicketByKeyOutcome(userId: string, ticketId: string, ex: Exchange): (r: Outcome<map<string, Json>>)
    ensures ex.RequestException? ==> r == Returned(ErrorResult("Network error retrieving ticket", 500))
    ensures ex.OtherException? ==> r == Raised(ForeignError)
    ensures ex.Response? && ex.status != 200 ==> r == Returned(ErrorResult("Failed to retrieve ticket", ex.status))
    ensures ex.Response? && ex.status == 200 && ex.body.None? ==> r == Raised(JsonDecodeError)
    ensures ex.Response? && ex.status == 200 && ex.body.Some? && ex.body.value.JObj?
            && !Truthy(Get(ex.body.value.fields, "issues", JArr([]))) ==>
      r == Returned(ErrorResult("Ticket " + ticketId + " not found for user " + userId, 404))
    ensures ex.Response? && ex.status == 200 && ex.body.Some? && ex.body.value.JObj?
            && Truthy(Get(ex.body.value.fields, "issues", JArr([]))) ==>
      (r.Returned? ==> "status_code" in r.value && r.value["status_code"] == JInt(200))
    ensures ex.Response? && ex.status == 200 && ex.body.Some? && ex.body.value.JObj? ==>
      var issues := Get(ex.body.value.fields, "issues", JArr([]));
      issues.JArr? && |issues.items| > 0 && TicketDetails(issues.items[0]).Some? ==>
        r == Returned(map["status_code" := JInt(200), "ticket" := JObj(TicketDetails(issues.items[0]).value)])
    ensures r.Returned? ==> "status_code" in r.value
    ensures r.Returned? && r.value["status_code"] == JInt(200) ==>
      && ex.Response? && ex.body.Some? && ex.body.value.JObj?
      && var issues := Get(ex.body.value.fields, "issues", JArr([]));
      && issues.JArr? && |issues.items| > 0
      && r.value.Keys == {"status_code", "ticket"} && r.value["ticket"].JObj?
      && TicketDetails(issues.items[0]) == Some(r.value["ticket"].fields)
  {
    match ex
    case RequestException => Returned(ErrorResult("Network error retrieving ticket", 500))
    case OtherException => Raised(ForeignError)
    case Response(status, body) =>
      if status != 200 then Returned(ErrorResult("Failed to retrieve ticket", status))
      else if body.None? then Raised(JsonDecodeError)
      else if !body.value.JObj? then Raised(ShapeError)
      else
        var issues := Get(body.value.fields, "issues", JArr([]));
        if !Truthy(issues) then Returned(ErrorResult("Ticket " + ticketId + " not found for user " + userId, 404))
        else if !issues.JArr? then Raised(ShapeError)
        else match TicketDetails(issues.items[0])
          case None => Raised(ShapeError)
          case Some(ticket) => Returned(map["status_code" := JInt(status), "ticket" := JObj(ticket)])
  }

  /** Only the first issue matters: two 200 responses whose issue lists
      start with the same issue give the same result. */
  lemma TicketByKeyReadsFirstOnly(userId: string, ticketId: string, data: map<string, Json>,
                                  first: Json, rest1: seq<Json>, rest2: seq<Json>)
    ensures TicketByKeyOutcome(userId, ticketId, Response(200, Some(JObj(data["issues" := JArr([first] + rest1)]))))
         == TicketByKeyOutcome(userId, ticketId, Response(200, Some(JObj(data["issues" := JArr([first] + rest2)]))))
  {
  }

  /** `get_ticket_by_key(user_id, ticket_id)` after the request. */
  method GetTicketByKey(userId: string, ticketId: string, ex: Exchange) returns (r: Outcome<map<string, Json>>)
    ensures r == TicketByKeyOutcome(userId, ticketId, ex)
  {
    if ex.RequestException? {
      return Returned(ErrorResult("Network error retrieving ticket", 500));
    }
    if ex.OtherException? {
      return Raised(ForeignError);
    }
    if ex.status != 200 {
      return Returned(ErrorResult("Failed to retrieve ticket", ex.status));
    }
    if ex.body.None? {
      return Raised(JsonDecodeError);
    }
    var data := ex.body.value;
    if !data.JObj? {
      return Raised(ShapeError);
    }
    var issues := Get(data.fields, "issues", JArr([]));
    if !Truthy(issues) {
      return Returned(ErrorResult("Ticket " + ticketId + " not found for user " + userId, 404));
    }
    if !issues.JArr? || !issues.items[0].JObj? {
      return Raised(ShapeError);
    }
    var issue := issues.items[0].fields;
    var fields := Get(issue, "fields", JObj(map[]));
    if !fields.JObj? {
      return Raised(ShapeError);
    }
    var text := FlattenDescription(Get(fields.fields, "description", JObj(map[])));
    if text.None? {
      return Raised(ShapeError);
    }
    var ticket := TicketRecord(issue, fields.fields, text.value);
    if ticket.None? {
      return Raised(ShapeError);
    }
    return Returned(map["status_code" := JInt(ex.status), "ticket" := JObj(ticket.value)]);
  }
}

# Customer-service agent backend: ticket gateway and deployment configuration

This project models two parts of the backend of a customer-service agent:

- **The ticket gateway** (`backend/src/tools/ticket.py`). It has three
  functions that talk to a Jira Cloud REST API:
  - `create_jira_ticket`
  - `get_user_tickets`
  - `get_ticket_by_key`

  Each one builds a request and sends it. The request carries an HTTP
  Basic `Authorization` header, a JQL filter, and for creation a rich-text
  "doc" envelope holding the description. Each then turns the HTTP
  exchange into a result dict or an exception.
- **The deployment configuration** (`backend/src/deployment_config.py`).
  `AgentConfiguration` reads its settings from the environment in
  `__post_init__`. `internal_agent_name` turns the deployment name into a
  Python identifier. `get_deployment_config` validates the settings in a
  fixed order and parses the comma-separated list of extra packages.

Modules:

| file | module | what it holds |
|---|---|---|
| `python_values.dfy` | `PyValues` | Decoded JSON values, `dict.get`, truthiness, iteration that calls `.get`, and the exceptions that escape a call (`Outcome`). |
| `python_strings.dfy` | `PyStrings` | `str.replace`, `split`, `strip`, `isspace` and `isalpha`. |
| `utf8.dfy` | `Utf8` | `str.encode()` (RFC 3629) and a decoder. |
| `base64.dfy` | `Base64` | `base64.b64encode` (section 4 of RFC 4648) and a decoder. |
| `ticket.dfy` | `Ticket` | The gateway. |
| `deployment_config.dfy` | `DeploymentConfig` | The configuration. |

How the model treats the gateway's inputs and outputs:

- **HTTP exchange.** The gateway's HTTP call is an input value `Exchange`. It is one of:
  - a `RequestException`;
  - another exception;
  - a response with a status and a body. The body is `None` when it is not JSON.

  For each getter, a request builder (`UserTicketsRequest`,
  `TicketByKeyRequest`, `CreateTicketRequest`) states what is sent. An
  outcome function states what the getter returns or raises for every
  exchange.
- **Loops.** The loops of the source are methods proved equal to those
  outcome functions: the description flattening (two nested loops) and
  the loop that builds the ticket list.
- **JSON decoding.** Decoding a response body follows `requests` 2.27 or
  later. There, the error `response.json()` raises for a body that is not
  JSON is a `RequestException`. So `create_jira_ticket` turns such a body
  into its 500 "network error" result, because the decode happens inside
  its `try`. Both getters decode after their `try`, so for them the error
  escapes.

Where the gateway's docstrings and its code disagree, the model follows the
code:

- The docstrings of the three gateway functions list an `error` key among
  their results (`backend/src/tools/ticket.py` lines 60, 130-131 and
  207-208). In the code, several errors escape as exceptions instead:
  - a 200 response whose body is not JSON (both getters);
  - any exception from the HTTP layer that is not a `RequestException`;
  - a response body whose shape the code does not expect, for example
    issues that are not dicts, a description item whose text is not a
    string, or a creation response that is a JSON list.
- `get_user_tickets` flattens each issue's description and then discards
  the result. A malformed description therefore still makes the listing
  raise.

## Model

| member | source | states |
|---|---|---|
| PyValues.DictElems | backend/src/tools/ticket.py:158 | Iterating a value and calling `.get` on each element succeeds exactly when the value is a list of dicts, or an empty dict or empty string. A list yields its dicts in order. `None`, booleans and numbers always raise. |
| PyStrings.ReplaceChar | backend/src/deployment_config.py:75 | `replace("-", "_")` keeps the length and leaves no `-`. |
| PyStrings.ReplaceCharIdempotent | backend/src/deployment_config.py:75 | Replacing a second time changes nothing. |
| PyStrings.SplitPiecesFree | backend/src/deployment_config.py:150 | No piece of `split(",")` contains a comma. |
| PyStrings.SplitJoin | backend/src/deployment_config.py:150 | Joining the pieces of `split(",")` with commas gives the input back. |
| PyStrings.SplitSeparated | backend/src/deployment_config.py:150 | Splitting `s + "," + t` gives the pieces of `s` followed by the pieces of `t`. |
| PyStrings.SplitAllBlank | backend/src/deployment_config.py:150-153 | Every piece of the split is whitespace exactly when every input character is the separator or whitespace. |
| PyStrings.StripBounds | backend/src/deployment_config.py:150 | `strip()` removes a whitespace prefix and suffix. A non-empty result starts and ends with a non-whitespace character. |
| PyStrings.StripEmptyIffBlank | backend/src/deployment_config.py:150 | A string strips to "" exactly when it is all whitespace. |
| Utf8.EncodeChar | backend/src/tools/ticket.py:39 | One character encodes to 1 to 4 bytes. It is one byte exactly when the character is ASCII. |
| Utf8.DecodeEncode | backend/src/tools/ticket.py:39 | Decoding the UTF-8 encoding of any string gives the string back. |
| Base64.EncodeLength | backend/src/tools/ticket.py:39 | The encoding has 4 characters per started 3-byte group. |
| Base64.EncodeAlphabet | backend/src/tools/ticket.py:39 | Every character of the encoding is from the base 64 alphabet or `=`. |
| Base64.DecodeEncode | backend/src/tools/ticket.py:39 | Decoding the base 64 encoding of any byte string gives it back. |
| Ticket.RequiredEnv | backend/src/tools/ticket.py:18-23 | Returns the variable exactly when it is set and non-empty. Otherwise raises `ValueError` naming it. |
| Ticket.LoadSettings | backend/src/tools/ticket.py:26-29 | Loading succeeds exactly when all four JIRA_* variables are set and non-empty, and then holds their values. Otherwise the error names the first missing variable in reading order. |
| Ticket.AuthHeader | backend/src/tools/ticket.py:32-40 | Produces one `Authorization` header. Its value is "Basic " followed by base 64 alphabet characters. |
| Ticket.AuthHeaderDecodes | backend/src/tools/ticket.py:38-40 | The header value after "Basic " decodes, through base 64 and then UTF-8, back to `email:token`. |
| Ticket.CredentialsReadBack | backend/src/tools/ticket.py:38 | A server that splits the user-pass at the first colon (section 2 of RFC 7617) gets back the e-mail and the token, when the e-mail has no colon. |
| Ticket.SearchRequestShape | backend/src/tools/ticket.py:133-145 | A search is a GET to `https://api.atlassian.com/ex/jira/<cloud>/rest/api/3/search/jql` with no body and timeout 10. Its headers are exactly `Authorization` and `Accept`. Its parameters are exactly the filter, the returned fields and the page size. |
| Ticket.SearchRequestRefilter | backend/src/tools/ticket.py:210-222 | Two searches with different filters and page sizes differ in those two parameters and nothing else. |
| Ticket.SearchRequestsAgree | backend/src/tools/ticket.py:210-222 | The list search asks for 100 results. The by-key search is the same request with "key = <id> AND " in front of the filter and a page size of 1. |
| Ticket.CreateRequestShape | backend/src/tools/ticket.py:62-92 | The creation request is a POST to `https://api.atlassian.com/ex/jira/<cloud>/rest/api/3/issue` with timeout 10 and no query parameters. Its payload is one object, "fields", holding the issue's fields. |
| Ticket.IssueFieldsReadBack | backend/src/tools/ticket.py:64-81 | The creation fields are exactly project, summary, description, issue type and the owner field, holding the inputs. The description flattens back to the input. |
| Ticket.CreateRequestHeaders | backend/src/tools/ticket.py:83-87 | The creation headers are exactly `Authorization`, `Accept` and `Content-Type`. The last two are "application/json". |
| Ticket.DescriptionRoundTrip | backend/src/tools/ticket.py:68-77 | Flattening the one-paragraph, one-run document built for creation returns the original description. |
| Ticket.DescriptionText | backend/src/tools/ticket.py:162-163 | A description that is not a dict (missing, null, a string, ...) flattens to "". |
| Ticket.JoinTextsAppend | backend/src/tools/ticket.py:164-167 | The text of consecutive runs of blocks or items is the concatenation of their texts, in document order. The result fails if either part fails. |
| Ticket.DescriptionConcat | backend/src/tools/ticket.py:164-167 | A description whose blocks are `a` then `b` flattens to the text of `a` followed by the text of `b`. |
| Ticket.NonTextSkipped | backend/src/tools/ticket.py:166-167 | An item whose `type` is not "text" can be inserted anywhere in a block without changing the block's text. |
| Ticket.AppendBlockText | backend/src/tools/ticket.py:165-167 | The inner loop appends exactly the block's text to the accumulated text. It fails exactly when the block's text cannot be read. |
| Ticket.FlattenDescription | backend/src/tools/ticket.py:246-251 | The nested loops compute exactly the description text defined by `DescriptionText`, failing exactly where Python raises. |
| Ticket.CreateTicketOutcome | backend/src/tools/ticket.py:89-103 | Status 200 or 201 returns every body key, with the body winning over "status_code". Any other status returns "Failed to create ticket" with that status. A `RequestException` or a non-JSON body returns "Network error creating ticket" with 500. Other exceptions escape. |
| Ticket.CreatedKeyReported | backend/src/tools/ticket.py:100 | A successful creation returns the tracker's `key` unchanged and no `error`. |
| Ticket.TicketSummary | backend/src/tools/ticket.py:169-178 | A ticket summary has exactly the keys `ticket_id` and `summary`. |
| Ticket.UserTicketsOutcome | backend/src/tools/ticket.py:144-180 | A status other than 200 returns "Failed to retrieve tickets" with that status. A `RequestException` returns "Network error retrieving tickets" with 500. A non-JSON 200 body raises. A 200 JSON body returns exactly when it is a dict whose `issues` are dicts with dict fields and readable descriptions, and then carries no `error`. On success the result is `status_code` 200 and one summary per issue, in order, each holding only `ticket_id` and `summary`. |
| Ticket.UserTicketsListed | backend/src/tools/ticket.py:155-180 | A 200 response listing readable issues returns their summaries in order, with status 200 and no `error`. |
| Ticket.GetUserTickets | backend/src/tools/ticket.py:155-180 | The loop that appends summaries computes exactly `UserTicketsOutcome`. |
| Ticket.TicketRecord | backend/src/tools/ticket.py:253-262 | The ticket dict is built exactly when `issuetype` and `status` are dicts and `resolution` is falsy or a dict. It holds the six keys: the key, the summary, the flattened description, the type's and status's `name`, and `resolution`, which is `None` when the field is falsy and otherwise the field's `name`. |
| Ticket.TicketByKeyOutcome | backend/src/tools/ticket.py:221-264 | The by-key result covers five cases: <br>- a status other than 200 returns "Failed to retrieve ticket"; <br>- a `RequestException` returns "Network error retrieving ticket" with 500; <br>- a non-JSON body raises; <br>- falsy `issues` returns 404 with "Ticket <id> not found for user <user>", and truthy `issues` never returns anything but status 200; <br>- a list whose first issue reads into a ticket dict returns status 200 with that dict, and any 200 result holds the ticket dict of the first issue. |
| Ticket.TicketByKeyReadsFirstOnly | backend/src/tools/ticket.py:241 | Issues after the first never change the result. |
| Ticket.GetTicketByKey | backend/src/tools/ticket.py:232-264 | Reading the first issue, with the flattening loops, computes exactly `TicketByKeyOutcome`. |
| DeploymentConfig.SelectedProject | backend/src/deployment_config.py:43-54 | The project comes from GOOGLE_CLOUD_PROJECT when that is set and non-empty, and otherwise from the default credentials. It is usable exactly when one of the two gives a non-empty value. |
| DeploymentConfig.LocationFrom | backend/src/deployment_config.py:56-62 | The location is LOCATION if non-empty, else GOOGLE_CLOUD_LOCATION, else "europe-west4" only when that variable is absent. It is empty exactly when LOCATION is unset or empty and GOOGLE_CLOUD_LOCATION is "". |
| DeploymentConfig.InternalAgentName | backend/src/deployment_config.py:72-78 | The name has no `-`. It is the name with `-` replaced by `_`, prefixed by "agent_" exactly when its first character is neither a letter nor `_`. It always starts with a letter or `_`. The name must be non-empty. |
| DeploymentConfig.InternalAgentNameIdempotent | backend/src/deployment_config.py:75-78 | Converting an already converted name changes nothing. |
| DeploymentConfig.StrippedNonEmpty | backend/src/deployment_config.py:149-151 | The list comprehension keeps exactly the non-empty stripped pieces. It is empty exactly when every piece strips to "". |
| DeploymentConfig.StrippedNonEmptyAppend | backend/src/deployment_config.py:149-151 | The comprehension keeps order: over two runs of pieces it gives the first run's result followed by the second's. |
| DeploymentConfig.StrippedNonEmptyOne | backend/src/deployment_config.py:150 | One piece gives its stripped form when that is non-empty and nothing otherwise. |
| DeploymentConfig.StripIdempotent | backend/src/deployment_config.py:150 | Stripping twice is the same as stripping once. |
| DeploymentConfig.StripKeeps | backend/src/deployment_config.py:150 | Stripping adds no character, so a stripped piece of the split holds no comma. |
| DeploymentConfig.ExtraPackages | backend/src/deployment_config.py:148-154 | The packages are the comprehension over the comma-separated pieces of the input. Every package is non-empty, comma-free and already stripped. The list is empty, so "No extra packages specified" is raised, exactly when the input is only commas and whitespace. |
| DeploymentConfig.ExtraPackagesSeparated | backend/src/deployment_config.py:148-151 | The packages of `s + "," + t` are those of `s` followed by those of `t`, so the input's order and repetitions are kept. |
| DeploymentConfig.SinglePackage | backend/src/deployment_config.py:148-151 | A value with no comma and no surrounding whitespace names exactly one package, itself. |
| DeploymentConfig.DefaultExtraPackages | backend/src/deployment_config.py:148 | The default "./backend/src" gives the one package "./backend/src". |
| DeploymentConfig.AgentConfiguration.constructor | backend/src/deployment_config.py:26-37 | The field defaults. MODEL and AGENT_NAME are read from the environment as it was at import. |
| DeploymentConfig.AgentConfiguration.PostInit | backend/src/deployment_config.py:39-70 | Sets the project id, location, staging bucket and corpus id in that order. It stops at the first missing one with its error and leaves the later fields unchanged. It succeeds exactly when the object ends up initialised. The model and name are untouched. |
| DeploymentConfig.LoadConfig | backend/src/deployment_config.py:172 | The module-level configuration is fresh and has the import-time defaults and the selected project. Its location, staging bucket and corpus id are those `__post_init__` reaches, with the constructor defaults for the fields after the first missing setting, and the error names that setting. It is initialised exactly when creation raised nothing. |
| DeploymentConfig.GetDeploymentConfig | backend/src/deployment_config.py:124-164 | Checks run in order: project id, staging bucket, agent name, requirements file, extra packages. The first failure raises its message. It returns exactly when all five checks pass. On success, project, location, bucket and corpus id are the configuration's own, and the packages are the non-empty parsed list. |
| DeploymentConfig.InitialisedConfigDeploys | backend/src/deployment_config.py:124-164 | After a successful `__post_init__`, with a non-empty name, default settings and an existing ".requirements.txt", the deployment settings are built with the package "./backend/src". |

## Left out

- The HTTP calls themselves, the expiry of their 10-second timeouts and the decoding of wire bytes into JSON are not modelled. The exchange is an input, and JSON numbers are integers: floating point is not modelled.
- The order of keys in Python dicts is not modelled: dicts are maps.
- PyValues.DictElems: TypeError, AttributeError and KeyError are all the one exception kind `ShapeError`. The model says that the call raises, not which of them it raises.
- PyStrings.IsAlpha: covers ASCII and Latin-1 letters only. Python's `str.isalpha` also accepts letters of other scripts.
- DeploymentConfig.InternalAgentName: because of `IsAlpha`, a deployment name starting with a letter outside ASCII and Latin-1, such as "α", gets the "agent_" prefix in the model, while Python keeps "α" as it is.
- Environment values are Dafny strings of Unicode scalar values. Python's `os.environ` turns bytes that are not valid UTF-8 into lone surrogates, and `.encode()` on such a `JIRA_EMAIL` or `JIRA_TOKEN` raises `UnicodeEncodeError` when the authorization header is built, before any `try` (`backend/src/tools/ticket.py` lines 39, 84, 142 and 219). The model cannot express such values, so it does not model that error.
- Loading `.env` files (`load_dotenv`, `load_environment_variables`) is not modelled. The environment is a map given as input. `AgentConfiguration` receives both the environment at import time, which supplies the class-level defaults, and the environment at `__post_init__`.
- `google.auth.default()` is an input (`AuthDefault`). Whether the requirements file exists is an input set of existing paths.
- `initialize_vertex_ai` and `vertexai.init` are foreign calls with printed output only, and are not modelled.
- `get_project_id` only returns `config.project_id` and is not modelled separately.
- Logging configuration and all printing are not modelled.
- The gateway's network-error test raises a plain `Exception` from the stubbed HTTP call. The code does not catch that exception, so the model lets it escape (`ForeignError`) rather than returning the 500 result the test expects.
- Base64.Decode and Utf8.Decode are the decoders the round trips are stated against. They reject what Python rejects in the encodings' canonical forms. They do not model every detail of Python's lenient decoding options.

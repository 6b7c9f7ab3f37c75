# Bamboo REST client: request building and paging

This project models the pure core of a Python client for the Bamboo CI server's REST API. The client is the `Bamboo` class, built on the shared `AtlassianRestAPI` base class. The model covers what a call sends and how listings page. It is a model of the request-building rules, not of the network.

- **rest_client.dfy** (`RestClient`): the base class.
  - Python values and their truthiness.
  - The Confluence `/wiki` rewrite that `__init__` applies to the base URL.
  - `url_joiner` and `resource_url`.
  - The query string `request` appends: `?`, the encoded parameters, then the `&`-joined flags.
  - The choice `get` makes between raw bytes, `None`, parsed JSON and the response text.
- **bamboo.dfy** (`Bamboo`): the endpoints, as pure functions of their arguments. A plain endpoint gives the `Call` it sends: verb, path, parameter map, flags and headers. A listing gives a `Listing`: one call, or a paged call with its paging keys. `health_check` gives a `Probe` of its two requests. `build_result` and `delete_build_result` give a `Result` whose failure is the raised exception. The offset loops give the `Trace` of their requests and yields.
  - `base_list_call`, and its choice between one `get` and the paging generator.
  - The `results` path cascade.
  - The build-key check of `build_result` and the key split of `delete_build_result`.
  - The parameters of `execute_build`, `create_branch`, `chart` and the group-membership listings.
  - The two-endpoint fallback of `health_check`.
  - The two endpoints that loop over offsets.
- **bamboo_paging.dfy** (`BambooPaging`): the server is an oracle from a request to the page it answers.
  - `_get_generator` as written.
  - The offset loop of `deployment_environment_results` and `search_branches`, with a request bound.
  - The multi-page walker that `_get_generator`'s docstring describes. The code points to it with its running-count test `size > max_results`, which only ever compares 0, and with `start_index += results['max-result']`, which is never read (bamboo.py:37, 42).
- **text.dfy** (`Text`): the Python string operations the rules use.
  - `strip`, `'/'.join`, `split` on one character and `in` on strings.
  - `str(n)`.
  - The integer literals `int()` accepts, approximated as an optional sign followed by decimal digits.
- **wrappers.dfy** (`Wrappers`): `Option` and `Result`. A `Failure` stands for a raised Python exception.

Some things are parameters rather than part of the model:
- the HTTP transport (`transport: Call -> Response`, or `server: Call -> Page<T>` for listings);
- `urlencode` (`encode: Params -> string`);
- the JSON decoder (`parse: string -> Option<Json>`).

Optional string keys are `string`, and an empty key stands for `None`: both are falsy and neither is ever formatted into a path. Arguments that Python passes through untouched are `Value`s (`None`, text, integer or boolean).

The generator's documentation describes a walker that keeps requesting pages. The code requests one page and stops. The model follows the code and records the difference under Findings.

## Model

| member | source | states |
|---|---|---|
| Text.Strip | atlassian/rest_client.py:108 | `s.strip('/')` yields a string with no separator at either end, no longer than its input |
| Text.StripIgnoresPadding | atlassian/rest_client.py:108 | stripping ignores any number of extra separators added at either end |
| Text.Split | atlassian/bamboo.py:236 | `split('-')` gives at least one piece, and no piece holds a separator |
| Text.SplitCount | atlassian/bamboo.py:236 | `split('-')` gives one piece more than there are separators in the string |
| Text.Join | atlassian/rest_client.py:104-108 | `sep.join(parts)` starts with the first part; with `Split` it round-trips (`JoinSplit`, `SplitJoin`) |
| Text.JoinSplit | atlassian/bamboo.py:236-237 | joining the pieces of a split with the separator gives back the original string |
| Text.SplitJoin | atlassian/rest_client.py:134 | splitting the `&`-join of separator-free pieces gives back exactly those pieces |
| Text.Contains | atlassian/rest_client.py:24-26 | the `in` test: a contained string is no longer than the text, and every prefix of the text is contained in it |
| Text.ContainsSuffix | atlassian/rest_client.py:25 | a string always contains any text it ends with, so a URL ending in `/wiki` contains `/wiki` |
| Text.LastToken | atlassian/bamboo.py:207 | `split('-')[-1]` is the longest separator-free suffix: all of the string or what follows its last `-` |
| Text.LastTokenAfterSeparator | atlassian/bamboo.py:207 | the last token of `p + '-' + t` is `t` whenever `t` holds no `-` |
| Text.IsIntLiteral | atlassian/bamboo.py:207 | what `int()` accepts: every non-empty digit string, and nothing but digits after an optional leading sign, ending in a digit |
| Text.IntValue | atlassian/bamboo.py:207 | the value `int()` gives: negative only for a `-` literal, never positive for one; `Format` of an integer reads back as that integer |
| Text.Decimal | atlassian/bamboo.py:126 | `str(n)` is a non-empty digit string without a leading zero, and `"0"` for zero |
| Text.DecimalRoundTrip | atlassian/bamboo.py:126 | reading back the decimal text `str(n)` gives `n` |
| Text.DecimalCanonical | atlassian/bamboo.py:126 | every digit string without a leading zero is `str` of its value, so `str(n)` and reading digits are inverse |
| RestClient.Truthy | atlassian/bamboo.py:46-53 | Python truthiness: a value is falsy exactly when it is `None`, the empty string, 0 or `False` |
| RestClient.Format | atlassian/bamboo.py:126 | `'{}'.format(v)` inserts text unchanged, and an integer as decimal text that `int()` reads back as the same integer, which is `str(n)` when it is not negative |
| RestClient.BoolText | atlassian/bamboo.py:371-372 | `'true' if b else 'false'` is always non-empty text, so both values are truthy as parameters |
| RestClient.BoolTextInjective | atlassian/bamboo.py:413 | the two texts still tell the two booleans apart |
| RestClient.EffectiveHeaders | atlassian/rest_client.py:138 | `headers or default_headers`: never empty, the caller's headers whenever given, JSON `Accept` otherwise |
| RestClient.UrlJoiner | atlassian/rest_client.py:107-111 | the result ends in `/` exactly when `trailing` is set or the stripped path is empty |
| RestClient.UrlJoinerIgnoresOuterSlashes | atlassian/rest_client.py:108 | extra leading or trailing slashes on either part never change the joined URL |
| RestClient.UrlJoinerOfStripped | atlassian/rest_client.py:108 | the joined URL depends only on the stripped parts |
| RestClient.UrlJoinerExample | atlassian/rest_client.py:107-111 | `url_joiner("a/", "/b")` and `url_joiner("a", "b")` are both `"a/b"` |
| RestClient.UrlJoinerOneSlashEach | atlassian/rest_client.py:108 | one `/` after the URL and one before the path are dropped |
| RestClient.UrlJoinerOfSlashed | atlassian/rest_client.py:107-111 | for unpadded parts, `url + '/'` with `'/' + path` and the bare parts both join to `url + '/' + path` |
| RestClient.UrlJoinerOfUnpadded | atlassian/rest_client.py:108 | parts without outer slashes are joined unchanged with one `/` |
| RestClient.UrlJoinerTrailing | atlassian/rest_client.py:109-110 | `trailing` appends exactly one `/` to the untrailed result |
| RestClient.NeedsWiki | atlassian/rest_client.py:24-26 | the `/wiki` condition holds for the class `Confluence` on an `atlassian.net` URL without `/wiki`, and never for a URL that already contains `/wiki` |
| RestClient.ConfluenceUrl | atlassian/rest_client.py:24-27 | the base URL changes exactly when the URL is an Atlassian Cloud host without `/wiki` and the class name occurs in "Confluence"; the changed URL is the stripped URL plus `/wiki` |
| RestClient.JoinWiki | atlassian/rest_client.py:27 | joining `/wiki` onto a URL gives the stripped URL followed by `/wiki`, which contains `/wiki` |
| RestClient.ConfluenceUrlIdempotent | atlassian/rest_client.py:24-27 | applying the rewrite to an already rewritten URL changes nothing |
| RestClient.Connect | atlassian/rest_client.py:22-34 | the client keeps the API root and version, and its URL differs from the given one exactly when the `/wiki` rule applies |
| RestClient.ResourceUrl | atlassian/rest_client.py:103-104 | the resource URL starts with the API root and ends with the resource |
| RestClient.Query | atlassian/rest_client.py:131-134 | the query is the flags alone with no parameters, the encoded parameters alone with no flags, and otherwise both separated by one `&` |
| RestClient.RequestUrl | atlassian/rest_client.py:128-134 | the request URL is the joined base URL, followed by `?` and the query exactly when there are parameters or flags |
| RestClient.RequestUrlHasQuery | atlassian/rest_client.py:129-130 | the character after the joined base URL is `?` if and only if the call has parameters or flags |
| RestClient.QueryFlagsLast | atlassian/rest_client.py:131-134 | splitting the query at `&` ends with the flags in order, and gives exactly the flags when there are no parameters |
| RestClient.JsonTruthy | atlassian/bamboo.py:428 | `not response` on decoded JSON: falsy exactly for `None`, `False`, 0, the empty string, the empty list and the empty dict |
| RestClient.AnswerTruthy | atlassian/bamboo.py:428 | `not response` on what `get` returned: falsy exactly for `None`, empty bytes, empty text and a falsy JSON value |
| RestClient.DecodeGet | atlassian/rest_client.py:204-213 | raw bytes exactly when a non-JSON response is asked for; otherwise `None` exactly for an empty body, parsed JSON exactly when parsing succeeds, and the non-empty text when it fails |
| RestClient.DecodeGetTextFallback | atlassian/rest_client.py:209-213 | a non-empty body that is not JSON comes back as its text, which is truthy |
| BambooPaging.At | atlassian/bamboo.py:31 | a page request is the base call with `start-index` set and every other parameter, the path, flags and headers unchanged |
| BambooPaging.Pages | atlassian/bamboo.py:32 | the page at an offset is the server's answer to the base call sent with that `start-index` |
| BambooPaging.GetGenerator | atlassian/bamboo.py:30-42 | exactly one request, at `start-index` 0; nothing is yielded when `max_results` is negative or the page reports size 0, and otherwise exactly that page's elements |
| BambooPaging.GetGeneratorStopsAfterOnePage | atlassian/bamboo.py:30-42 | against a server listing more than one page, the generator yields only the first page, a strict prefix of the collection |
| BambooPaging.OffsetLoop | atlassian/bamboo.py:316-323 | the first request is at the start offset when it is below the size; a run cut off by the request bound used all of it; a start at or past the size requests nothing |
| BambooPaging.OffsetLoopStep | atlassian/bamboo.py:318-323 | one turn of the loop: the page at the offset, then the loop from offset plus `max-result` with the page's `size` |
| BambooPaging.OffsetLoopAdvances | atlassian/bamboo.py:323 | each request after the first is at the previous offset plus the previous page's `max-result`, and below the size that page reported |
| BambooPaging.OffsetLoopItems | atlassian/bamboo.py:321-322 | what the loop yields is the in-order concatenation of the requested pages' elements |
| BambooPaging.OffsetLoopEnds | atlassian/bamboo.py:318 | a finished run's last page pointed at or past the size it reported |
| BambooPaging.OffsetLoopTerminates | atlassian/bamboo.py:316-323 | with a fixed size `n` and every `max-result` at least 1, the loop finishes within `n - start + 1` requests |
| BambooPaging.OffsetLoopStalls | atlassian/bamboo.py:316-323 | a page with `max-result` 0 below its size makes the loop re-request that same offset until any bound runs out |
| BambooPaging.OffsetLoopListsAll | atlassian/bamboo.py:316-323 | against an honest server the loop finishes and yields the collection from the start offset on, in order |
| BambooPaging.Limit | atlassian/bamboo.py:37 | the walker's element budget is the first page's size, capped by the caller's limit |
| BambooPaging.WalkFrom | atlassian/bamboo.py:36-42 | the corrected walker from an offset always finishes and never yields more than its budget |
| BambooPaging.WalkFromShape | atlassian/bamboo.py:36-42 | the corrected walker only moves forward by positive `max-result` steps and yields a prefix of the requested pages' elements |
| BambooPaging.WalkPages | atlassian/bamboo.py:30-42 | the corrected walker starts at 0, makes one request and yields nothing when the first page reports size 0, and never yields more than that size or the cap |
| BambooPaging.WalkPagesListsAll | atlassian/bamboo.py:30-42 | against an honest server the corrected walker yields the whole collection in order, cut at the cap when one is given |
| BambooPaging.SinglePageAgrees | atlassian/bamboo.py:30-42 | when the first page holds everything, the generator as written and the corrected walker coincide |
| BambooPaging.TwoPageScenario | atlassian/bamboo.py:30-42 | three elements in pages of two: the corrected walker and the offset loop both make two requests and yield all three in order, while the generator as written makes one request and yields two |
| Bamboo.BambooClient | atlassian/rest_client.py:22-34 | a `Bamboo` client keeps its URL unchanged and uses `rest/api/latest` |
| Bamboo.ListFlags | atlassian/bamboo.py:45-52 | the flags hold `favourite` exactly when asked, `cloverEnabled` exactly when asked, and nothing else |
| Bamboo.ListParams | atlassian/bamboo.py:46-55 | `max-results` is always present, `expand` and `label` only when truthy or given as keywords, and keyword arguments override everything else |
| Bamboo.BaseListCall | atlassian/bamboo.py:44-62 | the call pages exactly when both `elements_key` and `element_key` are keywords; both paths `get` the resource URL with the listing flags, and only the single `get` sets `start-index` |
| Bamboo.PagedListingIgnoresStartIndex | atlassian/bamboo.py:56-61 | a paged listing is the same whatever `start_index` was passed |
| Bamboo.ListingFlagsEndQuery | atlassian/bamboo.py:49-52 | a listing's flags come last in its query string, in order |
| Bamboo.Iterate | atlassian/bamboo.py:56-60 | iterating a listing runs the generator exactly when it pages, and then makes a single request at offset 0 |
| Bamboo.IterateStopsAfterOnePage | atlassian/bamboo.py:56-60 | every paged listing yields only its first page when the server holds more, which is fewer elements than the intended walk yields when the server's pages are smaller than `max_results` |
| Bamboo.IterateAgreesOnFullPages | atlassian/bamboo.py:55-60 | a listing asks for pages of `max_results` and is capped at `max_results`, so against a server whose pages have exactly that size the listing as written and the intended walk yield the same elements |
| Bamboo.IterateIntended | atlassian/bamboo.py:30-42 | walking a paged listing as intended: every page, never more than its `max_results` elements |
| Bamboo.IterateIntendedListsAll | atlassian/bamboo.py:30-42 | against an honest server, the intended walk yields the collection in order up to `max_results` |
| Bamboo.Projects | atlassian/bamboo.py:84-86 | the paged `project` listing, with the paging keys also sent as parameters |
| Bamboo.Project | atlassian/bamboo.py:88-90 | one `get` of `project/<key>` with 25 results from index 0 and no label |
| Bamboo.ProjectPlans | atlassian/bamboo.py:92-100 | the paged plans of a project with `expand=plans`, 25 per page and no flags |
| Bamboo.Plans | atlassian/bamboo.py:102-104 | the paged `plan` listing, as written |
| Bamboo.PlansSwapsArguments | atlassian/bamboo.py:103 | `max-results` carries the start index, the page size travels as a `label` whenever it is not 0, and the generator's bound is the start index |
| Bamboo.PlansIntended | atlassian/bamboo.py:102-104 | the intended listing: `max-results` is the page size, no label is sent, and the bound is the page size |
| Bamboo.PlansDefaultsDiffer | atlassian/bamboo.py:103 | with the defaults, the code sends `max-results=0` and `label=25` where 25 results and no label were meant |
| Bamboo.PlanBranches | atlassian/bamboo.py:348-352 | the paged `plan/<key>/branch` listing |
| Bamboo.ResultsPath | atlassian/bamboo.py:124-132 | the path follows the four-way cascade, falling back to `result` |
| Bamboo.ResultsPathIgnores | atlassian/bamboo.py:124-132 | a job key without a build number is ignored, no project key always gives `result`, and a project without a plan ignores plan, job and build |
| Bamboo.ResultsPathSegments | atlassian/bamboo.py:125-128 | for slash-free keys, the path reads back as `result`, the dashed key and the build number |
| Bamboo.ResultsKwargs | atlassian/bamboo.py:134-141 | the results keywords hold the paging keys, `issueKey` exactly when truthy and `includeAllStates` exactly when set |
| Bamboo.Results | atlassian/bamboo.py:106-141 | results always page, at the cascade's path, with the filters present exactly when given and no `start-index` |
| Bamboo.LatestResults | atlassian/bamboo.py:143-158 | the latest results page over the bare `result` collection |
| Bamboo.ProjectLatestResults | atlassian/bamboo.py:160-176 | a project's latest results page over `result/<project>` |
| Bamboo.PlanResults | atlassian/bamboo.py:178-195 | a plan's results page over `result/<project>-<plan>` |
| Bamboo.BuildResult | atlassian/bamboo.py:206-212 | a request is built exactly when the last `-` token reads as an integer, and otherwise a `ValueError` naming the key; the request is one `get` of `result/<key>` with 25 results from 0 and `include_all_states` |
| Bamboo.BuildResultKeys | atlassian/bamboo.py:206-212 | a key ending in `-` and a build number is accepted, and a key ending in `-` is rejected |
| Bamboo.DeleteBuildResult | atlassian/bamboo.py:235-240 | a request exists exactly when the key has at least two `-`, and otherwise indexing fails; it is a form `post` to the fixed action path carrying `buildKey` and `buildNumber` |
| Bamboo.DeleteBuildResultKey | atlassian/bamboo.py:236-239 | `A-B-N` followed by anything starting with `-` is sent as `buildKey=A-B` and `buildNumber=N` |
| Bamboo.VariableParams | atlassian/bamboo.py:414-416 | each build variable `k=v` is sent as `bamboo.variable.k=v`, and only prefixed names are added |
| Bamboo.VariablesOf | atlassian/bamboo.py:414-416 | reading the prefixed parameters back gives one variable per prefixed parameter |
| Bamboo.StageParams | atlassian/bamboo.py:407-413 | `stage` and `customRevision` appear exactly when given; `executeAllStages` is always sent, and it is false whenever a stage is given |
| Bamboo.ExecuteBuild | atlassian/bamboo.py:406-418 | a form `post` to `queue/<plan>` whose parameters are the named ones plus the prefixed variables, with nothing else |
| Bamboo.ExecuteBuildStageWins | atlassian/bamboo.py:409-413 | with a stage, whether all stages were asked for makes no difference, and `executeAllStages` is `false` |
| Bamboo.ExecuteBuildVariablesRoundTrip | atlassian/bamboo.py:414-416 | the variables read back from the sent parameters are exactly the variables passed |
| Bamboo.CreateBranch | atlassian/bamboo.py:367-373 | a `put` to `plan/<plan>/branch/<branch>`; no parameters exactly when there is no VCS branch, and otherwise the branch and both switches as text |
| Bamboo.CreateBranchSwitchesNeedVcsBranch | atlassian/bamboo.py:368-372 | without a VCS branch the two switches make no difference |
| Bamboo.CreateBranchSwitchesMatter | atlassian/bamboo.py:369-372 | with a VCS branch, two requests are equal exactly when both switches agree |
| Bamboo.ChartOptionParams | atlassian/bamboo.py:259-267 | date filter, width and height are sent exactly when truthy; the range dates exactly when the filter is `RANGE` |
| Bamboo.Chart | atlassian/bamboo.py:256-269 | a `get` of `chart` with report key, build keys, period and paging always present, plus the option parameters and nothing else |
| Bamboo.DefaultChart | atlassian/bamboo.py:256-258 | with the defaults, exactly the five fixed parameters, starting at index 9 with 25 results |
| Bamboo.ChartRangeOnlyForRange | atlassian/bamboo.py:259-262 | under any filter other than `RANGE`, the range dates make no difference |
| Bamboo.MembershipParams | atlassian/bamboo.py:511-513 | a truthy filter is the only parameter; otherwise `limit` and `start` are |
| Bamboo.GetUsersFromGroup | atlassian/bamboo.py:501-515 | a `get` of the group's `more-members` page under `rest/api/latest`, with the membership parameters |
| Bamboo.GetUsersNotInGroup | atlassian/bamboo.py:517-532 | the same request against the group's `more-non-members` page |
| Bamboo.MembershipFilterReplacesPaging | atlassian/bamboo.py:512-514 | with a filter, start and limit make no difference; without one, requests are equal exactly when both start and limit agree |
| Bamboo.MembershipPagesDiffer | atlassian/bamboo.py:512-532 | members and non-members are asked for with equal parameters at different paths |
| Bamboo.HealthCheck | atlassian/bamboo.py:427-431 | the troubleshooting page is asked first; the support-tools page is asked exactly when that answer is falsy, and its answer is then returned |
| Bamboo.HealthCheckTruthy | atlassian/bamboo.py:427-431 | the result is truthy exactly when one of the two pages gave a truthy answer |
| Bamboo.HealthCheckTextAnswer | atlassian/bamboo.py:427-431 | a non-JSON first body is returned as text without a second request, and an empty first body always leads to the second request |
| Bamboo.DeploymentEnvironmentRequest | atlassian/bamboo.py:313-317 | the first request goes to `deploy/environment/<id>/results` with `max-result`, `start-index` 0 and `expand` exactly when truthy |
| Bamboo.DeploymentEnvironmentResults | atlassian/bamboo.py:312-323 | the listing's first request is at offset 0, and it makes no more requests than the bound |
| Bamboo.DeploymentEnvironmentFirstPage | atlassian/bamboo.py:314-319 | the request for offset 0 is the first request itself |
| Bamboo.DeploymentEnvironmentListsAll | atlassian/bamboo.py:312-323 | against an honest server the listing finishes and yields every result, in order |
| Bamboo.SearchBranchesRequest | atlassian/bamboo.py:334-339 | the search goes to `search/branches` with exactly `max-result`, `start-index` 0, the plan key and the master-branch switch |
| Bamboo.SearchBranches | atlassian/bamboo.py:333-346 | the search's first request is at offset 0, and it makes no more requests than the bound |
| Bamboo.SearchBranchesListsAll | atlassian/bamboo.py:333-346 | against an honest server the search finishes and yields every branch, in order |
| Bamboo.SearchBranchesStalls | atlassian/bamboo.py:340-346 | a first page with `max-result` 0 and a positive size keeps the search from ever finishing |

## Left out

- The HTTP transport is out of the model. That covers sessions, basic, OAuth and Kerberos authentication, TLS, timeouts, the request body (`json.dumps(data)`, files), status-code logging and `raise_for_status`. Calls are values, and servers are function parameters.
- `urlencode` and JSON decoding are foreign library code. They appear as function parameters, so the order of query parameters is not modelled. Parameters are a map.
- The page envelope is not modelled. A page is what the paging code reads from it: `response[elements_key]['size']`, `['max-result']` and the element list (`results['results']` or `results['searchResults']` in the offset loops). Missing keys raise `KeyError` in Python; that case is not modelled.
- `post`, `put` and `delete` are modelled only as the calls they send. Their decoding of the response and the `advanced_mode` switch are not modelled.
- `Text.IsIntLiteral`: Python's `int()` also accepts surrounding whitespace, `_` between digits, and every non-ASCII Unicode decimal digit (category Nd, such as `'٣'` or full-width `'３'`). Keys using those are rejected in the model and accepted by the source.
- `Bamboo.BuildResult`: the `try`/`except ValueError` also wraps the request. A `ValueError` raised by the transport would be rewritten into the same message, and the model does not show that.
- `BambooPaging.OffsetLoop`, `Bamboo.DeploymentEnvironmentResults`, `Bamboo.SearchBranches`: the source loop has no bound. These take a `fuel` limit on the number of requests, and a run the limit cuts short is marked unfinished. No finite limit captures a loop that never ends, which is what `OffsetLoopStalls` states instead.
- `Bamboo.ExecuteBuild`: the `variables` map may hold names such as `stage` or `plan_key`. Python binds those to the named parameters and never sends them as variables, so the model accepts a harmless superset of the calls the source can make.
- Python type errors that come from argument types are not modelled. Examples are `0 > None` when `reports` leaves `max_results` out, and `params=None` in `_get_generator`. `max_results` is an integer and `params` a map throughout.
- `reports` pages through `_get_generator` over `chart/reports` and is not modelled separately. Its paging is that of `BambooPaging.GetGenerator`, and its missing `max_results` is the type error named above.
- `upload_plugin` does file I/O and a token round trip, and is not modelled.
- Endpoints that are one fixed path and a call are not modelled. Examples are `comments`, `activity`, the deployment and queue endpoints, plugins, permissions and the other group endpoints. They state nothing beyond their path template.
- `Bamboo.ResultsPath`: keys are strings, and an empty string stands for `None`. A falsy non-string key, such as the integer 0, is not modelled.
- `Bamboo.Results`: `includeAllStates` is sent as `Bool(true)`, the value passed in. A truthy non-boolean value would be sent as itself.
- The JSON model has integers only. Floating-point numbers in responses are not modelled.

## Findings

| source | as written | input that shows it | evidently intended | confidence | as-written member | corrected member |
|---|---|---|---|---|---|---|
| atlassian/bamboo.py:30-42 | `_get_generator` requests the page at `start-index` 0, yields its elements, then advances `start_index` and never uses it. No later page is ever requested. | A collection of 3 with pages of 2: the first page reports `size=3`, `max-result=2` and holds 2 elements. Only those 2 are yielded. | Keep requesting pages at `start-index + max-result` until the first page's `size` (or the caller's cap) is reached, and stop on an empty page or no progress. | not executed | BambooPaging.GetGenerator (shown by BambooPaging.TwoPageScenario and BambooPaging.GetGeneratorStopsAfterOnePage) | BambooPaging.WalkPages (proved by BambooPaging.WalkPagesListsAll and BambooPaging.TwoPageScenario; listings use it through Bamboo.IterateIntended. A listing asks for pages of `max_results` and is capped at `max_results`, so listings lose elements only when the server sends smaller pages than that: Bamboo.IterateStopsAfterOnePage and Bamboo.IterateAgreesOnFullPages) |
| atlassian/bamboo.py:103 | `plans` passes `start_index, max_results` by position into the `max_results, label` slots of `base_list_call`. | `plans()` with its defaults sends `max-results=0` and `label=25`. | Send `max-results=max_results` and no label. | not executed | Bamboo.Plans (shown by Bamboo.PlansSwapsArguments and Bamboo.PlansDefaultsDiffer) | Bamboo.PlansIntended |

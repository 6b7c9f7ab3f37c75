/** The request-building rules of the Bamboo client (`Bamboo` in
    atlassian/bamboo.py): what each modelled endpoint sends (verb, path,
    query parameters, flags, headers), the checks some of them make on their
    arguments before sending anything, and the endpoints that page. */
module Bamboo {
  import opened Wrappers
  import opened Text
  import opened RestClient
  import opened BambooPaging

  /** The client the module's constructor builds: `Bamboo(url)` keeps the
      default API root and version, and its class name never triggers the
      Confluence `/wiki` rewrite. */
  function BambooClient(url: string): (c: Client)
    ensures c.url == url
    ensures c.apiRoot == "rest/api" && c.apiVersion == "latest"
  {
    BambooIsNotConfluence();
    Connect(url, "Bamboo", "rest/api", "latest")
  }

  /** "Bamboo" is not a substring of "Confluence". */
  lemma BambooIsNotConfluence()
    ensures !Contains("Confluence", "Bamboo")
  {
    forall i | 0 <= i <= |"Confluence"| - |"Bamboo"|
      ensures !OccursAt("Confluence", "Bamboo", i)
    {
      assert "Confluence"[i..i + 6][0] == "Confluence"[i] != 'B';
    }
  }

  // ---------------------------------------------------------------------------
  // base_list_call
  // ---------------------------------------------------------------------------

  /** What `base_list_call` does with a listing request: a single `get` whose
      decoded answer is returned, or a call handed to `_get_generator` with
      the keys under which the page and its elements sit and the
      `max_results` bound the generator checks. */
  datatype Listing =
    | Single(call: Call)
    | Paged(call: Call, elementsKey: Value, elementKey: Value, maxResults: int)

  /** The flags of a listing call: `favourite`, then `cloverEnabled`, each
      only when asked for. */
  function ListFlags(favourite: bool, cloverEnabled: bool): (f: seq<string>)
    ensures "favourite" in f <==> favourite
    ensures "cloverEnabled" in f <==> cloverEnabled
    ensures |f| == (if favourite then 1 else 0) + (if cloverEnabled then 1 else 0)
    ensures favourite ==> f[0] == "favourite"
    ensures cloverEnabled ==> f[|f| - 1] == "cloverEnabled"
  {
    (if favourite then ["favourite"] else []) + (if cloverEnabled then ["cloverEnabled"] else [])
  }

  /** The parameters of a listing call: `max-results` always, `expand` and
      `label` only when truthy, and then every keyword argument, which wins
      over any of those three. */
  function ListParams(expand: Value, maxResults: int, tag: Value, kwargs: Params): (p: Params)
    ensures forall k :: k in kwargs ==> k in p && p[k] == kwargs[k]
    ensures "max-results" in p
    ensures "max-results" !in kwargs ==> p["max-results"] == Int(maxResults)
    ensures "expand" in p <==> Truthy(expand) || "expand" in kwargs
    ensures "expand" !in kwargs && Truthy(expand) ==> p["expand"] == expand
    ensures "label" in p <==> Truthy(tag) || "label" in kwargs
    ensures "label" !in kwargs && Truthy(tag) ==> p["label"] == tag
    ensures forall k :: k in p ==> k in kwargs || k == "max-results" || k == "expand" || k == "label"
  {
    var p := map["max-results" := Int(maxResults)];
    var p := if Truthy(expand) then p["expand" := expand] else p;
    var p := if Truthy(tag) then p["label" := tag] else p;
    p + kwargs
  }

  /** `base_list_call(resource, expand, favourite, clover_enabled,
      max_results, label, start_index, **kwargs)`: a `get` of the resource
      URL with the listing flags and parameters. It is handed to the paging
      generator exactly when both `elements_key` and `element_key` are
      keyword arguments (which then also travel as query parameters);
      otherwise `start-index` is set from the argument and the call is sent
      once. */
  function BaseListCall(c: Client, resource: string, expand: Value, favourite: bool, cloverEnabled: bool,
                        maxResults: int, tag: Value, startIndex: int, kwargs: Params): (r: Listing)
    ensures r.Paged? <==> "elements_key" in kwargs && "element_key" in kwargs
    ensures r.call.verb == Get && r.call.path == ResourceUrl(c, resource) && r.call.headers == map[]
    ensures r.call.flags == ListFlags(favourite, cloverEnabled)
    ensures r.Paged? ==> r.call.params == ListParams(expand, maxResults, tag, kwargs)
    ensures r.Paged? ==> r.elementsKey == kwargs["elements_key"] && r.elementKey == kwargs["element_key"]
    ensures r.Paged? ==> r.maxResults == maxResults
    ensures r.Single? ==> r.call.params == ListParams(expand, maxResults, tag, kwargs)["start-index" := Int(startIndex)]
  {
    var call := GetCall(ResourceUrl(c, resource), ListParams(expand, maxResults, tag, kwargs),
                        ListFlags(favourite, cloverEnabled));
    if "elements_key" in kwargs && "element_key" in kwargs then
      Paged(call, kwargs["elements_key"], kwargs["element_key"], maxResults)
    else
      Single(call.(params := call.params["start-index" := Int(startIndex)]))
  }

  /** The start index matters only to a single `get`: a paged listing is the
      same whatever `start_index` was passed. */
  lemma PagedListingIgnoresStartIndex(c: Client, resource: string, expand: Value, favourite: bool, cloverEnabled: bool,
                                      maxResults: int, tag: Value, s1: int, s2: int, kwargs: Params)
    requires "elements_key" in kwargs && "element_key" in kwargs
    ensures BaseListCall(c, resource, expand, favourite, cloverEnabled, maxResults, tag, s1, kwargs)
         == BaseListCall(c, resource, expand, favourite, cloverEnabled, maxResults, tag, s2, kwargs)
  {
  }

  /** The flags reach the request URL last: splitting its query string at
      `&` ends with the listing flags, in order. */
  lemma ListingFlagsEndQuery(c: Client, resource: string, expand: Value, favourite: bool, cloverEnabled: bool,
                             maxResults: int, tag: Value, startIndex: int, kwargs: Params,
                             encode: Params -> string)
    requires favourite || cloverEnabled
    ensures var call := BaseListCall(c, resource, expand, favourite, cloverEnabled, maxResults, tag, startIndex, kwargs).call;
      var pieces := Split(Query(call, encode), '&');
      var flags := ListFlags(favourite, cloverEnabled);
      |pieces| >= |flags| && pieces[|pieces| - |flags|..] == flags
  {
    var call := BaseListCall(c, resource, expand, favourite, cloverEnabled, maxResults, tag, startIndex, kwargs).call;
    var flags := ListFlags(favourite, cloverEnabled);
    forall i | 0 <= i < |flags|
      ensures '&' !in flags[i]
    {
      assert flags[i] == "favourite" || flags[i] == "cloverEnabled";
    }
    QueryFlagsLast(call, encode);
  }

  // ---------------------------------------------------------------------------
  // The listing endpoints
  // ---------------------------------------------------------------------------

  /** What iterating a listing yields when it pages: `_get_generator` over
      the server's responses to the listing's call; a single `get` is not a
      paged run. */
  function Iterate<T>(l: Listing, server: Call -> Page<T>): (t: Option<Trace<T>>)
    ensures t.Some? <==> l.Paged?
    ensures t.Some? ==> t.value.offsets == [0] && t.value.finished
  {
    if l.Paged? then Some(GetGenerator(Pages(server, l.call), l.maxResults)) else None
  }

  /** Every paged listing stops after its first page: against a server that
      lists more than one page, iterating it yields that page and no more.
      When the server's pages are smaller than the `max_results` asked for,
      that is fewer elements than the intended walk yields. */
  lemma IterateStopsAfterOnePage<T>(l: Listing, server: Call -> Page<T>, xs: seq<T>, m: int)
    requires l.Paged? && l.maxResults >= 0
    requires Serves(Pages(server, l.call), xs, m) && m < |xs|
    ensures Iterate(l, server) == Some(Trace([0], xs[..m], true))
    ensures Iterate(l, server).value.items != xs
    ensures m < l.maxResults ==> |Iterate(l, server).value.items| < |IterateIntended(l, server).value.items|
  {
    GetGeneratorStopsAfterOnePage(Pages(server, l.call), xs, m, l.maxResults);
    IterateIntendedListsAll(l, server, xs, m);
  }

  /** `base_list_call` asks for pages of `max_results` and caps the listing at
      `max_results`, so against a server whose pages are exactly that size the
      listing as written yields what the intended walk yields. */
  lemma IterateAgreesOnFullPages<T>(l: Listing, server: Call -> Page<T>, xs: seq<T>)
    requires l.Paged? && l.maxResults > 0
    requires Serves(Pages(server, l.call), xs, l.maxResults)
    ensures IterateIntended(l, server).value.items == Iterate(l, server).value.items
  {
    ServedPage(Pages(server, l.call), xs, l.maxResults, 0);
    IterateIntendedListsAll(l, server, xs, l.maxResults);
  }

  /** What iterating a paged listing evidently should yield: the walker over
      all pages, capped at the listing's `max_results` (nothing when that is
      negative, as the generator as written does). */
  function IterateIntended<T>(l: Listing, server: Call -> Page<T>): (t: Option<Trace<T>>)
    ensures t.Some? <==> l.Paged?
    ensures t.Some? ==> t.value.finished && |t.value.offsets| >= 1 && t.value.offsets[0] == 0
    ensures t.Some? ==> |t.value.items| <= (if l.maxResults >= 0 then l.maxResults else 0)
  {
    if l.Paged? then Some(WalkPages(Pages(server, l.call), Some(if l.maxResults >= 0 then l.maxResults else 0))) else None
  }

  /** Against an honest server a paged listing, walked as intended, yields
      the collection in order up to its `max_results`. */
  lemma IterateIntendedListsAll<T>(l: Listing, server: Call -> Page<T>, xs: seq<T>, m: int)
    requires l.Paged? && l.maxResults >= 0
    requires Serves(Pages(server, l.call), xs, m)
    ensures IterateIntended(l, server).value.items == xs[..if l.maxResults < |xs| then l.maxResults else |xs|]
  {
    WalkPagesListsAll(Pages(server, l.call), xs, m, Some(l.maxResults));
  }

  /** The keyword arguments that make `base_list_call` page. */
  function PagingKeys(elementsKey: string, elementKey: string): (kwargs: Params)
    ensures "elements_key" in kwargs && kwargs["elements_key"] == Str(elementsKey)
    ensures "element_key" in kwargs && kwargs["element_key"] == Str(elementKey)
  {
    map["elements_key" := Str(elementsKey), "element_key" := Str(elementKey)]
  }

  /** `projects(...)`: the paged `project` listing. */
  function Projects(c: Client, expand: Value, favourite: bool, cloverEnabled: bool, maxResults: int): (r: Listing)
    ensures r.Paged? && r.elementsKey == Str("projects") && r.elementKey == Str("project")
    ensures r.call.path == ResourceUrl(c, "project") && r.maxResults == maxResults
    ensures "elements_key" in r.call.params && r.call.params["elements_key"] == Str("projects")
  {
    BaseListCall(c, "project", expand, favourite, cloverEnabled, maxResults, Null, 0, PagingKeys("projects", "project"))
  }

  /** `project(project_key, ...)`: one `get` of `project/<key>` with 25
      results from index 0. */
  function Project(c: Client, projectKey: string, expand: Value, favourite: bool, cloverEnabled: bool): (r: Listing)
    ensures r.Single? && r.call.path == ResourceUrl(c, "project/" + projectKey)
    ensures "max-results" in r.call.params && r.call.params["max-results"] == Int(25)
    ensures "start-index" in r.call.params && r.call.params["start-index"] == Int(0)
    ensures "label" !in r.call.params
  {
    BaseListCall(c, "project/" + projectKey, expand, favourite, cloverEnabled, 25, Null, 0, map[])
  }

  /** `project_plans(project_key)`: the paged plans of a project, asked for
      with `expand=plans`. */
  function ProjectPlans(c: Client, projectKey: string): (r: Listing)
    ensures r.Paged? && r.elementsKey == Str("plans") && r.elementKey == Str("plan")
    ensures r.call.path == ResourceUrl(c, "project/" + projectKey) && r.maxResults == 25
    ensures "expand" in r.call.params && r.call.params["expand"] == Str("plans") && r.call.flags == []
  {
    BaseListCall(c, "project/" + projectKey, Str("plans"), false, false, 25, Null, 0, PagingKeys("plans", "plan"))
  }

  /** `plans(expand, favourite, clover_enabled, start_index, max_results)`,
      as written: the last two arguments are passed by position, so
      `start_index` becomes `max_results` and `max_results` becomes `label`. */
  function Plans(c: Client, expand: Value, favourite: bool, cloverEnabled: bool, startIndex: int, maxResults: int): (r: Listing)
    ensures r.Paged? && r.elementsKey == Str("plans") && r.elementKey == Str("plan")
    ensures r.call.path == ResourceUrl(c, "plan")
  {
    BaseListCall(c, "plan", expand, favourite, cloverEnabled, startIndex, Int(maxResults), 0, PagingKeys("plans", "plan"))
  }

  /** The positional slip in `plans`: `max-results` carries the start index,
      the page-size argument travels as a `label` filter (whenever it is not
      0), and the generator's bound is the start index. */
  lemma PlansSwapsArguments(c: Client, expand: Value, favourite: bool, cloverEnabled: bool, startIndex: int, maxResults: int)
    ensures var r := Plans(c, expand, favourite, cloverEnabled, startIndex, maxResults);
      && r.call.params["max-results"] == Int(startIndex)
      && ("label" in r.call.params <==> maxResults != 0)
      && (maxResults != 0 ==> r.call.params["label"] == Int(maxResults))
      && r.maxResults == startIndex
  {
  }

  /** The listing `plans` evidently means: `max-results` is the page size,
      no label filter is sent, and the generator's bound is the page size. */
  function PlansIntended(c: Client, expand: Value, favourite: bool, cloverEnabled: bool, startIndex: int, maxResults: int): (r: Listing)
    ensures r.Paged? && r.elementsKey == Str("plans") && r.elementKey == Str("plan")
    ensures r.call.path == ResourceUrl(c, "plan")
    ensures "max-results" in r.call.params && r.call.params["max-results"] == Int(maxResults)
    ensures "label" !in r.call.params
    ensures r.maxResults == maxResults
  {
    BaseListCall(c, "plan", expand, favourite, cloverEnabled, maxResults, Null, startIndex, PagingKeys("plans", "plan"))
  }

  /** With the default arguments (`start_index=0`, `max_results=25`) the
      slip sends `max-results=0` and `label=25`, where 25 results and no
      label were meant. */
  lemma PlansDefaultsDiffer(c: Client)
    ensures Plans(c, Null, false, false, 0, 25).call.params["max-results"] == Int(0)
    ensures Plans(c, Null, false, false, 0, 25).call.params["label"] == Int(25)
    ensures PlansIntended(c, Null, false, false, 0, 25).call.params["max-results"] == Int(25)
    ensures Plans(c, Null, false, false, 0, 25) != PlansIntended(c, Null, false, false, 0, 25)
  {
    PlansSwapsArguments(c, Null, false, false, 0, 25);
  }

  /** `plan_branches(plan_key, ...)`: the paged branches of a plan. */
  function PlanBranches(c: Client, planKey: string, expand: Value, favourite: bool, cloverEnabled: bool, maxResults: int): (r: Listing)
    ensures r.Paged? && r.elementsKey == Str("branches") && r.elementKey == Str("branch")
    ensures r.call.path == ResourceUrl(c, "plan/" + planKey + "/branch") && r.maxResults == maxResults
  {
    BaseListCall(c, "plan/" + planKey + "/branch", expand, favourite, cloverEnabled, maxResults, Null, 0,
                 PagingKeys("branches", "branch"))
  }

  // ---------------------------------------------------------------------------
  // results and the build-result endpoints
  // ---------------------------------------------------------------------------

  /** The resource `results` lists: the most specific of four shapes that
      the given keys allow, or the bare `result` collection. Keys are strings
      here; an empty key stands for a missing one (both are falsy). */
  function ResultsPath(projectKey: string, planKey: string, jobKey: string, buildNumber: Value): (r: string)
    ensures projectKey != "" && planKey != "" && jobKey != "" && Truthy(buildNumber) ==>
      r == "result/" + projectKey + "-" + planKey + "-" + jobKey + "/" + Format(buildNumber)
    ensures projectKey != "" && planKey != "" && jobKey == "" && Truthy(buildNumber) ==>
      r == "result/" + projectKey + "-" + planKey + "/" + Format(buildNumber)
    ensures projectKey != "" && planKey != "" && !Truthy(buildNumber) ==> r == "result/" + projectKey + "-" + planKey
    ensures projectKey != "" && planKey == "" ==> r == "result/" + projectKey
    ensures projectKey == "" ==> r == "result"
  {
    var resource := "result";
    if projectKey != "" && planKey != "" && jobKey != "" && Truthy(buildNumber) then
      resource + "/" + projectKey + "-" + planKey + "-" + jobKey + "/" + Format(buildNumber)
    else if projectKey != "" && planKey != "" && Truthy(buildNumber) then
      resource + "/" + projectKey + "-" + planKey + "/" + Format(buildNumber)
    else if projectKey != "" && planKey != "" then
      resource + "/" + projectKey + "-" + planKey
    else if projectKey != "" then
      resource + "/" + projectKey
    else
      resource
  }

  /** A job key without a build number changes nothing, and without a
      project key neither plan, job nor build number does. */
  lemma ResultsPathIgnores(projectKey: string, planKey: string, jobKey: string, buildNumber: Value)
    ensures !Truthy(buildNumber) ==> ResultsPath(projectKey, planKey, jobKey, buildNumber) == ResultsPath(projectKey, planKey, "", buildNumber)
    ensures ResultsPath("", planKey, jobKey, buildNumber) == "result"
    ensures planKey == "" ==> ResultsPath(projectKey, planKey, jobKey, buildNumber) == ResultsPath(projectKey, "", "", Null)
  {
  }

  /** When no key holds a `/`, the path reads back into its parts: the
      collection, the dashed plan (or job) key, and the build number. */
  lemma ResultsPathSegments(projectKey: string, planKey: string, jobKey: string, buildNumber: Value)
    requires projectKey != "" && planKey != "" && Truthy(buildNumber)
    requires '/' !in projectKey && '/' !in planKey && '/' !in jobKey && '/' !in Format(buildNumber)
    ensures var key := if jobKey != "" then projectKey + "-" + planKey + "-" + jobKey else projectKey + "-" + planKey;
      Split(ResultsPath(projectKey, planKey, jobKey, buildNumber), '/') == ["result", key, Format(buildNumber)]
  {
    var key := if jobKey != "" then projectKey + "-" + planKey + "-" + jobKey else projectKey + "-" + planKey;
    var number := Format(buildNumber);
    assert ResultsPath(projectKey, planKey, jobKey, buildNumber) == "result/" + key + "/" + number;
    assert '/' !in key;
    SlashSegments(key, number);
  }

  lemma SlashSegments(key: string, number: string)
    requires '/' !in key && '/' !in number
    ensures Split("result/" + key + "/" + number, '/') == ["result", key, number]
  {
    var head := "result";
    assert '/' !in head;
    assert "result/" + key + "/" + number == head + ['/'] + key + ['/'] + number;
    SplitFirstTwo(head, key, '/', number);
    SplitWithoutSeparator(number, '/');
  }

  /** The keyword arguments `results` passes on: the paging keys, then
      `issueKey` and `includeAllStates`, each only when truthy. */
  function ResultsKwargs(issueKey: Value, includeAllStates: bool): (kwargs: Params)
    ensures "elements_key" in kwargs && kwargs["elements_key"] == Str("results")
    ensures "element_key" in kwargs && kwargs["element_key"] == Str("result")
    ensures "issueKey" in kwargs <==> Truthy(issueKey)
    ensures "includeAllStates" in kwargs <==> includeAllStates
    ensures Truthy(issueKey) ==> kwargs["issueKey"] == issueKey
    ensures includeAllStates ==> kwargs["includeAllStates"] == Bool(true)
    ensures "start-index" !in kwargs
  {
    var p := PagingKeys("results", "result");
    var p := if Truthy(issueKey) then p["issueKey" := issueKey] else p;
    if includeAllStates then p["includeAllStates" := Bool(true)] else p
  }

  /** `results(...)`: always a paged listing of the `result` collection (so
      `start_index` has no effect), at the path the keys select, with the
      issue and state filters as parameters. */
  function Results(c: Client, projectKey: string, planKey: string, jobKey: string, buildNumber: Value,
                   expand: Value, favourite: bool, cloverEnabled: bool, issueKey: Value, tag: Value,
                   startIndex: int, maxResults: int, includeAllStates: bool): (r: Listing)
    ensures r.Paged? && r.elementsKey == Str("results") && r.elementKey == Str("result")
    ensures r.call.path == ResourceUrl(c, ResultsPath(projectKey, planKey, jobKey, buildNumber))
    ensures r.maxResults == maxResults
    ensures "issueKey" in r.call.params <==> Truthy(issueKey)
    ensures "includeAllStates" in r.call.params <==> includeAllStates
    ensures "start-index" !in r.call.params
  {
    BaseListCall(c, ResultsPath(projectKey, planKey, jobKey, buildNumber), expand, favourite, cloverEnabled,
                 maxResults, tag, startIndex, ResultsKwargs(issueKey, includeAllStates))
  }

  /** `latest_results(...)`: `results` without any key. */
  function LatestResults(c: Client, expand: Value, favourite: bool, cloverEnabled: bool, tag: Value, issueKey: Value,
                         startIndex: int, maxResults: int, includeAllStates: bool): (r: Listing)
    ensures r.Paged? && r.call.path == ResourceUrl(c, "result")
  {
    Results(c, "", "", "", Null, expand, favourite, cloverEnabled, issueKey, tag, startIndex, maxResults, includeAllStates)
  }

  /** `project_latest_results(project_key, ...)`: `results` of one project. */
  function ProjectLatestResults(c: Client, projectKey: string, expand: Value, favourite: bool, cloverEnabled: bool,
                                tag: Value, issueKey: Value, startIndex: int, maxResults: int, includeAllStates: bool): (r: Listing)
    ensures r.Paged?
    ensures projectKey != "" ==> r.call.path == ResourceUrl(c, "result/" + projectKey)
  {
    Results(c, projectKey, "", "", Null, expand, favourite, cloverEnabled, issueKey, tag, startIndex, maxResults, includeAllStates)
  }

  /** `plan_results(project_key, plan_key, ...)`: `results` of one plan. */
  function PlanResults(c: Client, projectKey: string, planKey: string, expand: Value, favourite: bool, cloverEnabled: bool,
                       tag: Value, issueKey: Value, startIndex: int, maxResults: int, includeAllStates: bool): (r: Listing)
    ensures r.Paged?
    ensures projectKey != "" && planKey != "" ==> r.call.path == ResourceUrl(c, "result/" + projectKey + "-" + planKey)
  {
    Results(c, projectKey, planKey, "", Null, expand, favourite, cloverEnabled, issueKey, tag, startIndex, maxResults, includeAllStates)
  }

  /** What an endpoint raises instead of sending a request. */
  datatype Error = ValueError(message: string) | IndexError

  /** `build_result(build_key, expand, include_all_states)`: the last
      `-`-separated token of the key must read as an integer; if it does not,
      a `ValueError` naming the key is raised and nothing is sent. Otherwise a
      single `get` of `result/<key>` goes out, 25 results from index 0, with
      `include_all_states` passed under that (snake-case) name. */
  function BuildResult(c: Client, buildKey: string, expand: Value, includeAllStates: bool): (r: Result<Listing, Error>)
    ensures r.Success? <==> IsIntLiteral(LastToken(buildKey, '-'))
    ensures r.Failure? ==> r.error == ValueError("The key \"" + buildKey + "\" does not correspond to a build result")
    ensures r.Success? ==> r.value.Single? && r.value.call.path == ResourceUrl(c, "result/" + buildKey)
    ensures r.Success? ==> var p := r.value.call.params;
      && "include_all_states" in p && p["include_all_states"] == Bool(includeAllStates)
      && "start-index" in p && p["start-index"] == Int(0)
      && "max-results" in p && p["max-results"] == Int(25)
  {
    if IsIntLiteral(LastToken(buildKey, '-')) then
      Success(BaseListCall(c, "result/" + buildKey, expand, false, false, 25, Null, 0,
                           map["include_all_states" := Bool(includeAllStates)]))
    else
      Failure(ValueError("The key \"" + buildKey + "\" does not correspond to a build result"))
  }

  /** A plan key followed by `-` and a build number is always accepted; a key
      ending in `-` never is. */
  lemma BuildResultKeys(c: Client, planKey: string, n: nat, expand: Value, includeAllStates: bool)
    ensures BuildResult(c, planKey + "-" + Decimal(n), expand, includeAllStates).Success?
    ensures BuildResult(c, planKey + "-", expand, includeAllStates).Failure?
  {
    var d := Decimal(n);
    assert '-' !in d by {
      forall i | 0 <= i < |d| ensures d[i] != '-' {
        assert IsDigit(d[i]);
      }
    }
    LastTokenAfterSeparator(planKey, '-', d);
    assert IsDigit(d[0]);
    assert IsIntLiteral(d);
    assert planKey + "-" == planKey + ['-'] + "";
    LastTokenAfterSeparator(planKey, '-', "");
  }

  /** `delete_build_result(build_key)`: the key is split at every `-`; the
      first two tokens, joined again, are the plan key and the third is the
      build number. With fewer than three tokens indexing fails and nothing
      is sent. The form goes by `post` to a fixed action path with the
      form-token headers. */
  function DeleteBuildResult(buildKey: string): (r: Result<Call, Error>)
    ensures r.Success? <==> Occurrences(buildKey, '-') >= 2
    ensures r.Failure? ==> r.error == IndexError
    ensures r.Success? ==>
      && r.value.verb == Post && r.value.path == "/build/admin/deletePlanResults.action"
      && r.value.headers == FormTokenHeaders && r.value.flags == []
      && r.value.params.Keys == {"buildKey", "buildNumber"}
  {
    SplitCount(buildKey, '-');
    var tokens := Split(buildKey, '-');
    if |tokens| < 3 then Failure(IndexError)
    else
      var planKey := tokens[0] + "-" + tokens[1];
      Success(Call(Post, "/build/admin/deletePlanResults.action",
                   map["buildKey" := Str(planKey), "buildNumber" := Str(tokens[2])], [], FormTokenHeaders))
  }

  /** A key `A-B-N`, possibly followed by `-` and more, is sent as plan key
      `A-B` and build number `N`; whatever follows `N` is dropped. */
  lemma DeleteBuildResultKey(a: string, b: string, n: string, rest: string)
    requires '-' !in a && '-' !in b && '-' !in n
    requires rest == "" || rest[0] == '-'
    ensures var r := DeleteBuildResult(a + "-" + b + "-" + n + rest);
      && r.Success?
      && r.value.params["buildKey"] == Str(a + "-" + b)
      && r.value.params["buildNumber"] == Str(n)
  {
    var key := a + "-" + b + "-" + n + rest;
    var tokens := Split(key, '-');
    Regroup(a + "-" + b + "-", n, rest);
    SplitFirstTwo(a, b, '-', n + rest);
    SplitHead(n, '-', rest);
    assert tokens[0] == a && tokens[1] == b && tokens[2] == n;
  }

  // ---------------------------------------------------------------------------
  // Endpoints that assemble their own parameters
  // ---------------------------------------------------------------------------

  /** Each keyword argument of `execute_build` beyond the named ones becomes
      a build variable under this prefix. */
  const VariablePrefix := "bamboo.variable."

  /** Whether a parameter name carries the build-variable prefix. */
  predicate IsVariableKey(key: string) {
    |VariablePrefix| <= |key| && key[..|VariablePrefix|] == VariablePrefix
  }

  /** The build variables as query parameters: `bamboo.variable.<name>` for
      each variable `<name>`. */
  function VariableParams(variables: map<string, Value>): (p: Params)
    ensures forall name :: name in variables ==> VariablePrefix + name in p && p[VariablePrefix + name] == variables[name]
    ensures forall key :: key in p ==> IsVariableKey(key)
  {
    map key | key in (set name | name in variables :: VariablePrefix + name) :: variables[key[|VariablePrefix|..]]
  }

  /** A prefixed key is the prefix followed by the rest of the key. */
  lemma VariableKeySplits(key: string)
    requires IsVariableKey(key)
    ensures VariablePrefix + key[|VariablePrefix|..] == key
  {
  }

  /** The build variables a parameter map carries: each prefixed parameter,
      with the prefix removed. */
  function VariablesOf(p: Params): (variables: map<string, Value>)
    ensures forall key :: key in p && IsVariableKey(key) ==>
      key[|VariablePrefix|..] in variables && variables[key[|VariablePrefix|..]] == p[key]
    ensures forall name :: name in variables ==> VariablePrefix + name in p
  {
    assert forall key :: IsVariableKey(key) ==> VariablePrefix + key[|VariablePrefix|..] == key by {
      forall key | IsVariableKey(key) {
        VariableKeySplits(key);
      }
    }
    map key | key in p && IsVariableKey(key) :: key[|VariablePrefix|..] := p[key]
  }

  /** None of the named parameters of `execute_build` looks like a build
      variable, so the variables can never overwrite them. */
  lemma NamedKeysAreNotVariables()
    ensures !IsVariableKey("stage") && !IsVariableKey("customRevision") && !IsVariableKey("executeAllStages")
  {
    assert "executeAllStages"[0] != VariablePrefix[0];
  }

  /** The parameters of `execute_build` other than the build variables. */
  function StageParams(stage: Value, executeAllStages: bool, customRevision: Value): (p: Params)
    ensures "stage" in p <==> Truthy(stage)
    ensures Truthy(stage) ==> p["stage"] == stage
    ensures "customRevision" in p <==> Truthy(customRevision)
    ensures Truthy(customRevision) ==> p["customRevision"] == customRevision
    ensures "executeAllStages" in p && p["executeAllStages"] == BoolText(executeAllStages && !Truthy(stage))
    ensures forall key :: key in p ==> key == "stage" || key == "customRevision" || key == "executeAllStages"
  {
    var p: Params := map[];
    var p := if Truthy(stage) then p["stage" := stage] else p;
    var p := if Truthy(customRevision) then p["customRevision" := customRevision] else p;
    p["executeAllStages" := BoolText(executeAllStages && !Truthy(stage))]
  }

  /** `execute_build(plan_key, stage, execute_all_stages, custom_revision,
      **bamboo_variables)`: a `post` to `queue/<plan>` with the form-token
      headers. A stage, when given, is sent and turns `executeAllStages` to
      `false` whatever was passed; `executeAllStages` is always sent as text. */
  function ExecuteBuild(c: Client, planKey: string, stage: Value, executeAllStages: bool, customRevision: Value,
                        variables: map<string, Value>): (r: Call)
    ensures r.verb == Post && r.path == ResourceUrl(c, "queue/" + planKey)
    ensures r.headers == FormTokenHeaders && r.flags == []
    ensures "stage" in r.params <==> Truthy(stage)
    ensures Truthy(stage) ==> r.params["stage"] == stage
    ensures "customRevision" in r.params <==> Truthy(customRevision)
    ensures Truthy(customRevision) ==> r.params["customRevision"] == customRevision
    ensures "executeAllStages" in r.params
    ensures r.params["executeAllStages"] == BoolText(executeAllStages && !Truthy(stage))
    ensures forall key :: key in r.params ==>
      key == "stage" || key == "customRevision" || key == "executeAllStages" || IsVariableKey(key)
  {
    NamedKeysAreNotVariables();
    Call(Post, ResourceUrl(c, "queue/" + planKey),
         StageParams(stage, executeAllStages, customRevision) + VariableParams(variables), [], FormTokenHeaders)
  }

  /** Passing a stage always runs that stage alone: whether all stages were
      asked for makes no difference. */
  lemma ExecuteBuildStageWins(c: Client, planKey: string, stage: Value, customRevision: Value,
                              variables: map<string, Value>)
    requires Truthy(stage)
    ensures ExecuteBuild(c, planKey, stage, true, customRevision, variables)
         == ExecuteBuild(c, planKey, stage, false, customRevision, variables)
    ensures ExecuteBuild(c, planKey, stage, true, customRevision, variables).params["executeAllStages"] == Str("false")
  {
  }

  /** The build variables travel intact: reading them back from the sent
      parameters gives exactly the variables passed. */
  lemma ExecuteBuildVariablesRoundTrip(c: Client, planKey: string, stage: Value, executeAllStages: bool,
                                       customRevision: Value, variables: map<string, Value>)
    ensures VariablesOf(ExecuteBuild(c, planKey, stage, executeAllStages, customRevision, variables).params) == variables
  {
    var named := StageParams(stage, executeAllStages, customRevision);
    var vars := VariableParams(variables);
    assert ExecuteBuild(c, planKey, stage, executeAllStages, customRevision, variables).params == named + vars;
    NamedKeysAreNotVariables();
    assert forall key :: key in named ==> !IsVariableKey(key);
    VariablesOfIgnoresNamed(named, vars);
    VariablesRoundTrip(variables);
  }

  /** Parameters without the prefix contribute no variables. */
  lemma VariablesOfIgnoresNamed(named: Params, vars: Params)
    requires forall key :: key in named ==> !IsVariableKey(key)
    ensures VariablesOf(named + vars) == VariablesOf(vars)
  {
  }

  /** Reading the variables back from their parameters gives them again. */
  lemma VariablesRoundTrip(variables: map<string, Value>)
    ensures VariablesOf(VariableParams(variables)) == variables
  {
    var v := VariablesOf(VariableParams(variables));
    forall name | name in variables
      ensures name in v && v[name] == variables[name]
    {
      assert (VariablePrefix + name)[|VariablePrefix|..] == name;
    }
  }


  /** `create_branch(plan_key, branch_name, vcs_branch, enabled,
      cleanup_enabled)`: a `put` to `plan/<plan>/branch/<branch>`. Only when a
      VCS branch is given are parameters sent: the branch and both switches
      as `true`/`false` text. */
  function CreateBranch(c: Client, planKey: string, branchName: string, vcsBranch: Value,
                        enabled: bool, cleanupEnabled: bool): (r: Call)
    ensures r.verb == Put && r.path == ResourceUrl(c, "plan/" + planKey + "/branch/" + branchName)
    ensures r.headers == map[] && r.flags == []
    ensures r.params == map[] <==> !Truthy(vcsBranch)
    ensures Truthy(vcsBranch) ==>
      && r.params.Keys == {"vcsBranch", "enabled", "cleanupEnabled"}
      && r.params["vcsBranch"] == vcsBranch
      && r.params["enabled"] == BoolText(enabled)
      && r.params["cleanupEnabled"] == BoolText(cleanupEnabled)
  {
    var params: Params :=
      if Truthy(vcsBranch) then
        map["vcsBranch" := vcsBranch, "enabled" := BoolText(enabled), "cleanupEnabled" := BoolText(cleanupEnabled)]
      else map[];
    assert Truthy(vcsBranch) ==> "vcsBranch" in params;
    Call(Put, ResourceUrl(c, "plan/" + planKey + "/branch/" + branchName), params, [], map[])
  }

  /** Without a VCS branch the two switches are dropped: the request is the
      same whatever they say. */
  lemma CreateBranchSwitchesNeedVcsBranch(c: Client, planKey: string, branchName: string, vcsBranch: Value,
                                          e1: bool, k1: bool, e2: bool, k2: bool)
    requires !Truthy(vcsBranch)
    ensures CreateBranch(c, planKey, branchName, vcsBranch, e1, k1) == CreateBranch(c, planKey, branchName, vcsBranch, e2, k2)
  {
  }

  /** With a VCS branch, different switch settings give different requests. */
  lemma CreateBranchSwitchesMatter(c: Client, planKey: string, branchName: string, vcsBranch: Value,
                                   e1: bool, k1: bool, e2: bool, k2: bool)
    requires Truthy(vcsBranch)
    ensures CreateBranch(c, planKey, branchName, vcsBranch, e1, k1) == CreateBranch(c, planKey, branchName, vcsBranch, e2, k2)
        <==> e1 == e2 && k1 == k2
  {
    var r1 := CreateBranch(c, planKey, branchName, vcsBranch, e1, k1);
    var r2 := CreateBranch(c, planKey, branchName, vcsBranch, e2, k2);
    if r1 == r2 {
      assert r1.params["enabled"] == r2.params["enabled"];
      assert r1.params["cleanupEnabled"] == r2.params["cleanupEnabled"];
    }
  }

  /** The optional arguments of `chart`. */
  datatype ChartOptions = ChartOptions(dateFilter: Value, dateFrom: Value, dateTo: Value, width: Value, height: Value)

  /** The defaults: every option absent. */
  const NoChartOptions := ChartOptions(Null, Null, Null, Null, Null)

  /** The parameters `chart` takes from its options: the date filter, width
      and height only when truthy, and the two range dates only when the
      filter is exactly `RANGE` (and then even if they are absent). */
  function ChartOptionParams(options: ChartOptions): (p: Params)
    ensures "dateFilter" in p <==> Truthy(options.dateFilter)
    ensures Truthy(options.dateFilter) ==> p["dateFilter"] == options.dateFilter
    ensures "dateFrom" in p <==> options.dateFilter == Str("RANGE")
    ensures "dateTo" in p <==> options.dateFilter == Str("RANGE")
    ensures options.dateFilter == Str("RANGE") ==> p["dateFrom"] == options.dateFrom && p["dateTo"] == options.dateTo
    ensures "width" in p <==> Truthy(options.width)
    ensures Truthy(options.width) ==> p["width"] == options.width
    ensures "height" in p <==> Truthy(options.height)
    ensures Truthy(options.height) ==> p["height"] == options.height
    ensures forall key :: key in p ==> key in {"dateFilter", "dateFrom", "dateTo", "width", "height"}
  {
    var p: Params := map[];
    var p := if Truthy(options.dateFilter) then p["dateFilter" := options.dateFilter] else p;
    var p := if options.dateFilter == Str("RANGE") then p["dateFrom" := options.dateFrom]["dateTo" := options.dateTo] else p;
    var p := if Truthy(options.width) then p["width" := options.width] else p;
    if Truthy(options.height) then p["height" := options.height] else p
  }

  /** `chart(report_key, build_keys, group_by_period, ...)`: a `get` of the
      `chart` resource. The report key, build keys, period and paging values
      are always sent, followed by whatever the options add. */
  function Chart(c: Client, reportKey: Value, buildKeys: Value, groupByPeriod: Value, options: ChartOptions,
                 startIndex: int, maxResults: int): (r: Call)
    ensures r == GetCall(ResourceUrl(c, "chart"), r.params, [])
    ensures "reportKey" in r.params && r.params["reportKey"] == reportKey
    ensures "buildKeys" in r.params && r.params["buildKeys"] == buildKeys
    ensures "groupByPeriod" in r.params && r.params["groupByPeriod"] == groupByPeriod
    ensures "start-index" in r.params && r.params["start-index"] == Int(startIndex)
    ensures "max-results" in r.params && r.params["max-results"] == Int(maxResults)
    ensures forall key :: key in ChartOptionParams(options) ==> key in r.params && r.params[key] == ChartOptionParams(options)[key]
    ensures forall key :: key in r.params ==>
      key in {"reportKey", "buildKeys", "groupByPeriod", "start-index", "max-results"} || key in ChartOptionParams(options)
  {
    var fixed := map["reportKey" := reportKey, "buildKeys" := buildKeys, "groupByPeriod" := groupByPeriod,
                     "start-index" := Int(startIndex), "max-results" := Int(maxResults)];
    GetCall(ResourceUrl(c, "chart"), fixed + ChartOptionParams(options), [])
  }

  /** `chart` called with its defaults: no options, from index 9 (not 0),
      25 results. */
  function DefaultChart(c: Client, reportKey: Value, buildKeys: Value, groupByPeriod: Value): (r: Call)
    ensures r.params.Keys == {"reportKey", "buildKeys", "groupByPeriod", "start-index", "max-results"}
    ensures r.params["start-index"] == Int(9) && r.params["max-results"] == Int(25)
  {
    Chart(c, reportKey, buildKeys, groupByPeriod, NoChartOptions, 9, 25)
  }

  /** The range dates reach the request only under a `RANGE` filter: with
      any other filter they make no difference. */
  lemma ChartRangeOnlyForRange(c: Client, reportKey: Value, buildKeys: Value, groupByPeriod: Value,
                               options: ChartOptions, from: Value, to: Value, startIndex: int, maxResults: int)
    requires options.dateFilter != Str("RANGE")
    ensures Chart(c, reportKey, buildKeys, groupByPeriod, options, startIndex, maxResults)
         == Chart(c, reportKey, buildKeys, groupByPeriod, options.(dateFrom := from, dateTo := to), startIndex, maxResults)
  {
  }

  // ---------------------------------------------------------------------------
  // Group membership
  // ---------------------------------------------------------------------------

  /** The parameters of the group-membership listings: a truthy filter
      replaces the paging values altogether. */
  function MembershipParams(filterUsers: Value, start: int, limit: int): (p: Params)
    ensures Truthy(filterUsers) ==> p == map["filter" := filterUsers]
    ensures !Truthy(filterUsers) ==> p.Keys == {"limit", "start"} && p["limit"] == Int(limit) && p["start"] == Int(start)
  {
    if Truthy(filterUsers) then map["filter" := filterUsers]
    else map["limit" := Int(limit), "start" := Int(start)]
  }

  /** `get_users_from_group(group_name, filter_users, start, limit)`: a
      `get` of the group's `more-members` page under the fixed
      `rest/api/latest` root (not the client's API root). */
  function GetUsersFromGroup(groupName: string, filterUsers: Value, start: int, limit: int): (r: Call)
    ensures r.verb == Get && r.flags == [] && r.headers == map[]
    ensures r.path == "rest/api/latest/admin/groups/" + groupName + "/more-members"
    ensures r.params == MembershipParams(filterUsers, start, limit)
  {
    GetCall("rest/api/latest/admin/groups/" + groupName + "/more-members", MembershipParams(filterUsers, start, limit), [])
  }

  /** `get_users_not_in_group(...)`: the same request against the group's
      `more-non-members` page. */
  function GetUsersNotInGroup(groupName: string, filterUsers: Value, start: int, limit: int): (r: Call)
    ensures r.verb == Get && r.flags == [] && r.headers == map[]
    ensures r.path == "rest/api/latest/admin/groups/" + groupName + "/more-non-members"
    ensures r.params == MembershipParams(filterUsers, start, limit)
  {
    GetCall("rest/api/latest/admin/groups/" + groupName + "/more-non-members", MembershipParams(filterUsers, start, limit), [])
  }

  /** With a filter the paging values are ignored; without one they are
      sent as given, so distinct values give distinct requests. */
  lemma MembershipFilterReplacesPaging(groupName: string, filterUsers: Value, s1: int, l1: int, s2: int, l2: int)
    ensures Truthy(filterUsers) ==>
      GetUsersFromGroup(groupName, filterUsers, s1, l1) == GetUsersFromGroup(groupName, filterUsers, s2, l2)
    ensures !Truthy(filterUsers) ==>
      (GetUsersFromGroup(groupName, filterUsers, s1, l1) == GetUsersFromGroup(groupName, filterUsers, s2, l2)
       <==> s1 == s2 && l1 == l2)
  {
    if !Truthy(filterUsers) && GetUsersFromGroup(groupName, filterUsers, s1, l1) == GetUsersFromGroup(groupName, filterUsers, s2, l2) {
      assert MembershipParams(filterUsers, s1, l1)["start"] == MembershipParams(filterUsers, s2, l2)["start"];
      assert MembershipParams(filterUsers, s1, l1)["limit"] == MembershipParams(filterUsers, s2, l2)["limit"];
    }
  }

  /** Members and non-members are asked for with the same parameters, at
      different pages. */
  lemma MembershipPagesDiffer(groupName: string, filterUsers: Value, start: int, limit: int)
    ensures GetUsersFromGroup(groupName, filterUsers, start, limit).params
         == GetUsersNotInGroup(groupName, filterUsers, start, limit).params
    ensures GetUsersFromGroup(groupName, filterUsers, start, limit).path
         != GetUsersNotInGroup(groupName, filterUsers, start, limit).path
  {
    var prefix := "rest/api/latest/admin/groups/" + groupName;
    var a := GetUsersFromGroup(groupName, filterUsers, start, limit).path;
    var b := GetUsersNotInGroup(groupName, filterUsers, start, limit).path;
    assert a[|prefix| + 6] == 'm';
    assert b[|prefix| + 6] == 'n';
  }

  // ---------------------------------------------------------------------------
  // Health check
  // ---------------------------------------------------------------------------

  /** The check page of the Troubleshooting and Support Tools plugin. */
  const TroubleshootingCheck := "rest/troubleshooting/1.0/check/"

  /** The check page of the older support-tools plugin. */
  const SupportToolsCheck := "rest/supportHealthCheck/1.0/check/"

  /** The requests a probe sent, in order, and what it returned. */
  datatype Probe = Probe(calls: seq<Call>, answer: Answer)

  /** `health_check()`: `get` the troubleshooting check page; when that
      answer is falsy, `get` the support-tools check page and return its
      answer instead. `transport` stands for the server, `parse` for the JSON
      decoder. */
  function HealthCheck(transport: Call -> Response, parse: string -> Option<Json>): (p: Probe)
    ensures |p.calls| >= 1 && p.calls[0] == GetCall(TroubleshootingCheck, map[], [])
    ensures var first := DecodeGet(transport(p.calls[0]), false, parse);
      && (AnswerTruthy(first) ==> p.calls == [p.calls[0]] && p.answer == first)
      && (!AnswerTruthy(first) ==>
            && p.calls == [p.calls[0], GetCall(SupportToolsCheck, map[], [])]
            && p.answer == DecodeGet(transport(p.calls[1]), false, parse))
  {
    var primary := GetCall(TroubleshootingCheck, map[], []);
    var first := DecodeGet(transport(primary), false, parse);
    if AnswerTruthy(first) then Probe([primary], first)
    else
      var fallback := GetCall(SupportToolsCheck, map[], []);
      Probe([primary, fallback], DecodeGet(transport(fallback), false, parse))
  }

  /** The probe reports a healthy-looking (truthy) answer exactly when one of
      the two check pages gave one. */
  lemma HealthCheckTruthy(transport: Call -> Response, parse: string -> Option<Json>)
    ensures var first := DecodeGet(transport(GetCall(TroubleshootingCheck, map[], [])), false, parse);
      var second := DecodeGet(transport(GetCall(SupportToolsCheck, map[], [])), false, parse);
      AnswerTruthy(HealthCheck(transport, parse).answer) <==> AnswerTruthy(first) || AnswerTruthy(second)
  {
  }

  /** A first answer that is not JSON still counts: its non-empty text is
      returned and the support-tools page is never asked. An empty first
      body always leads to the fallback. */
  lemma HealthCheckTextAnswer(transport: Call -> Response, parse: string -> Option<Json>)
    ensures var resp := transport(GetCall(TroubleshootingCheck, map[], []));
      resp.text != "" && parse(resp.text).None? ==>
        HealthCheck(transport, parse) == Probe([GetCall(TroubleshootingCheck, map[], [])], Plain(resp.text))
    ensures transport(GetCall(TroubleshootingCheck, map[], [])).text == "" ==>
      |HealthCheck(transport, parse).calls| == 2
  {
    var resp := transport(GetCall(TroubleshootingCheck, map[], []));
    if resp.text != "" && parse(resp.text).None? {
      DecodeGetTextFallback(resp, parse);
    }
  }

  // ---------------------------------------------------------------------------
  // The offset-loop listings
  // ---------------------------------------------------------------------------

  /** The first request of `deployment_environment_results`: a `get` of
      `deploy/environment/<id>/results` with `max-result`, `start-index` 0
      and, when truthy, `expand`. */
  function DeploymentEnvironmentRequest(c: Client, envId: Value, expand: Value, maxResults: int): (r: Call)
    ensures r.verb == Get && r.flags == [] && r.headers == map[]
    ensures r.path == ResourceUrl(c, "deploy/environment/" + Format(envId) + "/results")
    ensures "start-index" in r.params && r.params["start-index"] == Int(0)
    ensures "max-result" in r.params && r.params["max-result"] == Int(maxResults)
    ensures "expand" in r.params <==> Truthy(expand)
    ensures Truthy(expand) ==> r.params["expand"] == expand
    ensures forall key :: key in r.params ==> key in {"start-index", "max-result", "expand"}
  {
    var p := map["max-result" := Int(maxResults), "start-index" := Int(0)];
    var p := if Truthy(expand) then p["expand" := expand] else p;
    GetCall(ResourceUrl(c, "deploy/environment/" + Format(envId) + "/results"), p, [])
  }

  /** `deployment_environment_results(env_id, expand, max_results)`: the
      offset loop from `start-index` 0 with an initial `size` of 1, so at
      least one request is made, over pages of the request above; at most
      `fuel` requests. */
  function DeploymentEnvironmentResults<T>(c: Client, server: Call -> Page<T>, envId: Value, expand: Value,
                                           maxResults: int, fuel: nat): (t: Trace<T>)
    ensures fuel > 0 ==> |t.offsets| >= 1 && t.offsets[0] == 0
    ensures |t.offsets| <= fuel
  {
    OffsetLoop(Pages(server, DeploymentEnvironmentRequest(c, envId, expand, maxResults)), 0, 1, fuel)
  }

  /** Each page is asked for with the first request's parameters and the
      loop's `start-index`: at index 0 that is the first request itself. */
  lemma DeploymentEnvironmentFirstPage(c: Client, envId: Value, expand: Value, maxResults: int)
    ensures At(DeploymentEnvironmentRequest(c, envId, expand, maxResults), 0)
         == DeploymentEnvironmentRequest(c, envId, expand, maxResults)
  {
    var r := DeploymentEnvironmentRequest(c, envId, expand, maxResults);
    assert r.params["start-index" := Int(0)] == r.params;
  }

  /** Against an honest server the listing yields every result of the
      environment, in order, and ends, given one request per page and one
      more. */
  lemma DeploymentEnvironmentListsAll<T>(c: Client, server: Call -> Page<T>, envId: Value, expand: Value,
                                         maxResults: int, fuel: nat, xs: seq<T>, m: int)
    requires Serves(Pages(server, DeploymentEnvironmentRequest(c, envId, expand, maxResults)), xs, m)
    requires fuel >= |xs| + 1
    ensures DeploymentEnvironmentResults(c, server, envId, expand, maxResults, fuel).finished
    ensures DeploymentEnvironmentResults(c, server, envId, expand, maxResults, fuel).items == xs
  {
    var fetch := Pages(server, DeploymentEnvironmentRequest(c, envId, expand, maxResults));
    OffsetLoopListsAll(fetch, xs, m, 0, 1, fuel);
  }

  /** The first request of `search_branches`: a `get` of `search/branches`
      with `max-result`, `start-index` 0, the master plan key and whether the
      master branch is included. */
  function SearchBranchesRequest(c: Client, planKey: Value, includeDefaultBranch: bool, maxResults: int): (r: Call)
    ensures r.verb == Get && r.flags == [] && r.headers == map[]
    ensures r.path == ResourceUrl(c, "search/branches")
    ensures r.params.Keys == {"max-result", "start-index", "masterPlanKey", "includeMasterBranch"}
    ensures r.params["start-index"] == Int(0) && r.params["max-result"] == Int(maxResults)
    ensures r.params["masterPlanKey"] == planKey && r.params["includeMasterBranch"] == Bool(includeDefaultBranch)
  {
    GetCall(ResourceUrl(c, "search/branches"),
            map["max-result" := Int(maxResults), "start-index" := Int(0),
                "masterPlanKey" := planKey, "includeMasterBranch" := Bool(includeDefaultBranch)], [])
  }

  /** `search_branches(plan_key, include_default_branch, max_results)`: the
      same offset loop over pages of the request above. */
  function SearchBranches<T>(c: Client, server: Call -> Page<T>, planKey: Value, includeDefaultBranch: bool,
                             maxResults: int, fuel: nat): (t: Trace<T>)
    ensures fuel > 0 ==> |t.offsets| >= 1 && t.offsets[0] == 0
    ensures |t.offsets| <= fuel
  {
    OffsetLoop(Pages(server, SearchBranchesRequest(c, planKey, includeDefaultBranch, maxResults)), 0, 1, fuel)
  }

  /** Against an honest server the search yields every matching branch, in
      order, and ends. */
  lemma SearchBranchesListsAll<T>(c: Client, server: Call -> Page<T>, planKey: Value, includeDefaultBranch: bool,
                                  maxResults: int, fuel: nat, xs: seq<T>, m: int)
    requires Serves(Pages(server, SearchBranchesRequest(c, planKey, includeDefaultBranch, maxResults)), xs, m)
    requires fuel >= |xs| + 1
    ensures SearchBranches(c, server, planKey, includeDefaultBranch, maxResults, fuel).finished
    ensures SearchBranches(c, server, planKey, includeDefaultBranch, maxResults, fuel).items == xs
  {
    var fetch := Pages(server, SearchBranchesRequest(c, planKey, includeDefaultBranch, maxResults));
    OffsetLoopListsAll(fetch, xs, m, 0, 1, fuel);
  }

  /** A server that answers a search with a `max-result` of 0 keeps the
      search asking for the first page until the bound runs out. */
  lemma SearchBranchesStalls<T>(c: Client, server: Call -> Page<T>, planKey: Value, includeDefaultBranch: bool,
                                maxResults: int, fuel: nat)
    requires var first := server(SearchBranchesRequest(c, planKey, includeDefaultBranch, maxResults));
      first.maxResult == 0 && first.size > 0
    ensures !SearchBranches(c, server, planKey, includeDefaultBranch, maxResults, fuel).finished
  {
    var base := SearchBranchesRequest(c, planKey, includeDefaultBranch, maxResults);
    var fetch := Pages(server, base);
    assert base.params["start-index" := Int(0)] == base.params;
    assert fetch(0) == server(base);
    OffsetLoopStalls(fetch, 0, 1, fuel);
  }
}

// render_channel_config.py's apply_runtime_selection: the renderer rebuilds the provider, search and
// channel parts of the configuration in place and must keep the reviewed pins beside them.
module RuntimeSelection {
  import opened Options
  import opened DeepMerge

  datatype ModelMode = OpenAi | Ollama | Custom(providerId: string)

  /** What the environment selects. No search provider is "auto", no fetch provider "default" or "auto",
      no channel "none", no timezone an empty TZ. provider is the rendered provider block; hasSlash is
      whether both model names are provider-qualified. */
  datatype Selection = Selection(
    mode: ModelMode, provider: Config, hasSlash: bool, search: Option<string>, fetch: Option<string>,
    channel: Option<string>, timezone: Option<string>, timezoneKnown: bool, port: string, portValid: bool)

  /** The parts of the configuration the renderer touches; None is an absent key. */
  datatype State = State(
    models: Entries, allow: seq<string>, loadPaths: seq<string>, entries: Entries,
    web: Option<Config>, userTimezone: Option<string>, allowedOrigins: Option<seq<string>>)

  /** SEARCH_PACKAGES: the plugin id of a provider. */
  function PluginId(provider: string): string { if provider == "parallel-free" then "parallel" else provider }

  const PACKAGES := "/opt/openclaw-runtime/node_modules/@openclaw/"

  function PluginPath(provider: string): string { PACKAGES + (PluginId(provider) + "-plugin") }

  function SecretRef(name: string): Config {
    Table(map["source" := Leaf("env"), "provider" := Leaf("default"), "id" := Leaf(name)])
  }

  const ENABLED: Config := Leaf("true")

  // ---------------------------------------------------------------- what is selected

  function Opt(x: Option<string>): seq<string> { if x.Some? then [x.value] else [] }

  function ModelPlugin(s: Selection): Option<string> {
    match s.mode case OpenAi => Some("openai") case Ollama => Some("ollama") case Custom(_) => None
  }

  function SearchPlugin(s: Selection): Option<string> {
    if s.search.Some? then Some(PluginId(s.search.value)) else None
  }

  predicate FetchesFirecrawl(s: Selection) { s.fetch == Some("firecrawl") }

  function FetchPlugin(s: Selection): Option<string> { if FetchesFirecrawl(s) then Some("firecrawl") else None }

  const FIXED_PLUGINS := ["vc-trusted-context", "web-readability"]

  /** The plugins of a selection. */
  function Plugins(s: Selection): seq<string> {
    FIXED_PLUGINS + Opt(ModelPlugin(s)) + Opt(SearchPlugin(s)) + Opt(FetchPlugin(s)) + Opt(s.channel)
  }

  const TRUSTED_PATH := "/opt/openclaw-extensions/vc-trusted-context"

  function SearchPath(s: Selection): Option<string> {
    if s.search.Some? then Some(PluginPath(s.search.value)) else None
  }

  function FetchPath(s: Selection): Option<string> {
    if FetchesFirecrawl(s) then Some(PluginPath("firecrawl")) else None
  }

  /** The plugins that are no part of the image need a load path. */
  function LoadPaths(s: Selection): seq<string> { [TRUSTED_PATH] + Opt(SearchPath(s)) + Opt(FetchPath(s)) }

  // ---------------------------------------------------------------- the entry of each plugin

  function Enabled(): Config { Table(map["enabled" := ENABLED]) }

  function Off(): Config { Table(map["enabled" := Leaf("false")]) }

  function Configured(config: Entries): Config { Table(map["enabled" := ENABLED, "config" := Table(config)]) }

  const API_KEYS: map<string, string> := map[
    "firecrawl" := "FIRECRAWL_API_KEY", "tavily" := "TAVILY_API_KEY", "brave" := "BRAVE_API_KEY",
    "perplexity" := "PERPLEXITY_API_KEY", "exa" := "EXA_API_KEY"]

  /** How a search plugin finds its key, or its instance. */
  function SearchConfig(search: string): Entries {
    if search in API_KEYS then map["webSearch" := Table(map["apiKey" := SecretRef(API_KEYS[search])])]
    else if search == "searxng" then map["webSearch" := Table(map["baseUrl" := SecretRef("SEARXNG_BASE_URL")])]
    else map[]
  }

  function FetchKey(): Config { Table(map["apiKey" := SecretRef("FIRECRAWL_API_KEY")]) }

  /** The entry of a model plugin or of one of the two fixed ones. */
  function BaseEntry(s: Selection, p: string): Config {
    if p == "ollama" && s.mode.Ollama? then Configured(map["discovery" := Off(), "nodeInference" := Off()])
    else if p == "vc-trusted-context" then
      Table(map["enabled" := ENABLED, "hooks" := Table(map["allowConversationAccess" := ENABLED])])
    else Enabled()
  }

  function SearchEntry(s: Selection, p: string): Config {
    if Some(p) != SearchPlugin(s) then BaseEntry(s, p)
    else if SearchConfig(s.search.value) == map[] then Enabled()
    else Configured(SearchConfig(s.search.value))
  }

  /** A fetch provider shares the entry of the same plugin's search, when that is selected too. */
  function FetchEntry(s: Selection, p: string): Config {
    if Some(p) != FetchPlugin(s) then SearchEntry(s, p)
    else if s.search == Some("firecrawl") then Configured(SearchConfig("firecrawl")["webFetch" := FetchKey()])
    else Configured(map["webFetch" := FetchKey()])
  }

  /** The entry of a selected plugin. */
  function EntryOf(s: Selection, p: string): Config { if Some(p) == s.channel then Enabled() else FetchEntry(s, p) }

  /** The parts of the source that write entries, in their order. */
  datatype Part = Models | Search | Fetch | Channel

  /** The entry of a plugin once a part is done. */
  function EntryAfter(s: Selection, part: Part, p: string): Config {
    match part
    case Models => BaseEntry(s, p)
    case Search => SearchEntry(s, p)
    case Fetch => FetchEntry(s, p)
    case Channel => EntryOf(s, p)
  }

  function Each(s: Selection, part: Part, ps: seq<string>): Entries { map p | p in ps :: EntryAfter(s, part, p) }

  /** The entries the renderer writes itself. */
  function OwnEntries(s: Selection): Entries { Each(s, Channel, Plugins(s)) }

  /** The models section the renderer writes itself. */
  function OwnModels(s: Selection): Entries {
    match s.mode
    case OpenAi =>
      var runtime := Table(map["agentRuntime" := Table(map["id" := Leaf("openclaw")])]);
      map["providers" := Table(map["openai" := runtime])]
    case Ollama => map["mode" := Leaf("merge"), "providers" := Table(map["ollama" := s.provider])]
    case Custom(id) => map["mode" := Leaf("merge"), "providers" := Table(map[id := s.provider])]
  }

  function Web(s: Selection): Config {
    var search: Entries := map[
      "enabled" := ENABLED, "maxResults" := Leaf("5"), "timeoutSeconds" := Leaf("30"), "cacheTtlMinutes" := Leaf("15")];
    var fetch: Entries := map[
      "enabled" := ENABLED, "maxChars" := Leaf("20000"), "maxCharsCap" := Leaf("20000"),
      "maxResponseBytes" := Leaf("750000"), "timeoutSeconds" := Leaf("30"), "cacheTtlMinutes" := Leaf("15"),
      "maxRedirects" := Leaf("3"), "readability" := ENABLED];
    Table(map[
      "search" := Table(if s.search.Some? then search["provider" := Leaf(s.search.value)] else search),
      "fetch" := Table(if FetchesFirecrawl(s) then fetch["provider" := Leaf("firecrawl")] else fetch)])
  }

  // ---------------------------------------------------------------- lists

  /** list(dict.fromkeys(list)). */
  function Dedupe(list: seq<string>): seq<string>
    decreases |list|
  {
    if list == [] then []
    else
      var before := Dedupe(list[..|list|-1]);
      if list[|list|-1] in before then before else before + [list[|list|-1]]
  }

  lemma {:induction false} DedupeMeans(list: seq<string>)
    ensures NoRepeat(Dedupe(list)) && forall x :: x in Dedupe(list) <==> x in list
    decreases |list|
  {
    if list != [] {
      DedupeMeans(list[..|list|-1]);
      assert list == list[..|list|-1] + [list[|list|-1]];
    }
  }

  method DropRepeats(list: seq<string>) returns (kept: seq<string>)
    ensures kept == Dedupe(list)
  {
    kept := [];
    for i := 0 to |list|
      invariant kept == Dedupe(list[..i])
    {
      assert list[..i+1][..i] == list[..i];
      if list[i] !in kept { kept := kept + [list[i]]; }
    }
    assert list[..|list|] == list;
  }

  lemma {:induction false} DedupeSkip(a: seq<string>, x: string, b: seq<string>)
    requires x in a
    ensures Dedupe(a + [x] + b) == Dedupe(a + b)
    decreases |b|
  {
    if b == [] {
      assert a + [x] + b == a + [x] && (a + [x])[..|a|] == a && a + b == a;
      DedupeMeans(a);
    } else {
      var n := |b| - 1;
      DedupeSkip(a, x, b[..n]);
      assert b == b[..n] + [b[n]];
      assert a + [x] + b == (a + [x] + b[..n]) + [b[n]] && a + b == (a + b[..n]) + [b[n]];
      DedupeSnoc(a + [x] + b[..n], b[n]);
      DedupeSnoc(a + b[..n], b[n]);
    }
  }

  lemma DedupeSnoc(list: seq<string>, x: string)
    ensures Dedupe(list + [x]) == if x in Dedupe(list) then Dedupe(list) else Dedupe(list) + [x]
  {
    assert (list + [x])[..|list|] == list;
  }

  const SOURCE_TREE := "/app/extensions/"

  const OLLAMA_PATH := SOURCE_TREE + "ollama"

  predicate InSourceTree(path: string) { SOURCE_TREE <= path }

  function OutsideTree(paths: seq<string>): seq<string> {
    if paths == [] then []
    else (if InSourceTree(paths[0]) then [] else [paths[0]]) + OutsideTree(paths[1..])
  }

  lemma {:induction false} OutsideConcat(a: seq<string>, b: seq<string>)
    ensures OutsideTree(a + b) == OutsideTree(a) + OutsideTree(b)
    decreases |a|
  {
    if a == [] {
      assert a + b == b;
    } else {
      OutsideConcat(a[1..], b);
      assert (a + b)[1..] == a[1..] + b;
    }
  }

  method DropSourceTree(paths: seq<string>) returns (kept: seq<string>)
    ensures kept == OutsideTree(paths)
  {
    kept := [];
    for i := 0 to |paths|
      invariant kept == OutsideTree(paths[..i])
    {
      assert paths[..i+1] == paths[..i] + [paths[i]] && [paths[i]][1..] == [];
      OutsideConcat(paths[..i], [paths[i]]);
      if !InSourceTree(paths[i]) { kept := kept + [paths[i]]; }
    }
    assert paths[..|paths|] == paths;
  }

  // ---------------------------------------------------------------- the rewrite

  /** No refusal: every ValueError and the SystemExit of the source. */
  predicate Renders(st: State, s: Selection, bundled: set<string>) {
    && (s.mode.OpenAi? || s.hasSlash)
    && (s.search.Some? ==> s.search.value in bundled)
    && (s.fetch.Some? ==> s.fetch.value in bundled)
    && LocaleFine(st, s)
  }

  predicate LocaleFine(st: State, s: Selection) {
    (s.timezone.None? || s.timezoneKnown) && (st.allowedOrigins.None? || s.portValid)
  }

  /** What the renderer owns, and beside it the reviewed keys it does not own. */
  function Keep(own: Entries, reviewed: Entries, dropped: set<string>): Entries {
    map k | k in own.Keys + (reviewed.Keys - dropped) :: if k in own then own[k] else reviewed[k]
  }

  method Restore(own: Entries, reviewed: Entries, dropped: set<string>) returns (merged: Entries)
    ensures merged == Keep(own, reviewed, dropped)
  {
    merged := own;
    var left := reviewed.Keys;
    while left != {}
      invariant left <= reviewed.Keys
      invariant merged.Keys == own.Keys + (reviewed.Keys - dropped - left)
      invariant forall k :: k in merged ==> merged[k] == if k in own then own[k] else reviewed[k]
      decreases left
    {
      var key: string :| key in left;
      if key !in dropped && key !in merged { merged := merged[key := reviewed[key]]; }
      left := left - {key};
    }
  }

  function Origins(port: string): seq<string> { ["http://localhost:" + port, "http://127.0.0.1:" + port] }

  /** The models, plugins and web tools, key by key. */
  function Rebuilt(st: State, s: Selection): State {
    st.(models := Keep(OwnModels(s), st.models, {"providers"}),
        allow := Dedupe(Plugins(s)),
        loadPaths := Dedupe(LoadPaths(s)),
        entries := Keep(OwnEntries(s), st.entries, {}),
        web := Some(Web(s)))
  }

  /** The operator's timezone and published port. */
  function Localised(st: State, s: Selection): State {
    st.(userTimezone := if s.timezone.Some? then s.timezone else st.userTimezone,
        allowedOrigins := if st.allowedOrigins.Some? then Some(Origins(s.port)) else None)
  }

  /** The rendered configuration. */
  function Select(st: State, s: Selection): State { Localised(Rebuilt(st, s), s) }

  // ---------------------------------------------------------------- the statements, part by part

  function Next(part: Part): Part { match part case Models => Search case Search => Fetch case _ => Channel }

  /** The plugin whose entry a part writes. */
  function PluginOf(s: Selection, part: Part): Option<string> {
    match part
    case Models => ModelPlugin(s)
    case Search => SearchPlugin(s)
    case Fetch => FetchPlugin(s)
    case Channel => s.channel
  }

  lemma EachNext(s: Selection, part: Part, ps: seq<string>)
    requires !part.Channel?
    ensures var x := PluginOf(s, Next(part));
      && (x.None? ==> Each(s, Next(part), ps) == Each(s, part, ps))
      && (x.Some? ==> Each(s, Next(part), ps + [x.value]) ==
                        Each(s, part, ps)[x.value := EntryAfter(s, Next(part), x.value)])
  {
    forall p | Some(p) != PluginOf(s, Next(part)) ensures EntryAfter(s, Next(part), p) == EntryAfter(s, part, p) {}
  }

  /** What the statements up to the model provider have appended. */
  predicate ModelsDone(s: Selection, allow: seq<string>, paths: seq<string>, entries: Entries) {
    && allow == FIXED_PLUGINS + Opt(ModelPlugin(s))
    && OutsideTree(paths) == [TRUSTED_PATH]
    && entries == Each(s, Models, allow)
  }

  predicate SearchDone(s: Selection, allow: seq<string>, paths: seq<string>, entries: Entries) {
    && allow == FIXED_PLUGINS + Opt(ModelPlugin(s)) + Opt(SearchPlugin(s))
    && OutsideTree(paths) == [TRUSTED_PATH] + Opt(SearchPath(s))
    && entries == Each(s, Search, allow)
  }

  /** The list with firecrawl at its end, whether or not it is there already. */
  function WithFetch(s: Selection): seq<string> {
    FIXED_PLUGINS + Opt(ModelPlugin(s)) + Opt(SearchPlugin(s)) + Opt(FetchPlugin(s))
  }

  predicate FetchDone(s: Selection, allow: seq<string>, paths: seq<string>, entries: Entries) {
    && Dedupe(allow + Opt(s.channel)) == Dedupe(Plugins(s))
    && Dedupe(OutsideTree(paths)) == Dedupe(LoadPaths(s))
    && entries == Each(s, Fetch, WithFetch(s))
  }

  method FixedEntries(s: Selection) returns (allow: seq<string>, entries: Entries)
    ensures allow == FIXED_PLUGINS && entries == Each(s, Models, FIXED_PLUGINS)
  {
    allow := ["vc-trusted-context", "web-readability"];
    var hooks := Table(map["allowConversationAccess" := ENABLED]);
    entries := map["vc-trusted-context" := Table(map["enabled" := ENABLED, "hooks" := hooks])];
    entries := entries["web-readability" := Enabled()];
  }

  method SelectModel(s: Selection) returns (allow: seq<string>, paths: seq<string>, entries: Entries, models: Entries)
    ensures ModelsDone(s, allow, paths, entries) && models == OwnModels(s)
  {
    allow, entries := FixedEntries(s);
    paths := [TRUSTED_PATH];
    match s.mode {
      case OpenAi =>
        allow := allow + ["openai"];
        entries := entries["openai" := Enabled()];
        var runtime := Table(map["agentRuntime" := Table(map["id" := Leaf("openclaw")])]);
        models := map["providers" := Table(map["openai" := runtime])];
      case Ollama =>
        allow := allow + ["ollama"];
        paths := paths + [OLLAMA_PATH];
        entries := entries["ollama" := Configured(map["discovery" := Off(), "nodeInference" := Off()])];
        models := map["mode" := Leaf("merge"), "providers" := Table(map["ollama" := s.provider])];
      case Custom(id) =>
        models := map["mode" := Leaf("merge"), "providers" := Table(map[id := s.provider])];
    }
    ModelPaths(s, paths);
  }

  method SelectSearch(s: Selection, allow0: seq<string>, paths0: seq<string>, entries0: Entries)
    returns (allow: seq<string>, paths: seq<string>, entries: Entries)
    requires ModelsDone(s, allow0, paths0, entries0)
    ensures SearchDone(s, allow, paths, entries)
  {
    allow, paths, entries := allow0, paths0, entries0;
    EachNext(s, Models, allow);
    if s.search.Some? {
      var plugin := PluginId(s.search.value);
      var config := SearchConfig(s.search.value);
      entries := entries[plugin := if config == map[] then Enabled() else Configured(config)];
      allow := allow + [plugin];
      paths := paths + [PluginPath(s.search.value)];
      OutsideConcat(paths0, [PluginPath(s.search.value)]);
      PluginOutside(s.search.value);
    }
  }

  lemma PluginOutside(provider: string)
    ensures OutsideTree([PluginPath(provider)]) == [PluginPath(provider)]
  {
    assert |[PluginPath(provider)][1..]| == 0;
    assert PluginPath(provider)[1] == PACKAGES[1] == 'o' && SOURCE_TREE[1] == 'a';
  }

  lemma ModelPaths(s: Selection, paths: seq<string>)
    requires paths == [TRUSTED_PATH] + (if s.mode.Ollama? then [OLLAMA_PATH] else [])
    ensures OutsideTree(paths) == [TRUSTED_PATH]
  {
    var fixed: seq<string> := [TRUSTED_PATH];
    var tree: seq<string> := [OLLAMA_PATH];
    assert TRUSTED_PATH[1] == 'o' && SOURCE_TREE[1] == 'a';
    assert OLLAMA_PATH[..|SOURCE_TREE|] == SOURCE_TREE;
    assert fixed[1..] == [] && tree[1..] == [];
    assert InSourceTree(tree[0]) && !InSourceTree(fixed[0]);
    OutsideConcat(fixed, if s.mode.Ollama? then tree else []);
  }

  method SelectFetch(s: Selection, allow0: seq<string>, paths0: seq<string>, entries0: Entries)
    returns (allow: seq<string>, paths: seq<string>, entries: Entries)
    requires SearchDone(s, allow0, paths0, entries0)
    ensures FetchDone(s, allow, paths, entries)
  {
    allow, paths, entries := allow0, paths0, entries0;
    FirecrawlListed(s, allow);
    EachNext(s, Search, allow);
    if s.fetch == Some("firecrawl") {
      if "firecrawl" !in allow {
        allow := allow + ["firecrawl"];
        paths := paths + [PluginPath("firecrawl")];
        OutsideConcat(paths0, [PluginPath("firecrawl")]);
        PluginOutside("firecrawl");
      } else {
        RepeatedPath(s);
        RepeatedPlugin(s, allow);
      }
      entries := KeyFetch(s, entries);
    } else {
      NoFetch(s);
    }
  }

  lemma NoFetch(s: Selection)
    requires !FetchesFirecrawl(s)
    ensures LoadPaths(s) == [TRUSTED_PATH] + Opt(SearchPath(s))
    ensures WithFetch(s) == FIXED_PLUGINS + Opt(ModelPlugin(s)) + Opt(SearchPlugin(s))
  {
  }

  /** The repeated append of firecrawl that the source avoids would not show. */
  lemma RepeatedPlugin(s: Selection, allow: seq<string>)
    requires allow == FIXED_PLUGINS + Opt(ModelPlugin(s)) + Opt(SearchPlugin(s))
    requires FetchesFirecrawl(s) && "firecrawl" in allow
    ensures Dedupe(allow + Opt(s.channel)) == Dedupe(Plugins(s))
  {
    DedupeSkip(allow, "firecrawl", Opt(s.channel));
  }

  /** setdefault twice, then the webFetch key. */
  method KeyFetch(s: Selection, entries0: Entries) returns (entries: Entries)
    requires "firecrawl" in entries0 ==> entries0["firecrawl"] == SearchEntry(s, "firecrawl")
    requires "firecrawl" in entries0 <==> s.search == Some("firecrawl")
    requires FetchesFirecrawl(s)
    ensures entries == entries0["firecrawl" := FetchEntry(s, "firecrawl")]
  {
    entries := entries0;
    if "firecrawl" !in entries { entries := entries["firecrawl" := Configured(map[])]; }
    var fields := entries["firecrawl"].entries;
    if "config" !in fields { fields := fields["config" := Table(map[])]; }
    var config := fields["config"].entries;
    var keyed := Table(fields["config" := Table(config["webFetch" := FetchKey()])]);
    assert keyed == FetchEntry(s, "firecrawl");
    entries := entries["firecrawl" := keyed];
  }

  /** Only a search with the same plugin can have listed firecrawl before. */
  lemma FirecrawlListed(s: Selection, allow: seq<string>)
    requires allow == FIXED_PLUGINS + Opt(ModelPlugin(s)) + Opt(SearchPlugin(s))
    ensures "firecrawl" in allow <==> s.search == Some("firecrawl")
  {
    assert FIXED_PLUGINS[0] != "firecrawl" && FIXED_PLUGINS[1] != "firecrawl";
    if s.search == Some("firecrawl") { assert allow[|allow|-1] == "firecrawl"; }
  }

  lemma RepeatedPath(s: Selection)
    requires s.search == s.fetch == Some("firecrawl")
    ensures Dedupe(LoadPaths(s)) == Dedupe([TRUSTED_PATH] + Opt(SearchPath(s)))
  {
    var before := [TRUSTED_PATH] + Opt(SearchPath(s));
    assert before[1] == PluginPath("firecrawl");
    DedupeSkip(before, PluginPath("firecrawl"), []);
    assert before + [PluginPath("firecrawl")] + [] == LoadPaths(s) && before + [] == before;
  }

  /** Everything the renderer builds before it merges the reviewed keys back. */
  method BuildOwn(s: Selection) returns (allow: seq<string>, paths: seq<string>, entries: Entries, models: Entries)
    ensures allow == Dedupe(Plugins(s)) && paths == Dedupe(LoadPaths(s))
    ensures entries == OwnEntries(s) && models == OwnModels(s)
  {
    allow, paths, entries, models := SelectModel(s);
    allow, paths, entries := SelectSearch(s, allow, paths, entries);
    allow, paths, entries := SelectFetch(s, allow, paths, entries);
    EachNext(s, Fetch, WithFetch(s));
    assert Plugins(s) == WithFetch(s) + Opt(s.channel);
    ghost var listed := allow;
    if s.channel.Some? {
      allow := allow + [s.channel.value];
      entries := entries[s.channel.value := Enabled()];
    }
    assert allow == listed + Opt(s.channel);
    allow := DropRepeats(allow);
    paths := DropSourceTree(paths);
    paths := DropRepeats(paths);
  }

  /** What the rewrite means: the allowlist holds exactly the selected plugins, each once; the entries
      are theirs and the reviewed ones; and what is reviewed and not selected stays as it was, but for
      the providers and, outside the openai mode, the mode. */
  ghost predicate Rendered(before: State, after: State, s: Selection) {
    && NoRepeat(after.allow) && (forall p :: p in after.allow <==> p in Plugins(s))
    && (forall p :: p in after.entries <==> p in Plugins(s) || p in before.entries)
    && (forall p :: p in before.entries && p !in Plugins(s) ==> after.entries[p] == before.entries[p])
    && (forall k :: k in before.models && k != "providers" && (k == "mode" ==> s.mode.OpenAi?) ==>
          k in after.models && after.models[k] == before.models[k])
    && (forall path :: path in after.loadPaths ==> !InSourceTree(path))
  }

  lemma SelectRendered(st: State, s: Selection)
    ensures Rendered(st, Select(st, s), s)
  {
    DedupeMeans(Plugins(s));
    DedupeMeans(LoadPaths(s));
    PathsOutside(s);
    assert forall k :: k in OwnModels(s) <==> k == "providers" || (k == "mode" && !s.mode.OpenAi?);
  }

  lemma PathsOutside(s: Selection)
    ensures forall path :: path in LoadPaths(s) ==> !InSourceTree(path)
  {
    assert TRUSTED_PATH[1] == 'o' && SOURCE_TREE[1] == 'a';
    assert forall provider :: PluginPath(provider)[1] == PACKAGES[1] == 'o';
  }

  /** The configuration is what rendering s over some configuration gives. */
  ghost predicate IsRendering(st: State, s: Selection) { exists before :: Select(before, s) == st }

  /** Rendering again with the same selection changes nothing and is not refused. */
  lemma SelectIdempotent(st: State, s: Selection, bundled: set<string>)
    requires Renders(st, s, bundled)
    ensures Select(Select(st, s), s) == Select(st, s) && Renders(Select(st, s), s, bundled)
  {
    SelectTwice(st, s);
  }

  lemma SelectTwice(st: State, s: Selection)
    ensures Select(Select(st, s), s) == Select(st, s)
  {
    KeepTwice(OwnModels(s), st.models, {"providers"});
    KeepTwice(OwnEntries(s), st.entries, {});
  }

  lemma KeepTwice(own: Entries, reviewed: Entries, dropped: set<string>)
    ensures Keep(own, Keep(own, reviewed, dropped), dropped) == Keep(own, reviewed, dropped)
  {
  }

  lemma RenderingFixed(st: State, s: Selection)
    ensures Select(st, s) == st <==> IsRendering(st, s)
  {
    if IsRendering(st, s) {
      var before :| Select(before, s) == st;
      SelectTwice(before, s);
    }
  }

  class Renderer {
    var models: Entries
    var allow: seq<string>
    var loadPaths: seq<string>
    var entries: Entries
    var web: Option<Config>
    var userTimezone: Option<string>
    var allowedOrigins: Option<seq<string>>

    ghost function Contents(): State
      reads this
    {
      State(models, allow, loadPaths, entries, web, userTimezone, allowedOrigins)
    }

    /** plugins, models and tools.web. */
    method Rebuild(s: Selection)
      modifies this
      ensures Contents() == Rebuilt(old(Contents()), s)
    {
      var reviewedModels, reviewedEntries := models, entries;
      var ownAllow, ownPaths, ownEntries, ownModels := BuildOwn(s);
      web := Some(Web(s));
      allow := ownAllow;
      loadPaths := ownPaths;
      models := Restore(ownModels, reviewedModels, {"providers"});
      entries := Restore(ownEntries, reviewedEntries, {});
    }

    method Localise(s: Selection) returns (ok: bool)
      modifies this`userTimezone, this`allowedOrigins
      ensures ok == LocaleFine(old(Contents()), s)
      ensures ok ==> Contents() == Localised(old(Contents()), s)
    {
      if s.timezone.Some? {
        if !s.timezoneKnown { return false; }
        userTimezone := s.timezone;
      }
      if allowedOrigins.Some? {
        if !s.portValid { return false; }
        allowedOrigins := Some(Origins(s.port));
      }
      ok := true;
    }

    /** What a refusal leaves behind is open: the caller discards it. */
    method ApplyRuntimeSelection(s: Selection, bundled: set<string>) returns (ok: bool)
      modifies this
      ensures ok == Renders(old(Contents()), s, bundled)
      ensures ok ==> Contents() == Select(old(Contents()), s)
      ensures ok ==> Rendered(old(Contents()), Contents(), s)
      ensures ok ==> (Contents() == old(Contents()) <==> IsRendering(old(Contents()), s))
    {
      if !s.mode.OpenAi? && !s.hasSlash { return false; }
      if s.search.Some? && s.search.value !in bundled { return false; }
      if s.fetch.Some? && s.fetch.value !in bundled { return false; }
      Rebuild(s);
      ok := Localise(s);
      SelectRendered(old(Contents()), s);
      RenderingFixed(old(Contents()), s);
    }
  }

  // ---------------------------------------------------------------- laws

  /** Rendering t over the output of s is rendering t afresh iff nothing that only s writes is left:
      the entry of a plugin that t does not select, the mode, the timezone. */
  lemma SwitchExact(st: State, s: Selection, t: Selection)
    ensures Select(Select(st, s), t) == Select(st, t) <==>
            EntriesFresh(st, s, t) && ModeFresh(st, s, t) && TimezoneFresh(st, s, t)
  {
    KeepOver(OwnEntries(t), OwnEntries(s), st.entries, {});
    KeepOver(OwnModels(t), OwnModels(s), st.models, {"providers"});
    EntriesStale(st, s, t);
    ModelsStale(st, s, t);
  }

  ghost predicate EntriesFresh(st: State, s: Selection, t: Selection) {
    forall p :: p in Plugins(s) && p !in Plugins(t) ==> p in st.entries && st.entries[p] == EntryOf(s, p)
  }

  predicate ModeFresh(st: State, s: Selection, t: Selection) {
    t.mode.OpenAi? && !s.mode.OpenAi? ==> "mode" in st.models && st.models["mode"] == Leaf("merge")
  }

  predicate TimezoneFresh(st: State, s: Selection, t: Selection) {
    t.timezone.None? && s.timezone.Some? ==> s.timezone == st.userTimezone
  }

  /** What b writes and a does not was there before. */
  ghost predicate Covered(a: Entries, b: Entries, reviewed: Entries, dropped: set<string>) {
    forall k :: k in b && k !in a && k !in dropped ==> k in reviewed && reviewed[k] == b[k]
  }

  lemma EntriesStale(st: State, s: Selection, t: Selection)
    ensures Covered(OwnEntries(t), OwnEntries(s), st.entries, {}) <==> EntriesFresh(st, s, t)
  {
    if Covered(OwnEntries(t), OwnEntries(s), st.entries, {}) {
      forall p | p in Plugins(s) && p !in Plugins(t) ensures p in st.entries && st.entries[p] == EntryOf(s, p) {
        assert p in OwnEntries(s) && p !in OwnEntries(t);
      }
    }
  }

  lemma ModelsStale(st: State, s: Selection, t: Selection)
    ensures Covered(OwnModels(t), OwnModels(s), st.models, {"providers"}) <==> ModeFresh(st, s, t)
  {
    assert OwnModels(s).Keys == if s.mode.OpenAi? then {"providers"} else {"mode", "providers"};
    assert OwnModels(t).Keys == if t.mode.OpenAi? then {"providers"} else {"mode", "providers"};
    if !s.mode.OpenAi? { assert "mode" in OwnModels(s) && OwnModels(s)["mode"] == Leaf("merge"); }
  }

  /** a's rewrite over b's output is a's rewrite of the original iff what only b wrote was there. */
  lemma KeepOver(a: Entries, b: Entries, reviewed: Entries, dropped: set<string>)
    ensures Keep(a, Keep(b, reviewed, dropped), dropped) == Keep(a, reviewed, dropped) <==>
            Covered(a, b, reviewed, dropped)
  {
    var twice, once := Keep(a, Keep(b, reviewed, dropped), dropped), Keep(a, reviewed, dropped);
    if twice == once {
      forall k | k in b && k !in a && k !in dropped ensures k in reviewed && reviewed[k] == b[k] {
        assert k in twice && twice[k] == b[k];
      }
    }
    if Covered(a, b, reviewed, dropped) {
      forall k ensures k in twice <==> k in once {}
      forall k | k in twice ensures twice[k] == once[k] {}
    }
  }

  /** The allowlist has no duplicates and holds exactly the selected plugins, all of which have an
      enabled entry: the final plugin assertion cannot fail. */
  lemma AllowExact(st: State, s: Selection, p: string)
    ensures NoRepeat(Select(st, s).allow) && NoRepeat(Select(st, s).loadPaths)
    ensures p in Select(st, s).allow <==> p in Plugins(s)
    ensures p in Plugins(s) ==> p in Select(st, s).entries && IsEnabled(Select(st, s).entries[p])
  {
    SelectRendered(st, s);
    DedupeMeans(LoadPaths(s));
    EntryEnabled(s, p);
    if p in Plugins(s) { OwnWritten(st, s, p); }
  }

  lemma OwnWritten(st: State, s: Selection, p: string)
    requires p in Plugins(s)
    ensures p in Select(st, s).entries && Select(st, s).entries[p] == EntryOf(s, p)
  {
    assert p in OwnEntries(s);
  }

  predicate IsEnabled(entry: Config) {
    entry.Table? && "enabled" in entry.entries && entry.entries["enabled"] == ENABLED
  }

  lemma EntryEnabled(s: Selection, p: string)
    ensures IsEnabled(EntryOf(s, p))
  {
    assert IsEnabled(BaseEntry(s, p));
    assert IsEnabled(SearchEntry(s, p));
    assert IsEnabled(FetchEntry(s, p));
  }
}

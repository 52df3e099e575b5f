/**
 * The launch buttons of the QuantEcon book theme (`launch.py`): the
 * GitHub repository URL is taken apart, and the Binder, JupyterHub and
 * Colab links for the page's notebook are written into the page context
 * together with the ordered `launch_buttons` list and the default server.
 */
module Launch {
  import opened Options
  import opened Strings
  import opened PyValues

  // ---------------------------------------------------------------------
  // _split_repo_url, _get_repo_url, _get_branch
  // ---------------------------------------------------------------------

  const GitHub := "github.com/"

  /** The organisation, repository and sub-path of a GitHub URL. */
  datatype RepoParts = RepoParts(org: string, repo: string, subpath: string)

  /** Python's `url.split("github.com/")[-1]`: what follows the last `github.com/`. */
  function AfterGitHub(url: string): string {
    Last(Split(url, GitHub))
  }

  /**
   * `_split_repo_url`: `None` for a URL that is not on GitHub, the first two
   * `/`-segments after the last `github.com/` with the remaining segments
   * joined by `/`, and the `ValueError` of the tuple unpack when there is
   * only one segment.
   */
  function SplitRepoUrl(url: string): (r: Result<Option<RepoParts>>)
    ensures r == Ok(None) <==> !Contains(url, GitHub)
    ensures r.Err? <==> Contains(url, GitHub) && '/' !in AfterGitHub(url)
    ensures r.Ok? && r.value.Some? ==> '/' !in r.value.value.org && '/' !in r.value.value.repo
  {
    if Contains(url, GitHub) then
      var segments := Split(AfterGitHub(url), "/");
      SplitSingle(AfterGitHub(url), "/");
      ContainsChar(AfterGitHub(url), '/');
      if |segments| < 2 then
        Err(ValueError("not enough values to unpack (expected 2, got 1)"))
      else
        SplitPiecesFree(AfterGitHub(url), "/");
        ContainsChar(segments[0], '/');
        ContainsChar(segments[1], '/');
        Ok(Some(RepoParts(segments[0], segments[1], Join("/", segments[2..]))))
    else
      Ok(None)
  }

  /**
   * The canonical form `https://github.com/{org}/{repo}/{segment}/...` splits
   * back into its parts: the first two segments, and the others joined by `/`.
   */
  lemma SplitRepoUrlOfParts(segments: seq<string>)
    requires |segments| >= 2
    requires forall k :: 0 <= k < |segments| ==> '/' !in segments[k]
    requires !Contains(Join("/", segments), GitHub)
    ensures SplitRepoUrl("https://" + GitHub + Join("/", segments))
         == Ok(Some(RepoParts(segments[0], segments[1], Join("/", segments[2..]))))
  {
    AfterSchemeIsTail(Join("/", segments));
    SplitJoinChar(segments, '/');
    SplitRepoUrlBySegments("https://" + GitHub + Join("/", segments), segments);
  }

  /** `SplitRepoUrl` read off the `/`-segments after the last `github.com/`. */
  lemma SplitRepoUrlBySegments(url: string, segments: seq<string>)
    requires Contains(url, GitHub) && Split(AfterGitHub(url), "/") == segments && |segments| >= 2
    ensures SplitRepoUrl(url) == Ok(Some(RepoParts(segments[0], segments[1], Join("/", segments[2..]))))
  {
  }

  /** The path after `github.com/` splits on `/` into exactly its segments. */
  lemma SplitPieces(org: string, repo: string, segments: seq<string>)
    requires '/' !in org && '/' !in repo
    requires forall k :: 0 <= k < |segments| ==> '/' !in segments[k]
    ensures Split(Join("/", [org, repo] + segments), "/") == [org, repo] + segments
  {
    PiecesSlashFree(org, repo, segments);
    SplitJoinChar([org, repo] + segments, '/');
  }

  lemma PiecesSlashFree(org: string, repo: string, segments: seq<string>)
    requires '/' !in org && '/' !in repo
    requires forall k :: 0 <= k < |segments| ==> '/' !in segments[k]
    ensures forall k :: 0 <= k < |[org, repo] + segments| ==> '/' !in ([org, repo] + segments)[k]
  {
    var pieces := [org, repo] + segments;
    forall k | 0 <= k < |pieces|
      ensures '/' !in pieces[k]
    {
      if k >= 2 {
        assert pieces[k] == segments[k - 2];
      }
    }
  }

  /** After `https://github.com/` comes the rest of the URL when it holds no other `github.com/`. */
  lemma AfterSchemeIsTail(tail: string)
    requires !Contains(tail, GitHub)
    ensures Contains("https://" + GitHub + tail, GitHub)
    ensures AfterGitHub("https://" + GitHub + tail) == tail
  {
    var url := "https://" + GitHub + tail;
    FindGitHubAt8(url);
    FindFirst(url, GitHub);
    SplitAt(url, GitHub, 8);
    assert url[8 + |GitHub|..] == tail;
    FindFirst(tail, GitHub);
    assert Split(url, GitHub) == ["https://", tail];
  }

  /** `https://github.com/...` has its first `github.com/` right after the scheme. */
  lemma FindGitHubAt8(url: string)
    requires |url| >= 8 + |GitHub| && url[..8] == "https://" && url[8..8 + |GitHub|] == GitHub
    ensures Find(url, GitHub) == Some(8)
  {
    assert OccursAt(url, GitHub, 8);
    forall j: nat | j < 8
      ensures !OccursAt(url, GitHub, j)
    {
      assert url[j] == "https://"[j];
      MismatchNotOccurs(url, GitHub, j);
    }
    FindFirst(url, GitHub);
  }

  /** `_get_repo_url`: the `nb_repository_url` option, `None` when it is absent. */
  function GetRepoUrl(options: map<string, Scalar>): (url: Scalar)
    ensures "nb_repository_url" in options ==> url == options["nb_repository_url"]
    ensures "nb_repository_url" !in options ==> url == Nil
  {
    Get(options, "nb_repository_url", Nil)
  }

  /** `_get_branch`: the `nb_branch` option when it is truthy, `"main"` otherwise. */
  function GetBranch(options: map<string, Scalar>): (branch: Scalar)
    ensures Truthy(branch)
    ensures "nb_branch" in options && Truthy(options["nb_branch"]) ==> branch == options["nb_branch"]
    ensures !("nb_branch" in options && Truthy(options["nb_branch"])) ==> branch == Str("main")
  {
    var b := Get(options, "nb_branch", Nil);
    if Truthy(b) then b else Str("main")
  }

  // ---------------------------------------------------------------------
  // The pieces of the launch URLs
  // ---------------------------------------------------------------------

  /**
   * The repository root after the sub-path has been removed, as intended:
   * only the trailing `"/" + subpath` goes. `launch.py` line 46 replaces
   * every occurrence (see `RepoRootAsWritten`).
   */
  function RepoRoot(url: string, subpath: string): (root: string)
    ensures EndsWith(url, "/" + subpath) ==> root + "/" + subpath == url
    ensures !EndsWith(url, "/" + subpath) ==> root == url
  {
    if EndsWith(url, "/" + subpath) then url[..|url| - |subpath| - 1] else url
  }

  /**
   * `repo_url.replace("/" + repo_subpath, "")`, as `launch.py` line 46
   * writes it: every occurrence of `"/" + subpath` is removed, so the
   * result is never longer than the URL and is the URL itself when the
   * sub-path does not occur in it.
   */
  function RepoRootAsWritten(url: string, subpath: string): (root: string)
    ensures |root| <= |url|
    ensures !Contains(url, "/" + subpath) ==> root == url
  {
    ReplaceNoLonger(url, "/" + subpath, "");
    assert !Contains(url, "/" + subpath) ==> ReplaceAll(url, "/" + subpath, "") == url by {
      if !Contains(url, "/" + subpath) {
        ReplaceAbsent(url, "/" + subpath, "");
      }
    }
    ReplaceAll(url, "/" + subpath, "")
  }

  /**
   * When `"/" + subpath` occurs in the URL only as its ending, the code as
   * written and the corrected root agree: the URL without that ending.
   */
  lemma RepoRootAsWrittenAgrees(url: string, subpath: string)
    requires EndsWith(url, "/" + subpath)
    requires forall j: nat :: j < |url| - |subpath| - 1 ==> !OccursAt(url, "/" + subpath, j)
    ensures RepoRootAsWritten(url, subpath) == RepoRoot(url, subpath)
    ensures RepoRootAsWritten(url, subpath) + "/" + subpath == url
  {
    var a := url[..|url| - |subpath| - 1];
    assert url == a + ("/" + subpath);
    ReplaceOnlyAtEnd(a, "/" + subpath, "");
    assert a + "" == a;
  }

  /**
   * Where the two differ: when the repository name starts with the
   * sub-path, `replace` also removes that part of the name, so the
   * repository root loses its repository segment.
   */
  lemma RepoRootAsWrittenStripsTooMuch(org: string, word: string, suffix: string)
    requires org != "" && word != "" && '/' !in org && '/' !in word && '/' !in suffix
    requires word[0] != 'g' && org[0] != word[0]
    ensures RepoRootAsWritten("https://" + GitHub + (org + "/" + word + suffix + "/" + word), word)
         == "https://" + GitHub + (org + suffix)
  {
    var t := "/" + word;
    var r2 := org + (t + (suffix + t));
    SiteUrlShape(org, word, suffix);
    ReplaceHost(r2, word);
    ReplaceRepoSegment(org, t, suffix);
    HostShape(org + suffix);
  }

  lemma SiteUrlShape(org: string, word: string, suffix: string)
    ensures "https://" + GitHub + (org + "/" + word + suffix + "/" + word)
         == "https:" + ("/" + ("/" + ("github.com" + ("/" + (org + (("/" + word) + (suffix + ("/" + word))))))))
  {
  }

  lemma HostShape(rest: string)
    ensures "https:" + ("/" + ("/" + ("github.com" + ("/" + rest)))) == "https://" + GitHub + rest
  {
  }

  /** The scan over `https://github.com/` finds no `/word` there. */
  lemma ReplaceHost(r2: string, word: string)
    requires word != "" && word[0] != 'g' && word[0] != '/'
    requires r2 != "" && r2[0] != word[0]
    ensures ReplaceAll("https:" + ("/" + ("/" + ("github.com" + ("/" + r2)))), "/" + word, "")
         == "https:" + ("/" + ("/" + ("github.com" + ("/" + ReplaceAll(r2, "/" + word, "")))))
  {
    var t := "/" + word;
    var r1 := "github.com" + ("/" + r2);
    ReplaceSkipPrefix("https:", "/" + ("/" + r1), t, "");
    ReplaceHostSlashes(r1, word);
    ReplaceSkipPrefix("github.com", "/" + r2, t, "");
    ReplaceSkipSlash(r2, word);
  }

  lemma ReplaceHostSlashes(r1: string, word: string)
    requires word != "" && word[0] != 'g' && word[0] != '/'
    requires r1 != "" && r1[0] == 'g'
    ensures ReplaceAll("/" + ("/" + r1), "/" + word, "") == "/" + ("/" + ReplaceAll(r1, "/" + word, ""))
  {
    NotStartsWith("/" + ("/" + r1), "/" + word, 1);
    ReplaceSkipChar('/', "/" + r1, "/" + word, "");
    ReplaceSkipSlash(r1, word);
  }

  lemma ReplaceSkipSlash(r: string, word: string)
    requires word != "" && r != "" && r[0] != word[0]
    ensures ReplaceAll("/" + r, "/" + word, "") == "/" + ReplaceAll(r, "/" + word, "")
  {
    NotStartsWith("/" + r, "/" + word, 1);
    ReplaceSkipChar('/', r, "/" + word, "");
  }

  /** In `org/word<suffix>/word` both occurrences of `/word` go. */
  lemma ReplaceRepoSegment(org: string, t: string, suffix: string)
    requires t != "" && t[0] == '/' && '/' !in org && '/' !in suffix
    ensures ReplaceAll(org + (t + (suffix + t)), t, "") == org + suffix
  {
    ReplaceSkipPrefix(org, t + (suffix + t), t, "");
    ReplaceAtStart(suffix + t, t, "");
    ReplaceTrailing(suffix, t);
  }

  lemma ReplaceTrailing(suffix: string, t: string)
    requires t != "" && t[0] !in suffix
    ensures ReplaceAll(suffix + t, t, "") == suffix
  {
    ReplaceSkipPrefix(suffix, t, t, "");
    ReplaceAtStart("", t, "");
    assert t + "" == t;
  }

  /** The corrected root of `root/word` is `root`. */
  lemma RepoRootOfSuffixed(root: string, word: string)
    ensures RepoRoot(root + "/" + word, word) == root
  {
    var url := root + "/" + word;
    assert url[|url| - |"/" + word|..] == "/" + word;
  }

  /**
   * On the same URLs the corrected root keeps the repository segment: the
   * root of `https://github.com/org/lectures-site/lectures` with sub-path
   * `lectures` is `https://github.com/org/lectures-site`.
   */
  lemma RepoRootKeepsRepoSegment(org: string, word: string, suffix: string)
    ensures RepoRoot("https://" + GitHub + (org + "/" + word + suffix + "/" + word), word)
         == "https://" + GitHub + (org + "/" + word + suffix)
  {
    var root := "https://" + GitHub + (org + "/" + word + suffix);
    RepoRootOfSuffixed(root, word);
    assert root + "/" + word == "https://" + GitHub + (org + "/" + word + suffix + "/" + word);
  }

  /** A GitHub URL with a sub-path ends with `"/" + subpath`, so `RepoRoot` cuts exactly that. */
  lemma RepoUrlEndsWithSubpath(url: string, p: RepoParts)
    requires SplitRepoUrl(url) == Ok(Some(p)) && p.subpath != ""
    ensures EndsWith(url, "/" + p.subpath)
    ensures RepoRoot(url, p.subpath) + "/" + p.subpath == url
  {
    var tail := AfterGitHub(url);
    var segments := Split(tail, "/");
    assert p.subpath == Join("/", segments[2..]);
    LastSplitSuffix(url, GitHub);
    JoinSplit(tail, "/");
    JoinEndsWithRest(segments);
    EndsWithTrans(url, tail, "/" + p.subpath);
    RepoRootOfEndsWith(url, p.subpath);
  }

  /** A join of three or more segments ends with `/` and the join of the third onwards. */
  lemma JoinEndsWithRest(segments: seq<string>)
    requires |segments| >= 2 && Join("/", segments[2..]) != ""
    ensures EndsWith(Join("/", segments), "/" + Join("/", segments[2..]))
  {
    var j := Join("/", segments[2..]);
    assert segments[1..][1..] == segments[2..];
    var w := Join("/", segments[1..]);
    assert w == segments[1] + "/" + j;
    EndsWithAppended(segments[0] + "/", w);
    EndsWithSepJoin(segments[1], "/", j);
    EndsWithTrans(Join("/", segments), w, "/" + j);
  }

  lemma EndsWithSepJoin(a: string, sep: string, b: string)
    ensures EndsWith(a + sep + b, sep + b)
  {
    assert (a + sep + b)[|a|..] == sep + b;
  }

  lemma EndsWithAppended(a: string, b: string)
    ensures EndsWith(a + b, b)
  {
    assert (a + b)[|a + b| - |b|..] == b;
  }

  lemma EndsWithTrans(s: string, t: string, u: string)
    requires EndsWith(s, t) && EndsWith(t, u)
    ensures EndsWith(s, u)
  {
    assert s[|s| - |u|..] == t[|t| - |u|..];
  }

  lemma RepoRootOfEndsWith(url: string, subpath: string)
    requires EndsWith(url, "/" + subpath)
    ensures RepoRoot(url, subpath) + "/" + subpath == url
  {
    assert url == url[..|url| - |subpath| - 1] + url[|url| - |subpath| - 1..];
  }

  /**
   * The notebook's path relative to the repository root: `path_to_docs`
   * stripped of `/` at both ends, then `/` when that is non-empty, then
   * the page name with the `.ipynb` extension.
   */
  function NotebookRelPath(pathToDocs: string, pagename: string): (path: string)
    ensures EndsWith(path, pagename + ".ipynb")
    ensures Strip(pathToDocs, IsSlash) == "" ==> path == pagename + ".ipynb"
    ensures Strip(pathToDocs, IsSlash) != "" ==>
      |path| > |pagename + ".ipynb"| && path[0] != '/' && path[|path| - |pagename + ".ipynb"| - 1] == '/'
  {
    var docs := Strip(pathToDocs, IsSlash);
    var file := pagename + ".ipynb";
    if docs != "" then
      StripEnds(pathToDocs, IsSlash);
      var path := docs + "/" + file;
      assert path[0] == docs[0] && path[|docs|] == '/';
      EndsWithAppended(docs + "/", file);
      path
    else
      assert EndsWith(file, file) by { EndsWithAppended("", file); }
      file
  }

  /** Leading and trailing slashes of `path_to_docs` make no difference. */
  lemma NotebookRelPathSlashes(docs: string, pagename: string)
    requires docs != "" && docs[0] != '/' && Last(docs) != '/'
    ensures NotebookRelPath("/" + docs + "/", pagename) == docs + "/" + pagename + ".ipynb"
    ensures NotebookRelPath(docs, pagename) == docs + "/" + pagename + ".ipynb"
  {
    var padded := "/" + docs + "/";
    assert padded[1..] == docs + "/";
    assert LStrip(padded, IsSlash) == docs + "/";
    assert (docs + "/")[..|docs|] == docs;
    assert RStrip(docs + "/", IsSlash) == docs;
    assert Strip(padded, IsSlash) == docs;
    StripNothing(docs, IsSlash);
    assert NotebookRelPath(padded, pagename) == docs + "/" + (pagename + ".ipynb");
    assert NotebookRelPath(docs, pagename) == docs + "/" + (pagename + ".ipynb");
  }

  /** One entry of `launch_buttons`. */
  function Button(name: string, url: string): Value {
    Dict(map["name" := Str(name), "url" := Str(url)])
  }

  /** An entry of `launch_buttons`: a dictionary with a string `name` and a string `url`. */
  predicate IsButton(v: Value) {
    v.Dict? && "name" in v.entries && "url" in v.entries
    && v.entries["name"].Str? && v.entries["url"].Str?
  }

  /** The `name` of an entry of `launch_buttons` ("" for anything else). */
  function NameOf(v: Value): string {
    if v.Dict? && "name" in v.entries && v.entries["name"].Str? then v.entries["name"].s else ""
  }

  /** The `name` of every entry of a `launch_buttons` list. */
  function ButtonNames(buttons: seq<Value>): (names: seq<string>)
    ensures |names| == |buttons|
    ensures forall k :: 0 <= k < |buttons| ==> names[k] == NameOf(buttons[k])
  {
    seq(|buttons|, k requires 0 <= k < |buttons| => NameOf(buttons[k]))
  }

  /** The message of the `ValueError` for an unknown notebook interface. */
  function InterfaceMessage(ui: Scalar): string {
    "Notebook UI for Binder/JupyterHub links must be one"
    + "of ('classic', 'jupyterlab'),"
    + "not " + Display(ui)
  }

  /** The context keys `add_hub_urls` may write for the launch links. */
  predicate IsLaunchKey(k: string) {
    k == "launch_buttons" || k == "binder_url" || k == "jupyterhub_url"
    || k == "jupyterhub_urlpath" || k == "repo_branch" || k == "colab_url" || k == "default_server"
  }

  /** Everything the launch links are built from, once the URL has been parsed. */
  datatype Links = Links(
    parts: RepoParts, repoUrl: string, subpath: string, uiPre: string, relpath: string,
    branch: Scalar, binderSwitch: Scalar, binderHost: Scalar, hub: Scalar, colab: Scalar)
  {
    function BinderUrl(pagename: string): string {
      Display(binderHost) + "/v2/gh/" + parts.org + "/" + parts.repo + "/" + Display(branch)
      + "?urlpath=tree/" + subpath + pagename + ".ipynb"
    }
    function HubPath(): string {
      uiPre + "/" + parts.repo + "/" + subpath + relpath
    }
    function HubUrl(): string {
      Display(hub) + "/user-redirect/git-pull?repo=" + repoUrl + "&urlpath=" + HubPath()
      + "&branch=" + Display(branch)
    }
    function ColabUrl(): string {
      Display(colab) + "/github/" + parts.org + "/" + parts.repo + "/blob/" + Display(branch)
      + "/" + subpath + relpath
    }
  }

  /** The two notebook interfaces, and the `path_to_docs` default. */
  const Classic: Scalar := Str("classic")
  const JupyterLab: Scalar := Str("jupyterlab")
  const NoPath: Scalar := Str("")

  /**
   * The prefix of the JupyterHub path for the configured notebook
   * interface, or the `ValueError` for one that is neither `classic` nor
   * `jupyterlab` (`classic` when none is configured).
   */
  function InterfacePrefix(lb: map<string, Scalar>): (r: Result<string>)
    ensures "notebook_interface" !in lb ==> r == Ok("tree")
    ensures var ui := Get(lb, "notebook_interface", Classic);
      && (r.Ok? <==> ui == Classic || ui == JupyterLab)
      && (r.Ok? ==> (r.value == "tree" <==> ui == Classic) && (r.value == "lab/tree" <==> ui == JupyterLab))
      && (r.Err? ==> r.error == ValueError(InterfaceMessage(ui)))
  {
    var ui := Get(lb, "notebook_interface", Classic);
    if ui == Classic then Ok("tree")
    else if ui == JupyterLab then Ok("lab/tree")
    else Err(ValueError(InterfaceMessage(ui)))
  }

  /**
   * Lines 40-66 and 72-84 of `launch.py`: the URL is parsed, the notebook
   * interface is checked and the pieces of the links are gathered.
   * `Ok(None)` is the early return for a URL that is not on GitHub.
   */
  function GatherLinks(opts: ThemeOptions, pagename: string, url: Scalar): Result<Option<Links>> {
    if !url.Str? then Err(TypeError("argument of type '" + TypeName(url) + "' is not iterable"))
    else match SplitRepoUrl(url.s)
      case Err(e) => Err(e)
      case Ok(None) => Ok(None)
      case Ok(Some(p)) => LinksFor(opts, pagename, url.s, p)
  }

  /** The BinderHub used when the configuration names none. */
  const DefaultBinderHub: Scalar := Str("https://mybinder.org")

  /** The links of a parsed GitHub URL, or the exception that stops them. */
  function LinksFor(opts: ThemeOptions, pagename: string, url: string, p: RepoParts): (r: Result<Option<Links>>)
    ensures r.Ok? ==> r.value.Some? && r.value.value.parts == p
  {
    match InterfacePrefix(opts.launchButtons)
    case Err(e) => Err(e)
    case Ok(uiPre) =>
      match AsStr(Get(opts.values, "path_to_docs", NoPath), "strip")
      case Err(e) => Err(e)
      case Ok(docs) => Ok(Some(LinksWith(opts, pagename, url, p, uiPre, docs)))
  }

  /**
   * Lines 44-49 and 72-84: the pieces of the links, for the interface
   * prefix and `path_to_docs`. The repository URL loses its sub-path as
   * line 46 writes it (`RepoRootAsWritten`).
   */
  function LinksWith(opts: ThemeOptions, pagename: string, url: string, p: RepoParts,
                     uiPre: string, docs: string): Links {
    var cfg := opts.values;
    var lb := opts.launchButtons;
    Links(
      p, if p.subpath != "" then RepoRootAsWritten(url, p.subpath) else url,
      if p.subpath != "" then p.subpath + "/" else "", uiPre,
      NotebookRelPath(docs, pagename), GetBranch(cfg),
      Get(lb, "binderhub_url", Nil), Get(cfg, "binderhub_url", DefaultBinderHub),
      Get(lb, "jupyterhub_url", Nil), Get(lb, "colab_url", Nil))
  }

  /**
   * The repository URL the JupyterHub link pulls: for a split URL whose
   * `"/" + subpath` occurs only at its end, the URL without the sub-path.
   */
  lemma LinksRepoUrl(opts: ThemeOptions, pagename: string, url: string, p: RepoParts, uiPre: string, docs: string)
    requires SplitRepoUrl(url) == Ok(Some(p)) && p.subpath != ""
    requires forall j: nat :: j < |url| - |p.subpath| - 1 ==> !OccursAt(url, "/" + p.subpath, j)
    ensures LinksWith(opts, pagename, url, p, uiPre, docs).repoUrl + "/" + p.subpath == url
  {
    RepoUrlEndsWithSubpath(url, p);
    RepoRootAsWrittenAgrees(url, p.subpath);
  }

  /** The launch buttons, in the order BinderHub, JupyterHub, Colab, each present when switched on. */
  function Buttons(l: Links, pagename: string): seq<Value> {
    (if Truthy(l.binderSwitch) then [Button("BinderHub", l.BinderUrl(pagename))] else [])
    + (if Truthy(l.hub) then [Button("JupyterHub", l.HubUrl())] else [])
    + (if Truthy(l.colab) then [Button("Colab", l.ColabUrl())] else [])
  }

  /** The context holds a `launch_buttons` list. */
  predicate HasButtonList(vars: map<string, Value>) {
    && "launch_buttons" in vars && vars["launch_buttons"].List?
    && forall k :: 0 <= k < |vars["launch_buttons"].items| ==> IsButton(vars["launch_buttons"].items[k])
  }

  /** `context["launch_buttons"].append({"name": name, "url": context[key]})`. */
  function Appended(vars: map<string, Value>, name: string, key: string): (r: map<string, Value>)
    requires HasButtonList(vars) && key in vars && vars[key].Str?
    ensures HasButtonList(r)
  {
    vars["launch_buttons" := List(vars["launch_buttons"].items + [Button(name, vars[key].s)])]
  }

  /** Lines 87-100: the BinderHub link and its button. */
  function WithBinder(l: Links, pagename: string, vars: map<string, Value>): (r: map<string, Value>)
    requires HasButtonList(vars)
    ensures HasButtonList(r)
  {
    if Truthy(l.binderSwitch) then Appended(vars["binder_url" := Str(l.BinderUrl(pagename))], "BinderHub", "binder_url")
    else vars
  }

  /** Lines 102-114: the JupyterHub keys, always written, and its button. */
  function WithHub(l: Links, vars: map<string, Value>): (r: map<string, Value>)
    requires HasButtonList(vars)
    ensures HasButtonList(r)
  {
    var v := vars["jupyterhub_url" := Str(l.HubUrl())]["jupyterhub_urlpath" := Str(l.HubPath())]
      ["repo_branch" := l.branch];
    if Truthy(l.hub) then Appended(v, "JupyterHub", "jupyterhub_url") else v
  }

  /** Lines 116-121: the Colab link and its button. */
  function WithColab(l: Links, vars: map<string, Value>): (r: map<string, Value>)
    requires HasButtonList(vars)
    ensures HasButtonList(r)
  {
    if Truthy(l.colab) then Appended(vars["colab_url" := Str(l.ColabUrl())], "Colab", "colab_url")
    else vars
  }

  /**
   * Lines 124-127: the only button's URL, or else `context["colab_url"]`,
   * which raises `KeyError` when no Colab link was ever written.
   */
  function WithDefaultServer(vars: map<string, Value>): Step
    requires HasButtonList(vars)
  {
    var items := vars["launch_buttons"].items;
    if |items| == 1 then Continue(vars["default_server" := items[0].entries["url"]])
    else if "colab_url" in vars then Continue(vars["default_server" := vars["colab_url"]])
    else Stop(Outcome(vars, Some(KeyError("colab_url"))))
  }

  /** Lines 85-127 of `launch.py`: the link keys are written, then `default_server` is chosen. */
  function WriteLinks(l: Links, pagename: string, vars: map<string, Value>): Step {
    WithDefaultServer(WithColab(l, WithHub(l, WithBinder(l, pagename, vars["launch_buttons" := List([])]))))
  }

  /** Lines 133-156 of `launch.py`: the `.ipynb` download name of a markdown notebook, and thebe. */
  function NotebookPart(lb: map<string, Scalar>, pagename: string, isNotebook: bool,
                        vars: map<string, Value>): Outcome {
    if lb == map[] || !isNotebook then Outcome(vars, None)
    else
      var source := if "sourcename" in vars then Some(vars["sourcename"]) else None;
      if source.Some? && !source.value.Str? then
        Outcome(vars, Some(AttributeError("endswith")))
      else
        var v1 := if source.Some? && EndsWith(source.value.s, ".md")
          then vars["ipynb_source" := Str(pagename + ".ipynb")] else vars;
        var v2 := if Truthy(Get(lb, "thebe", Bool(false))) then v1["use_thebe" := Bool(true)] else v1;
        Outcome(v2, None)
  }

  /** The context keys `add_hub_urls` may write: the launch keys, the download name and the thebe flag. */
  predicate HubWrites(k: string) {
    IsLaunchKey(k) || k == "ipynb_source" || k == "use_thebe"
  }

  /**
   * The whole of `add_hub_urls` on a page context. Whether it returns
   * early, raises or gets through, every key it does not own keeps its
   * value, and no such key appears or disappears.
   */
  function HubUrls(opts: ThemeOptions, pagename: string, isNotebook: bool,
                   vars: map<string, Value>): (r: Outcome)
    ensures forall k :: !HubWrites(k) ==> SameAt(r.vars, vars, k)
  {
    var url := GetRepoUrl(opts.values);
    if !Truthy(url) then
      NotebookPartKeeps(opts.launchButtons, pagename, isNotebook, vars);
      NotebookPart(opts.launchButtons, pagename, isNotebook, vars)
    else
      AfterLinksKeeps(GatherLinks(opts, pagename, url), opts.launchButtons, pagename, isNotebook, vars);
      AfterLinks(GatherLinks(opts, pagename, url), opts.launchButtons, pagename, isNotebook, vars)
  }

  /** The notebook part keeps every key `add_hub_urls` does not own. */
  lemma NotebookPartKeeps(lb: map<string, Scalar>, pagename: string, isNotebook: bool, vars: map<string, Value>)
    ensures forall k :: !HubWrites(k) ==> SameAt(NotebookPart(lb, pagename, isNotebook, vars).vars, vars, k)
  {
    forall k | !HubWrites(k)
      ensures SameAt(NotebookPart(lb, pagename, isNotebook, vars).vars, vars, k)
    {
      NotebookPartFrame(lb, pagename, isNotebook, vars, k);
    }
  }

  /** So does everything after the links have been gathered. */
  lemma AfterLinksKeeps(r: Result<Option<Links>>, lb: map<string, Scalar>, pagename: string,
                        isNotebook: bool, vars: map<string, Value>)
    ensures forall k :: !HubWrites(k) ==> SameAt(AfterLinks(r, lb, pagename, isNotebook, vars).vars, vars, k)
  {
    forall k | !HubWrites(k)
      ensures SameAt(AfterLinks(r, lb, pagename, isNotebook, vars).vars, vars, k)
    {
      if r.Ok? && r.value.Some? {
        var l := r.value.value;
        var st := WriteLinks(l, pagename, vars);
        ServicesWrittenFrame(l, pagename, vars, k);
        assert SameAt(StepVars(st), vars, k);
        if st.Continue? {
          NotebookPartFrame(lb, pagename, isNotebook, st.vars, k);
        }
      }
    }
  }

  /** The rest of `add_hub_urls` once the links have been gathered, or have failed. */
  function AfterLinks(r: Result<Option<Links>>, lb: map<string, Scalar>, pagename: string,
                      isNotebook: bool, vars: map<string, Value>): Outcome {
    match r
    case Err(e) => Outcome(vars, Some(e))
    case Ok(None) => Outcome(vars, None)
    case Ok(Some(l)) =>
      match WriteLinks(l, pagename, vars)
      case Stop(o) => o
      case Continue(v) => NotebookPart(lb, pagename, isNotebook, v)
  }

  // ---------------------------------------------------------------------
  // The handler on a page context
  // ---------------------------------------------------------------------

  /** Appends one entry to the context's `launch_buttons` list. */
  method AppendButton(ctx: PageContext, name: string, key: string)
    requires HasButtonList(ctx.vars) && key in ctx.vars && ctx.vars[key].Str?
    modifies ctx
    ensures ctx.vars == Appended(old(ctx.vars), name, key)
  {
    var items := ctx.vars["launch_buttons"].items;
    ctx.vars := ctx.vars["launch_buttons" := List(items + [Button(name, ctx.vars[key].s)])];
  }

  /**
   * Lines 85-127: the links are written into the context one key at a
   * time, each button appended to `context["launch_buttons"]` after its
   * key has been set. `raised` is the exception of lines 125-127.
   */
  method WriteLinksInto(ctx: PageContext, l: Links, pagename: string) returns (raised: Option<Error>)
    modifies ctx
    ensures WriteLinks(l, pagename, old(ctx.vars)) ==
      if raised.None? then Continue(ctx.vars) else Stop(Outcome(ctx.vars, raised))
  {
    ctx.vars := ctx.vars["launch_buttons" := List([])];
    BinderInto(ctx, l, pagename);
    HubInto(ctx, l);
    ColabInto(ctx, l);
    raised := SetDefaultServer(ctx);
  }

  method BinderInto(ctx: PageContext, l: Links, pagename: string)
    requires HasButtonList(ctx.vars)
    modifies ctx
    ensures ctx.vars == WithBinder(l, pagename, old(ctx.vars))
  {
    if Truthy(l.binderSwitch) {
      ctx.vars := ctx.vars["binder_url" := Str(l.BinderUrl(pagename))];
      AppendButton(ctx, "BinderHub", "binder_url");
    }
  }

  method HubInto(ctx: PageContext, l: Links)
    requires HasButtonList(ctx.vars)
    modifies ctx
    ensures ctx.vars == WithHub(l, old(ctx.vars))
  {
    ctx.vars := ctx.vars["jupyterhub_url" := Str(l.HubUrl())];
    ctx.vars := ctx.vars["jupyterhub_urlpath" := Str(l.HubPath())];
    ctx.vars := ctx.vars["repo_branch" := l.branch];
    if Truthy(l.hub) {
      AppendButton(ctx, "JupyterHub", "jupyterhub_url");
    }
  }

  method ColabInto(ctx: PageContext, l: Links)
    requires HasButtonList(ctx.vars)
    modifies ctx
    ensures ctx.vars == WithColab(l, old(ctx.vars))
  {
    if Truthy(l.colab) {
      ctx.vars := ctx.vars["colab_url" := Str(l.ColabUrl())];
      AppendButton(ctx, "Colab", "colab_url");
    }
  }

  /** Lines 124-127 on the context. */
  method SetDefaultServer(ctx: PageContext) returns (raised: Option<Error>)
    requires HasButtonList(ctx.vars)
    modifies ctx
    ensures WithDefaultServer(old(ctx.vars)) ==
      if raised.None? then Continue(ctx.vars) else Stop(Outcome(ctx.vars, raised))
  {
    var items := ctx.vars["launch_buttons"].items;
    if |items| == 1 {
      ctx.vars := ctx.vars["default_server" := items[0].entries["url"]];
      raised := None;
    } else if "colab_url" in ctx.vars {
      ctx.vars := ctx.vars["default_server" := ctx.vars["colab_url"]];
      raised := None;
    } else {
      raised := Some(KeyError("colab_url"));
    }
  }

  /** Lines 133-156 on the context. */
  method NotebookPartInto(ctx: PageContext, lb: map<string, Scalar>, pagename: string, isNotebook: bool)
    returns (raised: Option<Error>)
    modifies ctx
    ensures Outcome(ctx.vars, raised) == NotebookPart(lb, pagename, isNotebook, old(ctx.vars))
  {
    if lb == map[] || !isNotebook {
      return None;
    }
    if "sourcename" in ctx.vars {
      var source := ctx.vars["sourcename"];
      if !source.Str? {
        return Some(AttributeError("endswith"));
      }
      if EndsWith(source.s, ".md") {
        ctx.vars := ctx.vars["ipynb_source" := Str(pagename + ".ipynb")];
      }
    }
    if Truthy(Get(lb, "thebe", Bool(false))) {
      ctx.vars := ctx.vars["use_thebe" := Bool(true)];
    }
    raised := None;
  }

  /**
   * `add_hub_urls`, the `html-page-context` handler: `isNotebook` is
   * whether the page's metadata has a kernel spec.
   */
  method AddHubUrls(ctx: PageContext, opts: ThemeOptions, pagename: string, isNotebook: bool)
    returns (raised: Option<Error>)
    modifies ctx
    ensures Outcome(ctx.vars, raised) == HubUrls(opts, pagename, isNotebook, old(ctx.vars))
  {
    var url := GetRepoUrl(opts.values);
    if Truthy(url) {
      var links := GatherLinks(opts, pagename, url);
      if links.Err? {
        return Some(links.error);
      }
      if links.value.None? {
        return None;
      }
      raised := WriteLinksInto(ctx, links.value.value, pagename);
      if raised.Some? {
        return;
      }
    }
    raised := NotebookPartInto(ctx, opts.launchButtons, pagename, isNotebook);
  }

  // ---------------------------------------------------------------------
  // What add_hub_urls promises
  // ---------------------------------------------------------------------

  /** The notebook part writes `ipynb_source` and `use_thebe` and nothing else. */
  lemma NotebookPartFrame(lb: map<string, Scalar>, pagename: string, isNotebook: bool,
                          vars: map<string, Value>, k: string)
    requires k != "ipynb_source" && k != "use_thebe"
    ensures var o := NotebookPart(lb, pagename, isNotebook, vars);
      (k in o.vars <==> k in vars) && (k in vars ==> o.vars[k] == vars[k])
  {
  }

  /**
   * The notebook part raises exactly when it runs and `sourcename` is not
   * a string; otherwise a markdown source gets its `.ipynb` download name
   * and a truthy `thebe` switches thebe on.
   */
  lemma NotebookPartEffects(lb: map<string, Scalar>, pagename: string, isNotebook: bool,
                            vars: map<string, Value>)
    ensures var o := NotebookPart(lb, pagename, isNotebook, vars);
      var runs := lb != map[] && isNotebook;
      && (o.raised.Some? <==> runs && "sourcename" in vars && !vars["sourcename"].Str?)
      && (o.raised.Some? ==> o == Outcome(vars, Some(AttributeError("endswith"))))
      && (!runs ==> o == Outcome(vars, None))
      && (runs && o.raised.None? && "sourcename" in vars && EndsWith(vars["sourcename"].s, ".md")
          ==> "ipynb_source" in o.vars && o.vars["ipynb_source"] == Str(pagename + ".ipynb"))
      && (runs && o.raised.None? && Truthy(Get(lb, "thebe", Bool(false)))
          ==> "use_thebe" in o.vars && o.vars["use_thebe"] == Bool(true))
  {
  }

  /** Without a repository URL the handler is the notebook part alone. */
  lemma NoRepoUrl(opts: ThemeOptions, pagename: string, isNotebook: bool, vars: map<string, Value>)
    requires !Truthy(GetRepoUrl(opts.values))
    ensures HubUrls(opts, pagename, isNotebook, vars)
         == NotebookPart(opts.launchButtons, pagename, isNotebook, vars)
    ensures forall k :: IsLaunchKey(k) ==>
      var o := HubUrls(opts, pagename, isNotebook, vars);
      (k in o.vars <==> k in vars) && (k in vars ==> o.vars[k] == vars[k])
  {
    forall k | IsLaunchKey(k)
      ensures var o := NotebookPart(opts.launchButtons, pagename, isNotebook, vars);
        (k in o.vars <==> k in vars) && (k in vars ==> o.vars[k] == vars[k])
    {
      NotebookPartFrame(opts.launchButtons, pagename, isNotebook, vars, k);
    }
  }

  /**
   * A repository URL that is not on GitHub changes nothing and raises
   * nothing: the handler returns before the notebook part.
   */
  lemma NotOnGitHub(opts: ThemeOptions, pagename: string, isNotebook: bool, vars: map<string, Value>)
    requires GetRepoUrl(opts.values).Str? && Truthy(GetRepoUrl(opts.values))
    requires !Contains(GetRepoUrl(opts.values).s, GitHub)
    ensures HubUrls(opts, pagename, isNotebook, vars) == Outcome(vars, None)
  {
  }

  /** Only one segment after `github.com/`: the unpacking `ValueError`, nothing written. */
  lemma TooFewSegments(opts: ThemeOptions, pagename: string, isNotebook: bool, vars: map<string, Value>)
    requires GetRepoUrl(opts.values).Str? && Contains(GetRepoUrl(opts.values).s, GitHub)
    requires '/' !in AfterGitHub(GetRepoUrl(opts.values).s)
    ensures HubUrls(opts, pagename, isNotebook, vars)
         == Outcome(vars, Some(ValueError("not enough values to unpack (expected 2, got 1)")))
  {
  }

  /** An unknown notebook interface raises its `ValueError` before anything is written. */
  lemma UnknownInterface(opts: ThemeOptions, pagename: string, isNotebook: bool, vars: map<string, Value>)
    requires GetRepoUrl(opts.values).Str? && Contains(GetRepoUrl(opts.values).s, GitHub)
    requires '/' in AfterGitHub(GetRepoUrl(opts.values).s)
    requires var ui := Get(opts.launchButtons, "notebook_interface", Classic);
      ui != Classic && ui != JupyterLab
    ensures var ui := Get(opts.launchButtons, "notebook_interface", Classic);
      HubUrls(opts, pagename, isNotebook, vars) == Outcome(vars, Some(ValueError(InterfaceMessage(ui))))
  {
  }

  /** The position of a launch service in the order BinderHub, JupyterHub, Colab. */
  function Rank(name: string): nat {
    if name == "BinderHub" then 0 else if name == "JupyterHub" then 1 else 2
  }

  /** The names of the switched-on services, in the fixed service order. */
  function ServiceNames(binder: bool, hub: bool, colab: bool): seq<string> {
    (if binder then ["BinderHub"] else []) + (if hub then ["JupyterHub"] else [])
    + (if colab then ["Colab"] else [])
  }

  /**
   * The buttons: at most one per service, in the fixed service order, and
   * a service has a button exactly when its switch is truthy.
   */
  lemma ButtonsOrdered(l: Links, pagename: string)
    ensures var names := ButtonNames(Buttons(l, pagename));
      && |names| <= 3
      && (forall i, j :: 0 <= i < j < |names| ==> Rank(names[i]) < Rank(names[j]))
      && ("BinderHub" in names <==> Truthy(l.binderSwitch))
      && ("JupyterHub" in names <==> Truthy(l.hub))
      && ("Colab" in names <==> Truthy(l.colab))
  {
    ButtonNamesAreServices(l, pagename);
    ServiceNamesOrdered(Truthy(l.binderSwitch), Truthy(l.hub), Truthy(l.colab));
    ServiceNamesMembers(Truthy(l.binderSwitch), Truthy(l.hub), Truthy(l.colab));
  }

  lemma ButtonNamesAreServices(l: Links, pagename: string)
    ensures ButtonNames(Buttons(l, pagename)) == ServiceNames(Truthy(l.binderSwitch), Truthy(l.hub), Truthy(l.colab))
  {
  }

  lemma ServiceNamesOrdered(binder: bool, hub: bool, colab: bool)
    ensures var names := ServiceNames(binder, hub, colab);
      |names| <= 3 && forall i, j :: 0 <= i < j < |names| ==> Rank(names[i]) < Rank(names[j])
  {
    var names := ServiceNames(binder, hub, colab);
    assert forall i :: 0 <= i < |names| ==> names[i] == "BinderHub" || names[i] == "JupyterHub" || names[i] == "Colab";
  }

  lemma ServiceNamesMembers(binder: bool, hub: bool, colab: bool)
    ensures var names := ServiceNames(binder, hub, colab);
      && ("BinderHub" in names <==> binder)
      && ("JupyterHub" in names <==> hub)
      && ("Colab" in names <==> colab)
  {
    assert "BinderHub" != "JupyterHub" && "BinderHub" != "Colab" && "JupyterHub" != "Colab";
  }

  /** The context after the three services have been written, before `default_server`. */
  function ServicesWritten(l: Links, pagename: string, vars: map<string, Value>): (v: map<string, Value>)
    ensures HasButtonList(v)
  {
    WithColab(l, WithHub(l, WithBinder(l, pagename, vars["launch_buttons" := List([])])))
  }

  /** `k` has the same value, or is absent in both. */
  predicate SameAt(a: map<string, Value>, b: map<string, Value>, k: string) {
    (k in a <==> k in b) && (k in a ==> a[k] == b[k])
  }

  lemma BinderStage(l: Links, pagename: string, v: map<string, Value>, k: string)
    requires HasButtonList(v)
    ensures var r := WithBinder(l, pagename, v);
      && (k != "binder_url" && k != "launch_buttons" ==> SameAt(r, v, k))
      && (!Truthy(l.binderSwitch) ==> r == v)
      && (Truthy(l.binderSwitch) ==> "binder_url" in r && r["binder_url"] == Str(l.BinderUrl(pagename)))
      && r["launch_buttons"].items == v["launch_buttons"].items
         + (if Truthy(l.binderSwitch) then [Button("BinderHub", l.BinderUrl(pagename))] else [])
  {
  }

  lemma HubStage(l: Links, v: map<string, Value>, k: string)
    requires HasButtonList(v)
    ensures var r := WithHub(l, v);
      && (k != "jupyterhub_url" && k != "jupyterhub_urlpath" && k != "repo_branch" && k != "launch_buttons"
          ==> SameAt(r, v, k))
      && r["jupyterhub_url"] == Str(l.HubUrl())
      && r["jupyterhub_urlpath"] == Str(l.HubPath())
      && r["repo_branch"] == l.branch
      && r["launch_buttons"].items == v["launch_buttons"].items
         + (if Truthy(l.hub) then [Button("JupyterHub", l.HubUrl())] else [])
  {
  }

  lemma ColabStage(l: Links, v: map<string, Value>, k: string)
    requires HasButtonList(v)
    ensures var r := WithColab(l, v);
      && (k != "colab_url" && k != "launch_buttons" ==> SameAt(r, v, k))
      && (!Truthy(l.colab) ==> r == v)
      && (Truthy(l.colab) ==> "colab_url" in r && r["colab_url"] == Str(l.ColabUrl()))
      && r["launch_buttons"].items == v["launch_buttons"].items
         + (if Truthy(l.colab) then [Button("Colab", l.ColabUrl())] else [])
  {
  }

  /** A key that is not a launch key keeps its value. */
  lemma ServicesWrittenFrame(l: Links, pagename: string, vars: map<string, Value>, k: string)
    requires !IsLaunchKey(k)
    ensures SameAt(ServicesWritten(l, pagename, vars), vars, k)
  {
    ServicesWrittenFrameOf(l, pagename, vars, k);
  }

  /** Only the keys the three services name are written. */
  lemma ServicesWrittenFrameOf(l: Links, pagename: string, vars: map<string, Value>, k: string)
    requires k != "launch_buttons" && k != "binder_url" && k != "jupyterhub_url"
    requires k != "jupyterhub_urlpath" && k != "repo_branch" && k != "colab_url"
    ensures SameAt(ServicesWritten(l, pagename, vars), vars, k)
  {
    var v0 := vars["launch_buttons" := List([])];
    var v1 := WithBinder(l, pagename, v0);
    var v2 := WithHub(l, v1);
    BinderStage(l, pagename, v0, k);
    HubStage(l, v1, k);
    ColabStage(l, v2, k);
  }

  /** The JupyterHub keys and the branch are written on every run that gets this far. */
  lemma ServicesWrittenKeys(l: Links, pagename: string, vars: map<string, Value>)
    ensures var v := ServicesWritten(l, pagename, vars);
      && v["jupyterhub_url"] == Str(l.HubUrl())
      && v["jupyterhub_urlpath"] == Str(l.HubPath())
      && v["repo_branch"] == l.branch
      && (Truthy(l.binderSwitch) ==> "binder_url" in v && v["binder_url"] == Str(l.BinderUrl(pagename)))
      && (Truthy(l.colab) ==> "colab_url" in v && v["colab_url"] == Str(l.ColabUrl()))
      && (!Truthy(l.binderSwitch) ==> SameAt(v, vars, "binder_url"))
      && (!Truthy(l.colab) ==> SameAt(v, vars, "colab_url"))
      && SameAt(v, vars, "default_server")
  {
    var v0 := vars["launch_buttons" := List([])];
    var v1 := WithBinder(l, pagename, v0);
    var v2 := WithHub(l, v1);
    BinderStage(l, pagename, v0, "colab_url");
    HubStage(l, v1, "binder_url");
    HubStage(l, v1, "colab_url");
    ColabStage(l, v2, "binder_url");
    ColabStage(l, v2, "jupyterhub_url");
    ColabStage(l, v2, "jupyterhub_urlpath");
    ColabStage(l, v2, "repo_branch");
    ServicesWrittenFrameOf(l, pagename, vars, "default_server");
  }

  /** The list `launch_buttons` holds after the three services have been written. */
  lemma WrittenButtons(l: Links, pagename: string, vars: map<string, Value>)
    ensures ServicesWritten(l, pagename, vars)["launch_buttons"] == List(Buttons(l, pagename))
  {
    var v0 := vars["launch_buttons" := List([])];
    var v1 := WithBinder(l, pagename, v0);
    var v2 := WithHub(l, v1);
    BinderStage(l, pagename, v0, "");
    HubStage(l, v1, "");
    ColabStage(l, v2, "");
  }

  /**
   * `default_server`: the URL of the only button; with none or several,
   * `context["colab_url"]`, whatever put it there, and the `KeyError`
   * when nothing did.
   */
  lemma WriteLinksDefaultServer(l: Links, pagename: string, vars: map<string, Value>)
    ensures var bs := Buttons(l, pagename);
      var st := WriteLinks(l, pagename, vars);
      var v := ServicesWritten(l, pagename, vars);
      && (st.Stop? <==> |bs| != 1 && !Truthy(l.colab) && "colab_url" !in vars)
      && (st.Stop? ==> st.outcome == Outcome(v, Some(KeyError("colab_url"))))
      && (st.Continue? && |bs| == 1 ==> st.vars == v["default_server" := bs[0].entries["url"]])
      && (st.Continue? && |bs| != 1 ==> st.vars == v["default_server" := v["colab_url"]])
  {
    WrittenButtons(l, pagename, vars);
    ServicesWrittenKeys(l, pagename, vars);
  }

  /**
   * Once the links are built, the launch keys are those the services and
   * `default_server` left, and the run ends with their `KeyError` or goes
   * on to the notebook part, which can only raise for a non-string
   * `sourcename`.
   */
  lemma HubUrlsWithLinks(opts: ThemeOptions, pagename: string, isNotebook: bool,
                         vars: map<string, Value>, l: Links)
    requires Truthy(GetRepoUrl(opts.values))
    requires GatherLinks(opts, pagename, GetRepoUrl(opts.values)) == Ok(Some(l))
    ensures var o := HubUrls(opts, pagename, isNotebook, vars);
      var st := WriteLinks(l, pagename, vars);
      && (forall k :: IsLaunchKey(k) ==> SameAt(o.vars, StepVars(st), k))
      && (st.Stop? ==> o == st.outcome)
      && (st.Continue? ==> o.raised.None? || o.raised == Some(AttributeError("endswith")))
  {
    AfterLinksOf(l, opts.launchButtons, pagename, isNotebook, vars);
  }

  lemma AfterLinksOf(l: Links, lb: map<string, Scalar>, pagename: string, isNotebook: bool,
                     vars: map<string, Value>)
    ensures var o := AfterLinks(Ok(Some(l)), lb, pagename, isNotebook, vars);
      var st := WriteLinks(l, pagename, vars);
      && (forall k :: IsLaunchKey(k) ==> SameAt(o.vars, StepVars(st), k))
      && (st.Stop? ==> o == st.outcome)
      && (st.Continue? ==> o.raised.None? || o.raised == Some(AttributeError("endswith")))
  {
    var st := WriteLinks(l, pagename, vars);
    if st.Continue? {
      forall k | IsLaunchKey(k)
        ensures SameAt(NotebookPart(lb, pagename, isNotebook, st.vars).vars, st.vars, k)
      {
        NotebookPartFrame(lb, pagename, isNotebook, st.vars, k);
      }
    }
  }

  /** `Join` of two segments. */
  lemma JoinPair(a: string, b: string)
    ensures Join("/", [a, b]) == a + "/" + b
  {
    assert [a, b][1..] == [b];
  }

  /** Links are built only from a string URL that splits, by `LinksFor` on its parts. */
  lemma GatherLinksParts(opts: ThemeOptions, pagename: string, url: Scalar, l: Links)
    requires GatherLinks(opts, pagename, url) == Ok(Some(l))
    ensures url.Str? && SplitRepoUrl(url.s) == Ok(Some(l.parts))
    ensures LinksFor(opts, pagename, url.s, l.parts) == Ok(Some(l))
  {
    assert url.Str?;
    match SplitRepoUrl(url.s)
    case Ok(Some(p)) =>
      assert LinksFor(opts, pagename, url.s, p) == Ok(Some(l));
  }

  /** `LinksFor` succeeds exactly when the interface is known and `path_to_docs` is a string. */
  lemma LinksForOk(opts: ThemeOptions, pagename: string, url: string, p: RepoParts)
    ensures var docs := Get(opts.values, "path_to_docs", NoPath);
      var ui := InterfacePrefix(opts.launchButtons);
      LinksFor(opts, pagename, url, p).Ok? <==> ui.Ok? && docs.Str?
    ensures var docs := Get(opts.values, "path_to_docs", NoPath);
      var ui := InterfacePrefix(opts.launchButtons);
      ui.Ok? && docs.Str? ==> LinksFor(opts, pagename, url, p) == Ok(Some(LinksWith(opts, pagename, url, p, ui.value, docs.s)))
  {
  }

  /**
   * The links of `https://github.com/{org}/{repo}` with the classic
   * interface and `path_to_docs` a plain relative directory.
   */
  lemma CanonicalLinks(opts: ThemeOptions, pagename: string, org: string, repo: string, docs: string)
    requires '/' !in org && '/' !in repo && !Contains(org + "/" + repo, GitHub)
    requires GetRepoUrl(opts.values) == Str("https://" + GitHub + (org + "/" + repo))
    requires "notebook_interface" !in opts.launchButtons
    requires "path_to_docs" in opts.values && opts.values["path_to_docs"] == Str(docs)
    requires docs != "" && docs[0] != '/' && Last(docs) != '/'
    ensures var r := GatherLinks(opts, pagename, GetRepoUrl(opts.values));
      && r.Ok? && r.value.Some?
      && var l := r.value.value;
      && l.parts == RepoParts(org, repo, "") && l.repoUrl == GetRepoUrl(opts.values).s
      && l.HubPath() == "tree/" + repo + "/" + (docs + "/" + pagename + ".ipynb")
      && l.ColabUrl() == Display(l.colab) + "/github/" + org + "/" + repo + "/blob/"
         + Display(GetBranch(opts.values)) + "/" + (docs + "/" + pagename + ".ipynb")
      && l.BinderUrl(pagename) == Display(l.binderHost) + "/v2/gh/" + org + "/" + repo + "/"
         + Display(GetBranch(opts.values)) + "?urlpath=tree/" + pagename + ".ipynb"
  {
    var url := "https://" + GitHub + (org + "/" + repo);
    var p := RepoParts(org, repo, "");
    CanonicalSplit(org, repo);
    LinksForOk(opts, pagename, url, p);
    var l := LinksWith(opts, pagename, url, p, "tree", docs);
    NotebookRelPathSlashes(docs, pagename);
    CanonicalUrls(l, pagename, org, repo, docs + "/" + pagename + ".ipynb");
  }

  lemma CanonicalSplit(org: string, repo: string)
    requires '/' !in org && '/' !in repo && !Contains(org + "/" + repo, GitHub)
    ensures SplitRepoUrl("https://" + GitHub + (org + "/" + repo)) == Ok(Some(RepoParts(org, repo, "")))
  {
    JoinPair(org, repo);
    SplitRepoUrlOfParts([org, repo]);
    assert [org, repo][2..] == [];
  }

  lemma CanonicalUrls(l: Links, pagename: string, org: string, repo: string, relpath: string)
    requires l.parts == RepoParts(org, repo, "") && l.subpath == "" && l.uiPre == "tree" && l.relpath == relpath
    ensures l.HubPath() == "tree/" + repo + "/" + relpath
    ensures l.ColabUrl() == Display(l.colab) + "/github/" + org + "/" + repo + "/blob/"
         + Display(l.branch) + "/" + relpath
    ensures l.BinderUrl(pagename) == Display(l.binderHost) + "/v2/gh/" + org + "/" + repo + "/"
         + Display(l.branch) + "?urlpath=tree/" + pagename + ".ipynb"
  {
    assert "tree" + "/" == "tree/";
  }

  /**
   * The Binder link does not depend on `path_to_docs`: the page's path in
   * it is the sub-path and the page name alone.
   */
  lemma BinderIgnoresPathToDocs(opts: ThemeOptions, pagename: string, docs: string, l1: Links, l2: Links)
    requires var url := GetRepoUrl(opts.values);
      GatherLinks(opts, pagename, url) == Ok(Some(l1))
      && GatherLinks(opts.(values := opts.values["path_to_docs" := Str(docs)]), pagename, url) == Ok(Some(l2))
    ensures l1.BinderUrl(pagename) == l2.BinderUrl(pagename)
    ensures l2.relpath == NotebookRelPath(docs, pagename)
  {
    var url := GetRepoUrl(opts.values);
    var opts2 := opts.(values := opts.values["path_to_docs" := Str(docs)]);
    GatherLinksParts(opts, pagename, url, l1);
    GatherLinksParts(opts2, pagename, url, l2);
    LinksForOk(opts, pagename, url.s, l1.parts);
    LinksForOk(opts2, pagename, url.s, l2.parts);
    BinderOfLinksWith(opts, opts2, pagename, url.s, l1.parts, InterfacePrefix(opts.launchButtons).value,
      Get(opts.values, "path_to_docs", NoPath).s, docs);
  }

  lemma BinderOfLinksWith(opts: ThemeOptions, opts2: ThemeOptions, pagename: string, url: string, p: RepoParts,
                          uiPre: string, docs1: string, docs2: string)
    requires opts2 == opts.(values := opts.values["path_to_docs" := Str(docs2)])
    ensures LinksWith(opts, pagename, url, p, uiPre, docs1).BinderUrl(pagename)
         == LinksWith(opts2, pagename, url, p, uiPre, docs2).BinderUrl(pagename)
    ensures LinksWith(opts2, pagename, url, p, uiPre, docs2).relpath == NotebookRelPath(docs2, pagename)
  {
    assert GetBranch(opts2.values) == GetBranch(opts.values);
    assert Get(opts2.values, "binderhub_url", DefaultBinderHub) == Get(opts.values, "binderhub_url", DefaultBinderHub);
  }
}

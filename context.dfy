/**
 * The `html-page-context` handlers of the theme package: `add_to_context`,
 * which fills the per-page template context with the edit-button, source
 * folder, PDF, notebook, description, logo, MathJax and git fields, and
 * `add_pygments_style_class`.
 *
 * What the handlers read from outside the context (the file system, the
 * Sphinx environment, git, the clock, date formatting) is given to the
 * model as inputs.
 */
module ThemeContext {
  import opened Options
  import opened Strings
  import opened PyValues
  import GitInfo

  // ---------------------------------------------------------------------------
  // Inputs
  // ---------------------------------------------------------------------------

  /** The build-wide values `add_to_context` reads. */
  datatype Build = Build(
    options: map<string, Scalar>,   // `html_theme_options`
    pdfDir: bool,                   // `<outdir>/_pdf` is a directory
    notebooksDir: bool,             // `<outdir>/_notebooks` is a directory
    latexName: Option<string>,      // `latex_documents[0][1]`; None when there is no document
    masterUrl: string,              // `context["pathto"](master_doc)`
    titles: map<string, string>,    // `app.env.titles`, each title as text
    author: string,                 // `author`
    baseurl: string,                // `html_baseurl`, "" when unset
    logo: string,                   // `html_logo`, "" when unset
    mathjaxPath: string,            // `mathjax_path`, "" when unset
    srcdir: string,                 // `str(app.srcdir)`
    hasDoc2path: bool)              // the environment has `doc2path`

  /** The page being written. */
  datatype Page = Page(
    pagename: string,
    sections: Option<seq<string>>,  // None: no doctree; otherwise the text of each section node
    sourceFile: string)             // `app.env.doc2path(pagename, base=False)`

  /** What git answers for the page's source file, and the time now, in seconds since the epoch. */
  datatype Git = Git(
    revParse: Option<GitInfo.GitRun>,    // `git rev-parse --git-dir`
    lastLog: Option<GitInfo.GitRun>,     // `git log -1 --format=%ct`
    changeLog: Option<GitInfo.GitRun>,   // `git log -N --format=%h|%an|%ct|%s`
    now: int)

  /** `datetime.strftime` and `datetime.isoformat` of an instant given in seconds. */
  datatype Dates = Dates(strftime: (string, int) -> string, isoformat: int -> string)

  const NoStr: Scalar := Str("")
  const Main: Scalar := Str("main")
  const DefaultDateFormat: Scalar := Str("%b %d, %Y")
  const CodeStyleOn: Scalar := Bool(true)

  // ---------------------------------------------------------------------------
  // Booleans from configuration values
  // ---------------------------------------------------------------------------

  /**
   * `_string_or_bool`: a string is true when it spells "true" in any case,
   * a boolean is itself, and any other value is true only when it is None.
   */
  function StringOrBool(v: Value): (r: bool)
    ensures v.Bool? ==> r == v.b
    ensures v.Str? && r ==> |v.s| == 4
    ensures !v.Str? && !v.Bool? ==> (r <==> v.Nil?)
  {
    match v
    case Str(s) => Lower(s) == "true"
    case Bool(b) => b
    case _ => v == Nil
  }

  /** Python's `str()` of a boolean maps back to that boolean. */
  lemma StringOrBoolOfDisplay(b: bool)
    ensures StringOrBool(Str(Display(Bool(b)))) == b
  {
    LowerEquals(Display(Bool(b)), "true");
    if !b {
      assert Display(Bool(b))[0] == 'F';
    }
  }

  /** Exactly the strings of four letters spelling "true", in any mix of cases, are true. */
  lemma StringOrBoolOfString(s: string)
    ensures StringOrBool(Str(s)) <==>
      |s| == 4 && (s[0] == 't' || s[0] == 'T') && (s[1] == 'r' || s[1] == 'R') &&
      (s[2] == 'u' || s[2] == 'U') && (s[3] == 'e' || s[3] == 'E')
  {
    LowerEquals(s, "true");
  }

  /**
   * `add_pygments_style_class`: Pygments' own colours are used when the
   * `qetheme_code_style` option is switched off: a string spelling
   * "false" in any case, or a falsy value. The option is on by default.
   */
  function UsePygmentsStyle(options: map<string, Scalar>): (on: bool)
    ensures "qetheme_code_style" !in options ==> !on
    ensures var style := Get(options, "qetheme_code_style", CodeStyleOn);
      && (style.Bool? ==> on == !style.b)
      && (style.Str? && on ==> |style.s| == 5)
  {
    var style := Get(options, "qetheme_code_style", CodeStyleOn);
    if style.Str? then Lower(style.s) == "false" else !Truthy(style)
  }

  /** Writing the option as the string Python prints for a boolean has the effect of the boolean. */
  lemma UsePygmentsStyleOfSpelling(options: map<string, Scalar>, b: bool)
    ensures UsePygmentsStyle(options["qetheme_code_style" := Str(Display(Bool(b)))]) ==
            UsePygmentsStyle(options["qetheme_code_style" := Bool(b)])
    ensures UsePygmentsStyle(options["qetheme_code_style" := Bool(b)]) == !b
  {
    LowerEquals(Display(Bool(b)), "false");
    if b {
      assert Display(Bool(b))[0] == 'T';
    }
  }

  /** Without the option, the theme's own code colours stay. */
  lemma UsePygmentsStyleDefault(options: map<string, Scalar>)
    requires "qetheme_code_style" !in options
    ensures !UsePygmentsStyle(options)
  {
    assert Get(options, "qetheme_code_style", CodeStyleOn) == CodeStyleOn;
  }

  /** A string other than "false" leaves the theme's colours on; the two string readers disagree on "yes". */
  lemma UsePygmentsStyleOfString(options: map<string, Scalar>, s: string)
    ensures UsePygmentsStyle(options["qetheme_code_style" := Str(s)]) <==>
      |s| == 5 && (s[0] == 'f' || s[0] == 'F') && (s[1] == 'a' || s[1] == 'A') &&
      (s[2] == 'l' || s[2] == 'L') && (s[3] == 's' || s[3] == 'S') && (s[4] == 'e' || s[4] == 'E')
  {
    LowerEquals(s, "false");
  }

  /** `add_pygments_style_class` on the page context. */
  method AddPygmentsStyleClass(ctx: PageContext, options: map<string, Scalar>)
    modifies ctx
    ensures ctx.vars == old(ctx.vars)["use_pygments_style" := Bool(UsePygmentsStyle(options))]
  {
    var style := Get(options, "qetheme_code_style", CodeStyleOn);
    var codeStyle: bool;
    if style.Str? {
      codeStyle := Lower(style.s) != "false";
    } else {
      codeStyle := Truthy(style);
    }
    ctx.vars := ctx.vars["use_pygments_style" := Bool(!codeStyle)];
  }

  /** The context keys whose values are made booleans at the end of `add_to_context`. */
  const Flags: seq<string> := ["theme_use_edit_page_button", "theme_use_repository_button",
                               "theme_use_issues_button", "theme_enable_rtl"]

  /** The coercion loop: each listed key that is present gets `_string_or_bool` of its value. */
  function CoerceKeys(vars: map<string, Value>, keys: seq<string>): map<string, Value>
    decreases |keys|
  {
    if keys == [] then vars
    else
      var next := if keys[0] in vars then vars[keys[0] := Bool(StringOrBool(vars[keys[0]]))] else vars;
      CoerceKeys(next, keys[1..])
  }

  /**
   * The loop rewrites exactly the listed keys that are present, each to
   * the boolean `_string_or_bool` gives its value (also when a key is
   * listed twice); every other key keeps its value, and none is added.
   */
  lemma {:induction false} CoerceKeysEffect(vars: map<string, Value>, keys: seq<string>)
    ensures CoerceKeys(vars, keys).Keys == vars.Keys
    ensures forall k :: k in vars && k !in keys ==> CoerceKeys(vars, keys)[k] == vars[k]
    ensures forall k :: k in vars && k in keys ==> CoerceKeys(vars, keys)[k] == Bool(StringOrBool(vars[k]))
    decreases |keys|
  {
    if keys != [] {
      var next := if keys[0] in vars then vars[keys[0] := Bool(StringOrBool(vars[keys[0]]))] else vars;
      CoerceKeysEffect(next, keys[1..]);
      forall k | k in vars && k in keys
        ensures CoerceKeys(vars, keys)[k] == Bool(StringOrBool(vars[k]))
      {
        if k != keys[0] {
          assert k in keys[1..];
        }
      }
    }
  }

  /** Coercing twice is coercing once. */
  lemma CoerceKeysIdempotent(vars: map<string, Value>, keys: seq<string>)
    ensures CoerceKeys(CoerceKeys(vars, keys), keys) == CoerceKeys(vars, keys)
  {
    var once := CoerceKeys(vars, keys);
    CoerceKeysEffect(vars, keys);
    CoerceKeysEffect(once, keys);
    var twice := CoerceKeys(once, keys);
    assert forall k :: k in twice ==> twice[k] == once[k];
  }

  /** The loop over the keys, on the page context. */
  method CoerceFlags(ctx: PageContext, keys: seq<string>)
    modifies ctx
    ensures ctx.vars == CoerceKeys(old(ctx.vars), keys)
  {
    var i := 0;
    while i < |keys|
      invariant 0 <= i <= |keys|
      invariant CoerceKeys(old(ctx.vars), keys) == CoerceKeys(ctx.vars, keys[i..])
    {
      assert keys[i..][1..] == keys[i + 1..];
      var key := keys[i];
      if key in ctx.vars {
        ctx.vars := ctx.vars[key := Bool(StringOrBool(ctx.vars[key]))];
      }
      i := i + 1;
    }
  }

  // ---------------------------------------------------------------------------
  // The GitHub source folder
  // ---------------------------------------------------------------------------

  /**
   * `get_github_src_folder`: the source directory's part after the last
   * occurrence of `github_repo`, under `/blob/<nb_branch>` (`main` when
   * the option is empty or absent); "" without `github_repo` or when it
   * does not occur in the source directory.
   */
  function SourceFolder(options: map<string, Scalar>, srcdir: string, vars: map<string, Value>): (r: Result<string>)
    ensures "github_repo" !in vars ==> r == Ok("")
    ensures "github_repo" in vars && vars["github_repo"].Str? && !Contains(srcdir, vars["github_repo"].s) ==> r == Ok("")
    ensures r.Ok? && r.value != "" ==>
      "github_repo" in vars && vars["github_repo"].Str? && BranchOr(options).Str? &&
      var repo := vars["github_repo"].s;
      exists i: nat :: OccursAt(srcdir, repo, i) &&
        (forall j: nat :: i < j ==> !OccursAt(srcdir, repo, j)) &&
        r.value == "/blob/" + BranchOr(options).s + srcdir[i + |repo|..]
  {
    if "github_repo" !in vars then Ok("")
    else
      var repo := vars["github_repo"];
      if !repo.Str? then Err(TypeError("'in <string>' requires string as left operand, not " + TypeName(repo)))
      else
        RFindLast(srcdir, repo.s);
        match RFind(srcdir, repo.s)
        case None => Ok("")
        case Some(i) =>
          var branch := BranchOr(options);
          if !branch.Str? then Err(ConcatError(branch))
          else Ok("/blob/" + branch.s + srcdir[i + |repo.s|..])
  }

  /** The `nb_branch` option, with "" (also when absent) meaning `main`. */
  function BranchOr(options: map<string, Scalar>): Scalar {
    var branch := Get(options, "nb_branch", NoStr);
    if branch == NoStr then Main else branch
  }

  /**
   * For a source directory `root + repo + folder` in which `repo` occurs
   * last right after `root`, the folder is `folder`, under the branch.
   */
  lemma SourceFolderOf(options: map<string, Scalar>, root: string, repo: string, folder: string, vars: map<string, Value>)
    requires "github_repo" in vars && vars["github_repo"] == Str(repo)
    requires forall j: nat :: |root| < j ==> !OccursAt(root + repo + folder, repo, j)
    requires BranchOr(options).Str?
    ensures SourceFolder(options, root + repo + folder, vars) == Ok("/blob/" + BranchOr(options).s + folder)
  {
    var srcdir := root + repo + folder;
    assert OccursAt(srcdir, repo, |root|) by {
      assert srcdir[|root|..|root| + |repo|] == repo;
    }
    RFindLast(srcdir, repo);
    assert srcdir[|root| + |repo|..] == folder;
  }

  // ---------------------------------------------------------------------------
  // The edit button
  // ---------------------------------------------------------------------------

  /** The owner and the repository named by a repository URL. */
  datatype Repo = Repo(org: string, repo: string)

  /**
   * `repo_url.strip("/").split("/")[-2:]` unpacked into two names: the
   * last two segments, or the `ValueError` of a URL with one segment.
   */
  function RepoSegments(url: string): (r: Result<Repo>)
    ensures r.Ok? ==> '/' !in r.value.org && '/' !in r.value.repo
  {
    var segments := Split(Strip(url, IsSlash), "/");
    if |segments| < 2 then Err(ValueError("not enough values to unpack (expected 2, got 1)"))
    else
      SplitPiecesFree(Strip(url, IsSlash), "/");
      ContainsChar(segments[|segments| - 2], '/');
      ContainsChar(Last(segments), '/');
      Ok(Repo(segments[|segments| - 2], Last(segments)))
  }

  /** Unpacking fails exactly when the stripped URL has no `/`. */
  lemma RepoSegmentsFail(url: string)
    ensures RepoSegments(url).Err? <==> '/' !in Strip(url, IsSlash)
  {
    SplitSingle(Strip(url, IsSlash), "/");
    ContainsChar(Strip(url, IsSlash), '/');
  }

  /**
   * The segments of a URL `Join("/", segments) + trailing`: at least two,
   * none holding `/`, the first and the last not empty; `trailing` is
   * slashes only.
   */
  predicate UrlOf(segments: seq<string>, trailing: string) {
    && |segments| >= 2
    && (forall k :: 0 <= k < |segments| ==> '/' !in segments[k])
    && segments[0] != "" && Last(segments) != ""
    && (forall k :: 0 <= k < |trailing| ==> trailing[k] == '/')
  }

  /**
   * A URL made of at least two segments, possibly followed by slashes,
   * names its last two segments, whatever comes before them (the scheme
   * and the host included).
   */
  lemma RepoSegmentsOf(segments: seq<string>, trailing: string)
    requires UrlOf(segments, trailing)
    ensures RepoSegments(Join("/", segments) + trailing) == Ok(Repo(segments[|segments| - 2], Last(segments)))
  {
    SplitUrl(segments, trailing);
    RepoSegmentsOfSplit(Join("/", segments) + trailing, segments);
  }

  /** The segments of such a URL are the ones it was made of. */
  lemma SplitUrl(segments: seq<string>, trailing: string)
    requires UrlOf(segments, trailing)
    ensures Split(Strip(Join("/", segments) + trailing, IsSlash), "/") == segments
  {
    var url := Join("/", segments);
    assert Strip(url + trailing, IsSlash) == url by {
      StripUrl(segments, trailing);
    }
    assert Split(url, "/") == segments by {
      SplitJoinChar(segments, '/');
    }
  }

  /** Unpacking takes the last two of at least two segments. */
  lemma RepoSegmentsOfSplit(url: string, segments: seq<string>)
    requires Split(Strip(url, IsSlash), "/") == segments && |segments| >= 2
    ensures RepoSegments(url) == Ok(Repo(segments[|segments| - 2], Last(segments)))
  {
  }

  /** Stripping the slashes off such a URL leaves the joined segments. */
  lemma StripUrl(segments: seq<string>, trailing: string)
    requires UrlOf(segments, trailing)
    ensures Strip(Join("/", segments) + trailing, IsSlash) == Join("/", segments)
  {
    assert '/' !in segments[0] && '/' !in Last(segments);
    JoinFirst("/", segments);
    JoinLast("/", segments);
    StripTrailing(Join("/", segments), trailing, IsSlash);
  }

  /**
   * Lines 399-419: on a page with a doctree and a source suffix, a truthy
   * `repository_url` gives `github_user`, `github_repo`, `github_version`
   * (with `defaultBranch` for a falsy `repository_branch`) and `doc_path`;
   * on any other page the edit button is switched off.
   */
  function EditContext(options: map<string, Scalar>, hasDoctree: bool, vars: map<string, Value>,
                       defaultBranch: Scalar): (r: Step)
    ensures r.Stop? ==> r.outcome.raised.Some? && r.outcome.vars == vars
  {
    var suffix := if "page_source_suffix" in vars then vars["page_source_suffix"] else Nil;
    if !(hasDoctree && Truthy(suffix)) then Continue(vars["theme_use_edit_page_button" := Bool(false)])
    else
      var url := Get(options, "repository_url", NoStr);
      if !Truthy(url) then Continue(vars)
      else
        match AsStr(url, "strip")
        case Err(e) => Stop(Outcome(vars, Some(e)))
        case Ok(u) =>
          match RepoSegments(u)
          case Err(e) => Stop(Outcome(vars, Some(e)))
          case Ok(r) =>
            var branch := Get(options, "repository_branch", Nil);
            Continue(vars["github_user" := Str(r.org)]["github_repo" := Str(r.repo)]
              ["github_version" := if Truthy(branch) then branch else defaultBranch]
              ["doc_path" := Get(options, "path_to_docs", NoStr)])
  }

  /** The four keys the edit context writes for a repository. */
  function EditKeys(vars: map<string, Value>, r: Repo, branch: Value, docPath: Value): map<string, Value> {
    vars["github_user" := Str(r.org)]["github_repo" := Str(r.repo)]["github_version" := branch]["doc_path" := docPath]
  }

  /**
   * For a repository URL of the usual form, the edit context names its
   * last two segments; the branch is `repository_branch` when truthy and
   * `defaultBranch` otherwise.
   */
  lemma EditContextOf(options: map<string, Scalar>, vars: map<string, Value>, defaultBranch: Scalar,
                      segments: seq<string>, trailing: string)
    requires "page_source_suffix" in vars && Truthy(vars["page_source_suffix"])
    requires UrlOf(segments, trailing)
    requires "repository_url" in options && options["repository_url"] == Str(Join("/", segments) + trailing)
    ensures var branch := Get(options, "repository_branch", Nil);
      EditContext(options, true, vars, defaultBranch) ==
        Continue(EditKeys(vars, Repo(segments[|segments| - 2], Last(segments)),
          if Truthy(branch) then branch else defaultBranch, Get(options, "path_to_docs", NoStr)))
  {
    var url := Join("/", segments) + trailing;
    assert url != "" by {
      JoinFirst("/", segments);
    }
    assert RepoSegments(url) == Ok(Repo(segments[|segments| - 2], Last(segments))) by {
      RepoSegmentsOf(segments, trailing);
    }
    EditContextOfRepo(options, vars, defaultBranch, url, Repo(segments[|segments| - 2], Last(segments)));
  }

  /** A repository URL whose segments give `r` writes `r` and the branch into the context. */
  lemma EditContextOfRepo(options: map<string, Scalar>, vars: map<string, Value>, defaultBranch: Scalar, url: string, r: Repo)
    requires "page_source_suffix" in vars && Truthy(vars["page_source_suffix"])
    requires "repository_url" in options && options["repository_url"] == Str(url) && url != ""
    requires RepoSegments(url) == Ok(r)
    ensures var branch := Get(options, "repository_branch", Nil);
      EditContext(options, true, vars, defaultBranch) ==
        Continue(EditKeys(vars, r, if Truthy(branch) then branch else defaultBranch, Get(options, "path_to_docs", NoStr)))
  {
  }

  /** Without a doctree or a source suffix, only the edit button changes: it is switched off. */
  lemma EditContextDisabled(options: map<string, Scalar>, hasDoctree: bool, vars: map<string, Value>, defaultBranch: Scalar)
    requires !hasDoctree || "page_source_suffix" !in vars || !Truthy(vars["page_source_suffix"])
    ensures EditContext(options, hasDoctree, vars, defaultBranch) == Continue(vars["theme_use_edit_page_button" := Bool(false)])
  {
  }

  /** A URL with one segment stops the handler with `ValueError`, before anything is written. */
  lemma EditContextOneSegment(options: map<string, Scalar>, vars: map<string, Value>, defaultBranch: Scalar, url: string)
    requires "page_source_suffix" in vars && Truthy(vars["page_source_suffix"])
    requires "repository_url" in options && options["repository_url"] == Str(url) && url != ""
    requires '/' !in Strip(url, IsSlash)
    ensures EditContext(options, true, vars, defaultBranch).Stop?
    ensures EditContext(options, true, vars, defaultBranch).outcome.vars == vars
    ensures EditContext(options, true, vars, defaultBranch).outcome.raised.Some?
    ensures EditContext(options, true, vars, defaultBranch).outcome.raised.value.ValueError?
  {
    RepoSegmentsFail(url);
  }

  // ---------------------------------------------------------------------------
  // The PDF and notebook downloads
  // ---------------------------------------------------------------------------

  /** `name.replace(".tex", "")`: the book's name from its LaTeX file name. */
  function BookName(latex: string): string {
    ReplaceAll(latex, ".tex", "")
  }

  /** The LaTeX file `<name>.tex` of a name without a dot gives that name. */
  lemma BookNameOfFile(name: string)
    requires '.' !in name
    ensures BookName(name + ".tex") == name
  {
    ReplaceSkipPrefix(name, ".tex", ".tex", "");
    ReplaceAtStart("", ".tex", "");
    assert ".tex" + "" == ".tex";
    assert name + "" == name;
  }

  /** `pdf_book_name`, unless already in the context: the first LaTeX document's name. */
  function WithBookName(latexName: Option<string>, vars: map<string, Value>): Result<map<string, Value>> {
    if "pdf_book_name" in vars then Ok(vars)
    else match latexName
      case None => Err(IndexError("list index out of range"))
      case Some(n) => Ok(vars["pdf_book_name" := Str(BookName(n))])
  }

  /** Lines 348-354: with a `_pdf` folder, the book's name and `/_pdf/<name>.pdf`. */
  function PdfStage(b: Build, vars: map<string, Value>): (r: Step)
    ensures r.Stop? ==> r.outcome.raised.Some?
  {
    if !b.pdfDir then Continue(vars)
    else match WithBookName(b.latexName, vars)
      case Err(e) => Stop(Outcome(vars, Some(e)))
      case Ok(v) =>
        var name := v["pdf_book_name"];
        if !name.Str? then Stop(Outcome(v, Some(ConcatError(name))))
        else Continue(v["pdf_book_path" := Str("/_pdf/" + name.s + ".pdf")])
  }

  /** With a `_pdf` folder, the PDF link is the book's name under `/_pdf/`, with the `.tex` gone. */
  lemma PdfStageOf(b: Build, vars: map<string, Value>, name: string)
    requires b.pdfDir && "pdf_book_name" !in vars && b.latexName == Some(name + ".tex") && '.' !in name
    ensures PdfStage(b, vars) == Continue(vars["pdf_book_name" := Str(name)]["pdf_book_path" := Str("/_pdf/" + name + ".pdf")])
  {
    BookNameOfFile(name);
  }

  /** A book name already in the context is kept, and only the path is added. */
  lemma PdfStageKeepsName(b: Build, vars: map<string, Value>, name: string)
    requires b.pdfDir && "pdf_book_name" in vars && vars["pdf_book_name"] == Str(name)
    ensures PdfStage(b, vars) == Continue(vars["pdf_book_path" := Str("/_pdf/" + name + ".pdf")])
  {
  }

  /**
   * Lines 356-366: with a `_notebooks` folder, the notebook's download
   * path: `<download_nb_path>/_notebooks/<pagename>.ipynb`, the prefix
   * empty when the option is absent.
   */
  function NotebookStage(b: Build, vars: map<string, Value>): (r: Step)
    ensures r.Stop? ==> r.outcome.raised.Some?
  {
    if !b.notebooksDir then Continue(vars)
    else
      var prefix: Value := if "download_nb_path" in b.options then b.options["download_nb_path"] else Str("");
      if !prefix.Str? then Stop(Outcome(vars, Some(AddError(prefix))))
      else if "pagename" !in vars then Stop(Outcome(vars, Some(KeyError("pagename"))))
      else
        var page := vars["pagename"];
        if !page.Str? then Stop(Outcome(vars, Some(ConcatError(page))))
        else Continue(vars["notebook_path" := Str(prefix.s + "/_notebooks/" + page.s + ".ipynb")])
  }

  /** The notebook path ends in the page's notebook, after the configured prefix. */
  lemma NotebookStageOf(b: Build, vars: map<string, Value>, page: string)
    requires b.notebooksDir && "pagename" in vars && vars["pagename"] == Str(page)
    requires "download_nb_path" in b.options ==> b.options["download_nb_path"].Str?
    ensures NotebookStage(b, vars).Continue?
    ensures var path := NotebookStage(b, vars).vars["notebook_path"];
      path.Str? && EndsWith(path.s, "/_notebooks/" + page + ".ipynb") &&
      ("download_nb_path" in b.options ==> StartsWith(path.s, b.options["download_nb_path"].s)) &&
      ("download_nb_path" !in b.options ==> path.s == "/_notebooks/" + page + ".ipynb")
  {
  }

  // ---------------------------------------------------------------------------
  // The page's title, description and author
  // ---------------------------------------------------------------------------

  /** Lines 368-371: the page title from the environment's titles. */
  function TitleStage(b: Build, page: Page, vars: map<string, Value>): map<string, Value> {
    if page.pagename in b.titles then vars["pagetitle" := Str(b.titles[page.pagename])] else vars
  }

  /** Python's `len(v)`. */
  function Len(v: Value): Result<nat> {
    match v
    case Str(s) => Ok(|s|)
    case List(items) => Ok(|items|)
    case Dict(entries) => Ok(|entries|)
    case _ => Err(TypeError("object of type '" + TypeName(v) + "' has no len()"))
  }

  /** The sections' texts one after the other, each with its line breaks made spaces. */
  function SectionsText(sections: seq<string>): string
    decreases |sections|
  {
    if sections == [] then ""
    else SectionsText(sections[..|sections| - 1]) + ReplaceAll(Last(sections), "\n", " ")
  }

  /** Python's `s[:n]`. */
  function Prefix(s: string, n: nat): (p: string)
    ensures |p| <= n && p <= s
    ensures |s| <= n ==> p == s
  {
    if |s| <= n then s else s[..n]
  }

  /** The page description: at most 160 characters of the sections' text. */
  function Description(sections: seq<string>): string {
    Prefix(SectionsText(sections), 160)
  }

  /** The sections' texts, all concatenated. */
  function Concat(sections: seq<string>): string
    decreases |sections|
  {
    if sections == [] then "" else Concat(sections[..|sections| - 1]) + Last(sections)
  }

  /** Replacing one character by another commutes with concatenation. */
  lemma ReplaceCharAppend(a: string, b: string, x: char, y: char)
    ensures ReplaceAll(a + b, [x], [y]) == ReplaceAll(a, [x], [y]) + ReplaceAll(b, [x], [y])
  {
    ReplaceChar(a + b, x, y);
    ReplaceChar(a, x, y);
    ReplaceChar(b, x, y);
    var l := ReplaceAll(a + b, [x], [y]);
    var r := ReplaceAll(a, [x], [y]) + ReplaceAll(b, [x], [y]);
    assert forall k :: 0 <= k < |l| ==> l[k] == r[k] by {
      forall k | 0 <= k < |l|
        ensures l[k] == r[k]
      {
        if k < |a| {
          assert (a + b)[k] == a[k];
        } else {
          assert (a + b)[k] == b[k - |a|];
        }
      }
    }
  }

  /** The loop's text is the whole text of the sections with its line breaks made spaces. */
  lemma {:induction false} SectionsTextIsReplaced(sections: seq<string>)
    ensures SectionsText(sections) == ReplaceAll(Concat(sections), "\n", " ")
    decreases |sections|
  {
    if sections != [] {
      SectionsTextIsReplaced(sections[..|sections| - 1]);
      ReplaceCharAppend(Concat(sections[..|sections| - 1]), Last(sections), '\n', ' ');
    }
  }

  /**
   * The description is a prefix of the sections' text with line breaks
   * made spaces, the whole of it when that is short enough, at most 160
   * characters, and holds no line break.
   */
  lemma DescriptionShape(sections: seq<string>)
    ensures var full := ReplaceAll(Concat(sections), "\n", " ");
      && Description(sections) <= full
      && |Description(sections)| <= 160
      && (|full| <= 160 ==> Description(sections) == full)
      && '\n' !in Description(sections)
  {
    SectionsTextIsReplaced(sections);
    var full := ReplaceAll(Concat(sections), "\n", " ");
    ReplaceChar(Concat(sections), '\n', ' ');
    var d := Description(sections);
    assert forall k :: 0 <= k < |d| ==> d[k] == full[k];
  }

  /** The loop of lines 375-377, building the description section by section. */
  method SectionDescription(sections: seq<string>) returns (description: string)
    ensures description == Description(sections)
  {
    description := "";
    var i := 0;
    while i < |sections|
      invariant 0 <= i <= |sections|
      invariant description == SectionsText(sections[..i])
    {
      assert sections[..i + 1][..i] == sections[..i];
      description := description + ReplaceAll(sections[i], "\n", " ");
      i := i + 1;
    }
    assert sections[..i] == sections;
    if |description| > 160 {
      description := description[..160];
    }
  }

  /**
   * Lines 373-379: an empty `theme_description` on a page with a doctree
   * becomes the page's description; the key must be present and have a
   * length.
   */
  function DescriptionStage(page: Page, vars: map<string, Value>): (r: Step)
    ensures r.Stop? ==> r.outcome.raised.Some?
  {
    if "theme_description" !in vars then Stop(Outcome(vars, Some(KeyError("theme_description"))))
    else match Len(vars["theme_description"])
      case Err(e) => Stop(Outcome(vars, Some(e)))
      case Ok(n) =>
        if n == 0 && page.sections.Some? then Continue(vars["theme_description" := Str(Description(page.sections.value))])
        else Continue(vars)
  }

  /** Lines 381-383: the author, unless it is Sphinx's "unknown". */
  function AuthorStage(b: Build, vars: map<string, Value>): map<string, Value> {
    if b.author != "unknown" then vars["author" := Str(b.author)] else vars
  }

  // ---------------------------------------------------------------------------
  // Logo and MathJax
  // ---------------------------------------------------------------------------

  /**
   * Lines 385-390: with a base URL and a logo, `logourl` is the base URL
   * without trailing slashes, `/`, and the context's `logo_url`.
   */
  function LogoStage(b: Build, vars: map<string, Value>): (r: Step)
    ensures r.Stop? ==> r.outcome.raised.Some?
  {
    if b.baseurl == "" || b.logo == "" then Continue(vars)
    else if "logo_url" !in vars then Stop(Outcome(vars, Some(KeyError("logo_url"))))
    else
      var logo := vars["logo_url"];
      if !logo.Str? then Stop(Outcome(vars, Some(TypeError("sequence item 1: expected str instance, " + TypeName(logo) + " found"))))
      else Continue(vars["logourl" := Str(RStrip(b.baseurl, IsSlash) + "/" + logo.s)])
  }

  /** The logo URL has exactly one slash between the base URL and the logo, however many the base URL ends with. */
  lemma LogoStageOf(b: Build, vars: map<string, Value>, base: string, slashes: string, logo: string)
    requires b.baseurl == base + slashes && b.logo != "" && b.baseurl != ""
    requires base == "" || !IsSlash(Last(base))
    requires forall k :: 0 <= k < |slashes| ==> slashes[k] == '/'
    requires "logo_url" in vars && vars["logo_url"] == Str(logo)
    ensures LogoStage(b, vars) == Continue(vars["logourl" := Str(base + "/" + logo)])
  {
    RStripAppend(base, slashes, IsSlash);
  }

  /** Lines 392-396: MathJax 3 when its path mentions `@3`, else 2. */
  function MathjaxVersion(path: string): int {
    if path != "" && Contains(path, "@3") then 3 else 2
  }

  /** The version is 3 exactly when the path holds `@3`; the emptiness test is redundant. */
  lemma MathjaxVersionThree(path: string)
    ensures MathjaxVersion(path) == 3 <==> Contains(path, "@3")
    ensures MathjaxVersion(path) == 2 <==> !Contains(path, "@3")
  {
    if path == "" {
      assert !Contains(path, "@3") by {
        FindFirst(path, "@3");
      }
    }
  }

  // ---------------------------------------------------------------------------
  // Git information
  // ---------------------------------------------------------------------------

  /** A changelog entry as the dictionary the templates read. */
  function CommitValue(c: GitInfo.Commit): Value {
    Dict(map["hash" := Str(c.hash), "author" := Str(c.author), "date" := Time(c.date),
             "message" := Str(c.message), "relative_time" := Str(c.relativeTime)])
  }

  /** The changelog as the list the templates read, entry for entry. */
  function Entries(log: seq<GitInfo.Commit>): (entries: seq<Value>)
    ensures |entries| == |log| && forall k :: 0 <= k < |log| ==> entries[k] == CommitValue(log[k])
  {
    seq(|log|, k requires 0 <= k < |log| => CommitValue(log[k]))
  }

  /**
   * The page's source file under `path_to_docs`: `f"{docs}/{file}"` with
   * every `//` made `/`, or the file alone when `path_to_docs` is falsy.
   */
  function SourcePath(docs: Scalar, sourceFile: string): (path: string)
    ensures !Truthy(docs) ==> path == sourceFile
    ensures Truthy(docs) ==> |path| <= |Display(docs) + "/" + sourceFile|
    ensures Truthy(docs) && !Contains(Display(docs) + "/" + sourceFile, "//") ==>
      path == Display(docs) + "/" + sourceFile
  {
    if Truthy(docs) then
      var joined := Display(docs) + "/" + sourceFile;
      ReplaceNoLonger(joined, "//", "/");
      assert !Contains(joined, "//") ==> ReplaceAll(joined, "//", "/") == joined by {
        if !Contains(joined, "//") {
          ReplaceAbsent(joined, "//", "/");
        }
      }
      ReplaceAll(joined, "//", "/")
    else sourceFile
  }

  /** Collapsing `//` can be done piecewise at a point not preceded by `/`. */
  lemma {:induction false} CollapseAppend(a: string, b: string)
    requires a == "" || Last(a) != '/'
    ensures ReplaceAll(a + b, "//", "/") == ReplaceAll(a, "//", "/") + ReplaceAll(b, "//", "/")
    decreases |a|
  {
    var s := a + b;
    if a == "" {
      assert s == b;
    } else if |a| == 1 {
      assert a == [a[0]] && a[0] != '/';
      assert !StartsWith([a[0]] + b, "//") by {
        assert ([a[0]] + b)[0] == a[0];
      }
      ReplaceSkipChar(a[0], b, "//", "/");
    } else if a[..2] == "//" {
      assert s[..2] == a[..2] && s[2..] == a[2..] + b;
      assert a[2..] == "" || Last(a[2..]) == Last(a);
      var rest := ReplaceAll(a[2..], "//", "/");
      assert ReplaceAll(a, "//", "/") == "/" + rest;
      calc {
        ReplaceAll(s, "//", "/");
        "/" + ReplaceAll(a[2..] + b, "//", "/");
        { CollapseAppend(a[2..], b); }
        "/" + (rest + ReplaceAll(b, "//", "/"));
        ("/" + rest) + ReplaceAll(b, "//", "/");
      }
    } else {
      assert s[..2] == a[..2] && s[0] == a[0] && s[1..] == a[1..] + b;
      assert Last(a[1..]) == Last(a);
      var rest := ReplaceAll(a[1..], "//", "/");
      assert ReplaceAll(a, "//", "/") == [a[0]] + rest;
      calc {
        ReplaceAll(s, "//", "/");
        [a[0]] + ReplaceAll(a[1..] + b, "//", "/");
        { CollapseAppend(a[1..], b); }
        [a[0]] + (rest + ReplaceAll(b, "//", "/"));
        ([a[0]] + rest) + ReplaceAll(b, "//", "/");
      }
    }
  }

  /**
   * For a docs folder and a file without `//`, the folder not ending and
   * the file not starting with `/`, the path is `<docs>/<file>`, and a
   * trailing `/` on the folder makes no difference.
   */
  lemma SourcePathOf(docs: string, file: string)
    requires docs != "" && Last(docs) != '/' && !Contains(docs, "//")
    requires file == "" || file[0] != '/'
    requires !Contains(file, "//")
    ensures SourcePath(Str(docs), file) == docs + "/" + file
    ensures SourcePath(Str(docs + "/"), file) == docs + "/" + file
  {
    ReplaceAbsent(docs, "//", "/");
    ReplaceAbsent(file, "//", "/");
    assert docs + "/" + file == docs + ("/" + file);
    CollapseAppend(docs, "/" + file);
    assert !StartsWith(['/'] + file, "//") by {
      if file != "" {
        assert (['/'] + file)[1] == file[0];
      }
    }
    ReplaceSkipChar('/', file, "//", "/");
    assert docs + "/" + "/" + file == docs + ("//" + file);
    CollapseAppend(docs, "//" + file);
    ReplaceAtStart(file, "//", "/");
  }

  /** Lines 447-460: the repository URL without trailing slashes and the page's source path, or None for both. */
  function RepositoryLinks(options: map<string, Scalar>, sourceFile: string, vars: map<string, Value>): (r: Step)
    ensures r.Stop? ==> r.outcome.raised.Some?
  {
    var url := Get(options, "repository_url", NoStr);
    if !Truthy(url) then Continue(vars["theme_repository_url" := Nil]["theme_source_file" := Nil])
    else
      match AsStr(url, "rstrip")
      case Err(e) => Stop(Outcome(vars, Some(e)))
      case Ok(u) =>
        Continue(vars["theme_repository_url" := Str(RStrip(u, IsSlash))]
          ["theme_source_file" := Str(SourcePath(Get(options, "path_to_docs", NoStr), sourceFile))])
  }

  /** The git keys of a page without a doctree or without `doc2path`. */
  function NoGitInfo(vars: map<string, Value>): map<string, Value> {
    vars["last_modified_date" := Nil]["changelog_entries" := List([])]["has_git_info" := Bool(false)]
      ["theme_repository_url" := Nil]["theme_source_file" := Nil]
  }

  /** `strftime` with a format that is not a string. */
  function StrftimeError(format: Value): Error {
    TypeError("strftime() argument 1 must be str, not " + TypeName(format))
  }

  /** The date keys: the formatted last-commit time, or None without one. */
  function Dated(dates: Dates, format: string, modified: Option<int>, vars: map<string, Value>): map<string, Value> {
    if modified.Some? then
      vars["last_modified_date" := Str(dates.strftime(format, modified.value))]
        ["last_modified_iso" := Str(dates.isoformat(modified.value))]
    else vars["last_modified_date" := Nil]
  }

  /** What git says about the page's source file: its last commit time and its changelog. */
  datatype History = History(modified: Option<int>, log: seq<GitInfo.Commit>)

  /** `get_git_last_modified` and `get_git_changelog` on the git runs. */
  function Ask(git: Git): History {
    History(GitInfo.LastModified(git.revParse, git.lastLog), GitInfo.Changelog(git.revParse, git.changeLog, git.now))
  }

  /**
   * Lines 426-466: the last-modified date, the changelog, whether there
   * is git information at all, and the repository links.
   */
  function GitStage(b: Build, page: Page, h: History, dates: Dates, vars: map<string, Value>): (r: Step)
    ensures r.Stop? ==> r.outcome.raised.Some?
  {
    if !(page.sections.Some? && b.hasDoc2path) then Continue(NoGitInfo(vars))
    else
      var format := Get(b.options, "last_modified_date_format", DefaultDateFormat);
      if h.modified.Some? && !format.Str? then Stop(Outcome(vars, Some(StrftimeError(format))))
      else RepositoryLinks(b.options, page.sourceFile, Gathered(dates, if format.Str? then format.s else "", h, vars))
  }

  /** The repository links touch their two keys only. */
  lemma RepositoryLinksKeeps(options: map<string, Scalar>, sourceFile: string, vars: map<string, Value>, key: string)
    requires key != "theme_repository_url" && key != "theme_source_file"
    ensures var after := StepVars(RepositoryLinks(options, sourceFile, vars));
      (key in after <==> key in vars) && (key in vars ==> after[key] == vars[key])
  {
  }

  /** The information the git stage gathers before the repository links. */
  function Gathered(dates: Dates, format: string, h: History, vars: map<string, Value>): map<string, Value> {
    Dated(dates, format, h.modified, vars)
      ["changelog_entries" := List(Entries(h.log))]["has_git_info" := Bool(h.modified.Some? && |h.log| > 0)]
  }

  /**
   * On a page with git information to look for, `has_git_info` holds
   * exactly when the file has a last-commit time and a non-empty
   * changelog, `changelog_entries` is that changelog, and the date is
   * the last commit's time formatted, or None without one; also when the
   * repository links stop the handler.
   */
  lemma GitStageHasInfo(b: Build, page: Page, h: History, dates: Dates, vars: map<string, Value>)
    requires page.sections.Some? && b.hasDoc2path
    requires Get(b.options, "last_modified_date_format", DefaultDateFormat).Str?
    ensures var after := StepVars(GitStage(b, page, h, dates, vars));
      var format := Get(b.options, "last_modified_date_format", DefaultDateFormat).s;
      && "has_git_info" in after
      && after["has_git_info"] == Bool(h.modified.Some? && |h.log| > 0)
      && "changelog_entries" in after
      && after["changelog_entries"] == List(Entries(h.log))
      && "last_modified_date" in after
      && after["last_modified_date"] == (if h.modified.Some? then Str(dates.strftime(format, h.modified.value)) else Nil)
  {
    var m := Gathered(dates, Get(b.options, "last_modified_date_format", DefaultDateFormat).s, h, vars);
    assert GitStage(b, page, h, dates, vars) == RepositoryLinks(b.options, page.sourceFile, m);
    RepositoryLinksKeeps(b.options, page.sourceFile, m, "has_git_info");
    RepositoryLinksKeeps(b.options, page.sourceFile, m, "changelog_entries");
    RepositoryLinksKeeps(b.options, page.sourceFile, m, "last_modified_date");
  }

  /**
   * For a file whose history git prints, the page shows it: the date of
   * the last commit formatted, the commits as they were printed, and
   * `has_git_info` set.
   */
  lemma GitStageOfHistory(b: Build, page: Page, git: Git, dates: Dates, vars: map<string, Value>,
                          time: int, records: seq<GitInfo.LogRecord>)
    requires page.sections.Some? && b.hasDoc2path
    requires Get(b.options, "last_modified_date_format", DefaultDateFormat).Str?
    requires git.revParse.Some? && git.revParse.value.returncode == 0
    requires git.lastLog == Some(GitInfo.GitRun(0, IntToString(time) + "\n"))
    requires git.changeLog == Some(GitInfo.GitRun(0, GitInfo.LogOutput(records)))
    requires records != [] && GitInfo.PrintableLog(records)
    ensures var after := StepVars(GitStage(b, page, Ask(git), dates, vars));
      var format := Get(b.options, "last_modified_date_format", DefaultDateFormat).s;
      && "has_git_info" in after && after["has_git_info"] == Bool(true)
      && "changelog_entries" in after
      && after["changelog_entries"] == List(Entries(GitInfo.DescribedAll(records, git.now)))
      && "last_modified_date" in after
      && after["last_modified_date"] == Str(dates.strftime(format, time))
  {
    var h := History(Some(time), GitInfo.DescribedAll(records, git.now));
    assert Ask(git) == h by {
      GitInfo.LastModifiedRoundTrip(git.revParse.value, time);
      GitInfo.ChangelogRoundTrip(git.revParse.value, records, git.now);
    }
    GitStageHasInfo(b, page, h, dates, vars);
  }

  // ---------------------------------------------------------------------------
  // `add_to_context`
  // ---------------------------------------------------------------------------

  /**
   * `add_to_context`, step by step: the context it leaves and the
   * exception it raises, if any. The template helpers it stores
   * (`sbt_generate_toctree_html`, `generate_toc_html`) are not modelled.
   */
  function AddToContextSpec(b: Build, page: Page, git: Git, dates: Dates, vars: map<string, Value>): (r: Outcome)
    ensures r.raised.None? ==> forall k :: k in Flags && k in r.vars ==> r.vars[k].Bool?
  {
    match PageStages(b, page, vars)
    case Stop(o) => o
    case Continue(v4) =>
      match EditContext(b.options, page.sections.Some?, v4["mathjax_version" := Int(MathjaxVersion(b.mathjaxPath))], Main)
      case Stop(o) => o
      case Continue(v5) =>
        AfterEditFlags(b, page, Ask(git), dates, v5);
        AfterEdit(b, page, Ask(git), dates, v5)
  }

  /** Lines 340-390: the master URL, the downloads, the title, description, author and logo. */
  function PageStages(b: Build, page: Page, vars: map<string, Value>): (r: Step)
    ensures r.Stop? ==> r.outcome.raised.Some?
  {
    match PdfStage(b, vars["master_url" := Str(b.masterUrl)])
    case Stop(o) => Stop(o)
    case Continue(v1) =>
      match NotebookStage(b, v1)
      case Stop(o) => Stop(o)
      case Continue(v2) =>
        match DescriptionStage(page, TitleStage(b, page, v2))
        case Stop(o) => Stop(o)
        case Continue(v3) => LogoStage(b, AuthorStage(b, v3))
  }

  /** Lines 421-477: the book's name, the source folder, the git information and the coercion. */
  function AfterEdit(b: Build, page: Page, h: History, dates: Dates, vars: map<string, Value>): Outcome {
    match WithBookName(b.latexName, vars)
    case Err(e) => Outcome(vars, Some(e))
    case Ok(v6) =>
      match SourceFolder(b.options, b.srcdir, v6)
      case Err(e) => Outcome(v6, Some(e))
      case Ok(folder) =>
        match GitStage(b, page, h, dates, v6["github_sourcefolder" := Str(folder)])
        case Stop(o) => o
        case Continue(v7) => Outcome(CoerceKeys(v7, Flags), None)
  }

  /** The keys the git stage writes. */
  predicate GitKey(key: string) {
    || key == "last_modified_date" || key == "last_modified_iso" || key == "changelog_entries"
    || key == "has_git_info" || key == "theme_repository_url" || key == "theme_source_file"
  }

  /** The date, changelog and `has_git_info` are all the gathering writes. */
  lemma GatheredKeeps(dates: Dates, format: string, h: History, vars: map<string, Value>, key: string)
    requires !GitKey(key)
    ensures var m := Gathered(dates, format, h, vars);
      (key in m <==> key in vars) && (key in vars ==> m[key] == vars[key])
  {
  }

  /** The git stage writes its own keys only. */
  lemma GitStageKeeps(b: Build, page: Page, h: History, dates: Dates, vars: map<string, Value>, key: string)
    requires !GitKey(key)
    ensures var after := StepVars(GitStage(b, page, h, dates, vars));
      (key in after <==> key in vars) && (key in vars ==> after[key] == vars[key])
  {
    var format := Get(b.options, "last_modified_date_format", DefaultDateFormat);
    if page.sections.Some? && b.hasDoc2path && !(h.modified.Some? && !format.Str?) {
      var m := Gathered(dates, if format.Str? then format.s else "", h, vars);
      assert GitStage(b, page, h, dates, vars) == RepositoryLinks(b.options, page.sourceFile, m);
      GatheredKeeps(dates, if format.Str? then format.s else "", h, vars, key);
      RepositoryLinksKeeps(b.options, page.sourceFile, m, key);
    }
  }

  /** When the handler gets through, the keys it coerces hold booleans. */
  lemma AfterEditFlags(b: Build, page: Page, h: History, dates: Dates, vars: map<string, Value>)
    ensures var o := AfterEdit(b, page, h, dates, vars);
      o.raised.None? ==> forall k :: k in Flags && k in o.vars ==> o.vars[k].Bool?
  {
    var o := AfterEdit(b, page, h, dates, vars);
    if o.raised.None? {
      var v6 := WithBookName(b.latexName, vars).value;
      var folder := SourceFolder(b.options, b.srcdir, v6).value;
      var v7 := GitStage(b, page, h, dates, v6["github_sourcefolder" := Str(folder)]).vars;
      CoerceKeysEffect(v7, Flags);
    }
  }

  /** A switched-off edit button stays off to the end of the handler. */
  lemma AfterEditKeepsEditOff(b: Build, page: Page, h: History, dates: Dates, vars: map<string, Value>)
    requires "theme_use_edit_page_button" in vars && vars["theme_use_edit_page_button"] == Bool(false)
    ensures var o := AfterEdit(b, page, h, dates, vars);
      o.raised.None? ==> "theme_use_edit_page_button" in o.vars && o.vars["theme_use_edit_page_button"] == Bool(false)
  {
    var o := AfterEdit(b, page, h, dates, vars);
    var key := "theme_use_edit_page_button";
    if o.raised.None? {
      var v6 := WithBookName(b.latexName, vars).value;
      var folder := SourceFolder(b.options, b.srcdir, v6).value;
      var v := v6["github_sourcefolder" := Str(folder)];
      GitStageKeeps(b, page, h, dates, v, key);
      var v7 := GitStage(b, page, h, dates, v).vars;
      CoerceKeysEffect(v7, Flags);
      assert key in Flags;
    }
  }

  /**
   * On a page without a doctree a handler that raises nothing leaves the
   * edit button switched off.
   */
  lemma AddToContextWithoutDoctree(b: Build, page: Page, git: Git, dates: Dates, vars: map<string, Value>)
    requires page.sections.None?
    ensures var o := AddToContextSpec(b, page, git, dates, vars);
      o.raised.None? ==> "theme_use_edit_page_button" in o.vars && o.vars["theme_use_edit_page_button"] == Bool(false)
  {
    var st := PageStages(b, page, vars);
    if st.Continue? {
      var v := st.vars["mathjax_version" := Int(MathjaxVersion(b.mathjaxPath))];
      EditContextDisabled(b.options, false, v, Main);
      AfterEditKeepsEditOff(b, page, Ask(git), dates, v["theme_use_edit_page_button" := Bool(false)]);
    }
  }

  // ---------------------------------------------------------------------------
  // The handler on the page context
  // ---------------------------------------------------------------------------

  /** Lines 348-354 on the context. */
  method PdfInto(ctx: PageContext, b: Build) returns (raised: Option<Error>)
    modifies ctx
    ensures PdfStage(b, old(ctx.vars)) ==
      if raised.None? then Continue(ctx.vars) else Stop(Outcome(ctx.vars, raised))
  {
    raised := None;
    if !b.pdfDir {
      return;
    }
    if "pdf_book_name" !in ctx.vars {
      if b.latexName.None? {
        return Some(IndexError("list index out of range"));
      }
      ctx.vars := ctx.vars["pdf_book_name" := Str(BookName(b.latexName.value))];
    }
    var name := ctx.vars["pdf_book_name"];
    if !name.Str? {
      return Some(ConcatError(name));
    }
    ctx.vars := ctx.vars["pdf_book_path" := Str("/_pdf/" + name.s + ".pdf")];
  }

  /** Lines 356-366 on the context. */
  method NotebookInto(ctx: PageContext, b: Build) returns (raised: Option<Error>)
    modifies ctx
    ensures NotebookStage(b, old(ctx.vars)) ==
      if raised.None? then Continue(ctx.vars) else Stop(Outcome(ctx.vars, raised))
  {
    raised := None;
    if !b.notebooksDir {
      return;
    }
    var prefix: Value := Str("");
    if "download_nb_path" in b.options {
      prefix := b.options["download_nb_path"];
    }
    if !prefix.Str? {
      return Some(AddError(prefix));
    }
    if "pagename" !in ctx.vars {
      return Some(KeyError("pagename"));
    }
    var page := ctx.vars["pagename"];
    if !page.Str? {
      return Some(ConcatError(page));
    }
    ctx.vars := ctx.vars["notebook_path" := Str(prefix.s + "/_notebooks/" + page.s + ".ipynb")];
  }

  /** Lines 373-379 on the context, the description built by the loop. */
  method DescriptionInto(ctx: PageContext, page: Page) returns (raised: Option<Error>)
    modifies ctx
    ensures DescriptionStage(page, old(ctx.vars)) ==
      if raised.None? then Continue(ctx.vars) else Stop(Outcome(ctx.vars, raised))
  {
    if "theme_description" !in ctx.vars {
      return Some(KeyError("theme_description"));
    }
    var n := Len(ctx.vars["theme_description"]);
    if n.Err? {
      return Some(n.error);
    }
    if n.value == 0 && page.sections.Some? {
      var description := SectionDescription(page.sections.value);
      ctx.vars := ctx.vars["theme_description" := Str(description)];
    }
    raised := None;
  }

  /** Lines 385-390 on the context. */
  method LogoInto(ctx: PageContext, b: Build) returns (raised: Option<Error>)
    modifies ctx
    ensures LogoStage(b, old(ctx.vars)) ==
      if raised.None? then Continue(ctx.vars) else Stop(Outcome(ctx.vars, raised))
  {
    raised := None;
    if b.baseurl == "" || b.logo == "" {
      return;
    }
    if "logo_url" !in ctx.vars {
      return Some(KeyError("logo_url"));
    }
    var logo := ctx.vars["logo_url"];
    if !logo.Str? {
      return Some(TypeError("sequence item 1: expected str instance, " + TypeName(logo) + " found"));
    }
    ctx.vars := ctx.vars["logourl" := Str(RStrip(b.baseurl, IsSlash) + "/" + logo.s)];
  }

  /** Lines 399-419 on the context, with `defaultBranch` for a missing branch. */
  method EditInto(ctx: PageContext, options: map<string, Scalar>, hasDoctree: bool, defaultBranch: Scalar)
    returns (raised: Option<Error>)
    modifies ctx
    ensures EditContext(options, hasDoctree, old(ctx.vars), defaultBranch) ==
      if raised.None? then Continue(ctx.vars) else Stop(Outcome(ctx.vars, raised))
  {
    raised := None;
    var suffix := if "page_source_suffix" in ctx.vars then ctx.vars["page_source_suffix"] else Nil;
    if !(hasDoctree && Truthy(suffix)) {
      ctx.vars := ctx.vars["theme_use_edit_page_button" := Bool(false)];
      return;
    }
    var url := Get(options, "repository_url", NoStr);
    if !Truthy(url) {
      return;
    }
    if !url.Str? {
      return Some(AttributeError("strip"));
    }
    var branch := Get(options, "repository_branch", Nil);
    if !Truthy(branch) {
      branch := defaultBranch;
    }
    var relpath := Get(options, "path_to_docs", NoStr);
    var repo := RepoSegments(url.s);
    if repo.Err? {
      return Some(repo.error);
    }
    ctx.vars := ctx.vars["github_user" := Str(repo.value.org)]["github_repo" := Str(repo.value.repo)]
      ["github_version" := branch]["doc_path" := relpath];
  }

  /** Lines 426-466 on the context, the changelog read by its loop. */
  method GitInto(ctx: PageContext, b: Build, page: Page, git: Git, dates: Dates) returns (raised: Option<Error>)
    modifies ctx
    ensures GitStage(b, page, Ask(git), dates, old(ctx.vars)) ==
      if raised.None? then Continue(ctx.vars) else Stop(Outcome(ctx.vars, raised))
  {
    raised := None;
    if !(page.sections.Some? && b.hasDoc2path) {
      ctx.vars := ctx.vars["last_modified_date" := Nil]["changelog_entries" := List([])]
        ["has_git_info" := Bool(false)]["theme_repository_url" := Nil]["theme_source_file" := Nil];
      return;
    }
    var modified := GitInfo.LastModified(git.revParse, git.lastLog);
    if modified.Some? {
      var format := Get(b.options, "last_modified_date_format", DefaultDateFormat);
      if !format.Str? {
        return Some(StrftimeError(format));
      }
      ctx.vars := ctx.vars["last_modified_date" := Str(dates.strftime(format.s, modified.value))];
      ctx.vars := ctx.vars["last_modified_iso" := Str(dates.isoformat(modified.value))];
    } else {
      ctx.vars := ctx.vars["last_modified_date" := Nil];
    }
    var changelog := GitInfo.GetChangelog(git.revParse, git.changeLog, git.now);
    ctx.vars := ctx.vars["changelog_entries" := List(Entries(changelog))];
    ctx.vars := ctx.vars["has_git_info" := Bool(modified.Some? && |changelog| > 0)];
    raised := RepositoryLinksInto(ctx, b.options, page.sourceFile);
  }

  /** Lines 447-460 on the context. */
  method RepositoryLinksInto(ctx: PageContext, options: map<string, Scalar>, sourceFile: string) returns (raised: Option<Error>)
    modifies ctx
    ensures RepositoryLinks(options, sourceFile, old(ctx.vars)) ==
      if raised.None? then Continue(ctx.vars) else Stop(Outcome(ctx.vars, raised))
  {
    raised := None;
    var url := Get(options, "repository_url", NoStr);
    if !Truthy(url) {
      ctx.vars := ctx.vars["theme_repository_url" := Nil]["theme_source_file" := Nil];
      return;
    }
    if !url.Str? {
      return Some(AttributeError("rstrip"));
    }
    ctx.vars := ctx.vars["theme_repository_url" := Str(RStrip(url.s, IsSlash))];
    ctx.vars := ctx.vars["theme_source_file" := Str(SourcePath(Get(options, "path_to_docs", NoStr), sourceFile))];
  }

  /** Lines 421-477 on the context. */
  method AfterEditInto(ctx: PageContext, b: Build, page: Page, git: Git, dates: Dates) returns (raised: Option<Error>)
    modifies ctx
    ensures Outcome(ctx.vars, raised) == AfterEdit(b, page, Ask(git), dates, old(ctx.vars))
  {
    if "pdf_book_name" !in ctx.vars {
      if b.latexName.None? {
        return Some(IndexError("list index out of range"));
      }
      ctx.vars := ctx.vars["pdf_book_name" := Str(BookName(b.latexName.value))];
    }
    var folder := SourceFolder(b.options, b.srcdir, ctx.vars);
    if folder.Err? {
      return Some(folder.error);
    }
    ctx.vars := ctx.vars["github_sourcefolder" := Str(folder.value)];
    raised := GitInto(ctx, b, page, git, dates);
    if raised.Some? {
      return;
    }
    CoerceFlags(ctx, Flags);
  }

  /**
   * `add_to_context`, the `html-page-context` handler: it fills the page
   * context in the order of lines 340-477 and stops at the first
   * exception.
   */
  method AddToContext(ctx: PageContext, b: Build, page: Page, git: Git, dates: Dates) returns (raised: Option<Error>)
    modifies ctx
    ensures Outcome(ctx.vars, raised) == AddToContextSpec(b, page, git, dates, old(ctx.vars))
  {
    raised := PageStagesInto(ctx, b, page);
    if raised.Some? {
      return;
    }
    ctx.vars := ctx.vars["mathjax_version" := Int(if b.mathjaxPath != "" && Contains(b.mathjaxPath, "@3") then 3 else 2)];
    raised := EditInto(ctx, b.options, page.sections.Some?, Main);
    if raised.Some? {
      return;
    }
    raised := AfterEditInto(ctx, b, page, git, dates);
  }

  /** Lines 340-390 on the context. */
  method PageStagesInto(ctx: PageContext, b: Build, page: Page) returns (raised: Option<Error>)
    modifies ctx
    ensures PageStages(b, page, old(ctx.vars)) ==
      if raised.None? then Continue(ctx.vars) else Stop(Outcome(ctx.vars, raised))
  {
    ctx.vars := ctx.vars["master_url" := Str(b.masterUrl)];
    raised := PdfInto(ctx, b);
    if raised.Some? {
      return;
    }
    raised := NotebookInto(ctx, b);
    if raised.Some? {
      return;
    }
    if page.pagename in b.titles {
      ctx.vars := ctx.vars["pagetitle" := Str(b.titles[page.pagename])];
    }
    raised := DescriptionInto(ctx, page);
    if raised.Some? {
      return;
    }
    if b.author != "unknown" {
      ctx.vars := ctx.vars["author" := Str(b.author)];
    }
    raised := LogoInto(ctx, b);
  }
}

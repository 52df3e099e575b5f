/**
 * The `add_to_context` handler of the older `quantecon_book_theme`
 * package. It shares most steps with the current handler, with other
 * defaults: the edit-button branch falls back to `master`, the source
 * folder is a `/tree/<github_version>` link, the PDF path is relative, the
 * logo lives under `_static/`, and only three keys are coerced to
 * booleans.
 */
module LegacyContext {
  import opened Options
  import opened Strings
  import opened PyValues
  import opened ThemeContext

  /** The edit-button branch when `repository_branch` is falsy. */
  const Master: Scalar := Str("master")

  /** The context keys the older handler makes booleans. */
  const LegacyFlags: seq<string> := ["theme_use_edit_page_button", "theme_use_repository_button",
                                     "theme_use_issues_button"]

  // ---------------------------------------------------------------------------
  // The steps that differ
  // ---------------------------------------------------------------------------

  /**
   * `get_github_src_folder` of the older package: the source directory's
   * part after the last occurrence of `github_repo`, under
   * `/tree/<github_version>`; "" without `github_repo` or when it does
   * not occur in the source directory.
   */
  function LegacySourceFolder(srcdir: string, vars: map<string, Value>): (r: Result<string>)
    ensures "github_repo" !in vars ==> r == Ok("")
    ensures "github_repo" in vars && vars["github_repo"].Str? && !Contains(srcdir, vars["github_repo"].s) ==> r == Ok("")
    ensures r.Ok? && r.value != "" ==>
      "github_repo" in vars && vars["github_repo"].Str? && "github_version" in vars && vars["github_version"].Str? &&
      var repo := vars["github_repo"].s;
      exists i: nat :: OccursAt(srcdir, repo, i) &&
        (forall j: nat :: i < j ==> !OccursAt(srcdir, repo, j)) &&
        r.value == "/tree/" + vars["github_version"].s + srcdir[i + |repo|..]
  {
    if "github_repo" !in vars then Ok("")
    else
      var repo := vars["github_repo"];
      if !repo.Str? then Err(TypeError("'in <string>' requires string as left operand, not " + TypeName(repo)))
      else
        RFindLast(srcdir, repo.s);
        match RFind(srcdir, repo.s)
        case None => Ok("")
        case Some(i) =>
          if "github_version" !in vars then Err(KeyError("github_version"))
          else
            var branch := vars["github_version"];
            if !branch.Str? then Err(ConcatError(branch))
            else Ok("/tree/" + branch.s + srcdir[i + |repo.s|..])
  }

  /**
   * A source directory `root + repo + folder` in which `repo` occurs last
   * right after `root` gives `folder`, under the context's version.
   */
  lemma LegacySourceFolderOf(root: string, repo: string, folder: string, branch: string, vars: map<string, Value>)
    requires "github_repo" in vars && vars["github_repo"] == Str(repo)
    requires "github_version" in vars && vars["github_version"] == Str(branch)
    requires forall j: nat :: |root| < j ==> !OccursAt(root + repo + folder, repo, j)
    ensures LegacySourceFolder(root + repo + folder, vars) == Ok("/tree/" + branch + folder)
  {
    var srcdir := root + repo + folder;
    assert OccursAt(srcdir, repo, |root|) by {
      assert srcdir[|root|..|root| + |repo|] == repo;
    }
    RFindLast(srcdir, repo);
    assert srcdir[|root| + |repo|..] == folder;
  }

  /**
   * Line 184: `pdf_book_name`, always, from the first LaTeX document; the
   * `IndexError` of `latex_documents[0]` when there is none.
   */
  function LegacyBookName(latexName: Option<string>, vars: map<string, Value>): (r: Result<map<string, Value>>)
    ensures latexName.None? <==> r.Err?
    ensures r.Err? ==> r.error.IndexError?
    ensures r.Ok? ==> r.value.Keys == vars.Keys + {"pdf_book_name"}
    ensures r.Ok? ==> forall k :: k in vars && k != "pdf_book_name" ==> r.value[k] == vars[k]
    ensures r.Ok? ==> r.value["pdf_book_name"].Str? && |r.value["pdf_book_name"].s| <= |latexName.value|
  {
    match latexName
    case None => Err(IndexError("list index out of range"))
    case Some(n) =>
      ReplaceNoLonger(n, ".tex", "");
      Ok(vars["pdf_book_name" := Str(BookName(n))])
  }

  /** The source folder reads `github_repo` and `github_version` only. */
  lemma LegacySourceFolderReads(srcdir: string, v: map<string, Value>, w: map<string, Value>)
    requires ("github_repo" in v <==> "github_repo" in w) && ("github_repo" in v ==> v["github_repo"] == w["github_repo"])
    requires ("github_version" in v <==> "github_version" in w) && ("github_version" in v ==> v["github_version"] == w["github_version"])
    ensures LegacySourceFolder(srcdir, v) == LegacySourceFolder(srcdir, w)
  {
  }

  /** Lines 190-192: with a `_pdf` folder, `_pdf/<name>.pdf`, relative to the page. */
  function LegacyPdfPath(b: Build, name: string, vars: map<string, Value>): map<string, Value> {
    if b.pdfDir then vars["pdf_book_path" := Str("_pdf/" + name + ".pdf")] else vars
  }

  /**
   * Lines 210-216: with a base URL and a logo, `logourl` is the base URL
   * without trailing slashes, `/`, and the context's `logo` under
   * `_static/`.
   */
  function LegacyLogo(b: Build, vars: map<string, Value>): (r: Step)
    ensures r.Stop? ==> r.outcome.raised.Some?
  {
    if b.baseurl == "" || b.logo == "" then Continue(vars)
    else if "logo" !in vars then Stop(Outcome(vars, Some(KeyError("logo"))))
    else
      var logo := vars["logo"];
      if !logo.Str? then Stop(Outcome(vars, Some(ConcatError(logo))))
      else Continue(vars["logourl" := Str(RStrip(b.baseurl, IsSlash) + "/" + ("_static/" + logo.s))])
  }

  /** The logo URL has one slash between the base URL and `_static/<logo>`, however many the base URL ends with. */
  lemma LegacyLogoOf(b: Build, vars: map<string, Value>, base: string, slashes: string, logo: string)
    requires b.baseurl == base + slashes && b.logo != "" && b.baseurl != ""
    requires base == "" || !IsSlash(Last(base))
    requires forall k :: 0 <= k < |slashes| ==> slashes[k] == '/'
    requires "logo" in vars && vars["logo"] == Str(logo)
    ensures LegacyLogo(b, vars) == Continue(vars["logourl" := Str(base + "/" + ("_static/" + logo))])
  {
    RStripAppend(base, slashes, IsSlash);
  }

  // ---------------------------------------------------------------------------
  // The handler
  // ---------------------------------------------------------------------------

  /**
   * The older `add_to_context` as written: the source folder is computed
   * at line 185, before the edit context of lines 220-241 writes
   * `github_repo` and `github_version`. So a run that raises nothing ends
   * with the folder of the context as the handler received it.
   */
  function LegacyAsWritten(b: Build, page: Page, vars: map<string, Value>): (r: Outcome)
    ensures r.raised.None? ==>
      && LegacySourceFolder(b.srcdir, vars).Ok?
      && "github_sourcefolder" in r.vars
      && r.vars["github_sourcefolder"] == Str(LegacySourceFolder(b.srcdir, vars).value)
  {
    var v0 := vars["master_url" := Str(b.masterUrl)];
    match LegacyBookName(b.latexName, v0)
    case Err(e) => Outcome(v0, Some(e))
    case Ok(v1) =>
      LegacySourceFolderReads(b.srcdir, v1, vars);
      match LegacySourceFolder(b.srcdir, v1)
      case Err(e) => Outcome(v1, Some(e))
      case Ok(folder) =>
        var v2 := LegacyPdfPath(b, BookName(b.latexName.value), v1["github_sourcefolder" := Str(folder)]);
        LegacyTailKeeps(b, page, v2, "github_sourcefolder");
        LegacyTail(b, page, v2)
  }

  /** Lines 194-251 as written: the middle steps, the edit context and the coercion. */
  function LegacyTail(b: Build, page: Page, vars: map<string, Value>): Outcome {
    match LegacyMiddle(b, page, vars)
    case Stop(o) => o
    case Continue(v3) =>
      match EditContext(b.options, page.sections.Some?, v3, Master)
      case Stop(o) => o
      case Continue(v4) => Outcome(CoerceKeys(v4, LegacyFlags), None)
  }

  /** Lines 194-216: the title, description, author and logo. */
  function LegacyMiddle(b: Build, page: Page, vars: map<string, Value>): (r: Step)
    ensures r.Stop? ==> r.outcome.raised.Some?
  {
    match DescriptionStage(page, TitleStage(b, page, vars))
    case Stop(o) => Stop(o)
    case Continue(v) => LegacyLogo(b, AuthorStage(b, v))
  }

  /**
   * The older `add_to_context` with the source folder computed once the
   * edit context has named the repository and its version; every other
   * step as written.
   */
  function LegacySpec(b: Build, page: Page, vars: map<string, Value>): (r: Outcome)
    ensures r.raised.None? ==> "github_sourcefolder" in r.vars
    ensures r.raised.None? ==> forall k :: k in LegacyFlags && k in r.vars ==> r.vars[k].Bool?
  {
    var v0 := vars["master_url" := Str(b.masterUrl)];
    match LegacyBookName(b.latexName, v0)
    case Err(e) => Outcome(v0, Some(e))
    case Ok(v1) =>
      var v2 := LegacyPdfPath(b, BookName(b.latexName.value), v1);
      match LegacyMiddle(b, page, v2)
      case Stop(o) => o
      case Continue(v3) =>
        match EditContext(b.options, page.sections.Some?, v3, Master)
        case Stop(o) => o
        case Continue(v4) =>
          match LegacySourceFolder(b.srcdir, v4)
          case Err(e) => Outcome(v4, Some(e))
          case Ok(folder) =>
            CoerceKeysEffect(v4["github_sourcefolder" := Str(folder)], LegacyFlags);
            Outcome(CoerceKeys(v4["github_sourcefolder" := Str(folder)], LegacyFlags), None)
  }

  // ---------------------------------------------------------------------------
  // What the steps keep
  // ---------------------------------------------------------------------------

  /** The middle steps write the title, description, author and logo URL only. */
  lemma LegacyMiddleKeeps(b: Build, page: Page, vars: map<string, Value>, key: string)
    requires key != "pagetitle" && key != "theme_description" && key != "author" && key != "logourl"
    ensures var after := StepVars(LegacyMiddle(b, page, vars));
      (key in after <==> key in vars) && (key in vars ==> after[key] == vars[key])
  {
    var title := TitleStage(b, page, vars);
    var d := DescriptionStage(page, title);
    if d.Continue? {
      assert LegacyMiddle(b, page, vars) == LegacyLogo(b, AuthorStage(b, d.vars));
    }
  }

  /** The edit context writes the edit button and the four repository keys only. */
  lemma EditContextKeeps(options: map<string, Scalar>, hasDoctree: bool, vars: map<string, Value>,
                         defaultBranch: Scalar, key: string)
    requires key != "theme_use_edit_page_button" && key != "github_user" && key != "github_repo"
    requires key != "github_version" && key != "doc_path"
    ensures var after := StepVars(EditContext(options, hasDoctree, vars, defaultBranch));
      (key in after <==> key in vars) && (key in vars ==> after[key] == vars[key])
  {
    var suffix := if "page_source_suffix" in vars then vars["page_source_suffix"] else Nil;
    var url := Get(options, "repository_url", NoStr);
    if !(hasDoctree && Truthy(suffix)) {
      EditContextDisabled(options, hasDoctree, vars, defaultBranch);
    } else if Truthy(url) && url.Str? && RepoSegments(url.s).Ok? {
      var r := RepoSegments(url.s).value;
      var branch := Get(options, "repository_branch", Nil);
      EditContextOfRepo(options, vars, defaultBranch, url.s, r);
      EditKeysKeeps(vars, r, if Truthy(branch) then branch else defaultBranch, Get(options, "path_to_docs", NoStr), key);
    }
  }

  /** The edit keys are four updates of the context. */
  lemma EditKeysKeeps(vars: map<string, Value>, r: Repo, branch: Value, docPath: Value, key: string)
    requires key != "github_user" && key != "github_repo" && key != "github_version" && key != "doc_path"
    ensures var after := EditKeys(vars, r, branch, docPath);
      (key in after <==> key in vars) && (key in vars ==> after[key] == vars[key])
  {
  }

  /**
   * As written, a page whose context does not already hold `github_repo`
   * gets an empty `github_sourcefolder`, also when the edit context goes
   * on to name the repository.
   */
  lemma LegacyAsWrittenEmptyFolder(b: Build, page: Page, vars: map<string, Value>)
    requires "github_repo" !in vars
    ensures var o := LegacyAsWritten(b, page, vars);
      o.raised.None? ==> "github_sourcefolder" in o.vars && o.vars["github_sourcefolder"] == Str("")
  {
    var key := "github_sourcefolder";
    var v0 := vars["master_url" := Str(b.masterUrl)];
    if b.latexName.Some? {
      var v1 := v0["pdf_book_name" := Str(BookName(b.latexName.value))];
      assert LegacyBookName(b.latexName, v0) == Ok(v1);
      assert LegacySourceFolder(b.srcdir, v1) == Ok("");
      var v2 := LegacyPdfPath(b, BookName(b.latexName.value), v1[key := Str("")]);
      assert LegacyAsWritten(b, page, vars) == LegacyTail(b, page, v2);
      LegacyTailKeeps(b, page, v2, key);
    }
  }

  /** The steps after the source folder leave `github_sourcefolder` as it is. */
  lemma LegacyTailKeeps(b: Build, page: Page, vars: map<string, Value>, key: string)
    requires key == "github_sourcefolder" && key in vars
    ensures var o := LegacyTail(b, page, vars);
      o.raised.None? ==> key in o.vars && o.vars[key] == vars[key]
  {
    var m := LegacyMiddle(b, page, vars);
    if m.Continue? {
      LegacyMiddleKeeps(b, page, vars, key);
      var e := EditContext(b.options, page.sections.Some?, m.vars, Master);
      if e.Continue? {
        EditContextKeeps(b.options, page.sections.Some?, m.vars, Master, key);
        CoerceKeysEffect(e.vars, LegacyFlags);
      }
    }
  }

  /**
   * With the source folder taken after the edit context, a repository
   * URL of the usual form whose repository occurs last in the source
   * directory right before `folder` gives `/tree/<branch>/...` with the
   * branch the edit context chose.
   */
  lemma LegacyFolderAfterEdit(options: map<string, Scalar>, vars: map<string, Value>, segments: seq<string>,
                              trailing: string, root: string, folder: string)
    requires "page_source_suffix" in vars && Truthy(vars["page_source_suffix"])
    requires UrlOf(segments, trailing)
    requires "repository_url" in options && options["repository_url"] == Str(Join("/", segments) + trailing)
    requires !Truthy(Get(options, "repository_branch", Nil))
    requires forall j: nat :: |root| < j ==> !OccursAt(root + Last(segments) + folder, Last(segments), j)
    ensures EditContext(options, true, vars, Master).Continue?
    ensures LegacySourceFolder(root + Last(segments) + folder, EditContext(options, true, vars, Master).vars)
      == Ok("/tree/master" + folder)
  {
    var r := Repo(segments[|segments| - 2], Last(segments));
    var v := EditKeys(vars, r, Master, Get(options, "path_to_docs", NoStr));
    assert EditContext(options, true, vars, Master) == Continue(v) by {
      EditContextOf(options, vars, Master, segments, trailing);
    }
    FolderOfEditKeys(vars, r, Get(options, "path_to_docs", NoStr), root, folder);
  }

  /** The source folder of the keys the edit context writes with the `master` default. */
  lemma FolderOfEditKeys(vars: map<string, Value>, r: Repo, docPath: Value, root: string, folder: string)
    requires forall j: nat :: |root| < j ==> !OccursAt(root + r.repo + folder, r.repo, j)
    ensures LegacySourceFolder(root + r.repo + folder, EditKeys(vars, r, Master, docPath)) == Ok("/tree/master" + folder)
  {
    var v := EditKeys(vars, r, Master, docPath);
    assert v["github_repo"] == Str(r.repo) && v["github_version"] == Str("master");
    LegacySourceFolderOf(root, r.repo, folder, "master", v);
    assert "/tree/" + "master" + folder == "/tree/master" + folder;
  }

  /** The older handler always renames the book, also over a name already in the context. */
  lemma LegacyBookNameOverrides(vars: map<string, Value>, name: string)
    requires '.' !in name
    ensures LegacyBookName(Some(name + ".tex"), vars) == Ok(vars["pdf_book_name" := Str(name)])
  {
    BookNameOfFile(name);
  }

  /**
   * The book `<name>.tex` gives the relative path `_pdf/<name>.pdf`, set
   * only when the `_pdf` folder exists.
   */
  lemma LegacyPdfPathOf(b: Build, vars: map<string, Value>, name: string)
    requires '.' !in name && b.latexName == Some(name + ".tex")
    ensures var after := LegacyPdfPath(b, BookName(b.latexName.value), vars);
      && (b.pdfDir ==> after == vars["pdf_book_path" := Str("_pdf/" + name + ".pdf")])
      && (!b.pdfDir ==> after == vars)
  {
    BookNameOfFile(name);
  }

  /** The older coercion leaves `theme_enable_rtl` as it is and coerces the other three keys. */
  lemma LegacyCoercionLeavesRtl(vars: map<string, Value>)
    ensures var after := CoerceKeys(vars, LegacyFlags);
      && after.Keys == vars.Keys
      && ("theme_enable_rtl" in vars ==> after["theme_enable_rtl"] == vars["theme_enable_rtl"])
      && forall k :: k in vars && k in LegacyFlags ==> after[k] == Bool(StringOrBool(vars[k]))
  {
    CoerceKeysEffect(vars, LegacyFlags);
  }

  // ---------------------------------------------------------------------------
  // On the page context
  // ---------------------------------------------------------------------------

  /** Lines 210-216 on the context. */
  method LegacyLogoInto(ctx: PageContext, b: Build) returns (raised: Option<Error>)
    modifies ctx
    ensures LegacyLogo(b, old(ctx.vars)) ==
      if raised.None? then Continue(ctx.vars) else Stop(Outcome(ctx.vars, raised))
  {
    raised := None;
    if b.baseurl == "" || b.logo == "" {
      return;
    }
    if "logo" !in ctx.vars {
      return Some(KeyError("logo"));
    }
    var logo := ctx.vars["logo"];
    if !logo.Str? {
      return Some(ConcatError(logo));
    }
    ctx.vars := ctx.vars["logourl" := Str(RStrip(b.baseurl, IsSlash) + "/" + ("_static/" + logo.s))];
  }

  /** Lines 194-216 on the context. */
  method LegacyMiddleInto(ctx: PageContext, b: Build, page: Page) returns (raised: Option<Error>)
    modifies ctx
    ensures LegacyMiddle(b, page, old(ctx.vars)) ==
      if raised.None? then Continue(ctx.vars) else Stop(Outcome(ctx.vars, raised))
  {
    if page.pagename in b.titles {
      ctx.vars := ctx.vars["pagetitle" := Str(b.titles[page.pagename])];
    }
    raised := DescriptionInto(ctx, page);
    if raised.Some? {
      return;
    }
    if b.author != "unknown" {
      ctx.vars := ctx.vars["author" := Str(b.author)];
    }
    raised := LegacyLogoInto(ctx, b);
  }

  /**
   * The older `add_to_context` on the page context, step by step in the
   * order of lines 177-251.
   */
  method LegacyAddToContext(ctx: PageContext, b: Build, page: Page) returns (raised: Option<Error>)
    modifies ctx
    ensures Outcome(ctx.vars, raised) == LegacyAsWritten(b, page, old(ctx.vars))
  {
    ctx.vars := ctx.vars["master_url" := Str(b.masterUrl)];
    if b.latexName.None? {
      return Some(IndexError("list index out of range"));
    }
    var name := BookName(b.latexName.value);
    ctx.vars := ctx.vars["pdf_book_name" := Str(name)];
    var folder := LegacySourceFolder(b.srcdir, ctx.vars);
    if folder.Err? {
      return Some(folder.error);
    }
    ctx.vars := ctx.vars["github_sourcefolder" := Str(folder.value)];
    if b.pdfDir {
      ctx.vars := ctx.vars["pdf_book_path" := Str("_pdf/" + name + ".pdf")];
    }
    raised := LegacyMiddleInto(ctx, b, page);
    if raised.Some? {
      return;
    }
    raised := EditInto(ctx, b.options, page.sections.Some?, Master);
    if raised.Some? {
      return;
    }
    CoerceFlags(ctx, LegacyFlags);
  }
}

# QuantEcon book theme: page-context handlers in Dafny

This project models the Python plugin half of the QuantEcon book theme for
Sphinx. These are the event handlers that fill each page's template context
before the HTML is rendered:

- **Launch buttons** (`launch.dfy`, module `Launch`). `add_hub_urls` parses
  the notebook repository's GitHub URL with `_split_repo_url`, applies the
  branch default of `_get_branch` and checks the notebook interface. It
  then writes the Binder, JupyterHub and Colab links into the context, one
  key at a time, with the ordered `launch_buttons` list, `default_server`,
  the `.ipynb` download name and the thebe flag.
- **Git metadata** (`gitinfo.dfy`, module `GitInfo`).
  - `get_relative_time` turns elapsed seconds into "3 months ago".
  - The loop of `get_git_changelog` reads `git log --format=%h|%an|%ct|%s`.
  - `get_git_last_modified` reads the last commit's time.
- **Asset cache busting** (`assets.dfy`, module `Assets`).
  `hash_assets_for_files` and `hash_html_assets` rewrite the theme's
  `css_files`/`script_files` entries in place to `?digest=` links.
- **Plugins** (`plugins.dfy`, module `Plugins`). `add_plugins_list`, and
  the same loop in the older `add_static_path`, rewrite each
  `plugins_list` entry in place to `plugins/<file name>`.
- **The current `add_to_context`** (`context.dfy`, module `ThemeContext`),
  with `_string_or_bool` and `add_pygments_style_class`. It writes, in
  order:
  - the master URL;
  - the PDF and notebook downloads;
  - the title, the description and the author;
  - the absolute logo URL and the MathJax version;
  - the edit-button keys;
  - the book name;
  - `get_github_src_folder`;
  - the git fields and the repository links;
  - the final coercion of the button flags to booleans.
- **The older package's `add_to_context`** (`legacy.dfy`, module
  `LegacyContext`). It has different defaults (`master`, `/tree/`, a
  relative PDF path, the logo under `_static/`, three coerced keys) and a
  different order of steps.

`pyvalues.dfy` (module `PyValues`) holds the Python values the handlers
handle:
- `None`, booleans, integers, strings, lists, dictionaries, asset objects
  and datetimes;
- truthiness, `str()` and `type().__name__`;
- the exceptions (`KeyError`, `TypeError`, `ValueError`, `AttributeError`,
  `IndexError`, `FileNotFoundError`).

The context dictionary is the class `PageContext`, whose `vars` map every
handler method updates in place. `strings.dfy` (module `Strings`) models the
`str` methods the code calls: `split` with and without a limit, `join`,
`find`/`rfind`, `in`, `replace`, `strip`/`rstrip`, `lower`, `startswith`,
`endswith`, `int()` and `str()` of integers. `options.dfy` holds `Option`.

Each handler is a method that takes the `PageContext` and updates its
`vars`, and its `ensures` ties the new
context and the exception it raised to a specification function of the old
context. The handlers keep the writes made before an exception, so that
function returns an `Outcome`: the dictionary as the handler leaves it and
the exception it raised, if any. The lemmas about the specification
functions state what the source promises.

## Model

| member | source | states |
|---|---|---|
| Launch.SplitRepoUrl | src/quantecon_book_theme/launch.py:159-170 | `None` exactly when the URL has no `github.com/`; the unpacking `ValueError` exactly when what follows the last `github.com/` holds no `/`; org and repo never hold a `/` |
| Launch.SplitRepoUrlOfParts | src/quantecon_book_theme/launch.py:159-170 | `https://github.com/` followed by `/`-free segments joined with `/` splits back into its first two segments and the rest, joined |
| Launch.CanonicalSplit | src/quantecon_book_theme/launch.py:159-170 | `https://github.com/{org}/{repo}` gives org, repo and an empty sub-path |
| Launch.GetBranch | src/quantecon_book_theme/launch.py:182-186 | `nb_branch` when it is truthy, otherwise `"main"`; the result is always truthy |
| Launch.RepoRootAsWritten | src/quantecon_book_theme/launch.py:44-49 | the root as written, by `replace`: never longer than the URL, and the URL itself when `"/" + subpath` does not occur in it |
| Launch.RepoRootAsWrittenAgrees | src/quantecon_book_theme/launch.py:44-49 | when `"/" + subpath` occurs in the URL only as its end, the root as written equals the corrected root, and the root followed by `"/" + subpath` is the URL |
| Launch.RepoRoot | src/quantecon_book_theme/launch.py:44-49 | the corrected root: a URL ending in `"/" + subpath` is the root followed by exactly that; any other URL is kept whole |
| Launch.RepoRootAsWrittenStripsTooMuch | src/quantecon_book_theme/launch.py:46 | as written, `replace` also cuts the sub-path out of a repository name that starts with it: `https://github.com/{org}/{word}{suffix}/{word}` with sub-path `word` becomes `https://github.com/{org}{suffix}` |
| Launch.RepoRootKeepsRepoSegment | src/quantecon_book_theme/launch.py:44-49 | on the same URLs the corrected root is `https://github.com/{org}/{word}{suffix}` |
| Launch.RepoUrlEndsWithSubpath | src/quantecon_book_theme/launch.py:44-49 | a split URL with a non-empty sub-path ends with `"/" + subpath`, so the root followed by `"/" + subpath` is the URL again |
| Launch.NotebookRelPath | src/quantecon_book_theme/launch.py:72-78 | the path always ends in `{page}.ipynb`; it is exactly that when `path_to_docs` is only slashes or empty; otherwise it is longer, does not start with `/`, and has a `/` right before the file name |
| Launch.NotebookRelPathSlashes | src/quantecon_book_theme/launch.py:75-78 | slashes around `path_to_docs` make no difference, and a plain folder gives `{docs}/{page}.ipynb` |
| Launch.InterfacePrefix | src/quantecon_book_theme/launch.py:56-66 | the interface defaults to `classic`; the prefix exists exactly for `classic` and `jupyterlab`, is `tree` exactly for `classic` and `lab/tree` exactly for `jupyterlab`; any other interface gives the `ValueError` with its message |
| Launch.LinksFor | src/quantecon_book_theme/launch.py:44-84 | when the links are built, they are built and carry the parts of the split URL |
| Launch.LinksRepoUrl | src/quantecon_book_theme/launch.py:44-49 | the repository URL of the links, followed by `"/" + subpath`, is the URL again, when that suffix occurs nowhere else in it |
| Launch.LinksForOk | src/quantecon_book_theme/launch.py:44-84 | building the links of a parsed URL succeeds exactly when the interface is known and `path_to_docs` is a string, and then gives the links of that prefix and folder |
| Launch.GatherLinksParts | src/quantecon_book_theme/launch.py:40-84 | links are only ever built from a string URL that splits, out of its own parts |
| Launch.CanonicalLinks | src/quantecon_book_theme/launch.py:72-121 | for `https://github.com/{org}/{repo}`, the classic interface and a plain docs folder, the links are as follows. The hub path is `tree/{repo}/{docs}/{page}.ipynb`. The Colab URL is `{colab}/github/{org}/{repo}/blob/{branch}/{docs}/{page}.ipynb`. The Binder URL is `{host}/v2/gh/{org}/{repo}/{branch}?urlpath=tree/{page}.ipynb` |
| Launch.CanonicalUrls | src/quantecon_book_theme/launch.py:87-121 | the Binder, JupyterHub-path and Colab formulas for a URL without a sub-path |
| Launch.BinderIgnoresPathToDocs | src/quantecon_book_theme/launch.py:87-100 | the Binder link is the same whatever `path_to_docs` is, while the notebook path follows it |
| Launch.BinderOfLinksWith | src/quantecon_book_theme/launch.py:87-100 | the same independence, for links built from the same parts |
| Launch.ButtonsOrdered | src/quantecon_book_theme/launch.py:85-121 | at most three buttons, ordered BinderHub, JupyterHub, Colab; each service has a button exactly when its switch is truthy |
| Launch.ButtonNamesAreServices | src/quantecon_book_theme/launch.py:85-121 | the button names are the switched-on services in the fixed order |
| Launch.BinderStage | src/quantecon_book_theme/launch.py:87-100 | with the switch on, `binder_url` is the Binder link and a BinderHub button with it is appended; with it off nothing changes; no other key is touched |
| Launch.HubStage | src/quantecon_book_theme/launch.py:102-114 | `jupyterhub_url`, `jupyterhub_urlpath` and `repo_branch` are always written; the JupyterHub button is appended only for a truthy hub URL; no other key is touched |
| Launch.ColabStage | src/quantecon_book_theme/launch.py:116-121 | with a truthy `colab_url`, `colab_url` is `{colab}/github/...` and a Colab button is appended; otherwise nothing changes |
| Launch.ServicesWrittenKeys | src/quantecon_book_theme/launch.py:85-121 | after the three services: the hub keys and the branch are set, `binder_url`/`colab_url` exactly when switched on and otherwise as before, and `default_server` is untouched |
| Launch.ServicesWrittenFrameOf | src/quantecon_book_theme/launch.py:85-121 | every key other than the six keys the three services write (every launch key but `default_server`) keeps its value (or stays absent) |
| Launch.WrittenButtons | src/quantecon_book_theme/launch.py:85-121 | `launch_buttons` is a new list holding exactly the ordered buttons |
| Launch.WriteLinksDefaultServer | src/quantecon_book_theme/launch.py:123-127 | `default_server` is the only button's URL; with none or several it is `context["colab_url"]`; the `KeyError` exactly when there are not one button, no Colab link and no earlier `colab_url` |
| Launch.UnknownInterface | src/quantecon_book_theme/launch.py:56-66 | an unknown interface raises its `ValueError` with the context untouched, before `launch_buttons` exists |
| Launch.TooFewSegments | src/quantecon_book_theme/launch.py:163 | one segment after `github.com/` raises the unpacking `ValueError` with nothing written |
| Launch.NotOnGitHub | src/quantecon_book_theme/launch.py:44-53 | a repository URL off GitHub returns early: no key changes and nothing is raised |
| Launch.NoRepoUrl | src/quantecon_book_theme/launch.py:40-134 | without `nb_repository_url` the handler is the notebook part alone, and no launch key changes |
| Launch.HubUrlsWithLinks | src/quantecon_book_theme/launch.py:85-156 | once links are built, the launch keys are those the services and `default_server` leave; the run ends with their `KeyError` or raises at most the `endswith` error of a non-string `sourcename` |
| Launch.NotebookPartEffects | src/quantecon_book_theme/launch.py:133-156 | on a notebook page with launch buttons: a markdown source gets `ipynb_source = {page}.ipynb`; a truthy `thebe` sets `use_thebe`; a non-string `sourcename` raises. On other pages nothing happens |
| Launch.NotebookPartFrame | src/quantecon_book_theme/launch.py:133-156 | the notebook part writes `ipynb_source` and `use_thebe` only |
| Launch.AppendButton | src/quantecon_book_theme/launch.py:98-100 | on the context: appends one `{"name", "url"}` entry to the list |
| Launch.BinderInto | src/quantecon_book_theme/launch.py:87-100 | on the context: the Binder step |
| Launch.HubInto | src/quantecon_book_theme/launch.py:102-114 | on the context: the JupyterHub step |
| Launch.ColabInto | src/quantecon_book_theme/launch.py:116-121 | on the context: the Colab step |
| Launch.SetDefaultServer | src/quantecon_book_theme/launch.py:123-127 | on the context: `default_server` or its `KeyError` |
| Launch.WriteLinksInto | src/quantecon_book_theme/launch.py:85-127 | on the context: the list, the three services and `default_server`, in the source's order |
| Launch.NotebookPartInto | src/quantecon_book_theme/launch.py:133-156 | on the context: the download name and thebe flag |
| Launch.AddHubUrls | src/quantecon_book_theme/launch.py:13-156 | the handler, with the root taken by `replace` as written: the new context and the exception are those of the specification `HubUrls` |
| Launch.HubUrls | src/quantecon_book_theme/launch.py:13-156 | whether the handler returns early, raises or gets through, every key other than the seven launch keys (`launch_buttons`, `binder_url`, `jupyterhub_url`, `jupyterhub_urlpath`, `repo_branch`, `colab_url`, `default_server`), `ipynb_source` and `use_thebe` keeps its value or stays absent |
| GitInfo.RelativeTimeCounts | src/quantecon_book_theme/__init__.py:194-223 | read off the units table (minute, hour, day, week, 30-day month, 365-day year): the text counts whole units of the longest unit that fits, at least 1 and below the next unit |
| GitInfo.RelativeTime | src/quantecon_book_theme/__init__.py:194-223 | "just now" below 60 seconds, and text ending in ` ago` from 60 seconds on |
| GitInfo.RelativeTimeBounds | src/quantecon_book_theme/__init__.py:206-220 | between two thresholds the count lies in 1..59 minutes, 1..23 hours, 1..6 days, 1..4 weeks, 1..12 months |
| GitInfo.JustNow | src/quantecon_book_theme/__init__.py:204-205 | the text is "just now" exactly below 60 seconds |
| GitInfo.AgoPlural | src/quantecon_book_theme/__init__.py:207-223 | the unit ends in `s` exactly when the count is not 1 |
| GitInfo.AgoStartsWithDigit | src/quantecon_book_theme/__init__.py:207-223 | a positive count is written as digits first |
| GitInfo.LineEntry | src/quantecon_book_theme/__init__.py:162-178 | the hash and the author of a parsed entry hold no bar separator |
| GitInfo.LineEntryNeedsThreeBars | src/quantecon_book_theme/__init__.py:162-167 | a line is skipped exactly when it holds fewer than three bar separators (the empty line included) |
| GitInfo.LineEntryFields | src/quantecon_book_theme/__init__.py:165-177 | an entry's hash, author and timestamp are the first three bar-free fields, the message is the rest (a bar in it stays), the date is the parsed timestamp, and the relative time is that of its age |
| GitInfo.CollectFails | src/quantecon_book_theme/__init__.py:161-191 | collecting fails exactly when some line has a malformed timestamp |
| GitInfo.ParseLinesFails | src/quantecon_book_theme/__init__.py:161-191 | the lines give no changelog (so `[]`) exactly when one timestamp is not an integer |
| GitInfo.CollectEntries | src/quantecon_book_theme/__init__.py:161-181 | when every line is an entry, the changelog is those entries in input order |
| GitInfo.ParseLines | src/quantecon_book_theme/__init__.py:161-181 | the changelog has at most one entry per line |
| GitInfo.LineEntryOfLogLine | src/quantecon_book_theme/__init__.py:162-178 | a line git prints for a commit parses back into that commit, even with a bar in the subject |
| GitInfo.ParseLogLines | src/quantecon_book_theme/__init__.py:161-181 | the printed lines of a log give its commits, in order |
| GitInfo.ChangelogRoundTrip | src/quantecon_book_theme/__init__.py:141-181 | a successful `git log` printing a log gives exactly that log's entries, in order |
| GitInfo.ParseLog | src/quantecon_book_theme/__init__.py:161-181 | the loop over the lines returns the collected entries, or `[]` after a malformed timestamp |
| GitInfo.GetChangelog | src/quantecon_book_theme/__init__.py:126-191 | `[]` when a git run fails or prints nothing; otherwise the loop's result |
| GitInfo.LastModified | src/quantecon_book_theme/__init__.py:75-111 | a time only when both git runs started and succeeded |
| GitInfo.LastModifiedRoundTrip | src/quantecon_book_theme/__init__.py:91-101 | the `%ct` line of a commit gives back its time |
| Assets.AssetKey | src/quantecon_book_theme/__init__.py:498 | `css_files` exactly for names ending in `.css`, otherwise `script_files` |
| Assets.FirstMatch | src/quantecon_book_theme/__init__.py:509-517 | the first index whose entry has `filename == _static/{asset}`; none exactly when no entry does |
| Assets.FindAsset | src/quantecon_book_theme/__init__.py:509-517 | the search loop, with its `continue` past entries without `filename`, finds that first index |
| Assets.HashOne | src/quantecon_book_theme/__init__.py:498-517 | one asset's rewrite adds no key and changes no key other than its list key |
| Assets.HashAll | src/quantecon_book_theme/__init__.py:496-517 | hashing all assets, whether or not it raises, adds no key and changes no key other than `css_files` and `script_files` |
| Assets.HtmlAssets | src/quantecon_book_theme/__init__.py:525-530 | always the theme script first; the style sheet second, exactly for the theme itself |
| Assets.HashOneFails | src/quantecon_book_theme/__init__.py:499-516 | one asset raises exactly when its list key holds something not iterable, or a matching entry's file cannot be read |
| Assets.HashOneWithoutMatch | src/quantecon_book_theme/__init__.py:499-517 | an absent key, or a list with no matching entry, leaves the context unchanged |
| Assets.HashOneStamps | src/quantecon_book_theme/__init__.py:509-517 | with the list key holding a list whose first matching entry is at `i`, and a readable file: the run succeeds; entry `i` becomes `_static/{asset}?digest={hash}`; every other entry, the list's length and every other key are unchanged |
| Assets.HashOneIdempotent | src/quantecon_book_theme/__init__.py:509-517 | with at most one matching entry, a second run changes nothing: the rewritten entry is a string with no `filename` |
| Assets.HashOneDuplicates | src/quantecon_book_theme/__init__.py:509-517 | with two matching entries each run stamps only the first still unstamped, so idempotence needs the single-match premise |
| Assets.HashAllWithoutLists | src/quantecon_book_theme/__init__.py:496-499 | without either list key, nothing changes and nothing is raised |
| Assets.HashAsset | src/quantecon_book_theme/__init__.py:498-517 | on the context: one asset's rewrite, or its exception with the context untouched |
| Assets.HashAssetsForFiles | src/quantecon_book_theme/__init__.py:485-517 | on the context: the assets in order, stopping at the first exception |
| Assets.HashHtmlAssets | src/quantecon_book_theme/__init__.py:520-531 | on the context: the theme's own assets |
| Plugins.AddPluginsList | src/quantecon_book_theme/__init__.py:54-62 | every entry of the array becomes `plugins/` followed by its file's name, in place |
| Plugins.PluginLinkStable | quantecon_book_theme/__init__.py:57-60 | rewriting an entry a second time changes nothing once it has a name (the older loop is the same) |
| Plugins.LastNameIs | src/quantecon_book_theme/__init__.py:60 | the name is empty exactly when every component is blank, and otherwise is a component followed only by blank ones |
| Plugins.PathNameNoSlash | src/quantecon_book_theme/__init__.py:60 | a file name holds no `/` |
| Plugins.PathNameOfComponents | src/quantecon_book_theme/__init__.py:60 | the name of `a/b/.../z` is `z` when `z` is not blank |
| Plugins.PathNameOfName | src/quantecon_book_theme/__init__.py:60 | a name without `/` is its own name, and `""` and `.` have none |
| Plugins.PathNameIgnoresBlankTail | src/quantecon_book_theme/__init__.py:60 | a trailing `/` or `/.` does not change the name |
| ThemeContext.StringOrBool | src/quantecon_book_theme/__init__.py:588-594 | a boolean is itself; a true string has four letters; any other value is true exactly when it is `None` (the older copy at `quantecon_book_theme/__init__.py:254-260` is the same) |
| ThemeContext.StringOrBoolOfString | src/quantecon_book_theme/__init__.py:588-594 | a string is true exactly when it spells `true` in any mix of cases |
| ThemeContext.StringOrBoolOfDisplay | src/quantecon_book_theme/__init__.py:588-594 | the string Python prints for a boolean converts back to that boolean |
| ThemeContext.UsePygmentsStyle | src/quantecon_book_theme/__init__.py:541-549 | off without `qetheme_code_style`; a boolean option `b` gives `not b`; a string option that switches it on has five letters |
| ThemeContext.UsePygmentsStyleDefault | src/quantecon_book_theme/__init__.py:541-549 | without `qetheme_code_style`, `use_pygments_style` is false |
| ThemeContext.UsePygmentsStyleOfString | src/quantecon_book_theme/__init__.py:544-549 | a string option switches the Pygments style on exactly when it spells `false` in any mix of cases |
| ThemeContext.UsePygmentsStyleOfSpelling | src/quantecon_book_theme/__init__.py:541-549 | a boolean `b` gives `not b`, and its printed spelling gives the same |
| ThemeContext.AddPygmentsStyleClass | src/quantecon_book_theme/__init__.py:534-549 | on the context: sets `use_pygments_style` and nothing else |
| ThemeContext.CoerceKeysEffect | src/quantecon_book_theme/__init__.py:468-477 | the listed keys that are present become the boolean of `_string_or_bool`; every other key keeps its value and none is added |
| ThemeContext.CoerceKeysIdempotent | src/quantecon_book_theme/__init__.py:468-477 | coercing twice is coercing once |
| ThemeContext.CoerceFlags | src/quantecon_book_theme/__init__.py:475-477 | on the context: the loop over the keys |
| ThemeContext.SourceFolder | src/quantecon_book_theme/__init__.py:327-337 | `""` without `github_repo` in the context or in the source directory; otherwise `/blob/{nb_branch}` (`main` only when `nb_branch` is `""` or absent) and the directory's part after the last occurrence of `github_repo`; a non-string `nb_branch` such as `None` raises `TypeError` |
| ThemeContext.SourceFolderOf | src/quantecon_book_theme/__init__.py:327-337 | for `root + repo + folder`, with `repo` last occurring right after `root`, the folder link is `/blob/{branch}{folder}` |
| ThemeContext.RepoSegments | src/quantecon_book_theme/__init__.py:408 | the user and the repository taken from the URL hold no `/` |
| ThemeContext.RepoSegmentsFail | src/quantecon_book_theme/__init__.py:408 | the `[-2:]` unpacking fails exactly when the stripped URL holds no `/` |
| ThemeContext.RepoSegmentsOf | src/quantecon_book_theme/__init__.py:408 | a URL of two or more segments, with or without trailing slashes, names its last two segments |
| ThemeContext.EditContext | src/quantecon_book_theme/__init__.py:399-419 | when it raises, it has written nothing |
| ThemeContext.EditContextOf | src/quantecon_book_theme/__init__.py:399-416 | for a usual repository URL: `github_user`/`github_repo` are its last two segments, `github_version` is `repository_branch` or the default, and `doc_path` is `path_to_docs` |
| ThemeContext.EditContextDisabled | src/quantecon_book_theme/__init__.py:417-419 | without a doctree or a source suffix only `theme_use_edit_page_button = False` is written |
| ThemeContext.EditContextOneSegment | src/quantecon_book_theme/__init__.py:408 | a one-segment repository URL raises the `ValueError` with nothing written |
| ThemeContext.BookNameOfFile | src/quantecon_book_theme/__init__.py:421-423 | the LaTeX file `{name}.tex` gives the book name `name` |
| ThemeContext.PdfStageOf | src/quantecon_book_theme/__init__.py:348-354 | with a `_pdf` folder and no name yet: the name from LaTeX and the path `/_pdf/{name}.pdf` |
| ThemeContext.PdfStageKeepsName | src/quantecon_book_theme/__init__.py:348-354 | a `pdf_book_name` already in the context is kept and used for the path |
| ThemeContext.NotebookStageOf | src/quantecon_book_theme/__init__.py:356-366 | with a `_notebooks` folder the path ends in `/_notebooks/{page}.ipynb`, prefixed by `download_nb_path` when that is set |
| ThemeContext.SectionsTextIsReplaced | src/quantecon_book_theme/__init__.py:375-377 | replacing line breaks section by section is replacing them in the whole text |
| ThemeContext.DescriptionShape | src/quantecon_book_theme/__init__.py:373-379 | the description is a prefix of the sections' text with line breaks made spaces, at most 160 characters, all of it when short, and has no line break |
| ThemeContext.SectionDescription | src/quantecon_book_theme/__init__.py:375-378 | the loop and the cut to 160 characters compute that description |
| ThemeContext.LogoStageOf | src/quantecon_book_theme/__init__.py:385-390 | `logourl` is the base URL without trailing slashes, `/` and the context's `logo_url` |
| ThemeContext.MathjaxVersionThree | src/quantecon_book_theme/__init__.py:392-396 | version 3 exactly when the path holds `@3`, else 2 |
| ThemeContext.SourcePath | src/quantecon_book_theme/__init__.py:451-457 | the file alone without a truthy `path_to_docs`; otherwise never longer than `{docs}/{file}`, and exactly that when it holds no `//` |
| ThemeContext.SourcePathOf | src/quantecon_book_theme/__init__.py:451-457 | for a plain folder and file, `theme_source_file` is `{docs}/{file}`, also when the folder ends in `/` (the `//` is collapsed) |
| ThemeContext.RepositoryLinksKeeps | src/quantecon_book_theme/__init__.py:447-460 | the repository links write `theme_repository_url` and `theme_source_file` only |
| ThemeContext.GitStageHasInfo | src/quantecon_book_theme/__init__.py:426-446 | `has_git_info` holds exactly when there is a last-commit time and a non-empty changelog; `changelog_entries` is the changelog; the date is the formatted time, or `None` |
| ThemeContext.GitStageOfHistory | src/quantecon_book_theme/__init__.py:426-446 | with git printing a commit time and a non-empty log, `has_git_info` is true and the entries and date are those of that output |
| ThemeContext.GitStageKeeps | src/quantecon_book_theme/__init__.py:426-466 | the git stage writes only its six keys |
| ThemeContext.AfterEditFlags | src/quantecon_book_theme/__init__.py:421-477 | after a successful run every present button flag is a boolean |
| ThemeContext.AfterEditKeepsEditOff | src/quantecon_book_theme/__init__.py:417-477 | a disabled edit button stays `False` through the rest of the handler |
| ThemeContext.AddToContextWithoutDoctree | src/quantecon_book_theme/__init__.py:399-419 | a page without a doctree that raises nothing ends with `theme_use_edit_page_button = False` |
| ThemeContext.AddToContextSpec | src/quantecon_book_theme/__init__.py:339-477 | a run that raises nothing leaves each of the four button flags that is present as a boolean |
| ThemeContext.PdfInto | src/quantecon_book_theme/__init__.py:348-354 | on the context: the PDF fields |
| ThemeContext.NotebookInto | src/quantecon_book_theme/__init__.py:356-366 | on the context: the notebook path |
| ThemeContext.DescriptionInto | src/quantecon_book_theme/__init__.py:373-379 | on the context: the description |
| ThemeContext.LogoInto | src/quantecon_book_theme/__init__.py:385-390 | on the context: the logo URL |
| ThemeContext.EditInto | src/quantecon_book_theme/__init__.py:399-419 | on the context: the edit-button keys |
| ThemeContext.RepositoryLinksInto | src/quantecon_book_theme/__init__.py:447-460 | on the context: the repository URL and source file |
| ThemeContext.GitInto | src/quantecon_book_theme/__init__.py:426-466 | on the context: the git fields, with the changelog read by its loop |
| ThemeContext.PageStagesInto | src/quantecon_book_theme/__init__.py:339-390 | on the context: the master URL through the logo |
| ThemeContext.AfterEditInto | src/quantecon_book_theme/__init__.py:421-477 | on the context: book name, source folder, git fields and coercion |
| ThemeContext.AddToContext | src/quantecon_book_theme/__init__.py:339-477 | the handler: the new context and the exception are those of the specification `AddToContextSpec` |
| LegacyContext.LegacySourceFolder | quantecon_book_theme/__init__.py:167-175 | `""` without `github_repo` in the context or in the source directory; otherwise `/tree/{github_version}` and the directory's part after the last occurrence of `github_repo` |
| LegacyContext.LegacySourceFolderOf | quantecon_book_theme/__init__.py:167-175 | for `root + repo + folder`, with `repo` last occurring right after `root`, the link is `/tree/{branch}{folder}` |
| LegacyContext.LegacyBookName | quantecon_book_theme/__init__.py:183-184 | `IndexError` exactly when there is no LaTeX document; otherwise `pdf_book_name` is added or replaced by a string no longer than the file name, and every other key keeps its value |
| LegacyContext.LegacyBookNameOverrides | quantecon_book_theme/__init__.py:183-184 | a name already in the context is replaced |
| LegacyContext.LegacyPdfPathOf | quantecon_book_theme/__init__.py:190-192 | `pdf_book_path` is `_pdf/{name}.pdf`, set only when the `_pdf` folder exists |
| LegacyContext.LegacyLogoOf | quantecon_book_theme/__init__.py:211-216 | `logourl` is the base URL without trailing slashes, `/`, `_static/` and the context's `logo` |
| LegacyContext.LegacyMiddleKeeps | quantecon_book_theme/__init__.py:194-216 | title, description, author and logo steps write those four keys only |
| LegacyContext.EditContextKeeps | quantecon_book_theme/__init__.py:218-241 | the edit context writes its five keys only |
| LegacyContext.LegacyAsWrittenEmptyFolder | quantecon_book_theme/__init__.py:183-185 | as written, without `github_repo` in the incoming context a run that raises nothing always ends with `github_sourcefolder = ""` |
| LegacyContext.LegacyTailKeeps | quantecon_book_theme/__init__.py:187-251 | nothing after line 185 changes `github_sourcefolder` |
| LegacyContext.LegacyAsWritten | quantecon_book_theme/__init__.py:177-251 | as written: a run that raises nothing ends with the `github_sourcefolder` of the context the handler received, before the edit context ran |
| LegacyContext.LegacyFolderAfterEdit | quantecon_book_theme/__init__.py:220-241 | corrected order: once the edit context has run with a falsy `repository_branch`, the folder of `root + repo + folder` is `/tree/master{folder}` |
| LegacyContext.LegacySpec | quantecon_book_theme/__init__.py:177-251 | corrected order (folder after the edit context): a run that raises nothing sets `github_sourcefolder` and leaves each of the three coerced flags that is present as a boolean |
| LegacyContext.LegacyCoercionLeavesRtl | quantecon_book_theme/__init__.py:243-260 | the three listed keys get `_string_or_bool` (the same function as the current package); `theme_enable_rtl` and every other key are untouched |
| LegacyContext.LegacyLogoInto | quantecon_book_theme/__init__.py:211-216 | on the context: the logo URL |
| LegacyContext.LegacyMiddleInto | quantecon_book_theme/__init__.py:194-216 | on the context: title, description, author and logo |
| LegacyContext.LegacyAddToContext | quantecon_book_theme/__init__.py:177-251 | the handler in the source's order, with the source folder computed at line 185: the new context and the exception are those of `LegacyAsWritten` |

## Left out

- Subprocesses, the clock and the file system.
  - Each `git` run is an input: its exit status and standard output, or
    `None` when starting it raised.
  - The time now is an input, in whole seconds.
  - Whether `_pdf` and `_notebooks` exist is an input.
  - `timeout=5` and `TimeoutExpired` are folded into "the run raised".
- `get_git_last_modified` and `get_git_changelog` each run
  `git rev-parse` themselves; the model gives both the same answer.
- `changelog_max_entries` only shapes the `git log` command. It is not
  modelled beyond that command's output.
- `datetime.strftime` and `datetime.isoformat` are parameters (`Dates`).
  Python's range errors for out-of-range timestamps are not modelled.
- `_gen_hash`: SHA-1 and `read_bytes` are a parameter `digest`, `None`
  where the file cannot be read (the `FileNotFoundError`).
- Logging is left out: the warning for a missing asset in
  `hash_assets_for_files`, and the warning `_split_repo_url` logs for a
  URL off GitHub before it returns `None` (`Launch.SplitRepoUrl`).
- `copy_asset`, `ensuredir` and `copy2`, in `add_plugins_list`,
  `add_static_path` and the markdown-notebook copy, are file I/O and are
  left out. So are the `html_static_path` append and the `add_js_file`
  loop of `add_static_path`.
- Plugins.AddPluginsList: the entries of `plugins_list` are taken to be
  strings (the array holds `string`). A non-string entry, for which
  `Path(asset)` and `app.confdir + "/" + asset` raise `TypeError`, is not
  modelled.
- These are BeautifulSoup tree edits and are left out: the template
  helpers `sbt_generate_toctree_html`, `sbt_generate_nav_html` and
  `generate_toc_html`, and their entries in the context.
- `find_url_relative_to_root` depends on `Path.resolve()` against the real
  file system and is left out.
- `setup_pygments_css` generates CSS with Pygments and writes a file, and
  is left out.
- `setup` registering the handlers and `get_html_theme_path` are left out.
- `_is_notebook` is an input (`isNotebook`: the page's metadata has a
  kernel spec).
- `context["pathto"](master_doc)` is an input (`masterUrl`).
- `app.env.get_doctree(master_doc)` is read and never used; it is left out.
- The page's title and its sections' text are inputs. The model does not
  traverse docutils nodes.
- `quantecon_book_theme/launch.py` is not part of this model. It repeats
  the notebook gating and the file copy.
- The JavaScript of the theme is DOM code and is left out.
- Theme options are scalars, and `launch_buttons` is a dictionary of
  scalars that is `{}` when absent. Two configurations cannot be stated.
  One is a `launch_buttons` that is `None` or not a dictionary: `.get` at
  `src/quantecon_book_theme/launch.py` line 57 would raise
  `AttributeError`, and `not launch_buttons` at line 133 would return
  early. The other is an option
  whose value is a list or a dictionary.
- `None` configuration values that the code turns into strings with
  `.get(key, "")` are modelled as written (`None` is kept). Unset Sphinx
  settings such as `html_baseurl` and `html_logo` are `""`.
- Sphinx's two asset classes are told apart by the file's extension to
  name their type in a `TypeError`.
- `Lower` folds ASCII letters only. That is exact for the comparisons
  with `"true"` and `"false"` the code makes.
- Launch.LinksFor: its own contract states only which parts the links
  carry; what it builds is stated by `Launch.LinksForOk` and
  `Launch.CanonicalLinks`.
- ThemeContext.EditContext: its own contract states only that a raising
  run writes nothing; its results are stated by
  `ThemeContext.EditContextOf`, `ThemeContext.EditContextDisabled` and
  `ThemeContext.EditContextOneSegment`.

## Code and tests

`tests/test_build.py:549-550` expects the Colab link of
`https://github.com/TestOrg/test-notebooks` with `path_to_docs = "lectures"`
to hold no `lectures/`. `src/quantecon_book_theme/launch.py:75-78`, as
written, puts `path_to_docs` into that link. The model follows the code.
`Launch.CanonicalLinks` states the link with the docs folder in it.

## Findings

| source | as written | input that shows it | evidently intended | confidence | as-written member | corrected member |
|---|---|---|---|---|---|---|
| src/quantecon_book_theme/launch.py:46 | `repo_url.replace("/" + repo_subpath, "")` removes every occurrence of `/subpath` | `https://github.com/org/lectures-site/lectures`: the sub-path is `lectures` and the root becomes `https://github.com/org-site` | remove only the trailing `/subpath`, giving `https://github.com/org/lectures-site` | high that the code does this, medium that it is unintended; not executed | Launch.RepoRootAsWrittenStripsTooMuch | Launch.RepoRootKeepsRepoSegment |
| quantecon_book_theme/__init__.py:185 | `github_sourcefolder` is computed before the edit context (lines 220-241) writes `github_repo` and `github_version`. When nothing before line 185 puts `github_repo` into the context, it is `""` | `repository_url = https://github.com/org/repo`, source directory `/work/repo/docs`; nothing earlier sets `github_repo`: neither `html_context` nor a handler that runs before this one, such as one of `sphinx_book_theme` (loaded at line 265 before this handler is connected at line 271) | compute it after the edit context, as the current package does at `src/quantecon_book_theme/__init__.py:424`, giving `/tree/master/docs` | medium; not executed | LegacyContext.LegacyAsWrittenEmptyFolder | LegacyContext.LegacyFolderAfterEdit |

Both handlers follow the code as written. `Launch.AddHubUrls` takes the
root with `Launch.RepoRootAsWritten`, and `Launch.RepoRootAsWrittenAgrees`
shows it is the corrected `Launch.RepoRoot` whenever `"/" + subpath` occurs
only at the URL's end. `LegacyContext.LegacyAddToContext` computes the
source folder at line 185, as `LegacyContext.LegacyAsWritten` does;
`LegacyContext.LegacySpec` and `LegacyContext.LegacyFolderAfterEdit` are
the corrected order.

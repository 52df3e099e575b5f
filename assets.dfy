/**
 * Cache busting for the theme's own static assets: every page's link to
 * the theme's JavaScript and CSS gets a `?digest=<sha1>` suffix, so that a
 * browser fetches the file again when its contents change.
 *
 * The page context holds the links Sphinx will emit under `css_files` and
 * `script_files`; each entry is an asset object with a `filename`. The
 * SHA-1 of a file is a parameter (`digest`), `None` where the file cannot
 * be read.
 */
module Assets {
  import opened Options
  import opened Strings
  import opened PyValues

  /** Where the theme's JavaScript and CSS files are linked from. */
  const ThemeScript := "scripts/quantecon-book-theme.js"
  const ThemeStyle := "styles/quantecon-book-theme.css"
  const ThemeName := "quantecon_book_theme"

  /** The context key that lists links of the asset's kind. */
  function AssetKey(asset: string): (key: string)
    ensures key == "css_files" <==> EndsWith(asset, ".css")
    ensures key == "css_files" || key == "script_files"
  {
    if EndsWith(asset, ".css") then "css_files" else "script_files"
  }

  /** The link Sphinx gives a file of the theme's static folder. */
  function Link(asset: string): string {
    "_static/" + asset
  }

  /** The link with the digest that replaces it. */
  function Stamped(asset: string, hash: string): string {
    Link(asset) + "?digest=" + hash
  }

  /**
   * An entry links `link`: it has a `filename` attribute and that is the
   * link. Plain strings, among them entries stamped earlier, have none.
   */
  predicate Links(v: Value, link: string) {
    v.Asset? && v.filename == link
  }

  /** Iterating over these raises `TypeError`; everything else can be iterated. */
  predicate NotIterable(v: Value) {
    v.Nil? || v.Bool? || v.Int? || v.Time?
  }

  /** The position of the first entry that links `link`. */
  function FirstMatch(items: seq<Value>, link: string): (r: Option<nat>)
    ensures r.Some? ==> r.value < |items| && Links(items[r.value], link)
    ensures r.Some? ==> forall k :: 0 <= k < r.value ==> !Links(items[k], link)
    ensures r.None? <==> forall k :: 0 <= k < |items| ==> !Links(items[k], link)
    decreases |items|
  {
    if items == [] then None
    else if Links(items[0], link) then Some(0)
    else match FirstMatch(items[1..], link)
      case None => None
      case Some(i) => Some(i + 1)
  }

  /**
   * One asset: the first entry of its list that links it becomes the
   * stamped link; a list without such an entry, a missing key, and an
   * iterable value that is not a list are left alone.
   */
  function HashOne(vars: map<string, Value>, asset: string, digest: string -> Option<string>): (r: Result<map<string, Value>>)
    ensures r.Ok? ==> r.value.Keys == vars.Keys
    ensures r.Ok? ==> forall k :: k in vars && k != AssetKey(asset) ==> r.value[k] == vars[k]
  {
    var key := AssetKey(asset);
    if key !in vars then Ok(vars)
    else
      var entries := vars[key];
      if NotIterable(entries) then Err(TypeError("'" + TypeName(entries) + "' object is not iterable"))
      else if !entries.List? then Ok(vars)
      else
        match FirstMatch(entries.items, Link(asset))
        case None => Ok(vars)
        case Some(i) =>
          match digest(asset)
          case None => Err(FileNotFoundError(asset))
          case Some(hash) => Ok(vars[key := List(entries.items[i := Str(Stamped(asset, hash))])])
  }

  /** `hash_assets_for_files`: the assets in order, up to the first exception. */
  function HashAll(vars: map<string, Value>, assets: seq<string>, digest: string -> Option<string>): (o: Outcome)
    ensures o.vars.Keys == vars.Keys
    ensures forall k :: k in vars && k != "css_files" && k != "script_files" ==> o.vars[k] == vars[k]
    decreases |assets|
  {
    if assets == [] then Outcome(vars, None)
    else match HashOne(vars, assets[0], digest)
      case Err(e) => Outcome(vars, Some(e))
      case Ok(next) => HashAll(next, assets[1..], digest)
  }

  /** The assets `hash_html_assets` stamps: the theme's CSS only under the theme's own name. */
  function HtmlAssets(htmlTheme: string): (assets: seq<string>)
    ensures |assets| >= 1 && assets[0] == ThemeScript
    ensures |assets| == 2 <==> htmlTheme == ThemeName
    ensures |assets| == 2 ==> assets[1] == ThemeStyle
    ensures |assets| <= 2
  {
    [ThemeScript] + (if htmlTheme == ThemeName then [ThemeStyle] else [])
  }

  /** The inner loop: the index of the first entry that links `link`. */
  method FindAsset(items: seq<Value>, link: string) returns (index: Option<nat>)
    ensures index == FirstMatch(items, link)
  {
    var i := 0;
    while i < |items|
      invariant 0 <= i <= |items|
      invariant forall k :: 0 <= k < i ==> !Links(items[k], link)
    {
      if items[i].Asset? && items[i].filename == link {
        return Some(i);
      }
      i := i + 1;
    }
    return None;
  }

  /** Stamps one asset in the page context. */
  method HashAsset(ctx: PageContext, asset: string, digest: string -> Option<string>) returns (raised: Option<Error>)
    modifies ctx
    ensures HashOne(old(ctx.vars), asset, digest).Ok? ==> raised == None && ctx.vars == HashOne(old(ctx.vars), asset, digest).value
    ensures HashOne(old(ctx.vars), asset, digest).Err? ==> raised == Some(HashOne(old(ctx.vars), asset, digest).error) && ctx.vars == old(ctx.vars)
  {
    var key := AssetKey(asset);
    if key !in ctx.vars {
      return None;
    }
    var entries := ctx.vars[key];
    if NotIterable(entries) {
      return Some(TypeError("'" + TypeName(entries) + "' object is not iterable"));
    }
    if !entries.List? {
      return None;
    }
    var index := FindAsset(entries.items, Link(asset));
    if index.Some? {
      var hash := digest(asset);
      if hash.None? {
        return Some(FileNotFoundError(asset));
      }
      ctx.vars := ctx.vars[key := List(entries.items[index.value := Str(Stamped(asset, hash.value))])];
    }
    return None;
  }

  /** `hash_assets_for_files` on the page context. */
  method HashAssetsForFiles(ctx: PageContext, assets: seq<string>, digest: string -> Option<string>) returns (raised: Option<Error>)
    modifies ctx
    ensures Outcome(ctx.vars, raised) == HashAll(old(ctx.vars), assets, digest)
  {
    var i := 0;
    while i < |assets|
      invariant 0 <= i <= |assets|
      invariant HashAll(old(ctx.vars), assets, digest) == HashAll(ctx.vars, assets[i..], digest)
    {
      assert assets[i..][1..] == assets[i + 1..];
      raised := HashAsset(ctx, assets[i], digest);
      if raised.Some? {
        return;
      }
      i := i + 1;
    }
    return None;
  }

  /** `hash_html_assets`. */
  method HashHtmlAssets(ctx: PageContext, htmlTheme: string, digest: string -> Option<string>) returns (raised: Option<Error>)
    modifies ctx
    ensures Outcome(ctx.vars, raised) == HashAll(old(ctx.vars), HtmlAssets(htmlTheme), digest)
  {
    var assets := [ThemeScript];
    if htmlTheme == ThemeName {
      assets := assets + [ThemeStyle];
    }
    raised := HashAssetsForFiles(ctx, assets, digest);
  }

  // ---------------------------------------------------------------------------
  // What stamping one asset does
  // ---------------------------------------------------------------------------

  /** Stamping raises exactly when the asset's entry cannot be iterated, or the matched file cannot be read. */
  lemma HashOneFails(vars: map<string, Value>, asset: string, digest: string -> Option<string>)
    ensures HashOne(vars, asset, digest).Err? <==>
      AssetKey(asset) in vars &&
      (NotIterable(vars[AssetKey(asset)]) ||
       (vars[AssetKey(asset)].List? && FirstMatch(vars[AssetKey(asset)].items, Link(asset)).Some? && digest(asset).None?))
  {
  }

  /** Without a matching entry in its list, an asset leaves the context as it is (or raises). */
  lemma HashOneWithoutMatch(vars: map<string, Value>, asset: string, digest: string -> Option<string>)
    requires AssetKey(asset) !in vars ||
      (vars[AssetKey(asset)].List? && forall k :: 0 <= k < |vars[AssetKey(asset)].items| ==> !Links(vars[AssetKey(asset)].items[k], Link(asset)))
    ensures HashOne(vars, asset, digest) == Ok(vars)
  {
  }

  /**
   * The asset's list holds a list whose first entry linking the asset is
   * at `i`, and the file can be read: that entry becomes the link with the
   * file's digest. The list keeps its length and every other entry, and
   * every other key of the context keeps its value.
   */
  lemma HashOneStamps(vars: map<string, Value>, asset: string, digest: string -> Option<string>, i: nat, hash: string)
    requires AssetKey(asset) in vars && vars[AssetKey(asset)].List?
    requires FirstMatch(vars[AssetKey(asset)].items, Link(asset)) == Some(i)
    requires digest(asset) == Some(hash)
    ensures var key := AssetKey(asset);
      var items := vars[key].items;
      HashOne(vars, asset, digest).Ok? &&
      var after := HashOne(vars, asset, digest).value;
      && after.Keys == vars.Keys
      && (forall k :: k in vars && k != key ==> after[k] == vars[k])
      && after[key].List? && |after[key].items| == |items|
      && after[key].items[i] == Str(Stamped(asset, hash))
      && (forall k :: 0 <= k < |items| && k != i ==> after[key].items[k] == items[k])
  {
  }

  /**
   * Stamping is idempotent when one entry at most links the asset: the
   * stamped entry is a plain string and no longer matches.
   */
  lemma HashOneIdempotent(vars: map<string, Value>, asset: string, digest: string -> Option<string>)
    requires HashOne(vars, asset, digest).Ok?
    requires AssetKey(asset) in vars && vars[AssetKey(asset)].List? ==>
      forall j, k :: 0 <= j < k < |vars[AssetKey(asset)].items| && Links(vars[AssetKey(asset)].items[j], Link(asset)) ==> !Links(vars[AssetKey(asset)].items[k], Link(asset))
    ensures HashOne(HashOne(vars, asset, digest).value, asset, digest) == HashOne(vars, asset, digest)
  {
    var key := AssetKey(asset);
    var after := HashOne(vars, asset, digest).value;
    if after != vars {
      var items := vars[key].items;
      var i := FirstMatch(items, Link(asset)).value;
      HashOneStamps(vars, asset, digest, i, digest(asset).value);
      assert forall k :: 0 <= k < |after[key].items| ==> !Links(after[key].items[k], Link(asset)) by {
        forall k | 0 <= k < |after[key].items|
          ensures !Links(after[key].items[k], Link(asset))
        {
          if k != i {
            assert after[key].items[k] == items[k];
            if k > i {
              assert !Links(items[k], Link(asset));
            }
          }
        }
      }
      HashOneWithoutMatch(after, asset, digest);
    }
  }

  /**
   * With two entries that link the same asset, running the stamping a
   * second time rewrites the second one: the pass is idempotent only for
   * lists without duplicates.
   */
  lemma HashOneDuplicates(asset: string, hash: string, digest: string -> Option<string>)
    requires digest(asset) == Some(hash)
    ensures var key := AssetKey(asset);
      var vars := map[key := List([Asset(Link(asset)), Asset(Link(asset))])];
      HashOne(vars, asset, digest) == Ok(map[key := List([Str(Stamped(asset, hash)), Asset(Link(asset))])]) &&
      HashOne(HashOne(vars, asset, digest).value, asset, digest) == Ok(map[key := List([Str(Stamped(asset, hash)), Str(Stamped(asset, hash))])])
  {
    var key := AssetKey(asset);
    var twice := [Asset(Link(asset)), Asset(Link(asset))];
    var once := [Str(Stamped(asset, hash)), Asset(Link(asset))];
    var vars := map[key := List(twice)];
    assert FirstMatch(twice, Link(asset)) == Some(0);
    assert twice[0 := Str(Stamped(asset, hash))] == once;
    assert vars[key := List(once)] == map[key := List(once)];
    assert HashOne(vars, asset, digest) == Ok(map[key := List(once)]);
    assert FirstMatch(once, Link(asset)) == Some(1) by {
      assert !Links(once[0], Link(asset));
    }
    var both := [Str(Stamped(asset, hash)), Str(Stamped(asset, hash))];
    assert once[1 := Str(Stamped(asset, hash))] == both;
    assert map[key := List(once)][key := List(both)] == map[key := List(both)];
    assert HashOne(map[key := List(once)], asset, digest) == Ok(map[key := List(both)]);
  }

  // ---------------------------------------------------------------------------
  // The whole pass
  // ---------------------------------------------------------------------------

  /** A context without either list is left exactly as it is. */
  lemma {:induction false} HashAllWithoutLists(vars: map<string, Value>, assets: seq<string>, digest: string -> Option<string>)
    requires "css_files" !in vars && "script_files" !in vars
    ensures HashAll(vars, assets, digest) == Outcome(vars, None)
    decreases |assets|
  {
    if assets != [] {
      HashAllWithoutLists(vars, assets[1..], digest);
    }
  }
}

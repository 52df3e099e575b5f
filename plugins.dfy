/**
 * The `plugins_list` theme option: every listed file is copied into the
 * build's `plugins` folder, and its entry in the option is rewritten in
 * place to the link of the copy, `plugins/<file name>`. The copying itself
 * is file I/O and is not modelled.
 */
module Plugins {
  import opened Strings

  /** A path component that names nothing: the empty one (from `//` or a trailing `/`) and `.`. */
  predicate Blank(part: string) {
    part == "" || part == "."
  }

  /** The last component that is not blank, or "" when there is none. */
  function LastName(parts: seq<string>): (name: string)
    ensures !Blank(name) || name == ""
    decreases |parts|
  {
    if parts == [] then ""
    else if Blank(Last(parts)) then LastName(parts[..|parts| - 1])
    else Last(parts)
  }

  /**
   * The name is "" exactly when every component is blank; otherwise it is
   * a component followed by blank ones only.
   */
  lemma {:induction false} LastNameIs(parts: seq<string>)
    ensures LastName(parts) == "" <==> forall k :: 0 <= k < |parts| ==> Blank(parts[k])
    ensures LastName(parts) != "" ==> exists k :: 0 <= k < |parts| && parts[k] == LastName(parts) &&
                                        (forall j :: k < j < |parts| ==> Blank(parts[j]))
    decreases |parts|
  {
    if parts != [] {
      var n := |parts| - 1;
      var init := parts[..n];
      if Blank(parts[n]) {
        LastNameIs(init);
        assert LastName(parts) == LastName(init);
        assert forall k :: 0 <= k < n ==> parts[k] == init[k];
        if LastName(init) != "" {
          var k :| 0 <= k < |init| && init[k] == LastName(init) && (forall j :: k < j < |init| ==> Blank(init[j]));
          assert forall j :: k < j < |parts| ==> Blank(parts[j]);
        }
      } else {
        assert LastName(parts) == parts[n];
        assert !Blank(parts[n]);
      }
    }
  }

  /** `pathlib.Path(p).name` for a POSIX path. */
  function PathName(p: string): string {
    LastName(Split(p, "/"))
  }

  /** The link the option holds once the file is copied. */
  function PluginLink(asset: string): string {
    "plugins/" + PathName(asset)
  }

  /** A file name holds no `/`. */
  lemma PathNameNoSlash(p: string)
    ensures '/' !in PathName(p)
  {
    var parts := Split(p, "/");
    var name := PathName(p);
    if name != "" {
      LastNameIs(parts);
      SplitPiecesFree(p, "/");
      var k :| 0 <= k < |parts| && parts[k] == name;
      ContainsChar(parts[k], '/');
    }
  }

  /** The name of a path built from components is its last component, when that one is not blank. */
  lemma PathNameOfComponents(parts: seq<string>)
    requires |parts| >= 1
    requires forall k :: 0 <= k < |parts| ==> '/' !in parts[k]
    requires !Blank(Last(parts))
    ensures PathName(Join("/", parts)) == Last(parts)
  {
    SplitJoinChar(parts, '/');
  }

  /** A name without `/` is its own name, and a blank one has none. */
  lemma PathNameOfName(name: string)
    requires '/' !in name
    ensures PathName(name) == (if Blank(name) then "" else name)
  {
    FindCharNone(name, '/');
    assert Split(name, "/") == [name];
    assert Last([name]) == name && [name][..0] == [];
    assert LastName([name]) == (if Blank(name) then LastName([]) else name);
  }

  /** Trailing slashes and `/.` components do not change the name. */
  lemma PathNameIgnoresBlankTail(p: string)
    ensures PathName(p + "/") == PathName(p)
    ensures PathName(p + "/.") == PathName(p)
  {
    PathNameTail(p, "");
    assert p + "/" + "" == p + "/";
    PathNameTail(p, ".");
    assert p + "/" + "." == p + "/.";
  }

  /** Splitting `p + "/" + tail` for a tail without `/` appends that tail to the pieces of `p`. */
  lemma {:induction false} SplitAppendName(p: string, tail: string)
    requires '/' !in tail
    ensures Split(p + "/" + tail, "/") == Split(p, "/") + [tail]
    decreases |p|
  {
    FindCharNone(tail, '/');
    if '/' !in p {
      FindCharNone(p, '/');
      SplitCharCons(p, '/', tail);
    } else {
      var a, rest := FirstSlash(p);
      assert Split(p, "/") == [a] + Split(rest, "/") by {
        SplitCharCons(a, '/', rest);
      }
      assert p + "/" + tail == a + ['/'] + (rest + "/" + tail);
      calc {
        Split(p + "/" + tail, "/");
        { SplitCharCons(a, '/', rest + "/" + tail); }
        [a] + Split(rest + "/" + tail, "/");
        { SplitAppendName(rest, tail); }
        [a] + (Split(rest, "/") + [tail]);
        ([a] + Split(rest, "/")) + [tail];
      }
    }
  }

  /** A path holding a `/` is a slash-free first component, a `/` and the rest. */
  lemma FirstSlash(p: string) returns (a: string, rest: string)
    requires '/' in p
    ensures '/' !in a && p == a + ['/'] + rest
  {
    assert Find(p, "/").Some? by {
      FindFirst(p, "/");
      ContainsChar(p, '/');
    }
    var i := Find(p, "/").value;
    a := p[..i];
    rest := p[i + 1..];
    assert '/' !in a by {
      BeforeFirstIsFree(p, "/", i);
      ContainsChar(a, '/');
    }
    CharOccursAt(p, '/', i);
  }

  /** Appending a blank component keeps the name. */
  lemma PathNameTail(p: string, tail: string)
    requires Blank(tail)
    ensures PathName(p + "/" + tail) == PathName(p)
  {
    SplitAppendName(p, tail);
    var parts := Split(p, "/") + [tail];
    assert parts[..|parts| - 1] == Split(p, "/");
  }

  /**
   * Rewriting an entry a second time changes nothing, as long as the first
   * rewrite found a name: the new entry's name is the copied file's.
   */
  lemma PluginLinkStable(asset: string)
    requires PathName(asset) != ""
    ensures PluginLink(PluginLink(asset)) == PluginLink(asset)
  {
    var name := PathName(asset);
    PathNameNoSlash(asset);
    PathNameOfComponents(["plugins", name]);
    assert Join("/", ["plugins", name]) == "plugins/" + name by {
      JoinCons("/", "plugins", [name]);
    }
  }

  /** `add_plugins_list`: every entry of the option becomes the link of its copy, in place. */
  method AddPluginsList(plugins: array<string>)
    modifies plugins
    ensures forall i :: 0 <= i < plugins.Length ==> plugins[i] == PluginLink(old(plugins[i]))
  {
    var i := 0;
    while i < plugins.Length
      invariant 0 <= i <= plugins.Length
      invariant forall k :: 0 <= k < i ==> plugins[k] == PluginLink(old(plugins[k]))
      invariant forall k :: i <= k < plugins.Length ==> plugins[k] == old(plugins[k])
    {
      plugins[i] := "plugins/" + PathName(plugins[i]);
      i := i + 1;
    }
  }
}

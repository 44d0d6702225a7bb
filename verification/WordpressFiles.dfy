/** Which plugin or theme a WordPress file belongs to, with a cache: agent/fw_wordpress.c. */
module WordpressFiles {
  import opened CStrings
  import opened Options

  // ------------------------------------------------------------------------
  // Matchers: directories, normalised, in the order in which they were added.
  // ------------------------------------------------------------------------

  type Matcher = seq<string>

  function TrimSlashes(s: string): (r: string)
    ensures r <= s
    ensures r == "" || r[|r| - 1] != '/'
  {
    if s != "" && s[|s| - 1] == '/' then TrimSlashes(s[..|s| - 1]) else s
  }

  /** The form in which a directory is kept: lower case, one slash at its end. */
  function Prefix(dir: string): string {
    LowerAll(TrimSlashes(dir)) + "/"
  }

  function LastSlash(s: string): (i: int)
    ensures -1 <= i < |s|
    ensures i >= 0 ==> s[i] == '/'
    ensures forall j :: i < j < |s| ==> s[j] != '/'
  {
    if s == "" then -1 else if s[|s| - 1] == '/' then |s| - 1 else LastSlash(s[..|s| - 1])
  }

  /** What the first prefix that occurs leaves of the input: the next path component, or, for core
      files, the last one. The input is searched as it is, not in lower case. */
  function Match(m: Matcher, input: string, core: bool): Option<string> {
    if m == [] then None
    else
      var at := IndexOf(input, m[0]);
      if at < 0 then Match(m[1..], input, core)
      else
        var rest := input[at + |m[0]|..];
        if core then Some(rest[LastSlash(rest) + 1..])
        else
          var slash := IndexOfChar(rest, '/');
          Some(if slash < 0 then rest else rest[..slash])
  }

  const PHP := ".php"

  function StripPhp(name: Option<string>): Option<string> {
    if name.Some? && |name.value| >= |PHP| && LowerAll(name.value[|name.value| - |PHP|..]) == PHP then
      Some(name.value[..|name.value| - |PHP|])
    else name
  }

  // ------------------------------------------------------------------------
  // The site: what PHP answers when the matchers are built.
  // ------------------------------------------------------------------------

  datatype Roots = OneRoot(path: string) | ManyRoots(paths: seq<Option<string>>) | NoRoots

  datatype Site = Site(wpInc: Option<string>, pluginDir: Option<string>, contentDir: Option<string>, themeRoots: Roots)

  function CoreMatcher(site: Site): Matcher {
    [Prefix(if site.wpInc.Some? then site.wpInc.value else "/wp-includes")]
  }

  function PluginMatcher(site: Site): Matcher {
    if site.pluginDir.Some? then [Prefix(site.pluginDir.value)]
    else if site.contentDir.Some? then [Prefix(site.contentDir.value + "/plugins")]
    else [Prefix("/wp-content/plugins")]
  }

  function PathPrefixes(paths: seq<Option<string>>): Matcher {
    if paths == [] then []
    else PathPrefixes(paths[..|paths| - 1])
         + (var last := paths[|paths| - 1]; if last.Some? then [Prefix(last.value)] else [])
  }

  function ThemeMatcher(site: Site): Matcher {
    match site.themeRoots
    case OneRoot(path) => [Prefix(path)]
    case ManyRoots(paths) => if paths != [] then PathPrefixes(paths) else [Prefix("/wp-content/themes")]
    case NoRoots => [Prefix("/wp-content/themes")]
  }

  /** The rule without a cache: plugin, else theme, else nothing, core file or not. */
  function Owner(site: Site, filename: string): Option<string> {
    var plugin := StripPhp(Match(PluginMatcher(site), filename, false));
    if plugin.Some? then plugin else StripPhp(Match(ThemeMatcher(site), filename, false))
  }

  // ------------------------------------------------------------------------
  // The code.
  // ------------------------------------------------------------------------

  class WordpressFiles {
    const site: Site
    var pluginMatcher: Option<Matcher>
    var themeMatcher: Option<Matcher>
    var coreMatcher: Option<Matcher>
    var cache: Option<map<string, Option<string>>>
    var misses: nat        // lookups that ran the matchers

    constructor (site: Site)
      ensures Valid() && this.site == site && cache == None && misses == 0
    {
      this.site := site;
      pluginMatcher, themeMatcher, coreMatcher, cache, misses := None, None, None, None, 0;
    }

    /** A matcher that has been built is the site's. */
    ghost predicate MatchersValid()
      reads `pluginMatcher, `themeMatcher, `coreMatcher
    {
      && (pluginMatcher.Some? ==> pluginMatcher.value == PluginMatcher(site))
      && (themeMatcher.Some? ==> themeMatcher.value == ThemeMatcher(site))
      && (coreMatcher.Some? ==> coreMatcher.value == CoreMatcher(site))
    }

    ghost function Cached(): map<string, Option<string>>
      reads `cache
    {
      if cache.Some? then cache.value else map[]
    }

    /** A cached answer is the rule's. */
    ghost predicate CacheValid()
      reads `cache
    {
      forall f :: f in Cached() ==> f != "" && Cached()[f] == Owner(site, f)
    }

    ghost predicate Valid()
      reads this
    {
      MatchersValid() && CacheValid()
    }

    method GetPluginMatcher() returns (m: Matcher)
      requires MatchersValid()
      modifies this`pluginMatcher
      ensures MatchersValid() && m == PluginMatcher(site)
    {
      if pluginMatcher == None {
        if site.pluginDir.Some? {
          pluginMatcher := Some([Prefix(site.pluginDir.value)]);
        } else if site.contentDir.Some? {
          pluginMatcher := Some([Prefix(site.contentDir.value + "/plugins")]);
        } else {
          pluginMatcher := Some([Prefix("/wp-content/plugins")]);
        }
      }
      m := pluginMatcher.value;
    }

    method GetThemeMatcher() returns (m: Matcher)
      requires MatchersValid()
      modifies this`themeMatcher
      ensures MatchersValid() && m == ThemeMatcher(site)
    {
      if themeMatcher.Some? {
        return themeMatcher.value;
      }
      m := [];
      if site.themeRoots.OneRoot? {
        m := m + [Prefix(site.themeRoots.path)];
      } else if site.themeRoots.ManyRoots? && site.themeRoots.paths != [] {
        var paths := site.themeRoots.paths;
        for i := 0 to |paths|
          invariant m == PathPrefixes(paths[..i])
        {
          assert paths[..i + 1][..i] == paths[..i];
          if paths[i].Some? {
            m := m + [Prefix(paths[i].value)];
          }
        }
        assert paths[..|paths|] == paths;
      } else {
        m := m + [Prefix("/wp-content/themes")];
      }
      themeMatcher := Some(m);
    }

    method GetCoreMatcher() returns (m: Matcher)
      requires MatchersValid()
      modifies this`coreMatcher
      ensures MatchersValid() && m == CoreMatcher(site)
    {
      if coreMatcher == None {
        coreMatcher := Some([Prefix(if site.wpInc.Some? then site.wpInc.value else "/wp-includes")]);
      }
      m := coreMatcher.value;
    }

    /** Running the matchers in turn, building them when first needed. A core file is recognised
        and then given up again: core is anonymous. */
    method RunMatchers(name: string) returns (plugin: Option<string>)
      requires MatchersValid()
      modifies `pluginMatcher, `themeMatcher, `coreMatcher, `misses
      ensures MatchersValid() && misses == old(misses) + 1 && plugin == Owner(site, name)
    {
      misses := misses + 1;
      var m := GetPluginMatcher();
      plugin := StripPhp(Match(m, name, false));
      if plugin.Some? {
        return;
      }
      m := GetThemeMatcher();
      plugin := StripPhp(Match(m, name, false));
      if plugin.Some? {
        return;
      }
      m := GetCoreMatcher();
      plugin := StripPhp(Match(m, name, true));
      plugin := None;
    }

    /** One lookup. The answer is the rule's whether it comes from the cache or not, and a file with
        a name is cached, even when the answer is nothing. */
    method PluginFromFunction(filename: Option<string>) returns (plugin: Option<string>)
      requires Valid()
      modifies this
      ensures Valid()
      ensures plugin == if filename.Some? then Owner(site, filename.value) else None
      ensures var known := filename == None || filename.value in old(Cached());
              && misses == old(misses) + (if known then 0 else 1)
              && Cached() == (if known || filename.value == "" then old(Cached())
                              else old(Cached())[filename.value := plugin])
    {
      if filename == None {
        return None;
      }
      var name := filename.value;
      if cache.Some? {
        if name in cache.value {
          return cache.value[name];
        }
      } else {
        cache := Some(map[]);
      }
      plugin := RunMatchers(name);
      if name != "" {
        cache := Some(cache.value[name := plugin]);
      }
    }

    method LookupEach(filenames: seq<string>) returns (answers: seq<Option<string>>)
      requires Valid() && Cached() == map[] && misses == 0
      modifies this
      ensures Valid() && answers == Owners(site, filenames)
      ensures Cached().Keys == Names(filenames) && misses == |Names(filenames)| + Nameless(filenames)
      decreases |filenames|
    {
      if filenames == [] {
        return [];
      }
      var n := |filenames| - 1;
      answers := LookupEach(filenames[..n]);
      var plugin := PluginFromFunction(Some(filenames[n]));
      answers := answers + [plugin];
      OneMore(filenames, n);
      assert filenames[..n + 1] == filenames;
    }
  }

  function Names(filenames: seq<string>): set<string> {
    set f | f in filenames && f != ""
  }

  function Nameless(filenames: seq<string>): nat {
    if filenames == [] then 0
    else Nameless(filenames[..|filenames| - 1]) + if filenames[|filenames| - 1] == "" then 1 else 0
  }

  lemma OneMoreName(filenames: seq<string>, i: nat)
    requires i < |filenames|
    ensures var f := filenames[i];
            Names(filenames[..i + 1]) == Names(filenames[..i]) + (if f == "" then {} else {f})
  {
    assert filenames[..i + 1] == filenames[..i] + [filenames[i]];
  }

  lemma OneMore(filenames: seq<string>, i: nat)
    requires i < |filenames|
    ensures var f := filenames[i];
            && Names(filenames[..i + 1]) == Names(filenames[..i]) + (if f == "" then {} else {f})
            && |Names(filenames[..i + 1])|
               == |Names(filenames[..i])| + (if f == "" || f in Names(filenames[..i]) then 0 else 1)
            && Nameless(filenames[..i + 1]) == Nameless(filenames[..i]) + if f == "" then 1 else 0
  {
    var f, names := filenames[i], Names(filenames[..i]);
    OneMoreName(filenames, i);
    assert f in names ==> names + {f} == names;
    assert filenames[..i + 1][..i] == filenames[..i];
  }

  function Owners(site: Site, filenames: seq<string>): (owners: seq<Option<string>>)
    ensures |owners| == |filenames|
  {
    if filenames == [] then []
    else Owners(site, filenames[..|filenames| - 1]) + [Owner(site, filenames[|filenames| - 1])]
  }

  /** Any sequence of lookups is answered by the rule, and runs the matchers once for each file
      that has a name, however often it comes up. */
  method LookupAll(site: Site, filenames: seq<string>) returns (answers: seq<Option<string>>, misses: nat)
    ensures answers == Owners(site, filenames)
    ensures misses == |Names(filenames)| + Nameless(filenames)
  {
    var files := new WordpressFiles(site);
    answers := files.LookupEach(filenames);
    misses := files.misses;
  }

  // ------------------------------------------------------------------------
  // What the matcher says about files in a directory, and the rule about files of plugins.
  // ------------------------------------------------------------------------

  function FirstComponent(s: string): string {
    var slash := IndexOfChar(s, '/');
    if slash < 0 then s else s[..slash]
  }

  predicate OccursLater(s: string, pattern: string) {
    exists i :: 0 < i <= |s| && OccursAt(s, pattern, i)
  }

  /** The component behind the first occurrence of a prefix, if there is one. */
  function Behind(prefix: string, input: string): Option<string> {
    var at := IndexOf(input, prefix);
    if at < 0 then None else Some(FirstComponent(input[at + |prefix|..]))
  }

  lemma MatchOne(prefix: string, input: string)
    ensures Match([prefix], input, false) == Behind(prefix, input)
  {
  }

  lemma FirstPlace(s: string, pattern: string)
    ensures IndexOf(s, pattern) == 0 <==> OccursAt(s, pattern, 0)
    ensures IndexOf(s, pattern) < 0 <==> !OccursAt(s, pattern, 0) && !OccursLater(s, pattern)
  {
  }

  /** A directory d, kept as prefix, and a path below it. */
  lemma Below(d: string, prefix: string, tail: string)
    requires |prefix| == |d| + 1
    ensures var path := d + "/" + tail;
            Match([prefix], path, false) ==
            if prefix == d + "/" then Some(FirstComponent(tail))
            else if OccursLater(path, prefix) then Behind(prefix, path)
            else None
  {
    var path := d + "/" + tail;
    assert path[0..0 + |prefix|] == d + "/" && path[0 + |prefix|..] == tail;
    FirstPlace(path, prefix);
    MatchOne(prefix, path);
  }

  lemma LowerCasePrefix(dir: string)
    ensures |Prefix(dir)| == |TrimSlashes(dir)| + 1
    ensures Prefix(dir) == TrimSlashes(dir) + "/" <==> LowerAll(TrimSlashes(dir)) == TrimSlashes(dir)
  {
    var d := TrimSlashes(dir);
    assert (LowerAll(d) + "/")[..|d|] == LowerAll(d) && (d + "/")[..|d|] == d;
  }

  /** What the matcher answers about any path below its directory. In lower case, that is the next
      component of the path. Otherwise it is nothing, unless the directory in lower case occurs
      further on in the path: then it is the component behind that. */
  lemma PathBelow(dir: string, tail: string)
    ensures var path := TrimSlashes(dir) + "/" + tail;
            Match([Prefix(dir)], path, false) ==
            if LowerAll(TrimSlashes(dir)) == TrimSlashes(dir) then Some(FirstComponent(tail))
            else if OccursLater(path, Prefix(dir)) then Behind(Prefix(dir), path)
            else None
  {
    LowerCasePrefix(dir);
    Below(TrimSlashes(dir), Prefix(dir), tail);
  }

  /** Nothing of a directory's lower-case form is left in this path. */
  lemma NotInUpperCase(dir: string)
    requires LowerAll(TrimSlashes(dir)) != TrimSlashes(dir)
    ensures !OccursLater(TrimSlashes(dir) + "/" + "P/", Prefix(dir))
  {
    var d, prefix := TrimSlashes(dir), Prefix(dir);
    var path := d + "/" + "P/";
    assert path[|d| + 1] == 'P' && forall k :: 0 <= k < |prefix| ==> prefix[k] != 'P';
    forall i | 0 < i <= |path|
      ensures !OccursAt(path, prefix, i)
    {
      if OccursAt(path, prefix, i) {
        OccursByte(path, prefix, i, |d| + 1 - i);
      }
    }
  }

  /** Every path below a directory is given to its next component if and only if the directory, as
      the site spells it, has no upper-case letter. */
  lemma AllPathsFound(dir: string)
    ensures (forall tail :: Match([Prefix(dir)], TrimSlashes(dir) + "/" + tail, false) == Some(FirstComponent(tail)))
            <==> LowerAll(TrimSlashes(dir)) == TrimSlashes(dir)
  {
    forall tail | LowerAll(TrimSlashes(dir)) == TrimSlashes(dir)
      ensures Match([Prefix(dir)], TrimSlashes(dir) + "/" + tail, false) == Some(FirstComponent(tail))
    {
      PathBelow(dir, tail);
    }
    if LowerAll(TrimSlashes(dir)) != TrimSlashes(dir) {
      PathBelow(dir, "P/");
      NotInUpperCase(dir);
      assert Match([Prefix(dir)], TrimSlashes(dir) + "/" + "P/", false) == None;
    }
  }

  /** The same for the file of a plugin: it is found in a lower-case directory, and missed in
      another one whose lower-case form does not occur further on. */
  lemma PluginFileFound(dir: string, plugin: string, rest: string)
    requires '/' !in plugin
    ensures var path := TrimSlashes(dir) + "/" + (plugin + "/" + rest);
            && (LowerAll(TrimSlashes(dir)) == TrimSlashes(dir) ==> Match([Prefix(dir)], path, false) == Some(plugin))
            && (LowerAll(TrimSlashes(dir)) != TrimSlashes(dir) && !OccursLater(path, Prefix(dir)) ==>
                  Match([Prefix(dir)], path, false) == None)
  {
    var tail := plugin + "/" + rest;
    PathBelow(dir, tail);
    assert tail[..|plugin|] == plugin;
    IndexOfCharIs(tail, '/', |plugin|);
  }

  /** The directory of a site's plugins. */
  function PluginDir(site: Site): string {
    if site.pluginDir.Some? then site.pluginDir.value
    else if site.contentDir.Some? then site.contentDir.value + "/plugins"
    else "/wp-content/plugins"
  }

  lemma OwnerIs(site: Site, path: string)
    ensures Owner(site, path) ==
            var m := Match([Prefix(PluginDir(site))], path, false);
            StripPhp(if m.Some? then m else Match(ThemeMatcher(site), path, false))
  {
    assert PluginMatcher(site) == [Prefix(PluginDir(site))];
  }

  /** The rule, about any path below the plugin directory: the plugin's if the directory has no
      upper-case letter; otherwise that of a later occurrence, if there is one, and else whatever
      the themes say. */
  lemma OwnerBelow(site: Site, tail: string)
    ensures var dir := PluginDir(site);
            var path := TrimSlashes(dir) + "/" + tail;
            Owner(site, path) ==
            if LowerAll(TrimSlashes(dir)) == TrimSlashes(dir) then StripPhp(Some(FirstComponent(tail)))
            else if OccursLater(path, Prefix(dir)) then StripPhp(Behind(Prefix(dir), path))
            else StripPhp(Match(ThemeMatcher(site), path, false))
  {
    var path := TrimSlashes(PluginDir(site)) + "/" + tail;
    PathBelow(PluginDir(site), tail);
    FirstPlace(path, Prefix(PluginDir(site)));
    OwnerIs(site, TrimSlashes(PluginDir(site)) + "/" + tail);
  }

  /** A file that is missed: wherever the plugin directory has an upper-case letter and the themes
      are elsewhere, plugin P's belong to nothing. */
  lemma PluginMissed(site: Site)
    requires LowerAll(TrimSlashes(PluginDir(site))) != TrimSlashes(PluginDir(site))
    requires Match(ThemeMatcher(site), TrimSlashes(PluginDir(site)) + "/" + "P/", false) == None
    ensures Owner(site, TrimSlashes(PluginDir(site)) + "/" + "P/") == None
  {
    OwnerBelow(site, "P/");
    NotInUpperCase(PluginDir(site));
  }

  lemma FirstLowerCase(path: string)
    requires path == "/A/p/a/b/c"
    ensures IndexOf(path, "/a/") == 4 && path[7..] == "b/c"
  {
    assert path[4..7] == "/a/" && OccursAt(path, "/a/", 4);
    var at := IndexOf(path, "/a/");
    OccursByte(path, "/a/", at, 0);
    OccursByte(path, "/a/", at, 1);
  }

  /** A file that is given to the wrong plugin: p's, to b. */
  lemma PluginMistaken(content: Option<string>, themes: Roots)
    ensures Owner(Site(None, Some("/A"), content, themes), "/A/p/a/b/c") == Some("b")
  {
    var path := "/A/p/a/b/c";
    FirstLowerCase(path);
    assert Prefix("/A") == "/a/" by {
      assert TrimSlashes("/A") == "/A" && LowerAll("/A") == "/a";
    }
    MatchOne("/a/", path);
    assert FirstComponent("b/c") == "b" by {
      IndexOfCharIs("b/c", '/', 1);
    }
  }

  // ------------------------------------------------------------------------
  // The answers spelled out.
  // ------------------------------------------------------------------------

  /** ".php", in whatever case. */
  predicate IsPhp(s: string) {
    && |s| == 4 && s[0] == '.' && (s[1] == 'p' || s[1] == 'P') && (s[2] == 'h' || s[2] == 'H')
    && (s[3] == 'p' || s[3] == 'P')
  }

  lemma PhpInAnyCase(s: string)
    ensures LowerAll(s) == PHP <==> IsPhp(s)
  {
    if IsPhp(s) {
      assert LowerAll(s) == PHP;
    }
    if LowerAll(s) == PHP {
      assert forall i :: 0 <= i < 4 ==> Lower(s[i]) == PHP[i];
    }
  }

  /** ".php" is taken off the end of a name, once, and nothing else is. */
  lemma StripExactly(name: string, php: string)
    ensures IsPhp(php) ==> StripPhp(Some(name + php)) == Some(name)
    ensures !(|name| >= 4 && IsPhp(name[|name| - 4..])) ==> StripPhp(Some(name)) == Some(name)
    ensures StripPhp(None) == None
  {
    PhpInAnyCase(php);
    if IsPhp(php) {
      assert (name + php)[|name|..] == php && (name + php)[..|name|] == name;
    }
    if |name| >= 4 {
      PhpInAnyCase(name[|name| - 4..]);
    }
  }

  /** A directory is kept in lower case, with one slash where it has none or several. */
  lemma {:induction false} PrefixExactly(base: string, slashes: string)
    requires (base == "" || base[|base| - 1] != '/') && forall i :: 0 <= i < |slashes| ==> slashes[i] == '/'
    ensures Prefix(base + slashes) == LowerAll(base) + "/"
  {
    if slashes == "" {
      assert base + slashes == base;
    } else {
      assert (base + slashes)[..|base + slashes| - 1] == base + slashes[..|slashes| - 1];
      PrefixExactly(base, slashes[..|slashes| - 1]);
    }
  }

  lemma DefaultDirectory(dir: string)
    requires dir == "/wp-content/plugins" || dir == "/wp-content/themes"
    ensures Prefix(dir) == dir + "/"
  {
    PrefixExactly(dir, "");
    assert dir + "" == dir;
    assert forall c :: c in dir ==> Lower(c) == c;
    assert LowerAll(dir) == dir;
  }

  /** Where plugins are looked for. */
  lemma PluginDirectories(site: Site, path: string)
    ensures PluginMatcher(site.(pluginDir := Some(path))) == [Prefix(path)]
    ensures PluginMatcher(site.(pluginDir := None, contentDir := Some(path))) == [Prefix(path + "/plugins")]
    ensures PluginMatcher(site.(pluginDir := None, contentDir := None)) == ["/wp-content/plugins/"]
  {
    DefaultDirectory("/wp-content/plugins");
    assert "/wp-content/plugins/" == "/wp-content/plugins" + "/";
  }

  lemma PrefixOfOne(root: Option<string>)
    ensures PathPrefixes([root]) == if root.Some? then [Prefix(root.value)] else []
  {
    assert [root][..0] == [] && PathPrefixes([]) == [];
  }

  /** Where themes are looked for, root by root. */
  lemma ThemeDirectories(site: Site, path: string, a: seq<Option<string>>, b: seq<Option<string>>)
    ensures ThemeMatcher(site.(themeRoots := OneRoot(path))) == [Prefix(path)]
    ensures ThemeMatcher(site.(themeRoots := NoRoots)) == ["/wp-content/themes/"]
    ensures ThemeMatcher(site.(themeRoots := ManyRoots([]))) == ["/wp-content/themes/"]
    ensures a != [] && b != [] ==>
              ThemeMatcher(site.(themeRoots := ManyRoots(a + b)))
              == ThemeMatcher(site.(themeRoots := ManyRoots(a))) + ThemeMatcher(site.(themeRoots := ManyRoots(b)))
    ensures ThemeMatcher(site.(themeRoots := ManyRoots([Some(path)]))) == [Prefix(path)]
    ensures ThemeMatcher(site.(themeRoots := ManyRoots([None]))) == []
  {
    DefaultDirectory("/wp-content/themes");
    PrefixesOfBoth(a, b);
    PrefixOfOne(Some(path));
    PrefixOfOne(None);
    assert "/wp-content/themes/" == "/wp-content/themes" + "/";
  }

  lemma {:induction false} PrefixesOfBoth(a: seq<Option<string>>, b: seq<Option<string>>)
    ensures PathPrefixes(a + b) == PathPrefixes(a) + PathPrefixes(b)
  {
    if b == [] {
      assert a + b == a;
    } else {
      PrefixesOfBoth(a, b[..|b| - 1]);
      assert (a + b)[..|a + b| - 1] == a + b[..|b| - 1];
    }
  }

  /** Where core files are looked for. */
  lemma CoreDirectories(site: Site, path: string)
    ensures CoreMatcher(site.(wpInc := Some(path))) == [Prefix(path)]
    ensures CoreMatcher(site.(wpInc := None)) == ["/wp-includes/"]
  {
    PrefixExactly("/wp-includes", "");
    assert "/wp-includes" + "" == "/wp-includes" && LowerAll("/wp-includes") == "/wp-includes";
    assert "/wp-includes" + "/" == "/wp-includes/";
  }

  /** The first prefix, in the order of the matcher, that occurs in the input at all. */
  predicate Decides(m: Matcher, i: nat, input: string) {
    i < |m| && IndexOf(input, m[i]) >= 0 && forall j :: 0 <= j < i ==> IndexOf(input, m[j]) < 0
  }

  lemma MatchFirst(m: Matcher, input: string, core: bool)
    requires m != []
    ensures Match(m, input, core) == if IndexOf(input, m[0]) < 0 then Match(m[1..], input, core)
                                     else Match([m[0]], input, core)
  {
  }

  lemma {:induction false} FirstPrefixDecides(m: Matcher, i: nat, input: string, core: bool)
    requires Decides(m, i, input)
    ensures Match(m, input, core) == Match([m[i]], input, core)
  {
    MatchFirst(m, input, core);
    if i == 0 {
      assert IndexOf(input, m[0]) >= 0;
    } else {
      assert forall j :: 0 <= j < i - 1 ==> m[1..][j] == m[j + 1];
      FirstPrefixDecides(m[1..], i - 1, input, core);
    }
  }

  /** Nothing matches exactly when no prefix occurs. */
  lemma {:induction false} NoneDecides(m: Matcher, input: string, core: bool)
    ensures Match(m, input, core) == None <==> forall i :: 0 <= i < |m| ==> IndexOf(input, m[i]) < 0
  {
    if m != [] {
      NoneDecides(m[1..], input, core);
      assert forall i :: 1 <= i < |m| ==> m[1..][i - 1] == m[i];
    }
  }

  /** An input in which the deciding prefix first occurs behind before, and is followed by tail. */
  predicate Splits(m: Matcher, i: nat, before: string, tail: string) {
    i < |m| && Decides(m, i, before + m[i] + tail) && IndexOf(before + m[i] + tail, m[i]) == |before|
  }

  lemma BehindPrefix(prefix: string, before: string, tail: string, core: bool)
    requires IndexOf(before + prefix + tail, prefix) == |before|
    ensures Match([prefix], before + prefix + tail, core)
            == Some(if core then tail[LastSlash(tail) + 1..] else FirstComponent(tail))
  {
    assert (before + prefix + tail)[|before| + |prefix|..] == tail;
  }

  lemma ComponentUpTo(name: string, rest: string)
    requires '/' !in name && (rest == "" || rest[0] == '/')
    ensures FirstComponent(name + rest) == name
  {
    if rest == "" {
      assert name + rest == name;
    } else {
      assert (name + rest)[..|name|] == name;
      IndexOfCharIs(name + rest, '/', |name|);
    }
  }

  lemma LastBehind(dirs: string, name: string)
    requires '/' !in name && (dirs == "" || dirs[|dirs| - 1] == '/')
    ensures (dirs + name)[LastSlash(dirs + name) + 1..] == name
  {
    var last := LastSlash(dirs + name);
    assert last < |dirs|;
    assert dirs != "" ==> (dirs + name)[|dirs| - 1] == '/';
    assert last == |dirs| - 1;
  }

  /** What a matcher takes from a path: the component right behind where the deciding prefix first
      occurs. */
  lemma ComponentTaken(m: Matcher, i: nat, before: string, name: string, rest: string)
    requires Splits(m, i, before, name + rest) && '/' !in name && (rest == "" || rest[0] == '/')
    ensures Match(m, before + m[i] + (name + rest), false) == Some(name)
  {
    FirstPrefixDecides(m, i, before + m[i] + (name + rest), false);
    BehindPrefix(m[i], before, name + rest, false);
    ComponentUpTo(name, rest);
  }

  /** Of a core file it takes the last component. */
  lemma FileTaken(m: Matcher, i: nat, before: string, dirs: string, name: string)
    requires Splits(m, i, before, dirs + name) && '/' !in name && (dirs == "" || dirs[|dirs| - 1] == '/')
    ensures Match(m, before + m[i] + (dirs + name), true) == Some(name)
  {
    FirstPrefixDecides(m, i, before + m[i] + (dirs + name), true);
    BehindPrefix(m[i], before, dirs + name, true);
    LastBehind(dirs, name);
  }
}

/**
 * The documentation build's nginx redirect generator: for every page of the
 * latest documentation version that has a permalink, one `rewrite` rule that
 * sends the versioned URL to the unversioned one.
 */
module NginxRedirects {
  import opened Wrappers

  /** True when `t` holds two slashes in a row. */
  predicate HasDoubleSlash(t: string) {
    exists i :: 0 <= i < |t| - 1 && t[i] == '/' && t[i + 1] == '/'
  }

  /** The characters of `s` that are not slashes, in order. */
  function NonSlashes(s: string): string {
    if s == [] then []
    else if s[0] == '/' then NonSlashes(s[1..])
    else [s[0]] + NonSlashes(s[1..])
  }

  /** `n` slashes. */
  function Slashes(n: nat): string {
    seq(n, _ => '/')
  }

  /**
   * `string.replace(/(\/)+/g, '$1')`: every run of one or more slashes becomes a
   * single slash. The first and the last character are kept.
   */
  function DedupeSlashes(s: string): (r: string)
    ensures |r| <= |s|
    ensures |s| > 0 ==> |r| > 0
    decreases |s|
  {
    if |s| <= 1 then s
    else if s[0] == '/' && s[1] == '/' then DedupeSlashes(s[1..])
    else [s[0]] + DedupeSlashes(s[1..])
  }

  /** The first and the last character survive. */
  lemma {:induction false} DedupeKeepsEnds(s: string)
    requires |s| > 0
    ensures var r := DedupeSlashes(s); r[0] == s[0] && r[|r| - 1] == s[|s| - 1]
    decreases |s|
  {
    if |s| > 1 {
      DedupeKeepsEnds(s[1..]);
    }
  }

  /** The output never holds `//`. */
  lemma {:induction false} DedupeHasNoDoubleSlash(s: string)
    ensures !HasDoubleSlash(DedupeSlashes(s))
    decreases |s|
  {
    if |s| > 1 {
      DedupeHasNoDoubleSlash(s[1..]);
      var rest := DedupeSlashes(s[1..]);
      if !(s[0] == '/' && s[1] == '/') {
        var r := [s[0]] + rest;
        assert r == DedupeSlashes(s);
        forall i | 0 <= i < |r| - 1 && r[i] == '/'
          ensures r[i + 1] != '/'
        {
          if i > 0 {
            assert r[i] == rest[i - 1] && r[i + 1] == rest[i];
          }
        }
      }
    }
  }

  /** The non-slash characters come out unchanged and in order. */
  lemma {:induction false} DedupeKeepsNonSlashes(s: string)
    ensures NonSlashes(DedupeSlashes(s)) == NonSlashes(s)
    decreases |s|
  {
    if |s| > 1 {
      DedupeKeepsNonSlashes(s[1..]);
      if !(s[0] == '/' && s[1] == '/') {
        var r := [s[0]] + DedupeSlashes(s[1..]);
        assert r[1..] == DedupeSlashes(s[1..]);
      }
    }
  }

  /** A string without `//` is left as it is. */
  lemma {:induction false} DedupeFixesClean(s: string)
    requires !HasDoubleSlash(s)
    ensures DedupeSlashes(s) == s
    decreases |s|
  {
    if |s| > 1 {
      assert !(s[0] == '/' && s[1] == '/');
      assert !HasDoubleSlash(s[1..]) by {
        forall i | 0 <= i < |s| - 2 && s[1..][i] == '/' ensures s[1..][i + 1] != '/' {
          assert s[i + 1] == '/';
        }
      }
      DedupeFixesClean(s[1..]);
    }
  }

  /** Deduplicating twice is the same as deduplicating once. */
  lemma DedupeIdempotent(s: string)
    ensures DedupeSlashes(DedupeSlashes(s)) == DedupeSlashes(s)
  {
    DedupeHasNoDoubleSlash(s);
    DedupeFixesClean(DedupeSlashes(s));
  }

  /** A run of one or more slashes becomes exactly one slash. */
  lemma {:induction false} DedupeRun(n: nat)
    requires n >= 1
    ensures DedupeSlashes(Slashes(n)) == "/"
  {
    if n > 1 {
      assert Slashes(n)[1..] == Slashes(n - 1);
      DedupeRun(n - 1);
    }
  }

  /**
   * Deduplication works piece by piece across a cut that does not split a run of
   * slashes. With DedupeRun and DedupeFixesClean this determines the output.
   */
  lemma {:induction false} DedupeConcat(x: string, y: string)
    requires x == [] || y == [] || x[|x| - 1] != '/' || y[0] != '/'
    ensures DedupeSlashes(x + y) == DedupeSlashes(x) + DedupeSlashes(y)
    decreases |x|
  {
    if x == [] {
      assert x + y == y;
    } else {
      var c, t := x[0], x[1..];
      SplitHead(x, y);
      if t == [] {
        DedupeKeep(c, y);
        DedupeKeep(c, []);
      } else {
        assert t[|t| - 1] == x[|x| - 1];
        DedupeConcat(t, y);
        DedupeConsStep(c, t, y);
      }
    }
  }

  /** Splitting off the first character. */
  lemma SplitHead(x: string, y: string)
    requires x != []
    ensures x == [x[0]] + x[1..] && x + y == [x[0]] + (x[1..] + y)
  {
  }

  /** The inductive step of DedupeConcat: prefixing one character to the left part. */
  lemma DedupeConsStep(c: char, t: string, y: string)
    requires t != []
    requires DedupeSlashes(t + y) == DedupeSlashes(t) + DedupeSlashes(y)
    ensures DedupeSlashes([c] + (t + y)) == DedupeSlashes([c] + t) + DedupeSlashes(y)
  {
    var w := t + y;
    assert w[0] == t[0];
    if c == '/' && t[0] == '/' {
      DedupeDrop(c, w);
      DedupeDrop(c, t);
    } else {
      DedupeKeep(c, w);
      DedupeKeep(c, t);
      ConsAssoc(c, DedupeSlashes(t), DedupeSlashes(y));
    }
  }

  /** A slash before another slash is dropped. */
  lemma DedupeDrop(c: char, w: string)
    requires w != [] && c == '/' && w[0] == '/'
    ensures DedupeSlashes([c] + w) == DedupeSlashes(w)
  {
    assert ([c] + w)[1..] == w;
  }

  /** Any other character is kept. */
  lemma DedupeKeep(c: char, w: string)
    requires !(w != [] && c == '/' && w[0] == '/')
    ensures DedupeSlashes([c] + w) == [c] + DedupeSlashes(w)
  {
    assert ([c] + w)[1..] == w;
  }

  /** Prefixing a character associates with concatenation. */
  lemma ConsAssoc(c: char, a: string, b: string)
    ensures [c] + (a + b) == ([c] + a) + b
  {
  }

  /** What the documentation build knows about one page. */
  datatype Page = Page(
    currentVersion: Option<string>,
    latestVersion: Option<string>,
    permalink: Option<string>)

  /** JavaScript truthiness of an optional string. */
  predicate Present(v: Option<string>) {
    v.Some? && v.value != ""
  }

  /**
   * The permalink under a prefix, with runs of slashes collapsed: the rule
   * redirects from it under the latest version to it under the site base.
   */
  function VersionedPath(prefix: string, permalink: string): (r: string)
    ensures |r| > 0 && r[0] == '/' && r[|r| - 1] == '/'
  {
    DedupeKeepsEnds("/" + prefix + permalink + "/");
    DedupeSlashes("/" + prefix + permalink + "/")
  }

  /** The rule for a page, when the page calls for one. */
  function RedirectRule(page: Page, base: string): (r: Option<string>)
    ensures r.Some? <==>
      Present(page.latestVersion) && page.currentVersion == page.latestVersion && Present(page.permalink)
  {
    if Present(page.latestVersion) && page.currentVersion == page.latestVersion && Present(page.permalink)
    then
      var from := VersionedPath(page.latestVersion.value, page.permalink.value);
      var to := VersionedPath(base, page.permalink.value);
      Some("rewrite ^" + from + "?$ " + to + " permanent;")
    else None
  }

  /** What handling one page does: whether it logs the missing-version error, and what it appends to the file. */
  datatype PageOutcome = PageOutcome(logsError: bool, appended: Option<string>)

  function ExtendPageData(page: Page, base: string): (o: PageOutcome)
    ensures o.logsError <==> !Present(page.currentVersion) || !Present(page.latestVersion)
    ensures o.appended.Some? <==> RedirectRule(page, base).Some?
  {
    PageOutcome(
      !Present(page.currentVersion) || !Present(page.latestVersion),
      match RedirectRule(page, base)
      case Some(rule) => Some("\n" + rule)
      case None => None)
  }

  /**
   * A page that gets a rule never logs the missing-version error, and its rule
   * is `rewrite ^FROM?$ TO permanent;` with both paths starting and ending in a
   * slash and free of `//`.
   */
  lemma RuleShape(page: Page, base: string)
    requires RedirectRule(page, base).Some?
    ensures !ExtendPageData(page, base).logsError
    ensures
      var from := VersionedPath(page.latestVersion.value, page.permalink.value);
      var to := VersionedPath(base, page.permalink.value);
      && ExtendPageData(page, base).appended == Some("\nrewrite ^" + from + "?$ " + to + " permanent;")
      && !HasDoubleSlash(from) && !HasDoubleSlash(to)
  {
    var from := VersionedPath(page.latestVersion.value, page.permalink.value);
    var to := VersionedPath(base, page.permalink.value);
    assert RedirectRule(page, base) == Some("rewrite ^" + from + "?$ " + to + " permanent;");
    assert "\n" + ("rewrite ^" + from + "?$ " + to + " permanent;") == "\nrewrite ^" + from + "?$ " + to + " permanent;";
    DedupeHasNoDoubleSlash("/" + page.latestVersion.value + page.permalink.value + "/");
    DedupeHasNoDoubleSlash("/" + base + page.permalink.value + "/");
  }
}

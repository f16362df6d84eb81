/** Path strings of the route collector: `normalize` (PHP `'/' . trim($route, '/')`)
    and `prefixy` (absolute routes ignore the current prefix, relative ones get it). */
module Paths {

  /** True when every character of `s` is the path separator. */
  predicate AllSlashes(s: string) {
    forall k :: 0 <= k < |s| ==> s[k] == '/'
  }

  /** Strips every leading '/': the result is the suffix of `s` that starts at its
      first non-'/' character (empty when `s` is made of slashes only). */
  function TrimStart(s: string): (r: string)
    ensures |r| <= |s| && r == s[|s| - |r|..]
    ensures AllSlashes(s[..|s| - |r|])
    ensures r == [] || r[0] != '/'
  {
    if |s| > 0 && s[0] == '/' then TrimStart(s[1..]) else s
  }

  /** Strips every trailing '/': the result is the prefix of `s` that ends at its
      last non-'/' character. */
  function TrimEnd(s: string): (r: string)
    ensures |r| <= |s| && r == s[..|r|]
    ensures AllSlashes(s[|r|..])
    ensures r == [] || r[|r| - 1] != '/'
    ensures |s| > 0 && s[0] != '/' ==> |r| > 0
  {
    if |s| > 0 && s[|s| - 1] == '/' then TrimEnd(s[..|s| - 1]) else s
  }

  /** PHP `trim($s, '/')`: no longer than `s`, empty only when `s` is made of
      slashes, and neither starting nor ending with '/'. Which part of `s` it keeps
      is stated by TrimIsCore below. */
  function Trim(s: string): (t: string)
    ensures |t| <= |s|
    ensures t == [] || (t[0] != '/' && t[|t| - 1] != '/')
    ensures |s| > 0 && s[0] != '/' ==> |t| > 0
  {
    var u := TrimStart(s);
    var t := TrimEnd(u);
    assert t == [] || t[0] != '/' by {
      if t != [] {
        assert t == u[..|t|];
      }
    }
    t
  }

  /** A path in the form `normalize` produces: one leading '/', and neither a second
      leading '/' nor a trailing '/' unless the whole path is "/". */
  predicate Normalized(s: string) {
    |s| >= 1 && s[0] == '/' && (|s| > 1 ==> s[1] != '/' && s[|s| - 1] != '/')
  }

  /** `RouteCollector::normalize`. */
  function Normalize(route: string): (r: string)
    ensures Normalized(r)
  {
    "/" + Trim(route)
  }

  /** `RouteCollector::prefixy`: a route that starts with '/' is absolute and only
      normalized; any other route is appended, normalized, to the current prefix.
      The source reads `$route[0]` unguarded, hence the non-empty route. An
      absolute route gives a normalized path; a relative one keeps the prefix in
      front and adds more than a lone '/' after it, ending in a non-slash. */
  function Prefixy(prefix: string, route: string): (r: string)
    requires |route| > 0
    ensures route[0] == '/' ==> Normalized(r)
    ensures route[0] != '/' ==> |r| > |prefix| + 1 && r[..|prefix|] == prefix && r[|r| - 1] != '/'
  {
    if route[0] == '/' then Normalize(route)
    else
      var n := Normalize(route);
      assert |n| > 1 by {
        NormalizeRelative(route);
      }
      prefix + n
  }

  /** The shape every value of the collector's `$prefix` field has: empty, or
      starting with '/' and not ending with '/' unless it is exactly "/". */
  predicate PathLike(s: string) {
    s == [] || (s[0] == '/' && (s == "/" || s[|s| - 1] != '/'))
  }

  // ---------------------------------------------------------------------------
  // trim

  /** TrimStart cuts exactly the leading run of slashes: if `s[..i]` is all slashes
      and `s[i]` is not one, TrimStart returns `s[i..]`. */
  lemma {:induction false} TrimStartAt(s: string, i: nat)
    requires i <= |s| && AllSlashes(s[..i])
    requires i < |s| ==> s[i] != '/'
    ensures TrimStart(s) == s[i..]
  {
    if i > 0 {
      assert s[..i][0] == s[0];
      assert s[1..][..i - 1] == s[1..i];
      assert forall k :: 0 <= k < i - 1 ==> s[1..i][k] == s[..i][k + 1];
      TrimStartAt(s[1..], i - 1);
      assert s[1..][i - 1..] == s[i..];
    }
  }

  /** TrimEnd cuts exactly the trailing run of slashes: if `s[j..]` is all slashes
      and `s[j - 1]` is not one, TrimEnd returns `s[..j]`. */
  lemma {:induction false} TrimEndAt(s: string, j: nat)
    requires j <= |s| && AllSlashes(s[j..])
    requires j > 0 ==> s[j - 1] != '/'
    ensures TrimEnd(s) == s[..j]
    decreases |s| - j
  {
    if j < |s| {
      var n := |s|;
      assert s[j..][n - 1 - j] == s[n - 1];
      var t := s[..n - 1];
      assert forall k :: 0 <= k < n - 1 - j ==> t[j..][k] == s[j..][k];
      TrimEndAt(t, j);
      assert t[..j] == s[..j];
    }
  }

  /** Trim keeps exactly the part of `s` between its leading and its trailing run of
      slashes: whichever cut `s[i..j]` has only slashes outside it and starts and
      ends with a non-slash (or is empty), Trim returns that cut. */
  lemma TrimIsCore(s: string, i: nat, j: nat)
    requires i <= j <= |s|
    requires AllSlashes(s[..i]) && AllSlashes(s[j..])
    requires i < j ==> s[i] != '/' && s[j - 1] != '/'
    ensures Trim(s) == s[i..j]
  {
    if i < j {
      TrimStartAt(s, i);
      TrimEndOfSuffix(s, i, j);
    } else {
      SlashesOnly(s, i);
      TrimStartAt(s, |s|);
    }
  }

  /** Second half of TrimIsCore: trimming the end of `s[i..]` stops at `j`. */
  lemma TrimEndOfSuffix(s: string, i: nat, j: nat)
    requires i < j <= |s| && AllSlashes(s[j..]) && s[j - 1] != '/'
    ensures TrimEnd(s[i..]) == s[i..j]
  {
    var u := s[i..];
    assert u[j - i..] == s[j..];
    TrimEndAt(u, j - i);
  }

  /** A string that is all slashes before `i` and from `i` on is all slashes. */
  lemma SlashesOnly(s: string, i: nat)
    requires i <= |s| && AllSlashes(s[..i]) && AllSlashes(s[i..])
    ensures AllSlashes(s[..|s|])
  {
    forall k | 0 <= k < |s| ensures s[k] == '/' {
      if k < i {
        assert s[..i][k] == s[k];
      } else {
        assert s[i..][k - i] == s[k];
      }
    }
  }

  // ---------------------------------------------------------------------------
  // normalize

  /** A string is in normalized form exactly when `normalize` leaves it unchanged. */
  lemma NormalizedIffFixed(s: string)
    ensures Normalized(s) <==> Normalize(s) == s
  {
    if Normalized(s) {
      var core := s[1..];
      assert AllSlashes(s[..1]);
      assert AllSlashes(s[|s|..]);
      TrimIsCore(s, 1, |s|);
      assert Normalize(s) == "/" + s[1..|s|] == s;
    }
  }

  /** `normalize` is idempotent. */
  lemma NormalizeIdempotent(route: string)
    ensures Normalize(Normalize(route)) == Normalize(route)
  {
    NormalizedIffFixed(Normalize(route));
  }

  /** `normalize` keeps the characters between the first and the last non-slash
      character of the route unchanged and puts exactly one '/' before them. */
  lemma NormalizeKeepsCore(route: string, i: nat, j: nat)
    requires i <= j <= |route|
    requires AllSlashes(route[..i]) && AllSlashes(route[j..])
    requires i < j ==> route[i] != '/' && route[j - 1] != '/'
    ensures Normalize(route) == "/" + route[i..j]
  {
    TrimIsCore(route, i, j);
  }

  /** "/a/b/", "a/b" and "/a/b" all normalize to "/a/b"; "///" normalizes to "/". */
  lemma NormalizeExamples()
    ensures Normalize("/a/b/") == "/a/b"
    ensures Normalize("a/b") == "/a/b"
    ensures Normalize("/a/b") == "/a/b"
    ensures Normalize("///") == "/"
  {
    NormalizeTrailingSlash();
    NormalizeNoLeadingSlash();
    NormalizeAlreadyNormal();
    NormalizeSlashesOnly();
  }

  lemma NormalizeTrailingSlash()
    ensures Normalize("/a/b/") == "/a/b"
  {
    var s: string := "/a/b/";
    assert s[..1] == "/" && s[4..] == "/" && s[1..4] == "a/b";
    NormalizeKeepsCore(s, 1, 4);
  }

  lemma NormalizeNoLeadingSlash()
    ensures Normalize("a/b") == "/a/b"
  {
    var s: string := "a/b";
    assert s[..0] == "" && s[3..] == "" && s[0..3] == "a/b";
    NormalizeKeepsCore(s, 0, 3);
  }

  lemma NormalizeAlreadyNormal()
    ensures Normalize("/a/b") == "/a/b"
  {
    var s: string := "/a/b";
    assert Normalized(s);
    NormalizedIffFixed(s);
  }

  lemma NormalizeSlashesOnly()
    ensures Normalize("///") == "/"
  {
    var s: string := "///";
    NormalizeKeepsCore(s, 3, 3);
  }

  /** A relative route (one that does not start with '/') normalizes to more than
      the root, and the result ends with a non-slash character. */
  lemma NormalizeRelative(route: string)
    requires |route| > 0 && route[0] != '/'
    ensures |Normalize(route)| > 1
    ensures Normalize(route) == "/" + Trim(route)
  {
    TrimStartAt(route, 0);
  }

  /** A path piece without a slash at either end normalizes to itself behind one
      '/', and so does that normalized form. */
  lemma NormalizePiece(piece: string)
    requires |piece| > 0 && piece[0] != '/' && piece[|piece| - 1] != '/'
    ensures Normalize(piece) == "/" + piece
    ensures Normalize("/" + piece) == "/" + piece
  {
    assert piece[..0] == [] && piece[|piece|..] == [] && piece[0..|piece|] == piece;
    NormalizeKeepsCore(piece, 0, |piece|);
    NormalizedIffFixed("/" + piece);
  }

  // ---------------------------------------------------------------------------
  // prefixy

  /** An absolute route ignores whatever prefix is current. */
  lemma PrefixyAbsolute(p1: string, p2: string, route: string)
    requires |route| > 0 && route[0] == '/'
    ensures Prefixy(p1, route) == Prefixy(p2, route) == Normalize(route)
  {
  }

  /** A relative route lands under the current prefix: the result is the prefix
      followed by the normalized route, which is more than the root. */
  lemma PrefixyRelative(prefix: string, route: string)
    requires |route| > 0 && route[0] != '/'
    ensures var r := Prefixy(prefix, route);
            |r| > |prefix| + 1 && r[..|prefix|] == prefix && r[|prefix|..] == Normalize(route)
  {
    NormalizeRelative(route);
  }

  /** Composing a route with a prefix keeps the path shape: with an empty or a
      normalized prefix other than the root, the result is normalized too. */
  lemma PrefixyNormalized(prefix: string, route: string)
    requires |route| > 0
    requires prefix == [] || (Normalized(prefix) && prefix != "/")
    ensures Normalized(Prefixy(prefix, route))
  {
    if route[0] != '/' {
      NormalizeRelative(route);
      var n := Normalize(route);
      var r := prefix + n;
      if prefix != [] {
        assert r[1] == prefix[1];
        assert r[|r| - 1] == n[|n| - 1];
      }
    }
  }

  /** The prefix "/" (what `prefix('/')` sets) does not compose cleanly: a relative
      route such as "users" registered under it gets a doubled leading slash. */
  lemma PrefixyUnderRoot(piece: string)
    requires |piece| > 0 && piece[0] != '/' && piece[|piece| - 1] != '/'
    ensures Prefixy("/", piece) == "//" + piece
    ensures !Normalized(Prefixy("/", piece))
  {
    var n := Normalize(piece);
    assert n == "/" + piece by {
      NormalizePiece(piece);
    }
    assert Prefixy("/", piece) == "/" + n;
  }

  /** Whatever prefix is current, as long as it has the shape the collector keeps,
      `prefixy` returns a non-empty path of that same shape: every path a verb
      helper hands to the parser starts with '/'. */
  lemma PrefixyPathLike(prefix: string, route: string)
    requires |route| > 0 && PathLike(prefix)
    ensures PathLike(Prefixy(prefix, route)) && Prefixy(prefix, route)[0] == '/'
  {
    var n := Normalize(route);
    if route[0] != '/' {
      NormalizeRelative(route);
      var r := prefix + n;
      assert r[|r| - 1] == n[|n| - 1];
      if prefix != [] {
        assert r[0] == prefix[0];
      }
    }
  }
}

// Which spellings of a web address the merge takes for the same posting.
module MergeKeys {
  import opened Wrappers
  import opened Aggregators

  // The parts of an address; `rest` is what follows the path from its first `?` or `#` on.
  datatype Spelling = Spelling(scheme: string, www: string, host: string, path: string, slashes: string, rest: string)

  predicate Mark(c: char) { c == '?' || c == '#' }

  predicate Plain(path: string) { forall i :: 0 <= i < |path| ==> !Mark(path[i]) && path[i] != '\n' }

  predicate Proper(s: Spelling) {
    && Scheme(s.scheme)
    && (s.www == "" || Lower(s.www) == "www.")
    && s.host != "" && '/' !in s.host && !("www." <= Lower(s.host))
    && Plain(s.path)
    && (forall i :: 0 <= i < |s.slashes| ==> s.slashes[i] == '/')
    && (s.rest == "" || Mark(s.rest[0]))
  }

  function Tail(s: Spelling): string { (s.path + s.slashes) + s.rest }

  function Url(s: Spelling): string { s.scheme + ((s.www + s.host) + ("/" + Tail(s))) }

  // ---------------------------------------------------------------- the pattern

  function KeyOfUrl(url: string): Key { KeyOf(Job(Some(url), None, "", "")) }

  lemma {:induction false} SlashFound(host: string, tail: string)
    requires '/' !in host
    ensures SlashAt(host + ("/" + tail)) == Some(|host|)
  {
    var s := host + ("/" + tail);
    if host != "" {
      assert s[1..] == host[1..] + ("/" + tail);
      assert host[0] in host && forall c :: c in host[1..] ==> c in host;
      SlashFound(host[1..], tail);
    }
  }

  lemma {:induction false} NoSlashFound(s: string)
    requires '/' !in s
    ensures SlashAt(s) == None
  {
    if s != "" {
      assert s[0] in s && forall c :: c in s[1..] ==> c in s;
      NoSlashFound(s[1..]);
    }
  }

  // Nothing before e ends the path, its first character aside.
  predicate OpenUpTo(s: string, e: nat) {
    e <= |s| && forall i :: 1 <= i < e ==> !Mark(s[i]) && s[i] != '\n'
  }

  // The path ends at e.
  predicate EndsAt(s: string, e: nat) {
    && 1 <= e <= |s| && s[0] != '\n' && OpenUpTo(s, e)
    && (e == |s| || Mark(s[e]) || (s[e] == '\n' && e + 1 == |s|))
  }

  // A line break in the middle keeps the pattern from matching.
  predicate BrokenAt(s: string, e: nat) {
    1 <= e && e + 1 < |s| && OpenUpTo(s, e) && s[e] == '\n'
  }

  lemma {:induction false} EndFound(s: string, k: nat, e: nat)
    requires k <= e && EndsAt(s, e)
    ensures PathEnd(s, k) == Some(e)
    decreases e - k
  {
    if k < e { EndFound(s, k + 1, e); }
  }

  lemma {:induction false} NoEndFound(s: string, k: nat, e: nat)
    requires k <= e && BrokenAt(s, e)
    ensures PathEnd(s, k) == None
    decreases e - k
  {
    if k < e && s[k] != '\n' { NoEndFound(s, k + 1, e); }
  }

  // A query or fragment either ends somewhere or is broken.
  lemma {:induction false} EndsOrBreaks(s: string, k: nat) returns (e: nat)
    requires s != "" && s[0] != '\n' && 1 <= k && OpenUpTo(s, k)
    ensures EndsAt(s, e) || BrokenAt(s, e)
    decreases |s| - k
  {
    if k == |s| || Mark(s[k]) || s[k] == '\n' { e := k; } else { e := EndsOrBreaks(s, k + 1); }
  }

  // The key of a lower-case host and what follows its slash.
  function KeyWith(host: string, tail: string): Option<string> {
    PathEndBound(tail, 0);
    match PathEnd(tail, 0) case None => None case Some(e) => Some(host + "/" + StripSlashes(Lower(tail[..e])))
  }

  lemma PartsFound(url: string, host: string, tail: string)
    requires AfterScheme(url) == Some(host + ("/" + tail)) && host != "" && '/' !in host
    ensures HostPath(url) == KeyWith(WithoutPrefix(Lower(host), "www."), tail)
  {
    var after := host + ("/" + tail);
    SlashFound(host, tail);
    assert after[..|host|] == host && after[|host| + 1..] == tail;
  }

  lemma {:induction false} SlashAtFirst(s: string)
    requires SlashAt(s).Some?
    ensures var k := SlashAt(s).value; k < |s| && s[k] == '/' && '/' !in s[..k]
  {
    if s[0] != '/' {
      SlashAtFirst(s[1..]);
      var k := SlashAt(s).value;
      assert s[..k] == [s[0]] + s[1..][..k - 1];
    }
  }

  lemma {:induction false} EndIsFirst(s: string, k: nat)
    requires k <= |s| && PathEnd(s, k).Some? && OpenUpTo(s, k) && (k > 0 ==> s != "" && s[0] != '\n')
    ensures EndsAt(s, PathEnd(s, k).value)
    decreases |s| - k
  {
    if !(k >= 1 && (k == |s| || Mark(s[k]) || (s[k] == '\n' && k + 1 == |s|))) {
      EndIsFirst(s, k + 1);
    }
  }

  predicate Scheme(scheme: string) { scheme == "http://" || scheme == "https://" }

  // The address is a scheme in lower case, a host, a slash, and a path that ends at e.
  predicate Matches(url: string, scheme: string, host: string, tail: string, e: nat) {
    && Scheme(scheme) && host != "" && '/' !in host && EndsAt(tail, e)
    && url == scheme + (host + ("/" + tail))
  }

  lemma SchemeFound(scheme: string, rest: string)
    requires Scheme(scheme)
    ensures AfterScheme(scheme + rest) == Some(rest)
  {
    var url := scheme + rest;
    if scheme == "https://" {
      assert url[8..] == rest;
    } else {
      assert url[4] == ':' && url[7..] == rest;
    }
  }

  // What the pattern makes of an address that matches.
  lemma MatchGivesKey(url: string, scheme: string, host: string, tail: string, e: nat)
    requires Matches(url, scheme, host, tail, e)
    ensures HostPath(url) == Some(WithoutPrefix(Lower(host), "www.") + "/" + StripSlashes(Lower(tail[..e])))
  {
    SchemeFound(scheme, host + ("/" + tail));
    PartsFound(url, host, tail);
    EndFound(tail, 0, e);
  }

  // For every text: the pattern matches exactly the addresses of this form. Any other text is its own key.
  lemma MatchIff(url: string)
    ensures HostPath(url).Some? <==> exists scheme, host, tail, e :: Matches(url, scheme, host, tail, e)
    ensures HostPath(url).None? ==> KeyOfUrl(url) == if url == "" then NoUrl else ByUrl(url)
  {
    if HostPath(url).Some? {
      var scheme, host, tail, e := MatchedParts(url);
    }
    if scheme, host, tail, e :| Matches(url, scheme, host, tail, e) {
      MatchGivesKey(url, scheme, host, tail, e);
    }
  }

  lemma SchemeCut(url: string) returns (scheme: string)
    requires AfterScheme(url).Some?
    ensures Scheme(scheme) && url == scheme + AfterScheme(url).value
  {
    scheme := if "https://" <= url then "https://" else "http://";
  }

  lemma HostCut(after: string) returns (host: string, tail: string)
    requires SlashAt(after).Some?
    ensures '/' !in host && after == host + ("/" + tail) && |host| == SlashAt(after).value
    ensures host == after[..|host|] && tail == after[|host| + 1..]
  {
    SlashAtFirst(after);
    var k := SlashAt(after).value;
    host, tail := after[..k], after[k + 1..];
  }

  lemma MatchedParts(url: string) returns (scheme: string, host: string, tail: string, e: nat)
    requires HostPath(url).Some?
    ensures Matches(url, scheme, host, tail, e)
  {
    scheme := SchemeCut(url);
    host, tail := HostCut(AfterScheme(url).value);
    EndIsFirst(tail, 0);
    e := PathEnd(tail, 0).value;
  }

  // A scheme in capitals does not match: such an address keeps its whole text as its key.
  lemma CapitalsDoNotMatch(rest: string)
    ensures KeyOfUrl("HTTPS://" + rest) == ByUrl("HTTPS://" + rest)
  {
    assert ("HTTPS://" + rest)[0] == 'H';
  }

  // ---------------------------------------------------------------- what does not matter

  lemma LowerConcat(a: string, b: string)
    ensures Lower(a + b) == Lower(a) + Lower(b)
  {
  }

  lemma {:induction false} SlashesStripped(path: string, slashes: string)
    requires forall i :: 0 <= i < |slashes| ==> slashes[i] == '/'
    ensures StripSlashes(Lower(path + slashes)) == StripSlashes(Lower(path))
  {
    if slashes == "" {
      assert path + slashes == path;
    } else {
      var n := |slashes| - 1;
      var whole := Lower(path + slashes);
      assert whole[|whole| - 1] == '/';
      assert whole[..|whole| - 1] == Lower(path + slashes[..n]);
      SlashesStripped(path, slashes[..n]);
    }
  }

  lemma WwwStripped(www: string, host: string)
    requires (www == "" || Lower(www) == "www.") && !("www." <= Lower(host))
    ensures WithoutPrefix(Lower(www + host), "www.") == Lower(host)
  {
    LowerConcat(www, host);
    if www == "" {
      assert www + host == host;
    } else {
      assert (Lower(www) + Lower(host))[4..] == Lower(host);
    }
  }

  lemma NoSlash(s: Spelling)
    requires Proper(s)
    ensures '/' !in s.www + s.host && s.www + s.host != ""
  {
    if s.www != "" {
      forall i | 0 <= i < 4 ensures s.www[i] != '/' {
        assert Lower(s.www)[i] == LowerChar(s.www[i]);
      }
    }
  }

  lemma KeyByTail(s: Spelling)
    requires Proper(s)
    ensures HostPath(Url(s)) == KeyWith(Lower(s.host), Tail(s))
  {
    SchemeFound(s.scheme, (s.www + s.host) + ("/" + Tail(s)));
    NoSlash(s);
    PartsFound(Url(s), s.www + s.host, Tail(s));
    WwwStripped(s.www, s.host);
  }

  lemma PathEnds(s: Spelling)
    requires Proper(s) && s.path + s.slashes != ""
    ensures EndsAt(Tail(s), |s.path + s.slashes|) && Tail(s)[..|s.path + s.slashes|] == s.path + s.slashes
  {
    var p := s.path + s.slashes;
    assert Plain(p);
    assert forall i :: 0 <= i < |p| ==> Tail(s)[i] == p[i];
    if s.rest != "" { assert Tail(s)[|p|] == s.rest[0]; }
  }

  // With a path, the key is host and path in lower case: scheme, `www.`, trailing slashes, query and
  // fragment do not matter.
  lemma SpellingsShareKey(s: Spelling)
    requires Proper(s) && s.path != ""
    ensures HostPath(Url(s)) == Some(Lower(s.host) + "/" + StripSlashes(Lower(s.path)))
  {
    KeyByTail(s);
    PathEnds(s);
    EndFound(Tail(s), 0, |s.path + s.slashes|);
    SlashesStripped(s.path, s.slashes);
  }

  lemma OnlySlashes(path: string, slashes: string)
    requires path == "" && forall i :: 0 <= i < |slashes| ==> slashes[i] == '/'
    ensures path + slashes == slashes && StripSlashes(Lower(path + slashes)) == ""
  {
    SlashesStripped(path, slashes);
  }

  // With nothing but further slashes it is the host with one slash.
  lemma SlashesAreAPath(s: Spelling)
    requires Proper(s) && s.path == "" && s.slashes != ""
    ensures HostPath(Url(s)) == Some(Lower(s.host) + "/" + "")
  {
    KeyByTail(s);
    PathEnds(s);
    EndFound(Tail(s), 0, |s.path + s.slashes|);
    OnlySlashes(s.path, s.slashes);
  }

  // A query right after the host is taken for the path, its mark included, up to the next mark.
  lemma QueryIsAPath(s: Spelling, e: nat)
    requires Proper(s) && s.path == "" && s.slashes == "" && EndsAt(s.rest, e)
    ensures HostPath(Url(s)) == Some(Lower(s.host) + "/" + StripSlashes(Lower(s.rest[..e])))
  {
    KeyByTail(s);
    assert Tail(s) == s.rest;
    EndFound(s.rest, 0, e);
  }

  ghost predicate Broken(rest: string) { exists e: nat :: BrokenAt(rest, e) }

  // No key of the form host/path exactly when nothing but one slash follows the host, or a query with a line
  // break in it.
  lemma NoKeyIff(s: Spelling)
    requires Proper(s)
    ensures HostPath(Url(s)).None? <==> s.path == "" && s.slashes == "" && (s.rest == "" || Broken(s.rest))
  {
    KeyByTail(s);
    if s.path != "" {
      SpellingsShareKey(s);
    } else if s.slashes != "" {
      SlashesAreAPath(s);
    } else if s.rest != "" {
      assert Tail(s) == s.rest;
      if Broken(s.rest) {
        var e: nat :| BrokenAt(s.rest, e);
        NoEndFound(s.rest, 0, e);
      } else {
        var e := EndsOrBreaks(s.rest, 1);
        QueryIsAPath(s, e);
      }
    }
  }

  // ---------------------------------------------------------------- which spellings share a key

  predicate Bare(s: Spelling) { s.path == "" && s.slashes == "" && s.rest == "" }

  // Bare hosts share a key only when written the same, letter for letter.
  lemma BareHostsShareIff(s: Spelling, t: Spelling)
    requires Proper(s) && Proper(t) && Bare(s) && Bare(t)
    ensures KeyOfUrl(Url(s)) == KeyOfUrl(Url(t)) <==> Url(s) == Url(t)
  {
    NoKeyIff(s);
    NoKeyIff(t);
    assert Url(s)[0] == s.scheme[0] && Url(t)[0] == t.scheme[0];
  }

  // Addresses with a path share a key if and only if host and path agree up to letter case and trailing
  // slashes.
  lemma PathsShareIff(s: Spelling, t: Spelling)
    requires Proper(s) && Proper(t) && s.path != "" && t.path != ""
    ensures KeyOfUrl(Url(s)) == KeyOfUrl(Url(t)) <==>
              Lower(s.host) == Lower(t.host) && StripSlashes(Lower(s.path)) == StripSlashes(Lower(t.path))
  {
    SpellingsShareKey(s);
    SpellingsShareKey(t);
    var a, b := Lower(s.host), Lower(t.host);
    var x, y := StripSlashes(Lower(s.path)), StripSlashes(Lower(t.path));
    LowerHasNoSlash(s.host);
    LowerHasNoSlash(t.host);
    SlashFound(a, x);
    SlashFound(b, y);
    assert a + "/" + x == a + ("/" + x) && b + "/" + y == b + ("/" + y);
    if a + ("/" + x) == b + ("/" + y) {
      SplitOnce(a, x, b, y);
    }
  }

  lemma SplitOnce(a: string, x: string, b: string, y: string)
    requires a + ("/" + x) == b + ("/" + y) && |a| == |b|
    ensures a == b && x == y
  {
    var whole := a + ("/" + x);
    assert whole[..|a|] == a && whole[|a| + 1..] == x;
    assert whole == b + ("/" + y);
    assert whole[..|b|] == b && whole[|b| + 1..] == y;
  }

  lemma LowerHasNoSlash(host: string)
    requires '/' !in host
    ensures '/' !in Lower(host)
  {
    forall i | 0 <= i < |host| ensures Lower(host)[i] != '/' {
      assert host[i] in host;
    }
  }

  // Without a slash behind the host there is no key of that form either.
  lemma HostOnly(scheme: string, host: string)
    requires Scheme(scheme) && '/' !in host
    ensures HostPath(scheme + host) == None
  {
    SchemeFound(scheme, host);
    NoSlashFound(host);
  }
}

/** The URL-path tests the workers route on: `startsWith`, `split('/')[2]` and the
    `^/sessions/[^/]+/<action>$` patterns of workers/voting-api.mjs. */
module Paths {

  predicate StartsWith(s: string, prefix: string) {
    |prefix| <= |s| && s[..|prefix|] == prefix
  }

  /** The text before the first `/` (all of `s` when it has none). */
  function UpToSlash(s: string): (r: string)
    ensures '/' !in r
    ensures StartsWith(s, r)
    ensures r == s || s[|r|] == '/'
  {
    if s == [] || s[0] == '/' then "" else [s[0]] + UpToSlash(s[1..])
  }

  /** The text after the first `/` ("" when there is none). */
  function AfterSlash(s: string): (r: string)
    ensures |r| < |s| || s == ""
  {
    if s == [] then "" else if s[0] == '/' then s[1..] else AfterSlash(s[1..])
  }

  /** `path.split('/')[2]`: the third `/`-separated segment. */
  function ThirdSegment(path: string): string {
    UpToSlash(AfterSlash(AfterSlash(path)))
  }

  /** A segment that holds no `/` is read back whole, whatever follows the next `/`. */
  lemma {:induction false} UpToSlashOf(seg: string, rest: string)
    requires '/' !in seg
    ensures UpToSlash(seg) == seg
    ensures UpToSlash(seg + "/" + rest) == seg
    decreases |seg|
  {
    if seg != [] {
      assert (seg + "/" + rest)[1..] == seg[1..] + "/" + rest;
      assert '/' !in seg[1..];
      UpToSlashOf(seg[1..], rest);
      assert seg == [seg[0]] + seg[1..];
    } else {
      assert seg + "/" + rest == "/" + rest;
    }
  }

  /** Under `/x/`, the third segment is the text up to the next slash. */
  lemma ThirdSegmentUnder(first: string, rest: string)
    requires '/' !in first
    ensures ThirdSegment("/" + first + "/" + rest) == UpToSlash(rest)
  {
    var p := "/" + first + "/" + rest;
    assert AfterSlash(p) == first + "/" + rest by {
      assert p[0] == '/' && p[1..] == first + "/" + rest;
    }
    AfterSlashOf(first, rest);
  }

  lemma {:induction false} AfterSlashOf(seg: string, rest: string)
    requires '/' !in seg
    ensures AfterSlash(seg + "/" + rest) == rest
    decreases |seg|
  {
    if seg != [] {
      assert (seg + "/" + rest)[1..] == seg[1..] + "/" + rest;
      assert '/' !in seg[1..];
      AfterSlashOf(seg[1..], rest);
    } else {
      assert seg + "/" + rest == "/" + rest;
      assert ("/" + rest)[1..] == rest;
    }
  }

  /** `/^\/sessions\/[^/]+\/<action>$/.test(path)`, for an action with no slash. */
  predicate IsSessionAction(path: string, action: string) {
    && StartsWith(path, "/sessions/")
    && var id := UpToSlash(path[10..]);
       |id| > 0 && path == "/sessions/" + id + "/" + action
  }

  /** Both directions of the pattern: a path built from a non-empty slash-free id
      matches and yields that id back, and a matching path is built that way. */
  lemma SessionActionPaths(id: string, action: string, path: string)
    requires '/' !in action
    ensures |id| > 0 && '/' !in id ==>
              var p := "/sessions/" + id + "/" + action;
              IsSessionAction(p, action) && ThirdSegment(p) == id
    ensures IsSessionAction(path, action) ==>
              var seg := ThirdSegment(path);
              |seg| > 0 && '/' !in seg && path == "/sessions/" + seg + "/" + action
  {
    if |id| > 0 && '/' !in id {
      var p := "/sessions/" + id + "/" + action;
      assert p == "/" + "sessions" + "/" + (id + "/" + action);
      assert p[10..] == id + "/" + action;
      UpToSlashOf(id, action);
      ThirdSegmentUnder("sessions", id + "/" + action);
    }
    if IsSessionAction(path, action) {
      assert path == "/" + "sessions" + "/" + path[10..];
      ThirdSegmentUnder("sessions", path[10..]);
    }
  }
}

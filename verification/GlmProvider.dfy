/** Building the endpoint addresses of a GLM provider from whatever base URL the user configured.

  A configured URL may already name an endpoint. `StripKnownEndpoint` removes it and
  `JoinBaseAndPath` puts another one in its place, so a second join must replace the endpoint of
  the first. Whether it does is settled here for every URL and every path.
 */
module GlmProvider {
  import opened JsString

  const CHAT_COMPLETIONS := "/chat/completions"
  const MODELS := "/models"
  const V1_MODELS := "/v1/models"
  const MESSAGES := "/messages"
  const COUNT_TOKENS := "/messages/count_tokens"
  const V1_MESSAGES := "/v1/messages"
  const V1_COUNT_TOKENS := "/v1/messages/count_tokens"

  // ---- Splitting a URL ----

  datatype UrlParts = UrlParts(base: string, suffix: string)

  predicate IsMark(c: char) { c == '?' || c == '#' }

  predicate NoMark(s: string) { forall c :: c in s ==> !IsMark(c) }

  /** A query or fragment: nothing at all, or text that starts at its mark. */
  predicate IsUrlSuffix(s: string) { s != "" ==> IsMark(s[0]) }

  function SplitUrlQueryAndHash(url: string): (p: UrlParts)
    ensures url == p.base + p.suffix && NoMark(p.base) && IsUrlSuffix(p.suffix)
  {
    if url == "" then UrlParts("", "")
    else if IsMark(url[0]) then UrlParts("", url)
    else
      var p := SplitUrlQueryAndHash(url[1..]);
      p.(base := [url[0]] + p.base)
  }

  lemma {:induction false} SplitUrlUnique(base: string, suffix: string)
    requires NoMark(base) && IsUrlSuffix(suffix)
    ensures SplitUrlQueryAndHash(base + suffix) == UrlParts(base, suffix)
  {
    if base == "" {
      assert base + suffix == suffix;
    } else {
      assert (base + suffix)[1..] == base[1..] + suffix;
      SplitUrlUnique(base[1..], suffix);
    }
  }

  function WithoutTrailingSlashes(s: string): (r: string)
    ensures r <= s
    ensures r != "" ==> r[|r| - 1] != '/'
    ensures s != "" && s[|s| - 1] != '/' ==> r == s
  {
    if s != "" && s[|s| - 1] == '/' then WithoutTrailingSlashes(s[..|s| - 1]) else s
  }

  // ---- The anchored patterns ----

  predicate IsDigit(c: char) { '0' <= c <= '9' }

  function TrailingDigits(s: string): (n: nat)
    ensures n <= |s|
    ensures forall i :: |s| - n <= i < |s| ==> IsDigit(s[i])
    ensures n < |s| ==> !IsDigit(s[|s| - n - 1])
  {
    if s != "" && IsDigit(s[|s| - 1]) then 1 + TrailingDigits(s[..|s| - 1]) else 0
  }

  /** `m` is a whole version segment: a slash, a v of either case, one digit or more. */
  predicate IsVersionSegment(m: string) {
    |m| >= 3 && m[0] == '/' && LowerChar(m[1]) == 'v' && forall i :: 2 <= i < |m| ==> IsDigit(m[i])
  }

  /** Length of the version segment `s` ends in, 0 when there is none. */
  function VersionTail(s: string): (n: nat)
    ensures n <= |s|
  {
    var d := TrailingDigits(s);
    if d >= 1 && |s| >= d + 2 && LowerChar(s[|s| - d - 1]) == 'v' && s[|s| - d - 2] == '/'
    then d + 2 else 0
  }

  /** At most one suffix of a string is a version segment, and `VersionTail` measures it. */
  lemma VersionTailUnique(s: string, k: nat)
    requires k <= |s|
    ensures IsVersionSegment(s[|s| - k..]) <==> k != 0 && k == VersionTail(s)
  {
    var m, d := s[|s| - k..], TrailingDigits(s);
    assert forall i :: 0 <= i < k ==> m[i] == s[|s| - k + i];
    if IsVersionSegment(m) {
      assert !IsDigit(s[|s| - k + 1]) && s[|s| - k + 1] == m[1];
      assert forall i :: |s| - k + 2 <= i < |s| ==> IsDigit(s[i]) by {
        forall i | |s| - k + 2 <= i < |s| ensures IsDigit(s[i]) {
          assert s[i] == m[i - (|s| - k)];
        }
      }
    }
  }

  predicate EndsWithIgnoreCase(s: string, tail: string) {
    |tail| <= |s| && Lower(s[|s| - |tail|..]) == tail
  }

  lemma DiffersAt(s: string, tail: string, k: nat)
    requires k < |tail| && k < |s| && LowerChar(s[|s| - 1 - k]) != tail[|tail| - 1 - k]
    ensures !EndsWithIgnoreCase(s, tail)
  {
    if |tail| <= |s| {
      assert Lower(s[|s| - |tail|..])[|tail| - 1 - k] == LowerChar(s[|s| - 1 - k]);
    }
  }

  function DropVersion(s: string): (r: string)
    ensures r <= s
  {
    s[..|s| - VersionTail(s)]
  }

  // ---- Stripping and joining ----

  function StripEndpoint(base: string): (r: string)
    ensures r <= base
  {
    if EndsWithIgnoreCase(base, COUNT_TOKENS) then DropVersion(base[..|base| - |COUNT_TOKENS|])
    else if EndsWithIgnoreCase(base, MESSAGES) then DropVersion(base[..|base| - |MESSAGES|])
    else if EndsWithIgnoreCase(base, CHAT_COMPLETIONS) then base[..|base| - |CHAT_COMPLETIONS|]
    else if EndsWithIgnoreCase(base, MODELS) then base[..|base| - |MODELS|]
    else base
  }

  function Stripped(url: string): (p: UrlParts)
    ensures NoMark(p.base) && IsUrlSuffix(p.suffix)
  {
    var parts := SplitUrlQueryAndHash(url);
    parts.(base := StripEndpoint(WithoutTrailingSlashes(parts.base)))
  }

  method StripKnownEndpoint(url: string) returns (p: UrlParts)
    ensures p == Stripped(url)
  {
    var parts := SplitUrlQueryAndHash(url);
    var base := parts.base;
    while EndsWith(base, "/")
      invariant WithoutTrailingSlashes(base) == WithoutTrailingSlashes(parts.base)
      decreases |base|
    {
      base := base[..|base| - 1];
    }
    p := parts.(base := StripEndpoint(base));
  }

  function WithLeadingSlash(path: string): string {
    if "/" <= path then path else "/" + path
  }

  /** `path` continues the version segment that `base` ends in. */
  predicate RepeatsVersion(base: string, path: string) {
    VersionTail(base) != 0 && Lower(base[|base| - VersionTail(base)..]) + "/" <= Lower(path)
  }

  function Attach(base: string, path: string): string {
    if RepeatsVersion(base, path) then base + path[VersionTail(base)..] else base + path
  }

  function JoinBaseAndPath(url: string, path: string): string {
    var p := Stripped(url);
    Attach(p.base, WithLeadingSlash(path)) + p.suffix
  }

  // ---- What a join leaves to strip ----

  lemma VersionTailOfV1(b: string)
    ensures VersionTail(b + "/v1") == 3 && DropVersion(b + "/v1") == b
  {
    var s := b + "/v1";
    assert s[|s| - 1] == '1' && s[|s| - 2] == 'v' && s[|s| - 3] == '/';
    VersionTailUnique(s, 3);
  }

  /** `base` ends in /v1, in either case. */
  predicate EndsInV1(base: string) { EndsWithIgnoreCase(base, "/v1") }

  lemma EndsInV1IsVersion(base: string)
    ensures EndsInV1(base) <==> VersionTail(base) == 3 && base[|base| - 1] == '1'
  {
    if |base| >= 3 {
      var m := base[|base| - 3..];
      VersionTailUnique(base, 3);
      assert base[|base| - 1] == m[2];
      assert Lower(m) == [LowerChar(m[0]), LowerChar(m[1]), LowerChar(m[2])];
    }
  }

  predicate StartsWithV1(path: string) { "/v1/" <= Lower(path) }

  lemma StartsWithV1At(path: string)
    requires StartsWithV1(path)
    ensures |path| >= 4 && path[0] == '/' && LowerChar(path[1]) == 'v' && path[2] == '1' && path[3] == '/'
  {
    assert Lower(path)[0] == '/' && Lower(path)[1] == 'v' && Lower(path)[2] == '1' && Lower(path)[3] == '/';
  }

  /** A path under /v1/ loses its version on a base that ends in /v1, and only there. */
  lemma AttachOfV1Path(base: string, path: string)
    requires StartsWithV1(path)
    ensures Attach(base, path) == if EndsInV1(base) then base + path[3..] else base + path
  {
    StartsWithV1At(path);
    EndsInV1IsVersion(base);
    var n := VersionTail(base);
    if n != 0 {
      VersionTailUnique(base, n);
      var m := base[|base| - n..];
      if RepeatsVersion(base, path) {
        assert (Lower(m) + "/")[n] == '/' == Lower(path)[n];
        assert n == 3;
        assert Lower(m)[2] == Lower(path)[2];
      }
      if EndsInV1(base) {
        assert Lower(m) + "/" == "/v1/";
      }
    }
  }

  /** A base that ends in /v1 absorbs the version of a path under /v1/, and of no other. */
  lemma AttachToV1Base(base: string, path: string)
    requires EndsInV1(base)
    ensures Attach(base, path) == if StartsWithV1(path) then base + path[3..] else base + path
  {
    EndsInV1IsVersion(base);
    assert Lower(base[|base| - 3..]) == "/v1";
    assert "/v1" + "/" == "/v1/";
    if StartsWithV1(path) { StartsWithV1At(path); }
  }

  lemma StrippedOfBase(base: string, suffix: string)
    requires NoMark(base) && IsUrlSuffix(suffix)
    requires base != "" && base[|base| - 1] != '/'
    ensures Stripped(base + suffix) == UrlParts(StripEndpoint(base), suffix)
  {
    SplitUrlUnique(base, suffix);
  }

  lemma {:induction false} StripChatCompletions(b: string, e: string)
    requires Lower(e) == CHAT_COMPLETIONS
    ensures StripEndpoint(b + e) == b
  {
    var s := b + e;
    assert s[|s| - |e|..] == e;
    assert LowerChar(s[|s| - 2]) == Lower(e)[15] == 'n' && LowerChar(s[|s| - 3]) == Lower(e)[14] == 'o';
    DiffersAt(s, COUNT_TOKENS, 2);
    DiffersAt(s, MESSAGES, 1);
  }

  lemma {:induction false} StripModels(b: string, e: string)
    requires Lower(e) == MODELS
    ensures StripEndpoint(b + e) == b
  {
    var s := b + e;
    assert s[|s| - |e|..] == e;
    assert LowerChar(s[|s| - 2]) == Lower(e)[5] == 'l';
    DiffersAt(s, COUNT_TOKENS, 1);
    DiffersAt(s, MESSAGES, 1);
    DiffersAt(s, CHAT_COMPLETIONS, 1);
  }

  lemma {:induction false} StripMessages(b: string, e: string)
    requires Lower(e) == MESSAGES || Lower(e) == COUNT_TOKENS
    ensures StripEndpoint(b + e) == DropVersion(b)
  {
    var s := b + e;
    assert s[|s| - |e|..] == e && s[..|s| - |e|] == b;
    if Lower(e) == MESSAGES {
      assert LowerChar(s[|s| - 2]) == Lower(e)[7] == 'e';
      DiffersAt(s, COUNT_TOKENS, 1);
    }
  }

  /** A known endpoint is removed from any base in any letter case, a Messages endpoint together with the
    version segment before it. */
  lemma {:induction false} EndpointStripped(b: string, e: string)
    ensures Lower(e) == CHAT_COMPLETIONS || Lower(e) == MODELS ==> StripEndpoint(b + e) == b
    ensures Lower(e) == MESSAGES || Lower(e) == COUNT_TOKENS ==> StripEndpoint(b + e) == DropVersion(b)
  {
    hide StripEndpoint, DropVersion;
    if Lower(e) == CHAT_COMPLETIONS { StripChatCompletions(b, e); }
    if Lower(e) == MODELS { StripModels(b, e); }
    if Lower(e) == MESSAGES || Lower(e) == COUNT_TOKENS { StripMessages(b, e); }
  }

  /** Slashes at the end of the base make no difference. */
  lemma {:induction false} TrailingSlashIgnored(b: string, s: string, q: string)
    requires NoMark(b) && IsUrlSuffix(s)
    ensures JoinBaseAndPath(b + "/" + s, q) == JoinBaseAndPath(b + s, q)
  {
    hide Attach, StripEndpoint;
    SplitUrlUnique(b + "/", s);
    SplitUrlUnique(b, s);
    assert (b + "/")[..|b + "/"| - 1] == b;
  }

  // ---- What a join gives ----

  lemma {:induction false} SplitOf(url: string, base: string, suffix: string)
    requires url == base + suffix && NoMark(base) && IsUrlSuffix(suffix)
    ensures SplitUrlQueryAndHash(url) == UrlParts(base, suffix)
  {
    SplitUrlUnique(base, suffix);
  }

  lemma AttachNoMark(base: string, path: string)
    requires NoMark(base) && NoMark(path)
    ensures NoMark(Attach(base, path))
  {
  }

  /** Query and fragment are kept by every join with a path that has none. */
  lemma {:induction false} JoinKeepsSuffix(u: string, path: string)
    requires NoMark(path)
    ensures SplitUrlQueryAndHash(JoinBaseAndPath(u, path)).suffix == SplitUrlQueryAndHash(u).suffix
  {
    hide Attach, StripEndpoint;
    var p := Stripped(u);
    assert NoMark(WithLeadingSlash(path));
    AttachNoMark(p.base, WithLeadingSlash(path));
    SplitOf(JoinBaseAndPath(u, path), Attach(p.base, WithLeadingSlash(path)), p.suffix);
  }

  /** `base` is nothing a strip would change. */
  ghost predicate IsBare(base: string) {
    && (base != "" ==> base[|base| - 1] != '/')
    && forall a: string, e: string :: base == a + e ==>
         Lower(e) !in {"/messages/count_tokens", "/messages", "/chat/completions", "/models"}
  }

  lemma EndingSplits(base: string, tail: string)
    requires EndsWithIgnoreCase(base, tail)
    ensures exists a: string, e: string :: base == a + e && Lower(e) == tail
  {
    var n := |base| - |tail|;
    assert base == base[..n] + base[n..];
  }

  lemma BareStays(base: string)
    requires IsBare(base)
    ensures WithoutTrailingSlashes(base) == base && StripEndpoint(base) == base
  {
    hide EndsWithIgnoreCase;
    if EndsWithIgnoreCase(base, COUNT_TOKENS) { EndingSplits(base, COUNT_TOKENS); }
    if EndsWithIgnoreCase(base, MESSAGES) { EndingSplits(base, MESSAGES); }
    if EndsWithIgnoreCase(base, CHAT_COMPLETIONS) { EndingSplits(base, CHAT_COMPLETIONS); }
    if EndsWithIgnoreCase(base, MODELS) { EndingSplits(base, MODELS); }
  }

  lemma StrippedOfBare(base: string, suffix: string)
    requires NoMark(base) && IsUrlSuffix(suffix) && IsBare(base)
    ensures Stripped(base + suffix) == UrlParts(base, suffix)
  {
    hide StripEndpoint, IsBare;
    BareStays(base);
    SplitUrlUnique(base, suffix);
  }

  /** `base` does not end in a version. */
  ghost predicate NoVersion(base: string) {
    forall k: nat :: k <= |base| ==> !IsVersionSegment(base[k..])
  }

  lemma AttachPlain(base: string, path: string)
    requires NoVersion(base)
    ensures Attach(base, path) == base + path
  {
    var n := VersionTail(base);
    VersionTailUnique(base, n);
    assert !IsVersionSegment(base[|base| - n..]);
    hide IsVersionSegment, VersionTail, NoVersion;
  }

  lemma SlashedOnce(path: string)
    ensures WithLeadingSlash("/" + path) == "/" + path
    ensures !("/" <= path) ==> WithLeadingSlash(path) == "/" + path
  {
    assert "/" <= "/" + path;
  }

  /** On a bare base without a version the path, with its slash, is put between base and suffix. */
  lemma {:induction false} JoinPlain(base: string, suffix: string, path: string)
    requires NoMark(base) && IsUrlSuffix(suffix) && IsBare(base)
    requires NoVersion(base)
    ensures JoinBaseAndPath(base + suffix, "/" + path) == base + ("/" + path) + suffix
    ensures !("/" <= path) ==> JoinBaseAndPath(base + suffix, path) == base + ("/" + path) + suffix
  {
    StrippedOfBare(base, suffix);
    AttachPlain(base, "/" + path);
    SlashedOnce(path);
    hide IsBare, IsVersionSegment, Stripped, Attach, WithLeadingSlash, NoMark, IsUrlSuffix;
  }

  /** On a bare base that ends in a version the path loses that version if it starts with it, in any case,
    as a whole segment. */
  lemma {:induction false} JoinVersioned(a: string, v: string, suffix: string, path: string)
    requires NoMark(a + v) && IsUrlSuffix(suffix) && IsBare(a + v) && IsVersionSegment(v) && "/" <= path
    ensures JoinBaseAndPath(a + v + suffix, path)
         == if Lower(v) + "/" <= Lower(path) then a + v + path[|v|..] + suffix else a + v + path + suffix
  {
    var base := a + v;
    StrippedOfBare(base, suffix);
    assert base[|base| - |v|..] == v;
    VersionTailUnique(base, |v|);
    hide IsBare, IsVersionSegment, Stripped, VersionTail;
  }

  // ---- Replacing an endpoint ----

  lemma AppendEndpoint(b: string, tail: string)
    requires NoMark(b)
    requires tail == MESSAGES || tail == COUNT_TOKENS || tail == MODELS || tail == CHAT_COMPLETIONS
    ensures var x := b + tail; NoMark(x) && x != "" && x[|x| - 1] != '/'
  {
    assert tail[|tail| - 1] == 's';
    assert NoMark(tail);
  }

  lemma {:induction false} AttachOpenAi(b: string, p: string)
    requires p == CHAT_COMPLETIONS || p == MODELS
    ensures Attach(b, p) == b + p
  {
    var n := VersionTail(b);
    if n != 0 {
      VersionTailUnique(b, n);
      hide VersionTail;
      var m := b[|b| - n..];
      assert (Lower(m) + "/")[1] == 'v' && Lower(p)[1] != 'v';
    }
  }

  lemma {:induction false} EndpointsAreLower()
    ensures Lower(CHAT_COMPLETIONS) == CHAT_COMPLETIONS && Lower(MODELS) == MODELS
    ensures Lower(MESSAGES) == MESSAGES && Lower(COUNT_TOKENS) == COUNT_TOKENS
  {
  }

  /** The OpenAI-style endpoints are replaced without condition. */
  lemma OpenAiEndpointReplaced(u: string, p: string, q: string)
    requires p == CHAT_COMPLETIONS || p == MODELS
    ensures JoinBaseAndPath(JoinBaseAndPath(u, p), q) == JoinBaseAndPath(u, q)
  {
    hide Stripped, StripEndpoint, Attach;
    EndpointsAreLower();
    var UrlParts(b, s) := Stripped(u);
    AttachOpenAi(b, p);
    AppendEndpoint(b, p);
    StrippedOfBase(b + p, s);
    if p == CHAT_COMPLETIONS { StripChatCompletions(b, p); } else { StripModels(b, p); }
    assert WithLeadingSlash(p) == p;
  }

  predicate IsMessagesPath(p: string) { p == V1_MESSAGES || p == V1_COUNT_TOKENS }

  function WithoutV1(base: string): string {
    if EndsInV1(base) then base[..|base| - 3] else base
  }

  lemma DropV1(base: string)
    requires EndsInV1(base)
    ensures DropVersion(base) == base[..|base| - 3]
  {
    EndsInV1IsVersion(base);
  }

  lemma MessagesAfterV1(b: string, tail: string)
    requires NoMark(b) && (tail == MESSAGES || tail == COUNT_TOKENS) && EndsInV1(b)
    ensures var x := b + tail;
            NoMark(x) && x != "" && x[|x| - 1] != '/' && StripEndpoint(x) == b[..|b| - 3]
  {
    hide StripEndpoint, EndsInV1, DropVersion;
    EndpointsAreLower();
    AppendEndpoint(b, tail);
    StripMessages(b, tail);
    DropV1(b);
  }

  lemma MessagesUnderV1(b: string, tail: string)
    requires NoMark(b) && (tail == MESSAGES || tail == COUNT_TOKENS)
    ensures var x := (b + "/v1") + tail;
            NoMark(x) && x != "" && x[|x| - 1] != '/' && StripEndpoint(x) == b
  {
    hide StripEndpoint, DropVersion;
    EndpointsAreLower();
    AppendEndpoint(b + "/v1", tail);
    StripMessages(b + "/v1", tail);
    VersionTailOfV1(b);
  }

  lemma LowerV1Path(path: string)
    requires "/v1/" <= path
    ensures StartsWithV1(path)
  {
    assert path[..4] == "/v1/";
    assert path[0] == '/' && path[1] == 'v' && path[2] == '1' && path[3] == '/';
  }

  lemma {:induction false} StripOfMessagesTail(b: string, tail: string)
    requires NoMark(b) && (tail == MESSAGES || tail == COUNT_TOKENS)
    ensures var x := Attach(b, "/v1" + tail);
            NoMark(x) && x != "" && x[|x| - 1] != '/' && StripEndpoint(x) == WithoutV1(b)
  {
    hide StripEndpoint, Attach, EndsInV1, StartsWithV1, NoMark;
    var p := "/v1" + tail;
    assert p[..4] == "/v1/";
    LowerV1Path(p);
    AttachOfV1Path(b, p);
    if EndsInV1(b) {
      assert p[3..] == tail;
      MessagesAfterV1(b, tail);
    } else {
      MessagesUnderV1(b, tail);
      assert b + p == (b + "/v1") + tail;
    }
  }

  lemma {:induction false} StripOfMessagesAttach(b: string, p: string)
    requires NoMark(b) && IsMessagesPath(p)
    ensures var x := Attach(b, p);
            NoMark(x) && x != "" && x[|x| - 1] != '/' && StripEndpoint(x) == WithoutV1(b)
  {
    hide StripEndpoint, Attach, WithoutV1, NoMark;
    var tail := if p == V1_MESSAGES then MESSAGES else COUNT_TOKENS;
    assert p == "/v1" + tail;
    StripOfMessagesTail(b, tail);
  }

  lemma NoMarkV1(b: string)
    requires NoMark(b)
    ensures NoMark(b + "/v1")
  {
  }

  lemma StripOfModels(b: string)
    requires NoMark(b)
    ensures var x := b + MODELS; NoMark(x) && x != "" && x[|x| - 1] != '/' && StripEndpoint(x) == b
  {
    hide StripEndpoint;
    EndpointsAreLower();
    AppendEndpoint(b, MODELS);
    StripModels(b, MODELS);
  }

  lemma {:induction false} StripOfV1ModelsAttach(b: string)
    requires NoMark(b)
    ensures var x := Attach(b, V1_MODELS);
            NoMark(x) && x != "" && x[|x| - 1] != '/'
            && StripEndpoint(x) == if EndsInV1(b) then b else b + "/v1"
  {
    hide StripEndpoint, Attach, EndsInV1, StartsWithV1, NoMark;
    assert V1_MODELS == "/v1" + MODELS;
    LowerV1Path(V1_MODELS);
    AttachOfV1Path(b, V1_MODELS);
    if EndsInV1(b) {
      StripOfModels(b);
    } else {
      NoMarkV1(b);
      StripOfModels(b + "/v1");
      assert b + V1_MODELS == (b + "/v1") + MODELS;
    }
  }

  lemma CommonSuffixCancels(x: string, y: string, s: string)
    ensures x + s == y + s <==> x == y
  {
    if x + s == y + s {
      assert |x| == |y|;
      assert (x + s)[..|x|] == x && (y + s)[..|y|] == y;
    }
  }

  lemma MiddleDecides(a: string, m: string, n: string, z: string)
    requires |m| == |n|
    ensures a + m + z == a + n + z <==> m == n
  {
    if a + m + z == a + n + z {
      assert m == (a + m + z)[|a|..|a| + |m|] == (a + n + z)[|a|..|a| + |n|] == n;
    }
  }

  /** `path` finds the same place on `base`, which ends in /v1, as on `base` without it. */
  predicate SurvivesLosingV1(base: string, path: string)
    requires EndsInV1(base)
  {
    StartsWithV1(path) && EndsWith(base, path[..3]) && !EndsInV1(base[..|base| - 3])
  }

  lemma {:induction false} AttachIsLonger(base: string, path: string)
    requires EndsInV1(base) && !StartsWithV1(path)
    ensures |Attach(base, path)| > |Attach(base[..|base| - 3], path)|
  {
    AttachToV1Base(base, path);
  }

  lemma {:induction false} AttachWithoutV1(base: string, path: string)
    requires EndsInV1(base)
    ensures Attach(base[..|base| - 3], path) == Attach(base, path) <==> SurvivesLosingV1(base, path)
  {
    var b0, v := base[..|base| - 3], base[|base| - 3..];
    hide EndsInV1, Attach, StartsWithV1;
    assert base == b0 + v;
    AttachToV1Base(base, path);
    if !StartsWithV1(path) {
      AttachIsLonger(base, path);
    } else {
      StartsWithV1At(path);
      AttachOfV1Path(b0, path);
      assert path == path[..3] + path[3..];
      assert b0 + path == b0 + path[..3] + path[3..];
      MiddleDecides(b0, path[..3], v, path[3..]);
    }
  }

  lemma EndsInV1Appended(base: string)
    ensures EndsInV1(base + "/v1")
  {
    var b1 := base + "/v1";
    assert b1[|b1| - 3..] == "/v1" == Lower("/v1");
  }

  lemma AttachNoLonger(base: string, path: string)
    ensures |Attach(base, path)| <= |base + path|
  {
  }

  lemma AttachWithV1(base: string, path: string)
    requires !EndsInV1(base)
    ensures Attach(base + "/v1", path) == Attach(base, path) <==> "/v1/" <= path
  {
    hide EndsInV1, StartsWithV1, Attach;
    EndsInV1Appended(base);
    AttachToV1Base(base + "/v1", path);
    if StartsWithV1(path) {
      StartsWithV1At(path);
      AttachOfV1Path(base, path);
      assert path == path[..3] + path[3..];
      assert base + path == base + path[..3] + path[3..];
      MiddleDecides(base, path[..3], "/v1", path[3..]);
      assert path[..3] == "/v1" <==> "/v1/" <= path;
    } else {
      AttachNoLonger(base, path);
      if "/v1/" <= path { LowerV1Path(path); }
    }
  }

  /** Replacing a Messages endpoint, for every URL and every path: exact condition. */
  lemma MessagesEndpointReplacedIff(u: string, p: string, q: string)
    requires IsMessagesPath(p)
    ensures var b := Stripped(u).base;
            JoinBaseAndPath(JoinBaseAndPath(u, p), q) == JoinBaseAndPath(u, q)
            <==> (EndsInV1(b) ==> SurvivesLosingV1(b, WithLeadingSlash(q)))
  {
    hide Stripped, StripEndpoint, Attach, EndsInV1, SurvivesLosingV1;
    var UrlParts(b, s) := Stripped(u);
    var path := WithLeadingSlash(q);
    StripOfMessagesAttach(b, p);
    StrippedOfBase(Attach(b, p), s);
    if EndsInV1(b) {
      AttachWithoutV1(b, path);
      CommonSuffixCancels(Attach(WithoutV1(b), path), Attach(b, path), s);
    }
  }

  /** Replacing /v1/models, for every URL and every path: exact condition. */
  lemma V1ModelsEndpointReplacedIff(u: string, q: string)
    ensures JoinBaseAndPath(JoinBaseAndPath(u, V1_MODELS), q) == JoinBaseAndPath(u, q)
            <==> EndsInV1(Stripped(u).base) || "/v1/" <= WithLeadingSlash(q)
  {
    hide Stripped, StripEndpoint, Attach, EndsInV1;
    var UrlParts(b, s) := Stripped(u);
    var path := WithLeadingSlash(q);
    StripOfV1ModelsAttach(b);
    StrippedOfBase(Attach(b, V1_MODELS), s);
    if !EndsInV1(b) {
      AttachWithV1(b, path);
      CommonSuffixCancels(Attach(b + "/v1", path), Attach(b, path), s);
    }
  }

  /** The base is safe to join onto: not /v1 at all, or a lower-case /v1 that is not doubled. */
  predicate ReplacesMessages(base: string) {
    EndsInV1(base) ==> EndsWith(base, "/v1") && !EndsInV1(base[..|base| - 3])
  }

  predicate IsAnthropicPath(p: string) { IsMessagesPath(p) || p == V1_MODELS }

  /** Within the Anthropic family an endpoint replaces any other exactly on the safe bases, and
    /v1/models is replaced on every base. */
  lemma AnthropicEndpointReplacedIff(u: string, p: string, q: string)
    requires IsAnthropicPath(p) && IsAnthropicPath(q)
    ensures JoinBaseAndPath(JoinBaseAndPath(u, p), q) == JoinBaseAndPath(u, q)
            <==> (p == V1_MODELS || ReplacesMessages(Stripped(u).base))
  {
    hide Stripped, JoinBaseAndPath, EndsInV1, EndsWith, StartsWithV1;
    assert q[..4] == "/v1/" && q[..3] == "/v1" && "/v1/" <= q && WithLeadingSlash(q) == q;
    LowerV1Path(q);
    if p == V1_MODELS {
      V1ModelsEndpointReplacedIff(u, q);
    } else {
      MessagesEndpointReplacedIff(u, p, q);
    }
  }

  /** A URL without query that ends in a character no endpoint ends in is its own base. */
  lemma PlainBase(u: string)
    requires u != "" && NoMark(u) && u[|u| - 1] == '1'
    ensures Stripped(u) == UrlParts(u, "")
  {
    assert u + "" == u;
    SplitUrlUnique(u, "");
    DiffersAt(u, COUNT_TOKENS, 0);
    DiffersAt(u, MESSAGES, 0);
    DiffersAt(u, CHAT_COMPLETIONS, 0);
    DiffersAt(u, MODELS, 0);
  }

  /** The law fails on bases a user can configure: a doubled version, or an upper-case one. */
  lemma {:induction false} ReplacementFailures()
    ensures JoinBaseAndPath(JoinBaseAndPath("h/v1/v1", V1_MESSAGES), V1_MESSAGES)
            != JoinBaseAndPath("h/v1/v1", V1_MESSAGES)
    ensures JoinBaseAndPath(JoinBaseAndPath("h/V1", V1_MESSAGES), V1_MESSAGES)
            != JoinBaseAndPath("h/V1", V1_MESSAGES)
  {
    hide Stripped, VersionTail, StripEndpoint, JoinBaseAndPath;
    PlainBase("h/v1/v1");
    PlainBase("h/V1");
    var b := "h/v1/v1";
    assert b[..|b| - 3] == "h/v1";
    assert Lower("h/v1"[1..]) == "/v1" && Lower(b[4..]) == "/v1";
    AnthropicEndpointReplacedIff("h/v1/v1", V1_MESSAGES, V1_MESSAGES);
    var c := "h/V1";
    assert Lower(c[1..]) == "/v1" && c[1..][1] == 'V';
    AnthropicEndpointReplacedIff("h/V1", V1_MESSAGES, V1_MESSAGES);
  }
}

/** The cookie side of the authentication guard: the token is read from the
    `authorization` cookie, written as the scheme `Bearer`, one space and the token. */
module AuthGuard {
  import opened Common

  /** The position of the first space. */
  function FirstSpace(s: string): (i: nat)
    requires ' ' in s
    ensures i < |s| && s[i] == ' ' && ' ' !in s[..i]
  {
    if s[0] == ' ' then 0
    else
      var j := FirstSpace(s[1..]);
      assert s[..j + 1] == [s[0]] + s[1..][..j];
      j + 1
  }

  /** `s.split(' ')`: the pieces between single spaces, empty pieces included. */
  function Split(s: string): (r: seq<string>)
    ensures |r| >= 1
    ensures forall k :: 0 <= k < |r| ==> ' ' !in r[k]
    decreases |s|
  {
    if ' ' !in s then [s]
    else
      var i := FirstSpace(s);
      [s[..i]] + Split(s[i + 1..])
  }

  /** `pieces.join(' ')`. */
  function Join(pieces: seq<string>): (r: string)
    requires |pieces| >= 1
  {
    if |pieces| == 1 then pieces[0] else pieces[0] + " " + Join(pieces[1..])
  }

  /** Splitting loses nothing: joining the pieces with single spaces gives the string back. */
  lemma {:induction false} JoinSplit(s: string)
    ensures Join(Split(s)) == s
    decreases |s|
  {
    if ' ' in s {
      var i := FirstSpace(s);
      var pieces := Split(s);
      JoinSplit(s[i + 1..]);
      assert pieces[1..] == Split(s[i + 1..]);
      assert s == s[..i] + " " + s[i + 1..];
    }
  }

  /** The first space of a space-free word followed by a space is right after the word. */
  lemma {:induction false} FirstSpaceAfterWord(w: string, rest: string)
    requires ' ' !in w
    ensures FirstSpace(w + " " + rest) == |w|
    decreases |w|
  {
    if w != [] {
      assert (w + " " + rest)[1..] == w[1..] + " " + rest;
      FirstSpaceAfterWord(w[1..], rest);
    }
  }

  /** A space-free word followed by a space and more text splits into that word and the
      pieces of the rest. */
  lemma SplitWord(w: string, rest: string)
    requires ' ' !in w
    ensures Split(w + " " + rest) == [w] + Split(rest)
    ensures Split(w) == [w]
  {
    var s := w + " " + rest;
    FirstSpaceAfterWord(w, rest);
    assert s[..|w|] == w;
    assert s[|w| + 1..] == rest;
  }

  /** `extractTokenFromCookies`: the second piece when the first is exactly `Bearer`; no
      token when the cookie is missing, the scheme differs, or nothing follows it. */
  function ExtractToken(cookie: Option<string>): (r: Option<string>)
    ensures cookie.None? ==> r.None?
    ensures r.Some? ==> ' ' !in r.value
  {
    if cookie.None? then None
    else
      var pieces := Split(cookie.value);
      if pieces[0] == "Bearer" && |pieces| >= 2 then Some(pieces[1]) else None
  }

  /** A token is only ever read from a cookie that starts with `Bearer `, the token, and
      then either nothing or a space. */
  lemma ExtractTokenSound(c: string, t: string)
    requires ExtractToken(Some(c)) == Some(t)
    ensures c == "Bearer " + t || exists more :: c == "Bearer " + t + " " + more
  {
    var pieces := Split(c);
    JoinSplit(c);
    assert pieces[0] == "Bearer" && pieces[1] == t;
    var tail := Join(pieces[1..]);
    assert c == "Bearer" + " " + tail;
    if |pieces| == 2 {
      assert tail == t;
    } else {
      var more := Join(pieces[2..]);
      assert pieces[1..][1..] == pieces[2..];
      assert tail == t + " " + more;
      assert "Bearer" + " " + (t + " " + more) == "Bearer " + t + " " + more;
    }
  }

  /** `Bearer <token>` yields the token. */
  lemma BearerYieldsToken(t: string)
    requires ' ' !in t
    ensures ExtractToken(Some("Bearer " + t)) == Some(t)
  {
    assert "Bearer " + t == "Bearer" + " " + t;
    SplitWord("Bearer", t);
    SplitWord(t, "");
  }

  /** Pieces after the token are ignored. */
  lemma BearerIgnoresTrailingPieces(t: string, more: string)
    requires ' ' !in t
    ensures ExtractToken(Some("Bearer " + t + " " + more)) == Some(t)
  {
    assert "Bearer " + t + " " + more == "Bearer" + " " + (t + " " + more);
    SplitWord("Bearer", t + " " + more);
    SplitWord(t, more);
  }

  /** Any other first piece, `bearer` included, yields no token. */
  lemma OtherSchemeYieldsNothing(scheme: string, rest: string)
    requires ' ' !in scheme && scheme != "Bearer"
    ensures ExtractToken(Some(scheme + " " + rest)) == None
    ensures ExtractToken(Some(scheme)) == None
  {
    SplitWord(scheme, rest);
  }

  /** A bare `Bearer` has no second piece, so no token. */
  lemma BareBearerYieldsNothing()
    ensures ExtractToken(Some("Bearer")) == None
  {
    SplitWord("Bearer", "");
  }

  /** The outcome of the guard's first step. */
  datatype GuardStep = Unauthorized | Verify(token: string)

  /** The no-token branch of `canActivate`: a missing or empty token is refused before any
      verification; any other token is handed to the verifier. */
  function CanActivate(cookie: Option<string>): (r: GuardStep)
    ensures cookie.None? ==> r == Unauthorized
    ensures r.Verify? ==> r.token != "" && ExtractToken(cookie) == Some(r.token)
    ensures ExtractToken(cookie).Some? && ExtractToken(cookie).value != "" ==> r.Verify?
  {
    var token := ExtractToken(cookie);
    if token.None? || token.value == "" then Unauthorized else Verify(token.value)
  }

  /** `Bearer ` followed by nothing is an empty token and is refused. */
  lemma EmptyBearerRefused()
    ensures CanActivate(Some("Bearer ")) == Unauthorized
  {
    BearerYieldsToken("");
    assert "Bearer " + "" == "Bearer ";
  }

  /** `Bearer <token>` with a non-empty token reaches verification with that token. */
  lemma BearerReachesVerification(t: string)
    requires t != "" && ' ' !in t
    ensures CanActivate(Some("Bearer " + t)) == Verify(t)
  {
    BearerYieldsToken(t);
  }
}

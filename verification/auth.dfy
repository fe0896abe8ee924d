/**
 Token revocation: a blacklist that forgets expired entries, on lookup and in bulk, must decide like a
 set that never forgets. The look-up and the verification of one request happen at different times,
 and other threads run in between.
 */
module Auth {
  import opened Sqlite

  /** What the verifier reads from a token it accepts. */
  datatype Claims = Claims(userId: string, expiresAt: int)

  /** The token library: what it says of a token at a time. */
  type Verifier = (string, int) -> Option<Claims>

  /** The expiry is a fixed property of the token, and no token is accepted after it (section 4.1.4 of RFC 7519). */
  ghost predicate Lawful(verify: Verifier, expiry: string -> int) {
    forall token, now :: verify(token, now).Some? ==>
      verify(token, now).value.expiresAt == expiry(token) && now <= expiry(token)
  }

  type Blacklist = map<string, int>

  /** Looking a token up evicts it when it has expired. */
  function Lookup(b: Blacklist, token: string, now: int): (Blacklist, bool) {
    if token !in b then (b, false)
    else if b[token] < now then (b - {token}, false)
    else (b, true)
  }

  function Sweep(b: Blacklist, now: int): Blacklist {
    map token | token in b && b[token] >= now :: b[token]
  }

  // ---------------------------------------------------------------- the bearer token

  predicate Whitespace(c: char) {
    c == ' ' || c == '\t' || c == '\n' || c == '\r' || c as int == 11 || c as int == 12
  }

  predicate TokenChar(c: char) {
    'a' <= c <= 'z' || 'A' <= c <= 'Z' || '0' <= c <= '9' || c == '-' || c == '_' || c == '.'
  }

  /** The characters one by one. */
  lemma CharactersAre(c: char)
    ensures TokenChar(c) <==> c in "abcdefghijklmnopqrstuvwxyz" || c in "ABCDEFGHIJKLMNOPQRSTUVWXYZ" || c in "0123456789" || c in "-_."
    ensures Whitespace(c) <==> c as int in {9, 10, 11, 12, 13, 32}
  {
  }

  /** The header is the word, n > 0 white-space characters, and the token. */
  ghost predicate BearerHeader(header: string, n: nat, token: string) {
    && n > 0 && |header| == 6 + n + |token| && token != ""
    && header[..6] == "Bearer" && header[6 + n..] == token
    && (forall i | 6 <= i < 6 + n :: Whitespace(header[i]))
    && (forall i | 0 <= i < |token| :: TokenChar(token[i]))
  }

  /** The first position from i on that is not white space. */
  function SkipWhitespace(s: string, i: nat): (r: nat)
    requires i <= |s|
    ensures i <= r <= |s|
    ensures forall k | i <= k < r :: Whitespace(s[k])
    ensures r < |s| ==> !Whitespace(s[r])
    decreases |s| - i
  {
    if i < |s| && Whitespace(s[i]) then SkipWhitespace(s, i + 1) else i
  }

  function ExtractBearerToken(header: string): string {
    if |header| < 6 || header[..6] != "Bearer" then ""
    else
      var n := SkipWhitespace(header, 6);
      if n > 6 && forall i | n <= i < |header| :: TokenChar(header[i]) then header[n..] else ""
  }

  lemma ExtractedIsBearer(header: string)
    requires ExtractBearerToken(header) != ""
    ensures BearerHeader(header, SkipWhitespace(header, 6) - 6, ExtractBearerToken(header))
  {
    var n, token := SkipWhitespace(header, 6), ExtractBearerToken(header);
    assert forall i | 0 <= i < |token| :: token[i] == header[n + i];
  }

  lemma BearerIsExtracted(header: string, n: nat, token: string)
    requires BearerHeader(header, n, token)
    ensures ExtractBearerToken(header) == token
  {
    assert forall i | 0 <= i < |token| :: token[i] == header[6 + n + i];
    assert SkipWhitespace(header, 6) == 6 + n by {
      assert header[6 + n] == token[0] && TokenChar(token[0]) && !Whitespace(header[6 + n]);
    }
    assert forall i | 6 + n <= i < |header| :: header[i] == token[i - 6 - n];
  }

  /** A non-empty result is exactly the token of a well-formed header. */
  lemma ExtractIsExact(header: string, token: string)
    requires token != ""
    ensures ExtractBearerToken(header) == token <==> exists n: nat :: BearerHeader(header, n, token)
  {
    hide BearerHeader;
    if ExtractBearerToken(header) == token { ExtractedIsBearer(header); }
    if n: nat :| BearerHeader(header, n, token) { BearerIsExtracted(header, n, token); }
  }

  // ---------------------------------------------------------------- the middleware

  function Revoke(verify: Verifier, m: Middleware, token: string, verifiedAt: int, sweptAt: int): Middleware {
    match verify(token, verifiedAt)
    case None => m
    case Some(claims) =>
      var b := m.blacklist[token := claims.expiresAt];
      Middleware(if (m.count + 1) % 10 == 0 then Sweep(b, sweptAt) else b, m.count + 1)
  }

  /** `count` is the static counter of successful revocations. */
  datatype Middleware = Middleware(blacklist: Blacklist, count: nat)

  class AuthMiddleware {
    const verify: Verifier
    var blacklist: Blacklist
    var count: nat

    constructor (verify: Verifier)
      ensures this.verify == verify && blacklist == map[] && count == 0
    {
      this.verify := verify;
      blacklist, count := map[], 0;
    }

    method IsTokenInvalidated(token: string, now: int) returns (hit: bool)
      modifies this`blacklist
      ensures (blacklist, hit) == Lookup(old(blacklist), token, now)
    {
      if token !in blacklist { return false; }
      if blacklist[token] < now {
        blacklist := blacklist - {token};
        return false;
      }
      hit := true;
    }

    method CleanBlacklist(now: int)
      modifies this`blacklist
      ensures blacklist == Sweep(old(blacklist), now)
    {
      blacklist := map token | token in blacklist && blacklist[token] >= now :: blacklist[token];
    }

    method InvalidateToken(token: string, verifiedAt: int, sweptAt: int)
      modifies this
      ensures Middleware(blacklist, count) == Revoke(verify, old(Middleware(blacklist, count)), token, verifiedAt, sweptAt)
    {
      var claims := verify(token, verifiedAt);
      if claims.None? { return; }
      blacklist := blacklist[token := claims.value.expiresAt];
      count := count + 1;
      if count % 10 == 0 { CleanBlacklist(sweptAt); }
    }

    /** The user of an accepted request. */
    method ValidateRequest(header: string, checkedAt: int, verifiedAt: int) returns (user: Option<string>)
      modifies this`blacklist
      ensures var token := ExtractBearerToken(header);
              if token == "" then user.None? && blacklist == old(blacklist)
              else
                && blacklist == Lookup(old(blacklist), token, checkedAt).0
                && user == if Lookup(old(blacklist), token, checkedAt).1 || verify(token, verifiedAt).None? then None
                           else Some(verify(token, verifiedAt).value.userId)
    {
      if header == "" { return None; }
      var token := ExtractBearerToken(header);
      if token == "" { return None; }
      var hit := IsTokenInvalidated(token, checkedAt);
      if hit { return None; }
      var claims := verify(token, verifiedAt);
      if claims.None? { return None; }
      user := Some(claims.value.userId);
    }
  }

  // ---------------------------------------------------------------- how large the blacklist gets

  datatype Request = Validate(token: string, now: int) | Invalidate(token: string, verifiedAt: int, sweptAt: int)

  /** A run of one middleware; `kept` is how many entries the last sweep found unexpired. */
  datatype Tally = Tally(m: Middleware, kept: nat)

  function Handle(verify: Verifier, t: Tally, r: Request): Tally {
    match r
    case Validate(token, now) => t.(m := t.m.(blacklist := Lookup(t.m.blacklist, token, now).0))
    case Invalidate(token, verifiedAt, sweptAt) =>
      var m := Revoke(verify, t.m, token, verifiedAt, sweptAt);
      Tally(m, if m.count != t.m.count && m.count % 10 == 0 then |m.blacklist| else t.kept)
  }

  function HandleAll(verify: Verifier, t: Tally, rs: seq<Request>): Tally
    decreases |rs|
  {
    if rs == [] then t else HandleAll(verify, Handle(verify, t, rs[0]), rs[1..])
  }

  /** The verifier has accepted the token with this expiry. */
  ghost predicate Accepted(verify: Verifier, token: string, expiresAt: int) {
    exists now :: verify(token, now).Some? && verify(token, now).value.expiresAt == expiresAt
  }

  ghost predicate Small(verify: Verifier, t: Tally) {
    && |t.m.blacklist| <= t.kept + t.m.count % 10
    && AllAccepted(verify, t.m.blacklist)
  }

  ghost predicate AllAccepted(verify: Verifier, b: Blacklist) {
    forall token | token in b :: Accepted(verify, token, b[token])
  }

  /** Another token: one entry more at most, and the sweep only removes. */
  lemma AddOneEntry(verify: Verifier, b: Blacklist, token: string, verifiedAt: int, sweptAt: int)
    requires AllAccepted(verify, b) && verify(token, verifiedAt).Some?
    ensures var b' := b[token := verify(token, verifiedAt).value.expiresAt];
            |b'| <= |b| + 1 && AllAccepted(verify, b') && AllAccepted(verify, Sweep(b', sweptAt))
  {
    var b' := b[token := verify(token, verifiedAt).value.expiresAt];
    assert b'.Keys == b.Keys + {token};
    assert Accepted(verify, token, b'[token]);
    hide Accepted;
    SweptAccepted(verify, b', sweptAt);
  }

  lemma SweptAccepted(verify: Verifier, b: Blacklist, sweptAt: int)
    requires AllAccepted(verify, b)
    ensures AllAccepted(verify, Sweep(b, sweptAt))
  {
    hide Accepted;
  }

  lemma RevokeKeepsSmall(verify: Verifier, t: Tally, token: string, verifiedAt: int, sweptAt: int)
    requires Small(verify, t) && verify(token, verifiedAt).Some?
    ensures Small(verify, Handle(verify, t, Invalidate(token, verifiedAt, sweptAt)))
  {
    hide Accepted, AllAccepted, Sweep;
    AddOneEntry(verify, t.m.blacklist, token, verifiedAt, sweptAt);
    assert (t.m.count + 1) % 10 == if t.m.count % 10 == 9 then 0 else t.m.count % 10 + 1;
  }

  lemma HandleKeepsSmall(verify: Verifier, t: Tally, r: Request)
    requires Small(verify, t)
    ensures Small(verify, Handle(verify, t, r))
  {
    match r
    case Validate(token, _) =>
      if token in t.m.blacklist { assert (t.m.blacklist - {token}).Keys == t.m.blacklist.Keys - {token}; }
    case Invalidate(token, verifiedAt, sweptAt) =>
      if verify(token, verifiedAt).Some? { RevokeKeepsSmall(verify, t, token, verifiedAt, sweptAt); }
  }

  /**
   Between calls the blacklist holds at most nine entries more than the last sweep left unexpired, and
   each entry was accepted by the verifier, with that expiry.
   */
  lemma {:induction false} BlacklistStaysSmall(verify: Verifier, t: Tally, rs: seq<Request>)
    requires Small(verify, t)
    ensures Small(verify, HandleAll(verify, t, rs))
    ensures |HandleAll(verify, t, rs).m.blacklist| <= HandleAll(verify, t, rs).kept + 9
    decreases |rs|
  {
    if rs != [] {
      HandleKeepsSmall(verify, t, rs[0]);
      BlacklistStaysSmall(verify, Handle(verify, t, rs[0]), rs[1..]);
    }
  }
}

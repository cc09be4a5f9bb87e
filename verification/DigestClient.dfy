/**
 The console's side of digest authentication, and the two sides together: a request
 printed by a client that knows the key is accepted exactly once for each count.
 */
module DigestClient {
  import opened Wrappers
  import opened Octets
  import opened Text
  import opened DigestCount
  import opened DigestAuth
  import Hex
  import F = DigestFields

  // What one request is answered with.
  datatype Credentials = Credentials(
    realm: string, nonce: string, uri: string, response: string, nc: string, cnonce: string)

  function Params(c: Credentials): seq<F.Param> {
    [F.Quoted("username", USERNAME), F.Quoted("realm", c.realm), F.Quoted("nonce", c.nonce), F.Quoted("uri", c.uri),
     F.Quoted("response", c.response), F.Bare("qop", "auth"), F.Bare("nc", c.nc),
     F.Quoted("cnonce", c.cnonce), F.Bare("algorithm", "SHA-256")]
  }

  function Header(c: Credentials): string { F.SCHEME + F.Join(Params(c)) }

  // The client's own hash of its key and its request.
  function DigestResponse(sha: Sha, username: string, realm: string, key: string, verb: string, uri: string,
                          nonce: string, nc: string, cnonce: string): string {
    var a1, a2 := Hex.Encoded(sha(username + ":" + realm + ":" + key)), Hex.Encoded(sha(verb + ":" + uri));
    Hex.Encoded(sha(a1 + ":" + nonce + ":" + nc + ":" + cnonce + ":auth:" + a2))
  }

  /** Client and device hash the same text. */
  lemma BothSidesHashAlike(sha: Sha, username: string, realm: string, key: string, verb: string, uri: string,
                           nonce: string, nc: string, cnonce: string)
    ensures DigestResponse(sha, username, realm, key, verb, uri, nonce, nc, cnonce)
         == ResponseHash(sha, username, realm, key, verb, uri, nonce, nc, cnonce)
  {}

  function Answer(sha: Sha, key: string, realm: string, nonce: string, verb: string, uri: string,
                  count: nat, cnonce: Bytes): Credentials {
    var nc, client := PrintCount(count), Hex.Encoded(cnonce);
    Credentials(realm, nonce, uri, DigestResponse(sha, USERNAME, realm, key, verb, uri, nonce, nc, client), nc, client)
  }

  predicate QuoteFree(s: string) { '"' !in s }

  lemma LowerStays(s: string)
    requires forall i :: 0 <= i < |s| ==> !('A' <= s[i] <= 'Z')
    ensures Lower(s) == s
  {}

  lemma NamesLower()
    ensures Lower("username") == "username" && Lower("realm") == "realm" && Lower("nonce") == "nonce"
    ensures Lower("uri") == "uri" && Lower("response") == "response" && Lower("qop") == "qop"
    ensures Lower("nc") == "nc" && Lower("cnonce") == "cnonce" && Lower("algorithm") == "algorithm"
  {
    LowerStays("username");
    LowerStays("realm");
    LowerStays("nonce");
    LowerStays("uri");
    LowerStays("response");
    LowerStays("qop");
    LowerStays("nc");
    LowerStays("cnonce");
    LowerStays("algorithm");
  }

  lemma NamesStand()
    ensures F.NameStands("username") && F.NameStands("realm") && F.NameStands("nonce")
    ensures F.NameStands("uri") && F.NameStands("response") && F.NameStands("qop")
    ensures F.NameStands("nc") && F.NameStands("cnonce") && F.NameStands("algorithm")
  {}

  lemma ParamsAre(c: Credentials)
    ensures var ps := Params(c);
      && |ps| == 9
      && ps[0] == F.Quoted("username", USERNAME) && ps[1] == F.Quoted("realm", c.realm)
      && ps[2] == F.Quoted("nonce", c.nonce) && ps[3] == F.Quoted("uri", c.uri)
      && ps[4] == F.Quoted("response", c.response) && ps[5] == F.Bare("qop", "auth")
      && ps[6] == F.Bare("nc", c.nc) && ps[7] == F.Quoted("cnonce", c.cnonce)
      && ps[8] == F.Bare("algorithm", "SHA-256")
  {}

  lemma ParamsTold(c: Credentials)
    ensures F.Told(Params(c))
  {
    NamesLower();
    ParamsAre(c);
    hide Lower, Params;
    assert "realm"[0] != "nonce"[0] && "username"[0] != "response"[0] && "uri"[0] != "qop"[0];
  }

  lemma ConstantsStand()
    ensures F.Printable(F.Quoted("username", USERNAME))
    ensures F.Printable(F.Bare("qop", "auth")) && F.Printable(F.Bare("algorithm", "SHA-256"))
  {}

  ghost predicate Plain(c: Credentials) {
    && QuoteFree(c.realm) && QuoteFree(c.nonce) && QuoteFree(c.uri)
    && Hex.Lowercase(c.response) && Hex.Lowercase(c.nc) && Hex.Lowercase(c.cnonce)
  }

  lemma ParamsPrintable(c: Credentials)
    requires Plain(c)
    ensures F.AllPrintable(Params(c))
  {
    NamesStand();
    ConstantsStand();
    LowercasePrintable("response", c.response);
    LowercasePrintable("nc", c.nc);
    LowercasePrintable("cnonce", c.cnonce);
    assert F.Printable(F.Quoted("realm", c.realm)) && F.Printable(F.Quoted("nonce", c.nonce))
        && F.Printable(F.Quoted("uri", c.uri));
    ParamsAre(c);
    hide F.Printable, F.NameStands, Params, Hex.Lowercase, QuoteFree;
  }

  // The nine fields, each with its value.
  ghost predicate Carries(f: F.Fields, c: Credentials) {
    && "username" in f && f["username"] == USERNAME && "realm" in f && f["realm"] == c.realm
    && "nonce" in f && f["nonce"] == c.nonce && "uri" in f && f["uri"] == c.uri
    && "response" in f && f["response"] == c.response && "qop" in f && f["qop"] == "auth"
    && "nc" in f && f["nc"] == c.nc && "cnonce" in f && f["cnonce"] == c.cnonce
    && "algorithm" in f && f["algorithm"] == "SHA-256"
  }

  /** Every field of printed credentials is read back as it was, for values without a quote in them. */
  lemma CredentialsParse(c: Credentials)
    requires Plain(c)
    ensures F.Parse(Header(c)).Some? && Carries(F.Parse(Header(c)).value, c)
  {
    ParamsPrintable(c);
    ParamsTold(c);
    F.PrintedHeaderParses(Params(c));
    NamesLower();
    ParamsAre(c);
    hide Lower, Params, F.Parse, F.Join, F.Told, F.AllPrintable, Plain;
  }

  lemma AnswerClaims(sha: Sha, key: string, nonce: string, verb: string, uri: string, count: nat, cnonce: Bytes)
    requires QuoteFree(nonce) && QuoteFree(uri)
    ensures var c := Answer(sha, key, REALM, nonce, verb, uri, count, cnonce);
      Claimed(uri, Some(Header(c))) ==
        if count < LIMIT then Some(Claim(nonce, c.nc, c.cnonce, c.response, count)) else None
  {
    var c := Answer(sha, key, REALM, nonce, verb, uri, count, cnonce);
    CountRoundTrip(count);
    Hex.EncodedInjective(cnonce, cnonce);
    ResponseIsHex(sha, USERNAME, REALM, key, verb, uri, nonce, c.nc, c.cnonce);
    assert Plain(c);
    CredentialsParse(c);
    hide DigestResponse, PrintCount, ParseCount, F.Parse, Header, Plain, Hex.Lowercase;
  }

  lemma ResponseIsHex(sha: Sha, username: string, realm: string, secret: string, verb: string, uri: string,
                      nonce: string, nc: string, cnonce: string)
    ensures Hex.Lowercase(DigestResponse(sha, username, realm, secret, verb, uri, nonce, nc, cnonce))
  {
    var a1, a2 := Hex.Encoded(sha(username + ":" + realm + ":" + secret)), Hex.Encoded(sha(verb + ":" + uri));
    var bytes := sha(a1 + ":" + nonce + ":" + nc + ":" + cnonce + ":auth:" + a2);
    Hex.EncodedInjective(bytes, bytes);
  }

  // No count this high has been accepted for the nonce.
  ghost predicate Unused(s: State, nonce: string, count: nat) {
    count > 0 && forall i :: 0 <= i < |s.granted| && s.granted[i].nonce == nonce ==> s.granted[i].count < count
  }

  lemma UnusedExactly(s: State, at: nat, count: nat)
    requires Tracked(s) && at < |s.table|
    ensures Unused(s, s.table[at].value, count) <==> s.table[at].lastNc < count
  {
    var n := s.table[at];
    assert Remembers(n, s.granted);
    if n.lastNc > 0 && Unused(s, n.value, count) {
      var i :| 0 <= i < |s.granted| && s.granted[i] == Grant(n.value, n.lastNc);
    }
  }

  // The nonce is one of the last four issued, and within its lifetime.
  ghost predicate AliveAt(s: State, p: nat, nonce: string, now: nat) {
    p < |s.issued| && s.issued[p].value == nonce && |s.issued| - p <= MAX_NONCES && now - s.issued[p].at < NONCE_TTL_MS
  }

  ghost predicate Alive(s: State, nonce: string, now: nat) { exists p: nat :: AliveAt(s, p, nonce, now) }

  ghost predicate NoneTwice(issued: seq<Stamp>) {
    forall p, q :: 0 <= p < |issued| && 0 <= q < |issued| && p != q ==> issued[p].value != issued[q].value
  }

  lemma AliveFound(s: State, p: nat, nonce: string, now: nat)
    requires Window(s) && NoneTwice(s.issued) && s.clock <= now && AliveAt(s, p, nonce, now)
    ensures var at := FindNonce(s.table, nonce); at.Some? && !Expired(s.table[at.value], now)
  {
    hide FindNonce;
    assert s.issued[|s.issued| - 1].at <= s.clock && s.issued[p].at <= s.clock;
    WindowHolds(s, p);
  }

  lemma FoundAlive(s: State, at: nat, now: nat)
    requires Window(s) && s.clock <= now && at < |s.table| && !Expired(s.table[at], now)
    ensures Alive(s, s.table[at].value, now)
  {
    var p := |s.issued| - |s.table| + at;
    hide Outlived;
    assert Stamped(s.table[at], s.issued[p]) && s.issued[p].at <= s.clock;
    assert AliveAt(s, p, s.table[at].value, now);
  }

  // A nonce is found in the table, and found unexpired, exactly when it is alive.
  lemma AliveIsFound(s: State, nonce: string, now: nat)
    requires Window(s) && NoneTwice(s.issued) && s.clock <= now
    ensures var at := FindNonce(s.table, nonce);
      Alive(s, nonce, now) <==> at.Some? && !Expired(s.table[at.value], now)
  {
    hide FindNonce, Window, Expired, AliveAt, NoneTwice;
    var at := FindNonce(s.table, nonce);
    if Alive(s, nonce, now) {
      var p: nat :| AliveAt(s, p, nonce, now);
      AliveFound(s, p, nonce, now);
    }
    if at.Some? && !Expired(s.table[at.value], now) { FoundAlive(s, at.value, now); }
  }

  lemma NeverTwice(events: seq<Event>, sha: Sha)
    requires Fresh(events, sha)
    ensures NoneTwice(After(events, sha).issued)
  {
    var issued := After(events, sha).issued;
    forall p: nat, q: nat | p < |issued| && q < |issued| && p != q ensures issued[p].value != issued[q].value {
      IssuedDiffer(events, sha, Min(p, q), Max(p, q));
    }
  }

  // What the table says of an answer.
  lemma AnswerIsJudged(s: State, sha: Sha, nonce: string, secret: string, key: string, verb: string, uri: string,
                       count: nat, cnonce: Bytes, now: nat)
    requires Tracked(s) && secret != "" && QuoteFree(uri) && QuoteFree(nonce)
    ensures var c := Answer(sha, key, REALM, nonce, verb, uri, count, cnonce);
      var at := FindNonce(s.table, nonce);
      Authorize(s.table, sha, secret, verb, uri, Some(Header(c)), now).verdict ==
        if count >= LIMIT then Denied(false)
        else if at.None? || Expired(s.table[at.value], now) || !Unused(s, nonce, count) then Denied(true)
        else if c.response == Answer(sha, secret, REALM, nonce, verb, uri, count, cnonce).response then Authorized
        else Denied(false)
  {
    AnswerClaims(sha, key, nonce, verb, uri, count, cnonce);
    var at := FindNonce(s.table, nonce);
    if at.Some? { UnusedExactly(s, at.value, count); }
    BothSidesHashAlike(sha, USERNAME, REALM, secret, verb, uri, nonce, PrintCount(count), Hex.Encoded(cnonce));
    hide Tracked, Claimed, Header, ResponseHash, DigestResponse, Unused, PrintCount, QuoteFree, Expired, FindNonce;
  }

  /**
   Over every run, a client is answered as promised, whatever its key, its nonce and its
   count. A nonce that is none of the last four or past its lifetime, or a count not above
   all accepted before, is only stale; otherwise the request is accepted if and only if its
   response is the one a client with the device's key gives.
   */
  lemma ClientIsAnswered(events: seq<Event>, sha: Sha, nonce: string, secret: string, key: string, verb: string,
                         uri: string, count: nat, cnonce: Bytes, now: nat)
    requires Fresh(events, sha) && Monotone(events) && After(events, sha).clock <= now
    requires secret != "" && QuoteFree(uri) && QuoteFree(nonce)
    ensures var s := After(events, sha);
      var c := Answer(sha, key, REALM, nonce, verb, uri, count, cnonce);
      Authorize(s.table, sha, secret, verb, uri, Some(Header(c)), now).verdict ==
        if count >= LIMIT then Denied(false)
        else if !Alive(s, nonce, now) || !Unused(s, nonce, count) then Denied(true)
        else if c.response == Answer(sha, secret, REALM, nonce, verb, uri, count, cnonce).response then Authorized
        else Denied(false)
  {
    AlwaysTracked(events, sha);
    AlwaysWindow(events, sha);
    NeverTwice(events, sha);
    AliveIsFound(After(events, sha), nonce, now);
    hide After, Fresh, Monotone, Tracked, Window, NoneTwice, FindNonce, Authorize, Header, Answer;
    hide Unused, QuoteFree, Alive, Expired;
    AnswerIsJudged(After(events, sha), sha, nonce, secret, key, verb, uri, count, cnonce, now);
  }
}

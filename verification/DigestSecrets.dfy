/** What it takes to be authorized: a digest that only the key, this request and this nonce give. */
module DigestSecrets {
  import opened Wrappers
  import opened DigestCount
  import opened DigestAuth
  import opened DigestClient
  import Hex
  import F = DigestFields

  // ----- who is let in ----------------------------------------------------------------------------

  // The header's fields name the device's account and realm, and the path the request uses.
  ghost predicate Addressed(f: F.Fields, uri: string) {
    && {"username", "realm", "nonce", "uri", "response", "qop", "nc", "cnonce"} <= f.Keys
    && f["username"] == "admin" && f["realm"] == "streamline" && f["uri"] == uri && f["qop"] == "auth"
    && ("algorithm" in f ==> f["algorithm"] == "SHA-256")
    && ParseCount(f["nc"]).Some?
  }

  // The nonce was issued less than an hour ago, and this count has not been used with it.
  ghost predicate Usable(n: Nonce, value: string, count: nat, now: nat) {
    n.value == value && now - n.issuedAt < 3_600_000 && count > n.lastNc
  }

  ghost predicate Proves(f: F.Fields, sha: Sha, secret: string, verb: string, uri: string)
    requires Addressed(f, uri)
  {
    f["response"] == DigestResponse(sha, "admin", "streamline", secret, verb, uri, f["nonce"], f["nc"], f["cnonce"])
  }

  ghost predicate SomeUsable(table: seq<Nonce>, value: string, count: nat, now: nat) {
    exists i :: 0 <= i < |table| && Usable(table[i], value, count, now)
  }

  // The count is noted with the nonce, and nothing else changes.
  ghost predicate OnlyCounts(before: seq<Nonce>, after: seq<Nonce>, nonce: string, count: nat) {
    && |after| == |before|
    && forall i :: 0 <= i < |before| ==>
         after[i] == if before[i].value == nonce then before[i].(lastNc := count) else before[i]
  }

  /**
   Without a key everything is authorized. With one, a request is authorized exactly when its header is addressed to the
   device, names a usable nonce and carries the digest that the key gives for this verb and
   path; the digest alone wrong or the header unfit is a denial, anything else only stale.
   */
  lemma AuthorizedExactly(table: seq<Nonce>, sha: Sha, secret: string, verb: string, uri: string,
                          header: Option<string>, now: nat)
    requires Differ(table)
    ensures var r, f := Authorize(table, sha, secret, verb, uri, header, now), Fields(header);
      if secret == "" then r == Ruling(table, Authorized)
      else if f.None? || !Addressed(f.value, uri) then r == Ruling(table, Denied(false))
      else
        var nonce, count := f.value["nonce"], ParseCount(f.value["nc"]).value;
        && (r.verdict == Authorized <==>
              SomeUsable(table, nonce, count, now) && Proves(f.value, sha, secret, verb, uri))
        && (r.verdict == Denied(true) <==> !SomeUsable(table, nonce, count, now))
        && if r.verdict.Authorized? then OnlyCounts(table, r.table, nonce, count) else r.table == table
  {
    var f := Fields(header);
    hide F.Parse, ParseCount, ResponseHash, DigestResponse, SomeUsable, FindNonce, Expired;
    if f.Some? && Addressed(f.value, uri) {
      var count := ParseCount(f.value["nc"]).value;
      var c := Claim(f.value["nonce"], f.value["nc"], f.value["cnonce"], f.value["response"], count);
      assert Claimed(uri, header) == Some(c);
      JudgedExactly(table, sha, secret, verb, uri, c, now);
    } else {
      assert Claimed(uri, header).None?;
    }
  }

  lemma JudgedExactly(table: seq<Nonce>, sha: Sha, secret: string, verb: string, uri: string, c: Claim, now: nat)
    requires Differ(table)
    ensures var r := Judge(table, sha, secret, verb, uri, c, now);
      && (r.verdict == Authorized <==>
            && SomeUsable(table, c.nonce, c.count, now)
            && c.response == DigestResponse(sha, "admin", "streamline", secret, verb, uri, c.nonce, c.nc, c.cnonce))
      && (r.verdict == Denied(true) <==> !SomeUsable(table, c.nonce, c.count, now))
      && if r.verdict.Authorized? then OnlyCounts(table, r.table, c.nonce, c.count) else r.table == table
  {
    hide ResponseHash, DigestResponse, SomeUsable, FindNonce;
    BothSidesHashAlike(sha, "admin", "streamline", secret, verb, uri, c.nonce, c.nc, c.cnonce);
    UsableIsFound(table, c.nonce, c.count, now);
  }

  function Fields(header: Option<string>): Option<F.Fields> {
    if header.None? then None else F.Parse(header.value)
  }

  lemma UsableIsFound(table: seq<Nonce>, nonce: string, count: nat, now: nat)
    requires Differ(table)
    ensures var at := FindNonce(table, nonce);
      SomeUsable(table, nonce, count, now) <==> at.Some? && Usable(table[at.value], nonce, count, now)
  {
    hide FindNonce;
  }

  // ----- what a digest binds ----------------------------------------------------------------------

  // Two texts with the same hash.
  ghost predicate Collide(sha: Sha, a: string, b: string) { a != b && sha(a) == sha(b) }

  datatype Request = Request(key: string, verb: string, uri: string, nonce: string, nc: string, cnonce: string)

  function Account(r: Request): string { "admin:streamline:" + r.key }

  function Target(r: Request): string { r.verb + ":" + r.uri }

  function Middle(r: Request): string { ":" + r.nonce + ":" + r.nc + ":" + r.cnonce + ":auth:" }

  // The text that is hashed last.
  function Whole(sha: Sha, r: Request): string {
    Hex.Encoded(sha(Account(r))) + Middle(r) + Hex.Encoded(sha(Target(r)))
  }

  function ResponseOf(sha: Sha, r: Request): string {
    DigestResponse(sha, "admin", "streamline", r.key, r.verb, r.uri, r.nonce, r.nc, r.cnonce)
  }

  lemma ResponseIsWhole(sha: Sha, r: Request)
    ensures ResponseOf(sha, r) == Hex.Encoded(sha(Whole(sha, r)))
  {
    assert "admin" + ":" + "streamline" + ":" == "admin:streamline:";
    assert "admin" + ":" + "streamline" + ":" + r.key == Account(r);
    var a1, a2 := Hex.Encoded(sha(Account(r))), Hex.Encoded(sha(Target(r)));
    assert a1 + ":" + r.nonce + ":" + r.nc + ":" + r.cnonce + ":auth:" + a2 == Whole(sha, r);
  }

  /**
   One response stands for one key, verb and path, nonce, count and client nonce: two
   requests with the same response are the same in all of them, or show two texts with the
   same hash. The hash is only taken to have one length, as SHA-256 does.
   */
  lemma ResponseBinds(sha: Sha, a: Request, b: Request)
    requires forall text :: |sha(text)| == 32
    requires ResponseOf(sha, a) == ResponseOf(sha, b)
    ensures || (a.key == b.key && Target(a) == Target(b) && Middle(a) == Middle(b))
            || Collide(sha, Whole(sha, a), Whole(sha, b))
            || Collide(sha, Account(a), Account(b))
            || Collide(sha, Target(a), Target(b))
  {
    ResponseIsWhole(sha, a);
    ResponseIsWhole(sha, b);
    Hex.EncodedInjective(sha(Whole(sha, a)), sha(Whole(sha, b)));
    if Whole(sha, a) == Whole(sha, b) {
      assert Account(a)[17..] == a.key && Account(b)[17..] == b.key;
      SameParts(Hex.Encoded(sha(Account(a))), Middle(a), Hex.Encoded(sha(Target(a))),
                Hex.Encoded(sha(Account(b))), Middle(b), Hex.Encoded(sha(Target(b))));
      Hex.EncodedInjective(sha(Account(a)), sha(Account(b)));
      Hex.EncodedInjective(sha(Target(a)), sha(Target(b)));
    }
  }

  lemma SameParts(a1: string, a2: string, a3: string, b1: string, b2: string, b3: string)
    requires a1 + a2 + a3 == b1 + b2 + b3 && |a1| == |b1| && |a3| == |b3|
    ensures a1 == b1 && a2 == b2 && a3 == b3
  {
    var a, b, n, m := a1 + a2 + a3, b1 + b2 + b3, |a1|, |a1 + a2|;
    assert a[..n] == a1 && a[n..m] == a2 && a[m..] == a3;
    assert b[..n] == b1 && b[n..m] == b2 && b[m..] == b3;
  }

  /**
   A client with another key than the device's, or for another verb and path, is authorized
   only if it has found two texts with the same hash.
   */
  lemma OnlyTheKeyOpens(table: seq<Nonce>, sha: Sha, secret: string, verb: string, uri: string, header: Option<string>,
                        now: nat, key: string, askedVerb: string, askedUri: string)
    requires secret != "" && Differ(table) && forall text :: |sha(text)| == 32
    requires Fields(header).Some? && Addressed(Fields(header).value, uri)
    requires var f := Fields(header).value;
      f["response"] == ResponseOf(sha, Request(key, askedVerb, askedUri, f["nonce"], f["nc"], f["cnonce"]))
    requires Authorize(table, sha, secret, verb, uri, header, now).verdict.Authorized?
    requires key != secret || askedVerb + ":" + askedUri != verb + ":" + uri
    ensures exists x, y :: Collide(sha, x, y)
  {
    var f := Fields(header).value;
    AuthorizedExactly(table, sha, secret, verb, uri, header, now);
    var mine := Request(key, askedVerb, askedUri, f["nonce"], f["nc"], f["cnonce"]);
    var theirs := Request(secret, verb, uri, f["nonce"], f["nc"], f["cnonce"]);
    ResponseBinds(sha, mine, theirs);
    hide Authorize, DigestResponse, F.Parse, Whole, Middle, ParseCount, Hex.Encoded;
  }
}

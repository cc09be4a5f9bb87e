/** Both sides as the objects that keep their state. */
module DigestObjects {
  import opened Wrappers
  import opened Octets
  import opened DigestCount
  import A = DigestAuth
  import C = DigestClient
  import Hex
  import F = DigestFields

  class DigestAuthenticator {
    var nonces: seq<A.Nonce>
    ghost var history: A.State   // with every nonce issued and every (nonce, count) accepted

    ghost predicate Valid()
      reads this
    {
      history.table == nonces
    }

    // Accepted counts rise for each nonce, and the table remembers the highest of each.
    ghost predicate Tracked()
      reads this
    {
      A.Tracked(history)
    }

    constructor ()
      ensures nonces == [] && history == A.EMPTY && Valid() && Tracked()
    {
      nonces := [];
      history := A.EMPTY;
    }

    method Challenge(random: Bytes, now: nat, stale: bool) returns (header: string)
      requires |random| == A.NONCE_BYTES && Valid()
      modifies this
      ensures nonces == A.Issue(old(nonces), Hex.Encoded(random), now)
      ensures Valid() && history == A.Issued(old(history), Hex.Encoded(random), now)
      ensures old(Tracked()) && !A.IsIssued(old(history), Hex.Encoded(random)) ==> Tracked()
      ensures var offer := "Digest realm=\"" + A.REALM + "\", qop=\"auth\", algorithm=SHA-256, nonce=\""
                + Hex.Encoded(random) + "\"";
        header == if stale then offer + ", stale=true" else offer
    {
      if Tracked() && !A.IsIssued(history, Hex.Encoded(random)) { A.IssueTracked(history, Hex.Encoded(random), now); }
      history := A.Issued(history, Hex.Encoded(random), now);
      hide A.Tracked, A.IsIssued;
      nonces := A.Live(nonces, now);
      var value := Hex.Encode(random);
      if |nonces| >= A.MAX_NONCES {
        nonces := nonces[1..];
      }
      nonces := nonces + [A.Nonce(value, now, 0)];
      header := "Digest realm=\"" + A.REALM + "\", qop=\"auth\", algorithm=SHA-256, nonce=\"" + value + "\"";
      if stale {
        header := header + ", stale=true";
      }
    }

    /**
     Check a request against the admin key; an empty key lets everything through. The
     history stays one in which accepted counts rise for each nonce.
     */
    method Authorize(sha: A.Sha, secret: string, verb: string, uri: string, header: Option<string>, now: nat)
      returns (verdict: A.Verdict)
      requires Valid()
      modifies this
      ensures Valid() && history == A.Perform(old(history), sha, A.Requested(secret, verb, uri, header, now))
      ensures old(Tracked()) ==> Tracked()
      ensures A.Ruling(nonces, verdict) == A.Authorize(old(nonces), sha, secret, verb, uri, header, now)
    {
      ghost var request := A.Requested(secret, verb, uri, header, now);
      if Tracked() { A.RequestTracked(history, sha, request); }
      history := A.Perform(history, sha, request);
      hide A.Tracked, A.Perform;
      assert history.table == A.Authorize(nonces, sha, secret, verb, uri, header, now).table;
      if secret == "" {
        return A.Authorized;
      }
      var fields: Option<F.Fields> := None;
      if header.Some? {
        fields := F.ParseDigestFields(header.value);
      }
      if fields.None? {
        return A.Denied(false);
      }
      var f := fields.value;
      if !("username" in f && "realm" in f && "nonce" in f && "uri" in f && "response" in f) {
        return A.Denied(false);
      }
      if !("qop" in f && "nc" in f && "cnonce" in f) {
        return A.Denied(false);
      }
      if f["username"] != A.USERNAME || f["realm"] != A.REALM || f["uri"] != uri || f["qop"] != "auth"
         || ("algorithm" in f && f["algorithm"] != "SHA-256") {
        return A.Denied(false);
      }
      var count := ParseCount(f["nc"]);
      if count.None? {
        return A.Denied(false);
      }
      hide F.Parse, ParseCount, A.ResponseHash;
      var at := A.FindNonce(nonces, f["nonce"]);
      if at.None? {
        return A.Denied(true);
      }
      var entry := nonces[at.value];
      if SaturatingSub(now, entry.issuedAt) >= A.NONCE_TTL_MS {
        return A.Denied(true);
      }
      if count.value <= entry.lastNc {
        return A.Denied(true);
      }
      var expected := A.ResponseHash(sha, A.USERNAME, A.REALM, secret, verb, uri, f["nonce"], f["nc"], f["cnonce"]);
      if expected != f["response"] {
        return A.Denied(false);
      }
      nonces := nonces[at.value := entry.(lastNc := count.value)];
      return A.Authorized;
    }
  }

  // One accepted challenge and this client's count.
  class DigestSession {
    const realm: string
    const nonce: string
    var nc: nat

    constructor (realm: string, nonce: string)
      ensures this.realm == realm && this.nonce == nonce && nc == 0
    {
      this.realm, this.nonce, nc := realm, nonce, 0;
    }

    /** The header for one request; each call uses up a count. */
    method Authorization(sha: A.Sha, key: string, verb: string, uri: string, random: Bytes) returns (header: string)
      modifies this
      ensures nc == old(nc) + 1
      ensures header == C.Header(C.Answer(sha, key, realm, nonce, verb, uri, nc, random))
    {
      nc := nc + 1;
      var count := PrintCount(nc);
      var cnonce := Hex.Encode(random);
      var response := C.DigestResponse(sha, A.USERNAME, realm, key, verb, uri, nonce, count, cnonce);
      header := C.Header(C.Credentials(realm, nonce, uri, response, count, cnonce));
    }
  }
}

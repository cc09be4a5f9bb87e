/**
 Digest authentication of requests: a table of live nonces and the highest count
 accepted for each. SHA-256 is a parameter.
 */
module DigestAuth {
  import opened Wrappers
  import opened Octets
  import opened DigestCount
  import Hex
  import F = DigestFields

  const USERNAME: string := "admin"
  const REALM: string := "streamline"
  const NONCE_TTL_MS: nat := 3_600_000
  const NONCE_BYTES: nat := 16
  const MAX_NONCES: nat := 4

  type Sha = string -> Bytes

  function ShaHex(sha: Sha, text: string): string { Hex.Encoded(sha(text)) }

  function ResponseHash(sha: Sha, username: string, realm: string, secret: string, verb: string, uri: string,
                        nonce: string, nc: string, cnonce: string): string {
    var ha1 := ShaHex(sha, username + ":" + realm + ":" + secret);
    var ha2 := ShaHex(sha, verb + ":" + uri);
    ShaHex(sha, ha1 + ":" + nonce + ":" + nc + ":" + cnonce + ":auth:" + ha2)
  }

  datatype Nonce = Nonce(value: string, issuedAt: nat, lastNc: nat)

  datatype Verdict = Authorized | Denied(stale: bool)

  function Expired(n: Nonce, now: nat): bool { SaturatingSub(now, n.issuedAt) >= NONCE_TTL_MS }

  function Live(table: seq<Nonce>, now: nat): (r: seq<Nonce>)
    ensures |r| <= |table|
  {
    if table == [] then []
    else (if Expired(table[0], now) then [] else [table[0]]) + Live(table[1..], now)
  }

  function Issue(table: seq<Nonce>, value: string, now: nat): seq<Nonce> {
    var live := Live(table, now);
    (if |live| >= MAX_NONCES then live[1..] else live) + [Nonce(value, now, 0)]
  }

  function FindNonce(table: seq<Nonce>, value: string): (r: Option<nat>)
    ensures r.Some? ==> r.value < |table| && table[r.value].value == value
    ensures r.Some? ==> forall i :: 0 <= i < r.value ==> table[i].value != value
    ensures r.None? ==> forall i :: 0 <= i < |table| ==> table[i].value != value
  {
    if table == [] then None
    else if table[0].value == value then Some(0)
    else
      var rest := FindNonce(table[1..], value);
      if rest.None? then None else Some(rest.value + 1)
  }

  // What a header claims, once everything that does not need the table has been checked.
  datatype Claim = Claim(nonce: string, nc: string, cnonce: string, response: string, count: nat)

  function Claimed(uri: string, header: Option<string>): Option<Claim> {
    if header.None? || F.Parse(header.value).None? then None
    else
      var f := F.Parse(header.value).value;
      if !("username" in f && "realm" in f && "nonce" in f && "uri" in f && "response" in f) then None
      else if !("qop" in f && "nc" in f && "cnonce" in f) then None
      else if f["username"] != USERNAME || f["realm"] != REALM || f["uri"] != uri || f["qop"] != "auth"
              || ("algorithm" in f && f["algorithm"] != "SHA-256") then None
      else if ParseCount(f["nc"]).None? then None
      else Some(Claim(f["nonce"], f["nc"], f["cnonce"], f["response"], ParseCount(f["nc"]).value))
  }

  datatype Ruling = Ruling(table: seq<Nonce>, verdict: Verdict)

  function Judge(table: seq<Nonce>, sha: Sha, secret: string, verb: string, uri: string, c: Claim, now: nat): Ruling {
    var at := FindNonce(table, c.nonce);
    if at.None? then Ruling(table, Denied(true))
    else
      var entry := table[at.value];
      if Expired(entry, now) then Ruling(table, Denied(true))
      else if c.count <= entry.lastNc then Ruling(table, Denied(true))
      else if ResponseHash(sha, USERNAME, REALM, secret, verb, uri, c.nonce, c.nc, c.cnonce) != c.response
        then Ruling(table, Denied(false))
      else Ruling(table[at.value := entry.(lastNc := c.count)], Authorized)
  }

  function Authorize(table: seq<Nonce>, sha: Sha, secret: string, verb: string, uri: string,
                     header: Option<string>, now: nat): Ruling {
    if secret == "" then Ruling(table, Authorized)
    else
      var c := Claimed(uri, header);
      if c.None? then Ruling(table, Denied(false)) else Judge(table, sha, secret, verb, uri, c.value, now)
  }

  // ----- runs -------------------------------------------------------------------------------

  datatype Event =
    | Challenged(value: string, now: nat)
    | Requested(secret: string, verb: string, uri: string, header: Option<string>, now: nat)

  datatype Stamp = Stamp(value: string, at: nat)

  datatype Grant = Grant(nonce: string, count: nat)

  // The table, with every nonce ever issued and every (nonce, count) ever accepted.
  datatype State = State(table: seq<Nonce>, issued: seq<Stamp>, granted: seq<Grant>, clock: nat)

  const EMPTY := State([], [], [], 0)

  function Issued(s: State, value: string, now: nat): State {
    s.(table := Issue(s.table, value, now), issued := s.issued + [Stamp(value, now)], clock := now)
  }

  function Perform(s: State, sha: Sha, e: Event): State {
    match e
    case Challenged(value, now) =>
      Issued(s, value, now)
    case Requested(secret, verb, uri, header, now) =>
      var r := Authorize(s.table, sha, secret, verb, uri, header, now);
      var c := Claimed(uri, header);
      s.(table := r.table, clock := now,
         granted := if secret != "" && r.verdict.Authorized? && c.Some?
                    then s.granted + [Grant(c.value.nonce, c.value.count)] else s.granted)
  }

  function After(events: seq<Event>, sha: Sha): State {
    if events == [] then EMPTY else Perform(After(events[..|events| - 1], sha), sha, events[|events| - 1])
  }

  predicate IsIssued(s: State, value: string) { exists i :: 0 <= i < |s.issued| && s.issued[i].value == value }

  // Each challenge's nonce is a new one.
  ghost predicate Fresh(events: seq<Event>, sha: Sha) {
    events != [] ==>
      var before, last := events[..|events| - 1], events[|events| - 1];
      Fresh(before, sha) && (last.Challenged? ==> !IsIssued(After(before, sha), last.value))
  }

  ghost predicate Monotone(events: seq<Event>) {
    forall i, j :: 0 <= i < j < |events| ==> events[i].now <= events[j].now
  }

  // ----- no pair is accepted twice -------------------------------------------------------------

  ghost predicate Rising(g: seq<Grant>) {
    forall i, j :: 0 <= i < j < |g| && g[i].nonce == g[j].nonce ==> g[i].count < g[j].count
  }

  // The entry remembers the highest count accepted for it.
  ghost predicate Remembers(n: Nonce, g: seq<Grant>) {
    && (forall i :: 0 <= i < |g| && g[i].nonce == n.value ==> 0 < g[i].count <= n.lastNc)
    && (n.lastNc > 0 ==> Grant(n.value, n.lastNc) in g)
  }

  ghost predicate Tracked(s: State) {
    && Rising(s.granted)
    && Differ(s.table)
    && (forall i :: 0 <= i < |s.table| ==> IsIssued(s, s.table[i].value) && Remembers(s.table[i], s.granted))
    && (forall i :: 0 <= i < |s.granted| ==> IsIssued(s, s.granted[i].nonce))
  }

  lemma LiveHead(table: seq<Nonce>, now: nat)
    requires table != []
    ensures Live(table, now) ==
            if Expired(table[0], now) then Live(table[1..], now) else [table[0]] + Live(table[1..], now)
  {}

  ghost predicate Differ(table: seq<Nonce>) {
    forall i, j :: 0 <= i < j < |table| ==> table[i].value != table[j].value
  }

  // Every entry of the one is an entry of the other.
  ghost predicate From(part: seq<Nonce>, table: seq<Nonce>) { forall n :: n in part ==> n in table }

  lemma FromTail(part: seq<Nonce>, table: seq<Nonce>)
    requires table != [] && From(part, table[1..])
    ensures From(part, table) && From([table[0]] + part, table)
  {
    assert table == [table[0]] + table[1..];
  }

  lemma DifferTail(part: seq<Nonce>, table: seq<Nonce>)
    requires table != [] && Differ(table) && Differ(part) && From(part, table[1..])
    ensures Differ([table[0]] + part)
  {
    forall i | 0 <= i < |part| ensures part[i].value != table[0].value {
      assert part[i] in part;
      var tail := table[1..];
      var k :| 0 <= k < |tail| && tail[k] == part[i];
      assert table[k + 1] == part[i];
    }
  }

  lemma {:induction false} LiveKeeps(table: seq<Nonce>, now: nat)
    requires Differ(table)
    ensures From(Live(table, now), table) && Differ(Live(table, now))
  {
    if table != [] {
      LiveHead(table, now);
      hide Live, Expired;
      LiveKeeps(table[1..], now);
      FromTail(Live(table[1..], now), table);
      DifferTail(Live(table[1..], now), table);
      hide From, Differ;
    }
  }

  lemma IssueKeeps(table: seq<Nonce>, value: string, now: nat)
    requires Differ(table)
    ensures var r := Issue(table, value, now);
      && r != [] && r[|r| - 1] == Nonce(value, now, 0)
      && (forall i :: 0 <= i < |r| - 1 ==> r[i] in table)
      && (forall i, j :: 0 <= i < j < |r| - 1 ==> r[i].value != r[j].value)
  {
    LiveKeeps(table, now);
    var live := Live(table, now);
    hide Live;
    var kept := if |live| >= MAX_NONCES then live[1..] else live;
    assert Issue(table, value, now) == kept + [Nonce(value, now, 0)];
    forall i | 0 <= i < |kept| ensures kept[i] in table {
      assert kept[i] in live;
    }
  }

  lemma IssueTracked(s: State, value: string, now: nat)
    requires Tracked(s) && !IsIssued(s, value)
    ensures Tracked(Issued(s, value, now))
  {
    IssueKeeps(s.table, value, now);
    hide Issue;
    var e := Issued(s, value, now);
    forall v: string | IsIssued(s, v) ensures IsIssued(e, v) {
      var i :| 0 <= i < |s.issued| && s.issued[i].value == v;
      assert e.issued[i].value == v;
    }
    assert e.issued[|s.issued|].value == value;
    assert IsIssued(e, value);
    hide IsIssued;
    forall i | 0 <= i < |e.table| - 1
      ensures IsIssued(e, e.table[i].value) && Remembers(e.table[i], s.granted) && e.table[i].value != value
    {
      assert e.table[i] in s.table;
    }
    assert Remembers(Nonce(value, now, 0), s.granted) by {
      assert forall i :: 0 <= i < |s.granted| ==> s.granted[i].nonce != value;
    }
    hide Remembers, Rising;
  }

  lemma GrantTracked(s: State, at: nat, count: nat)
    requires Tracked(s) && at < |s.table| && s.table[at].lastNc < count
    ensures var n := s.table[at];
      Tracked(s.(table := s.table[at := n.(lastNc := count)], granted := s.granted + [Grant(n.value, count)]))
  {
    var n := s.table[at];
    var g := s.granted + [Grant(n.value, count)];
    var e := s.(table := s.table[at := n.(lastNc := count)], granted := g);
    forall v: string ensures IsIssued(s, v) == IsIssued(e, v) {}
    hide IsIssued;
    assert g[|g| - 1] == Grant(n.value, count);
    forall i | 0 <= i < |e.table| ensures Remembers(e.table[i], g) {
      assert Remembers(s.table[i], s.granted);
    }
    forall i | 0 <= i < |g| ensures IsIssued(e, g[i].nonce) {}
  }

  lemma TrackedClock(s: State, clock: nat)
    requires Tracked(s)
    ensures Tracked(s.(clock := clock))
  {
    forall v: string ensures IsIssued(s, v) == IsIssued(s.(clock := clock), v) {}
    hide IsIssued, Rising, Remembers;
  }

  lemma RequestTracked(s: State, sha: Sha, e: Event)
    requires Tracked(s) && e.Requested?
    ensures Tracked(Perform(s, sha, e))
  {
    var c := Claimed(e.uri, e.header);
    var d := s.(clock := e.now);
    TrackedClock(s, e.now);
    hide Tracked, Claimed, ResponseHash, Expired;
    if e.secret != "" && c.Some? && Judge(s.table, sha, e.secret, e.verb, e.uri, c.value, e.now).verdict.Authorized? {
      GrantTracked(d, FindNonce(s.table, c.value.nonce).value, c.value.count);
    }
  }

  lemma {:induction false} AlwaysTracked(events: seq<Event>, sha: Sha)
    requires Fresh(events, sha)
    ensures Tracked(After(events, sha))
  {
    if events != [] {
      var before, last := events[..|events| - 1], events[|events| - 1];
      AlwaysTracked(before, sha);
      hide Tracked, Perform;
      match last {
        case Challenged(value, now) => IssueTracked(After(before, sha), value, now);
        case Requested(_, _, _, _, _) => RequestTracked(After(before, sha), sha, last);
      }
    }
  }

  /** Whatever is sent, captured or repeated, no (nonce, count) pair is accepted twice; counts rise for each nonce. */
  lemma AcceptedCountsRise(events: seq<Event>, sha: Sha, i: nat, j: nat)
    requires Fresh(events, sha) && i < j < |After(events, sha).granted|
    ensures var g := After(events, sha).granted;
      g[i].nonce == g[j].nonce ==> 0 < g[i].count < g[j].count
  {
    AlwaysTracked(events, sha);
    hide After, Fresh, Remembers;
    GrantedPositive(events, sha, i);
  }

  lemma {:induction false} GrantedPositive(events: seq<Event>, sha: Sha, i: nat)
    requires i < |After(events, sha).granted|
    ensures After(events, sha).granted[i].count > 0
  {
    if events != [] {
      var before := After(events[..|events| - 1], sha);
      if i < |before.granted| {
        GrantedPositive(events[..|events| - 1], sha, i);
      }
      hide Claimed, ResponseHash, Issue, Expired;
    }
  }

  // ----- what the table holds --------------------------------------------------------------------

  // The table is the end of the list of issued nonces; what is missing was pushed out or had expired.
  ghost predicate Window(s: State) {
    var n, k := |s.issued|, |s.table|;
    && k <= MAX_NONCES && k <= n && (n > 0 ==> k > 0)
    && (forall i :: 0 <= i < k ==> Stamped(s.table[i], s.issued[n - k + i]))
    && (forall i, j :: 0 <= i < j < n ==> s.issued[i].at <= s.issued[j].at)
    && (forall i :: 0 <= i < n ==> s.issued[i].at <= s.clock)
    && (forall i :: 0 <= i < n - k ==> n - i > MAX_NONCES || Outlived(s.issued, i))
    && (forall i :: n - k <= i < n ==> !Outlived(s.issued, i))
  }

  ghost predicate Stamped(n: Nonce, s: Stamp) { n.value == s.value && n.issuedAt == s.at }

  // Its time was up at the latest challenge.
  ghost predicate Outlived(issued: seq<Stamp>, i: nat)
    requires i < |issued|
  {
    issued[|issued| - 1].at - issued[i].at >= NONCE_TTL_MS
  }

  lemma {:induction false} LiveIsSuffix(table: seq<Nonce>, now: nat) returns (m: nat)
    requires forall i, j :: 0 <= i < j < |table| ==> table[i].issuedAt <= table[j].issuedAt
    ensures m <= |table| && Live(table, now) == table[m..]
    ensures forall i :: 0 <= i < |table| ==> (Expired(table[i], now) <==> i < m)
  {
    if table == [] {
      m := 0;
    } else {
      var rest := LiveIsSuffix(table[1..], now);
      assert forall i :: 0 < i < |table| ==> table[i] == table[1..][i - 1];
      LiveHead(table, now);
      hide Live;
      if Expired(table[0], now) {
        m := rest + 1;
        assert table[1..][rest..] == table[m..];
      } else {
        m := 0;
        assert |table| > 1 ==> !Expired(table[1..][0], now);
        assert [table[0]] + table[1..] == table;
      }
    }
  }

  lemma WindowSorted(s: State)
    requires Window(s)
    ensures forall i, j :: 0 <= i < j < |s.table| ==> s.table[i].issuedAt <= s.table[j].issuedAt
    ensures forall i :: 0 <= i < |s.table| ==> s.table[i].issuedAt <= s.clock
  {
    var shift := |s.issued| - |s.table|;
    forall i | 0 <= i < |s.table| ensures s.table[i].issuedAt == s.issued[shift + i].at <= s.clock {
      assert Stamped(s.table[i], s.issued[shift + i]);
    }
  }

  // Which of the old entries a challenge keeps.
  lemma IssueKeepsSuffix(table: seq<Nonce>, value: string, now: nat) returns (drop: nat)
    requires forall i, j :: 0 <= i < j < |table| ==> table[i].issuedAt <= table[j].issuedAt
    requires |table| <= MAX_NONCES && forall i :: 0 <= i < |table| ==> table[i].issuedAt <= now
    ensures drop <= |table| && |table| - drop < MAX_NONCES
    ensures Issue(table, value, now) == table[drop..] + [Nonce(value, now, 0)]
    ensures forall i :: drop <= i < |table| ==> now - table[i].issuedAt < NONCE_TTL_MS
    ensures forall i :: 0 <= i < drop ==> now - table[i].issuedAt >= NONCE_TTL_MS || |table| - i >= MAX_NONCES
  {
    var m := LiveIsSuffix(table, now);
    hide Live;
    drop := if |table| - m >= MAX_NONCES then m + 1 else m;
    assert drop > m ==> table[m..][1..] == table[drop..];
    forall i | 0 <= i < |table| ensures (now - table[i].issuedAt >= NONCE_TTL_MS) == (i < m) {
      assert Expired(table[i], now) == (i < m);
    }
  }

  // Where the entries kept, and the new one, stand among the issued.
  lemma IssueStamps(s: State, drop: nat, value: string, now: nat)
    requires Window(s) && drop <= |s.table|
    ensures var table, issued := s.table[drop..] + [Nonce(value, now, 0)], s.issued + [Stamp(value, now)];
      forall i :: 0 <= i < |table| ==> Stamped(table[i], issued[|issued| - |table| + i])
  {
    var table, issued := s.table[drop..] + [Nonce(value, now, 0)], s.issued + [Stamp(value, now)];
    var shift := |s.issued| - |s.table|;
    forall i | 0 <= i < |table| ensures Stamped(table[i], issued[|issued| - |table| + i]) {
      if i < |table| - 1 { assert Stamped(s.table[drop + i], s.issued[shift + (drop + i)]); }
    }
  }

  // What is dropped was too old or one too many; what is kept is alive.
  lemma IssueLifetimes(s: State, drop: nat, value: string, now: nat, i: nat)
    requires Window(s) && s.clock <= now && drop <= |s.table| && i <= |s.issued|
    requires forall i :: drop <= i < |s.table| ==> now - s.table[i].issuedAt < NONCE_TTL_MS
    requires forall i :: 0 <= i < drop ==> now - s.table[i].issuedAt >= NONCE_TTL_MS || |s.table| - i >= MAX_NONCES
    ensures var n, issued := |s.issued|, s.issued + [Stamp(value, now)];
      if i < n - |s.table| + drop then n + 1 - i > MAX_NONCES || Outlived(issued, i) else !Outlived(issued, i)
  {
    var shift := |s.issued| - |s.table|;
    if i < shift {
      assert |s.issued| - i > MAX_NONCES || Outlived(s.issued, i);
      assert s.issued[|s.issued| - 1].at <= now;
    } else if i < |s.issued| {
      assert Stamped(s.table[i - shift], s.issued[shift + (i - shift)]);
    }
  }

  lemma IssueWindow(s: State, sha: Sha, value: string, now: nat)
    requires Window(s) && s.clock <= now
    ensures Window(Perform(s, sha, Challenged(value, now)))
  {
    WindowSorted(s);
    var drop := IssueKeepsSuffix(s.table, value, now);
    IssueStamps(s, drop, value, now);
    forall i: nat | i <= |s.issued| ensures
      var n, issued := |s.issued|, s.issued + [Stamp(value, now)];
      if i < n - |s.table| + drop then n + 1 - i > MAX_NONCES || Outlived(issued, i) else !Outlived(issued, i)
    {
      IssueLifetimes(s, drop, value, now, i);
    }
    hide Issue, Stamped, Outlived;
  }

  lemma RequestWindow(s: State, sha: Sha, e: Event)
    requires Window(s) && e.Requested? && s.clock <= e.now
    ensures Window(Perform(s, sha, e))
  {
    hide Claimed, ResponseHash, Expired, Outlived;
    var d := Perform(s, sha, e);
    assert |d.table| == |s.table| && d.issued == s.issued;
    forall i | 0 <= i < |s.table| ensures Stamped(d.table[i], s.issued[|s.issued| - |s.table| + i]) {
      assert Stamped(s.table[i], s.issued[|s.issued| - |s.table| + i]);
    }
  }

  lemma {:induction false} AlwaysWindow(events: seq<Event>, sha: Sha)
    requires Monotone(events)
    ensures var s := After(events, sha); Window(s) && (events != [] ==> s.clock == events[|events| - 1].now)
  {
    if events != [] {
      var before, last := events[..|events| - 1], events[|events| - 1];
      AlwaysWindow(before, sha);
      hide Window, Claimed, Judge;
      match last {
        case Challenged(value, now) => IssueWindow(After(before, sha), sha, value, now);
        case Requested(_, _, _, _, _) => RequestWindow(After(before, sha), sha, last);
      }
    } else {
      assert Window(EMPTY);
    }
  }

  lemma {:induction false} IssuedDiffer(events: seq<Event>, sha: Sha, i: nat, j: nat)
    requires Fresh(events, sha) && i < j < |After(events, sha).issued|
    ensures After(events, sha).issued[i].value != After(events, sha).issued[j].value
  {
    if events != [] {
      var before := After(events[..|events| - 1], sha);
      if j < |before.issued| {
        IssuedDiffer(events[..|events| - 1], sha, i, j);
      } else {
        assert !IsIssued(before, events[|events| - 1].value);
      }
      hide Issue, Authorize, Claimed;
    }
  }

  lemma WindowHolds(s: State, p: nat)
    requires Window(s) && p < |s.issued|
    requires forall q: nat :: q < |s.issued| && q != p ==> s.issued[q].value != s.issued[p].value
    ensures |s.table| <= MAX_NONCES
    ensures FindNonce(s.table, s.issued[p].value).Some? <==> |s.issued| - p <= MAX_NONCES && !Outlived(s.issued, p)
    ensures var at := FindNonce(s.table, s.issued[p].value); at.Some? ==> s.table[at.value].issuedAt == s.issued[p].at
  {
    var shift := |s.issued| - |s.table|;
    var at := FindNonce(s.table, s.issued[p].value);
    hide Outlived;
    if at.Some? {
      assert Stamped(s.table[at.value], s.issued[shift + at.value]);
    }
    if p >= shift {
      assert Stamped(s.table[p - shift], s.issued[shift + (p - shift)]);
    }
  }

  /**
   With a clock that does not go back, the table holds at most four nonces in the order
   they were issued: a nonce is in it exactly when at most three challenges have
   followed, the last of them within its lifetime.
   */
  lemma TableExactly(events: seq<Event>, sha: Sha, p: nat)
    requires Fresh(events, sha) && Monotone(events) && p < |After(events, sha).issued|
    ensures var s := After(events, sha);
      && |s.table| <= MAX_NONCES
      && (FindNonce(s.table, s.issued[p].value).Some? <==> |s.issued| - p <= MAX_NONCES && !Outlived(s.issued, p))
  {
    var s := After(events, sha);
    AlwaysWindow(events, sha);
    forall q: nat | q < |s.issued| && q != p ensures s.issued[q].value != s.issued[p].value {
      IssuedDiffer(events, sha, Min(p, q), Max(p, q));
    }
    hide After, Fresh, Monotone, Window;
    WindowHolds(s, p);
  }
}

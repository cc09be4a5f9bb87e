/** Which source an admitted producer takes over, in terms of the open leases. */
module RegistryRekeying {
  import opened Wrappers
  import opened Registry
  import opened RegistrySafety

  // A source the producer may take over: the pending one; its own permanent slot; or, once
  // the registry is full, one of its own that nobody listens to.
  ghost predicate MayMove(s: State, e: Entry, peer: string, full: bool)
    requires e.source < |s.table|
  {
    var id, r := e.source, s.table[e.source];
    && Count(s.leases, id, AnyRecording) == 0 && Count(s.leases, id, Live(r.gate.generation)) == 0
    && if e.key == PENDING_KEY then true
       else if e.key == peer && r.permanent then Count(s.leases, id, PinnedHttp) == 0
       else full && Count(s.leases, id, AnyHttp) == 0 && (e.key == peer || (!r.permanent && r.peer == peer))
  }

  // The producer's own slot comes first, then the pending one, then the oldest of the others.
  function Rank(key: Key, peer: string): nat { if key == peer then 0 else if key == PENDING_KEY then 1 else 2 }

  predicate Before(entries: seq<Entry>, peer: string, i: nat, j: nat)
    requires i < |entries| && j < |entries|
  {
    var a, b := Rank(entries[i].key, peer), Rank(entries[j].key, peer);
    a < b || (a == b && i < j)
  }

  lemma MoveIsReuse(s: State, e: Entry, peer: string, full: bool)
    requires Inv(s) && e in s.entries
    ensures Reusable(s, e.key, peer, full) <==> MayMove(s, e, peer, full)
  {
    FindComplete(s.entries, e);
    assert Counted(s, e.source);
  }

  // Among the others, the first that may be reused is found.
  lemma {:induction false} FirstOther(s: State, es: seq<Entry>, peer: string, full: bool) returns (i: nat)
    requires InTable(s.entries, |s.table|)
    ensures var found := FirstReusable(s, Others(es, peer), peer, full);
      if found.None? then i == |es|
      else i < |es| && es[i].key == found.value && Rank(es[i].key, peer) == 2 && Reusable(s, es[i].key, peer, full)
    ensures i <= |es| && forall j :: 0 <= j < i ==> Rank(es[j].key, peer) == 2 ==> !Reusable(s, es[j].key, peer, full)
    decreases |es|
  {
    hide Reusable;
    if es == [] {
      i := 0;
    } else {
      var rest := Others(es[1..], peer);
      var k := FirstOther(s, es[1..], peer, full);
      if Rank(es[0].key, peer) == 2 {
        assert Others(es, peer) == [es[0].key] + rest;
        assert ([es[0].key] + rest)[1..] == rest;
      } else {
        assert Others(es, peer) == rest;
      }
      i := if Rank(es[0].key, peer) == 2 && Reusable(s, es[0].key, peer, full) then 0 else k + 1;
    }
  }

  lemma CandidatesInTurn(s: State, peer: string, full: bool)
    requires InTable(s.entries, |s.table|)
    ensures FirstReusable(s, Candidates(s.entries, peer), peer, full) ==
      if Reusable(s, peer, peer, full) then Some(peer)
      else if Reusable(s, PENDING_KEY, peer, full) then Some(PENDING_KEY)
      else FirstReusable(s, Others(s.entries, peer), peer, full)
  {
    hide Reusable, Others;
    var all, others := Candidates(s.entries, peer), Others(s.entries, peer);
    assert all[0] == peer && all[1..] == [PENDING_KEY] + others && all[1..][1..] == others;
  }

  ghost predicate Chosen(s: State, peer: string, full: bool, i: nat)
    requires InTable(s.entries, |s.table|) && i < |s.entries|
  {
    MayMove(s, s.entries[i], peer, full)
    && forall j :: 0 <= j < |s.entries| && j != i && MayMove(s, s.entries[j], peer, full) ==>
         Before(s.entries, peer, i, j)
  }

  lemma EntryOf(s: State, key: Key, peer: string, full: bool) returns (i: nat)
    requires Inv(s) && Reusable(s, key, peer, full)
    ensures i < |s.entries| && s.entries[i].key == key && MayMove(s, s.entries[i], peer, full)
  {
    var e := Entry(key, Find(s.entries, key).value);
    i :| 0 <= i < |s.entries| && s.entries[i] == e;
    MoveIsReuse(s, e, peer, full);
  }

  // The chosen entry is the one found.
  lemma FoundIsChosen(s: State, peer: string, full: bool) returns (i: nat)
    requires Inv(s)
    ensures var found := FirstReusable(s, Candidates(s.entries, peer), peer, full);
      if found.None? then forall j :: 0 <= j < |s.entries| ==> !MayMove(s, s.entries[j], peer, full)
      else i < |s.entries| && s.entries[i].key == found.value && Chosen(s, peer, full, i)
  {
    CandidatesInTurn(s, peer, full);
    forall j | 0 <= j < |s.entries|
      ensures Reusable(s, s.entries[j].key, peer, full) <==> MayMove(s, s.entries[j], peer, full)
    {
      MoveIsReuse(s, s.entries[j], peer, full);
    }
    if Reusable(s, peer, peer, full) {
      i := EntryOf(s, peer, peer, full);
    } else if Reusable(s, PENDING_KEY, peer, full) {
      i := EntryOf(s, PENDING_KEY, peer, full);
    } else {
      i := FirstOther(s, s.entries, peer, full);
    }
    hide MayMove, Reusable, FirstReusable, Candidates, Others, Books;
  }

  lemma ChosenOnce(s: State, peer: string, full: bool, i: nat, j: nat)
    requires InTable(s.entries, |s.table|) && i < |s.entries| && j < |s.entries|
    requires Chosen(s, peer, full, i) && Chosen(s, peer, full, j)
    ensures i == j
  {
    hide MayMove, Rank;
  }

  /**
   A source is given another key if and only if the admitted key is not registered yet and
   the source is the first, in that order, that its open leases leave free to be taken
   over; every other source keeps its key and its place in the registry.
   */
  lemma RekeyedExactly(s: State, key: string, peer: string, transport: string, now: real, i: nat)
    requires Inv(s) && i < |s.entries| && Acquire(s, key, peer, transport, now).Acquired?
    ensures s.policy.parse(key).Some?
    ensures s.entries[i] !in Acquire(s, key, peer, transport, now).state.entries <==>
      && (forall e :: e in s.entries ==> e.key != s.policy.parse(key).value)
      && Chosen(s, peer, |s.entries| >= s.policy.maxSources, i)
  {
    var a, canonical := Acquire(s, key, peer, transport, now), s.policy.parse(key).value;
    var full := |s.entries| >= s.policy.maxSources;
    if Find(s.entries, canonical).Some? {
      assert Entry(canonical, Find(s.entries, canonical).value) in s.entries;
      assert a.state.entries == s.entries;
    } else {
      FindNone(s.entries, canonical);
      AbsentMove(s, peer, full, canonical, i, a);
    }
  }

  lemma AbsentMove(s: State, peer: string, full: bool, canonical: Key, i: nat, a: Acquired)
    requires Inv(s) && i < |s.entries| && a.Acquired?
    requires forall e :: e in s.entries ==> e.key != canonical
    requires var found := FirstReusable(s, Candidates(s.entries, peer), peer, full);
      if found.Some? then
        a.state.entries == Delete(s.entries, found.value) + [Entry(canonical, Find(s.entries, found.value).value)]
      else a.state.entries == s.entries + [Entry(canonical, |s.table|)]
    ensures s.entries[i] !in a.state.entries <==> Chosen(s, peer, full, i)
  {
    var found := FirstReusable(s, Candidates(s.entries, peer), peer, full);
    var k := FoundIsChosen(s, peer, full);
    hide FirstReusable, Candidates, MayMove, Books, Before;
    assert s.entries[i] in s.entries;
    if found.Some? {
      FindComplete(s.entries, s.entries[k]);
      DeleteRemoves(s.entries, found.value);
      if Chosen(s, peer, full, i) {
        ChosenOnce(s, peer, full, i, k);
      } else {
        assert i != k;
        assert s.entries[i].key != s.entries[k].key;
      }
    }
  }
}

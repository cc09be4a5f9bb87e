/** The sender that connects when it must, drops a failed stream, and says which send opened a new one. */
module Reconnecting {
  import opened Wrappers

  // How the outside answers one call: whether connecting works, whether the caller is
  // still ready once connected, and whether the stream takes the bytes.
  datatype Call = Send(connects: bool, ready: bool, sends: bool) | Disconnect

  datatype Answer = Sent(first: bool) | NotReady | ConnectFailed | SendFailed | Dropped

  // Connections are numbered as they are made; `log` has every send that succeeded.
  datatype Sender = Sender(stream: Option<nat>, newConnection: bool, made: nat, log: seq<(nat, bool)>)

  const IDLE := Sender(None, false, 0, [])

  function Connected(s: Sender): Sender {
    if s.stream.Some? then s else s.(stream := Some(s.made), newConnection := true, made := s.made + 1)
  }

  function Perform(s: Sender, c: Call): (Sender, Answer) {
    if c.Disconnect? then (s.(stream := None, newConnection := false), Dropped)
    else if s.stream.None? && !c.connects then (s, ConnectFailed)
    else
      var d := Connected(s);
      if !c.ready then (d, NotReady)
      else if !c.sends then (d.(stream := None, newConnection := false), SendFailed)
      else (d.(newConnection := false, log := d.log + [(d.stream.value, d.newConnection)]), Sent(d.newConnection))
  }

  function After(calls: seq<Call>): Sender {
    if calls == [] then IDLE else Perform(After(calls[..|calls| - 1]), calls[|calls| - 1]).0
  }

  ghost predicate Used(log: seq<(nat, bool)>, upTo: nat, conn: nat)
    requires upTo <= |log|
  {
    exists j :: 0 <= j < upTo && log[j].0 == conn
  }

  ghost predicate Inv(s: Sender) {
    && (s.stream.Some? ==> s.stream.value + 1 == s.made && (s.newConnection <==> !Used(s.log, |s.log|, s.stream.value)))
    && (s.stream.None? ==> !s.newConnection)
    && (forall i :: 0 <= i < |s.log| ==> s.log[i].0 < s.made && (s.log[i].1 <==> !Used(s.log, i, s.log[i].0)))
    && (forall i, j :: 0 <= i < j < |s.log| ==> s.log[i].0 <= s.log[j].0)
  }

  lemma LogGrows(s: Sender)
    requires Inv(s) && s.stream.Some?
    ensures Inv(s.(newConnection := false, log := s.log + [(s.stream.value, s.newConnection)]))
  {
    var log := s.log + [(s.stream.value, s.newConnection)];
    assert log[|s.log|].0 == s.stream.value;
    forall i, conn | 0 <= i <= |s.log| ensures Used(log, i, conn) == Used(s.log, i, conn) {
      assert forall j :: 0 <= j < i ==> log[j] == s.log[j];
    }
  }

  lemma ConnectedInv(s: Sender)
    requires Inv(s)
    ensures Inv(Connected(s)) && Connected(s).stream.Some?
  {}

  lemma {:induction false} AlwaysInv(calls: seq<Call>)
    ensures Inv(After(calls))
  {
    if calls != [] {
      var s, c := After(calls[..|calls| - 1]), calls[|calls| - 1];
      AlwaysInv(calls[..|calls| - 1]);
      ConnectedInv(s);
      if c.Send? && c.ready && c.sends && (s.stream.Some? || c.connects) {
        LogGrows(Connected(s));
      }
    }
  }

  /** A send is reported as opening a connection exactly when it is the first to succeed on it; none is gone back to. */
  lemma FreshMeansFirst(calls: seq<Call>, i: nat)
    requires i < |After(calls).log|
    ensures var log := After(calls).log;
      && (log[i].1 <==> forall j :: 0 <= j < i ==> log[j].0 != log[i].0)
      && (forall j :: 0 <= j < i ==> log[j].0 <= log[i].0)
  {
    AlwaysInv(calls);
    hide After;
  }

  // Whether there is a stream after these calls: one was made, and none failed or was dropped since.
  ghost predicate Open(calls: seq<Call>) {
    calls != [] &&
    var before, c := calls[..|calls| - 1], calls[|calls| - 1];
    c.Send? && (Open(before) || c.connects) && (c.ready ==> c.sends)
  }

  lemma {:induction false} OpenIsStream(calls: seq<Call>)
    ensures Open(calls) <==> After(calls).stream.Some?
  {
    if calls != [] { OpenIsStream(calls[..|calls| - 1]); }
  }

  /**
   After any calls a send succeeds exactly when there is a stream or one can be made, the
   caller is still ready and the stream takes the bytes; only then is it logged, on the
   stream there was or else on a new one.
   */
  lemma SendsExactly(calls: seq<Call>, c: Call)
    requires c.Send?
    ensures var s, r := After(calls), Perform(After(calls), c);
      && (r.1.Sent? <==> (Open(calls) || c.connects) && c.ready && c.sends)
      && (r.1.ConnectFailed? <==> !Open(calls) && !c.connects)
      && (r.1.NotReady? <==> (Open(calls) || c.connects) && !c.ready)
      && (r.0.made == s.made + if !Open(calls) && c.connects then 1 else 0)
      && (!r.1.Sent? ==> r.0.log == s.log)
      && (r.1.Sent? ==> |r.0.log| == |s.log| + 1 && r.0.log[..|s.log|] == s.log
                        && r.0.log[|s.log|] == (r.0.made - 1, r.1.first) && (!Open(calls) ==> r.1.first))
  {
    AlwaysInv(calls);
    OpenIsStream(calls);
    hide After, Open;
  }

  class ReconnectingSender {
    var stream: Option<nat>
    var newConnection: bool
    var made: nat
    ghost var log: seq<(nat, bool)>

    ghost function View(): Sender
      reads this
    {
      Sender(stream, newConnection, made, log)
    }

    constructor ()
      ensures View() == IDLE
    {
      stream, newConnection, made, log := None, false, 0, [];
    }

    method Close()
      modifies this
      ensures View() == Perform(old(View()), Disconnect).0
    {
      stream := None;
      newConnection := false;
    }

    method SendAll(connects: bool, ready: bool, sends: bool) returns (answer: Answer)
      modifies this
      ensures (View(), answer) == Perform(old(View()), Send(connects, ready, sends))
    {
      if stream.None? {
        if !connects {
          return ConnectFailed;
        }
        stream := Some(made);
        made := made + 1;
        newConnection := true;
      }
      if !ready {
        return NotReady;
      }
      if !sends {
        Close();
        return SendFailed;
      }
      log := log + [(stream.value, newConnection)];
      answer := Sent(newConnection);
      newConnection := false;
    }
  }
}

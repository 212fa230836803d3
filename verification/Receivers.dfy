/** How a client hands one message to its receivers. */
module Receivers {

  datatype Receiver = Empty | Receiver(id: nat)

  /** The receivers whose context is not done, in order. */
  function Live(s: seq<Receiver>, done: Receiver -> bool): seq<Receiver> {
    if s == [] then []
    else Live(s[..|s| - 1], done) + if done(s[|s| - 1]) then [] else [s[|s| - 1]]
  }

  /** Lists are treated part by part, in order. */
  lemma {:induction false} LiveOfParts(a: seq<Receiver>, b: seq<Receiver>, done: Receiver -> bool)
    ensures Live(a + b, done) == Live(a, done) + Live(b, done)
    decreases b
  {
    if b == [] {
      assert a + b == a && Live(a, done) + [] == Live(a, done);
    } else {
      var init, last := b[..|b| - 1], b[|b| - 1];
      var kept := if done(last) then [] else [last];
      LiveOfParts(a, init, done);
      assert (a + b)[..|a + b| - 1] == a + init && (a + b)[|a + b| - 1] == last;
      assert Live(a, done) + Live(init, done) + kept == Live(a, done) + (Live(init, done) + kept);
    }
  }

  /** A single receiver stays exactly when it is not done. */
  lemma LiveOfOne(r: Receiver, done: Receiver -> bool)
    ensures Live([r], done) == if done(r) then [] else [r]
  {
    assert [r][..0] == [] && Live([r][..0], done) == [];
  }

  /** Exactly the receivers that are not done stay, none more often than before. */
  lemma {:induction false} LiveIsContained(a: seq<Receiver>, done: Receiver -> bool)
    ensures multiset(Live(a, done)) <= multiset(a)
    ensures forall r :: r in Live(a, done) <==> r in a && !done(r)
  {
    if a != [] {
      var init, last := a[..|a| - 1], a[|a| - 1];
      LiveIsContained(init, done);
      assert a == init + [last];
    }
  }

  predicate AnyFails(s: seq<Receiver>, fails: Receiver -> bool) {
    exists i :: 0 <= i < |s| && fails(s[i])
  }

  lemma LiveSnoc(s: seq<Receiver>, r: Receiver, done: Receiver -> bool, fails: Receiver -> bool)
    ensures Live(s + [r], done) == Live(s, done) + if done(r) then [] else [r]
    ensures AnyFails(Live(s + [r], done), fails) <==> AnyFails(Live(s, done), fails) || (!done(r) && fails(r))
  {
    assert (s + [r])[..|s|] == s;
    var live := Live(s, done);
    if !done(r) {
      AnyFailsSnoc(live, r, fails);
    } else {
      assert live + [] == live;
    }
  }

  lemma AnyFailsSnoc(s: seq<Receiver>, r: Receiver, fails: Receiver -> bool)
    ensures AnyFails(s + [r], fails) <==> AnyFails(s, fails) || fails(r)
  {
    var s' := s + [r];
    assert s'[|s|] == r;
    if i :| 0 <= i < |s| && fails(s[i]) {
      assert fails(s'[i]);
    }
    if i :| 0 <= i < |s'| && fails(s'[i]) {
      assert i == |s| || s'[i] == s[i];
    }
  }

  /**
    One message to all receivers, compacting the list in place: those that are done are
    dropped, the others keep their order, and the freed places are cleared. The channel is
    killed exactly when a receiver that is not done fails on the message.
   */
  method Dispatch(receivers: array<Receiver>, done: Receiver -> bool, fails: Receiver -> bool)
    returns (marker: nat, killed: bool)
    modifies receivers
    ensures marker <= receivers.Length && receivers[..marker] == Live(old(receivers[..]), done)
    ensures forall i :: marker <= i < receivers.Length ==> receivers[i] == Empty
    ensures killed <==> AnyFails(Live(old(receivers[..]), done), fails)
  {
    ghost var was, live := receivers[..], [];
    marker, killed := 0, false;
    for i := 0 to receivers.Length
      invariant marker == |live| <= i && live == Live(was[..i], done)
      invariant forall k :: 0 <= k < marker ==> receivers[k] == live[k]
      invariant forall k :: i <= k < receivers.Length ==> receivers[k] == was[k]
      invariant killed <==> AnyFails(live, fails)
    {
      var receiver := receivers[i];
      assert was[..i + 1] == was[..i] + [receiver];
      LiveSnoc(was[..i], receiver, done, fails);
      if !done(receiver) {
        if fails(receiver) {
          killed := true;
        }
        receivers[marker] := receiver;
        marker := marker + 1;
        live := live + [receiver];
      }
    }
    assert was[..receivers.Length] == was;
    assert receivers[..marker] == live;
    Clear(receivers, marker);
  }

  method Clear(receivers: array<Receiver>, marker: nat)
    requires marker <= receivers.Length
    modifies receivers
    ensures receivers[..marker] == old(receivers[..marker])
    ensures forall i :: marker <= i < receivers.Length ==> receivers[i] == Empty
  {
    for del := marker to receivers.Length
      invariant receivers[..marker] == old(receivers[..marker])
      invariant forall i :: marker <= i < del ==> receivers[i] == Empty
    {
      receivers[del] := Empty;
    }
  }
}

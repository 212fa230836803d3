/**
  Connection policies: trees of All and Any over counters with a maximum and rate limits.

  A call of a policy returns a verdict and a cleanup; a cleanup is the list of counters that it
  decrements, first to last. `None` is the cleanup that the source leaves nil.
 */
module Policy {
  import opened Wrappers
  import opened Integers

  /** The captured variable of one call of Max. */
  type Leaf = nat

  datatype Policy =
    | Max(leaf: Leaf, max: int)
    | RateLimit
    | All(fs: seq<Policy>)
    | Any(fs: seq<Policy>)

  /** The answers of the rate limiters, in the order in which they are asked. */
  type Oracle = nat -> bool

  /** All counters; `log` records every increment in order. */
  datatype Counters = Counters(conns: map<Leaf, int>, asked: nat, log: seq<Leaf>)

  function At(conns: map<Leaf, int>, leaf: Leaf): int {
    if leaf in conns then conns[leaf] else 0
  }

  function Add(conns: map<Leaf, int>, leaf: Leaf, n: int): map<Leaf, int> {
    conns[leaf := At(conns, leaf) + n]
  }

  datatype Out = Out(ok: bool, cleanup: Option<seq<Leaf>>, after: Counters)

  function OrNothing(cleanup: Option<seq<Leaf>>): seq<Leaf> {
    if cleanup.Some? then cleanup.value else []
  }

  function Eval(p: Policy, c: Counters, oracle: Oracle): Out
    decreases p, 1
  {
    match p
    case Max(leaf, max) =>
      if max < 0 then Out(true, None, c)
      else if At(c.conns, leaf) < max then
        Out(true, Some([leaf]), c.(conns := Add(c.conns, leaf, 1), log := c.log + [leaf]))
      else Out(false, None, c)
    case RateLimit => Out(oracle(c.asked), None, c.(asked := c.asked + 1))
    case All(fs) => EvalAll(fs, [], c, oracle)
    case Any(fs) => EvalAny(fs, false, [], c, oracle)
  }

  /** The rest of the loop of All, with the cleanup composed so far. */
  function EvalAll(fs: seq<Policy>, cleanup: seq<Leaf>, c: Counters, oracle: Oracle): Out
    decreases fs, 0
  {
    if fs == [] then Out(true, Some(cleanup), c)
    else
      var o := Eval(fs[0], c, oracle);
      var composed := OrNothing(o.cleanup) + cleanup;
      if !o.ok then Out(false, Some(composed), o.after)
      else EvalAll(fs[1..], composed, o.after, oracle)
  }

  /** The rest of the loop of Any. */
  function EvalAny(fs: seq<Policy>, any: bool, cleanup: seq<Leaf>, c: Counters, oracle: Oracle): Out
    decreases fs, 0
  {
    if fs == [] then Out(any, Some(cleanup), c)
    else
      var o := Eval(fs[0], c, oracle);
      EvalAny(fs[1..], any || o.ok, OrNothing(o.cleanup) + cleanup, o.after, oracle)
  }

  // ----- a call and its cleanup cancel out

  function Reverse(s: seq<Leaf>): seq<Leaf> {
    if s == [] then [] else Reverse(s[1..]) + [s[0]]
  }

  lemma {:induction false} ReverseConcat(a: seq<Leaf>, b: seq<Leaf>)
    ensures Reverse(a + b) == Reverse(b) + Reverse(a)
  {
    if a == [] {
      assert a + b == b;
    } else {
      assert (a + b)[1..] == a[1..] + b;
      ReverseConcat(a[1..], b);
    }
  }

  /** The counters after adding `n` for every entry of `s`. */
  function AddAll(conns: map<Leaf, int>, s: seq<Leaf>, n: int): map<Leaf, int>
    decreases s
  {
    if s == [] then conns else AddAll(Add(conns, s[0], n), s[1..], n)
  }

  lemma {:induction false} AddAllConcat(conns: map<Leaf, int>, a: seq<Leaf>, b: seq<Leaf>, n: int)
    ensures AddAll(conns, a + b, n) == AddAll(AddAll(conns, a, n), b, n)
    decreases a
  {
    if a == [] {
      assert a + b == b;
    } else {
      assert (a + b)[1..] == a[1..] + b;
      AddAllConcat(Add(conns, a[0], n), a[1..], b, n);
    }
  }

  /** The increments made since `c`. */
  function Own(c: Counters, o: Out): seq<Leaf> {
    if c.log <= o.after.log then o.after.log[|c.log|..] else []
  }

  /**
    The cleanup returned, read backwards, is that for `before` followed by what was incremented
    since `c`.
   */
  ghost predicate Conserves(c: Counters, o: Out, before: seq<Leaf>) {
    && c.log <= o.after.log
    && Reverse(OrNothing(o.cleanup)) == before + Own(c, o)
    && o.after.conns == AddAll(c.conns, Own(c, o), 1)
  }

  lemma {:induction false} EvalConserves(p: Policy, c: Counters, oracle: Oracle)
    ensures Conserves(c, Eval(p, c, oracle), [])
    decreases p, 1
  {
    match p
    case Max(leaf, max) =>
      assert Reverse([leaf]) == [leaf];
      assert AddAll(c.conns, [leaf], 1) == AddAll(Add(c.conns, leaf, 1), [leaf][1..], 1);
    case RateLimit =>
    case All(fs) => EvalAllConserves(fs, [], c, oracle);
    case Any(fs) => EvalAnyConserves(fs, false, [], c, oracle);
  }

  /** One more element of a loop, and then the rest of it. */
  lemma ConservesThen(c: Counters, o: Out, cleanup: seq<Leaf>, rest: Out)
    requires Conserves(c, o, [])
    requires Conserves(o.after, rest, Reverse(OrNothing(o.cleanup) + cleanup))
    ensures Conserves(c, rest, Reverse(cleanup))
  {
    var own, later := Own(c, o), Own(o.after, rest);
    OwnConcat(c.log, o.after.log, rest.after.log);
    assert Own(c, rest) == own + later;
    ReverseThen(OrNothing(o.cleanup), cleanup, own, later);
    AddAllConcat(c.conns, own, later, 1);
  }

  lemma ReverseThen(mine: seq<Leaf>, cleanup: seq<Leaf>, own: seq<Leaf>, later: seq<Leaf>)
    requires [] + own == Reverse(mine)
    ensures Reverse(mine + cleanup) + later == Reverse(cleanup) + (own + later)
  {
    assert [] + own == own;
    ReverseConcat(mine, cleanup);
    assert Reverse(cleanup) + own + later == Reverse(cleanup) + (own + later);
  }

  lemma OwnConcat(a: seq<Leaf>, b: seq<Leaf>, c: seq<Leaf>)
    requires a <= b <= c
    ensures a <= c && c[|a|..] == b[|a|..] + c[|b|..]
  {
  }

  lemma ConservesNothing(c: Counters, ok: bool, cleanup: seq<Leaf>)
    ensures Conserves(c, Out(ok, Some(cleanup), c), Reverse(cleanup))
  {
  }

  lemma {:induction false} EvalAllConserves(fs: seq<Policy>, cleanup: seq<Leaf>, c: Counters, oracle: Oracle)
    ensures Conserves(c, EvalAll(fs, cleanup, c, oracle), Reverse(cleanup))
    decreases fs, 0
  {
    if fs == [] {
      ConservesNothing(c, true, cleanup);
    } else {
      EvalConserves(fs[0], c, oracle);
      var o := Eval(fs[0], c, oracle);
      var composed := OrNothing(o.cleanup) + cleanup;
      if o.ok {
        EvalAllConserves(fs[1..], composed, o.after, oracle);
      } else {
        ConservesNothing(o.after, false, composed);
      }
      ConservesThen(c, o, cleanup, EvalAll(fs, cleanup, c, oracle));
    }
  }

  lemma {:induction false} EvalAnyConserves(fs: seq<Policy>, any: bool, cleanup: seq<Leaf>, c: Counters, oracle: Oracle)
    ensures Conserves(c, EvalAny(fs, any, cleanup, c, oracle), Reverse(cleanup))
    decreases fs, 0
  {
    if fs == [] {
      ConservesNothing(c, any, cleanup);
    } else {
      EvalConserves(fs[0], c, oracle);
      var o := Eval(fs[0], c, oracle);
      EvalAnyConserves(fs[1..], any || o.ok, OrNothing(o.cleanup) + cleanup, o.after, oracle);
      ConservesThen(c, o, cleanup, EvalAny(fs, any, cleanup, c, oracle));
    }
  }

  lemma {:induction false} AddAllAt(conns: map<Leaf, int>, s: seq<Leaf>, n: int, leaf: Leaf)
    ensures At(AddAll(conns, s, n), leaf) == At(conns, leaf) + n * multiset(s)[leaf]
    decreases s
  {
    if s != [] {
      AddAllAt(Add(conns, s[0], n), s[1..], n, leaf);
      assert s == [s[0]] + s[1..];
      assert multiset(s) == multiset{s[0]} + multiset(s[1..]);
      Distributes(n, multiset(s[1..])[leaf]);
    }
  }

  lemma Distributes(n: int, k: int)
    ensures n * (k + 1) == n * k + n
  {
  }

  lemma {:induction false} ReverseIsPermutation(s: seq<Leaf>)
    ensures multiset(Reverse(s)) == multiset(s)
  {
    if s != [] {
      ReverseIsPermutation(s[1..]);
      assert s == [s[0]] + s[1..];
    }
  }

  lemma IncrementsAreTheCleanup(c: Counters, o: Out, leaf: Leaf)
    requires Conserves(c, o, [])
    ensures o.after.log == c.log + Reverse(OrNothing(o.cleanup))
    ensures At(o.after.conns, leaf) == At(c.conns, leaf) + multiset(OrNothing(o.cleanup))[leaf]
  {
    OwnIsReversedCleanup(c, o);
    SameCount(c.conns, Own(c, o), OrNothing(o.cleanup), leaf);
  }

  lemma OwnIsReversedCleanup(c: Counters, o: Out)
    requires Conserves(c, o, [])
    ensures Own(c, o) == Reverse(OrNothing(o.cleanup)) && o.after.log == c.log + Own(c, o)
  {
    var own, log, log' := Own(c, o), c.log, o.after.log;
    assert own == log'[|log|..];
    assert [] + own == own;
    assert log'[..|log|] == log;
    assert log' == log'[..|log|] + log'[|log|..];
  }

  lemma SameCount(conns: map<Leaf, int>, own: seq<Leaf>, cleanup: seq<Leaf>, leaf: Leaf)
    requires own == Reverse(cleanup)
    ensures At(AddAll(conns, own, 1), leaf) == At(conns, leaf) + multiset(cleanup)[leaf]
  {
    ReverseIsPermutation(cleanup);
    AddAllAt(conns, own, 1, leaf);
  }

  /**
    For every tree, a call increments exactly the counters that its cleanup decrements, and the
    cleanup goes through them in the reverse order; running it puts every counter back.
   */
  lemma CleanupUndoesCall(p: Policy, c: Counters, oracle: Oracle, leaf: Leaf)
    ensures var o := Eval(p, c, oracle);
            var cleanup := OrNothing(o.cleanup);
            && o.after.log == c.log + Reverse(cleanup)
            && At(o.after.conns, leaf) == At(c.conns, leaf) + multiset(cleanup)[leaf]
            && At(AddAll(o.after.conns, cleanup, -1), leaf) == At(c.conns, leaf)
  {
    EvalConserves(p, c, oracle);
    var o := Eval(p, c, oracle);
    IncrementsAreTheCleanup(c, o, leaf);
    AddAllAt(o.after.conns, OrNothing(o.cleanup), -1, leaf);
  }

  // ----- what a verdict means

  /** The counters before policy number `i` of `fs`, when all before it have been called. */
  function Before(fs: seq<Policy>, i: nat, c: Counters, oracle: Oracle): Counters
    requires i <= |fs|
  {
    if i == 0 then c else Eval(fs[i - 1], Before(fs, i - 1, c, oracle), oracle).after
  }

  predicate PassesAt(fs: seq<Policy>, i: nat, c: Counters, oracle: Oracle)
    requires i < |fs|
  {
    Eval(fs[i], Before(fs, i, c, oracle), oracle).ok
  }

  lemma {:induction false} BeforeCons(fs: seq<Policy>, i: nat, c: Counters, oracle: Oracle)
    requires fs != [] && i < |fs|
    ensures Before(fs[1..], i, Eval(fs[0], c, oracle).after, oracle) == Before(fs, i + 1, c, oracle)
  {
    if i > 0 {
      BeforeCons(fs, i - 1, c, oracle);
      assert fs[1..][i - 1] == fs[i];
    } else {
      assert Before(fs, 0, c, oracle) == c;
    }
  }

  lemma PassesAtCons(fs: seq<Policy>, c: Counters, oracle: Oracle)
    requires fs != []
    ensures PassesAt(fs, 0, c, oracle) == Eval(fs[0], c, oracle).ok
    ensures forall i :: 0 <= i < |fs| - 1 ==>
              PassesAt(fs[1..], i, Eval(fs[0], c, oracle).after, oracle) == PassesAt(fs, i + 1, c, oracle)
  {
    forall i | 0 <= i < |fs| - 1
      ensures PassesAt(fs[1..], i, Eval(fs[0], c, oracle).after, oracle) == PassesAt(fs, i + 1, c, oracle)
    {
      BeforeCons(fs, i, c, oracle);
    }
  }

  /** All passes if and only if each of its policies does, and stops at the first that does not. */
  lemma {:induction false} AllPassesIff(fs: seq<Policy>, cleanup: seq<Leaf>, c: Counters, oracle: Oracle)
    ensures var o := EvalAll(fs, cleanup, c, oracle);
            && (o.ok <==> forall i :: 0 <= i < |fs| ==> PassesAt(fs, i, c, oracle))
            && (o.ok ==> o.after == Before(fs, |fs|, c, oracle))
            && (!o.ok ==> exists k :: 0 <= k < |fs| && StopsAt(fs, k, c, oracle, o.after))
    decreases fs
  {
    if fs != [] {
      var e := Eval(fs[0], c, oracle);
      var composed := OrNothing(e.cleanup) + cleanup;
      PassesAtCons(fs, c, oracle);
      if e.ok {
        AllPassesIff(fs[1..], composed, e.after, oracle);
        var o := EvalAll(fs[1..], composed, e.after, oracle);
        AllShifts(fs, c, oracle);
        if o.ok {
          BeforeCons(fs, |fs| - 1, c, oracle);
        } else {
          var k :| 0 <= k < |fs| - 1 && StopsAt(fs[1..], k, e.after, oracle, o.after);
          StopsLater(fs, k, c, oracle, o.after);
        }
      } else {
        assert Before(fs, 0, c, oracle) == c;
        assert StopsAt(fs, 0, c, oracle, e.after);
      }
    }
  }

  /** Policy `k` is the first that does not pass, and the last that is called. */
  ghost predicate StopsAt(fs: seq<Policy>, k: nat, c: Counters, oracle: Oracle, after: Counters) {
    && k < |fs| && !PassesAt(fs, k, c, oracle) && (forall i :: 0 <= i < k ==> PassesAt(fs, i, c, oracle))
    && after == Before(fs, k + 1, c, oracle)
  }

  lemma AllShifts(fs: seq<Policy>, c: Counters, oracle: Oracle)
    requires fs != []
    ensures var c' := Eval(fs[0], c, oracle).after;
            && ((forall i :: 0 <= i < |fs| ==> PassesAt(fs, i, c, oracle)) <==>
                PassesAt(fs, 0, c, oracle) && forall i :: 0 <= i < |fs| - 1 ==> PassesAt(fs[1..], i, c', oracle))
            && ((exists i :: 0 <= i < |fs| && PassesAt(fs, i, c, oracle)) <==>
                PassesAt(fs, 0, c, oracle) || exists i :: 0 <= i < |fs| - 1 && PassesAt(fs[1..], i, c', oracle))
  {
    PassesAtCons(fs, c, oracle);
    var c' := Eval(fs[0], c, oracle).after;
    if forall i :: 0 <= i < |fs| - 1 ==> PassesAt(fs[1..], i, c', oracle) {
      forall i | 1 <= i < |fs|
        ensures PassesAt(fs, i, c, oracle)
      {
        assert PassesAt(fs[1..], i - 1, c', oracle);
      }
    }
    if i :| 0 <= i < |fs| && PassesAt(fs, i, c, oracle) {
      assert i == 0 || PassesAt(fs[1..], i - 1, c', oracle);
    }
  }

  lemma StopsLater(fs: seq<Policy>, k: nat, c: Counters, oracle: Oracle, after: Counters)
    requires fs != [] && Eval(fs[0], c, oracle).ok && k < |fs| - 1
    requires StopsAt(fs[1..], k, Eval(fs[0], c, oracle).after, oracle, after)
    ensures StopsAt(fs, k + 1, c, oracle, after)
  {
    PassesAtCons(fs, c, oracle);
    BeforeCons(fs, k + 1, c, oracle);
    forall i | 0 <= i < k + 1
      ensures PassesAt(fs, i, c, oracle)
    {
      if i > 0 {
        assert PassesAt(fs[1..], i - 1, Eval(fs[0], c, oracle).after, oracle);
      }
    }
  }

  /** Any calls all of its policies, and passes if and only if one of them does. */
  lemma {:induction false} AnyPassesIff(fs: seq<Policy>, any: bool, cleanup: seq<Leaf>, c: Counters, oracle: Oracle)
    ensures var o := EvalAny(fs, any, cleanup, c, oracle);
            && (o.ok <==> any || exists i :: 0 <= i < |fs| && PassesAt(fs, i, c, oracle))
            && o.after == Before(fs, |fs|, c, oracle)
    decreases fs
  {
    if fs != [] {
      var e := Eval(fs[0], c, oracle);
      AnyPassesIff(fs[1..], any || e.ok, OrNothing(e.cleanup) + cleanup, e.after, oracle);
      AllShifts(fs, c, oracle);
      PassesAtCons(fs, c, oracle);
      BeforeCons(fs, |fs| - 1, c, oracle);
    }
  }

  /**
    The verdict of every policy: Max passes exactly while its counter is below the maximum, or
    always for a negative one; RateLimit as its limiter answers; All and Any as their policies do.
   */
  lemma VerdictMeans(p: Policy, c: Counters, oracle: Oracle)
    ensures Eval(p, c, oracle).ok <==>
            match p
            case Max(leaf, max) => max < 0 || At(c.conns, leaf) < max
            case RateLimit => oracle(c.asked)
            case All(fs) => forall i :: 0 <= i < |fs| ==> PassesAt(fs, i, c, oracle)
            case Any(fs) => exists i :: 0 <= i < |fs| && PassesAt(fs, i, c, oracle)
  {
    match p
    case All(fs) => AllPassesIff(fs, [], c, oracle);
    case Any(fs) => AnyPassesIff(fs, false, [], c, oracle);
    case _ =>
  }

  // ----- the combinators as code

  /** The state that the closures of a policy share. */
  class Listener {
    var conns: map<Leaf, int>
    var asked: nat
    ghost var log: seq<Leaf>

    ghost function View(): Counters
      reads this
    {
      Counters(conns, asked, log)
    }

    constructor ()
      ensures View() == Counters(map[], 0, [])
    {
      conns, asked, log := map[], 0, [];
    }

    method Call(p: Policy, oracle: Oracle) returns (ok: bool, cleanup: Option<seq<Leaf>>)
      modifies this
      ensures Out(ok, cleanup, View()) == Eval(p, old(View()), oracle)
      decreases p, 1
    {
      match p {
        case Max(leaf, max) =>
          if max < 0 {
            return true, None;
          }
          var n := if leaf in conns then conns[leaf] else 0;
          if n >= max {
            return false, None;
          }
          conns := conns[leaf := n + 1];
          log := log + [leaf];
          return true, Some([leaf]);
        case RateLimit =>
          asked := asked + 1;
          return oracle(asked - 1), None;
        case All(fs) =>
          ok, cleanup := CallAll(fs, oracle);
        case Any(fs) =>
          ok, cleanup := CallAny(fs, oracle);
      }
    }

    method CallAll(fs: seq<Policy>, oracle: Oracle) returns (ok: bool, cleanup: Option<seq<Leaf>>)
      modifies this
      ensures Out(ok, cleanup, View()) == EvalAll(fs, [], old(View()), oracle)
      decreases fs, 0
    {
      var composed: seq<Leaf> := [];
      for i := 0 to |fs|
        invariant EvalAll(fs[i..], composed, View(), oracle) == EvalAll(fs, [], old(View()), oracle)
      {
        assert fs[i..][0] == fs[i] && fs[i..][1..] == fs[i + 1..];
        ghost var before, was := View(), composed;
        var passed, cleanupF := Call(fs[i], oracle);
        if cleanupF.Some? {
          composed := cleanupF.value + composed;
        }
        assert composed == OrNothing(Eval(fs[i], before, oracle).cleanup) + was;
        if !passed {
          return false, Some(composed);
        }
      }
      return true, Some(composed);
    }

    method CallAny(fs: seq<Policy>, oracle: Oracle) returns (ok: bool, cleanup: Option<seq<Leaf>>)
      modifies this
      ensures Out(ok, cleanup, View()) == EvalAny(fs, false, [], old(View()), oracle)
      decreases fs, 0
    {
      var composed: seq<Leaf> := [];
      ok := false;
      for i := 0 to |fs|
        invariant EvalAny(fs[i..], ok, composed, View(), oracle) == EvalAny(fs, false, [], old(View()), oracle)
      {
        assert fs[i..][0] == fs[i] && fs[i..][1..] == fs[i + 1..];
        ghost var before, was := View(), composed;
        var passed, cleanupF := Call(fs[i], oracle);
        if cleanupF.Some? {
          composed := cleanupF.value + composed;
        }
        assert composed == OrNothing(Eval(fs[i], before, oracle).cleanup) + was;
        if passed {
          ok := true;
        }
      }
      cleanup := Some(composed);
    }
  }

  // ----- the addresses that a rate limit remembers

  type Addr = nat

  datatype Limiters = Limiters(front: set<Addr>, back: set<Addr>)

  /** A call for `addr` under RateLimit with capacity `cap`. */
  function Remember(cap: int, l: Limiters, addr: Addr): Limiters {
    if addr in l.front || addr in l.back then l
    else if |l.front| == Halve(cap) then Limiters({addr}, l.front)
    else l.(front := l.front + {addr})
  }

  function RememberAll(cap: int, addrs: seq<Addr>): Limiters {
    if addrs == [] then Limiters({}, {})
    else Remember(cap, RememberAll(cap, addrs[..|addrs| - 1]), addrs[|addrs| - 1])
  }

  lemma {:induction false} RememberedStayWithin(cap: int, addrs: seq<Addr>)
    requires cap >= 2
    ensures var l := RememberAll(cap, addrs); |l.front| <= Halve(cap) && |l.back| <= Halve(cap)
  {
    if addrs != [] {
      RememberedStayWithin(cap, addrs[..|addrs| - 1]);
    }
  }

  function UpTo(n: nat): seq<Addr> {
    seq(n, i => i)
  }

  lemma {:induction false} RememberedGrow(cap: int, n: nat)
    requires cap < 2
    ensures var l := RememberAll(cap, UpTo(n));
            l.back == {} && |l.front| == n && forall a :: a in l.front ==> a < n
  {
    if n > 0 {
      RememberedGrow(cap, n - 1);
      assert UpTo(n)[..n - 1] == UpTo(n - 1) && UpTo(n)[n - 1] == n - 1;
      RememberFresh(cap, RememberAll(cap, UpTo(n - 1)), n - 1);
    }
  }

  /** Below a capacity of two, a fresh address is added to a full front without dropping anything. */
  lemma RememberFresh(cap: int, l: Limiters, addr: Addr)
    requires cap < 2 && l.back == {} && |l.front| == addr && forall a :: a in l.front ==> a < addr
    ensures var l' := Remember(cap, l, addr);
            l'.back == {} && |l'.front| == addr + 1 && forall a :: a in l'.front ==> a < addr + 1
  {
    assert Halve(cap) <= 0;
    if addr == 0 {
      assert l.front == {};
    }
  }

  function Remembered(cap: int, addrs: seq<Addr>): nat {
    |RememberAll(cap, addrs).front| + |RememberAll(cap, addrs).back|
  }

  ghost predicate BoundedBy(cap: int, bound: int) {
    forall addrs :: Remembered(cap, addrs) <= bound
  }

  // ----- how long an address is remembered

  function RememberFrom(cap: int, l: Limiters, addrs: seq<Addr>): Limiters
    decreases addrs
  {
    if addrs == [] then l else RememberFrom(cap, Remember(cap, l, addrs[0]), addrs[1..])
  }

  predicate Remembers(l: Limiters, a: Addr) {
    a in l.front || a in l.back
  }

  /** How many of the calls come from addresses that are not remembered at the time. */
  function Newcomers(cap: int, l: Limiters, addrs: seq<Addr>): nat
    decreases addrs
  {
    if addrs == [] then 0
    else (if Remembers(l, addrs[0]) then 0 else 1) + Newcomers(cap, Remember(cap, l, addrs[0]), addrs[1..])
  }

  /** The two generations share no address, and the front is no larger than half of `cap`. */
  ghost predicate Split(cap: int, l: Limiters) {
    l.front !! l.back && |l.front| <= Halve(cap)
  }

  lemma RememberStaysSplit(cap: int, l: Limiters, addr: Addr)
    requires cap >= 2 && Split(cap, l)
    ensures Split(cap, Remember(cap, l, addr)) && Remembers(Remember(cap, l, addr), addr)
  {
  }

  lemma {:induction false} ReachedIsSplit(cap: int, addrs: seq<Addr>)
    requires cap >= 2
    ensures Split(cap, RememberAll(cap, addrs))
  {
    if addrs != [] {
      ReachedIsSplit(cap, addrs[..|addrs| - 1]);
      RememberStaysSplit(cap, RememberAll(cap, addrs[..|addrs| - 1]), addrs[|addrs| - 1]);
    }
  }

  /** How many newcomers a remembered address outlasts. */
  function Lasts(cap: int, l: Limiters, a: Addr): int {
    (if a in l.front then 2 * Halve(cap) else Halve(cap)) - |l.front|
  }

  lemma LastsOneLess(cap: int, l: Limiters, a: Addr, addr: Addr)
    requires cap >= 2 && Split(cap, l) && Remembers(l, a) && !Remembers(l, addr)
    ensures var l' := Remember(cap, l, addr);
            && (Remembers(l', a) <==> Lasts(cap, l, a) > 0)
            && (Remembers(l', a) ==> Lasts(cap, l', a) == Lasts(cap, l, a) - 1)
  {
  }

  lemma {:induction false} ForgottenStays(cap: int, l: Limiters, addrs: seq<Addr>, a: Addr)
    requires !Remembers(l, a) && a !in addrs
    ensures !Remembers(RememberFrom(cap, l, addrs), a)
    decreases addrs
  {
    if addrs != [] {
      ForgottenStays(cap, Remember(cap, l, addrs[0]), addrs[1..], a);
    }
  }

  lemma {:induction false} RememberedWhileItLasts(cap: int, l: Limiters, addrs: seq<Addr>, a: Addr)
    requires cap >= 2 && Split(cap, l) && Remembers(l, a) && a !in addrs
    ensures Remembers(RememberFrom(cap, l, addrs), a) <==> Newcomers(cap, l, addrs) <= Lasts(cap, l, a)
    decreases addrs
  {
    if addrs != [] {
      var l' := Remember(cap, l, addrs[0]);
      RememberStaysSplit(cap, l, addrs[0]);
      if Remembers(l, addrs[0]) {
        RememberedWhileItLasts(cap, l', addrs[1..], a);
      } else {
        LastsOneLess(cap, l, a, addrs[0]);
        if Remembers(l', a) {
          RememberedWhileItLasts(cap, l', addrs[1..], a);
        } else {
          ForgottenStays(cap, l', addrs[1..], a);
        }
      }
    }
  }

  /**
    Exactly how long a limiter is kept: after any calls and one for `a`, the limiter of `a` is
    still there after further calls from others if and only if at most so many of those came
    from newcomers as `Lasts` says, which is half of `cap` or more when `a` itself was new.
   */
  lemma LimiterIsKeptIff(cap: int, earlier: seq<Addr>, a: Addr, addrs: seq<Addr>)
    requires cap >= 2 && a !in addrs
    ensures var before := RememberAll(cap, earlier);
            var l := Remember(cap, before, a);
            && (Remembers(RememberFrom(cap, l, addrs), a) <==> Newcomers(cap, l, addrs) <= Lasts(cap, l, a))
            && (!Remembers(before, a) ==> Lasts(cap, l, a) >= Halve(cap))
            && Lasts(cap, l, a) >= 0
  {
    var before := RememberAll(cap, earlier);
    ReachedIsSplit(cap, earlier);
    RememberStaysSplit(cap, before, a);
    RememberedWhileItLasts(cap, Remember(cap, before, a), addrs, a);
  }

  /** A call does not renew a limiter of the older generation: one newcomer may end it right after. */
  lemma CallDoesNotRenew()
    ensures var l := Limiters({3, 4}, {1, 2});
            && RememberAll(4, [1, 2, 3, 4]) == l && Remember(4, l, 1) == l
            && !Remembers(Remember(4, l, 5), 1)
  {
    var addrs := [1, 2, 3, 4];
    assert addrs[..3][..2][..1] == [1] && addrs[..3][..2] == [1, 2] && addrs[..3] == [1, 2, 3];
    assert [1][..0] == [] && RememberAll(4, [1][..0]) == Limiters({}, {});
    assert RememberAll(4, [1]) == Limiters({1}, {});
    assert [1, 2][..1] == [1] && RememberAll(4, [1, 2]) == Limiters({1, 2}, {});
    assert [1, 2, 3][..2] == [1, 2] && RememberAll(4, [1, 2, 3]) == Limiters({3}, {1, 2});
  }

  /** The limiters of one RateLimit policy as code, over the two generations that it keeps. */
  class RateLimiter {
    const cap: int
    var front: set<Addr>
    var back: set<Addr>

    constructor (cap: int)
      ensures this.cap == cap && Limiters(front, back) == RememberAll(cap, [])
    {
      this.cap := cap;
      front, back := {}, {};
    }

    /** Finds or makes the limiter of `addr`, which has the last word. */
    method Allow(addr: Addr, answer: bool) returns (ok: bool)
      modifies this
      ensures Limiters(front, back) == Remember(cap, Limiters(old(front), old(back)), addr)
      ensures addr in front + back && ok == answer
    {
      if addr !in front && addr !in back {
        if |front| == Halve(cap) {
          front, back := {}, front;
        }
        front := front + {addr};
      }
      ok := answer;
    }
  }

  /** The memory of a rate limit is bounded at all, and then by `cap`, if and only if that is at least two. */
  lemma RateLimitIsBoundedIff(cap: int)
    ensures cap >= 2 <==> exists bound :: BoundedBy(cap, bound)
    ensures cap >= 2 ==> BoundedBy(cap, cap)
  {
    if cap >= 2 {
      forall addrs
        ensures Remembered(cap, addrs) <= cap
      {
        RememberedStayWithin(cap, addrs);
      }
      assert BoundedBy(cap, cap);
    } else if bound :| BoundedBy(cap, bound) {
      assert 0 <= Remembered(cap, []) <= bound;
      assert Remembered(cap, UpTo(bound + 1)) <= bound;
      RememberedGrow(cap, bound + 1);
    }
  }
}

/** The allowances for synchronisation messages, counted per content identifier. */
module SyncFilter {
  import opened ContentTypes

  type Counts = map<Id, int>

  function CountOf(m: Counts, id: Id): int {
    if id in m then m[id] else 0
  }

  function Allowed(m: Counts, id: Id): Counts {
    m[id := CountOf(m, id) + 1]
  }

  function Denied(m: Counts, id: Id): Counts {
    if CountOf(m, id) == 1 then m - {id} else m[id := CountOf(m, id) - 1]
  }

  class SyncFilter {
    var expecting: Counts

    constructor ()
      ensures expecting == map[]
    {
      expecting := map[];
    }

    method Allow(id: Id)
      modifies this
      ensures expecting == Allowed(old(expecting), id)
    {
      var n := if id in expecting then expecting[id] else 0;
      expecting := expecting[id := n + 1];
    }

    method Deny(id: Id)
      modifies this
      ensures expecting == Denied(old(expecting), id)
    {
      var n := if id in expecting then expecting[id] else 0;
      if n == 1 {
        expecting := expecting - {id};
        return;
      }
      expecting := expecting[id := n - 1];
    }

    /** True when the message is dropped: it is not a synchronisation, or it is not expected. */
    method Filter(isSync: bool, id: Id) returns (dropped: bool)
      ensures dropped <==> !isSync || id !in expecting
    {
      if !isSync {
        return true;
      }
      dropped := id !in expecting;
    }
  }

  // ----- whole histories of Allow and Deny

  datatype Op = Allow(id: Id) | Deny(id: Id)

  function After(ops: seq<Op>): Counts {
    if ops == [] then map[]
    else
      var m := After(ops[..|ops| - 1]);
      match ops[|ops| - 1]
      case Allow(id) => Allowed(m, id)
      case Deny(id) => Denied(m, id)
  }

  /** Calls of Allow for `id` less calls of Deny for it. */
  function Outstanding(ops: seq<Op>, id: Id): int {
    if ops == [] then 0
    else
      Outstanding(ops[..|ops| - 1], id) +
      match ops[|ops| - 1]
      case Allow(i) => if i == id then 1 else 0
      case Deny(i) => if i == id then -1 else 0
  }

  /** The stored count is always the difference, whatever the history. */
  lemma {:induction false} CountIsOutstanding(ops: seq<Op>, id: Id)
    ensures CountOf(After(ops), id) == Outstanding(ops, id)
  {
    if ops != [] {
      CountIsOutstanding(ops[..|ops| - 1], id);
    }
  }

  /** A Deny that no Allow precedes stores a count of -1, and the filter lets the identifier pass. */
  lemma UnmatchedDenyLetsPass(id: Id)
    ensures After([Deny(id)]) == map[id := -1] && !PresentIffPositive([Deny(id)], id)
  {
    assert [Deny(id)][..0] == [] && After([Deny(id)][..0]) == map[] && Outstanding([Deny(id)][..0], id) == 0;
  }

  /** The key of `id` is present exactly when an allowance for it is outstanding. */
  predicate PresentIffPositive(ops: seq<Op>, id: Id) {
    id in After(ops) <==> Outstanding(ops, id) > 0
  }

  /**
    Throughout a history the key is present exactly while an allowance is outstanding, if and
    only if no Deny ever came without an Allow to reverse. An unmatched Deny stores a negative
    count and leaves the key present, so that unexpected messages pass.
   */
  lemma {:induction false} PresentWhilePositiveIffMatched(ops: seq<Op>, id: Id)
    ensures (forall k :: 0 <= k <= |ops| ==> PresentIffPositive(ops[..k], id)) <==>
            (forall k :: 0 <= k <= |ops| ==> Outstanding(ops[..k], id) >= 0)
  {
    if ops == [] {
      assert ops[..0] == [];
      assert forall k :: 0 <= k <= |ops| ==> ops[..k] == [];
    } else {
      var init := ops[..|ops| - 1];
      assert forall k :: 0 <= k <= |init| ==> ops[..k] == init[..k];
      assert ops[..|ops|] == ops && init[..|init|] == init;
      PresentWhilePositiveIffMatched(init, id);
      CountIsOutstanding(init, id);
      CountIsOutstanding(ops, id);
      if (forall k :: 0 <= k <= |init| ==> PresentIffPositive(init[..k], id)) {
        assert PresentIffPositive(init[..|init|], id);
        assert Outstanding(init[..|init|], id) >= 0;
        assert PresentIffPositive(ops, id) <==> Outstanding(ops, id) >= 0;
        ExtendPrefixes(ops, id);
      } else {
        ExtendPrefixes(ops, id);
      }
    }
  }

  lemma ExtendPrefixes(ops: seq<Op>, id: Id)
    requires ops != []
    ensures var init := ops[..|ops| - 1];
            && ((forall k :: 0 <= k <= |ops| ==> PresentIffPositive(ops[..k], id)) <==>
                ((forall k :: 0 <= k <= |init| ==> PresentIffPositive(init[..k], id)) && PresentIffPositive(ops, id)))
            && ((forall k :: 0 <= k <= |ops| ==> Outstanding(ops[..k], id) >= 0) <==>
                ((forall k :: 0 <= k <= |init| ==> Outstanding(init[..k], id) >= 0) && Outstanding(ops, id) >= 0))
  {
    var init := ops[..|ops| - 1];
    assert ops[..|ops|] == ops;
    assert forall k :: 0 <= k <= |init| ==> init[..k] == ops[..k];
    assert forall k :: 0 <= k <= |ops| ==> k == |ops| || ops[..k] == init[..k];
  }
}

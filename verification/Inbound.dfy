/** Readers that deliver beside each other: any merge of what they read, and when it is in order. */
module Inbound {
  import opened Wrappers

  /** What reader number `i` delivers, marked with its number. */
  function Mark<T>(s: seq<T>, i: nat): seq<(nat, T)> {
    seq(|s|, k requires 0 <= k < |s| => (i, s[k]))
  }

  /** All that the readers deliver, one reader after the other; the first has number `from`. */
  function Marked<T>(parts: seq<seq<T>>, from: nat): seq<(nat, T)> {
    if parts == [] then [] else Mark(parts[0], from) + Marked(parts[1..], from + 1)
  }

  /**
    What arrives when the readers deliver by turns: `schedule` says whose turn it is. It is
    `None` when a reader has nothing left in its turn, or something is left at the end.
   */
  function Merge<T>(parts: seq<seq<T>>, schedule: seq<nat>): Option<seq<(nat, T)>>
    decreases schedule
  {
    if schedule == [] then if forall i :: 0 <= i < |parts| ==> |parts[i]| == 0 then Some([]) else None
    else
      var i := schedule[0];
      if i < |parts| && |parts[i]| > 0 then
        match Merge(parts[i := parts[i][1..]], schedule[1..])
        case None => None
        case Some(rest) => Some([(i, parts[i][0])] + rest)
      else None
  }

  /** Every reader has stopped before a later one delivers. */
  ghost predicate OneAfterTheOther(schedule: seq<nat>) {
    forall i, j :: 0 <= i < j < |schedule| ==> schedule[i] <= schedule[j]
  }

  lemma {:induction false} MergedAsScheduled<T>(parts: seq<seq<T>>, schedule: seq<nat>, m: seq<(nat, T)>)
    requires Merge(parts, schedule) == Some(m)
    ensures |m| == |schedule| && forall k :: 0 <= k < |m| ==> m[k].0 == schedule[k]
    decreases schedule
  {
    if schedule != [] {
      var i := schedule[0];
      MergedAsScheduled(parts[i := parts[i][1..]], schedule[1..], m[1..]);
      assert forall k :: 1 <= k < |m| ==> m[k] == m[1..][k - 1] && schedule[k] == schedule[1..][k - 1];
    }
  }

  lemma {:induction false} MarkedIsOrdered<T>(parts: seq<seq<T>>, from: nat)
    ensures forall k :: 0 <= k < |Marked(parts, from)| ==> from <= Marked(parts, from)[k].0
    ensures forall k, l :: 0 <= k < l < |Marked(parts, from)| ==> Marked(parts, from)[k].0 <= Marked(parts, from)[l].0
  {
    if parts != [] {
      var first, rest := Mark(parts[0], from), Marked(parts[1..], from + 1);
      MarkedIsOrdered(parts[1..], from + 1);
      var all := Marked(parts, from);
      assert forall k :: 0 <= k < |all| ==> all[k] == if k < |first| then first[k] else rest[k - |first|];
    }
  }

  /** A reader that has something left gets a turn. */
  lemma {:induction false} LeftIsScheduled<T>(parts: seq<seq<T>>, schedule: seq<nat>, j: nat)
    requires Merge(parts, schedule).Some? && j < |parts| && parts[j] != []
    ensures j in schedule
    decreases schedule
  {
    var i := schedule[0];
    if i != j {
      LeftIsScheduled(parts[i := parts[i][1..]], schedule[1..], j);
    }
  }

  /** The first message of the first reader that has one comes first. */
  lemma {:induction false} MarkedFirst<T>(parts: seq<seq<T>>, from: nat, i: nat)
    requires i < |parts| && parts[i] != [] && forall j :: 0 <= j < i ==> parts[j] == []
    ensures Marked(parts, from) == [(from + i, parts[i][0])] + Marked(parts[i := parts[i][1..]], from)
    decreases i
  {
    var parts' := parts[i := parts[i][1..]];
    if i == 0 {
      assert Mark(parts[0], from) == [(from, parts[0][0])] + Mark(parts[0][1..], from);
      assert parts'[1..] == parts[1..];
    } else {
      MarkedFirst(parts[1..], from + 1, i - 1);
      assert parts'[1..] == parts[1..][i - 1 := parts[i][1..]];
      assert Mark(parts[0], from) == [];
    }
  }

  lemma {:induction false} NothingMarked<T>(parts: seq<seq<T>>, from: nat)
    requires forall i :: 0 <= i < |parts| ==> parts[i] == []
    ensures Marked(parts, from) == []
  {
    if parts != [] {
      NothingMarked(parts[1..], from + 1);
    }
  }

  lemma {:induction false} OrderedMerge<T>(parts: seq<seq<T>>, schedule: seq<nat>, m: seq<(nat, T)>)
    requires Merge(parts, schedule) == Some(m) && OneAfterTheOther(schedule)
    ensures m == Marked(parts, 0)
    decreases schedule
  {
    if schedule == [] {
      NothingMarked(parts, 0);
    } else {
      var i := schedule[0];
      MergeFirst(parts, schedule, m);
      OrderedRest(schedule);
      OrderedMerge(parts[i := parts[i][1..]], schedule[1..], m[1..]);
      FirstInOrder(parts, schedule, i);
    }
  }

  lemma FirstInOrder<T>(parts: seq<seq<T>>, schedule: seq<nat>, i: nat)
    requires Merge(parts, schedule).Some? && schedule != [] && OneAfterTheOther(schedule) && i == schedule[0]
    ensures i < |parts| && parts[i] != []
    ensures Marked(parts, 0) == [(i, parts[i][0])] + Marked(parts[i := parts[i][1..]], 0)
  {
    forall j | 0 <= j < i
      ensures parts[j] == []
    {
      EarlierHaveStopped(parts, schedule, j);
    }
    MarkedFirst(parts, 0, i);
  }

  lemma MergeFirst<T>(parts: seq<seq<T>>, schedule: seq<nat>, m: seq<(nat, T)>)
    requires schedule != [] && Merge(parts, schedule) == Some(m)
    ensures var i := schedule[0];
            && i < |parts| && parts[i] != [] && m != [] && m == [(i, parts[i][0])] + m[1..]
            && Merge(parts[i := parts[i][1..]], schedule[1..]) == Some(m[1..])
  {
  }

  lemma OrderedRest(schedule: seq<nat>)
    requires schedule != [] && OneAfterTheOther(schedule)
    ensures OneAfterTheOther(schedule[1..])
  {
  }

  /** When the readers come one after the other, those before the next one have nothing left. */
  lemma EarlierHaveStopped<T>(parts: seq<seq<T>>, schedule: seq<nat>, j: nat)
    requires Merge(parts, schedule).Some? && schedule != [] && OneAfterTheOther(schedule) && j < schedule[0]
    ensures j < |parts| && parts[j] == []
  {
    if |parts[j]| > 0 {
      LeftIsScheduled(parts, schedule, j);
    }
  }

  /**
    However the readers take turns, what arrives is in the order of the readers if and only if
    each of them has stopped before a later one delivers.
   */
  lemma InOrderIffOneAfterTheOther<T>(parts: seq<seq<T>>, schedule: seq<nat>, m: seq<(nat, T)>)
    requires Merge(parts, schedule) == Some(m)
    ensures m == Marked(parts, 0) <==> OneAfterTheOther(schedule)
  {
    if OneAfterTheOther(schedule) {
      OrderedMerge(parts, schedule, m);
    }
    if m == Marked(parts, 0) {
      MergedAsScheduled(parts, schedule, m);
      MarkedIsOrdered(parts, 0);
    }
  }

  /** One turn, and then the rest. */
  lemma MergeThen<T>(parts: seq<seq<T>>, i: nat, left: seq<T>, schedule: seq<nat>, rest: seq<(nat, T)>)
    requires i < |parts| && |parts[i]| > 0 && left == parts[i][1..]
    requires Merge(parts[i := left], schedule) == Some(rest)
    ensures Merge(parts, [i] + schedule) == Some([(i, parts[i][0])] + rest)
  {
    assert ([i] + schedule)[1..] == schedule;
  }

  /** A later reader may well deliver before an earlier one. */
  lemma LaterCanComeFirst<T>(a: T, b: T)
    ensures Merge([[a], [b]], [1, 0]) == Some([(1, b), (0, a)]) && !OneAfterTheOther([1, 0])
  {
    var parts: seq<seq<T>> := [[a], [b]];
    var later: seq<seq<T>> := parts[1 := []];
    assert Merge(later[0 := []], []) == Some([]);
    MergeThen(later, 0, [], [], []);
    MergeThen(parts, 1, [], [0] + [], [(0, a)] + []);
    assert [1] + ([0] + []) == [1, 0] && [(1, b)] + ([(0, a)] + []) == [(1, b), (0, a)];
    assert [1, 0][0] > [1, 0][1];
  }
}

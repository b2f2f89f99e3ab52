/** The memory of processed callbacks (pokerapp/entities.py, `Game.mark_callback_processed`): a set, and a
    deque of bounded length that says which id to forget next. */
module CallbackMemory {
  import opened Basics

  datatype Memory = Memory(processed: set<string>, order: seq<string>)

  /** Appending to a full deque drops its left end. */
  function Append(order: seq<string>, id: string, maxLen: nat): seq<string>
    requires maxLen >= 1
  {
    (if |order| >= maxLen then order[1..] else order) + [id]
  }

  /** The eviction loop. Popping an empty deque would raise; here it stops instead. */
  function Evict(s: Memory, limit: nat): Memory
    decreases |s.order|
  {
    if |s.processed| <= limit || s.order == [] then s
    else Evict(Memory(s.processed - {s.order[0]}, s.order[1..]), limit)
  }

  /** `mark_callback_processed`; `None` is an argument that is not a string. */
  function Mark(s: Memory, id: Option<string>, limit: nat): (Memory, bool)
    requires limit >= 1
  {
    if id == None || id.value in s.processed then (s, false)
    else (Evict(Memory(s.processed + {id.value}, Append(s.order, id.value, limit)), limit), true)
  }

  // ---------------------------------------------------------------------------------------------
  // What is remembered
  // ---------------------------------------------------------------------------------------------

  function Elements(s: seq<string>): set<string> {
    set x | x in s
  }

  /** The last `limit - 1` of the accepted ids once there are more than `limit` of them. */
  function Recent(accepted: seq<string>, limit: nat): seq<string>
    requires limit >= 1
  {
    if |accepted| <= limit then accepted else accepted[|accepted| - (limit - 1)..]
  }

  /** Exactly what the memory holds after the ids of `accepted` were accepted, in this order: besides the
      recent ones it holds the very first, which the full deque dropped without telling the set. */
  ghost predicate Remembers(s: Memory, accepted: seq<string>, limit: nat)
    requires limit >= 1
  {
    var recent := Recent(accepted, limit);
    && s.order == recent
    && s.processed == Elements(recent) + (if |accepted| > limit then {accepted[0]} else {})
    && Distinct(recent)
    && (|accepted| > limit ==>
          && accepted[0] !in recent
          && accepted[|accepted| - limit] !in recent && accepted[|accepted| - limit] != accepted[0])
  }

  lemma {:induction false} SizeOfDistinct(s: seq<string>)
    requires Distinct(s)
    ensures |Elements(s)| == |s|
  {
    if s != [] {
      SizeOfDistinct(s[1..]);
      assert Elements(s) == {s[0]} + Elements(s[1..]);
    }
  }

  lemma SizeOfMemory(s: Memory, accepted: seq<string>, limit: nat)
    requires limit >= 1 && Remembers(s, accepted, limit)
    ensures |s.processed| == if |accepted| <= limit then |accepted| else limit
  {
    SizeOfDistinct(s.order);
    if |accepted| > limit {
      assert accepted[0] !in Elements(s.order);
      assert |Elements(s.order) + {accepted[0]}| == |Elements(s.order)| + 1;
    }
  }

  lemma {:induction false} EvictOnce(s: Memory, limit: nat)
    requires |s.processed| == limit + 1 && s.order != [] && s.order[0] in s.processed
    ensures Evict(s, limit) == Memory(s.processed - {s.order[0]}, s.order[1..])
  {
    var s' := Memory(s.processed - {s.order[0]}, s.order[1..]);
    assert |s'.processed| == limit;
    assert Evict(s', limit) == s';
  }

  lemma RoomLeft(s: Memory, accepted: seq<string>, limit: nat, id: string)
    requires limit >= 1 && Remembers(s, accepted, limit) && id !in s.processed && |accepted| < limit
    ensures Remembers(Mark(s, Some(id), limit).0, accepted + [id], limit)
  {
    SizeOfMemory(s, accepted, limit);
    var s' := Memory(s.processed + {id}, s.order + [id]);
    assert Evict(s', limit) == s';
    assert Elements(accepted + [id]) == Elements(accepted) + {id};
    assert forall x :: x in accepted ==> x in s.processed;
  }

  /** Without its first element a list of distinct ids loses just that one. */
  lemma Forget(first: string, order: seq<string>)
    requires order != [] && Distinct([first] + order)
    ensures Elements([first] + order) - {order[0]} == Elements(order[1..]) + {first}
    ensures Distinct(order[1..]) && first !in order[1..] && order[0] !in order[1..] && order[0] != first
  {
    var all := [first] + order;
    assert forall i :: 0 <= i < |order| ==> all[i + 1] == order[i];
    assert Elements(all) == {first, order[0]} + Elements(order[1..]);
    assert all[0] != all[1];
    forall x | x in order[1..] ensures x != order[0] && x != first {
      var i :| 0 <= i < |order[1..]| && order[1..][i] == x;
      assert all[i + 2] == x;
    }
  }

  /** One id too many: the loop pops one id and stops. */
  lemma PopOne(first: string, order: seq<string>, limit: nat)
    requires |order| == limit >= 1 && Distinct([first] + order)
    ensures Evict(Memory(Elements([first] + order), order), limit) == Memory(Elements(order[1..]) + {first}, order[1..])
  {
    SizeOfDistinct([first] + order);
    assert order[0] == ([first] + order)[1];
    EvictOnce(Memory(Elements([first] + order), order), limit);
    Forget(first, order);
  }

  lemma RemembersAfterPop(accepted: seq<string>, order: seq<string>, limit: nat)
    requires |order| == limit >= 1 && |accepted| > limit && Distinct([accepted[0]] + order)
    requires accepted[|accepted| - limit..] == order
    ensures Remembers(Memory(Elements(order[1..]) + {accepted[0]}, order[1..]), accepted, limit)
  {
    Forget(accepted[0], order);
    assert accepted[|accepted| - (limit - 1)..] == order[1..];
    assert accepted[|accepted| - limit] == order[0];
  }

  lemma DistinctAppend(s: seq<string>, x: string)
    requires Distinct(s) && x !in s
    ensures Distinct(s + [x]) && Elements(s + [x]) == Elements(s) + {x}
  {
  }

  /** The deque was full: it drops the first id, then the loop pops the second and forgets it. */
  lemma FirstOverflow(s: Memory, accepted: seq<string>, limit: nat, id: string)
    requires limit >= 1 && Remembers(s, accepted, limit) && id !in s.processed && |accepted| == limit
    ensures Remembers(Mark(s, Some(id), limit).0, accepted + [id], limit)
  {
    var all, order := accepted + [id], accepted[1..] + [id];
    assert id !in accepted by {
      assert s.processed == Elements(accepted);
    }
    DistinctAppend(accepted, id);
    assert [accepted[0]] + order == all;
    assert all[|all| - limit..] == order;
    PopOne(accepted[0], order, limit);
    RemembersAfterPop(all, order, limit);
  }

  lemma LaterOverflow(s: Memory, accepted: seq<string>, limit: nat, id: string)
    requires limit >= 1 && Remembers(s, accepted, limit) && id !in s.processed && |accepted| > limit
    ensures Remembers(Mark(s, Some(id), limit).0, accepted + [id], limit)
  {
    var first, all, order := accepted[0], accepted + [id], s.order + [id];
    assert id != first && id !in s.order by {
      assert first in s.processed && Elements(s.order) <= s.processed;
    }
    DistinctFirst(first, s.order);
    DistinctAppend([first] + s.order, id);
    assert [first] + s.order + [id] == [first] + order;
    assert all[|all| - limit..] == order;
    PopOne(first, order, limit);
    RemembersAfterPop(all, order, limit);
  }

  lemma DistinctFirst(first: string, s: seq<string>)
    requires Distinct(s) && first !in s
    ensures Distinct([first] + s) && Elements([first] + s) == Elements(s) + {first}
  {
  }

  class Callbacks {
    const limit: nat
    var processed: set<string>
    var order: seq<string>
    ghost var accepted: seq<string>

    ghost predicate Valid()
      reads this
    {
      limit >= 1 && Remembers(Memory(processed, order), accepted, limit)
    }

    constructor (limit: nat)
      requires limit >= 1
      ensures Valid() && this.limit == limit && accepted == []
    {
      this.limit, processed, order, accepted := limit, {}, [], [];
    }

    /** The loop that keeps the set bounded; it is only called where it never pops an empty deque. */
    method EvictOldest()
      requires |Evict(Memory(processed, order), limit).processed| <= limit
      modifies this`processed, this`order
      ensures Memory(processed, order) == Evict(Memory(old(processed), old(order)), limit)
    {
      while |processed| > limit
        invariant Evict(Memory(processed, order), limit) == Evict(Memory(old(processed), old(order)), limit)
        decreases |order|
      {
        assert order != [];
        var oldest := order[0];
        order := order[1..];
        processed := processed - {oldest};
      }
    }

    method MarkCallbackProcessed(id: Option<string>) returns (unseen: bool)
      requires Valid()
      modifies this
      ensures Valid()
      ensures unseen <==> id.Some? && id.value !in old(processed)
      ensures accepted == if unseen then old(accepted) + [id.value] else old(accepted)
      ensures Memory(processed, order) == Mark(Memory(old(processed), old(order)), id, limit).0
    {
      if id == None || id.value in processed {
        return false;
      }
      MarkRemembers(Memory(processed, order), accepted, limit, id.value);
      processed := processed + {id.value};
      if |order| >= limit {
        order := order[1..];
      }
      order := order + [id.value];
      EvictOldest();
      accepted := accepted + [id.value];
      return true;
    }
  }

  /** One accepted id more. */
  lemma MarkRemembers(s: Memory, accepted: seq<string>, limit: nat, id: string)
    requires limit >= 1 && Remembers(s, accepted, limit) && id !in s.processed
    ensures Mark(s, Some(id), limit).1 && Remembers(Mark(s, Some(id), limit).0, accepted + [id], limit)
    ensures |Mark(s, Some(id), limit).0.processed| <= limit
  {
    if |accepted| < limit {
      RoomLeft(s, accepted, limit, id);
    } else if |accepted| == limit {
      FirstOverflow(s, accepted, limit, id);
    } else {
      LaterOverflow(s, accepted, limit, id);
    }
    SizeOfMemory(Mark(s, Some(id), limit).0, accepted + [id], limit);
  }

  // ---------------------------------------------------------------------------------------------
  // Runs
  // ---------------------------------------------------------------------------------------------

  /** The memory after a run of calls, and the ids it accepted. */
  function Run(ids: seq<Option<string>>, limit: nat): (Memory, seq<string>)
    requires limit >= 1
  {
    if ids == [] then (Memory({}, []), [])
    else
      var (s, accepted) := Run(ids[..|ids| - 1], limit);
      var id := ids[|ids| - 1];
      var (s', ok) := Mark(s, id, limit);
      (s', if ok then accepted + [id.value] else accepted)
  }

  /** Every run: the set never exceeds its limit, the deque is free of duplicates and part of the set, and the
      memory holds exactly the first accepted id and the recent ones. */
  lemma {:induction false} RunRemembers(ids: seq<Option<string>>, limit: nat)
    requires limit >= 1
    ensures var (s, accepted) := Run(ids, limit);
            && Remembers(s, accepted, limit)
            && |s.processed| <= limit
            && Elements(s.order) <= s.processed && Distinct(s.order)
  {
    if ids != [] {
      RunRemembers(ids[..|ids| - 1], limit);
      var (s, accepted) := Run(ids[..|ids| - 1], limit);
      var id := ids[|ids| - 1];
      if id.Some? && id.value !in s.processed {
        MarkRemembers(s, accepted, limit, id.value);
      }
    }
  }

  /** Which ids are rejected: the first one for ever, and the last `limit - 1`, or all while they fit. */
  lemma RejectedExactly(ids: seq<Option<string>>, limit: nat, id: string)
    requires limit >= 1
    ensures var (s, accepted) := Run(ids, limit);
            !Mark(s, Some(id), limit).1 <==>
              id in Recent(accepted, limit) || (accepted != [] && id == accepted[0])
  {
    RunRemembers(ids, limit);
  }

  /** The memory rejects each of the last `limit` accepted ids exactly as long as it never overflowed. */
  lemma LastLimitRejectedExactlyWhen(ids: seq<Option<string>>, limit: nat)
    requires limit >= 1
    ensures var (s, accepted) := Run(ids, limit);
            var from := if |accepted| < limit then 0 else |accepted| - limit;
            (forall id :: id in accepted[from..] ==> !Mark(s, Some(id), limit).1) <==> |accepted| <= limit
  {
    var accepted := Run(ids, limit).1;
    if |accepted| > limit {
      OneOfTheLastIsForgotten(ids, limit);
    } else {
      forall id | id in accepted[0..] ensures !Mark(Run(ids, limit).0, Some(id), limit).1 {
        RejectedExactly(ids, limit, id);
      }
    }
  }

  /** After an overflow the oldest of the last `limit` accepted ids would be accepted again. */
  lemma OneOfTheLastIsForgotten(ids: seq<Option<string>>, limit: nat)
    requires limit >= 1 && |Run(ids, limit).1| > limit
    ensures var (s, accepted) := Run(ids, limit);
            var id := accepted[|accepted| - limit];
            id in accepted[|accepted| - limit..] && Mark(s, Some(id), limit).1
  {
    RunRemembers(ids, limit);
    var accepted := Run(ids, limit).1;
    RejectedExactly(ids, limit, accepted[|accepted| - limit]);
    assert accepted[|accepted| - limit] == accepted[|accepted| - limit..][0];
  }

  /** One call more is one step more: an id is accepted exactly when it is a string that is not remembered. */
  lemma OneCallMore(ids: seq<Option<string>>, limit: nat, id: Option<string>)
    requires limit >= 1
    ensures var (s, accepted) := Run(ids, limit);
            Run(ids + [id], limit) ==
              if id.Some? && id.value !in s.processed then (Mark(s, id, limit).0, accepted + [id.value])
              else (s, accepted)
  {
    assert (ids + [id])[..|ids|] == ids;
  }
}

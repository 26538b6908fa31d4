/** Verified handles: a directory or file that was resolved stays held until it is released, once. */
module Holds {
  import opened Walks

  /** Where the file system lets a call down: the listing of a directory, the resolution of an entry, its
      identity once it is held, or the reading of its bytes. */
  datatype Fault = NoFault | Unlistable | Unresolvable | Vanished | Changed

  class HoldTable {
    var open: set<nat>
    var next: nat

    ghost predicate Valid()
      reads this
    {
      forall h <- open :: h < next
    }

    constructor ()
      ensures Valid() && open == {} && next == 0
    {
      open, next := {}, 0;
    }

    method Take() returns (h: nat)
      requires Valid()
      modifies this
      ensures Valid() && h == old(next) && next == h + 1 && open == old(open) + {h}
    {
      h := next;
      open, next := open + {h}, next + 1;
    }

    /** Only what is held can be released, so nothing is released twice. */
    method Release(h: nat)
      requires Valid() && h in open
      modifies this
      ensures Valid() && next == old(next) && open == old(open) - {h}
    {
      open := open - {h};
    }
  }

  /** A directory on the worklist with its hold. */
  datatype Held = Held(dir: Dir, id: nat)

  function Dirs(pending: seq<Held>): (r: seq<Dir>)
    ensures |r| == |pending|
  {
    seq(|pending|, i requires 0 <= i < |pending| => pending[i].dir)
  }

  lemma DirsPush(pending: seq<Held>, h: Held)
    ensures Dirs(pending + [h]) == Dirs(pending) + [h.dir]
  {
  }

  function Ids(pending: seq<Held>): set<nat> {
    set h | h in pending :: h.id
  }

  /** The open holds are those of `pending`, one each, and the ones of `others`. */
  ghost predicate Owns(open: set<nat>, others: set<nat>, pending: seq<Held>) {
    && open == others + Ids(pending)
    && (forall h <- pending :: h.id !in others)
    && forall i, j :: 0 <= i < j < |pending| ==> pending[i].id != pending[j].id
  }

  lemma PopOwned(open: set<nat>, others: set<nat>, pending: seq<Held>)
    requires Owns(open, others, pending) && pending != []
    ensures pending[0].id in open && pending[0].id !in others
    ensures Owns(open, others + {pending[0].id}, pending[1..])
    ensures Owns(open - {pending[0].id}, others, pending[1..])
  {
    var h := pending[0];
    assert h in pending;
    forall other | other in pending[1..]
      ensures other.id != h.id && other in pending
    {
      var i :| 0 <= i < |pending[1..]| && pending[1..][i] == other;
      assert pending[i + 1] == other;
    }
    assert Ids(pending) == {h.id} + Ids(pending[1..]) by {
      forall x | x in Ids(pending)
        ensures x == h.id || x in Ids(pending[1..])
      {
        var y :| y in pending && y.id == x;
        assert y == h || y in pending[1..];
      }
    }
  }

  lemma PushOwned(open: set<nat>, others: set<nat>, pending: seq<Held>, h: Held)
    requires Owns(open, others, pending) && h.id !in open
    ensures Owns(open + {h.id}, others, pending + [h])
  {
    var all := pending + [h];
    assert Ids(all) == Ids(pending) + {h.id} by {
      forall x | x in Ids(pending) + {h.id}
        ensures x in Ids(all)
      {
        if x == h.id {
          assert all[|pending|] == h;
        } else {
          var y :| y in pending && y.id == x;
          assert y in all;
        }
      }
    }
    forall i | 0 <= i < |pending|
      ensures all[i].id != h.id
    {
      assert pending[i] in pending;
    }
  }

  method ReleaseOwned(holds: HoldTable, id: nat, pending: seq<Held>, ghost others: set<nat>)
    requires holds.Valid() && Owns(holds.open, others + {id}, pending) && id !in others
    modifies holds
    ensures holds.Valid() && Owns(holds.open, others, pending)
  {
    holds.Release(id);
  }

  /** The cleanup around a traversal: whatever still waits is released. */
  method ReleaseAll(holds: HoldTable, pending: seq<Held>, ghost others: set<nat>)
    requires holds.Valid() && Owns(holds.open, others, pending)
    modifies holds
    ensures holds.Valid() && holds.open == others && holds.next == old(holds.next)
  {
    var left := pending;
    while left != []
      invariant holds.Valid() && Owns(holds.open, others, left) && holds.next == old(holds.next)
      decreases |left|
    {
      PopOwned(holds.open, others, left);
      holds.Release(left[0].id);
      left := left[1..];
    }
  }
}

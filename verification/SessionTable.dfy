/** The mutex-guarded table of active sessions as the object it is: each method is one critical section. */
module SessionTable {
  import opened SessionDisk
  import opened SessionStore

  /** Every sequence number is below the next and in the table at most once. */
  ghost predicate Numbered(active: map<Id, Active>, next: nat) {
    && (forall id :: id in active ==> active[id].sequence < next)
    && (forall id, other :: id in active && other in active && active[id].sequence == active[other].sequence ==> id == other)
  }

  class Table {
    var active: map<Id, Active>
    var next: nat

    constructor ()
      ensures active == map[] && next == 0 && Valid()
    {
      active, next := map[], 0;
    }

    ghost predicate Valid()
      reads this
    {
      Numbered(active, next)
    }

    /** The registration in `start_owned`: a number no entry has or had. */
    method Register(id: Id) returns (sequence: nat)
      requires Valid()
      modifies this
      ensures Valid() && sequence == old(next) && next == old(next) + 1
      ensures active == old(active)[id := Active(sequence, true)]
      ensures forall other :: other in old(active) ==> old(active)[other].sequence != sequence
    {
      sequence := next;
      next := next + 1;
      active := active[id := Active(sequence, true)];
    }

    /** `release`: only the start that was given `sequence` can drop the entry, so a late release of a
        predecessor leaves its successor with its cancel sender. */
    method Drop(id: Id, sequence: nat)
      requires Valid()
      modifies this`active
      ensures Valid() && active == Release(old(active), id, sequence)
      ensures forall other :: other in old(active) && old(active)[other].sequence != sequence ==>
                other in active && active[other] == old(active)[other]
      ensures forall other :: other in active ==> active[other].sequence != sequence || other != id
    {
      if id in active && active[id].sequence == sequence { active := active - {id}; }
    }

    /** The table's part of `cancel`: the sender is taken at most once. */
    method TakeSender(id: Id) returns (sent: bool)
      requires Valid()
      modifies this`active
      ensures Valid() && sent == (id in old(active) && old(active)[id].sender)
      ensures active == if id in old(active) then old(active)[id := old(active)[id].(sender := false)] else old(active)
    {
      sent := id in active && active[id].sender;
      if id in active { active := active[id := active[id].(sender := false)]; }
    }

    /** The check in `get`. */
    method Supervised(id: Id) returns (yes: bool)
      ensures yes <==> id in active
    {
      return id in active;
    }
  }
}

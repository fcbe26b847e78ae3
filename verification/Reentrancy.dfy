/** The re-entrancy guard of the Python binding: a vector per OS thread of the workbooks whose
    callbacks run there, pushed when a callback starts and searched from the back when it ends. */
module Reentrancy {
  type WorkbookId = nat
  type Tid = nat

  /** The vector without the last occurrence of `id`. */
  function Dropped(active: seq<WorkbookId>, id: WorkbookId): seq<WorkbookId> {
    if active == [] then []
    else
      var front, last := active[..|active| - 1], active[|active| - 1];
      if last == id then front else Dropped(front, id) + [last]
  }

  lemma DroppedSearch(active: seq<WorkbookId>, id: WorkbookId, pos: nat)
    requires 0 < pos <= |active|
    ensures active[pos - 1] == id ==> Dropped(active[..pos], id) == active[..pos - 1]
    ensures active[pos - 1] != id ==>
              Dropped(active[..pos], id) + active[pos..] == Dropped(active[..pos - 1], id) + active[pos - 1..]
  {
    assert active[..pos][..pos - 1] == active[..pos - 1];
    assert [active[pos - 1]] + active[pos..] == active[pos - 1..];
  }

  /** `thread_local! ACTIVE` of one thread, with the guard's constructor and destructor. */
  class ThreadMarker {
    var active: seq<WorkbookId>

    constructor ()
      ensures active == []
    {
      active := [];
    }

    method Enter(id: WorkbookId)
      modifies this
      ensures active == old(active) + [id]
    {
      active := active + [id];
    }

    method Leave(id: WorkbookId)
      modifies this
      ensures active == Dropped(old(active), id)
    {
      var pos := |active|;
      assert active[..pos] == active && Dropped(active, id) + active[pos..] == Dropped(active, id);
      while pos > 0 && active[pos - 1] != id
        invariant active == old(active) && 0 <= pos <= |active|
        invariant Dropped(active, id) == Dropped(active[..pos], id) + active[pos..]
      {
        DroppedSearch(active, id, pos);
        pos := pos - 1;
      }
      if pos > 0 {
        DroppedSearch(active, id, pos);
        active := active[..pos - 1] + active[pos..];
      } else {
        assert Dropped(active[..0], id) + active[0..] == active;
      }
    }

    method IsActive(id: WorkbookId) returns (found: bool)
      ensures found <==> id in active
    {
      for i := 0 to |active|
        invariant id !in active[..i]
      {
        if active[i] == id {
          return true;
        }
      }
      return false;
    }
  }

  // ----- Any nesting, any order of drops -----

  datatype Event = Enter(id: WorkbookId) | Leave(id: WorkbookId)

  function Vector(events: seq<Event>): seq<WorkbookId> {
    if events == [] then []
    else
      var before := Vector(events[..|events| - 1]);
      match events[|events| - 1]
      case Enter(id) => before + [id]
      case Leave(id) => Dropped(before, id)
  }

  /** The callbacks of each workbook still running: entered and not yet left. */
  function Running(events: seq<Event>): multiset<WorkbookId> {
    if events == [] then multiset{}
    else
      var before := Running(events[..|events| - 1]);
      match events[|events| - 1]
      case Enter(id) => before + multiset{id}
      case Leave(id) => before - multiset{id}
  }

  lemma {:induction false} DroppedContents(active: seq<WorkbookId>, id: WorkbookId)
    ensures multiset(Dropped(active, id)) == multiset(active) - multiset{id}
  {
    if active != [] {
      var front, last := active[..|active| - 1], active[|active| - 1];
      assert active == front + [last];
      if last != id {
        DroppedContents(front, id);
      }
    }
  }

  /** Whatever the nesting and whatever the order in which guards are dropped, `is_active` holds
      for exactly the workbooks that have a callback still running on the thread. */
  lemma {:induction false} ActiveIffRunning(events: seq<Event>, id: WorkbookId)
    ensures multiset(Vector(events)) == Running(events)
    ensures id in Vector(events) <==> Running(events)[id] > 0
  {
    if events != [] {
      var front := events[..|events| - 1];
      ActiveIffRunning(front, id);
      if events[|events| - 1].Leave? {
        DroppedContents(Vector(front), events[|events| - 1].id);
      }
    }
    assert id in Vector(events) <==> id in multiset(Vector(events));
  }
}

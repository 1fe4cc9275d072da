/** The DDS entities made for routes of one kind, readers or writers. Handles in use are positive. */
module DdsLibrary {
  import opened Wrappers
  import opened QosAdaptation
  import opened Bridge

  class DdsEntities {
    var live: map<int, string>
    var issued: map<string, Spec>

    constructor ()
      ensures Valid() && live == map[] && issued == map[]
    {
      live, issued := map[], map[];
    }

    predicate Valid()
      reads this
    {
      0 !in live
    }

    predicate WouldAccept(o: Outcome)
      reads this
    {
      o.entity.Some? && o.entity.value.0 > 0 && o.entity.value.0 !in live && o.entity.value.1 !in issued
    }

    /** The entity is there afterwards, or nothing changed. */
    method Create(o: Outcome, spec: Spec) returns (r: Option<int>)
      requires Valid()
      modifies this
      ensures Valid()
      ensures if old(WouldAccept(o)) then
                var (handle, guid) := o.entity.value;
                r == Some(handle) && live == old(live)[handle := guid] && issued == old(issued)[guid := spec]
              else r == None && live == old(live) && issued == old(issued)
    {
      if WouldAccept(o) {
        var (handle, guid) := o.entity.value;
        live, issued := live[handle := guid], issued[guid := spec];
        return Some(handle);
      }
      return None;
    }

    method Delete(handle: int)
      requires Valid()
      modifies this
      ensures Valid() && live == old(live) - {handle} && issued == old(issued)
    {
      live := live - {handle};
    }

    /** `get_guid` fails on what is not there. */
    function Guid(handle: int): Option<string>
      reads this
    {
      if handle in live then Some(live[handle]) else None
    }
  }
}

/**
 * The handle registry behind `HandleObject` (HandleObject.cpp): a counter
 * that hands out handles starting at 1 and a map from live handles to
 * their objects. The source keeps both in static storage shared by every
 * handle object; here they are the fields of one explicit registry object,
 * which the constructor and destructor of a handle object change.
 */
module Handles {
  import opened Wrappers

  class HandleRegistry<T> {
    /** The next handle to hand out. */
    var newHandle: int
    /** The live objects by handle. */
    var handleObjectMap: map<int, T>

    /** Every live handle was handed out before, so none is ever handed out again. */
    ghost predicate Valid()
      reads this
    {
      newHandle >= 1 && forall handle :: handle in handleObjectMap ==> 1 <= handle < newHandle
    }

    constructor ()
      ensures Valid() && newHandle == 1 && handleObjectMap == map[]
    {
      newHandle := 1;
      handleObjectMap := map[];
    }

    /**
     * The live object with this handle, or null: null exactly when no live
     * object holds the handle, so always for a handle never issued.
     */
    function Dereference(handle: int): (r: Option<T>)
      reads this
      ensures r.Some? <==> handle in handleObjectMap
      ensures r.Some? ==> r.value == handleObjectMap[handle]
      ensures Valid() && !(1 <= handle < newHandle) ==> r.None?
    {
      if handle in handleObjectMap then Some(handleObjectMap[handle]) else None
    }

    /**
     * What the `HandleObject` constructor does: takes the next handle,
     * advances the counter and registers the object under the handle.
     */
    method Register(item: T) returns (handle: int)
      requires Valid()
      modifies this
      ensures Valid()
      ensures handle == old(newHandle) && newHandle == old(newHandle) + 1
      ensures handle >= 1 && handle !in old(handleObjectMap)
      ensures handleObjectMap == old(handleObjectMap)[handle := item]
      ensures Dereference(handle) == Some(item)
      ensures forall other :: other != handle ==> Dereference(other) == old(Dereference(other))
    {
      handle := newHandle;
      newHandle := newHandle + 1;
      handleObjectMap := handleObjectMap[handle := item];
    }

    /**
     * What the `HandleObject` destructor does: erases the entry of its own
     * handle, if any. The counter stays where it is.
     */
    method Unregister(handle: int)
      requires Valid()
      modifies this
      ensures Valid() && newHandle == old(newHandle)
      ensures handleObjectMap == old(handleObjectMap) - {handle}
      ensures Dereference(handle) == None
      ensures forall other :: other != handle ==> Dereference(other) == old(Dereference(other))
    {
      if handle in handleObjectMap {
        handleObjectMap := handleObjectMap - {handle};
      }
    }

    /** A handle never handed out dereferences to null. */
    lemma NeverIssuedIsNull(handle: int)
      requires Valid()
      requires handle < 1 || handle >= newHandle
      ensures Dereference(handle) == None
    {
    }
  }
}

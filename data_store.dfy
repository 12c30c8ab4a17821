/** The sort-preference slot: one optional string under a single key of the
    preferences file. */
module DataStore {
  import opened Models

  /** What the preferences file read ran into: nothing, an IOException, or
      any other exception. */
  datatype ReadFault = NoFault | IOFailure | OtherFailure(message: string)

  /** `readSortState`: the stored string, or "NONE" when the key was never
      written. An IOException is replaced by empty preferences and so also
      reads as "NONE"; any other exception is rethrown. */
  function ReadSortState(stored: Option<string>, fault: ReadFault): (r: Result<string, string>)
    ensures fault.NoFault? && stored.Some? ==> r == Ok(stored.value)
    ensures (fault.NoFault? && stored.None?) || fault.IOFailure? ==> r == Ok("NONE")
    ensures fault.OtherFailure? ==> r == Err(fault.message)
    ensures r.Ok? && r.value != "NONE" ==> stored == Some(r.value)
  {
    match fault
    case OtherFailure(message) => Err(message)
    case IOFailure => Ok(PriorityName(NONE))
    case NoFault => Ok(if stored.Some? then stored.value else PriorityName(NONE))
  }

  /** A store whose key is empty reads back the NONE priority. */
  lemma FreshStoreReadsNone(fault: ReadFault)
    requires !fault.OtherFailure?
    ensures var r := ReadSortState(None, fault);
      r.Ok? && PriorityValueOf(r.value) == Some(NONE)
  {
  }

  /** Round trip through the slot: once a priority's name is stored, a
      fault-free read yields that name and `Priority.valueOf` maps it back to
      the priority. */
  lemma SortPreferenceRoundTrip(p: Priority)
    ensures ReadSortState(Some(PriorityName(p)), NoFault) == Ok(PriorityName(p))
    ensures PriorityValueOf(ReadSortState(Some(PriorityName(p)), NoFault).value) == Some(p)
  {
  }

  /** The preferences data store, updated in place by `persistSortState`. */
  class SortPreferenceStore {
    var sortKey: Option<string>

    constructor ()
      ensures sortKey == None
    {
      sortKey := None;
    }

    /** `persistSortState`: overwrites the key with the priority's name. */
    method PersistSortState(p: Priority)
      modifies this
      ensures sortKey == Some(PriorityName(p))
    {
      sortKey := Some(PriorityName(p));
    }
  }
}

/*
 * The mobile device storage API of the Factory demo
 * (Factory/MobileDevice.cs): one slot of saved bytes, written by `Save`
 * and read by `Load`, each guarded by the access rights the caller
 * claims. The console log lines are left out; the handle only ever
 * appears in them.
 */
module MobileStorage {
  import opened Wrappers

  newtype byte = x: int | 0 <= x < 256

  /** `MobileStorageAccess`. */
  datatype MobileStorageAccess = READ | WRITE | READ_WRITE

  /** `Save` writes only with `WRITE` or `READ_WRITE` rights and non-null,
      nonempty data. */
  predicate SaveAccepted(access: MobileStorageAccess, data: Option<seq<byte>>) {
    (access == WRITE || access == READ_WRITE) && data.Some? && |data.value| > 0
  }

  /** The slot after `Save(access, handle, data)`. */
  function SavedAfter(saved: seq<byte>, access: MobileStorageAccess, data: Option<seq<byte>>): (s: seq<byte>)
    ensures access == READ ==> s == saved
    ensures data == None || data == Some([]) ==> s == saved
    ensures SaveAccepted(access, data) ==> s == data.value
  {
    if access != WRITE && access != READ_WRITE then saved
    else if data.None? || |data.value| == 0 then saved
    else data.value
  }

  /** What `Load(access, handle)` returns from the slot `saved`. */
  function Loaded(saved: seq<byte>, access: MobileStorageAccess): (r: seq<byte>)
    ensures access == WRITE ==> r == []
    ensures saved == [] ==> r == []
    ensures access.READ? || access.READ_WRITE? ==> r == saved
  {
    if access != READ && access != READ_WRITE then []
    else if |saved| == 0 then []
    else saved
  }

  /** Round trip: an accepted save is read back unchanged by any load with
      read rights, and a load with read rights after a refused save still
      returns what was there before. */
  lemma SaveLoadRoundTrip(saved: seq<byte>, saveAccess: MobileStorageAccess, data: Option<seq<byte>>,
                          loadAccess: MobileStorageAccess)
    requires loadAccess == READ || loadAccess == READ_WRITE
    ensures SaveAccepted(saveAccess, data) ==> Loaded(SavedAfter(saved, saveAccess, data), loadAccess) == data.value
    ensures !SaveAccepted(saveAccess, data) ==> Loaded(SavedAfter(saved, saveAccess, data), loadAccess) == saved
  {
  }

  /** Once an accepted save has happened, a load with read rights never
      comes back empty. */
  lemma LoadAfterSaveNonEmpty(saved: seq<byte>, access: MobileStorageAccess, data: Option<seq<byte>>,
                              loadAccess: MobileStorageAccess)
    requires SaveAccepted(access, data) && loadAccess != WRITE
    ensures |Loaded(SavedAfter(saved, access, data), loadAccess)| > 0
  {
  }

  class MobileDevice {
    /** `savedData`: the bytes saved last, empty until the first save. */
    var savedData: seq<byte>

    constructor ()
      ensures savedData == []
    {
      savedData := [];
    }

    /** `Save`: refused without write rights, then refused for null or
        empty data; otherwise the data replaces what was saved. */
    method Save(access: MobileStorageAccess, handle: int, data: Option<seq<byte>>)
      modifies this
      ensures savedData == SavedAfter(old(savedData), access, data)
    {
      if access != WRITE && access != READ_WRITE {
        return;
      }
      if data.None? || |data.value| == 0 {
        return;
      }
      savedData := data.value;
    }

    /** `Load`: empty without read rights, empty when nothing is saved,
        otherwise the saved bytes. */
    method Load(access: MobileStorageAccess, handle: int) returns (r: seq<byte>)
      ensures r == Loaded(savedData, access)
    {
      if access != READ && access != READ_WRITE {
        return [];
      }
      if |savedData| == 0 {
        return [];
      }
      return savedData;
    }
  }
}

/*
 * The game console storage API of the Factory demo
 * (Factory/GameConsole.cs). Its only effect is a console log line, so each
 * operation is modelled by the outcome that line reports: the error
 * raised, or the background save or load it schedules, with the handle it names.
 */
module ConsoleStorage {
  import opened Wrappers

  /** `StorageRequestType`: Read = 0, Write = 1, ReadWrite = 2. */
  datatype StorageRequestType = Read | Write | ReadWrite

  /** `StoragePermissionRequest`. */
  datatype StoragePermissionRequest = StoragePermissionRequest(processId: int, requestType: StorageRequestType)

  /** `StoragePermissionResponse`. */
  datatype StoragePermissionResponse =
    StoragePermissionResponse(processId: int, storageHandle: Guid, granted: bool, requestType: StorageRequestType)

  /** The exceptions the console reports. */
  datatype StorageError = NullArgument | Unauthorized | InsufficientAccess

  /** What a `Save` or `Load` call reports, and under which handle. */
  datatype Outcome =
    | Failed(error: StorageError, handle: Guid)
    | Scheduled(handle: Guid, processId: int)

  /** `GetStoragePermission`: every request is granted, for its own
      process and request type, under the fresh handle `handle`. */
  function GetStoragePermission(request: StoragePermissionRequest, handle: Guid): (r: StoragePermissionResponse)
    ensures r.processId == request.processId && r.requestType == request.requestType
    ensures r.granted && r.storageHandle == handle
  {
    StoragePermissionResponse(request.processId, handle, true, request.requestType)
  }

  /** `Save`: a null permission, then a refused one, then one that does not
      allow writing are rejected in that order; otherwise the save task is
      scheduled for the permission's process. */
  function Save(permission: Option<StoragePermissionResponse>): (o: Outcome)
    ensures o == Failed(NullArgument, EmptyGuid) <==> permission.None?
    ensures o.Failed? && o.error == Unauthorized <==> permission.Some? && !permission.value.granted
    ensures o.Failed? && o.error == InsufficientAccess <==>
      permission.Some? && permission.value.granted && permission.value.requestType.Read?
    ensures o.Scheduled? <==>
      permission.Some? && permission.value.granted && permission.value.requestType != Read
    ensures permission.Some? ==> o.handle == permission.value.storageHandle
    ensures o.Scheduled? ==> o.processId == permission.value.processId
  {
    if permission.None? then Failed(NullArgument, EmptyGuid)
    else if !permission.value.granted then Failed(Unauthorized, permission.value.storageHandle)
    else if permission.value.requestType != ReadWrite && permission.value.requestType != Write then
      Failed(InsufficientAccess, permission.value.storageHandle)
    else Scheduled(permission.value.storageHandle, permission.value.processId)
  }

  /** `Load`: the same checks in the same order, except that the
      permission must allow reading. */
  function Load(permission: Option<StoragePermissionResponse>): (o: Outcome)
    ensures o == Failed(NullArgument, EmptyGuid) <==> permission.None?
    ensures o.Failed? && o.error == Unauthorized <==> permission.Some? && !permission.value.granted
    ensures o.Failed? && o.error == InsufficientAccess <==>
      permission.Some? && permission.value.granted && permission.value.requestType.Write?
    ensures o.Scheduled? <==>
      permission.Some? && permission.value.granted && permission.value.requestType != Write
    ensures permission.Some? ==> o.handle == permission.value.storageHandle
    ensures o.Scheduled? ==> o.processId == permission.value.processId
  {
    if permission.None? then Failed(NullArgument, EmptyGuid)
    else if !permission.value.granted then Failed(Unauthorized, permission.value.storageHandle)
    else if permission.value.requestType != ReadWrite && permission.value.requestType != Read then
      Failed(InsufficientAccess, permission.value.storageHandle)
    else Scheduled(permission.value.storageHandle, permission.value.processId)
  }

  /** A granted permission passes exactly one of `Save` and `Load` when it
      is `Write` or `Read`, and both when it is `ReadWrite`. */
  lemma AccessByRequestType(p: StoragePermissionResponse)
    requires p.granted
    ensures p.requestType == Write ==> Save(Some(p)).Scheduled? && Load(Some(p)) == Failed(InsufficientAccess, p.storageHandle)
    ensures p.requestType == Read ==> Load(Some(p)).Scheduled? && Save(Some(p)) == Failed(InsufficientAccess, p.storageHandle)
    ensures p.requestType == ReadWrite ==> Save(Some(p)).Scheduled? && Load(Some(p)).Scheduled?
  {
  }

  /** A permission straight from `GetStoragePermission` is never refused
      as unauthorized, and a `ReadWrite` one schedules both a save and a
      load for the requesting process. */
  lemma GrantedPermissionSchedules(request: StoragePermissionRequest, handle: Guid)
    ensures Save(Some(GetStoragePermission(request, handle))) != Failed(Unauthorized, handle)
    ensures Load(Some(GetStoragePermission(request, handle))) != Failed(Unauthorized, handle)
    ensures request.requestType == ReadWrite ==>
      Save(Some(GetStoragePermission(request, handle))) == Scheduled(handle, request.processId) &&
      Load(Some(GetStoragePermission(request, handle))) == Scheduled(handle, request.processId)
  {
  }
}

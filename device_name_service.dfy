/** `DeviceNameService`: user-chosen display names laid over the names the platform
    reports, keyed by device id. Saving to disk after each change has no effect on the
    in-memory table and is not modelled. */
module DeviceNames {
  import opened Wrappers

  class DeviceNameService {
    var customNames: map<string, string>

    /** `stored` is what `LoadCustomNames` read from disk; `None` when the file is
        missing, unreadable or deserializes to null. */
    constructor (stored: Option<map<string, string>>)
      ensures customNames == stored.GetOr(map[])
      ensures stored.None? ==> forall id, name :: GetDisplayName(id, name) == name
    {
      customNames := stored.GetOr(map[]);
    }

    /** The custom name stored for the device, or the name it was given otherwise. */
    function GetDisplayName(deviceId: string, originalName: string): (name: string)
      reads this
      ensures deviceId in customNames ==> name == customNames[deviceId]
      ensures deviceId !in customNames ==> name == originalName
    {
      if deviceId in customNames then customNames[deviceId] else originalName
    }

    /** Stores `customName` for the device as given, the empty string included,
        replacing any earlier name. */
    method SetCustomName(deviceId: string, customName: string)
      modifies this
      ensures customNames == old(customNames)[deviceId := customName]
      ensures forall name :: GetDisplayName(deviceId, name) == customName
      ensures forall id, name :: id != deviceId ==>
        GetDisplayName(id, name) == old(GetDisplayName(id, name))
    {
      customNames := customNames[deviceId := customName];
    }

    /** Drops the device's custom name; removing an absent id changes nothing. */
    method RemoveCustomName(deviceId: string)
      modifies this
      ensures customNames == old(customNames) - {deviceId}
      ensures deviceId !in old(customNames) ==> customNames == old(customNames)
      ensures forall name :: GetDisplayName(deviceId, name) == name
      ensures forall id, name :: id != deviceId ==>
        GetDisplayName(id, name) == old(GetDisplayName(id, name))
    {
      customNames := customNames - {deviceId};
    }
  }
}

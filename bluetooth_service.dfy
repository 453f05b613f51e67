/** The battery resolver and snapshot assembler of `BluetoothService`.

    Every Windows device call is replaced by the data it would have produced:
    a device's property bag, the system's list of power (battery) devices, the outcome
    of reinterpreting the device as a Bluetooth LE device and of the GATT battery read.
    A call that may throw or return null is a datatype with one constructor per outcome. */
module Bluetooth {
  import opened Wrappers
  import opened Text
  import opened Numbers

  type byte = x: int | 0 <= x < 256

  /** `BluetoothMajorClass`. */
  datatype MajorClass =
    | Miscellaneous | Computer | Phone | NetworkAccessPoint | AudioVideo
    | Peripheral | Imaging | Wearable | Toy | Health

  /** A boxed property value as the platform hands it out. */
  datatype PropValue = Str(s: string) | Flag(b: bool) | Number(n: int) {
    /** `value.ToString()`. */
    function ToString(): string {
      match this
      case Str(s) => s
      case Flag(b) => if b then "True" else "False"
      case Number(n) => FormatInt(n)
    }
  }

  /** `DeviceInformation.Properties`: a key that is present may still map to null. */
  type PropertyBag = map<string, Option<PropValue>>

  /** `BatteryReport`: both capacities are nullable. */
  datatype PowerReport = PowerReport(remainingCapacity: Option<int>, fullChargeCapacity: Option<int>)

  /** What `Battery.FromIdAsync` followed by `GetReport()` gives for one power device. */
  datatype BatteryLookup =
    | BatteryThrows                               // either call throws
    | NoBattery                                   // `FromIdAsync` returns null
    | BatteryFound(report: Option<PowerReport>)   // `GetReport()` may return null

  /** One entry of the system's power-device enumeration. */
  datatype PowerEntry = PowerEntry(id: string, name: string, battery: BatteryLookup)

  /** `BluetoothLEDevice.FromIdAsync` in the GATT step: null or throwing is `NotLe`.
      For an LE device, `batteryRead` is the buffer of a successful battery-level read, or `None` when the
      service discovery, the characteristic discovery or the read does not succeed. */
  datatype LeProfile = NotLe | Le(batteryRead: Option<seq<byte>>)

  /** A `BluetoothDevice` together with what the platform reports about it during one poll. */
  datatype BluetoothDevice = BluetoothDevice(
    deviceId: string,
    name: string,
    connected: bool,
    classOfDevice: Option<MajorClass>,
    properties: Option<PropertyBag>,      // `CreateFromIdAsync`; None: null or throws
    batteries: Option<seq<PowerEntry>>,   // power-device enumeration; None: throws
    le: LeProfile,                        // the GATT step's LE lookup and battery read
    versionLe: bool)                      // the version probe's own LE lookup returns a device

  /** `BluetoothDevice.FromIdAsync(devInfo.Id)`. */
  datatype DeviceLookup = LookupThrows | NotFound | Found(device: BluetoothDevice)

  /** One enumerated `DeviceInformation`. */
  datatype DeviceInformation = DeviceInformation(
    id: string, name: string, properties: PropertyBag, lookup: DeviceLookup)

  /** `BluetoothDeviceModel`, the per-device snapshot. */
  datatype BluetoothDeviceModel = BluetoothDeviceModel(
    id: string,
    name: string,
    batteryLevel: Option<int>,
    isConnected: bool,
    icon: string,
    bluetoothVersion: Option<string>)

  // ---------------------------------------------------------------------------
  // Step 1: the device property bag

  const BatteryPropertyKeys: seq<string> := [
    "System.Devices.BatteryLevel",
    "System.Devices.Battery.Level",
    "System.Devices.Aep.IsBatteryLevelAvailable",
    "System.Devices.Aep.BatteryLevel"
  ]

  /** The level a property value yields: its text must parse as an `int` in 0..100. */
  function AcceptedLevel(value: Option<PropValue>): (level: Option<int>)
    ensures level.Some? ==> 0 <= level.value <= 100
    ensures level.Some? <==>
      value.Some? && ParseInt(value.value.ToString()).Some? &&
      0 <= ParseInt(value.value.ToString()).value <= 100
    ensures level.Some? ==> level == ParseInt(value.value.ToString())
  {
    if value.None? then None
    else
      var parsed := ParseInt(value.value.ToString());
      if parsed.Some? && 0 <= parsed.value <= 100 then parsed else None
  }

  /** The level found under one key: the key must be present with a non-null value. */
  function KeyLevel(props: PropertyBag, key: string): (level: Option<int>)
    ensures level.Some? ==> key in props && props[key].Some? && 0 <= level.value <= 100
    ensures key !in props || props[key].None? ==> level.None?
  {
    if key in props then AcceptedLevel(props[key]) else None
  }

  /** The level under the first key, in the given order, that yields one. */
  function PropertyLevel(props: PropertyBag, keys: seq<string>): (level: Option<int>)
    ensures level.Some? ==> 0 <= level.value <= 100
    ensures level.Some? ==>
      exists i :: 0 <= i < |keys| && KeyLevel(props, keys[i]) == level &&
        forall j :: 0 <= j < i ==> KeyLevel(props, keys[j]).None?
    ensures level.None? <==> forall i :: 0 <= i < |keys| ==> KeyLevel(props, keys[i]).None?
    decreases |keys|
  {
    if keys == [] then None
    else if KeyLevel(props, keys[0]).Some? then
      KeyLevel(props, keys[0])
    else
      var rest := PropertyLevel(props, keys[1..]);
      assert forall i :: 1 <= i < |keys| ==> keys[i] == keys[1..][i - 1];
      if rest.Some? then
        var i :| 0 <= i < |keys[1..]| && KeyLevel(props, keys[1..][i]) == rest &&
          forall j :: 0 <= j < i ==> KeyLevel(props, keys[1..][j]).None?;
        assert KeyLevel(props, keys[i + 1]) == rest;
        assert forall j :: 0 <= j < i + 1 ==> KeyLevel(props, keys[j]).None? by {
          forall j | 0 <= j < i + 1 ensures KeyLevel(props, keys[j]).None? {
            if j > 0 { assert keys[j] == keys[1..][j - 1]; }
          }
        }
        rest
      else
        rest
  }

  // ---------------------------------------------------------------------------
  // Step 2: the system power-report list

  /** The heuristic that ties a power entry to a device: the entry's id contains the part
      of the device id after its last `#`, or the entry's name contains the device's
      name ignoring case. */
  predicate Linked(entry: PowerEntry, deviceId: string, deviceName: string) {
    Contains(entry.id, AfterLast(deviceId, '#')) || ContainsIgnoreCase(entry.name, deviceName)
  }

  /** A report is used only when both capacities are present and the full charge is positive. */
  predicate UsableReport(report: Option<PowerReport>) {
    report.Some? && report.value.fullChargeCapacity.Some? &&
    report.value.remainingCapacity.Some? && report.value.fullChargeCapacity.value > 0
  }

  /** `remaining / full * 100` cut toward zero to an integer. */
  function Percentage(remaining: int, full: int): (p: int)
    requires full > 0
    ensures remaining >= 0 ==> 0 <= p && p * full <= 100 * remaining < (p + 1) * full
    ensures remaining < 0 ==> p <= 0 && -p * full <= -100 * remaining < (-p + 1) * full
  {
    if remaining >= 0 then (100 * remaining) / full else -((-100 * remaining) / full)
  }

  /** The percentage of a usable report. */
  function ReportPercentage(report: Option<PowerReport>): (p: int)
    requires UsableReport(report)
    ensures var r, f := report.value.remainingCapacity.value, report.value.fullChargeCapacity.value;
      r >= 0 ==> 0 <= p && p * f <= 100 * r < (p + 1) * f
  {
    Percentage(report.value.remainingCapacity.value, report.value.fullChargeCapacity.value)
  }

  /** The power-report step: entries are scanned in order; a linked entry with a usable
      report gives the level, a linked entry without one is passed over, and an entry
      whose lookup throws ends the scan with no level. */
  function PowerLevel(entries: seq<PowerEntry>, deviceId: string, deviceName: string): Option<int>
    decreases |entries|
  {
    if entries == [] then None
    else
      var entry := entries[0];
      if !Linked(entry, deviceId, deviceName) then PowerLevel(entries[1..], deviceId, deviceName)
      else
        match entry.battery
        case BatteryThrows => None
        case NoBattery => PowerLevel(entries[1..], deviceId, deviceName)
        case BatteryFound(report) =>
          if UsableReport(report) then Some(ReportPercentage(report))
          else PowerLevel(entries[1..], deviceId, deviceName)
  }

  /** A level from the power reports comes from a linked entry with a usable report. */
  lemma {:induction false} PowerLevelSource(entries: seq<PowerEntry>, deviceId: string, deviceName: string)
    requires PowerLevel(entries, deviceId, deviceName).Some?
    ensures exists i ::
      && 0 <= i < |entries| && Linked(entries[i], deviceId, deviceName)
      && entries[i].battery.BatteryFound? && UsableReport(entries[i].battery.report)
      && PowerLevel(entries, deviceId, deviceName).value == ReportPercentage(entries[i].battery.report)
    decreases |entries|
  {
    var entry := entries[0];
    if Linked(entry, deviceId, deviceName) && entry.battery.BatteryFound? && UsableReport(entry.battery.report) {
      assert Linked(entries[0], deviceId, deviceName);
    } else {
      PowerLevelSource(entries[1..], deviceId, deviceName);
      var i :| 0 <= i < |entries[1..]| && Linked(entries[1..][i], deviceId, deviceName) &&
        entries[1..][i].battery.BatteryFound? && UsableReport(entries[1..][i].battery.report) &&
        PowerLevel(entries[1..], deviceId, deviceName).value == ReportPercentage(entries[1..][i].battery.report);
      assert entries[i + 1] == entries[1..][i];
    }
  }

  /** A linked entry ends the scan when its lookup throws or its report is usable. */
  predicate Decides(entry: PowerEntry, deviceId: string, deviceName: string) {
    Linked(entry, deviceId, deviceName) &&
    (entry.battery.BatteryThrows? || (entry.battery.BatteryFound? && UsableReport(entry.battery.report)))
  }

  /** What a deciding entry gives: nothing after a throw, else its report's percentage. */
  function Decision(entry: PowerEntry): Option<int>
    requires entry.battery.BatteryThrows? || (entry.battery.BatteryFound? && UsableReport(entry.battery.report))
  {
    if entry.battery.BatteryThrows? then None else Some(ReportPercentage(entry.battery.report))
  }

  /** The power step in closed form: the first deciding entry settles the level, and
      there is no level when no entry decides. */
  lemma {:induction false} PowerLevelFirstDecisive(entries: seq<PowerEntry>, deviceId: string, deviceName: string)
    ensures (forall i :: 0 <= i < |entries| ==> !Decides(entries[i], deviceId, deviceName)) ==>
      PowerLevel(entries, deviceId, deviceName) == None
    ensures forall i ::
      (&& 0 <= i < |entries| && Decides(entries[i], deviceId, deviceName)
       && forall j :: 0 <= j < i ==> !Decides(entries[j], deviceId, deviceName))
      ==> PowerLevel(entries, deviceId, deviceName) == Decision(entries[i])
    decreases |entries|
  {
    if entries != [] {
      var rest := entries[1..];
      PowerLevelFirstDecisive(rest, deviceId, deviceName);
      assert forall i :: 0 <= i < |rest| ==> rest[i] == entries[i + 1];
      if !Decides(entries[0], deviceId, deviceName) {
        assert PowerLevel(entries, deviceId, deviceName) == PowerLevel(rest, deviceId, deviceName);
        forall i | 0 <= i < |entries| && Decides(entries[i], deviceId, deviceName) &&
            (forall j :: 0 <= j < i ==> !Decides(entries[j], deviceId, deviceName))
          ensures PowerLevel(entries, deviceId, deviceName) == Decision(entries[i])
        {
          assert i > 0;
          assert forall j :: 0 <= j < i - 1 ==> !Decides(rest[j], deviceId, deviceName);
          assert rest[i - 1] == entries[i];
        }
      }
    }
  }

  /** One step of the scan: what the first entry decides. */
  lemma PowerLevelStep(entries: seq<PowerEntry>, deviceId: string, deviceName: string)
    requires entries != []
    ensures !Linked(entries[0], deviceId, deviceName) ==> PowerLevel(entries, deviceId, deviceName) == PowerLevel(entries[1..], deviceId, deviceName)
    ensures Linked(entries[0], deviceId, deviceName) && entries[0].battery.BatteryThrows? ==>
      PowerLevel(entries, deviceId, deviceName) == None
    ensures Linked(entries[0], deviceId, deviceName) && entries[0].battery.NoBattery? ==>
      PowerLevel(entries, deviceId, deviceName) == PowerLevel(entries[1..], deviceId, deviceName)
    ensures Linked(entries[0], deviceId, deviceName) && entries[0].battery.BatteryFound? ==>
      PowerLevel(entries, deviceId, deviceName) ==
        if UsableReport(entries[0].battery.report) then Some(ReportPercentage(entries[0].battery.report))
        else PowerLevel(entries[1..], deviceId, deviceName)
  {
  }

  // ---------------------------------------------------------------------------
  // Step 3: the GATT battery-level characteristic

  /** The first byte of a successful read, unchanged; an empty buffer makes `ReadByte` throw. */
  function GattLevel(le: LeProfile): (level: Option<int>)
    ensures level.Some? <==> le.Le? && le.batteryRead.Some? && le.batteryRead.value != []
    ensures level.Some? ==> level.value == le.batteryRead.value[0] as int && 0 <= level.value < 256
  {
    if le.Le? && le.batteryRead.Some? && le.batteryRead.value != [] then
      Some(le.batteryRead.value[0] as int)
    else None
  }

  // ---------------------------------------------------------------------------
  // The three steps in order

  /** Step 1: no level when `CreateFromIdAsync` returns null or throws. */
  function PropertyStep(device: BluetoothDevice): (level: Option<int>)
    ensures device.properties.None? ==> level.None?
    ensures level.Some? ==> 0 <= level.value <= 100
  {
    if device.properties.Some? then PropertyLevel(device.properties.value, BatteryPropertyKeys)
    else None
  }

  /** Step 2: no level when enumerating the power devices throws. */
  function PowerStep(device: BluetoothDevice): (level: Option<int>)
    ensures device.batteries.None? ==> level.None?
  {
    if device.batteries.Some? then PowerLevel(device.batteries.value, device.deviceId, device.name) else None
  }

  /** `GetBatteryLevelAsync`: the first step that yields a level wins. */
  function ResolveBatteryLevel(device: BluetoothDevice): Option<int> {
    if PropertyStep(device).Some? then PropertyStep(device)
    else if PowerStep(device).Some? then PowerStep(device)
    else GattLevel(device.le)
  }

  /** Step 1 of `GetBatteryLevelAsync`: the loop over the battery property keys,
      returning at the first value that parses to a level in 0..100. */
  method ReadPropertyLevel(props: PropertyBag) returns (level: Option<int>)
    ensures level == PropertyLevel(props, BatteryPropertyKeys)
  {
    var keys := BatteryPropertyKeys;
    for i := 0 to |keys|
      invariant PropertyLevel(props, keys) == PropertyLevel(props, keys[i..])
    {
      assert keys[i..][1..] == keys[i + 1..];
      if keys[i] in props {
        var value := props[keys[i]];
        if value.Some? {
          var parsed := ParseInt(value.value.ToString());
          if parsed.Some? && 0 <= parsed.value <= 100 {
            return parsed;
          }
        }
      }
    }
    return None;
  }

  /** Step 2 of `GetBatteryLevelAsync`: the loop over the power entries, returning at the
      first linked entry with a usable report; an exception leaves the loop early. */
  method ReadPowerLevel(entries: seq<PowerEntry>, deviceId: string, deviceName: string) returns (level: Option<int>)
    ensures level == PowerLevel(entries, deviceId, deviceName)
  {
    for i := 0 to |entries|
      invariant PowerLevel(entries, deviceId, deviceName) == PowerLevel(entries[i..], deviceId, deviceName)
    {
      PowerLevelStep(entries[i..], deviceId, deviceName);
      assert entries[i..][1..] == entries[i + 1..];
      var entry := entries[i];
      if Linked(entry, deviceId, deviceName) {
        match entry.battery
        case BatteryThrows =>
          // The exception leaves the loop; the step's catch falls through to GATT.
          return None;
        case NoBattery =>
        case BatteryFound(report) =>
          if UsableReport(report) {
            return Some(Percentage(report.value.remainingCapacity.value,
                                   report.value.fullChargeCapacity.value));
          }
      }
    }
    return None;
  }

  /** `GetBatteryLevelAsync`: the property bag, then the power reports, then GATT. */
  method GetBatteryLevel(device: BluetoothDevice) returns (level: Option<int>)
    ensures level == ResolveBatteryLevel(device)
  {
    if device.properties.Some? {
      level := ReadPropertyLevel(device.properties.value);
      if level.Some? {
        return;
      }
    }
    if device.batteries.Some? {
      level := ReadPowerLevel(device.batteries.value, device.deviceId, device.name);
      if level.Some? {
        return;
      }
    }
    level := None;
    if device.le.Le? {
      var read := device.le.batteryRead;
      if read.Some? && read.value != [] {
        level := Some(read.value[0] as int);
      }
    }
  }

  // ---------------------------------------------------------------------------
  // Classification

  const BleLabel := "BLE (4.0+)"
  const ClassicBluetoothLabel := "Classic (2.0/3.0)"
  const ClassicLabel := "Classic"
  const IsConnectableKey := "System.Devices.Aep.Bluetooth.Le.IsConnectable"
  const ProtocolIdKey := "System.Devices.Aep.ProtocolId"

  /** `GetBluetoothVersionAsync`; `isLe` says whether its `BluetoothLEDevice.FromIdAsync`
      returns a device. A non-null `IsConnectable` value that is not a boolean makes the
      `(bool)` cast throw; the catch then skips the protocol-id check. */
  function BluetoothVersion(isLe: bool, props: PropertyBag): (version: string)
    ensures version == BleLabel || version == ClassicBluetoothLabel || version == ClassicLabel
    ensures version == BleLabel <==>
      isLe || (IsConnectableKey in props && props[IsConnectableKey] == Some(Flag(true)))
    ensures version == ClassicBluetoothLabel <==>
      && !isLe
      && (IsConnectableKey in props ==>
            props[IsConnectableKey] == None || props[IsConnectableKey] == Some(Flag(false)))
      && ProtocolIdKey in props && props[ProtocolIdKey].Some?
      && ContainsIgnoreCase(props[ProtocolIdKey].value.ToString(), "Bluetooth")
    ensures !isLe && IsConnectableKey in props && props[IsConnectableKey].Some? &&
      !props[IsConnectableKey].value.Flag?
      ==> version == ClassicLabel
  {
    if isLe then BleLabel
    else if IsConnectableKey in props && props[IsConnectableKey].Some? &&
            !props[IsConnectableKey].value.Flag? then ClassicLabel
    else if IsConnectableKey in props && props[IsConnectableKey] == Some(Flag(true)) then BleLabel
    else if ProtocolIdKey in props && props[ProtocolIdKey].Some? &&
            ContainsIgnoreCase(props[ProtocolIdKey].value.ToString(), "Bluetooth") then
      ClassicBluetoothLabel
    else ClassicLabel
  }

  /** `GetIconForDevice`: a total mapping of the major device class to an icon name. */
  function IconForDevice(classOfDevice: Option<MajorClass>): (icon: string)
    ensures icon in {"bluetooth", "headphones", "monitor", "smartphone", "mouse"}
    ensures icon == "bluetooth" <==>
      classOfDevice.None? ||
      classOfDevice.value !in {AudioVideo, Computer, Phone, Peripheral}
    ensures classOfDevice == Some(AudioVideo) ==> icon == "headphones"
    ensures classOfDevice == Some(Computer) ==> icon == "monitor"
    ensures classOfDevice == Some(Phone) ==> icon == "smartphone"
    ensures classOfDevice == Some(Peripheral) ==> icon == "mouse"
  {
    if classOfDevice.None? then "bluetooth"
    else
      match classOfDevice.value
      case AudioVideo => "headphones"
      case Computer => "monitor"
      case Phone => "smartphone"
      case Peripheral => "mouse"
      case _ => "bluetooth"
  }

  // ---------------------------------------------------------------------------
  // Snapshot assembly

  /** The snapshot of one enumerated device, or `None` when the device lookup returns
      null or throws. A disconnected device is never probed for its battery. */
  function SnapshotOf(info: DeviceInformation): Option<BluetoothDeviceModel> {
    match info.lookup
    case Found(device) =>
      Some(BluetoothDeviceModel(
        id := info.id,
        name := info.name,
        batteryLevel := if device.connected then ResolveBatteryLevel(device) else None,
        isConnected := device.connected,
        icon := IconForDevice(device.classOfDevice),
        bluetoothVersion := Some(BluetoothVersion(device.versionLe, info.properties))))
    case _ => None
  }

  /** The snapshot list of an enumeration, in enumeration order. */
  function Snapshots(infos: seq<DeviceInformation>): seq<BluetoothDeviceModel>
    decreases |infos|
  {
    if infos == [] then []
    else
      var last := SnapshotOf(infos[|infos| - 1]);
      Snapshots(infos[..|infos| - 1]) + (if last.Some? then [last.value] else [])
  }

  /** `GetConnectedDevicesAsync`. `enumeration` is `None` when enumerating the paired
      devices throws, which leaves the list empty. */
  method GetConnectedDevices(enumeration: Option<seq<DeviceInformation>>)
    returns (devices: seq<BluetoothDeviceModel>)
    ensures devices == Snapshots(enumeration.GetOr([]))
    ensures |devices| <= |enumeration.GetOr([])|
    ensures forall d :: d in devices && !d.isConnected ==> d.batteryLevel.None?
  {
    devices := [];
    if enumeration.Some? {
      var infos := enumeration.value;
      for i := 0 to |infos|
        invariant devices == Snapshots(infos[..i])
      {
        assert infos[..i + 1][..i] == infos[..i];
        var info := infos[i];
        match info.lookup
        case Found(device) =>
          var isConnected := device.connected;
          var battery: Option<int> := None;
          if isConnected {
            battery := GetBatteryLevel(device);
          }
          devices := devices + [BluetoothDeviceModel(
            id := info.id,
            name := info.name,
            batteryLevel := battery,
            isConnected := isConnected,
            icon := IconForDevice(device.classOfDevice),
            bluetoothVersion := Some(BluetoothVersion(device.versionLe, info.properties)))];
        case _ =>
      }
      assert infos[..|infos|] == infos;
    }
    SnapshotsAtMostOnePerDevice(enumeration.GetOr([]));
    SnapshotsDisconnectedAbsent(enumeration.GetOr([]));
  }

  // ---------------------------------------------------------------------------
  // Properties of the snapshot list

  /** Snapshots are built device by device: the list of a concatenation is the
      concatenation of the lists. */
  lemma {:induction false} SnapshotsAppend(a: seq<DeviceInformation>, b: seq<DeviceInformation>)
    ensures Snapshots(a + b) == Snapshots(a) + Snapshots(b)
    decreases |b|
  {
    if b == [] {
      assert a + b == a;
    } else {
      SnapshotsAppend(a, b[..|b| - 1]);
      assert (a + b)[..|a + b| - 1] == a + b[..|b| - 1];
    }
  }

  /** A device whose lookup returns null or throws is left out, and the devices around
      it are unaffected. */
  lemma SnapshotsSkipFailed(a: seq<DeviceInformation>, info: DeviceInformation, b: seq<DeviceInformation>)
    requires !info.lookup.Found?
    ensures Snapshots(a + [info] + b) == Snapshots(a) + Snapshots(b)
  {
    var front := a + [info];
    assert front[..|front| - 1] == a;
    assert Snapshots(front) == Snapshots(a);
    SnapshotsAppend(front, b);
  }

  /** At most one snapshot per enumerated device; exactly one each, with the same ids in
      the same order, when every lookup succeeds. */
  lemma {:induction false} SnapshotsAtMostOnePerDevice(infos: seq<DeviceInformation>)
    ensures |Snapshots(infos)| <= |infos|
    ensures (forall i :: 0 <= i < |infos| ==> infos[i].lookup.Found?) ==>
      |Snapshots(infos)| == |infos| &&
      forall i :: 0 <= i < |infos| ==> Snapshots(infos)[i].id == infos[i].id
    decreases |infos|
  {
    if infos != [] {
      var front := infos[..|infos| - 1];
      SnapshotsAtMostOnePerDevice(front);
      if forall i :: 0 <= i < |infos| ==> infos[i].lookup.Found? {
        assert forall i :: 0 <= i < |front| ==> front[i] == infos[i];
      }
    }
  }

  /** A disconnected device never carries a battery level. */
  lemma {:induction false} SnapshotsDisconnectedAbsent(infos: seq<DeviceInformation>)
    ensures forall d :: d in Snapshots(infos) && !d.isConnected ==> d.batteryLevel.None?
    decreases |infos|
  {
    if infos != [] {
      SnapshotsDisconnectedAbsent(infos[..|infos| - 1]);
    }
  }

  // ---------------------------------------------------------------------------
  // Properties of the resolver

  /** A numeric property value is accepted exactly when it lies in 0..100. */
  lemma NumberValueLevel(n: int)
    ensures AcceptedLevel(Some(Number(n))) == if 0 <= n <= 100 then Some(n) else None
  {
    ParseFormatRoundTrip(n);
  }

  /** A boolean property value (such as `IsBatteryLevelAvailable`) is never a level. */
  lemma FlagValueRejected(b: bool)
    ensures AcceptedLevel(Some(Flag(b))) == None
  {
  }

  /** The property bag is consulted first: when it yields a level, neither the power
      reports nor the LE profile can change the result. */
  lemma PropertyStepWins(device: BluetoothDevice, batteries: Option<seq<PowerEntry>>, le: LeProfile)
    requires PropertyStep(device).Some?
    ensures ResolveBatteryLevel(device) == PropertyStep(device)
    ensures ResolveBatteryLevel(device.(batteries := batteries, le := le)) == PropertyStep(device)
  {
  }

  /** The power reports come before GATT: when they yield a level, the LE profile
      cannot change the result. */
  lemma PowerStepBeforeGatt(device: BluetoothDevice, le: LeProfile)
    requires PropertyStep(device).None? && PowerStep(device).Some?
    ensures ResolveBatteryLevel(device) == PowerStep(device)
    ensures ResolveBatteryLevel(device.(le := le)) == PowerStep(device)
  {
  }

  /** When all three steps come up empty the level is absent. */
  lemma AllStepsFail(device: BluetoothDevice)
    requires PropertyStep(device).None? && PowerStep(device).None? && GattLevel(device.le).None?
    ensures ResolveBatteryLevel(device) == None
  {
  }

  /** `a * f <= b * f` with `f` positive gives `a <= b`. */
  lemma MulCancel(a: int, b: int, f: int)
    requires f > 0 && a * f <= b * f
    ensures a <= b
  {
    assert (b - a) * f >= 0;
  }

  /** The percentage lies in 0..100 while the remaining capacity does not exceed the full
      one; it is at least 100 from there on, and above 100 once the remaining capacity
      reaches 101% of the full one: nothing clamps it. */
  lemma PercentageBounds(remaining: int, full: int)
    requires full > 0
    ensures 0 <= remaining <= full ==> 0 <= Percentage(remaining, full) <= 100
    ensures remaining >= full ==> Percentage(remaining, full) >= 100
    ensures 100 * remaining >= 101 * full ==> Percentage(remaining, full) > 100
  {
    var p := Percentage(remaining, full);
    if 0 <= remaining <= full {
      MulCancel(p, 100, full);
    }
    if remaining >= full {
      MulCancel(100, p + 1, full);
    }
    if 100 * remaining >= 101 * full {
      MulCancel(101, p + 1, full);
    }
  }

  /** Reports whose remaining capacity never exceeds the full one give a level in 0..100. */
  lemma PowerLevelBounded(entries: seq<PowerEntry>, deviceId: string, deviceName: string)
    requires forall i ::
      0 <= i < |entries| && entries[i].battery.BatteryFound? && UsableReport(entries[i].battery.report)
      ==> 0 <= entries[i].battery.report.value.remainingCapacity.value
          <= entries[i].battery.report.value.fullChargeCapacity.value
    ensures PowerLevel(entries, deviceId, deviceName).Some? ==> 0 <= PowerLevel(entries, deviceId, deviceName).value <= 100
  {
    if PowerLevel(entries, deviceId, deviceName).Some? {
      PowerLevelSource(entries, deviceId, deviceName);
      var i :| && 0 <= i < |entries| && Linked(entries[i], deviceId, deviceName)
        && entries[i].battery.BatteryFound? && UsableReport(entries[i].battery.report)
        && PowerLevel(entries, deviceId, deviceName).value == ReportPercentage(entries[i].battery.report);
      var report := entries[i].battery.report.value;
      PercentageBounds(report.remainingCapacity.value, report.fullChargeCapacity.value);
    }
  }

  /** A GATT byte is returned unchecked, so a level above 100 gets through. */
  lemma GattLevelUnchecked()
    ensures ResolveBatteryLevel(BluetoothDevice("", "", true, None, None, None, Le(Some([200])), true)) == Some(200)
  {
  }

  /** A device id ending in `#` leaves the empty suffix, which every power entry's id
      contains: every entry is linked to such a device. */
  lemma TrailingHashLinksEveryEntry(entry: PowerEntry, deviceId: string, deviceName: string)
    requires |deviceId| > 0 && deviceId[|deviceId| - 1] == '#'
    ensures Linked(entry, deviceId, deviceName)
  {
    AfterLastTrailingSeparator(deviceId, '#');
    ContainsEmpty(entry.id);
  }

  /** Without a `#` the whole device id is searched for in the entry's id. */
  lemma WholeIdLinks(entry: PowerEntry, deviceId: string, deviceName: string)
    requires '#' !in deviceId && Contains(entry.id, deviceId)
    ensures Linked(entry, deviceId, deviceName)
  {
    AfterLastNoSeparator(deviceId, '#');
  }

  /** An entry whose name contains the device name exactly is linked. */
  lemma NameLinks(entry: PowerEntry, deviceId: string, deviceName: string)
    requires Contains(entry.name, deviceName)
    ensures Linked(entry, deviceId, deviceName)
  {
    ContainsThenContainsIgnoreCase(entry.name, deviceName);
  }
}

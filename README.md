# Bluetooth battery monitor: a Dafny model of its core

This project models the three services of the Bluetooth battery monitor that hold
logic, and proves what they promise:

- **`NotificationService`** (module `Notifications`): the low-battery alert engine.
  The notification settings are the enabled flag, the default threshold, the per-device
  thresholds and the snooze minutes. The setters clamp their inputs. Each device's
  last-alert time decides whether a reading at or below its threshold raises an alert
  again. The class `NotificationService` keeps its settings and the
  `lastNotificationTime` map as fields and changes them in place. The clock is an
  integer number of minutes passed in as `now`. The toasts are a ghost log `sent`.
  `CheckDevice` is the pure transition that `CheckAndNotify` is proved against.
  `CheckAll` plays the same role for the loop in `CheckAndNotifyAll`.
- **`BluetoothService`** (module `Bluetooth`): battery resolution and snapshot assembly.
  Every Windows call becomes plain input data. A device's property bag is a map from
  key to optional value. The power devices are a sequence of entries, each with the
  outcome of looking up its battery. The GATT step's LE lookup and its battery read are one
  datatype. The version probe makes its own LE lookup, so its outcome is a separate field. Each call that may return null or throw has one constructor per outcome.
  The resolver takes the first of three steps that yields a level. Step 1 tries four
  property keys in a fixed order and accepts only text that parses to 0..100. Step 2
  scans the power entries linked to the device by id suffix or name. Step 3 reads the
  first GATT byte. The loops are the methods `ReadPropertyLevel`, `ReadPowerLevel`
  and `GetConnectedDevices`. Each is proved equal to a recursive function, and the
  lemmas state the properties of those functions.
- **`DeviceNameService`** (module `DeviceNames`): the table of custom display names
  over device ids, with lookup-with-fallback, set and remove.

Two helper modules model the .NET string operations the resolver relies on.
`Text` covers `string.Contains`, `Contains` with `OrdinalIgnoreCase`, and
`Split('#').LastOrDefault()`. `Numbers` covers `int.TryParse` and `int.ToString()`.

Behaviour worth knowing, modelled as the code has it:

- A snapshot's `name` is the raw enumerated name (`BluetoothService.cs:53`). The
  display-name table is not applied to it.
- `NotificationService` is not registered with the web host (`Program.cs:7-8`), so
  nothing in the running application calls it. The model describes the class as written.
- A battery level is guaranteed to lie in 0..100 only when it comes from the property
  bag. A GATT byte is returned unchecked, up to 255 (`GattLevelUnchecked`). A power report
  whose remaining capacity exceeds the full capacity gives 100 or more. The level goes
  above 100 once the remaining capacity reaches 101% of the full capacity
  (`PercentageBounds`).
- The `Le.IsConnectable` flag gives the "BLE (4.0+)" label, not a Classic one. If that
  property's value is not a boolean, the `(bool)` cast throws. The catch then returns
  "Classic" without looking at `ProtocolId`.
- A power entry whose battery lookup throws ends the whole power scan, because the
  `try` encloses the loop. A device id that ends in `#` leaves an empty suffix, and every
  power entry contains it (`TrailingHashLinksEveryEntry`).
- A manual snooze does not survive a poll above the threshold. That poll removes the
  device's timer, so the next low reading alerts even inside the snooze window
  (`SnoozeLostOnHighReading`).
- `SetCustomName` accepts any id and any name, the empty string included.
- `UpdateSettings` stores the settings without clamping. So the ranges the setters
  keep (`InRange`) are preserved by the setters, not by `UpdateSettings`.

## Model

| member | source | states |
|---|---|---|
| Notifications.Clamp | BluetoothBatteryMonitor/Services/NotificationService.cs:88 | the result lies in [min, max]; it is the input when the input is in range, and the nearer bound otherwise |
| Notifications.GetThresholdForDevice | BluetoothBatteryMonitor/Services/NotificationService.cs:104-109 | the device's own threshold when it has one, else the default; within 5..50 when the settings are in range |
| Notifications.IconEmoji | BluetoothBatteryMonitor/Services/NotificationService.cs:164-171 | headphones, monitor, smartphone and mouse get their own emoji; every other icon gets the antenna emoji |
| Notifications.Monitored | BluetoothBatteryMonitor/Services/NotificationService.cs:119-120 | a device takes part in the check only when notifications are enabled, it is connected and its level is known |
| Notifications.IsLow | BluetoothBatteryMonitor/Services/NotificationService.cs:122-124 | the device's level is at or below its own threshold, or the default one |
| Notifications.CheckDevice | BluetoothBatteryMonitor/Services/NotificationService.cs:117-150 | not monitored: no change; above the threshold: the device's timer is removed and nothing is sent; low with a timer younger than the snooze window: no change; low otherwise: one alert with the device's name, level and emoji, and the timer becomes `now`; other devices' entries never change |
| Notifications.NotificationService.constructor | BluetoothBatteryMonitor/Services/NotificationService.cs:24-48 | the settings are the stored ones, or the defaults (enabled, 20, none, 30) when nothing could be loaded; no device has a last-alert time |
| Notifications.NotificationService.GetSettings | BluetoothBatteryMonitor/Services/NotificationService.cs:63-72 | returns a value equal to the current settings |
| Notifications.NotificationService.UpdateSettings | BluetoothBatteryMonitor/Services/NotificationService.cs:74-78 | the settings become exactly the given ones, unclamped, so a following `GetSettings` returns them |
| Notifications.NotificationService.SetEnabled | BluetoothBatteryMonitor/Services/NotificationService.cs:80-84 | only the enabled flag changes; the ranges are preserved |
| Notifications.NotificationService.SetDefaultThreshold | BluetoothBatteryMonitor/Services/NotificationService.cs:86-90 | the default threshold becomes the input clamped to 5..50 (the input itself when in range); nothing else changes |
| Notifications.NotificationService.SetDeviceThreshold | BluetoothBatteryMonitor/Services/NotificationService.cs:92-96 | the device's threshold becomes the clamped input; every other device's threshold is unchanged |
| Notifications.NotificationService.RemoveDeviceThreshold | BluetoothBatteryMonitor/Services/NotificationService.cs:98-102 | the device falls back to the default threshold; every other device's threshold is unchanged |
| Notifications.NotificationService.SetSnoozeDuration | BluetoothBatteryMonitor/Services/NotificationService.cs:111-115 | the snooze duration becomes the input clamped to 5..120 (the input itself when in range); nothing else changes |
| Notifications.NotificationService.SendLowBatteryNotification | BluetoothBatteryMonitor/Services/NotificationService.cs:160-186 | exactly one alert is appended to the log, carrying the device's name, its level and the emoji for its icon |
| Notifications.NotificationService.CheckAndNotify | BluetoothBatteryMonitor/Services/NotificationService.cs:117-150 | disabled, disconnected or level-less: nothing changes; above the threshold: the device's timer is removed and nothing is sent; at or below with a timer younger than the window: nothing changes; otherwise one alert and the timer becomes `now` |
| Notifications.NotificationService.CheckAndNotifyAll | BluetoothBatteryMonitor/Services/NotificationService.cs:152-158 | the new map and the alerts sent are those of checking the devices one after another in order |
| Notifications.NotificationService.SnoozeDevice | BluetoothBatteryMonitor/Services/NotificationService.cs:188-194 | the device's timer becomes `now` whatever its level; nothing else changes |
| Notifications.NotificationService.ClearSnooze | BluetoothBatteryMonitor/Services/NotificationService.cs:196-202 | the device's timer is removed; nothing else changes |
| Notifications.CheckAllAtMostOneAlertPerDevice | BluetoothBatteryMonitor/Services/NotificationService.cs:152-158 | one pass over the devices sends at most one alert per device checked |
| Notifications.SnoozeSuppresses | BluetoothBatteryMonitor/Services/NotificationService.cs:129-134 | a device snoozed less than the snooze duration ago is not alerted, whatever its level |
| Notifications.ClearSnoozeAlerts | BluetoothBatteryMonitor/Services/NotificationService.cs:124-140 | after the timer is cleared, a monitored device at or below its threshold is alerted at once |
| Notifications.RecoveryRearms | BluetoothBatteryMonitor/Services/NotificationService.cs:142-149 | a reading above the threshold clears the timer, so the next low reading alerts however recent the previous alert |
| Notifications.SnoozeLostOnHighReading | BluetoothBatteryMonitor/Services/NotificationService.cs:142-149 | after a snooze, a reading above the threshold sends nothing and removes the timer, so a following low reading alerts however soon after the snooze |
| Notifications.CheckAll | BluetoothBatteryMonitor/Services/NotificationService.cs:152-158 | the devices are checked one after another, each seeing the timers the checks before it left, all at the same `now`; the alerts sent are collected in that order |
| Notifications.LowBatteryAlert | BluetoothBatteryMonitor/Services/NotificationService.cs:164-180 | the toast's content: the device's name, its level and the emoji for its icon |
| Notifications.SnoozeTimeline | BluetoothBatteryMonitor/Services/NotificationService.cs:117-150 | threshold 20, window 30: the first drop to 15% alerts, 14% within the window does not, 14% after 31 minutes does, 21% clears the timer, and 15% right after alerts again |
| Bluetooth.AcceptedLevel | BluetoothBatteryMonitor/Services/BluetoothService.cs:95-103 | a property value gives a level exactly when it is non-null and its text parses to an integer in 0..100, and then the level is that integer |
| Bluetooth.PropValue.ToString | BluetoothBatteryMonitor/Services/BluetoothService.cs:98 | the text a property value renders to: a string as is, a boolean as "True" or "False", a number in decimal |
| Bluetooth.KeyLevel | BluetoothBatteryMonitor/Services/BluetoothService.cs:93-98 | a key yields a level only when it is present with a non-null value, and then a level in 0..100 |
| Bluetooth.PropertyStep | BluetoothBatteryMonitor/Services/BluetoothService.cs:77-111 | step 1 gives no level when `CreateFromIdAsync` returns null or throws; a level it gives lies in 0..100 |
| Bluetooth.PropertyLevel | BluetoothBatteryMonitor/Services/BluetoothService.cs:83-105 | the level is the one of the first key, in the given order, that yields one; every earlier key yields none; no level means no key yields one; a level lies in 0..100 |
| Bluetooth.ReadPropertyLevel | BluetoothBatteryMonitor/Services/BluetoothService.cs:83-105 | the key loop with its early return gives exactly the level defined by the first-key rule over the four fixed keys |
| Bluetooth.NumberValueLevel | BluetoothBatteryMonitor/Services/BluetoothService.cs:98 | a numeric property value n is accepted exactly when 0 <= n <= 100, and then gives n |
| Bluetooth.FlagValueRejected | BluetoothBatteryMonitor/Services/BluetoothService.cs:87-98 | a boolean property value, as under `IsBatteryLevelAvailable`, never gives a level |
| Bluetooth.Percentage | BluetoothBatteryMonitor/Services/BluetoothService.cs:134-135 | remaining * 100 / full cut toward zero: p * full <= 100 * remaining < (p + 1) * full for a non-negative remaining capacity, mirrored for a negative one |
| Bluetooth.PercentageBounds | BluetoothBatteryMonitor/Services/BluetoothService.cs:130-137 | in 0..100 while remaining <= full; at least 100 when remaining >= full; above 100 from 101% on |
| Bluetooth.PowerLevelStep | BluetoothBatteryMonitor/Services/BluetoothService.cs:120-141 | an unlinked entry is skipped; a linked entry whose lookup throws ends the scan with no level; a linked entry without a battery or without a usable report is skipped; a usable report gives its percentage |
| Bluetooth.Linked | BluetoothBatteryMonitor/Services/BluetoothService.cs:123-124 | an entry belongs to the device when its id contains the part of the device id after the last `#`, or its name contains the device's name ignoring case |
| Bluetooth.UsableReport | BluetoothBatteryMonitor/Services/BluetoothService.cs:130-132 | a report is used when it is non-null, both capacities are present and the full charge is positive |
| Bluetooth.ReportPercentage | BluetoothBatteryMonitor/Services/BluetoothService.cs:134-135 | the percentage of a usable report, truncated: p * full <= 100 * remaining < (p + 1) * full for a non-negative remaining capacity |
| Bluetooth.PowerStep | BluetoothBatteryMonitor/Services/BluetoothService.cs:114-146 | step 2 gives no level when enumerating the power devices throws |
| Bluetooth.PowerLevel | BluetoothBatteryMonitor/Services/BluetoothService.cs:120-141 | the scan over the power entries in order, with the outcome of each entry as `PowerLevelStep` and `PowerLevelFirstDecisive` state it |
| Bluetooth.PowerLevelFirstDecisive | BluetoothBatteryMonitor/Services/BluetoothService.cs:114-146 | the first linked entry that throws or has a usable report settles the level: none after a throw, else its percentage; no level when no entry does either |
| Bluetooth.PowerLevelSource | BluetoothBatteryMonitor/Services/BluetoothService.cs:120-141 | a level from the power scan is the percentage of some linked entry whose report has both capacities and a positive full charge |
| Bluetooth.PowerLevelBounded | BluetoothBatteryMonitor/Services/BluetoothService.cs:126-137 | if every usable report has 0 <= remaining <= full, a level from the power scan lies in 0..100; a negative remaining capacity gives a level of 0 or below (`Percentage`) |
| Bluetooth.ReadPowerLevel | BluetoothBatteryMonitor/Services/BluetoothService.cs:114-146 | the entry loop with its early returns and its exit on an exception gives exactly the level of the power scan |
| Bluetooth.TrailingHashLinksEveryEntry | BluetoothBatteryMonitor/Services/BluetoothService.cs:123 | a device id ending in `#` links every power entry |
| Bluetooth.WholeIdLinks | BluetoothBatteryMonitor/Services/BluetoothService.cs:123 | for an id without `#`, an entry whose id contains the whole device id is linked |
| Bluetooth.NameLinks | BluetoothBatteryMonitor/Services/BluetoothService.cs:124 | an entry whose name contains the device name is linked |
| Bluetooth.GattLevel | BluetoothBatteryMonitor/Services/BluetoothService.cs:149-182 | a level exists exactly when the device is LE and the read returned a non-empty buffer; it is the first byte unchanged, in 0..255 |
| Bluetooth.GattLevelUnchecked | BluetoothBatteryMonitor/Services/BluetoothService.cs:166-172 | a GATT byte of 200 is returned as the level: no 0..100 check |
| Bluetooth.GetBatteryLevel | BluetoothBatteryMonitor/Services/BluetoothService.cs:74-186 | the result is the fallback chain: property bag, else power reports, else GATT, else none |
| Bluetooth.ResolveBatteryLevel | BluetoothBatteryMonitor/Services/BluetoothService.cs:74-186 | the fallback chain itself: the property step, else the power step, else the GATT step; its order is stated by `PropertyStepWins`, `PowerStepBeforeGatt` and `AllStepsFail` |
| Bluetooth.PropertyStepWins | BluetoothBatteryMonitor/Services/BluetoothService.cs:76-111 | when the property bag yields a level, it is the result whatever the power entries and the LE profile are |
| Bluetooth.PowerStepBeforeGatt | BluetoothBatteryMonitor/Services/BluetoothService.cs:113-146 | when the property bag yields nothing and the power scan yields a level, it is the result whatever the LE profile is |
| Bluetooth.AllStepsFail | BluetoothBatteryMonitor/Services/BluetoothService.cs:184-185 | when no step yields a level, the result is null |
| Bluetooth.BluetoothVersion | BluetoothBatteryMonitor/Services/BluetoothService.cs:190-232 | always one of the three labels; "BLE (4.0+)" exactly when the probe's LE lookup returns a device or `IsConnectable` is true; "Classic (2.0/3.0)" exactly when neither holds, `IsConnectable` is absent, null or false, and `ProtocolId` contains "Bluetooth" ignoring case; a non-boolean `IsConnectable` gives "Classic" |
| Bluetooth.IconForDevice | BluetoothBatteryMonitor/Services/BluetoothService.cs:234-248 | AudioVideo gives "headphones", Computer "monitor", Phone "smartphone" and Peripheral "mouse"; "bluetooth" exactly when the class is null or any other class |
| Bluetooth.GetConnectedDevices | BluetoothBatteryMonitor/Services/BluetoothService.cs:24-72 | the list is the snapshot of every device whose lookup succeeds, in enumeration order; no more entries than devices; a disconnected device has no level; an enumeration failure gives the empty list |
| Bluetooth.SnapshotOf | BluetoothBatteryMonitor/Services/BluetoothService.cs:37-63 | one device's snapshot: none when its lookup returns null or throws; otherwise its enumerated id and name, its connection state, a battery level only when connected, its icon and its version label |
| Bluetooth.Snapshots | BluetoothBatteryMonitor/Services/BluetoothService.cs:35-64 | the snapshots of the enumerated devices in enumeration order, skipping failed lookups |
| Bluetooth.SnapshotsAppend | BluetoothBatteryMonitor/Services/BluetoothService.cs:35-64 | the snapshots of two runs of devices, one after the other, are the snapshots of each run concatenated |
| Bluetooth.SnapshotsSkipFailed | BluetoothBatteryMonitor/Services/BluetoothService.cs:37-63 | a device whose lookup returns null or throws is dropped and the devices around it are unaffected |
| Bluetooth.SnapshotsAtMostOnePerDevice | BluetoothBatteryMonitor/Services/BluetoothService.cs:35-58 | at most one snapshot per device; exactly one each, with the same ids in order, when every lookup succeeds |
| Bluetooth.SnapshotsDisconnectedAbsent | BluetoothBatteryMonitor/Services/BluetoothService.cs:42-48 | a disconnected device's snapshot has no battery level |
| Text.Contains | BluetoothBatteryMonitor/Services/BluetoothService.cs:123 | ordinal `string.Contains`: the substring occurs at some position (`ContainsOccurs`) |
| Text.ContainsIgnoreCase | BluetoothBatteryMonitor/Services/BluetoothService.cs:124 | `Contains` after upper-casing both strings |
| Text.AfterLast | BluetoothBatteryMonitor/Services/BluetoothService.cs:123 | the last element of `Split('#')`: the text after the last separator, the whole string when there is none (`AfterLastSuffix`) |
| Text.ContainsOccurs | BluetoothBatteryMonitor/Services/BluetoothService.cs:123 | `Contains` holds exactly when the substring occurs at some position |
| Text.ContainsEmpty | BluetoothBatteryMonitor/Services/BluetoothService.cs:123 | the empty string is contained in every string |
| Text.ContainsThenContainsIgnoreCase | BluetoothBatteryMonitor/Services/BluetoothService.cs:124 | an exact occurrence is also an occurrence ignoring case |
| Text.AfterLastSuffix | BluetoothBatteryMonitor/Services/BluetoothService.cs:123 | the last piece of the split is the longest suffix free of the separator |
| Text.AfterLastNoSeparator | BluetoothBatteryMonitor/Services/BluetoothService.cs:123 | without a separator the whole id is the last piece |
| Text.AfterLastTrailingSeparator | BluetoothBatteryMonitor/Services/BluetoothService.cs:123 | an id ending in the separator has the empty string as last piece |
| Numbers.ParseInt | BluetoothBatteryMonitor/Services/BluetoothService.cs:98 | a successful parse lies in the range of a 32-bit `int` |
| Numbers.FormatInt | BluetoothBatteryMonitor/Services/BluetoothService.cs:98 | `int.ToString()`: a non-empty string of decimal digits, with a leading `-` exactly when the value is negative |
| Numbers.ParseFormatRoundTrip | BluetoothBatteryMonitor/Services/BluetoothService.cs:98 | parsing the decimal text of n gives n back exactly when n fits in an `int`, and fails otherwise |
| DeviceNames.DeviceNameService.constructor | BluetoothBatteryMonitor/Services/DeviceNameService.cs:14-38 | the table is the stored one, or empty when nothing could be loaded; from an empty table every display name is the original name |
| DeviceNames.DeviceNameService.GetDisplayName | BluetoothBatteryMonitor/Services/DeviceNameService.cs:53-56 | the stored custom name when the id has one, the given original name otherwise |
| DeviceNames.DeviceNameService.SetCustomName | BluetoothBatteryMonitor/Services/DeviceNameService.cs:58-62 | the id's display name becomes the given name exactly, overwriting any earlier one; every other id's display name is unchanged |
| DeviceNames.DeviceNameService.RemoveCustomName | BluetoothBatteryMonitor/Services/DeviceNameService.cs:64-68 | the id's display name falls back to the original name; removing an absent id leaves the table unchanged; every other id's display name is unchanged |

## Left out

- Settings and names on disk: `LoadSettings` and `LoadCustomNames` become the constructors' `stored` parameter. `SaveSettings` and `SaveCustomNames` are not modelled, because they only write the in-memory state out as JSON.
- Windows device APIs: enumeration, `BluetoothDevice.FromIdAsync`, `DeviceInformation.CreateFromIdAsync`, `Battery`, `BluetoothLEDevice`, GATT and `DataReader` become input data. Releasing the LE device with `Dispose` is not modelled, because it has no effect on any result.
- Bluetooth.Percentage: computes the exact truncated value of remaining * 100 / full. The source computes it in double precision, which can come out one lower (remaining 29, full 100 gives 28). A quotient beyond the range of `int` is also not modelled, because that cast has no defined value.
- Numbers.ParseInt: models the invariant-culture format only: ASCII white space, one `+` or `-`, and ASCII digits. Culture-specific sign symbols and the trailing NUL characters `int.TryParse` also skips are not modelled.
- Text.ContainsIgnoreCase: folds only the ASCII letters. `OrdinalIgnoreCase` also folds other letters, and a full Unicode case table is out of scope.
- The clock: `now` is an integer number of minutes. `CheckAndNotifyAll` uses one `now` for all devices, while the source reads `DateTime.Now` once per device and twice inside one check. These few microseconds are not modelled.
- Notifications.NotificationService.UpdateSettings: the source keeps a reference to the caller's settings object, so later changes the caller makes to that object reach the service. The model treats settings as a value, so it does not capture this aliasing.
- The `lock` and the async calls: the model is sequential.
- The toast itself (`ToastContentBuilder`) and all console logging: an alert is recorded as (name, level, emoji) in the ghost log `sent`.
- `Program.cs`, `BatteryController.cs` and the React client: wiring and UI with no logic.

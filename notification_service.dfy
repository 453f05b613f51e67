/** The low-battery notification engine of `NotificationService`.

    The service keeps its settings and, per device id, the time of the last alert
    (`_lastNotificationTime`). Time is an integer count of minutes supplied by the
    caller in place of `DateTime.Now`; the toast a real alert shows is recorded in the
    ghost log `sent`. */
module Notifications {
  import opened Wrappers
  import opened Bluetooth

  const MinThreshold := 5
  const MaxThreshold := 50
  const MinSnooze := 5
  const MaxSnooze := 120

  /** `NotificationSettings`. */
  datatype NotificationSettings = NotificationSettings(
    enabled: bool,
    defaultThreshold: int,
    deviceThresholds: map<string, int>,
    snoozeDurationMinutes: int)

  /** The initial values of a new `NotificationSettings`. */
  const DefaultSettings := NotificationSettings(true, 20, map[], 30)

  /** Every threshold and the snooze duration lie in the ranges the setters clamp to. */
  predicate InRange(settings: NotificationSettings) {
    && MinThreshold <= settings.defaultThreshold <= MaxThreshold
    && (forall id :: id in settings.deviceThresholds ==>
          MinThreshold <= settings.deviceThresholds[id] <= MaxThreshold)
    && MinSnooze <= settings.snoozeDurationMinutes <= MaxSnooze
  }

  /** `Math.Clamp`. */
  function Clamp(value: int, min: int, max: int): (r: int)
    requires min <= max
    ensures min <= r <= max
    ensures min <= value <= max ==> r == value
    ensures value < min ==> r == min
    ensures value > max ==> r == max
  {
    if value < min then min else if value > max then max else value
  }

  /** `GetThresholdForDevice`: the device's own threshold if it has one, else the default. */
  function GetThresholdForDevice(settings: NotificationSettings, deviceId: string): (threshold: int)
    ensures InRange(settings) ==> MinThreshold <= threshold <= MaxThreshold
    ensures deviceId in settings.deviceThresholds ==> threshold == settings.deviceThresholds[deviceId]
    ensures deviceId !in settings.deviceThresholds ==> threshold == settings.defaultThreshold
  {
    if deviceId in settings.deviceThresholds then settings.deviceThresholds[deviceId]
    else settings.defaultThreshold
  }

  /** The emoji of a toast, chosen by the device's icon name. */
  function IconEmoji(icon: string): (emoji: string)
    ensures icon == "headphones" ==> emoji == "\U{1F3A7}"
    ensures icon == "monitor" ==> emoji == "\U{1F5A5}\U{FE0F}"
    ensures icon == "smartphone" ==> emoji == "\U{1F4F1}"
    ensures icon == "mouse" ==> emoji == "\U{1F5B1}\U{FE0F}"
    ensures icon !in {"headphones", "monitor", "smartphone", "mouse"} ==> emoji == "\U{1F4F6}"
  {
    match icon
    case "headphones" => "\U{1F3A7}"
    case "monitor" => "\U{1F5A5}\U{FE0F}"
    case "smartphone" => "\U{1F4F1}"
    case "mouse" => "\U{1F5B1}\U{FE0F}"
    case _ => "\U{1F4F6}"
  }

  /** One low-battery toast: the device's name, its level and the icon emoji. */
  datatype Alert = Alert(deviceName: string, level: Option<int>, emoji: string)

  function LowBatteryAlert(device: BluetoothDeviceModel): Alert {
    Alert(device.name, device.batteryLevel, IconEmoji(device.icon))
  }

  /** What one `CheckAndNotify` call does: the new last-alert map and the alert, if any. */
  datatype CheckOutcome = CheckOutcome(lastNotificationTime: map<string, int>, alert: Option<Alert>)

  /** A device takes part in the check: notifications are on, the device is connected and
      its level is known. */
  predicate Monitored(settings: NotificationSettings, device: BluetoothDeviceModel) {
    settings.enabled && device.isConnected && device.batteryLevel.Some?
  }

  predicate IsLow(settings: NotificationSettings, device: BluetoothDeviceModel)
    requires device.batteryLevel.Some?
  {
    device.batteryLevel.value <= GetThresholdForDevice(settings, device.id)
  }

  /** The transition of `CheckAndNotify` for one device at time `now`. */
  function CheckDevice(settings: NotificationSettings, last: map<string, int>,
                       device: BluetoothDeviceModel, now: int): (outcome: CheckOutcome)
    ensures outcome.alert.Some? ==>
      Monitored(settings, device) && IsLow(settings, device) &&
      outcome.alert.value == LowBatteryAlert(device) &&
      outcome.lastNotificationTime == last[device.id := now]
    ensures outcome.alert.None? ==>
      outcome.lastNotificationTime == last ||
      outcome.lastNotificationTime == last - {device.id}
    ensures outcome.lastNotificationTime - {device.id} == last - {device.id}
    ensures !Monitored(settings, device) ==> outcome == CheckOutcome(last, None)
    ensures Monitored(settings, device) && !IsLow(settings, device) ==>
      outcome == CheckOutcome(last - {device.id}, None)
    ensures Monitored(settings, device) && IsLow(settings, device) ==>
      outcome ==
        if device.id in last && now - last[device.id] < settings.snoozeDurationMinutes
        then CheckOutcome(last, None)
        else CheckOutcome(last[device.id := now], Some(LowBatteryAlert(device)))
  {
    if !Monitored(settings, device) then CheckOutcome(last, None)
    else if IsLow(settings, device) then
      if device.id in last && now - last[device.id] < settings.snoozeDurationMinutes then
        CheckOutcome(last, None)
      else
        CheckOutcome(last[device.id := now], Some(LowBatteryAlert(device)))
    else
      CheckOutcome(last - {device.id}, None)
  }

  function AlertLog(alert: Option<Alert>): seq<Alert> {
    if alert.Some? then [alert.value] else []
  }

  /** `CheckAndNotifyAll`: the devices are checked in order, all at time `now`. */
  function CheckAll(settings: NotificationSettings, last: map<string, int>,
                    devices: seq<BluetoothDeviceModel>, now: int): (map<string, int>, seq<Alert>)
    decreases |devices|
  {
    if devices == [] then (last, [])
    else
      var (before, alerts) := CheckAll(settings, last, devices[..|devices| - 1], now);
      var outcome := CheckDevice(settings, before, devices[|devices| - 1], now);
      (outcome.lastNotificationTime, alerts + AlertLog(outcome.alert))
  }

  class NotificationService {
    var settings: NotificationSettings
    var lastNotificationTime: map<string, int>
    /** The alerts sent so far, oldest first; an alert whose toast fails to show is
        still recorded. */
    ghost var sent: seq<Alert>

    /** `stored` is what `LoadSettings` read from disk; `None` when the file is missing,
        unreadable or deserializes to null. */
    constructor (stored: Option<NotificationSettings>)
      ensures settings == stored.GetOr(DefaultSettings)
      ensures lastNotificationTime == map[] && sent == []
    {
      settings := stored.GetOr(DefaultSettings);
      lastNotificationTime := map[];
      sent := [];
    }

    /** A copy of the settings. */
    method GetSettings() returns (copy: NotificationSettings)
      ensures copy == settings
    {
      copy := settings;
    }

    /** Replaces the settings as given, without clamping. */
    method UpdateSettings(newSettings: NotificationSettings)
      modifies this`settings
      ensures settings == newSettings
    {
      settings := newSettings;
    }

    method SetEnabled(enabled: bool)
      modifies this`settings
      ensures settings == old(settings).(enabled := enabled)
      ensures InRange(old(settings)) ==> InRange(settings)
    {
      settings := settings.(enabled := enabled);
    }

    method SetDefaultThreshold(threshold: int)
      modifies this`settings
      ensures settings == old(settings).(defaultThreshold := Clamp(threshold, MinThreshold, MaxThreshold))
      ensures MinThreshold <= settings.defaultThreshold <= MaxThreshold
      ensures MinThreshold <= threshold <= MaxThreshold ==> settings.defaultThreshold == threshold
      ensures InRange(old(settings)) ==> InRange(settings)
    {
      settings := settings.(defaultThreshold := Clamp(threshold, MinThreshold, MaxThreshold));
    }

    method SetDeviceThreshold(deviceId: string, threshold: int)
      modifies this`settings
      ensures settings == old(settings).(deviceThresholds :=
        old(settings).deviceThresholds[deviceId := Clamp(threshold, MinThreshold, MaxThreshold)])
      ensures GetThresholdForDevice(settings, deviceId) == Clamp(threshold, MinThreshold, MaxThreshold)
      ensures forall id :: id != deviceId ==>
        GetThresholdForDevice(settings, id) == GetThresholdForDevice(old(settings), id)
      ensures InRange(old(settings)) ==> InRange(settings)
    {
      settings := settings.(deviceThresholds :=
        settings.deviceThresholds[deviceId := Clamp(threshold, MinThreshold, MaxThreshold)]);
    }

    method RemoveDeviceThreshold(deviceId: string)
      modifies this`settings
      ensures settings == old(settings).(deviceThresholds := old(settings).deviceThresholds - {deviceId})
      ensures GetThresholdForDevice(settings, deviceId) == settings.defaultThreshold
      ensures forall id :: id != deviceId ==>
        GetThresholdForDevice(settings, id) == GetThresholdForDevice(old(settings), id)
      ensures InRange(old(settings)) ==> InRange(settings)
    {
      settings := settings.(deviceThresholds := settings.deviceThresholds - {deviceId});
    }

    method SetSnoozeDuration(minutes: int)
      modifies this`settings
      ensures settings == old(settings).(snoozeDurationMinutes := Clamp(minutes, MinSnooze, MaxSnooze))
      ensures MinSnooze <= settings.snoozeDurationMinutes <= MaxSnooze
      ensures MinSnooze <= minutes <= MaxSnooze ==> settings.snoozeDurationMinutes == minutes
      ensures InRange(old(settings)) ==> InRange(settings)
    {
      settings := settings.(snoozeDurationMinutes := Clamp(minutes, MinSnooze, MaxSnooze));
    }

    /** Shows the toast. A delivery failure is caught inside, so the alert always counts
        as sent. */
    method SendLowBatteryNotification(device: BluetoothDeviceModel)
      modifies this`sent
      ensures sent == old(sent) + [LowBatteryAlert(device)]
    {
      sent := sent + [LowBatteryAlert(device)];
    }

    /** `CheckAndNotify` at time `now`. */
    method CheckAndNotify(device: BluetoothDeviceModel, now: int)
      modifies this`lastNotificationTime, this`sent
      ensures var outcome := CheckDevice(settings, old(lastNotificationTime), device, now);
        lastNotificationTime == outcome.lastNotificationTime &&
        sent == old(sent) + AlertLog(outcome.alert)
      // Nothing happens for a device that is not monitored.
      ensures !Monitored(settings, device) ==>
        lastNotificationTime == old(lastNotificationTime) && sent == old(sent)
      // Above the threshold the device's timer is cleared and nothing is sent.
      ensures Monitored(settings, device) && !IsLow(settings, device) ==>
        lastNotificationTime == old(lastNotificationTime) - {device.id} && sent == old(sent)
      // At or below the threshold: one alert unless a previous one is younger than the
      // snooze window, in which case nothing changes.
      ensures Monitored(settings, device) && IsLow(settings, device) ==>
        if device.id in old(lastNotificationTime) &&
           now - old(lastNotificationTime)[device.id] < settings.snoozeDurationMinutes
        then lastNotificationTime == old(lastNotificationTime) && sent == old(sent)
        else lastNotificationTime == old(lastNotificationTime)[device.id := now] &&
             sent == old(sent) + [LowBatteryAlert(device)]
    {
      if !settings.enabled || !device.isConnected || device.batteryLevel.None? {
        return;
      }
      var threshold := GetThresholdForDevice(settings, device.id);
      if device.batteryLevel.value <= threshold {
        if device.id in lastNotificationTime {
          var lastTime := lastNotificationTime[device.id];
          if now - lastTime < settings.snoozeDurationMinutes {
            return;
          }
        }
        SendLowBatteryNotification(device);
        lastNotificationTime := lastNotificationTime[device.id := now];
      } else {
        lastNotificationTime := lastNotificationTime - {device.id};
      }
    }

    /** `CheckAndNotifyAll`: every device in order, at one time `now`. */
    method CheckAndNotifyAll(devices: seq<BluetoothDeviceModel>, now: int)
      modifies this`lastNotificationTime, this`sent
      ensures var (last, alerts) := CheckAll(settings, old(lastNotificationTime), devices, now);
        lastNotificationTime == last && sent == old(sent) + alerts
    {
      for i := 0 to |devices|
        invariant var (last, alerts) := CheckAll(settings, old(lastNotificationTime), devices[..i], now);
          lastNotificationTime == last && sent == old(sent) + alerts
      {
        assert devices[..i + 1][..i] == devices[..i];
        CheckAndNotify(devices[i], now);
      }
      assert devices[..|devices|] == devices;
    }

    /** Starts the snooze window now, whatever the device's level. */
    method SnoozeDevice(deviceId: string, now: int)
      modifies this`lastNotificationTime
      ensures lastNotificationTime == old(lastNotificationTime)[deviceId := now]
    {
      lastNotificationTime := lastNotificationTime[deviceId := now];
    }

    /** Forgets the device's last alert, so that its next low reading alerts. */
    method ClearSnooze(deviceId: string)
      modifies this`lastNotificationTime
      ensures lastNotificationTime == old(lastNotificationTime) - {deviceId}
    {
      lastNotificationTime := lastNotificationTime - {deviceId};
    }
  }

  // ---------------------------------------------------------------------------
  // Properties of the engine

  /** Each poll alerts at most once per device it checks. */
  lemma {:induction false} CheckAllAtMostOneAlertPerDevice(
    settings: NotificationSettings, last: map<string, int>, devices: seq<BluetoothDeviceModel>, now: int)
    ensures |CheckAll(settings, last, devices, now).1| <= |devices|
    decreases |devices|
  {
    if devices != [] {
      CheckAllAtMostOneAlertPerDevice(settings, last, devices[..|devices| - 1], now);
    }
  }

  /** A device that was snoozed at `snoozedAt` and reads low within the window is not alerted. */
  lemma SnoozeSuppresses(settings: NotificationSettings, last: map<string, int>,
                         device: BluetoothDeviceModel, snoozedAt: int, now: int)
    requires now - snoozedAt < settings.snoozeDurationMinutes
    ensures CheckDevice(settings, last[device.id := snoozedAt], device, now).alert.None?
  {
  }

  /** After `ClearSnooze`, a monitored device that reads low is alerted at once. */
  lemma ClearSnoozeAlerts(settings: NotificationSettings, last: map<string, int>,
                          device: BluetoothDeviceModel, now: int)
    requires Monitored(settings, device) && IsLow(settings, device)
    ensures CheckDevice(settings, last - {device.id}, device, now) ==
      CheckOutcome((last - {device.id})[device.id := now], Some(LowBatteryAlert(device)))
  {
  }

  /** A reading above the threshold resets the device: its next low reading alerts at
      once, however recent the previous alert. */
  lemma RecoveryRearms(settings: NotificationSettings, last: map<string, int>,
                       high: BluetoothDeviceModel, low: BluetoothDeviceModel, t1: int, t2: int)
    requires high.id == low.id
    requires Monitored(settings, high) && !IsLow(settings, high)
    requires Monitored(settings, low) && IsLow(settings, low)
    ensures var after := CheckDevice(settings, last, high, t1).lastNotificationTime;
      CheckDevice(settings, after, low, t2).alert == Some(LowBatteryAlert(low))
  {
  }

  /** A manual snooze does not survive a poll above the threshold: that poll removes the
      timer, so a low reading afterwards alerts even inside the snooze window. */
  lemma SnoozeLostOnHighReading(settings: NotificationSettings, last: map<string, int>,
                                high: BluetoothDeviceModel, low: BluetoothDeviceModel,
                                snoozedAt: int, t1: int, t2: int)
    requires high.id == low.id
    requires Monitored(settings, high) && !IsLow(settings, high)
    requires Monitored(settings, low) && IsLow(settings, low)
    ensures var after := CheckDevice(settings, last[high.id := snoozedAt], high, t1);
      && after.alert.None?
      && high.id !in after.lastNotificationTime
      && CheckDevice(settings, after.lastNotificationTime, low, t2).alert == Some(LowBatteryAlert(low))
  {
  }

  /** A worked timeline with threshold 20 and a 30-minute window: a drop from 25% to 15%
      alerts once; 14% ten minutes later does not; 14% 31 minutes after the alert does;
      21% clears the timer, and 15% a minute later alerts again. */
  lemma SnoozeTimeline(id: string, name: string)
    ensures var settings := NotificationSettings(true, 20, map[], 30);
      var at := (level: int) => BluetoothDeviceModel(id, name, Some(level), true, "mouse", None);
      var s0 := CheckDevice(settings, map[], at(25), 0);
      var s1 := CheckDevice(settings, s0.lastNotificationTime, at(15), 5);
      var s2 := CheckDevice(settings, s1.lastNotificationTime, at(14), 15);
      var s3 := CheckDevice(settings, s2.lastNotificationTime, at(14), 36);
      var s4 := CheckDevice(settings, s3.lastNotificationTime, at(21), 40);
      var s5 := CheckDevice(settings, s4.lastNotificationTime, at(15), 41);
      && s0.alert.None? && s1.alert.Some? && s2.alert.None?
      && s3.alert.Some? && s4.alert.None? && s5.alert.Some?
  {
    var settings := NotificationSettings(true, 20, map[], 30);
    var at := (level: int) => BluetoothDeviceModel(id, name, Some(level), true, "mouse", None);
    var s0 := CheckDevice(settings, map[], at(25), 0);
    assert s0.lastNotificationTime == map[];
    var s1 := CheckDevice(settings, s0.lastNotificationTime, at(15), 5);
    assert s1.lastNotificationTime == map[id := 5];
    var s2 := CheckDevice(settings, s1.lastNotificationTime, at(14), 15);
    assert s2.lastNotificationTime == map[id := 5];
    var s3 := CheckDevice(settings, s2.lastNotificationTime, at(14), 36);
    assert s3.lastNotificationTime == map[id := 36];
    var s4 := CheckDevice(settings, s3.lastNotificationTime, at(21), 40);
    assert s4.lastNotificationTime == map[];
  }
}

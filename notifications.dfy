/** The notification panel's scan: over the scheduled maintenances joined
    with their vehicle, a date alert when the due date is 0 to 7 days away
    and a km alert when the due mileage is 0 to 500 km ahead. */
module Notifications {
  import opened Wrappers
  import opened Fleet
  import opened Seqs

  /** A row of the panel's query: a maintenance with its vehicle's
      number, plate and current mileage. */
  datatype ScheduledRow = ScheduledRow(maintenance: Maintenance, vehicle: Vehicle)

  datatype AlertKind =
    | DateAlert(daysUntil: int, scheduledDate: int)
    | KmAlert(kmUntil: int, scheduledKm: int, currentKm: int)

  datatype Notification = Notification(
    id: string,
    vehicleNumber: string,
    licensePlate: string,
    serviceType: string,
    kind: AlertKind)

  const DateWindowDays := 7
  const KmWindow := 500

  predicate IsScheduledRow(r: ScheduledRow)
  {
    r.maintenance.status == Scheduled
  }

  /** The query's `.eq("status", "Agendado")`. */
  function ScheduledQuery(rows: seq<ScheduledRow>): (r: seq<ScheduledRow>)
    ensures forall x :: x in r <==> x in rows && x.maintenance.status == Scheduled
    ensures forall x :: multiset(r)[x] == if x.maintenance.status == Scheduled then multiset(rows)[x] else 0
    ensures IsSubseq(r, rows)
  {
    Filter(rows, IsScheduledRow)
  }

  /** The alerts one maintenance produces on day `today`: the body of the
      `forEach` callback. */
  function AlertsFor(r: ScheduledRow, today: int): (alerts: seq<Notification>)
    ensures |alerts| <= 2
  {
    var m, v := r.maintenance, r.vehicle;
    var dateAlerts :=
      if m.scheduledDate.Some? then
        var daysUntil := m.scheduledDate.value - today;
        if daysUntil <= DateWindowDays && daysUntil >= 0 then
          [Notification(m.id, v.vehicleNumber, v.licensePlate, m.serviceType,
                        DateAlert(daysUntil, m.scheduledDate.value))]
        else []
      else [];
    var kmAlerts :=
      if IsTruthy(m.scheduledKm) && IsTruthy(v.kmCurrent) then
        var kmUntil := m.scheduledKm.value - v.kmCurrent.value;
        if kmUntil <= KmWindow && kmUntil >= 0 then
          [Notification(m.id, v.vehicleNumber, v.licensePlate, m.serviceType,
                        KmAlert(kmUntil, m.scheduledKm.value, v.kmCurrent.value))]
        else []
      else [];
    dateAlerts + kmAlerts
  }

  /** What the alerts of one maintenance mean: a date alert exactly when
      the due date is 0 to 7 days away, a km alert exactly when both
      mileages are present and non-zero and the due mileage is 0 to 500 km
      ahead, each carrying the maintenance's and the vehicle's fields, the
      date alert first. */
  lemma AlertsForMeaning(r: ScheduledRow, today: int)
    ensures forall a :: a in AlertsFor(r, today) ==>
      && a.id == r.maintenance.id && a.serviceType == r.maintenance.serviceType
      && a.vehicleNumber == r.vehicle.vehicleNumber && a.licensePlate == r.vehicle.licensePlate
    ensures (exists a :: a in AlertsFor(r, today) && a.kind.DateAlert?) <==>
      r.maintenance.scheduledDate.Some? && today <= r.maintenance.scheduledDate.value <= today + DateWindowDays
    ensures forall a :: a in AlertsFor(r, today) && a.kind.DateAlert? ==>
      r.maintenance.scheduledDate == Some(a.kind.scheduledDate)
      && a.kind.daysUntil == a.kind.scheduledDate - today
    ensures (exists a :: a in AlertsFor(r, today) && a.kind.KmAlert?) <==>
      && r.maintenance.scheduledKm.Some? && r.maintenance.scheduledKm.value != 0
      && r.vehicle.kmCurrent.Some? && r.vehicle.kmCurrent.value != 0
      && r.vehicle.kmCurrent.value <= r.maintenance.scheduledKm.value <= r.vehicle.kmCurrent.value + KmWindow
    ensures forall a :: a in AlertsFor(r, today) && a.kind.KmAlert? ==>
      && r.maintenance.scheduledKm == Some(a.kind.scheduledKm)
      && r.vehicle.kmCurrent == Some(a.kind.currentKm)
      && a.kind.kmUntil == a.kind.scheduledKm - a.kind.currentKm
    ensures |AlertsFor(r, today)| == 2 ==> AlertsFor(r, today)[0].kind.DateAlert? && AlertsFor(r, today)[1].kind.KmAlert?
  {
    var alerts := AlertsFor(r, today);
    if r.maintenance.scheduledDate.Some? && today <= r.maintenance.scheduledDate.value <= today + DateWindowDays {
      assert alerts[0] in alerts && alerts[0].kind.DateAlert?;
    }
  }

  /** The alerts of a whole scan, maintenance after maintenance. */
  function Alerts(rows: seq<ScheduledRow>, today: int): (alerts: seq<Notification>)
    ensures |alerts| <= 2 * |rows|
    ensures forall a :: a in alerts ==> exists j :: 0 <= j < |rows| && a in AlertsFor(rows[j], today)
  {
    if rows == [] then []
    else
      var init := rows[..|rows| - 1];
      var prev := Alerts(init, today);
      var last := AlertsFor(rows[|rows| - 1], today);
      assert forall a :: a in prev ==> exists j :: 0 <= j < |init| && a in AlertsFor(init[j], today);
      prev + last
  }

  /** The boundary cases: due in 7 days and due today alert, due in 8 days
      or overdue do not; 500 km ahead alerts, 501 km does not; a vehicle
      whose current mileage is 0 or missing never gets a km alert. */
  lemma AlertThresholds(r: ScheduledRow, today: int)
    ensures r.maintenance.scheduledDate == Some(today + 7) ==>
      exists a :: a in AlertsFor(r, today) && a.kind == DateAlert(7, today + 7)
    ensures r.maintenance.scheduledDate == Some(today) ==>
      exists a :: a in AlertsFor(r, today) && a.kind == DateAlert(0, today)
    ensures r.maintenance.scheduledDate in {Some(today + 8), Some(today - 1), None} ==>
      forall a :: a in AlertsFor(r, today) ==> !a.kind.DateAlert?
    ensures r.vehicle.kmCurrent.Some? && r.vehicle.kmCurrent.value > 0 ==>
      (r.maintenance.scheduledKm == Some(r.vehicle.kmCurrent.value + 500) ==>
         exists a :: a in AlertsFor(r, today) && a.kind.KmAlert? && a.kind.kmUntil == 500)
      && (r.maintenance.scheduledKm == Some(r.vehicle.kmCurrent.value + 501) ==>
         forall a :: a in AlertsFor(r, today) ==> !a.kind.KmAlert?)
    ensures r.vehicle.kmCurrent in {Some(0), None} ==>
      forall a :: a in AlertsFor(r, today) ==> !a.kind.KmAlert?
  {
    AlertsForMeaning(r, today);
    var alerts := AlertsFor(r, today);
    if r.vehicle.kmCurrent.Some? && r.vehicle.kmCurrent.value > 0
      && r.maintenance.scheduledKm == Some(r.vehicle.kmCurrent.value + 500)
    {
      var a :| a in alerts && a.kind.KmAlert?;
      assert a.kind.kmUntil == 500;
    }
  }

  /** Scanning two lists one after the other gives the two scans
      concatenated: alerts follow the input order of maintenances. */
  lemma {:induction false} AlertsAppend(xs: seq<ScheduledRow>, ys: seq<ScheduledRow>, today: int)
    ensures Alerts(xs + ys, today) == Alerts(xs, today) + Alerts(ys, today)
  {
    if ys != [] {
      var init := ys[..|ys| - 1];
      assert (xs + ys)[..|xs + ys| - 1] == xs + init;
      assert (xs + ys)[|xs + ys| - 1] == ys[|ys| - 1];
      AlertsAppend(xs, init, today);
    } else {
      assert xs + ys == xs;
    }
  }

  /** Every alert of a panel scan comes from a maintenance whose status is
      "Agendado" and carries that maintenance's id and service type. */
  lemma OnlyScheduledAlert(rows: seq<ScheduledRow>, today: int, a: Notification)
    requires a in Alerts(ScheduledQuery(rows), today)
    ensures exists r :: (&& r in rows && r.maintenance.status == Scheduled
                         && a.id == r.maintenance.id && a.serviceType == r.maintenance.serviceType)
  {
    var q := ScheduledQuery(rows);
    var j :| 0 <= j < |q| && a in AlertsFor(q[j], today);
    AlertsForMeaning(q[j], today);
    assert q[j] in q;
  }

  /** The loop of `fetchNotifications`: `alerts.push` inside a `forEach`. */
  method BuildAlerts(rows: seq<ScheduledRow>, today: int) returns (alerts: seq<Notification>)
    ensures alerts == Alerts(rows, today)
  {
    alerts := [];
    var i := 0;
    while i < |rows|
      invariant 0 <= i <= |rows|
      invariant alerts == Alerts(rows[..i], today)
    {
      AlertsStep(rows, i, today);
      ghost var before := alerts;
      var m, v := rows[i].maintenance, rows[i].vehicle;
      if m.scheduledDate.Some? {
        var daysUntil := m.scheduledDate.value - today;
        if daysUntil <= DateWindowDays && daysUntil >= 0 {
          alerts := alerts + [Notification(m.id, v.vehicleNumber, v.licensePlate, m.serviceType,
                                           DateAlert(daysUntil, m.scheduledDate.value))];
        }
      }
      if IsTruthy(m.scheduledKm) && IsTruthy(v.kmCurrent) {
        var kmUntil := m.scheduledKm.value - v.kmCurrent.value;
        if kmUntil <= KmWindow && kmUntil >= 0 {
          alerts := alerts + [Notification(m.id, v.vehicleNumber, v.licensePlate, m.serviceType,
                                           KmAlert(kmUntil, m.scheduledKm.value, v.kmCurrent.value))];
        }
      }
      assert alerts == before + AlertsFor(rows[i], today);
      i := i + 1;
    }
    assert rows[..|rows|] == rows;
  }

  /** One more maintenance appends its own alerts to the scan so far. */
  lemma AlertsStep(rows: seq<ScheduledRow>, i: nat, today: int)
    requires i < |rows|
    ensures Alerts(rows[..i + 1], today) == Alerts(rows[..i], today) + AlertsFor(rows[i], today)
  {
    assert rows[..i + 1][..i] == rows[..i];
  }

  class NotificationsPanel {
    var notifications: seq<Notification>

    constructor ()
      ensures notifications == []
    {
      notifications := [];
    }

    /** `fetchNotifications`: `table` is the joined maintenance rows, or
        `None` when the query returned no data. The new list depends only
        on the snapshot and the day, never on the previous list. */
    method FetchNotifications(table: Option<seq<ScheduledRow>>, today: int)
      modifies this
      ensures table.None? ==> notifications == old(notifications)
      ensures table.Some? ==> notifications == Alerts(ScheduledQuery(table.value), today)
    {
      if table.None? {
        return;
      }
      var alerts := BuildAlerts(ScheduledQuery(table.value), today);
      notifications := alerts;
    }
  }
}

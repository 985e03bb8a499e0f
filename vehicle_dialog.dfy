/** The new-vehicle form: a duplicate check on the vehicle number, then
    an insert into the vehicles table, then a reset of the form. */
module VehicleDialog {
  import opened Wrappers
  import opened Fleet
  import opened Seqs
  import opened Store

  datatype VehicleForm = VehicleForm(
    vehicleNumber: string,
    licensePlate: string,
    brand: string,
    model: string,
    year: int,
    kmCurrent: int,
    status: string)

  /** The initial and post-insert form: empty text, this year, 0 km, "Ativo". */
  function DefaultForm(currentYear: int): VehicleForm
  {
    VehicleForm("", "", "", "", currentYear, 0, Active)
  }

  /** The row `insert([formData])` creates, with the store's identifier. */
  function RowOf(f: VehicleForm, id: string): Vehicle
  {
    Vehicle(id, f.vehicleNumber, f.licensePlate, f.brand, f.model, f.year, Some(f.kmCurrent), f.status)
  }

  function NumberIs(n: string): Vehicle -> bool
  {
    (v: Vehicle) => v.vehicleNumber == n
  }

  predicate HasVehicleNumber(rows: seq<Vehicle>, n: string)
  {
    exists i :: 0 <= i < |rows| && rows[i].vehicleNumber == n
  }

  /** No two rows share a vehicle number. */
  predicate UniqueNumbers(rows: seq<Vehicle>)
  {
    forall i, j :: 0 <= i < j < |rows| ==> rows[i].vehicleNumber != rows[j].vehicleNumber
  }

  /** The duplicate check as written: `.eq("vehicle_number", n).single()`
      returns data only when exactly one row matches; none or several
      give an error and no data. */
  function ExistingAsWritten(rows: seq<Vehicle>, n: string): (r: Option<string>)
    ensures r.Some? <==> |Filter(rows, NumberIs(n))| == 1
    ensures r.Some? ==> HasVehicleNumber(rows, n)
  {
    var matches := Filter(rows, NumberIs(n));
    if |matches| == 1 then
      assert matches[0] in matches;
      Some(matches[0].id)
    else None
  }

  /** The rows after a submit with the check as written. */
  function SubmitRowsAsWritten(rows: seq<Vehicle>, f: VehicleForm, id: string, insertOk: bool): (r: seq<Vehicle>)
    ensures |Filter(rows, NumberIs(f.vehicleNumber))| == 1 ==> r == rows
    ensures |Filter(rows, NumberIs(f.vehicleNumber))| != 1 ==> r == (if insertOk then rows + [RowOf(f, id)] else rows)
  {
    if ExistingAsWritten(rows, f.vehicleNumber).Some? || !insertOk then rows
    else rows + [RowOf(f, id)]
  }

  /** With two rows already numbered "V001", the check as written finds no
      existing vehicle and a third "V001" row is inserted. */
  lemma AsWrittenAdmitsDuplicate()
    ensures var a := Vehicle("a", "V001", "ABC1D23", "Fiat", "Uno", 2020, Some(1000), Active);
      var b := Vehicle("b", "V001", "XYZ9K88", "Ford", "Ka", 2021, Some(2000), Active);
      var f := VehicleForm("V001", "QWE4R56", "VW", "Gol", 2024, 0, Active);
      && HasVehicleNumber([a, b], "V001")
      && SubmitRowsAsWritten([a, b], f, "c", true) == [a, b, RowOf(f, "c")]
  {
    var a := Vehicle("a", "V001", "ABC1D23", "Fiat", "Uno", 2020, Some(1000), Active);
    var b := Vehicle("b", "V001", "XYZ9K88", "Ford", "Ka", 2021, Some(2000), Active);
    assert [a, b][1..] == [b] && [b][1..] == [];
    assert Filter([b], NumberIs("V001")) == [b];
    assert Filter([a, b], NumberIs("V001")) == [a, b];
    assert [a, b][0].vehicleNumber == "V001";
  }

  /** The intended check: is there any row with this vehicle number? */
  function ExistingVehicle(rows: seq<Vehicle>, n: string): (r: Option<nat>)
    ensures r.Some? <==> HasVehicleNumber(rows, n)
    ensures r.Some? ==> r.value < |rows| && rows[r.value].vehicleNumber == n
  {
    Find(rows, NumberIs(n))
  }

  /** The rows after a submit: nothing is inserted when the number is
      taken or the insert fails, otherwise exactly the form's row is
      appended. */
  function SubmitRows(rows: seq<Vehicle>, f: VehicleForm, id: string, insertOk: bool): (r: seq<Vehicle>)
    ensures HasVehicleNumber(rows, f.vehicleNumber) ==> r == rows
    ensures !HasVehicleNumber(rows, f.vehicleNumber) ==> r == (if insertOk then rows + [RowOf(f, id)] else rows)
  {
    if ExistingVehicle(rows, f.vehicleNumber).Some? || !insertOk then rows
    else rows + [RowOf(f, id)]
  }

  /** A submit never creates a second row with the same vehicle number. */
  lemma SubmitKeepsNumbersUnique(rows: seq<Vehicle>, f: VehicleForm, id: string, insertOk: bool)
    requires UniqueNumbers(rows)
    ensures UniqueNumbers(SubmitRows(rows, f, id, insertOk))
  {
  }

  /** On a table whose numbers are unique, the check as written agrees
      with the intended one. */
  lemma AsWrittenAgreesWhenUnique(rows: seq<Vehicle>, f: VehicleForm, id: string, insertOk: bool)
    requires UniqueNumbers(rows)
    ensures SubmitRowsAsWritten(rows, f, id, insertOk) == SubmitRows(rows, f, id, insertOk)
  {
    var n := f.vehicleNumber;
    if HasVehicleNumber(rows, n) {
      var k :| 0 <= k < |rows| && rows[k].vehicleNumber == n;
      OnlyMatch(rows, n, k);
    }
  }

  lemma {:induction false} OnlyMatch(rows: seq<Vehicle>, n: string, k: nat)
    requires UniqueNumbers(rows) && k < |rows| && rows[k].vehicleNumber == n
    ensures Filter(rows, NumberIs(n)) == [rows[k]]
  {
    if k == 0 {
      assert forall x :: x in rows[1..] ==> x.vehicleNumber != n;
      assert Filter(rows[1..], NumberIs(n)) == [];
    } else {
      OnlyMatch(rows[1..], n, k - 1);
    }
  }

  class VehicleDialogForm {
    var formData: VehicleForm
    var loading: bool

    constructor (currentYear: int)
      ensures formData == DefaultForm(currentYear) && !loading
    {
      formData := DefaultForm(currentYear);
      loading := false;
    }

    /** `handleSubmit`: `newId` is the identifier the store gives the new
        row and `insertOk` whether the insert succeeded. */
    method HandleSubmit(table: VehicleTable, newId: string, insertOk: bool, currentYear: int)
      returns (inserted: bool)
      requires table.Valid() && !HasId(table.rows, newId)
      modifies this, table
      ensures table.Valid() && !loading
      ensures inserted <==> !HasVehicleNumber(old(table.rows), old(formData).vehicleNumber) && insertOk
      ensures table.rows == SubmitRows(old(table.rows), old(formData), newId, insertOk)
      ensures formData == if inserted then DefaultForm(currentYear) else old(formData)
    {
      loading := true;
      var existing := ExistingVehicle(table.rows, formData.vehicleNumber);
      if existing.Some? {
        loading := false;
        return false;
      }
      inserted := false;
      if insertOk {
        table.Insert(RowOf(formData, newId));
        inserted := true;
        formData := DefaultForm(currentYear);
      }
      loading := false;
    }
  }
}

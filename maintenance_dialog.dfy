/** The maintenance form: the validation schemas of the completed and the
    scheduled tab, the retroactive-mileage confirmation, the payloads
    sent to the store, the per-field error map and the form reset.
    Whether a string is a UUID or a URL is supplied by the caller
    (`isUuid`, `isUrl`); dates are day numbers, `None` for an empty
    date input; costs are in cents. */
module MaintenanceDialog {
  import opened Wrappers
  import opened Text
  import opened Fleet
  import opened Seqs

  datatype MaintenanceForm = MaintenanceForm(
    vehicleId: string,
    serviceType: string,
    serviceDate: Option<int>,
    kmAtService: int,
    costCents: int,
    description: string,
    attachmentUrl: string,
    scheduledDate: Option<int>,
    scheduledKm: int)

  const EmptyForm := MaintenanceForm("", "", None, 0, 0, "", "", None, 0)

  /** The schema fields an issue can be reported on. */
  datatype Field = VehicleIdField | ServiceTypeField | KmAtServiceField | CostField
                 | AttachmentUrlField | ServiceDateField | ScheduledKmField | ScheduledDateField

  /** The field's key in the schema and in the error record. */
  function Key(field: Field): string
  {
    match field
    case VehicleIdField => "vehicle_id"
    case ServiceTypeField => "service_type"
    case KmAtServiceField => "km_at_service"
    case CostField => "cost"
    case AttachmentUrlField => "attachment_url"
    case ServiceDateField => "service_date"
    case ScheduledKmField => "scheduled_km"
    case ScheduledDateField => "scheduled_date"
  }

  /** A validation issue: the field it is reported on and its message. */
  datatype Issue = Issue(path: Field, message: string)

  const VehicleIdMessage := "Selecione um ve\U{00ED}culo v\U{00E1}lido"
  const ServiceTypeMessage := "Tipo de servi\U{00E7}o \U{00E9} obrigat\U{00F3}rio"
  const NegativeKmMessage := "Quilometragem n\U{00E3}o pode ser negativa"
  const NegativeCostMessage := "Custo n\U{00E3}o pode ser negativo"
  const UrlMessage := "URL inv\U{00E1}lida"
  const FutureDateMessage := "Data n\U{00E3}o pode ser no futuro"
  const NoTargetMessage := "Defina pelo menos uma data ou quilometragem prevista"

  /** `value || null` on a text field. */
  function NullIfEmpty(s: string): (r: Option<string>)
    ensures r != Some("") && r.GetOr("") == s
  {
    if s == "" then None else Some(s)
  }

  /** `value || null` on a number field. */
  function NullIfZero(n: int): (r: Option<int>)
    ensures r != Some(0) && r.GetOr(0) == n
  {
    if n == 0 then None else Some(n)
  }

  /** The one message each field's rule reports. */
  function MessageOf(path: Field): string
  {
    match path
    case VehicleIdField => VehicleIdMessage
    case ServiceTypeField => ServiceTypeMessage
    case KmAtServiceField => NegativeKmMessage
    case CostField => NegativeCostMessage
    case AttachmentUrlField => UrlMessage
    case ServiceDateField => FutureDateMessage
    case ScheduledKmField => NegativeKmMessage
    case ScheduledDateField => NoTargetMessage
  }

  function IssueIf(failed: bool, path: Field, message: string): seq<Issue>
  {
    if failed then [Issue(path, message)] else []
  }

  /** The fields the issues are reported on. */
  function Paths(issues: seq<Issue>): set<Field>
  {
    set k | 0 <= k < |issues| :: issues[k].path
  }

  /** At most one issue per field, each with its field's message. */
  predicate WellFormedIssues(issues: seq<Issue>)
  {
    && (forall i, j :: 0 <= i < j < |issues| ==> issues[i].path != issues[j].path)
    && (forall k :: 0 <= k < |issues| ==> issues[k].message == MessageOf(issues[k].path))
  }

  /** Appending the issue of one more field's rule. */
  lemma AppendIssueIf(xs: seq<Issue>, failed: bool, path: Field)
    requires WellFormedIssues(xs) && path !in Paths(xs)
    ensures var ys := xs + IssueIf(failed, path, MessageOf(path));
      && WellFormedIssues(ys)
      && (forall p :: p in Paths(ys) <==> p in Paths(xs) || (failed && p == path))
      && |ys| == |xs| + (if failed then 1 else 0)
  {
    var issue := IssueIf(failed, path, MessageOf(path));
    if failed {
      assert Paths(issue) == {path} by { assert issue[0].path == path; }
    } else {
      assert Paths(issue) == {};
    }
    AppendIssues(xs, issue);
  }

  /** Appending a block of issues on fields not named before. */
  lemma AppendIssues(xs: seq<Issue>, ys: seq<Issue>)
    requires WellFormedIssues(xs) && WellFormedIssues(ys)
    requires forall p :: p in Paths(ys) ==> p !in Paths(xs)
    ensures WellFormedIssues(xs + ys)
    ensures forall p :: p in Paths(xs + ys) <==> p in Paths(xs) || p in Paths(ys)
  {
    var zs := xs + ys;
    forall i, j | 0 <= i < j < |zs| ensures zs[i].path != zs[j].path {
      if i < |xs| && j >= |xs| {
        assert zs[i].path in Paths(xs) && zs[j].path in Paths(ys) by {
          assert zs[j] == ys[j - |xs|];
        }
      }
    }
    forall p ensures p in Paths(zs) <==> p in Paths(xs) || p in Paths(ys) {
      if p in Paths(zs) {
        var k :| 0 <= k < |zs| && zs[k].path == p;
        if k < |xs| {
          assert xs[k].path == p;
        } else {
          assert ys[k - |xs|].path == p;
        }
      }
      if p in Paths(xs) {
        var k :| 0 <= k < |xs| && xs[k].path == p;
        assert zs[k].path == p;
      }
      if p in Paths(ys) {
        var k :| 0 <= k < |ys| && ys[k].path == p;
        assert zs[|xs| + k].path == p;
      }
    }
  }

  /** Whether the completed tab's rule for field `p` fails on the form. */
  predicate CompletedRuleFails(f: MaintenanceForm, today: int, isUuid: string -> bool, isUrl: string -> bool, p: Field)
  {
    match p
    case VehicleIdField => !isUuid(f.vehicleId)
    case ServiceTypeField => Blank(f.serviceType)
    case KmAtServiceField => f.kmAtService < 0
    case CostField => f.costCents < 0
    case AttachmentUrlField => f.attachmentUrl != "" && !isUrl(f.attachmentUrl)
    case ServiceDateField => f.serviceDate.Some? && f.serviceDate.value > today
    case _ => false
  }

  /** Whether the scheduled tab's rule for field `p` fails on the form. */
  predicate ScheduledRuleFails(f: MaintenanceForm, isUuid: string -> bool, p: Field)
  {
    match p
    case VehicleIdField => !isUuid(f.vehicleId)
    case ServiceTypeField => Blank(f.serviceType)
    case ScheduledKmField => f.scheduledKm < 0
    case ScheduledDateField => f.scheduledDate.None? && f.scheduledKm == 0
    case _ => false
  }

  /** The rules of the completed tab, stated on the form. */
  predicate CompletedValid(f: MaintenanceForm, today: int, isUuid: string -> bool, isUrl: string -> bool)
  {
    && isUuid(f.vehicleId)
    && !Blank(f.serviceType)
    && f.kmAtService >= 0
    && f.costCents >= 0
    && (f.attachmentUrl == "" || isUrl(f.attachmentUrl))
    && (f.serviceDate.Some? ==> f.serviceDate.value <= today)
  }

  /** The two field checks both schemas open with: a UUID vehicle id and a
      service type whose `.trim().min(1)` fails exactly when the string is
      blank, since `Trim` yields the empty string exactly then. */
  function CommonFieldIssues(f: MaintenanceForm, isUuid: string -> bool): (issues: seq<Issue>)
    ensures WellFormedIssues(issues)
    ensures |issues| <= 2
    ensures forall p :: p in Paths(issues) <==>
      (p == VehicleIdField && !isUuid(f.vehicleId)) || (p == ServiceTypeField && Blank(f.serviceType))
  {
    var i0: seq<Issue> := [];
    AppendIssueIf(i0, !isUuid(f.vehicleId), VehicleIdField);
    var i1 := i0 + IssueIf(!isUuid(f.vehicleId), VehicleIdField, MessageOf(VehicleIdField));
    AppendIssueIf(i1, Blank(f.serviceType), ServiceTypeField);
    i1 + IssueIf(Blank(f.serviceType), ServiceTypeField, MessageOf(ServiceTypeField))
  }

  /** The optional number checks of `completedMaintenanceSchema`: a
      mileage and a cost that are not negative. */
  function NumberFieldIssues(f: MaintenanceForm): (issues: seq<Issue>)
    ensures WellFormedIssues(issues)
    ensures |issues| <= 2
    ensures forall p :: p in Paths(issues) <==>
      (p == KmAtServiceField && f.kmAtService < 0) || (p == CostField && f.costCents < 0)
  {
    var km := NullIfZero(f.kmAtService);
    var cost := NullIfZero(f.costCents);
    var i0: seq<Issue> := [];
    AppendIssueIf(i0, km.Some? && km.value < 0, KmAtServiceField);
    var i1 := i0 + IssueIf(km.Some? && km.value < 0, KmAtServiceField, MessageOf(KmAtServiceField));
    AppendIssueIf(i1, cost.Some? && cost.value < 0, CostField);
    i1 + IssueIf(cost.Some? && cost.value < 0, CostField, MessageOf(CostField))
  }

  /** The optional URL check of `completedMaintenanceSchema`. */
  function UrlFieldIssues(f: MaintenanceForm, isUrl: string -> bool): (issues: seq<Issue>)
    ensures WellFormedIssues(issues)
    ensures |issues| <= 1
    ensures forall p :: p in Paths(issues) <==>
      p == AttachmentUrlField && f.attachmentUrl != "" && !isUrl(f.attachmentUrl)
  {
    var url := NullIfEmpty(f.attachmentUrl);
    AppendIssueIf([], url.Some? && !isUrl(url.value), AttachmentUrlField);
    [] + IssueIf(url.Some? && !isUrl(url.value), AttachmentUrlField, MessageOf(AttachmentUrlField))
  }

  /** The field checks of `completedMaintenanceSchema`, in declaration
      order; the form's empty text and zero numbers reach the schema as
      `undefined` and skip their optional checks. */
  function CompletedFieldIssues(f: MaintenanceForm, isUuid: string -> bool, isUrl: string -> bool)
    : (issues: seq<Issue>)
    ensures WellFormedIssues(issues)
    ensures |issues| <= 5
    ensures forall p :: p in Paths(issues) <==>
      || (p == VehicleIdField && !isUuid(f.vehicleId))
      || (p == ServiceTypeField && Blank(f.serviceType))
      || (p == KmAtServiceField && f.kmAtService < 0)
      || (p == CostField && f.costCents < 0)
      || (p == AttachmentUrlField && f.attachmentUrl != "" && !isUrl(f.attachmentUrl))
  {
    var common := CommonFieldIssues(f, isUuid);
    var numbers := NumberFieldIssues(f);
    var url := UrlFieldIssues(f, isUrl);
    assert WellFormedIssues(common + numbers)
      && forall p :: p in Paths(common + numbers) <==> p in Paths(common) || p in Paths(numbers) by {
      AppendIssues(common, numbers);
    }
    assert WellFormedIssues(common + numbers + url)
      && forall p :: p in Paths(common + numbers + url) <==> p in Paths(common + numbers) || p in Paths(url) by {
      AppendIssues(common + numbers, url);
    }
    common + numbers + url
  }

  /** `completedMaintenanceSchema.parse`: the field issues, then the
      refinement on the service date (a failed field check does not stop
      the object, so the refinement always runs). */
  function CompletedIssues(f: MaintenanceForm, today: int, isUuid: string -> bool, isUrl: string -> bool)
    : (issues: seq<Issue>)
    ensures WellFormedIssues(issues)
    ensures |issues| <= 6
    ensures forall p :: p in Paths(issues) <==> CompletedRuleFails(f, today, isUuid, isUrl, p)
  {
    var fields := CompletedFieldIssues(f, isUuid, isUrl);
    AppendIssueIf(fields, f.serviceDate.Some? && !(f.serviceDate.value <= today), ServiceDateField);
    fields + IssueIf(f.serviceDate.Some? && !(f.serviceDate.value <= today), ServiceDateField, MessageOf(ServiceDateField))
  }

  /** No field issue iff each field rule of the completed tab holds. */
  lemma CompletedFieldIssuesIff(f: MaintenanceForm, isUuid: string -> bool, isUrl: string -> bool)
    ensures CompletedFieldIssues(f, isUuid, isUrl) == [] <==>
      (&& isUuid(f.vehicleId) && !Blank(f.serviceType) && f.kmAtService >= 0 && f.costCents >= 0
       && (f.attachmentUrl == "" || isUrl(f.attachmentUrl)))
  {
  }

  /** The parse reports nothing iff the completed-tab rules hold; a
      future service date puts the date issue last. */
  lemma CompletedIssuesIff(f: MaintenanceForm, today: int, isUuid: string -> bool, isUrl: string -> bool)
    ensures CompletedIssues(f, today, isUuid, isUrl) == [] <==> CompletedValid(f, today, isUuid, isUrl)
    ensures f.serviceDate.Some? && f.serviceDate.value > today ==>
      var issues := CompletedIssues(f, today, isUuid, isUrl);
      issues != [] && issues[|issues| - 1] == Issue(ServiceDateField, FutureDateMessage)
  {
    CompletedFieldIssuesIff(f, isUuid, isUrl);
  }

  /** The rules of the scheduled tab, stated on the form: a date or a
      non-zero mileage target is required. */
  predicate ScheduledValid(f: MaintenanceForm, isUuid: string -> bool)
  {
    && isUuid(f.vehicleId)
    && !Blank(f.serviceType)
    && f.scheduledKm >= 0
    && (f.scheduledDate.Some? || f.scheduledKm != 0)
  }

  /** The field checks of `scheduledMaintenanceSchema`, in declaration order. */
  function ScheduledFieldIssues(f: MaintenanceForm, isUuid: string -> bool): (issues: seq<Issue>)
    ensures WellFormedIssues(issues)
    ensures |issues| <= 3
    ensures forall p :: p in Paths(issues) <==>
      || (p == VehicleIdField && !isUuid(f.vehicleId))
      || (p == ServiceTypeField && Blank(f.serviceType))
      || (p == ScheduledKmField && f.scheduledKm < 0)
  {
    var km := NullIfZero(f.scheduledKm);
    var i2 := CommonFieldIssues(f, isUuid);
    AppendIssueIf(i2, km.Some? && km.value < 0, ScheduledKmField);
    i2 + IssueIf(km.Some? && km.value < 0, ScheduledKmField, MessageOf(ScheduledKmField))
  }

  /** `scheduledMaintenanceSchema.parse`: the field issues, then the
      refinement, reported on `scheduled_date`. */
  function ScheduledIssues(f: MaintenanceForm, isUuid: string -> bool): (issues: seq<Issue>)
    ensures WellFormedIssues(issues)
    ensures |issues| <= 4
    ensures forall p :: p in Paths(issues) <==> ScheduledRuleFails(f, isUuid, p)
  {
    var fields := ScheduledFieldIssues(f, isUuid);
    AppendIssueIf(fields, !(f.scheduledDate.Some? || NullIfZero(f.scheduledKm).Some?), ScheduledDateField);
    fields + IssueIf(!(f.scheduledDate.Some? || NullIfZero(f.scheduledKm).Some?), ScheduledDateField, MessageOf(ScheduledDateField))
  }

  /** No field issue iff each field rule of the scheduled tab holds. */
  lemma ScheduledFieldIssuesIff(f: MaintenanceForm, isUuid: string -> bool)
    ensures ScheduledFieldIssues(f, isUuid) == [] <==>
      isUuid(f.vehicleId) && !Blank(f.serviceType) && f.scheduledKm >= 0
  {
  }

  /** The parse reports nothing iff the scheduled-tab rules hold; with
      neither a date nor a mileage the `scheduled_date` issue comes last. */
  lemma ScheduledIssuesIff(f: MaintenanceForm, isUuid: string -> bool)
    ensures ScheduledIssues(f, isUuid) == [] <==> ScheduledValid(f, isUuid)
    ensures f.scheduledDate.None? && f.scheduledKm == 0 ==>
      var issues := ScheduledIssues(f, isUuid);
      issues != [] && issues[|issues| - 1] == Issue(ScheduledDateField, NoTargetMessage)
  {
    ScheduledFieldIssuesIff(f, isUuid);
  }

  /** The per-field error record built by the `forEach` over the issues:
      each issue overwrites the entry of its field. */
  function ErrorMap(issues: seq<Issue>): (errors: map<Field, string>)
    ensures errors == map[] <==> issues == []
    ensures issues != [] ==> var last := issues[|issues| - 1];
      last.path in errors && errors[last.path] == last.message
  {
    if issues == [] then map[]
    else
      var last := issues[|issues| - 1];
      ErrorMap(issues[..|issues| - 1])[last.path := last.message]
  }

  /** A field has an entry iff some issue names it. */
  lemma {:induction false} ErrorMapKeys(issues: seq<Issue>, field: Field)
    ensures field in ErrorMap(issues) <==> exists i :: 0 <= i < |issues| && issues[i].path == field
  {
    if issues != [] {
      var init := issues[..|issues| - 1];
      ErrorMapKeys(init, field);
      if exists i :: 0 <= i < |issues| && issues[i].path == field {
        var i :| 0 <= i < |issues| && issues[i].path == field;
        if i < |init| {
          assert init[i].path == field;
        }
      }
      if exists i :: 0 <= i < |init| && init[i].path == field {
        var i :| 0 <= i < |init| && init[i].path == field;
        assert issues[i].path == field;
      }
    }
  }

  /** The entry of a field is the message of the last issue naming it. */
  lemma {:induction false} ErrorMapLastWins(issues: seq<Issue>, i: nat)
    requires i < |issues|
    requires forall j :: i < j < |issues| ==> issues[j].path != issues[i].path
    ensures issues[i].path in ErrorMap(issues)
    ensures ErrorMap(issues)[issues[i].path] == issues[i].message
  {
    var init := issues[..|issues| - 1];
    if i < |init| {
      assert init[i] == issues[i];
      ErrorMapLastWins(init, i);
    }
  }

  /** For issues with one entry per field, the error record holds exactly
      the fields the issues name, each with its field's message. */
  lemma ErrorMapOfWellFormed(issues: seq<Issue>, field: Field)
    requires WellFormedIssues(issues)
    ensures field in ErrorMap(issues) <==> field in Paths(issues)
    ensures field in ErrorMap(issues) ==> ErrorMap(issues)[field] == MessageOf(field)
  {
    ErrorMapKeys(issues, field);
    if field in Paths(issues) {
      var i :| 0 <= i < |issues| && issues[i].path == field;
      ErrorMapLastWins(issues, i);
    }
  }

  /** The error record as the handlers build it, by mutating a map. */
  method FieldErrors(issues: seq<Issue>) returns (errors: map<Field, string>)
    ensures errors == ErrorMap(issues)
  {
    errors := map[];
    var i := 0;
    while i < |issues|
      invariant 0 <= i <= |issues|
      invariant errors == ErrorMap(issues[..i])
    {
      assert issues[..i + 1][..i] == issues[..i];
      errors := errors[issues[i].path := issues[i].message];
      i := i + 1;
    }
    assert issues[..|issues|] == issues;
  }

  /** The arguments of the atomic registration procedure (insert the
      completed maintenance and set the vehicle's mileage). */
  datatype RpcPayload = RpcPayload(
    vehicleId: string,
    serviceType: string,
    serviceDate: Option<int>,
    kmAtService: Option<int>,
    costCents: Option<int>,
    description: Option<string>,
    attachmentUrl: Option<string>)

  /** The form fields a payload stands for, reading null as empty. */
  function FormOfRpc(p: RpcPayload): MaintenanceForm
  {
    MaintenanceForm(p.vehicleId, p.serviceType, p.serviceDate, p.kmAtService.GetOr(0),
                    p.costCents.GetOr(0), p.description.GetOr(""), p.attachmentUrl.GetOr(""), None, 0)
  }

  /** `performMaintenanceSubmit`'s arguments: empty text and zero numbers
      become null, nothing else changes (the service type is sent as
      typed, untrimmed). */
  function RpcPayloadOf(f: MaintenanceForm): (p: RpcPayload)
    ensures p.kmAtService != Some(0) && p.costCents != Some(0)
    ensures p.description != Some("") && p.attachmentUrl != Some("")
    ensures FormOfRpc(p) == f.(scheduledDate := None, scheduledKm := 0)
  {
    RpcPayload(f.vehicleId, f.serviceType, f.serviceDate, NullIfZero(f.kmAtService),
               NullIfZero(f.costCents), NullIfEmpty(f.description), NullIfEmpty(f.attachmentUrl))
  }

  /** The row the scheduled tab inserts. */
  datatype ScheduledInsert = ScheduledInsert(
    vehicleId: string,
    serviceType: string,
    scheduledDate: Option<int>,
    scheduledKm: Option<int>,
    description: Option<string>,
    status: string,
    isScheduled: bool)

  /** `maintenanceData`, built from the parsed (trimmed) values. */
  function ScheduledInsertOf(f: MaintenanceForm): (ins: ScheduledInsert)
    ensures ins.status == Scheduled && ins.isScheduled
    ensures ins.vehicleId == f.vehicleId && ins.serviceType == Trim(f.serviceType)
    ensures ins.scheduledDate == f.scheduledDate
    ensures ins.scheduledKm != Some(0) && ins.scheduledKm.GetOr(0) == f.scheduledKm
    ensures ins.description != Some("") && ins.description.GetOr("") == f.description
  {
    ScheduledInsert(f.vehicleId, Trim(f.serviceType), f.scheduledDate, NullIfZero(f.scheduledKm),
                    NullIfEmpty(f.description), Scheduled, true)
  }

  /** A write the dialog sends to the store. */
  datatype Write = Rpc(payload: RpcPayload) | InsertScheduled(row: ScheduledInsert)

  function IdIs(id: string): Vehicle -> bool
  {
    (v: Vehicle) => v.id == id
  }

  /** The retroactive-mileage gate: the selected vehicle is found and the
      entered mileage is positive but below its current mileage. */
  predicate NeedsKmConfirmation(vehicles: seq<Vehicle>, f: MaintenanceForm)
    ensures NeedsKmConfirmation(vehicles, f) ==> 0 < f.kmAtService && HasId(vehicles, f.vehicleId)
  {
    match Find(vehicles, IdIs(f.vehicleId))
    case None => false
    case Some(k) => f.kmAtService > 0 && f.kmAtService < KmOrZero(vehicles[k])
  }

  /** The gate holds exactly when the first vehicle with the selected id
      has a current mileage above the entered positive mileage. */
  lemma NeedsKmConfirmationIff(vehicles: seq<Vehicle>, f: MaintenanceForm)
    ensures NeedsKmConfirmation(vehicles, f) <==>
      exists k :: (&& 0 <= k < |vehicles| && vehicles[k].id == f.vehicleId
                   && (forall j :: 0 <= j < k ==> vehicles[j].id != f.vehicleId)
                   && 0 < f.kmAtService < KmOrZero(vehicles[k]))
  {
  }

  class MaintenanceDialogForm {
    var vehicles: seq<Vehicle>
    var loading: bool
    var showKmWarning: bool
    var pendingSubmit: bool
    var errors: map<Field, string>
    var formData: MaintenanceForm
    /** The writes sent to the store, oldest first. */
    var writes: seq<Write>

    constructor ()
      ensures vehicles == [] && !loading && !showKmWarning && !pendingSubmit
      ensures errors == map[] && formData == EmptyForm && writes == []
    {
      vehicles, loading, showKmWarning, pendingSubmit := [], false, false, false;
      errors, formData, writes := map[], EmptyForm, [];
    }

    /** `fetchVehicles` on opening: `None` when the query returned no data. */
    method FetchVehicles(data: Option<seq<Vehicle>>)
      modifies this`vehicles
      ensures vehicles == if data.Some? then data.value else old(vehicles)
    {
      if data.Some? {
        vehicles := data.value;
      }
    }

    /** `resetForm`. */
    method ResetForm()
      modifies this`formData, this`errors
      ensures formData == EmptyForm && errors == map[]
    {
      formData := EmptyForm;
      errors := map[];
    }

    /** `performMaintenanceSubmit`: one call of the registration procedure
        with the form's payload; `rpcOk` is whether it succeeded. */
    method PerformMaintenanceSubmit(rpcOk: bool)
      modifies this
      ensures writes == old(writes) + [Rpc(RpcPayloadOf(old(formData)))]
      ensures !loading && !pendingSubmit
      ensures formData == (if rpcOk then EmptyForm else old(formData))
      ensures errors == (if rpcOk then map[] else old(errors))
      ensures vehicles == old(vehicles) && showKmWarning == old(showKmWarning)
    {
      loading := true;
      writes := writes + [Rpc(RpcPayloadOf(formData))];
      if rpcOk {
        ResetForm();
      }
      loading := false;
      pendingSubmit := false;
    }

    /** `handleSubmitCompleted`: validate; on a retroactive mileage only
        raise the warning and the pending flag; otherwise register. */
    method HandleSubmitCompleted(today: int, isUuid: string -> bool, isUrl: string -> bool, rpcOk: bool)
      modifies this
      ensures errors == ErrorMap(CompletedIssues(old(formData), today, isUuid, isUrl))
      ensures vehicles == old(vehicles)
      ensures CompletedIssues(old(formData), today, isUuid, isUrl) != [] ==>
        && writes == old(writes) && formData == old(formData) && loading == old(loading)
        && showKmWarning == old(showKmWarning) && pendingSubmit == old(pendingSubmit)
      ensures (CompletedIssues(old(formData), today, isUuid, isUrl) == []
               && NeedsKmConfirmation(old(vehicles), old(formData))) ==>
        && showKmWarning && pendingSubmit
        && writes == old(writes) && formData == old(formData) && loading == old(loading)
      ensures (CompletedIssues(old(formData), today, isUuid, isUrl) == []
               && !NeedsKmConfirmation(old(vehicles), old(formData))) ==>
        && writes == old(writes) + [Rpc(RpcPayloadOf(old(formData)))]
        && !loading && !pendingSubmit && showKmWarning == old(showKmWarning)
        && formData == (if rpcOk then EmptyForm else old(formData))
    {
      errors := map[];
      var issues := CompletedIssues(formData, today, isUuid, isUrl);
      if issues != [] {
        errors := FieldErrors(issues);
        return;
      }
      if NeedsKmConfirmation(vehicles, formData) {
        showKmWarning := true;
        pendingSubmit := true;
        return;
      }
      PerformMaintenanceSubmit(rpcOk);
    }

    /** "Sim, Continuar" on the warning: the dialog closes and the
        registration runs once. */
    method ConfirmKmWarning(rpcOk: bool)
      modifies this
      ensures writes == old(writes) + [Rpc(RpcPayloadOf(old(formData)))]
      ensures !showKmWarning && !loading && !pendingSubmit
      ensures formData == (if rpcOk then EmptyForm else old(formData))
      ensures errors == (if rpcOk then map[] else old(errors))
      ensures vehicles == old(vehicles)
    {
      showKmWarning := false;
      PerformMaintenanceSubmit(rpcOk);
    }

    /** "Cancelar" on the warning: nothing is written. */
    method CancelKmWarning()
      modifies this
      ensures !showKmWarning && !pendingSubmit
      ensures writes == old(writes) && formData == old(formData) && loading == old(loading)
      ensures errors == old(errors) && vehicles == old(vehicles)
    {
      pendingSubmit := false;
      showKmWarning := false;
    }

    /** `handleSubmitScheduled`: validate, then insert one scheduled row;
        `insertOk` is whether the insert succeeded. */
    method HandleSubmitScheduled(isUuid: string -> bool, insertOk: bool)
      modifies this
      ensures errors == ErrorMap(ScheduledIssues(old(formData), isUuid))
      ensures !loading
      ensures vehicles == old(vehicles) && pendingSubmit == old(pendingSubmit)
      ensures showKmWarning == old(showKmWarning)
      ensures ScheduledIssues(old(formData), isUuid) != [] ==> writes == old(writes) && formData == old(formData)
      ensures ScheduledIssues(old(formData), isUuid) == [] ==>
        && writes == old(writes) + [InsertScheduled(ScheduledInsertOf(old(formData)))]
        && formData == (if insertOk then EmptyForm else old(formData))
    {
      errors := map[];
      loading := true;
      var issues := ScheduledIssues(formData, isUuid);
      if issues != [] {
        errors := FieldErrors(issues);
      } else {
        InsertScheduledRow(insertOk);
      }
      loading := false;
    }

    /** The `try` block after a successful parse: one insert of the
        scheduled row; on success the form is reset. */
    method InsertScheduledRow(insertOk: bool)
      modifies this`writes, this`formData, this`errors
      ensures writes == old(writes) + [InsertScheduled(ScheduledInsertOf(old(formData)))]
      ensures formData == (if insertOk then EmptyForm else old(formData))
      ensures errors == (if insertOk then map[] else old(errors))
    {
      writes := writes + [InsertScheduled(ScheduledInsertOf(formData))];
      if insertOk {
        ResetForm();
      }
    }
  }
}

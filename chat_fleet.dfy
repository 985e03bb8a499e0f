/** The chat relay endpoint: the CORS preflight, the configuration and
    data-fetch guards, the "atualizar km" command that updates one
    vehicle's mileage, and the mapping of the AI gateway's HTTP status to
    the relay's response. The request body, the environment, the data
    store's errors and the gateway's answer are parameters; the prompt
    and the gateway call itself are not modelled. */
module ChatFleet {
  import opened Wrappers
  import opened Text
  import opened Fleet
  import opened Seqs
  import opened Store

  /* ---------- The command pattern `/atualizar km\s+(\S+)\s+(\d+)/i` ---------- */

  const CommandPrefix := "atualizar km"

  /** The two captures of a command match: the plate-or-number token and
      the new mileage as written. */
  datatype KmCommand = KmCommand(token: string, digits: string)

  /** The end of the longest run of characters satisfying `p` that starts at `j`. */
  function SpanEnd(s: string, j: nat, p: char -> bool): (e: nat)
    requires j <= |s|
    ensures j <= e <= |s|
    ensures forall k :: j <= k < e ==> p(s[k])
    ensures e < |s| ==> !p(s[e])
    decreases |s| - j
  {
    if j < |s| && p(s[j]) then SpanEnd(s, j + 1, p) else j
  }

  predicate HasPrefixAt(s: string, i: nat)
  {
    i + |CommandPrefix| <= |s| && s[i..i + |CommandPrefix|] == CommandPrefix
  }

  /** The pattern matches at `i` with the split `b`, `c`, `d`, `e`: the
      prefix, white space up to `b`, a non-space token `s[b..c]`, white
      space up to `d`, and digits `s[d..e]`. */
  predicate Runs(s: string, i: nat, b: nat, c: nat, d: nat, e: nat)
  {
    && HasPrefixAt(s, i)
    && i + |CommandPrefix| < b < c < d < e <= |s|
    && (forall k :: i + |CommandPrefix| <= k < b ==> IsSpace(s[k]))
    && (forall k :: b <= k < c ==> !IsSpace(s[k]))
    && (forall k :: c <= k < d ==> IsSpace(s[k]))
    && (forall k :: d <= k < e ==> IsDigit(s[k]))
  }

  /** The regular-expression engine at start position `i`: every
      quantifier is greedy, and as each run ends where the next one's
      character class cannot start, backtracking never finds another split. */
  function MatchAt(s: string, i: nat): (r: Option<KmCommand>)
    requires i <= |s|
    ensures r.Some? ==> r.value.token != [] && r.value.digits != []
    ensures r.Some? ==> forall k :: 0 <= k < |r.value.digits| ==> IsDigit(r.value.digits[k])
  {
    if !HasPrefixAt(s, i) then None
    else
      var a := i + |CommandPrefix|;
      var b := SpanEnd(s, a, IsSpace);
      var c := SpanEnd(s, b, IsNonSpace);
      var d := SpanEnd(s, c, IsSpace);
      var e := SpanEnd(s, d, IsDigit);
      if b == a || c == b || d == c || e == d then None
      else Some(KmCommand(s[b..c], s[d..e]))
  }

  /** A match found at `i` is a split of the pattern whose digit run is
      as long as it can be. */
  lemma MatchAtSound(s: string, i: nat)
    requires i <= |s| && MatchAt(s, i).Some?
    ensures exists b: nat, c: nat, d: nat, e: nat :: (&& Runs(s, i, b, c, d, e)
                                  && MatchAt(s, i).value == KmCommand(s[b..c], s[d..e])
                                  && (e == |s| || !IsDigit(s[e])))
  {
  }

  /** Whenever the pattern can match at `i`, the engine matches there,
      captures that split's token and a digit run extending its digits. */
  lemma MatchAtComplete(s: string, i: nat, b: nat, c: nat, d: nat, e: nat)
    requires Runs(s, i, b, c, d, e)
    ensures MatchAt(s, i).Some?
    ensures MatchAt(s, i).value.token == s[b..c]
    ensures s[d..e] <= MatchAt(s, i).value.digits
  {
    var a := i + |CommandPrefix|;
    SpanEndIs(s, a, IsSpace, b);
    SpanEndIs(s, b, IsNonSpace, c);
    assert IsDigit(s[d]);
    SpanEndIs(s, c, IsSpace, d);
    SpanEndAtLeast(s, d, IsDigit, e);
    var e' := SpanEnd(s, d, IsDigit);
    MatchAtIs(s, i, b, c, d, e');
    SlicePrefix(s, d, e, e');
  }

  lemma SlicePrefix(s: string, d: nat, e: nat, e': nat)
    requires d <= e <= e' <= |s|
    ensures s[d..e] <= s[d..e']
  {
    assert s[d..e] == s[d..e'][..e - d];
  }

  /** The engine's result once the four run ends are known. */
  lemma MatchAtIs(s: string, i: nat, b: nat, c: nat, d: nat, e: nat)
    requires HasPrefixAt(s, i)
    requires i + |CommandPrefix| < b < c < d < e <= |s|
    requires SpanEnd(s, i + |CommandPrefix|, IsSpace) == b && SpanEnd(s, b, IsNonSpace) == c
    requires SpanEnd(s, c, IsSpace) == d && SpanEnd(s, d, IsDigit) == e
    ensures MatchAt(s, i) == Some(KmCommand(s[b..c], s[d..e]))
  {
  }

  /** A run that ends where `p` stops holding is the one `SpanEnd` finds. */
  lemma SpanEndIs(s: string, j: nat, p: char -> bool, e: nat)
    requires j <= e <= |s|
    requires forall k :: j <= k < e ==> p(s[k])
    requires e < |s| ==> !p(s[e])
    ensures SpanEnd(s, j, p) == e
  {
  }

  /** `SpanEnd` reaches at least as far as any run of `p`. */
  lemma SpanEndAtLeast(s: string, j: nat, p: char -> bool, e: nat)
    requires j <= e <= |s|
    requires forall k :: j <= k < e ==> p(s[k])
    ensures e <= SpanEnd(s, j, p)
  {
  }

  /** The leftmost start position at or after `i` where the engine
      matches, or `|s| + 1` when there is none. */
  function LeftmostStart(s: string, i: nat): (k: nat)
    requires i <= |s|
    ensures i <= k <= |s| + 1
    ensures k <= |s| ==> MatchAt(s, k).Some?
    ensures forall j :: i <= j < k && j <= |s| ==> MatchAt(s, j).None?
    decreases |s| - i
  {
    if MatchAt(s, i).Some? then i
    else if i == |s| then |s| + 1
    else LeftmostStart(s, i + 1)
  }

  /** `String.prototype.match` without the global flag: the match at the
      leftmost start position at or after `i` where the engine matches. */
  function MatchFrom(s: string, i: nat): (r: Option<KmCommand>)
    requires i <= |s|
    ensures r.Some? ==> exists k :: i <= k <= |s| && MatchAt(s, k) == r && forall j :: i <= j < k ==> MatchAt(s, j).None?
    ensures r.None? ==> forall k :: i <= k <= |s| ==> MatchAt(s, k).None?
  {
    var k := LeftmostStart(s, i);
    if k <= |s| then MatchAt(s, k) else None
  }

  /** The command recognised in a chat message: the pattern is applied to
      the lower-cased, trimmed message. */
  function CommandOf(message: string): (r: Option<KmCommand>)
    ensures r.Some? ==> r.value.token != [] && r.value.digits != []
    ensures r.Some? ==> forall k :: 0 <= k < |r.value.digits| ==> IsDigit(r.value.digits[k])
  {
    MatchFrom(Trim(Lower(message)), 0)
  }

  /** The command is recognised iff the pattern can match somewhere in
      the lower-cased, trimmed message. */
  lemma CommandRecognisedIff(message: string)
    ensures CommandOf(message).Some? <==>
      var s := Trim(Lower(message));
      exists i: nat, b: nat, c: nat, d: nat, e: nat :: i <= |s| && Runs(s, i, b, c, d, e)
  {
    var s := Trim(Lower(message));
    if CommandOf(message).Some? {
      var k :| 0 <= k <= |s| && MatchAt(s, k) == MatchFrom(s, 0);
      MatchAtSound(s, k);
    }
    if exists i: nat, b: nat, c: nat, d: nat, e: nat :: i <= |s| && Runs(s, i, b, c, d, e) {
      var i: nat, b: nat, c: nat, d: nat, e: nat :| i <= |s| && Runs(s, i, b, c, d, e);
      MatchAtComplete(s, i, b, c, d, e);
    }
  }

  /* ---------- The vehicle the command targets ---------- */

  function SameToken(token: string): Vehicle -> bool
  {
    (v: Vehicle) => Lower(v.licensePlate) == Lower(token) || Lower(v.vehicleNumber) == Lower(token)
  }

  /** `vehicles.find(...)`: the first vehicle whose plate or number equals
      the token, ignoring case. */
  function TargetOf(rows: seq<Vehicle>, token: string): (r: Option<nat>)
    ensures r.Some? ==> r.value < |rows|
    ensures r.Some? ==> Lower(rows[r.value].licensePlate) == Lower(token) || Lower(rows[r.value].vehicleNumber) == Lower(token)
    ensures r.Some? ==> forall j :: 0 <= j < r.value ==>
      Lower(rows[j].licensePlate) != Lower(token) && Lower(rows[j].vehicleNumber) != Lower(token)
    ensures r.None? ==> forall j :: 0 <= j < |rows| ==>
      Lower(rows[j].licensePlate) != Lower(token) && Lower(rows[j].vehicleNumber) != Lower(token)
  {
    var r := Find(rows, SameToken(token));
    if r.Some? then
      assert SameToken(token)(rows[r.value]);
      assert forall j :: 0 <= j < r.value ==> !SameToken(token)(rows[j]);
      r
    else
      assert forall j :: 0 <= j < |rows| ==> !SameToken(token)(rows[j]);
      r
  }

  /** The token matches regardless of the case it is written in. */
  lemma TargetIgnoresCase(rows: seq<Vehicle>, token: string)
    ensures TargetOf(rows, Lower(token)) == TargetOf(rows, token)
  {
  }

  /** The confirmation reported to the model after a successful update. */
  function Confirmation(v: Vehicle, digits: string): string
  {
    "\U{2705} Quilometragem do ve\U{00ED}culo " + v.vehicleNumber + " (" + v.licensePlate
    + ") atualizada para " + digits + " km com sucesso!"
  }

  /** The confirmation names the vehicle's number and plate and the new mileage. */
  lemma ConfirmationNames(v: Vehicle, digits: string)
    ensures Contains(Confirmation(v, digits), v.vehicleNumber)
    ensures Contains(Confirmation(v, digits), v.licensePlate)
    ensures Contains(Confirmation(v, digits), digits)
  {
    var c := Confirmation(v, digits);
    var head := "\U{2705} Quilometragem do ve\U{00ED}culo ";
    var mid := head + v.vehicleNumber + " (";
    var tail := mid + v.licensePlate + ") atualizada para ";
    assert c == head + v.vehicleNumber + " (" + v.licensePlate + ") atualizada para " + digits + " km com sucesso!";
    ContainsIff(c, v.vehicleNumber);
    assert c[|head|..|head| + |v.vehicleNumber|] == v.vehicleNumber;
    assert OccursAt(c, v.vehicleNumber, |head|);
    ContainsIff(c, v.licensePlate);
    assert c[|mid|..|mid| + |v.licensePlate|] == v.licensePlate;
    assert OccursAt(c, v.licensePlate, |mid|);
    ContainsIff(c, digits);
    assert c[|tail|..|tail| + |digits|] == digits;
    assert OccursAt(c, digits, |tail|);
  }

  /** The update the message asks for against the fetched rows: the
      target's index and the new mileage (`parseInt` of the digit run). */
  datatype KmUpdate = KmUpdate(index: nat, km: nat, digits: string)

  function UpdateOf(rows: seq<Vehicle>, message: string): (u: Option<KmUpdate>)
    ensures u.Some? ==> u.value.index < |rows|
    ensures u.Some? <==> CommandOf(message).Some? && TargetOf(rows, CommandOf(message).value.token).Some?
    ensures u.Some? ==> TargetOf(rows, CommandOf(message).value.token) == Some(u.value.index)
    ensures u.Some? ==> u.value.digits == CommandOf(message).value.digits
    ensures u.Some? ==> u.value.km == DigitsValue(u.value.digits)
  {
    match CommandOf(message)
    case None => None
    case Some(cmd) =>
      match TargetOf(rows, cmd.token)
      case None => None
      case Some(k) => Some(KmUpdate(k, DigitsValue(cmd.digits), cmd.digits))
  }

  /** The update changes the target's mileage, even downwards, and no other row. */
  lemma UpdateTouchesOnlyTarget(rows: seq<Vehicle>, message: string)
    requires UniqueIds(rows) && UpdateOf(rows, message).Some?
    ensures var u := UpdateOf(rows, message).value;
      && SetKmWhere(rows, rows[u.index].id, u.km)[u.index].kmCurrent == Some(u.km)
      && forall j :: 0 <= j < |rows| && j != u.index ==> SetKmWhere(rows, rows[u.index].id, u.km)[j] == rows[j]
  {
  }

  /** "ATUALIZAR KM V001 12345" sets vehicle V001's mileage to 12345. */
  lemma UpdateExample()
    ensures var rows := [Vehicle("a1", "V001", "ABC1D23", "Volvo", "FH", 2020, Some(150000), Active)];
      UpdateOf(rows, "ATUALIZAR KM V001 12345") == Some(KmUpdate(0, 12345, "12345"))
  {
    var rows := [Vehicle("a1", "V001", "ABC1D23", "Volvo", "FH", 2020, Some(150000), Active)];
    ExampleCommand();
    ExampleTarget(rows);
    ExampleDigits();
  }

  lemma ExampleCommand()
    ensures CommandOf("ATUALIZAR KM V001 12345") == Some(KmCommand("v001", "12345"))
  {
    var s := "atualizar km v001 12345";
    ExampleLower();
    ExampleTrim(s);
    ExampleMatch(s);
  }

  lemma ExampleLower()
    ensures Lower("ATUALIZAR KM V001 12345") == "atualizar km v001 12345"
  {
  }

  lemma ExampleTrim(s: string)
    requires s == "atualizar km v001 12345"
    ensures Trim(s) == s
  {
    assert LeadingSpaces(s) == 0;
    assert ContentEnd(s) == |s|;
  }

  lemma ExampleMatch(s: string)
    requires s == "atualizar km v001 12345"
    ensures MatchFrom(s, 0) == Some(KmCommand("v001", "12345"))
  {
    assert HasPrefixAt(s, 0);
    ExampleSpans(s);
    assert s[13..17] == "v001";
    assert s[18..23] == "12345";
    assert MatchAt(s, 0) == Some(KmCommand("v001", "12345"));
    assert LeftmostStart(s, 0) == 0;
  }

  lemma ExampleSpans(s: string)
    requires s == "atualizar km v001 12345"
    ensures SpanEnd(s, 12, IsSpace) == 13
    ensures SpanEnd(s, 13, IsNonSpace) == 17
    ensures SpanEnd(s, 17, IsSpace) == 18
    ensures SpanEnd(s, 18, IsDigit) == 23
  {
    assert SpanEnd(s, 17, IsNonSpace) == 17;
    assert SpanEnd(s, 16, IsNonSpace) == 17;
    assert SpanEnd(s, 15, IsNonSpace) == 17;
    assert SpanEnd(s, 14, IsNonSpace) == 17;
  }

  lemma ExampleTarget(rows: seq<Vehicle>)
    requires |rows| > 0 && rows[0].vehicleNumber == "V001"
    ensures TargetOf(rows, "v001") == Some(0)
  {
  }

  lemma ExampleDigits()
    ensures DigitsValue("12345") == 12345
  {
    assert "12345"[..4] == "1234";
    assert "1234"[..3] == "123";
    assert "123"[..2] == "12";
    assert "12"[..1] == "1";
    assert "1"[..0] == "";
  }

  /* ---------- Requests, the environment and responses ---------- */

  /** The HTTP method (`verb`) and the outcome of `req.json()`: the message, or
      the parser's error message. */
  datatype Request = Request(verb: string, body: Result<string, string>)

  /** The AI gateway's answer: its HTTP status and the first choice's content. */
  datatype Upstream = Upstream(status: nat, content: string)

  /** What the handler observes outside the request: the API key, whether
      each data fetch and the mileage update fail, and the gateway's
      answer or the error message of a failed fetch. */
  datatype Env = Env(
    apiKey: Option<string>,
    vehiclesError: bool,
    maintenancesError: bool,
    updateFails: bool,
    upstream: Result<Upstream, string>)

  datatype Body = NoBody | ReplyBody(response: string) | ErrorBody(error: string)

  datatype Response = Response(status: nat, body: Body, headers: seq<(string, string)>)

  const CorsHeaders: seq<(string, string)> := [
    ("Access-Control-Allow-Origin", "*"),
    ("Access-Control-Allow-Headers", "authorization, x-client-info, apikey, content-type")]

  const JsonHeaders: seq<(string, string)> := CorsHeaders + [("Content-Type", "application/json")]

  const MissingKeyMessage := "LOVABLE_API_KEY is not configured"
  const RateLimitMessage := "Limite de requisi\U{00E7}\U{00F5}es excedido. Por favor, tente novamente mais tarde."
  const NoCreditMessage := "Cr\U{00E9}ditos insuficientes. Por favor, adicione cr\U{00E9}ditos ao seu workspace."
  /** The catch-all message for a thrown value that is not an `Error`
      (the data store's error objects). */
  const UnknownErrorMessage := "Unknown error"

  /** The response of the catch-all handler. */
  function Failed(message: string): Response
  {
    Response(500, ErrorBody(message), JsonHeaders)
  }

  /** The handler's mapping of the gateway's answer. */
  function UpstreamResponse(up: Upstream): (r: Response)
    ensures r.headers == JsonHeaders
    ensures 200 <= up.status < 300 ==> r == Response(200, ReplyBody(up.content), JsonHeaders)
    ensures up.status == 429 ==> r.status == 429 && r.body == ErrorBody(RateLimitMessage)
    ensures up.status == 402 ==> r.status == 402 && r.body == ErrorBody(NoCreditMessage)
    ensures !(200 <= up.status < 300) && up.status != 429 && up.status != 402 ==>
      r.status == 500 && r.body.ErrorBody? && Contains(r.body.error, Decimal(up.status))
  {
    if !(200 <= up.status < 300) then
      if up.status == 429 then Response(429, ErrorBody(RateLimitMessage), JsonHeaders)
      else if up.status == 402 then Response(402, ErrorBody(NoCreditMessage), JsonHeaders)
      else
        var msg := "AI gateway error: " + Decimal(up.status);
        assert OccursAt(msg, Decimal(up.status), |"AI gateway error: "|);
        ContainsIff(msg, Decimal(up.status));
        Failed(msg)
    else Response(200, ReplyBody(up.content), JsonHeaders)
  }

  /** The relay's status is one of four, and an error status is passed
      through only for rate limiting and exhausted credit. */
  lemma UpstreamStatusMapping(up: Upstream)
    ensures UpstreamResponse(up).status in {200, 402, 429, 500}
    ensures UpstreamResponse(up).status == 200 <==> 200 <= up.status < 300
    ensures UpstreamResponse(up).status == 429 <==> up.status == 429
    ensures UpstreamResponse(up).status == 402 <==> up.status == 402
  {
  }

  predicate KeyConfigured(apiKey: Option<string>)
  {
    apiKey.Some? && apiKey.value != ""
  }

  /** The request passes the guards and reaches the command. */
  predicate ReachesCommand(req: Request, env: Env)
  {
    req.verb != "OPTIONS" && req.body.Success? && KeyConfigured(env.apiKey)
    && !env.vehiclesError && !env.maintenancesError
  }

  /** The response of the handler; the command's outcome does not affect it. */
  function ResponseFor(req: Request, env: Env): (r: Response)
    ensures req.verb == "OPTIONS" ==> r == Response(200, NoBody, CorsHeaders)
    ensures req.verb != "OPTIONS" && req.body.Success? && !KeyConfigured(env.apiKey) ==>
      r == Failed(MissingKeyMessage)
    ensures r.status == 200 && r.body != NoBody ==> ReachesCommand(req, env) && env.upstream.Success?
    ensures r.status != 200 ==> r.body.ErrorBody? && r.headers == JsonHeaders
    ensures ReachesCommand(req, env) && env.upstream.Success? ==> r == UpstreamResponse(env.upstream.value)
    ensures ReachesCommand(req, env) && env.upstream.Failure? ==> r == Failed(env.upstream.error)
  {
    if req.verb == "OPTIONS" then Response(200, NoBody, CorsHeaders)
    else if req.body.Failure? then Failed(req.body.error)
    else if !KeyConfigured(env.apiKey) then Failed(MissingKeyMessage)
    else if env.vehiclesError || env.maintenancesError then Failed(UnknownErrorMessage)
    else if env.upstream.Failure? then Failed(env.upstream.error)
    else UpstreamResponse(env.upstream.value)
  }

  /** The relay answers with a reply exactly when every guard passes and
      the gateway answers with a success status. */
  lemma ReplyIff(req: Request, env: Env)
    ensures ResponseFor(req, env).body.ReplyBody? <==>
      ReachesCommand(req, env) && env.upstream.Success? && 200 <= env.upstream.value.status < 300
  {
  }

  /** The "atualizar km" step of the handler: match the command in the
      lower-cased, trimmed message, find the vehicle in the fetched rows
      and update its mileage by id. Returns the confirmation placed in
      the prompt. */
  method ApplyKmCommand(table: VehicleTable, message: string, updateFails: bool)
    returns (confirmation: Option<string>)
    requires table.Valid()
    modifies table
    ensures table.Valid()
    ensures var u := UpdateOf(old(table.rows), message);
      if u.Some? && !updateFails then
        && table.rows == SetKmWhere(old(table.rows), old(table.rows)[u.value.index].id, u.value.km)
        && confirmation == Some(Confirmation(old(table.rows)[u.value.index], u.value.digits))
      else
        table.rows == old(table.rows) && confirmation == None
  {
    confirmation := None;
    var vehicles := table.rows;
    var msgLower := Trim(Lower(message));
    var kmUpdateMatch := MatchFrom(msgLower, 0);
    if kmUpdateMatch.Some? {
      var found := TargetOf(vehicles, kmUpdateMatch.value.token);
      if found.Some? {
        var vehicle := vehicles[found.value];
        if !updateFails {
          table.SetKm(vehicle.id, DigitsValue(kmUpdateMatch.value.digits));
          confirmation := Some(Confirmation(vehicle, kmUpdateMatch.value.digits));
        }
      }
    }
  }

  /** The `serve` handler for one request against the `vehicles` table.
      Returns the response and the confirmation placed in the prompt. */
  method HandleRequest(table: VehicleTable, req: Request, env: Env)
    returns (resp: Response, confirmation: Option<string>)
    requires table.Valid()
    modifies table
    ensures table.Valid()
    ensures resp == ResponseFor(req, env)
    ensures var u := if ReachesCommand(req, env) then UpdateOf(old(table.rows), req.body.value) else None;
      if u.Some? && !env.updateFails then
        && table.rows == SetKmWhere(old(table.rows), old(table.rows)[u.value.index].id, u.value.km)
        && confirmation == Some(Confirmation(old(table.rows)[u.value.index], u.value.digits))
      else
        table.rows == old(table.rows) && confirmation == None
  {
    confirmation := None;
    if req.verb == "OPTIONS" {
      return Response(200, NoBody, CorsHeaders), None;
    }
    if req.body.Failure? {
      return Failed(req.body.error), None;
    }
    var message := req.body.value;
    if !KeyConfigured(env.apiKey) {
      return Failed(MissingKeyMessage), None;
    }
    if env.vehiclesError || env.maintenancesError {
      return Failed(UnknownErrorMessage), None;
    }
    confirmation := ApplyKmCommand(table, message, env.updateFails);
    if env.upstream.Failure? {
      return Failed(env.upstream.error), confirmation;
    }
    resp := UpstreamResponse(env.upstream.value);
  }
}

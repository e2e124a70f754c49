/**
 * `StorePatientRequest` and `UpdatePatientRequest`: input preparation, authorization and the
 * validation rules a patient write must pass before the controller sees it.
 */
module PatientRequests {
  import opened Wrappers
  import opened Records
  import opened Strings

  /** The validation rules these requests use: `required`, `min:n`, `max:n`. */
  datatype Rule = Required | Min(n: nat) | Max(n: nat)

  type Rules = map<string, seq<Rule>>
  type Input = map<string, string>

  /** Why a request is turned away: 403 from `authorize`, or 422 naming the failing attributes. */
  datatype Rejection = Unauthorized | Invalid(attributes: set<string>)

  const NameRules: seq<Rule> := [Required, Min(3), Max(255)]
  const AddressRules: seq<Rule> := [Required, Min(3), Max(500)]

  /** `StorePatientRequest::rules()`. */
  const StoreRules: Rules := map["name" := NameRules, "address" := AddressRules, "user_id" := [Required], "squad_id" := [Required]]

  /** `UpdatePatientRequest::rules()`. */
  const UpdateRules: Rules := map["name" := NameRules, "address" := AddressRules]

  function Lookup(input: Input, k: string): Option<string>
  {
    if k in input then Some(input[k]) else None
  }

  /**
   * One rule on one attribute value. `required` refuses a missing or blank value; `min` and
   * `max` compare the string length and do not apply to a missing value.
   */
  predicate Passes(rule: Rule, v: Option<string>)
  {
    match rule
    case Required => v.Some? && !IsBlank(v.value)
    case Min(n) => v.None? || |v.value| >= n
    case Max(n) => v.None? || |v.value| <= n
  }

  predicate AttributePasses(rules: seq<Rule>, v: Option<string>)
  {
    forall i :: 0 <= i < |rules| ==> Passes(rules[i], v)
  }

  /** The attributes whose rules the input breaks. */
  function Failing(rules: Rules, input: Input): (bad: set<string>)
    ensures forall k :: k in bad <==> k in rules && !AttributePasses(rules[k], Lookup(input, k))
  {
    set k | k in rules && !AttributePasses(rules[k], Lookup(input, k))
  }

  /**
   * The validator: on success `validated()`, the input restricted to the attributes that have
   * rules; on failure the set of failing attributes.
   */
  function Validate(rules: Rules, input: Input): (r: Result<Input, Rejection>)
    ensures r.Ok? <==> forall k :: k in rules ==> AttributePasses(rules[k], Lookup(input, k))
    ensures r.Ok? ==> r.value.Keys == rules.Keys * input.Keys && forall k :: k in r.value ==> r.value[k] == input[k]
    ensures r.Err? ==> r.error == Invalid(Failing(rules, input)) && r.error.attributes != {}
  {
    var bad := Failing(rules, input);
    if bad == {} then Ok(map k | k in rules && k in input :: input[k])
    else Err(Invalid(bad))
  }

  /** `prepareForValidation()`: `user_id` and `squad_id` come from the principal, whatever was sent. */
  function Merge(input: Input, principal: User): (r: Input)
    ensures r.Keys == input.Keys + {"user_id", "squad_id"}
    ensures r["user_id"] == principal.id && r["squad_id"] == principal.squadId
    ensures forall k :: k in input && k != "user_id" && k != "squad_id" ==> r[k] == input[k]
  {
    input["user_id" := principal.id]["squad_id" := principal.squadId]
  }

  /** `validateResolved()` after preparation: authorization is decided before any rule runs. */
  function Resolve(authorized: bool, rules: Rules, prepared: Input): (r: Result<Input, Rejection>)
    ensures r.Err? && r.error == Unauthorized <==> !authorized
    ensures authorized ==> r == Validate(rules, prepared)
  {
    if !authorized then Err(Unauthorized) else Validate(rules, prepared)
  }

  class StorePatientRequest {
    const principal: User
    var input: Input

    constructor(principal: User, input: Input)
      ensures this.principal == principal && this.input == input
    {
      this.principal := principal;
      this.input := input;
    }

    /** `authorize()`: every authenticated user may create patients. */
    function Authorize(): (ok: bool)
      ensures ok
    {
      true
    }

    method PrepareForValidation()
      modifies this
      ensures input == Merge(old(input), principal)
    {
      input := Merge(input, principal);
    }

    /** The request lifecycle: prepare, authorize, validate. */
    method ValidateResolved() returns (r: Result<Input, Rejection>)
      modifies this
      ensures input == Merge(old(input), principal)
      ensures r == Resolve(Authorize(), StoreRules, input)
    {
      PrepareForValidation();
      if !Authorize() {
        return Err(Unauthorized);
      }
      r := Validate(StoreRules, input);
    }
  }

  class UpdatePatientRequest {
    const principal: User
    /** The route-bound patient. */
    const patient: Patient
    var input: Input

    constructor(principal: User, patient: Patient, input: Input)
      ensures this.principal == principal && this.patient == patient && this.input == input
    {
      this.principal := principal;
      this.patient := patient;
      this.input := input;
    }

    /** `authorize()`: only the user recorded as the patient's creator may update it. */
    function Authorize(): (ok: bool)
      ensures ok <==> principal.id == patient.userId
    {
      principal.id == patient.userId
    }

    method PrepareForValidation()
      modifies this
      ensures input == Merge(old(input), principal)
    {
      input := Merge(input, principal);
    }

    method ValidateResolved() returns (r: Result<Input, Rejection>)
      modifies this
      ensures input == Merge(old(input), principal)
      ensures r == Resolve(Authorize(), UpdateRules, input)
    {
      PrepareForValidation();
      if !Authorize() {
        return Err(Unauthorized);
      }
      r := Validate(UpdateRules, input);
    }
  }

  // ------------------------------------------------------------------ properties

  /** A non-blank name passes exactly when it has 3 to 255 characters; an address, 3 to 500. */
  lemma LengthBounds(v: string)
    requires !IsBlank(v)
    ensures AttributePasses(NameRules, Some(v)) <==> 3 <= |v| <= 255
    ensures AttributePasses(AddressRules, Some(v)) <==> 3 <= |v| <= 500
  {
    assert Passes(NameRules[1], Some(v)) && Passes(NameRules[2], Some(v)) ==> 3 <= |v| <= 255;
    assert Passes(AddressRules[1], Some(v)) && Passes(AddressRules[2], Some(v)) ==> 3 <= |v| <= 500;
  }

  /** A missing or blank value fails every attribute of both rule sets. */
  lemma MissingOrBlankFails(k: string, v: string)
    requires k in StoreRules && IsBlank(v)
    ensures !AttributePasses(StoreRules[k], None) && !AttributePasses(StoreRules[k], Some(v))
    ensures k in UpdateRules ==> !AttributePasses(UpdateRules[k], None) && !AttributePasses(UpdateRules[k], Some(v))
  {
    assert StoreRules[k][0] == Required;
  }

  /**
   * A store request validates exactly when its name and address pass and the principal's id
   * and squad are not blank; what it then hands on names the principal as owner and tenant,
   * whatever the client sent for `user_id` and `squad_id`.
   */
  lemma StoreValidatedOwnership(input: Input, principal: User)
    ensures Validate(StoreRules, Merge(input, principal)).Ok?
        <==> AttributePasses(NameRules, Lookup(input, "name")) && AttributePasses(AddressRules, Lookup(input, "address"))
             && !IsBlank(principal.id) && !IsBlank(principal.squadId)
    ensures Validate(StoreRules, Merge(input, principal)).Ok? ==>
      var v := Validate(StoreRules, Merge(input, principal)).value;
      v.Keys == {"name", "address", "user_id", "squad_id"} && v["user_id"] == principal.id && v["squad_id"] == principal.squadId
  {
    var m := Merge(input, principal);
    assert Lookup(m, "name") == Lookup(input, "name") && Lookup(m, "address") == Lookup(input, "address");
    assert Lookup(m, "user_id") == Some(principal.id) && Lookup(m, "squad_id") == Some(principal.squadId);
    assert AttributePasses([Required], Some(principal.id)) <==> !IsBlank(principal.id) by {
      assert [Required][0] == Required;
    }
    assert AttributePasses([Required], Some(principal.squadId)) <==> !IsBlank(principal.squadId) by {
      assert [Required][0] == Required;
    }
    assert StoreRules.Keys == {"name", "address", "user_id", "squad_id"};
    if Validate(StoreRules, m).Ok? {
      assert AttributePasses(NameRules, Lookup(m, "name")) && AttributePasses(AddressRules, Lookup(m, "address"));
      assert Passes(NameRules[0], Lookup(m, "name")) && Passes(AddressRules[0], Lookup(m, "address"));
    }
  }

  /** What a valid update hands on holds only `name` and `address`: ownership and tenant cannot move. */
  lemma UpdateValidatedKeys(input: Input, principal: User)
    ensures Validate(UpdateRules, Merge(input, principal)).Ok? ==>
      Validate(UpdateRules, Merge(input, principal)).value.Keys == {"name", "address"}
  {
    var m := Merge(input, principal);
    if Validate(UpdateRules, m).Ok? {
      assert AttributePasses(NameRules, Lookup(m, "name")) && AttributePasses(AddressRules, Lookup(m, "address"));
      assert NameRules[0] == Required && AddressRules[0] == Required;
    }
  }

  /** An update by anyone but the creator is refused before validation, however good its input. */
  lemma UnauthorizedBeforeInvalid(principal: User, patient: Patient, prepared: Input)
    requires principal.id != patient.userId
    ensures Resolve(principal.id == patient.userId, UpdateRules, prepared) == Err(Unauthorized)
  {
  }
}

/** The gateway's error envelope (FCM HTTP v1) and the test for "the gateway
    rejected the device token". */
module PublishErrors {
  import opened Options
  import opened JsonTree

  const FIELD: string := "field"
  const FIELD_VIOLATIONS: string := "fieldViolations"
  const MESSAGE_TOKEN_VIOLATION: string := "message.token"

  /** The `error` object; `details` is an optional array of object nodes. */
  datatype Error = Error(code: int, message: string, status: string, details: Option<seq<Fields>>)

  datatype PublishErrorResponse = PublishErrorResponse(error: Error)

  /** `it.has("fieldViolations") && it["fieldViolations"].isArray` */
  predicate HasViolationArray(detail: Fields)
  {
    var v := Lookup(detail, FIELD_VIOLATIONS);
    v.Some? && v.value.JArray?
  }

  /** `it.has("field") && it["field"].isTextual` */
  predicate HasTextualField(violation: Json)
  {
    var f := Get(violation, FIELD);
    f.Some? && f.value.JString?
  }

  /** The elements of a detail's `fieldViolations` array. */
  function Violations(detail: Fields): seq<Json>
    requires HasViolationArray(detail)
  {
    Lookup(detail, FIELD_VIOLATIONS).value.items
  }

  /** The text of a violation's `field`. */
  function FieldText(violation: Json): string
    requires HasTextualField(violation)
  {
    Get(violation, FIELD).value.s
  }

  /** The verdict on one detail that carries a violations array: its first
      violation with a textual `field` names `message.token`. */
  ghost predicate DetailNamesToken(detail: Fields)
    requires HasViolationArray(detail)
  {
    exists k :: IsFirstWhere(Violations(detail), HasTextualField, k)
      && FieldText(Violations(detail)[k]) == MESSAGE_TOKEN_VIOLATION
  }

  /** True iff the first detail that has a `fieldViolations` array, at its
      first violation with a textual `field`, names exactly `message.token`.
      Absent details, no such detail, or no such violation give false. */
  function IsInvalidRegistrationTokenError(response: PublishErrorResponse): (r: bool)
    ensures response.error.details.None? ==> !r
    ensures r <==>
      (response.error.details.Some? &&
       exists i :: IsFirstWhere(response.error.details.value, HasViolationArray, i)
         && DetailNamesToken(response.error.details.value[i]))
  {
    match response.error.details
    case None => false
    case Some(details) =>
      match FirstWhere(details, HasViolationArray)
      case None => false
      case Some(fieldViolationsNode) =>
        match FirstWhere(Violations(fieldViolationsNode), HasTextualField)
        case None => false
        case Some(fieldNode) => FieldText(fieldNode) == MESSAGE_TOKEN_VIOLATION
  }

  // ---------------------------------------------------------------------------
  // Properties of the classification

  /** With no detail carrying a `fieldViolations` array the answer is false,
      whatever else the details hold. */
  lemma NoViolationArrayIsNotInvalidToken(response: PublishErrorResponse)
    requires response.error.details.Some?
    requires forall i :: 0 <= i < |response.error.details.value| ==> !HasViolationArray(response.error.details.value[i])
    ensures !IsInvalidRegistrationTokenError(response)
  {
  }

  /** When the first violations array has no violation with a textual `field`,
      the answer is false, even if a later detail names `message.token`. */
  lemma NoTextualFieldIsNotInvalidToken(response: PublishErrorResponse, i: int)
    requires response.error.details.Some?
    requires IsFirstWhere(response.error.details.value, HasViolationArray, i)
    requires forall k :: 0 <= k < |Violations(response.error.details.value[i])| ==>
      !HasTextualField(Violations(response.error.details.value[i])[k])
    ensures !IsInvalidRegistrationTokenError(response)
  {
  }

  /** Only the details up to and including the first one with a violations
      array are examined: whatever follows it can be replaced freely. */
  lemma LaterDetailsAreIgnored(response: PublishErrorResponse, i: int, rest: seq<Fields>)
    requires response.error.details.Some?
    requires IsFirstWhere(response.error.details.value, HasViolationArray, i)
    ensures var details := response.error.details.value;
      IsInvalidRegistrationTokenError(response) ==
      IsInvalidRegistrationTokenError(response.(error := response.error.(details := Some(details[..i + 1] + rest))))
  {
    var details := response.error.details.value;
    var other := details[..i + 1] + rest;
    assert IsFirstWhere(other, HasViolationArray, i) by {
      assert forall j :: 0 <= j <= i ==> other[j] == details[j];
    }
  }

  /** The envelope the gateway sends back for a rejected token, with the
      `field` of its one violation left open. */
  function DocumentedExample(field: string): PublishErrorResponse
  {
    PublishErrorResponse(Error(400, "Request contains an invalid argument.", "INVALID_ARGUMENT", Some([
      [("@type", JString("type.googleapis.com/google.firebase.fcm.v1.FcmError")),
       ("errorCode", JString("INVALID_ARGUMENT"))],
      [("@type", JString("type.googleapis.com/google.rpc.BadRequest")),
       (FIELD_VIOLATIONS, JArray([JObject([(FIELD, JString(field)), ("description", JString("Invalid registration token"))])]))]
    ])))
  }

  /** The documented envelope is an invalid-token error exactly when its
      violation names `message.token`. */
  lemma DocumentedExampleClassification(field: string)
    ensures IsInvalidRegistrationTokenError(DocumentedExample(field)) <==> field == MESSAGE_TOKEN_VIOLATION
  {
    var details := DocumentedExample(field).error.details.value;
    var violation := JObject([(FIELD, JString(field)), ("description", JString("Invalid registration token"))]);
    assert |details| == 2;
    assert Lookup(details[0], FIELD_VIOLATIONS).None?;
    LookupAt(details[1], FIELD_VIOLATIONS, 1);
    assert IsFirstWhere(details, HasViolationArray, 1);
    assert Violations(details[1]) == [violation];
    LookupAt(violation.fields, FIELD, 0);
    assert IsFirstWhere([violation], HasTextualField, 0);
  }

  /** As documented, the envelope classifies as an invalid token; the same
      envelope naming `message.notification` does not. */
  lemma DocumentedExampleIsInvalidToken()
    ensures IsInvalidRegistrationTokenError(DocumentedExample(MESSAGE_TOKEN_VIOLATION))
    ensures !IsInvalidRegistrationTokenError(DocumentedExample("message.notification"))
  {
    DocumentedExampleClassification(MESSAGE_TOKEN_VIOLATION);
    DocumentedExampleClassification("message.notification");
    assert "message.notification" != MESSAGE_TOKEN_VIOLATION;
  }

  /** A `message.token` violation in a detail after the first violations
      array does not count. */
  lemma LaterTokenViolationIsIgnored()
    ensures !IsInvalidRegistrationTokenError(PublishErrorResponse(Error(400, "", "", Some([
      [(FIELD_VIOLATIONS, JArray([JNumber(7), JObject([(FIELD, JString("message.notification"))])]))],
      [(FIELD_VIOLATIONS, JArray([JObject([(FIELD, JString(MESSAGE_TOKEN_VIOLATION))])]))]
    ]))))
  {
    var first: Fields := [(FIELD_VIOLATIONS, JArray([JNumber(7), JObject([(FIELD, JString("message.notification"))])]))];
    var violations := Violations(first);
    assert !HasTextualField(violations[0]);
    assert HasTextualField(violations[1]);
    assert IsFirstWhere(violations, HasTextualField, 1);
    assert "message.notification" != MESSAGE_TOKEN_VIOLATION;
  }
}

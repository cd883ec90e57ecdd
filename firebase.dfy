/** Dispatch of one notification to every device of a user through the FCM
    gateway, classification of each failed attempt, and the clean-up of
    registrations whose token the gateway rejected. */
module Firebase {
  import opened Options
  import opened JsonTree
  import opened Repository
  import opened PublishErrors

  // ---------------------------------------------------------------------------
  // The notification payload

  const CUSTOM_KEY_1: string := "CustomKey1"
  const CUSTOM_VALUE_1: string := "CustomValue1"

  /** The Android block: high priority and the custom data. */
  function AndroidConfig(): Fields
  {
    var androidData := [(CUSTOM_KEY_1, JString(CUSTOM_VALUE_1))];
    [("priority", JString("HIGH")), ("data", JObject(androidData))]
  }

  /** The APNs `aps` dictionary: both flags are the integer 1. */
  function ApnsPayloadAps(): Fields
  {
    [("content-available", JNumber(1)), ("mutable-content", JNumber(1))]
  }

  /** The APNs `payload`: the `aps` dictionary and the custom data. */
  function ApnsPayload(): Fields
  {
    [("aps", JObject(ApnsPayloadAps())), (CUSTOM_KEY_1, JString(CUSTOM_VALUE_1))]
  }

  /** The APNs block. */
  function ApnsConfig(): Fields
  {
    [("payload", JObject(ApnsPayload()))]
  }

  /** The platform-independent `notification` object. */
  function NotificationObject(title: string, body: string): Fields
  {
    [("title", JString(title)), ("body", JString(body))]
  }

  /** The `message` object: the device token and the three blocks. */
  function MessageObject(registrationId: string, title: string, body: string): Fields
  {
    [("token", JString(registrationId)),
     ("notification", JObject(NotificationObject(title, body))),
     ("android", JObject(AndroidConfig())),
     ("apns", JObject(ApnsConfig()))]
  }

  /** The FCM v1 request for one device, as a JSON tree; what it holds is
      stated by `CreateNotificationShape`. */
  function CreateNotification(registrationId: string, title: string, body: string): Json
  {
    JObject([("message", JObject(MessageObject(registrationId, title, body)))])
  }

  /** The members of the `message` object, in order. */
  lemma MessageMembers(registrationId: string, title: string, body: string)
    ensures var message := MessageObject(registrationId, title, body);
      Lookup(message, "token") == Some(JString(registrationId))
      && Lookup(message, "notification") == Some(JObject(NotificationObject(title, body)))
      && Lookup(message, "android") == Some(JObject(AndroidConfig()))
      && Lookup(message, "apns") == Some(JObject(ApnsConfig()))
      && Keys(message) == ["token", "notification", "android", "apns"]
  {
    var message := MessageObject(registrationId, title, body);
    LookupAt(message, "token", 0);
    LookupAt(message, "notification", 1);
    LookupAt(message, "android", 2);
    LookupAt(message, "apns", 3);
  }


  /** Where the token and the common notification sit in the request. */
  lemma NotificationPaths(root: Fields, message: Fields, registrationId: string, title: string, body: string)
    requires Lookup(root, "message") == Some(JObject(message))
    requires Lookup(message, "token") == Some(JString(registrationId))
    requires Lookup(message, "notification") == Some(JObject(NotificationObject(title, body)))
    ensures At(JObject(root), ["message"]) == Some(JObject(message))
    ensures At(JObject(root), ["message", "token"]) == Some(JString(registrationId))
    ensures At(JObject(root), ["message", "notification", "title"]) == Some(JString(title))
    ensures At(JObject(root), ["message", "notification", "body"]) == Some(JString(body))
  {
    var notification := NotificationObject(title, body);
    AtObject(root, ["message"], JObject(message));
    AtObject(message, ["token"], JString(registrationId));
    AtObject(root, ["message", "token"], JObject(message));
    AtObject(notification, ["title"], JString(title));
    AtObject(notification, ["body"], JString(body));
    AtObject(message, ["notification", "title"], JObject(notification));
    AtObject(message, ["notification", "body"], JObject(notification));
    AtObject(root, ["message", "notification", "title"], JObject(message));
    AtObject(root, ["message", "notification", "body"], JObject(message));
  }

  /** Where the Android block's fields sit in the request. */
  lemma AndroidPaths(root: Fields, message: Fields)
    requires Lookup(root, "message") == Some(JObject(message))
    requires Lookup(message, "android") == Some(JObject(AndroidConfig()))
    ensures At(JObject(root), ["message", "android", "priority"]) == Some(JString("HIGH"))
    ensures At(JObject(root), ["message", "android", "data"]) == Some(JObject([(CUSTOM_KEY_1, JString(CUSTOM_VALUE_1))]))
  {
    var android := AndroidConfig();
    AtObject(android, ["priority"], JString("HIGH"));
    AtObject(android, ["data"], JObject([(CUSTOM_KEY_1, JString(CUSTOM_VALUE_1))]));
    AtObject(message, ["android", "priority"], JObject(android));
    AtObject(message, ["android", "data"], JObject(android));
    AtObject(root, ["message", "android", "priority"], JObject(message));
    AtObject(root, ["message", "android", "data"], JObject(message));
  }

  /** Where the APNs flags and custom data sit inside the APNs block. */
  lemma ApnsConfigPaths()
    ensures At(JObject(ApnsConfig()), ["payload", "aps", "content-available"]) == Some(JNumber(1))
    ensures At(JObject(ApnsConfig()), ["payload", "aps", "mutable-content"]) == Some(JNumber(1))
    ensures At(JObject(ApnsConfig()), ["payload", CUSTOM_KEY_1]) == Some(JString(CUSTOM_VALUE_1))
  {
    var apns, apnsPayload, aps := ApnsConfig(), ApnsPayload(), ApnsPayloadAps();
    AtObject(aps, ["content-available"], JNumber(1));
    AtObject(aps, ["mutable-content"], JNumber(1));
    AtObject(apnsPayload, ["aps", "content-available"], JObject(aps));
    AtObject(apnsPayload, ["aps", "mutable-content"], JObject(aps));
    AtObject(apnsPayload, [CUSTOM_KEY_1], JString(CUSTOM_VALUE_1));
    AtObject(apns, ["payload", "aps", "content-available"], JObject(apnsPayload));
    AtObject(apns, ["payload", "aps", "mutable-content"], JObject(apnsPayload));
    AtObject(apns, ["payload", CUSTOM_KEY_1], JObject(apnsPayload));
  }

  /** Where the APNs block's fields sit in the request. */
  lemma ApnsPaths(root: Fields, message: Fields, apns: Fields)
    requires Lookup(root, "message") == Some(JObject(message))
    requires Lookup(message, "apns") == Some(JObject(apns))
    requires At(JObject(apns), ["payload", "aps", "content-available"]) == Some(JNumber(1))
    requires At(JObject(apns), ["payload", "aps", "mutable-content"]) == Some(JNumber(1))
    requires At(JObject(apns), ["payload", CUSTOM_KEY_1]) == Some(JString(CUSTOM_VALUE_1))
    ensures At(JObject(root), ["message", "apns", "payload", "aps", "content-available"]) == Some(JNumber(1))
    ensures At(JObject(root), ["message", "apns", "payload", "aps", "mutable-content"]) == Some(JNumber(1))
    ensures At(JObject(root), ["message", "apns", "payload", CUSTOM_KEY_1]) == Some(JString(CUSTOM_VALUE_1))
  {
    AtObject(message, ["apns", "payload", "aps", "content-available"], JObject(apns));
    AtObject(message, ["apns", "payload", "aps", "mutable-content"], JObject(apns));
    AtObject(message, ["apns", "payload", CUSTOM_KEY_1], JObject(apns));
    AtObject(root, ["message", "apns", "payload", "aps", "content-available"], JObject(message));
    AtObject(root, ["message", "apns", "payload", "aps", "mutable-content"], JObject(message));
    AtObject(root, ["message", "apns", "payload", CUSTOM_KEY_1], JObject(message));
  }

  /** The request for one device: the token addresses the device, title and
      body pass through unchanged, and the fixed parts (Android priority and
      data, the APNs `content-available` and `mutable-content` flags, the APNs
      custom data) are always present, under a single top-level `message`. */
  lemma CreateNotificationShape(registrationId: string, title: string, body: string)
    ensures var payload := CreateNotification(registrationId, title, body);
      At(payload, ["message", "token"]) == Some(JString(registrationId))
      && At(payload, ["message", "notification", "title"]) == Some(JString(title))
      && At(payload, ["message", "notification", "body"]) == Some(JString(body))
      && At(payload, ["message", "android", "priority"]) == Some(JString("HIGH"))
      && At(payload, ["message", "android", "data"]) == Some(JObject([(CUSTOM_KEY_1, JString(CUSTOM_VALUE_1))]))
      && At(payload, ["message", "apns", "payload", "aps", "content-available"]) == Some(JNumber(1))
      && At(payload, ["message", "apns", "payload", "aps", "mutable-content"]) == Some(JNumber(1))
      && At(payload, ["message", "apns", "payload", CUSTOM_KEY_1]) == Some(JString(CUSTOM_VALUE_1))
      && payload.JObject? && Keys(payload.fields) == ["message"]
      && Keys(At(payload, ["message"]).value.fields) == ["token", "notification", "android", "apns"]
  {
    var message := MessageObject(registrationId, title, body);
    var root := [("message", JObject(message))];
    MessageMembers(registrationId, title, body);
    NotificationPaths(root, message, registrationId, title, body);
    AndroidPaths(root, message);
    ApnsConfigPaths();
    ApnsPaths(root, message, ApnsConfig());
  }

  // ---------------------------------------------------------------------------
  // One attempt and its classification

  /** What the HTTP exchange gave back: the status code and the body text,
      `None` when the response has no body. */
  datatype HttpResponse = HttpResponse(code: int, body: Option<string>)

  datatype PublishError = NetworkError | ResponseParsingError | InvalidRegistrationIdError | UnknownError

  /** The HTTP client's notion of success: a 2xx status. */
  predicate IsSuccessful(code: int)
  {
    200 <= code < 300
  }

  /** The failure recorded for one response, `None` when nothing is recorded.
      A missing body is a network error whatever the status; a body with a
      successful status records nothing; otherwise the parse result and the
      envelope decide. */
  function Classify(response: HttpResponse, parse: string -> Option<PublishErrorResponse>): (outcome: Option<PublishError>)
    ensures outcome == Some(NetworkError) <==> response.body.None?
    ensures outcome.None? <==> response.body.Some? && IsSuccessful(response.code)
    ensures outcome == Some(ResponseParsingError) <==>
      response.body.Some? && !IsSuccessful(response.code) && parse(response.body.value).None?
    ensures outcome == Some(InvalidRegistrationIdError) <==>
      response.body.Some? && !IsSuccessful(response.code) && parse(response.body.value).Some?
      && IsInvalidRegistrationTokenError(parse(response.body.value).value)
    ensures outcome == Some(UnknownError) <==>
      response.body.Some? && !IsSuccessful(response.code) && parse(response.body.value).Some?
      && !IsInvalidRegistrationTokenError(parse(response.body.value).value)
  {
    match response.body
    case None => Some(NetworkError)
    case Some(text) =>
      if IsSuccessful(response.code) then None
      else
        match parse(text)
        case None => Some(ResponseParsingError)
        case Some(envelope) =>
          if IsInvalidRegistrationTokenError(envelope) then Some(InvalidRegistrationIdError) else Some(UnknownError)
  }

  /** The outcome of the one attempt made for a registration: the payload
      addressed to its token goes through the exchange and the response is
      classified. */
  function OutcomeOf(title: string, message: string,
                     exchange: Json -> HttpResponse, parse: string -> Option<PublishErrorResponse>)
    : Registration -> Option<PublishError>
  {
    (registration: Registration) => Classify(exchange(CreateNotification(registration.registrationId, title, message)), parse)
  }

  // ---------------------------------------------------------------------------
  // A whole batch

  /** The failures recorded for a batch over `regs`, in batch order: one entry
      per registration whose attempt failed, with its error. */
  function Failures(regs: seq<Registration>, outcome: Registration -> Option<PublishError>)
    : (failed: seq<(Registration, PublishError)>)
    ensures |failed| <= |regs|
    decreases |regs|
  {
    if regs == [] then []
    else
      var init, last := regs[..|regs| - 1], regs[|regs| - 1];
      match outcome(last)
      case None => Failures(init, outcome)
      case Some(error) => Failures(init, outcome) + [(last, error)]
  }

  /** Every recorded failure is a registration of the batch with its own
      outcome, and every failed registration is recorded; with distinct ids no
      registration is recorded twice. */
  lemma {:induction false} FailuresExact(regs: seq<Registration>, outcome: Registration -> Option<PublishError>)
    ensures forall k :: 0 <= k < |Failures(regs, outcome)| ==>
      Failures(regs, outcome)[k].0 in regs && outcome(Failures(regs, outcome)[k].0) == Some(Failures(regs, outcome)[k].1)
    ensures forall i :: 0 <= i < |regs| && outcome(regs[i]).Some? ==> (regs[i], outcome(regs[i]).value) in Failures(regs, outcome)
    ensures UniqueIds(regs) ==> forall k, l :: 0 <= k < l < |Failures(regs, outcome)| ==>
      Failures(regs, outcome)[k].0.registrationId != Failures(regs, outcome)[l].0.registrationId
    decreases |regs|
  {
    if regs != [] {
      var init, last := regs[..|regs| - 1], regs[|regs| - 1];
      assert regs == init + [last];
      FailuresExact(init, outcome);
      var before, failed := Failures(init, outcome), Failures(regs, outcome);
      assert failed == before + (if outcome(last).Some? then [(last, outcome(last).value)] else []);
      forall k | 0 <= k < |failed| ensures failed[k].0 in regs {
        if k < |before| {
          assert failed[k] == before[k];
        }
      }
      forall i | 0 <= i < |regs| && outcome(regs[i]).Some? ensures (regs[i], outcome(regs[i]).value) in failed {
        if i < |init| {
          assert regs[i] == init[i];
        } else {
          assert failed[|failed| - 1] == (last, outcome(last).value);
        }
      }
      if UniqueIds(regs) {
        assert UniqueIds(init);
        forall k | 0 <= k < |before| ensures before[k].0.registrationId != last.registrationId {
          var a :| 0 <= a < |init| && init[a] == before[k].0;
          assert regs[a] == init[a];
        }
      }
    }
  }

  /** The registrations of the batch that stay after reconciliation: all but
      those whose token was rejected, in batch order. */
  function Survivors(regs: seq<Registration>, outcome: Registration -> Option<PublishError>): seq<Registration>
    decreases |regs|
  {
    if regs == [] then []
    else
      var init, last := regs[..|regs| - 1], regs[|regs| - 1];
      Survivors(init, outcome) + (if outcome(last) == Some(InvalidRegistrationIdError) then [] else [last])
  }

  /** A registration survives exactly when it is in the batch and its token was
      not rejected. */
  lemma {:induction false} SurvivorsExact(regs: seq<Registration>, outcome: Registration -> Option<PublishError>)
    ensures forall x :: x in Survivors(regs, outcome) <==> x in regs && outcome(x) != Some(InvalidRegistrationIdError)
    decreases |regs|
  {
    if regs != [] {
      var init, last := regs[..|regs| - 1], regs[|regs| - 1];
      assert regs == init + [last];
      SurvivorsExact(init, outcome);
    }
  }

  /** The reconciliation loop on a list: for each recorded failure in order,
      remove its registration when the token was rejected. */
  function RemoveInvalid(regs: seq<Registration>, failed: seq<(Registration, PublishError)>): seq<Registration>
    decreases |failed|
  {
    if failed == [] then regs
    else
      var before := RemoveInvalid(regs, failed[..|failed| - 1]);
      var (registration, error) := failed[|failed| - 1];
      if error == InvalidRegistrationIdError then Removed(before, registration) else before
  }

  /** One more attempt at the end of a batch adds at most its own failure. */
  lemma FailuresSnoc(init: seq<Registration>, last: Registration, outcome: Registration -> Option<PublishError>)
    ensures Failures(init + [last], outcome) ==
      Failures(init, outcome) + (if outcome(last).Some? then [(last, outcome(last).value)] else [])
  {
    assert (init + [last])[..|init|] == init;
  }

  /** One more registration at the end of a batch survives unless rejected. */
  lemma SurvivorsSnoc(init: seq<Registration>, last: Registration, outcome: Registration -> Option<PublishError>)
    ensures Survivors(init + [last], outcome) ==
      Survivors(init, outcome) + (if outcome(last) == Some(InvalidRegistrationIdError) then [] else [last])
  {
    assert (init + [last])[..|init|] == init;
  }

  /** One more recorded failure removes its registration only when rejected. */
  lemma RemoveInvalidSnoc(regs: seq<Registration>, failed: seq<(Registration, PublishError)>, registration: Registration, error: PublishError)
    ensures RemoveInvalid(regs, failed + [(registration, error)]) ==
      if error == InvalidRegistrationIdError then Removed(RemoveInvalid(regs, failed), registration) else RemoveInvalid(regs, failed)
  {
    assert (failed + [(registration, error)])[..|failed|] == failed;
  }

  /** The list-level step of reconciliation: the next registration of the
      batch, heading the part of the list not yet reconciled and sitting after
      the survivors so far, is cut out exactly when it was rejected. */
  lemma ReconcileStep(current: seq<Registration>, kept: seq<Registration>, pending: seq<Registration>, rejected: bool)
    requires pending != [] && current == kept + pending
    requires rejected ==> pending[0] !in kept
    ensures (if rejected then Removed(current, pending[0]) else current) ==
      kept + (if rejected then [] else [pending[0]]) + pending[1..]
  {
    assert pending == [pending[0]] + pending[1..];
    if rejected {
      RemovedCutsOut(kept, pending[0], pending[1..]);
      assert kept + [pending[0]] + pending[1..] == current;
    }
  }

  /** With distinct ids, an element is not among those before it. */
  lemma UniqueIdsNotEarlier(before: seq<Registration>, x: Registration, after: seq<Registration>)
    requires UniqueIds(before + [x] + after)
    ensures x !in before
  {
    var regs := before + [x] + after;
    forall a | 0 <= a < |before| ensures before[a] != x {
      assert regs[a] == before[a] && regs[|before|] == x;
    }
  }

  /** Reconciling a batch over a list of distinct registrations removes exactly
      the rejected ones: when the batch is the front of the list, reconciling
      its failures leaves the batch's survivors, in order, followed by the
      untouched rest of the list. */
  lemma {:induction false} ReconcileRemovesExactlyRejected(regs: seq<Registration>, batch: seq<Registration>, rest: seq<Registration>,
                                                          outcome: Registration -> Option<PublishError>)
    requires regs == batch + rest && UniqueIds(regs)
    ensures RemoveInvalid(regs, Failures(batch, outcome)) == Survivors(batch, outcome) + rest
    decreases |batch|
  {
    if batch != [] {
      var init, last := batch[..|batch| - 1], batch[|batch| - 1];
      assert batch == init + [last];
      assert regs == init + ([last] + rest);
      ReconcileRemovesExactlyRejected(regs, init, [last] + rest, outcome);
      ReconcileSnoc(regs, init, last, rest, outcome);
    }
  }

  /** The induction step of `ReconcileRemovesExactlyRejected`: one more
      registration at the end of the batch. */
  lemma ReconcileSnoc(regs: seq<Registration>, init: seq<Registration>, last: Registration, rest: seq<Registration>,
                      outcome: Registration -> Option<PublishError>)
    requires regs == init + ([last] + rest) && UniqueIds(regs)
    requires RemoveInvalid(regs, Failures(init, outcome)) == Survivors(init, outcome) + ([last] + rest)
    ensures RemoveInvalid(regs, Failures(init + [last], outcome)) == Survivors(init + [last], outcome) + rest
  {
    var current, kept := RemoveInvalid(regs, Failures(init, outcome)), Survivors(init, outcome);
    var rejected := outcome(last) == Some(InvalidRegistrationIdError);
    assert rejected ==> last !in kept by {
      assert init + [last] + rest == regs;
      UniqueIdsNotEarlier(init, last, rest);
      SurvivorsExact(init, outcome);
    }
    assert RemoveInvalid(regs, Failures(init + [last], outcome)) == if rejected then Removed(current, last) else current by {
      FailuresSnoc(init, last, outcome);
      if outcome(last).Some? {
        RemoveInvalidSnoc(regs, Failures(init, outcome), last, outcome(last).value);
      } else {
        assert Failures(init, outcome) + [] == Failures(init, outcome);
      }
    }
    SurvivorsSnoc(init, last, outcome);
    ReconcileStep(current, kept, [last] + rest, rejected);
    assert ([last] + rest)[1..] == rest;
  }

  // ---------------------------------------------------------------------------
  // The dispatcher

  /** Stores a registration for `userId` (the registration endpoint's entry). */
  method Register(repository: RegistrationRepository, platform: Platform, userId: string, registrationId: string)
    requires repository.Valid()
    modifies repository
    ensures repository.Valid()
    ensures repository.registrations ==
      old(repository.registrations)[userId := Stored(old(repository.Lookup(userId)), Registration(platform, userId, registrationId))]
  {
    repository.StoreRegistration(Registration(platform, userId, registrationId));
  }

  /** One iteration of the sending loop: build the payload for the
      registration's token, post it once, and classify the response into the
      failure to record, if any. */
  method Attempt(registration: Registration, notificationTitle: string, notificationMessage: string,
                 exchange: Json -> HttpResponse, parse: string -> Option<PublishErrorResponse>)
    returns (payload: Json, failure: Option<PublishError>)
    ensures payload == CreateNotification(registration.registrationId, notificationTitle, notificationMessage)
    ensures failure == OutcomeOf(notificationTitle, notificationMessage, exchange, parse)(registration)
  {
    payload := CreateNotification(registration.registrationId, notificationTitle, notificationMessage);
    var response := exchange(payload);
    match response.body {
      case None =>
        failure := Some(NetworkError);
      case Some(responseText) =>
        if !IsSuccessful(response.code) {
          match parse(responseText) {
            case Some(envelope) =>
              if IsInvalidRegistrationTokenError(envelope) {
                failure := Some(InvalidRegistrationIdError);
              } else {
                failure := Some(UnknownError);
              }
            case None =>
              failure := Some(ResponseParsingError);
          }
        } else {
          failure := None;
        }
    }
  }

  /** The sending loop: one payload per registration of `snapshot`, in order,
      each posted once through `exchange`; the outcome of every attempt that
      did not succeed is recorded. No recorded outcome ends the loop early;
      an exception thrown inside an attempt is outside this model. */
  method Dispatch(snapshot: seq<Registration>, notificationTitle: string, notificationMessage: string,
                  exchange: Json -> HttpResponse, parse: string -> Option<PublishErrorResponse>)
    returns (requests: seq<Json>, failedRequests: seq<(Registration, PublishError)>)
    ensures |requests| == |snapshot|
    ensures forall k :: 0 <= k < |requests| ==>
      requests[k] == CreateNotification(snapshot[k].registrationId, notificationTitle, notificationMessage)
    ensures failedRequests == Failures(snapshot, OutcomeOf(notificationTitle, notificationMessage, exchange, parse))
  {
    failedRequests := [];
    requests := [];
    ghost var outcome := OutcomeOf(notificationTitle, notificationMessage, exchange, parse);
    var i := 0;
    while i < |snapshot|
      invariant 0 <= i <= |snapshot|
      invariant |requests| == i
      invariant forall k :: 0 <= k < i ==>
        requests[k] == CreateNotification(snapshot[k].registrationId, notificationTitle, notificationMessage)
      invariant failedRequests == Failures(snapshot[..i], outcome)
    {
      var registration := snapshot[i];
      var payload, failure := Attempt(registration, notificationTitle, notificationMessage, exchange, parse);
      requests := requests + [payload];
      assert snapshot[..i + 1] == snapshot[..i] + [registration];
      FailuresSnoc(snapshot[..i], registration, outcome);
      if failure.Some? {
        failedRequests := failedRequests + [(registration, failure.value)];
      }
      i := i + 1;
    }
    assert snapshot[..|snapshot|] == snapshot;
  }

  /** The clean-up loop: for each recorded failure in order, a rejected token
      has its registration removed from the repository; other failures are
      left alone. The failures all belong to `userId`, whose list was
      `snapshot` when the batch started. */
  method Reconcile(repository: RegistrationRepository, userId: string, snapshot: seq<Registration>,
                   failedRequests: seq<(Registration, PublishError)>)
    requires repository.Valid()
    requires repository.Lookup(userId) == snapshot
    requires forall k :: 0 <= k < |failedRequests| ==> failedRequests[k].0 in snapshot
    modifies repository
    ensures repository.Valid()
    ensures repository.registrations ==
      if userId in old(repository.registrations)
      then old(repository.registrations)[userId := RemoveInvalid(snapshot, failedRequests)]
      else old(repository.registrations)
  {
    ghost var before := repository.registrations;
    ghost var remaining := snapshot;
    var j := 0;
    while j < |failedRequests|
      invariant 0 <= j <= |failedRequests|
      invariant repository.Valid()
      invariant remaining == RemoveInvalid(snapshot, failedRequests[..j])
      invariant repository.registrations == if userId in before then before[userId := remaining] else before
    {
      var registration, error := failedRequests[j].0, failedRequests[j].1;
      assert RemoveInvalid(snapshot, failedRequests[..j + 1]) ==
        if error == InvalidRegistrationIdError then Removed(remaining, registration) else remaining by {
        assert failedRequests[..j + 1] == failedRequests[..j] + [(registration, error)];
        RemoveInvalidSnoc(snapshot, failedRequests[..j], registration, error);
      }
      if error == InvalidRegistrationIdError {
        assert registration.userId == userId && userId in before by {
          assert registration in snapshot;
        }
        repository.RemoveRegistration(registration);
        remaining := Removed(remaining, registration);
      }
      j := j + 1;
    }
    assert failedRequests[..j] == failedRequests;
  }

  /** Sends the notification once to every registration of `userId`, in the
      order of a snapshot taken at the start, with no early exit on a recorded
      failure; records the failures; then removes exactly the registrations
      whose token the gateway rejected. This holds for runs in which nothing
      throws: an exception from obtaining the access token or from reading a
      body would end the batch without the clean-up, and is not modelled. `exchange` stands for the HTTP round trip of one payload and
      `parse` for reading an error envelope from a response body. `requests` is
      the sequence of payloads posted, `failedRequests` the recorded failures. */
  method PublishNotification(repository: RegistrationRepository, userId: string, notificationTitle: string, notificationMessage: string,
                             exchange: Json -> HttpResponse, parse: string -> Option<PublishErrorResponse>)
    returns (requests: seq<Json>, failedRequests: seq<(Registration, PublishError)>)
    requires repository.Valid()
    modifies repository
    ensures repository.Valid()
    ensures |requests| == |old(repository.Lookup(userId))|
    ensures forall k :: 0 <= k < |requests| ==>
      requests[k] == CreateNotification(old(repository.Lookup(userId))[k].registrationId, notificationTitle, notificationMessage)
    ensures failedRequests == Failures(old(repository.Lookup(userId)), OutcomeOf(notificationTitle, notificationMessage, exchange, parse))
    ensures repository.registrations ==
      if userId in old(repository.registrations)
      then old(repository.registrations)[userId :=
        Survivors(old(repository.registrations[userId]), OutcomeOf(notificationTitle, notificationMessage, exchange, parse))]
      else old(repository.registrations)
  {
    var snapshot := repository.GetRegistrations(userId);
    requests, failedRequests := Dispatch(snapshot, notificationTitle, notificationMessage, exchange, parse);
    ghost var outcome := OutcomeOf(notificationTitle, notificationMessage, exchange, parse);
    FailuresExact(snapshot, outcome);
    assert RemoveInvalid(snapshot, failedRequests) == Survivors(snapshot, outcome) by {
      assert snapshot == snapshot + [];
      ReconcileRemovesExactlyRejected(snapshot, snapshot, [], outcome);
      assert Survivors(snapshot, outcome) + [] == Survivors(snapshot, outcome);
    }
    Reconcile(repository, userId, snapshot, failedRequests);
  }
}

# FirebaseDemo push notifications, modelled in Dafny

This project models the server side of FirebaseDemo, a Kotlin demo that sends push notifications through the
Firebase Cloud Messaging (FCM) HTTP v1 API. It covers three pieces of logic.

- **The registration repository** (`RegistrationRepository`). This is an in-memory map from a user id to that user's
  ordered list of device registrations. Storing a registration is deduplicated by registration id within the user's
  list. Removal is by value equality. Reading hands out a copy of the list.
  - It is modelled as the class `Repository.RegistrationRepository`. Its field `registrations: map<string, seq<Registration>>`
    is updated in place.
  - Its invariant `Valid()` says that every list holds only its own user's registrations, each registration id once.
  - Each method's postcondition is stated against the value functions `Stored` and `Removed`. Lemmas prove the
    properties of those functions.
- **The error classifier** (`PublishErrorResponse.isInvalidRegistrationTokenError`). It decides whether the gateway's
  error envelope (`error.details[].fieldViolations[].field`) says that the device token was rejected.
  - It is a pure function over a JSON tree datatype (`JsonTree.Json`).
  - The "first match only" searches (Kotlin `firstOrNull`) are modelled by `Options.FirstWhere`.
- **Dispatch and reconciliation** (`Firebase.publishNotification`, `createNotification`, `register`).
  - The payload builder is a function returning a JSON tree. `CreateNotificationShape` states where each field sits in it.
  - One attempt per registration of a snapshot is a loop (`Dispatch`, which calls `Attempt`). The HTTP round trip is a
    function parameter `exchange`. Parsing an error body is a function parameter `parse`.
  - Removing rejected registrations is a second loop (`Reconcile`).
  - `PublishNotification` runs both loops. It is proved to
    - post exactly one payload per registration, in snapshot order;
    - record the failures `Failures(snapshot, outcome)`;
    - leave the user's list as `Survivors(snapshot, outcome)`, which keeps every registration whose token was not
      rejected, in its original order;
    - change no other user's list.

Files:
- `options.dfy`: `Option` and `FirstWhere`.
- `json.dfy`: the JSON tree and key lookup.
- `repository.dfy`: registrations and the repository class.
- `publish_error_response.dfy`: the error envelope and classifier.
- `firebase.dfy`: the payload, the classification of one response, and the publishing workflow.
- `scenarios.dfy`: concrete end-to-end runs.

## Model

| member | source | states |
|---|---|---|
| `Options.FirstWhere` | src/main/kotlin/notifications/firebase/PublishErrorResponse.kt:73-74 | `firstOrNull`: the result is `None` iff no element satisfies the test. Otherwise it is the element at the first satisfying position. |
| `Repository.StoredKeepsUniqueIds` | src/main/kotlin/notifications/repository/RegistrationRepository.kt:49 | Storing keeps registration ids pairwise distinct. Afterwards the id is present, and the set of ids grows by exactly that id. |
| `Repository.StoredIdempotent` | src/main/kotlin/notifications/repository/RegistrationRepository.kt:49 | Storing the same registration twice gives the same list as storing it once. |
| `Repository.StoredKnownIdIsNoOp` | src/main/kotlin/notifications/repository/RegistrationRepository.kt:49 | A registration whose id is already in the list leaves the list unchanged, even when its platform differs. |
| `Repository.FirstOccurrencesIds` | src/main/kotlin/notifications/repository/RegistrationRepository.kt:40-50 | The first occurrence of each id in a sequence of stores carries every id stored, each exactly once. |
| `Repository.StoredAllKeepsFirstOccurrences` | src/main/kotlin/notifications/repository/RegistrationRepository.kt:40-50 | Any sequence of stores for one user, starting from an empty list, leaves exactly the first registration stored for each id, in first-insertion order. |
| `Repository.RemovedShrinks` | src/main/kotlin/notifications/repository/RegistrationRepository.kt:56 | `remove` takes out one element when an equal one is present, and nothing otherwise. It never adds an element. |
| `Repository.RemovedCutsOut` | src/main/kotlin/notifications/repository/RegistrationRepository.kt:56 | Removing `x` from `before + [x] + after`, where `x` is not in `before`, gives `before + after`: order is kept. |
| `Repository.RemovedKeepsWellKeyed` | src/main/kotlin/notifications/repository/RegistrationRepository.kt:56 | Removal keeps the list well keyed and leaves no element equal to the removed one, so a repeated removal changes nothing. |
| `Repository.NotPresentRemovedIsNoOp` | src/main/kotlin/notifications/repository/RegistrationRepository.kt:56 | Removing an element that is not in the list changes nothing. |
| `Repository.RegistrationRepository.constructor` | src/main/kotlin/notifications/repository/RegistrationRepository.kt:34 | The repository starts empty and valid. |
| `Repository.RegistrationRepository.StoreRegistration` | src/main/kotlin/notifications/repository/RegistrationRepository.kt:40-50 | Only the owner's list changes. It becomes `Stored(old list, registration)`: created as `[registration]` for an unknown user, unchanged for a known id, appended otherwise. The invariant is kept. |
| `Repository.RegistrationRepository.RemoveRegistration` | src/main/kotlin/notifications/repository/RegistrationRepository.kt:55-57 | For a known user only that list changes, to `Removed(list, registration)`; the (possibly empty) list stays in the map. An unknown user leaves the map unchanged. The invariant is kept. |
| `Repository.RegistrationRepository.GetRegistrations` | src/main/kotlin/notifications/repository/RegistrationRepository.kt:62 | Returns the user's list as a value, `[]` for an unknown user. It changes nothing and is well keyed. |
| `PublishErrors.IsInvalidRegistrationTokenError` | src/main/kotlin/notifications/firebase/PublishErrorResponse.kt:71-79 | True iff `details` is present and the first detail with an array `fieldViolations` has, as its first violation with a textual `field`, exactly `message.token`. Absent `details` gives false. |
| `PublishErrors.NoViolationArrayIsNotInvalidToken` | src/main/kotlin/notifications/firebase/PublishErrorResponse.kt:73 | With no detail whose `fieldViolations` is an array, the result is false. |
| `PublishErrors.NoTextualFieldIsNotInvalidToken` | src/main/kotlin/notifications/firebase/PublishErrorResponse.kt:74 | If the first violations array has no violation with a textual `field`, the result is false, even when a later detail names `message.token`. |
| `PublishErrors.LaterDetailsAreIgnored` | src/main/kotlin/notifications/firebase/PublishErrorResponse.kt:73 | Details after the first one with a violations array can be replaced by anything without changing the result. |
| `PublishErrors.DocumentedExampleClassification` | src/main/kotlin/notifications/firebase/PublishErrorResponse.kt:33-54 | The documented envelope classifies as an invalid token iff its violation's `field` is `message.token`. |
| `PublishErrors.DocumentedExampleIsInvalidToken` | src/main/kotlin/notifications/firebase/PublishErrorResponse.kt:33-54 | The documented envelope is an invalid-token error. The same envelope naming `message.notification` is not. |
| `PublishErrors.LaterTokenViolationIsIgnored` | src/main/kotlin/notifications/firebase/PublishErrorResponse.kt:73-75 | Take an envelope whose first violations array starts with a non-object and then names `message.notification`. It is not an invalid-token error, although a later detail names `message.token`. |
| `Firebase.MessageMembers` | src/main/kotlin/notifications/firebase/Firebase.kt:220-225 | The `message` object holds `token`, `notification`, `android` and `apns`, in that order, with the given token. |
| `Firebase.NotificationPaths` | src/main/kotlin/notifications/firebase/Firebase.kt:213-225 | `message.token` and `message.notification.title`/`.body` are reached through the tree and carry the given values. |
| `Firebase.AndroidPaths` | src/main/kotlin/notifications/firebase/Firebase.kt:183-191 | `message.android.priority` is `"HIGH"`, and `message.android.data` is `{CustomKey1: CustomValue1}`. |
| `Firebase.ApnsConfigPaths` | src/main/kotlin/notifications/firebase/Firebase.kt:194-210 | Inside the APNs block, `payload.aps.content-available` and `payload.aps.mutable-content` are the integer 1, and `payload.CustomKey1` is `CustomValue1`. |
| `Firebase.ApnsPaths` | src/main/kotlin/notifications/firebase/Firebase.kt:208-224 | The APNs block's fields are reached from the request root through `message.apns`. |
| `Firebase.CreateNotificationShape` | src/main/kotlin/notifications/firebase/Firebase.kt:177-231 | The payload has a single top-level `message` holding `token`, `notification`, `android` and `apns`. The token equals the registration id. Title and body pass through unchanged. The Android and APNs fixed parts are always present with their fixed values. |
| `Firebase.Classify` | src/main/kotlin/notifications/firebase/Firebase.kt:129-151 | A response without a body gives `NetworkError` whatever the status. A body with a 2xx status records nothing. Otherwise an unparsable body gives `ResponseParsingError`, an invalid-token envelope `InvalidRegistrationIdError`, and any other envelope `UnknownError`. Each of the five cases is stated as an if-and-only-if. |
| `Firebase.Failures` | src/main/kotlin/notifications/firebase/Firebase.kt:104-153 | A batch records at most one failure per attempt. |
| `Firebase.FailuresExact` | src/main/kotlin/notifications/firebase/Firebase.kt:104-153 | Every recorded failure is a batch registration paired with its own outcome. Every failed registration is recorded. With distinct ids, no registration is recorded twice. |
| `Firebase.SurvivorsExact` | src/main/kotlin/notifications/firebase/Firebase.kt:156-164 | A registration survives reconciliation iff it is in the batch and its outcome is not `InvalidRegistrationIdError`. |
| `Firebase.FailuresSnoc` | src/main/kotlin/notifications/firebase/Firebase.kt:108-153 | Step equation of the definition of `Failures`: one more attempt appends its own failure, if any, after the earlier ones. It is the induction step used by `Dispatch`. |
| `Firebase.SurvivorsSnoc` | src/main/kotlin/notifications/firebase/Firebase.kt:156-164 | Step equation of the definition of `Survivors`: one more registration survives unless its token was rejected. It is an induction step of the clean-up proof. |
| `Firebase.RemoveInvalidSnoc` | src/main/kotlin/notifications/firebase/Firebase.kt:156-164 | Step equation of the definition of `RemoveInvalid`: one more recorded failure removes its registration iff its error is `InvalidRegistrationIdError`. It is the induction step used by `Reconcile`. |
| `Firebase.ReconcileRemovesExactlyRejected` | src/main/kotlin/notifications/firebase/Firebase.kt:156-164 | For distinct ids, reconciling a batch's failures over the list removes exactly the rejected registrations. The rest stays in order. |
| `Firebase.Register` | src/main/kotlin/notifications/firebase/Firebase.kt:78-80 | Registering stores `Registration(platform, userId, registrationId)`, with the same effect as `StoreRegistration`. |
| `Firebase.Attempt` | src/main/kotlin/notifications/firebase/Firebase.kt:109-152 | One iteration builds the payload for the registration's token, posts it once, and records `Classify` of the response. |
| `Firebase.Dispatch` | src/main/kotlin/notifications/firebase/Firebase.kt:104-153 | Exactly one payload per snapshot registration is posted, in snapshot order, with no early exit. The recorded failures are `Failures(snapshot, outcome)`. |
| `Firebase.Reconcile` | src/main/kotlin/notifications/firebase/Firebase.kt:156-164 | Walking the failures in order and removing each rejected registration changes only the user's list, to `RemoveInvalid(snapshot, failures)`. |
| `Firebase.PublishNotification` | src/main/kotlin/notifications/firebase/Firebase.kt:101-167 | One request per registration in the snapshot, in order. The failures are exactly the failed attempts. Afterwards the user's list is its survivors, and no other list changes. |
| `Scenarios.OneDevice` | src/main/kotlin/notifications/repository/RegistrationRepository.kt:40-50 | Storing A and then a registration with A's id on another platform leaves the user with `[A]` only. |
| `Scenarios.TwoDevices` | src/main/kotlin/notifications/repository/RegistrationRepository.kt:40-50 | Following that with B and then A again leaves `[A, B]`: the repeat of A is dropped. |
| `Scenarios.RepositoryScenario` | src/main/kotlin/notifications/repository/RegistrationRepository.kt:55-62 | After those stores the user reads `[A, B]` and an unknown user reads `[]`. Removing B twice leaves `[A]`, while the copy read earlier still holds both. |
| `Scenarios.PublishToUnknownUser` | src/main/kotlin/notifications/firebase/Firebase.kt:108 | A user with no registrations gets no attempt and no failure, and the repository is unchanged. |
| `Scenarios.RejectBOutcomes` | src/main/kotlin/notifications/firebase/Firebase.kt:129-151 | A 200 with a body records nothing. A 400 whose body parses to the documented envelope records `InvalidRegistrationIdError`. |
| `Scenarios.RejectBBatch` | src/main/kotlin/notifications/firebase/Firebase.kt:104-164 | For the batch `[A, B]` with B rejected, the failures are `[(B, InvalidRegistrationIdError)]` and only A survives. |
| `Scenarios.RejectedTokenScenario` | src/main/kotlin/notifications/firebase/Firebase.kt:101-167 | Publishing to a user with A and B, where B's token is rejected: two requests go out, in order; B is recorded and removed; A stays; the snapshot taken earlier is unaffected. |

## Left out

- The HTTP exchange with OkHttp is the function parameter `exchange`. This covers request construction, the gateway
  URL, headers and `execute()`. A body is `None` only when the response has none (`body()` is null).
  - `isSuccessful` is taken to be a status in 200..299. OkHttp itself is not part of this model.
- Exceptions inside the sending loop are not modelled. Three sources can throw:
  - the access-token getter (`Firebase.kt:85-95`), run for every request at `Firebase.kt:121`, which reads the
    service-account file and refreshes the token;
  - `execute()`;
  - `string()` on a body (`Firebase.kt:129`), which may fail with an `IOException`.

  None of these is caught. Any one of them ends `publishNotification` in the middle of the batch. The registrations
  after it get no request, and the clean-up loop (`Firebase.kt:156-164`) does not run, so tokens already found invalid
  stay stored. `Firebase.Dispatch`, `Firebase.Reconcile` and `Firebase.PublishNotification` describe only runs in which
  nothing throws.
- OAuth2 access-token acquisition (`GoogleCredential`, reading the service-account file) is foreign I/O and is left out.
- Jackson is not part of this model:
  - `toJson` serialisation: `createNotification` returns JSON text; the model returns the JSON tree that is serialised.
  - `parse<PublishErrorResponse>`: this is the function parameter `parse`, whose `None` stands for a body that does
    not parse.
- Object nodes are modelled as member lists in insertion order, and `JsonTree.Lookup` finds the first member with a
  key. Jackson's replace-on-`put` is not modelled, because the payload builder sets every key once.
  - A member list may repeat a key, which a Jackson `ObjectNode` never holds. Taking the first such member is a choice
    of this model, not Jackson's rule.
  - It matters only for envelopes supplied through `parse`.
- `println` logging is left out.
  - `PublishNotification` returns the recorded failures, where the source only logs them and drops them.
  - It also returns the payloads posted, as the trace of requests.
- `RegistrationHandler.kt` (the HTTP registration endpoint) is not part of this model. `framework.Platform` is not
  shown either; it is modelled as the two values `IOS` and `ANDROID`.
- `Registration` is not shown; it is modelled as a value with structural equality, as a Kotlin data class has.
- Concurrency: the repository is an unsynchronised process-wide singleton. All calls are taken to be sequential.
- The `code`, `message` and `status` of the error envelope are carried but play no part in classification, as in the
  source.
- JSON numbers are unbounded integers. No floating point is involved.
- Firebase.PublishNotification: its contract, like those of `Firebase.Dispatch` and `Firebase.Reconcile`, covers only
  runs in which nothing throws. The exceptions line above says what happens otherwise.
- Firebase.Failures: its own contract states only the bound on the number of failures. The exact content is stated by
  `Firebase.FailuresExact` and by `Firebase.Dispatch`.

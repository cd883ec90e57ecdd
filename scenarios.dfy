/** Concrete runs of the repository and of the publishing workflow, each
    stated as the exact state it ends in. */
module Scenarios {
  import opened Options
  import opened JsonTree
  import opened Repository
  import opened PublishErrors
  import opened Firebase

  /** A fresh repository in which user "u1" stored A and then a registration
      with A's id on another platform: the second store is dropped. */
  method OneDevice() returns (repository: RegistrationRepository)
    ensures fresh(repository) && repository.Valid()
    ensures repository.registrations == map["u1" := [Registration(ANDROID, "u1", "A")]]
  {
    var a, sameIdAsA := Registration(ANDROID, "u1", "A"), Registration(IOS, "u1", "A");
    repository := new RegistrationRepository();
    repository.StoreRegistration(a);
    assert repository.registrations == map["u1" := [a]] by {
      assert Stored([], a) == [a];
    }
    repository.StoreRegistration(sameIdAsA);
    assert repository.registrations == map["u1" := [a]] by {
      StoredKnownIdIsNoOp([a], sameIdAsA, 0);
    }
  }

  /** `OneDevice` followed by storing B and then A again: the repeat of A is
      dropped, leaving A and B. */
  method TwoDevices() returns (repository: RegistrationRepository)
    ensures fresh(repository) && repository.Valid()
    ensures repository.registrations == map["u1" := [Registration(ANDROID, "u1", "A"), Registration(IOS, "u1", "B")]]
  {
    var a, b := Registration(ANDROID, "u1", "A"), Registration(IOS, "u1", "B");
    repository := OneDevice();
    repository.StoreRegistration(b);
    assert repository.registrations == map["u1" := [a, b]] by {
      assert b.registrationId !in Ids([a]);
      assert Stored([a], b) == [a, b];
    }
    repository.StoreRegistration(a);
    assert repository.registrations == map["u1" := [a, b]] by {
      StoredKnownIdIsNoOp([a, b], a, 0);
    }
  }

  /** After the stores of `TwoDevices` the user holds [A, B]; an unknown user
      has no registrations; removing B twice leaves [A], while the list handed
      out before the removals still holds both. */
  method RepositoryScenario() returns (stored: seq<Registration>, unknown: seq<Registration>, afterRemoval: seq<Registration>)
    ensures stored == [Registration(ANDROID, "u1", "A"), Registration(IOS, "u1", "B")]
    ensures unknown == []
    ensures afterRemoval == [Registration(ANDROID, "u1", "A")]
  {
    var a, b := Registration(ANDROID, "u1", "A"), Registration(IOS, "u1", "B");
    var repository := TwoDevices();
    stored := repository.GetRegistrations("u1");
    unknown := repository.GetRegistrations("u2");
    repository.RemoveRegistration(b);
    assert repository.registrations == map["u1" := [a]] by {
      assert Removed([a, b], b) == [a];
    }
    repository.RemoveRegistration(b);
    assert repository.registrations == map["u1" := [a]] by {
      assert Removed([a], b) == [a];
    }
    afterRemoval := repository.GetRegistrations("u1");
  }

  /** Publishing to a user who never registered makes no attempt, records no
      failure and leaves the repository as it was. */
  method PublishToUnknownUser(exchange: Json -> HttpResponse, parse: string -> Option<PublishErrorResponse>)
    returns (requests: seq<Json>, failedRequests: seq<(Registration, PublishError)>, registrations: map<string, seq<Registration>>)
    ensures requests == [] && failedRequests == []
    ensures registrations == map[]
  {
    var repository := new RegistrationRepository();
    requests, failedRequests := PublishNotification(repository, "nobody", "title", "message", exchange, parse);
    registrations := repository.registrations;
  }

  /** The gateway of this scenario: a 400 for the request addressed to "B",
      a 200 for any other. */
  function RejectB(payload: Json): HttpResponse
  {
    if payload == CreateNotification("B", "Hi", "There") then HttpResponse(400, Some("rejected"))
    else HttpResponse(200, Some("ok"))
  }

  /** Every error body reads as the documented invalid-token envelope. */
  function ReadAsInvalidToken(text: string): Option<PublishErrorResponse>
  {
    Some(DocumentedExample(MESSAGE_TOKEN_VIOLATION))
  }

  /** The outcomes of the two attempts of `RejectedTokenScenario`. */
  lemma RejectBOutcomes()
    ensures OutcomeOf("Hi", "There", RejectB, ReadAsInvalidToken)(Registration(ANDROID, "u1", "A")) == None
    ensures OutcomeOf("Hi", "There", RejectB, ReadAsInvalidToken)(Registration(IOS, "u1", "B")) == Some(InvalidRegistrationIdError)
  {
    assert CreateNotification("A", "Hi", "There") != CreateNotification("B", "Hi", "There") by {
      CreateNotificationShape("A", "Hi", "There");
      CreateNotificationShape("B", "Hi", "There");
    }
    assert RejectB(CreateNotification("A", "Hi", "There")) == HttpResponse(200, Some("ok"));
    assert RejectB(CreateNotification("B", "Hi", "There")) == HttpResponse(400, Some("rejected"));
    assert Classify(HttpResponse(200, Some("ok")), ReadAsInvalidToken) == None;
    DocumentedExampleIsInvalidToken();
    assert Classify(HttpResponse(400, Some("rejected")), ReadAsInvalidToken) == Some(InvalidRegistrationIdError);
  }

  /** The batch of `RejectedTokenScenario`: B is recorded as rejected and only
      A survives. */
  lemma RejectBBatch()
    ensures Failures([Registration(ANDROID, "u1", "A"), Registration(IOS, "u1", "B")], OutcomeOf("Hi", "There", RejectB, ReadAsInvalidToken))
      == [(Registration(IOS, "u1", "B"), InvalidRegistrationIdError)]
    ensures Survivors([Registration(ANDROID, "u1", "A"), Registration(IOS, "u1", "B")], OutcomeOf("Hi", "There", RejectB, ReadAsInvalidToken))
      == [Registration(ANDROID, "u1", "A")]
  {
    var a, b := Registration(ANDROID, "u1", "A"), Registration(IOS, "u1", "B");
    var outcome := OutcomeOf("Hi", "There", RejectB, ReadAsInvalidToken);
    RejectBOutcomes();
    FailuresSnoc([a], b, outcome);
    FailuresSnoc([], a, outcome);
    SurvivorsSnoc([a], b, outcome);
    SurvivorsSnoc([], a, outcome);
    assert [a, b] == [a] + [b] && [a] == [] + [a];
  }

  /** A user with devices A and B, where the gateway rejects B's token: both
      get one attempt, in order; B is recorded as an invalid registration and
      removed; A stays; the snapshot taken before publishing is unaffected. */
  method RejectedTokenScenario() returns (snapshot: seq<Registration>, requests: seq<Json>,
                                          failedRequests: seq<(Registration, PublishError)>, remaining: seq<Registration>)
    ensures snapshot == [Registration(ANDROID, "u1", "A"), Registration(IOS, "u1", "B")]
    ensures requests == [CreateNotification("A", "Hi", "There"), CreateNotification("B", "Hi", "There")]
    ensures failedRequests == [(Registration(IOS, "u1", "B"), InvalidRegistrationIdError)]
    ensures remaining == [Registration(ANDROID, "u1", "A")]
  {
    var repository := TwoDevices();
    snapshot := repository.GetRegistrations("u1");
    RejectBBatch();
    requests, failedRequests := PublishNotification(repository, "u1", "Hi", "There", RejectB, ReadAsInvalidToken);
    assert requests[0] == CreateNotification("A", "Hi", "There") && requests[1] == CreateNotification("B", "Hi", "There");
    remaining := repository.GetRegistrations("u1");
  }
}

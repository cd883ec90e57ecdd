/** The in-memory registration repository: user id -> ordered list of device
    registrations, deduplicated by registration id within each user. */
module Repository {
  import opened Options

  datatype Platform = IOS | ANDROID

  /** One device endpoint of one user; compared structurally, like a Kotlin
      data class. */
  datatype Registration = Registration(platform: Platform, userId: string, registrationId: string)

  /** The registration ids occurring in a list. */
  function Ids(regs: seq<Registration>): set<string>
  {
    set r | r in regs :: r.registrationId
  }

  /** No registration id occurs twice in the list. */
  predicate UniqueIds(regs: seq<Registration>)
  {
    forall i, j :: 0 <= i < j < |regs| ==> regs[i].registrationId != regs[j].registrationId
  }

  /** Every registration in the list belongs to `userId`, each id once. */
  predicate WellKeyed(userId: string, regs: seq<Registration>)
  {
    UniqueIds(regs) && forall r :: r in regs ==> r.userId == userId
  }

  /** The user's list after `storeRegistration`: unchanged when the id is already
      there (whatever the platform), otherwise extended at the end. */
  function Stored(regs: seq<Registration>, registration: Registration): seq<Registration>
  {
    if registration.registrationId in Ids(regs) then regs else regs + [registration]
  }

  /** Kotlin's `MutableList.remove(element)`: drop the first element equal to
      `registration`, if there is one. */
  function Removed(regs: seq<Registration>, registration: Registration): seq<Registration>
  {
    if regs == [] then []
    else if regs[0] == registration then regs[1..]
    else [regs[0]] + Removed(regs[1..], registration)
  }

  /** The user's list after a sequence of `storeRegistration` calls, in order. */
  function StoredAll(regs: seq<Registration>, stores: seq<Registration>): seq<Registration>
    decreases |stores|
  {
    if stores == [] then regs
    else Stored(StoredAll(regs, stores[..|stores| - 1]), stores[|stores| - 1])
  }

  /** `stores[i]` is the first of `stores` to carry its registration id. */
  predicate IsFirstOccurrence(stores: seq<Registration>, i: int)
    requires 0 <= i < |stores|
  {
    forall j :: 0 <= j < i ==> stores[j].registrationId != stores[i].registrationId
  }

  /** The first occurrence of each registration id among `stores[..n]`, in the
      order of those first occurrences. */
  function FirstOccurrences(stores: seq<Registration>, n: nat): seq<Registration>
    requires n <= |stores|
  {
    if n == 0 then []
    else FirstOccurrences(stores, n - 1) + (if IsFirstOccurrence(stores, n - 1) then [stores[n - 1]] else [])
  }

  // ---------------------------------------------------------------------------
  // Properties of the list operations

  /** Storing keeps the ids unique; a known id leaves the list as it was, a new
      one is appended. */
  lemma StoredKeepsUniqueIds(regs: seq<Registration>, registration: Registration)
    requires UniqueIds(regs)
    ensures UniqueIds(Stored(regs, registration))
    ensures registration.registrationId in Ids(Stored(regs, registration))
    ensures Ids(Stored(regs, registration)) == Ids(regs) + {registration.registrationId}
  {
    if registration.registrationId !in Ids(regs) {
      var s := regs + [registration];
      forall i, j | 0 <= i < j < |s| ensures s[i].registrationId != s[j].registrationId {
        if j == |regs| {
          assert s[i] in regs;
        }
      }
      assert s[|regs|] == registration;
    }
  }

  /** Storing the same registration twice is the same as storing it once. */
  lemma StoredIdempotent(regs: seq<Registration>, registration: Registration)
    ensures Stored(Stored(regs, registration), registration) == Stored(regs, registration)
  {
    if registration.registrationId !in Ids(regs) {
      assert registration in regs + [registration];
    }
  }

  /** A registration whose id is already stored is ignored, even when its
      platform (or anything else about it) differs. */
  lemma StoredKnownIdIsNoOp(regs: seq<Registration>, registration: Registration, i: int)
    requires 0 <= i < |regs| && regs[i].registrationId == registration.registrationId
    ensures Stored(regs, registration) == regs
  {
    assert regs[i] in regs;
  }

  /** The ids of the first occurrences among `stores[..n]` are all the ids of
      `stores[..n]`, each once. */
  lemma {:induction false} FirstOccurrencesIds(stores: seq<Registration>, n: nat)
    requires n <= |stores|
    ensures Ids(FirstOccurrences(stores, n)) == Ids(stores[..n])
    ensures UniqueIds(FirstOccurrences(stores, n))
  {
    if n > 0 {
      FirstOccurrencesIds(stores, n - 1);
      var prev := FirstOccurrences(stores, n - 1);
      var last := stores[n - 1];
      assert Ids(stores[..n]) == Ids(stores[..n - 1]) + {last.registrationId} by {
        assert stores[..n] == stores[..n - 1] + [last];
      }
      FirstOccurrenceIsNewId(stores, n);
      assert FirstOccurrences(stores, n) == Stored(prev, last);
      StoredKeepsUniqueIds(prev, last);
    }
  }

  /** `stores[n - 1]` is a first occurrence exactly when its id is new among
      the earlier stores. */
  lemma FirstOccurrenceIsNewId(stores: seq<Registration>, n: nat)
    requires 0 < n <= |stores|
    ensures IsFirstOccurrence(stores, n - 1) <==> stores[n - 1].registrationId !in Ids(stores[..n - 1])
  {
    var last := stores[n - 1];
    if IsFirstOccurrence(stores, n - 1) {
      forall r | r in stores[..n - 1] ensures r.registrationId != last.registrationId {
        var j :| 0 <= j < n - 1 && stores[..n - 1][j] == r;
        assert stores[j] == r;
      }
    } else {
      var j :| 0 <= j < n - 1 && stores[j].registrationId == last.registrationId;
      assert stores[..n - 1][j] == stores[j];
    }
  }

  /** Storing a sequence of registrations for one user, starting from nothing,
      leaves exactly one entry per distinct registration id, the first one
      stored, in first-insertion order. */
  lemma {:induction false} StoredAllKeepsFirstOccurrences(stores: seq<Registration>, n: nat)
    requires n <= |stores|
    ensures StoredAll([], stores[..n]) == FirstOccurrences(stores, n)
  {
    if n > 0 {
      StoredAllKeepsFirstOccurrences(stores, n - 1);
      assert StoredAll([], stores[..n]) == Stored(StoredAll([], stores[..n - 1]), stores[n - 1]) by {
        assert stores[..n][..n - 1] == stores[..n - 1];
      }
      FirstOccurrencesIds(stores, n - 1);
      FirstOccurrenceIsNewId(stores, n);
    }
  }

  /** Removal takes out one element when there is one equal to `registration`
      and nothing otherwise, and adds nothing. */
  lemma {:induction false} RemovedShrinks(regs: seq<Registration>, registration: Registration)
    ensures |Removed(regs, registration)| == if registration in regs then |regs| - 1 else |regs|
    ensures forall x :: x in Removed(regs, registration) ==> x in regs
  {
    if regs != [] && regs[0] != registration {
      RemovedShrinks(regs[1..], registration);
      assert registration in regs <==> registration in regs[1..];
    }
  }

  /** Removing a registration from a list that holds it exactly once cuts it
      out and keeps the rest in order. */
  lemma {:induction false} RemovedCutsOut(before: seq<Registration>, x: Registration, after: seq<Registration>)
    requires x !in before
    ensures Removed(before + [x] + after, x) == before + after
  {
    if before != [] {
      assert (before + [x] + after)[1..] == before[1..] + [x] + after;
      RemovedCutsOut(before[1..], x, after);
      assert before == [before[0]] + before[1..];
    }
  }

  /** Removal keeps ids unique, keeps the owner of every element, and with
      unique ids leaves no element equal to the removed one: a second removal
      changes nothing. */
  lemma RemovedKeepsWellKeyed(userId: string, regs: seq<Registration>, registration: Registration)
    requires WellKeyed(userId, regs)
    ensures WellKeyed(userId, Removed(regs, registration))
    ensures registration !in Removed(regs, registration)
    ensures Removed(Removed(regs, registration), registration) == Removed(regs, registration)
  {
    if registration !in regs {
      NotPresentRemovedIsNoOp(regs, registration);
    } else {
      var k :| 0 <= k < |regs| && regs[k] == registration;
      var before, after := regs[..k], regs[k + 1..];
      CutKeepsWellKeyed(userId, regs, k);
      assert regs == before + [registration] + after;
      RemovedCutsOut(before, registration, after);
      NotPresentRemovedIsNoOp(before + after, registration);
    }
  }

  /** Cutting one element out of a well-keyed list keeps it well keyed and
      leaves no element equal to the one cut out, nor any before it. */
  lemma CutKeepsWellKeyed(userId: string, regs: seq<Registration>, k: nat)
    requires WellKeyed(userId, regs) && k < |regs|
    ensures WellKeyed(userId, regs[..k] + regs[k + 1..])
    ensures regs[k] !in regs[..k] + regs[k + 1..]
    ensures regs[k] !in regs[..k]
  {
    var r := regs[..k] + regs[k + 1..];
    forall i | 0 <= i < |r| ensures r[i] == regs[if i < k then i else i + 1] {
    }
  }



  /** Removing an element that is not there changes nothing. */
  lemma {:induction false} NotPresentRemovedIsNoOp(regs: seq<Registration>, registration: Registration)
    requires registration !in regs
    ensures Removed(regs, registration) == regs
  {
    if regs != [] {
      assert registration !in regs[1..];
      NotPresentRemovedIsNoOp(regs[1..], registration);
    }
  }

  // ---------------------------------------------------------------------------
  // The repository object

  class RegistrationRepository {
    /** user id -> that user's registrations, in insertion order */
    var registrations: map<string, seq<Registration>>

    /** Every user's list holds only that user's registrations, ids unique. */
    ghost predicate Valid()
      reads this
    {
      forall userId :: userId in registrations ==> WellKeyed(userId, registrations[userId])
    }

    /** The user's list, empty for an unknown user. */
    function Lookup(userId: string): seq<Registration>
      reads this
    {
      if userId in registrations then registrations[userId] else []
    }

    constructor ()
      ensures Valid()
      ensures registrations == map[]
    {
      registrations := map[];
    }

    /** Adds `registration` to its user's list unless that list already holds
        its registration id; creates the list for an unknown user. */
    method StoreRegistration(registration: Registration)
      requires Valid()
      modifies this
      ensures Valid()
      ensures registrations == old(registrations)[registration.userId := Stored(old(Lookup(registration.userId)), registration)]
    {
      var userId := registration.userId;
      ghost var previous := Lookup(userId);
      var userRegistrations: seq<Registration>;
      if userId !in registrations {
        userRegistrations := [registration];
        registrations := registrations[userId := userRegistrations];
      } else {
        userRegistrations := registrations[userId];
      }
      var existing := FirstWhere(userRegistrations, (r: Registration) => r.registrationId == registration.registrationId);
      if existing.None? {
        assert registration.registrationId !in Ids(userRegistrations) by {
          forall r | r in userRegistrations ensures r.registrationId != registration.registrationId {
            var j :| 0 <= j < |userRegistrations| && userRegistrations[j] == r;
          }
        }
        userRegistrations := userRegistrations + [registration];
        registrations := registrations[userId := userRegistrations];
      }
      assert userRegistrations == Stored(previous, registration) by {
        if existing.Some? && userId in old(registrations) {
          var i :| IsFirstWhere(userRegistrations, (r: Registration) => r.registrationId == registration.registrationId, i);
          assert userRegistrations[i] in previous;
        } else if existing.Some? {
          assert [] + [registration] == [registration];
        }
      }
      assert WellKeyed(userId, userRegistrations) by {
        StoredKeepsUniqueIds(previous, registration);
      }
    }

    /** Removes the element equal to `registration` from its user's list; does
        nothing for an unknown user or an absent element. */
    method RemoveRegistration(registration: Registration)
      requires Valid()
      modifies this
      ensures Valid()
      ensures registrations ==
        if registration.userId in old(registrations)
        then old(registrations)[registration.userId := Removed(old(registrations)[registration.userId], registration)]
        else old(registrations)
    {
      var userId := registration.userId;
      if userId in registrations {
        RemovedKeepsWellKeyed(userId, registrations[userId], registration);
        registrations := registrations[userId := Removed(registrations[userId], registration)];
      }
    }

    /** A copy of the user's list (empty for an unknown user): every element
        belongs to the user and carries a distinct registration id. */
    method GetRegistrations(userId: string) returns (snapshot: seq<Registration>)
      requires Valid()
      ensures snapshot == Lookup(userId)
      ensures WellKeyed(userId, snapshot)
      ensures userId !in registrations ==> snapshot == []
    {
      snapshot := if userId in registrations then registrations[userId] else [];
    }
  }
}

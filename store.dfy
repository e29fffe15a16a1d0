/** The `camps`, `participants` and `users` collections of the medical-camp
    server, held by one store object, and the request handlers that read
    and change them. Each handler is one method; the collection operations
    it performs (`findOne`, `insertOne`, `updateOne` with `$inc` or `$set`,
    `deleteOne`) are the steps of its body. */
module CampStore {
  import opened Documents
  import opened Records

  /** How many camps `/popular-camps` returns. */
  const PopularLimit: nat := 6

  const AllFieldsRequired := "All fields are required."
  const RegistrationFailed := "Internal server error"
  const InvalidParticipantId := "Invalid participant ID format"
  const ProfileNotUpdated := "Participant not found or no changes made"
  const NotFoundOrConfirmed := "Participant not found or already confirmed"
  const ConfirmFailed := "Error confirming registration"
  const ParticipantNotFound := "Participant not found"
  const CancelLocked := "Cannot cancel a confirmed and paid registration"
  const CancelFailed := "Error canceling registration"

  class Store {
    /** The driver's `ObjectId` parsing of hex strings. */
    const parse: IdParser

    var camps: map<Oid, Camp>
    var participants: map<Oid, Doc>
    var users: map<Oid, Doc>

    constructor (parse: IdParser)
      ensures this.parse == parse
      ensures camps == map[] && participants == map[] && users == map[]
    {
      this.parse := parse;
      camps, participants, users := map[], map[], map[];
    }

    /** An ObjectId fit for an insert: the driver's guarantee that no
        document already has it. A stored `campId` may still name it, since
        ObjectIds are predictable. */
    ghost predicate Unused(id: Oid)
      reads this
    {
      id !in camps && id !in participants && id !in users
    }

    /** Every camp's counter equals the number of its participants. */
    ghost predicate CountsHold()
      reads this
    {
      CountsAgree(parse, camps, participants)
    }

    ghost predicate UsersUnique()
      reads this
    {
      EmailsUnique(users)
    }

    // ------------------------------------------------ collection operations

    /** `campsCollection.updateOne({ _id: c }, { $inc: { participantCount: delta } })`. */
    method IncrementCount(c: Oid, delta: int)
      modifies this`camps
      ensures camps == Inc(old(camps), Some(c), delta)
    {
      if c in camps {
        var camp := camps[c];
        camps := camps[c := camp.(participantCount := camp.participantCount + delta)];
      }
    }

    /** `participantsCollection.updateOne({ _id: id }, { $set: patch })`;
        `modified` is `modifiedCount > 0`. */
    method UpdateParticipant(id: Oid, patch: Doc) returns (modified: bool)
      modifies this`participants
      ensures modified == (id in old(participants) && SetFields(old(participants)[id], patch) != old(participants)[id])
      ensures participants ==
        if modified then old(participants)[id := SetFields(old(participants)[id], patch)] else old(participants)
    {
      modified := false;
      if id in participants {
        var updated := SetFields(participants[id], patch);
        if updated != participants[id] {
          participants := participants[id := updated];
          modified := true;
        }
      }
    }

    // ------------------------------------------------------------- handlers

    /** `POST /users`: insert the user unless one with the same email
        exists; `insertedId` is `null` in that case. */
    method UpsertUser(newUser: Doc, newId: Oid) returns (insertedId: Option<Oid>)
      requires Unused(newId)
      modifies this`users
      ensures EmailTaken(old(users), EmailKey(newUser)) ==> insertedId == None && users == old(users)
      ensures !EmailTaken(old(users), EmailKey(newUser)) ==>
        insertedId == Some(newId) && users == old(users)[newId := newUser] && |users| == |old(users)| + 1
      ensures old(UsersUnique()) ==> UsersUnique()
    {
      if EmailTaken(users, EmailKey(newUser)) {
        insertedId := None;
      } else {
        if UsersUnique() {
          UpsertKeepsEmailsUnique(users, newId, newUser);
        }
        users := users[newId := newUser];
        insertedId := Some(newId);
      }
    }

    /** `POST /add-camp`: reject a body missing any of the seven fields,
        otherwise insert the camp with a zero participant count. The counts stay right
        unless a participant registered earlier already names the new id. */
    method AddCamp(body: Doc, now: Timestamp, newId: Oid) returns (r: Result<Oid>)
      requires Unused(newId)
      modifies this`camps
      ensures !CampBodyComplete(body) ==> r == Err(BadRequest(AllFieldsRequired)) && camps == old(camps)
      ensures CampBodyComplete(body) ==>
        && r == Ok(newId)
        && camps == old(camps)[newId := NewCamp(body, now)]
        && camps[newId].participantCount == 0
        && |camps| == |old(camps)| + 1
      ensures old(CountsHold()) && Unreferenced(parse, old(participants), newId) ==> CountsHold()
      ensures old(CountsHold()) && !Unreferenced(parse, old(participants), newId) && CampBodyComplete(body) ==>
        !CountsHold()
    {
      if !CampBodyComplete(body) {
        return Err(BadRequest(AllFieldsRequired));
      }
      var camp := NewCamp(body, now);
      if CountsHold() {
        if Unreferenced(parse, participants, newId) {
          AddCampKeepsCounts(parse, camps, participants, newId, camp);
        } else {
          AddCampUnderReferencedIdBreaksCounts(parse, camps, participants, newId, camp);
        }
      }
      camps := camps[newId := camp];
      r := Ok(newId);
    }

    /** The camp with the largest `participantCount` among `among`: one step
        of sorting the camps by that field, descending. */
    method MostPopular(among: set<Oid>) returns (best: Oid)
      requires among != {} && among <= camps.Keys
      ensures best in among
      ensures forall c :: c in among ==> camps[c].participantCount <= camps[best].participantCount
    {
      best :| best in among;
      var unseen := among - {best};
      while unseen != {}
        invariant unseen <= among && best in among
        invariant forall c :: c in among - unseen ==> camps[c].participantCount <= camps[best].participantCount
        decreases unseen
      {
        var c :| c in unseen;
        if camps[c].participantCount > camps[best].participantCount {
          best := c;
        }
        unseen := unseen - {c};
      }
    }

    /** `GET /popular-camps`: the camps sorted by `participantCount`
        descending, limited to six. Camps with equal counts may come in any
        order. */
    method PopularCamps() returns (top: seq<Oid>)
      ensures |top| == if |camps| < PopularLimit then |camps| else PopularLimit
      ensures forall i :: 0 <= i < |top| ==> top[i] in camps
      ensures forall i, j :: 0 <= i < j < |top| ==> top[i] != top[j]
      ensures forall i, j :: 0 <= i < j < |top| ==>
        camps[top[i]].participantCount >= camps[top[j]].participantCount
      ensures forall c, i :: c in camps && c !in top && 0 <= i < |top| ==>
        camps[c].participantCount <= camps[top[i]].participantCount
    {
      top := [];
      var rest := camps.Keys;
      while |top| < PopularLimit && rest != {}
        invariant rest <= camps.Keys
        invariant |top| <= PopularLimit
        invariant |rest| == |camps.Keys| - |top|
        invariant forall c :: c in camps ==> (c in rest <==> c !in top)
        invariant forall i :: 0 <= i < |top| ==> top[i] in camps
        invariant forall i, j :: 0 <= i < j < |top| ==> top[i] != top[j]
        invariant forall i, j :: 0 <= i < j < |top| ==>
          camps[top[i]].participantCount >= camps[top[j]].participantCount
        invariant forall c, i :: c in rest && 0 <= i < |top| ==>
          camps[c].participantCount <= camps[top[i]].participantCount
        decreases rest
      {
        var best := MostPopular(rest);
        top := top + [best];
        rest := rest - {best};
      }
    }

    /** `POST /participants`: store the body as it is (no duplicate check,
        no default statuses), then add one to the named camp's counter.
        When `campId` cannot be turned into an ObjectId the insert has
        already happened and the reply is a 500. */
    method Register(participant: Doc, newId: Oid) returns (r: Result<Oid>)
      requires Unused(newId)
      modifies this`participants, this`camps
      ensures participants == old(participants)[newId := participant]
      ensures |participants| == |old(participants)| + 1
      ensures camps == Inc(old(camps), Target(parse, participant), 1)
      ensures r == if ObjectIdOf(parse, Field(participant, "campId")).None?
                   then Err(Internal(RegistrationFailed)) else Ok(newId)
      ensures old(CountsHold()) ==> CountsHold()
    {
      if CountsHold() {
        RegisterKeepsCounts(parse, camps, participants, newId, participant);
      }
      participants := participants[newId := participant];
      var filter := ObjectIdOf(parse, Field(participant, "campId"));
      if filter.None? {
        r := Err(Internal(RegistrationFailed));
      } else {
        if filter.value.Matches? {
          IncrementCount(filter.value.oid, 1);
        }
        r := Ok(newId);
      }
    }

    /** `PUT /participants/:id`: `$set` the body's fields on the record;
        404 when no record was modified. */
    method UpdateProfile(idText: string, updatedInfo: Doc) returns (r: Result<()>)
      modifies this`participants
      ensures parse(idText).None? ==>
        r == Err(BadRequest(InvalidParticipantId)) && participants == old(participants)
      ensures parse(idText).Some? ==>
        var id := parse(idText).value;
        var modified := id in old(participants) && SetFields(old(participants)[id], updatedInfo) != old(participants)[id];
        && participants == (if modified then old(participants)[id := SetFields(old(participants)[id], updatedInfo)]
                            else old(participants))
        && r == (if modified then Ok(()) else Err(NotFound(ProfileNotUpdated)))
      ensures old(CountsHold()) && "campId" !in updatedInfo ==> CountsHold()
    {
      var parsed := parse(idText);
      if parsed.None? {
        return Err(BadRequest(InvalidParticipantId));
      }
      var id := parsed.value;
      if CountsHold() && "campId" !in updatedInfo && id in participants {
        SetWithoutCampIdKeepsCounts(parse, camps, participants, id, updatedInfo);
      }
      var modified := UpdateParticipant(id, updatedInfo);
      r := if modified then Ok(()) else Err(NotFound(ProfileNotUpdated));
    }

    /** `PUT /confirm-registration/:id`: set `confirmationStatus` to
        `'Confirmed'`; a missing record and an already confirmed one give
        the same 404. */
    method Confirm(idText: string) returns (r: Result<()>)
      modifies this`participants
      ensures parse(idText).None? ==>
        r == Err(Internal(ConfirmFailed)) && participants == old(participants)
      ensures parse(idText).Some? ==>
        var id := parse(idText).value;
        var pending := id in old(participants) && !IsConfirmed(old(participants)[id]);
        && participants == (if pending then old(participants)[id := SetFields(old(participants)[id], ConfirmPatch)]
                            else old(participants))
        && r == (if pending then Ok(()) else Err(NotFound(NotFoundOrConfirmed)))
      ensures parse(idText).Some? && parse(idText).value in participants ==>
        IsConfirmed(participants[parse(idText).value])
      ensures old(CountsHold()) ==> CountsHold()
    {
      var parsed := parse(idText);
      if parsed.None? {
        return Err(Internal(ConfirmFailed));
      }
      var id := parsed.value;
      if id in participants {
        ConfirmChangesIffPending(participants[id]);
        if CountsHold() {
          SetWithoutCampIdKeepsCounts(parse, camps, participants, id, ConfirmPatch);
        }
      }
      var modified := UpdateParticipant(id, ConfirmPatch);
      r := if modified then Ok(()) else Err(NotFound(NotFoundOrConfirmed));
    }

    /** `DELETE /cancel-registration/:id`: refuse a missing record and a
        paid-and-confirmed one; otherwise delete the record, then subtract
        one from its camp's counter. When the record's `campId` cannot be
        turned into an ObjectId the delete has already happened and the
        reply is a 500. */
    method Cancel(idText: string) returns (r: Result<()>)
      modifies this`participants, this`camps
      ensures parse(idText).None? ==>
        r == Err(Internal(CancelFailed)) && participants == old(participants) && camps == old(camps)
      ensures parse(idText).Some? && parse(idText).value !in old(participants) ==>
        r == Err(NotFound(ParticipantNotFound)) && participants == old(participants) && camps == old(camps)
      ensures parse(idText).Some? && parse(idText).value in old(participants) ==>
        var id := parse(idText).value;
        var record := old(participants)[id];
        if Locked(record) then
          r == Err(BadRequest(CancelLocked)) && participants == old(participants) && camps == old(camps)
        else
          && participants == old(participants) - {id}
          && |participants| == |old(participants)| - 1
          && camps == Inc(old(camps), Target(parse, record), -1)
          && r == (if ObjectIdOf(parse, Field(record, "campId")).None? then Err(Internal(CancelFailed)) else Ok(()))
      ensures old(CountsHold()) ==> CountsHold()
    {
      var parsed := parse(idText);
      if parsed.None? {
        return Err(Internal(CancelFailed));
      }
      var id := parsed.value;
      if id !in participants {
        return Err(NotFound(ParticipantNotFound));
      }
      var participant := participants[id];
      if Locked(participant) {
        return Err(BadRequest(CancelLocked));
      }
      if CountsHold() {
        CancelKeepsCounts(parse, camps, participants, id);
      }
      participants := participants - {id};
      var filter := ObjectIdOf(parse, Field(participant, "campId"));
      if filter.None? {
        r := Err(Internal(CancelFailed));
      } else {
        if filter.value.Matches? {
          IncrementCount(filter.value.oid, -1);
        }
        r := Ok(());
      }
    }
  }

  /** The ids a client uses in the scenarios below: camp "c" and
      participants "p" and "q". */
  function ScenarioIds(s: string): Option<Oid>
  {
    if s == "c" then Some(1) else if s == "p" then Some(2) else if s == "q" then Some(3) else None
  }

  /** A store holding one camp (id 1) with no participants. */
  method OneCampStore() returns (store: Store)
    ensures fresh(store) && store.parse == ScenarioIds
    ensures store.camps.Keys == {1} && store.camps[1].participantCount == 0
    ensures store.participants == map[] && store.users == map[]
    ensures store.CountsHold()
  {
    store := new Store(ScenarioIds);
    var campBody := map["campName" := Text("Eye check"), "image" := Text("eye.png"), "campFees" := Number(50.0),
                        "dateTime" := Text("2025-01-10"), "location" := Text("Dhaka"),
                        "healthcareProfessional" := Text("Dr. Rahman"), "description" := Text("Free eye test")];
    var added := store.AddCamp(campBody, 0, 1);
    assert added == Ok(1);
    var rejected := store.AddCamp(campBody["image" := Text("")], 0, 7);
    assert rejected == Err(BadRequest(AllFieldsRequired));
  }

  /** A registration that names camp "c" and carries no status fields. */
  const PendingRegistration: Doc := map["email" := Text("a@example.com"), "campId" := Text("c")]

  /** A registration for camp "c" that is already marked as paid. */
  const PaidRegistration: Doc :=
    map["email" := Text("b@example.com"), "campId" := Text("c"), "paymentStatus" := Text("Paid")]

  /** What the two scenario registrations say before and after a confirm. */
  lemma PendingRegistrationFacts()
    ensures Target(ScenarioIds, PendingRegistration) == Some(1)
    ensures !IsConfirmed(PendingRegistration)
    ensures Target(ScenarioIds, SetFields(PendingRegistration, ConfirmPatch)) == Some(1)
    ensures !Locked(SetFields(PendingRegistration, ConfirmPatch))
    ensures ObjectIdOf(ScenarioIds, Field(SetFields(PendingRegistration, ConfirmPatch), "campId")) == Some(Matches(1))
  {
    assert Field(PendingRegistration, "campId") == Some(Text("c"));
    assert Field(SetFields(PendingRegistration, ConfirmPatch), "campId") == Some(Text("c"));
    assert "paymentStatus" !in SetFields(PendingRegistration, ConfirmPatch);
  }

  lemma PaidRegistrationFacts()
    ensures Target(ScenarioIds, PaidRegistration) == Some(1)
    ensures !IsConfirmed(PaidRegistration)
    ensures Locked(SetFields(PaidRegistration, ConfirmPatch))
  {
    assert Field(PaidRegistration, "campId") == Some(Text("c"));
  }

  /** Two identical registrations are both stored and both counted: no
      duplicate check. */
  method DuplicateRegistrationsCounted()
  {
    var store := OneCampStore();
    PendingRegistrationFacts();
    var first := store.Register(PendingRegistration, 2);
    var again := store.Register(PendingRegistration, 3);
    assert first == Ok(2) && again == Ok(3);
    assert store.camps[1].participantCount == 2 && |store.participants| == 2;
  }

  /** A store holding camp 1 and the single registration `record` under
      id `id`, counted for camp 1. */
  method OneRegistrationStore(record: Doc, id: Oid) returns (store: Store)
    requires id != 1 && Target(ScenarioIds, record) == Some(1)
    ensures fresh(store) && store.parse == ScenarioIds
    ensures store.camps.Keys == {1} && store.camps[1].participantCount == 1
    ensures store.participants == map[id := record]
  {
    store := OneCampStore();
    var registered := store.Register(record, id);
  }

  /** Confirming twice fails the second time and leaves the record as the
      first call left it. */
  method ConfirmTwice()
  {
    PendingRegistrationFacts();
    var store := OneRegistrationStore(PendingRegistration, 2);
    assert ScenarioIds("p") == Some(2);
    var confirmed := store.Confirm("p");
    assert confirmed == Ok(());
    var afterFirst := store.participants;
    var twice := store.Confirm("p");
    assert twice == Err(NotFound(NotFoundOrConfirmed));
    assert store.participants == afterFirst;
  }

  /** A confirmed but unpaid registration can still be cancelled, and its
      camp's counter drops back to zero. */
  method ConfirmedUnpaidCancels()
  {
    PendingRegistrationFacts();
    var store := OneRegistrationStore(PendingRegistration, 2);
    assert ScenarioIds("p") == Some(2);
    var confirmed := store.Confirm("p");
    assert store.participants[2] == SetFields(PendingRegistration, ConfirmPatch);
    var cancelled := store.Cancel("p");
    assert cancelled == Ok(());
    assert store.camps[1].participantCount == 0 && 2 !in store.participants;
  }

  /** A paid and confirmed registration cannot be cancelled, and the
      refusal leaves the count as it was. */
  method PaidAndConfirmedIsLocked()
  {
    PaidRegistrationFacts();
    var store := OneRegistrationStore(PaidRegistration, 3);
    assert ScenarioIds("q") == Some(3);
    var confirmed := store.Confirm("q");
    assert store.participants[3] == SetFields(PaidRegistration, ConfirmPatch);
    var locked := store.Cancel("q");
    assert locked == Err(BadRequest(CancelLocked));
    assert store.camps[1].participantCount == 1 && 3 in store.participants;
  }
}

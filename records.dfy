/** The records the handlers keep: camps, participants (stored as the
    documents they were registered with) and users; the error replies; and
    the bookkeeping invariant that a camp's `participantCount` equals the
    number of participants that reference it. */
module Records {
  import opened Documents

  /** Milliseconds since the epoch, as `new Date()` reads the clock. */
  type Timestamp = nat

  /** A camp as `/add-camp` stores it. The fee and the date are kept as the
      values the request carried: `parseFloat` and `new Date(...)` are not
      modelled. */
  datatype Camp = Camp(
    campName: Value,
    image: Value,
    campFees: Value,
    dateTime: Value,
    location: Value,
    healthcareProfessional: Value,
    participantCount: int,
    description: Value,
    createdAt: Timestamp)

  /** The error replies of the handlers with their bodies' `message`. */
  datatype Error =
    | BadRequest(message: string)   // status 400
    | NotFound(message: string)     // status 404
    | Internal(message: string)     // status 500

  datatype Result<+T> = Ok(value: T) | Err(error: Error)

  // ---------------------------------------------------------------- camps

  /** The seven fields `/add-camp` destructures from the body. */
  const RequiredCampFields: seq<string> :=
    ["campName", "image", "campFees", "dateTime", "location", "healthcareProfessional", "description"]

  /** The seven fields `/add-camp` demands, each checked with `!x`: the
      body is complete exactly when every required field is present and
      truthy. */
  predicate CampBodyComplete(body: Doc)
    ensures CampBodyComplete(body) <==> forall f :: f in RequiredCampFields ==> Truthy(Field(body, f))
    ensures CampBodyComplete(body) ==> forall f :: f in RequiredCampFields ==> f in body
  {
    && Truthy(Field(body, "campName"))
    && Truthy(Field(body, "image"))
    && Truthy(Field(body, "campFees"))
    && Truthy(Field(body, "dateTime"))
    && Truthy(Field(body, "location"))
    && Truthy(Field(body, "healthcareProfessional"))
    && Truthy(Field(body, "description"))
  }

  /** The camp `/add-camp` builds from a complete body at time `now`. */
  function NewCamp(body: Doc, now: Timestamp): (c: Camp)
    requires CampBodyComplete(body)
    ensures c.participantCount == 0
    ensures c.createdAt == now
    ensures Some(c.campName) == Field(body, "campName") && Some(c.image) == Field(body, "image")
    ensures Some(c.campFees) == Field(body, "campFees") && Some(c.dateTime) == Field(body, "dateTime")
    ensures Some(c.location) == Field(body, "location") && Some(c.description) == Field(body, "description")
    ensures Some(c.healthcareProfessional) == Field(body, "healthcareProfessional")
  {
    Camp(body["campName"], body["image"], body["campFees"], body["dateTime"], body["location"],
         body["healthcareProfessional"], 0, body["description"], now)
  }

  /** `updateOne({ _id: c }, { $inc: { participantCount: delta } })` on the
      camps: a no-op when no camp has id `c`, and no lower bound. */
  function Inc(camps: map<Oid, Camp>, target: Option<Oid>, delta: int): (r: map<Oid, Camp>)
    ensures r.Keys == camps.Keys
    ensures forall c :: c in camps && target != Some(c) ==> r[c] == camps[c]
    ensures forall c :: c in camps && target == Some(c) ==>
      r[c] == camps[c].(participantCount := camps[c].participantCount + delta)
  {
    match target
    case None => camps
    case Some(c) =>
      if c in camps then camps[c := camps[c].(participantCount := camps[c].participantCount + delta)]
      else camps
  }

  // --------------------------------------------------------- participants

  /** The camp a participant document names in its `campId` field, when
      `new ObjectId(participant.campId)` parses it to a stored id. */
  function Target(parse: IdParser, d: Doc): (t: Option<Oid>)
    ensures forall c: Oid :: t == Some(c) <==> "campId" in d && d["campId"].Text? && parse(d["campId"].s) == Some(c)
  {
    match ObjectIdOf(parse, Field(d, "campId"))
    case Some(Matches(c)) => Some(c)
    case _ => None
  }

  /** The ids of the participants that reference camp `c`. */
  ghost function Registrations(parse: IdParser, ps: map<Oid, Doc>, c: Oid): set<Oid>
  {
    set p | p in ps && Target(parse, ps[p]) == Some(c)
  }

  /** The bookkeeping invariant: every camp's counter is the number of
      participants that reference it. */
  ghost predicate CountsAgree(parse: IdParser, camps: map<Oid, Camp>, ps: map<Oid, Doc>)
  {
    forall c :: c in camps ==> camps[c].participantCount == |Registrations(parse, ps, c)|
  }

  /** An id no participant references. */
  ghost predicate Unreferenced(parse: IdParser, ps: map<Oid, Doc>, id: Oid)
  {
    forall p :: p in ps ==> Target(parse, ps[p]) != Some(id)
  }

  /** A registration that is both paid and confirmed may not be cancelled.
      Either status alone does not lock it; the comparison is `===` on the
      stored strings. */
  predicate Locked(d: Doc)
    ensures Locked(d) <==> IsConfirmed(d) && "paymentStatus" in d && d["paymentStatus"] == Text("Paid")
  {
    Field(d, "paymentStatus") == Some(Text("Paid")) && Field(d, "confirmationStatus") == Some(Text("Confirmed"))
  }

  /** The `$set` document `/confirm-registration` applies. */
  const ConfirmPatch: Doc := map["confirmationStatus" := Text("Confirmed")]

  /** A record is confirmed exactly when the confirm `$set` would leave it
      as it is. */
  predicate IsConfirmed(d: Doc)
    ensures IsConfirmed(d) <==> SetFields(d, ConfirmPatch) == d
  {
    Field(d, "confirmationStatus") == Some(Text("Confirmed"))
  }

  // ---------------------------------------------------------------- users

  /** The value the query `{ email: newUser.email }` looks for: an absent
      email is sent as `null`, which also matches documents without one. */
  function EmailKey(d: Doc): Value
  {
    if "email" in d then d["email"] else Null
  }

  /** No two users share an email (as the upsert's query compares them). */
  ghost predicate EmailsUnique(users: map<Oid, Doc>)
  {
    forall u, v :: u in users && v in users && u != v ==> EmailKey(users[u]) != EmailKey(users[v])
  }

  /** `findOne({ email: e })` finds a user: one whose email is `e`, or,
      when `e` is `null`, one whose email is `null` or missing. */
  predicate EmailTaken(users: map<Oid, Doc>, e: Value)
    ensures EmailTaken(users, e) <==>
      exists u :: u in users &&
        (if e == Null then "email" !in users[u] || users[u]["email"] == Null
         else "email" in users[u] && users[u]["email"] == e)
  {
    exists u :: u in users && EmailKey(users[u]) == e
  }

  // --------------------------------------------------------------- lemmas

  /** Inserting a participant adds it to the registrations of the camp it
      names and of no other. */
  lemma {:induction false} RegistrationsInsert(parse: IdParser, ps: map<Oid, Doc>, id: Oid, d: Doc, c: Oid)
    requires id !in ps
    ensures |Registrations(parse, ps[id := d], c)| ==
            |Registrations(parse, ps, c)| + (if Target(parse, d) == Some(c) then 1 else 0)
  {
    var before := Registrations(parse, ps, c);
    var added: set<Oid> := if Target(parse, d) == Some(c) then {id} else {};
    RegistrationsInsertSet(parse, ps, id, d, c);
    assert id !in before;
    assert |before + added| == |before| + |added|;
  }

  lemma {:induction false} RegistrationsInsertSet(parse: IdParser, ps: map<Oid, Doc>, id: Oid, d: Doc, c: Oid)
    requires id !in ps
    ensures Registrations(parse, ps[id := d], c) ==
            Registrations(parse, ps, c) + (if Target(parse, d) == Some(c) then {id} else {})
  {
    var ps' := ps[id := d];
    forall p | p in ps
      ensures ps'[p] == ps[p]
    {
    }
  }

  /** Deleting a participant removes it from the registrations of the camp
      it names and of no other. */
  lemma {:induction false} RegistrationsRemove(parse: IdParser, ps: map<Oid, Doc>, id: Oid, c: Oid)
    requires id in ps
    ensures |Registrations(parse, ps - {id}, c)| ==
            |Registrations(parse, ps, c)| - (if Target(parse, ps[id]) == Some(c) then 1 else 0)
  {
    var before := Registrations(parse, ps, c);
    var after := Registrations(parse, ps - {id}, c);
    forall p
      ensures p in after <==> p in before && p != id
    {
      if p in ps && p != id {
        assert (ps - {id})[p] == ps[p];
      }
    }
    assert after == before - {id};
    if Target(parse, ps[id]) == Some(c) {
      assert id in before;
    } else {
      assert id !in before;
    }
  }

  /** Replacing a participant record by one that names the same camp leaves
      every camp's registrations as they were. */
  lemma RegistrationsReplaceSameCamp(parse: IdParser, ps: map<Oid, Doc>, id: Oid, d: Doc, c: Oid)
    requires id in ps
    requires Target(parse, d) == Target(parse, ps[id])
    ensures Registrations(parse, ps[id := d], c) == Registrations(parse, ps, c)
  {
  }

  /** `POST /participants` keeps the counts right: the new record is counted
      once, for the camp it names, and that camp's counter goes up by one. */
  lemma {:induction false} RegisterKeepsCounts(parse: IdParser, camps: map<Oid, Camp>, ps: map<Oid, Doc>, id: Oid, d: Doc)
    requires CountsAgree(parse, camps, ps)
    requires id !in ps
    ensures CountsAgree(parse, Inc(camps, Target(parse, d), 1), ps[id := d])
  {
    var camps' := Inc(camps, Target(parse, d), 1);
    forall c | c in camps'
      ensures camps'[c].participantCount == |Registrations(parse, ps[id := d], c)|
    {
      RegistrationsInsert(parse, ps, id, d, c);
    }
  }

  /** `DELETE /cancel-registration/:id` keeps the counts right: the deleted
      record stops being counted and its camp's counter goes down by one. */
  lemma {:induction false} CancelKeepsCounts(parse: IdParser, camps: map<Oid, Camp>, ps: map<Oid, Doc>, id: Oid)
    requires CountsAgree(parse, camps, ps)
    requires id in ps
    ensures CountsAgree(parse, Inc(camps, Target(parse, ps[id]), -1), ps - {id})
  {
    var camps' := Inc(camps, Target(parse, ps[id]), -1);
    forall c | c in camps'
      ensures camps'[c].participantCount == |Registrations(parse, ps - {id}, c)|
    {
      RegistrationsRemove(parse, ps, id, c);
    }
  }

  /** A `$set` that does not write `campId` leaves every count right; this
      covers `/confirm-registration`. */
  lemma {:induction false} SetWithoutCampIdKeepsCounts(parse: IdParser, camps: map<Oid, Camp>, ps: map<Oid, Doc>, id: Oid, patch: Doc)
    requires CountsAgree(parse, camps, ps)
    requires id in ps
    requires "campId" !in patch
    ensures CountsAgree(parse, camps, ps[id := SetFields(ps[id], patch)])
  {
    var d := SetFields(ps[id], patch);
    assert Field(d, "campId") == Field(ps[id], "campId");
    forall c | c in camps
      ensures camps[c].participantCount == |Registrations(parse, ps[id := d], c)|
    {
      RegistrationsReplaceSameCamp(parse, ps, id, d, c);
    }
  }

  /** `PUT /participants/:id` can break the counts: a `$set` that rewrites
      `campId` away from a camp leaves that camp's counter one too high. */
  lemma {:induction false} ProfileEditCanBreakCounts(parse: IdParser, camps: map<Oid, Camp>, ps: map<Oid, Doc>, id: Oid, patch: Doc)
    requires CountsAgree(parse, camps, ps)
    requires id in ps
    requires Target(parse, ps[id]).Some? && Target(parse, ps[id]).value in camps
    requires patch == map["campId" := Null]
    ensures !CountsAgree(parse, camps, ps[id := SetFields(ps[id], patch)])
  {
    var c := Target(parse, ps[id]).value;
    var d := SetFields(ps[id], patch);
    assert Target(parse, d) == None;
    RegistrationsRemove(parse, ps, id, c);
    RegistrationsInsert(parse, ps - {id}, id, d, c);
    assert (ps - {id})[id := d] == ps[id := d];
  }

  /** Incrementing a camp's counter without creating a participant breaks
      the counts. `POST /join-camp/:campId` would do that if its `ObjectId`
      reference resolved; as written it replies 500 and changes nothing. */
  lemma BareIncrementBreaksCounts(parse: IdParser, camps: map<Oid, Camp>, ps: map<Oid, Doc>, c: Oid)
    requires CountsAgree(parse, camps, ps)
    requires c in camps
    ensures !CountsAgree(parse, Inc(camps, Some(c), 1), ps)
  {
  }

  /** `POST /add-camp` keeps the counts right when no participant already
      references the new id: the new camp starts at zero. */
  lemma AddCampKeepsCounts(parse: IdParser, camps: map<Oid, Camp>, ps: map<Oid, Doc>, id: Oid, camp: Camp)
    requires CountsAgree(parse, camps, ps)
    requires Unreferenced(parse, ps, id)
    requires camp.participantCount == 0
    ensures CountsAgree(parse, camps[id := camp], ps)
  {
  }

  /** A participant registered earlier may already name the id the driver
      generates for a new camp, since ObjectIds are predictable. The new
      camp then starts at zero while it has a registration, and the counts
      break. */
  lemma AddCampUnderReferencedIdBreaksCounts(parse: IdParser, camps: map<Oid, Camp>, ps: map<Oid, Doc>, id: Oid, camp: Camp)
    requires CountsAgree(parse, camps, ps)
    requires !Unreferenced(parse, ps, id)
    requires camp.participantCount == 0
    ensures !CountsAgree(parse, camps[id := camp], ps)
  {
    var p :| p in ps && Target(parse, ps[p]) == Some(id);
    assert p in Registrations(parse, ps, id);
  }

  /** Confirming changes the record exactly when it is not yet confirmed, and
      a confirmed record stays confirmed: a second confirm modifies
      nothing. */
  lemma ConfirmChangesIffPending(d: Doc)
    ensures SetFields(d, ConfirmPatch) != d <==> !IsConfirmed(d)
    ensures IsConfirmed(SetFields(d, ConfirmPatch))
    ensures SetFields(SetFields(d, ConfirmPatch), ConfirmPatch) == SetFields(d, ConfirmPatch)
  {
  }

  /** Confirming a registration locks it against cancellation exactly when
      it is already paid: confirmation alone never locks. */
  lemma ConfirmLocksExactlyPaid(d: Doc)
    ensures Locked(SetFields(d, ConfirmPatch)) <==> Field(d, "paymentStatus") == Some(Text("Paid"))
  {
    var d' := SetFields(d, ConfirmPatch);
    assert "paymentStatus" !in ConfirmPatch;
    assert Field(d', "paymentStatus") == Field(d, "paymentStatus");
  }

  /** `POST /users` keeps emails unique: it inserts only an email no user
      already has. */
  lemma UpsertKeepsEmailsUnique(users: map<Oid, Doc>, id: Oid, newUser: Doc)
    requires EmailsUnique(users)
    requires id !in users
    requires !EmailTaken(users, EmailKey(newUser))
    ensures EmailsUnique(users[id := newUser])
  {
  }
}

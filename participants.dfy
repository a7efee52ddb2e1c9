/** The participants route: registering a participant (validate, drop empty optional
    fields, store, answer with nulls for what is missing) and listing participants
    newest first without their selfie. */
module Participants {
  import opened Base
  import opened Store
  import Ordering

  /** A registration body as the schema reads it; a missing optional field is None,
      and so is a null selfie. */
  datatype Payload = Payload(
    name: string,
    email: Option<string>,
    phone: Option<string>,
    selfieImage: Option<string>)

  /** What `request.json()` makes of the body: a payload, or a failure to parse
      (a multipart form, for one). */
  datatype Body = Json(payload: Payload) | NotJson

  /** The rules of the registration schema, one per way a field can fail. */
  datatype Issue = NameTooShort | NameTooLong | InvalidEmail | PhoneTooShort

  predicate NameAccepted(name: string) {
    2 <= |name| <= 50
  }

  /** An email is absent, empty, or well formed; `isEmail` is the schema library's
      email check, which this model leaves uninterpreted. */
  predicate EmailAccepted(email: Option<string>, isEmail: string -> bool) {
    email.None? || email.value == "" || isEmail(email.value)
  }

  predicate PhoneAccepted(phone: Option<string>) {
    phone.None? || phone.value == "" || |phone.value| >= 10
  }

  /** Every rule the payload breaks, in field order: name, email, phone. */
  function SchemaIssues(p: Payload, isEmail: string -> bool): (issues: seq<Issue>)
    ensures issues == [] <==>
      NameAccepted(p.name) && EmailAccepted(p.email, isEmail) && PhoneAccepted(p.phone)
    ensures NameTooShort in issues <==> |p.name| < 2
    ensures NameTooLong in issues <==> |p.name| > 50
    ensures InvalidEmail in issues <==> !EmailAccepted(p.email, isEmail)
    ensures PhoneTooShort in issues <==> !PhoneAccepted(p.phone)
  {
    (if |p.name| < 2 then [NameTooShort] else if |p.name| > 50 then [NameTooLong] else [])
    + (if EmailAccepted(p.email, isEmail) then [] else [InvalidEmail])
    + (if PhoneAccepted(p.phone) then [] else [PhoneTooShort])
  }

  /** The participant fields of a successful registration response. */
  datatype ParticipantOut = ParticipantOut(
    id: string,
    name: string,
    email: Option<string>,
    phone: Option<string>,
    selfieUrl: Option<string>)

  datatype RegisterResponse =
    | Registered(participant: ParticipantOut)
    | Rejected(issues: seq<Issue>)
    | ServerError
  {
    function Code(): int {
      match this
      case Registered(_) => 201
      case Rejected(_) => 400
      case ServerError => 500
    }

    predicate Success() {
      Registered?
    }
  }

  datatype RegisterOutcome = RegisterOutcome(db: Db, response: RegisterResponse)

  /** The record written to the store: empty or missing email, phone and selfie are
      left out; the selfie string is kept as the selfie URL. */
  function NewRecord(p: Payload, id: string, now: nat): (r: Participant)
    ensures r.id == id && r.name == p.name && r.createdAt == now
    ensures r.email == (if Truthy(p.email) then p.email else None)
    ensures r.phone == (if Truthy(p.phone) then p.phone else None)
    ensures r.selfieUrl == (if Truthy(p.selfieImage) then p.selfieImage else None)
  {
    Participant(id, p.name, KeepTruthy(p.email), KeepTruthy(p.phone), KeepTruthy(p.selfieImage), now)
  }

  /** The `value || null` mapping of the response: a field is null exactly when the
      stored field is missing or empty, and otherwise carries the stored value. */
  function Out(r: Participant): (o: ParticipantOut)
    ensures o.id == r.id && o.name == r.name
    ensures o.email.None? <==> !Truthy(r.email)
    ensures o.phone.None? <==> !Truthy(r.phone)
    ensures o.selfieUrl.None? <==> !Truthy(r.selfieUrl)
    ensures o.email.Some? ==> o.email == r.email
    ensures o.phone.Some? ==> o.phone == r.phone
    ensures o.selfieUrl.Some? ==> o.selfieUrl == r.selfieUrl
  {
    ParticipantOut(r.id, r.name, KeepTruthy(r.email), KeepTruthy(r.phone), KeepTruthy(r.selfieUrl))
  }

  /** POST. `id` and `now` are what the store generates; `storeFails` stands for an
      insert that throws. */
  function Post(db: Db, body: Body, id: string, now: nat, isEmail: string -> bool, storeFails: bool): (out: RegisterOutcome)
    ensures out.response.Rejected? <==> body.Json? && SchemaIssues(body.payload, isEmail) != []
    ensures out.response.Rejected? ==> out.response.issues == SchemaIssues(body.payload, isEmail)
    ensures out.response.Registered? <==>
      body.Json? && SchemaIssues(body.payload, isEmail) == [] && !storeFails
    ensures !out.response.Registered? ==> out.db == db
    ensures out.response.Registered? ==>
      out.db == db.(participants := db.participants + [NewRecord(body.payload, id, now)])
  {
    match body
    case NotJson => RegisterOutcome(db, ServerError)
    case Json(p) =>
      var issues := SchemaIssues(p, isEmail);
      if issues != [] then RegisterOutcome(db, Rejected(issues))
      else if storeFails then RegisterOutcome(db, ServerError)
      else
        var r := NewRecord(p, id, now);
        RegisterOutcome(db.(participants := db.participants + [r]), Registered(Out(r)))
  }

  /** A stored optional field is either missing or a non-empty string. */
  predicate Normalised(o: Option<string>) {
    o.None? || o.value != ""
  }

  /** A registration never stores an empty email, phone or selfie, and answers with
      exactly what it stored, `null` standing for a missing field. */
  lemma RegisteredIsNormalised(db: Db, body: Body, id: string, now: nat, isEmail: string -> bool)
    requires Post(db, body, id, now, isEmail, false).response.Registered?
    ensures var out := Post(db, body, id, now, isEmail, false);
      var r := out.db.participants[|out.db.participants| - 1];
      && r.name == body.payload.name
      && Normalised(r.email) && Normalised(r.phone) && Normalised(r.selfieUrl)
      && out.response.participant == ParticipantOut(id, r.name, r.email, r.phone, r.selfieUrl)
      && (out.response.participant.email.None? <==> !Truthy(body.payload.email))
      && (out.response.participant.phone.None? <==> !Truthy(body.payload.phone))
      && (out.response.participant.selfieUrl.None? <==> !Truthy(body.payload.selfieImage))
      && out.response.Code() == 201
  {
    var r := NewRecord(body.payload, id, now);
    KeepTruthyIdempotent(body.payload.email);
    KeepTruthyIdempotent(body.payload.phone);
    KeepTruthyIdempotent(body.payload.selfieImage);
  }

  /** Every failure that is not a validation failure answers 500 and stores nothing. */
  lemma NonValidationFailure(db: Db, body: Body, id: string, now: nat, isEmail: string -> bool, storeFails: bool)
    requires body.NotJson? || (SchemaIssues(body.payload, isEmail) == [] && storeFails)
    ensures var out := Post(db, body, id, now, isEmail, storeFails);
      out.response.Code() == 500 && !out.response.Success() && out.db == db
  {
  }

  /** A name of one character, or of more than fifty, is refused with 400 and nothing is stored. */
  lemma BadNameRejected(db: Db, p: Payload, id: string, now: nat, isEmail: string -> bool, storeFails: bool)
    requires !NameAccepted(p.name)
    ensures var out := Post(db, Json(p), id, now, isEmail, storeFails);
      out.response.Code() == 400 && out.db == db
  {
  }

  /** The listing row: the selfie URL is not part of it. */
  datatype ListedParticipant = ListedParticipant(
    id: string,
    name: string,
    email: Option<string>,
    phone: Option<string>,
    createdAt: nat)

  datatype ListResponse = Listed(participants: seq<ListedParticipant>) | ListFailure {
    function Code(): int {
      if Listed? then 200 else 500
    }
  }

  /** The `select` of the listing: five fields of the record, not its selfie URL. */
  function Project(r: Participant): (l: ListedParticipant)
    ensures l.id == r.id && l.name == r.name && l.email == r.email && l.phone == r.phone
    ensures l.createdAt == r.createdAt
  {
    ListedParticipant(r.id, r.name, r.email, r.phone, r.createdAt)
  }

  function CreatedAt(r: Participant): nat {
    r.createdAt
  }

  /** GET: every participant, newest first, projected. */
  function List(db: Db, storeFails: bool): (r: ListResponse)
    ensures r.Listed? <==> !storeFails
  {
    if storeFails then ListFailure
    else
      var sorted := Ordering.SortNewestFirst(db.participants, CreatedAt);
      Listed(seq(|sorted|, i requires 0 <= i < |sorted| => Project(sorted[i])))
  }

  /** Row k of the listing projects record k of the newest-first query. */
  lemma ListedRows(db: Db)
    ensures var sorted := Ordering.SortNewestFirst(db.participants, CreatedAt);
      var listed := List(db, false).participants;
      && |listed| == |sorted|
      && forall k :: 0 <= k < |listed| ==> listed[k] == Project(sorted[k])
  {
  }

  /** The listing has one row per stored participant, is ordered by creation time,
      newest first, and its rows are exactly the projections of the stored participants. */
  lemma ListNewestFirst(db: Db)
    ensures var r := List(db, false);
      && |r.participants| == |db.participants|
      && (forall i, j :: 0 <= i < j < |r.participants| ==>
            r.participants[i].createdAt >= r.participants[j].createdAt)
      && (forall e :: e in r.participants ==> exists p :: p in db.participants && e == Project(p))
      && (forall p :: p in db.participants ==> Project(p) in r.participants)
  {
    var sorted := Ordering.SortNewestFirst(db.participants, CreatedAt);
    Ordering.SortedQuery(db.participants, CreatedAt);
    ListedRows(db);
    var listed := List(db, false).participants;
    forall i, j | 0 <= i < j < |listed| ensures listed[i].createdAt >= listed[j].createdAt {
      assert CreatedAt(sorted[i]) >= CreatedAt(sorted[j]);
    }
    forall e | e in listed ensures exists p :: p in db.participants && e == Project(p) {
      var k :| 0 <= k < |listed| && listed[k] == e;
      assert sorted[k] in multiset(sorted);
    }
    forall p | p in db.participants ensures Project(p) in listed {
      assert p in multiset(sorted);
      var k :| 0 <= k < |sorted| && sorted[k] == p;
      assert listed[k] == Project(p);
    }
  }

  /** Registering and then listing: one more row, and it is the new participant's. */
  lemma RegisterThenList(db: Db, body: Body, id: string, now: nat, isEmail: string -> bool)
    requires Post(db, body, id, now, isEmail, false).response.Registered?
    ensures var db' := Post(db, body, id, now, isEmail, false).db;
      var r := List(db', false);
      && |r.participants| == |db.participants| + 1
      && Project(NewRecord(body.payload, id, now)) in r.participants
  {
    var db' := Post(db, body, id, now, isEmail, false).db;
    var rec := NewRecord(body.payload, id, now);
    var sorted := Ordering.SortNewestFirst(db'.participants, CreatedAt);
    assert rec in multiset(db'.participants) by {
      assert db'.participants[|db.participants|] == rec;
    }
    assert rec in sorted;
    var k :| 0 <= k < |sorted| && sorted[k] == rec;
    assert List(db', false).participants[k] == Project(rec);
  }

  /** Registration with a name only: 201, and email and phone come back as null. */
  lemma NameOnlyRegistration(db: Db, name: string, id: string, now: nat, isEmail: string -> bool)
    requires NameAccepted(name)
    ensures var out := Post(db, Json(Payload(name, None, None, None)), id, now, isEmail, false);
      && out.response.Code() == 201
      && out.response.participant == ParticipantOut(id, name, None, None, None)
  {
  }
}

/** The games route: creating a game from the participants that are free to play,
    and listing games, optionally by status, newest first. */
module Games {
  import opened Base
  import opened Store
  import Ordering

  datatype CreateRequest = CreateRequest(
    name: string,
    maxParticipants: int,
    participantIds: Option<seq<string>>)

  /** The rules of the create-game schema, one per way a field can fail. */
  datatype Issue = NameRequired | NameTooLong | TooFewParticipants | TooManyParticipants

  /** The schema's findings in field order: the name first, then the participant limit. */
  function SchemaIssues(req: CreateRequest): (issues: seq<Issue>)
    ensures issues == [] <==> 1 <= |req.name| <= 100 && 2 <= req.maxParticipants <= 20
    ensures |req.name| < 1 ==> issues[0] == NameRequired
    ensures |req.name| > 100 ==> issues[0] == NameTooLong
    ensures 1 <= |req.name| <= 100 && req.maxParticipants < 2 ==> issues == [TooFewParticipants]
    ensures 1 <= |req.name| <= 100 && req.maxParticipants > 20 ==> issues == [TooManyParticipants]
  {
    (if |req.name| < 1 then [NameRequired]
     else if |req.name| > 100 then [NameTooLong]
     else [])
    +
    (if req.maxParticipants < 2 then [TooFewParticipants]
     else if req.maxParticipants > 20 then [TooManyParticipants]
     else [])
  }

  /** No join row of the participant points at a waiting or active game. */
  predicate Available(db: Db, p: Participant) {
    forall j :: j in db.joins && j.participantId == p.id ==> !LinksOpenGame(db, j)
  }

  /** The availability query, in the store's order. */
  function AvailableParticipants(db: Db): (r: seq<Participant>)
    ensures forall p :: p in r <==> p in db.participants && Available(db, p)
    ensures |r| <= |db.participants|
  {
    Filter(db.participants, p => Available(db, p))
  }

  /** A non-empty id list narrows the available participants to those it names;
      an absent or empty list keeps them all. */
  predicate Narrows(ids: Option<seq<string>>) {
    ids.Some? && |ids.value| > 0
  }

  function Select(available: seq<Participant>, ids: Option<seq<string>>): (r: seq<Participant>)
    ensures Narrows(ids) ==> forall p :: p in r <==> p in available && p.id in ids.value
    ensures !Narrows(ids) ==> r == available
  {
    if Narrows(ids) then Filter(available, (p: Participant) => p.id in ids.value) else available
  }

  /** `slice(0, max)`: the first `max` selected participants, or all when fewer. */
  function Truncate(selected: seq<Participant>, max: int): (r: seq<Participant>)
    requires max >= 0
    ensures |r| == Min(|selected|, max) && r == selected[..|r|]
  {
    selected[..Min(|selected|, max)]
  }

  /** The participants a valid request puts into the new game. */
  function ParticipantsToAdd(db: Db, req: CreateRequest): (r: seq<Participant>)
    requires SchemaIssues(req) == []
    ensures |r| <= req.maxParticipants
  {
    Truncate(Select(AvailableParticipants(db), req.participantIds), req.maxParticipants)
  }

  /** One join row per participant, all stamped with the same time. */
  function JoinRows(gameId: string, added: seq<Participant>, now: nat): (rows: seq<GameParticipant>)
    ensures |rows| == |added|
    ensures forall i :: 0 <= i < |rows| ==>
      rows[i].gameId == gameId && rows[i].participantId == added[i].id && rows[i].joinedAt == now
  {
    seq(|added|, i requires 0 <= i < |added| => GameParticipant(gameId, added[i].id, now))
  }

  /** The participant fields a game response carries for each of its join rows. */
  datatype ParticipantSummary = ParticipantSummary(
    id: string,
    name: string,
    email: Option<string>,
    phone: Option<string>,
    selfieUrl: Option<string>,
    joinedAt: nat)

  datatype GameView = GameView(game: Game, participants: seq<ParticipantSummary>)

  /** The participant record a join row refers to (the first with that id). */
  function FindParticipant(ps: seq<Participant>, id: string): (r: Option<Participant>)
    ensures r.Some? ==> r.value in ps && r.value.id == id
    ensures r.None? ==> forall p :: p in ps ==> p.id != id
  {
    if ps == [] then None
    else if ps[0].id == id then Some(ps[0])
    else FindParticipant(ps[1..], id)
  }

  /** Every join row whose participant is in the store becomes one summary, in row order. */
  function Summaries(ps: seq<Participant>, rows: seq<GameParticipant>): (r: seq<ParticipantSummary>)
    ensures |r| <= |rows|
  {
    if rows == [] then []
    else
      var rest := Summaries(ps, rows[1..]);
      match FindParticipant(ps, rows[0].participantId)
      case Some(p) =>
        [ParticipantSummary(p.id, p.name, p.email, p.phone, p.selfieUrl, rows[0].joinedAt)] + rest
      case None => rest
  }

  /** A summary per join row whose participant is stored, and nothing else: every
      summary comes from a row, and when every row's participant is stored there is
      one summary per row. */
  lemma {:induction false} SummariesFollowRows(ps: seq<Participant>, rows: seq<GameParticipant>)
    ensures (forall j :: j in rows ==> exists p :: p in ps && p.id == j.participantId) ==>
      |Summaries(ps, rows)| == |rows|
    ensures forall s :: s in Summaries(ps, rows) ==>
      exists j :: j in rows && j.participantId == s.id && j.joinedAt == s.joinedAt
  {
    if rows != [] {
      SummariesFollowRows(ps, rows[1..]);
      assert forall j :: j in rows[1..] ==> j in rows;
      if forall j :: j in rows ==> exists p :: p in ps && p.id == j.participantId {
        assert rows[0] in rows;
      }
    }
  }

  /** A game with its participants, as both routes shape it for the response. */
  function View(db: Db, g: Game): GameView {
    GameView(g, Summaries(db.participants, Filter(db.joins, (j: GameParticipant) => j.gameId == g.id)))
  }

  /** Every participant a game's view lists is linked to that game by a join row,
      and carries that row's join time. */
  lemma ViewFollowsJoins(db: Db, g: Game)
    ensures View(db, g).game == g
    ensures forall s :: s in View(db, g).participants ==>
      exists j :: j in db.joins && j.gameId == g.id && j.participantId == s.id && j.joinedAt == s.joinedAt
  {
    var rows := Filter(db.joins, (j: GameParticipant) => j.gameId == g.id);
    SummariesFollowRows(db.participants, rows);
    forall s | s in View(db, g).participants
      ensures exists j :: j in db.joins && j.gameId == g.id && j.participantId == s.id && j.joinedAt == s.joinedAt
    {
      var j :| j in rows && j.participantId == s.id && j.joinedAt == s.joinedAt;
      assert j in db.joins && j.gameId == g.id;
    }
  }

  datatype CreateResponse =
    | Created(view: GameView)
    | Invalid(first: Issue)
    | NoneAvailable
    | ServerFailure
  {
    function Code(): int {
      match this
      case Created(_) => 201
      case Invalid(_) => 400
      case NoneAvailable => 400
      case ServerFailure => 500
    }
  }

  datatype CreateOutcome = CreateOutcome(db: Db, response: CreateResponse)

  /** POST: validate, compute availability, select, truncate, and write the game with
      its join rows. `gameId` and `now` are what the store generates; `storeFails`
      stands for a store call that throws. */
  function Post(db: Db, req: CreateRequest, gameId: string, now: nat, storeFails: bool): (out: CreateOutcome)
    ensures out.response.Invalid? <==> SchemaIssues(req) != []
    ensures out.response.Invalid? ==> out.response.first == SchemaIssues(req)[0]
    ensures out.response.Created? <==>
      SchemaIssues(req) == [] && !storeFails && AvailableParticipants(db) != []
    ensures out.response.NoneAvailable? <==>
      SchemaIssues(req) == [] && !storeFails && AvailableParticipants(db) == []
    ensures !out.response.Created? ==> out.db == db
    ensures out.response.Created? ==>
      var g := out.response.view.game;
      var added := ParticipantsToAdd(db, req);
      && g == Game(gameId, req.name, Waiting, req.maxParticipants, |added|, now)
      && g.currentParticipants <= g.maxParticipants
      && out.db == Db(db.participants, db.games + [g], db.joins + JoinRows(gameId, added, now))
      && out.response.view == View(out.db, g)
  {
    var issues := SchemaIssues(req);
    if issues != [] then CreateOutcome(db, Invalid(issues[0]))
    else if storeFails then CreateOutcome(db, ServerFailure)
    else
      var available := AvailableParticipants(db);
      if available == [] then CreateOutcome(db, NoneAvailable)
      else
        var added := ParticipantsToAdd(db, req);
        var g := Game(gameId, req.name, Waiting, req.maxParticipants, |added|, now);
        var db' := Db(db.participants, db.games + [g], db.joins + JoinRows(gameId, added, now));
        CreateOutcome(db', Created(View(db', g)))
  }

  datatype ListResponse = Listed(games: seq<GameView>) | ListFailure {
    function Code(): int {
      if Listed? then 200 else 500
    }
  }

  /** GET: the status query, when present and non-empty, is handed to the store as a
      status filter; a string that names no status makes the store throw. */
  function List(db: Db, status: Option<string>, storeFails: bool): (r: ListResponse)
    ensures r.ListFailure? <==> storeFails || (Truthy(status) && ParseStatus(status.value).None?)
    ensures r.Listed? ==> |r.games| <= |db.games|
  {
    if storeFails then ListFailure
    else if Truthy(status) then
      match ParseStatus(status.value)
      case None => ListFailure
      case Some(st) => Listed(Views(db, Ordering.SortNewestFirst(WithStatus(db.games, st), CreatedAt)))
    else
      Listed(Views(db, Ordering.SortNewestFirst(db.games, CreatedAt)))
  }

  /** The `where: { status }` filter. */
  function WithStatus(games: seq<Game>, st: Status): (r: seq<Game>)
    ensures forall g :: g in r <==> g in games && g.status == st
  {
    Filter(games, (g: Game) => g.status == st)
  }

  function CreatedAt(g: Game): nat {
    g.createdAt
  }

  function Views(db: Db, gs: seq<Game>): (r: seq<GameView>)
    ensures |r| == |gs| && forall i :: 0 <= i < |gs| ==> r[i] == View(db, gs[i])
  {
    seq(|gs|, i requires 0 <= i < |gs| => View(db, gs[i]))
  }

  function GamesOf(vs: seq<GameView>): (r: seq<Game>)
    ensures |r| == |vs| && forall i :: 0 <= i < |vs| ==> r[i] == vs[i].game
  {
    seq(|vs|, i requires 0 <= i < |vs| => vs[i].game)
  }

  // ----- Properties of creation -----

  /** The participants added are available, named by a narrowing id list, distinct,
      never more than the limit, and a prefix of the selection in the store's order. */
  lemma {:induction false} AddedParticipants(db: Db, req: CreateRequest)
    requires SchemaIssues(req) == [] && UniqueParticipantIds(db)
    ensures var added := ParticipantsToAdd(db, req);
      && |added| <= req.maxParticipants
      && |added| == Min(|Select(AvailableParticipants(db), req.participantIds)|, req.maxParticipants)
      && added == Select(AvailableParticipants(db), req.participantIds)[..|added|]
      && (forall p :: p in added ==> p in db.participants && Available(db, p))
      && (Narrows(req.participantIds) ==> forall p :: p in added ==> p.id in req.participantIds.value)
      && DistinctBy(added, Id)
  {
    var available := AvailableParticipants(db);
    var selected := Select(available, req.participantIds);
    var added := ParticipantsToAdd(db, req);
    FilterDistinctBy(db.participants, p => Available(db, p), Id);
    if Narrows(req.participantIds) {
      FilterDistinctBy(available, (p: Participant) => p.id in req.participantIds.value, Id);
    }
    PrefixDistinctBy(selected, |added|, Id);
    forall p | p in added ensures p in selected {
      var k :| 0 <= k < |added| && added[k] == p;
      assert selected[k] == p;
    }
  }

  /** Selection works participant by participant: it keeps the order of the available list. */
  lemma SelectKeepsOrder(a: seq<Participant>, b: seq<Participant>, ids: Option<seq<string>>)
    ensures Select(a + b, ids) == Select(a, ids) + Select(b, ids)
  {
    if Narrows(ids) {
      FilterAppend(a, b, (p: Participant) => p.id in ids.value);
    }
  }

  /** The store has not used `gameId` for a game or a join row yet. */
  predicate FreshGameId(db: Db, gameId: string) {
    (forall g :: g in db.games ==> g.id != gameId) &&
    (forall j :: j in db.joins ==> j.gameId != gameId)
  }

  lemma {:induction false} FindUnique(ps: seq<Participant>, q: Participant)
    requires DistinctBy(ps, Id) && q in ps
    ensures FindParticipant(ps, q.id) == Some(q)
  {
    if ps[0] != q {
      assert q in ps[1..];
      var k :| 0 <= k < |ps[1..]| && ps[1..][k] == q;
      assert ps[k + 1] == q && Id(ps[0]) != Id(ps[k + 1]);
      assert DistinctBy(ps[1..], Id) by {
        forall i, j | 0 <= i < j < |ps[1..]| ensures Id(ps[1..][i]) != Id(ps[1..][j]) {
          assert ps[1..][i] == ps[i + 1] && ps[1..][j] == ps[j + 1];
        }
      }
      FindUnique(ps[1..], q);
    }
  }

  lemma {:induction false} SummariesOfNewRows(ps: seq<Participant>, added: seq<Participant>, gameId: string, now: nat)
    requires DistinctBy(ps, Id) && forall p :: p in added ==> p in ps
    ensures var r := Summaries(ps, JoinRows(gameId, added, now));
      |r| == |added| &&
      forall i :: 0 <= i < |added| ==>
        r[i] == ParticipantSummary(added[i].id, added[i].name, added[i].email, added[i].phone, added[i].selfieUrl, now)
  {
    var rows := JoinRows(gameId, added, now);
    if added != [] {
      assert rows[1..] == JoinRows(gameId, added[1..], now);
      assert forall p :: p in added[1..] ==> p in added;
      SummariesOfNewRows(ps, added[1..], gameId, now);
      FindUnique(ps, added[0]);
    }
  }

  /** The created game's participant list is exactly its join rows, one summary per
      added participant, in order, each carrying that participant's fields and the join time. */
  lemma {:induction false} CreatedParticipantList(db: Db, req: CreateRequest, gameId: string, now: nat)
    requires FreshGameId(db, gameId) && UniqueParticipantIds(db)
    requires Post(db, req, gameId, now, false).response.Created?
    ensures var out := Post(db, req, gameId, now, false);
      var added := ParticipantsToAdd(db, req);
      var ps := out.response.view.participants;
      && |ps| == |added| == out.response.view.game.currentParticipants
      && forall i :: 0 <= i < |added| ==>
           ps[i] == ParticipantSummary(added[i].id, added[i].name, added[i].email, added[i].phone, added[i].selfieUrl, now)
  {
    var out := Post(db, req, gameId, now, false);
    var added := ParticipantsToAdd(db, req);
    var rows := JoinRows(gameId, added, now);
    var ofGame := (j: GameParticipant) => j.gameId == gameId;
    FilterAppend(db.joins, rows, ofGame);
    FilterKeepsAll(rows, ofGame);
    assert Filter(db.joins + rows, ofGame) == rows;
    AddedParticipants(db, req);
    SummariesOfNewRows(db.participants, added, gameId, now);
  }

  /** Once a game is created, the participants put into it are no longer available. */
  lemma AddedNoLongerAvailable(db: Db, req: CreateRequest, gameId: string, now: nat)
    requires Post(db, req, gameId, now, false).response.Created?
    ensures var out := Post(db, req, gameId, now, false);
      forall p :: p in ParticipantsToAdd(db, req) ==> !Available(out.db, p)
  {
    var out := Post(db, req, gameId, now, false);
    var added := ParticipantsToAdd(db, req);
    var rows := JoinRows(gameId, added, now);
    var g := out.response.view.game;
    forall p | p in added ensures !Available(out.db, p) {
      var k :| 0 <= k < |added| && added[k] == p;
      var row := rows[k];
      assert row == out.db.joins[|db.joins| + k];
      assert g in out.db.games && g.id == row.gameId && Open(g.status);
      assert LinksOpenGame(out.db, row);
    }
  }

  /** The games of a participant that are waiting or active. */
  ghost function OpenGamesOf(db: Db, pid: string): set<string> {
    set j | j in db.joins && j.participantId == pid && LinksOpenGame(db, j) :: j.gameId
  }

  /** No participant is held by two waiting or active games. */
  ghost predicate AtMostOneOpenGame(db: Db) {
    forall pid :: |OpenGamesOf(db, pid)| <= 1
  }

  /** Creation keeps every participant in at most one waiting or active game. */
  lemma {:induction false} PostKeepsAtMostOneOpenGame(db: Db, req: CreateRequest, gameId: string, now: nat, storeFails: bool)
    requires AtMostOneOpenGame(db) && FreshGameId(db, gameId)
    ensures AtMostOneOpenGame(Post(db, req, gameId, now, storeFails).db)
  {
    var out := Post(db, req, gameId, now, storeFails);
    if out.response.Created? {
      var db' := out.db;
      var added := ParticipantsToAdd(db, req);
      var rows := JoinRows(gameId, added, now);
      var g := out.response.view.game;
      assert db'.joins == db.joins + rows;
      forall j | j in db.joins ensures LinksOpenGame(db', j) == LinksOpenGame(db, j) {
        if LinksOpenGame(db', j) {
          var h :| h in db'.games && h.id == j.gameId && Open(h.status);
          assert h != g;
          assert h in db.games;
        }
      }
      forall j | j in rows ensures LinksOpenGame(db', j) && j.gameId == gameId {
        assert g in db'.games;
      }
      forall pid ensures |OpenGamesOf(db', pid)| <= 1 {
        if exists p :: p in added && p.id == pid {
          var p :| p in added && p.id == pid;
          assert Available(db, p) by { AddedAreAvailable(db, req, p); }
          assert OpenGamesOf(db', pid) <= {gameId};
          SubsetOfSingleton(OpenGamesOf(db', pid), gameId);
        } else {
          forall j | j in rows ensures j.participantId != pid {
            var k :| 0 <= k < |rows| && rows[k] == j;
            assert added[k] in added;
          }
          assert OpenGamesOf(db', pid) == OpenGamesOf(db, pid);
        }
      }
    }
  }

  lemma AddedAreAvailable(db: Db, req: CreateRequest, p: Participant)
    requires SchemaIssues(req) == [] && p in ParticipantsToAdd(db, req)
    ensures Available(db, p)
  {
    var selected := Select(AvailableParticipants(db), req.participantIds);
    var k :| 0 <= k < |ParticipantsToAdd(db, req)| && ParticipantsToAdd(db, req)[k] == p;
    assert selected[k] == p;
  }

  lemma SubsetOfSingleton(s: set<string>, x: string)
    requires s <= {x}
    ensures |s| <= 1
  {
    if s != {} {
      assert s == {x};
    }
  }

  /** Three free participants and a limit of three, with no id list: a game of exactly
      three participants and three new join rows. */
  lemma CreateThreeOfThree(db: Db, name: string, gameId: string, now: nat)
    requires 1 <= |name| <= 100 && |AvailableParticipants(db)| >= 3
    ensures var out := Post(db, CreateRequest(name, 3, None), gameId, now, false);
      && out.response.Created?
      && out.response.view.game.currentParticipants == 3
      && out.response.view.game.status == Waiting
      && |out.db.joins| == |db.joins| + 3
  {
  }

  /** A non-empty id list that names no available participant still creates a game, with nobody in it. */
  lemma UnmatchedIdsCreateEmptyGame(db: Db, req: CreateRequest, gameId: string, now: nat)
    requires SchemaIssues(req) == [] && Narrows(req.participantIds)
    requires AvailableParticipants(db) != []
    requires forall p :: p in AvailableParticipants(db) ==> p.id !in req.participantIds.value
    ensures var out := Post(db, req, gameId, now, false);
      && out.response.Created?
      && out.response.view.game.currentParticipants == 0
      && out.db.joins == db.joins
  {
  }

  // ----- Properties of listing -----

  /** With a status query, only games of that status are listed, all of them, newest first. */
  lemma {:induction false} ListByStatus(db: Db, st: Status)
    ensures var r := List(db, Some(StatusName(st)), false);
      && r.Listed?
      && (forall v :: v in r.games ==> v.game.status == st)
      && multiset(GamesOf(r.games)) == multiset(WithStatus(db.games, st))
      && Ordering.NewestFirst(GamesOf(r.games), CreatedAt)
  {
    ParseStatusName(st);
    var matching := WithStatus(db.games, st);
    var sorted := Ordering.SortNewestFirst(matching, CreatedAt);
    Ordering.SortedQuery(matching, CreatedAt);
    var r := List(db, Some(StatusName(st)), false);
    assert GamesOf(r.games) == sorted;
    forall v | v in r.games ensures v.game.status == st {
      var k :| 0 <= k < |r.games| && r.games[k] == v;
      assert sorted[k] in multiset(matching);
    }
  }

  /** Without a status query (absent or empty), every game is listed, newest first. */
  lemma {:induction false} ListAll(db: Db, status: Option<string>)
    requires !Truthy(status)
    ensures var r := List(db, status, false);
      && r.Listed?
      && multiset(GamesOf(r.games)) == multiset(db.games)
      && Ordering.NewestFirst(GamesOf(r.games), CreatedAt)
  {
    Ordering.SortedQuery(db.games, CreatedAt);
    assert GamesOf(List(db, status, false).games) == Ordering.SortNewestFirst(db.games, CreatedAt);
  }

  /** A status query that names no status fails with a server error. */
  lemma ListUnknownStatusFails(db: Db, s: string)
    requires s != "" && forall st: Status :: StatusName(st) != s
    ensures List(db, Some(s), false) == ListFailure && ListFailure.Code() == 500
  {
  }
}

/**
 * An in-memory model of the tables src/services/databaseService.ts reads and writes:
 * teams, players, team scores, chat messages and the holes of each golf course.
 * A team's id is its position in the team table.
 */
module Database {
  import opened Wrappers

  datatype Team = Team(id: nat, tournamentId: string, name: string, currentHole: int, totalScore: int, isDeleted: bool)
  datatype Player = Player(phoneNumber: string, name: Option<string>, teamId: Option<nat>)
  datatype TeamScore = TeamScore(teamId: nat, holeNumber: int, strokes: int)
  /** A chat row; rows are kept in insertion order, which the model takes as `created_at` order. */
  datatype ChatMessage = ChatMessage(tournamentId: string, teamId: nat, message: string)
  /** A chat row joined with its team's name (`cm.*, t.name as team_name`). */
  datatype ChatEntry = ChatEntry(message: ChatMessage, teamName: string)
  datatype Hole = Hole(holeNumber: int, par: int)
  /** The tournament record as the message handler uses it. */
  datatype Tournament = Tournament(id: string, urlId: string, golfCourseId: string)
  datatype Pagination = Pagination(page: int, limit: int, total: nat, totalPages: nat)
  datatype ChatPage = ChatPage(data: seq<ChatEntry>, pagination: Pagination)

  // ----- teams -----

  predicate TeamIdsAreIndices(teams: seq<Team>)
  {
    forall i :: 0 <= i < |teams| ==> teams[i].id == i
  }

  predicate NameMatches(team: Team, tournamentId: string, name: string)
  {
    team.tournamentId == tournamentId && team.name == name && !team.isDeleted
  }

  /** `getTeamByName`: the first non-deleted team of the tournament with exactly that name. */
  function FindByName(teams: seq<Team>, tournamentId: string, name: string): (r: Option<Team>)
    ensures r.Some? ==> r.value in teams && NameMatches(r.value, tournamentId, name)
    ensures r.None? <==> forall i :: 0 <= i < |teams| ==> !NameMatches(teams[i], tournamentId, name)
  {
    if teams == [] then None
    else if NameMatches(teams[0], tournamentId, name) then Some(teams[0])
    else
      var r := FindByName(teams[1..], tournamentId, name);
      assert forall i :: 1 <= i < |teams| ==> teams[i] == teams[1..][i - 1];
      r
  }

  /** `getTeamById`: the team with that id unless it is soft-deleted. */
  function LiveTeam(teams: seq<Team>, id: nat): (r: Option<Team>)
    ensures r.Some? <==> id < |teams| && !teams[id].isDeleted
    ensures r.Some? ==> r.value == teams[id]
  {
    if id < |teams| && !teams[id].isDeleted then Some(teams[id]) else None
  }

  /**
   * A team created because no live team of that name existed is then found both by
   * its id and by its name.
   */
  lemma CreatedTeamIsFound(teams: seq<Team>, tournamentId: string, name: string)
    requires FindByName(teams, tournamentId, name).None?
    ensures var t := Team(|teams|, tournamentId, name, 1, 0, false);
      && LiveTeam(teams + [t], |teams|) == Some(t)
      && FindByName(teams + [t], tournamentId, name) == Some(t)
  {
    var t := Team(|teams|, tournamentId, name, 1, 0, false);
    assert (teams + [t])[|teams|] == t;
    assert forall i :: 0 <= i < |teams| ==> (teams + [t])[i] == teams[i];
  }

  /** `deleteTeam`: sets `is_deleted` on the team with that id, if there is one. */
  function SoftDelete(teams: seq<Team>, id: nat): seq<Team>
  {
    if id < |teams| then teams[id := teams[id].(isDeleted := true)] else teams
  }

  /** `updateTeamScore`: sets `total_score` and `current_hole` of the team with that id. */
  function SetProgress(teams: seq<Team>, id: nat, totalScore: int, currentHole: int): seq<Team>
  {
    if id < |teams| then teams[id := teams[id].(totalScore := totalScore, currentHole := currentHole)] else teams
  }

  /** A soft-deleted team is found neither by id nor by name; every other team is as before. */
  lemma DeletedTeamIsHidden(teams: seq<Team>, id: nat, tournamentId: string, name: string)
    requires id < |teams|
    ensures LiveTeam(SoftDelete(teams, id), id).None?
    ensures var r := FindByName(SoftDelete(teams, id), tournamentId, name); r.Some? ==> r.value != SoftDelete(teams, id)[id]
    ensures |SoftDelete(teams, id)| == |teams|
    ensures forall j :: 0 <= j < |teams| && j != id ==> SoftDelete(teams, id)[j] == teams[j]
    ensures SoftDelete(teams, id)[id].(isDeleted := teams[id].isDeleted) == teams[id]
  {
  }

  /** `updateTeamScore` changes exactly the two progress fields of one team. */
  lemma ProgressChangesOneTeam(teams: seq<Team>, id: nat, totalScore: int, currentHole: int)
    requires id < |teams|
    ensures var u := SetProgress(teams, id, totalScore, currentHole);
      && |u| == |teams|
      && u[id].totalScore == totalScore && u[id].currentHole == currentHole
      && u[id].(totalScore := teams[id].totalScore, currentHole := teams[id].currentHole) == teams[id]
      && forall j :: 0 <= j < |teams| && j != id ==> u[j] == teams[j]
  {
  }

  // ----- players -----

  /** `name || null`: an absent or empty name is stored as null. */
  function NameOrNull(name: Option<string>): (r: Option<string>)
    ensures r.Some? <==> name.Some? && name.value != ""
    ensures r.Some? ==> r == name
  {
    if name.None? || name.value == "" then None else name
  }

  /** `createPlayer`: an upsert on the phone number that overwrites the name and keeps the team link. */
  function UpsertPlayer(players: map<string, Player>, phoneNumber: string, name: Option<string>): map<string, Player>
  {
    var teamId := if phoneNumber in players then players[phoneNumber].teamId else None;
    players[phoneNumber := Player(phoneNumber, NameOrNull(name), teamId)]
  }

  /** `addPlayerToTeam`: links an existing player to a team; `COALESCE` keeps the old name when none is given. */
  function LinkPlayer(players: map<string, Player>, teamId: nat, phoneNumber: string, name: Option<string>): map<string, Player>
  {
    if phoneNumber in players then
      var p := players[phoneNumber];
      var newName := if NameOrNull(name).Some? then NameOrNull(name) else p.name;
      players[phoneNumber := p.(teamId := Some(teamId), name := newName)]
    else players
  }

  lemma CreatePlayerKeepsLink(players: map<string, Player>, phoneNumber: string, name: Option<string>)
    ensures var u := UpsertPlayer(players, phoneNumber, name);
      && u.Keys == players.Keys + {phoneNumber}
      && u[phoneNumber].name == NameOrNull(name)
      && (phoneNumber in players ==> u[phoneNumber].teamId == players[phoneNumber].teamId)
      && (phoneNumber !in players ==> u[phoneNumber].teamId.None?)
      && forall q :: q in players && q != phoneNumber ==> u[q] == players[q]
  {
  }

  lemma AddPlayerToTeamKeepsName(players: map<string, Player>, teamId: nat, phoneNumber: string)
    ensures var u := LinkPlayer(players, teamId, phoneNumber, None);
      && u.Keys == players.Keys
      && (phoneNumber in players ==> u[phoneNumber] == players[phoneNumber].(teamId := Some(teamId)))
      && forall q :: q in players && q != phoneNumber ==> u[q] == players[q]
  {
  }

  // ----- team scores -----

  predicate SameSlot(a: TeamScore, b: TeamScore)
  {
    a.teamId == b.teamId && a.holeNumber == b.holeNumber
  }

  /** The `(team_id, hole_number)` uniqueness the upsert relies on. */
  predicate ScoresUnique(scores: seq<TeamScore>)
  {
    forall i, j :: 0 <= i < j < |scores| ==> !SameSlot(scores[i], scores[j])
  }

  /** `addTeamScore`: `ON CONFLICT (team_id, hole_number) DO UPDATE SET strokes`. */
  function Upsert(scores: seq<TeamScore>, score: TeamScore): seq<TeamScore>
  {
    if scores == [] then [score]
    else if SameSlot(scores[0], score) then [score] + scores[1..]
    else [scores[0]] + Upsert(scores[1..], score)
  }

  /** `getTeamScores`. */
  function ScoresOf(scores: seq<TeamScore>, teamId: nat): seq<TeamScore>
  {
    if scores == [] then []
    else (if scores[0].teamId == teamId then [scores[0]] else []) + ScoresOf(scores[1..], teamId)
  }

  /** `reduce((sum, score) => sum + score.strokes, 0)`. */
  function TotalStrokes(scores: seq<TeamScore>): int
  {
    if scores == [] then 0 else scores[0].strokes + TotalStrokes(scores[1..])
  }

  /** The strokes stored for a team on a hole, if any. */
  function StrokesAt(scores: seq<TeamScore>, teamId: nat, holeNumber: int): Option<int>
  {
    if scores == [] then None
    else if scores[0].teamId == teamId && scores[0].holeNumber == holeNumber then Some(scores[0].strokes)
    else StrokesAt(scores[1..], teamId, holeNumber)
  }

  function StrokesOrZero(s: Option<int>): int
  {
    if s.Some? then s.value else 0
  }

  /**
   * After the upsert there is still at most one score per (team, hole), the written
   * score is stored, and every score for another slot is kept.
   */
  lemma {:induction false} UpsertKeepsUnique(scores: seq<TeamScore>, score: TeamScore)
    requires ScoresUnique(scores)
    ensures ScoresUnique(Upsert(scores, score))
    ensures score in Upsert(scores, score)
    ensures forall x :: x in Upsert(scores, score) && SameSlot(x, score) ==> x == score
    ensures forall x :: !SameSlot(x, score) ==> (x in Upsert(scores, score) <==> x in scores)
  {
    if scores != [] {
      var rest := scores[1..];
      assert forall j :: 1 <= j < |scores| ==> scores[j] == rest[j - 1];
      assert ScoresUnique(rest);
      assert scores == [scores[0]] + rest;
      forall x | x in rest
        ensures !SameSlot(x, scores[0])
      {
        var j :| 0 <= j < |rest| && rest[j] == x;
        assert scores[j + 1] == x;
      }
      if SameSlot(scores[0], score) {
        var u := [score] + rest;
        forall i, j | 0 <= i < j < |u|
          ensures !SameSlot(u[i], u[j])
        {
          if i == 0 {
            assert u[j] == rest[j - 1] && rest[j - 1] in rest;
          } else {
            assert u[i] == scores[i] && u[j] == scores[j];
          }
        }
      } else {
        UpsertKeepsUnique(rest, score);
        var r := Upsert(rest, score);
        var u := [scores[0]] + r;
        forall i, j | 0 <= i < j < |u|
          ensures !SameSlot(u[i], u[j])
        {
          if i == 0 {
            assert u[j] == r[j - 1] && r[j - 1] in r;
          } else {
            assert u[i] == r[i - 1] && u[j] == r[j - 1];
          }
        }
      }
    }
  }

  /** The upsert replaces the hole's old strokes in the team's total by the new ones. */
  lemma {:induction false} UpsertTotal(scores: seq<TeamScore>, score: TeamScore)
    requires ScoresUnique(scores)
    ensures TotalStrokes(ScoresOf(Upsert(scores, score), score.teamId))
         == TotalStrokes(ScoresOf(scores, score.teamId)) + score.strokes
            - StrokesOrZero(StrokesAt(scores, score.teamId, score.holeNumber))
  {
    if scores == [] {
      assert ScoresOf([score], score.teamId) == [score] + ScoresOf([score][1..], score.teamId);
    } else {
      var rest := scores[1..];
      assert forall j :: 1 <= j < |scores| ==> scores[j] == rest[j - 1];
      assert ScoresUnique(rest);
      if SameSlot(scores[0], score) {
        var u := [score] + rest;
        assert u[1..] == rest;
        assert ScoresOf(u, score.teamId) == [score] + ScoresOf(rest, score.teamId);
      } else {
        UpsertTotal(rest, score);
        var u := [scores[0]] + Upsert(rest, score);
        assert u[1..] == Upsert(rest, score);
        var head := if scores[0].teamId == score.teamId then [scores[0]] else [];
        TotalAppend(head, ScoresOf(Upsert(rest, score), score.teamId));
        TotalAppend(head, ScoresOf(rest, score.teamId));
      }
    }
  }

  lemma {:induction false} TotalAppend(a: seq<TeamScore>, b: seq<TeamScore>)
    ensures TotalStrokes(a + b) == TotalStrokes(a) + TotalStrokes(b)
  {
    if a == [] {
      assert a + b == b;
    } else {
      assert (a + b)[1..] == a[1..] + b;
      TotalAppend(a[1..], b);
    }
  }

  /** Writing a score for one team leaves every other team's score list exactly as it was. */
  lemma {:induction false} UpsertOtherTeams(scores: seq<TeamScore>, score: TeamScore, teamId: nat)
    requires teamId != score.teamId
    ensures ScoresOf(Upsert(scores, score), teamId) == ScoresOf(scores, teamId)
  {
    if scores == [] {
      assert ScoresOf([score], teamId) == [] + ScoresOf([score][1..], teamId);
    } else if SameSlot(scores[0], score) {
      assert ([score] + scores[1..])[1..] == scores[1..];
    } else {
      UpsertOtherTeams(scores[1..], score, teamId);
      assert ([scores[0]] + Upsert(scores[1..], score))[1..] == Upsert(scores[1..], score);
    }
  }

  // ----- getTeamPosition -----

  predicate Ranked(team: Team, tournamentId: string)
  {
    team.tournamentId == tournamentId && !team.isDeleted
  }

  /** The number of ranked teams of the tournament whose total is strictly below `total`. */
  function CountBelow(teams: seq<Team>, tournamentId: string, total: int): nat
  {
    if teams == [] then 0
    else
      var own := if Ranked(teams[0], tournamentId) && teams[0].totalScore < total then 1 else 0;
      own + CountBelow(teams[1..], tournamentId, total)
  }

  function RankedCount(teams: seq<Team>, tournamentId: string): nat
  {
    if teams == [] then 0
    else (if Ranked(teams[0], tournamentId) then 1 else 0) + RankedCount(teams[1..], tournamentId)
  }

  /**
   * `getTeamPosition`: `RANK() OVER (ORDER BY total_score ASC)` among the non-deleted
   * teams of the tournament; `None` for a team outside that set.
   */
  function Position(teams: seq<Team>, tournamentId: string, teamId: nat): Option<nat>
  {
    if teamId < |teams| && Ranked(teams[teamId], tournamentId) then
      Some(1 + CountBelow(teams, tournamentId, teams[teamId].totalScore))
    else None
  }

  lemma {:induction false} CountBelowMonotone(teams: seq<Team>, tournamentId: string, a: int, b: int)
    requires a <= b
    ensures CountBelow(teams, tournamentId, a) <= CountBelow(teams, tournamentId, b)
  {
    if teams != [] {
      CountBelowMonotone(teams[1..], tournamentId, a, b);
    }
  }

  lemma {:induction false} CountBelowStrict(teams: seq<Team>, tournamentId: string, a: int, b: int, k: nat)
    requires k < |teams| && Ranked(teams[k], tournamentId) && a <= teams[k].totalScore < b
    ensures CountBelow(teams, tournamentId, a) < CountBelow(teams, tournamentId, b)
  {
    if k == 0 {
      CountBelowMonotone(teams[1..], tournamentId, a, b);
    } else {
      CountBelowStrict(teams[1..], tournamentId, a, b, k - 1);
    }
  }

  lemma {:induction false} CountBelowBound(teams: seq<Team>, tournamentId: string, k: nat)
    requires k < |teams| && Ranked(teams[k], tournamentId)
    ensures CountBelow(teams, tournamentId, teams[k].totalScore) < RankedCount(teams, tournamentId)
  {
    if k == 0 {
      CountBelowAtMost(teams[1..], tournamentId, teams[k].totalScore);
    } else {
      assert teams[1..][k - 1] == teams[k];
      CountBelowBound(teams[1..], tournamentId, k - 1);
    }
  }

  lemma {:induction false} CountBelowAtMost(teams: seq<Team>, tournamentId: string, total: int)
    ensures CountBelow(teams, tournamentId, total) <= RankedCount(teams, tournamentId)
  {
    if teams != [] {
      CountBelowAtMost(teams[1..], tournamentId, total);
    }
  }

  /** A ranked team's position lies between 1 and the number of ranked teams. */
  lemma PositionBounds(teams: seq<Team>, tournamentId: string, teamId: nat)
    requires teamId < |teams| && Ranked(teams[teamId], tournamentId)
    ensures Position(teams, tournamentId, teamId).Some?
    ensures 1 <= Position(teams, tournamentId, teamId).value <= RankedCount(teams, tournamentId)
  {
    CountBelowBound(teams, tournamentId, teamId);
  }

  /** Teams with equal totals share a position; a strictly lower total gives a strictly better one. */
  lemma PositionOrder(teams: seq<Team>, tournamentId: string, a: nat, b: nat)
    requires a < |teams| && Ranked(teams[a], tournamentId)
    requires b < |teams| && Ranked(teams[b], tournamentId)
    ensures teams[a].totalScore == teams[b].totalScore ==>
      Position(teams, tournamentId, a) == Position(teams, tournamentId, b)
    ensures teams[a].totalScore < teams[b].totalScore ==>
      Position(teams, tournamentId, a).value < Position(teams, tournamentId, b).value
  {
    if teams[a].totalScore < teams[b].totalScore {
      CountBelowStrict(teams, tournamentId, teams[a].totalScore, teams[b].totalScore, a);
    }
  }

  // ----- getChatMessages -----

  function TournamentChats(chats: seq<ChatMessage>, tournamentId: string): seq<ChatMessage>
  {
    if chats == [] then []
    else
      var last := chats[|chats| - 1];
      TournamentChats(chats[..|chats| - 1], tournamentId) + (if last.tournamentId == tournamentId then [last] else [])
  }

  /** `ORDER BY created_at DESC` over rows kept in insertion order, joined with the team table. */
  function NewestFirst(rows: seq<ChatMessage>, teams: seq<Team>): (r: seq<ChatEntry>)
    requires forall i :: 0 <= i < |rows| ==> rows[i].teamId < |teams|
    ensures |r| == |rows|
    ensures forall i :: 0 <= i < |r| ==>
      r[i] == ChatEntry(rows[|rows| - 1 - i], teams[rows[|rows| - 1 - i].teamId].name)
  {
    seq(|rows|, i requires 0 <= i < |rows| => ChatEntry(rows[|rows| - 1 - i], teams[rows[|rows| - 1 - i].teamId].name))
  }

  /** A newly stored message heads the newest-first listing; the older ones follow in their order. */
  lemma NewestComesFirst(rows: seq<ChatMessage>, m: ChatMessage, teams: seq<Team>)
    requires forall i :: 0 <= i < |rows| ==> rows[i].teamId < |teams|
    requires m.teamId < |teams|
    ensures forall i :: 0 <= i < |rows + [m]| ==> (rows + [m])[i].teamId < |teams|
    ensures NewestFirst(rows + [m], teams) == [ChatEntry(m, teams[m.teamId].name)] + NewestFirst(rows, teams)
  {
    var all := rows + [m];
    assert forall i :: 0 <= i < |rows| ==> all[i] == rows[i];
    assert forall i :: 0 <= i < |all| ==> all[i].teamId < |teams|;
    var a := NewestFirst(all, teams);
    var b := [ChatEntry(m, teams[m.teamId].name)] + NewestFirst(rows, teams);
    assert |a| == |b|;
    forall i | 0 <= i < |a|
      ensures a[i] == b[i]
    {
      if i > 0 {
        assert all[|all| - 1 - i] == rows[|rows| - 1 - (i - 1)];
      }
    }
  }

  /** `Math.ceil(total / limit)` for a positive limit. */
  function CeilDiv(total: nat, limit: nat): (q: nat)
    requires limit >= 1
    ensures q * limit >= total
    ensures total > 0 ==> (q - 1) * limit < total
    ensures total == 0 ==> q == 0
  {
    (total + limit - 1) / limit
  }

  function Min(a: int, b: int): int
  {
    if a <= b then a else b
  }

  /** `LIMIT limit OFFSET offset` over the rows. */
  function Window<T>(rows: seq<T>, offset: nat, limit: nat): (r: seq<T>)
    ensures |r| <= limit
    ensures offset < |rows| ==> |r| == Min(limit, |rows| - offset)
    ensures offset >= |rows| ==> r == []
    ensures forall i :: 0 <= i < |r| ==> offset + i < |rows| && r[i] == rows[offset + i]
  {
    rows[Min(offset, |rows|)..Min(offset + limit, |rows|)]
  }

  predicate ChatTeamsExist(chats: seq<ChatMessage>, teams: seq<Team>)
  {
    forall i :: 0 <= i < |chats| ==> chats[i].teamId < |teams|
  }

  lemma {:induction false} TournamentChatsSubset(chats: seq<ChatMessage>, tournamentId: string, m: ChatMessage)
    ensures m in TournamentChats(chats, tournamentId) <==> m in chats && m.tournamentId == tournamentId
  {
    if chats != [] {
      TournamentChatsSubset(chats[..|chats| - 1], tournamentId, m);
      assert chats == chats[..|chats| - 1] + [chats[|chats| - 1]];
    }
  }

  /** `getChatMessages(tournamentId, page, limit)`; page and limit are validated to be positive by its route. */
  function ChatMessages(chats: seq<ChatMessage>, teams: seq<Team>, tournamentId: string, page: int, limit: int): (r: ChatPage)
    requires ChatTeamsExist(chats, teams)
    requires page >= 1 && limit >= 1
    ensures |r.data| <= limit
    ensures forall e :: e in r.data ==> e.message in chats && e.message.tournamentId == tournamentId
  {
    var rows := TournamentChats(chats, tournamentId);
    assert forall i :: 0 <= i < |rows| ==> rows[i].teamId < |teams| by {
      forall i | 0 <= i < |rows|
        ensures rows[i].teamId < |teams|
      {
        TournamentChatsSubset(chats, tournamentId, rows[i]);
      }
    }
    var data := Window(NewestFirst(rows, teams), (page - 1) * limit, limit);
    assert forall e :: e in data ==> e.message in rows by {
      forall e | e in data
        ensures e.message in rows
      {
        var i :| 0 <= i < |data| && data[i] == e;
      }
    }
    assert forall e :: e in data ==> e.message in chats && e.message.tournamentId == tournamentId by {
      forall e | e in data
        ensures e.message in chats && e.message.tournamentId == tournamentId
      {
        TournamentChatsSubset(chats, tournamentId, e.message);
      }
    }
    ChatPage(data, Pagination(page, limit, |rows|, CeilDiv(|rows|, limit)))
  }

  /**
   * Page p holds the tournament's messages from position (p-1)*limit on, newest first;
   * it is non-empty exactly when p <= totalPages.
   */
  lemma ChatPageContents(chats: seq<ChatMessage>, teams: seq<Team>, tournamentId: string, page: int, limit: int)
    requires ChatTeamsExist(chats, teams)
    requires page >= 1 && limit >= 1
    ensures var r := ChatMessages(chats, teams, tournamentId, page, limit);
      var rows := TournamentChats(chats, tournamentId);
      && r.pagination.total == |rows|
      && r.pagination.totalPages == CeilDiv(|rows|, limit)
      && NewestPage(rows, page, limit, r.data)
  {
    var rows := TournamentChats(chats, tournamentId);
    var r := ChatMessages(chats, teams, tournamentId, page, limit);
    assert forall i :: 0 <= i < |rows| ==> rows[i].teamId < |teams| by {
      forall i | 0 <= i < |rows|
        ensures rows[i].teamId < |teams|
      {
        TournamentChatsSubset(chats, tournamentId, rows[i]);
      }
    }
    MulMonotone(0, page - 1, limit);
    PageWindow(rows, teams, page, limit, r.data);
  }

  /**
   * Page `page` of `limit` entries over `rows`: entry i is the row (page-1)*limit+i
   * places from the newest, the page is full while rows last, and it is non-empty
   * exactly when page <= ceil(|rows| / limit).
   */
  predicate NewestPage(rows: seq<ChatMessage>, page: int, limit: int, data: seq<ChatEntry>)
    requires page >= 1 && limit >= 1
  {
    MulMonotone(0, page - 1, limit);
    && (forall i :: 0 <= i < |data| ==>
          (page - 1) * limit + i < |rows| && data[i].message == rows[|rows| - 1 - ((page - 1) * limit + i)])
    && ((page - 1) * limit < |rows| ==> |data| == Min(limit, |rows| - (page - 1) * limit))
    && (data != [] <==> page <= CeilDiv(|rows|, limit))
  }

  lemma PageWindow(rows: seq<ChatMessage>, teams: seq<Team>, page: int, limit: int, data: seq<ChatEntry>)
    requires forall i :: 0 <= i < |rows| ==> rows[i].teamId < |teams|
    requires page >= 1 && limit >= 1
    requires 0 <= (page - 1) * limit && data == Window(NewestFirst(rows, teams), (page - 1) * limit, limit)
    ensures NewestPage(rows, page, limit, data)
  {
    var offset: nat := (page - 1) * limit;
    NewestWindow(rows, teams, offset, limit);
    PageInRange(|rows|, limit, page);
  }

  /** A window of the newest-first listing reads the rows backwards from `offset`. */
  lemma NewestWindow(rows: seq<ChatMessage>, teams: seq<Team>, offset: nat, limit: nat)
    requires forall i :: 0 <= i < |rows| ==> rows[i].teamId < |teams|
    requires limit >= 1
    ensures var w := Window(NewestFirst(rows, teams), offset, limit);
      && (forall i :: 0 <= i < |w| ==> offset + i < |rows| && w[i].message == rows[|rows| - 1 - (offset + i)])
      && (offset < |rows| ==> |w| == Min(limit, |rows| - offset))
      && (w != [] <==> offset < |rows|)
  {
  }

  /** A page starts inside the rows exactly when its number is at most the page count. */
  lemma PageInRange(n: nat, limit: int, page: int)
    requires page >= 1 && limit >= 1
    ensures (page - 1) * limit < n <==> page <= CeilDiv(n, limit)
  {
    var q := CeilDiv(n, limit);
    if page <= q {
      MulMonotone(page - 1, q - 1, limit);
    } else {
      MulMonotone(q, page - 1, limit);
    }
  }

  lemma MulMonotone(a: int, b: int, c: nat)
    requires a <= b
    ensures a * c <= b * c
  {
  }

  // ----- the store -----

  /** The tables a handler can change, as one value. */
  datatype Tables = Tables(teams: seq<Team>, players: map<string, Player>, scores: seq<TeamScore>, chats: seq<ChatMessage>)

  class Store {
    var teams: seq<Team>
    var players: map<string, Player>
    var scores: seq<TeamScore>
    var chats: seq<ChatMessage>
    /** `golf_course_holes` grouped by course, each list ordered by hole number. */
    var courses: map<string, seq<Hole>>

    /** The keys and the foreign keys of the tables. */
    predicate Valid()
      reads this
    {
      && TeamIdsAreIndices(teams)
      && ScoresUnique(scores)
      && (forall i :: 0 <= i < |scores| ==> scores[i].teamId < |teams|)
      && ChatTeamsExist(chats, teams)
      && (forall p :: p in players ==> players[p].phoneNumber == p)
      && (forall p :: p in players && players[p].teamId.Some? ==> players[p].teamId.value < |teams|)
      && (forall c, i, j :: c in courses && 0 <= i < j < |courses[c]| ==> courses[c][i].holeNumber < courses[c][j].holeNumber)
    }

    function Contents(): Tables
      reads this
    {
      Tables(teams, players, scores, chats)
    }

    constructor (courses: map<string, seq<Hole>>)
      requires forall c, i, j :: c in courses && 0 <= i < j < |courses[c]| ==> courses[c][i].holeNumber < courses[c][j].holeNumber
      ensures Valid()
      ensures teams == [] && players == map[] && scores == [] && chats == [] && this.courses == courses
    {
      teams := [];
      players := map[];
      scores := [];
      chats := [];
      this.courses := courses;
    }

    function GetGolfCourseHoles(golfCourseId: string): seq<Hole>
      reads this
    {
      if golfCourseId in courses then courses[golfCourseId] else []
    }

    function GetTeamById(id: nat): Option<Team>
      reads this
    {
      LiveTeam(teams, id)
    }

    function GetTeamByName(tournamentId: string, name: string): Option<Team>
      reads this
    {
      FindByName(teams, tournamentId, name)
    }

    function GetPlayerByPhone(phoneNumber: string): Option<Player>
      reads this
    {
      if phoneNumber in players then Some(players[phoneNumber]) else None
    }

    function GetTeamScores(teamId: nat): seq<TeamScore>
      reads this
    {
      ScoresOf(scores, teamId)
    }

    function GetTeamPosition(tournamentId: string, teamId: nat): Option<nat>
      reads this
    {
      Position(teams, tournamentId, teamId)
    }

    function GetChatMessages(tournamentId: string, page: int, limit: int): ChatPage
      reads this
      requires Valid()
      requires page >= 1 && limit >= 1
    {
      ChatMessages(chats, teams, tournamentId, page, limit)
    }

    /** `createTeam`: a new row with the schema defaults: hole 1, total 0, not deleted. */
    method CreateTeam(tournamentId: string, name: string) returns (team: Team)
      requires Valid()
      modifies this`teams
      ensures Valid()
      ensures team == Team(|old(teams)|, tournamentId, name, 1, 0, false)
      ensures teams == old(teams) + [team]
    {
      team := Team(|teams|, tournamentId, name, 1, 0, false);
      teams := teams + [team];
    }

    method DeleteTeam(id: nat)
      requires Valid()
      modifies this`teams
      ensures Valid()
      ensures teams == SoftDelete(old(teams), id)
    {
      if id < |teams| {
        teams := teams[id := teams[id].(isDeleted := true)];
      }
    }

    method UpdateTeamScore(id: nat, totalScore: int, currentHole: int)
      requires Valid()
      modifies this`teams
      ensures Valid()
      ensures teams == SetProgress(old(teams), id, totalScore, currentHole)
    {
      if id < |teams| {
        teams := teams[id := teams[id].(totalScore := totalScore, currentHole := currentHole)];
      }
    }

    method CreatePlayer(phoneNumber: string, name: Option<string>)
      requires Valid()
      modifies this`players
      ensures Valid()
      ensures players == UpsertPlayer(old(players), phoneNumber, name)
    {
      players := UpsertPlayer(players, phoneNumber, name);
    }

    /** `team_id` references the team table, so the team must exist. */
    method AddPlayerToTeam(teamId: nat, phoneNumber: string, name: Option<string>)
      requires Valid() && teamId < |teams|
      modifies this`players
      ensures Valid()
      ensures players == LinkPlayer(old(players), teamId, phoneNumber, name)
    {
      players := LinkPlayer(players, teamId, phoneNumber, name);
    }

    method AddTeamScore(teamId: nat, holeNumber: int, strokes: int)
      requires Valid() && teamId < |teams|
      modifies this`scores
      ensures Valid()
      ensures scores == Upsert(old(scores), TeamScore(teamId, holeNumber, strokes))
    {
      var score := TeamScore(teamId, holeNumber, strokes);
      UpsertKeepsUnique(scores, score);
      scores := Upsert(scores, score);
      forall i | 0 <= i < |scores|
        ensures scores[i].teamId < |teams|
      {
        assert scores[i] in scores;
        if !SameSlot(scores[i], score) {
          var j :| 0 <= j < |old(scores)| && old(scores)[j] == scores[i];
        }
      }
    }

    /** `addChatMessage`: stores the row and returns it joined with its team's name. */
    method AddChatMessage(tournamentId: string, teamId: nat, message: string) returns (entry: ChatEntry)
      requires Valid() && teamId < |teams|
      modifies this`chats
      ensures Valid()
      ensures chats == old(chats) + [ChatMessage(tournamentId, teamId, message)]
      ensures entry == ChatEntry(ChatMessage(tournamentId, teamId, message), teams[teamId].name)
    {
      var row := ChatMessage(tournamentId, teamId, message);
      chats := chats + [row];
      entry := ChatEntry(row, teams[teamId].name);
    }
  }
}

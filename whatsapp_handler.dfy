/**
 * The inbound WhatsApp message flow of src/services/whatsappHandler.ts. Which
 * handler runs is decided by the sender's records: no player row, a player row
 * without a team, or a player on a team. Every message produces exactly one reply
 * to the sender; a thrown error becomes the apology.
 */
module WhatsApp {
  import opened Wrappers
  import opened Text
  import opened ScoreParser
  import opened Database
  import opened Channels
  import opened Connections
  import opened Twilio

  /** What a finished round adds to the score reply: the final total and the team's place. */
  datatype Completion = Completion(finalScore: int, place: Option<nat>)

  /** The reply sent to the player; the wording of each template is left out. */
  datatype Reply =
    | Welcome
    | Joined(teamName: string, hole: int, urlId: string)
    | Help(teamName: string, hole: int, urlId: string)
    | CannotDeleteScored
    | Deleted(teamName: string)
    | InvalidScore
    | Recorded(hole: int, strokes: int, description: string, completion: Option<Completion>, urlId: string)
    | ChatSent(urlId: string)
    | Apology

  datatype Outgoing = Outgoing(to: string, reply: Reply)

  /** What the handler broadcasts; the leaderboard rows themselves are not modelled. */
  datatype Event = LeaderboardUpdate(tournamentId: string) | ChatUpdate(entry: ChatEntry)

  /** The record state a message finds its sender in. */
  datatype SenderState = Unregistered | AwaitingTeam | OnTeam(teamId: nat)

  function StateOf(players: map<string, Player>, phoneNumber: string): SenderState
  {
    if phoneNumber !in players then Unregistered
    else if players[phoneNumber].teamId.None? then AwaitingTeam
    else OnTeam(players[phoneNumber].teamId.value)
  }

  // ----- classification -----

  datatype Action = ShowHelp | DeleteRequest | SubmitScore(parsed: Parsed) | PostChat

  /** `golfCourseHoles.find(h => h.hole_number === hole)?.par`. */
  function CurrentPar(holes: seq<Hole>, hole: int): (r: Option<int>)
    ensures r.Some? <==> exists i :: 0 <= i < |holes| && holes[i].holeNumber == hole
    ensures r.Some? ==> exists i :: 0 <= i < |holes| && holes[i] == Hole(hole, r.value)
  {
    if holes == [] then None
    else if holes[0].holeNumber == hole then Some(holes[0].par)
    else
      var r := CurrentPar(holes[1..], hole);
      assert forall i :: 1 <= i < |holes| ==> holes[i] == holes[1..][i - 1];
      assert r.Some? ==> holes[1..][0..] == holes[1..];
      r
  }

  /**
   * The tests of `handleExistingPlayer`, in their order: `help`, a `delete ` prefix,
   * a score that parses at the current hole's par (a missing or zero par is falsy
   * and skips the test; any non-null parse result is truthy), and otherwise chat.
   */
  function Classify(message: string, par: Option<int>): Action
  {
    var lower := Lower(message);
    if lower == "help" then ShowHelp
    else if StartsWith(lower, "delete ") then DeleteRequest
    else if par.Some? && par.value != 0 && !ParseScore(message, par.value).NoScore? then
      SubmitScore(ParseScore(message, par.value))
    else PostChat
  }

  /** `message.substring(7).trim()`, on the original-case text. */
  function DeletionName(message: string): string
  {
    Trim(if |message| >= 7 then message[7..] else [])
  }

  /** `current < totalHoles ? current + 1 : current`. */
  function NextHole(current: int, totalHoles: int): int
  {
    if current < totalHoles then current + 1 else current
  }

  /** Help is recognised in any letter case, and wins over every other reading. */
  lemma HelpIgnoresCase(message: string, par: Option<int>)
    requires Lower(message) == "help"
    ensures Classify(message, par) == ShowHelp
    ensures Classify(Lower(message), par) == ShowHelp
  {
    LowerIdempotent(message);
  }

  /**
   * A score is only recognised when the current hole has a non-zero par, and what
   * is recognised is exactly what the submission re-parses.
   */
  lemma ScoreNeedsPar(message: string, par: Option<int>)
    ensures Classify(message, par).SubmitScore? ==>
      && par.Some? && par.value != 0
      && Classify(message, par).parsed == ParseScore(message, par.value)
      && !ParseScore(message, par.value).NoScore?
    ensures par.Some? && par.value != 0 && !ParseScore(message, par.value).NoScore?
            && Lower(message) != "help" && !StartsWith(Lower(message), "delete ") ==>
      Classify(message, par).SubmitScore?
    ensures par.None? || par == Some(0) ==> !Classify(message, par).SubmitScore?
  {
  }

  /**
   * A message that spells an inherited object key passes the score test, whose
   * lookup does not come back `undefined`, so at a non-zero par it is submitted as
   * a score instead of being posted as chat.
   */
  lemma InheritedKeyIsSubmitted(message: string, par: int)
    requires InheritedKey(Lower(message)) && par != 0
    ensures Classify(message, Some(par)) == SubmitScore(NonNumeric(message, Lower(message)))
  {
    var n := Lower(message);
    assert n[0] == 'c' || n[0] == '_';
    assert n[|n| - 1] == 'r' || n[|n| - 1] == '_';
    assert Trim(n) == n;
  }

  /** `<word> on <digits>` is in lower case already. */
  lemma CorrectionIsLower(w: string, d: string)
    requires IsWord(w) && IsDigitString(d)
    ensures Lower(w + " on " + d) == w + " on " + d
  {
    var m := w + " on " + d;
    forall i | 0 <= i < |m|
      ensures LowerChar(m[i]) == m[i]
    {
      if i < |w| {
        assert m[i] == w[i];
      } else if i >= |w| + 4 {
        assert m[i] == d[i - |w| - 4];
      }
    }
  }

  /** No vocabulary entry and no inherited key ends in a digit. */
  lemma EndsInDigitIsNoWord(m: string)
    requires 0 < |m| && IsDigit(m[|m| - 1])
    ensures NumberWord(m).None? && TableEntry(m).None? && !InheritedKey(m)
  {
    EndsInDigitIsNoNumberWord(m);
  }

  lemma EndsInDigitIsNoNumberWord(m: string)
    requires 0 < |m| && IsDigit(m[|m| - 1])
    ensures NumberWord(m).None?
  {
  }

  /**
   * The correction syntax the help text advertises, a term followed by ` on ` and a
   * hole number, is no score: it ends in a digit but does not start with one.
   */
  lemma CorrectionIsNoScore(w: string, d: string, par: int)
    requires IsWord(w) && IsDigitString(d)
    ensures ParseScore(w + " on " + d, par).NoScore?
  {
    var m := w + " on " + d;
    CorrectionIsLower(w, d);
    assert m[0] == w[0] && m[|m| - 1] == d[|d| - 1];
    EndsInDigitIsNoWord(m);
    NoRuleMatches(m, par);
  }

  /** So, unless the term itself reads as a delete request, a correction is posted as chat. */
  lemma CorrectionIsChat(w: string, d: string, par: Option<int>)
    requires IsWord(w) && IsDigitString(d) && !StartsWith(w + " ", "delete ")
    ensures Classify(w + " on " + d, par) == PostChat
  {
    var m := w + " on " + d;
    CorrectionIsLower(w, d);
    if par.Some? {
      CorrectionIsNoScore(w, d, par.value);
    }
    assert !StartsWith(m, "delete ") by {
      if |w| >= 6 {
        assert m[..7] == (w + " ")[..7];
      } else {
        assert m[|w|] == ' ' && "delete "[|w|] != ' ';
      }
    }
  }

  lemma NoRuleMatches(m: string, par: int)
    requires Lower(m) == m && 0 < |m| && !IsWhitespace(m[0]) && !IsWhitespace(m[|m| - 1])
    requires IsLetter(m[0]) && NumberWord(m).None? && TableEntry(m).None? && !InheritedKey(m)
    ensures ParseScore(m, par).NoScore?
  {
    assert Normalize(m) == m;
    assert !IsDigit(m[0]) && m[0] != '+' && m[0] != '-';
  }

  /** A delete request is recognised in any letter case and names the team in the text's original case. */
  lemma DeleteKeepsCase(message: string, par: Option<int>)
    requires StartsWith(Lower(message), "delete ")
    ensures Classify(message, par) == DeleteRequest
    ensures |message| >= 7 && DeletionName(message) == Trim(message[7..])
  {
  }

  /** For example, the request `DELETE The Eagles ` names the team `The Eagles`. */
  lemma DeleteExample()
    ensures Classify("DELETE The Eagles ", Some(4)) == DeleteRequest
    ensures DeletionName("DELETE The Eagles ") == "The Eagles"
  {
    var m := "DELETE The Eagles ";
    assert Lower(m)[..7] == "delete ";
    DeleteKeepsCase(m, Some(4));
    var rest := "The Eagles ";
    assert m[7..] == rest;
    assert TrimStart(rest) == rest;
    assert rest[..|rest| - 1] == "The Eagles";
    assert TrimEnd(rest) == TrimEnd("The Eagles");
    assert TrimEnd("The Eagles") == "The Eagles";
  }

  /**
   * The hole pointer advances by one until the last hole and then stays there, so
   * a pointer that starts on the course never leaves it.
   */
  lemma NextHoleStaysOnCourse(current: int, totalHoles: int)
    ensures current < totalHoles ==> NextHole(current, totalHoles) == current + 1
    ensures current >= totalHoles ==> NextHole(current, totalHoles) == current
    ensures 1 <= current <= totalHoles ==> 1 <= NextHole(current, totalHoles) <= totalHoles
    ensures current == totalHoles ==> NextHole(current, totalHoles) == totalHoles
  {
  }

  // ----- the store invariant the handler keeps -----

  /** Every team's `total_score` is the sum of its stored strokes. */
  predicate TotalsMatch(teams: seq<Team>, scores: seq<TeamScore>)
  {
    forall i :: 0 <= i < |teams| ==> teams[i].totalScore == TotalStrokes(ScoresOf(scores, i))
  }

  lemma {:induction false} NoScoresForNewTeam(scores: seq<TeamScore>, n: nat)
    requires forall i :: 0 <= i < |scores| ==> scores[i].teamId < n
    ensures ScoresOf(scores, n) == []
  {
    if scores != [] {
      assert forall i :: 1 <= i < |scores| ==> scores[i] == scores[1..][i - 1];
      NoScoresForNewTeam(scores[1..], n);
    }
  }

  /** A new team starts with total 0 and no scores, so the totals still match. */
  lemma NewTeamKeepsTotals(teams: seq<Team>, scores: seq<TeamScore>, team: Team)
    requires TotalsMatch(teams, scores)
    requires forall i :: 0 <= i < |scores| ==> scores[i].teamId < |teams|
    requires team.totalScore == 0
    ensures TotalsMatch(teams + [team], scores)
  {
    NoScoresForNewTeam(scores, |teams|);
  }

  /** Storing a score and writing back the team's sum keeps the totals of every team matching. */
  lemma ScoreKeepsTotals(teams: seq<Team>, scores: seq<TeamScore>, score: TeamScore, hole: int)
    requires TotalsMatch(teams, scores) && score.teamId < |teams|
    ensures var newScores := Upsert(scores, score);
      TotalsMatch(SetProgress(teams, score.teamId, TotalStrokes(ScoresOf(newScores, score.teamId)), hole), newScores)
  {
    var newScores := Upsert(scores, score);
    forall j | 0 <= j < |teams| && j != score.teamId
      ensures ScoresOf(newScores, j) == ScoresOf(scores, j)
    {
      UpsertOtherTeams(scores, score, j);
    }
  }

  // ----- what each handler leaves behind -----

  /**
   * `handleTeamDeletion`: only the teams table may change; only the sender's own live
   * team, and only while it has no scores, is soft-deleted. The rejection for any
   * other name reads a field the player row does not have and throws (`None`).
   */
  predicate DeletionOutcome(before: Tables, after: Tables, player: Player, message: string, t: Tournament,
                            reply: Option<Reply>)
  {
    var found := FindByName(before.teams, t.id, DeletionName(message));
    && after == before.(teams := after.teams)
    && if found.None? || Some(found.value.id) != player.teamId then
         reply.None? && after.teams == before.teams
       else if |ScoresOf(before.scores, found.value.id)| > 0 then
         reply == Some(CannotDeleteScored) && after.teams == before.teams
       else
         reply == Some(Deleted(DeletionName(message))) && after.teams == SoftDelete(before.teams, found.value.id)
  }

  /**
   * `handleScoreSubmission` on a parse result. No score gets the format reply and
   * changes nothing. A non-numeric result makes `addTeamScore` throw before anything
   * is stored (`None`). A numeric one upserts the strokes at the current hole, stores
   * the team's sum with the next hole, broadcasts a leaderboard update, and reports
   * the scored hole; on the last hole it adds the final total and place.
   */
  predicate ScoreOutcome(before: Tables, after: Tables, out0: Outbox<Event>, out1: Outbox<Event>, totalHoles: int,
                         team: Team, t: Tournament, parsed: Parsed, dead: set<Handle>, reply: Option<Reply>)
  {
    match parsed
    case NoScore => reply == Some(InvalidScore) && after == before && out1 == out0
    case NonNumeric(_, _) => reply.None? && after == before && out1 == out0
    case Numeric(s) =>
      var total := TotalStrokes(ScoresOf(after.scores, team.id));
      && after == before.(teams := after.teams, scores := after.scores)
      && after.scores == Upsert(before.scores, TeamScore(team.id, team.currentHole, s.strokes))
      && after.teams == SetProgress(before.teams, team.id, total, NextHole(team.currentHole, totalHoles))
      && total == team.totalScore + s.strokes - StrokesOrZero(StrokesAt(before.scores, team.id, team.currentHole))
      && Broadcasted(out0, out1, t.urlId, LeaderboardUpdate(t.id), Leaderboard, dead)
      && reply == Some(Recorded(team.currentHole, s.strokes, s.description,
                                if team.currentHole == totalHoles
                                then Some(Completion(total, Position(after.teams, t.id, team.id)))
                                else None,
                                t.urlId))
  }

  /** `handleChatMessage`: stores the message, broadcasts it with the team's name, and confirms. */
  predicate ChatOutcome(before: Tables, after: Tables, out0: Outbox<Event>, out1: Outbox<Event>,
                        team: Team, t: Tournament, message: string, dead: set<Handle>, reply: Option<Reply>)
  {
    var row := ChatMessage(t.id, team.id, message);
    && after == before.(chats := before.chats + [row])
    && Broadcasted(out0, out1, t.urlId, ChatUpdate(ChatEntry(row, team.name)), Chat, dead)
    && reply == Some(ChatSent(t.urlId))
  }

  /** What acting on a classified message does, by the action; help changes nothing. */
  predicate Acted(action: Action, before: Tables, after: Tables, out0: Outbox<Event>, out1: Outbox<Event>,
                  totalHoles: int, t: Tournament, player: Player, team: Team, message: string,
                  dead: set<Handle>, reply: Option<Reply>)
  {
    match action
    case ShowHelp => reply == Some(Help(team.name, team.currentHole, t.urlId)) && after == before && out1 == out0
    case DeleteRequest => DeletionOutcome(before, after, player, message, t, reply) && out1 == out0
    case SubmitScore(parsed) => ScoreOutcome(before, after, out0, out1, totalHoles, team, t, parsed, dead, reply)
    case PostChat => ChatOutcome(before, after, out0, out1, team, t, message, dead, reply)
  }

  // ----- the handlers -----

  /** `handleNewPlayer`: creates the player and welcomes them; the message itself is ignored. */
  method HandleNewPlayer(db: Store, phoneNumber: string) returns (reply: Reply)
    requires db.Valid()
    modifies db`players
    ensures db.Valid()
    ensures db.players == UpsertPlayer(old(db.players), phoneNumber, None)
    ensures reply == Welcome
  {
    db.CreatePlayer(phoneNumber, None);
    reply := Welcome;
  }

  /**
   * `handleTeamJoin`: joins the tournament's live team of exactly that name, creating
   * it first when there is none. `None` is the thrown "Tournament not found".
   */
  method HandleTeamJoin(db: Store, tournament: Option<Tournament>, phoneNumber: string, teamName: string)
    returns (reply: Option<Reply>)
    requires db.Valid() && TotalsMatch(db.teams, db.scores)
    modifies db`teams, db`players
    ensures db.Valid() && TotalsMatch(db.teams, db.scores)
    ensures tournament.None? ==> reply.None? && unchanged(db)
    ensures tournament.Some? ==>
      var t := tournament.value;
      var found := FindByName(old(db.teams), t.id, teamName);
      && (found.Some? ==>
            && db.teams == old(db.teams)
            && db.players == LinkPlayer(old(db.players), found.value.id, phoneNumber, None)
            && reply == Some(Joined(teamName, found.value.currentHole, t.urlId)))
      && (found.None? ==>
            && db.teams == old(db.teams) + [Team(|old(db.teams)|, t.id, teamName, 1, 0, false)]
            && db.players == LinkPlayer(old(db.players), |old(db.teams)|, phoneNumber, None)
            && reply == Some(Joined(teamName, 1, t.urlId)))
  {
    if tournament.None? {
      return None;
    }
    var t := tournament.value;
    var found := db.GetTeamByName(t.id, teamName);
    var team: Team;
    if found.Some? {
      team := found.value;
      var k :| 0 <= k < |db.teams| && db.teams[k] == team;
    } else {
      NewTeamKeepsTotals(db.teams, db.scores, Team(|db.teams|, t.id, teamName, 1, 0, false));
      team := db.CreateTeam(t.id, teamName);
    }
    db.AddPlayerToTeam(team.id, phoneNumber, None);
    reply := Some(Joined(teamName, team.currentHole, t.urlId));
  }

  /** `handleTeamDeletion`, as DeletionOutcome states it. */
  method HandleTeamDeletion(db: Store, player: Player, message: string, t: Tournament) returns (reply: Option<Reply>)
    requires db.Valid() && TotalsMatch(db.teams, db.scores)
    modifies db`teams
    ensures db.Valid() && TotalsMatch(db.teams, db.scores)
    ensures DeletionOutcome(old(db.Contents()), db.Contents(), player, message, t, reply)
  {
    var teamName := DeletionName(message);
    var found := db.GetTeamByName(t.id, teamName);
    if found.None? || Some(found.value.id) != player.teamId {
      return None;
    }
    var team := found.value;
    if |db.GetTeamScores(team.id)| > 0 {
      return Some(CannotDeleteScored);
    }
    db.DeleteTeam(team.id);
    reply := Some(Deleted(teamName));
  }

  /**
   * The store half of a score submission: upsert the strokes at the current hole,
   * sum the team's scores and store that total with the next hole.
   */
  method RecordScore(db: Store, team: Team, strokes: int, totalHoles: int) returns (totalScore: int)
    requires db.Valid() && TotalsMatch(db.teams, db.scores)
    requires team.id < |db.teams| && db.teams[team.id] == team
    modifies db`scores, db`teams
    ensures db.Valid() && TotalsMatch(db.teams, db.scores)
    ensures db.scores == Upsert(old(db.scores), TeamScore(team.id, team.currentHole, strokes))
    ensures totalScore == TotalStrokes(ScoresOf(db.scores, team.id))
    ensures totalScore == team.totalScore + strokes - StrokesOrZero(StrokesAt(old(db.scores), team.id, team.currentHole))
    ensures db.teams == SetProgress(old(db.teams), team.id, totalScore, NextHole(team.currentHole, totalHoles))
  {
    var score := TeamScore(team.id, team.currentHole, strokes);
    UpsertKeepsUnique(db.scores, score);
    UpsertTotal(db.scores, score);
    var nextHole := NextHole(team.currentHole, totalHoles);
    ScoreKeepsTotals(db.teams, db.scores, score, nextHole);
    db.AddTeamScore(team.id, team.currentHole, strokes);
    totalScore := TotalStrokes(db.GetTeamScores(team.id));
    db.UpdateTeamScore(team.id, totalScore, nextHole);
  }

  /** `handleScoreSubmission`, as ScoreOutcome states it for the message parsed at `par`. */
  method HandleScoreSubmission(db: Store, conns: ConnectionManager<Event>, team: Team, t: Tournament,
                               message: string, par: int, dead: set<Handle>) returns (reply: Option<Reply>)
    requires db.Valid() && TotalsMatch(db.teams, db.scores)
    requires team.id < |db.teams| && db.teams[team.id] == team
    modifies db`scores, db`teams, conns`connections, conns`sent
    ensures db.Valid() && TotalsMatch(db.teams, db.scores)
    ensures ScoreOutcome(old(db.Contents()), db.Contents(), old(conns.State()), conns.State(),
                         |db.GetGolfCourseHoles(t.golfCourseId)|, team, t, ParseScore(message, par), dead, reply)
  {
    var parsed := ParseScore(message, par);
    if parsed.NoScore? {
      return Some(InvalidScore);
    }
    if parsed.NonNumeric? {
      return None;
    }
    var s := parsed.score;
    var totalHoles := |db.GetGolfCourseHoles(t.golfCourseId)|;
    var totalScore := RecordScore(db, team, s.strokes, totalHoles);
    conns.BroadcastToTournament(t.urlId, LeaderboardUpdate(t.id), Leaderboard, dead);
    var completion: Option<Completion> := None;
    if team.currentHole == totalHoles {
      var position := db.GetTeamPosition(t.id, team.id);
      completion := Some(Completion(totalScore, position));
    }
    reply := Some(Recorded(team.currentHole, s.strokes, s.description, completion, t.urlId));
  }

  /** `handleChatMessage`, as ChatOutcome states it. */
  method HandleChatMessage(db: Store, conns: ConnectionManager<Event>, team: Team, t: Tournament,
                           message: string, dead: set<Handle>) returns (reply: Option<Reply>)
    requires db.Valid() && TotalsMatch(db.teams, db.scores)
    requires team.id < |db.teams| && db.teams[team.id] == team
    modifies db`chats, conns`connections, conns`sent
    ensures db.Valid() && TotalsMatch(db.teams, db.scores)
    ensures ChatOutcome(old(db.Contents()), db.Contents(), old(conns.State()), conns.State(), team, t, message, dead, reply)
  {
    var entry := db.AddChatMessage(t.id, team.id, message);
    conns.BroadcastToTournament(t.urlId, ChatUpdate(entry.(teamName := team.name)), Chat, dead);
    reply := Some(ChatSent(t.urlId));
  }

  /** The part of `handleExistingPlayer` after both lookups succeeded: acts on the classified message. */
  method ActOnMessage(db: Store, conns: ConnectionManager<Event>, t: Tournament, player: Player, team: Team,
                      message: string, dead: set<Handle>) returns (reply: Option<Reply>)
    requires db.Valid() && TotalsMatch(db.teams, db.scores)
    requires team.id < |db.teams| && db.teams[team.id] == team
    modifies db`teams, db`scores, db`chats, conns`connections, conns`sent
    ensures db.Valid() && TotalsMatch(db.teams, db.scores)
    ensures var holes := db.GetGolfCourseHoles(t.golfCourseId);
      Acted(Classify(message, CurrentPar(holes, team.currentHole)), old(db.Contents()), db.Contents(),
            old(conns.State()), conns.State(), |holes|, t, player, team, message, dead, reply)
  {
    var par := CurrentPar(db.GetGolfCourseHoles(t.golfCourseId), team.currentHole);
    var action := Classify(message, par);
    match action {
      case ShowHelp =>
        reply := Some(Help(team.name, team.currentHole, t.urlId));
      case DeleteRequest =>
        reply := HandleTeamDeletion(db, player, message, t);
      case SubmitScore(_) =>
        reply := HandleScoreSubmission(db, conns, team, t, message, par.value, dead);
      case PostChat =>
        reply := HandleChatMessage(db, conns, team, t, message, dead);
    }
  }

  /**
   * `handleExistingPlayer`: needs the tournament and the player's live team, then acts
   * on the classified message. `None` is a thrown error.
   */
  method HandleExistingPlayer(db: Store, conns: ConnectionManager<Event>, tournament: Option<Tournament>,
                              player: Player, message: string, dead: set<Handle>) returns (reply: Option<Reply>)
    requires db.Valid() && TotalsMatch(db.teams, db.scores)
    requires player.teamId.Some?
    modifies db`teams, db`scores, db`chats, conns`connections, conns`sent
    ensures db.Valid() && TotalsMatch(db.teams, db.scores)
    ensures tournament.None? || LiveTeam(old(db.teams), player.teamId.value).None? ==>
      reply.None? && unchanged(db) && unchanged(conns)
    ensures tournament.Some? && LiveTeam(old(db.teams), player.teamId.value).Some? ==>
      var t := tournament.value;
      var team := LiveTeam(old(db.teams), player.teamId.value).value;
      var holes := db.GetGolfCourseHoles(t.golfCourseId);
      Acted(Classify(message, CurrentPar(holes, team.currentHole)), old(db.Contents()), db.Contents(),
            old(conns.State()), conns.State(), |holes|, t, player, team, message, dead, reply)
  {
    if tournament.None? {
      return None;
    }
    var found := db.GetTeamById(player.teamId.value);
    if found.None? {
      return None;
    }
    reply := ActOnMessage(db, conns, tournament.value, player, found.value, message, dead);
  }

  /**
   * `handleMessage`: formats the sender, trims the body, dispatches on the sender's
   * records, and turns any thrown error into the apology. The tournament is the
   * result of looking up the default tournament; `handled` is what the chosen
   * handler returned, `None` when it threw.
   */
  method HandleMessage(db: Store, conns: ConnectionManager<Event>, tournament: Option<Tournament>,
                       from: string, body: string, dead: set<Handle>)
    returns (out: Outgoing, ghost handled: Option<Reply>)
    requires db.Valid() && TotalsMatch(db.teams, db.scores)
    modifies db`teams, db`players, db`scores, db`chats, conns`connections, conns`sent
    ensures db.Valid() && TotalsMatch(db.teams, db.scores)
    ensures out.to == FormatPhoneNumber(from)
    ensures FormatPhoneNumber(from) in db.players
    ensures out.reply == if handled.Some? then handled.value else Apology
    ensures var phone := FormatPhoneNumber(from);
      match StateOf(old(db.players), phone)
      case Unregistered =>
        && out.reply == Welcome
        && db.players == UpsertPlayer(old(db.players), phone, None)
        && StateOf(db.players, phone) == AwaitingTeam
        && db.teams == old(db.teams) && db.scores == old(db.scores) && db.chats == old(db.chats)
        && unchanged(conns)
      case AwaitingTeam =>
        && (out.reply == Apology <==> tournament.None?)
        && (tournament.Some? ==>
              && StateOf(db.players, phone).OnTeam?
              && db.teams[db.players[phone].teamId.value].name == Trim(body)
              && out.reply == Joined(Trim(body), db.teams[db.players[phone].teamId.value].currentHole, tournament.value.urlId))
        && (tournament.None? ==> unchanged(db))
        && (tournament.Some? ==>
              var t := tournament.value;
              var found := FindByName(old(db.teams), t.id, Trim(body));
              && (found.Some? ==>
                    && db.teams == old(db.teams)
                    && db.players == LinkPlayer(old(db.players), found.value.id, phone, None))
              && (found.None? ==>
                    && db.teams == old(db.teams) + [Team(|old(db.teams)|, t.id, Trim(body), 1, 0, false)]
                    && db.players == LinkPlayer(old(db.players), |old(db.teams)|, phone, None)))
        && db.scores == old(db.scores) && db.chats == old(db.chats) && unchanged(conns)
      case OnTeam(teamId) =>
        && db.players == old(db.players)
        && (tournament.None? || LiveTeam(old(db.teams), teamId).None? ==>
              out.reply == Apology && unchanged(db) && unchanged(conns))
        && (tournament.Some? && LiveTeam(old(db.teams), teamId).Some? ==>
              var t := tournament.value;
              var team := LiveTeam(old(db.teams), teamId).value;
              var holes := db.GetGolfCourseHoles(t.golfCourseId);
              Acted(Classify(Trim(body), CurrentPar(holes, team.currentHole)), old(db.Contents()), db.Contents(),
                    old(conns.State()), conns.State(), |holes|, t, old(db.players)[phone], team, Trim(body),
                    dead, handled))
  {
    var phoneNumber := FormatPhoneNumber(from);
    var message := Trim(body);
    var player := db.GetPlayerByPhone(phoneNumber);
    var reply: Option<Reply>;
    if player.None? {
      var r := HandleNewPlayer(db, phoneNumber);
      reply := Some(r);
    } else if player.value.teamId.None? {
      reply := HandleTeamJoin(db, tournament, phoneNumber, message);
      if tournament.Some? {
        var t := tournament.value;
        var f := FindByName(old(db.teams), t.id, message);
        if f.Some? {
          var k :| 0 <= k < |old(db.teams)| && old(db.teams)[k] == f.value;
        }
      }
    } else {
      reply := HandleExistingPlayer(db, conns, tournament, player.value, message, dead);
    }
    handled := reply;
    out := Outgoing(phoneNumber, if reply.Some? then reply.value else Apology);
  }
}

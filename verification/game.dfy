/**
 * `ScavengerHuntGame`: the dictionary of player records, updated in place by
 * each message. Every method is proved to leave the dictionary as the
 * corresponding step of module Engine prescribes and to keep every record
 * well-formed. The current time and what the external judge would answer are
 * passed in as parameters.
 */
module Game {
  import opened Matcher
  import opened Catalogue
  import opened Engine

  class ScavengerHuntGame {
    /** Phone number to player record. */
    var players: map<string, Player>
    /** Whether the natural-language judge was configured at start-up. */
    const hasJudge: bool
    /** The clue catalogue, set once at start-up. */
    const clues: seq<Clue>

    ghost predicate Valid()
      reads this
    {
      && WellShaped(clues)
      && forall phone :: phone in players ==> WellFormed(clues, players[phone])
    }

    constructor (hasJudge: bool)
      ensures Valid()
      ensures players == map[] && this.hasJudge == hasJudge && clues == Clues
    {
      players := map[];
      this.hasJudge := hasJudge;
      clues := Clues;
      CatalogueShape();
    }

    /** The record for `phone`, created with the defaults on first contact. */
    method GetPlayerData(phone: string, now: Stamp) returns (player: Player)
      requires Valid()
      modifies this
      ensures Valid()
      ensures old(phone in players) ==> player == old(players[phone]) && players == old(players)
      ensures old(phone !in players) ==> player == Fresh(now) && players == old(players)[phone := player]
    {
      if phone !in players {
        FreshWellFormed(clues, now);
        players := players[phone := Fresh(now)];
      }
      player := players[phone];
    }

    /** READY: clue 1 with no hints used; the score and completed list are not cleared. */
    method StartGame(phone: string, now: Stamp) returns (reply: Reply)
      requires Valid()
      modifies this
      ensures Valid()
      ensures var p := Lookup(old(players), phone, now);
        && players == old(players)[phone := p.(gameStarted := true, currentClue := 1, startTime := Some(now), hintsUsed := 0)]
        && players[phone].totalScore == p.totalScore
        && players[phone].completedClues == p.completedClues
      ensures reply == Welcome(clues[0].prompt)
    {
      var player := GetPlayerData(phone, now);
      StartPreservesWellFormed(clues, player, now);
      player := player.(gameStarted := true);
      player := player.(currentClue := 1);
      player := player.(startTime := Some(now));
      player := player.(hintsUsed := 0);
      players := players[phone := player];
      reply := Welcome(clues[0].prompt);
    }

    /** An incoming answer, with `call` what the judge does if it is consulted. */
    method ProcessAnswer(phone: string, message: string, call: JudgeCall, now: Stamp) returns (reply: Reply)
      requires Valid()
      modifies this
      ensures Valid()
      ensures var step := Process(clues, Lookup(old(players), phone, now), message, hasJudge, call, now);
        players == old(players)[phone := step.0] && reply == step.1
    {
      var player := GetPlayerData(phone, now);
      ghost var stored := players;
      assert player == Lookup(old(players), phone, now) && stored == old(players)[phone := player];
      if !player.gameStarted {
        return ReadyPrompt;
      }
      var index := player.currentClue - 1;
      if index >= |clues| {
        reply := GetFinalScore(phone, now);
        return;
      }
      var clue := clues[index];
      var isCorrect := CheckAnswer(hasJudge, call, message, clue.expectedAnswers);
      assert Process(clues, player, message, hasJudge, call, now) == Answer(clues, player, isCorrect);
      if isCorrect {
        reply := HandleCorrectAnswer(phone);
      } else {
        reply := HandleIncorrectAnswer(phone);
      }
      assert players == stored[phone := players[phone]];
    }

    /** A right answer to the current clue. */
    method HandleCorrectAnswer(phone: string) returns (reply: Reply)
      requires Valid() && phone in players && Active(clues, players[phone])
      modifies this
      ensures Valid()
      ensures var step := OnCorrect(clues, old(players[phone]));
        players == old(players)[phone := step.0] && reply == step.1
    {
      var player := players[phone];
      AnswerPreservesWellFormed(clues, player, true);
      var clue := clues[player.currentClue - 1];
      var points := Points(player.hintsUsed);
      player := player.(totalScore := player.totalScore + points);
      player := player.(completedClues := player.completedClues + [Completion(clue.id, points, player.hintsUsed)]);
      player := player.(currentClue := player.currentClue + 1);
      player := player.(hintsUsed := 0);
      players := players[phone := player];
      // The completion test nested inside this guard (current clue equal to
      // six) can never hold here, so no summary is produced on this turn.
      if player.currentClue <= |clues| {
        reply := Correct(points, Some(Announce(player.currentClue, clues[player.currentClue - 1].prompt)));
      } else {
        reply := Correct(points, None);
      }
    }

    /** A wrong answer: the next hint, or once all three are used, the answer and 5 points. */
    method HandleIncorrectAnswer(phone: string) returns (reply: Reply)
      requires Valid() && phone in players && Active(clues, players[phone])
      modifies this
      ensures Valid()
      ensures var step := OnIncorrect(clues, old(players[phone]));
        players == old(players)[phone := step.0] && reply == step.1
    {
      var player := players[phone];
      AnswerPreservesWellFormed(clues, player, false);
      var clue := clues[player.currentClue - 1];
      if player.hintsUsed < |clue.hints| {
        var hint := clue.hints[player.hintsUsed];
        player := player.(hintsUsed := player.hintsUsed + 1);
        players := players[phone := player];
        reply := Hint(hint);
      } else {
        var answer := clue.expectedAnswers[0];
        player := player.(totalScore := player.totalScore + ConsolationPoints);
        player := player.(completedClues := player.completedClues + [Completion(clue.id, ConsolationPoints, player.hintsUsed)]);
        player := player.(currentClue := player.currentClue + 1);
        player := player.(hintsUsed := 0);
        players := players[phone := player];
        // As above, the nested completion test is unreachable.
        if player.currentClue <= |clues| {
          reply := Revealed(answer, Some(Announce(player.currentClue, clues[player.currentClue - 1].prompt)));
        } else {
          reply := Revealed(answer, None);
        }
      }
    }

    /** The final summary, listing the completed clues in order; the record is then reset. */
    method GetFinalScore(phone: string, now: Stamp) returns (reply: Reply)
      requires Valid()
      modifies this
      ensures Valid()
      ensures var p := Lookup(old(players), phone, now);
        && reply == Summary(p.totalScore, p.completedClues, RankOf(p.totalScore))
        && players == old(players)[phone := Fresh(now)]
    {
      var player := GetPlayerData(phone, now);
      var performance: seq<Completion> := [];
      var i := 0;
      while i < |player.completedClues|
        invariant 0 <= i <= |player.completedClues|
        invariant performance == player.completedClues[..i]
      {
        var completed := player.completedClues[i];
        performance := performance + [Completion(completed.clueId, completed.pointsEarned, completed.hintsUsed)];
        i := i + 1;
      }
      assert player.completedClues[..i] == player.completedClues;
      var rank := if player.totalScore >= 180 then Expert
        else if player.totalScore >= 150 then Explorer
        else if player.totalScore >= 100 then Guide
        else Seeker;
      FreshWellFormed(clues, now);
      players := players[phone := Fresh(now)];
      reply := Summary(player.totalScore, performance, rank);
    }

    /** STATUS: progress on the current clue, or that the game is not started or completed. */
    method GetStatus(phone: string, now: Stamp) returns (reply: Reply)
      requires Valid()
      modifies this
      ensures Valid()
      ensures var p := Lookup(old(players), phone, now);
        players == old(players)[phone := p] && reply == Status(clues, p)
    {
      var player := GetPlayerData(phone, now);
      if !player.gameStarted {
        return NotStartedStatus;
      }
      var current := player.currentClue;
      if current > |clues| {
        return CompletedStatus;
      }
      reply := Progress(current, player.totalScore, player.hintsUsed, clues[current - 1].prompt);
    }
  }
}

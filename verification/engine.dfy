/**
 * The per-player state machine of the scavenger hunt, as functions on a
 * player record. Each function gives the record after one step of the game
 * and the reply sent back; the class in module Game performs the same steps
 * in place on its dictionary of players and is proved against these.
 *
 * Replies are modelled by their kind and the values they embed (points,
 * hint text, revealed answer, next clue), not by their full prose.
 *
 * Like the Python methods, which read `self.clues`, every step takes the
 * clue catalogue as a parameter `clues`; the game passes the fixed catalogue.
 */
module Engine {
  import opened Matcher
  import opened Catalogue

  /** A wall-clock timestamp in ISO form; the model never inspects it. */
  type Stamp = string

  datatype Option<T> = None | Some(value: T)

  /** One resolved clue as recorded in `completed_clues`. */
  datatype Completion = Completion(clueId: int, pointsEarned: int, hintsUsed: int)

  /** A player's record, keyed by phone number in the game's dictionary. */
  datatype Player = Player(
    currentClue: int,
    totalScore: int,
    hintsUsed: int,
    gameStarted: bool,
    completedClues: seq<Completion>,
    startTime: Option<Stamp>,
    lastActivity: Stamp)

  datatype Rank = Seeker | Guide | Explorer | Expert

  /** The "Clue n/5" announcement of the clue to solve next. */
  datatype Announce = Announce(number: int, prompt: string)

  datatype Reply =
    | ReadyPrompt                                  // not started: send READY
    | Welcome(firstClue: string)                   // welcome text, then clue 1
    | Correct(points: int, next: Option<Announce>)
    | Hint(hint: string)
    | Revealed(answer: string, next: Option<Announce>)  // 5 consolation points
    | Summary(finalScore: int, performance: seq<Completion>, rank: Rank)
    | NotStartedStatus
    | CompletedStatus
    | Progress(clue: int, score: int, hintsUsed: int, prompt: string)

  const ConsolationPoints: int := 5

  /** The record `get_player_data` creates and `get_final_score` reinstates. */
  function Fresh(now: Stamp): (p: Player)
    ensures !p.gameStarted && p.currentClue == 0 && p.hintsUsed == 0 && p.startTime == None
    ensures p.totalScore == 0 && p.completedClues == [] && p.lastActivity == now
  {
    Player(0, 0, 0, false, [], None, now)
  }

  /** What `get_player_data` hands back: the stored record, or a fresh one. */
  function Lookup(players: map<string, Player>, phone: string, now: Stamp): (p: Player)
    ensures phone in players ==> p == players[phone]
    ensures phone !in players ==> p == Fresh(now)
  {
    if phone in players then players[phone] else Fresh(now)
  }

  function Min(a: int, b: int): int { if a <= b then a else b }

  /** Points for a correct answer after `hints` hints: 40, less 10 per hint, never below 10. */
  function Points(hints: int): (p: int)
    ensures hints >= 0 ==> p == 40 - 10 * Min(hints, 3)
    ensures hints < 0 ==> p == 10
    ensures p == 10 || p == 20 || p == 30 || p == 40
  {
    var table := map[0 := 40, 1 := 30, 2 := 20, 3 := 10];
    if hints in table then table[hints] else 10
  }

  /** The rank printed under the final score. */
  function RankOf(score: int): (r: Rank)
    ensures r == Expert <==> score >= 180
    ensures r == Explorer <==> 150 <= score < 180
    ensures r == Guide <==> 100 <= score < 150
    ensures r == Seeker <==> score < 100
  {
    if score >= 180 then Expert
    else if score >= 150 then Explorer
    else if score >= 100 then Guide
    else Seeker
  }

  function Tier(r: Rank): nat {
    match r
    case Seeker => 0
    case Guide => 1
    case Explorer => 2
    case Expert => 3
  }

  /** A higher score never earns a lower rank. */
  lemma RankMonotone(a: int, b: int)
    requires a <= b
    ensures Tier(RankOf(a)) <= Tier(RankOf(b))
  {
  }

  /** Sum of the points recorded in a list of completions. */
  ghost function Earned(cs: seq<Completion>): int {
    if cs == [] then 0 else cs[0].pointsEarned + Earned(cs[1..])
  }

  lemma {:induction false} EarnedAppend(cs: seq<Completion>, c: Completion)
    ensures Earned(cs + [c]) == Earned(cs) + c.pointsEarned
  {
    if cs != [] {
      assert (cs + [c])[1..] == cs[1..] + [c];
      EarnedAppend(cs[1..], c);
    }
  }

  /** A completion record the game can produce: a decayed score, or the consolation after three hints. */
  ghost predicate ValidCompletion(clues: seq<Clue>, c: Completion) {
    && 1 <= c.clueId <= |clues|
    && 0 <= c.hintsUsed <= 3
    && (c.pointsEarned == Points(c.hintsUsed) || (c.pointsEarned == ConsolationPoints && c.hintsUsed == 3))
  }

  /**
   * The most recent `currentClue - 1` completions are clues 1, 2, ... in order.
   * Earlier ones may precede them: restarting does not clear the list.
   * It depends on those two fields only, so a step that keeps them keeps it.
   */
  ghost predicate CurrentRun(currentClue: int, cs: seq<Completion>) {
    var start := |cs| - (currentClue - 1);
    && 0 <= start <= |cs|
    && forall k :: start <= k < |cs| ==> cs[k].clueId == k - start + 1
  }

  /** The invariant every record in the dictionary keeps. */
  ghost predicate WellFormed(clues: seq<Clue>, p: Player) {
    && 0 <= p.hintsUsed <= 3
    && p.totalScore == Earned(p.completedClues)
    && (forall k :: 0 <= k < |p.completedClues| ==> ValidCompletion(clues, p.completedClues[k]))
    && if p.gameStarted then
         && 1 <= p.currentClue <= |clues| + 1
         && p.startTime.Some?
         && (p.currentClue == |clues| + 1 ==> p.hintsUsed == 0)
         && CurrentRun(p.currentClue, p.completedClues)
       else
         && p.currentClue == 0 && p.totalScore == 0 && p.hintsUsed == 0
         && p.completedClues == [] && p.startTime == None
  }

  /** The player is on one of the clues. */
  predicate Active(clues: seq<Clue>, p: Player) {
    p.gameStarted && 1 <= p.currentClue <= |clues|
  }

  /** `start_game`: on clue 1 with no hints used; score and completed list are kept. */
  function Start(p: Player, now: Stamp): (q: Player)
    ensures q.gameStarted && q.currentClue == 1 && q.hintsUsed == 0 && q.startTime == Some(now)
    ensures q.totalScore == p.totalScore && q.completedClues == p.completedClues && q.lastActivity == p.lastActivity
  {
    p.(gameStarted := true, currentClue := 1, startTime := Some(now), hintsUsed := 0)
  }

  /** The clue announced after advancing to clue `n`, if there is one. */
  function NextClue(clues: seq<Clue>, n: int): (r: Option<Announce>)
    requires 1 <= n
    ensures r.Some? <==> n <= |clues|
    ensures r.Some? ==> r.value.number == n && r.value.prompt == clues[n - 1].prompt
  {
    if n <= |clues| then Some(Announce(n, clues[n - 1].prompt)) else None
  }

  /** Resolving the current clue for `points`: record it, move on, reset the hint count. */
  function Advance(clues: seq<Clue>, p: Player, points: int): (q: Player)
    requires Active(clues, p)
    ensures q.totalScore == p.totalScore + points
    ensures q.completedClues == p.completedClues + [Completion(clues[p.currentClue - 1].id, points, p.hintsUsed)]
    ensures q.currentClue == p.currentClue + 1 && q.hintsUsed == 0
    ensures q.gameStarted && q.startTime == p.startTime && q.lastActivity == p.lastActivity
  {
    var clue := clues[p.currentClue - 1];
    p.(totalScore := p.totalScore + points,
       completedClues := p.completedClues + [Completion(clue.id, points, p.hintsUsed)],
       currentClue := p.currentClue + 1,
       hintsUsed := 0)
  }

  /** `handle_correct_answer`. */
  function OnCorrect(clues: seq<Clue>, p: Player): (res: (Player, Reply))
    requires Active(clues, p)
    ensures var (q, r) := res;
      var points := Points(p.hintsUsed);
      && q.totalScore == p.totalScore + points
      && q.completedClues == p.completedClues + [Completion(clues[p.currentClue - 1].id, points, p.hintsUsed)]
      && q.currentClue == p.currentClue + 1 && q.hintsUsed == 0
      && q.gameStarted && q.startTime == p.startTime && q.lastActivity == p.lastActivity
      && r == Correct(points, NextClue(clues, q.currentClue))
  {
    var points := Points(p.hintsUsed);
    var q := Advance(clues, p, points);
    (q, Correct(points, NextClue(clues, q.currentClue)))
  }

  /** `handle_incorrect_answer`; the first accepted answer is indexed, so there must be one. */
  function OnIncorrect(clues: seq<Clue>, p: Player): (res: (Player, Reply))
    requires Active(clues, p) && 0 <= p.hintsUsed
    requires clues[p.currentClue - 1].expectedAnswers != []
    ensures var (q, r) := res;
      var clue := clues[p.currentClue - 1];
      && (r.Hint? <==> p.hintsUsed < |clue.hints|)
      && (r.Revealed? <==> p.hintsUsed >= |clue.hints|)
      && (r.Hint? ==> q == p.(hintsUsed := p.hintsUsed + 1) && r.hint == clue.hints[p.hintsUsed])
      && (r.Revealed? ==>
            && q.totalScore == p.totalScore + ConsolationPoints
            && q.completedClues == p.completedClues + [Completion(clue.id, ConsolationPoints, p.hintsUsed)]
            && q.currentClue == p.currentClue + 1 && q.hintsUsed == 0
            && r.answer == clue.expectedAnswers[0] && r.next == NextClue(clues, q.currentClue))
  {
    var clue := clues[p.currentClue - 1];
    if p.hintsUsed < |clue.hints| then
      (p.(hintsUsed := p.hintsUsed + 1), Hint(clue.hints[p.hintsUsed]))
    else
      var q := Advance(clues, p, ConsolationPoints);
      (q, Revealed(clue.expectedAnswers[0], NextClue(clues, q.currentClue)))
  }

  /** An answer to the current clue, already judged right or wrong. */
  function Answer(clues: seq<Clue>, p: Player, correct: bool): (res: (Player, Reply))
    requires Active(clues, p) && 0 <= p.hintsUsed
    requires clues[p.currentClue - 1].expectedAnswers != []
    ensures res.1.Correct? <==> correct
    ensures correct ==> res.1.points == Points(p.hintsUsed) && res.0.totalScore == p.totalScore + Points(p.hintsUsed)
    ensures !correct ==> (res.1.Hint? <==> p.hintsUsed < |clues[p.currentClue - 1].hints|) && (res.1.Hint? || res.1.Revealed?)
  {
    if correct then OnCorrect(clues, p) else OnIncorrect(clues, p)
  }

  /** `get_final_score`: the summary of the record, which is then replaced by a fresh one. */
  function FinalScore(p: Player, now: Stamp): (res: (Player, Reply))
    ensures res.0 == Fresh(now) && res.1.Summary?
    ensures res.1.finalScore == p.totalScore && res.1.performance == p.completedClues
    ensures res.1.rank == RankOf(res.1.finalScore)
  {
    (Fresh(now), Summary(p.totalScore, p.completedClues, RankOf(p.totalScore)))
  }

  /** `process_answer` applied to the record `get_player_data` returned. */
  function Process(clues: seq<Clue>, p: Player, message: string, hasJudge: bool, call: JudgeCall, now: Stamp): (res: (Player, Reply))
    requires WellShaped(clues) && WellFormed(clues, p)
    ensures !p.gameStarted ==> res == (p, ReadyPrompt)
    ensures p.gameStarted && p.currentClue > |clues| ==> res.0 == Fresh(now) && res.1.Summary?
    ensures Active(clues, p) ==>
      (res.1.Correct? <==> CheckAnswer(hasJudge, call, message, clues[p.currentClue - 1].expectedAnswers))
      && (res.1.Correct? || res.1.Hint? || res.1.Revealed?)
  {
    if !p.gameStarted then (p, ReadyPrompt)
    else if p.currentClue - 1 >= |clues| then FinalScore(p, now)
    else Answer(clues, p, CheckAnswer(hasJudge, call, message, clues[p.currentClue - 1].expectedAnswers))
  }

  /** `get_status`. */
  function Status(clues: seq<Clue>, p: Player): (r: Reply)
    requires WellFormed(clues, p)
    ensures r == NotStartedStatus <==> !p.gameStarted
    ensures r == CompletedStatus <==> p.gameStarted && p.currentClue > |clues|
    ensures r.Progress? <==> Active(clues, p)
    ensures r.Progress? ==>
      && r.clue == p.currentClue && r.score == p.totalScore && r.hintsUsed == p.hintsUsed
      && r.prompt == clues[p.currentClue - 1].prompt
  {
    if !p.gameStarted then NotStartedStatus
    else if p.currentClue > |clues| then CompletedStatus
    else Progress(p.currentClue, p.totalScore, p.hintsUsed, clues[p.currentClue - 1].prompt)
  }

  // ---------------------------------------------------------------------------
  // The invariant is established and kept

  lemma FreshWellFormed(clues: seq<Clue>, now: Stamp)
    ensures WellFormed(clues, Fresh(now))
  {
  }

  /** Starting (or restarting) keeps the invariant, though earlier completions stay on the list. */
  lemma StartPreservesWellFormed(clues: seq<Clue>, p: Player, now: Stamp)
    requires WellShaped(clues) && WellFormed(clues, p)
    ensures WellFormed(clues, Start(p, now))
    ensures Start(p, now).totalScore == p.totalScore
    ensures Start(p, now).completedClues == p.completedClues
  {
  }

  /** Recording the current clue extends the run in clue order by one. */
  lemma RunAppend(currentClue: int, cs: seq<Completion>, c: Completion)
    requires CurrentRun(currentClue, cs) && c.clueId == currentClue
    ensures CurrentRun(currentClue + 1, cs + [c])
  {
    var cs' := cs + [c];
    forall k | |cs| - (currentClue - 1) <= k < |cs'| ensures cs'[k].clueId == k - (|cs| - (currentClue - 1)) + 1 {
      if k < |cs| {
        assert cs'[k] == cs[k];
      }
    }
  }

  /** Appending a valid completion keeps every completion valid. */
  lemma ValidAppend(clues: seq<Clue>, cs: seq<Completion>, c: Completion)
    requires forall k :: 0 <= k < |cs| ==> ValidCompletion(clues, cs[k])
    requires ValidCompletion(clues, c)
    ensures forall k :: 0 <= k < |cs + [c]| ==> ValidCompletion(clues, (cs + [c])[k])
  {
    var cs' := cs + [c];
    forall k | 0 <= k < |cs'| ensures ValidCompletion(clues, cs'[k]) {
      if k < |cs| {
        assert cs'[k] == cs[k];
      }
    }
  }

  lemma {:induction false} AdvancePreservesWellFormed(clues: seq<Clue>, p: Player, points: int)
    requires WellShaped(clues) && WellFormed(clues, p) && Active(clues, p)
    requires points == Points(p.hintsUsed) || (points == ConsolationPoints && p.hintsUsed == 3)
    ensures WellFormed(clues, Advance(clues, p, points))
  {
    var c := Completion(clues[p.currentClue - 1].id, points, p.hintsUsed);
    assert c.clueId == p.currentClue;
    EarnedAppend(p.completedClues, c);
    RunAppend(p.currentClue, p.completedClues, c);
    ValidAppend(clues, p.completedClues, c);
  }

  lemma AnswerPreservesWellFormed(clues: seq<Clue>, p: Player, correct: bool)
    requires WellShaped(clues) && WellFormed(clues, p) && Active(clues, p)
    ensures WellFormed(clues, Answer(clues, p, correct).0)
  {
    if correct {
      AdvancePreservesWellFormed(clues, p, Points(p.hintsUsed));
    } else if p.hintsUsed >= 3 {
      AdvancePreservesWellFormed(clues, p, ConsolationPoints);
    } else {
      // a hint: only the hint count moves, and it stays within three
      var q := Answer(clues, p, correct).0;
      assert q == p.(hintsUsed := p.hintsUsed + 1);
      assert q.completedClues == p.completedClues && q.currentClue == p.currentClue;
    }
  }

  /** Every step of `process_answer` keeps the invariant; in particular at most three hints are ever used. */
  lemma ProcessPreservesWellFormed(clues: seq<Clue>, p: Player, message: string, hasJudge: bool, call: JudgeCall, now: Stamp)
    requires WellShaped(clues) && WellFormed(clues, p)
    ensures WellFormed(clues, Process(clues, p, message, hasJudge, call, now).0)
    ensures 0 <= Process(clues, p, message, hasJudge, call, now).0.hintsUsed <= 3
  {
    if Active(clues, p) {
      AnswerPreservesWellFormed(clues, p, CheckAnswer(hasJudge, call, message, clues[p.currentClue - 1].expectedAnswers));
    }
  }

  // ---------------------------------------------------------------------------
  // What one message does

  /** Before READY, an answer only earns the READY prompt and changes nothing. */
  lemma NotStartedIsInert(clues: seq<Clue>, p: Player, message: string, hasJudge: bool, call: JudgeCall, now: Stamp)
    requires WellShaped(clues) && WellFormed(clues, p) && !p.gameStarted
    ensures Process(clues, p, message, hasJudge, call, now) == (p, ReadyPrompt)
  {
  }

  /** A correct answer: hint-decayed points, a completion record, the next clue and a fresh hint count. */
  lemma CorrectAnswerScores(clues: seq<Clue>, p: Player)
    requires WellShaped(clues) && WellFormed(clues, p) && Active(clues, p)
    ensures var (q, r) := Answer(clues, p, true);
      var points := 40 - 10 * p.hintsUsed;
      && q.totalScore == p.totalScore + points
      && q.completedClues == p.completedClues + [Completion(p.currentClue, points, p.hintsUsed)]
      && q.currentClue == p.currentClue + 1
      && q.hintsUsed == 0
      && q.gameStarted && q.startTime == p.startTime && q.lastActivity == p.lastActivity
      && r == Correct(points, NextClue(clues, p.currentClue + 1))
  {
  }

  /** A wrong answer with hints left reveals the next hint and changes nothing else. */
  lemma WrongAnswerGivesHint(clues: seq<Clue>, p: Player)
    requires WellShaped(clues) && WellFormed(clues, p) && Active(clues, p) && p.hintsUsed < 3
    ensures Answer(clues, p, false) == (p.(hintsUsed := p.hintsUsed + 1), Hint(clues[p.currentClue - 1].hints[p.hintsUsed]))
  {
  }

  /** A wrong answer after all three hints: 5 points, the first accepted answer revealed, the next clue. */
  lemma WrongAnswerAfterHintsMovesOn(clues: seq<Clue>, p: Player)
    requires WellShaped(clues) && WellFormed(clues, p) && Active(clues, p) && p.hintsUsed == 3
    ensures var (q, r) := Answer(clues, p, false);
      && q.totalScore == p.totalScore + 5
      && q.completedClues == p.completedClues + [Completion(p.currentClue, 5, 3)]
      && q.currentClue == p.currentClue + 1
      && q.hintsUsed == 0
      && q.gameStarted && q.startTime == p.startTime && q.lastActivity == p.lastActivity
      && r == Revealed(clues[p.currentClue - 1].expectedAnswers[0], NextClue(clues, p.currentClue + 1))
  {
  }

  /**
   * During a game the score only grows, by one of the table's amounts (or not at all
   * when a hint is given), and the completed list only grows at its end.
   */
  lemma ScoreOnlyGrows(clues: seq<Clue>, p: Player, correct: bool)
    requires WellShaped(clues) && WellFormed(clues, p) && Active(clues, p)
    ensures var q := Answer(clues, p, correct).0;
      var gain := q.totalScore - p.totalScore;
      && (gain == 0 || gain == 5 || gain == 10 || gain == 20 || gain == 30 || gain == 40)
      && p.completedClues <= q.completedClues
      && (gain == 0 <==> q.completedClues == p.completedClues)
  {
  }

  /** Resolving clue 5 leaves the record on clue 6 with no summary; the summary waits for the next message. */
  lemma LastClueDefersSummary(clues: seq<Clue>, p: Player, correct: bool, message: string, hasJudge: bool, call: JudgeCall, now: Stamp)
    requires WellShaped(clues) && WellFormed(clues, p) && Active(clues, p) && p.currentClue == |clues|
    requires correct || p.hintsUsed == 3
    ensures var (q, r) := Answer(clues, p, correct);
      && q.gameStarted && q.currentClue == |clues| + 1
      && !r.Summary? && (r.Correct? || r.Revealed?) && r.next == None
      && WellFormed(clues, q)
      && Status(clues, q) == CompletedStatus
      && Process(clues, q, message, hasJudge, call, now)
           == (Fresh(now), Summary(q.totalScore, q.completedClues, RankOf(q.totalScore)))
  {
    AnswerPreservesWellFormed(clues, p, correct);
  }

  /** After the summary the record is the fresh one, so STATUS reports a game not started. */
  lemma SummaryResets(clues: seq<Clue>, p: Player, message: string, hasJudge: bool, call: JudgeCall, now: Stamp)
    requires WellShaped(clues) && WellFormed(clues, p) && p.gameStarted && p.currentClue == |clues| + 1
    ensures var (q, r) := Process(clues, p, message, hasJudge, call, now);
      && q == Fresh(now)
      && r == Summary(p.totalScore, p.completedClues, RankOf(p.totalScore))
      && r.finalScore == Earned(r.performance)
      && Status(clues, q) == NotStartedStatus
  {
  }

  /** Without a judge, replying with any accepted answer of the current clue is a correct answer. */
  lemma AcceptedAnswerIsCorrect(clues: seq<Clue>, p: Player, j: int, call: JudgeCall, now: Stamp)
    requires WellShaped(clues) && WellFormed(clues, p) && Active(clues, p)
    requires 0 <= j < |clues[p.currentClue - 1].expectedAnswers|
    ensures Process(clues, p, clues[p.currentClue - 1].expectedAnswers[j], false, call, now) == OnCorrect(clues, p)
  {
    var expected := clues[p.currentClue - 1].expectedAnswers;
    AliasAloneMatches(expected[j], expected);
  }

  // ---------------------------------------------------------------------------
  // Whole games

  /** A fresh start then a right answer gives 40; a hint on clue 2 then a right answer brings it to 70. */
  lemma HintDecayScenario(clues: seq<Clue>, now: Stamp)
    requires WellShaped(clues)
    ensures
      var p0 := Start(Fresh(now), now);
      var p1 := Answer(clues, p0, true).0;
      var (p2, r2) := Answer(clues, p1, false);
      var p3 := Answer(clues, p2, true).0;
      && p1.totalScore == 40 && p1.currentClue == 2 && p1.hintsUsed == 0
      && r2 == Hint(clues[1].hints[0]) && p2.totalScore == 40
      && p3.totalScore == 70 && p3.currentClue == 3
  {
  }

  /** Five right answers without hints from a fresh start: 200 points, rank Expert, then a fresh record. */
  lemma PerfectGame(clues: seq<Clue>, now: Stamp, later: Stamp, message: string, hasJudge: bool, call: JudgeCall)
    requires WellShaped(clues)
    ensures
      var p0 := Start(Fresh(now), now);
      var p1 := Answer(clues, p0, true).0;
      var p2 := Answer(clues, p1, true).0;
      var p3 := Answer(clues, p2, true).0;
      var p4 := Answer(clues, p3, true).0;
      var (p5, r5) := Answer(clues, p4, true);
      && p5.totalScore == 200
      && p5.currentClue == 6
      && r5 == Correct(40, None)
      && p5.completedClues == [Completion(1, 40, 0), Completion(2, 40, 0), Completion(3, 40, 0),
                               Completion(4, 40, 0), Completion(5, 40, 0)]
      && WellFormed(clues, p5)
      && Process(clues, p5, message, hasJudge, call, later).1 == Summary(200, p5.completedClues, Expert)
  {
    var p0 := Start(Fresh(now), now);
    FreshWellFormed(clues, now);
    StartPreservesWellFormed(clues, Fresh(now), now);
    AnswerPreservesWellFormed(clues, p0, true);
    var p1 := Answer(clues, p0, true).0;
    AnswerPreservesWellFormed(clues, p1, true);
    var p2 := Answer(clues, p1, true).0;
    AnswerPreservesWellFormed(clues, p2, true);
    var p3 := Answer(clues, p2, true).0;
    AnswerPreservesWellFormed(clues, p3, true);
    var p4 := Answer(clues, p3, true).0;
    AnswerPreservesWellFormed(clues, p4, true);
  }
}

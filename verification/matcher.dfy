/**
 * Answer checking. Without a configured natural-language judge, or when the
 * call to it raises, an answer is right exactly when one of the accepted
 * answers, lower-cased, occurs inside the lower-cased reply. With a judge,
 * its own reply decides: it must read CORRECT once trimmed and upper-cased.
 */
module Matcher {
  import opened Text

  /** The outcome of one call to the external judge: the text it sent back, or an exception. */
  datatype JudgeCall = Replied(content: string) | Raised

  function LowerAll(words: seq<string>): (r: seq<string>)
    ensures |r| == |words|
    ensures forall k :: 0 <= k < |words| ==> r[k] == Lower(words[k])
  {
    seq(|words|, k requires 0 <= k < |words| => Lower(words[k]))
  }

  /** The deterministic substring matcher. */
  function FallbackMatch(userAnswer: string, expected: seq<string>): (r: bool)
    ensures r <==> exists k :: 0 <= k < |expected| && Contains(Lower(userAnswer), Lower(expected[k]))
  {
    ContainsAny(Lower(userAnswer), LowerAll(expected))
  }

  /**
   * `check_answer_with_ai`: `hasJudge` is whether the judge was configured at
   * start-up, `call` what it did when asked about this answer.
   */
  function CheckAnswer(hasJudge: bool, call: JudgeCall, userAnswer: string, expected: seq<string>): (r: bool)
    ensures !hasJudge || call.Raised? ==> r == FallbackMatch(userAnswer, expected)
    ensures hasJudge && call.Replied? ==> (r <==> Upper(Strip(call.content)) == "CORRECT")
  {
    if !hasJudge then FallbackMatch(userAnswer, expected)
    else match call
      case Replied(content) => Upper(Strip(content)) == "CORRECT"
      case Raised => FallbackMatch(userAnswer, expected)
  }

  /** An accepted answer anywhere in the reply, in any letter case, is a match. */
  lemma AliasAnywhereMatches(front: string, word: string, back: string, alias: string, expected: seq<string>)
    requires alias in expected && Lower(word) == Lower(alias)
    ensures FallbackMatch(front + word + back, expected)
  {
    var k :| 0 <= k < |expected| && expected[k] == alias;
    LowerAppend(front + word, back);
    LowerAppend(front, word);
    OccursInside(Lower(front), Lower(word), Lower(back));
  }

  /** Replying with an accepted answer alone is a match (a property the game's design promises for every clue). */
  lemma AliasAloneMatches(alias: string, expected: seq<string>)
    requires alias in expected
    ensures FallbackMatch(alias, expected)
  {
    AliasAnywhereMatches("", alias, "", alias, expected);
    assert "" + alias + "" == alias;
  }

  /** A judge reply of CORRECT counts in any letter case and with surrounding whitespace. */
  lemma JudgeReplyTrimmed(front: string, word: string, back: string, userAnswer: string, expected: seq<string>)
    requires AllSpace(front) && AllSpace(back)
    requires Upper(word) == "CORRECT"
    ensures CheckAnswer(true, Replied(front + word + back), userAnswer, expected)
  {
    assert !IsSpace(word[0]) && !IsSpace(word[|word| - 1]) by {
      assert UpperChar(word[0]) == 'C' && UpperChar(word[|word| - 1]) == 'T';
    }
    StripIgnoresPadding(front, word, back);
    StripKeepsTrimmed(word);
  }

  /**
   * A judge that answers INCORRECT, in any letter case and with any surrounding
   * whitespace, overrides the substring test, even for an exact alias.
   */
  lemma JudgeOverridesFallback(front: string, word: string, back: string, userAnswer: string, expected: seq<string>)
    requires AllSpace(front) && AllSpace(back)
    requires Upper(word) == "INCORRECT"
    ensures !CheckAnswer(true, Replied(front + word + back), userAnswer, expected)
  {
    assert !IsSpace(word[0]) && !IsSpace(word[|word| - 1]) by {
      assert UpperChar(word[0]) == 'I' && UpperChar(word[|word| - 1]) == 'T';
    }
    assert Strip(front + word + back) == word by {
      StripIgnoresPadding(front, word, back);
      StripKeepsTrimmed(word);
    }
    assert |Upper(word)| == 9 != |"CORRECT"|;
  }
}

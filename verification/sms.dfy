/**
 * The keyword reply classifier of the SMS webhook (`generate_sms_response`).
 * The body is lower-cased and trimmed, then tested in a fixed order: greeting
 * words, help words, "info", farewell words, an all-digit number; anything
 * else is echoed back as it was sent. Every keyword test is a substring test.
 */
module Sms {
  import opened Text

  datatype SmsReply =
    | Greeting
    | Assistance
    | Info
    | Farewell
    | Number(value: nat, isEven: bool)
    | Echo(body: string)

  const Greetings: seq<string> := ["hello", "hi", "hey"]
  const HelpWords: seq<string> := ["help", "support"]
  const Farewells: seq<string> := ["bye", "goodbye", "thanks"]

  /** The text the keyword tests look at: `message_body.lower().strip()`; it has no capital letters left. */
  function Normalize(body: string): (m: string)
    ensures |m| <= |body|
    ensures Lower(m) == m
  {
    var lower := Lower(body);
    var (i, j) := StripBounds(lower);
    var m := lower[i..j];
    assert forall k :: 0 <= k < |m| ==> m[k] == lower[i + k];
    assert Lower(m) == m;
    Strip(lower)
  }

  /** Normalized text is already lower-case and trimmed: normalizing it again changes nothing. */
  lemma NormalizeIdempotent(body: string)
    ensures Normalize(Normalize(body)) == Normalize(body)
  {
    var m := Normalize(body);
    StripKeepsTrimmed(m);
  }

  predicate IsDigit(c: char) { '0' <= c <= '9' }

  /** Python's `str.isdigit()` for ASCII: non-empty and digits only. */
  predicate IsDigits(s: string)
    ensures |s| == 0 ==> !IsDigits(s)
    ensures IsDigits(s) ==> !IsSpace(s[0]) && !IsSpace(s[|s| - 1])
  {
    |s| > 0 && forall k :: 0 <= k < |s| ==> IsDigit(s[k])
  }

  function DigitOf(c: char): (d: nat)
    requires IsDigit(c)
    ensures d < 10
  {
    c as int - '0' as int
  }

  /** `int(s)` for a string of decimal digits (leading zeros allowed). */
  function DigitsValue(s: string): (n: nat)
    requires forall k :: 0 <= k < |s| ==> IsDigit(s[k])
    ensures n % 2 == 0 <==> |s| == 0 || DigitOf(s[|s| - 1]) % 2 == 0
  {
    if |s| == 0 then 0
    else
      var high, low := DigitsValue(s[..|s| - 1]), DigitOf(s[|s| - 1]);
      LastDigitParity(high, low);
      high * 10 + low
  }

  /** Only the last digit decides whether a decimal number is even. */
  lemma LastDigitParity(high: nat, low: nat)
    ensures (high * 10 + low) % 2 == low % 2
  {
    assert high * 10 + low == 2 * (5 * high) + low;
  }

  function DigitChar(d: nat): (c: char)
    requires d < 10
    ensures IsDigit(c) && c as int - '0' as int == d
  {
    ('0' as int + d) as char
  }

  /** The decimal spelling of `n`, without leading zeros. */
  function Decimal(n: nat): string {
    if n < 10 then [DigitChar(n)] else Decimal(n / 10) + [DigitChar(n % 10)]
  }

  /** Spelling a number in decimal and reading it back gives the number. */
  lemma {:induction false} DecimalRoundTrip(n: nat)
    ensures IsDigits(Decimal(n))
    ensures DigitsValue(Decimal(n)) == n
  {
    if n >= 10 {
      DecimalRoundTrip(n / 10);
      var s := Decimal(n);
      assert s[..|s| - 1] == Decimal(n / 10);
    }
  }

  /** The reply to an incoming SMS; the sender's number plays no part in it. */
  function GenerateSmsResponse(messageBody: string, fromNumber: string): (r: SmsReply)
    ensures var m := Normalize(messageBody);
      var greet := ContainsAny(m, Greetings);
      var help := ContainsAny(m, HelpWords);
      var info := Contains(m, "info");
      var bye := ContainsAny(m, Farewells);
      var keyword := greet || help || info || bye;
      && (r == Greeting <==> greet)
      && (r == Assistance <==> !greet && help)
      && (r == Info <==> !greet && !help && info)
      && (r == Farewell <==> !greet && !help && !info && bye)
      && (r.Number? <==> !keyword && IsDigits(m))
      && (r.Number? ==> r.value == DigitsValue(m) && (r.isEven <==> r.value % 2 == 0))
      && (r.Echo? <==> !keyword && !IsDigits(m))
      && (r.Echo? ==> r.body == messageBody)
  {
    var messageLower := Normalize(messageBody);
    if ContainsAny(messageLower, Greetings) then Greeting
    else if ContainsAny(messageLower, HelpWords) then Assistance
    else if Contains(messageLower, "info") then Info
    else if ContainsAny(messageLower, Farewells) then Farewell
    else if IsDigits(messageLower) then
      var number := DigitsValue(messageLower);
      Number(number, number % 2 == 0)
    else Echo(messageBody)
  }

  /** Normalizing ignores whitespace around the body. */
  lemma NormalizeIgnoresPadding(front: string, body: string, back: string)
    requires AllSpace(front) && AllSpace(back)
    ensures Normalize(front + body + back) == Normalize(body)
  {
    LowerAppend(front + body, back);
    LowerAppend(front, body);
    LowerKeepsSpace(front);
    LowerKeepsSpace(back);
    StripIgnoresPadding(front, Lower(body), back);
  }

  /**
   * Letter case and surrounding whitespace do not change the classification;
   * only an echoed reply differs, because it repeats the body as sent.
   */
  lemma ReplyIgnoresCaseAndPadding(front: string, body: string, body': string, back: string, from: string)
    requires AllSpace(front) && AllSpace(back)
    requires Lower(body') == Lower(body)
    ensures var r := GenerateSmsResponse(front + body' + back, from);
      var r' := GenerateSmsResponse(body, from);
      && r.Echo? == r'.Echo?
      && (!r'.Echo? ==> r == r')
  {
    NormalizeIgnoresPadding(front, body', back);
  }

  /** The reply depends on the body only. */
  lemma ReplyIgnoresSender(body: string, from: string, from': string)
    ensures GenerateSmsResponse(body, from) == GenerateSmsResponse(body, from')
  {
  }

  /** A keyword (it starts with a letter) never occurs in a string of digits. */
  lemma NoKeywordInDigits(s: string, word: string)
    requires IsDigits(s)
    requires |word| > 0 && !IsDigit(word[0])
    ensures !Contains(s, word)
  {
    forall i | 0 <= i && i + |word| <= |s|
      ensures !OccursAt(s, word, i)
    {
      assert s[i..i + |word|][0] == s[i];
    }
  }

  lemma NoKeywordsInDigits(s: string, words: seq<string>)
    requires IsDigits(s)
    requires forall k :: 0 <= k < |words| ==> |words[k]| > 0 && !IsDigit(words[k][0])
    ensures !ContainsAny(s, words)
  {
    forall k | 0 <= k < |words| ensures !Contains(s, words[k]) {
      NoKeywordInDigits(s, words[k]);
    }
  }

  /** Digits have no case and are not whitespace: a digit string is its own normal form. */
  lemma NormalizeDigits(s: string)
    requires IsDigits(s)
    ensures Normalize(s) == s
  {
    LowerKeepsDigits(s);
    StripKeepsDigits(s);
  }

  lemma LowerKeepsDigits(s: string)
    requires IsDigits(s)
    ensures Lower(s) == s
  {
  }

  lemma StripKeepsDigits(s: string)
    requires IsDigits(s)
    ensures Strip(s) == s
  {
    DigitIsNotSpace(s[0]);
    DigitIsNotSpace(s[|s| - 1]);
    StripKeepsTrimmed(s);
  }

  lemma DigitIsNotSpace(c: char)
    requires IsDigit(c)
    ensures !IsSpace(c)
  {
  }

  /** A body of digits alone is a number, read with its parity. */
  lemma DigitsReply(s: string, from: string)
    requires IsDigits(s)
    ensures GenerateSmsResponse(s, from) == Number(DigitsValue(s), DigitsValue(s) % 2 == 0)
  {
    NormalizeDigits(s);
    DigitsAfterNormalize(s, from);
  }

  /** Whenever the normalized body is all digits, no keyword test fires and the number is read. */
  lemma DigitsAfterNormalize(body: string, from: string)
    requires IsDigits(Normalize(body))
    ensures var m := Normalize(body);
      GenerateSmsResponse(body, from) == Number(DigitsValue(m), DigitsValue(m) % 2 == 0)
  {
    NoKeywordsInNumber(Normalize(body));
  }

  /** None of the keywords occurs in a string of digits. */
  lemma NoKeywordsInNumber(m: string)
    requires IsDigits(m)
    ensures !ContainsAny(m, Greetings) && !ContainsAny(m, HelpWords)
    ensures !Contains(m, "info") && !ContainsAny(m, Farewells)
  {
    NoKeywordsInDigits(m, Greetings);
    NoKeywordsInDigits(m, HelpWords);
    NoKeywordInDigits(m, "info");
    NoKeywordsInDigits(m, Farewells);
  }

  /** Any number, sent in decimal with or without surrounding whitespace, is read back with its parity. */
  lemma NumberReply(n: nat, front: string, back: string, from: string)
    requires AllSpace(front) && AllSpace(back)
    ensures GenerateSmsResponse(front + Decimal(n) + back, from) == Number(n, n % 2 == 0)
  {
    var s := Decimal(n);
    DecimalRoundTrip(n);
    DigitsReply(s, from);
    ReplyIgnoresCaseAndPadding(front, s, s, back, from);
  }

  /**
   * Greeting words are tested first and as substrings: a body holding "hello",
   * "hi" or "hey" in any letter case is a greeting, whatever else it holds
   * (so "this info" is a greeting, through the "hi" in "this").
   */
  lemma GreetingWins(front: string, word: string, back: string, from: string)
    requires Lower(word) in Greetings
    ensures GenerateSmsResponse(front + word + back, from) == Greeting
  {
    var w := Lower(word);
    assert |w| > 0 && forall k :: 0 <= k < |w| ==> IsAsciiLower(w[k]);
    WordSurvivesNormalize(front, word, back);
    var k :| 0 <= k < |Greetings| && Greetings[k] == w;
    assert Contains(Normalize(front + word + back), Greetings[k]);
  }

  /** A word of lower-case letters in the body is seen, lower-cased, by the keyword tests. */
  lemma WordSurvivesNormalize(front: string, word: string, back: string)
    requires |word| > 0 && forall k :: 0 <= k < |word| ==> IsAsciiLower(Lower(word)[k])
    ensures Contains(Normalize(front + word + back), Lower(word))
  {
    var t := Lower(front + word + back);
    LowerAppend(front + word, back);
    LowerAppend(front, word);
    OccursInside(Lower(front), Lower(word), Lower(back));
    var p :| OccursAt(t, Lower(word), p);
    StripKeepsWord(t, Lower(word), p);
  }
}

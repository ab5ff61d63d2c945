/**
 * The crisis classifier: a message is a crisis message when, once
 * lower-cased, it contains one of seven fixed phrases anywhere, as a plain
 * substring and not as whole words.
 */
module Crisis {
  import opened Text

  /**
   * The phrase list, verbatim. The second phrase is written with the
   * typographic apostrophe U+2019, so the same words typed with a straight
   * apostrophe do not match it.
   */
  const CrisisPhrases: seq<string> := [
    "i don't want to be here anymore",
    "i\U{2019}m done with everything",
    "i want to end it",
    "i want to die",
    "i can't go on",
    "i give up",
    "i wish i wasn't alive"
  ]

  /** `phrases.some(phrase => s.includes(phrase))`. */
  function AnyPhraseIn(s: string, phrases: seq<string>): (b: bool)
    ensures b <==> exists i :: 0 <= i < |phrases| && Contains(s, phrases[i])
  {
    if phrases == [] then false
    else Contains(s, phrases[0]) || AnyPhraseIn(s, phrases[1..])
  }

  /** `isCrisis`: some phrase occurs in the lower-cased message. */
  predicate IsCrisis(message: string)
    ensures IsCrisis(message) <==>
      exists i :: 0 <= i < |CrisisPhrases| && Contains(Lower(message), CrisisPhrases[i])
  {
    AnyPhraseIn(Lower(message), CrisisPhrases)
  }

  /** A message is a crisis message exactly when some phrase occurs at some position of its lower-cased form. */
  lemma CrisisIffPhraseOccurs(message: string)
    ensures IsCrisis(message) <==>
      exists i, k :: 0 <= i < |CrisisPhrases| && OccursAt(Lower(message), CrisisPhrases[i], k)
  {
  }

  /** Classification ignores ASCII case. */
  lemma CrisisIgnoresCase(message: string)
    ensures IsCrisis(Lower(message)) == IsCrisis(message)
  {
    LowerIdempotent(message);
  }

  /** Text around a crisis message never hides it: matching is by substring. */
  lemma CrisisInContext(pre: string, message: string, post: string)
    requires IsCrisis(message)
    ensures IsCrisis(pre + message + post)
  {
    var i :| 0 <= i < |CrisisPhrases| && Contains(Lower(message), CrisisPhrases[i]);
    LowerConcat(pre + message, post);
    LowerConcat(pre, message);
    ContainsInContext(Lower(pre), Lower(message), Lower(post), CrisisPhrases[i]);
    assert Lower(pre + message + post) == Lower(pre) + Lower(message) + Lower(post);
  }

  /** A string without ASCII capitals is its own lower-cased form. */
  lemma LowerKeepsLowercase(s: string)
    requires forall j :: 0 <= j < |s| ==> !('A' <= s[j] <= 'Z')
    ensures Lower(s) == s
  {
  }

  /** No phrase on the list has an ASCII capital, so lower-casing leaves each unchanged. */
  lemma PhrasesAreLowercase(i: nat)
    requires i < |CrisisPhrases|
    ensures Lower(CrisisPhrases[i]) == CrisisPhrases[i]
  {
    if i == 0 { LowerKeepsLowercase(CrisisPhrases[0]); }
    else if i == 1 { LowerKeepsLowercase(CrisisPhrases[1]); }
    else if i == 2 { LowerKeepsLowercase(CrisisPhrases[2]); }
    else if i == 3 { LowerKeepsLowercase(CrisisPhrases[3]); }
    else if i == 4 { LowerKeepsLowercase(CrisisPhrases[4]); }
    else if i == 5 { LowerKeepsLowercase(CrisisPhrases[5]); }
    else { LowerKeepsLowercase(CrisisPhrases[6]); }
  }

  /** Every phrase starts with the letter i. */
  lemma PhrasesStartWithI(i: nat)
    requires i < |CrisisPhrases|
    ensures |CrisisPhrases[i]| > 0 && CrisisPhrases[i][0] == 'i'
  {
  }

  /** Every phrase on the list is itself classified as a crisis. */
  lemma EachPhraseIsCrisis(i: nat)
    requires i < |CrisisPhrases|
    ensures IsCrisis(CrisisPhrases[i])
  {
    var p := CrisisPhrases[i];
    PhrasesAreLowercase(i);
    assert OccursAt(Lower(p), p, 0);
  }

  /** The second phrase, typed with the typographic apostrophe, is a crisis message. */
  lemma CurlyApostropheMatches()
    ensures IsCrisis("I\U{2019}m done with everything")
  {
    assert Lower("I\U{2019}m done with everything") == CrisisPhrases[1];
    assert OccursAt(CrisisPhrases[1], CrisisPhrases[1], 0);
  }

  /**
   * No phrase occurs in a string that lacks the letters a, c, u and the
   * typographic apostrophe: each phrase holds one of them.
   */
  lemma NoPhraseWithoutKeyLetters(s: string)
    requires 'a' !in s && 'c' !in s && 'u' !in s && '\U{2019}' !in s
    ensures forall i :: 0 <= i < |CrisisPhrases| ==> !Contains(s, CrisisPhrases[i])
  {
    MissingCharExcludes(s, CrisisPhrases[0], 9);   // 'a'
    MissingCharExcludes(s, CrisisPhrases[1], 1);   // U+2019
    MissingCharExcludes(s, CrisisPhrases[2], 3);   // 'a'
    MissingCharExcludes(s, CrisisPhrases[3], 3);   // 'a'
    MissingCharExcludes(s, CrisisPhrases[4], 2);   // 'c'
    MissingCharExcludes(s, CrisisPhrases[5], 7);   // 'u'
    MissingCharExcludes(s, CrisisPhrases[6], 10);  // 'a'
  }

  /** Lower-casing the straight-apostrophe spelling folds only its capital I. */
  lemma StraightSpellingLowered()
    ensures Lower("I'm done with everything") == "i'm done with everything"
  {
  }

  /** The lower-cased straight-apostrophe spelling has no a, c, u or typographic apostrophe. */
  lemma StraightSpellingLacksKeyLetters()
    ensures var s := "i'm done with everything"; 'a' !in s && 'c' !in s && 'u' !in s && '\U{2019}' !in s
  {
  }

  /** The same words typed with a straight apostrophe are not a crisis message. */
  lemma StraightApostropheMisses()
    ensures !IsCrisis("I'm done with everything")
  {
    StraightSpellingLowered();
    StraightSpellingLacksKeyLetters();
    NoPhraseWithoutKeyLetters("i'm done with everything");
  }
}

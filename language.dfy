/** The translation policy of core/utils/language.py: which languages a message
    is translated into, and the Slack emoji shown next to each language. */
module Language {

  /** The three languages the policy knows by name. */
  predicate Known(lang: string) {
    lang == "ko" || lang == "en" || lang == "th"
  }

  /** The target languages for a detected source language. For a known source
      they are the other two known languages; for anything else (an unknown
      code, the empty string) the fallback is English and Korean. */
  function FindTargetLanguages(sourceLang: string): (r: seq<string>)
    ensures |r| == 2 && r[0] != r[1]
    ensures forall i :: 0 <= i < |r| ==> Known(r[i])
    ensures Known(sourceLang) ==> sourceLang !in r
    ensures !Known(sourceLang) ==> r == ["en", "ko"]
  {
    if sourceLang == "ko" then ["th", "en"]
    else if sourceLang == "en" then ["ko", "th"]
    else if sourceLang == "th" then ["ko", "en"]
    else ["en", "ko"]
  }

  /** The Slack emoji for a language: a national flag for the known languages,
      a globe for everything else. */
  function FindNationalFlag(langCode: string): (r: string)
    ensures r == ":globe_with_meridians:" <==> !Known(langCode)
  {
    if langCode == "ko" then ":flag-kr:"
    else if langCode == "en" then ":flag-us:"
    else if langCode == "th" then ":flag-th:"
    else ":globe_with_meridians:"
  }

  /** For a known source, every other known language is a target, so the
      result is exactly the other two. */
  lemma TargetsAreTheOtherKnownLanguages(sourceLang: string, other: string)
    requires Known(sourceLang) && Known(other) && other != sourceLang
    ensures other in FindTargetLanguages(sourceLang)
  {
  }

  /** The literal results the policy promises. */
  lemma TargetLanguagesTable()
    ensures FindTargetLanguages("ko") == ["th", "en"]
    ensures FindTargetLanguages("en") == ["ko", "th"]
    ensures FindTargetLanguages("th") == ["ko", "en"]
    ensures FindTargetLanguages("") == ["en", "ko"]
  {
  }

  lemma NationalFlagTable()
    ensures FindNationalFlag("ko") == ":flag-kr:"
    ensures FindNationalFlag("en") == ":flag-us:"
    ensures FindNationalFlag("th") == ":flag-th:"
    ensures FindNationalFlag("") == ":globe_with_meridians:"
  {
  }
}

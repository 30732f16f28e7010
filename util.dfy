/** core/util.py: a second copy of the translation policy, used by the
    middleware event handler. */
module Util {
  import Language

  function FindTargetLanguages(sourceLang: string): (r: seq<string>)
    ensures |r| == 2 && r[0] != r[1]
    ensures Language.Known(sourceLang) ==> sourceLang !in r
    ensures !Language.Known(sourceLang) ==> r == ["en", "ko"]
  {
    if sourceLang == "ko" then ["th", "en"]
    else if sourceLang == "en" then ["ko", "th"]
    else if sourceLang == "th" then ["ko", "en"]
    else ["en", "ko"]
  }

  function FindNationalFlag(langCode: string): (r: string)
    ensures r == ":globe_with_meridians:" <==> !Language.Known(langCode)
  {
    if langCode == "ko" then ":flag-kr:"
    else if langCode == "en" then ":flag-us:"
    else if langCode == "th" then ":flag-th:"
    else ":globe_with_meridians:"
  }

  /** The two copies of the policy agree on every input. */
  lemma AgreesWithLanguage(s: string)
    ensures FindTargetLanguages(s) == Language.FindTargetLanguages(s)
    ensures FindNationalFlag(s) == Language.FindNationalFlag(s)
  {
  }
}

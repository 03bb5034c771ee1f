/**
 * Language normalisation of apps/app.py: a raw verdict of the statistical
 * language detector becomes one of the two codes the chat bot works with.
 */
module Language {
  /** What the detector reports for a text: a language code, or a raised error
      (it fails on empty or featureless text). */
  datatype Detection = Detected(code: string) | DetectionFailed

  const Swahili: string := "sw"
  const English: string := "en"

  /** Detector codes that count as Swahili. */
  const SwahiliCodes: seq<string> := ["sw", "sw-tz", "sw-ke"]

  /** `detect_language`: the detector itself is the parameter `detect`. A failed
      detection is recovered here and reads as English. */
  function DetectLanguage(detect: string -> Detection, text: string): (lang: string)
    ensures lang == Swahili || lang == English
    ensures lang == Swahili <==> detect(text).Detected? && detect(text).code in SwahiliCodes
    ensures detect(text).DetectionFailed? ==> lang == English
  {
    match detect(text)
    case DetectionFailed => English
    case Detected(code) => if code in SwahiliCodes then Swahili else English
  }
}

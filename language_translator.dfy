/**
 * The language translator (src/components/LanguageTranslator.tsx). As in
 * the simple translator, the simulated request is split into a start that
 * runs the guard and captures text and languages, and a finish that writes
 * the result; the wait between them is not modelled.
 */
module LanguageTranslator {
  import opened Wrappers
  import Text

  /** The simulated translation of `text` from `src` to `tgt`. */
  function Translation(src: string, tgt: string, text: string): string {
    "Translated text from " + src + " to " + tgt + ": " + text
  }

  /** The fixed part in front of the text, for the given pair of languages. */
  function Header(src: string, tgt: string): string {
    "Translated text from " + src + " to " + tgt + ": "
  }

  /** Knowing the languages, the text can be read back from its translation, and distinct texts translate differently. */
  lemma TranslationRoundTrip(src: string, tgt: string, text: string, other: string)
    ensures Translation(src, tgt, text) == Header(src, tgt) + text
    ensures Translation(src, tgt, text)[|Header(src, tgt)|..] == text
    ensures Translation(src, tgt, other) == Translation(src, tgt, text) ==> other == text
  {
    var h := Header(src, tgt);
    assert Translation(src, tgt, text) == h + text;
    assert Translation(src, tgt, other) == h + other;
    assert (h + text)[|h|..] == text;
    assert (h + other)[|h|..] == other;
  }

  /** A request captured at its start: the text and both languages. */
  datatype Request = Request(text: string, src: string, tgt: string)

  class LanguageTranslator {
    var sourceText: string
    var sourceLang: string
    var targetLang: string
    var translation: string
    var isTranslating: bool

    constructor()
      ensures sourceText == "" && sourceLang == "en" && targetLang == "es"
      ensures translation == "" && !isTranslating
    {
      sourceText := "";
      sourceLang := "en";
      targetLang := "es";
      translation := "";
      isTranslating := false;
    }

    /** Typing into the source box. */
    method SetText(text: string)
      modifies this
      ensures sourceText == text
      ensures sourceLang == old(sourceLang) && targetLang == old(targetLang)
      ensures translation == old(translation) && isTranslating == old(isTranslating)
    {
      sourceText := text;
    }

    /** The source-language select. */
    method SetSourceLang(lang: string)
      modifies this
      ensures sourceLang == lang
      ensures sourceText == old(sourceText) && targetLang == old(targetLang)
      ensures translation == old(translation) && isTranslating == old(isTranslating)
    {
      sourceLang := lang;
    }

    /** The target-language select. */
    method SetTargetLang(lang: string)
      modifies this
      ensures targetLang == lang
      ensures sourceText == old(sourceText) && sourceLang == old(sourceLang)
      ensures translation == old(translation) && isTranslating == old(isTranslating)
    {
      targetLang := lang;
    }

    /** The first half of `translate`: blank text or a request in progress stops it; otherwise the flag rises. */
    method StartTranslate() returns (request: Option<Request>)
      modifies this
      ensures Text.Trim(old(sourceText)) == [] || old(isTranslating) ==> request.None? && isTranslating == old(isTranslating)
      ensures !(Text.Trim(old(sourceText)) == [] || old(isTranslating)) ==>
        request == Some(Request(old(sourceText), old(sourceLang), old(targetLang))) && isTranslating
      ensures sourceText == old(sourceText) && sourceLang == old(sourceLang) && targetLang == old(targetLang)
      ensures translation == old(translation)
    {
      if Text.Trim(sourceText) == [] || isTranslating {
        return None;
      }
      isTranslating := true;
      request := Some(Request(sourceText, sourceLang, targetLang));
    }

    /** The second half: the result for the captured request replaces the translation, and the flag drops. */
    method FinishTranslate(r: Request)
      modifies this
      ensures translation == Translation(r.src, r.tgt, r.text) && !isTranslating
      ensures sourceText == old(sourceText) && sourceLang == old(sourceLang) && targetLang == old(targetLang)
    {
      translation := Translation(r.src, r.tgt, r.text);
      isTranslating := false;
    }

    /** `swapLanguages`: the languages trade places, the translation moves into the source box and the translation is cleared. */
    method SwapLanguages()
      modifies this
      ensures sourceLang == old(targetLang) && targetLang == old(sourceLang)
      ensures sourceText == old(translation) && translation == ""
      ensures isTranslating == old(isTranslating)
    {
      var temp := sourceLang;
      sourceLang := targetLang;
      targetLang := temp;
      sourceText := translation;
      translation := "";
    }
  }

  /** Two swaps restore both languages but leave both texts empty. */
  method SwapTwice(t: LanguageTranslator)
    modifies t
    ensures t.sourceLang == old(t.sourceLang) && t.targetLang == old(t.targetLang)
    ensures t.sourceText == "" && t.translation == ""
  {
    t.SwapLanguages();
    t.SwapLanguages();
  }

  /** A request reports the languages chosen when it started, even if they are swapped while it waits. */
  method SwapWhileTranslating(t: LanguageTranslator)
    requires Text.Trim(t.sourceText) != [] && !t.isTranslating
    modifies t
    ensures t.translation == Translation(old(t.sourceLang), old(t.targetLang), old(t.sourceText))
    ensures t.sourceLang == old(t.targetLang) && t.targetLang == old(t.sourceLang)
  {
    var request := t.StartTranslate();
    t.SwapLanguages();
    t.FinishTranslate(request.value);
  }
}

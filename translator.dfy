/**
 * The simple translator (src/components/Translator.tsx). The simulated
 * request is split into its two halves: `StartTranslate` runs the guard and
 * raises the in-progress flag, and `FinishTranslate` writes the result for
 * the text captured when the request started, then lowers the flag. The
 * one-second wait between them is not modelled.
 */
module Translator {
  import opened Wrappers
  import Text

  const ResultPrefix := "Translated: "

  /** The simulated translation of `text`. */
  function Translation(text: string): string {
    ResultPrefix + text
  }

  /** Recovers the source text from a simulated translation. */
  function Original(result: string): Option<string> {
    if ResultPrefix <= result then Some(result[|ResultPrefix|..]) else None
  }

  /** The source text can be read back from its translation, and nothing else translates to the same result. */
  lemma TranslationRoundTrip(text: string, other: string)
    ensures Original(Translation(text)) == Some(text)
    ensures Translation(other) == Translation(text) ==> other == text
  {
    assert Translation(text)[..|ResultPrefix|] == ResultPrefix;
    assert Translation(text)[|ResultPrefix|..] == text;
    if Translation(other) == Translation(text) {
      assert Translation(other)[|ResultPrefix|..] == other;
    }
  }

  class Translator {
    var sourceText: string
    var sourceLang: string
    var targetLang: string
    var translatedText: string
    var isTranslating: bool

    constructor()
      ensures sourceText == "" && sourceLang == "en" && targetLang == "es"
      ensures translatedText == "" && !isTranslating
    {
      sourceText := "";
      sourceLang := "en";
      targetLang := "es";
      translatedText := "";
      isTranslating := false;
    }

    /** Typing into the source box. */
    method SetSourceText(text: string)
      modifies this
      ensures sourceText == text
      ensures sourceLang == old(sourceLang) && targetLang == old(targetLang)
      ensures translatedText == old(translatedText) && isTranslating == old(isTranslating)
    {
      sourceText := text;
    }

    /** The source-language select. */
    method SetSourceLang(lang: string)
      modifies this
      ensures sourceLang == lang
      ensures sourceText == old(sourceText) && targetLang == old(targetLang)
      ensures translatedText == old(translatedText) && isTranslating == old(isTranslating)
    {
      sourceLang := lang;
    }

    /** The target-language select. */
    method SetTargetLang(lang: string)
      modifies this
      ensures targetLang == lang
      ensures sourceText == old(sourceText) && sourceLang == old(sourceLang)
      ensures translatedText == old(translatedText) && isTranslating == old(isTranslating)
    {
      targetLang := lang;
    }

    /**
     * The first half of `handleTranslate`: nothing happens for a blank source
     * or while a request is in progress; otherwise the request starts with
     * the current source text, which is returned.
     */
    method StartTranslate() returns (request: Option<string>)
      modifies this
      ensures Text.Trim(old(sourceText)) == [] || old(isTranslating) ==> request.None? && isTranslating == old(isTranslating)
      ensures !(Text.Trim(old(sourceText)) == [] || old(isTranslating)) ==> request == Some(old(sourceText)) && isTranslating
      ensures sourceText == old(sourceText) && sourceLang == old(sourceLang) && targetLang == old(targetLang)
      ensures translatedText == old(translatedText)
    {
      if Text.Trim(sourceText) == [] || isTranslating {
        return None;
      }
      isTranslating := true;
      request := Some(sourceText);
    }

    /** The second half: the result for the captured text replaces the translation, and the flag drops. */
    method FinishTranslate(captured: string)
      modifies this
      ensures translatedText == Translation(captured) && !isTranslating
      ensures sourceText == old(sourceText) && sourceLang == old(sourceLang) && targetLang == old(targetLang)
    {
      translatedText := Translation(captured);
      isTranslating := false;
    }

    /** `swapLanguages`: the two languages trade places, and so do the two texts. */
    method SwapLanguages()
      modifies this
      ensures sourceLang == old(targetLang) && targetLang == old(sourceLang)
      ensures sourceText == old(translatedText) && translatedText == old(sourceText)
      ensures isTranslating == old(isTranslating)
    {
      var temp := sourceLang;
      sourceLang := targetLang;
      targetLang := temp;
      var text := sourceText;
      sourceText := translatedText;
      translatedText := text;
    }
  }

  /** Swapping twice restores all four fields. */
  method SwapTwice(t: Translator)
    modifies t
    ensures t.sourceLang == old(t.sourceLang) && t.targetLang == old(t.targetLang)
    ensures t.sourceText == old(t.sourceText) && t.translatedText == old(t.translatedText)
  {
    t.SwapLanguages();
    t.SwapLanguages();
  }

  /** A full request on a non-blank text yields "Translated: " and that text, even if the box is edited while waiting. */
  method TranslateWhileEditing(t: Translator, edit: string)
    requires Text.Trim(t.sourceText) != [] && !t.isTranslating
    modifies t
    ensures t.translatedText == Translation(old(t.sourceText)) && !t.isTranslating
    ensures t.sourceText == edit
  {
    var request := t.StartTranslate();
    t.SetSourceText(edit);
    t.FinishTranslate(request.value);
  }

  /** A second click while a request is in progress changes nothing. */
  method DoubleClickIgnored(t: Translator)
    requires Text.Trim(t.sourceText) != [] && !t.isTranslating
    modifies t
    ensures t.isTranslating && t.translatedText == old(t.translatedText)
  {
    var first := t.StartTranslate();
    var second := t.StartTranslate();
    assert second.None?;
  }
}

/**
 * Sequences of handler calls on one page, proved from the handlers' contracts alone. Each shows
 * a behaviour that only appears when several handlers run one after another.
 */
module Scenarios {
  import opened JsValues
  import opened Preferences
  import opened Page

  /** The first click on the animations button after a reset leaves animations on: the reset
      shows every button released while the field is `true`, and the click reads the button. */
  method ResetThenClickAnimations(p: AccessibilityPage)
    requires p.Valid() && p.listening
    modifies p
    ensures p.Valid()
    ensures p.settings.animations == Bool(true)
    ensures p.view.animations == "enabled"
    ensures p.buttons.animations.pressed == "true"
  {
    p.ResetAllSettings();
    assert p.buttons.animations == Released;
    p.ClickToggle(AnimationsToggle, None, "");
  }

  /** A chosen theme survives a reload: a page opened on the saved storage shows it. */
  method ThemeSurvivesReload(p: AccessibilityPage, theme: string, markup: View, markupButtons: Buttons)
    returns (reloaded: AccessibilityPage)
    requires p.Valid() && p.listening
    modifies p
    ensures reloaded.listening
    ensures reloaded.settings.theme == Str(theme)
    ensures reloaded.view.theme == theme
  {
    p.ChangeSelector(ThemeSelector, theme);
    SaveThenFreshLoad(p.settings);
    reloaded := new AccessibilityPage(p.storage, markup, markupButtons, "100%");
    reloaded.ContentLoaded();
  }

  /** After a reset nothing is stored, and a reload starts from the defaults. */
  method ResetThenReload(p: AccessibilityPage, markup: View, markupButtons: Buttons)
    returns (reloaded: AccessibilityPage)
    requires p.Valid() && p.listening
    modifies p
    ensures reloaded.listening
    ensures reloaded.settings == Defaults()
    ensures reloaded.view == Project(Defaults())
  {
    p.ResetAllSettings();
    FreshLoadOfNothing();
    reloaded := new AccessibilityPage(p.storage, markup, markupButtons, "100%");
    reloaded.ContentLoaded();
  }

  /** A second request while the first utterance plays: the request cancels, the first
      utterance's end callback then clears the slot although the second is queued, and until the
      second starts Alt+S finds nothing to cancel. */
  method SecondRequestWhileSpeaking(p: AccessibilityPage, first: string, second: string)
    requires p.Valid() && p.listening
    requires p.settings.textToSpeech == Bool(true) && !Truthy(p.settings.currentSpeech)
    requires ExtractReadableText(first) != [] && ExtractReadableText(second) != []
    modifies p
    ensures p.Valid()
    ensures p.settings.currentSpeech == Utterance(old(p.nextUtterance) + 1)
    ensures p.engineCalls == old(p.engineCalls) + [Speak(old(p.nextUtterance), ExtractReadableText(first)),
                                                   Cancel,
                                                   Speak(old(p.nextUtterance) + 1, ExtractReadableText(second))]
    ensures p.readingAloud == old(p.readingAloud) - {1} + {2}
  {
    var u := p.nextUtterance;
    p.ReadSectionAloud(Some(1), first);
    p.OnStart(u);
    p.ReadSectionAloud(Some(2), second);
    assert p.settings.currentSpeech == Utterance(u);
    p.OnEnd(u);
    p.StopShortcut();
    p.OnStart(u + 1);
  }

  /** A save while an utterance plays stores it as an empty object; a page opened on that
      storage finds the slot truthy, so Alt+S sends a cancel although nothing is playing. */
  method SaveWhileSpeakingThenReload(p: AccessibilityPage, text: string, markup: View, markupButtons: Buttons)
    returns (reloaded: AccessibilityPage)
    requires p.Valid() && p.listening
    requires p.settings.textToSpeech == Bool(true) && p.settings.fontSize == Num(16)
    requires ExtractReadableText(text) != []
    modifies p
    ensures reloaded.listening
    ensures reloaded.settings.currentSpeech == Obj
    ensures reloaded.engineCalls == [Cancel]
  {
    var u := p.nextUtterance;
    p.ReadSectionAloud(Some(0), text);
    p.OnStart(u);
    p.ChangeFontSize(2);
    SavedUtteranceReloadsAsObject(p.settings);
    reloaded := new AccessibilityPage(p.storage, markup, markupButtons, "100%");
    reloaded.ContentLoaded();
    reloaded.StopShortcut();
  }

  /** A stored mask is not put back on a reload: the mask button reads pressed while the overlay
      is off, so the first click on it turns the field off and leaves the overlay off. */
  method MaskNotRestoredOnReload(saved: Snapshot, markup: View, markupButtons: Buttons)
    returns (reloaded: AccessibilityPage)
    requires "readingMask" in saved && saved["readingMask"] == Bool(true)
    ensures reloaded.Valid() && reloaded.listening
    ensures reloaded.settings.readingMask == Bool(false)
    ensures !reloaded.maskOverlay
  {
    reloaded := new AccessibilityPage(Some(Parsed(saved)), markup, markupButtons, "100%");
    reloaded.ContentLoaded();
    LoadIntoField(Defaults(), saved, ReadingMask);
    assert reloaded.settings.Get(ReadingMask) == Bool(true);
    assert reloaded.buttons.readingMask.pressed == "true" && !reloaded.maskOverlay;
    reloaded.ClickToggle(ReadingMaskToggle, None, "");
  }
}

/**
 * The page as one object: the preference record, the storage key, the attributes the record is
 * projected onto, the font-size indicator, the reading-mask overlay, and the read-aloud slot
 * together with the calls made on the speech engine. Each handler of the page is a method that
 * changes exactly the parts of the page its `modifies` clause names.
 */
module Page {
  import opened JsValues
  import opened Preferences
  import Whitespace

  /** A call the page makes on `window.speechSynthesis`. */
  datatype EngineCall = Speak(utterance: nat, text: string) | Cancel

  /** What a stop sends to the engine: a cancel exactly when the slot holds a truthy value. */
  function CancelIfSpeaking(slot: Value): seq<EngineCall> {
    if Truthy(slot) then [Cancel] else []
  }

  /** `extractReadableText` once the section's text content is known: every run of whitespace
      becomes one space, and the ends are trimmed (see Whitespace.NormalizeShape). */
  function ExtractReadableText(textContent: string): string {
    Whitespace.Normalize(textContent)
  }

  class AccessibilityPage {
    /** `AppState`. */
    var settings: Settings
    /** The `accessibilitySettings` key of local storage; None when the key is absent. */
    var storage: Option<Stored>
    var view: View
    var buttons: Buttons
    /** The text of the `current-font-size` indicator. */
    var fontSizeLabel: string
    /** Whether the reading-mask overlay carries the class `active`. */
    var maskOverlay: bool
    /** Whether the page's handlers were registered, which happens only when the start-up load
        did not throw. */
    var listening: bool
    /** Every call made on the speech engine, oldest first. */
    var engineCalls: seq<EngineCall>
    /** The section each utterance created so far reads. */
    var utterances: map<nat, nat>
    /** The number the next utterance gets. */
    var nextUtterance: nat
    /** The sections that carry the class `reading-aloud`. */
    var readingAloud: set<nat>

    /** The slot only ever holds an utterance this page created, and so one whose section is
        recorded: a value restored from storage is never an utterance (it reloads as `{}`), and
        `onstart` stores only its own utterance. Every handler keeps this; it is what lets the end
        and error callbacks, which need their utterance to be known, be called for the one in the
        slot. */
    ghost predicate Valid()
      reads this
    {
      (settings.currentSpeech.Utterance? ==> settings.currentSpeech.id in utterances)
    }

    /** No engine call, no new utterance and no change to the sections being read. */
    twostate predicate SpeechUnchanged()
      reads this
    {
      engineCalls == old(engineCalls) && utterances == old(utterances) &&
      nextUtterance == old(nextUtterance) && readingAloud == old(readingAloud)
    }

    /** A stop: a cancel while the slot holds a truthy value, and nothing else on the engine. */
    twostate predicate StoppedSpeech()
      reads this
    {
      engineCalls == old(engineCalls) + CancelIfSpeaking(old(settings).currentSpeech) &&
      utterances == old(utterances) && nextUtterance == old(nextUtterance) &&
      readingAloud == old(readingAloud)
    }

    /** A read-aloud request that passed the `textToSpeech` guard: the current utterance is
        cancelled when the slot is truthy; then, unless the section is missing (the text
        extraction throws) or its readable text is empty, a new utterance with that text is
        created, remembered with its section, and spoken. The slot itself is left to the
        callbacks. */
    twostate predicate Requested(section: Option<nat>, textContent: string)
      reads this
    {
      var text := ExtractReadableText(textContent);
      readingAloud == old(readingAloud) &&
      if section.None? || text == [] then
        engineCalls == old(engineCalls) + CancelIfSpeaking(old(settings).currentSpeech) &&
        utterances == old(utterances) && nextUtterance == old(nextUtterance)
      else
        engineCalls == old(engineCalls) + CancelIfSpeaking(old(settings).currentSpeech)
                       + [Speak(old(nextUtterance), text)] &&
        utterances == old(utterances)[old(nextUtterance) := section.value] &&
        nextUtterance == old(nextUtterance) + 1
    }

    /** The page as the script leaves it before `DOMContentLoaded`: `AppState` holds its
        defaults, the markup its own attributes, and nothing is read aloud. */
    constructor (stored: Option<Stored>, markup: View, markupButtons: Buttons, markupLabel: string)
      ensures Valid() && !listening
      ensures settings == Defaults() && storage == stored
      ensures view == markup && buttons == markupButtons && fontSizeLabel == markupLabel && !maskOverlay
      ensures engineCalls == [] && utterances == map[] && nextUtterance == 0 && readingAloud == {}
    {
      settings := Defaults();
      storage := stored;
      view := markup;
      buttons := markupButtons;
      fontSizeLabel := markupLabel;
      maskOverlay := false;
      listening := false;
      engineCalls := [];
      utterances := map[];
      nextUtterance := 0;
      readingAloud := {};
    }

    /** The `DOMContentLoaded` handler: the record is loaded from storage and projected onto the
        markup, and the handlers are registered. When the load throws, the handler stops there:
        the record and the markup are left as they were, and no handler is registered. */
    method ContentLoaded()
      requires Valid() && !listening
      modifies this`settings, this`view, this`buttons, this`listening
      ensures Valid()
      ensures listening <==> storage != Some(Unparsable)
      ensures listening ==> settings == LoadInto(old(settings), SavedOf(storage)) &&
                            view == Project(settings) && buttons == ProjectButtons(settings)
      ensures !listening ==> settings == old(settings) && view == old(view) && buttons == old(buttons)
    {
      var loaded := LoadSavedSettings();
      if loaded {
        UpdateUIFromState();
        listening := true;
      }
    }

    /** `loadSavedSettings`: copy every stored key the record has, one key at a time. */
    method LoadSavedSettings() returns (loaded: bool)
      requires Valid()
      modifies this`settings
      ensures Valid()
      ensures loaded <==> storage != Some(Unparsable)
      ensures loaded ==> settings == LoadInto(old(settings), SavedOf(storage))
      ensures !loaded ==> settings == old(settings)
    {
      if storage == Some(Unparsable) {
        return false;
      }
      var saved := SavedOf(storage);
      var pending := saved.Keys;
      ghost var start := settings;
      while pending != {}
        invariant pending <= saved.Keys
        invariant settings == LoadInto(start, saved - pending)
        decreases pending
      {
        var key :| key in pending;
        var field := FieldNamed(key);
        if field.Some? {
          settings := settings.With(field.value, saved[key]);
        }
        LoadOneMore(start, saved - pending, key, saved[key]);
        CopiedOneMore(saved, pending, key);
        pending := pending - {key};
      }
      assert saved - {} == saved;
      return true;
    }

    /** `saveSettings`. */
    method SaveSettings()
      modifies this`storage
      ensures storage == Some(Parsed(Encode(settings)))
    {
      storage := Some(Parsed(Encode(settings)));
    }

    /** `updateToggleButton`. */
    method UpdateToggleButton(t: Toggle, state: Value)
      modifies this`buttons
      ensures buttons == old(buttons).With(t, ButtonFor(state))
    {
      buttons := buttons.With(t, Button(ToString(state), if Truthy(state) then "Desativar" else "Ativar"));
    }

    /** `updateUIFromState`: the attributes and the four buttons show the record. */
    method UpdateUIFromState()
      modifies this`view, this`buttons
      ensures view == Project(settings)
      ensures buttons == ProjectButtons(settings)
    {
      view := view.(rootFontSize := ToString(settings.fontSize) + "px");
      view := view.(theme := ToString(settings.theme));
      view := view.(font := ToString(settings.font));
      view := view.(lineSpacing := ToString(settings.lineSpacing));
      view := view.(animations := if Truthy(settings.animations) then "enabled" else "disabled");
      view := view.(readingModeClass := Truthy(settings.readingMode));
      UpdateToggleButton(AnimationsToggle, settings.animations);
      UpdateToggleButton(ReadingModeToggle, settings.readingMode);
      UpdateToggleButton(ReadingMaskToggle, settings.readingMask);
      UpdateToggleButton(SpeechToggle, settings.textToSpeech);
      ButtonsExtensional(buttons, ProjectButtons(settings));
    }

    /** `changeFontSize`: the clamped new size is stored, shown and saved, and the indicator
        updated, unless it equals the current size, in which case nothing happens. */
    method ChangeFontSize(change: int)
      requires Valid() && listening
      modifies this`settings, this`view, this`buttons, this`storage, this`fontSizeLabel
      ensures Valid()
      ensures var next := NextFontSize(old(settings).fontSize, change);
              if FontSizeChanged(old(settings).fontSize, next) then
                settings == old(settings).(fontSize := next) && view == Project(settings) &&
                buttons == ProjectButtons(settings) && storage == Some(Parsed(Encode(settings))) &&
                fontSizeLabel == PercentLabel(next)
              else
                settings == old(settings) && view == old(view) && buttons == old(buttons) &&
                storage == old(storage) && fontSizeLabel == old(fontSizeLabel)
    {
      var newSize := NextFontSize(settings.fontSize, change);
      if FontSizeChanged(settings.fontSize, newSize) {
        ApplyFontSize(newSize);
      }
    }

    /** The body of `changeFontSize` once the size has changed. */
    method ApplyFontSize(newSize: Value)
      requires Valid()
      modifies this`settings, this`view, this`buttons, this`storage, this`fontSizeLabel
      ensures Valid()
      ensures settings == old(settings).(fontSize := newSize)
      ensures view == Project(settings) && buttons == ProjectButtons(settings)
      ensures storage == Some(Parsed(Encode(settings)))
      ensures fontSizeLabel == PercentLabel(newSize)
    {
      settings := settings.(fontSize := newSize);
      UpdateUIFromState();
      SaveSettings();
      fontSizeLabel := PercentLabel(newSize);
    }

    /** The change handler of a selector: the chosen option's value is stored as it is, shown
        and saved. */
    method ChangeSelector(sel: Selector, value: string)
      requires Valid() && listening
      modifies this`settings, this`view, this`buttons, this`storage
      ensures Valid()
      ensures settings == old(settings).With(SelectorKey(sel), Str(value))
      ensures view == Project(settings) && buttons == ProjectButtons(settings)
      ensures storage == Some(Parsed(Encode(settings)))
    {
      settings := settings.With(SelectorKey(sel), Str(value));
      UpdateUIFromState();
      SaveSettings();
    }

    /** `toggleReadingMask`. */
    method ToggleReadingMask(active: bool)
      modifies this`maskOverlay
      ensures maskOverlay == active
    {
      maskOverlay := active;
    }

    /** The click handler of a toggle button. The new state is the opposite of what the button's
        aria-pressed attribute reads, not of the field; the record with that state is saved
        before any speech step, and the whole view is projected again. `current` is the section
        `getCurrentSection` returns, `textContent` that section's text content. */
    method ClickToggle(t: Toggle, current: Option<nat>, textContent: string)
      requires Valid() && listening
      modifies this`settings, this`view, this`buttons, this`storage, this`maskOverlay,
               this`engineCalls, this`utterances, this`nextUtterance
      ensures Valid()
      ensures var on := old(buttons).Get(t).pressed != "true";
              var updated := old(settings).With(StateKey(t), Bool(on));
              storage == Some(Parsed(Encode(updated))) &&
              settings.Get(StateKey(t)) == Bool(on) &&
              view == Project(settings) && buttons == ProjectButtons(settings) &&
              maskOverlay == (if t == ReadingMaskToggle then on else old(maskOverlay)) &&
              (if t != SpeechToggle then
                 settings == updated && SpeechUnchanged()
               else if on then
                 settings == updated && (if current.Some? then Requested(current, textContent) else SpeechUnchanged())
               else
                 settings == updated.(currentSpeech := ClearedSlot(updated.currentSpeech)) && StoppedSpeech())
    {
      var isPressed := buttons.Get(t).pressed == "true";
      var newState := !isPressed;
      SetToggle(t, newState);
      ToggleAction(t, newState, current, textContent);
    }

    /** The common part of a toggle click: the button, the field, the storage and the view. */
    method SetToggle(t: Toggle, on: bool)
      requires Valid()
      modifies this`settings, this`view, this`buttons, this`storage
      ensures Valid()
      ensures settings == old(settings).With(StateKey(t), Bool(on))
      ensures storage == Some(Parsed(Encode(settings)))
      ensures view == Project(settings) && buttons == ProjectButtons(settings)
    {
      buttons := buttons.With(t, ButtonFor(Bool(on)));
      settings := settings.With(StateKey(t), Bool(on));
      SaveSettings();
      UpdateUIFromState();
    }

    /** The action that follows a click on the mask or the read-aloud toggle. It leaves what the
        view shows unchanged. */
    method ToggleAction(t: Toggle, on: bool, current: Option<nat>, textContent: string)
      requires Valid() && listening
      requires settings.Get(StateKey(t)) == Bool(on)
      modifies this`settings, this`maskOverlay, this`engineCalls, this`utterances, this`nextUtterance
      ensures Valid()
      ensures Project(settings) == Project(old(settings)) && ProjectButtons(settings) == ProjectButtons(old(settings))
      ensures maskOverlay == (if t == ReadingMaskToggle then on else old(maskOverlay))
      ensures t != SpeechToggle ==> settings == old(settings) && SpeechUnchanged()
      ensures t == SpeechToggle && on ==>
                settings == old(settings) && if current.Some? then Requested(current, textContent) else SpeechUnchanged()
      ensures t == SpeechToggle && !on ==>
                settings == old(settings).(currentSpeech := ClearedSlot(old(settings).currentSpeech)) && StoppedSpeech()
    {
      if t == ReadingMaskToggle {
        ToggleReadingMask(on);
      } else if t == SpeechToggle {
        ToggleTextToSpeech(on, current, textContent);
        ProjectionIgnoresSpeechSlot(old(settings), settings.currentSpeech);
      }
    }

    /** `toggleTextToSpeech`: switching on reads the current section when there is one;
        switching off cancels and clears the slot when it is truthy. */
    method ToggleTextToSpeech(active: bool, current: Option<nat>, textContent: string)
      requires Valid() && listening
      modifies this`settings, this`engineCalls, this`utterances, this`nextUtterance
      ensures Valid()
      ensures active ==> settings == old(settings)
      ensures active && current.Some? && Truthy(settings.textToSpeech) ==> Requested(current, textContent)
      ensures active && (current.None? || !Truthy(settings.textToSpeech)) ==> SpeechUnchanged()
      ensures !active ==> settings == old(settings).(currentSpeech := ClearedSlot(old(settings).currentSpeech)) &&
                          StoppedSpeech()
    {
      if active {
        if current.Some? {
          ReadSectionAloud(current, textContent);
        }
      } else if Truthy(settings.currentSpeech) {
        engineCalls := engineCalls + [Cancel];
        settings := settings.(currentSpeech := Null);
      }
    }

    /** `readSectionAloud`, with the section's text content given. Nothing happens while the
        `textToSpeech` field is falsy. */
    method ReadSectionAloud(section: Option<nat>, textContent: string)
      requires Valid() && listening
      modifies this`engineCalls, this`utterances, this`nextUtterance
      ensures Valid()
      ensures Truthy(settings.textToSpeech) ==> Requested(section, textContent)
      ensures !Truthy(settings.textToSpeech) ==> SpeechUnchanged()
    {
      if !Truthy(settings.textToSpeech) {
        return;
      }
      if Truthy(settings.currentSpeech) {
        engineCalls := engineCalls + [Cancel];
      }
      if section.None? {
        return;
      }
      var text := ExtractReadableText(textContent);
      if text == [] {
        return;
      }
      var u := nextUtterance;
      nextUtterance := nextUtterance + 1;
      utterances := utterances[u := section.value];
      engineCalls := engineCalls + [Speak(u, text)];
    }

    /** The `onstart` callback of utterance `u`: the slot holds `u` and its section is marked. */
    method OnStart(u: nat)
      requires Valid() && u in utterances
      modifies this`settings, this`readingAloud
      ensures Valid()
      ensures settings == old(settings).(currentSpeech := Utterance(u))
      ensures readingAloud == old(readingAloud) + {utterances[u]}
    {
      settings := settings.(currentSpeech := Utterance(u));
      readingAloud := readingAloud + {utterances[u]};
    }

    /** The `onend` callback of utterance `u`: the slot is cleared whatever it holds, and the mark
        leaves `u`'s section. */
    method OnEnd(u: nat)
      requires Valid() && u in utterances
      modifies this`settings, this`readingAloud
      ensures Valid()
      ensures settings == old(settings).(currentSpeech := Null)
      ensures readingAloud == old(readingAloud) - {utterances[u]}
    {
      settings := settings.(currentSpeech := Null);
      readingAloud := readingAloud - {utterances[u]};
    }

    /** The `onerror` callback of utterance `u`: the same change as `onend` (it also logs the
        error and shows a notification). */
    method OnError(u: nat)
      requires Valid() && u in utterances
      modifies this`settings, this`readingAloud
      ensures Valid()
      ensures settings == old(settings).(currentSpeech := Null)
      ensures readingAloud == old(readingAloud) - {utterances[u]}
    {
      OnEnd(u);
    }

    /** Alt+S, registered at the top level and so active even when start-up failed: a cancel
        while the slot is truthy; the slot itself is left as it is. */
    method StopShortcut()
      requires Valid()
      modifies this`engineCalls
      ensures engineCalls == old(engineCalls) + CancelIfSpeaking(settings.currentSpeech)
    {
      if Truthy(settings.currentSpeech) {
        engineCalls := engineCalls + [Cancel];
      }
    }

    /** `resetAllSettings`: the eight preferences back to their defaults, speech stopped, the
        view projected, the storage key removed, the indicator at "100%" and every toggle button
        released. The reading-mask overlay is not touched. */
    method ResetAllSettings()
      requires Valid() && listening
      modifies this`settings, this`engineCalls, this`view, this`buttons, this`storage, this`fontSizeLabel
      ensures Valid()
      ensures settings == ResetSettings(old(settings))
      ensures engineCalls == old(engineCalls) + CancelIfSpeaking(old(settings).currentSpeech)
      ensures view == Project(settings) && buttons == ReleasedButtons()
      ensures storage == None && fontSizeLabel == "100%"
    {
      ResetRecord();
      UpdateUIFromState();
      storage := None;
      fontSizeLabel := "100%";
      ReleaseAllButtons();
    }

    /** The first part of `resetAllSettings`: the eight preferences get their defaults, and a
        truthy slot is cancelled and cleared. */
    method ResetRecord()
      requires Valid()
      modifies this`settings, this`engineCalls
      ensures Valid()
      ensures settings == ResetSettings(old(settings))
      ensures engineCalls == old(engineCalls) + CancelIfSpeaking(old(settings).currentSpeech)
    {
      settings := settings.(fontSize := Num(16), theme := Str("light"), font := Str("open-sans"));
      settings := settings.(lineSpacing := Str("normal"), animations := Bool(true));
      settings := settings.(readingMode := Bool(false), readingMask := Bool(false), textToSpeech := Bool(false));
      if Truthy(settings.currentSpeech) {
        engineCalls := engineCalls + [Cancel];
        settings := settings.(currentSpeech := Null);
      }
    }

    /** The loop over `.toggle-button` in `resetAllSettings`: every button reads not pressed. */
    method ReleaseAllButtons()
      modifies this`buttons
      ensures buttons == ReleasedButtons()
    {
      var order := [AnimationsToggle, ReadingModeToggle, ReadingMaskToggle, SpeechToggle];
      for i := 0 to |order|
        invariant forall j :: 0 <= j < i ==> buttons.Get(order[j]) == Released
      {
        buttons := buttons.With(order[i], Released);
      }
      forall t
        ensures buttons.Get(t) == Released
      {
        assert t == order[0] || t == order[1] || t == order[2] || t == order[3];
      }
      ButtonsExtensional(buttons, ReleasedButtons());
    }
  }

  /** One more key copied by the load loop. */
  lemma LoadOneMore(start: Settings, done: Snapshot, key: string, v: JsonValue)
    ensures LoadInto(start, done[key := v])
            == match FieldNamed(key)
               case Some(f) => LoadInto(start, done).With(f, v)
               case None => LoadInto(start, done)
  {
    var a := LoadInto(start, done[key := v]);
    var before := LoadInto(start, done);
    match FieldNamed(key)
    case None =>
      forall g
        ensures a.Get(g) == before.Get(g)
      {
        assert Name(g) != key;
        LoadedOneMore(start, done, key, v, g);
      }
      SettingsExtensional(a, before);
    case Some(f) =>
      var b := before.With(f, v);
      forall g
        ensures a.Get(g) == b.Get(g)
      {
        LoadedOneMore(start, done, key, v, g);
        if g != f {
          NameInjective(g, f);
        }
      }
      SettingsExtensional(a, b);
  }

  /** The keys copied so far, with one more. */
  lemma CopiedOneMore(saved: Snapshot, pending: set<string>, key: string)
    requires key in pending && key in saved
    ensures saved - (pending - {key}) == (saved - pending)[key := saved[key]]
  {
  }

  /** One field of the load, with one more key copied. */
  lemma LoadedOneMore(start: Settings, done: Snapshot, key: string, v: JsonValue, g: Field)
    ensures LoadInto(start, done[key := v]).Get(g)
            == if Name(g) == key then v else LoadInto(start, done).Get(g)
  {
  }
}

# Accessibility preferences page — a Dafny model

The page keeps its accessibility preferences in one record, `AppState`. The record holds the font
size, theme, font, line spacing, animations, reading mode, reading mask, read-aloud switch and the
slot for the utterance that is playing. The record is loaded from local storage when the page
opens, and saved after each change made through the panel (font size, selectors, toggles). The
speech callbacks change the slot without saving, switching read-aloud off clears the slot after
the click has saved, and a reset removes the stored key instead of saving. So the stored slot can
differ from the live one. The record is projected onto the document's attributes and onto
the four toggle buttons of the accessibility panel. A section of the page can be read aloud with
the browser's speech engine, after its text has been normalised.

This project models that core in five modules:

- `JsValues` — the JavaScript values a field can hold (the load copies stored values without
  checking them), and the three conversions the page applies: `String(v)`, `Boolean(v)` and what
  `JSON.stringify` writes.
- `Whitespace` — `textContent.replace(/\s+/g, ' ').trim()`, written as a word-at-a-time scan. It
  is proved equal to an independent definition: the words of the text joined by single spaces.
- `Preferences` — the record as a value. Covers the defaults, the font-size step and its
  percentage label, the stored snapshot (`Encode`, `LoadInto`, `FreshLoad`), the reset, and the
  view and button projection.
- `Page` — the page as one object, class `AccessibilityPage`. Its fields are the record, the
  storage key, the projected attributes and buttons, the font-size indicator, the mask overlay and
  the read-aloud state. The read-aloud state is the log of calls to the speech engine, the
  utterances created and the sections marked as being read. Each handler is a method whose
  `modifies` clause names exactly the fields it changes and whose `ensures` states the new state.
- `Scenarios` — handler sequences proved from the methods' contracts alone. They cover:
  - reset, then a click on the animations button;
  - a reload after a theme change, and after a reset;
  - a second read-aloud request while the first utterance plays;
  - a save while speaking, then a reload;
  - a reload with the mask stored as on.

Inputs the page reads from the browser become parameters:
- the stored text, already parsed into a snapshot or marked as unparsable;
- the markup's initial attributes;
- the section `getCurrentSection` or a read-aloud button picks (a section number, or none);
- that section's text content;
- the callbacks of the speech engine, which are methods the environment calls.

Nothing keeps `fontSize` in [12, 24] outside `changeFontSize`: the load copies a stored size
without checking it (`Preferences.LoadDoesNotValidate`), just as a selector's value goes in as it
is. The range is proved for the sizes `changeFontSize` produces (`Preferences.NextFontSize`,
`Preferences.FontStepInRange`).

## Model

| member | source | states |
|---|---|---|
| JsValues.NatToString | script.js:265 | the decimal text of a size is one or more digits, with no leading zero |
| JsValues.DecimalValueOfNatToString | script.js:265 | reading the decimal text back gives the number, so the `px` value and the `%` label carry the exact integer |
| JsValues.ToJson | script.js:216-218 | what JSON writes for a field is exactly as truthy as the field (NaN becomes null and an utterance `{}`, every JSON value stays as it is) |
| JsValues.ToJsonIdempotent | script.js:216-218 | writing a written value again gives the same value, so a second save of a reloaded field stores what the first stored |
| JsValues.ToStringIsTrue | script.js:167 | the aria-pressed text is "true" exactly for the boolean true or the text "true" |
| Whitespace.SkipWs | script.js:509 | skipping whitespace leaves a shorter text that starts with a non-space, or nothing |
| Whitespace.TakeWord | script.js:509 | a word taken from the front holds no whitespace, and is non-empty when the text starts with a non-space |
| Whitespace.WordsAreWords | script.js:509 | every word the reference definition splits out is non-empty and holds no whitespace |
| Whitespace.CollapseIsPaddedJoin | script.js:509 | `replace(/\s+/g, ' ')` equals the words joined by single spaces, with one space at each end where the input had whitespace |
| Whitespace.NormalizeIsJoinOfWords | script.js:509 | replace-then-trim equals the input's words joined by single spaces |
| Whitespace.WordsOfJoin | script.js:509 | splitting words joined by spaces gives back those words |
| Whitespace.NormalizeShape | script.js:501-510 | the readable text has no whitespace at either end, no two whitespace characters together and only plain spaces, and is empty exactly when the section holds only whitespace |
| Whitespace.NormalizeIdempotent | script.js:509 | normalising an already normalised text changes nothing |
| Preferences.FieldNamed | script.js:210 | `hasOwnProperty` answers with the field of that name, and with none for any other key |
| Preferences.NameInjective | script.js:2-12 | the nine property names are pairwise different |
| Preferences.FieldNamesAreNames | script.js:210 | a key is one of the nine names exactly when it names a field |
| Preferences.NamesRoundTrip | script.js:2-12 | every field's name is one of the nine names and reads back as that field |
| Preferences.Settings.With | script.js:211 | assigning one property changes that field and no other |
| Preferences.NextFontSize | script.js:192 | the new size is a number in [12, 24] (or NaN for a value `+` cannot turn into a number); it is the sum when that is in range and the nearer bound otherwise |
| Preferences.Percentage | script.js:199 | the label value is the integer nearest to 100·size/16, with halves rounded up |
| Preferences.FontStepInRange | script.js:89-90 | a ±2 step from a size in range stays in range, keeps an even size even, and changes nothing exactly at the bound it points to |
| Preferences.PercentLabelInRange | script.js:199-200 | for a size in range the label is between 75% and 150%, and it is 100% exactly at 16 |
| Preferences.PercentLabelAtDefault | script.js:244 | the fixed "100%" the reset writes is the label of the default size |
| Preferences.EncodeKeys | script.js:216-218 | the saved snapshot has exactly the nine property names as keys |
| Preferences.EncodeField | script.js:216-218 | each field is saved under its own name, as JSON writes its value |
| Preferences.LoadIntoField | script.js:209-213 | a stored key that names a field overwrites that field, unvalidated; every other field keeps its value |
| Preferences.FreshLoad | script.js:206-214 | the load fails exactly on unparsable storage |
| Preferences.FreshLoadKeepsDefaults | script.js:2-12 | a field that is not stored keeps its default |
| Preferences.FreshLoadOfNothing | script.js:207 | with no stored key, or an empty object, the page starts from the defaults |
| Preferences.SaveThenFreshLoad | script.js:206-218 | save-then-reload gives every field as JSON wrote it, and every JSON-valued field exactly |
| Preferences.SaveThenFreshLoadExact | script.js:206-218 | a record whose fields all hold JSON values comes back whole |
| Preferences.SavedUtteranceReloadsAsObject | script.js:217 | an utterance saved while it plays reloads as `{}`, which is truthy |
| Preferences.LoadIgnoresUnknownKey | script.js:209-213 | a stored key that names no field makes no difference to the load |
| Preferences.LoadDoesNotValidate | script.js:211 | a stored size or theme is taken as it is, whatever its value |
| Preferences.ClearedSlot | script.js:232-235 | after a stop the slot is falsy: null when it was truthy, unchanged otherwise |
| Preferences.ResetSettings | script.js:220-235 | the eight preferences return to their defaults, and the slot is cleared only when it was truthy |
| Preferences.ResetThenReload | script.js:220-243 | after a reset the live record and a reload agree on every preference; they are equal unless the slot was falsy but not null |
| Preferences.ProjectButtons | script.js:282-286 | each button shows the field it is bound to |
| Preferences.Buttons.With | script.js:289-295 | updating one button leaves the other three as they were |
| Preferences.ProjectionFaithful | script.js:263-280 | the animations attribute reads "enabled", and the reading-mode class is on, exactly when the field is truthy; theme, font, line spacing and size are their fields' text |
| Preferences.ButtonFaithful | script.js:289-295 | a button reads pressed exactly when its field is true or "true", and shows "Desativar" exactly when its field is truthy |
| Preferences.ProjectionIgnoresSpeechSlot | script.js:263-287 | the utterance slot plays no part in the view or the buttons |
| Preferences.ResetLeavesAnimationsButtonReleased | script.js:220-253 | after a reset, animations are on while the animations button reads not pressed; the released buttons differ from what the reset record projects to at exactly the animations button |
| Preferences.ReloadKeepsSwitches | script.js:206-218 | a save and a reload keep the animations attribute, the reading-mode class and every button's label as they were, even for a NaN field or a playing utterance |
| Page.AccessibilityPage.constructor | script.js:2-12 | before the page's content is loaded, the record holds its defaults, the markup its own attributes, and nothing is read aloud |
| Page.AccessibilityPage.ContentLoaded | script.js:15-27 | the handler loads the storage into the record and projects it; on unparsable storage it leaves the record and the markup alone, and registers no handler |
| Page.AccessibilityPage.LoadSavedSettings | script.js:206-214 | the key-by-key loop leaves the record equal to `LoadInto` of the stored snapshot, or unchanged when the load throws |
| Page.AccessibilityPage.SaveSettings | script.js:216-218 | the storage holds the snapshot of the current record |
| Page.AccessibilityPage.UpdateToggleButton | script.js:289-295 | one button is set to show the given state, and the others are left alone |
| Page.AccessibilityPage.UpdateUIFromState | script.js:263-287 | the attributes and buttons equal the projection of the record |
| Page.AccessibilityPage.ChangeFontSize | script.js:191-203 | when the clamped size differs, the record, view, storage and label all follow it; otherwise nothing changes |
| Page.AccessibilityPage.ApplyFontSize | script.js:194-200 | the new size is stored, shown and saved, and the label shows its percentage |
| Page.AccessibilityPage.ChangeSelector | script.js:93-112 | the selector's value goes unvalidated into its field, and is shown and saved |
| Page.AccessibilityPage.ToggleReadingMask | script.js:379-393 | the overlay is active exactly when asked |
| Page.AccessibilityPage.ClickToggle | script.js:165-188 | the new state is the opposite of the button's aria-pressed, not of the field; the record is saved with it before any speech step; the mask and speech effects follow |
| Page.AccessibilityPage.SetToggle | script.js:167-178 | the button, the field, the storage and the view all take the new state |
| Page.AccessibilityPage.ToggleAction | script.js:181-186 | the mask toggle sets the overlay; the speech toggle starts a read or stops; the view is unaffected |
| Page.AccessibilityPage.ToggleTextToSpeech | script.js:420-434 | switching on reads the current section if there is one; switching off cancels and clears a truthy slot |
| Page.AccessibilityPage.ReadSectionAloud | script.js:452-499 | nothing happens while the switch is off. Otherwise: a cancel if the slot is truthy; then a new utterance with the normalised text, recorded with its section, unless the section is missing or the text is empty; the slot is left alone |
| Page.AccessibilityPage.OnStart | script.js:478-482 | the slot holds the utterance and its section is marked |
| Page.AccessibilityPage.OnEnd | script.js:484-488 | the slot is cleared, whichever utterance it holds, and the section's mark goes |
| Page.AccessibilityPage.OnError | script.js:490-495 | the same state change as the end callback |
| Page.AccessibilityPage.StopShortcut | script.js:633-639 | Alt+S cancels exactly when the slot is truthy and leaves the slot as it is |
| Page.AccessibilityPage.ResetRecord | script.js:221-235 | the eight preferences get their defaults; a truthy slot is cancelled and cleared |
| Page.AccessibilityPage.ResetAllSettings | script.js:220-260 | the reset record, a cancel when the slot was truthy, the projected view, no stored key, "100%", and every button released |
| Page.AccessibilityPage.ReleaseAllButtons | script.js:250-253 | the loop over the toggle buttons leaves all four released |
| Page.LoadOneMore | script.js:209-213 | copying one more stored key is the same as loading with that key added to the snapshot |
| Scenarios.ResetThenClickAnimations | script.js:165-188 | the first animations click after a reset leaves animations on, and the button then reads pressed |
| Scenarios.ThemeSurvivesReload | script.js:93-98 | a chosen theme is shown again by a page opened on the saved storage |
| Scenarios.ResetThenReload | script.js:220-243 | after a reset a reload starts from the defaults |
| Scenarios.SecondRequestWhileSpeaking | script.js:452-499 | a second request cancels; the first utterance's end then clears the slot although the second is queued, and Alt+S finds nothing to cancel until the second starts |
| Scenarios.SaveWhileSpeakingThenReload | script.js:632-639 | a save while speaking makes the reloaded slot truthy, so Alt+S sends a cancel although nothing plays |
| Scenarios.MaskNotRestoredOnReload | script.js:23-27 | a stored mask shows a pressed button but no overlay, and the first click turns the field off |

## Left out

- The DOM wiring and everything that does not touch the record or the speech state is out of the model. This covers the mobile menu, the panel's opening and scrolling, the intersection observer, the focus handling, the wheel and print handlers, and the Escape, Alt+1, Alt+2 and Alt+A shortcuts.
- Screen-reader announcements and notifications have no effect on the state modelled.
- `getCurrentSection` (its geometry depends on layout) becomes a parameter: the section number, or none when there is no section.
- Cloning the section and removing `.section-actions`, `.sr-only` and `aria-hidden` parts becomes a parameter: the remaining text content.
- `setupTextToSpeech` (voice selection, disabling the button when the browser has no speech engine) is out, and so are the utterance's language, rate, pitch, volume and voice. They do not affect any state modelled.
- The mask's mouse tracking (`updateReadingMaskPosition`) and the cursor style are out: only whether the overlay is active is kept.
- `resetAllSettings` also sets the three selector controls' displayed values and closes the panel. Neither is part of the model, since the record and the view do not read them.
- Local storage's quota errors and JSON's text syntax are out. A snapshot holds only the value kinds in `JsValues.Value`: no arrays, no nested objects with content, and numbers only as integers.
- The speech engine's own behaviour is out: when callbacks fire, queuing, and whether a cancel raises `onerror` or `onend`. The model records the calls the page makes; the callbacks are methods the environment invokes.
- Preferences.NextFontSize: for a text value the model gives NaN. JavaScript concatenates the text with the step and `Math.min` then converts the result to a number, so a numeric text such as "16" gives 24 rather than NaN. Modelling this needs JavaScript's string-to-number conversion, which is not part of this model.
- JsValues.IntToString: numbers are integers. Fractions, infinities and exponent notation (magnitudes of 10^21 and above) do not occur in the model.
- Preferences.View: `rootFontSize` is the text written to the root's `style.fontSize`. A browser ignores a value that is not a valid length (such as "NaNpx", "nullpx" or "-4px") and keeps the previous size; the model does not, because CSS length parsing is not part of this model. Such values arise only after a stored non-numeric or negative `fontSize`.
- Page.AccessibilityPage.UpdateToggleButton: the button is assumed present, so the `if (button)` guard's missing-button case is not modelled.

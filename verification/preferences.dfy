/**
 * The preference record (`AppState`), its defaults, the font-size step, the stored snapshot and
 * the view that the page derives from the record. Everything here is a value; the page object
 * that holds and changes these values is in module Page.
 */
module Preferences {
  import opened JsValues

  // ----- The record and its defaults -----

  /** The nine own properties of the record. */
  datatype Field =
    FontSize | Theme | Font | LineSpacing | Animations | ReadingMode | ReadingMask | TextToSpeech | CurrentSpeech

  /** The property name of a field, as it appears in the stored JSON. */
  function Name(f: Field): string {
    match f
    case FontSize => "fontSize"
    case Theme => "theme"
    case Font => "font"
    case LineSpacing => "lineSpacing"
    case Animations => "animations"
    case ReadingMode => "readingMode"
    case ReadingMask => "readingMask"
    case TextToSpeech => "textToSpeech"
    case CurrentSpeech => "currentSpeech"
  }

  /** `AppState.hasOwnProperty(key)`, answered with the field of that name. */
  function FieldNamed(key: string): (r: Option<Field>)
    ensures r.Some? ==> Name(r.value) == key
    ensures r.None? ==> forall f :: Name(f) != key
  {
    if key == "fontSize" then Some(FontSize)
    else if key == "theme" then Some(Theme)
    else if key == "font" then Some(Font)
    else if key == "lineSpacing" then Some(LineSpacing)
    else if key == "animations" then Some(Animations)
    else if key == "readingMode" then Some(ReadingMode)
    else if key == "readingMask" then Some(ReadingMask)
    else if key == "textToSpeech" then Some(TextToSpeech)
    else if key == "currentSpeech" then Some(CurrentSpeech)
    else None
  }

  /** Different fields have different names. */
  lemma NameInjective(f: Field, g: Field)
    ensures Name(f) == Name(g) <==> f == g
  {
    assert FieldNamed(Name(f)) == Some(f);
  }

  /** The names of the record's properties: the only keys a load copies. */
  const FieldNames: set<string> :=
    {"fontSize", "theme", "font", "lineSpacing", "animations", "readingMode", "readingMask", "textToSpeech", "currentSpeech"}

  lemma FieldNamesAreNames(key: string)
    ensures key in FieldNames <==> FieldNamed(key).Some?
  {
  }

  /** Every field's name is among the names, and reads back as that field. */
  lemma NamesRoundTrip()
    ensures forall f :: Name(f) in FieldNames && FieldNamed(Name(f)) == Some(f)
    ensures forall key :: key in FieldNames ==> FieldNamed(key).Some?
  {
    forall f ensures Name(f) in FieldNames && FieldNamed(Name(f)) == Some(f) {
      match f
      case FontSize =>
      case Theme =>
      case Font =>
      case LineSpacing =>
      case Animations =>
      case ReadingMode =>
      case ReadingMask =>
      case TextToSpeech =>
      case CurrentSpeech =>
    }
  }

  /** `AppState`: a value per field. Which kind of value a field holds is not fixed, since a load
      copies stored values without looking at them. */
  datatype Settings = Settings(
    fontSize: Value, theme: Value, font: Value, lineSpacing: Value, animations: Value,
    readingMode: Value, readingMask: Value, textToSpeech: Value, currentSpeech: Value)
  {
    /** `AppState[Name(f)]`. */
    function Get(f: Field): Value {
      match f
      case FontSize => fontSize
      case Theme => theme
      case Font => font
      case LineSpacing => lineSpacing
      case Animations => animations
      case ReadingMode => readingMode
      case ReadingMask => readingMask
      case TextToSpeech => textToSpeech
      case CurrentSpeech => currentSpeech
    }

    /** The record after `AppState[Name(f)] = v`. */
    function With(f: Field, v: Value): (r: Settings)
      ensures r.Get(f) == v
      ensures forall g :: g != f ==> r.Get(g) == Get(g)
      ensures f != CurrentSpeech ==> r.currentSpeech == currentSpeech
    {
      match f
      case FontSize => this.(fontSize := v)
      case Theme => this.(theme := v)
      case Font => this.(font := v)
      case LineSpacing => this.(lineSpacing := v)
      case Animations => this.(animations := v)
      case ReadingMode => this.(readingMode := v)
      case ReadingMask => this.(readingMask := v)
      case TextToSpeech => this.(textToSpeech := v)
      case CurrentSpeech => this.(currentSpeech := v)
    }
  }

  /** Two records that agree on every field are the same record. */
  lemma SettingsExtensional(a: Settings, b: Settings)
    requires forall f :: a.Get(f) == b.Get(f)
    ensures a == b
  {
    assert a.Get(FontSize) == b.Get(FontSize) && a.Get(Theme) == b.Get(Theme);
    assert a.Get(Font) == b.Get(Font) && a.Get(LineSpacing) == b.Get(LineSpacing);
    assert a.Get(Animations) == b.Get(Animations) && a.Get(ReadingMode) == b.Get(ReadingMode);
    assert a.Get(ReadingMask) == b.Get(ReadingMask) && a.Get(TextToSpeech) == b.Get(TextToSpeech);
    assert a.Get(CurrentSpeech) == b.Get(CurrentSpeech);
  }

  /** The record as the page starts with it. */
  function Defaults(): Settings {
    Settings(Num(16), Str("light"), Str("open-sans"), Str("normal"), Bool(true), Bool(false),
             Bool(false), Bool(false), Null)
  }

  /** The four toggle buttons, each bound to one boolean field. */
  datatype Toggle = AnimationsToggle | ReadingModeToggle | ReadingMaskToggle | SpeechToggle

  function StateKey(t: Toggle): (f: Field)
    ensures f != CurrentSpeech
  {
    match t
    case AnimationsToggle => Animations
    case ReadingModeToggle => ReadingMode
    case ReadingMaskToggle => ReadingMask
    case SpeechToggle => TextToSpeech
  }

  /** The three drop-down selectors, each bound to one text field. */
  datatype Selector = ThemeSelector | FontSelector | LineSpacingSelector

  function SelectorKey(sel: Selector): (f: Field)
    ensures f != CurrentSpeech
  {
    match sel
    case ThemeSelector => Theme
    case FontSelector => Font
    case LineSpacingSelector => LineSpacing
  }

  // ----- The font-size step -----

  const MinFontSize: int := 12
  const MaxFontSize: int := 24

  function Clamp(x: int): int {
    if x < MinFontSize then MinFontSize else if x > MaxFontSize then MaxFontSize else x
  }

  /** `Math.max(12, Math.min(24, fontSize + change))` for the value the field holds: a number or
      a value that `+` converts to one (a boolean, null), and NaN otherwise. */
  function NextFontSize(current: Value, change: int): (r: Value)
    ensures r.Num? || r.NaN?
    ensures r.Num? ==> MinFontSize <= r.n <= MaxFontSize
    ensures current.Num? && MinFontSize <= current.n + change <= MaxFontSize ==> r == Num(current.n + change)
    ensures current.Num? && current.n + change < MinFontSize ==> r == Num(MinFontSize)
    ensures current.Num? && current.n + change > MaxFontSize ==> r == Num(MaxFontSize)
    ensures r.NaN? <==> !(current.Num? || current.Bool? || current.Null?)
  {
    match current
    case Num(n) => Num(Clamp(n + change))
    case Bool(b) => Num(Clamp((if b then 1 else 0) + change))
    case Null => Num(Clamp(change))
    case _ => NaN
  }

  /** `newSize !== AppState.fontSize`, where `newSize` is a number: NaN differs from everything. */
  predicate FontSizeChanged(current: Value, next: Value) {
    !(next.Num? && current == next)
  }

  /** `Math.round(size / 16 * 100)`: the integer nearest to 100·size/16, halves rounded up. */
  function Percentage(size: int): (p: int)
    ensures 16 * p - 8 <= 100 * size < 16 * p + 8
  {
    (100 * size + 8) / 16
  }

  /** The text of the font-size indicator: `${percentage}%`. */
  function PercentLabel(size: Value): string {
    (if size.Num? then IntToString(Percentage(size.n)) else "NaN") + "%"
  }

  /** A step of two from a size in range stays in range, moves by exactly two unless a bound is
      reached, keeps an even size even, and changes nothing exactly at the bound it points to. */
  lemma FontStepInRange(n: int, change: int)
    requires MinFontSize <= n <= MaxFontSize
    requires change == 2 || change == -2
    ensures NextFontSize(Num(n), change).Num?
    ensures MinFontSize <= NextFontSize(Num(n), change).n <= MaxFontSize
    ensures !FontSizeChanged(Num(n), NextFontSize(Num(n), change))
            <==> (change == 2 && n == MaxFontSize) || (change == -2 && n == MinFontSize)
    ensures n % 2 == 0 ==> NextFontSize(Num(n), change).n % 2 == 0
  {
  }

  /** The indicator reads between 75% and 150% for a size in range, and 100% exactly at 16. */
  lemma PercentLabelInRange(n: int)
    requires MinFontSize <= n <= MaxFontSize
    ensures 75 <= Percentage(n) <= 150
    ensures Percentage(n) == 100 <==> n == 16
    ensures PercentLabel(Num(n)) == NatToString(Percentage(n)) + "%"
  {
  }

  lemma PercentLabelAtDefault()
    ensures PercentLabel(Num(16)) == "100%"
  {
    assert Percentage(16) == 100;
    assert NatToString(100) == NatToString(10) + "0";
    assert NatToString(10) == "10";
  }

  // ----- Storage -----

  /** A parsed snapshot: the keys and values `JSON.parse` returns for the stored text. */
  type Snapshot = map<string, JsonValue>

  /** What the storage key holds when present: text that parses to an object, or text on which
      the load throws (malformed JSON, or the literal `null`, on which `Object.keys` throws). A
      number or boolean parses to a value without keys; a string or an array has only index keys
      ("0", "1", ...). None of those keys names a field, so such text reads as the empty
      snapshot. */
  datatype Stored = Parsed(snapshot: Snapshot) | Unparsable

  /** `JSON.stringify(AppState)`, read back as a snapshot: one key per field, each value as JSON
      writes it. */
  function Encode(s: Settings): Snapshot {
    map["fontSize" := ToJson(s.fontSize), "theme" := ToJson(s.theme), "font" := ToJson(s.font),
        "lineSpacing" := ToJson(s.lineSpacing), "animations" := ToJson(s.animations),
        "readingMode" := ToJson(s.readingMode), "readingMask" := ToJson(s.readingMask),
        "textToSpeech" := ToJson(s.textToSpeech), "currentSpeech" := ToJson(s.currentSpeech)]
  }

  /** The snapshot has exactly the nine property names as keys. */
  lemma EncodeKeys(s: Settings)
    ensures Encode(s).Keys == FieldNames
  {
  }

  /** The stored value of each field is the field's value as JSON writes it. */
  lemma EncodeField(s: Settings, f: Field)
    ensures Name(f) in Encode(s) && Encode(s)[Name(f)] == ToJson(s.Get(f))
    ensures s.Get(f).IsJson() ==> Encode(s)[Name(f)] == s.Get(f)
  {
    match f
    case FontSize =>
    case Theme =>
    case Font =>
    case LineSpacing =>
    case Animations =>
    case ReadingMode =>
    case ReadingMask =>
    case TextToSpeech =>
    case CurrentSpeech =>
  }

  /** The snapshot the load iterates over; an absent key reads as `'{}'`. */
  function SavedOf(stored: Option<Stored>): Snapshot {
    match stored
    case Some(Parsed(m)) => m
    case _ => map[]
  }

  /** The value a load leaves in field `f`. */
  function Loaded(state: Settings, saved: Snapshot, f: Field): Value {
    if Name(f) in saved then saved[Name(f)] else state.Get(f)
  }

  /** The loop of `loadSavedSettings`: every key of the snapshot that names a field overwrites
      that field with the stored value, unvalidated; every other key is ignored. */
  function LoadInto(state: Settings, saved: Snapshot): Settings {
    Settings(Loaded(state, saved, FontSize), Loaded(state, saved, Theme), Loaded(state, saved, Font),
             Loaded(state, saved, LineSpacing), Loaded(state, saved, Animations),
             Loaded(state, saved, ReadingMode), Loaded(state, saved, ReadingMask),
             Loaded(state, saved, TextToSpeech), Loaded(state, saved, CurrentSpeech))
  }

  /** A field named by a stored key takes the stored value; every other field keeps its value. */
  lemma LoadIntoField(state: Settings, saved: Snapshot, f: Field)
    ensures Name(f) in saved ==> LoadInto(state, saved).Get(f) == saved[Name(f)]
    ensures Name(f) !in saved ==> LoadInto(state, saved).Get(f) == state.Get(f)
  {
    match f
    case FontSize =>
    case Theme =>
    case Font =>
    case LineSpacing =>
    case Animations =>
    case ReadingMode =>
    case ReadingMask =>
    case TextToSpeech =>
    case CurrentSpeech =>
  }

  /** What a newly opened page holds after its load step, or None when the load throws. */
  function FreshLoad(stored: Option<Stored>): (r: Option<Settings>)
    ensures r.None? <==> stored == Some(Unparsable)
  {
    if stored == Some(Unparsable) then None else Some(LoadInto(Defaults(), SavedOf(stored)))
  }

  /** A field that is not stored keeps its default. */
  lemma FreshLoadKeepsDefaults(stored: Option<Stored>, f: Field)
    requires stored != Some(Unparsable) && Name(f) !in SavedOf(stored)
    ensures FreshLoad(stored).value.Get(f) == Defaults().Get(f)
  {
  }

  /** With nothing stored, the page starts from the defaults. */
  lemma FreshLoadOfNothing()
    ensures FreshLoad(None) == Some(Defaults())
    ensures FreshLoad(Some(Parsed(map[]))) == Some(Defaults())
  {
    SettingsExtensional(LoadInto(Defaults(), map[]), Defaults());
  }

  /** Saving and then opening the page afresh gives back every field as JSON wrote it: each field
      whose value JSON can hold exactly is restored as it was. */
  lemma SaveThenFreshLoad(s: Settings)
    ensures FreshLoad(Some(Parsed(Encode(s)))).Some?
    ensures forall f :: FreshLoad(Some(Parsed(Encode(s)))).value.Get(f) == ToJson(s.Get(f))
    ensures forall f :: s.Get(f).IsJson() ==> FreshLoad(Some(Parsed(Encode(s)))).value.Get(f) == s.Get(f)
  {
    forall f
      ensures FreshLoad(Some(Parsed(Encode(s)))).value.Get(f) == ToJson(s.Get(f))
    {
      EncodeField(s, f);
      LoadIntoField(Defaults(), Encode(s), f);
    }
  }

  /** A record whose every field holds a JSON value comes back whole. */
  lemma SaveThenFreshLoadExact(s: Settings)
    requires forall f :: s.Get(f).IsJson()
    ensures FreshLoad(Some(Parsed(Encode(s)))) == Some(s)
  {
    SaveThenFreshLoad(s);
    SettingsExtensional(FreshLoad(Some(Parsed(Encode(s)))).value, s);
  }

  /** An utterance saved while it plays comes back as an empty object, which is truthy. */
  lemma SavedUtteranceReloadsAsObject(s: Settings)
    requires s.currentSpeech.Utterance?
    ensures FreshLoad(Some(Parsed(Encode(s)))).value.currentSpeech == Obj
    ensures Truthy(FreshLoad(Some(Parsed(Encode(s)))).value.currentSpeech)
  {
    SaveThenFreshLoad(s);
    assert FreshLoad(Some(Parsed(Encode(s)))).value.Get(CurrentSpeech) == ToJson(s.Get(CurrentSpeech));
  }

  /** A key that names no field is ignored: the load is the same without it. */
  lemma LoadIgnoresUnknownKey(saved: Snapshot, k: string)
    requires k !in FieldNames
    ensures FreshLoad(Some(Parsed(saved))) == FreshLoad(Some(Parsed(saved - {k})))
  {
    FieldNamesAreNames(k);
    SettingsExtensional(LoadInto(Defaults(), saved), LoadInto(Defaults(), saved - {k}));
  }

  /** A stored size is taken as it is, in range or not, and so is a value of another kind. */
  lemma LoadDoesNotValidate(v: JsonValue)
    ensures FreshLoad(Some(Parsed(map["fontSize" := v]))).value.fontSize == v
    ensures FreshLoad(Some(Parsed(map["theme" := v]))).value.theme == v
  {
  }

  // ----- Reset -----

  /** The utterance slot after a stop: cleared when it held a truthy value, kept otherwise. */
  function ClearedSlot(slot: Value): (r: Value)
    ensures !Truthy(r)
    ensures r == Null || r == slot
    ensures !Truthy(slot) ==> r == slot
  {
    if Truthy(slot) then Null else slot
  }

  /** The record after `resetAllSettings`: the eight preferences at their defaults, and the slot
      cleared when it held a truthy value. */
  function ResetSettings(s: Settings): (r: Settings)
    ensures forall f :: f != CurrentSpeech ==> r.Get(f) == Defaults().Get(f)
    ensures r.currentSpeech == (if Truthy(s.currentSpeech) then Null else s.currentSpeech)
  {
    Defaults().(currentSpeech := ClearedSlot(s.currentSpeech))
  }

  /** After a reset with the storage key removed, a reload and the live record agree on every
      preference; they differ only in a slot that was falsy and not null to begin with. */
  lemma ResetThenReload(s: Settings)
    ensures FreshLoad(None).Some?
    ensures forall f :: f != CurrentSpeech ==> ResetSettings(s).Get(f) == FreshLoad(None).value.Get(f)
    ensures ResetSettings(s) == FreshLoad(None).value <==> s.currentSpeech.Null? || Truthy(s.currentSpeech)
  {
    FreshLoadOfNothing();
  }

  // ----- The view -----

  /** The attributes `updateUIFromState` writes on the document and the body. */
  datatype View = View(
    rootFontSize: string,      // the text written to style.fontSize of the root element
    theme: string,             // data-theme
    font: string,              // data-font
    lineSpacing: string,       // data-line-spacing
    animations: string,        // data-animations
    readingModeClass: bool)    // class reading-mode on the body

  /** A toggle button: its aria-pressed attribute and the text of its state label. */
  datatype Button = Button(pressed: string, stateText: string)

  function Project(s: Settings): View {
    View(ToString(s.fontSize) + "px", ToString(s.theme), ToString(s.font), ToString(s.lineSpacing),
         if Truthy(s.animations) then "enabled" else "disabled",
         Truthy(s.readingMode))
  }

  /** `updateToggleButton(id, state)`. */
  function ButtonFor(state: Value): Button {
    Button(ToString(state), if Truthy(state) then "Desativar" else "Ativar")
  }

  /** The four toggle buttons of the panel. */
  datatype Buttons = Buttons(animations: Button, readingMode: Button, readingMask: Button, speech: Button)
  {
    function Get(t: Toggle): Button {
      match t
      case AnimationsToggle => animations
      case ReadingModeToggle => readingMode
      case ReadingMaskToggle => readingMask
      case SpeechToggle => speech
    }

    function With(t: Toggle, b: Button): (r: Buttons)
      ensures r.Get(t) == b
      ensures forall u :: u != t ==> r.Get(u) == Get(u)
    {
      match t
      case AnimationsToggle => this.(animations := b)
      case ReadingModeToggle => this.(readingMode := b)
      case ReadingMaskToggle => this.(readingMask := b)
      case SpeechToggle => this.(speech := b)
    }
  }

  /** Two button rows that agree on every button are the same. */
  lemma ButtonsExtensional(a: Buttons, b: Buttons)
    requires forall t :: a.Get(t) == b.Get(t)
    ensures a == b
  {
    assert a.Get(AnimationsToggle) == b.Get(AnimationsToggle);
    assert a.Get(ReadingModeToggle) == b.Get(ReadingModeToggle);
    assert a.Get(ReadingMaskToggle) == b.Get(ReadingMaskToggle);
    assert a.Get(SpeechToggle) == b.Get(SpeechToggle);
  }

  /** What `updateUIFromState` leaves on the four buttons. */
  function ProjectButtons(s: Settings): (r: Buttons)
    ensures forall t :: r.Get(t) == ButtonFor(s.Get(StateKey(t)))
  {
    Buttons(ButtonFor(s.animations), ButtonFor(s.readingMode), ButtonFor(s.readingMask), ButtonFor(s.textToSpeech))
  }

  /** A button as `resetAllSettings` leaves every one of them. */
  const Released: Button := Button("false", "Ativar")

  function ReleasedButtons(): (r: Buttons)
    ensures forall t :: r.Get(t) == Released
  {
    Buttons(Released, Released, Released, Released)
  }

  /** The view shows the record: the animations attribute reads "enabled" and the reading-mode
      class is present exactly when the field is truthy. */
  lemma ProjectionFaithful(s: Settings)
    ensures Project(s).animations == "enabled" <==> Truthy(s.animations)
    ensures Project(s).readingModeClass <==> Truthy(s.readingMode)
    ensures Project(s).theme == ToString(s.theme) && Project(s).font == ToString(s.font)
    ensures Project(s).lineSpacing == ToString(s.lineSpacing)
    ensures s.fontSize.Num? ==> Project(s).rootFontSize == IntToString(s.fontSize.n) + "px"
  {
  }

  /** A button reads pressed exactly when its field is `true`, or the text "true", which only a
      stored snapshot can put there. */
  lemma ButtonFaithful(s: Settings, t: Toggle)
    ensures ProjectButtons(s).Get(t).pressed == "true" <==> s.Get(StateKey(t)) == Bool(true) || s.Get(StateKey(t)) == Str("true")
    ensures ProjectButtons(s).Get(t).stateText == "Desativar" <==> Truthy(s.Get(StateKey(t)))
  {
    ToStringIsTrue(s.Get(StateKey(t)));
  }

  /** The utterance slot has no part in the view. */
  lemma ProjectionIgnoresSpeechSlot(s: Settings, v: Value)
    ensures Project(s.(currentSpeech := v)) == Project(s)
    ensures ProjectButtons(s.(currentSpeech := v)) == ProjectButtons(s)
  {
  }

  /** A save and a reload keep every switch as it was shown: the animations attribute, the
      reading-mode class and every button's label come back the same, even for a field that held
      NaN or a playing utterance. */
  lemma ReloadKeepsSwitches(s: Settings)
    ensures FreshLoad(Some(Parsed(Encode(s)))).Some?
    ensures var r := FreshLoad(Some(Parsed(Encode(s)))).value;
            Project(r).animations == Project(s).animations &&
            Project(r).readingModeClass == Project(s).readingModeClass &&
            forall t :: ProjectButtons(r).Get(t).stateText == ProjectButtons(s).Get(t).stateText
  {
    SaveThenFreshLoad(s);
    var r := FreshLoad(Some(Parsed(Encode(s)))).value;
    assert r.Get(Animations) == ToJson(s.Get(Animations));
    assert r.Get(ReadingMode) == ToJson(s.Get(ReadingMode));
    forall t
      ensures ProjectButtons(r).Get(t).stateText == ProjectButtons(s).Get(t).stateText
    {
      assert r.Get(StateKey(t)) == ToJson(s.Get(StateKey(t)));
    }
  }

  /** Right after a reset the animations field is on, but every button reads not pressed: the
      projection of the reset record would show it pressed. */
  lemma ResetLeavesAnimationsButtonReleased(s: Settings)
    ensures ResetSettings(s).animations == Bool(true)
    ensures ProjectButtons(ResetSettings(s)).animations.pressed == "true"
    ensures ReleasedButtons().animations.pressed == "false"
    ensures forall t ::
              (ReleasedButtons().Get(t) == ProjectButtons(ResetSettings(s)).Get(t)) <==> t != AnimationsToggle
  {
  }
}

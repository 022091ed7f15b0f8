/**
 * The string logic of the language manager (FK.JLoc.LanguageManager): strings
 * files are JSON objects `category -> name -> language code -> text`, loaded
 * under their path into one table; a lookup walks the loaded files in order and
 * takes the first that has the string; the current language can only be switched
 * to a configured one; at start-up a language is picked by a fixed fallback.
 *
 * The manager is a static class in C#; here its static fields are the fields of
 * one `LanguageManager` object. File reading, coroutines, the parse thread,
 * player preferences and logging are outside the model: file contents arrive as
 * a map from path to parsed JSON, the OS language and the saved language as
 * parameters.
 */
module Localization {
  import opened Wrappers
  import opened AssocList
  import Escapes

  /** The translations of one string: language code -> text. */
  type Entry = Assoc<string>
  /** The strings of one category: string name -> translations. */
  type Category = Assoc<Entry>
  /** One strings file: category -> its strings. */
  type StringsFile = Assoc<Category>
  /** Every loaded file under its path, in load order. */
  type StringTable = Assoc<StringsFile>

  /** Category used when a caller names none (DEFAULT_CATEGORY). */
  const DefaultCategory: string := "default"
  /** What a text element shows when its string cannot be looked up. */
  const MissingText: string := "<MISSING>"

  /** The fields of the configuration file the manager reads. */
  datatype Config = Config(
    languages: Assoc<string>,   // "Languages": language code -> display name
    useSystemLanguage: bool,    // "UseSystemLanguageAsDefault"
    defaultLanguage: string,    // "DefaultLanguageCode"
    useSavedLanguage: bool)     // "UseSavedLanguage"

  /** Why an operation did not do what was asked; the comment says how C# reports it. */
  datatype Failure =
    | NotInitialized    // exception: the configuration is not loaded yet
    | NoStrings         // exception: no strings file is loaded
    | StringNotFound    // exception: no loaded file has the string
    | UnknownLanguage   // logged error: the code is empty or not configured
    | FileNotFound      // exception rethrown: the strings file does not exist
    | NoTable           // exception: unloading before any file was ever loaded (null table)
    | FileNotLoaded     // logged warning: unloading a path that is not loaded

  datatype Result<T> = Ok(value: T) | Err(error: Failure)

  datatype Outcome = Pass | Fail(error: Failure)

  // ---------------------------------------------------------------------------
  // Operating-system language

  /** The values of Unity's SystemLanguage the manager names; Other stands for the rest. */
  datatype SystemLanguage =
    | Afrikaans | Arabic | Basque | Belarusian | Bulgarian | Catalan | Chinese | Czech
    | Danish | Dutch | English | Estonian | Faroese | Finnish | French | German | Greek
    | Hebrew | Hungarian | Icelandic | Indonesian | Italian | Japanese | Korean | Latvian
    | Lithuanian | Norwegian | Polish | Portuguese | Romanian | Russian | SerboCroatian
    | Slovak | Slovenian | Spanish | Swedish | Thai | Turkish | Ukrainian | Vietnamese
    | ChineseSimplified | ChineseTraditional | Unknown | Other

  /** The three Chinese values share one code, so they are one language here. */
  function Canonical(l: SystemLanguage): SystemLanguage {
    if l == ChineseSimplified || l == ChineseTraditional then Chinese else l
  }

  /** The `SystemLanguage` property: the ISO 639-1 code of the OS language, None for null. */
  function IsoCode(l: SystemLanguage): (code: Option<string>)
    ensures code.None? <==> l == Unknown || l == Other
    ensures Canonical(l) == Chinese ==> code == Some("zh")
    ensures code.Some? ==> |code.value| == 2 && forall i :: 0 <= i < 2 ==> 'a' <= code.value[i] <= 'z'
  {
    match l
    case Afrikaans => Some("af")
    case Arabic => Some("ar")
    case Basque => Some("eu")
    case Belarusian => Some("be")
    case Bulgarian => Some("bg")
    case Catalan => Some("ca")
    case Chinese => Some("zh")
    case Czech => Some("cs")
    case Danish => Some("da")
    case Dutch => Some("nl")
    case English => Some("en")
    case Estonian => Some("et")
    case Faroese => Some("fo")
    case Finnish => Some("fi")
    case French => Some("fr")
    case German => Some("de")
    case Greek => Some("el")
    case Hebrew => Some("he")
    case Hungarian => Some("hu")
    case Icelandic => Some("is")
    case Indonesian => Some("id")
    case Italian => Some("it")
    case Japanese => Some("ja")
    case Korean => Some("ko")
    case Latvian => Some("lv")
    case Lithuanian => Some("lt")
    case Norwegian => Some("no")
    case Polish => Some("pl")
    case Portuguese => Some("pt")
    case Romanian => Some("ro")
    case Russian => Some("ru")
    case SerboCroatian => Some("sr")
    case Slovak => Some("sk")
    case Slovenian => Some("sl")
    case Spanish => Some("es")
    case Swedish => Some("sv")
    case Thai => Some("th")
    case Turkish => Some("tr")
    case Ukrainian => Some("uk")
    case Vietnamese => Some("vi")
    case ChineseSimplified => Some("zh")
    case ChineseTraditional => Some("zh")
    case Unknown => None
    case Other => None
  }

  /** The reverse table: the language a two-letter code names. */
  function LanguageOf(code: string): Option<SystemLanguage> {
    if |code| != 2 then None
    else var (x, y) := (code[0], code[1]);
    if x == 'a' && y == 'f' then Some(Afrikaans)
    else if x == 'a' && y == 'r' then Some(Arabic)
    else if x == 'e' && y == 'u' then Some(Basque)
    else if x == 'b' && y == 'e' then Some(Belarusian)
    else if x == 'b' && y == 'g' then Some(Bulgarian)
    else if x == 'c' && y == 'a' then Some(Catalan)
    else if x == 'z' && y == 'h' then Some(Chinese)
    else if x == 'c' && y == 's' then Some(Czech)
    else if x == 'd' && y == 'a' then Some(Danish)
    else if x == 'n' && y == 'l' then Some(Dutch)
    else if x == 'e' && y == 'n' then Some(English)
    else if x == 'e' && y == 't' then Some(Estonian)
    else if x == 'f' && y == 'o' then Some(Faroese)
    else if x == 'f' && y == 'i' then Some(Finnish)
    else if x == 'f' && y == 'r' then Some(French)
    else if x == 'd' && y == 'e' then Some(German)
    else if x == 'e' && y == 'l' then Some(Greek)
    else if x == 'h' && y == 'e' then Some(Hebrew)
    else if x == 'h' && y == 'u' then Some(Hungarian)
    else if x == 'i' && y == 's' then Some(Icelandic)
    else if x == 'i' && y == 'd' then Some(Indonesian)
    else if x == 'i' && y == 't' then Some(Italian)
    else if x == 'j' && y == 'a' then Some(Japanese)
    else if x == 'k' && y == 'o' then Some(Korean)
    else if x == 'l' && y == 'v' then Some(Latvian)
    else if x == 'l' && y == 't' then Some(Lithuanian)
    else if x == 'n' && y == 'o' then Some(Norwegian)
    else if x == 'p' && y == 'l' then Some(Polish)
    else if x == 'p' && y == 't' then Some(Portuguese)
    else if x == 'r' && y == 'o' then Some(Romanian)
    else if x == 'r' && y == 'u' then Some(Russian)
    else if x == 's' && y == 'r' then Some(SerboCroatian)
    else if x == 's' && y == 'k' then Some(Slovak)
    else if x == 's' && y == 'l' then Some(Slovenian)
    else if x == 'e' && y == 's' then Some(Spanish)
    else if x == 's' && y == 'v' then Some(Swedish)
    else if x == 't' && y == 'h' then Some(Thai)
    else if x == 't' && y == 'r' then Some(Turkish)
    else if x == 'u' && y == 'k' then Some(Ukrainian)
    else if x == 'v' && y == 'i' then Some(Vietnamese)
    else None
  }

  /** Every code the OS mapping yields names the language it came from (the Chinese ones as Chinese). */
  lemma IsoCodeRoundTrip(l: SystemLanguage)
    ensures IsoCode(l).Some? ==> LanguageOf(IsoCode(l).value) == Some(Canonical(l))
  {
    match l
    case Afrikaans =>
    case Arabic =>
    case Basque =>
    case Belarusian =>
    case Bulgarian =>
    case Catalan =>
    case Chinese =>
    case Czech =>
    case Danish =>
    case Dutch =>
    case English =>
    case Estonian =>
    case Faroese =>
    case Finnish =>
    case French =>
    case German =>
    case Greek =>
    case Hebrew =>
    case Hungarian =>
    case Icelandic =>
    case Indonesian =>
    case Italian =>
    case Japanese =>
    case Korean =>
    case Latvian =>
    case Lithuanian =>
    case Norwegian =>
    case Polish =>
    case Portuguese =>
    case Romanian =>
    case Russian =>
    case SerboCroatian =>
    case Slovak =>
    case Slovenian =>
    case Spanish =>
    case Swedish =>
    case Thai =>
    case Turkish =>
    case Ukrainian =>
    case Vietnamese =>
    case ChineseSimplified =>
    case ChineseTraditional =>
    case Unknown =>
    case Other =>
  }

  /** Two OS languages share a code only when both are a Chinese variant. */
  lemma IsoCodeDistinct(a: SystemLanguage, b: SystemLanguage)
    requires IsoCode(a).Some? && IsoCode(a) == IsoCode(b)
    ensures a == b || (Canonical(a) == Chinese && Canonical(b) == Chinese)
  {
    IsoCodeRoundTrip(a);
    IsoCodeRoundTrip(b);
  }

  // ---------------------------------------------------------------------------
  // Lower case

  /** `char.ToLower` on the ASCII letters; other characters are kept. */
  function LowerChar(c: char): char {
    if 'A' <= c <= 'Z' then (c as int + 32) as char else c
  }

  /** `string.ToLower()`, letter by letter. */
  function Lower(s: string): (r: string)
    ensures |r| == |s|
    ensures forall i :: 0 <= i < |s| ==> !('A' <= r[i] <= 'Z')
  {
    seq(|s|, i requires 0 <= i < |s| => LowerChar(s[i]))
  }

  // ---------------------------------------------------------------------------
  // Parsing loaded strings

  /** An entry with every translation un-escaped. */
  function ParsedEntry(e: Entry): Entry {
    MapValues(e, Escapes.Unescape)
  }

  function ParsedCategory(c: Category): Category {
    MapValues(c, ParsedEntry)
  }

  /** A strings file as `ParseStrings` leaves it: same keys at every level, leaves un-escaped. */
  function ParsedFile(f: StringsFile): StringsFile {
    MapValues(f, ParsedCategory)
  }

  /**
   * `ParseStrings`: visits every category, every string in it and every
   * translation, and writes the un-escaped text back under the same key.
   */
  method ParseStrings(file: StringsFile) returns (parsed: StringsFile)
    ensures parsed == ParsedFile(file)
    ensures Keys(parsed) == Keys(file)
  {
    parsed := file;
    for c := 0 to |parsed|
      invariant |parsed| == |file|
      invariant forall k :: 0 <= k < c ==> parsed[k] == (file[k].0, ParsedCategory(file[k].1))
      invariant forall k :: c <= k < |file| ==> parsed[k] == file[k]
    {
      var category := parsed[c].1;
      for n := 0 to |category|
        invariant |category| == |file[c].1|
        invariant forall k :: 0 <= k < n ==> category[k] == (file[c].1[k].0, ParsedEntry(file[c].1[k].1))
        invariant forall k :: n <= k < |category| ==> category[k] == file[c].1[k]
      {
        var entry := category[n].1;
        for i := 0 to |entry|
          invariant |entry| == |file[c].1[n].1|
          invariant forall k :: 0 <= k < i ==> entry[k] == (file[c].1[n].1[k].0, Escapes.Unescape(file[c].1[n].1[k].1))
          invariant forall k :: i <= k < |entry| ==> entry[k] == file[c].1[n].1[k]
        {
          var s := entry[i].1;
          for j := 0 to |Escapes.EscapedLineBreaks|
            invariant s == Escapes.ReplaceLineBreaks(entry[i].1, j)
          {
            s := Escapes.Replace(s, Escapes.EscapedLineBreaks[j], "\n");
          }
          s := Escapes.Replace(Escapes.Replace(s, "\\\"", "\""), "\\\\", "\\");
          entry := entry[i := (entry[i].0, s)];
        }
        assert entry == ParsedEntry(file[c].1[n].1);
        category := category[n := (category[n].0, entry)];
      }
      assert category == ParsedCategory(file[c].1);
      parsed := parsed[c := (parsed[c].0, category)];
    }
  }

  // ---------------------------------------------------------------------------
  // Looking strings up

  /** `file[category]?[name]?[language]?.StringValue`: None where any step finds nothing. */
  function Text(file: StringsFile, category: string, name: string, language: string): Option<string> {
    match Get(file, category)
    case None => None
    case Some(c) =>
      match Get(c, name)
      case None => None
      case Some(e) => Get(e, language)
  }

  /** The text from the first loaded file, in table order, that has it. */
  function FindIn(table: StringTable, category: string, name: string, language: string): Option<string> {
    if table == [] then None
    else match Text(table[0].1, category, name, language)
      case Some(s) => Some(s)
      case None => FindIn(table[1..], category, name, language)
  }

  /** The search finds a text exactly when some file has one, and then it is the earliest such file's. */
  lemma {:induction false} FindInIsFirst(table: StringTable, category: string, name: string, language: string)
    ensures FindIn(table, category, name, language).Some? <==>
      exists i :: 0 <= i < |table| && Text(table[i].1, category, name, language).Some?
    ensures FindIn(table, category, name, language).Some? ==>
      exists i :: 0 <= i < |table| && Text(table[i].1, category, name, language) == FindIn(table, category, name, language)
        && forall j :: 0 <= j < i ==> Text(table[j].1, category, name, language).None?
  {
    if table != [] && Text(table[0].1, category, name, language).None? {
      FindInIsFirst(table[1..], category, name, language);
      if FindIn(table, category, name, language).Some? {
        var i :| 0 <= i < |table| - 1 && Text(table[1..][i].1, category, name, language) == FindIn(table, category, name, language)
          && forall j :: 0 <= j < i ==> Text(table[1..][j].1, category, name, language).None?;
        assert Text(table[i + 1].1, category, name, language) == FindIn(table, category, name, language);
        assert forall j :: 0 <= j < i + 1 ==> Text(table[j].1, category, name, language).None? by {
          forall j | 0 <= j < i + 1 ensures Text(table[j].1, category, name, language).None? {
            if j > 0 { assert table[j] == table[1..][j - 1]; }
          }
        }
      } else {
        forall i | 0 <= i < |table| ensures Text(table[i].1, category, name, language).None? {
          if i > 0 { assert table[i] == table[1..][i - 1]; }
        }
      }
    }
  }

  /** Looking a string up in a parsed file gives the un-escaped text of the raw file. */
  lemma ParsedText(f: StringsFile, category: string, name: string, language: string)
    ensures Text(ParsedFile(f), category, name, language) ==
      match Text(f, category, name, language)
      case Some(s) => Some(Escapes.Unescape(s))
      case None => None
  {
    GetMapped(f, ParsedCategory, category);
    if HasKey(f, category) {
      var c := Get(f, category).value;
      GetMapped(c, ParsedEntry, name);
      if HasKey(c, name) {
        GetMapped(Get(c, name).value, Escapes.Unescape, language);
      }
    }
  }

  /**
   * After loading one file with every other file unloaded, a lookup yields that
   * file's text un-escaped, and fails exactly where the file has no such text.
   */
  lemma LookupAfterFreshLoad(path: string, f: StringsFile, category: string, name: string, language: string)
    ensures FindIn(Set([], path, ParsedFile(f)), category, name, language) ==
      match Text(f, category, name, language)
      case Some(s) => Some(Escapes.Unescape(s))
      case None => None
  {
    ParsedText(f, category, name, language);
    assert Set([], path, ParsedFile(f))[1..] == [];
  }

  /** The `while` loop of both `GetString` overloads: try each loaded file in turn until one has the text. */
  method Search(table: StringTable, category: string, name: string, language: string) returns (s: Option<string>)
    ensures s == FindIn(table, category, name, language)
  {
    s := None;
    var i := 0;
    while i < |table| && s.None?
      invariant 0 <= i <= |table|
      invariant FindIn(table, category, name, language) == if s.Some? then s else FindIn(table[i..], category, name, language)
    {
      s := Text(table[i].1, category, name, language);
      assert table[i..][1..] == table[i + 1..];
      i := i + 1;
    }
  }

  /** What a text element is given: the text found, or the missing marker on any failure. */
  function Shown(r: Result<string>): string {
    if r.Ok? then r.value else MissingText
  }

  /** The current language can be kept: it is set, non-empty and configured. */
  predicate UsableCurrent(cfg: Config, current: Option<string>) {
    current.Some? && current.value != "" && HasKey(cfg.languages, current.value)
  }

  /** The OS language is to be used and is configured. */
  predicate UsableSystem(cfg: Config, system: Option<string>) {
    cfg.useSystemLanguage && system.Some? && HasKey(cfg.languages, system.value)
  }

  /** The start-up fallback: keep the current language, else the OS one, else the default, else the first known. */
  function ChooseStartLanguage(cfg: Config, current: Option<string>, system: Option<string>, known: Option<seq<string>>): (r: Option<string>)
    requires known.Some? ==> known.value == Keys(cfg.languages)
    ensures r.Some? ==> HasKey(cfg.languages, r.value)
    ensures HasKey(cfg.languages, cfg.defaultLanguage) ==> r.Some?
    ensures UsableCurrent(cfg, current) ==> r == current
    ensures !UsableCurrent(cfg, current) && UsableSystem(cfg, system) ==> r == system
    ensures !UsableCurrent(cfg, current) && !UsableSystem(cfg, system) && HasKey(cfg.languages, cfg.defaultLanguage)
      ==> r == Some(cfg.defaultLanguage)
    ensures FallsThrough(cfg, current, system) && known.Some? && |known.value| > 0 ==> r == Some(known.value[0])
  {
    if UsableCurrent(cfg, current) then current
    else if UsableSystem(cfg, system) then system
    else if HasKey(cfg.languages, cfg.defaultLanguage) then Some(cfg.defaultLanguage)
    else if known.Some? && |known.value| > 0 then
      GetMeansPresent(cfg.languages, known.value[0]);
      Some(known.value[0])
    else None
  }

  /** True when the start-up fallback gets as far as the first known language. */
  predicate FallsThrough(cfg: Config, current: Option<string>, system: Option<string>) {
    !UsableCurrent(cfg, current) && !UsableSystem(cfg, system) && !HasKey(cfg.languages, cfg.defaultLanguage)
  }

  /**
   * At start-up nothing is known yet: when current, OS and default language all
   * fail, the fallback fails too instead of choosing the first language.
   */
  lemma NoFirstLanguageAtStartup(cfg: Config, current: Option<string>, system: Option<string>)
    requires FallsThrough(cfg, current, system)
    ensures ChooseStartLanguage(cfg, current, system, None) == None
  {
  }

  /** A UI text element; only the text it is given is modelled. */
  class TextElement {
    var text: string

    constructor(initial: string)
      ensures text == initial
    {
      text := initial;
    }
  }

  /** The static state of the language manager. */
  class LanguageManager {
    var initialized: bool
    var strings: Option<StringTable>        // _strings, None while null
    var config: Option<Config>              // _config
    var currentLanguage: Option<string>     // _currentLanguage
    var langs: Option<seq<string>>          // _langs, the cache behind Languages
    var currentlyLoading: int               // _currentlyLoading
    ghost var languageChanged: seq<string>  // the arguments OnLanguageChanged was invoked with
    ghost var filesLoaded: nat              // how often OnStringFileLoaded was invoked

    /**
     * Once initialized, the configuration is there and the current language is
     * one of its languages; the language cache, once filled, lists the configured
     * codes; a path is loaded at most once; the loading counter never goes
     * below zero.
     */
    ghost predicate Valid()
      reads this
    {
      && (initialized ==> config.Some? && currentLanguage.Some? && HasKey(config.value.languages, currentLanguage.value))
      && (langs.Some? ==> config.Some? && langs.value == Keys(config.value.languages))
      && (strings.Some? ==> UniqueKeys(strings.value))
      && currentlyLoading >= 0
    }

    /**
     * The state when the configuration has been read (`Init`, `InitAsync`) and
     * `FinishInit` is about to run: the saved language is taken if the
     * configuration says so.
     */
    constructor(loaded: Config, savedLanguage: Option<string>)
      ensures Valid()
      ensures !initialized && strings.None? && config == Some(loaded) && langs.None? && currentlyLoading == 0
      ensures currentLanguage == if loaded.useSavedLanguage then savedLanguage else None
      ensures languageChanged == [] && filesLoaded == 0
    {
      initialized := false;
      strings := None;
      config := Some(loaded);
      currentLanguage := if loaded.useSavedLanguage then savedLanguage else None;
      langs := None;
      currentlyLoading := 0;
      languageChanged := [];
      filesLoaded := 0;
    }

    /** `HasStrings`. */
    predicate HasStrings()
      reads this
    {
      strings.Some? && |strings.value| > 0
    }

    /** `CurrentlyLoadingStrings`. */
    predicate CurrentlyLoadingStrings()
      reads this
    {
      currentlyLoading > 0
    }

    /** What `GetString` answers for a string in the given language. */
    function Resolve(category: string, name: string, language: string): Result<string>
      reads this
    {
      if !initialized then Err(NotInitialized)
      else if !HasStrings() then Err(NoStrings)
      else match FindIn(strings.value, category, name, language)
        case Some(s) => Ok(s)
        case None => Err(StringNotFound)
    }

    /** `GetString(name, category)`: the string in the current language. */
    method GetString(name: string, category: string := DefaultCategory) returns (r: Result<string>)
      requires Valid()
      ensures !initialized ==> r == Err(NotInitialized)
      ensures initialized ==> r == Resolve(category, name, currentLanguage.value)
    {
      if !initialized {
        return Err(NotInitialized);
      }
      if !HasStrings() {
        return Err(NoStrings);
      }
      var s := Search(strings.value, category, name, currentLanguage.value);
      r := if s.Some? then Ok(s.value) else Err(StringNotFound);
    }

    /** `GetString(name, category, language)`: the string in the given language, lower-cased first. */
    method GetStringIn(name: string, category: string, language: string) returns (r: Result<string>)
      ensures r == Resolve(category, name, Lower(language))
    {
      if !initialized {
        return Err(NotInitialized);
      }
      if !HasStrings() {
        return Err(NoStrings);
      }
      var lowerCaseLang := Lower(language);
      var s := Search(strings.value, category, name, lowerCaseLang);
      r := if s.Some? then Ok(s.value) else Err(StringNotFound);
    }

    /** `SetText(field, name, category)`: a null field is left alone; any failure shows the missing marker. */
    method SetText(field: TextElement?, name: string, category: string := DefaultCategory)
      requires Valid()
      modifies field
      ensures field != null && initialized ==> field.text == Shown(Resolve(category, name, currentLanguage.value))
      ensures field != null && !initialized ==> field.text == MissingText
    {
      if field == null {
        return;
      }
      var r := GetString(name, category);
      field.text := Shown(r);
    }

    /** `SetText(field, name, category, language)`. */
    method SetTextIn(field: TextElement?, name: string, category: string, language: string)
      modifies field
      ensures field != null ==> field.text == Shown(Resolve(category, name, Lower(language)))
    {
      if field == null {
        return;
      }
      var r := GetStringIn(name, category, language);
      field.text := Shown(r);
    }

    /** `SetLanguage`: switch to a configured language and notify; anything else changes nothing. */
    method SetLanguage(language: string) returns (o: Outcome)
      requires Valid()
      modifies this`currentLanguage, this`languageChanged
      ensures Valid()
      ensures !initialized ==> o == Fail(NotInitialized)
      ensures initialized && (Lower(language) == "" || !HasKey(config.value.languages, Lower(language))) ==> o == Fail(UnknownLanguage)
      ensures o.Fail? ==> currentLanguage == old(currentLanguage) && languageChanged == old(languageChanged)
      ensures o.Pass? <==> initialized && Lower(language) != "" && HasKey(config.value.languages, Lower(language))
      ensures o.Pass? ==> currentLanguage == Some(Lower(language)) && languageChanged == old(languageChanged) + [Lower(language)]
    {
      if !initialized {
        return Fail(NotInitialized);
      }
      var lowerCaseLang := Lower(language);
      if lowerCaseLang == "" || !HasKey(config.value.languages, lowerCaseLang) {
        return Fail(UnknownLanguage);
      }
      currentLanguage := Some(lowerCaseLang);
      languageChanged := languageChanged + [lowerCaseLang];
      o := Pass;
    }

    /** What the `Languages` getter would return now. */
    function KnownLanguages(): (r: Option<seq<string>>)
      requires Valid() && config.Some?
      reads this
      ensures r.Some? ==> r.value == Keys(config.value.languages)
    {
      if langs.Some? then langs else if initialized then Some(Keys(config.value.languages)) else None
    }

    /** The `Languages` getter: fills its cache from the configuration once the manager is initialized. */
    method Languages() returns (ls: Option<seq<string>>)
      requires Valid()
      modifies this`langs
      ensures Valid()
      ensures langs == if old(langs).None? && config.Some? && initialized then Some(Keys(config.value.languages)) else old(langs)
      ensures ls == langs
    {
      if langs.None? && config.Some? && initialized {
        langs := Some(Keys(config.value.languages));
      }
      ls := langs;
    }

    /**
     * `FinishInit`: picks the start language by the fallback and marks the
     * manager initialized. The last resort reads `Languages` while still
     * uninitialized, finds null and throws, leaving the manager uninitialized.
     * `systemLanguage` is the value of the `SystemLanguage` property, that is
     * `IsoCode` of the OS language.
     */
    method FinishInit(systemLanguage: Option<string>) returns (ok: bool)
      requires Valid() && config.Some?
      modifies this`currentLanguage, this`initialized, this`langs
      ensures Valid()
      ensures ok == ChooseStartLanguage(config.value, old(currentLanguage), systemLanguage, old(KnownLanguages())).Some?
      ensures ok ==> initialized && currentLanguage == ChooseStartLanguage(config.value, old(currentLanguage), systemLanguage, old(KnownLanguages()))
      ensures !ok ==> currentLanguage == old(currentLanguage) && initialized == old(initialized)
      ensures langs == if FallsThrough(config.value, old(currentLanguage), systemLanguage) && old(langs).None? && old(initialized)
        then Some(Keys(config.value.languages)) else old(langs)
    {
      var cfg := config.value;
      if currentLanguage.None? || currentLanguage.value == "" || !HasKey(cfg.languages, currentLanguage.value) {
        if cfg.useSystemLanguage && systemLanguage.Some? && HasKey(cfg.languages, systemLanguage.value) {
          currentLanguage := systemLanguage;
        } else if HasKey(cfg.languages, cfg.defaultLanguage) {
          currentLanguage := Some(cfg.defaultLanguage);
        } else {
          var ls := Languages();
          if ls.None? || |ls.value| == 0 {
            return false;
          }
          GetMeansPresent(cfg.languages, ls.value[0]);
          currentLanguage := Some(ls.value[0]);
        }
      }
      initialized := true;
      ok := true;
    }

    /**
     * Synchronous `LoadStringsFile(path, false, unloadOther)`: starts a fresh
     * table if asked to or if none exists, then stores the parsed file under its
     * path. A missing file is rethrown after the table was replaced and with the
     * loading counter still raised.
     */
    method LoadStringsFile(path: string, unloadOther: bool, disk: map<string, StringsFile>) returns (o: Outcome)
      requires Valid()
      modifies this`currentlyLoading, this`strings, this`filesLoaded
      ensures Valid()
      ensures var base := if unloadOther || old(strings).None? then [] else old(strings).value;
        if path in disk then
          && o == Pass
          && strings == Some(Set(base, path, ParsedFile(disk[path])))
          && currentlyLoading == old(currentlyLoading)
          && filesLoaded == old(filesLoaded) + 1
        else
          && o == Fail(FileNotFound)
          && strings == Some(base)
          && currentlyLoading == old(currentlyLoading) + 1
          && filesLoaded == old(filesLoaded)
      ensures o.Pass? ==> HasStrings()
      ensures o.Fail? ==> CurrentlyLoadingStrings()
    {
      currentlyLoading := currentlyLoading + 1;
      if unloadOther || strings.None? {
        strings := Some([]);
      }
      if path !in disk {
        return Fail(FileNotFound);
      }
      var subStrings := ParseStrings(disk[path]);
      SetUnique(strings.value, path, subStrings);
      strings := Some(Set(strings.value, path, subStrings));
      currentlyLoading := currentlyLoading - 1;
      filesLoaded := filesLoaded + 1;
      o := Pass;
    }

    /** `UnloadStringsFile`: removes exactly the given path; a path that is not loaded changes nothing. */
    method UnloadStringsFile(path: string) returns (o: Outcome)
      requires Valid()
      modifies this`strings
      ensures Valid()
      ensures old(strings).None? ==> o == Fail(NoTable) && strings == old(strings)
      ensures old(strings).Some? && !HasKey(old(strings).value, path) ==> o == Fail(FileNotLoaded) && strings == old(strings)
      ensures old(strings).Some? && HasKey(old(strings).value, path) ==>
        && o == Pass
        && strings == Some(RemoveFirst(old(strings).value, path))
        && !HasKey(strings.value, path)
        && |strings.value| == |old(strings).value| - 1
    {
      if strings.None? {
        return Fail(NoTable);
      }
      if !HasKey(strings.value, path) {
        return Fail(FileNotLoaded);
      }
      RemoveUnique(strings.value, path);
      GetMeansPresent(RemoveFirst(strings.value, path), path);
      strings := Some(RemoveFirst(strings.value, path));
      o := Pass;
    }

    /** `GetLanguageDisplayName`: the configured name of a language, None (null) when unknown or uninitialized. */
    function GetLanguageDisplayName(languageCode: string): (name: Option<string>)
      reads this
      ensures name.Some? <==> initialized && config.Some? && HasKey(config.value.languages, languageCode)
      ensures name.Some? ==> (languageCode, name.value) in config.value.languages
    {
      if config.None? || !initialized then None
      else
        GetMeansPresent(config.value.languages, languageCode);
        Get(config.value.languages, languageCode)
    }
  }
}

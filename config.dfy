/**
 * Settings from the RC file (src/config.cpp): key-binding strings, boolean
 * words, `key = value` lines, applying the values over the defaults.
 * Finding and opening the RC file is outside the model; its content is a
 * string.
 */
module Config {
  import opened Text
  import opened Slowertext
  import FileIO

  /* ---------------- parse_key_binding ---------------- */

  /** Converting a `char` to `int`: char is signed on the x86-64 Linux
      targets the terminal code is written for, so bytes 0x80..0xff give
      negative values. */
  function SignedByte(c: char): int {
    if c as int >= 128 then c as int - 256 else c as int
  }

  /** The key code a binding string names; 0 means "unbound". */
  function ParseKeyBinding(key: string): int {
    if key == [] then 0 else LoweredKeyCode(ToLower(key))
  }

  /** The code of an already lowercased, non-empty binding string. */
  function LoweredKeyCode(k: string): int {
    match NamedKey(k)
    case Some(code) => code
    case None => ComboKeyCode(k)
  }

  /** The named keys, tested first. */
  function NamedKey(k: string): (r: Option<int>)
    ensures r.Some? ==> |k| >= 2 && k[0] != 'c' && k[0] != 'f' && (|k| == 5 ==> k[0] != 'a')
  {
    if k == "escape" || k == "esc" then Some(EscKey)
    else if k == "backspace" then Some(BackspaceKey)
    else if k == "delete" || k == "del" then Some(DeleteKey)
    else if k == "arrow_up" || k == "up" then Some(ArrowUp)
    else if k == "arrow_down" || k == "down" then Some(ArrowDown)
    else if k == "arrow_left" || k == "left" then Some(ArrowLeft)
    else if k == "arrow_right" || k == "right" then Some(ArrowRight)
    else if k == "tab" then Some('\t' as int)
    else if k == "enter" || k == "return" then Some('\r' as int)
    else if k == "space" then Some(' ' as int)
    else None
  }

  /** "ctrl+<letter>", "alt+<c>", function keys and single characters. */
  function ComboKeyCode(k: string): int {
    if |k| == 6 && k[..5] == "ctrl+" && 'a' <= k[5] <= 'z' then CtrlKey(k[5] as int)
    else if |k| == 5 && k[..4] == "alt+" then SignedByte(k[4])
    else if |k| >= 2 && k[0] == 'f' then 0
    else if |k| == 1 then SignedByte(k[0])
    else 0
  }

  /** Bindings are case-insensitive: only the lowercased string matters. */
  lemma KeyBindingCaseInsensitive(key: string)
    ensures ParseKeyBinding(key) == ParseKeyBinding(ToLower(key))
  {
    ToLowerIdempotent(key);
  }

  /** A binding with no upper-case letter is looked up as written. */
  lemma LowercaseBinding(key: string)
    requires key != [] && HasNoUpper(key)
    ensures ParseKeyBinding(key) == LoweredKeyCode(key)
  {
    ToLowerOfLower(key);
  }

  /** The special names and the codes they resolve to. */
  lemma EditingKeyNames()
    ensures LoweredKeyCode("escape") == EscKey && LoweredKeyCode("esc") == EscKey
    ensures LoweredKeyCode("backspace") == BackspaceKey
    ensures LoweredKeyCode("delete") == DeleteKey && LoweredKeyCode("del") == DeleteKey
  {
  }

  lemma VerticalArrowKeyNames()
    ensures LoweredKeyCode("arrow_up") == ArrowUp && LoweredKeyCode("up") == ArrowUp
    ensures LoweredKeyCode("arrow_down") == ArrowDown && LoweredKeyCode("down") == ArrowDown
  {
  }

  lemma HorizontalArrowKeyNames()
    ensures LoweredKeyCode("arrow_left") == ArrowLeft && LoweredKeyCode("left") == ArrowLeft
    ensures LoweredKeyCode("arrow_right") == ArrowRight && LoweredKeyCode("right") == ArrowRight
  {
  }

  lemma WhitespaceKeyNames()
    ensures LoweredKeyCode("tab") == 9
    ensures LoweredKeyCode("enter") == 13 && LoweredKeyCode("return") == 13
    ensures LoweredKeyCode("space") == 32
  {
  }

  /** Upper-case spellings resolve like the lower-case ones. */
  lemma MixedCaseBindings()
    ensures ParseKeyBinding("Arrow_Up") == ArrowUp
    ensures ParseKeyBinding("ESC") == EscKey
  {
    assert ToLower("Arrow_Up") == "arrow_up";
    assert ToLower("ESC") == "esc";
  }

  /** "ctrl+<letter>", in either case, is the letter's control code. */
  lemma CtrlBinding(c: char)
    requires 'a' <= LowerChar(c) <= 'z'
    ensures ParseKeyBinding("ctrl+" + [c]) == CtrlKey(LowerChar(c) as int)
    ensures 1 <= ParseKeyBinding("ctrl+" + [c]) <= 26
  {
    var k := ToLower("ctrl+" + [c]);
    assert k == "ctrl+" + [LowerChar(c)] by {
      ToLowerAppend("ctrl+", [c]);
      ToLowerOfLower("ctrl+");
    }
    assert k[..5] == "ctrl+";
  }

  lemma CtrlLetterBinding(binding: string, c: char)
    requires 'a' <= c <= 'z' && |binding| == 6 && binding[..5] == "ctrl+" && binding[5] == c
    ensures ParseKeyBinding(binding) == CtrlKey(c as int)
  {
    assert binding == "ctrl+" + [c];
    CtrlBinding(c);
  }

  /** "alt+<c>" resolves to the (lowercased) character itself. */
  lemma AltBinding(c: char)
    ensures ParseKeyBinding("alt+" + [c]) == SignedByte(LowerChar(c))
  {
    var k := ToLower("alt+" + [c]);
    assert k == "alt+" + [LowerChar(c)] by {
      ToLowerAppend("alt+", [c]);
      ToLowerOfLower("alt+");
    }
    assert k[..4] == "alt+";
    assert k[0] == 'a';
  }

  /** A longer string starting with 'f' (a function key) is unbound. */
  lemma FunctionKeyBinding(key: string)
    requires |key| >= 2 && LowerChar(key[0]) == 'f'
    ensures ParseKeyBinding(key) == 0
  {
    var k := ToLower(key);
    assert k[0] == 'f';
  }

  /** A one-character binding is that character, lowercased. */
  lemma SingleCharBinding(c: char)
    ensures ParseKeyBinding([c]) == SignedByte(LowerChar(c))
  {
    assert ToLower([c]) == [LowerChar(c)];
  }

  /** A one-byte binding above 0x7f resolves to a negative value, which no
      decoded key ever equals. */
  lemma HighByteBindingNeverMatches(c: char, key: int)
    requires 128 <= c as int < 256
    requires IsKeyCode(key)
    ensures ParseKeyBinding([c]) < 0 && ParseKeyBinding([c]) != key
  {
    SingleCharBinding(c);
  }

  /** key_matches_binding: the decoded key equals the binding's code. */
  predicate KeyMatchesBinding(key: int, binding: string) {
    key == ParseKeyBinding(binding)
  }

  /** The "unbound" value 0 is also the code of the NUL byte (Ctrl-Space),
      so an empty, unknown or function-key binding matches that key. */
  lemma UnboundMatchesNul(binding: string)
    requires ParseKeyBinding(binding) == 0
    ensures KeyMatchesBinding(0, binding)
  {
  }

  /* ---------------- string_to_bool ---------------- */

  predicate StringToBool(s: string) {
    var l := ToLower(s);
    l == "true" || l == "1" || l == "yes" || l == "on"
  }

  /** Case does not matter. */
  lemma StringToBoolCaseInsensitive(s: string)
    ensures StringToBool(s) == StringToBool(ToLower(s))
  {
    ToLowerIdempotent(s);
  }

  /** Only the four words are true, in any case. */
  lemma StringToBoolWords()
    ensures StringToBool("TRUE") && StringToBool("Yes") && StringToBool("1") && StringToBool("On")
    ensures !StringToBool("false") && !StringToBool("0") && !StringToBool("") && !StringToBool("y")
  {
    assert ToLower("TRUE") == "true";
    assert ToLower("Yes") == "yes";
    assert ToLower("1") == "1";
    assert ToLower("On") == "on";
    assert ToLower("false") == "false";
    assert ToLower("0") == "0";
    assert ToLower("y") == "y";
  }

  /* ---------------- parse_config_line ---------------- */

  predicate IsBlank(c: char) {
    c == ' ' || c == '\t'
  }

  /** The number of spaces and tabs the string starts with. */
  function LeadingBlanks(s: string): (n: nat)
    ensures n <= |s|
    ensures forall i :: 0 <= i < n ==> IsBlank(s[i])
    ensures n < |s| ==> !IsBlank(s[n])
  {
    if s != [] && IsBlank(s[0]) then 1 + LeadingBlanks(s[1..]) else 0
  }

  /** The number of spaces and tabs the string ends with. */
  function TrailingBlanks(s: string): (n: nat)
    ensures n <= |s|
    ensures forall i :: |s| - n <= i < |s| ==> IsBlank(s[i])
    ensures n < |s| ==> !IsBlank(s[|s| - n - 1])
  {
    if s != [] && IsBlank(s[|s| - 1]) then 1 + TrailingBlanks(s[..|s| - 1]) else 0
  }

  /** erase(0, find_first_not_of(" \t")). */
  function TrimLeft(s: string): string {
    s[LeadingBlanks(s)..]
  }

  /** erase(find_last_not_of(" \t") + 1). */
  function TrimRight(s: string): string {
    s[..|s| - TrailingBlanks(s)]
  }

  /** t is the piece of s that starts at a, and only spaces and tabs lie
      around it. */
  predicate IsCore(s: string, a: int, t: string) {
    && 0 <= a && a + |t| <= |s| && t == s[a..a + |t|]
    && (forall i :: 0 <= i < a ==> IsBlank(s[i]))
    && (forall i :: a + |t| <= i < |s| ==> IsBlank(s[i]))
  }

  /** Both trims: the piece of the string from its first to its last
      character that is neither a space nor a tab, with only spaces and tabs
      cut off around it. */
  function Trim(s: string): (r: string)
    ensures r == [] || (!IsBlank(r[0]) && !IsBlank(r[|r| - 1]))
    ensures IsCore(s, LeadingBlanks(s), r)
  {
    var l := TrimLeft(s);
    TrimmedPiece(s, l, TrimRight(l));
    TrimRight(l)
  }

  lemma TrimmedPiece(s: string, l: string, r: string)
    requires l == TrimLeft(s) && r == TrimRight(l)
    ensures r == [] || (!IsBlank(r[0]) && !IsBlank(r[|r| - 1]))
    ensures IsCore(s, LeadingBlanks(s), r)
  {
    var a := LeadingBlanks(s);
    var b := TrailingBlanks(l);
    assert r == s[a..a + |l| - b];
    forall i | a + |r| <= i < |s| ensures IsBlank(s[i]) {
      assert s[i] == l[i - a];
    }
    if r != [] {
      assert r[0] == s[a];
      assert r[|r| - 1] == l[|l| - b - 1];
    }
  }

  /** A character that is not in the string is not in its trimmed piece. */
  lemma TrimKeepsOut(s: string, c: char)
    requires c !in s
    ensures c !in Trim(s)
  {
    var t := Trim(s);
    var a := LeadingBlanks(s);
    forall k | 0 <= k < |t| ensures t[k] != c {
      assert t[k] == s[a + k];
    }
  }

  /** A line the parser ignores: empty, a comment, a section header, or no '='. */
  predicate IsSkipped(line: string) {
    line == [] || line[0] == '#' || line[0] == '[' || '=' !in line
  }

  /** parse_config_line: the values map after reading one line. */
  function ParseConfigLine(line: string, values: map<string, string>): (r: map<string, string>)
    ensures IsSkipped(line) ==> r == values
  {
    if line == [] || line[0] == '#' || line[0] == '[' then values
    else match FindChar(line, '=')
      case None => values
      case Some(i) => values[Trim(line[..i]) := Trim(line[i + 1..])]
  }

  /** A line that is not skipped adds or replaces exactly one entry: the text
      before the first '=' (which holds no '=') as key, the text after it as
      value, both trimmed of spaces and tabs; quotes are kept. */
  lemma ParsedEntry(line: string, values: map<string, string>, i: nat)
    requires !IsSkipped(line)
    requires i < |line| && line[i] == '=' && '=' !in line[..i]
    ensures var r := ParseConfigLine(line, values);
      var key := Trim(line[..i]);
      && '=' !in key
      && r.Keys == values.Keys + {key}
      && r[key] == Trim(line[i + 1..])
      && (forall k :: k in values && k != key ==> r[k] == values[k])
  {
    FirstOccurrence(line, '=', i);
    TrimKeepsOut(line[..i], '=');
    var key, value := Trim(line[..i]), Trim(line[i + 1..]);
    assert ParseConfigLine(line, values) == values[key := value];
    UpdatedEntry(values, key, value);
  }

  /** A map assignment adds or replaces the one key and keeps the others. */
  lemma UpdatedEntry(values: map<string, string>, key: string, value: string)
    ensures var r := values[key := value];
      && r.Keys == values.Keys + {key} && r[key] == value
      && (forall k :: k in values && k != key ==> r[k] == values[k])
  {
  }

  /** The position of a character that does not occur earlier is what find
      returns. */
  lemma FirstOccurrence(s: string, c: char, i: nat)
    requires i < |s| && s[i] == c && c !in s[..i]
    ensures FindChar(s, c) == Some(i)
  {
  }

  /** When a key is repeated, the later line's value wins. */
  lemma LaterValueWins(first: string, second: string, values: map<string, string>, i: nat, j: nat)
    requires !IsSkipped(first) && i < |first| && first[i] == '=' && '=' !in first[..i]
    requires !IsSkipped(second) && j < |second| && second[j] == '=' && '=' !in second[..j]
    requires Trim(first[..i]) == Trim(second[..j])
    ensures ParseConfigLine(second, ParseConfigLine(first, values))[Trim(first[..i])] == Trim(second[j + 1..])
  {
    ParsedEntry(second, ParseConfigLine(first, values), j);
  }

  /** The values map after parsing, in order, every line std::getline reads
      from the rest of the file, starting from the map built so far. */
  function ParsedText(rest: string, values: map<string, string>): map<string, string>
    decreases |rest|
  {
    if rest == [] then values
    else
      var (line, remaining) := FileIO.Getline(rest);
      ParsedText(remaining, ParseConfigLine(line, values))
  }

  /* ---------------- std::stoi ---------------- */

  /** isspace in the "C" locale. */
  predicate IsSpace(c: char) {
    c == ' ' || c == '\t' || c == '\n' || c as int == 0x0b || c as int == 0x0c || c == '\r'
  }

  function SkipSpaces(s: string): (r: string)
    ensures |r| <= |s|
  {
    if s != [] && IsSpace(s[0]) then SkipSpaces(s[1..]) else s
  }

  /** The longest prefix made of decimal digits. */
  function DigitPrefix(s: string): (r: string)
    ensures |r| <= |s| && r == s[..|r|]
    ensures forall i :: 0 <= i < |r| ==> IsDigit(r[i])
    ensures |r| < |s| ==> !IsDigit(s[|r|])
  {
    if s != [] && IsDigit(s[0]) then [s[0]] + DigitPrefix(s[1..]) else []
  }

  const IntMin: int := -0x8000_0000
  const IntMax: int := 0x7fff_ffff

  /** std::stoi: leading white space, an optional sign, then at least one
      digit; the value must fit in a 32-bit int. Anything else throws, which
      the model writes as None. Text after the digits is ignored. */
  function Stoi(s: string): (r: Option<int>)
    ensures r.Some? ==> IntMin <= r.value <= IntMax
  {
    var t := SkipSpaces(s);
    var negative := t != [] && t[0] == '-';
    var u := if t != [] && (t[0] == '-' || t[0] == '+') then t[1..] else t;
    var digits := DigitPrefix(u);
    if digits == [] then None
    else
      var v: int := if negative then -(DigitsValue(digits) as int) else DigitsValue(digits);
      if IntMin <= v <= IntMax then Some(v) else None
  }

  /** stoi reads back what "%d" prints, for every non-negative int. */
  lemma {:induction false} StoiOfDecimal(n: nat)
    requires n <= IntMax
    ensures Stoi(DecimalString(n)) == Some(n)
  {
    var s := DecimalString(n);
    assert SkipSpaces(s) == s;
    AllDigitsPrefix(s);
    DecimalStringValue(n);
  }

  lemma {:induction false} AllDigitsPrefix(s: string)
    requires forall i :: 0 <= i < |s| ==> IsDigit(s[i])
    ensures DigitPrefix(s) == s
  {
    if s != [] {
      AllDigitsPrefix(s[1..]);
    }
  }

  /** Examples of what stoi accepts and rejects. */
  lemma StoiExamples()
    ensures Stoi("8") == Some(8)
    ensures Stoi("") == None && Stoi("abc") == None && Stoi("-") == None
  {
    assert DigitPrefix("8") == "8";
    assert DigitsValue("8") == 8 by { assert "8"[..0] == ""; }
  }

  /* ---------------- apply_config_values ---------------- */

  /** The keys of apply_config_values whose branch can change the settings
      the editor reads: the fields of Settings and the numeric values, which
      std::stoi must accept even where the field itself is never read. */
  datatype ConfigKey =
    | ShowLineNumbers | TabWidth | AutoIndent | StatusFormat | TextColor
    | BackgroundColor | StatusBarColor | CommentColor | ShowTilde
    | HighlightCurrentLine | ConfirmQuit | AutoSaveInterval | MaxUndoLevels
    | BufferSize | RefreshRate | SyntaxHighlighting | DefaultMode
    | EnterInsert | EnterCommand | SaveFile | QuitEditor | ForceQuit

  function KeyName(k: ConfigKey): string {
    match k
    case ShowLineNumbers => "show_line_numbers"
    case TabWidth => "tab_width"
    case AutoIndent => "auto_indent"
    case StatusFormat => "status_format"
    case TextColor => "text_color"
    case BackgroundColor => "background_color"
    case StatusBarColor => "status_bar_color"
    case CommentColor => "comment_color"
    case ShowTilde => "show_tilde"
    case HighlightCurrentLine => "highlight_current_line"
    case ConfirmQuit => "confirm_quit"
    case AutoSaveInterval => "auto_save_interval"
    case MaxUndoLevels => "max_undo_levels"
    case BufferSize => "buffer_size"
    case RefreshRate => "refresh_rate"
    case SyntaxHighlighting => "syntax_highlighting"
    case DefaultMode => "default_mode"
    case EnterInsert => "enter_insert"
    case EnterCommand => "enter_command"
    case SaveFile => "save_file"
    case QuitEditor => "quit_editor"
    case ForceQuit => "force_quit"
  }

  /** The string comparisons of the if-chain. The other keys it tests
      (show_whitespace, color_scheme, font, create_backups, word_wrap,
      default_extension, show_hidden_files, default_encoding, line_endings,
      debug_mode, cursor_up/down/left/right) store fields nothing in this
      model reads, so they fall in with the keys it does not know. */
  function KeyOf(key: string): (r: Option<ConfigKey>)
    ensures r.Some? ==> KeyName(r.value) == key
  {
    if key == "show_line_numbers" then Some(ShowLineNumbers)
    else if key == "tab_width" then Some(TabWidth)
    else if key == "auto_indent" then Some(AutoIndent)
    else if key == "status_format" then Some(StatusFormat)
    else if key == "text_color" then Some(TextColor)
    else if key == "background_color" then Some(BackgroundColor)
    else if key == "status_bar_color" then Some(StatusBarColor)
    else if key == "comment_color" then Some(CommentColor)
    else if key == "show_tilde" then Some(ShowTilde)
    else if key == "highlight_current_line" then Some(HighlightCurrentLine)
    else if key == "confirm_quit" then Some(ConfirmQuit)
    else if key == "auto_save_interval" then Some(AutoSaveInterval)
    else if key == "max_undo_levels" then Some(MaxUndoLevels)
    else if key == "buffer_size" then Some(BufferSize)
    else if key == "refresh_rate" then Some(RefreshRate)
    else if key == "syntax_highlighting" then Some(SyntaxHighlighting)
    else if key == "default_mode" then Some(DefaultMode)
    else if key == "enter_insert" then Some(EnterInsert)
    else if key == "enter_command" then Some(EnterCommand)
    else if key == "save_file" then Some(SaveFile)
    else if key == "quit_editor" then Some(QuitEditor)
    else if key == "force_quit" then Some(ForceQuit)
    else None
  }

  /** Every key name is recognised as its own key, so no two keys share a name. */
  lemma KeyOfName(k: ConfigKey)
    ensures KeyOf(KeyName(k)) == Some(k)
  {
    if k.ShowLineNumbers? || k.TabWidth? || k.AutoIndent? || k.StatusFormat? || k.TextColor? || k.BackgroundColor? || k.StatusBarColor? {
      KeyOfDisplayName(k);
    } else if k.CommentColor? || k.ShowTilde? || k.HighlightCurrentLine? || k.ConfirmQuit? || k.AutoSaveInterval? || k.MaxUndoLevels? || k.BufferSize? || k.RefreshRate? {
      KeyOfBehaviourName(k);
    } else if k.SyntaxHighlighting? || k.DefaultMode? || k.EnterInsert? {
      KeyOfModeName(k);
    } else if k.EnterCommand? || k.SaveFile? {
      KeyOfBindingName(k);
    } else {
      KeyOfQuitName(k);
    }
  }

  lemma KeyOfDisplayName(k: ConfigKey)
    requires k.ShowLineNumbers? || k.TabWidth? || k.AutoIndent? || k.StatusFormat? || k.TextColor? || k.BackgroundColor? || k.StatusBarColor?
    ensures KeyOf(KeyName(k)) == Some(k)
  {
  }

  lemma KeyOfBehaviourName(k: ConfigKey)
    requires k.CommentColor? || k.ShowTilde? || k.HighlightCurrentLine? || k.ConfirmQuit? || k.AutoSaveInterval? || k.MaxUndoLevels? || k.BufferSize? || k.RefreshRate?
    ensures KeyOf(KeyName(k)) == Some(k)
  {
  }

  lemma KeyOfModeName(k: ConfigKey)
    requires k.SyntaxHighlighting? || k.DefaultMode? || k.EnterInsert?
    ensures KeyOf(KeyName(k)) == Some(k)
  {
  }

  lemma KeyOfBindingName(k: ConfigKey)
    requires k.EnterCommand? || k.SaveFile?
    ensures KeyOf(KeyName(k)) == Some(k)
  {
  }

  lemma KeyOfQuitName(k: ConfigKey)
    requires k.QuitEditor? || k.ForceQuit?
    ensures KeyOf(KeyName(k)) == Some(k)
  {
  }

  lemma KeyNameInjective(j: ConfigKey, k: ConfigKey)
    ensures KeyName(j) == KeyName(k) <==> j == k
  {
    KeyOfName(j);
    KeyOfName(k);
  }

  /** The keys whose value goes through std::stoi. */
  predicate IsNumeric(k: ConfigKey) {
    k == TabWidth || k == AutoSaveInterval || k == MaxUndoLevels || k == BufferSize || k == RefreshRate
  }

  /** default_mode: exactly "insert" or "command"; anything else keeps the mode. */
  function ModeFrom(value: string, current: Mode): Mode {
    if value == "insert" then Insert
    else if value == "command" then Command
    else current
  }

  /** What the branch of one recognised key stores; the numeric keys other
      than tab_width store fields nothing here reads. */
  function Set(s: Settings, k: ConfigKey, value: string): Settings
    requires k == TabWidth ==> Stoi(value).Some?
  {
    match k
    case ShowLineNumbers => s.(showLineNumbers := StringToBool(value))
    case TabWidth => s.(tabWidth := Stoi(value).value)
    case AutoIndent => s.(autoIndent := StringToBool(value))
    case StatusFormat => s.(statusFormat := value)
    case TextColor => s.(textColor := value)
    case BackgroundColor => s.(backgroundColor := value)
    case StatusBarColor => s.(statusBarColor := value)
    case CommentColor => s.(commentColor := value)
    case ShowTilde => s.(showTilde := StringToBool(value))
    case HighlightCurrentLine => s.(highlightCurrentLine := StringToBool(value))
    case ConfirmQuit => s.(confirmQuit := StringToBool(value))
    case AutoSaveInterval => s
    case MaxUndoLevels => s
    case BufferSize => s
    case RefreshRate => s
    case SyntaxHighlighting => s.(syntaxHighlighting := StringToBool(value))
    case DefaultMode => s.(defaultMode := ModeFrom(value, s.defaultMode))
    case EnterInsert => s.(enterInsert := value)
    case EnterCommand => s.(enterCommand := value)
    case SaveFile => s.(saveFile := value)
    case QuitEditor => s.(quitEditor := value)
    case ForceQuit => s.(forceQuit := value)
  }

  /** The branch of one recognised key. None: std::stoi threw. */
  function Update(s: Settings, k: ConfigKey, value: string): Option<Settings> {
    if IsNumeric(k) && Stoi(value).None? then None else Some(Set(s, k, value))
  }

  /** One iteration of the loop; keys it does not know change nothing. */
  function ApplyConfigValue(s: Settings, key: string, value: string): Option<Settings> {
    match KeyOf(key)
    case None => Some(s)
    case Some(k) => Update(s, k, value)
  }

  /** The recognised entries of a values map, indexed by key. */
  function Known(values: map<string, string>): map<ConfigKey, string> {
    map k: ConfigKey | KeyName(k) in values :: values[KeyName(k)]
  }

  predicate NumberParses(known: map<ConfigKey, string>, k: ConfigKey) {
    k !in known || Stoi(known[k]).Some?
  }

  predicate NumbersParse(known: map<ConfigKey, string>) {
    && NumberParses(known, TabWidth)
    && NumberParses(known, AutoSaveInterval)
    && NumberParses(known, MaxUndoLevels)
    && NumberParses(known, BufferSize)
    && NumberParses(known, RefreshRate)
  }

  function BoolValue(known: map<ConfigKey, string>, k: ConfigKey, default: bool): bool {
    if k in known then StringToBool(known[k]) else default
  }

  function TextValue(known: map<ConfigKey, string>, k: ConfigKey, default: string): string {
    if k in known then known[k] else default
  }

  function ModeValue(known: map<ConfigKey, string>, default: Mode): Mode {
    if DefaultMode in known then ModeFrom(known[DefaultMode], default) else default
  }

  /** The recognised entries laid over the settings, field by field: each
      field takes the value of its own key when present and keeps its old
      value otherwise. */
  function Overlay(s: Settings, known: map<ConfigKey, string>): Settings
    requires NumberParses(known, TabWidth)
  {
    Settings(
      showLineNumbers := BoolValue(known, ShowLineNumbers, s.showLineNumbers),
      tabWidth := if TabWidth in known then Stoi(known[TabWidth]).value else s.tabWidth,
      autoIndent := BoolValue(known, AutoIndent, s.autoIndent),
      statusFormat := TextValue(known, StatusFormat, s.statusFormat),
      textColor := TextValue(known, TextColor, s.textColor),
      backgroundColor := TextValue(known, BackgroundColor, s.backgroundColor),
      statusBarColor := TextValue(known, StatusBarColor, s.statusBarColor),
      commentColor := TextValue(known, CommentColor, s.commentColor),
      showTilde := BoolValue(known, ShowTilde, s.showTilde),
      highlightCurrentLine := BoolValue(known, HighlightCurrentLine, s.highlightCurrentLine),
      confirmQuit := BoolValue(known, ConfirmQuit, s.confirmQuit),
      syntaxHighlighting := BoolValue(known, SyntaxHighlighting, s.syntaxHighlighting),
      defaultMode := ModeValue(known, s.defaultMode),
      enterInsert := TextValue(known, EnterInsert, s.enterInsert),
      enterCommand := TextValue(known, EnterCommand, s.enterCommand),
      saveFile := TextValue(known, SaveFile, s.saveFile),
      quitEditor := TextValue(known, QuitEditor, s.quitEditor),
      forceQuit := TextValue(known, ForceQuit, s.forceQuit))
  }

  /** The settings after applying a whole values map: None when any numeric
      value does not parse, otherwise the overlay of the recognised entries. */
  function Applied(s: Settings, values: map<string, string>): Option<Settings> {
    var known := Known(values);
    if NumbersParse(known) then Some(Overlay(s, known)) else None
  }

  /** Adding an entry to the values map adds it to the recognised entries
      exactly when its key is recognised. */
  lemma KnownStep(values: map<string, string>, key: string, value: string)
    ensures KeyOf(key).None? ==> Known(values[key := value]) == Known(values)
    ensures KeyOf(key).Some? ==> Known(values[key := value]) == Known(values)[KeyOf(key).value := value]
  {
    match KeyOf(key)
    case None =>
      forall j: ConfigKey ensures KeyName(j) != key {
        KeyOfName(j);
      }
    case Some(k) =>
      forall j: ConfigKey ensures KeyName(j) == key <==> j == k {
        KeyNameInjective(j, k);
      }
  }

  /** The branch of one key stores what the overlay of that one entry gives. */
  lemma SetIsOverlay(s: Settings, k: ConfigKey, value: string)
    requires k == TabWidth ==> Stoi(value).Some?
    ensures Set(s, k, value) == Overlay(s, map[k := value])
  {
    if k.ShowLineNumbers? || k.TabWidth? || k.AutoIndent? || k.StatusFormat? || k.TextColor? || k.BackgroundColor? || k.StatusBarColor? {
      SetIsOverlayDisplay(s, k, value);
    } else if k.CommentColor? || k.ShowTilde? || k.HighlightCurrentLine? || k.ConfirmQuit? || k.AutoSaveInterval? || k.MaxUndoLevels? || k.BufferSize? || k.RefreshRate? {
      SetIsOverlayBehaviour(s, k, value);
    } else if k.SyntaxHighlighting? || k.DefaultMode? || k.EnterInsert? {
      SetIsOverlayModes(s, k, value);
    } else {
      SetIsOverlayBindings(s, k, value);
    }
  }

  lemma SetIsOverlayDisplay(s: Settings, k: ConfigKey, value: string)
    requires k == TabWidth ==> Stoi(value).Some?
    requires k.ShowLineNumbers? || k.TabWidth? || k.AutoIndent? || k.StatusFormat? || k.TextColor? || k.BackgroundColor? || k.StatusBarColor?
    ensures Set(s, k, value) == Overlay(s, map[k := value])
  {
  }

  lemma SetIsOverlayBehaviour(s: Settings, k: ConfigKey, value: string)
    requires k.CommentColor? || k.ShowTilde? || k.HighlightCurrentLine? || k.ConfirmQuit? || k.AutoSaveInterval? || k.MaxUndoLevels? || k.BufferSize? || k.RefreshRate?
    ensures Set(s, k, value) == Overlay(s, map[k := value])
  {
  }

  lemma SetIsOverlayModes(s: Settings, k: ConfigKey, value: string)
    requires k.SyntaxHighlighting? || k.DefaultMode? || k.EnterInsert?
    ensures Set(s, k, value) == Overlay(s, map[k := value])
  {
  }

  lemma SetIsOverlayBindings(s: Settings, k: ConfigKey, value: string)
    requires k.EnterCommand? || k.SaveFile? || k.QuitEditor? || k.ForceQuit?
    ensures Set(s, k, value) == Overlay(s, map[k := value])
  {
  }

  /** Laying one more entry over an overlay is laying the larger map. */
  lemma OverlayCompose(s: Settings, known: map<ConfigKey, string>, k: ConfigKey, value: string)
    requires k !in known && NumbersParse(known) && NumbersParse(known[k := value])
    ensures Overlay(Overlay(s, known), map[k := value]) == Overlay(s, known[k := value])
  {
    OverlayComposeFlags(s, known, k, value);
    OverlayComposeSwitches(s, known, k, value);
    OverlayComposeTabWidth(s, known, k, value);
    OverlayComposeTexts(s, known, k, value);
    OverlayComposeBindings(s, known, k, value);
  }

  /** A flag read from one more entry over the flag read from the rest. */
  lemma BoolValueCompose(known: map<ConfigKey, string>, k: ConfigKey, value: string, key: ConfigKey, default: bool)
    ensures BoolValue(map[k := value], key, BoolValue(known, key, default)) == BoolValue(known[k := value], key, default)
  {
  }

  lemma OverlayComposeFlags(s: Settings, known: map<ConfigKey, string>, k: ConfigKey, value: string)
    requires k !in known && NumbersParse(known) && NumbersParse(known[k := value])
    ensures var b, c := Overlay(Overlay(s, known), map[k := value]), Overlay(s, known[k := value]);
      && b.showLineNumbers == c.showLineNumbers && b.autoIndent == c.autoIndent && b.showTilde == c.showTilde
  {
    BoolValueCompose(known, k, value, ShowLineNumbers, s.showLineNumbers);
    BoolValueCompose(known, k, value, AutoIndent, s.autoIndent);
    BoolValueCompose(known, k, value, ShowTilde, s.showTilde);
  }

  lemma OverlayComposeSwitches(s: Settings, known: map<ConfigKey, string>, k: ConfigKey, value: string)
    requires k !in known && NumbersParse(known) && NumbersParse(known[k := value])
    ensures var b, c := Overlay(Overlay(s, known), map[k := value]), Overlay(s, known[k := value]);
      && b.highlightCurrentLine == c.highlightCurrentLine
      && b.confirmQuit == c.confirmQuit && b.syntaxHighlighting == c.syntaxHighlighting
  {
    BoolValueCompose(known, k, value, HighlightCurrentLine, s.highlightCurrentLine);
    BoolValueCompose(known, k, value, ConfirmQuit, s.confirmQuit);
    BoolValueCompose(known, k, value, SyntaxHighlighting, s.syntaxHighlighting);
  }

  lemma OverlayComposeTabWidth(s: Settings, known: map<ConfigKey, string>, k: ConfigKey, value: string)
    requires k !in known && NumbersParse(known) && NumbersParse(known[k := value])
    ensures Overlay(Overlay(s, known), map[k := value]).tabWidth == Overlay(s, known[k := value]).tabWidth
  {
  }

  lemma OverlayComposeTexts(s: Settings, known: map<ConfigKey, string>, k: ConfigKey, value: string)
    requires k !in known && NumbersParse(known) && NumbersParse(known[k := value])
    ensures var b, c := Overlay(Overlay(s, known), map[k := value]), Overlay(s, known[k := value]);
      && b.statusFormat == c.statusFormat && b.textColor == c.textColor && b.backgroundColor == c.backgroundColor
      && b.statusBarColor == c.statusBarColor && b.commentColor == c.commentColor
  {
  }

  lemma OverlayComposeBindings(s: Settings, known: map<ConfigKey, string>, k: ConfigKey, value: string)
    requires k !in known && NumbersParse(known) && NumbersParse(known[k := value])
    ensures var b, c := Overlay(Overlay(s, known), map[k := value]), Overlay(s, known[k := value]);
      && b.defaultMode == c.defaultMode && b.enterInsert == c.enterInsert && b.enterCommand == c.enterCommand
      && b.saveFile == c.saveFile && b.quitEditor == c.quitEditor && b.forceQuit == c.forceQuit
  {
  }

  /** Applying one more key to the result of a map is applying the larger map. */
  lemma ApplyStep(s: Settings, values: map<string, string>, key: string, value: string)
    requires key !in values && Applied(s, values).Some?
    ensures ApplyConfigValue(Applied(s, values).value, key, value) == Applied(s, values[key := value])
  {
    KnownStep(values, key, value);
    match KeyOf(key)
    case None =>
    case Some(k) =>
      assert k !in Known(values);
      UpdateIsOverlay(s, Known(values), k, value);
  }

  /** Storing one more recognised key over an overlay is the overlay of the
      larger map, or the stoi failure. */
  lemma UpdateIsOverlay(s: Settings, known: map<ConfigKey, string>, k: ConfigKey, value: string)
    requires k !in known && NumbersParse(known)
    ensures Update(Overlay(s, known), k, value) ==
      if NumbersParse(known[k := value]) then Some(Overlay(s, known[k := value])) else None
  {
    var larger := known[k := value];
    assert NumbersParse(larger) <==> !(IsNumeric(k) && Stoi(value).None?);
    if NumbersParse(larger) {
      SetIsOverlay(Overlay(s, known), k, value);
      OverlayCompose(s, known, k, value);
    }
  }

  /** An empty map changes nothing. */
  lemma AppliedEmpty(s: Settings)
    ensures Applied(s, map[]) == Some(s)
  {
    assert Known(map[]) == map[];
  }

  /** A numeric value that fails to parse makes every larger map fail. */
  lemma AppliedFailureGrows(s: Settings, small: map<string, string>, large: map<string, string>)
    requires forall k :: k in small ==> k in large && large[k] == small[k]
    requires Applied(s, small).None?
    ensures Applied(s, large).None?
  {
    var ks, kl := Known(small), Known(large);
    assert forall j :: j in ks ==> j in kl && kl[j] == ks[j];
  }

  /** The recognised entries of a map with one entry. */
  lemma KnownSingle(key: string, value: string)
    ensures KeyOf(key).None? ==> Known(map[key := value]) == map[]
    ensures KeyOf(key).Some? ==> Known(map[key := value]) == map[KeyOf(key).value := value]
  {
    KnownStep(map[], key, value);
    assert Known(map[]) == map[];
  }

  lemma KnownSingleKey(k: ConfigKey, value: string)
    ensures Known(map[KeyName(k) := value]) == map[k := value]
  {
    KeyOfName(k);
    KnownSingle(KeyName(k), value);
  }

  /** A key the editor does not read changes nothing. */
  lemma UnknownKeyIgnored(s: Settings, values: map<string, string>, key: string, value: string)
    requires KeyOf(key).None?
    ensures Applied(s, values[key := value]) == Applied(s, values)
  {
    KnownStep(values, key, value);
  }

  /** default_mode changes the initial mode only for exactly "insert" or
      "command"; any other value, "Insert" included, keeps the old mode. */
  lemma DefaultModeExact(s: Settings, value: string)
    ensures Applied(s, map["default_mode" := value]) == Some(s.(defaultMode := ModeFrom(value, s.defaultMode)))
    ensures ModeFrom(value, s.defaultMode) ==
      if value == "insert" then Insert else if value == "command" then Command else s.defaultMode
  {
    var known := map[DefaultMode := value];
    assert KeyName(DefaultMode) == "default_mode";
    KnownSingleKey(DefaultMode, value);
    assert NumbersParse(known);
    SetIsOverlay(s, DefaultMode, value);
  }

  /** tab_width takes whatever stoi reads, with no range check, and a value
      stoi rejects makes the whole load fail. */
  lemma TabWidthUnchecked(s: Settings, value: string)
    ensures Stoi(value).Some? ==> Applied(s, map["tab_width" := value]) == Some(s.(tabWidth := Stoi(value).value))
    ensures Stoi(value).None? ==> Applied(s, map["tab_width" := value]).None?
  {
    KnownSingleKey(TabWidth, value);
  }

  /** One iteration of apply_config_values, from the entries already applied
      (the map without the keys still to visit) to one more entry. */
  lemma ApplyLoopStep(s: Settings, values: map<string, string>, remaining: set<string>, current: Settings, key: string)
    requires key in remaining && remaining <= values.Keys
    requires Applied(s, values - remaining) == Some(current)
    ensures ApplyConfigValue(current, key, values[key]).Some? ==>
      Applied(s, values - (remaining - {key})) == ApplyConfigValue(current, key, values[key])
    ensures ApplyConfigValue(current, key, values[key]).None? ==> Applied(s, values).None?
  {
    var done := values - remaining;
    assert values - (remaining - {key}) == done[key := values[key]];
    ApplyStep(s, done, key, values[key]);
    if ApplyConfigValue(current, key, values[key]).None? {
      AppliedFailureGrows(s, done[key := values[key]], values);
    }
  }

  /** apply_config_values: the loop over the map, one key at a time. The map's
      own iteration order does not matter: the result is Applied either way. */
  method ApplyConfigValues(s: Settings, values: map<string, string>) returns (r: Option<Settings>)
    ensures r == Applied(s, values)
  {
    var current := s;
    var remaining := values.Keys;
    assert values - remaining == map[];
    AppliedEmpty(s);
    while remaining != {}
      invariant remaining <= values.Keys
      invariant Applied(s, values - remaining) == Some(current)
      decreases |remaining|
    {
      var key :| key in remaining;
      ApplyLoopStep(s, values, remaining, current, key);
      var next := ApplyConfigValue(current, key, values[key]);
      if next.None? {
        return None;
      }
      current := next.value;
      remaining := remaining - {key};
    }
    assert values - remaining == values;
    return Some(current);
  }

  /* ---------------- load_config ---------------- */

  /** The defaults load_config sets before reading the file; the initial
      mode is the INSERT_MODE init_editor sets first. */
  function Defaults(): Settings {
    Settings(
      showLineNumbers := false,
      tabWidth := 4,
      autoIndent := true,
      statusFormat := "%f%modified - %m",
      textColor := "white",
      backgroundColor := "black",
      statusBarColor := "cyan",
      commentColor := "green",
      showTilde := true,
      highlightCurrentLine := false,
      confirmQuit := true,
      syntaxHighlighting := false,
      defaultMode := Insert,
      enterInsert := "ctrl+i",
      enterCommand := "escape",
      saveFile := "ctrl+s",
      quitEditor := "ctrl+q",
      forceQuit := "ctrl+f")
  }

  /** The default mode bindings resolve to Tab (enter insert) and Escape. */
  lemma DefaultModeBindings()
    ensures ParseKeyBinding(Defaults().enterInsert) == '\t' as int
    ensures ParseKeyBinding(Defaults().enterCommand) == EscKey
  {
    var d := Defaults();
    CtrlLetterBinding(d.enterInsert, 'i');
    LowercaseBinding(d.enterCommand);
  }

  /** The default save, quit and force-quit bindings resolve to Ctrl-S,
      Ctrl-Q and Ctrl-F. */
  lemma DefaultFileBindings()
    ensures ParseKeyBinding(Defaults().saveFile) == 0x13
    ensures ParseKeyBinding(Defaults().quitEditor) == 0x11
    ensures ParseKeyBinding(Defaults().forceQuit) == 0x06
  {
    var d := Defaults();
    CtrlLetterBinding(d.saveFile, 's');
    CtrlLetterBinding(d.quitEditor, 'q');
    CtrlLetterBinding(d.forceQuit, 'f');
  }

  /** The reading loop of load_config: every line of the file, in order,
      through parse_config_line into one map. */
  method ParseConfigText(content: string) returns (values: map<string, string>)
    ensures values == ParsedText(content, map[])
  {
    values := map[];
    var rest := content;
    while rest != []
      invariant ParsedText(rest, values) == ParsedText(content, map[])
      decreases |rest|
    {
      var (line, remaining) := FileIO.Getline(rest);
      values := ParseConfigLine(line, values);
      rest := remaining;
    }
  }

  /** load_config: the defaults when the file does not open; otherwise the
      map read from the file is applied over the defaults. None: a numeric
      value made std::stoi throw, which ends the program at start-up. */
  method LoadConfig(isOpen: bool, content: string) returns (r: Option<Settings>)
    ensures !isOpen ==> r == Some(Defaults())
    ensures isOpen ==> r == Applied(Defaults(), ParsedText(content, map[]))
  {
    var settings := Defaults();
    if !isOpen {
      return Some(settings);
    }
    var values := ParseConfigText(content);
    r := ApplyConfigValues(settings, values);
  }
}

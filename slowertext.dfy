/**
 * Key codes, editor modes and the configurable settings shared by every
 * component of the editor (include/slowertext.h).
 */
module Slowertext {

  /** CTRL_KEY(k) masks a key with 0x1f. On a two's-complement int this is
      the non-negative remainder modulo 32, which is what Dafny's `%` gives. */
  function CtrlKey(k: int): (r: int)
    ensures 0 <= r < 32
    ensures (k - r) % 32 == 0
    ensures 0 <= k < 32 ==> r == k
  {
    k % 32
  }

  const EscKey: int := 27
  const BackspaceKey: int := 127
  const DeleteKey: int := 1000
  const ArrowUp: int := 1001
  const ArrowDown: int := 1002
  const ArrowLeft: int := 1003
  const ArrowRight: int := 1004

  predicate IsArrow(k: int) {
    k == ArrowUp || k == ArrowDown || k == ArrowLeft || k == ArrowRight
  }

  /** The values read_key can hand to the input state machine: a plain byte,
      or one of the symbolic codes above 255. */
  predicate IsKeyCode(k: int) {
    (0 <= k < 256) || k == DeleteKey || IsArrow(k)
  }

  /** The control codes the editor's default bindings and handlers rely on. */
  lemma CtrlKeyValues()
    ensures CtrlKey('s' as int) == 0x13
    ensures CtrlKey('h' as int) == 8
    ensures CtrlKey('i' as int) == 9
    ensures CtrlKey('q' as int) == 17
    ensures CtrlKey('f' as int) == 6
    ensures CtrlKey('S' as int) == CtrlKey('s' as int)
  {
  }

  /** The symbolic keys are pairwise distinct and outside the byte range;
      Escape and Backspace are ordinary byte values. */
  lemma KeyCodesDisjoint()
    ensures DeleteKey != ArrowUp && DeleteKey != ArrowDown && DeleteKey != ArrowLeft && DeleteKey != ArrowRight
    ensures ArrowUp != ArrowDown && ArrowUp != ArrowLeft && ArrowUp != ArrowRight
    ensures ArrowDown != ArrowLeft && ArrowDown != ArrowRight && ArrowLeft != ArrowRight
    ensures forall k :: IsArrow(k) || k == DeleteKey ==> k > 255
    ensures 0 <= EscKey < 256 && 0 <= BackspaceKey < 256
  {
  }

  /** EditorMode: exactly two values. */
  datatype Mode = Insert | Command

  /** The fields of EditorConfig that come from the RC file and that some
      code of the editor reads. They are fixed for the whole session. */
  datatype Settings = Settings(
    showLineNumbers: bool,
    tabWidth: int,
    autoIndent: bool,
    statusFormat: string,
    textColor: string,
    backgroundColor: string,
    statusBarColor: string,
    commentColor: string,
    showTilde: bool,
    highlightCurrentLine: bool,
    confirmQuit: bool,
    syntaxHighlighting: bool,
    defaultMode: Mode,
    enterInsert: string,
    enterCommand: string,
    saveFile: string,
    quitEditor: string,
    forceQuit: string)
}

/**
 * The style buttons of the editor component (editor.tsx): the marker each
 * style writes, and wrapSelection, which puts the marker before and after
 * the selected text of the textarea and moves the selection along so that
 * it still covers that text.
 */
module Editor {
  import opened TokenTypes
  import opened TokenizerUtils

  /** The five styles of the toolbar, in declaration order. */
  datatype Style = Bold | Italics | Strikethrough | Highlight | CodeBlock

  /** A toolbar entry: the button label and the marker written around the selection. */
  datatype StyleDef = StyleDef(name: string, value: string)

  /** StyleDefs: the label and marker of every style. */
  function StyleDefs(style: Style): (d: StyleDef)
    ensures |d.value| >= 1 && |d.name| >= 1
  {
    match style
    case Bold => StyleDef("Bold", "**")
    case Italics => StyleDef("Italics", "*")
    case Strikethrough => StyleDef("Strikethrough", "~~")
    case Highlight => StyleDef("Highlight", "==")
    case CodeBlock => StyleDef("Code Block", "```")
  }

  /** The token type the tokenizer gives the style's marker. */
  function StyleTokenType(style: Style): TokenType
  {
    match style
    case Bold => TokenType.Bold
    case Italics => TokenType.Italics
    case Strikethrough => TokenType.Strikethrough
    case Highlight => TokenType.Highlight
    case CodeBlock => TokenType.CodeBlock
  }

  /**
   * Every marker is a symbol of the tokenizer's table, of the type named
   * like its style, and all but the code-block marker open a formatting
   * context.
   */
  lemma MarkerTypes(style: Style)
    ensures GetTokenType(StyleDefs(style).value) == StyleTokenType(style)
    ensures IsFormatToken(GetTokenType(StyleDefs(style).value)) <==> !style.CodeBlock?
  {
    FormatSymbolTypes();
    if style.CodeBlock? {
      assert Contains(TokenType.CodeBlock, "```");
    }
  }

  /** Different styles have different labels and different markers. */
  lemma StyleDefsDistinct(s: Style, t: Style)
    requires s != t
    ensures StyleDefs(s).name != StyleDefs(t).name && StyleDefs(s).value != StyleDefs(t).value
  {
    var a := StyleDefs(s).value;
    var b := StyleDefs(t).value;
    if |a| == |b| {
      // the markers of equal length differ in their first character
      assert a[0] != b[0];
    }
  }

  /**
   * The new text of wrapSelection: the text before the selection, the
   * marker, the selected text, the marker again and the text after it.
   */
  function Wrap(value: string, start: nat, end: nat, marker: string): (r: string)
    requires start <= end <= |value|
    ensures |r| == |value| + 2 * |marker|
    ensures r[..start] == value[..start]
    ensures r[start..start + |marker|] == marker
    ensures r[start + |marker|..end + |marker|] == value[start..end]
    ensures r[end + |marker|..end + 2 * |marker|] == marker
    ensures r[end + 2 * |marker|..] == value[end..]
  {
    var m := |marker|;
    var r := value[..start] + marker + value[start..end] + marker + value[end..];
    assert r[..start] == value[..start];
    assert r[start..start + m] == marker;
    assert r[start + m..end + m] == value[start..end];
    assert r[end + m..end + 2 * m] == marker;
    assert r[end + 2 * m..] == value[end..];
    r
  }

  /** Takes the two markers of length k back out of a wrapped text. */
  function Unwrap(r: string, start: nat, end: nat, k: nat): (v: string)
    requires start <= end && end + 2 * k <= |r|
    ensures |v| == |r| - 2 * k
  {
    r[..start] + r[start + k..end + k] + r[end + 2 * k..]
  }

  /** Removing the markers again gives back the original text. */
  lemma UnwrapWrap(value: string, start: nat, end: nat, marker: string)
    requires start <= end <= |value|
    ensures Unwrap(Wrap(value, start, end, marker), start, end, |marker|) == value
  {
    var r := Wrap(value, start, end, marker);
    var m := |marker|;
    assert r[..start] + r[start + m..end + m] + r[end + 2 * m..]
        == value[..start] + value[start..end] + value[end..];
    assert value[..start] + value[start..end] + value[end..] == value;
  }

  /**
   * Wrapping is injective in the text: two texts wrapped with the same
   * selection and marker give the same result only when they are equal.
   */
  lemma WrapInjective(v: string, w: string, start: nat, end: nat, marker: string)
    requires start <= end <= |v| && end <= |w|
    requires Wrap(v, start, end, marker) == Wrap(w, start, end, marker)
    ensures v == w
  {
    UnwrapWrap(v, start, end, marker);
    UnwrapWrap(w, start, end, marker);
  }

  /** The textarea: its text and its selection, which lies inside the text. */
  class TextArea {
    var value: string
    var selectionStart: nat
    var selectionEnd: nat

    predicate Valid()
      reads this
    {
      selectionStart <= selectionEnd <= |value|
    }

    /** The selected text. */
    function Selected(): (t: string)
      reads this
      requires Valid()
      ensures |t| == selectionEnd - selectionStart
    {
      value[selectionStart..selectionEnd]
    }

    constructor(v: string, start: nat, end: nat)
      requires start <= end <= |v|
      ensures value == v && selectionStart == start && selectionEnd == end
      ensures Valid()
    {
      value := v;
      selectionStart := start;
      selectionEnd := end;
    }

    /** setSelectionRange(start, end). */
    method SetSelectionRange(start: nat, end: nat)
      requires start <= end <= |value|
      modifies this
      ensures value == old(value) && selectionStart == start && selectionEnd == end
      ensures Valid()
    {
      selectionStart := start;
      selectionEnd := end;
    }
  }

  /** The React ref of the editor: the textarea once it is mounted, null before. */
  class EditorRef {
    var current: TextArea?

    constructor(textarea: TextArea?)
      ensures current == textarea
    {
      current := textarea;
    }
  }

  /**
   * wrapSelection(style): without a textarea nothing happens; otherwise the
   * style's marker is written before and after the selection, and the
   * selection is moved past the first marker, so that it covers the same
   * text as before.
   */
  method WrapSelection(editorRef: EditorRef, style: Style)
    requires editorRef.current != null ==> editorRef.current.Valid()
    modifies editorRef.current
    ensures editorRef.current == old(editorRef.current)
    ensures editorRef.current != null ==>
      var m := StyleDefs(style).value;
      var textarea := editorRef.current;
      textarea.value == Wrap(old(textarea.value), old(textarea.selectionStart), old(textarea.selectionEnd), m) &&
      textarea.selectionStart == old(textarea.selectionStart) + |m| &&
      textarea.selectionEnd == old(textarea.selectionEnd) + |m| &&
      textarea.Valid() && textarea.Selected() == old(textarea.Selected())
  {
    if editorRef.current == null {
      return;
    }
    var editor := editorRef.current;
    var selectionStart := editor.selectionStart;
    var selectionEnd := editor.selectionEnd;
    var selectedText := editor.value[selectionStart..selectionEnd];
    var styleValue := StyleDefs(style).value;
    var newText := editor.value[..selectionStart] + styleValue + selectedText + styleValue + editor.value[selectionEnd..];
    assert newText == Wrap(editor.value, selectionStart, selectionEnd, styleValue);
    editor.value := newText;
    editor.SetSelectionRange(selectionStart + |styleValue|, selectionEnd + |styleValue|);
  }
}

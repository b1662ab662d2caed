/**
 * One customisable part of the alert (title, message, background, the three
 * kinds of action, shadow, border): its kind, its unique tag, its ordered
 * parameters, how it recognises a rendered label and the styled text it
 * builds for that label.
 */
module AlertElement {
  import opened Wrappers
  import opened AlertParam

  /** The customisable parts of an alert. */
  datatype ElementType =
    | Title
    | Message
    | Background
    | AllDefaultActions
    | AllCancelActions
    | AllDestructiveActions
    | Shadow
    | Border

  // ---------------------------------------------------------------------------
  // First and last match in a sequence
  // ---------------------------------------------------------------------------

  /** The first item satisfying `condition`, or None when no item does. */
  function FindFirst<T>(s: seq<T>, condition: T -> bool): Option<T>
  {
    FindFirstFrom(s, condition, 0)
  }

  /** The first item from position `i` on that satisfies `condition`, if any. */
  function FindFirstFrom<T>(s: seq<T>, condition: T -> bool, i: int): Option<T>
    requires 0 <= i <= |s|
    decreases |s| - i
  {
    if i == |s| then None
    else if condition(s[i]) then Some(s[i])
    else FindFirstFrom(s, condition, i + 1)
  }

  /**
   * FindFirst finds nothing exactly when no item satisfies `condition`, and
   * otherwise an item that does with none before it.
   */
  lemma FindFirstSpec<T>(s: seq<T>, condition: T -> bool)
    ensures FindFirst(s, condition).None? <==> forall i :: 0 <= i < |s| ==> !condition(s[i])
    ensures FindFirst(s, condition).Some? ==>
      exists i :: 0 <= i < |s| && s[i] == FindFirst(s, condition).value && condition(s[i]) &&
        forall j :: 0 <= j < i ==> !condition(s[j])
  {
    FindFirstFromSpec(s, condition, 0);
  }

  /** The same from position `i` on. */
  lemma {:induction false} FindFirstFromSpec<T>(s: seq<T>, condition: T -> bool, i: int)
    requires 0 <= i <= |s|
    ensures FindFirstFrom(s, condition, i).None? <==> forall k :: i <= k < |s| ==> !condition(s[k])
    ensures FindFirstFrom(s, condition, i).Some? ==>
      exists k :: i <= k < |s| && s[k] == FindFirstFrom(s, condition, i).value && condition(s[k]) &&
        forall j :: i <= j < k ==> !condition(s[j])
    decreases |s| - i
  {
    if i < |s| && !condition(s[i]) {
      FindFirstFromSpec(s, condition, i + 1);
    }
  }

  /** A satisfying item with no satisfying item before it is what FindFirst returns. */
  lemma FindFirstAt<T>(s: seq<T>, condition: T -> bool, k: int)
    requires 0 <= k < |s| && condition(s[k])
    requires forall j :: 0 <= j < k ==> !condition(s[j])
    ensures FindFirst(s, condition) == Some(s[k])
  {
    FindFirstFromAt(s, condition, 0, k);
  }

  /** The same from position `i` on. */
  lemma {:induction false} FindFirstFromAt<T>(s: seq<T>, condition: T -> bool, i: int, k: int)
    requires 0 <= i <= k < |s| && condition(s[k])
    requires forall j :: i <= j < k ==> !condition(s[j])
    ensures FindFirstFrom(s, condition, i) == Some(s[k])
    decreases k - i
  {
    if i < k {
      FindFirstFromAt(s, condition, i + 1, k);
    }
  }

  /** Without a satisfying item FindFirst finds nothing. */
  lemma FindFirstNone<T>(s: seq<T>, condition: T -> bool)
    requires forall i :: 0 <= i < |s| ==> !condition(s[i])
    ensures FindFirst(s, condition) == None
  {
    FindFirstFromSpec(s, condition, 0);
  }

  /** The last item among the first `n` of `s` that satisfies `condition`, if any. */
  function FindLast<T>(s: seq<T>, condition: T -> bool, n: int): Option<T>
    requires 0 <= n <= |s|
  {
    if n == 0 then None
    else if condition(s[n - 1]) then Some(s[n - 1])
    else FindLast(s, condition, n - 1)
  }

  /**
   * FindLast finds nothing exactly when none of the first `n` items satisfies
   * `condition`, and otherwise an item that does with none after it.
   */
  lemma {:induction false} FindLastSpec<T>(s: seq<T>, condition: T -> bool, n: int)
    requires 0 <= n <= |s|
    ensures FindLast(s, condition, n).None? <==> forall i :: 0 <= i < n ==> !condition(s[i])
    ensures FindLast(s, condition, n).Some? ==>
      exists i :: 0 <= i < n && s[i] == FindLast(s, condition, n).value && condition(s[i]) &&
        forall j :: i < j < n ==> !condition(s[j])
    decreases n
  {
    if n > 0 && !condition(s[n - 1]) {
      FindLastSpec(s, condition, n - 1);
    }
  }

  /** A satisfying item with no satisfying item after it among the first `n` is what FindLast returns. */
  lemma {:induction false} FindLastAt<T>(s: seq<T>, condition: T -> bool, k: int, n: int)
    requires 0 <= k < n <= |s| && condition(s[k])
    requires forall j :: k < j < n ==> !condition(s[j])
    ensures FindLast(s, condition, n) == Some(s[k])
    decreases n
  {
    if k < n - 1 {
      FindLastAt(s, condition, k, n - 1);
    }
  }

  // ---------------------------------------------------------------------------
  // Decimal rendering of a tag (string interpolation of an Int)
  // ---------------------------------------------------------------------------

  function DigitChar(d: nat): (c: char)
    requires d < 10
    ensures '0' <= c <= '9'
  {
    ('0' as int + d) as char
  }

  /** The decimal digits of `n`, most significant first, without leading zeros. */
  function Digits(n: nat): (r: string)
    ensures |r| >= 1
    ensures |r| == 1 <==> n < 10
    ensures forall i :: 0 <= i < |r| ==> '0' <= r[i] <= '9'
    ensures r[|r| - 1] == DigitChar(n % 10)
  {
    if n < 10 then [DigitChar(n)] else Digits(n / 10) + [DigitChar(n % 10)]
  }

  /** Decimal rendering of an integer, with a leading `-` when it is negative. */
  function Decimal(n: int): (r: string)
    ensures |r| >= 1
    ensures r[0] == '-' <==> n < 0
    ensures forall i :: 0 < i < |r| ==> '0' <= r[i] <= '9'
  {
    if n < 0 then "-" + Digits(-n) else Digits(n)
  }

  lemma {:induction false} DigitsInjective(a: nat, b: nat)
    ensures Digits(a) == Digits(b) <==> a == b
    decreases a
  {
    if Digits(a) == Digits(b) {
      var da, db := Digits(a), Digits(b);
      assert DigitChar(a % 10) == DigitChar(b % 10);
      if a >= 10 && b >= 10 {
        assert Digits(a / 10) == da[..|da| - 1];
        assert Digits(b / 10) == db[..|db| - 1];
        DigitsInjective(a / 10, b / 10);
      }
    }
  }

  /** Distinct integers have distinct decimal renderings, and conversely. */
  lemma {:induction false} DecimalInjective(a: int, b: int)
    ensures Decimal(a) == Decimal(b) <==> a == b
  {
    var ra, rb := Decimal(a), Decimal(b);
    if a < 0 && b < 0 {
      DigitsInjective(-a, -b);
      if ra == rb {
        assert ra[1..] == Digits(-a);
        assert rb[1..] == Digits(-b);
      }
    } else if a >= 0 && b >= 0 {
      DigitsInjective(a, b);
    } else {
      assert (ra[0] == '-') != (rb[0] == '-');
    }
  }

  lemma DecimalExamples()
    ensures Decimal(1) == "1" && Decimal(2) == "2"
    ensures Decimal(42) == "42" && Decimal(-7) == "-7"
  {
  }

  // ---------------------------------------------------------------------------
  // Styled text built from an element's parameters
  // ---------------------------------------------------------------------------

  /** The attributed string: its text and at most one colour and one font attribute. */
  datatype StyledText = StyledText(text: string, color: Option<Color>, font: Option<Font>)

  predicate IsTextParam(p: Param) { p.kind == TextParam }

  predicate GivesColor(p: Param) { p.kind == ColorParam && AsColor(p.value).Some? }

  predicate GivesFont(p: Param) { p.kind == FontParam && AsFont(p.value).Some? }

  /** The text the last `.text` parameter holds; None if there is none or it holds no string, among the first `n` parameters. */
  function TextSetting(ps: seq<Param>, n: int): Option<string>
    requires 0 <= n <= |ps|
  {
    match FindLast(ps, IsTextParam, n)
    case Some(p) => AsText(p.value)
    case None => None
  }

  /** The colour of the last `.color` parameter that holds a colour, among the first `n` parameters. */
  function ColorSetting(ps: seq<Param>, n: int): Option<Color>
    requires 0 <= n <= |ps|
  {
    match FindLast(ps, GivesColor, n)
    case Some(p) => AsColor(p.value)
    case None => None
  }

  /** The font of the last `.font` parameter that holds a font, among the first `n` parameters. */
  function FontSetting(ps: seq<Param>, n: int): Option<Font>
    requires 0 <= n <= |ps|
  {
    match FindLast(ps, GivesFont, n)
    case Some(p) => AsFont(p.value)
    case None => None
  }

  /** Reference definition of the attributed string of a parameter list. */
  function Styled(ps: seq<Param>): StyledText
  {
    StyledText(TextSetting(ps, |ps|).GetOr(""), ColorSetting(ps, |ps|), FontSetting(ps, |ps|))
  }

  /** The styled text is the one the last `.text` parameter gives, "" when it gives none. */
  lemma StyledTextFromLastTextParam(ps: seq<Param>, k: int)
    requires 0 <= k < |ps| && ps[k].kind == TextParam
    requires forall j :: k < j < |ps| ==> ps[j].kind != TextParam
    ensures Styled(ps).text == AsText(ps[k].value).GetOr("")
  {
    FindLastAt(ps, IsTextParam, k, |ps|);
  }

  /** Without any `.text` parameter the styled text is empty. */
  lemma StyledTextWithoutTextParam(ps: seq<Param>)
    requires forall j :: 0 <= j < |ps| ==> ps[j].kind != TextParam
    ensures Styled(ps).text == ""
  {
    FindLastSpec(ps, IsTextParam, |ps|);
    assert forall j :: 0 <= j < |ps| ==> !IsTextParam(ps[j]);
  }

  /**
   * The colour attribute is the colour of the last `.color` parameter that
   * holds one, and is absent exactly when no `.color` parameter holds one;
   * likewise for the font.
   */
  lemma StyledAttributes(ps: seq<Param>)
    ensures Styled(ps).color.None? <==>
      forall j :: 0 <= j < |ps| ==> !(ps[j].kind == ColorParam && AsColor(ps[j].value).Some?)
    ensures Styled(ps).color.Some? ==>
      exists k :: 0 <= k < |ps| && ps[k] == Param(ColorParam, Some(ColorValue(Styled(ps).color.value))) &&
        forall j :: k < j < |ps| ==> !(ps[j].kind == ColorParam && AsColor(ps[j].value).Some?)
    ensures Styled(ps).font.None? <==>
      forall j :: 0 <= j < |ps| ==> !(ps[j].kind == FontParam && AsFont(ps[j].value).Some?)
    ensures Styled(ps).font.Some? ==>
      exists k :: 0 <= k < |ps| && ps[k] == Param(FontParam, Some(FontValue(Styled(ps).font.value))) &&
        forall j :: k < j < |ps| ==> !(ps[j].kind == FontParam && AsFont(ps[j].value).Some?)
  {
    FindLastSpec(ps, GivesColor, |ps|);
    FindLastSpec(ps, GivesFont, |ps|);
    assert forall j :: 0 <= j < |ps| ==> (GivesColor(ps[j]) <==> ps[j].kind == ColorParam && AsColor(ps[j].value).Some?);
    assert forall j :: 0 <= j < |ps| ==> (GivesFont(ps[j]) <==> ps[j].kind == FontParam && AsFont(ps[j].value).Some?);
  }

  // ---------------------------------------------------------------------------
  // The element
  // ---------------------------------------------------------------------------

  datatype Element = Element(kind: ElementType, tag: int, params: seq<Param>) {

    /** The unique key string of the element: its tag in decimal. */
    function Key(): string
    {
      Decimal(tag)
    }

    /** The first parameter of the given kind (`subscript(type:)`). */
    function ParamOfType(pt: ParamType): Option<Param>
    {
      FindFirst(params, (q: Param) => q.kind == pt)
    }

    /** The text a matching label is expected to show: the first `.text` value, "" if none. */
    function ExpectedText(): string
    {
      match ParamOfType(TextParam)
      case Some(p) => AsText(p.value).GetOr("")
      case None => ""
    }
  }

  /** Distinct tags give distinct keys. */
  lemma KeysUnique(a: Element, b: Element)
    ensures a.Key() == b.Key() <==> a.tag == b.tag
  {
    DecimalInjective(a.tag, b.tag);
  }

  /**
   * `subscript(type:)` finds nothing exactly when the element has no parameter
   * of that kind, and otherwise the first parameter of that kind.
   */
  lemma ParamOfTypeSpec(e: Element, pt: ParamType)
    ensures e.ParamOfType(pt).None? <==> forall i :: 0 <= i < |e.params| ==> e.params[i].kind != pt
    ensures e.ParamOfType(pt).Some? ==>
      exists i :: 0 <= i < |e.params| && e.params[i] == e.ParamOfType(pt).value && e.params[i].kind == pt &&
        forall j :: 0 <= j < i ==> e.params[j].kind != pt
  {
    FindFirstSpec(e.params, (q: Param) => q.kind == pt);
  }

  /** The first parameter of kind `pt` is what `subscript(type:)` returns. */
  lemma ParamOfTypeAt(e: Element, pt: ParamType, k: int)
    requires 0 <= k < |e.params| && e.params[k].kind == pt
    requires forall j :: 0 <= j < k ==> e.params[j].kind != pt
    ensures e.ParamOfType(pt) == Some(e.params[k])
  {
    FindFirstAt(e.params, (q: Param) => q.kind == pt, k);
  }

  /** Without a parameter of kind `pt`, `subscript(type:)` finds nothing. */
  lemma ParamOfTypeNone(e: Element, pt: ParamType)
    requires forall j :: 0 <= j < |e.params| ==> e.params[j].kind != pt
    ensures e.ParamOfType(pt) == None
  {
    FindFirstNone(e.params, (q: Param) => q.kind == pt);
  }

  /** `init(type:tag:)`: an element without parameters. */
  function NewElement(kind: ElementType, tag: int): (e: Element)
    ensures e.kind == kind && e.tag == tag && e.Key() == Decimal(tag)
    ensures forall pt :: e.ParamOfType(pt) == None
    ensures e.ExpectedText() == ""
  {
    Element(kind, tag, [])
  }

  /** `init(type:tag:param:)`: an element whose only parameter is `param`. */
  function NewElementWithParam(kind: ElementType, tag: int, param: Param): (e: Element)
    ensures e.kind == kind && e.tag == tag && |e.params| == 1
    ensures e.ParamOfType(param.kind) == Some(param)
    ensures forall pt :: pt != param.kind ==> e.ParamOfType(pt) == None
  {
    var e := Element(kind, tag, [param]);
    assert forall pt :: pt != param.kind ==> e.ParamOfType(pt) == FindFirstFrom(e.params, (q: Param) => q.kind == pt, 1);
    e
  }

  // ---------------------------------------------------------------------------
  // Labels
  // ---------------------------------------------------------------------------

  /** A rendered label of the alert: its optional text, its tag and its attributed text. */
  class Label {
    var text: Option<string>
    var tag: int
    var attributedText: Option<StyledText>
  }

  /** The rule by which a label with text `text` and tag `labelTag` belongs to `e`. */
  predicate Matches(e: Element, text: string, labelTag: int)
  {
    labelTag == e.tag || text == e.Key() || text == e.ExpectedText()
  }

  /**
   * Builds the attributed string of `e` by one pass over its parameters:
   * a `.text` parameter replaces the text (even by nothing), a `.color` or
   * `.font` parameter replaces the attribute only when it holds a value of
   * that type.
   */
  method AttributedString(e: Element) returns (s: StyledText)
    ensures s == Styled(e.params)
  {
    var text: Option<string> := None;
    var color: Option<Color> := None;
    var font: Option<Font> := None;
    for i := 0 to |e.params|
      invariant text == TextSetting(e.params, i)
      invariant color == ColorSetting(e.params, i)
      invariant font == FontSetting(e.params, i)
    {
      var p := e.params[i];
      match p.kind
      case TextParam =>
        text := AsText(p.value);
      case ColorParam =>
        var c := AsColor(p.value);
        if c.Some? {
          color := c;
        }
      case FontParam =>
        var f := AsFont(p.value);
        if f.Some? {
          font := f;
        }
      case WidthParam =>
    }
    s := StyledText(text.GetOr(""), color, font);
  }

  /**
   * Checks whether `view` belongs to `e` and, if so, tags it with `e`'s tag
   * and gives it `e`'s attributed string (which also becomes its text).
   * A label without text is never matched and is left as it is.
   */
  method ProcessLabel(e: Element, view: Label) returns (matched: bool)
    modifies view
    ensures matched <==> old(view.text).Some? && Matches(e, old(view.text).value, old(view.tag))
    ensures old(view.text).None? ==> !matched
    ensures matched ==> view.tag == e.tag
    ensures matched ==> view.attributedText == Some(Styled(e.params)) && view.text == Some(Styled(e.params).text)
    ensures !matched ==> unchanged(view)
  {
    if view.text.Some? {
      var text := view.text.value;
      var dstText := e.ExpectedText();
      if view.tag == e.tag || text == e.Key() || text == dstText {
        view.tag := e.tag;
        var s := AttributedString(e);
        view.attributedText := Some(s);
        view.text := Some(s.text);
        return true;
      }
    }
    return false;
  }
}

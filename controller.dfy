/**
 * The public face of the alert wrapper: typed colour, font and border-width
 * properties, each bound to one (element kind, parameter kind) pair of the
 * settings table, the registration of actions, and the initialiser that
 * registers the title and message and hands their keys to the system alert
 * as placeholder text.
 */
module AlertController {
  import opened Wrappers
  import opened AlertParam
  import opened AlertElement
  import opened AlertProxy

  // ---------------------------------------------------------------------------
  // The system alert, observed only through what the wrapper hands to it
  // ---------------------------------------------------------------------------

  /** The three styles of a system alert action. */
  datatype ActionStyle = Default | Cancel | Destructive

  /** The presentation style of the system alert. */
  datatype AlertStyle = Alert | ActionSheet

  /** A system action as registered: its title string and its style. */
  datatype SystemAction = SystemAction(title: string, style: ActionStyle)

  /** The system alert: the title and message it was created with, and its actions in order. */
  datatype SystemAlert = SystemAlert(title: string, message: string, style: AlertStyle, actions: seq<SystemAction>)

  /** The element kind under which actions of a style are customised (the `switch` in `addAction`). */
  function ActionElementType(style: ActionStyle): (t: ElementType)
    ensures t == AllDefaultActions <==> style == Default
    ensures t == AllCancelActions <==> style == Cancel
    ensures t == AllDestructiveActions <==> style == Destructive
  {
    match style
    case Default => AllDefaultActions
    case Cancel => AllCancelActions
    case Destructive => AllDestructiveActions
  }

  // ---------------------------------------------------------------------------
  // The colour and font properties
  // ---------------------------------------------------------------------------

  /** The colour properties of the controller. */
  datatype ColorProperty =
    | TitleColor
    | MessageColor
    | BackgroundColor
    | AllDefaultActionsColor
    | AllCancelActionsColor
    | AllDestructiveActionsColor
    | ShadowColor
    | BorderColor

  /** The font properties of the controller. */
  datatype FontProperty =
    | TitleFont
    | MessageFont
    | AllDefaultActionsFont
    | AllCancelActionsFont
    | AllDestructiveActionsFont

  /** The colour property stored under element kind `t`, if any. */
  function ColorPropertyOf(t: ElementType): Option<ColorProperty>
  {
    match t
    case Title => Some(TitleColor)
    case Message => Some(MessageColor)
    case Background => Some(BackgroundColor)
    case AllDefaultActions => Some(AllDefaultActionsColor)
    case AllCancelActions => Some(AllCancelActionsColor)
    case AllDestructiveActions => Some(AllDestructiveActionsColor)
    case Shadow => Some(ShadowColor)
    case Border => Some(BorderColor)
  }

  /** The font property stored under element kind `t`, if any. */
  function FontPropertyOf(t: ElementType): Option<FontProperty>
  {
    match t
    case Title => Some(TitleFont)
    case Message => Some(MessageFont)
    case AllDefaultActions => Some(AllDefaultActionsFont)
    case AllCancelActions => Some(AllCancelActionsFont)
    case AllDestructiveActions => Some(AllDestructiveActionsFont)
    case _ => None
  }

  /** The element kind a colour property is stored under; no two properties share one. */
  function ColorTarget(p: ColorProperty): (t: ElementType)
    ensures ColorPropertyOf(t) == Some(p)
  {
    match p
    case TitleColor => Title
    case MessageColor => Message
    case BackgroundColor => Background
    case AllDefaultActionsColor => AllDefaultActions
    case AllCancelActionsColor => AllCancelActions
    case AllDestructiveActionsColor => AllDestructiveActions
    case ShadowColor => Shadow
    case BorderColor => Border
  }

  /** The element kind a font property is stored under; no two properties share one. */
  function FontTarget(p: FontProperty): (t: ElementType)
    ensures FontPropertyOf(t) == Some(p)
  {
    match p
    case TitleFont => Title
    case MessageFont => Message
    case AllDefaultActionsFont => AllDefaultActions
    case AllCancelActionsFont => AllCancelActions
    case AllDestructiveActionsFont => AllDestructiveActions
  }

  /** A colour property's getter on a table: the `.color` value of its element, as a colour. */
  function ColorIn(es: seq<Element>, p: ColorProperty): Option<Color>
  {
    AsColor(ValueAt(es, ColorTarget(p), ColorParam))
  }

  /** A font property's getter on a table. */
  function FontIn(es: seq<Element>, p: FontProperty): Option<Font>
  {
    AsFont(ValueAt(es, FontTarget(p), FontParam))
  }

  /** The border width getter on a table: the stored number, or 0 when there is none. */
  function WidthIn(es: seq<Element>): real
  {
    AsNumber(ValueAt(es, Border, WidthParam)).GetOr(0.0)
  }

  /** The setter's clamp `max(0, w)`. */
  function ClampWidth(w: real): real
  {
    if w < 0.0 then 0.0 else w
  }

  // ---------------------------------------------------------------------------
  // Round trips and independence of the properties
  // ---------------------------------------------------------------------------

  /** Setting a colour property and reading it back yields the colour that was set. */
  lemma ColorRoundTrip(es: seq<Element>, lastTag: int, p: ColorProperty, c: Option<Color>)
    ensures ColorIn(Updated(es, lastTag, ColorTarget(p), ColorParam, BoxColor(c)), p) == c
  {
    UpdateThenLookup(es, lastTag, ColorTarget(p), ColorParam, BoxColor(c));
  }

  /** Setting a font property and reading it back yields the font that was set. */
  lemma FontRoundTrip(es: seq<Element>, lastTag: int, p: FontProperty, f: Option<Font>)
    ensures FontIn(Updated(es, lastTag, FontTarget(p), FontParam, BoxFont(f)), p) == f
  {
    UpdateThenLookup(es, lastTag, FontTarget(p), FontParam, BoxFont(f));
  }

  /**
   * Setting the border width stores `max(0, w)`: the getter then reads that,
   * so it is never negative, equals `w` for a non-negative `w` and 0 otherwise.
   */
  lemma WidthRoundTrip(es: seq<Element>, lastTag: int, w: real)
    ensures WidthIn(Updated(es, lastTag, Border, WidthParam, Some(NumberValue(ClampWidth(w))))) == ClampWidth(w)
    ensures ClampWidth(w) >= 0.0
    ensures w >= 0.0 ==> ClampWidth(w) == w
    ensures w < 0.0 ==> ClampWidth(w) == 0.0
  {
    UpdateThenLookup(es, lastTag, Border, WidthParam, Some(NumberValue(ClampWidth(w))));
  }

  /** Storing under anything but a colour property's pair leaves that property's getter as it was. */
  lemma ColorKept(es: seq<Element>, lastTag: int, t: ElementType, pt: ParamType, v: Option<Value>, q: ColorProperty)
    requires t != ColorTarget(q) || pt != ColorParam
    ensures ColorIn(Updated(es, lastTag, t, pt, v), q) == ColorIn(es, q)
  {
    UpdateKeepsOtherLookups(es, lastTag, t, pt, v, ColorTarget(q), ColorParam);
  }

  /** Storing under anything but a font property's pair leaves that property's getter as it was. */
  lemma FontKept(es: seq<Element>, lastTag: int, t: ElementType, pt: ParamType, v: Option<Value>, q: FontProperty)
    requires t != FontTarget(q) || pt != FontParam
    ensures FontIn(Updated(es, lastTag, t, pt, v), q) == FontIn(es, q)
  {
    UpdateKeepsOtherLookups(es, lastTag, t, pt, v, FontTarget(q), FontParam);
  }

  /** Storing under anything but (`.border`, `.width`) leaves the border width as it was. */
  lemma WidthKept(es: seq<Element>, lastTag: int, t: ElementType, pt: ParamType, v: Option<Value>)
    requires t != Border || pt != WidthParam
    ensures WidthIn(Updated(es, lastTag, t, pt, v)) == WidthIn(es)
  {
    UpdateKeepsOtherLookups(es, lastTag, t, pt, v, Border, WidthParam);
  }

  /** Setting one colour property leaves every other colour property, every font and the width alone. */
  lemma ColorSetKeepsOthers(es: seq<Element>, lastTag: int, p: ColorProperty, c: Option<Color>)
    ensures forall q :: q != p ==> ColorIn(Updated(es, lastTag, ColorTarget(p), ColorParam, BoxColor(c)), q) == ColorIn(es, q)
    ensures forall q :: FontIn(Updated(es, lastTag, ColorTarget(p), ColorParam, BoxColor(c)), q) == FontIn(es, q)
    ensures WidthIn(Updated(es, lastTag, ColorTarget(p), ColorParam, BoxColor(c))) == WidthIn(es)
  {
    var t, v := ColorTarget(p), BoxColor(c);
    forall q | q != p
      ensures ColorIn(Updated(es, lastTag, t, ColorParam, v), q) == ColorIn(es, q)
    {
      ColorKept(es, lastTag, t, ColorParam, v, q);
    }
    forall q
      ensures FontIn(Updated(es, lastTag, t, ColorParam, v), q) == FontIn(es, q)
    {
      FontKept(es, lastTag, t, ColorParam, v, q);
    }
    WidthKept(es, lastTag, t, ColorParam, v);
  }

  /** Setting one font property leaves every other font property, every colour and the width alone. */
  lemma FontSetKeepsOthers(es: seq<Element>, lastTag: int, p: FontProperty, f: Option<Font>)
    ensures forall q :: q != p ==> FontIn(Updated(es, lastTag, FontTarget(p), FontParam, BoxFont(f)), q) == FontIn(es, q)
    ensures forall q :: ColorIn(Updated(es, lastTag, FontTarget(p), FontParam, BoxFont(f)), q) == ColorIn(es, q)
    ensures WidthIn(Updated(es, lastTag, FontTarget(p), FontParam, BoxFont(f))) == WidthIn(es)
  {
    var t, v := FontTarget(p), BoxFont(f);
    forall q | q != p
      ensures FontIn(Updated(es, lastTag, t, FontParam, v), q) == FontIn(es, q)
    {
      FontKept(es, lastTag, t, FontParam, v, q);
    }
    forall q
      ensures ColorIn(Updated(es, lastTag, t, FontParam, v), q) == ColorIn(es, q)
    {
      ColorKept(es, lastTag, t, FontParam, v, q);
    }
    WidthKept(es, lastTag, t, FontParam, v);
  }

  /** Setting the border width leaves every colour and font property alone. */
  lemma WidthSetKeepsOthers(es: seq<Element>, lastTag: int, w: real)
    ensures forall q :: ColorIn(Updated(es, lastTag, Border, WidthParam, Some(NumberValue(ClampWidth(w)))), q) == ColorIn(es, q)
    ensures forall q :: FontIn(Updated(es, lastTag, Border, WidthParam, Some(NumberValue(ClampWidth(w)))), q) == FontIn(es, q)
  {
    var v := Some(NumberValue(ClampWidth(w)));
    forall q
      ensures ColorIn(Updated(es, lastTag, Border, WidthParam, v), q) == ColorIn(es, q)
    {
      ColorKept(es, lastTag, Border, WidthParam, v, q);
    }
    forall q
      ensures FontIn(Updated(es, lastTag, Border, WidthParam, v), q) == FontIn(es, q)
    {
      FontKept(es, lastTag, Border, WidthParam, v, q);
    }
  }

  // ---------------------------------------------------------------------------
  // Text-only tables: what the initialiser and `addAction` build
  // ---------------------------------------------------------------------------

  /** In a table with only `.text` parameters every colour and font reads nil and the width reads 0. */
  lemma UnstyledReadsDefaults(es: seq<Element>)
    requires OnlyTextParams(es)
    ensures forall p :: ColorIn(es, p) == None
    ensures forall p :: FontIn(es, p) == None
    ensures WidthIn(es) == 0.0
  {
    forall p
      ensures ColorIn(es, p) == None
    {
      TextOnlyTableHasNoStyle(es, ColorTarget(p), ColorParam);
    }
    forall p
      ensures FontIn(es, p) == None
    {
      TextOnlyTableHasNoStyle(es, FontTarget(p), FontParam);
    }
    TextOnlyTableHasNoStyle(es, Border, WidthParam);
  }

  /** The element `addAction` registers: the action's kind, the given tag and one `.text` parameter. */
  function ActionElement(style: ActionStyle, tag: int, title: Option<string>): Element
  {
    Element(ActionElementType(style), tag, [Param(TextParam, BoxText(title))])
  }

  /**
   * Appending an element whose only parameter is `.text` changes no lookup of
   * another parameter kind: an earlier element of the same kind still comes
   * first, and otherwise the new one has no such parameter.
   */
  lemma AppendTextElementKeepsLookups(es: seq<Element>, e: Element, t: ElementType, pt: ParamType)
    requires forall j :: 0 <= j < |e.params| ==> e.params[j].kind == TextParam
    requires pt != TextParam
    ensures Lookup(es + [e], t, pt) == Lookup(es, t, pt)
  {
    var u := es + [e];
    if exists i :: 0 <= i < |es| && es[i].kind == t {
      var k := FirstOfType(es, t);
      assert IsFirstOfKind(u, t, k);
      LookupOfFirst(es, t, pt, k);
      LookupOfFirst(u, t, pt, k);
    } else {
      LookupOfAbsent(es, t, pt);
      if e.kind == t {
        assert IsFirstOfKind(u, t, |es|);
        LookupOfFirst(u, t, pt, |es|);
        ParamOfTypeNone(e, pt);
      } else {
        assert forall i :: 0 <= i < |u| ==> u[i].kind != t;
        LookupOfAbsent(u, t, pt);
      }
    }
  }

  /** Registering an action leaves every colour, font and the border width as they were. */
  lemma AddActionKeepsStyles(es: seq<Element>, style: ActionStyle, tag: int, title: Option<string>)
    ensures forall p :: ColorIn(es + [ActionElement(style, tag, title)], p) == ColorIn(es, p)
    ensures forall p :: FontIn(es + [ActionElement(style, tag, title)], p) == FontIn(es, p)
    ensures WidthIn(es + [ActionElement(style, tag, title)]) == WidthIn(es)
  {
    var e := ActionElement(style, tag, title);
    forall p
      ensures ColorIn(es + [e], p) == ColorIn(es, p)
    {
      AppendTextElementKeepsLookups(es, e, ColorTarget(p), ColorParam);
    }
    forall p
      ensures FontIn(es + [e], p) == FontIn(es, p)
    {
      AppendTextElementKeepsLookups(es, e, FontTarget(p), FontParam);
    }
    AppendTextElementKeepsLookups(es, e, Border, WidthParam);
  }

  // ---------------------------------------------------------------------------
  // Keys handed to the system alert stay registered
  // ---------------------------------------------------------------------------

  /** Some element of kind `t` has key `key`. */
  ghost predicate Registered(es: seq<Element>, t: ElementType, key: string)
  {
    exists j :: 0 <= j < |es| && es[j].kind == t && es[j].Key() == key
  }

  /**
   * Every string the wrapper handed to the system alert is the key of an
   * element of the matching kind: the title, the message and each action's
   * title. This is what lets the label walk find the labels again.
   */
  ghost predicate AlertRegistered(es: seq<Element>, a: SystemAlert)
  {
    && Registered(es, Title, a.title)
    && Registered(es, Message, a.message)
    && forall i :: 0 <= i < |a.actions| ==> Registered(es, ActionElementType(a.actions[i].style), a.actions[i].title)
  }

  /** The upsert keeps every key registered under its kind. */
  lemma UpdateKeepsRegistered(es: seq<Element>, lastTag: int, t: ElementType, pt: ParamType, v: Option<Value>,
                              k: ElementType, key: string)
    requires Registered(es, k, key)
    ensures Registered(Updated(es, lastTag, t, pt, v), k, key)
  {
    var j :| 0 <= j < |es| && es[j].kind == k && es[j].Key() == key;
    UpdateFrame(es, lastTag, t, pt, v);
    assert Updated(es, lastTag, t, pt, v)[j].Key() == key;
  }

  /** The upsert keeps every string handed to the system alert registered. */
  lemma UpdateKeepsAlertRegistered(es: seq<Element>, lastTag: int, t: ElementType, pt: ParamType, v: Option<Value>,
                                   a: SystemAlert)
    requires AlertRegistered(es, a)
    ensures AlertRegistered(Updated(es, lastTag, t, pt, v), a)
  {
    UpdateKeepsRegistered(es, lastTag, t, pt, v, Title, a.title);
    UpdateKeepsRegistered(es, lastTag, t, pt, v, Message, a.message);
    forall i | 0 <= i < |a.actions|
      ensures Registered(Updated(es, lastTag, t, pt, v), ActionElementType(a.actions[i].style), a.actions[i].title)
    {
      UpdateKeepsRegistered(es, lastTag, t, pt, v, ActionElementType(a.actions[i].style), a.actions[i].title);
    }
  }

  /**
   * The initialiser's two upserts on an empty table with counter 0: neither
   * finds an element to extend, so each appends one, with tags 1 and 2.
   */
  lemma InitialTable(title: Option<string>, message: Option<string>)
    ensures !SomeLacks([], Title, TextParam)
    ensures Updated([], 0, Title, TextParam, BoxText(title)) == [Element(Title, 1, [Param(TextParam, BoxText(title))])]
    ensures TagAfterUpdate([], 0, Title, TextParam) == 1
    ensures var one := [Element(Title, 1, [Param(TextParam, BoxText(title))])];
      && !SomeLacks(one, Message, TextParam)
      && Updated(one, 1, Message, TextParam, BoxText(message)) == one + [Element(Message, 2, [Param(TextParam, BoxText(message))])]
      && TagAfterUpdate(one, 1, Message, TextParam) == 2
      && OnlyTextParams(one + [Element(Message, 2, [Param(TextParam, BoxText(message))])])
  {
    var one := [Element(Title, 1, [Param(TextParam, BoxText(title))])];
    assert UpdateAll(one, Message, TextParam, BoxText(message)) == one;
  }

  /**
   * Registering an action with the next tag keeps the tags fresh and unique,
   * and keeps a text-only table text-only.
   */
  lemma AppendActionKeepsInvariants(es: seq<Element>, lastTag: int, style: ActionStyle, title: Option<string>)
    requires TagsFresh(es, lastTag)
    ensures TagsFresh(es + [ActionElement(style, lastTag + 1, title)], lastTag + 1)
    ensures OnlyTextParams(es) ==> OnlyTextParams(es + [ActionElement(style, lastTag + 1, title)])
  {
    var u := es + [ActionElement(style, lastTag + 1, title)];
    assert forall i :: 0 <= i < |es| ==> u[i] == es[i];
  }

  /** Appending an element keeps every key registered, and registers the new element's key under its kind. */
  lemma AppendKeepsAlertRegistered(es: seq<Element>, e: Element, a: SystemAlert, style: ActionStyle)
    requires AlertRegistered(es, a)
    requires e.kind == ActionElementType(style)
    ensures AlertRegistered(es + [e], a.(actions := a.actions + [SystemAction(e.Key(), style)]))
  {
    var u := es + [e];
    var b := a.(actions := a.actions + [SystemAction(e.Key(), style)]);
    forall k, key | Registered(es, k, key)
      ensures Registered(u, k, key)
    {
      var j :| 0 <= j < |es| && es[j].kind == k && es[j].Key() == key;
      assert u[j] == es[j];
    }
    assert u[|es|] == e;
    forall i | 0 <= i < |b.actions|
      ensures Registered(u, ActionElementType(b.actions[i].style), b.actions[i].title)
    {
      if i < |a.actions| {
        assert b.actions[i] == a.actions[i];
      }
    }
  }

  /**
   * The table part of the initialiser: on a fresh proxy, upserts the title and
   * then the message as `.text` parameters and returns the keys of the two
   * elements the upserts return.
   */
  method RegisterTitleAndMessage(title: Option<string>, message: Option<string>)
    returns (p: Proxy, titleKey: string, messageKey: string)
    ensures fresh(p) && p.Valid()
    ensures p.lastTag == 2
    ensures p.elements ==
      [Element(Title, 1, [Param(TextParam, BoxText(title))]), Element(Message, 2, [Param(TextParam, BoxText(message))])]
    ensures OnlyTextParams(p.elements)
    ensures titleKey == p.elements[0].Key() == "1" && messageKey == p.elements[1].Key() == "2"
  {
    p := new Proxy();
    InitialTable(title, message);
    var titleElement := p.UpdateTypeValue(Title, TextParam, BoxText(title));
    var messageElement := p.UpdateTypeValue(Message, TextParam, BoxText(message));
    titleKey := titleElement.Key();
    messageKey := messageElement.Key();
    DecimalExamples();
  }

  // ---------------------------------------------------------------------------
  // The controller object
  // ---------------------------------------------------------------------------

  class AlertController {
    /** The system alert being set up. */
    var alert: SystemAlert

    /** The settings table. */
    const proxy: Proxy

    ghost predicate Valid()
      reads this, proxy
    {
      proxy.Valid() && AlertRegistered(proxy.elements, alert)
    }

    /** The getter of a colour property. */
    function ColorOf(p: ColorProperty): Option<Color>
      reads proxy
    {
      ColorIn(proxy.elements, p)
    }

    /** The getter of a font property. */
    function FontOf(p: FontProperty): Option<Font>
      reads proxy
    {
      FontIn(proxy.elements, p)
    }

    /** The getter of `borderWidth`. */
    function BorderWidth(): real
      reads proxy
    {
      WidthIn(proxy.elements)
    }

    /**
     * `init(title:message:preferredStyle:)`: registers the title, then the
     * message, as `.text` parameters on a fresh table (tags 1 and 2), and
     * creates the system alert with their keys as its title and message.
     */
    constructor (title: Option<string>, message: Option<string>, style: AlertStyle)
      ensures Valid()
      ensures fresh(proxy)
      ensures proxy.lastTag == 2
      ensures proxy.elements ==
        [Element(Title, 1, [Param(TextParam, BoxText(title))]), Element(Message, 2, [Param(TextParam, BoxText(message))])]
      ensures alert == SystemAlert("1", "2", style, [])
      ensures OnlyTextParams(proxy.elements)
      ensures forall p :: ColorOf(p) == None
      ensures forall p :: FontOf(p) == None
      ensures BorderWidth() == 0.0
    {
      var p, titleKey, messageKey := RegisterTitleAndMessage(title, message);
      var a := SystemAlert(titleKey, messageKey, style, []);
      assert AlertRegistered(p.elements, a) by {
        assert p.elements[0].Key() == a.title && p.elements[1].Key() == a.message;
      }
      proxy := p;
      alert := a;
      UnstyledReadsDefaults(p.elements);
    }

    /** Sets a colour property (`titleColor`, `backgroundColor`, ...). */
    method SetColor(p: ColorProperty, c: Option<Color>)
      requires Valid()
      modifies proxy
      ensures Valid()
      ensures proxy.elements == Updated(old(proxy.elements), old(proxy.lastTag), ColorTarget(p), ColorParam, BoxColor(c))
      ensures proxy.lastTag == TagAfterUpdate(old(proxy.elements), old(proxy.lastTag), ColorTarget(p), ColorParam)
      ensures ColorOf(p) == c
      ensures forall q :: q != p ==> ColorOf(q) == old(ColorOf(q))
      ensures forall q :: FontOf(q) == old(FontOf(q))
      ensures BorderWidth() == old(BorderWidth())
    {
      ghost var es, n := proxy.elements, proxy.lastTag;
      var _ := proxy.UpdateTypeValue(ColorTarget(p), ColorParam, BoxColor(c));
      ColorRoundTrip(es, n, p, c);
      ColorSetKeepsOthers(es, n, p, c);
      UpdateKeepsAlertRegistered(es, n, ColorTarget(p), ColorParam, BoxColor(c), alert);
    }

    /** Sets a font property (`titleFont`, `allCancelActionsFont`, ...). */
    method SetFont(p: FontProperty, f: Option<Font>)
      requires Valid()
      modifies proxy
      ensures Valid()
      ensures proxy.elements == Updated(old(proxy.elements), old(proxy.lastTag), FontTarget(p), FontParam, BoxFont(f))
      ensures proxy.lastTag == TagAfterUpdate(old(proxy.elements), old(proxy.lastTag), FontTarget(p), FontParam)
      ensures FontOf(p) == f
      ensures forall q :: q != p ==> FontOf(q) == old(FontOf(q))
      ensures forall q :: ColorOf(q) == old(ColorOf(q))
      ensures BorderWidth() == old(BorderWidth())
    {
      ghost var es, n := proxy.elements, proxy.lastTag;
      var _ := proxy.UpdateTypeValue(FontTarget(p), FontParam, BoxFont(f));
      FontRoundTrip(es, n, p, f);
      FontSetKeepsOthers(es, n, p, f);
      UpdateKeepsAlertRegistered(es, n, FontTarget(p), FontParam, BoxFont(f), alert);
    }

    /** Sets `borderWidth`, storing `max(0, w)`. */
    method SetBorderWidth(w: real)
      requires Valid()
      modifies proxy
      ensures Valid()
      ensures proxy.elements ==
        Updated(old(proxy.elements), old(proxy.lastTag), Border, WidthParam, Some(NumberValue(ClampWidth(w))))
      ensures proxy.lastTag == TagAfterUpdate(old(proxy.elements), old(proxy.lastTag), Border, WidthParam)
      ensures BorderWidth() == ClampWidth(w)
      ensures forall q :: ColorOf(q) == old(ColorOf(q))
      ensures forall q :: FontOf(q) == old(FontOf(q))
    {
      ghost var es, n := proxy.elements, proxy.lastTag;
      var newWidth := if w < 0.0 then 0.0 else w;
      var _ := proxy.UpdateTypeValue(Border, WidthParam, Some(NumberValue(newWidth)));
      WidthRoundTrip(es, n, w);
      WidthSetKeepsOthers(es, n, w);
      UpdateKeepsAlertRegistered(es, n, Border, WidthParam, Some(NumberValue(newWidth)), alert);
    }

    /**
     * `addAction(_:style:handler:)`: registers an element of the style's kind
     * with the next tag and the title as its only `.text` parameter, and adds a
     * system action titled with that element's key (not the caller's title).
     */
    method AddAction(title: Option<string>, style: ActionStyle)
      requires Valid()
      modifies this, proxy
      ensures Valid()
      ensures proxy.lastTag == old(proxy.lastTag) + 1
      ensures proxy.elements == old(proxy.elements) + [ActionElement(style, proxy.lastTag, title)]
      ensures alert == old(alert).(actions := old(alert.actions) + [SystemAction(Decimal(proxy.lastTag), style)])
      ensures OnlyTextParams(old(proxy.elements)) ==> OnlyTextParams(proxy.elements)
      ensures forall q :: ColorOf(q) == old(ColorOf(q))
      ensures forall q :: FontOf(q) == old(FontOf(q))
      ensures BorderWidth() == old(BorderWidth())
    {
      ghost var es, a := proxy.elements, alert;
      var t := ActionElementType(style);
      var tag := proxy.NextTag();
      var element := NewElementWithParam(t, tag, Param(TextParam, BoxText(title)));
      proxy.elements := proxy.elements + [element];
      alert := alert.(actions := alert.actions + [SystemAction(element.Key(), style)]);
      // The asserts below restate postconditions; each scopes the lemma that proves it, which keeps the proof cheap.
      assert proxy.elements == es + [ActionElement(style, tag, title)];
      assert proxy.Valid() && (OnlyTextParams(es) ==> OnlyTextParams(proxy.elements)) by {
        AppendActionKeepsInvariants(es, tag - 1, style, title);
      }
      assert AlertRegistered(proxy.elements, alert) by {
        AppendKeepsAlertRegistered(es, element, a, style);
      }
      assert && (forall q :: ColorIn(proxy.elements, q) == ColorIn(es, q))
             && (forall q :: FontIn(proxy.elements, q) == FontIn(es, q))
             && WidthIn(proxy.elements) == WidthIn(es) by {
        AddActionKeepsStyles(es, style, tag, title);
      }
    }
  }
}

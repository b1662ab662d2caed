# OKAlertController settings table, in Dafny

OKAlertController wraps the iOS system alert so that its colours, fonts and
border can be customised. The wrapper keeps a settings table in its proxy
object:

- The table is an ordered list of elements: the title, the message, the
  background, the three kinds of action, the shadow and the border.
- Each element has a unique integer tag, drawn from a counter.
- Each element carries an ordered list of (parameter kind, optional value)
  parameters.

This project models that table and the operations on it:

- the tag counter (`nextTag`);
- the upsert that stores a value for every element of a kind
  (`updateTypeValue`);
- the first-match lookups that read the table (`findFirst` and the
  subscripts);
- the element's decimal key;
- the rule by which a rendered label is recognised as belonging to an
  element (`processLabel`);
- the fold that builds the element's styled text (`attributedString`);
- the public controller:
  - typed colour and font properties;
  - the clamped border width;
  - `addAction`;
  - the initialiser, which registers the title and message and hands their
    keys to the system alert as placeholder text.

Modules follow the source files:

- `Wrappers`: Swift optionals and `??`.
- `AlertParam`: parameter kinds and values, and the typed extraction
  `getValue()`.
- `AlertElement`: OKAlertControllerElement.swift, modelled as:
  - `findFirst`;
  - the element with its key and `subscript(type:)`;
  - both initialisers;
  - the label rule as a method on a `Label` object;
  - `attributedString` as a loop proved against the last-match functions.
- `AlertProxy`: the table part of OKAlertControllerProxy.swift, modelled as:
  - a `Proxy` class with `lastTag` and `elements`;
  - `NextTag`;
  - `UpdateTypeValue`, implemented by loops and proved against the reference
    function `Updated`;
  - the pure lookups and the lemmas about the upsert.
- `AlertController`: OKAlertController.swift, modelled as a class holding
  the proxy and a record of what was handed to the system alert, with the
  property setters, `AddAction` and the initialiser.

The class invariant `Proxy.Valid` says that every tag lies in `1..lastTag`
and that no two elements share a tag. `AlertController.Valid` adds that every
string handed to the system alert is the key of an element of the matching
kind: the title, the message and each action title.

Colours and fonts are opaque types compared with `==`. A parameter value is
one of four cases: text, colour, font or number. `getValue()` is a typed
extraction that yields the value only when it has the requested type. The
eight colour properties and five font properties are two enumerations. Each
property maps to the element kind it is stored under, and the colour or font
parameter kind completes the pair. A getter or setter takes the property as
an argument.

Elements are values, and the upsert rebuilds the list. Swift mutates the
element objects in place, but the table never holds one object twice, so no
sharing is lost. The element `updateTypeValue` returns is identified by its
position in the updated table.

## Model

| member | source | states |
|---|---|---|
| AlertParam.AsText | OKAlertController/Controller/OKAlertController/OKAlertControllerElement.swift:100 | reading a value as a string succeeds exactly when it holds a string, and gives that string |
| AlertParam.AsColor | OKAlertController/Controller/OKAlertController/OKAlertControllerElement.swift:102 | reading a value as a colour succeeds exactly when it holds a colour, and gives that colour |
| AlertParam.AsFont | OKAlertController/Controller/OKAlertController/OKAlertControllerElement.swift:106 | reading a value as a font succeeds exactly when it holds a font, and gives that font |
| AlertParam.AsNumber | OKAlertController/Controller/OKAlertController/OKAlertController.swift:270 | reading a value as a number succeeds exactly when it holds a number, and gives that number |
| AlertParam.BoxText | OKAlertController/Controller/OKAlertController/OKAlertController.swift:340-341 | an optional string stored as a value reads back as that string, and as no colour, font or number |
| AlertParam.BoxColor | OKAlertController/Controller/OKAlertController/OKAlertController.swift:78-80 | an optional colour stored as a value reads back as that colour, and as nothing of another type |
| AlertParam.BoxFont | OKAlertController/Controller/OKAlertController/OKAlertController.swift:93-95 | an optional font stored as a value reads back as that font, and as nothing of another type |
| AlertElement.FindFirstSpec | OKAlertController/Controller/OKAlertController/OKAlertControllerElement.swift:42-49 | `findFirst` returns nil exactly when no item satisfies the condition; otherwise it returns an item that does, with no satisfying item before it |
| AlertElement.FindFirstAt | OKAlertController/Controller/OKAlertController/OKAlertControllerElement.swift:42-49 | the first satisfying item is the one `findFirst` returns |
| AlertElement.FindFirstNone | OKAlertController/Controller/OKAlertController/OKAlertControllerElement.swift:42-49 | without a satisfying item `findFirst` returns nil |
| AlertElement.FindLastSpec | OKAlertController/Controller/OKAlertController/OKAlertControllerElement.swift:97-112 | the overwriting loop keeps the last satisfying item among those seen: nothing exactly when none satisfies, otherwise one that does with none after it |
| AlertElement.FindLastAt | OKAlertController/Controller/OKAlertController/OKAlertControllerElement.swift:97-112 | a satisfying item with no satisfying item after it is the one the loop keeps |
| AlertElement.Digits | OKAlertController/Controller/OKAlertController/OKAlertControllerElement.swift:70 | the decimal digits of a natural number are non-empty and all digits, a single digit exactly below 10, ending in the last digit |
| AlertElement.Decimal | OKAlertController/Controller/OKAlertController/OKAlertControllerElement.swift:70 | string interpolation of an Int is non-empty, starts with `-` exactly for negative numbers, and is digits after the first character |
| AlertElement.DigitsInjective | OKAlertController/Controller/OKAlertController/OKAlertControllerElement.swift:70 | two natural numbers have the same digits exactly when they are equal |
| AlertElement.DecimalInjective | OKAlertController/Controller/OKAlertController/OKAlertControllerElement.swift:70 | two integers render the same exactly when they are equal |
| AlertElement.DecimalExamples | OKAlertController/Controller/OKAlertController/OKAlertControllerElement.swift:70 | 1, 2, 42 and -7 render as "1", "2", "42" and "-7" |
| AlertElement.KeysUnique | OKAlertController/Controller/OKAlertController/OKAlertControllerElement.swift:62-71 | two elements have the same key exactly when they have the same tag, as the "uniq key" comment promises |
| AlertElement.ParamOfTypeSpec | OKAlertController/Controller/OKAlertController/OKAlertControllerElement.swift:116-119 | `subscript(type:)` is nil exactly when no parameter has that kind; otherwise it is the first parameter of that kind |
| AlertElement.ParamOfTypeAt | OKAlertController/Controller/OKAlertController/OKAlertControllerElement.swift:116-119 | the first parameter of a kind is what `subscript(type:)` returns |
| AlertElement.ParamOfTypeNone | OKAlertController/Controller/OKAlertController/OKAlertControllerElement.swift:116-119 | without a parameter of a kind, `subscript(type:)` returns nil |
| AlertElement.NewElement | OKAlertController/Controller/OKAlertController/OKAlertControllerElement.swift:121-126 | `init(type:tag:)` keeps kind and tag, has no parameter of any kind, and expects the empty text |
| AlertElement.NewElementWithParam | OKAlertController/Controller/OKAlertController/OKAlertControllerElement.swift:128-133 | `init(type:tag:param:)` keeps kind and tag and has exactly the given parameter: it is found under its kind and nothing is found under any other |
| AlertElement.StyledTextFromLastTextParam | OKAlertController/Controller/OKAlertController/OKAlertControllerElement.swift:97-113 | the styled text is the string of the last `.text` parameter, or "" when that parameter holds no string |
| AlertElement.StyledTextWithoutTextParam | OKAlertController/Controller/OKAlertController/OKAlertControllerElement.swift:95-113 | without a `.text` parameter the styled text is "" |
| AlertElement.StyledAttributes | OKAlertController/Controller/OKAlertController/OKAlertControllerElement.swift:96-108 | the colour attribute is absent exactly when no `.color` parameter holds a colour, and is otherwise the colour of the last one that does; the font attribute likewise |
| AlertElement.AttributedString | OKAlertController/Controller/OKAlertController/OKAlertControllerElement.swift:94-114 | the loop over the parameters builds the reference styled text: last text (default ""), last colour and last font present |
| AlertElement.ProcessLabel | OKAlertController/Controller/OKAlertController/OKAlertControllerElement.swift:74-90 | a label without text is not matched and is left unchanged. A label with text matches exactly when its tag is the element's tag, or its text is the key, or its text is the first `.text` value (default ""). A matched label gets the element's tag and attributed string, and its text becomes that string's text |
| AlertProxy.Proxy.constructor | OKAlertController/Controller/OKAlertController/OKAlertControllerProxy.swift:161-162 | a new proxy has counter 0 and an empty table, and satisfies the tag invariant |
| AlertProxy.Proxy.NextTag | OKAlertController/Controller/OKAlertController/OKAlertControllerProxy.swift:59-63 | `nextTag` increments the counter by exactly one and returns the new value, so successive tags strictly increase; it keeps the tag invariant |
| AlertProxy.Proxy.UpdateTypeValue | OKAlertController/Controller/OKAlertController/OKAlertControllerProxy.swift:177-200 | the table becomes the reference upsert and the counter moves only when an element is appended, with the tag invariant kept. When some element of the kind lacked the parameter, the result is the last such element, now ending with the new (kind, value) parameter. Otherwise the result is the new element (kind, old counter + 1, [(kind, value)]), appended at the end |
| AlertProxy.UpsertAll | OKAlertController/Controller/OKAlertController/OKAlertControllerProxy.swift:181-193 | the loop over the elements upserts every element of the kind and leaves the rest. It reports whether some element received a new parameter, and where the last one is |
| AlertProxy.UpsertElement | OKAlertController/Controller/OKAlertController/OKAlertControllerProxy.swift:183-192 | one element's upsert sets its parameters of the kind, or appends one when there is none, and reports the append exactly when the element had none |
| AlertProxy.AssignValues | OKAlertController/Controller/OKAlertController/OKAlertControllerProxy.swift:184-187 | the inner loop stores the value in every parameter of the kind, leaves the others unchanged, and sets `updatedParam` exactly when there was one |
| AlertProxy.LastLackingIsLast | OKAlertController/Controller/OKAlertController/OKAlertControllerProxy.swift:188-191 | the position `result` tracks is defined exactly when some element of the kind lacked the parameter, and it is the last such element |
| AlertProxy.UpdatedSplit | OKAlertController/Controller/OKAlertController/OKAlertControllerProxy.swift:188-198 | the upsert appends an element exactly when no element of the kind lacked the parameter |
| AlertProxy.UpdatedAt | OKAlertController/Controller/OKAlertController/OKAlertControllerProxy.swift:181-198 | at each old position the upsert has the upserted element or the unchanged one; at the end it has the appended element |
| AlertProxy.UpdatedKindAt | OKAlertController/Controller/OKAlertController/OKAlertControllerProxy.swift:181-198 | the upsert keeps the kind and tag at every old position, and the appended element has the upserted kind |
| AlertProxy.UpdateElementFrame | OKAlertController/Controller/OKAlertController/OKAlertControllerProxy.swift:183-190 | one element's upsert keeps kind and tag and touches only parameters of the kind. It appends a parameter exactly when there was none, leaves every parameter of the kind holding the value, and leaves at least one |
| AlertProxy.UpdateElementLookup | OKAlertController/Controller/OKAlertController/OKAlertControllerProxy.swift:183-190 | after one element's upsert, its first parameter of the kind is (kind, value) |
| AlertProxy.UpdateElementOtherLookup | OKAlertController/Controller/OKAlertController/OKAlertControllerProxy.swift:183-190 | one element's upsert does not change its lookup of another parameter kind |
| AlertProxy.UpdateFrame | OKAlertController/Controller/OKAlertController/OKAlertControllerProxy.swift:181-198 | the upsert removes and reorders nothing, changes no kind or tag, and leaves elements of other kinds and parameters of other kinds alone. It only touches parameters of the kind, appends at most one parameter per element, and grows the table by at most one element, appended exactly when no element lacked the parameter |
| AlertProxy.UpdateStoresEverywhere | OKAlertController/Controller/OKAlertController/OKAlertControllerProxy.swift:181-198 | after the upsert every element of the kind has a parameter of the kind, and every such parameter holds the value |
| AlertProxy.UpdateThenLookup | OKAlertController/Controller/OKAlertController/OKAlertControllerProxy.swift:170-200 | after storing a value under (element kind, parameter kind), `self[elemType, paramType]` reads back (parameter kind, value) |
| AlertProxy.UpdateKeepsOtherLookups | OKAlertController/Controller/OKAlertController/OKAlertControllerProxy.swift:170-200 | storing under one pair changes what no other pair reads |
| AlertProxy.LookupAfterUpdateAbsent | OKAlertController/Controller/OKAlertController/OKAlertControllerProxy.swift:170-200 | a kind no element has still reads nothing after an upsert of another kind |
| AlertProxy.LookupAfterUpdateAt | OKAlertController/Controller/OKAlertController/OKAlertControllerProxy.swift:170-200 | the first element of a kind is still first after the upsert, and the lookup reads its upserted form |
| AlertProxy.LookupAfterUpdateAppended | OKAlertController/Controller/OKAlertController/OKAlertControllerProxy.swift:170-200 | with no element of the kind, the lookup after the upsert reads the appended element: the stored parameter under its kind, nothing under any other |
| AlertProxy.LookupOfAbsent | OKAlertController/Controller/OKAlertController/OKAlertControllerProxy.swift:170-175 | without an element of the kind, `self[elemType, paramType]` is nil |
| AlertProxy.LookupOfFirst | OKAlertController/Controller/OKAlertController/OKAlertControllerProxy.swift:170-175 | `self[elemType, paramType]` reads the first element of the kind |
| AlertProxy.LookupSpec | OKAlertController/Controller/OKAlertController/OKAlertControllerProxy.swift:164-175 | `self[elemType, paramType]` is nil when no element has the kind, and otherwise the first such element's `subscript(type:)`, which is a parameter of the requested kind |
| AlertProxy.ElementOfTypeSpec | OKAlertController/Controller/OKAlertController/OKAlertControllerProxy.swift:164-167 | `self[type]` returns the first element of the kind when there is one, and nil when no element has the kind |
| AlertProxy.FirstOfType | OKAlertController/Controller/OKAlertController/OKAlertControllerProxy.swift:165-167 | when an element of the kind exists, the position of the first one: it has the kind and no earlier element does |
| AlertProxy.UpdateAllKeepsTags | OKAlertController/Controller/OKAlertController/OKAlertControllerProxy.swift:181-193 | upserting the elements in place keeps every tag fresh and distinct under the same counter, so `nextTag` may be taken afterwards |
| AlertProxy.UpdatePreservesTags | OKAlertController/Controller/OKAlertController/OKAlertControllerProxy.swift:195-197 | the upsert keeps every tag in `1..lastTag` and all tags distinct, and never lowers the counter |
| AlertProxy.KeysDistinct | OKAlertController/Controller/OKAlertController/OKAlertControllerProxy.swift:56-63 | in a table with fresh tags no two elements share a key |
| AlertProxy.TextOnlyTableHasNoStyle | OKAlertController/Controller/OKAlertController/OKAlertControllerProxy.swift:170-175 | in a table holding only `.text` parameters, every lookup of another parameter kind is nil |
| AlertController.ActionElementType | OKAlertController/Controller/OKAlertController/OKAlertController.swift:311-319 | `.default` actions are customised under `allDefaultActions`, `.cancel` under `allCancelActions` and `.destructive` under `allDestructiveActions`, each exactly |
| AlertController.ColorTarget | OKAlertController/Controller/OKAlertController/OKAlertController.swift:74-261 | each colour property is stored under its own element kind, and that kind identifies the property back |
| AlertController.FontTarget | OKAlertController/Controller/OKAlertController/OKAlertController.swift:89-216 | each font property is stored under its own element kind, and that kind identifies the property back |
| AlertController.ColorRoundTrip | OKAlertController/Controller/OKAlertController/OKAlertController.swift:74-261 | a colour property's getter returns the colour last passed to its setter |
| AlertController.FontRoundTrip | OKAlertController/Controller/OKAlertController/OKAlertController.swift:89-216 | a font property's getter returns the font last passed to its setter |
| AlertController.WidthRoundTrip | OKAlertController/Controller/OKAlertController/OKAlertController.swift:264-279 | setting the border width stores `max(0, w)`: the getter reads w when w is non-negative and 0 otherwise (3 reads 3, -3 reads 0) |
| AlertController.ColorKept | OKAlertController/Controller/OKAlertController/OKAlertController.swift:74-261 | a colour property reads the same after an upsert of any other pair |
| AlertController.FontKept | OKAlertController/Controller/OKAlertController/OKAlertController.swift:89-216 | a font property reads the same after an upsert of any other pair |
| AlertController.WidthKept | OKAlertController/Controller/OKAlertController/OKAlertController.swift:268-274 | the border width reads the same after an upsert of any other pair |
| AlertController.ColorSetKeepsOthers | OKAlertController/Controller/OKAlertController/OKAlertController.swift:74-261 | setting one colour property leaves every other colour property, every font property and the border width unchanged |
| AlertController.FontSetKeepsOthers | OKAlertController/Controller/OKAlertController/OKAlertController.swift:89-216 | setting one font property leaves every other font property, every colour property and the border width unchanged |
| AlertController.WidthSetKeepsOthers | OKAlertController/Controller/OKAlertController/OKAlertController.swift:275-278 | setting the border width leaves every colour and font property unchanged |
| AlertController.UnstyledReadsDefaults | OKAlertController/Controller/OKAlertController/OKAlertController.swift:339-343 | in a table with only `.text` parameters every colour and font getter returns nil and the border width is 0 |
| AlertController.AppendTextElementKeepsLookups | OKAlertController/Controller/OKAlertController/OKAlertController.swift:321-322 | appending an element with only a `.text` parameter changes no lookup of another parameter kind |
| AlertController.AddActionKeepsStyles | OKAlertController/Controller/OKAlertController/OKAlertController.swift:321-322 | registering an action changes no colour, font or border width getter |
| AlertController.InitialTable | OKAlertController/Controller/OKAlertController/OKAlertController.swift:339-341 | on a fresh proxy the title upsert and then the message upsert each append an element, with tags 1 and 2 and one `.text` parameter each |
| AlertController.AppendActionKeepsInvariants | OKAlertController/Controller/OKAlertController/OKAlertController.swift:321-322 | registering an action with the next tag keeps tags fresh and distinct, and keeps a text-only table text-only |
| AlertController.AppendKeepsAlertRegistered | OKAlertController/Controller/OKAlertController/OKAlertController.swift:321-323 | after registering an action element and a system action titled with its key, every string handed to the system alert is still the key of an element of the matching kind |
| AlertController.UpdateKeepsRegistered | OKAlertController/Controller/OKAlertController/OKAlertControllerProxy.swift:181-198 | an upsert keeps every key registered under its kind |
| AlertController.UpdateKeepsAlertRegistered | OKAlertController/Controller/OKAlertController/OKAlertController.swift:74-279 | the property setters keep every string handed to the system alert registered as a key |
| AlertController.RegisterTitleAndMessage | OKAlertController/Controller/OKAlertController/OKAlertController.swift:339-342 | the initialiser's table: a fresh proxy with counter 2, the title element with tag 1, the message element with tag 2, and keys "1" and "2" |
| AlertController.AlertController.constructor | OKAlertController/Controller/OKAlertController/OKAlertController.swift:339-343 | `init` registers the title and then the message and creates the system alert with the keys "1" and "2" as title and message. Afterwards every colour and font getter returns nil and the border width is 0 |
| AlertController.AlertController.SetColor | OKAlertController/Controller/OKAlertController/OKAlertController.swift:74-261 | a colour setter performs the upsert of its pair, and the counter moves exactly when that upsert appends an element. Its getter then returns the new colour, and every other property reads as before |
| AlertController.AlertController.SetFont | OKAlertController/Controller/OKAlertController/OKAlertController.swift:89-216 | a font setter performs the upsert of its pair, and the counter moves exactly when that upsert appends an element. Its getter then returns the new font, and every other property reads as before |
| AlertController.AlertController.SetBorderWidth | OKAlertController/Controller/OKAlertController/OKAlertController.swift:268-279 | the border width setter upserts `max(0, w)` under (border, width), and the counter moves exactly when that upsert appends an element. The getter then reads it, and every colour and font reads as before |
| AlertController.AlertController.AddAction | OKAlertController/Controller/OKAlertController/OKAlertController.swift:310-324 | `addAction` takes the next tag and appends exactly one element of the style's kind, with the title as its only `.text` parameter. It adds a system action titled with that element's key, not with the caller's string. No colour, font or width changes, and no other parameter kind appears |

## Left out

- The transition-delegate forwarding in OKAlertControllerProxy.swift is not modelled: `prepareAlert`, `cleanup`, the animation and interaction controller methods, and the transitioning callbacks. These are UIKit lifecycle callbacks on foreign objects.
- The view-tree walk is not modelled: `processSubviews`, `applySettings`, `processCollectionView`, the proxy's `processLabel` and `layoutSubviews`. It walks and mutates private UIKit views. Only the element's matching rule and label update are modelled.
- AlertElement.ProcessLabel: the `setNeedsLayout`/`setNeedsDisplay` calls and the iOS version check are not modelled. Setting `attributedText` is taken to set the label's text to the string's text, as UIKit does.
- AlertController.AlertController.SetBorderWidth: `CGFloat`, `Float` and `NSNumber` are modelled as a real number. The float round trip and its rounding are not modelled; only the `max(0, ·)` clamp is.
- `show(fromController:animated:)` is not modelled: it is a presentation call into UIKit. The action handler closures are not modelled either: the system alert is kept only as the titles, styles and actions handed to it.
- The parameter class `OKAlertControllerParam` is not part of this model. A parameter is a kind and an optional value. `getValue()` is the typed extraction. The parameter kinds are limited to the four the core uses.
- `title as AnyObject` for a nil title in `addAction` is modelled as an absent value.
- AlertProxy.Proxy.UpdateTypeValue: the returned element is a value equal to the element at the reported position; that the caller could later mutate it through the reference is not modelled. Tags are unbounded integers, so `Int` overflow of the counter is not modelled.
- AlertProxy.Proxy.UpdateTypeValue: the loop is proved against the reference function `Updated`. The Swift loop mutates the element objects it filtered, which are the same objects the table holds. The model instead writes each upserted element back at its position.
- AlertElement.Matches: strings are compared as sequences of characters. Swift's `String ==` uses canonical equivalence, which is not modelled.
- AlertController.AlertController.constructor: `preferredStyle` is an explicit argument. Swift's default of `.alert` is not modelled.
- MyMinimalisticAlertController.swift, MyFont.swift and MyColors.swift are not part of this model: they are a script of setter calls, font loading and colour constants.

/**
 * The settings table the alert wrapper keeps: an ordered list of elements,
 * each with a unique tag drawn from a counter, and the upsert that stores a
 * parameter value for every element of a kind.
 */
module AlertProxy {
  import opened Wrappers
  import opened AlertParam
  import opened AlertElement

  // ---------------------------------------------------------------------------
  // Lookups
  // ---------------------------------------------------------------------------

  /** Element `i` is the first one of kind `t`. */
  predicate IsFirstOfKind(es: seq<Element>, t: ElementType, i: int)
  {
    0 <= i < |es| && es[i].kind == t && forall j :: 0 <= j < i ==> es[j].kind != t
  }

  /** The first element of kind `t` (`subscript(type:)`), or None. */
  function ElementOfType(es: seq<Element>, t: ElementType): Option<Element>
  {
    FindFirst(es, (e: Element) => e.kind == t)
  }

  /**
   * The parameter of kind `pt` of the first element of kind `t`
   * (`subscript(elemType:paramType:)`): None when there is no element of kind
   * `t`, otherwise that element's first parameter of kind `pt`, if any.
   */
  function Lookup(es: seq<Element>, t: ElementType, pt: ParamType): Option<Param>
  {
    match ElementOfType(es, t)
    case Some(e) => e.ParamOfType(pt)
    case None => None
  }

  /** The value stored under (`t`, `pt`), as `self[t, pt]?.value` reads it. */
  function ValueAt(es: seq<Element>, t: ElementType, pt: ParamType): Option<Value>
  {
    match Lookup(es, t, pt)
    case Some(p) => p.value
    case None => None
  }

  // ---------------------------------------------------------------------------
  // Reference definition of the upsert
  // ---------------------------------------------------------------------------

  predicate HasParam(ps: seq<Param>, pt: ParamType)
  {
    exists i :: 0 <= i < |ps| && ps[i].kind == pt
  }

  /** Every parameter of kind `pt` now holds `v`; the others are untouched. */
  function SetValues(ps: seq<Param>, pt: ParamType, v: Option<Value>): seq<Param>
  {
    seq(|ps|, i requires 0 <= i < |ps| => if ps[i].kind == pt then ps[i].(value := v) else ps[i])
  }

  /** One element after the upsert: its `pt` parameters updated, or a new one appended. */
  function UpdateElement(e: Element, pt: ParamType, v: Option<Value>): Element
  {
    if HasParam(e.params, pt) then e.(params := SetValues(e.params, pt, v))
    else e.(params := e.params + [Param(pt, v)])
  }

  /** `e` is of kind `t` and has no parameter of kind `pt`. */
  predicate Lacks(e: Element, t: ElementType, pt: ParamType)
  {
    e.kind == t && !HasParam(e.params, pt)
  }

  /** Some element of kind `t` has no parameter of kind `pt`. */
  predicate SomeLacks(es: seq<Element>, t: ElementType, pt: ParamType)
  {
    exists i :: 0 <= i < |es| && Lacks(es[i], t, pt)
  }

  /** `k` is the last element of kind `t` lacking a `pt` parameter among the first `n`. */
  predicate IsLastLacking(es: seq<Element>, t: ElementType, pt: ParamType, k: int, n: int)
    requires n <= |es|
  {
    0 <= k < n && Lacks(es[k], t, pt) && forall j :: k < j < n ==> !Lacks(es[j], t, pt)
  }

  /** The position of the last element among the first `n` that lacks a `pt` parameter, or -1. */
  function LastLacking(es: seq<Element>, t: ElementType, pt: ParamType, n: int): (k: int)
    requires 0 <= n <= |es|
    ensures -1 <= k < n
  {
    if n == 0 then -1
    else if Lacks(es[n - 1], t, pt) then n - 1
    else LastLacking(es, t, pt, n - 1)
  }

  /** The elements of kind `t` upserted in place, the others unchanged. */
  function UpdateAll(es: seq<Element>, t: ElementType, pt: ParamType, v: Option<Value>): seq<Element>
  {
    seq(|es|, i requires 0 <= i < |es| => if es[i].kind == t then UpdateElement(es[i], pt, v) else es[i])
  }

  /**
   * The table after `updateTypeValue(t, pt, v)` on `es` with counter `lastTag`:
   * every element of kind `t` upserted, and one new element with the next tag
   * appended when no element received a new parameter.
   */
  function Updated(es: seq<Element>, lastTag: int, t: ElementType, pt: ParamType, v: Option<Value>): seq<Element>
  {
    if SomeLacks(es, t, pt) then UpdateAll(es, t, pt, v)
    else UpdateAll(es, t, pt, v) + [Element(t, lastTag + 1, [Param(pt, v)])]
  }

  /** The counter after the upsert. */
  function TagAfterUpdate(es: seq<Element>, lastTag: int, t: ElementType, pt: ParamType): int
  {
    if SomeLacks(es, t, pt) then lastTag else lastTag + 1
  }

  /** Every tag lies in 1..lastTag and no two elements share one. */
  ghost predicate TagsFresh(es: seq<Element>, lastTag: int)
  {
    && lastTag >= 0
    && (forall i :: 0 <= i < |es| ==> 1 <= es[i].tag <= lastTag)
    && (forall i, j :: 0 <= i < |es| && 0 <= j < |es| && i != j ==> es[i].tag != es[j].tag)
  }

  /** Only `.text` parameters anywhere in the table. */
  ghost predicate OnlyTextParams(es: seq<Element>)
  {
    forall i, j :: 0 <= i < |es| && 0 <= j < |es[i].params| ==> es[i].params[j].kind == TextParam
  }

  // ---------------------------------------------------------------------------
  // The proxy object
  // ---------------------------------------------------------------------------

  class Proxy {
    /** Last tag handed out; read through NextTag. */
    var lastTag: int

    /** The customisable alert elements, in registration order. */
    var elements: seq<Element>

    ghost predicate Valid()
      reads this
    {
      TagsFresh(elements, lastTag)
    }

    constructor ()
      ensures Valid()
      ensures lastTag == 0 && elements == []
    {
      lastTag := 0;
      elements := [];
    }

    /** Increments the counter and returns its new value. */
    method NextTag() returns (tag: int)
      requires Valid()
      modifies this`lastTag
      ensures Valid()
      ensures lastTag == old(lastTag) + 1
      ensures tag == lastTag
    {
      lastTag := lastTag + 1;
      tag := lastTag;
    }

    /**
     * Stores `v` in every `pt` parameter of every element of kind `t`,
     * appending a `pt` parameter to each such element that has none; when no
     * element received a new parameter (in particular when there is no element
     * of kind `t`), appends a new element with the next tag whose only
     * parameter is (`pt`, `v`). Returns the last element that received a new
     * parameter, or else the new element.
     */
    method UpdateTypeValue(t: ElementType, pt: ParamType, v: Option<Value>) returns (result: Element)
      requires Valid()
      modifies this
      ensures Valid()
      ensures elements == Updated(old(elements), old(lastTag), t, pt, v)
      ensures lastTag == TagAfterUpdate(old(elements), old(lastTag), t, pt)
      ensures SomeLacks(old(elements), t, pt) ==>
        exists k :: IsLastLacking(old(elements), t, pt, k, |old(elements)|) && result == elements[k]
      ensures SomeLacks(old(elements), t, pt) ==>
        |result.params| > 0 && result.params[|result.params| - 1] == Param(pt, v)
      ensures !SomeLacks(old(elements), t, pt) ==>
        result == Element(t, old(lastTag) + 1, [Param(pt, v)]) && result == elements[|elements| - 1]
    {
      ghost var es0 := elements;
      UpdatePreservesTags(es0, lastTag, t, pt, v);
      UpdatedSplit(es0, lastTag, t, pt, v);
      LastLackingIsLast(es0, t, pt, |es0|);
      var es, updatedElem, at := UpsertAll(elements, t, pt, v);
      elements := es;
      if updatedElem {
        result := elements[at];
        UpdateElementFrame(es0[at], pt, v);
      } else {
        UpdateAllKeepsTags(es0, lastTag, t, pt, v);
        var tag := NextTag();
        result := NewElementWithParam(t, tag, Param(pt, v));
        elements := elements + [result];
      }
      // These two restate postconditions; stating them outright keeps the proof cheap.
      assert elements == Updated(es0, old(lastTag), t, pt, v);
      assert lastTag == TagAfterUpdate(es0, old(lastTag), t, pt);
    }
  }

  /**
   * The loop of the upsert over the table: every element of kind `t` gets its
   * `pt` parameters set to `v`, or a new (`pt`, `v`) parameter when it has
   * none. Reports whether some element received a new parameter and the
   * position of the last such element, the one the upsert returns.
   */
  method UpsertAll(es0: seq<Element>, t: ElementType, pt: ParamType, v: Option<Value>)
    returns (es: seq<Element>, updatedElem: bool, at: int)
    ensures es == UpdateAll(es0, t, pt, v)
    ensures at == LastLacking(es0, t, pt, |es0|)
    ensures updatedElem <==> at >= 0
  {
    ghost var done := UpdateAll(es0, t, pt, v);
    es := es0;
    updatedElem := false;
    at := -1;
    for i := 0 to |es0|
      invariant |es| == |es0| == |done|
      invariant forall k :: 0 <= k < i ==> es[k] == done[k]
      invariant forall k :: i <= k < |es0| ==> es[k] == es0[k]
      invariant updatedElem <==> at >= 0
      invariant at == LastLacking(es0, t, pt, i)
    {
      var elem := es0[i];
      UpsertStep(es0, t, pt, v, i);
      if elem.kind == t {
        var upserted, appended := UpsertElement(elem, pt, v);
        if appended {
          updatedElem := true;
          at := i;
        }
        es := es[i := upserted];
      }
    }
    assert es == done;
  }

  /** One step of the upsert loop: what position `i` becomes, and how the last lacking position moves. */
  lemma UpsertStep(es: seq<Element>, t: ElementType, pt: ParamType, v: Option<Value>, i: int)
    requires 0 <= i < |es|
    ensures UpdateAll(es, t, pt, v)[i] == if es[i].kind == t then UpdateElement(es[i], pt, v) else es[i]
    ensures LastLacking(es, t, pt, i + 1) == if Lacks(es[i], t, pt) then i else LastLacking(es, t, pt, i)
  {
  }

  /** Upserting the elements in place keeps the tags fresh under the same counter. */
  lemma UpdateAllKeepsTags(es: seq<Element>, lastTag: int, t: ElementType, pt: ParamType, v: Option<Value>)
    requires TagsFresh(es, lastTag)
    ensures TagsFresh(UpdateAll(es, t, pt, v), lastTag)
  {
    var u := UpdateAll(es, t, pt, v);
    assert forall i :: 0 <= i < |u| ==> u[i].tag == es[i].tag;
  }

  /** The upsert's two outcomes: the table upserted in place, or that plus one new element. */
  lemma UpdatedSplit(es: seq<Element>, lastTag: int, t: ElementType, pt: ParamType, v: Option<Value>)
    ensures SomeLacks(es, t, pt) ==> Updated(es, lastTag, t, pt, v) == UpdateAll(es, t, pt, v)
    ensures !SomeLacks(es, t, pt) ==>
      Updated(es, lastTag, t, pt, v) == UpdateAll(es, t, pt, v) + [Element(t, lastTag + 1, [Param(pt, v)])]
  {
  }

  /** `LastLacking` finds an element lacking the parameter exactly when there is one, and it is the last. */
  lemma {:induction false} LastLackingIsLast(es: seq<Element>, t: ElementType, pt: ParamType, n: int)
    requires 0 <= n <= |es|
    ensures LastLacking(es, t, pt, n) >= 0 <==> exists k :: 0 <= k < n && Lacks(es[k], t, pt)
    ensures LastLacking(es, t, pt, n) >= 0 ==> IsLastLacking(es, t, pt, LastLacking(es, t, pt, n), n)
    decreases n
  {
    if n > 0 {
      LastLackingIsLast(es, t, pt, n - 1);
    }
  }

  /** One element of kind `t` upserted: its `pt` parameters set, or one appended when it has none. */
  method UpsertElement(e: Element, pt: ParamType, v: Option<Value>) returns (r: Element, appended: bool)
    ensures r == UpdateElement(e, pt, v)
    ensures appended <==> !HasParam(e.params, pt)
  {
    var params, updatedParam := AssignValues(e.params, pt, v);
    if !updatedParam {
      params := e.params + [Param(pt, v)];
    }
    r := e.(params := params);
    appended := !updatedParam;
  }

  /** The inner loop of the upsert: every `pt` parameter gets value `v`. */
  method AssignValues(ps: seq<Param>, pt: ParamType, v: Option<Value>) returns (r: seq<Param>, updated: bool)
    ensures r == SetValues(ps, pt, v)
    ensures updated <==> HasParam(ps, pt)
  {
    r := ps;
    updated := false;
    for j := 0 to |ps|
      invariant |r| == |ps|
      invariant forall k :: 0 <= k < j ==> r[k] == (if ps[k].kind == pt then ps[k].(value := v) else ps[k])
      invariant forall k :: j <= k < |ps| ==> r[k] == ps[k]
      invariant updated <==> exists k :: 0 <= k < j && ps[k].kind == pt
    {
      if r[j].kind == pt {
        r := r[j := r[j].(value := v)];
        updated := true;
      }
    }
  }

  // ---------------------------------------------------------------------------
  // Properties of the upsert
  // ---------------------------------------------------------------------------

  /**
   * `after` is `before` with only `pt` parameters changed (kinds kept) and at
   * most one (`pt`, `v`) parameter appended.
   */
  ghost predicate ParamsFrame(before: seq<Param>, after: seq<Param>, pt: ParamType, v: Option<Value>)
  {
    && |before| <= |after| <= |before| + 1
    && (forall j :: 0 <= j < |before| ==>
          after[j].kind == before[j].kind && (before[j].kind != pt ==> after[j] == before[j]))
    && (forall j :: |before| <= j < |after| ==> after[j] == Param(pt, v))
  }

  /** The upsert of one element keeps its kind and tag, touches only `pt` parameters and appends at most one. */
  lemma UpdateElementFrame(e: Element, pt: ParamType, v: Option<Value>)
    ensures UpdateElement(e, pt, v).kind == e.kind && UpdateElement(e, pt, v).tag == e.tag
    ensures ParamsFrame(e.params, UpdateElement(e, pt, v).params, pt, v)
    ensures |UpdateElement(e, pt, v).params| == |e.params| + 1 <==> !HasParam(e.params, pt)
    ensures forall j :: 0 <= j < |UpdateElement(e, pt, v).params| && UpdateElement(e, pt, v).params[j].kind == pt ==>
      UpdateElement(e, pt, v).params[j] == Param(pt, v)
    ensures HasParam(UpdateElement(e, pt, v).params, pt)
  {
    var u := UpdateElement(e, pt, v);
    if HasParam(e.params, pt) {
      var k :| 0 <= k < |e.params| && e.params[k].kind == pt;
      assert u.params[k].kind == pt;
    } else {
      assert u.params[|e.params|].kind == pt;
    }
  }

  /** After the upsert, an element's first `pt` parameter is (`pt`, `v`). */
  lemma UpdateElementLookup(e: Element, pt: ParamType, v: Option<Value>)
    ensures UpdateElement(e, pt, v).ParamOfType(pt) == Some(Param(pt, v))
  {
    var u := UpdateElement(e, pt, v);
    UpdateElementFrame(e, pt, v);
    ParamOfTypeSpec(e, pt);
    match e.ParamOfType(pt)
    case None =>
      ParamOfTypeAt(u, pt, |e.params|);
    case Some(p) =>
      var k :| 0 <= k < |e.params| && e.params[k] == p && p.kind == pt &&
        forall j :: 0 <= j < k ==> e.params[j].kind != pt;
      ParamOfTypeAt(u, pt, k);
  }

  /** The upsert of `pt` leaves an element's lookup of any other kind as it was. */
  lemma UpdateElementOtherLookup(e: Element, pt: ParamType, v: Option<Value>, other: ParamType)
    requires other != pt
    ensures UpdateElement(e, pt, v).ParamOfType(other) == e.ParamOfType(other)
  {
    var u := UpdateElement(e, pt, v);
    UpdateElementFrame(e, pt, v);
    ParamOfTypeSpec(e, other);
    match e.ParamOfType(other)
    case None =>
      ParamOfTypeNone(u, other);
    case Some(p) =>
      var k :| 0 <= k < |e.params| && e.params[k] == p && p.kind == other &&
        forall j :: 0 <= j < k ==> e.params[j].kind != other;
      ParamOfTypeAt(u, other, k);
  }

  /**
   * The upsert never removes or reorders elements, changes no element's kind
   * or tag, leaves elements of other kinds and parameters of other kinds
   * alone, and grows the table by at most one element at the end.
   */
  lemma UpdateFrame(es: seq<Element>, lastTag: int, t: ElementType, pt: ParamType, v: Option<Value>)
    ensures |Updated(es, lastTag, t, pt, v)| == if SomeLacks(es, t, pt) then |es| else |es| + 1
    ensures forall i :: 0 <= i < |es| ==>
      Updated(es, lastTag, t, pt, v)[i].kind == es[i].kind && Updated(es, lastTag, t, pt, v)[i].tag == es[i].tag
    ensures forall i :: 0 <= i < |es| && es[i].kind != t ==> Updated(es, lastTag, t, pt, v)[i] == es[i]
    ensures forall i :: 0 <= i < |es| ==> ParamsFrame(es[i].params, Updated(es, lastTag, t, pt, v)[i].params, pt, v)
  {
    var u := Updated(es, lastTag, t, pt, v);
    UpdatedSplit(es, lastTag, t, pt, v);
    forall i | 0 <= i < |es|
      ensures u[i].kind == es[i].kind && u[i].tag == es[i].tag
      ensures es[i].kind != t ==> u[i] == es[i]
      ensures ParamsFrame(es[i].params, u[i].params, pt, v)
    {
      UpdatedAt(es, lastTag, t, pt, v, i);
      if es[i].kind == t {
        UpdateElementFrame(es[i], pt, v);
      }
    }
  }

  /** After the upsert every element of kind `t` has a `pt` parameter, and every one holds `v`. */
  lemma UpdateStoresEverywhere(es: seq<Element>, lastTag: int, t: ElementType, pt: ParamType, v: Option<Value>)
    ensures var u := Updated(es, lastTag, t, pt, v);
      forall i :: 0 <= i < |u| && u[i].kind == t ==>
        HasParam(u[i].params, pt) &&
        forall j :: 0 <= j < |u[i].params| && u[i].params[j].kind == pt ==> u[i].params[j].value == v
  {
    var u := Updated(es, lastTag, t, pt, v);
    forall i | 0 <= i < |u| && u[i].kind == t
      ensures HasParam(u[i].params, pt)
    {
      if i < |es| {
        if !HasParam(es[i].params, pt) {
          assert u[i].params[|es[i].params|].kind == pt;
        } else {
          var k :| 0 <= k < |es[i].params| && es[i].params[k].kind == pt;
          assert u[i].params[k].kind == pt;
        }
      } else {
        assert u[i].params[0].kind == pt;
      }
    }
  }

  /** The upsert seen at one index of the table. */
  lemma UpdatedAt(es: seq<Element>, lastTag: int, t: ElementType, pt: ParamType, v: Option<Value>, i: int)
    requires 0 <= i <= |es|
    requires i == |es| ==> !SomeLacks(es, t, pt)
    ensures i < |Updated(es, lastTag, t, pt, v)|
    ensures i < |es| ==> Updated(es, lastTag, t, pt, v)[i] == if es[i].kind == t then UpdateElement(es[i], pt, v) else es[i]
    ensures i == |es| ==> Updated(es, lastTag, t, pt, v)[i] == Element(t, lastTag + 1, [Param(pt, v)])
  {
  }

  /** The upsert keeps the kind and tag at every index, and the appended element has kind `t`. */
  lemma UpdatedKindAt(es: seq<Element>, lastTag: int, t: ElementType, pt: ParamType, v: Option<Value>, i: int)
    requires 0 <= i < |Updated(es, lastTag, t, pt, v)|
    ensures i < |es| ==> Updated(es, lastTag, t, pt, v)[i].kind == es[i].kind
    ensures i < |es| ==> Updated(es, lastTag, t, pt, v)[i].tag == es[i].tag
    ensures i >= |es| ==> Updated(es, lastTag, t, pt, v)[i].kind == t
  {
    UpdatedSplit(es, lastTag, t, pt, v);
    if i < |es| {
      assert Updated(es, lastTag, t, pt, v)[i] == UpdateAll(es, t, pt, v)[i];
    }
  }

  /** Reading (`t`, `pt`) right after storing `v` there yields `v`. */
  lemma UpdateThenLookup(es: seq<Element>, lastTag: int, t: ElementType, pt: ParamType, v: Option<Value>)
    ensures Lookup(Updated(es, lastTag, t, pt, v), t, pt) == Some(Param(pt, v))
  {
    if exists i :: 0 <= i < |es| && es[i].kind == t {
      var k := FirstOfType(es, t);
      UpdateElementLookup(es[k], pt, v);
      LookupAfterUpdateAt(es, lastTag, t, pt, v, k, pt);
    } else {
      LookupAfterUpdateAppended(es, lastTag, t, pt, v, pt);
    }
  }

  /** Storing under (`t`, `pt`) does not change what any other pair reads. */
  lemma UpdateKeepsOtherLookups(es: seq<Element>, lastTag: int, t: ElementType, pt: ParamType, v: Option<Value>,
                                t': ElementType, pt': ParamType)
    requires t' != t || pt' != pt
    ensures Lookup(Updated(es, lastTag, t, pt, v), t', pt') == Lookup(es, t', pt')
  {
    if exists i :: 0 <= i < |es| && es[i].kind == t' {
      var k := FirstOfType(es, t');
      LookupOfFirst(es, t', pt', k);
      if t' == t {
        UpdateElementOtherLookup(es[k], pt, v, pt');
        LookupAfterUpdateAt(es, lastTag, t, pt, v, k, pt');
      } else {
        LookupAfterUpdateAt(es, lastTag, t, pt, v, k, pt');
      }
    } else if t' == t {
      LookupAfterUpdateAppended(es, lastTag, t, pt, v, pt');
      LookupOfAbsent(es, t', pt');
    } else {
      LookupAfterUpdateAbsent(es, lastTag, t, pt, v, t', pt');
      LookupOfAbsent(es, t', pt');
    }
  }

  /** A kind other than `t` that no element has is still absent after the upsert. */
  lemma LookupAfterUpdateAbsent(es: seq<Element>, lastTag: int, t: ElementType, pt: ParamType, v: Option<Value>,
                                t': ElementType, q: ParamType)
    requires t' != t
    requires forall i :: 0 <= i < |es| ==> es[i].kind != t'
    ensures Lookup(Updated(es, lastTag, t, pt, v), t', q) == None
  {
    var u := Updated(es, lastTag, t, pt, v);
    forall j | 0 <= j < |u|
      ensures u[j].kind != t'
    {
      UpdatedKindAt(es, lastTag, t, pt, v, j);
    }
    LookupOfAbsent(u, t', q);
  }

  /** When element `k` is the first of its kind, it still is after the upsert, and the lookup reads it. */
  lemma LookupAfterUpdateAt(es: seq<Element>, lastTag: int, t: ElementType, pt: ParamType, v: Option<Value>,
                            k: int, q: ParamType)
    requires 0 <= k < |es| && forall j :: 0 <= j < k ==> es[j].kind != es[k].kind
    ensures Lookup(Updated(es, lastTag, t, pt, v), es[k].kind, q) ==
      (if es[k].kind == t then UpdateElement(es[k], pt, v) else es[k]).ParamOfType(q)
  {
    var u := Updated(es, lastTag, t, pt, v);
    var x := if es[k].kind == t then UpdateElement(es[k], pt, v) else es[k];
    assert k < |u| && u[k] == x && x.kind == es[k].kind by {
      UpdatedAt(es, lastTag, t, pt, v, k);
    }
    assert IsFirstOfKind(u, x.kind, k) by {
      forall j | 0 <= j < k
        ensures u[j].kind != x.kind
      {
        UpdatedKindAt(es, lastTag, t, pt, v, j);
      }
    }
    LookupOfFirst(u, x.kind, q, k);
  }

  /** When no element has kind `t`, the lookup under `t` reads the appended element. */
  lemma LookupAfterUpdateAppended(es: seq<Element>, lastTag: int, t: ElementType, pt: ParamType, v: Option<Value>,
                                  q: ParamType)
    requires forall i :: 0 <= i < |es| ==> es[i].kind != t
    ensures Lookup(Updated(es, lastTag, t, pt, v), t, q) == if q == pt then Some(Param(pt, v)) else None
  {
    var u := Updated(es, lastTag, t, pt, v);
    var n := |es|;
    assert !SomeLacks(es, t, pt);
    forall j | 0 <= j < n
      ensures u[j].kind != t
    {
      UpdatedAt(es, lastTag, t, pt, v, j);
    }
    UpdatedAt(es, lastTag, t, pt, v, n);
    assert IsFirstOfKind(u, t, n);
    LookupOfFirst(u, t, q, n);
    if q == pt {
      ParamOfTypeAt(u[n], q, 0);
    } else {
      ParamOfTypeNone(u[n], q);
    }
  }

  /** Without an element of the kind, the lookup finds nothing. */
  lemma LookupOfAbsent(es: seq<Element>, t: ElementType, q: ParamType)
    requires forall i :: 0 <= i < |es| ==> es[i].kind != t
    ensures Lookup(es, t, q) == None
  {
    FindFirstNone(es, (e: Element) => e.kind == t);
  }

  /** The lookup reads the first element of the kind. */
  lemma LookupOfFirst(es: seq<Element>, t: ElementType, q: ParamType, k: int)
    requires IsFirstOfKind(es, t, k)
    ensures Lookup(es, t, q) == es[k].ParamOfType(q)
  {
    FindFirstAt(es, (e: Element) => e.kind == t, k);
  }

  /**
   * `subscript(elemType:paramType:)` finds nothing when no element has kind
   * `t`; otherwise it reads the first element of kind `t`, and what it finds
   * is a parameter of kind `pt`.
   */
  lemma LookupSpec(es: seq<Element>, t: ElementType, pt: ParamType)
    ensures (forall i :: 0 <= i < |es| ==> es[i].kind != t) ==> Lookup(es, t, pt) == None
    ensures forall i :: IsFirstOfKind(es, t, i) ==> Lookup(es, t, pt) == es[i].ParamOfType(pt)
    ensures Lookup(es, t, pt).Some? ==> Lookup(es, t, pt).value.kind == pt
  {
    if exists i :: 0 <= i < |es| && es[i].kind == t {
      var k := FirstOfType(es, t);
      LookupOfFirst(es, t, pt, k);
      ParamOfTypeSpec(es[k], pt);
      forall i | IsFirstOfKind(es, t, i)
        ensures i == k
      {
        assert !(i < k) && !(k < i);
      }
    } else {
      LookupOfAbsent(es, t, pt);
    }
  }

  /**
   * `subscript(type:)` returns the first element of kind `t` when there is
   * one, and nil when no element has kind `t`.
   */
  lemma ElementOfTypeSpec(es: seq<Element>, t: ElementType)
    ensures (exists i :: 0 <= i < |es| && es[i].kind == t) ==> ElementOfType(es, t) == Some(es[FirstOfType(es, t)])
    ensures (forall i :: 0 <= i < |es| ==> es[i].kind != t) ==> ElementOfType(es, t) == None
  {
    if exists i :: 0 <= i < |es| && es[i].kind == t {
      FindFirstAt(es, (e: Element) => e.kind == t, FirstOfType(es, t));
    } else {
      FindFirstNone(es, (e: Element) => e.kind == t);
    }
  }

  /** The index of the first element of kind `t`, when there is one. */
  function FirstOfType(es: seq<Element>, t: ElementType): (k: int)
    requires exists i :: 0 <= i < |es| && es[i].kind == t
    ensures IsFirstOfKind(es, t, k)
  {
    if es[0].kind == t then 0
    else
      var i :| 0 <= i < |es| && es[i].kind == t;
      assert es[1..][i - 1].kind == t;
      1 + FirstOfType(es[1..], t)
  }

  /** The upsert keeps tags fresh and unique, and the counter never goes down. */
  lemma UpdatePreservesTags(es: seq<Element>, lastTag: int, t: ElementType, pt: ParamType, v: Option<Value>)
    requires TagsFresh(es, lastTag)
    ensures TagsFresh(Updated(es, lastTag, t, pt, v), TagAfterUpdate(es, lastTag, t, pt))
    ensures TagAfterUpdate(es, lastTag, t, pt) >= lastTag
  {
    UpdateFrame(es, lastTag, t, pt, v);
  }

  /** Under fresh tags, no two elements share a key. */
  lemma KeysDistinct(es: seq<Element>, lastTag: int)
    requires TagsFresh(es, lastTag)
    ensures forall i, j :: 0 <= i < |es| && 0 <= j < |es| && i != j ==> es[i].Key() != es[j].Key()
  {
    forall i, j | 0 <= i < |es| && 0 <= j < |es| && i != j
      ensures es[i].Key() != es[j].Key()
    {
      KeysUnique(es[i], es[j]);
    }
  }

  /** A table holding only `.text` parameters has no colour, font or width settings. */
  lemma TextOnlyTableHasNoStyle(es: seq<Element>, t: ElementType, pt: ParamType)
    requires OnlyTextParams(es)
    requires pt != TextParam
    ensures Lookup(es, t, pt) == None
  {
    if exists i :: 0 <= i < |es| && es[i].kind == t {
      var k := FirstOfType(es, t);
      LookupOfFirst(es, t, pt, k);
      assert forall j :: 0 <= j < |es[k].params| ==> es[k].params[j].kind != pt;
      ParamOfTypeNone(es[k], pt);
    } else {
      LookupOfAbsent(es, t, pt);
    }
  }
}

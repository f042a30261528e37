/** The listener registry: what `on` adds to it and what each form of `off`
    removes from it, as functions of the registry before the call. */
module Listeners {
  import opened JsValues

  /** An observer as stored: `on` keeps it only when `typeof` says "object",
      which includes `null`. */
  type ObserverValue = v: Value | v.Null? || v.Obj? witness Null

  /** One `{listener, observer}` record in an event's list. */
  datatype Subscription = Subscription(listener: Closure, observer: ObserverValue)

  /** The `__events` dictionary: event name to its list of subscriptions. */
  type Registry = map<string, seq<Subscription>>

  function Lookup(reg: Registry, event: string): seq<Subscription>
  {
    if event in reg then reg[event] else []
  }

  /** `typeof observer === 'object' ? observer : null` */
  function NormalizeObserver(v: Value): (r: ObserverValue)
    ensures IsObject(v) ==> r == v
    ensures !IsObject(v) ==> r == Null
  {
    if IsObject(v) then v else Null
  }

  /** The registry after `on(event, listener, observer)`. */
  function OnSpec(reg: Registry, event: Value, listener: Value, observer: Value): (r: Registry)
    ensures IsString(event) && IsFunction(listener) ==>
      && event.s in r
      && r[event.s] == Lookup(reg, event.s) + [Subscription(listener.f, NormalizeObserver(observer))]
      && (forall k :: k != event.s ==> (k in r <==> k in reg))
      && (forall k :: k in reg && k != event.s ==> r[k] == reg[k])
    ensures !(IsString(event) && IsFunction(listener)) ==> r == reg
  {
    if IsString(event) && IsFunction(listener) then
      reg[event.s := Lookup(reg, event.s) + [Subscription(listener.f, NormalizeObserver(observer))]]
    else
      reg
  }

  // ---------------------------------------------------------------------------
  // Argument classification of `off`

  /** The three locals `event`, `listener` and `observer` that `off` derives
      from its arguments; `Bool(false)` stands for the literal `false`. */
  datatype OffArgs = OffArgs(event: Value, listener: Value, observer: Value)

  function ClassifyOff(args: seq<Value>): OffArgs
  {
    var a0, a1, a2 := ArgAt(args, 0), ArgAt(args, 1), ArgAt(args, 2);
    OffArgs(
      if IsString(a0) then a0 else Bool(false),
      if IsFunction(a0) then a0 else if IsFunction(a1) then a1 else Bool(false),
      if IsObject(a0) then a0
      else if IsObject(a1) then a1
      else if IsObject(a2) then a2
      else Bool(false))
  }

  /** The event is the first argument if it is a string; the listener is the
      first function among the first two arguments (a function in third
      place is ignored); the observer is the first "object", which includes
      `null`, among the first three. */
  lemma OffArgumentsPickFirst(args: seq<Value>)
    ensures var c := ClassifyOff(args);
      && (IsString(ArgAt(args, 0)) ==> c.event == ArgAt(args, 0))
      && (!IsString(ArgAt(args, 0)) ==> c.event == Bool(false))
    ensures var c := ClassifyOff(args);
      && (IsFunction(ArgAt(args, 0)) ==> c.listener == ArgAt(args, 0))
      && (!IsFunction(ArgAt(args, 0)) && IsFunction(ArgAt(args, 1)) ==> c.listener == ArgAt(args, 1))
      && (!IsFunction(ArgAt(args, 0)) && !IsFunction(ArgAt(args, 1)) ==> c.listener == Bool(false))
    ensures var c := ClassifyOff(args);
      && (IsObject(ArgAt(args, 0)) ==> c.observer == ArgAt(args, 0))
      && (!IsObject(ArgAt(args, 0)) && IsObject(ArgAt(args, 1)) ==> c.observer == ArgAt(args, 1))
      && (!IsObject(ArgAt(args, 0)) && !IsObject(ArgAt(args, 1)) && IsObject(ArgAt(args, 2)) ==>
            c.observer == ArgAt(args, 2))
      && (!IsObject(ArgAt(args, 0)) && !IsObject(ArgAt(args, 1)) && !IsObject(ArgAt(args, 2)) ==>
            c.observer == Bool(false))
  {
  }

  /** The five branches of `off`. */
  datatype OffForm =
    | EventBoth     // event, listener and observer: remove entries matching both
    | EventEither   // event and one of them: remove entries matching either
    | EventDelete   // event alone: delete the key
    | GlobalEither  // no event: remove from every list entries matching either
    | DeleteAll     // nothing usable: delete every key

  function FormOf(c: OffArgs): OffForm
  {
    if IsString(c.event) then
      if IsFunction(c.listener) && IsObject(c.observer) then EventBoth
      else if IsFunction(c.listener) || IsObject(c.observer) then EventEither
      else EventDelete
    else if IsFunction(c.listener) || IsObject(c.observer) then GlobalEither
    else DeleteAll
  }

  /** The removal test of a branch: `===` on the stored listener and observer,
      conjunctive or disjunctive. */
  datatype Filter = Filter(listener: Value, observer: Value, both: bool)

  function FilterOf(c: OffArgs): Filter
  {
    Filter(c.listener, c.observer, FormOf(c) == EventBoth)
  }

  predicate Hits(f: Filter, sub: Subscription)
  {
    if f.both then Func(sub.listener) == f.listener && sub.observer == f.observer
    else Func(sub.listener) == f.listener || sub.observer == f.observer
  }

  /** The entries of `list` that a filter does not hit, in their order. */
  function Survivors(list: seq<Subscription>, f: Filter): (r: seq<Subscription>)
    ensures |r| <= |list|
  {
    if list == [] then []
    else (if Hits(f, list[0]) then [] else [list[0]]) + Survivors(list[1..], f)
  }

  /** Every list of the registry filtered; no key is added or deleted. */
  function FilterAll(reg: Registry, f: Filter): (r: Registry)
    ensures r.Keys == reg.Keys
    ensures forall k :: k in reg ==> r[k] == Survivors(reg[k], f)
  {
    map k | k in reg :: Survivors(reg[k], f)
  }

  /** The per-event branches read `listeners.length` from the event's entry,
      which fails when there is none. */
  predicate FailsOnMissingKey(reg: Registry, c: OffArgs)
  {
    (FormOf(c) == EventBoth || FormOf(c) == EventEither) && c.event.s !in reg
  }

  /** The registry after `off(args...)`, or `None` when `off` throws a
      `TypeError`. */
  function OffSpec(reg: Registry, args: seq<Value>): (r: Option<Registry>)
    ensures r.None? <==> FailsOnMissingKey(reg, ClassifyOff(args))
    ensures r.Some? ==> r.value.Keys <= reg.Keys
  {
    var c := ClassifyOff(args);
    match FormOf(c)
    case EventBoth | EventEither =>
      if c.event.s in reg then Some(reg[c.event.s := Survivors(reg[c.event.s], FilterOf(c))])
      else None
    case EventDelete => Some(reg - {c.event.s})
    case GlobalEither => Some(FilterAll(reg, FilterOf(c)))
    case DeleteAll => Some(map[])
  }

  // ---------------------------------------------------------------------------
  // Properties of the removal filter

  /** `t` is `s` with some entries left out, the rest in their order. */
  ghost predicate Subsequence(t: seq<Subscription>, s: seq<Subscription>)
    decreases |s|
  {
    if t == [] then true
    else if s == [] then false
    else (t[0] == s[0] && Subsequence(t[1..], s[1..])) || Subsequence(t, s[1..])
  }

  lemma {:induction false} SurvivorsMembership(list: seq<Subscription>, f: Filter, x: Subscription)
    ensures x in Survivors(list, f) <==> x in list && !Hits(f, x)
    decreases |list|
  {
    if list != [] {
      SurvivorsMembership(list[1..], f, x);
      assert list == [list[0]] + list[1..];
    }
  }

  /** Every value keeps all its copies when the filter does not hit it, and
      loses all of them when it does. */
  lemma {:induction false} SurvivorsCount(list: seq<Subscription>, f: Filter, x: Subscription)
    ensures multiset(Survivors(list, f))[x] == if Hits(f, x) then 0 else multiset(list)[x]
    decreases |list|
  {
    if list != [] {
      SurvivorsCount(list[1..], f, x);
      assert list == [list[0]] + list[1..];
    }
  }

  lemma {:induction false} SurvivorsSubsequence(list: seq<Subscription>, f: Filter)
    ensures Subsequence(Survivors(list, f), list)
    decreases |list|
  {
    if list != [] {
      SurvivorsSubsequence(list[1..], f);
      var rest := Survivors(list[1..], f);
      if Hits(f, list[0]) {
        assert Survivors(list, f) == rest;
        SubsequenceCons(rest, list);
      } else {
        assert Survivors(list, f) == [list[0]] + rest;
        assert ([list[0]] + rest)[1..] == rest;
      }
    }
  }

  /** Dropping the head of `s` keeps a subsequence of its tail a subsequence. */
  lemma SubsequenceCons(t: seq<Subscription>, s: seq<Subscription>)
    requires s != [] && Subsequence(t, s[1..])
    ensures Subsequence(t, s)
  {
  }

  /** Filtering distributes over concatenation, which is what keeps the
      survivors of one list in their relative order. */
  lemma {:induction false} SurvivorsAppend(a: seq<Subscription>, b: seq<Subscription>, f: Filter)
    ensures Survivors(a + b, f) == Survivors(a, f) + Survivors(b, f)
    decreases |a|
  {
    if a != [] {
      SurvivorsAppend(a[1..], b, f);
      var head := if Hits(f, a[0]) then [] else [a[0]];
      assert (a + b)[0] == a[0];
      assert (a + b)[1..] == a[1..] + b;
      calc {
        Survivors(a + b, f);
        head + Survivors(a[1..] + b, f);
        head + (Survivors(a[1..], f) + Survivors(b, f));
        (head + Survivors(a[1..], f)) + Survivors(b, f);
        Survivors(a, f) + Survivors(b, f);
      }
    } else {
      assert a + b == b;
    }
  }

  lemma {:induction false} SurvivorsIdempotent(list: seq<Subscription>, f: Filter)
    ensures Survivors(Survivors(list, f), f) == Survivors(list, f)
    decreases |list|
  {
    if list != [] {
      SurvivorsIdempotent(list[1..], f);
      var rest := Survivors(list[1..], f);
      if Hits(f, list[0]) {
        assert Survivors(list, f) == rest;
      } else {
        assert Survivors(list, f) == [list[0]] + rest;
        SurvivorsAppend([list[0]], rest, f);
        assert Survivors([list[0]], f) == [list[0]] + Survivors([], f);
      }
    }
  }

  lemma {:induction false} SurvivorsAllHit(list: seq<Subscription>, f: Filter)
    requires forall i :: 0 <= i < |list| ==> Hits(f, list[i])
    ensures Survivors(list, f) == []
    decreases |list|
  {
    if list != [] {
      SurvivorsAllHit(list[1..], f);
    }
  }

  // ---------------------------------------------------------------------------
  // Properties of `off`

  /** Every form of `off` that does not throw leaves a registry on which the
      same call changes nothing more. */
  lemma OffIdempotent(reg: Registry, args: seq<Value>)
    requires OffSpec(reg, args).Some?
    ensures OffSpec(OffSpec(reg, args).value, args) == OffSpec(reg, args)
  {
    var c := ClassifyOff(args);
    var r := OffSpec(reg, args).value;
    match FormOf(c)
    case EventBoth | EventEither =>
      SurvivorsIdempotent(reg[c.event.s], FilterOf(c));
      assert r[c.event.s := Survivors(r[c.event.s], FilterOf(c))] == r;
    case EventDelete =>
      assert r - {c.event.s} == r;
    case GlobalEither =>
      forall k | k in r
        ensures Survivors(r[k], FilterOf(c)) == r[k]
      {
        SurvivorsIdempotent(reg[k], FilterOf(c));
      }
      assert FilterAll(r, FilterOf(c)) == r;
    case DeleteAll =>
  }

  /** `off()` (or `off` with no string, function or object among its first
      arguments) empties the registry, and doing it twice is doing it once. */
  lemma OffAllClears(reg: Registry, args: seq<Value>)
    requires FormOf(ClassifyOff(args)) == DeleteAll
    ensures OffSpec(reg, args) == Some(map[])
    ensures OffSpec(map[], args) == Some(map[])
  {
  }

  /** `off(event)` deletes that key, present or not, and nothing else. */
  lemma OffEventDeletesKey(reg: Registry, event: string)
    ensures OffSpec(reg, [Str(event)]).Some?
    ensures var r := OffSpec(reg, [Str(event)]).value;
      && event !in r
      && (forall k :: k != event ==> (k in r <==> k in reg))
      && (forall k :: k in reg && k != event ==> r[k] == reg[k])
  {
  }

  /** The per-event filter forms: only that event's list changes; it keeps
      exactly the entries the filter does not hit, in their order, and stays
      in the registry even when it empties. */
  lemma OffPerEvent(reg: Registry, args: seq<Value>)
    requires FormOf(ClassifyOff(args)) == EventBoth || FormOf(ClassifyOff(args)) == EventEither
    requires ClassifyOff(args).event.s in reg
    ensures OffSpec(reg, args).Some?
    ensures var c := ClassifyOff(args); var e := c.event.s; var r := OffSpec(reg, args).value;
      && r.Keys == reg.Keys
      && (forall k :: k in reg && k != e ==> r[k] == reg[k])
      && (forall x :: x in r[e] <==> x in reg[e] && !Hits(FilterOf(c), x))
      && (forall x :: multiset(r[e])[x] == if Hits(FilterOf(c), x) then 0 else multiset(reg[e])[x])
      && Subsequence(r[e], reg[e])
  {
    var c := ClassifyOff(args);
    var e := c.event.s;
    forall x
      ensures x in Survivors(reg[e], FilterOf(c)) <==> x in reg[e] && !Hits(FilterOf(c), x)
      ensures multiset(Survivors(reg[e], FilterOf(c)))[x] ==
        if Hits(FilterOf(c), x) then 0 else multiset(reg[e])[x]
    {
      SurvivorsMembership(reg[e], FilterOf(c), x);
      SurvivorsCount(reg[e], FilterOf(c), x);
    }
    SurvivorsSubsequence(reg[e], FilterOf(c));
  }

  /** `off(event, listener, observer)` removes only the entries of that event
      whose listener and observer both match. */
  lemma OffEventListenerObserver(reg: Registry, event: string, l: Closure, o: ObserverValue)
    requires event in reg
    ensures OffSpec(reg, [Str(event), Func(l), o]).Some?
    ensures var r := OffSpec(reg, [Str(event), Func(l), o]).value;
      && r.Keys == reg.Keys
      && (forall k :: k in reg && k != event ==> r[k] == reg[k])
      && (forall x :: x in r[event] <==> x in reg[event] && !(x.listener == l && x.observer == o))
      && (forall x :: multiset(r[event])[x] ==
            if x.listener == l && x.observer == o then 0 else multiset(reg[event])[x])
      && Subsequence(r[event], reg[event])
  {
    OffPerEvent(reg, [Str(event), Func(l), o]);
  }

  /** `off(event, listener)` removes the entries of that event registered
      with that listener, whatever their observer. */
  lemma OffEventListener(reg: Registry, event: string, l: Closure)
    requires event in reg
    ensures OffSpec(reg, [Str(event), Func(l)]).Some?
    ensures var r := OffSpec(reg, [Str(event), Func(l)]).value;
      && r.Keys == reg.Keys
      && (forall k :: k in reg && k != event ==> r[k] == reg[k])
      && (forall x :: x in r[event] <==> x in reg[event] && x.listener != l)
      && (forall x :: multiset(r[event])[x] == if x.listener == l then 0 else multiset(reg[event])[x])
      && Subsequence(r[event], reg[event])
  {
    OffPerEvent(reg, [Str(event), Func(l)]);
  }

  /** On an event that has no entry, the per-event forms throw. */
  lemma OffMissingEventThrows(reg: Registry, event: string, l: Closure)
    requires event !in reg
    ensures OffSpec(reg, [Str(event), Func(l)]).None?
  {
  }

  /** Without a string first argument, every list loses all copies of the
      entries whose listener or observer matches, even when both are given,
      keeps all copies of the others in their order, and no key is added or
      deleted. Stated for any key `k` and any entry `x`. */
  lemma OffGlobal(reg: Registry, args: seq<Value>, k: string, x: Subscription)
    requires FormOf(ClassifyOff(args)) == GlobalEither
    requires k in reg
    ensures OffSpec(reg, args).Some?
    ensures var c := ClassifyOff(args); var r := OffSpec(reg, args).value;
      && r.Keys == reg.Keys
      && (x in r[k] <==> x in reg[k] && !(Func(x.listener) == c.listener || x.observer == c.observer))
      && multiset(r[k])[x] ==
           (if Func(x.listener) == c.listener || x.observer == c.observer then 0 else multiset(reg[k])[x])
      && Subsequence(r[k], reg[k])
  {
    var c := ClassifyOff(args);
    var f := FilterOf(c);
    assert OffSpec(reg, args) == Some(FilterAll(reg, f));
    assert Hits(f, x) <==> Func(x.listener) == c.listener || x.observer == c.observer;
    SurvivorsMembership(reg[k], f, x);
    SurvivorsCount(reg[k], f, x);
    SurvivorsSubsequence(reg[k], f);
  }

  /** `off(listener, observer)` with both given still removes entries that
      match only one of them, from every event. */
  lemma OffListenerObserverIsDisjunctive(reg: Registry, l: Closure, o: JsObject)
    ensures OffSpec(reg, [Func(l), Obj(o)]).Some?
    ensures var r := OffSpec(reg, [Func(l), Obj(o)]).value;
      && r.Keys == reg.Keys
      && (forall k, x :: k in reg ==>
            (x in r[k] <==> x in reg[k] && x.listener != l && x.observer != Obj(o)))
  {
    var args := [Func(l), Obj(o)];
    var f := Filter(Func(l), Obj(o), false);
    assert FilterOf(ClassifyOff(args)) == f;
    var r := OffSpec(reg, args).value;
    assert r == FilterAll(reg, f);
    forall k, x | k in reg
      ensures x in r[k] <==> x in reg[k] && x.listener != l && x.observer != Obj(o)
    {
      SurvivorsMembership(reg[k], f, x);
    }
  }

  /** Because `typeof null` is "object", `off(null)` removes from every event
      the entries registered without an observer. */
  lemma OffNullDropsUnobserved(reg: Registry)
    ensures OffSpec(reg, [Null]).Some?
    ensures var r := OffSpec(reg, [Null]).value;
      && r.Keys == reg.Keys
      && (forall k, x :: k in reg ==> (x in r[k] <==> x in reg[k] && !x.observer.Null?))
  {
    var f := Filter(Bool(false), Null, false);
    assert FilterOf(ClassifyOff([Null])) == f;
    var r := OffSpec(reg, [Null]).value;
    assert r == FilterAll(reg, f);
    forall k, x | k in reg
      ensures x in r[k] <==> x in reg[k] && !x.observer.Null?
    {
      SurvivorsMembership(reg[k], f, x);
    }
  }

  /** An entry whose every subscription is removed stays as an empty list. */
  lemma OffKeepsEmptiedList(reg: Registry, event: string, l: Closure)
    requires event in reg
    requires forall i :: 0 <= i < |reg[event]| ==> reg[event][i].listener == l
    ensures OffSpec(reg, [Str(event), Func(l)]) == Some(reg[event := []])
  {
    SurvivorsAllHit(reg[event], FilterOf(ClassifyOff([Str(event), Func(l)])));
  }
}

/** What each command does to the focus, to the displayed flows, to the store, to the settings of the view and to the
    cached keys, stated by what can be seen of the view before and after it. */
module ViewRules {
  import opened Prelude
  import opened ViewModel
  import opened ViewProperties

  // ----- places -----

  ghost function PlaceOf(d: seq<Flow>, f: Flow): (i: nat)
    requires f in d
    ensures i < |d| && d[i] == f && f !in d[..i]
  {
    if d[0] == f then 0 else 1 + PlaceOf(d[1..], f)
  }

  /** How many viewed flows have a key that is not greater. */
  ghost function NotGreater(v: seq<Entry>, k: int): nat {
    if v == [] then 0 else NotGreater(v[..|v| - 1], k) + (if v[|v| - 1].key <= k then 1 else 0)
  }

  /** Where the focus goes when a refresh loses its flow, which has key k: in forward order to the flow behind those
      with a key not greater; in reversed order one flow too far back; in either order inside the view. */
  ghost function LostPlace(t: State, k: int): int {
    var n, c := |t.view|, NotGreater(t.view, k);
    Min(if !t.reversed then c else if c == 0 then 1 else n - c + 1, n - 1)
  }

  /** An offset from either end, clamped to a view of n flows. */
  ghost function Clamped(n: nat, offset: int): (i: nat)
    requires n > 0
    ensures i < n
  {
    if offset >= n then n - 1
    else if offset >= 0 then offset
    else if n + offset >= 0 then n + offset
    else 0
  }

  /** The flow d places further, if there is one. */
  ghost function Beside(r: seq<Flow>, focus: Option<Flow>, d: int): Option<Flow> {
    if focus.Some? && focus.value in r && 0 <= PlaceOf(r, focus.value) + d < |r|
    then Some(r[PlaceOf(r, focus.value) + d])
    else focus
  }

  /** The flow that an event shows for the first time. */
  ghost predicate Enters(s: State, e: Event, t: State) {
    (e.Adds? || e.Updates?) && e.f in Displayed(t) && e.f !in Displayed(s)
  }

  /** The focus after an event that leads from s to t. */
  ghost function NewFocus(s: State, e: Event, w: World, t: State): Option<Flow> {
    var r := Displayed(t);
    if r == [] then None
    else if e.Goes? then Some(r[Clamped(|r|, e.offset)])
    else if e.Next? then Beside(r, s.focus, 1)
    else if e.Prev? then Beside(r, s.focus, -1)
    else if e.Focuses? && e.f in r then Some(e.f)
    else if s.follow && Enters(s, e, t) then Some(e.f)
    else if s.focus.None? then Some(r[0])
    else if s.focus.value in r then s.focus
    else if (e.Updates? || e.Removes?) && e.f in Flows(s.view) then
      Some(r[Min(PlaceOf(Flows(s.view), e.f), |r| - 1)])
    else
      var i := LostPlace(t, KeyOf(t, s.focus.value, w));
      if 0 <= i < |r| then Some(r[i]) else None
  }

  lemma {:induction false} NotGreaterFacts(v: seq<Entry>, k: int)
    requires Sorted(v)
    ensures var c := NotGreater(v, k);
      c <= |v| && (forall i :: 0 <= i < c ==> v[i].key <= k) && (c < |v| ==> v[c].key > k)
  {
    if v != [] {
      var n := |v| - 1;
      NotGreaterFacts(v[..n], k);
      var c := NotGreater(v[..n], k);
      assert c < n ==> v[c].key <= v[n].key;
    }
  }

  lemma NotGreaterIs(v: seq<Entry>, k: int)
    requires Sorted(v)
    ensures NotGreater(v, k) == BisectRight(v, k)
  {
    NotGreaterFacts(v, k);
    var b, c := BisectRight(v, k), NotGreater(v, k);
    hide BisectRight, NotGreater;
    assert b < |v| ==> v[b].key > k;
    assert c < |v| ==> v[c].key > k;
  }

  lemma DisplayedAt(s: State)
    ensures |Displayed(s)| == |s.view|
    ensures forall i :: 0 <= i < |s.view| ==> Displayed(s)[i] == ItemAt(s, i)
    ensures forall f :: f in Displayed(s) <==> f in Viewed(s.view)
  {
    forall i | 0 <= i < |s.view|
      ensures Displayed(s)[i] == ItemAt(s, i)
    {
      GetItemIsDisplayed(s, i);
    }
    forall f
      ensures f in Displayed(s) <==> f in Viewed(s.view)
    {
      if f in Displayed(s) {
        var i :| 0 <= i < |s.view| && Displayed(s)[i] == f;
        ItemViewed(s, i);
      }
      if f in Viewed(s.view) {
        var e :| e in s.view && e.flow == f;
        var j :| 0 <= j < |s.view| && s.view[j] == e;
        var i := if s.reversed then |s.view| - 1 - j else j;
        assert Displayed(s)[i] == f;
      }
    }
  }

  /** The position in the sorted list, and the one that the user sees. */
  lemma Places(s: State, f: Flow, w: World)
    requires Core(s) && f in Viewed(s.view)
    ensures Contains(s, f, w) && f in Flows(s.view) && f in Displayed(s)
    ensures IndexOf(s.view, Entry(KeyOf(s, f, w), f)) == PlaceOf(Flows(s.view), f)
    ensures Index(s, f, w) == PlaceOf(Displayed(s), f)
  {
    ContainsExact(s, f, w);
    DisplayedAt(s);
    CoreNoRepeat(s);
    var i := IndexOf(s.view, Entry(KeyOf(s, f, w), f));
    assert Flows(s.view)[i] == f;
    hide Core, KeyOf, Contains, Viewed;
    OnePlace(Flows(s.view), f, i);
    var j := Index(s, f, w);
    assert ItemAt(s, j) == f;
    forall a, b | 0 <= a < b < |s.view|
      ensures Displayed(s)[a] != Displayed(s)[b]
    {
      assert ItemAt(s, a) != ItemAt(s, b);
    }
    hide Index;
    OnePlace(Displayed(s), f, j);
  }

  lemma OnePlace(d: seq<Flow>, f: Flow, i: nat)
    requires i < |d| && d[i] == f && forall a, b :: 0 <= a < b < |d| ==> d[a] != d[b]
    ensures PlaceOf(d, f) == i
  {
    var j := PlaceOf(d, f);
    assert d[j] == d[i];
  }

  // ----- the focus -----

  /** Nothing but the focus and the keys. */
  lemma FocusKept(s: State, e: Event, w: World, t: State)
    requires FocusInside(s) && t.focus == s.focus && Viewed(t.view) == Viewed(s.view)
    requires !e.Goes? && !e.Next? && !e.Prev? && !e.Focuses?
    requires s.view == [] <==> t.view == []
    ensures t.focus == NewFocus(s, e, w, t)
  {
    DisplayedAt(s);
    DisplayedAt(t);
  }

  lemma RuleEnters(s: State, e: Event, w: World, t: State)
    requires Enters(s, e, t)
    ensures
      var r := Displayed(t);
      NewFocus(s, e, w, t)
      == if s.follow then Some(e.f)
         else if s.focus.None? then Some(r[0])
         else if s.focus.value in r then s.focus
         else NewFocus(s, e, w, t)
  {
    hide Displayed, LostPlace, KeyOf;
  }

  lemma FocusEntered(s: State, e: Event, w: World, u: State)
    requires Inv(u) && u.focus == s.focus && u.follow == s.follow && Viewed(u.view) == Viewed(s.view)
    requires (e.Adds? || e.Updates?) && e.f in u.store && e.f !in Viewed(u.view)
    ensures Appear(u, e.f, w).focus == NewFocus(s, e, w, Appear(u, e.f, w))
  {
    var t := Appear(u, e.f, w);
    AppearFocus(u, e.f, w);
    AppearKeeps(u, e.f, w);
    DisplayedAt(s);
    DisplayedAt(t);
    InvFocus(u);
    hide Inv, Displayed, NewFocus, Appear;
    assert e.f in Displayed(t);
    if u.focus.None? {
      NothingViewed(u);
      assert Displayed(t)[0] in Displayed(t);
    }
    RuleEnters(s, e, w, t);
  }

  lemma AppearFocus(s: State, f: Flow, w: World)
    ensures Appear(s, f, w).focus == if s.follow || s.focus.None? then Some(f) else s.focus
  {
  }

  lemma NothingViewed(s: State)
    requires FocusInside(s) && s.focus.None?
    ensures s.view == [] && Viewed(s.view) == {}
  {
  }

  lemma RuleLeaves(s: State, e: Event, w: World, t: State)
    requires (e.Updates? || e.Removes?) && e.f in Flows(s.view) && e.f !in Displayed(t)
    ensures
      var r := Displayed(t);
      NewFocus(s, e, w, t)
      == if r == [] then None
         else if s.focus.None? then Some(r[0])
         else if s.focus.value in r then s.focus
         else Some(r[Min(PlaceOf(Flows(s.view), e.f), |r| - 1)])
  {
    hide Displayed, LostPlace, KeyOf, PlaceOf, Flows;
  }

  lemma FocusLeft(s: State, e: Event, w: World, u: State, t: State)
    requires Inv(s) && Inv(u) && u.focus == s.focus && u.view == s.view && u.reversed == s.reversed
    requires (e.Updates? || e.Removes?) && e.f in Viewed(u.view) && Contains(u, e.f, w)
    requires t.view == Disappear(u, e.f, w).view && t.focus == Disappear(u, e.f, w).focus && t.reversed == s.reversed
    ensures t.focus == NewFocus(s, e, w, t)
  {
    hide Inv, Core, FocusInside, Displayed, Disappear, PlaceOf, NewFocus, Contains;
    var d := Disappear(u, e.f, w);
    DisappearKeeps(u, e.f, w);
    DisappearFocus(u, e.f, w);
    FocusedViewed(s);
    DisplayedAt(d);
    DisplayedSame(d, t);
    SameItems(d, t);
    RuleLeaves(s, e, w, t);
    hide Viewed, Flows, ItemAt;
  }

  lemma FocusedViewed(s: State)
    requires Inv(s)
    ensures s.view != [] ==> s.focus.Some? && s.focus.value in Viewed(s.view)
  {
  }

  lemma SameItems(s: State, t: State)
    requires s.view == t.view && s.reversed == t.reversed
    ensures forall i :: 0 <= i < |s.view| ==> ItemAt(s, i) == ItemAt(t, i)
  {
  }

  lemma DisplayedSame(s: State, t: State)
    requires s.view == t.view && s.reversed == t.reversed
    ensures Displayed(s) == Displayed(t)
  {
  }

  lemma DisappearFocus(s: State, f: Flow, w: World)
    requires Inv(s) && f in Viewed(s.view) && Contains(s, f, w)
    ensures
      var t := Disappear(s, f, w);
      && f in Flows(s.view)
      && t.focus == if t.view == [] then None
                    else if s.focus == Some(f) then Some(ItemAt(t, Min(PlaceOf(Flows(s.view), f), |t.view| - 1)))
                    else s.focus
  {
    Places(s, f, w);
    var i := IndexOf(s.view, Entry(KeyOf(s, f, w), f));
    var u := s.(view := RemoveAt(s.view, i));
    hide Inv, Core, Viewed, KeyOf, Contains, PlaceOf, IndexOf, RemoveAt, Flows;
    assert Disappear(s, f, w) == FocusOnRemove(u, f, i);
    RemoveFocus(u, f, i);
  }

  lemma RemoveFocus(s: State, f: Flow, i: nat)
    ensures
      var t := FocusOnRemove(s, f, i);
      && t.view == s.view
      && t.focus == if s.view == [] then None
                    else if s.focus == Some(f) then Some(ItemAt(t, Min(i, |s.view| - 1)))
                    else s.focus
  {
    if s.view != [] && s.focus == Some(f) {
      SameItem(s, FocusOnRemove(s, f, i), Min(i, |s.view| - 1));
    }
  }

  lemma InvFocus(s: State)
    requires Inv(s)
    ensures FocusInside(s)
  {
  }

  lemma RuleRefreshed(s: State, e: Event, w: World, t: State)
    requires e.Clears? || e.ClearsNotMarked? || e.SetsReversed? || e.SetsFilter? || e.TogglesMarked?
    ensures
      var r := Displayed(t);
      NewFocus(s, e, w, t)
      == if r == [] then None
         else if s.focus.None? then Some(r[0])
         else if s.focus.value in r then s.focus
         else
           var i := LostPlace(t, KeyOf(t, s.focus.value, w));
           if 0 <= i < |r| then Some(r[i]) else None
  {
    hide Displayed, LostPlace, KeyOf;
  }

  lemma FocusRefreshed(s: State, e: Event, w: World, u: State, t: State)
    requires Core(u) && u.focus == s.focus
    requires e.Clears? || e.ClearsNotMarked? || e.SetsReversed? || e.SetsFilter? || e.TogglesMarked?
    requires t.view == u.view && t.reversed == u.reversed && t.focus == FocusOnRefresh(u, w).focus
    requires s.focus.Some? && u.view != [] ==> KeyOf(t, s.focus.value, w) == KeyOf(u, s.focus.value, w)
    ensures t.focus == NewFocus(s, e, w, t)
  {
    RefreshFocus(u, w);
    DisplayedAt(u);
    DisplayedSame(u, t);
    RuleRefreshed(s, e, w, t);
    hide Displayed, NewFocus, FocusOnRefresh, Core, KeyOf, NotGreater, Viewed;
  }

  lemma RefreshFocus(s: State, w: World)
    requires Core(s)
    ensures
      FocusOnRefresh(s, w).focus
      == if s.view == [] then None
         else if s.focus.None? then Some(ItemAt(s, 0))
         else if s.focus.value in Viewed(s.view) then s.focus
         else
           var i := LostPlace(s, KeyOf(s, s.focus.value, w));
           if 0 <= i < |s.view| then Some(ItemAt(s, i)) else None
  {
    if s.view != [] && s.focus.Some? {
      var f := s.focus.value;
      ContainsExact(s, f, w);
      if f !in Viewed(s.view) {
        LostFocus(s, f, w);
        CoreSorted(s);
        NotGreaterIs(s.view, KeyOf(s, f, w));
      }
    }
    hide Core, KeyOf, Viewed, BisectRight, NotGreater, ItemAt;
  }

  lemma AddsFocus(s: State, f: Flow, w: World)
    requires Inv(s)
    ensures AddFlow(s, f, w).focus == NewFocus(s, Adds(f), w, AddFlow(s, f, w))
  {
    var e, t := Adds(f), AddFlow(s, f, w);
    InvFocus(s);
    if f.id in Ids(s.store) {
      FocusKept(s, e, w, t);
    } else {
      StoreKeeps(s, f);
      var u := s.(store := s.store + [f]);
      hide Inv, FocusInside, NewFocus, Viewed, Appear;
      if w.accepts(s.filter, f) {
        FocusEntered(s, e, w, u);
      } else {
        FocusKept(s, e, w, t);
      }
    }
  }

  lemma UpdatesFocus(s: State, f: Flow, w: World)
    requires Inv(s) && Allowed(s, Updates(f), w)
    ensures UpdateFlow(s, f, w).focus == NewFocus(s, Updates(f), w, UpdateFlow(s, f, w))
  {
    var e, u, t := Updates(f), Search(s, f, w), UpdateFlow(s, f, w);
    InvFocus(s);
    SearchKeeps(s, f, w);
    hide Inv, FocusInside, NewFocus, Search, Appear, Disappear, Refresh, Contains;
    if f.id !in Ids(s.store) {
      FocusKept(s, e, w, t);
    } else if f !in Viewed(s.view) {
      if w.accepts(s.filter, f) {
        FocusEntered(s, e, w, u);
      } else {
        FocusKept(s, e, w, t);
      }
    } else if w.accepts(s.filter, f) {
      RefreshKeeps(u, f, w);
      FocusKept(s, e, w, t);
    } else {
      FocusLeft(s, e, w, u, t);
    }
  }

  lemma RemovesFocus(s: State, f: Flow, w: World)
    requires Inv(s)
    ensures RemoveFlow(s, f, w).focus == NewFocus(s, Removes(f), w, RemoveFlow(s, f, w))
  {
    var e, u, t := Removes(f), Search(s, f, w), RemoveFlow(s, f, w);
    InvFocus(s);
    SearchKeeps(s, f, w);
    hide Inv, FocusInside, NewFocus, Search, Disappear, Contains;
    if f.id in Ids(s.store) && f in Viewed(s.view) {
      DisappearKeeps(u, f, w);
      FocusLeft(s, e, w, u, t);
    } else {
      FocusKept(s, e, w, t);
    }
  }

  lemma KeyTouched(s: State, f: Flow, w: World)
    requires Core(s) && s.view != [] && s.focus == Some(f)
    ensures KeyOf(FocusOnRefresh(s, w), f, w) == KeyOf(s, f, w)
    ensures f.id in Ids(s.store) ==> KeyOf(Prune(FocusOnRefresh(s, w)), f, w) == KeyOf(s, f, w)
    ensures f.id !in Ids(s.store) ==> KeyOf(Prune(FocusOnRefresh(s, w)), f, w) == w.key(s.order, f)
  {
    TouchKeeps(s, f, w);
    RefreshedFocus(s, w);
  }

  lemma RefilterFocus(s: State, s': State, e: Event, w: World)
    requires Inv(s) && Distinct(s'.store) && s'.focus == s.focus
    requires e.ClearsNotMarked? || e.SetsFilter? || e.TogglesMarked?
    ensures Refilter(s', w).focus == NewFocus(s, e, w, Refilter(s', w))
    ensures Refilter(s', w).focus == NewFocus(s, e, w, Prune(Refilter(s', w)))
  {
    var z, fs := s'.(view := []), Select(s'.store, Shown(s', w));
    SelectDistinct(s'.store, Shown(s', w));
    BaseAddAllKeeps(z, fs, w);
    var u := BaseAddAll(z, fs, w);
    RefreshedFocus(u, w);
    if u.view != [] && u.focus.Some? {
      KeyTouched(u, u.focus.value, w);
    }
    hide Core, BaseAddAll, FocusOnRefresh, NewFocus, Select, Shown;
    FocusRefreshed(s, e, w, u, FocusOnRefresh(u, w));
    FocusRefreshed(s, e, w, u, Prune(FocusOnRefresh(u, w)));
  }

  lemma RuleGoes(s: State, n: int, w: World, t: State)
    ensures var r := Displayed(t); NewFocus(s, Goes(n), w, t) == if r == [] then None else Some(r[Clamped(|r|, n)])
  {
    hide Displayed, LostPlace, KeyOf, Clamped;
  }

  lemma GoesFocus(s: State, n: int, w: World)
    requires Inv(s)
    ensures Go(s, n).focus == NewFocus(s, Goes(n), w, Go(s, n))
  {
    InvFocus(s);
    GoItem(s, n);
    DisplayedAt(s);
    DisplayedSame(s, Go(s, n));
    RuleGoes(s, n, w, Go(s, n));
    hide Inv, Go, Displayed, ItemAt, NewFocus, Viewed, Clamped;
  }

  lemma GoItem(s: State, n: int)
    ensures Go(s, n).view == s.view && Go(s, n).reversed == s.reversed
    ensures s.view == [] ==> Go(s, n) == s
    ensures s.view != [] ==> Go(s, n).focus == Some(ItemAt(s, Clamped(|s.view|, n)))
  {
    hide ItemAt;
  }

  lemma MovesFocus(s: State, d: int, w: World)
    requires Inv(s)
    ensures FocusMove(s, d, w).focus == if s.view == [] then None else Beside(Displayed(s), s.focus, d)
    ensures FocusMove(s, d, w) == s.(focus := FocusMove(s, d, w).focus)
  {
    hide Inv, FocusInside, Viewed, Displayed, Beside, FocusMove;
    MoveNothing(s, d, w);
    if s.focus.Some? {
      FocusPlace(s, w);
      var f := s.focus.value;
      BesideIs(Displayed(s), f, d);
      MoveItem(s, d, w);
      DisplayedItem(s, PlaceOf(Displayed(s), f) + d);
      hide Contains, Index, PlaceOf, ItemAt;
    } else {
      InvFocus(s);
      NothingViewed(s);
    }
  }

  lemma FocusPlace(s: State, w: World)
    requires Inv(s) && s.focus.Some?
    ensures
      var f := s.focus.value;
      s.view != [] && f in Displayed(s) && Contains(s, f, w) && Index(s, f, w) == PlaceOf(Displayed(s), f)
  {
    Places(s, s.focus.value, w);
    hide Displayed, Index, PlaceOf;
  }

  lemma BesideIs(r: seq<Flow>, f: Flow, d: int)
    requires f in r
    ensures
      var i := PlaceOf(r, f) + d;
      Beside(r, Some(f), d) == if 0 <= i < |r| then Some(r[i]) else Some(f)
  {
  }

  lemma DisplayedItem(s: State, i: int)
    ensures |Displayed(s)| == |s.view| && (0 <= i < |s.view| ==> Displayed(s)[i] == ItemAt(s, i))
  {
    DisplayedAt(s);
  }

  lemma MoveNothing(s: State, d: int, w: World)
    ensures s.focus.None? ==> FocusMove(s, d, w) == s
  {
  }

  lemma MoveItem(s: State, d: int, w: World)
    requires s.focus.Some? && Contains(s, s.focus.value, w) && s.view != []
    ensures
      var i := Index(s, s.focus.value, w) + d;
      FocusMove(s, d, w) == s.(focus := if 0 <= i < |s.view| then Some(ItemAt(s, i)) else s.focus)
  {
    hide ItemAt, Index, Contains;
  }

  lemma FocusesFocus(s: State, f: Flow, w: World)
    requires Inv(s)
    ensures FocusFlow(s, f, w).focus == NewFocus(s, Focuses(f), w, FocusFlow(s, f, w))
  {
    SearchKeeps(s, f, w);
    DisplayedAt(s);
    DisplayedSame(s, FocusFlow(s, f, w));
    InvFocus(s);
    hide Inv, Displayed, Search, Contains;
  }

  lemma SetOrderFocus(s: State, o: Order, w: World)
    requires Inv(s)
    ensures SetOrder(s, o, w).focus == NewFocus(s, SetsOrder(o), w, SetOrder(s, o, w))
  {
    InvFocus(s);
    SetOrderKeeps(s, o, w);
    ViewedDistinct(s);
    BaseAddAllKeeps(s.(order := o, view := []), Flows(s.view), w);
    hide Inv, NewFocus, BaseAddAll;
    FocusKept(s, SetsOrder(o), w, SetOrder(s, o, w));
  }

  /** Where the focus is after every command, in terms of what is displayed: it stays on its flow as long as that flow
      is displayed, except for the commands that move it and for a followed flow that enters the view; it takes the
      first displayed flow if there was no focus; and if its flow is gone it goes to the place that the removed flow
      had in the sorted list, or to the place that a refresh picks. */
  lemma FocusRule(s: State, e: Event, w: World)
    requires Inv(s) && Allowed(s, e, w)
    ensures Step(s, e, w).focus == NewFocus(s, e, w, Step(s, e, w))
  {
    assert Core(s) && Distinct(s.store);
    InvFocus(s);
    hide Inv, Core, Allowed, FocusInside, NewFocus, Refilter, SetOrder, Go, FocusMove, FocusFlow, FocusOnRefresh;
    match e
    case Adds(_) => FlowFocus(s, e, w);
    case Updates(_) => FlowFocus(s, e, w);
    case Removes(_) => FlowFocus(s, e, w);
    case Clears => ClearsFocus(s, w);
    case ClearsNotMarked =>
      SelectDistinct(s.store, w.marked);
      RefilterFocus(s, s.(store := Select(s.store, w.marked)), e, w);
    case SetsOrder(o) => SetOrderFocus(s, o, w);
    case SetsReversed(b) => ReversesFocus(s, b, w);
    case SetsFilter(n) => RefilterFocus(s, s.(filter := n), e, w);
    case TogglesMarked => RefilterFocus(s, s.(showMarked := !s.showMarked), e, w);
    case SetsFollow(b) => FocusKept(s, e, w, s.(follow := b));
    case Goes(n) => GoesFocus(s, n, w);
    case Next => StepsFocus(s, e, 1, w);
    case Prev => StepsFocus(s, e, -1, w);
    case Focuses(f) => FocusesFocus(s, f, w);
  }

  lemma FlowFocus(s: State, e: Event, w: World)
    requires Inv(s) && Allowed(s, e, w) && (e.Adds? || e.Updates? || e.Removes?)
    ensures Step(s, e, w).focus == NewFocus(s, e, w, Step(s, e, w))
  {
    hide Inv, Allowed, NewFocus, AddFlow, UpdateFlow, RemoveFlow;
    match e
    case Adds(f) => AddsFocus(s, f, w);
    case Updates(f) => UpdatesFocus(s, f, w);
    case Removes(f) => RemovesFocus(s, f, w);
  }

  lemma ClearsFocus(s: State, w: World)
    ensures Clear(s, w).focus == NewFocus(s, Clears, w, Clear(s, w))
    ensures Displayed(Clear(s, w)) == []
  {
    DisplayedAt(Clear(s, w));
  }

  lemma ReversesFocus(s: State, on: bool, w: World)
    requires Core(s)
    ensures FocusOnRefresh(s.(reversed := on), w).focus
         == NewFocus(s, SetsReversed(on), w, FocusOnRefresh(s.(reversed := on), w))
  {
    var u := s.(reversed := on);
    assert Core(u);
    RefreshedFocus(u, w);
    if u.view != [] && u.focus.Some? {
      KeyTouched(u, u.focus.value, w);
    }
    hide Core, FocusOnRefresh, NewFocus;
    FocusRefreshed(s, SetsReversed(on), w, u, FocusOnRefresh(u, w));
  }

  lemma StepsFocus(s: State, e: Event, d: int, w: World)
    requires Inv(s) && ((e.Next? && d == 1) || (e.Prev? && d == -1))
    ensures FocusMove(s, d, w).focus == NewFocus(s, e, w, FocusMove(s, d, w))
  {
    MovesFocus(s, d, w);
    DisplayedAt(s);
    DisplayedSame(s, FocusMove(s, d, w));
    hide Inv, FocusMove, Displayed, Beside;
  }

  // ----- the store and the settings of the view -----

  /** The flows that satisfy p, in their order. */
  ghost function Kept(fs: seq<Flow>, p: Flow -> bool): seq<Flow> {
    if fs == [] then [] else (if p(fs[0]) then [fs[0]] else []) + Kept(fs[1..], p)
  }

  lemma {:induction false} KeptLast(fs: seq<Flow>, f: Flow, p: Flow -> bool)
    ensures Kept(fs + [f], p) == Kept(fs, p) + (if p(f) then [f] else [])
  {
    if fs == [] {
      assert [f][1..] == [] && [] + [f] == [f];
    } else {
      KeptLast(fs[1..], f, p);
      assert (fs + [f])[0] == fs[0] && (fs + [f])[1..] == fs[1..] + [f];
      var rest := Kept(fs[1..], p);
      assert Kept(fs + [f], p) == (if p(fs[0]) then [fs[0]] else []) + Kept(fs[1..] + [f], p);
      hide Kept;
    }
  }

  /** Selecting keeps the order. */
  lemma {:induction false} SelectKept(fs: seq<Flow>, p: Flow -> bool)
    ensures Select(fs, p) == Kept(fs, p)
  {
    if fs != [] {
      var n := |fs| - 1;
      SelectKept(fs[..n], p);
      KeptLast(fs[..n], fs[n], p);
      assert fs == fs[..n] + [fs[n]];
    }
  }

  ghost predicate Stored(s: State, id: string) {
    exists f :: f in s.store && f.id == id
  }

  /** The stored flows after an event. */
  ghost function NewStore(s: State, e: Event, w: World): seq<Flow> {
    if e.Adds? then (if Stored(s, e.f.id) then s.store else s.store + [e.f])
    else if e.Removes? then Kept(s.store, (g: Flow) => g.id != e.f.id)
    else if e.Clears? then []
    else if e.ClearsNotMarked? then Kept(s.store, w.marked)
    else s.store
  }

  lemma StoreRule(s: State, e: Event, w: World)
    requires Inv(s) && Allowed(s, e, w)
    ensures Step(s, e, w).store == NewStore(s, e, w)
  {
    if e.Adds? || e.Updates? || e.Removes? || e.Focuses? {
      FlowStore(s, e, w);
    } else if e.Clears? || e.ClearsNotMarked? {
      ClearedStore(s, e, w);
    } else {
      OtherStore(s, e, w);
    }
  }

  lemma FlowStore(s: State, e: Event, w: World)
    requires Inv(s) && Allowed(s, e, w) && (e.Adds? || e.Updates? || e.Removes? || e.Focuses?)
    ensures Step(s, e, w).store == NewStore(s, e, w)
  {
    hide Inv, AddFlow, UpdateFlow, RemoveFlow, FocusFlow;
    match e
    case Adds(f) => AddKeeps(s, f, w);
    case Updates(f) => UpdateKeeps(s, f, w);
    case Removes(f) => RemovedStore(s, f, w);
    case Focuses(f) => FocusFlowKeeps(s, f, w);
  }

  lemma ClearedStore(s: State, e: Event, w: World)
    requires Inv(s) && (e.Clears? || e.ClearsNotMarked?)
    ensures Step(s, e, w).store == NewStore(s, e, w)
  {
    assert Distinct(s.store);
    hide Inv, FocusOnRefresh, Refilter;
    match e
    case Clears => RefreshedFocus(s.(store := [], view := []), w) by { EmptyCore(s.(store := [], view := [])); }
    case ClearsNotMarked =>
      SelectKept(s.store, w.marked);
      SelectDistinct(s.store, w.marked);
      RefilterKeeps(s.(store := Select(s.store, w.marked)), w);
  }

  lemma OtherStore(s: State, e: Event, w: World)
    requires Inv(s)
    requires !e.Adds? && !e.Updates? && !e.Removes? && !e.Focuses? && !e.Clears? && !e.ClearsNotMarked?
    ensures Step(s, e, w).store == s.store
  {
    assert Core(s) && Distinct(s.store);
    hide Inv, Core, FocusOnRefresh, Refilter, SetOrder, Go, FocusMove;
    match e
    case SetsOrder(o) => SetOrderKeeps(s, o, w);
    case SetsReversed(b) => RefreshedFocus(s.(reversed := b), w) by { CoreReversed(s, b); }
    case SetsFilter(n) => RefilterKeeps(s.(filter := n), w);
    case TogglesMarked => RefilterKeeps(s.(showMarked := !s.showMarked), w);
    case SetsFollow(_) =>
    case Goes(n) => GoKeeps(s, n);
    case Next => FocusMoveKeeps(s, 1, w);
    case Prev => FocusMoveKeeps(s, -1, w);
  }

  lemma CoreReversed(s: State, on: bool)
    requires Core(s)
    ensures Core(s.(reversed := on))
  {
  }

  lemma RemovedStore(s: State, f: Flow, w: World)
    requires Inv(s)
    ensures RemoveFlow(s, f, w).store == Kept(s.store, (g: Flow) => g.id != f.id)
  {
    var p := (g: Flow) => g.id != f.id;
    SearchKeeps(s, f, w);
    var u := Search(s, f, w);
    if f.id in Ids(s.store) {
      if f in Viewed(s.view) {
        DisappearKeeps(u, f, w);
      }
      SelectKept(s.store, p);
      hide Inv, Search, Contains, Disappear, Select, Kept;
    } else {
      KeptAll(s.store, p);
    }
  }

  lemma {:induction false} KeptAll(fs: seq<Flow>, p: Flow -> bool)
    requires forall f :: f in fs ==> p(f)
    ensures Kept(fs, p) == fs
  {
    if fs != [] {
      KeptAll(fs[1..], p);
      assert fs == [fs[0]] + fs[1..];
    }
  }

  /** Each command changes its own setting and no other. */
  lemma SettingsRule(s: State, e: Event, w: World)
    ensures
      var t := Step(s, e, w);
      && t.order == (if e.SetsOrder? then e.order else s.order)
      && t.reversed == (if e.SetsReversed? then e.on else s.reversed)
      && t.follow == (if e.SetsFollow? then e.on else s.follow)
      && t.filter == (if e.SetsFilter? then e.filter else s.filter)
      && t.showMarked == (if e.TogglesMarked? then !s.showMarked else s.showMarked)
  {
    hide AddFlow, UpdateFlow, RemoveFlow, Refilter, SetOrder, Go, FocusMove, FocusFlow, FocusOnRefresh, Prune;
    match e
    case Adds(f) => AddsSettings(s, f, w);
    case Updates(f) => UpdatesSettings(s, f, w);
    case Removes(f) => RemovesSettings(s, f, w);
    case Clears =>
      RefreshSettings(s.(store := [], view := []), w);
      PruneSettings(FocusOnRefresh(s.(store := [], view := []), w));
    case ClearsNotMarked =>
      RefilterSettings(s.(store := Select(s.store, w.marked)), w);
      PruneSettings(Refilter(s.(store := Select(s.store, w.marked)), w));
    case SetsOrder(o) => RefillFrame(s.(order := o, view := []), Flows(s.view), w); SetOrderIs(s, o, w);
    case SetsReversed(b) => RefreshSettings(s.(reversed := b), w);
    case SetsFilter(n) => RefilterSettings(s.(filter := n), w);
    case TogglesMarked => RefilterSettings(s.(showMarked := !s.showMarked), w);
    case SetsFollow(_) =>
    case Goes(n) => GoItem(s, n); GoSettings(s, n);
    case Next => MoveSettings(s, 1, w);
    case Prev => MoveSettings(s, -1, w);
    case Focuses(f) => FocusSettings(s, f, w);
  }

  ghost predicate SameSettings(s: State, t: State) {
    && t.order == s.order && t.reversed == s.reversed && t.follow == s.follow
    && t.filter == s.filter && t.showMarked == s.showMarked
  }

  lemma SearchSettings(s: State, f: Flow, w: World)
    ensures SameSettings(s, Search(s, f, w))
  {
  }

  lemma AppearSettings(s: State, f: Flow, w: World)
    ensures SameSettings(s, Appear(s, f, w))
  {
    hide KeyOf, Insert;
  }

  lemma DisappearSettings(s: State, f: Flow, w: World)
    requires Contains(s, f, w)
    ensures SameSettings(s, Disappear(s, f, w))
  {
    hide KeyOf, RemoveAt, ItemAt;
  }

  lemma RefreshSettings(s: State, w: World)
    ensures SameSettings(s, FocusOnRefresh(s, w))
  {
    hide KeyOf, Contains, ItemAt, Nearest;
  }

  lemma RefreshFlowSettings(s: State, f: Flow, w: World)
    requires Contains(s, f, w)
    ensures SameSettings(s, Refresh(s, f, w))
  {
    RefreshSettings(Rekeyed(s, f, w), w);
    hide KeyOf, Insert, RemoveAt, FocusOnRefresh;
  }

  lemma AddsSettings(s: State, f: Flow, w: World)
    ensures SameSettings(s, AddFlow(s, f, w))
  {
    AppearSettings(s.(store := s.store + [f]), f, w);
    hide Appear;
  }

  lemma UpdatesSettings(s: State, f: Flow, w: World)
    ensures SameSettings(s, UpdateFlow(s, f, w))
  {
    SearchSettings(s, f, w);
    var t := Search(s, f, w);
    AppearSettings(t, f, w);
    if Contains(t, f, w) {
      RefreshFlowSettings(t, f, w);
      DisappearSettings(t, f, w);
    }
    hide Search, Contains, Appear, Refresh, Disappear;
  }

  lemma RemovesSettings(s: State, f: Flow, w: World)
    ensures SameSettings(s, RemoveFlow(s, f, w))
  {
    SearchSettings(s, f, w);
    var t := Search(s, f, w);
    if Contains(t, f, w) {
      DisappearSettings(t, f, w);
    }
    hide Search, Contains, Disappear, Select;
  }

  lemma PruneSettings(s: State)
    ensures SameSettings(s, Prune(s))
  {
  }

  lemma RefilterSettings(s: State, w: World)
    ensures SameSettings(s, Refilter(s, w))
  {
    var z, fs := s.(view := []), Select(s.store, Shown(s, w));
    RefillFrame(z, fs, w);
    RefreshSettings(BaseAddAll(z, fs, w), w);
    hide BaseAddAll, FocusOnRefresh, Select, Shown;
  }

  lemma SetOrderIs(s: State, o: Order, w: World)
    ensures SetOrder(s, o, w) == BaseAddAll(s.(order := o, view := []), Flows(s.view), w)
  {
  }

  lemma GoSettings(s: State, n: int)
    ensures SameSettings(s, Go(s, n))
  {
    hide ItemAt;
  }

  lemma MoveSettings(s: State, d: int, w: World)
    ensures SameSettings(s, FocusMove(s, d, w))
  {
    hide ItemAt, Contains, Index;
  }

  lemma FocusSettings(s: State, f: Flow, w: World)
    ensures SameSettings(s, FocusFlow(s, f, w))
  {
    SearchSettings(s, f, w);
    hide Search, Contains;
  }

  lemma {:induction false} RefillFrame(s: State, fs: seq<Flow>, w: World)
    ensures var t := BaseAddAll(s, fs, w); t == s.(view := t.view, settings := t.settings)
  {
    if fs != [] {
      RefillFrame(s, fs[..|fs| - 1], w);
    }
  }

  // ----- the order of the view -----

  /** The view without one flow. */
  ghost function Without(v: seq<Entry>, f: Flow): seq<Entry> {
    if v == [] then [] else (if v[0].flow != f then [v[0]] else []) + Without(v[1..], f)
  }

  lemma {:induction false} WithoutConcat(a: seq<Entry>, b: seq<Entry>, f: Flow)
    ensures Without(a + b, f) == Without(a, f) + Without(b, f)
  {
    if a == [] {
      assert a + b == b;
    } else {
      assert (a + b)[0] == a[0] && (a + b)[1..] == a[1..] + b;
      WithoutConcat(a[1..], b, f);
    }
  }

  lemma {:induction false} WithoutNone(v: seq<Entry>, f: Flow)
    requires f !in Viewed(v)
    ensures Without(v, f) == v
  {
    if v != [] {
      assert v[0] in v && v == [v[0]] + v[1..];
      WithoutNone(v[1..], f);
    }
  }

  lemma WithoutOne(e: Entry)
    ensures Without([e], e.flow) == []
  {
    assert [e][1..] == [];
  }

  lemma InsertWithout(v: seq<Entry>, e: Entry)
    ensures Without(Insert(v, e), e.flow) == Without(v, e.flow)
  {
    hide BisectRight, Without;
    var b := BisectRight(v, e.key);
    assert v == v[..b] + v[b..];
    WithoutConcat(v[..b], v[b..], e.flow);
    WithoutConcat(v[..b] + [e], v[b..], e.flow);
    WithoutConcat(v[..b], [e], e.flow);
    WithoutOne(e);
  }

  lemma RemoveWithout(v: seq<Entry>, i: nat)
    requires i < |v| && NoRepeat(v)
    ensures RemoveAt(v, i) == Without(v, v[i].flow)
  {
    hide Without, Viewed, NoRepeat;
    var f, a, b := v[i].flow, v[..i], v[i + 1..];
    NotBeside(v, i);
    WithoutNone(a, f);
    WithoutNone(b, f);
    WithoutMiddle(a, v[i], b);
    assert v == a + [v[i]] + b;
  }

  lemma NotBeside(v: seq<Entry>, i: nat)
    requires i < |v| && NoRepeat(v)
    ensures v[i].flow !in Viewed(v[..i]) && v[i].flow !in Viewed(v[i + 1..])
  {
  }

  lemma WithoutMiddle(a: seq<Entry>, e: Entry, b: seq<Entry>)
    ensures Without(a + [e] + b, e.flow) == Without(a, e.flow) + Without(b, e.flow)
  {
    hide Without;
    WithoutConcat(a + [e], b, e.flow);
    WithoutConcat(a, [e], e.flow);
    WithoutOne(e);
  }

  /** The flow stands under key k, behind the other flows with a key not greater and before those with a greater one. */
  ghost predicate Placed(before: seq<Entry>, v: seq<Entry>, f: Flow, k: int) {
    && Without(v, f) == Without(before, f)
    && Sorted(v) && Entry(k, f) in v
    && WithKey(v, k) == WithKey(Without(before, f), k) + [f]
  }

  lemma InsertPlaced(before: seq<Entry>, v: seq<Entry>, f: Flow, k: int)
    requires Sorted(v) && f !in Viewed(v) && v == Without(before, f)
    ensures Placed(before, Insert(v, Entry(k, f)), f, k)
  {
    InsertFacts(v, Entry(k, f));
    InsertWithout(v, Entry(k, f));
    InsertWithKey(v, Entry(k, f), k);
    WithoutNone(v, f);
    hide Without, WithKey, Insert;
  }

  /** What the view holds after an event that concerns one flow, with the other flows in their places. A viewed flow
      moves only if its key has changed. */
  ghost predicate ViewRuled(s: State, e: Event, w: World, t: State)
    requires e.Adds? || e.Updates? || e.Removes?
  {
    var f := e.f;
    var stored := Stored(s, f.id);
    if e.Adds? then
      if stored || !w.accepts(s.filter, f) then t.view == s.view else Placed(s.view, t.view, f, KeyOf(t, f, w))
    else if f !in s.store then t.view == s.view
    else if e.Removes? || !w.accepts(s.filter, f) then t.view == Without(s.view, f)
    else if f in Viewed(s.view) && KeyOf(s, f, w) == w.key(s.order, f) then t.view == s.view
    else Placed(s.view, t.view, f, KeyOf(t, f, w))
  }

  lemma AppearPlaced(s: State, f: Flow, w: World)
    requires Core(s) && f in s.store && f !in Viewed(s.view)
    ensures var t := Appear(s, f, w); Placed(s.view, t.view, f, KeyOf(t, f, w)) && KeyOf(t, f, w) == KeyOf(s, f, w)
  {
    CoreSorted(s);
    WithoutNone(s.view, f);
    AppearIs(s, f, w);
    hide Core, Placed, Insert, Appear, KeyOf, Without, Viewed;
    InsertPlaced(s.view, s.view, f, KeyOf(s, f, w));
  }

  lemma AppearIs(s: State, f: Flow, w: World)
    requires f.id in Ids(s.store)
    ensures
      var t := Appear(s, f, w);
      t.view == Insert(s.view, Entry(KeyOf(s, f, w), f)) && KeyOf(t, f, w) == KeyOf(s, f, w)
  {
    hide Insert;
  }

  lemma AddsView(s: State, f: Flow, w: World)
    requires Inv(s)
    ensures ViewRuled(s, Adds(f), w, AddFlow(s, f, w))
  {
    assert Stored(s, f.id) <==> f.id in Ids(s.store);
    if f.id !in Ids(s.store) {
      StoreKeeps(s, f);
      if w.accepts(s.filter, f) {
        var u := s.(store := s.store + [f]);
        InvCore(u);
        AppearPlaced(u, f, w);
      }
    }
    hide Inv, Core, Placed, Appear, Stored;
  }

  lemma InvCore(s: State)
    requires Inv(s)
    ensures Core(s)
  {
  }

  lemma LeavesView(s: State, f: Flow, w: World)
    requires Inv(s) && f in Viewed(s.view) && Contains(s, f, w)
    ensures Disappear(s, f, w).view == Without(s.view, f)
  {
    var i := IndexOf(s.view, Entry(KeyOf(s, f, w), f));
    CoreNoRepeat(s);
    RemoveWithout(s.view, i);
    hide RemoveAt, Without, IndexOf;
  }

  lemma RefreshesView(s: State, f: Flow, w: World)
    requires Inv(s) && f in Viewed(s.view) && Contains(s, f, w)
    ensures
      var t := Refresh(s, f, w);
      if KeyOf(s, f, w) == w.key(s.order, f) then t.view == s.view else Placed(s.view, t.view, f, KeyOf(t, f, w))
  {
    var i, k := IndexOf(s.view, Entry(KeyOf(s, f, w), f)), w.key(s.order, f);
    if KeyOf(s, f, w) != k {
      CoreNoRepeat(s);
      RemoveWithout(s.view, i);
      DropKeeps(s, i);
      CoreSorted(s.(view := RemoveAt(s.view, i)));
      InsertPlaced(s.view, RemoveAt(s.view, i), f, k);
      RekeyedKeeps(s, f, w);
      RefreshKeeps(s, f, w);
      assert Inv(Rekeyed(s, f, w));
      hide Inv, RemoveAt, Without, IndexOf, Placed, Insert, KeyOf, Contains;
      assert Rekeyed(s, f, w).view == Insert(RemoveAt(s.view, i), Entry(k, f));
      InvCore(Rekeyed(s, f, w));
      RefreshedFocus(Rekeyed(s, f, w), w);
    }
  }

  lemma UpdatesView(s: State, f: Flow, w: World)
    requires Inv(s) && Allowed(s, Updates(f), w)
    ensures ViewRuled(s, Updates(f), w, UpdateFlow(s, f, w))
  {
    SearchKeeps(s, f, w);
    InvCore(s);
    var u := Search(s, f, w);
    InvCore(u);
    SearchKey(s, f, w);
    ViewedStored(s);
    hide Inv, Core, Search, Contains, Appear, Refresh, Disappear, Placed, Without, KeyOf, Viewed;
    assert f in s.store ==> f.id in Ids(s.store);
    if f in s.store {
      if f in Viewed(s.view) {
        RefreshesView(u, f, w);
        LeavesView(u, f, w);
      } else {
        AppearPlaced(u, f, w);
        WithoutNone(s.view, f);
      }
    }
  }

  lemma SearchKey(s: State, f: Flow, w: World)
    requires Core(s)
    ensures KeyOf(Search(s, f, w), f, w) == KeyOf(s, f, w)
  {
    TouchKeeps(s, f, w);
  }

  lemma RemovesView(s: State, f: Flow, w: World)
    requires Inv(s)
    ensures ViewRuled(s, Removes(f), w, RemoveFlow(s, f, w))
  {
    SearchKeeps(s, f, w);
    var u := Search(s, f, w);
    ViewedStored(s);
    assert f in s.store ==> f.id in Ids(s.store);
    if f in Viewed(s.view) {
      LeavesView(u, f, w);
    } else {
      WithoutNone(s.view, f);
    }
    hide Inv, Core, Search, Contains, Disappear, Without, Viewed, Select;
  }

  /** `add`, `update` and `remove` leave all other viewed flows where they are; the flow itself stands by its cached
      key, behind flows with the same key; and a flow whose key has not changed does not move. The commands for the
      focus and the flags do not touch the sorted list. */
  lemma ViewRule(s: State, e: Event, w: World)
    requires Inv(s) && Allowed(s, e, w)
    ensures e.Adds? || e.Updates? || e.Removes? ==> ViewRuled(s, e, w, Step(s, e, w))
    ensures e.SetsReversed? || e.SetsFollow? || e.Goes? || e.Next? || e.Prev? || e.Focuses? ==>
      Step(s, e, w).view == s.view
    ensures e.Clears? ==> Step(s, e, w).view == []
  {
    hide Inv, AddFlow, UpdateFlow, RemoveFlow, Refilter, SetOrder, Go, FocusMove, FocusFlow, FocusOnRefresh, ViewRuled;
    match e
    case Adds(f) => AddsView(s, f, w);
    case Updates(f) => UpdatesView(s, f, w);
    case Removes(f) => RemovesView(s, f, w);
    case Clears => RefreshedFocus(s.(store := [], view := []), w) by { EmptyCore(s.(store := [], view := [])); }
    case SetsReversed(b) =>
      InvCore(s);
      CoreReversed(s, b);
      RefreshedFocus(s.(reversed := b), w);
    case Goes(n) => GoKeeps(s, n);
    case Next => FocusMoveKeeps(s, 1, w);
    case Prev => FocusMoveKeeps(s, -1, w);
    case Focuses(f) => FocusFlowKeeps(s, f, w);
    case _ =>
  }

  /** After the commands that refilter, exactly the stored flows are viewed that have a mark, if marks are asked for,
      and that the filter accepts; those with equal keys stand in the order of the store. */
  lemma RefilterRule(s: State, e: Event, w: World, k: int)
    requires Inv(s) && (e.ClearsNotMarked? || e.SetsFilter? || e.TogglesMarked?)
    ensures
      var t := Step(s, e, w);
      var shown := (f: Flow) => (if t.showMarked then w.marked(f) else true) && w.accepts(t.filter, f);
      && (forall f :: f in Viewed(t.view) <==> f in t.store && shown(f))
      && WithKey(t.view, k) == Kept(Kept(t.store, shown), (f: Flow) => Entry(k, f) in t.view)
  {
    var t := Step(s, e, w);
    var u := if e.ClearsNotMarked? then s.(store := Select(s.store, w.marked))
             else if e.SetsFilter? then s.(filter := e.filter)
             else s.(showMarked := !s.showMarked);
    SelectDistinct(s.store, w.marked);
    assert Distinct(u.store);
    SettingsRule(s, e, w);
    RefilterKeeps(u, w);
    RefilterStable(u, w, k);
    StepKeeps(s, e, w);
    var shown := (f: Flow) => (if t.showMarked then w.marked(f) else true) && w.accepts(t.filter, f);
    assert t.view == Refilter(u, w).view && t.store == u.store by {
      hide Refilter;
    }
    assert forall f :: shown(f) == Shown(u, w)(f);
    hide Step, Refilter, Inv, Core, Select, Shown, KeyOf, WithKey, Viewed;
    SelectSame(u.store, Shown(u, w), shown);
    SelectKept(u.store, shown);
    var fs := Select(u.store, shown);
    SelectKept(fs, Keyed(u, k, w));
    forall f | f in fs
      ensures Keyed(u, k, w)(f) <==> Entry(k, f) in t.view
    {
      WithKeyMember(t.view, k, f);
      assert f in Select(fs, Keyed(u, k, w)) <==> Keyed(u, k, w)(f);
    }
    KeptSame(fs, Keyed(u, k, w), (f: Flow) => Entry(k, f) in t.view);
  }

  lemma {:induction false} WithKeyMember(v: seq<Entry>, k: int, f: Flow)
    ensures f in WithKey(v, k) <==> Entry(k, f) in v
  {
    if v != [] {
      WithKeyMember(v[1..], k, f);
      assert v == [v[0]] + v[1..];
    }
  }

  lemma {:induction false} KeptSame(fs: seq<Flow>, p: Flow -> bool, q: Flow -> bool)
    requires forall f :: f in fs ==> p(f) == q(f)
    ensures Kept(fs, p) == Kept(fs, q)
  {
    if fs != [] {
      assert fs[0] in fs && forall f :: f in fs[1..] ==> f in fs;
      KeptSame(fs[1..], p, q);
    }
  }
}

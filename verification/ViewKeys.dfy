/** When a sort key is computed and cached, and how long it stays. */
module ViewKeys {
  import opened Prelude
  import opened ViewModel
  import opened ViewProperties
  import opened ViewRules

  ghost function Cached(s: State, id: string, o: Order): Option<int> {
    if id in s.settings && o in s.settings[id] then Some(s.settings[id][o]) else None
  }

  /** What may happen to one cached key without a refresh: it stays, or the present key for the current order is
      computed for one of the flows `us` with this id. */
  ghost predicate KeyKept(s: State, t: State, w: World, id: string, o: Order, us: set<Flow>) {
    || Cached(t, id, o) == Cached(s, id, o)
    || (Cached(s, id, o).None? && o == t.order
        && exists g :: g in us && g.id == id && Cached(t, id, o) == Some(w.key(o, g)))
  }

  ghost predicate KeysKept(s: State, t: State, w: World, us: set<Flow>) {
    forall id, o :: KeyKept(s, t, w, id, o, us)
  }

  lemma TouchKeys(s: State, f: Flow, w: World, us: set<Flow>)
    requires f in us
    ensures KeysKept(s, Touch(s, f, w), w, us)
  {
    var t := Touch(s, f, w);
    forall id, o
      ensures KeyKept(s, t, w, id, o, us)
    {
      assert f.id == id && Cached(t, id, o) != Cached(s, id, o) ==> Cached(t, id, o) == Some(w.key(o, f));
    }
  }

  lemma BaseAddKeys(s: State, f: Flow, w: World, us: set<Flow>)
    requires f.id in Ids(s.store) && f in us
    ensures KeysKept(s, BaseAdd(s, f, w), w, us)
  {
    var t := BaseAdd(s, f, w);
    forall id, o
      ensures KeyKept(s, t, w, id, o, us)
    {
      assert f.id == id && Cached(t, id, o) != Cached(s, id, o) ==> Cached(t, id, o) == Some(w.key(o, f));
    }
  }

  lemma KeysChain(s: State, t: State, u: State, w: World, us: set<Flow>)
    requires KeysKept(s, t, w, us) && KeysKept(t, u, w, us) && t.order == u.order
    ensures KeysKept(s, u, w, us)
  {
    hide Cached;
    forall id, o
      ensures KeyKept(s, u, w, id, o, us)
    {
      assert KeyKept(s, t, w, id, o, us) && KeyKept(t, u, w, id, o, us);
    }
  }

  lemma {:induction false} RefillKeys(s: State, fs: seq<Flow>, w: World, us: set<Flow>)
    requires forall f :: f in fs ==> f.id in Ids(s.store) && f in us
    ensures KeysKept(s, BaseAddAll(s, fs, w), w, us)
  {
    hide KeysKept;
    if fs == [] {
      SameKeys(s, s, w, us);
    } else {
      var rest := fs[..|fs| - 1];
      RefillKeys(s, rest, w, us);
      RefillFrame(s, rest, w);
      RefillFrame(s, fs, w);
      hide Ids, BaseAdd;
      BaseAddKeys(BaseAddAll(s, rest, w), fs[|fs| - 1], w, us);
      KeysChain(s, BaseAddAll(s, rest, w), BaseAddAll(s, fs, w), w, us);
    }
  }

  lemma SameKeys(s: State, t: State, w: World, us: set<Flow>)
    requires s.settings == t.settings
    ensures KeysKept(s, t, w, us)
  {
    forall id, o
      ensures KeyKept(s, t, w, id, o, us)
    {
    }
  }

  lemma SearchKeys(s: State, f: Flow, w: World, us: set<Flow>)
    requires s.view != [] ==> f in us
    ensures KeysKept(s, Search(s, f, w), w, us)
  {
    if s.view != [] {
      TouchKeys(s, f, w, us);
    }
    SameKeys(s, s, w, us);
    hide KeysKept, Touch;
  }

  /** A refresh computes no key, as the one of the focused flow is cached already. */
  lemma RefreshKeys(s: State, w: World)
    requires s.view != [] && s.focus.Some? && s.focus.value.id in Ids(s.store) ==> HasKey(s, s.focus.value.id)
    ensures FocusOnRefresh(s, w).settings == s.settings
  {
    hide Contains, Nearest, ItemAt, KeyOf, HasKey;
  }

  lemma AppearKeys(s: State, f: Flow, w: World, us: set<Flow>)
    requires f.id in Ids(s.store) && f in us
    ensures KeysKept(s, Appear(s, f, w), w, us)
  {
    BaseAddKeys(s, f, w, us);
    assert Appear(s, f, w).settings == BaseAdd(s, f, w).settings && Appear(s, f, w).order == BaseAdd(s, f, w).order by {
      hide BaseAdd;
    }
    hide Appear, BaseAdd, Ids;
  }

  /** The key of a refreshed flow is its present one; all others are kept. */
  lemma RefreshFlowKeys(s: State, f: Flow, w: World, id: string, o: Order, us: set<Flow>)
    requires Inv(s) && f in Viewed(s.view) && Contains(s, f, w)
    ensures
      var t := Refresh(s, f, w);
      if id == f.id && o == s.order then Cached(t, id, o) == Some(w.key(o, f)) else KeyKept(s, t, w, id, o, us)
  {
    ContainsExact(s, f, w);
    hide Core, FocusOnRefresh, Contains, Insert, RemoveAt, IndexOf;
    if KeyOf(s, f, w) != w.key(s.order, f) {
      var u := Rekeyed(s, f, w);
      RekeyedKey(s, f, w, id, o);
      RekeyedKeeps(s, f, w);
      FocusCached(u);
      RefreshKeys(u, w);
      RefreshSettings(u, w);
      hide Rekeyed, Inv, Viewed, HasKey;
    }
  }

  lemma FocusCached(s: State)
    requires Inv(s)
    ensures s.focus.Some? ==> HasKey(s, s.focus.value.id) && s.focus.value in Viewed(s.view)
  {
  }

  lemma RekeyedKey(s: State, f: Flow, w: World, id: string, o: Order)
    requires Contains(s, f, w)
    ensures
      var u := Rekeyed(s, f, w);
      && u.order == s.order
      && Cached(u, id, o) == if id == f.id && o == s.order then Some(w.key(o, f)) else Cached(s, id, o)
  {
    hide Insert, RemoveAt, Contains, IndexOf;
  }

  /** The flows whose key is asked for: those that are viewed afterwards, and the one that is searched for. */
  ghost function Asked(s: State, e: Event, t: State): set<Flow> {
    Viewed(t.view) + (if (e.Updates? || e.Removes? || e.Focuses?) && s.view != [] then {e.f} else {})
  }

  /** No cached key is lost or changed as long as its flow is stored, for the current order and for every other one,
      except that `update` gives an accepted viewed flow its present key; what is newly cached is the present key of a
      flow that is asked for, under the current order. */
  ghost predicate KeyRuled(s: State, e: Event, w: World, t: State, id: string, o: Order) {
    if !Stored(t, id) then Cached(t, id, o).None?
    else if e.Updates? && e.f.id == id && o == s.order && e.f in Viewed(s.view) && w.accepts(s.filter, e.f) then
      Cached(t, id, o) == Some(w.key(o, e.f))
    else KeyKept(s, t, w, id, o, Asked(s, e, t))
  }

  lemma RuledByKept(s: State, e: Event, w: World, t: State, id: string, o: Order)
    requires t.settings.Keys <= Ids(t.store) && (Stored(t, id) ==> KeyKept(s, t, w, id, o, Asked(s, e, t)))
    requires !e.Updates? || e.f !in Viewed(s.view) || !w.accepts(s.filter, e.f)
    ensures KeyRuled(s, e, w, t, id, o)
  {
  }

  lemma UpdatesKeys(s: State, f: Flow, w: World, id: string, o: Order)
    requires Inv(s) && Allowed(s, Updates(f), w)
    ensures KeyRuled(s, Updates(f), w, UpdateFlow(s, f, w), id, o)
  {
    var t := UpdateFlow(s, f, w);
    var us := Asked(s, Updates(f), t);
    UpdateKeeps(s, f, w);
    InvScope(t);
    if f in Viewed(s.view) && w.accepts(s.filter, f) {
      InvCore(s);
      ViewedStored(s);
      ContainsExact(s, f, w);
      RefreshFlowKeys(s, f, w, id, o, us);
      assert t == Refresh(s, f, w) by {
        hide Core, Inv, Refresh, Contains;
        assert Search(s, f, w) == s;
      }
      hide Inv, Refresh, KeyKept, Cached, Core, UpdateFlow, Viewed;
      ScopeCached(t, id, o);
    } else {
      if f.id in Ids(s.store) && w.accepts(s.filter, f) {
        EnteredAsked(s, f, w);
      }
      PlainUpdateKeys(s, f, w, us);
      hide Inv, UpdateFlow, Cached, Viewed;
      assert KeyKept(s, t, w, id, o, us);
      RuledByKept(s, Updates(f), w, t, id, o);
    }
  }

  lemma EnteredAsked(s: State, f: Flow, w: World)
    requires Inv(s) && Allowed(s, Updates(f), w) && f.id in Ids(s.store) && w.accepts(s.filter, f)
    ensures f in Viewed(UpdateFlow(s, f, w).view)
  {
    UpdateKeeps(s, f, w);
    hide Inv, UpdateFlow, Viewed;
  }

  lemma PlainUpdateKeys(s: State, f: Flow, w: World, us: set<Flow>)
    requires Inv(s) && (f !in Viewed(s.view) || !w.accepts(s.filter, f))
    requires s.view != [] || (f.id in Ids(s.store) && w.accepts(s.filter, f)) ==> f in us
    ensures KeysKept(s, UpdateFlow(s, f, w), w, us)
  {
    SearchKeeps(s, f, w);
    SearchKeys(s, f, w, us);
    SameKeys(s, s, w, us);
    var u, t := Search(s, f, w), UpdateFlow(s, f, w);
    hide Inv, Search, Appear, Disappear, Refresh, Contains, KeysKept, Viewed;
    if f.id in Ids(s.store) {
      if w.accepts(s.filter, f) {
        AppearKeys(u, f, w, us);
        AppearSettings(u, f, w);
        KeysChain(s, u, Appear(u, f, w), w, us);
      } else if f in Viewed(s.view) {
        DisappearKeeps(u, f, w);
        SameKeys(u, Disappear(u, f, w), w, us);
        KeysChain(s, u, Disappear(u, f, w), w, us);
      }
    }
  }

  lemma InvScope(s: State)
    requires Inv(s)
    ensures s.settings.Keys <= Ids(s.store)
  {
  }

  lemma ScopeCached(s: State, id: string, o: Order)
    requires s.settings.Keys <= Ids(s.store)
    ensures !Stored(s, id) ==> Cached(s, id, o).None?
  {
  }

  lemma AddsKeys(s: State, f: Flow, w: World, us: set<Flow>)
    requires Inv(s) && (f.id !in Ids(s.store) && w.accepts(s.filter, f) ==> f in us)
    ensures KeysKept(s, AddFlow(s, f, w), w, us)
  {
    var u := s.(store := s.store + [f]);
    SameKeys(s, s, w, us);
    SameKeys(s, u, w, us);
    if f.id !in Ids(s.store) && w.accepts(s.filter, f) {
      StoreKeeps(s, f);
      AppearKeys(u, f, w, us);
      AppearSettings(u, f, w);
      KeysChain(s, u, Appear(u, f, w), w, us);
    }
    hide Inv, Appear, KeysKept;
  }

  lemma RemovesKeys(s: State, f: Flow, w: World, id: string, o: Order, us: set<Flow>)
    requires Inv(s) && (s.view != [] ==> f in us)
    ensures Stored(RemoveFlow(s, f, w), id) ==> KeyKept(s, RemoveFlow(s, f, w), w, id, o, us)
  {
    SearchKeys(s, f, w, us);
    SameKeys(s, s, w, us);
    RemovedSettings(s, f, w);
    var u, t := Search(s, f, w), RemoveFlow(s, f, w);
    assert KeyKept(s, u, w, id, o, us) && KeyKept(s, s, w, id, o, us);
    hide Inv, Search, RemoveFlow, KeysKept, Cached;
    if f.id in Ids(s.store) && id != f.id {
      DroppedKey(u, t, f.id, id, o);
    }
  }

  lemma DroppedKey(u: State, t: State, gone: string, id: string, o: Order)
    requires t.settings == u.settings - {gone} && id != gone
    ensures Cached(t, id, o) == Cached(u, id, o)
  {
  }

  lemma RemovedSettings(s: State, f: Flow, w: World)
    requires Inv(s)
    ensures
      var u, t := Search(s, f, w), RemoveFlow(s, f, w);
      if f.id in Ids(s.store) then !Stored(t, f.id) && t.settings == u.settings - {f.id} && t.order == u.order
      else t == s
  {
    SearchKeeps(s, f, w);
    RemoveKeeps(s, f, w);
    var u := Search(s, f, w);
    if f in Viewed(s.view) {
      DisappearKeeps(u, f, w);
    }
    hide Inv, Search, Disappear, Contains, Select, Viewed;
  }

  lemma RefilterKeys(s: State, w: World, us: set<Flow>)
    requires s.focus.Some? ==> HasKey(s, s.focus.value.id)
    requires forall f :: f in Select(s.store, Shown(s, w)) ==> f in us
    ensures KeysKept(s, Refilter(s, w), w, us)
  {
    var z, fs := s.(view := []), Select(s.store, Shown(s, w));
    SameKeys(s, z, w, us);
    RefillKeys(z, fs, w, us);
    RefillFrame(z, fs, w);
    var u := BaseAddAll(z, fs, w);
    if s.focus.Some? {
      assert KeyKept(z, u, w, s.focus.value.id, s.order, us);
    }
    RefreshKeys(u, w);
    RefreshSettings(u, w);
    hide BaseAddAll, FocusOnRefresh, Select, Shown, KeysKept;
    SameKeys(u, FocusOnRefresh(u, w), w, us);
    KeysChain(s, z, u, w, us);
    KeysChain(s, u, FocusOnRefresh(u, w), w, us);
  }

  lemma RefilteredKeys(s: State, u: State, w: World, us: set<Flow>)
    requires Inv(s) && u.settings == s.settings && u.order == s.order && u.focus == s.focus && Distinct(u.store)
    requires us >= Viewed(Refilter(u, w).view)
    ensures KeysKept(s, Refilter(u, w), w, us)
  {
    FocusCached(s);
    SameKeys(s, u, w, us);
    RefilterKeeps(u, w);
    RefilterKeys(u, w, us);
    RefilterSettings(u, w);
    hide Refilter, KeysKept;
    KeysChain(s, u, Refilter(u, w), w, us);
  }

  lemma PrunedKeys(s: State, u: State, w: World, id: string, o: Order, us: set<Flow>)
    requires KeysKept(s, u, w, us)
    ensures Stored(Prune(u), id) ==> KeyKept(s, Prune(u), w, id, o, us)
  {
    assert KeyKept(s, u, w, id, o, us);
    assert Stored(Prune(u), id) ==> Cached(Prune(u), id, o) == Cached(u, id, o);
    hide Cached, KeysKept;
  }

  lemma SetOrderKeys(s: State, o: Order, w: World, us: set<Flow>)
    requires Inv(s) && us >= Viewed(s.view)
    ensures KeysKept(s, SetOrder(s, o, w), w, us)
  {
    var z := s.(order := o, view := []);
    ViewedDistinct(s);
    FlowsViewed(s.view);
    assert forall f :: f in Flows(s.view) ==> f in Viewed(s.view);
    SameKeys(s, z, w, us);
    RefillKeys(z, Flows(s.view), w, us);
    RefillFrame(z, Flows(s.view), w);
    SetOrderIs(s, o, w);
    hide BaseAddAll, SetOrder, KeysKept, Inv, Core;
    KeysChain(s, z, SetOrder(s, o, w), w, us);
  }

  lemma ReversesKeys(s: State, on: bool, w: World, us: set<Flow>)
    requires Inv(s)
    ensures KeysKept(s, FocusOnRefresh(s.(reversed := on), w), w, us)
  {
    var u := s.(reversed := on);
    FocusCached(s);
    RefreshKeys(u, w);
    hide FocusOnRefresh, KeysKept;
    SameKeys(s, FocusOnRefresh(u, w), w, us);
  }

  lemma FocusKeys(s: State, f: Flow, w: World, us: set<Flow>)
    requires s.view != [] ==> f in us
    ensures KeysKept(s, FocusFlow(s, f, w), w, us)
  {
    SearchKeys(s, f, w, us);
    var u, t := Search(s, f, w), FocusFlow(s, f, w);
    SameKeys(u, t, w, us) by {
      hide Search, Contains;
    }
    FocusSettings(s, f, w);
    SearchSettings(s, f, w);
    hide Search, FocusFlow, KeysKept;
    KeysChain(s, u, t, w, us);
  }

  lemma KeyRule(s: State, e: Event, w: World, id: string, o: Order)
    requires Inv(s) && Allowed(s, e, w)
    ensures KeyRuled(s, e, w, Step(s, e, w), id, o)
  {
    var t := Step(s, e, w);
    StepKeeps(s, e, w);
    InvScope(t);
    hide Inv, Refilter, SetOrder, FocusOnRefresh, FocusFlow, FocusMove, Go, AddFlow, UpdateFlow, RemoveFlow, Prune;
    if e.Updates? {
      UpdatesKeys(s, e.f, w, id, o);
    } else {
      OtherKeysKept(s, e, w, id, o);
      hide Step, KeyKept;
      RuledByKept(s, e, w, t, id, o);
    }
  }

  lemma OtherKeysKept(s: State, e: Event, w: World, id: string, o: Order)
    requires Inv(s) && !e.Updates?
    ensures Stored(Step(s, e, w), id) ==> KeyKept(s, Step(s, e, w), w, id, o, Asked(s, e, Step(s, e, w)))
  {
    hide Inv, KeyKept, Refilter, Prune, FocusOnRefresh;
    match e
    case Adds(_) => FlowKeysKept(s, e, w, id, o);
    case Removes(_) => FlowKeysKept(s, e, w, id, o);
    case Focuses(_) => FlowKeysKept(s, e, w, id, o);
    case Clears =>
      ClearsKeys(s, w, Asked(s, e, Step(s, e, w)));
      PrunedKeys(s, FocusOnRefresh(s.(store := [], view := []), w), w, id, o, Asked(s, e, Step(s, e, w)));
    case ClearsNotMarked => UnmarkedKeysKept(s, w, id, o);
    case _ => SettingKeysKept(s, e, w);
  }

  lemma FlowKeysKept(s: State, e: Event, w: World, id: string, o: Order)
    requires Inv(s) && (e.Adds? || e.Removes? || e.Focuses?)
    ensures Stored(Step(s, e, w), id) ==> KeyKept(s, Step(s, e, w), w, id, o, Asked(s, e, Step(s, e, w)))
  {
    hide FocusFlow, AddFlow, RemoveFlow, Inv, KeyKept;
    var us := Asked(s, e, Step(s, e, w));
    match e
    case Adds(f) =>
      AddKeeps(s, f, w);
      AddsKeys(s, f, w, us);
    case Removes(f) => RemovesKeys(s, f, w, id, o, us);
    case Focuses(f) => FocusKeys(s, f, w, us);
  }

  lemma UnmarkedKeysKept(s: State, w: World, id: string, o: Order)
    requires Inv(s)
    ensures
      var t := ClearNotMarked(s, w);
      Stored(t, id) ==> KeyKept(s, t, w, id, o, Asked(s, ClearsNotMarked, t))
  {
    assert Distinct(s.store);
    hide Refilter, Prune, Inv, KeyKept;
    var u, us := s.(store := Select(s.store, w.marked)), Asked(s, ClearsNotMarked, ClearNotMarked(s, w));
    SelectDistinct(s.store, w.marked);
    PrunedView(Refilter(u, w));
    RefilteredKeys(s, u, w, us);
    PrunedKeys(s, Refilter(u, w), w, id, o, us);
  }

  lemma PrunedView(s: State)
    ensures Prune(s).view == s.view
  {
  }

  lemma SettingKeysKept(s: State, e: Event, w: World)
    requires Inv(s)
    requires !e.Adds? && !e.Updates? && !e.Removes? && !e.Focuses? && !e.Clears? && !e.ClearsNotMarked?
    ensures KeysKept(s, Step(s, e, w), w, Asked(s, e, Step(s, e, w)))
  {
    assert Distinct(s.store);
    hide Refilter, SetOrder, FocusOnRefresh, FocusMove, Go, Inv, KeysKept;
    var us := Asked(s, e, Step(s, e, w));
    match e
    case SetsOrder(p) =>
      SetOrderKeeps(s, p, w);
      SetOrderKeys(s, p, w, us);
    case SetsReversed(b) => ReversesKeys(s, b, w, us);
    case SetsFilter(n) => RefilteredKeys(s, s.(filter := n), w, us);
    case TogglesMarked => RefilteredKeys(s, s.(showMarked := !s.showMarked), w, us);
    case SetsFollow(b) => SameKeys(s, s.(follow := b), w, us);
    case Goes(n) => GoKeeps(s, n); SameKeys(s, Go(s, n), w, us);
    case Next => FocusMoveKeeps(s, 1, w); SameKeys(s, FocusMove(s, 1, w), w, us);
    case Prev => FocusMoveKeeps(s, -1, w); SameKeys(s, FocusMove(s, -1, w), w, us);
  }

  lemma ClearsKeys(s: State, w: World, us: set<Flow>)
    ensures KeysKept(s, FocusOnRefresh(s.(store := [], view := []), w), w, us)
  {
    SameKeys(s, FocusOnRefresh(s.(store := [], view := []), w), w, us);
  }

  /** What is asked for is cached, if its flow is stored. */
  lemma AskedCached(s: State, e: Event, w: World, g: Flow)
    requires Inv(s) && Allowed(s, e, w)
    ensures var t := Step(s, e, w); g in Asked(s, e, t) && Stored(t, g.id) ==> Cached(t, g.id, t.order).Some?
  {
    var t := Step(s, e, w);
    StepKeeps(s, e, w);
    ViewedCached(t);
    if g in Asked(s, e, t) && g !in Viewed(t.view) && Stored(t, g.id) {
      hide Inv, UpdateFlow, RemoveFlow, FocusFlow, Viewed;
      match e
      case Updates(f) => RejectedCached(s, f, w);
      case Removes(f) => RemovedSettings(s, f, w); NotStored(s, f);
      case Focuses(f) => FocusedCached(s, f, w);
    }
  }

  lemma NotStored(s: State, f: Flow)
    ensures Stored(s, f.id) <==> f.id in Ids(s.store)
  {
  }

  lemma ViewedCached(s: State)
    requires Inv(s)
    ensures forall g :: g in Viewed(s.view) ==> Cached(s, g.id, s.order).Some?
  {
  }

  lemma SearchCached(s: State, f: Flow, w: World)
    requires s.view != [] && f.id in Ids(s.store)
    ensures Cached(Search(s, f, w), f.id, s.order).Some?
  {
  }

  lemma RejectedCached(s: State, f: Flow, w: World)
    requires Inv(s) && Allowed(s, Updates(f), w) && s.view != [] && Stored(UpdateFlow(s, f, w), f.id)
    requires f !in Viewed(UpdateFlow(s, f, w).view)
    ensures Cached(UpdateFlow(s, f, w), f.id, UpdateFlow(s, f, w).order).Some?
  {
    UpdateKeeps(s, f, w);
    NotStored(UpdateFlow(s, f, w), f);
    SearchCached(s, f, w);
    SearchKeeps(s, f, w);
    UpdatesSettings(s, f, w);
    var u := Search(s, f, w);
    if w.accepts(s.filter, f) {
      EnteredAsked(s, f, w);
    } else {
      assert UpdateFlow(s, f, w).settings == u.settings by {
        if f in Viewed(s.view) {
          DisappearKeeps(u, f, w);
        }
        hide Inv, Search, Contains, Disappear, Viewed;
      }
    }
    hide Inv, Search, UpdateFlow, Cached;
    CachedSame(u, UpdateFlow(s, f, w), f.id, s.order);
  }

  lemma CachedSame(s: State, t: State, id: string, o: Order)
    ensures s.settings == t.settings ==> Cached(s, id, o) == Cached(t, id, o)
  {
  }

  lemma FocusedCached(s: State, f: Flow, w: World)
    requires Inv(s) && s.view != [] && Stored(FocusFlow(s, f, w), f.id)
    ensures Cached(FocusFlow(s, f, w), f.id, FocusFlow(s, f, w).order).Some?
  {
    FocusFlowKeeps(s, f, w);
    FocusSettings(s, f, w);
    NotStored(s, f);
    SearchCached(s, f, w);
    assert FocusFlow(s, f, w).settings == Search(s, f, w).settings by {
      hide Search, Contains;
    }
    CachedSame(Search(s, f, w), FocusFlow(s, f, w), f.id, s.order);
    hide Inv, Search, FocusFlow, Cached;
  }
}

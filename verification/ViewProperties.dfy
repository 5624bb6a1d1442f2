/** What the view keeps over every run, whatever happens to the flows between two calls: it stays sorted by
    the cached keys, shows exactly the flows its filter accepted last, and its focus stays inside it. */
module ViewProperties {
  import opened Prelude
  import opened ViewModel

  // ----- the invariant -----

  ghost predicate Distinct(fs: seq<Flow>) {
    forall i, j :: 0 <= i < j < |fs| ==> fs[i].id != fs[j].id
  }

  ghost predicate Sorted(v: seq<Entry>) {
    forall i, j :: 0 <= i < j < |v| ==> v[i].key <= v[j].key
  }

  ghost predicate NoRepeat(v: seq<Entry>) {
    forall i, j :: 0 <= i < j < |v| ==> v[i].flow != v[j].flow
  }

  ghost function Viewed(v: seq<Entry>): set<Flow> {
    set e | e in v :: e.flow
  }

  ghost predicate KeyCached(s: State, e: Entry) {
    HasKey(s, e.flow.id) && s.settings[e.flow.id][s.order] == e.key
  }

  /** Everything but the focus and the scope of the settings. */
  ghost predicate Core(s: State) {
    && Distinct(s.store)
    && Sorted(s.view)
    && NoRepeat(s.view)
    && (forall e :: e in s.view ==> e.flow in s.store && KeyCached(s, e))
  }

  ghost predicate FocusInside(s: State) {
    && (s.focus.None? <==> s.view == [])
    && (s.focus.Some? ==> s.focus.value in Viewed(s.view))
  }

  ghost predicate Inv(s: State) {
    Core(s) && FocusInside(s) && s.settings.Keys <= Ids(s.store)
  }

  /** The object that the store holds under the id of f, if any, is f itself. */
  ghost predicate Known(s: State, f: Flow) {
    f.id in Ids(s.store) ==> f in s.store
  }

  // ----- the sorted list -----

  /** Where each entry goes: those before b stay, e lands at b, the others move up by one. */
  lemma InsertAt(v: seq<Entry>, e: Entry, j: nat)
    requires j <= |v|
    ensures var b := BisectRight(v, e.key); Insert(v, e)[j] == if j < b then v[j] else if j == b then e else v[j - 1]
  {
    hide BisectRight;
  }

  lemma InsertSorted(v: seq<Entry>, e: Entry)
    requires Sorted(v)
    ensures Sorted(Insert(v, e))
  {
    hide BisectRight;
    var b, r := BisectRight(v, e.key), Insert(v, e);
    forall i, j | 0 <= i < j < |r|
      ensures r[i].key <= r[j].key
    {
      InsertAt(v, e, i);
      InsertAt(v, e, j);
      if b < |v| {
        assert b <= j - 1 < |v| ==> v[b].key <= v[j - 1].key;
      }
    }
  }

  lemma InsertFacts(v: seq<Entry>, e: Entry)
    requires Sorted(v)
    ensures Sorted(Insert(v, e))
    ensures forall x :: x in Insert(v, e) <==> x in v || x == e
    ensures Viewed(Insert(v, e)) == Viewed(v) + {e.flow}
    ensures NoRepeat(v) && e.flow !in Viewed(v) ==> NoRepeat(Insert(v, e))
  {
    hide BisectRight;
    InsertSorted(v, e);
    var b := BisectRight(v, e.key);
    assert v == v[..b] + v[b..];
    assert forall x :: x in v <==> x in v[..b] || x in v[b..];
    if NoRepeat(v) && e.flow !in Viewed(v) {
      InsertNoRepeat(v, e);
    }
  }

  lemma InsertNoRepeat(v: seq<Entry>, e: Entry)
    requires NoRepeat(v) && e.flow !in Viewed(v)
    ensures NoRepeat(Insert(v, e))
  {
    hide BisectRight;
    var b, r := BisectRight(v, e.key), Insert(v, e);
    forall i, j | 0 <= i < j < |r|
      ensures r[i].flow != r[j].flow
    {
      InsertAt(v, e, i);
      InsertAt(v, e, j);
      assert forall k :: 0 <= k < |v| ==> v[k] in v;
    }
  }

  lemma RemoveAtFacts(v: seq<Entry>, i: nat)
    requires i < |v| && Sorted(v) && NoRepeat(v)
    ensures Sorted(RemoveAt(v, i)) && NoRepeat(RemoveAt(v, i))
    ensures forall x :: x in RemoveAt(v, i) <==> x in v && x.flow != v[i].flow
    ensures Viewed(RemoveAt(v, i)) == Viewed(v) - {v[i].flow}
  {
    var r := RemoveAt(v, i);
    assert forall j :: 0 <= j < |r| ==> r[j] == v[if j < i then j else j + 1];
    assert Sorted(r) && NoRepeat(r);
    forall x
      ensures x in r <==> x in v && x.flow != v[i].flow
    {
      RemoveAtMember(v, i, x);
    }
  }

  lemma RemoveAtMember(v: seq<Entry>, i: nat, x: Entry)
    requires i < |v| && NoRepeat(v)
    ensures x in RemoveAt(v, i) <==> x in v && x.flow != v[i].flow
  {
    var r := RemoveAt(v, i);
    if x in r {
      var j :| 0 <= j < |r| && r[j] == x;
      assert x == v[if j < i then j else j + 1];
    }
    if x in v && x.flow != v[i].flow {
      var j :| 0 <= j < |v| && v[j] == x;
      assert r[if j < i then j else j - 1] == x;
    }
  }

  /** Under the invariant a search finds exactly the viewed flows. */
  lemma ContainsExact(s: State, f: Flow, w: World)
    requires Core(s)
    ensures Contains(s, f, w) <==> f in Viewed(s.view)
    ensures Contains(s, f, w) ==> HasKey(s, f.id) && KeyOf(s, f, w) == s.settings[f.id][s.order]
    ensures Contains(s, f, w) ==> Touch(s, f, w) == s
  {
    if f in Viewed(s.view) {
      var e :| e in s.view && e.flow == f;
      assert f.id in Ids(s.store);
      assert e == Entry(KeyOf(s, f, w), f);
    }
  }

  lemma SameObject(fs: seq<Flow>, f: Flow, g: Flow)
    requires Distinct(fs) && f in fs && g in fs && f.id == g.id
    ensures f == g
  {
    var i :| 0 <= i < |fs| && fs[i] == f;
    var j :| 0 <= j < |fs| && fs[j] == g;
  }

  lemma TouchKeeps(s: State, f: Flow, w: World)
    requires Core(s)
    ensures Core(Touch(s, f, w))
    ensures Touch(s, f, w).settings.Keys <= s.settings.Keys + Ids(s.store)
    ensures Touch(s, f, w) == s.(settings := Touch(s, f, w).settings)
    ensures KeyOf(Touch(s, f, w), f, w) == KeyOf(s, f, w)
  {
    var t := Touch(s, f, w);
    forall e | e in t.view
      ensures KeyCached(t, e)
    {
      assert KeyCached(s, e);
    }
  }

  /** Giving a flow that is not viewed a new cached key leaves the others alone. */
  lemma SetKeyKeeps(s: State, f: Flow, k: int)
    requires Core(s) && f in s.store && f !in Viewed(s.view)
    ensures Core(SetKey(s, f.id, k)) && KeyCached(SetKey(s, f.id, k), Entry(k, f))
  {
    var t := SetKey(s, f.id, k);
    forall e | e in t.view
      ensures KeyCached(t, e)
    {
      assert KeyCached(s, e) && e.flow in Viewed(s.view);
      if e.flow.id == f.id {
        SameObject(s.store, e.flow, f);
      }
    }
  }

  /** Re-inserting a flow under a new key, with that key cached. */
  lemma ReinsertKeeps(s: State, f: Flow, k: int)
    requires Core(s) && f in s.store && f !in Viewed(s.view)
    ensures Core(SetKey(s, f.id, k).(view := Insert(s.view, Entry(k, f))))
    ensures Viewed(Insert(s.view, Entry(k, f))) == Viewed(s.view) + {f}
  {
    SetKeyKeeps(s, f, k);
    var t, e := SetKey(s, f.id, k), Entry(k, f);
    InsertFacts(s.view, e);
    var u := t.(view := Insert(s.view, e));
    forall x | x in u.view
      ensures x.flow in u.store && KeyCached(u, x)
    {
      assert x in t.view ==> KeyCached(t, x);
    }
  }

  lemma BaseAddKeeps(s: State, f: Flow, w: World)
    requires Core(s) && f in s.store && f !in Viewed(s.view)
    ensures Core(BaseAdd(s, f, w))
    ensures Viewed(BaseAdd(s, f, w).view) == Viewed(s.view) + {f}
    ensures BaseAdd(s, f, w).settings.Keys == s.settings.Keys + {f.id}
  {
    ReinsertKeeps(s, f, KeyOf(s, f, w));
  }

  lemma BaseAddLength(s: State, f: Flow, w: World)
    ensures var t := BaseAdd(s, f, w); |t.view| == |s.view| + 1 && t == s.(view := t.view, settings := t.settings)
  {
  }

  lemma {:induction false} BaseAddAllKeeps(s: State, fs: seq<Flow>, w: World)
    requires Distinct(s.store) && s.view == [] && Distinct(fs)
    requires forall f :: f in fs ==> f in s.store
    ensures Core(BaseAddAll(s, fs, w))
    ensures Viewed(BaseAddAll(s, fs, w).view) == set f | f in fs
    ensures |BaseAddAll(s, fs, w).view| == |fs|
    ensures BaseAddAll(s, fs, w).settings.Keys == s.settings.Keys + Ids(fs)
    ensures var t := BaseAddAll(s, fs, w); t == s.(view := t.view, settings := t.settings)
  {
    hide Core, BaseAdd, Distinct, Ids, Viewed;
    if fs == [] {
      EmptyCore(s);
    } else {
      var rest, f := fs[..|fs| - 1], fs[|fs| - 1];
      assert fs == rest + [f];
      SetOfMore(rest, f);
      BaseAddAllKeeps(s, rest, w);
      var t := BaseAddAll(s, rest, w);
      hide BaseAddAll;
      BaseAddKeeps(t, f, w);
      BaseAddLength(t, f, w);
      assert BaseAddAll(s, fs, w) == BaseAdd(t, f, w) by { BaseAddLast(s, fs, w); }
    }
  }

  lemma EmptyCore(s: State)
    requires Distinct(s.store) && s.view == []
    ensures Core(s) && Viewed(s.view) == {} && Ids([]) == {}
  {
  }

  lemma BaseAddLast(s: State, fs: seq<Flow>, w: World)
    requires fs != []
    ensures BaseAddAll(s, fs, w) == BaseAdd(BaseAddAll(s, fs[..|fs| - 1], w), fs[|fs| - 1], w)
  {
  }

  lemma SetOfMore(fs: seq<Flow>, f: Flow)
    ensures (set g | g in fs + [f]) == (set g | g in fs) + {f}
    ensures Ids(fs + [f]) == Ids(fs) + {f.id}
    ensures Distinct(fs + [f]) ==> Distinct(fs) && f !in fs
  {
    var all := fs + [f];
    assert all[|fs|] == f && forall i :: 0 <= i < |fs| ==> all[i] == fs[i];
  }

  lemma {:induction false} SelectDistinct(fs: seq<Flow>, p: Flow -> bool)
    requires Distinct(fs)
    ensures Distinct(Select(fs, p))
  {
    if fs != [] {
      var rest, f := fs[..|fs| - 1], fs[|fs| - 1];
      SelectDistinct(rest, p);
      forall g | g in Select(rest, p)
        ensures g.id != f.id
      {
        assert g in rest;
      }
    }
  }

  // ----- the focus -----

  lemma ItemViewed(s: State, i: nat)
    requires i < |s.view|
    ensures ItemAt(s, i) in Viewed(s.view)
  {
    var j := if s.reversed then |s.view| - i - 1 else i;
    assert s.view[j] in s.view;
  }

  lemma RefreshedFocus(s: State, w: World)
    requires Core(s)
    ensures Core(FocusOnRefresh(s, w)) && FocusInside(FocusOnRefresh(s, w))
    ensures FocusOnRefresh(s, w).settings.Keys <= s.settings.Keys + Ids(s.store)
    ensures var t := FocusOnRefresh(s, w); t == s.(focus := t.focus, settings := t.settings)
  {
    if s.view != [] {
      if s.focus.None? {
        ItemViewed(s, 0);
      } else {
        TouchKeeps(s, s.focus.value, w);
        ContainsExact(s, s.focus.value, w);
        var t := Touch(s, s.focus.value, w);
        ItemViewed(t, Nearest(t, s.focus.value, w));
      }
      var x := s.view[0];
      assert x in s.view;
    }
  }

  // ----- one step -----

  lemma AppearKeeps(s: State, f: Flow, w: World)
    requires Inv(s) && f in s.store && f !in Viewed(s.view)
    ensures Inv(Appear(s, f, w))
    ensures Viewed(Appear(s, f, w).view) == Viewed(s.view) + {f}
  {
    BaseAddKeeps(s, f, w);
    assert f in Viewed(BaseAdd(s, f, w).view);
  }

  /** Taking one entry out of the sorted list. */
  lemma DropKeeps(s: State, i: nat)
    requires Core(s) && i < |s.view|
    ensures Core(s.(view := RemoveAt(s.view, i)))
    ensures Viewed(RemoveAt(s.view, i)) == Viewed(s.view) - {s.view[i].flow}
    ensures s.view[i].flow in s.store && s.view[i].flow in Viewed(s.view)
    ensures NoRepeat(RemoveAt(s.view, i)) && |RemoveAt(s.view, i)| == |s.view| - 1
  {
    RemoveAtFacts(s.view, i);
    assert s.view[i] in s.view;
    var t := s.(view := RemoveAt(s.view, i));
    forall e | e in t.view
      ensures e.flow in t.store && KeyCached(t, e)
    {
      assert e in s.view && KeyCached(s, e);
    }
  }

  lemma DisappearKeeps(s: State, f: Flow, w: World)
    requires Inv(s) && f in Viewed(s.view)
    ensures Contains(s, f, w)
    ensures Inv(Disappear(s, f, w))
    ensures Viewed(Disappear(s, f, w).view) == Viewed(s.view) - {f}
    ensures var t := Disappear(s, f, w); t == s.(view := t.view, focus := t.focus)
  {
    ContainsExact(s, f, w);
    var i := IndexOf(s.view, Entry(KeyOf(s, f, w), f));
    hide Core, Viewed, KeyOf, Contains;
    DropKeeps(s, i);
    RemovalFocus(s, i);
    CoreFocus(s.(view := RemoveAt(s.view, i)), FocusOnRemove(s.(view := RemoveAt(s.view, i)), f, i).focus);
  }

  /** The focus is nothing that Core speaks of. */
  lemma CoreFocus(s: State, focus: Option<Flow>)
    requires Core(s)
    ensures Core(s.(focus := focus))
  {
    var t := s.(focus := focus);
    assert forall e :: e in s.view ==> KeyCached(s, e) && KeyCached(t, e);
  }

  lemma RemovalFocus(s: State, i: nat)
    requires FocusInside(s) && i < |s.view|
    requires Viewed(RemoveAt(s.view, i)) == Viewed(s.view) - {s.view[i].flow}
    ensures FocusInside(FocusOnRemove(s.(view := RemoveAt(s.view, i)), s.view[i].flow, i))
  {
    var t := s.(view := RemoveAt(s.view, i));
    if t.view != [] {
      ItemViewed(t, Min(i, |t.view| - 1));
    }
  }

  /** The state in which the refresh signal is sent. */
  ghost function Rekeyed(s: State, f: Flow, w: World): State
    requires Contains(s, f, w)
  {
    var i := IndexOf(s.view, Entry(KeyOf(s, f, w), f));
    SetKey(s, f.id, w.key(s.order, f)).(view := Insert(RemoveAt(s.view, i), Entry(w.key(s.order, f), f)))
  }

  lemma RekeyedKeeps(s: State, f: Flow, w: World)
    requires Inv(s) && f in Viewed(s.view)
    ensures Contains(s, f, w)
    ensures Inv(Rekeyed(s, f, w))
    ensures Viewed(Rekeyed(s, f, w).view) == Viewed(s.view)
    ensures KeyOf(Rekeyed(s, f, w), f, w) == w.key(s.order, f)
  {
    ContainsExact(s, f, w);
    var i := IndexOf(s.view, Entry(KeyOf(s, f, w), f));
    DropKeeps(s, i);
    ReinsertKeeps(s.(view := RemoveAt(s.view, i)), f, w.key(s.order, f));
  }

  lemma RefreshKeeps(s: State, f: Flow, w: World)
    requires Inv(s) && f in Viewed(s.view)
    ensures Contains(s, f, w)
    ensures Inv(Refresh(s, f, w))
    ensures Viewed(Refresh(s, f, w).view) == Viewed(s.view)
    ensures var t := Refresh(s, f, w); t.store == s.store && t.order == s.order && t.focus == s.focus
    ensures KeyOf(Refresh(s, f, w), f, w) == w.key(s.order, f)
  {
    ContainsExact(s, f, w);
    RekeyedKeeps(s, f, w);
    if KeyOf(s, f, w) != w.key(s.order, f) {
      var t := Rekeyed(s, f, w);
      assert Refresh(s, f, w) == FocusOnRefresh(t, w);
      ContainsExact(t, t.focus.value, w);
    }
  }

  /** Storing a flow under a new id, before the filter is asked about it. */
  lemma StoreKeeps(s: State, f: Flow)
    requires Inv(s) && f.id !in Ids(s.store)
    ensures Inv(s.(store := s.store + [f]))
    ensures f in s.store + [f] && f !in Viewed(s.view)
  {
    var t := s.(store := s.store + [f]);
    assert forall g :: g in s.store ==> g.id in Ids(s.store) && g in t.store;
    assert forall e :: e in t.view ==> KeyCached(s, e) && KeyCached(t, e);
    assert Ids(s.store) <= Ids(t.store);
  }

  lemma AddKeeps(s: State, f: Flow, w: World)
    requires Inv(s)
    ensures Inv(AddFlow(s, f, w))
    ensures AddFlow(s, f, w).store == if f.id in Ids(s.store) then s.store else s.store + [f]
    ensures Viewed(AddFlow(s, f, w).view)
         == Viewed(s.view) + (if f.id !in Ids(s.store) && w.accepts(s.filter, f) then {f} else {})
  {
    if f.id !in Ids(s.store) {
      StoreKeeps(s, f);
      if w.accepts(s.filter, f) {
        AppearKeeps(s.(store := s.store + [f]), f, w);
      }
    }
    hide Inv, Viewed;
  }

  /** A search never loses the invariant. */
  lemma SearchKeeps(s: State, f: Flow, w: World)
    requires Inv(s)
    ensures Inv(Search(s, f, w))
    ensures Search(s, f, w) == s.(settings := Search(s, f, w).settings)
    ensures Contains(Search(s, f, w), f, w) <==> f in Viewed(s.view)
  {
    TouchKeeps(s, f, w);
    ContainsExact(Search(s, f, w), f, w);
  }

  ghost predicate ShownUnder(s: State, id: string) {
    exists g :: g in Viewed(s.view) && g.id == id
  }

  /** What a caller has to respect: `update` and `remove` are given the stored object, except where the mistake
      is harmless. */
  ghost predicate Allowed(s: State, e: Event, w: World) {
    match e
    case Updates(f) => Known(s, f) || !w.accepts(s.filter, f)
    case Removes(f) => Known(s, f) || !ShownUnder(s, f.id)
    case _ => true
  }

  lemma UpdateStored(s: State, f: Flow, w: World)
    requires Inv(s) && f in s.store
    ensures Inv(UpdateFlow(s, f, w)) && UpdateFlow(s, f, w).store == s.store
    ensures w.accepts(s.filter, f) ==> Viewed(UpdateFlow(s, f, w).view) == Viewed(s.view) + {f}
    ensures !w.accepts(s.filter, f) ==> Viewed(UpdateFlow(s, f, w).view) == Viewed(s.view) - {f}
  {
    hide Core, FocusInside, Refresh, Disappear, Contains, Touch, KeyOf;
    SearchKeeps(s, f, w);
    var t := Search(s, f, w);
    assert Core(t) && FocusInside(t);
    if f in Viewed(s.view) {
      RefreshKeeps(t, f, w);
      DisappearKeeps(t, f, w);
    } else if w.accepts(s.filter, f) {
      AppearKeeps(t, f, w);
    }
  }

  /** Another object with the id of a stored flow. */
  lemma UpdateStranger(s: State, f: Flow, w: World)
    requires Inv(s) && f !in s.store
    ensures Inv(UpdateFlow(s, f, w)) <==> f.id !in Ids(s.store) || !w.accepts(s.filter, f)
    ensures !w.accepts(s.filter, f) ==> UpdateFlow(s, f, w).view == s.view
    ensures UpdateFlow(s, f, w).store == s.store
  {
    SearchKeeps(s, f, w);
    var t := Search(s, f, w);
    assert f !in Viewed(s.view);
    if f.id in Ids(s.store) && w.accepts(s.filter, f) {
      var e := Entry(KeyOf(t, f, w), f);
      InsertFacts(t.view, e);
      assert e in UpdateFlow(s, f, w).view;
    }
  }

  /** The view keeps its invariant under `update` exactly when the flow passed is the stored object, or the
      filter rejects it. */
  lemma UpdateKeeps(s: State, f: Flow, w: World)
    requires Inv(s)
    ensures Inv(UpdateFlow(s, f, w)) <==> Known(s, f) || !w.accepts(s.filter, f)
    ensures f in s.store && w.accepts(s.filter, f) ==> Viewed(UpdateFlow(s, f, w).view) == Viewed(s.view) + {f}
    ensures f in s.store && !w.accepts(s.filter, f) ==> Viewed(UpdateFlow(s, f, w).view) == Viewed(s.view) - {f}
    ensures f !in s.store && Allowed(s, Updates(f), w) ==> UpdateFlow(s, f, w).view == s.view
    ensures UpdateFlow(s, f, w).store == s.store
  {
    hide Inv;
    if f in s.store {
      UpdateStored(s, f, w);
    } else {
      UpdateStranger(s, f, w);
    }
  }

  /** What is left of a state whose flow with the given id has left the view. */
  ghost function Forget(s: State, id: string): State {
    s.(store := Select(s.store, (g: Flow) => g.id != id), settings := s.settings - {id})
  }

  lemma ForgetKeeps(s: State, id: string)
    requires Inv(s)
    ensures Inv(Forget(s, id)) <==> !ShownUnder(s, id)
  {
    if ShownUnder(s, id) {
      var e :| e in s.view && e.flow.id == id;
      assert e in Forget(s, id).view;
    } else {
      SelectDistinct(s.store, (g: Flow) => g.id != id);
      ForgetEntries(s, id);
      ForgetSettings(s, id);
      hide KeyCached;
    }
  }

  lemma ForgetEntries(s: State, id: string)
    requires Core(s) && !ShownUnder(s, id)
    ensures var r := Forget(s, id); forall e :: e in r.view ==> e.flow in r.store && KeyCached(r, e)
  {
    var r := Forget(s, id);
    forall e | e in r.view
      ensures e.flow in r.store && KeyCached(r, e)
    {
      assert KeyCached(s, e) && e.flow in Viewed(s.view);
    }
  }

  lemma ForgetSettings(s: State, id: string)
    requires s.settings.Keys <= Ids(s.store)
    ensures var r := Forget(s, id); r.settings.Keys <= Ids(r.store)
  {
    var r := Forget(s, id);
    forall i | i in r.settings.Keys
      ensures i in Ids(r.store)
    {
      assert i in Ids(s.store);
      var g :| g in s.store && g.id == i;
      assert g in r.store;
    }
  }

  lemma NotShownUnder(s: State, f: Flow)
    requires Core(s) && f in s.store && f !in Viewed(s.view)
    ensures !ShownUnder(s, f.id)
  {
    forall g | g in Viewed(s.view)
      ensures g.id != f.id
    {
      if g.id == f.id {
        SameObject(s.store, g, f);
      }
    }
  }

  /** `remove` keeps the invariant exactly when the flow passed is the stored object, or the stored flow with
      its id is not in the view. */
  lemma RemoveKeeps(s: State, f: Flow, w: World)
    requires Inv(s)
    ensures Inv(RemoveFlow(s, f, w)) <==> Known(s, f) || !ShownUnder(s, f.id)
    ensures Viewed(RemoveFlow(s, f, w).view) == Viewed(s.view) - {f}
    ensures forall g :: g in RemoveFlow(s, f, w).store <==> g in s.store && g.id != f.id
  {
    hide Disappear, Contains, Touch, KeyOf, FocusInside, Select;
    assert forall g :: g in Viewed(s.view) ==> g in s.store;
    if f.id in Ids(s.store) {
      SearchKeeps(s, f, w);
      var t := Search(s, f, w);
      if f in Viewed(s.view) {
        DisappearKeeps(t, f, w);
        var u := Disappear(t, f, w);
        ForgetKeeps(u, f.id);
        NotShownUnder(u, f);
      } else {
        ForgetKeeps(t, f.id);
        if f in s.store {
          NotShownUnder(s, f);
        }
      }
    }
  }

  lemma RefilterKeeps(s: State, w: World)
    requires Distinct(s.store)
    ensures Core(Refilter(s, w)) && FocusInside(Refilter(s, w))
    ensures Viewed(Refilter(s, w).view) == set f | f in s.store && Shown(s, w)(f)
    ensures Refilter(s, w).settings.Keys <= s.settings.Keys + Ids(s.store)
    ensures Refilter(s, w).store == s.store
  {
    var fs := Select(s.store, Shown(s, w));
    SelectDistinct(s.store, Shown(s, w));
    var z := s.(view := []);
    BaseAddAllKeeps(z, fs, w);
    RefreshedFocus(BaseAddAll(z, fs, w), w);
  }

  lemma PruneKeeps(s: State)
    requires Core(s) && FocusInside(s)
    ensures Inv(Prune(s))
  {
    forall e | e in s.view
      ensures KeyCached(Prune(s), e)
    {
      assert KeyCached(s, e);
    }
  }

  lemma ClearNotMarkedKeeps(s: State, w: World)
    requires Distinct(s.store)
    ensures Inv(ClearNotMarked(s, w))
    ensures Viewed(ClearNotMarked(s, w).view) == set f | f in ClearNotMarked(s, w).store && Shown(s, w)(f)
    ensures forall f :: f in ClearNotMarked(s, w).store <==> f in s.store && w.marked(f)
  {
    hide Core, FocusInside, Refilter, Select, Inv;
    var t := s.(store := Select(s.store, w.marked));
    SelectDistinct(s.store, w.marked);
    RefilterKeeps(t, w);
    PruneKeeps(Refilter(t, w));
    assert forall f :: Shown(s, w)(f) == Shown(t, w)(f);
  }

  /** A new order keeps the very same flows, so the focus stays inside without any signal. */
  lemma SetOrderKeeps(s: State, o: Order, w: World)
    requires Inv(s)
    ensures Inv(SetOrder(s, o, w))
    ensures Viewed(SetOrder(s, o, w).view) == Viewed(s.view)
    ensures SetOrder(s, o, w).focus == s.focus && SetOrder(s, o, w).store == s.store
  {
    var fs := Flows(s.view);
    ViewedDistinct(s);
    BaseAddAllKeeps(s.(order := o, view := []), fs, w);
    FlowsViewed(s.view);
  }

  lemma ViewedDistinct(s: State)
    requires Core(s)
    ensures Distinct(Flows(s.view)) && forall f :: f in Flows(s.view) ==> f in s.store
  {
    var fs := Flows(s.view);
    forall i, j | 0 <= i < j < |fs|
      ensures fs[i].id != fs[j].id
    {
      assert s.view[i] in s.view && s.view[j] in s.view;
      if fs[i].id == fs[j].id {
        SameObject(s.store, fs[i], fs[j]);
      }
    }
    forall f | f in fs
      ensures f in s.store
    {
      var i :| 0 <= i < |fs| && fs[i] == f;
      assert s.view[i] in s.view;
    }
  }

  // ----- equal keys -----

  /** The viewed flows with this key, in their order. */
  ghost function WithKey(v: seq<Entry>, k: int): seq<Flow> {
    if v == [] then []
    else if v[0].key == k then [v[0].flow] + WithKey(v[1..], k)
    else WithKey(v[1..], k)
  }

  /** The flows that the current order gives this key. */
  ghost function Keyed(s: State, k: int, w: World): Flow -> bool {
    f => KeyOf(s, f, w) == k
  }

  lemma {:induction false} WithKeyConcat(a: seq<Entry>, b: seq<Entry>, k: int)
    ensures WithKey(a + b, k) == WithKey(a, k) + WithKey(b, k)
  {
    if a == [] {
      assert a + b == b;
    } else {
      assert (a + b)[0] == a[0] && (a + b)[1..] == a[1..] + b;
      WithKeyConcat(a[1..], b, k);
    }
  }

  lemma {:induction false} WithKeyNone(v: seq<Entry>, k: int)
    requires forall i :: 0 <= i < |v| ==> v[i].key != k
    ensures WithKey(v, k) == []
  {
    if v != [] {
      WithKeyNone(v[1..], k);
    }
  }

  lemma WithKeyOne(e: Entry, k: int)
    ensures WithKey([e], k) == if e.key == k then [e.flow] else []
  {
    assert [e][1..] == [];
  }

  /** A flow is inserted behind those with the same key. */
  lemma InsertWithKey(v: seq<Entry>, e: Entry, k: int)
    requires Sorted(v)
    ensures WithKey(Insert(v, e), k) == WithKey(v, k) + (if e.key == k then [e.flow] else [])
  {
    hide BisectRight, WithKey;
    var b := BisectRight(v, e.key);
    var front, back := v[..b], v[b..];
    assert v == front + back;
    WithKeyConcat(front, back, k);
    WithKeyConcat(front + [e], back, k);
    WithKeyConcat(front, [e], k);
    WithKeyOne(e, k);
    if e.key == k {
      forall i | 0 <= i < |back|
        ensures back[i].key != k
      {
        assert v[b].key <= v[b + i].key;
      }
      WithKeyNone(back, k);
    }
  }

  /** Filling an empty view keeps flows with equal keys in the given order. */
  lemma {:induction false} BaseAddAllStable(s: State, fs: seq<Flow>, w: World, k: int)
    requires Distinct(s.store) && s.view == [] && Distinct(fs)
    requires forall f :: f in fs ==> f in s.store
    ensures WithKey(BaseAddAll(s, fs, w).view, k) == Select(fs, Keyed(s, k, w))
  {
    hide Core, BaseAdd, Distinct, Ids, KeyOf, Insert;
    if fs != [] {
      var rest, f := fs[..|fs| - 1], fs[|fs| - 1];
      assert fs == rest + [f];
      SetOfMore(rest, f);
      BaseAddAllStable(s, rest, w, k);
      BaseAddAllKeeps(s, rest, w);
      KeyUnchanged(s, fs, w);
      BaseAddLast(s, fs, w);
      var t := BaseAddAll(s, rest, w);
      CoreSorted(t);
      BaseAddIs(t, f, w);
      InsertWithKey(t.view, Entry(KeyOf(t, f, w), f), k);
    }
  }

  lemma BaseAddIs(s: State, f: Flow, w: World)
    ensures BaseAdd(s, f, w).view == Insert(s.view, Entry(KeyOf(s, f, w), f))
  {
  }

  lemma CoreSorted(s: State)
    requires Core(s)
    ensures Sorted(s.view)
  {
  }

  /** Adding other flows does not change the key of the last one. */
  lemma KeyUnchanged(s: State, fs: seq<Flow>, w: World)
    requires fs != [] && Distinct(fs)
    ensures KeyOf(BaseAddAll(s, fs[..|fs| - 1], w), fs[|fs| - 1], w) == KeyOf(s, fs[|fs| - 1], w)
  {
    var n := |fs| - 1;
    forall i | 0 <= i < n
      ensures fs[..n][i].id != fs[n].id
    {
    }
    OtherKeys(s, fs[..n], fs[n], w);
  }

  lemma {:induction false} OtherKeys(s: State, fs: seq<Flow>, f: Flow, w: World)
    requires forall i :: 0 <= i < |fs| ==> fs[i].id != f.id
    ensures
      var t := BaseAddAll(s, fs, w);
      t.order == s.order && t.store == s.store && (HasKey(t, f.id) <==> HasKey(s, f.id))
      && (HasKey(s, f.id) ==> t.settings[f.id][t.order] == s.settings[f.id][s.order])
  {
    if fs != [] {
      OtherKeys(s, fs[..|fs| - 1], f, w);
    }
  }

  /** A new order is a stable one: flows with equal new keys keep their old relative order. */
  lemma SetOrderStable(s: State, o: Order, w: World, k: int)
    requires Inv(s)
    ensures WithKey(SetOrder(s, o, w).view, k) == Select(Flows(s.view), Keyed(s.(order := o), k, w))
  {
    var z := s.(order := o, view := []);
    ViewedDistinct(s);
    BaseAddAllStable(z, Flows(s.view), w, k);
    SelectSame(Flows(s.view), Keyed(z, k, w), Keyed(s.(order := o), k, w));
  }

  /** Refiltering shows flows with equal keys in the order in which they are stored. */
  lemma RefilterStable(s: State, w: World, k: int)
    requires Distinct(s.store)
    ensures WithKey(Refilter(s, w).view, k) == Select(Select(s.store, Shown(s, w)), Keyed(s, k, w))
  {
    var z, fs := s.(view := []), Select(s.store, Shown(s, w));
    SelectDistinct(s.store, Shown(s, w));
    BaseAddAllKeeps(z, fs, w);
    BaseAddAllStable(z, fs, w, k);
    SelectSame(fs, Keyed(z, k, w), Keyed(s, k, w));
    RefreshedFocus(BaseAddAll(z, fs, w), w);
  }

  lemma {:induction false} SelectSame(fs: seq<Flow>, p: Flow -> bool, q: Flow -> bool)
    requires forall f :: p(f) == q(f)
    ensures Select(fs, p) == Select(fs, q)
  {
    if fs != [] {
      SelectSame(fs[..|fs| - 1], p, q);
    }
  }

  lemma FlowsViewed(v: seq<Entry>)
    ensures (set f | f in Flows(v)) == Viewed(v)
  {
    forall f
      ensures f in Flows(v) <==> f in Viewed(v)
    {
      if f in Flows(v) {
        var i :| 0 <= i < |v| && Flows(v)[i] == f;
        assert v[i] in v;
      }
      if f in Viewed(v) {
        var e :| e in v && e.flow == f;
        var i :| 0 <= i < |v| && v[i] == e;
        assert Flows(v)[i] == f;
      }
    }
  }

  lemma FocusToItem(s: State, i: nat)
    requires Inv(s) && i < |s.view|
    ensures Inv(s.(focus := Some(ItemAt(s, i))))
  {
    ItemViewed(s, i);
    assert s.view != [];
    var t := s.(focus := Some(ItemAt(s, i)));
    assert forall e :: e in s.view ==> KeyCached(s, e) && KeyCached(t, e);
  }

  lemma GoKeeps(s: State, n: int)
    requires Inv(s)
    ensures Inv(Go(s, n)) && Go(s, n) == s.(focus := Go(s, n).focus)
  {
    hide Inv;
    if s.view != [] {
      var o := if n < 0 then |s.view| + n else n;
      FocusToItem(s, if o < 0 then 0 else if o > |s.view| - 1 then |s.view| - 1 else o);
    }
  }

  lemma FocusMoveKeeps(s: State, d: int, w: World)
    requires Inv(s)
    ensures Inv(FocusMove(s, d, w)) && FocusMove(s, d, w) == s.(focus := FocusMove(s, d, w).focus)
  {
    hide Inv;
    if s.focus.Some? && Contains(s, s.focus.value, w) && 0 <= Index(s, s.focus.value, w) + d < |s.view| {
      FocusToItem(s, Index(s, s.focus.value, w) + d);
    }
  }

  lemma FocusFlowKeeps(s: State, f: Flow, w: World)
    requires Inv(s)
    ensures Inv(FocusFlow(s, f, w))
    ensures FocusFlow(s, f, w).view == s.view && FocusFlow(s, f, w).store == s.store
  {
    SearchKeeps(s, f, w);
    var t := Search(s, f, w);
    if Contains(t, f, w) {
      var u := t.(focus := Some(f));
      assert forall e :: e in s.view ==> KeyCached(t, e) && KeyCached(u, e);
    }
  }

  // ----- runs -----

  lemma ClearKeeps(s: State, w: World)
    ensures Inv(Clear(s, w))
  {
  }

  lemma SetReversedKeeps(s: State, on: bool, w: World)
    requires Inv(s)
    ensures Inv(FocusOnRefresh(s.(reversed := on), w))
  {
    assert Core(s.(reversed := on));
    RefreshedFocus(s.(reversed := on), w);
  }

  lemma RefilterInv(s: State, w: World)
    requires Distinct(s.store) && s.settings.Keys <= Ids(s.store)
    ensures Inv(Refilter(s, w))
  {
    RefilterKeeps(s, w);
  }

  /** For every event and every contents of the flows, the condition is exactly right. */
  lemma StepKeeps(s: State, e: Event, w: World)
    requires Inv(s)
    ensures Inv(Step(s, e, w)) <==> Allowed(s, e, w)
  {
    assert Distinct(s.store) && s.settings.Keys <= Ids(s.store);
    hide AddFlow, UpdateFlow, RemoveFlow, Refilter, Clear, ClearNotMarked, SetOrder;
    hide Go, FocusMove, FocusFlow, FocusOnRefresh;
    match e
    case Adds(f) => AddKeeps(s, f, w);
    case Updates(f) => UpdateKeeps(s, f, w);
    case Removes(f) => RemoveKeeps(s, f, w);
    case Clears => ClearKeeps(s, w);
    case ClearsNotMarked => ClearNotMarkedKeeps(s, w);
    case SetsOrder(o) => SetOrderKeeps(s, o, w);
    case SetsReversed(b) => SetReversedKeeps(s, b, w);
    case SetsFilter(n) => RefilterInv(s.(filter := n), w);
    case TogglesMarked => RefilterInv(s.(showMarked := !s.showMarked), w);
    case SetsFollow(b) =>
    case Goes(n) => GoKeeps(s, n);
    case Next => FocusMoveKeeps(s, 1, w);
    case Prev => FocusMoveKeeps(s, -1, w);
    case Focuses(f) => FocusFlowKeeps(s, f, w);
  }

  ghost predicate Disciplined(s: State, run: seq<(Event, World)>) {
    forall i :: 0 <= i < |run| ==> Allowed(Run(s, run[..i]), run[i].0, run[i].1)
  }

  lemma {:induction false} InvAfter(s: State, run: seq<(Event, World)>)
    requires Inv(s) && Disciplined(s, run)
    ensures Inv(Run(s, run))
  {
    hide Inv, Step, Allowed;
    if run != [] {
      var n := |run| - 1;
      DisciplinedBefore(s, run, n);
      InvAfter(s, run[..n]);
      StepKeeps(Run(s, run[..n]), run[n].0, run[n].1);
    }
  }

  lemma DisciplinedBefore(s: State, run: seq<(Event, World)>, n: nat)
    requires n <= |run| && Disciplined(s, run)
    ensures Disciplined(s, run[..n])
    ensures n < |run| ==> Allowed(Run(s, run[..n]), run[n].0, run[n].1)
  {
    hide Allowed, Run;
    assert forall i :: 0 <= i < n ==> run[..n][..i] == run[..i] && run[..n][i] == run[i];
  }

  /** Whatever is called in whatever order, and however the flows change in between: the view stays sorted by
      its cached keys, inside the store and without repetition, the focus is None exactly when the view is empty
      and otherwise viewed, and settings exist only for stored flows, all along a run exactly when each of its calls is
      allowed. */
  lemma RunKeeps(s: State, run: seq<(Event, World)>)
    requires Inv(s)
    ensures Disciplined(s, run) <==> forall i :: 0 <= i <= |run| ==> Inv(Run(s, run[..i]))
  {
    hide Inv, Step, Allowed, Run;
    if Disciplined(s, run) {
      forall i | 0 <= i <= |run|
        ensures Inv(Run(s, run[..i]))
      {
        DisciplinedBefore(s, run, i);
        InvAfter(s, run[..i]);
      }
    }
    if forall i :: 0 <= i <= |run| ==> Inv(Run(s, run[..i])) {
      forall i | 0 <= i < |run|
        ensures Allowed(Run(s, run[..i]), run[i].0, run[i].1)
      {
        StepKeeps(Run(s, run[..i]), run[i].0, run[i].1);
        RunStep(s, run, i);
        assert Inv(Run(s, run[..i + 1]));
      }
    }
  }

  lemma RunStep(s: State, run: seq<(Event, World)>, i: nat)
    requires i < |run|
    ensures Run(s, run[..i + 1]) == Step(Run(s, run[..i]), run[i].0, run[i].1)
  {
    assert run[..i + 1][..i] == run[..i];
  }

  /** The flows that passed the filter the last time it was asked about them, before and after one event. */
  ghost function Verdict(h: set<Flow>, s: State, e: Event, w: World): set<Flow> {
    match e
    case Adds(f) => if f.id in Ids(s.store) then h else if w.accepts(s.filter, f) then h + {f} else h - {f}
    case Updates(f) => if f !in s.store then h else if w.accepts(s.filter, f) then h + {f} else h - {f}
    case SetsFilter(k) => set f | f in s.store && Shown(s.(filter := k), w)(f)
    case TogglesMarked => set f | f in s.store && Shown(s.(showMarked := !s.showMarked), w)(f)
    case ClearsNotMarked => set f | f in s.store && Shown(s, w)(f)
    case _ => h
  }

  ghost function Verdicts(s: State, run: seq<(Event, World)>): set<Flow> {
    if run == [] then Viewed(s.view)
    else
      var n := |run| - 1;
      Verdict(Verdicts(s, run[..n]), Run(s, run[..n]), run[n].0, run[n].1)
  }

  ghost predicate Agrees(s: State, h: set<Flow>) {
    forall f :: f in s.store ==> (f in Viewed(s.view) <==> f in h)
  }

  lemma FlowVerdict(s: State, h: set<Flow>, e: Event, w: World)
    requires Inv(s) && Allowed(s, e, w) && Agrees(s, h)
    requires e.Adds? || e.Updates? || e.Removes? || e.Focuses?
    ensures Agrees(Step(s, e, w), Verdict(h, s, e, w))
  {
    hide AddFlow, UpdateFlow, RemoveFlow, FocusFlow, Core, FocusInside;
    assert forall g :: g in Viewed(s.view) ==> g in s.store && g.id in Ids(s.store) by {
      assert Core(s);
      ViewedStored(s);
    }
    match e
    case Adds(f) => AddKeeps(s, f, w);
    case Updates(f) => UpdateKeeps(s, f, w);
    case Removes(f) => RemoveKeeps(s, f, w);
    case Focuses(f) => FocusFlowKeeps(s, f, w);
  }

  lemma ViewedStored(s: State)
    requires Core(s)
    ensures forall g :: g in Viewed(s.view) ==> g in s.store && g.id in Ids(s.store)
  {
  }

  lemma ViewVerdict(s: State, h: set<Flow>, e: Event, w: World)
    requires Inv(s) && Agrees(s, h)
    requires !(e.Adds? || e.Updates? || e.Removes? || e.Focuses?)
    ensures Agrees(Step(s, e, w), Verdict(h, s, e, w))
  {
    hide Refilter, ClearNotMarked, SetOrder, Go, FocusMove, FocusOnRefresh, FocusInside;
    match e
    case Clears => assert Clear(s, w).store == [] by { RefreshedFocus(s.(store := [], view := []), w); }
    case ClearsNotMarked => ClearNotMarkedKeeps(s, w);
    case SetsOrder(o) => SetOrderKeeps(s, o, w);
    case SetsFilter(k) => RefilterKeeps(s.(filter := k), w);
    case TogglesMarked => RefilterKeeps(s.(showMarked := !s.showMarked), w);
    case SetsReversed(b) => assert Core(s.(reversed := b)); RefreshedFocus(s.(reversed := b), w);
    case Goes(k) => GoKeeps(s, k);
    case Next => FocusMoveKeeps(s, 1, w);
    case Prev => FocusMoveKeeps(s, -1, w);
    case SetsFollow(b) =>
  }

  /** A stored flow is in the view exactly when the filter accepted it the last time it was added, updated or
      refiltered (where refiltering in marked mode also asks for the mark). */
  lemma {:induction false} ViewedIffAccepted(s: State, run: seq<(Event, World)>)
    requires Inv(s) && Disciplined(s, run)
    ensures Agrees(Run(s, run), Verdicts(s, run))
  {
    if run != [] {
      var n := |run| - 1;
      var before := run[..n];
      DisciplinedBefore(s, run, n);
      hide Inv, Step, Verdict, Agrees, Allowed;
      InvAfter(s, before);
      ViewedIffAccepted(s, before);
      assert run[..n] == before;
      var b, h, e, w := Run(s, before), Verdicts(s, before), run[n].0, run[n].1;
      if e.Adds? || e.Updates? || e.Removes? || e.Focuses? {
        FlowVerdict(b, h, e, w);
      } else {
        ViewVerdict(b, h, e, w);
      }
    } else {
      assert Agrees(s, Viewed(s.view));
    }
  }

  // ----- what the user sees -----

  /** The view as displayed. */
  ghost function Displayed(s: State): seq<Flow> {
    if s.reversed then Mirror(Flows(s.view)) else Flows(s.view)
  }

  ghost function Mirror(fs: seq<Flow>): (r: seq<Flow>)
    ensures |r| == |fs|
  {
    if fs == [] then [] else Mirror(fs[1..]) + [fs[0]]
  }

  lemma {:induction false} MirrorAt(fs: seq<Flow>, i: nat)
    requires i < |fs|
    ensures Mirror(fs)[i] == fs[|fs| - 1 - i]
  {
    if i < |fs| - 1 {
      MirrorAt(fs[1..], i);
    }
  }

  /** Indexing agrees with the displayed sequence at every Python index, negative and out of range included. */
  lemma GetItemIsDisplayed(s: State, i: int)
    ensures GetItem(s, i) == PyAt(Displayed(s), i)
    ensures 0 <= i < |s.view| ==> GetItem(s, i) == Some(ItemAt(s, i))
    ensures 0 <= i < |s.view| ==>
      var j := Rev(s.reversed, |s.view|, i); j.Some? && Rev(s.reversed, |s.view|, j.value) == Some(i)
  {
    var n := |s.view|;
    if s.reversed && 0 <= i < n {
      MirrorAt(Flows(s.view), i);
    } else if s.reversed && -n <= i < 0 {
      MirrorAt(Flows(s.view), n + i);
    }
  }

  /** `view[view.index(f)]` is f, in both directions. */
  lemma IndexIsExact(s: State, f: Flow, w: World)
    requires Core(s) && f in Viewed(s.view)
    ensures Contains(s, f, w)
    ensures GetItem(s, Index(s, f, w)) == Some(f)
  {
    ContainsExact(s, f, w);
    GetItemIsDisplayed(s, Index(s, f, w));
  }

  /** When the focused flow leaves a view of at least two flows, the new focus is the one displayed in its place
      (or the last one) in forward order; in reversed order the raw position is used as a displayed one, which is
      the same only in the middle of the view or in a view of two. */
  lemma FocusAfterRemoval(s: State, f: Flow, w: World)
    requires Inv(s) && s.focus == Some(f) && |s.view| >= 2
    ensures Contains(s, f, w)
    ensures
      var n, p, t := |s.view|, Index(s, f, w), Disappear(s, f, w);
      t.focus == Some(ItemAt(t, Min(p, n - 2))) <==> !s.reversed || n == 2 || 2 * p == n - 1
  {
    ContainsExact(s, f, w);
    var n, p := |s.view|, Index(s, f, w);
    var i := IndexOf(s.view, Entry(KeyOf(s, f, w), f));
    DropKeeps(s, i);
    SamePlace(s.reversed, n, i);
    RemovedFocus(s, i, p);
  }

  lemma RemovedFocus(s: State, i: nat, p: nat)
    requires i < |s.view| && p < |s.view| && |s.view| >= 2 && s.focus == Some(s.view[i].flow)
    requires NoRepeat(RemoveAt(s.view, i))
    ensures
      var n, t := |s.view|, FocusOnRemove(s.(view := RemoveAt(s.view, i)), s.view[i].flow, i);
      t.focus == Some(ItemAt(t, Min(p, n - 2))) <==> Min(i, n - 2) == Min(p, n - 2)
  {
    var n, t := |s.view|, s.(view := RemoveAt(s.view, i));
    if Min(i, n - 2) != Min(p, n - 2) {
      ItemsDiffer(t, Min(i, n - 2), Min(p, n - 2));
    }
  }

  lemma SamePlace(reversed: bool, n: nat, i: nat)
    requires n >= 2 && i < n
    ensures var p := if reversed then n - i - 1 else i;
      Min(i, n - 2) == Min(p, n - 2) <==> !reversed || n == 2 || 2 * p == n - 1
  {
  }

  lemma ItemsDiffer(s: State, i: nat, j: nat)
    requires NoRepeat(s.view) && i < |s.view| && j < |s.view| && i != j
    ensures ItemAt(s, i) != ItemAt(s, j)
  {
  }

  /** Where the focus goes when a refresh finds its flow gone. Among the viewed flows the lost one would stand
      before raw position v; in forward order the focus moves to a neighbour of that place, in reversed order it
      skips a flow, unless exactly one viewed flow is ahead of the place in the sorted list, or none is and the
      view holds at most two. */
  lemma NearestIsAdjacent(s: State, f: Flow, w: World)
    requires Core(s) && s.view != [] && s.focus == Some(f) && f !in Viewed(s.view)
    ensures
      var v, n, t := BisectRight(s.view, KeyOf(s, f, w)), |s.view|, FocusOnRefresh(s, w);
      (v < n && t.focus == Some(s.view[v].flow)) || (v > 0 && t.focus == Some(s.view[v - 1].flow))
      <==> !s.reversed || v == 1 || (v == 0 && n <= 2)
  {
    LostFocus(s, f, w);
    hide Core, KeyOf, BisectRight, FocusOnRefresh, Viewed;
    var v, n, i := BisectRight(s.view, KeyOf(s, f, w)), |s.view|, Nearest(s, f, w);
    var raw := if s.reversed then n - i - 1 else i;
    assert ItemAt(s, i) == s.view[raw].flow;
    CoreNoRepeat(s);
    assert v < n && raw != v ==> s.view[raw].flow != s.view[v].flow;
    assert v > 0 && raw != v - 1 ==> s.view[raw].flow != s.view[v - 1].flow;
    hide Nearest, NoRepeat, ItemAt;
    assert raw == v || raw == v - 1 <==> !s.reversed || v == 1 || (v == 0 && n <= 2) by {
      NearestRaw(s, f, w);
    }
  }

  lemma LostFocus(s: State, f: Flow, w: World)
    requires Core(s) && s.view != [] && s.focus == Some(f) && f !in Viewed(s.view)
    ensures FocusOnRefresh(s, w).focus == Some(ItemAt(s, Nearest(s, f, w)))
  {
    ContainsExact(s, f, w);
    TouchKeeps(s, f, w);
    hide Core, Touch, BisectRight, Contains, Viewed, ItemAt;
    var t := Touch(s, f, w);
    assert Nearest(t, f, w) == Nearest(s, f, w);
    SameItem(s, t, Nearest(s, f, w));
    hide KeyOf, Nearest;
  }

  lemma SameItem(s: State, t: State, i: nat)
    requires s.view == t.view && s.reversed == t.reversed && i < |s.view|
    ensures ItemAt(s, i) == ItemAt(t, i)
  {
  }

  lemma NearestRaw(s: State, f: Flow, w: World)
    requires s.view != []
    ensures
      var v, n, i := BisectRight(s.view, KeyOf(s, f, w)), |s.view|, Nearest(s, f, w);
      var raw := if s.reversed then n - i - 1 else i;
      raw == v || raw == v - 1 <==> !s.reversed || v == 1 || (v == 0 && n <= 2)
  {
    hide BisectRight, KeyOf;
  }

  lemma CoreNoRepeat(s: State)
    requires Core(s)
    ensures NoRepeat(s.view)
  {
  }

  /** A flow that re-enters the view is placed by the key cached when it was last seen, not by its present one:
      an `update` of a stored, unviewed flow never changes a cached key. */
  lemma ReentryUsesOldKey(s: State, f: Flow, w: World)
    requires Inv(s) && f in s.store && f !in Viewed(s.view) && HasKey(s, f.id) && w.accepts(s.filter, f)
    ensures Entry(s.settings[f.id][s.order], f) in UpdateFlow(s, f, w).view
    ensures Entry(w.key(s.order, f), f) in UpdateFlow(s, f, w).view <==> s.settings[f.id][s.order] == w.key(s.order, f)
  {
    SearchKeeps(s, f, w);
    var t := Search(s, f, w);
    assert t == s;
    InsertFacts(s.view, Entry(KeyOf(s, f, w), f));
    assert forall e :: e in s.view ==> e.flow in Viewed(s.view);
  }

  /** After `update`, a flow that was already viewed stands under its present key, and the focus has not moved. */
  lemma UpdateRefreshes(s: State, f: Flow, w: World)
    requires Inv(s) && f in Viewed(s.view) && w.accepts(s.filter, f)
    ensures Entry(w.key(s.order, f), f) in UpdateFlow(s, f, w).view
    ensures UpdateFlow(s, f, w).focus == s.focus
  {
    SearchKeeps(s, f, w);
    ContainsExact(s, f, w);
    RefreshKeeps(s, f, w);
    assert UpdateFlow(s, f, w) == Refresh(s, f, w);
    ContainsExact(Refresh(s, f, w), f, w);
  }

  // ----- inputs on which the view does less than it should -----

  const A := Flow("a", 0)
  const B := Flow("b", 0)
  const C := Flow("c", 0)

  /** Another object with the id of A. */
  const STRANGER := Flow("a", 1)

  /** All keys are equal, and every filter but the first one rejects C. */
  const PLAIN := World((_, _) => 0, _ => false, (n, f) => n == 0 || f != C)

  lemma OneShown()
    ensures
      Run(INITIAL, [(Adds(A), PLAIN)])
      == INITIAL.(store := [A], view := [Entry(0, A)], focus := Some(A), settings := map["a" := map[Default := 0]])
  {
    assert [(Adds(A), PLAIN)][..0] == [];
    assert BisectRight([], 0) == 0 && Insert([], Entry(0, A)) == [Entry(0, A)];
  }

  /** From the new view, `add` and `update` of two objects with one id break the invariant, and so do `add` and
      `remove`. */
  lemma StrangersBreak()
    ensures !Inv(Run(INITIAL, [(Adds(A), PLAIN), (Updates(STRANGER), PLAIN)]))
    ensures !Inv(Run(INITIAL, [(Adds(A), PLAIN), (Removes(STRANGER), PLAIN)]))
  {
    var s := Run(INITIAL, [(Adds(A), PLAIN)]);
    RunTwo(INITIAL, (Adds(A), PLAIN), (Updates(STRANGER), PLAIN));
    RunTwo(INITIAL, (Adds(A), PLAIN), (Removes(STRANGER), PLAIN));
    OneIsValid();
    hide Run, Step, Inv, Viewed;
    StrangerAt(s, A, STRANGER, PLAIN);
  }

  lemma OneIsValid()
    ensures
      var s := Run(INITIAL, [(Adds(A), PLAIN)]);
      Inv(s) && s.store == [A] && A in Viewed(s.view) && s.filter == 0
  {
    OneShown();
    hide Run;
    var s := INITIAL.(store := [A], view := [Entry(0, A)], focus := Some(A), settings := map["a" := map[Default := 0]]);
    assert Entry(0, A) in s.view;
    assert s.settings.Keys == {"a"} && A in s.store;
  }

  /** Another object with the id of a viewed flow, which the filter accepts. */
  lemma StrangerAt(s: State, f: Flow, g: Flow, w: World)
    requires Inv(s) && f in s.store && g.id == f.id && g != f && f in Viewed(s.view) && w.accepts(s.filter, g)
    ensures !Inv(Step(s, Updates(g), w)) && !Inv(Step(s, Removes(g), w))
  {
    assert g !in s.store by {
      if g in s.store {
        SameObject(s.store, f, g);
      }
    }
    hide Inv, Step, Viewed;
    StepKeeps(s, Updates(g), w);
    StepKeeps(s, Removes(g), w);
  }

  lemma RunTwo(s: State, e: (Event, World), g: (Event, World))
    ensures Run(s, [e, g]) == Step(Run(s, [e]), g.0, g.1)
  {
    assert [e, g][..1] == [e];
  }

  /** The view after flows with equal keys were added one by one. */
  ghost function Plain(fs: seq<Flow>, reversed: bool, focus: Flow): State {
    INITIAL.(
      store := fs,
      view := seq(|fs|, i requires 0 <= i < |fs| => Entry(0, fs[i])),
      reversed := reversed,
      focus := Some(focus),
      settings := map id | id in Ids(fs) :: map[Default := 0])
  }

  lemma AddPlain(fs: seq<Flow>, f: Flow)
    requires f.id !in Ids(fs)
    ensures Step(Plain(fs, false, A), Adds(f), PLAIN) == Plain(fs + [f], false, A)
  {
    var s, t := Plain(fs, false, A), Plain(fs + [f], false, A);
    assert BisectRight(s.view, 0) == |fs|;
    assert Insert(s.view, Entry(0, f)) == t.view;
    assert Ids(fs + [f]) == Ids(fs) + {f.id};
    assert s.settings[f.id := map[Default := 0]] == t.settings;
  }

  /** Three flows, the display turned around, and its first flow in focus. */
  ghost const TURNED: seq<(Event, World)> :=
    [(Adds(A), PLAIN), (Adds(B), PLAIN), (Adds(C), PLAIN), (SetsReversed(true), PLAIN), (Goes(0), PLAIN)]

  lemma Turned()
    ensures Run(INITIAL, TURNED) == Plain([A, B, C], true, C)
  {
    hide Step, Plain, Run;
    FirstPlain();
    SecondPlain();
    ThirdPlain();
    TurnPlain();
    RunFive(INITIAL, (Adds(A), PLAIN), (Adds(B), PLAIN), (Adds(C), PLAIN),
            (SetsReversed(true), PLAIN), (Goes(0), PLAIN));
  }

  lemma FirstPlain()
    ensures Step(INITIAL, Adds(A), PLAIN) == Plain([A], false, A)
  {
    OneShown();
    assert [(Adds(A), PLAIN)][..0] == [];
    assert Ids([A]) == {"a"};
  }

  lemma SecondPlain()
    ensures Step(Plain([A], false, A), Adds(B), PLAIN) == Plain([A, B], false, A)
  {
    hide Step, Plain;
    AddPlain([A], B);
    assert [A] + [B] == [A, B];
  }

  lemma ThirdPlain()
    ensures Step(Plain([A, B], false, A), Adds(C), PLAIN) == Plain([A, B, C], false, A)
  {
    hide Step, Plain;
    AddPlain([A, B], C);
    assert [A, B] + [C] == [A, B, C];
  }

  lemma RunFive(s: State, a: (Event, World), b: (Event, World), c: (Event, World), d: (Event, World), e: (Event, World))
    ensures Run(s, [a, b, c, d, e]) == Step(Step(Step(Step(Step(s, a.0, a.1), b.0, b.1), c.0, c.1), d.0, d.1), e.0, e.1)
  {
    hide Step, Run;
    RunTwo(s, a, b);
    RunOne(s, a);
    RunMore(s, [a, b], c);
    assert [a, b] + [c] == [a, b, c];
    RunMore(s, [a, b, c], d);
    assert [a, b, c] + [d] == [a, b, c, d];
    RunMore(s, [a, b, c, d], e);
    assert [a, b, c, d] + [e] == [a, b, c, d, e];
  }

  lemma RunOne(s: State, e: (Event, World))
    ensures Run(s, [e]) == Step(s, e.0, e.1)
  {
    assert [e][..0] == [];
  }

  lemma TurnPlain()
    ensures Step(Plain([A, B, C], false, A), SetsReversed(true), PLAIN) == Plain([A, B, C], true, A)
    ensures Step(Plain([A, B, C], true, A), Goes(0), PLAIN) == Plain([A, B, C], true, C)
  {
    var s := Plain([A, B, C], true, A);
    assert s.store[0] == A && A.id in Ids(s.store);
    assert s.view[0] == Entry(0, A);
  }

  /** In this view the focused flow stands first and B second. When the focused flow is removed, the focus goes to A,
      which then stands second. */
  lemma ReversedRemovalMovesFocus()
    ensures
      var t := Run(INITIAL, TURNED + [(Removes(C), PLAIN)]);
      t.view == [Entry(0, A), Entry(0, B)] && t.reversed && ItemAt(t, 0) == B && t.focus == Some(A)
  {
    var s := Plain([A, B, C], true, C);
    Turned();
    RunMore(INITIAL, TURNED, (Removes(C), PLAIN));
    assert s.store[2] == C && C.id in Ids(s.store);
    assert s.view[2] == Entry(0, C) && s.view == [Entry(0, A), Entry(0, B), Entry(0, C)];
    assert IndexOf(s.view, Entry(0, C)) == 2;
    assert RemoveAt(s.view, 2) == [Entry(0, A), Entry(0, B)];
  }

  /** When it is filtered out, the focus skips B in the same way. */
  lemma ReversedRefilterSkips()
    ensures
      var t := Run(INITIAL, TURNED + [(SetsFilter(1), PLAIN)]);
      t.view == [Entry(0, A), Entry(0, B)] && t.reversed && ItemAt(t, 0) == B && t.focus == Some(A)
  {
    Turned();
    RunMore(INITIAL, TURNED, (SetsFilter(1), PLAIN));
    hide Run, Step, Refilter, Plain, FocusOnRefresh, ItemAt;
    var s := Plain([A, B, C], true, C).(filter := 1);
    FilterStep(Plain([A, B, C], true, C), 1, PLAIN);
    RefilterPlain(s);
    SkipPlain(s.(view := [Entry(0, A), Entry(0, B)]));
  }

  lemma FilterStep(s: State, n: nat, w: World)
    ensures Step(s, SetsFilter(n), w) == Refilter(s.(filter := n), w)
  {
  }

  lemma RefilterPlain(s: State)
    requires s == Plain([A, B, C], true, C).(filter := 1)
    ensures Refilter(s, PLAIN) == FocusOnRefresh(s.(view := [Entry(0, A), Entry(0, B)]), PLAIN)
  {
    hide Select, Shown, FocusOnRefresh, Refilter;
    SelectedAB(s);
    hide Plain;
    BaseAddAllAB(s.(view := []));
    hide BaseAddAll;
    RefilterIs(s, [A, B], PLAIN);
  }

  lemma RefilterIs(s: State, fs: seq<Flow>, w: World)
    requires Select(s.store, Shown(s, w)) == fs
    ensures Refilter(s, w) == FocusOnRefresh(BaseAddAll(s.(view := []), fs, w), w)
  {
  }

  lemma SkipPlain(u: State)
    requires u == Plain([A, B, C], true, C).(filter := 1, view := [Entry(0, A), Entry(0, B)])
    ensures var t := FocusOnRefresh(u, PLAIN); t.view == u.view && t.reversed && ItemAt(t, 0) == B && t.focus == Some(A)
  {
    assert u.store[2] == C && C.id in Ids(u.store);
    assert BisectRight(u.view, 0) == 2;
  }

  lemma RunMore(s: State, run: seq<(Event, World)>, e: (Event, World))
    ensures Run(s, run + [e]) == Step(Run(s, run), e.0, e.1)
  {
    assert (run + [e])[..|run|] == run;
  }

  lemma SelectedAB(s: State)
    requires s.store == [A, B, C] && s.filter == 1 && !s.showMarked
    ensures Select(s.store, Shown(s, PLAIN)) == [A, B]
  {
    var p := Shown(s, PLAIN);
    assert [A, B, C][..2] == [A, B] && [A, B][..1] == [A] && [A][..0] == [];
    assert Select([], p) == [];
    assert Select([A], p) == [A];
    assert Select([A, B], p) == [A, B];
  }

  lemma BaseAddAllAB(z: State)
    requires z == Plain([A, B, C], true, C).(filter := 1, view := [])
    ensures BaseAddAll(z, [A, B], PLAIN) == z.(view := [Entry(0, A), Entry(0, B)])
  {
    KeysCached(z);
    assert [A, B][..1] == [A] && [A][..0] == [];
    hide BaseAdd, Plain;
    assert BaseAddAll(z, [], PLAIN) == z;
    BaseAddPlain(z, A, PLAIN);
    assert BaseAddAll(z, [A], PLAIN) == z.(view := [Entry(0, A)]);
    KeysCached(z.(view := [Entry(0, A)]));
    BaseAddPlain(z.(view := [Entry(0, A)]), B, PLAIN);
    assert [Entry(0, A)] + [Entry(0, B)] == [Entry(0, A), Entry(0, B)];
  }

  ghost predicate CachedPlain(z: State, f: Flow) {
    f.id in Ids(z.store) && z.order == Default && f.id in z.settings && z.settings[f.id] == map[Default := 0]
  }

  lemma KeysCached(z: State)
    requires z.store == [A, B, C] && z.order == Default && z.settings == Plain([A, B, C], true, C).settings
    ensures CachedPlain(z, A) && CachedPlain(z, B)
  {
    assert z.store[0] == A && z.store[1] == B && A.id in Ids(z.store) && B.id in Ids(z.store);
  }

  lemma BaseAddPlain(z: State, f: Flow, w: World)
    requires CachedPlain(z, f) && forall i :: 0 <= i < |z.view| ==> z.view[i].key == 0
    ensures BaseAdd(z, f, w) == z.(view := z.view + [Entry(0, f)])
  {
    assert map[Default := 0][Default := 0] == map[Default := 0];
    assert z.settings[f.id := map[Default := 0]] == z.settings;
    assert BisectRight(z.view, 0) == |z.view|;
    assert Insert(z.view, Entry(0, f)) == z.view + [Entry(0, f)];
  }
}

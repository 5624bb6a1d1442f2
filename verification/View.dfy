/** The View object of mitmproxy/addons/view.py: its fields, updated in place by the API methods and by the
    signal handlers of its focus. Every method is proved against the state machine of ViewModel, whose runs are
    studied in ViewProperties. The preconditions on the private methods are what rules out the KeyError of
    `settings[f][k]` and the ValueErrors of the sorted list; every flow that gets the focus goes through `SetFocus`,
    whose precondition rules out the ValueError of the focus setter. */
module FlowView {
  import opened Prelude
  import opened ViewModel
  import opened ViewProperties

  /** The names that the `view_order` option accepts. */
  function OrderNamed(name: string): Option<Order> {
    if name == "time" then Some(Time)
    else if name == "method" then Some(Method)
    else if name == "url" then Some(Url)
    else if name == "size" then Some(Size)
    else None
  }

  /** The names `time`, `method`, `url` and `size`, and no others. */
  lemma OrderNames(name: string, o: Order)
    ensures OrderNamed(name) == Some(o)
      <==> (name, o) in {("time", Time), ("method", Method), ("url", Url), ("size", Size)}
  {
  }

  ghost function Each(flows: seq<Flow>, e: Flow -> Event, w: World): (r: seq<(Event, World)>)
    ensures |r| == |flows|
    ensures forall i :: 0 <= i < |r| ==> r[i] == (e(flows[i]), w)
  {
    seq(|flows|, i requires 0 <= i < |flows| => (e(flows[i]), w))
  }

  class View {
    var store: seq<Flow>
    var view: seq<Entry>
    var orderKey: Order
    var orderReversed: bool
    var showMarked: bool
    var focusFollow: bool
    var filter: nat
    var focus: Option<Flow>
    var settings: map<string, map<Order, int>>

    ghost function Model(): State
      reads this
    {
      State(store, view, orderKey, orderReversed, showMarked, focusFollow, filter, focus, settings)
    }

    ghost predicate Valid()
      reads this
    {
      Inv(Model())
    }

    constructor ()
      ensures Valid() && Model() == State([], [], Default, false, false, false, 0, None, map[])
    {
      store, view, settings, focus := [], [], map[], None;
      orderKey, orderReversed, showMarked, focusFollow, filter := Default, false, false, false, 0;
    }

    // ----- keys and the sorted list -----

    /** `_OrderKey.__call__` */
    method Key(f: Flow, w: World) returns (k: int)
      modifies this`settings
      ensures k == KeyOf(old(Model()), f, w)
      ensures Model() == Touch(old(Model()), f, w)
    {
      if f.id in Ids(store) {
        var slot := if f.id in settings then settings[f.id] else map[];
        if orderKey in slot {
          return slot[orderKey];
        }
        k := w.key(orderKey, f);
        settings := settings[f.id := slot[orderKey := k]];
      } else {
        k := w.key(orderKey, f);
      }
    }

    /** Where f stands in the sorted list; None is the ValueError of `index`, and the answer of `in`. */
    method Find(f: Flow, w: World) returns (i: Option<nat>)
      modifies this`settings
      ensures Model() == Search(old(Model()), f, w)
      ensures i.Some? <==> Contains(Model(), f, w)
      ensures i.Some? ==> i.value == IndexOf(view, Entry(KeyOf(Model(), f, w), f))
    {
      if view == [] {
        return None;
      }
      var k := Key(f, w);
      var n := 0;
      while n < |view|
        invariant n <= |view| && Entry(k, f) !in view[..n]
      {
        if view[n] == Entry(k, f) {
          i := Some(n);
          FirstIsIndexOf(view, Entry(k, f), n);
          return;
        }
        n := n + 1;
      }
      assert view[..n] == view;
      i := None;
    }

    /** `_base_add` */
    method BaseAddFlow(f: Flow, w: World)
      requires f.id in Ids(store)
      modifies this`settings, this`view
      ensures Model() == BaseAdd(old(Model()), f, w)
    {
      var k := Key(f, w);
      settings := settings[f.id := settings[f.id][orderKey := k]];
      assert settings == SetKey(old(Model()), f.id, k).settings by { SetKeyAgain(old(Model()), f, w); }
      var b := BisectRight(view, k);
      view := view[..b] + [Entry(k, f)] + view[b..];
    }

    // ----- the focus -----

    /** `self.focus.flow = f`; the check in the setter passes, and finds the key cached. */
    method SetFocus(f: Flow, ghost w: World)
      requires Contains(Model(), f, w) && HasKey(Model(), f.id)
      modifies this`focus
      ensures Model() == old(Model()).(focus := Some(f))
    {
      focus := Some(f);
    }

    /** `Focus._sig_view_add` */
    method FocusSigAdd(f: Flow, ghost w: World)
      requires Contains(Model(), f, w) && HasKey(Model(), f.id)
      modifies this`focus
      ensures Model() == FocusOnAdd(old(Model()), f)
    {
      if focus.None? {
        SetFocus(f, w);
      }
    }

    /** `Focus._sig_view_remove` */
    method FocusSigRemove(f: Flow, index: nat, ghost w: World)
      requires Core(Model())
      modifies this`focus
      ensures Model() == FocusOnRemove(old(Model()), f, index)
    {
      hide Core, Contains;
      if view == [] {
        focus := None;
      } else if focus == Some(f) {
        FocusItem(Min(index, |view| - 1), w);
      }
    }

    /** `self.flow = self.view[i]` at a valid position */
    method FocusItem(i: nat, ghost w: World)
      requires Core(Model()) && i < |view|
      modifies this`focus
      ensures Model() == old(Model()).(focus := Some(ItemAt(old(Model()), i)))
    {
      hide Core, Contains;
      ItemFound(Model(), i, w);
      var f := Item(i);
      SetFocus(f, w);
    }

    /** `self.view[i]` at a valid position */
    method Item(i: nat) returns (f: Flow)
      requires i < |view|
      ensures f == ItemAt(Model(), i)
    {
      f := view[if orderReversed then |view| - i - 1 else i].flow;
    }

    /** `_bisect` and `_nearest` */
    method NearestIndex(f: Flow, w: World) returns (i: nat)
      requires view != []
      modifies this`settings
      ensures Model() == Touch(old(Model()), f, w)
      ensures i < |view| && i == Nearest(old(Model()), f, w)
    {
      var k := Key(f, w);
      var v := BisectRight(view, k);
      var b := if orderReversed then (if v == 0 then 1 else |view| - v + 1) else v;
      i := Min(b, |view| - 1);
    }

    /** `Focus._sig_view_refresh` */
    method FocusSigRefresh(w: World)
      requires Core(Model())
      modifies this`focus, this`settings
      ensures Model() == FocusOnRefresh(old(Model()), w)
    {
      if view == [] {
        focus := None;
      } else if focus.None? {
        FocusItem(0, w);
      } else {
        ghost var s := Model();
        TouchAgain(s, focus.value, w);
        TouchKeeps(s, focus.value, w);
        var k := Key(focus.value, w);
        if Entry(k, focus.value) !in view {
          hide Core, Touch, KeyOf, Nearest;
          var i := NearestIndex(focus.value, w);
          FocusItem(i, w);
        }
      }
    }

    // ----- views of single flows -----

    /** The flow enters the view and `sig_view_add` is sent. */
    method Show(f: Flow, w: World)
      requires f.id in Ids(store)
      modifies this
      ensures Model() == Appear(old(Model()), f, w)
    {
      BaseAddFound(Model(), f, w);
      BaseAddFlow(f, w);
      hide BaseAdd, KeyOf;
      FocusFree(Model(), Some(f), f, w);
      if focusFollow {
        SetFocus(f, w);
      }
      FocusSigAdd(f, w);
    }

    /** The flow at position i leaves the view and `sig_view_remove` is sent. */
    method Hide(f: Flow, i: nat, ghost w: World)
      requires Core(Model()) && Contains(Model(), f, w) && i == IndexOf(view, Entry(KeyOf(Model(), f, w), f))
      modifies this`view, this`focus
      ensures Model() == Disappear(old(Model()), f, w)
    {
      DropKeeps(Model(), i);
      hide Core;
      view := view[..i] + view[i + 1..];
      FocusSigRemove(f, i, w);
    }

    /** `_OrderKey.refresh` */
    method RefreshFlow(f: Flow, w: World)
      requires Valid() && f in Viewed(view)
      modifies this
      ensures Contains(old(Model()), f, w) && Model() == Refresh(old(Model()), f, w)
    {
      RekeyedKeeps(Model(), f, w);
      ContainsExact(Model(), f, w);
      ViewedStored(Model());
      InvCore(Rekeyed(Model(), f, w));
      RefreshIs(Model(), f, w);
      hide Inv, Core, Viewed, Contains, KeyOf, Rekeyed, Refresh, FocusOnRefresh;
      if settings[f.id][orderKey] != w.key(orderKey, f) {
        Reinsert(f, w);
        FocusSigRefresh(w);
      }
    }

    /** Takes the flow out under its old key and inserts it under the new one. */
    method Reinsert(f: Flow, w: World)
      requires Contains(Model(), f, w) && HasKey(Model(), f.id)
      requires KeyOf(Model(), f, w) == settings[f.id][orderKey]
      modifies this`view, this`settings
      ensures Model() == Rekeyed(old(Model()), f, w)
    {
      var now := w.key(orderKey, f);
      var i := IndexOf(view, Entry(settings[f.id][orderKey], f));
      hide KeyOf, IndexOf, RemoveAt, Insert;
      view := RemoveAt(view, i);
      settings := settings[f.id := settings[f.id][orderKey := now]];
      view := Insert(view, Entry(now, f));
    }

    // ----- the API -----

    method Add(flows: seq<Flow>, w: World)
      requires Valid()
      modifies this
      ensures Valid() && Model() == Run(old(Model()), Each(flows, (f: Flow) => Adds(f), w))
    {
      ghost var run := Each(flows, (f: Flow) => Adds(f), w);
      for i := 0 to |flows|
        invariant Valid() && Model() == Run(old(Model()), run[..i])
      {
        RunStep(old(Model()), run, i);
        AddOne(flows[i], w);
      }
      assert run[..|flows|] == run;
    }

    method AddOne(f: Flow, w: World)
      requires Valid()
      modifies this
      ensures Valid() && Model() == AddFlow(old(Model()), f, w)
    {
      hide Inv, Appear;
      AddKeeps(Model(), f, w);
      if f.id !in Ids(store) {
        StoreKeeps(Model(), f);
        store := store + [f];
        if w.accepts(filter, f) {
          Show(f, w);
        }
      }
    }

    /** After the first call that passes a stranger, the view may be broken, and the model stops. */
    method Update(flows: seq<Flow>, w: World)
      requires Valid() && Disciplined(Model(), AllButLast(Each(flows, (f: Flow) => Updates(f), w)))
      modifies this
      ensures Model() == Run(old(Model()), Each(flows, (f: Flow) => Updates(f), w)) && store == old(store)
      ensures Valid() <==> Disciplined(old(Model()), Each(flows, (f: Flow) => Updates(f), w))
    {
      hide Inv, Allowed, Step;
      ghost var run := Each(flows, (f: Flow) => Updates(f), w);
      for i := 0 to |flows|
        invariant Model() == Run(old(Model()), run[..i]) && store == old(store)
        invariant Valid() <==> Disciplined(old(Model()), run[..i])
      {
        MoreDisciplined(old(Model()), run, i);
        RunStep(old(Model()), run, i);
        UpdateOne(flows[i], w);
      }
      assert run[..|flows|] == run;
    }

    method UpdateOne(f: Flow, w: World)
      requires Valid()
      modifies this
      ensures Model() == Step(old(Model()), Updates(f), w) && store == old(store)
      ensures Valid() <==> Allowed(old(Model()), Updates(f), w)
    {
      UpdateKeeps(Model(), f, w);
      SearchKeeps(Model(), f, w);
      InvCore(Search(Model(), f, w));
      hide Inv, Core, Contains, Search, KeyOf, Refresh, Disappear, Appear;
      if f.id in Ids(store) {
        var i := Find(f, w);
        if w.accepts(filter, f) {
          if i.None? {
            Show(f, w);
          } else {
            RefreshFlow(f, w);
          }
        } else if i.Some? {
          Hide(f, i.value, w);
        }
      }
    }

    method Remove(flows: seq<Flow>, w: World)
      requires Valid() && Disciplined(Model(), AllButLast(Each(flows, (f: Flow) => Removes(f), w)))
      modifies this
      ensures Model() == Run(old(Model()), Each(flows, (f: Flow) => Removes(f), w))
      ensures Valid() <==> Disciplined(old(Model()), Each(flows, (f: Flow) => Removes(f), w))
    {
      hide Inv, Allowed, Step;
      ghost var run := Each(flows, (f: Flow) => Removes(f), w);
      for i := 0 to |flows|
        invariant Model() == Run(old(Model()), run[..i])
        invariant Valid() <==> Disciplined(old(Model()), run[..i])
      {
        MoreDisciplined(old(Model()), run, i);
        RunStep(old(Model()), run, i);
        RemoveOne(flows[i], w);
      }
      assert run[..|flows|] == run;
    }

    method RemoveOne(f: Flow, w: World)
      requires Valid()
      modifies this
      ensures Model() == Step(old(Model()), Removes(f), w)
      ensures Valid() <==> Allowed(old(Model()), Removes(f), w)
      ensures forall g :: g in store <==> g in old(store) && g.id != f.id
    {
      RemoveKeeps(Model(), f, w);
      SearchKeeps(Model(), f, w);
      InvCore(Search(Model(), f, w));
      RemoveIs(Model(), f, w);
      hide Inv, Core, Contains, Disappear, Search, KeyOf, Forget, RemoveFlow;
      if f.id in Ids(store) {
        var i := Find(f, w);
        if i.Some? {
          Hide(f, i.value, w);
        }
        DeleteFlow(f);
      }
    }

    /** `del self._store[f.id]`, and the settings follow. */
    method DeleteFlow(f: Flow)
      modifies this`store, this`settings
      ensures Model() == Forget(old(Model()), f.id)
    {
      store := Select(store, (g: Flow) => g.id != f.id);
      settings := settings - {f.id};
    }

    /** `_refilter` */
    method RefilterView(w: World)
      requires Distinct(store)
      modifies this
      ensures Model() == Refilter(old(Model()), w)
    {
      ghost var z, shown := Model().(view := []), Select(store, Shown(Model(), w));
      SelectDistinct(store, Shown(Model(), w));
      BaseAddAllKeeps(z, shown, w);
      hide Core, BaseAddAll, FocusOnRefresh;
      Refill(w);
      FocusSigRefresh(w);
    }

    /** The loop over the store. */
    method Refill(w: World)
      modifies this`view, this`settings
      ensures Model() == BaseAddAll(old(Model()).(view := []), Select(store, Shown(old(Model()), w)), w)
    {
      hide BaseAdd, BaseAddAll, Select, Shown;
      var fs := store;
      ghost var z, shown := Model().(view := []), Shown(Model(), w);
      view := [];
      NoneAdded(z, shown, w);
      ShownFree(old(Model()), z, w);
      for i := 0 to |fs|
        invariant Model() == BaseAddAll(z, Select(fs[..i], shown), w)
        invariant store == fs && Shown(Model(), w) == shown
      {
        SelectMore(fs, i, shown);
        BaseAddAllMore(z, Select(fs[..i], shown), fs[i], w);
        ReAdd(fs[i], w);
      }
      assert fs[..|fs|] == fs;
    }

    method ReAdd(f: Flow, w: World)
      requires f in store
      modifies this`view, this`settings
      ensures Model() == if Shown(old(Model()), w)(f) then BaseAdd(old(Model()), f, w) else old(Model())
      ensures Shown(Model(), w) == Shown(old(Model()), w)
    {
      hide BaseAdd;
      if showMarked && !w.marked(f) {
      } else if w.accepts(filter, f) {
        BaseAddFlow(f, w);
      }
    }

    method SetFilter(n: nat, w: World)
      requires Valid()
      modifies this
      ensures Valid() && Model() == Step(old(Model()), SetsFilter(n), w)
    {
      assert Distinct(store) && settings.Keys <= Ids(store);
      hide Inv, Refilter;
      RefilterInv(Model().(filter := n), w);
      filter := n;
      RefilterView(w);
    }

    method ToggleMarked(w: World)
      requires Valid()
      modifies this
      ensures Valid() && Model() == Step(old(Model()), TogglesMarked, w)
    {
      assert Distinct(store) && settings.Keys <= Ids(store);
      hide Inv, Refilter;
      RefilterInv(Model().(showMarked := !showMarked), w);
      showMarked := !showMarked;
      RefilterView(w);
    }

    method SetReversed(on: bool, w: World)
      requires Valid()
      modifies this
      ensures Valid() && Model() == Step(old(Model()), SetsReversed(on), w)
    {
      StepKeeps(Model(), SetsReversed(on), w);
      orderReversed := on;
      assert Core(old(Model()));
      FocusSigRefresh(w);
    }

    /** An unknown name is the CommandError, and changes nothing. */
    method SetOrderName(name: string, w: World) returns (ok: bool)
      requires Valid()
      modifies this
      ensures Valid() && ok == OrderNamed(name).Some?
      ensures Model() == if ok then Step(old(Model()), SetsOrder(OrderNamed(name).value), w) else old(Model())
    {
      var o := OrderNamed(name);
      if o.None? {
        return false;
      }
      StepKeeps(Model(), SetsOrder(o.value), w);
      FlowsViewed(view);
      ViewedStored(Model());
      assert forall f :: f in Flows(view) ==> f in Viewed(view);
      Resort(o.value, w);
      ok := true;
    }

    /** The new sorted list, filled from the old one. */
    method Resort(o: Order, w: World)
      requires forall f :: f in Flows(view) ==> f.id in Ids(store)
      modifies this`orderKey, this`view, this`settings
      ensures Model() == SetOrder(old(Model()), o, w)
    {
      ghost var z := Model().(order := o, view := []);
      var fs := Flows(view);
      orderKey, view := o, [];
      for i := 0 to |fs|
        invariant Model() == BaseAddAll(z, fs[..i], w)
      {
        assert fs[i] in fs;
        assert fs[..i + 1][..i] == fs[..i];
        BaseAddFlow(fs[i], w);
      }
      assert fs[..|fs|] == fs;
    }

    /** `Settings._sig_store_refresh` */
    method SettingsSigStoreRefresh()
      modifies this`settings
      ensures Model() == Prune(old(Model()))
    {
      settings := map id | id in settings && id in Ids(store) :: settings[id];
    }

    method Clear(w: World)
      requires Valid()
      modifies this
      ensures Valid() && Model() == Step(old(Model()), Clears, w)
    {
      StepKeeps(Model(), Clears, w);
      store, view := [], [];
      FocusSigRefresh(w);
      SettingsSigStoreRefresh();
    }

    method ClearNotMarked(w: World)
      requires Valid()
      modifies this
      ensures Valid() && Model() == Step(old(Model()), ClearsNotMarked, w)
    {
      StepKeeps(Model(), ClearsNotMarked, w);
      SelectDistinct(store, w.marked);
      store := Select(store, w.marked);
      RefilterView(w);
      SettingsSigStoreRefresh();
    }

    method GoTo(offset: int, w: World)
      requires Valid()
      modifies this
      ensures Valid() && Model() == Step(old(Model()), Goes(offset), w)
    {
      hide Inv;
      GoKeeps(Model(), offset);
      if view == [] {
        return;
      }
      var o := if offset < 0 then |view| + offset else offset;
      if o < 0 {
        o := 0;
      }
      if o > |view| - 1 {
        o := |view| - 1;
      }
      InvCore(Model());
      FocusItem(o, w);
    }

    /** `self[i]`; None is the IndexError. */
    method GetItemAt(i: int) returns (f: Option<Flow>)
      ensures f == GetItem(Model(), i) == PyAt(Displayed(Model()), i)
      ensures 0 <= i < |view| ==> f == Some(ItemAt(Model(), i))
    {
      GetItemIsDisplayed(Model(), i);
      var j := Rev(orderReversed, |view|, i);
      if j.None? {
        return None;
      }
      f := PyAt(Flows(view), j.value);
    }

    /** The `index` property of the focus */
    method FocusIndex(w: World) returns (i: Option<nat>)
      requires Valid()
      modifies this`settings
      ensures Model() == old(Model()) && i.Some? == focus.Some?
      ensures i.Some? ==> Contains(Model(), focus.value, w) && i.value == Index(Model(), focus.value, w)
    {
      if focus.None? {
        return None;
      }
      FocusedContained(Model(), w);
      hide Inv, Contains, KeyOf, Touch;
      var j := Find(focus.value, w);
      i := Some(if orderReversed then |view| - j.value - 1 else j.value);
    }

    /** `focus_next` for d = 1 and `focus_prev` for d = -1 */
    method FocusStep(d: int, w: World)
      requires Valid() && (d == 1 || d == -1)
      modifies this
      ensures Valid() && Model() == Step(old(Model()), if d == 1 then Next else Prev, w)
    {
      hide Inv, Core, Contains, Index, KeyOf, Step;
      StepMove(Model(), d, w);
      FocusMoveKeeps(Model(), d, w);
      var i := FocusIndex(w);
      if i.Some? && 0 <= i.value + d < |view| {
        InvCore(Model());
        FocusItem(i.value + d, w);
      }
    }

    /** `dups` are the fresh copies. The copies are stored in any case; then the focus setter raises its
        ValueError exactly when the filter rejects the first copy. */
    method Duplicate(dups: seq<Flow>, w: World) returns (ok: bool)
      requires Valid() && Distinct(dups) && forall f :: f in dups ==> f.id !in Ids(store)
      modifies this
      ensures Valid() && ok == (dups == [] || w.accepts(old(filter), dups[0]))
      ensures
        var t := Run(old(Model()), Each(dups, (f: Flow) => Adds(f), w));
        Model() == if dups == [] then t else FocusFlow(t, dups[0], w)
    {
      if dups == [] {
        return true;
      }
      ghost var s := Model();
      ghost var run := Each(dups, (f: Flow) => Adds(f), w);
      AddedFirst(s, dups, run, w);
      Add(dups, w);
      ContainsExact(Model(), dups[0], w);
      SearchKeeps(Model(), dups[0], w);
      FocusFlowKeeps(Model(), dups[0], w);
      var i := Find(dups[0], w);
      ok := i.Some?;
      if ok {
        SetFocus(dups[0], w);
      }
    }
  }

  // ----- steps of the proofs above -----

  ghost function AllButLast<T>(s: seq<T>): seq<T> {
    if s == [] then [] else s[..|s| - 1]
  }

  lemma InvCore(s: State)
    requires Inv(s)
    ensures Core(s)
  {
  }

  lemma StepMove(s: State, d: int, w: World)
    requires d == 1 || d == -1
    ensures Step(s, if d == 1 then Next else Prev, w) == FocusMove(s, d, w)
  {
  }

  lemma RefreshIs(s: State, f: Flow, w: World)
    requires Contains(s, f, w)
    ensures Refresh(s, f, w) == if KeyOf(s, f, w) == w.key(s.order, f) then s else FocusOnRefresh(Rekeyed(s, f, w), w)
  {
  }

  lemma RemoveIs(s: State, f: Flow, w: World)
    ensures
      var t := Search(s, f, w);
      RemoveFlow(s, f, w)
      == if f.id !in Ids(s.store) then s
         else Forget(if Contains(t, f, w) then Disappear(t, f, w) else t, f.id)
  {
  }

  /** The setter of the focus accepts every item of the view. */
  lemma ItemFound(s: State, i: nat, w: World)
    requires Core(s) && i < |s.view|
    ensures Contains(s, ItemAt(s, i), w) && HasKey(s, ItemAt(s, i).id)
  {
    ItemViewed(s, i);
    ContainsExact(s, ItemAt(s, i), w);
  }

  /** It accepts a flow that was just added. */
  lemma BaseAddFound(s: State, f: Flow, w: World)
    requires f.id in Ids(s.store)
    ensures Contains(BaseAdd(s, f, w), f, w) && HasKey(BaseAdd(s, f, w), f.id)
  {
    var v, k := s.view, KeyOf(s, f, w);
    assert (v[..BisectRight(v, k)] + [Entry(k, f)])[BisectRight(v, k)] == Entry(k, f);
  }

  /** The focus is nothing that the setter looks at. */
  lemma FocusFree(s: State, focus: Option<Flow>, f: Flow, w: World)
    ensures Contains(s.(focus := focus), f, w) == Contains(s, f, w)
  {
  }

  /** Before event i of a run that is allowed up to the last event, the view is valid, and after it exactly if it is
      allowed. */
  lemma MoreDisciplined(s: State, run: seq<(Event, World)>, i: nat)
    requires i < |run| && Disciplined(s, AllButLast(run))
    ensures Disciplined(s, run[..i])
    ensures Disciplined(s, run[..i + 1]) <==> Allowed(Run(s, run[..i]), run[i].0, run[i].1)
  {
    hide Allowed, Run;
    var b, c := AllButLast(run), run[..i + 1];
    assert forall j :: 0 <= j <= i ==> c[..j] == run[..j] && c[j] == run[j];
    assert forall j :: 0 <= j < i ==> run[..i][..j] == b[..j] && run[..i][j] == b[j];
    assert forall j :: 0 <= j < i ==> c[..j] == b[..j] && c[j] == b[j];
  }

  lemma {:induction false} FirstIsIndexOf(v: seq<Entry>, e: Entry, n: nat)
    requires n < |v| && v[n] == e && e !in v[..n]
    ensures e in v && IndexOf(v, e) == n
  {
    var i := IndexOf(v, e);
    assert v[i] == e;
  }

  lemma FocusedContained(s: State, w: World)
    requires Inv(s) && s.focus.Some?
    ensures Contains(s, s.focus.value, w) && Search(s, s.focus.value, w) == s && s.view != []
  {
    ContainsExact(s, s.focus.value, w);
  }

  lemma TouchAgain(s: State, f: Flow, w: World)
    ensures var t := Touch(s, f, w); Touch(t, f, w) == t && t.store == s.store && t.view == s.view
  {
  }

  /** Storing the key again after it was computed and cached. */
  lemma SetKeyAgain(s: State, f: Flow, w: World)
    requires f.id in Ids(s.store)
    ensures var k, t := KeyOf(s, f, w), Touch(s, f, w).settings;
      f.id in t && t[f.id := t[f.id][s.order := k]] == SetKey(s, f.id, k).settings
  {
    var k, t := KeyOf(s, f, w), Touch(s, f, w).settings;
    var slot := if f.id in s.settings then s.settings[f.id] else map[];
    assert t[f.id][s.order := k] == slot[s.order := k];
    assert t[f.id := slot[s.order := k]] == s.settings[f.id := slot[s.order := k]];
  }

  lemma NoneAdded(s: State, p: Flow -> bool, w: World)
    ensures BaseAddAll(s, Select([], p), w) == s
  {
  }

  lemma ShownFree(s: State, t: State, w: World)
    requires s.showMarked == t.showMarked && s.filter == t.filter
    ensures Shown(s, w) == Shown(t, w)
  {
  }

  lemma SelectMore(fs: seq<Flow>, i: nat, p: Flow -> bool)
    requires i < |fs|
    ensures Select(fs[..i + 1], p) == if p(fs[i]) then Select(fs[..i], p) + [fs[i]] else Select(fs[..i], p)
  {
    assert fs[..i + 1][..i] == fs[..i];
  }

  lemma BaseAddAllMore(s: State, fs: seq<Flow>, f: Flow, w: World)
    ensures BaseAddAll(s, fs + [f], w) == BaseAdd(BaseAddAll(s, fs, w), f, w)
  {
    assert (fs + [f])[..|fs|] == fs;
  }

  /** After the copies were added, the first is viewed exactly when the filter accepts it. */
  lemma {:induction false} AddedFirst(s: State, fs: seq<Flow>, run: seq<(Event, World)>, w: World)
    requires Inv(s) && fs != [] && Distinct(fs) && forall f :: f in fs ==> f.id !in Ids(s.store)
    requires |run| == |fs| && forall i :: 0 <= i < |fs| ==> run[i] == (Adds(fs[i]), w)
    ensures Inv(Run(s, run)) && Run(s, run).filter == s.filter && fs[0] in Run(s, run).store
    ensures fs[0] in Viewed(Run(s, run).view) <==> w.accepts(s.filter, fs[0])
  {
    hide Inv, AddFlow;
    var n := |fs| - 1;
    assert fs[n] in fs;
    var b := Run(s, run[..n]);
    if n > 0 {
      AddedFirst(s, fs[..n], run[..n], w);
    } else {
      assert run[..n] == [];
      NotStoredNotViewed(s, fs[0]);
    }
    AddKeeps(b, fs[n], w);
    AddFilter(b, fs[n], w);
  }

  lemma NotStoredNotViewed(s: State, f: Flow)
    requires Inv(s) && f.id !in Ids(s.store)
    ensures f !in Viewed(s.view)
  {
    ViewedStored(s);
  }

  lemma AddFilter(s: State, f: Flow, w: World)
    ensures AddFlow(s, f, w).filter == s.filter
  {
  }
}

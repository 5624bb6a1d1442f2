/** The flow view as a state machine: what each call of the View API does to the store, the sorted view,
    the cached sort keys and the focus. Flows change underneath the view at any time, so every transition
    takes the contents of all flows at that moment, a `World`, and nothing relates two worlds. */
module ViewModel {
  import opened Prelude

  /** A flow object. Two flows are the same object exactly when both parts agree; the id alone can be shared
      by two objects, for example after the same file was read twice. */
  datatype Flow = Flow(id: string, object: nat)

  /** The sort orders; `Default` is the separate order object that a new view starts with. */
  datatype Order = Default | Time | Method | Url | Size

  /** The contents of the flows at one moment, seen through the sort keys, the marks and the filters. */
  datatype World = World(
    key: (Order, Flow) -> int,
    marked: Flow -> bool,
    accepts: (nat, Flow) -> bool)

  /** One element of the sorted list, with the key under which it was inserted. */
  datatype Entry = Entry(key: int, flow: Flow)

  datatype State = State(
    store: seq<Flow>,
    view: seq<Entry>,
    order: Order,
    reversed: bool,
    showMarked: bool,
    follow: bool,
    filter: nat,
    focus: Option<Flow>,
    settings: map<string, map<Order, int>>)

  const INITIAL := State([], [], Default, false, false, false, 0, None, map[])

  // ----- the sorted list -----

  /** The position after the last entry whose key is at most k. */
  function BisectRight(v: seq<Entry>, k: int): (b: nat)
    ensures b <= |v|
    ensures forall i :: 0 <= i < b ==> v[i].key <= k
    ensures b < |v| ==> v[b].key > k
  {
    if v == [] || v[0].key > k then 0 else 1 + BisectRight(v[1..], k)
  }

  function Insert(v: seq<Entry>, e: Entry): seq<Entry> {
    var b := BisectRight(v, e.key);
    v[..b] + [e] + v[b..]
  }

  function IndexOf(v: seq<Entry>, e: Entry): (i: nat)
    requires e in v
    ensures i < |v| && v[i] == e && e !in v[..i]
  {
    if v[0] == e then 0 else 1 + IndexOf(v[1..], e)
  }

  function RemoveAt(v: seq<Entry>, i: nat): seq<Entry>
    requires i < |v|
  {
    v[..i] + v[i + 1..]
  }

  function Flows(v: seq<Entry>): (fs: seq<Flow>)
    ensures |fs| == |v|
    ensures forall i :: 0 <= i < |v| ==> fs[i] == v[i].flow
  {
    seq(|v|, i requires 0 <= i < |v| => v[i].flow)
  }

  // ----- cached keys -----

  function Ids(fs: seq<Flow>): set<string> {
    set f | f in fs :: f.id
  }

  predicate HasKey(s: State, id: string) {
    id in s.settings && s.order in s.settings[id]
  }

  function SetKey(s: State, id: string, k: int): State {
    var slot := if id in s.settings then s.settings[id] else map[];
    s.(settings := s.settings[id := slot[s.order := k]])
  }

  /** The key the current order gives to f: the cached one if f is stored and has one. */
  function KeyOf(s: State, f: Flow, w: World): int {
    if f.id in Ids(s.store) && HasKey(s, f.id) then s.settings[f.id][s.order] else w.key(s.order, f)
  }

  /** Computing that key caches it for a stored flow. */
  function Touch(s: State, f: Flow, w: World): State {
    if f.id in Ids(s.store) && !HasKey(s, f.id) then SetKey(s, f.id, w.key(s.order, f)) else s
  }

  /** Searching the sorted list computes the key, unless the list is empty. */
  function Search(s: State, f: Flow, w: World): State {
    if s.view == [] then s else Touch(s, f, w)
  }

  predicate Contains(s: State, f: Flow, w: World) {
    Entry(KeyOf(s, f, w), f) in s.view
  }

  function BaseAdd(s: State, f: Flow, w: World): State {
    var k := KeyOf(s, f, w);
    SetKey(s, f.id, k).(view := Insert(s.view, Entry(k, f)))
  }

  function BaseAddAll(s: State, fs: seq<Flow>, w: World): State {
    if fs == [] then s
    else BaseAdd(BaseAddAll(s, fs[..|fs| - 1], w), fs[|fs| - 1], w)
  }

  // ----- indexing, in either direction -----

  /** None is an IndexError. */
  function Rev(reversed: bool, n: nat, i: int): Option<int> {
    if !reversed then Some(i)
    else if i < 0 then Some(-i - 1)
    else if n - i - 1 < 0 then None
    else Some(n - i - 1)
  }

  function GetItem(s: State, i: int): Option<Flow> {
    match Rev(s.reversed, |s.view|, i)
    case None => None
    case Some(j) => PyAt(Flows(s.view), j)
  }

  /** GetItem for a position inside the view. */
  function ItemAt(s: State, i: nat): Flow
    requires i < |s.view|
  {
    s.view[if s.reversed then |s.view| - i - 1 else i].flow
  }

  /** The position of a viewed flow as the user counts it. */
  function Index(s: State, f: Flow, w: World): int
    requires Contains(s, f, w)
  {
    var i := IndexOf(s.view, Entry(KeyOf(s, f, w), f));
    if s.reversed then |s.view| - i - 1 else i
  }

  function Bisect(s: State, f: Flow, w: World): int {
    var v := BisectRight(s.view, KeyOf(s, f, w));
    if s.reversed then (if v == 0 then 1 else |s.view| - v + 1) else v
  }

  function Nearest(s: State, f: Flow, w: World): (i: int)
    ensures s.view != [] ==> 0 <= i < |s.view|
  {
    Min(Bisect(s, f, w), |s.view| - 1)
  }

  // ----- the focus reacting to signals -----

  function FocusOnAdd(s: State, f: Flow): State {
    if s.focus.None? then s.(focus := Some(f)) else s
  }

  /** `i` is the raw position of the removed flow in the sorted list. */
  function FocusOnRemove(s: State, f: Flow, i: nat): State {
    if s.view == [] then s.(focus := None)
    else if s.focus == Some(f) then s.(focus := Some(ItemAt(s, Min(i, |s.view| - 1))))
    else s
  }

  function FocusOnRefresh(s: State, w: World): State {
    if s.view == [] then s.(focus := None)
    else if s.focus.None? then s.(focus := Some(ItemAt(s, 0)))
    else
      var f := s.focus.value;
      var t := Touch(s, f, w);
      if Contains(s, f, w) then t else t.(focus := Some(ItemAt(t, Nearest(t, f, w))))
  }

  // ----- the API -----

  function AddFlow(s: State, f: Flow, w: World): State {
    if f.id in Ids(s.store) then s
    else
      var t := s.(store := s.store + [f]);
      if w.accepts(s.filter, f) then Appear(t, f, w) else t
  }

  /** A stored flow enters the view, by `add` or by `update`. */
  function Appear(s: State, f: Flow, w: World): State {
    var t := BaseAdd(s, f, w);
    FocusOnAdd(if s.follow then t.(focus := Some(f)) else t, f)
  }

  /** A viewed flow leaves the view. */
  function Disappear(s: State, f: Flow, w: World): State
    requires Contains(s, f, w)
  {
    var i := IndexOf(s.view, Entry(KeyOf(s, f, w), f));
    FocusOnRemove(s.(view := RemoveAt(s.view, i)), f, i)
  }

  /** Re-inserts a viewed flow whose key has changed. */
  function Refresh(s: State, f: Flow, w: World): State
    requires Contains(s, f, w)
  {
    var k := w.key(s.order, f);
    if KeyOf(s, f, w) == k then s
    else
      var i := IndexOf(s.view, Entry(KeyOf(s, f, w), f));
      var t := SetKey(s, f.id, k);
      FocusOnRefresh(t.(view := Insert(RemoveAt(s.view, i), Entry(k, f))), w)
  }

  function UpdateFlow(s: State, f: Flow, w: World): State {
    if f.id !in Ids(s.store) then s
    else
      var t := Search(s, f, w);
      if w.accepts(s.filter, f) then
        if Contains(t, f, w) then Refresh(t, f, w) else Appear(t, f, w)
      else
        if Contains(t, f, w) then Disappear(t, f, w) else t
  }

  function RemoveFlow(s: State, f: Flow, w: World): State {
    if f.id !in Ids(s.store) then s
    else
      var t := Search(s, f, w);
      var u := if Contains(t, f, w) then Disappear(t, f, w) else t;
      u.(store := Select(u.store, (g: Flow) => g.id != f.id), settings := u.settings - {f.id})
  }

  function Select(fs: seq<Flow>, p: Flow -> bool): (r: seq<Flow>)
    ensures forall f :: f in r <==> f in fs && p(f)
  {
    if fs == [] then []
    else
      var rest := Select(fs[..|fs| - 1], p);
      if p(fs[|fs| - 1]) then rest + [fs[|fs| - 1]] else rest
  }

  function Shown(s: State, w: World): Flow -> bool {
    f => (s.showMarked ==> w.marked(f)) && w.accepts(s.filter, f)
  }

  function Refilter(s: State, w: World): State {
    FocusOnRefresh(BaseAddAll(s.(view := []), Select(s.store, Shown(s, w)), w), w)
  }

  function Prune(s: State): State {
    s.(settings := map id | id in s.settings && id in Ids(s.store) :: s.settings[id])
  }

  function Clear(s: State, w: World): State {
    Prune(FocusOnRefresh(s.(store := [], view := []), w))
  }

  function ClearNotMarked(s: State, w: World): State {
    Prune(Refilter(s.(store := Select(s.store, w.marked)), w))
  }

  function SetOrder(s: State, o: Order, w: World): State {
    BaseAddAll(s.(order := o, view := []), Flows(s.view), w)
  }

  function Go(s: State, offset: int): State {
    if s.view == [] then s
    else
      var n := |s.view|;
      var o := if offset < 0 then n + offset else offset;
      s.(focus := Some(ItemAt(s, if o < 0 then 0 else if o > n - 1 then n - 1 else o)))
  }

  function FocusMove(s: State, d: int, w: World): State {
    if s.focus.Some? && Contains(s, s.focus.value, w) && 0 <= Index(s, s.focus.value, w) + d < |s.view|
    then s.(focus := Some(ItemAt(s, Index(s, s.focus.value, w) + d)))
    else s
  }

  /** The focus setter; it refuses a flow that is not in the view with a ValueError. */
  function FocusFlow(s: State, f: Flow, w: World): State {
    var t := Search(s, f, w);
    if Contains(t, f, w) then t.(focus := Some(f)) else t
  }

  // ----- runs -----

  datatype Event =
    | Adds(f: Flow)
    | Updates(f: Flow)
    | Removes(f: Flow)
    | Clears
    | ClearsNotMarked
    | SetsOrder(order: Order)
    | SetsReversed(on: bool)
    | SetsFilter(filter: nat)
    | TogglesMarked
    | SetsFollow(on: bool)
    | Goes(offset: int)
    | Next
    | Prev
    | Focuses(f: Flow)

  function Step(s: State, e: Event, w: World): State {
    match e
    case Adds(f) => AddFlow(s, f, w)
    case Updates(f) => UpdateFlow(s, f, w)
    case Removes(f) => RemoveFlow(s, f, w)
    case Clears => Clear(s, w)
    case ClearsNotMarked => ClearNotMarked(s, w)
    case SetsOrder(o) => SetOrder(s, o, w)
    case SetsReversed(b) => FocusOnRefresh(s.(reversed := b), w)
    case SetsFilter(n) => Refilter(s.(filter := n), w)
    case TogglesMarked => Refilter(s.(showMarked := !s.showMarked), w)
    case SetsFollow(b) => s.(follow := b)
    case Goes(n) => Go(s, n)
    case Next => FocusMove(s, 1, w)
    case Prev => FocusMove(s, -1, w)
    case Focuses(f) => FocusFlow(s, f, w)
  }

  /** A run: each event comes with the contents of the flows at its moment. */
  function Run(s: State, run: seq<(Event, World)>): State {
    if run == [] then s
    else
      var (e, w) := run[|run| - 1];
      Step(Run(s, run[..|run| - 1]), e, w)
  }
}

/** First in, first out, under every hash; nothing is lost or duplicated by serving, adding and rehashing. */
module PlaybackProperties {
  import opened Prelude
  import opened ServerPlayback

  // ----- the invariant -----

  ghost predicate Ok(m: seq<Slot>) {
    && (forall i, j :: 0 <= i < j < |m| ==> m[i].hash != m[j].hash)
    && (forall s :: s in m ==> s.queue != [])
  }

  /** Every flow waits under its own hash. */
  ghost predicate HashedBy(m: seq<Slot>, hash: Hash) {
    forall s, f :: s in m && f in s.queue ==> f.http && hash(f) == s.hash
  }

  lemma PositionIs(m: seq<Slot>, i: nat)
    requires Ok(m) && i < |m|
    ensures Has(m, m[i].hash) && Position(m, m[i].hash) == i
  {
    assert m[i] in m;
    var k := Position(m, m[i].hash);
  }

  lemma HasNot(m: seq<Slot>, h: nat)
    requires forall i :: 0 <= i < |m| ==> m[i].hash != h
    ensures !Has(m, h)
  {
  }

  // ----- what the dictionary operations do to the queues -----

  lemma SetQueueFacts(m: seq<Slot>, h: nat, q: seq<Flow>)
    requires Ok(m) && Has(m, h) && q != []
    ensures Ok(SetQueue(m, h, q))
    ensures forall k :: Queue(SetQueue(m, h, q), k) == if k == h then q else Queue(m, k)
  {
    var i, n := Position(m, h), SetQueue(m, h, q);
    assert forall s :: s in n ==> s in m || s == Slot(h, q);
    assert Ok(n);
    forall k
      ensures Queue(n, k) == if k == h then q else Queue(m, k)
    {
      if k == h {
        PositionIs(n, i);
      } else if Has(m, k) {
        PositionIs(n, Position(m, k));
      } else {
        forall j | 0 <= j < |n|
          ensures n[j].hash != k
        {
          assert m[j] in m;
        }
        HasNot(n, k);
      }
    }
  }

  lemma DeleteFacts(m: seq<Slot>, h: nat)
    requires Ok(m) && Has(m, h)
    ensures Ok(Delete(m, h))
    ensures forall k :: Queue(Delete(m, h), k) == if k == h then [] else Queue(m, k)
  {
    var i, n := Position(m, h), Delete(m, h);
    assert forall j :: 0 <= j < |n| ==> n[j] == m[if j < i then j else j + 1];
    assert forall s :: s in n ==> s in m;
    assert Ok(n);
    forall k
      ensures Queue(n, k) == if k == h then [] else Queue(m, k)
    {
      DeleteQueue(m, h, k);
    }
  }

  lemma DeleteQueue(m: seq<Slot>, h: nat, k: nat)
    requires Ok(m) && Has(m, h) && Ok(Delete(m, h))
    ensures Queue(Delete(m, h), k) == if k == h then [] else Queue(m, k)
  {
    var i, n := Position(m, h), Delete(m, h);
    if k != h && Has(m, k) {
      var p := Position(m, k);
      var p' := if p < i then p else p - 1;
      assert n[p'] == m[p];
      PositionIs(n, p');
    } else {
      forall j | 0 <= j < |n|
        ensures n[j].hash != k
      {
        var j' := if j < i then j else j + 1;
        assert n[j] == m[j'] && m[j'] in m;
      }
      HasNot(n, k);
    }
  }

  lemma AppendFacts(m: seq<Slot>, h: nat, q: seq<Flow>)
    requires Ok(m) && !Has(m, h) && q != []
    ensures Ok(m + [Slot(h, q)])
    ensures forall k :: Queue(m + [Slot(h, q)], k) == if k == h then q else Queue(m, k)
  {
    var n := m + [Slot(h, q)];
    assert forall j :: 0 <= j < |m| ==> m[j] in m;
    assert Ok(n);
    forall k
      ensures Queue(n, k) == if k == h then q else Queue(m, k)
    {
      if k == h {
        PositionIs(n, |m|);
      } else if Has(m, k) {
        PositionIs(n, Position(m, k));
      } else {
        HasNot(n, k);
      }
    }
  }

  lemma AddOneFacts(m: seq<Slot>, f: Flow, hash: Hash)
    requires Ok(m)
    ensures Ok(AddOne(m, f, hash))
    ensures forall k :: Queue(AddOne(m, f, hash), k) == Queue(m, k) + (if f.http && hash(f) == k then [f] else [])
  {
    hide Ok, Queue, SetQueue, Has;
    if f.http {
      if Has(m, hash(f)) {
        SetQueueFacts(m, hash(f), Queue(m, hash(f)) + [f]);
      } else {
        AppendFacts(m, hash(f), [f]);
        NoQueue(m, hash(f));
      }
    }
    assert forall k :: Queue(m, k) + [] == Queue(m, k);
  }

  lemma NoQueue(m: seq<Slot>, h: nat)
    requires !Has(m, h)
    ensures Queue(m, h) == []
  {
  }

  // ----- filters -----

  ghost function Filter(fs: seq<Flow>, p: Flow -> bool): seq<Flow> {
    if fs == [] then []
    else Filter(fs[..|fs| - 1], p) + (if p(fs[|fs| - 1]) then [fs[|fs| - 1]] else [])
  }

  lemma {:induction false} FilterConcat(a: seq<Flow>, b: seq<Flow>, p: Flow -> bool)
    ensures Filter(a + b, p) == Filter(a, p) + Filter(b, p)
  {
    if b == [] {
      assert a + b == a;
    } else {
      var n := |b| - 1;
      FilterConcat(a, b[..n], p);
      assert (a + b)[..|a| + n] == a + b[..n];
    }
  }

  lemma {:induction false} FilterAll(fs: seq<Flow>, p: Flow -> bool)
    requires forall f :: f in fs ==> p(f)
    ensures Filter(fs, p) == fs
  {
    if fs != [] {
      assert fs == fs[..|fs| - 1] + [fs[|fs| - 1]];
      FilterAll(fs[..|fs| - 1], p);
    }
  }

  lemma {:induction false} FilterNone(fs: seq<Flow>, p: Flow -> bool)
    requires forall f :: f in fs ==> !p(f)
    ensures Filter(fs, p) == []
  {
    if fs != [] {
      FilterNone(fs[..|fs| - 1], p);
    }
  }

  lemma {:induction false} FilterSame(fs: seq<Flow>, p: Flow -> bool, q: Flow -> bool)
    requires forall f :: f in fs ==> p(f) == q(f)
    ensures Filter(fs, p) == Filter(fs, q)
  {
    if fs != [] {
      FilterSame(fs[..|fs| - 1], p, q);
    }
  }

  lemma {:induction false} FiltersCommute(fs: seq<Flow>, p: Flow -> bool, q: Flow -> bool)
    ensures Filter(Filter(fs, p), q) == Filter(Filter(fs, q), p)
  {
    if fs != [] {
      var n := |fs| - 1;
      FiltersCommute(fs[..n], p, q);
      var last := [fs[n]];
      assert last[..0] == [];
      FilterConcat(Filter(fs[..n], p), if p(fs[n]) then last else [], q);
      FilterConcat(Filter(fs[..n], q), if q(fs[n]) then last else [], p);
    }
  }

  // ----- adding -----

  /** The flows of a list that are queued under h. */
  ghost function Under(hash: Hash, h: nat): Flow -> bool {
    (f: Flow) => f.http && hash(f) == h
  }

  /** Adding appends to every queue its own flows, in their order. */
  lemma {:induction false} AddAppends(m: seq<Slot>, fs: seq<Flow>, hash: Hash)
    requires Ok(m)
    ensures Ok(AddAll(m, fs, hash))
    ensures forall k :: Queue(AddAll(m, fs, hash), k) == Queue(m, k) + Filter(fs, Under(hash, k))
  {
    hide Ok, Queue, AddOne;
    if fs != [] {
      var n := |fs| - 1;
      AddAppends(m, fs[..n], hash);
      AddOneFacts(AddAll(m, fs[..n], hash), fs[n], hash);
    } else {
      assert forall k :: Queue(m, k) + [] == Queue(m, k);
    }
  }

  lemma {:induction false} AddHashes(m: seq<Slot>, fs: seq<Flow>, hash: Hash)
    requires HashedBy(m, hash)
    ensures HashedBy(AddAll(m, fs, hash), hash)
  {
    if fs != [] {
      var n := |fs| - 1;
      AddHashes(m, fs[..n], hash);
      AddOneHashes(AddAll(m, fs[..n], hash), fs[n], hash);
    }
  }

  lemma AddOneHashes(m: seq<Slot>, f: Flow, hash: Hash)
    requires HashedBy(m, hash)
    ensures HashedBy(AddOne(m, f, hash), hash)
  {
    var n := AddOne(m, f, hash);
    if f.http && Has(m, hash(f)) {
      assert m[Position(m, hash(f))] in m;
    }
    forall s, g | s in n && g in s.queue
      ensures g.http && hash(g) == s.hash
    {
      if s !in m && Has(m, hash(f)) {
        assert g in Queue(m, hash(f)) || g == f;
      }
    }
  }

  // ----- serving -----

  /** The flows that a request takes out of the queue: the skipped ones and the one served. */
  ghost function Gone(q: seq<Flow>, reuse: bool, response: Flow -> bool): seq<Flow> {
    if reuse then [] else q[..Min(FirstReady(q, response) + 1, |q|)]
  }

  ghost function FirstIn(q: seq<Flow>, response: Flow -> bool): Option<Flow> {
    var i := FirstReady(q, response);
    if i < |q| then Some(q[i]) else None
  }

  /** What `next_flow` returns and removes: without reuse, the earliest flow under h that has a response, together
      with the response-less flows ahead of it, and nothing else; with reuse, the same flow, and nothing. */
  lemma NextLaw(m: seq<Slot>, h: nat, reuse: bool, response: Flow -> bool)
    requires Ok(m)
    ensures Ok(Next(m, h, reuse, response).0)
    ensures Next(m, h, reuse, response).1 == FirstIn(Queue(m, h), response)
    ensures forall k :: k != h ==> Queue(Next(m, h, reuse, response).0, k) == Queue(m, k)
    ensures Queue(m, h) == Gone(Queue(m, h), reuse, response) + Queue(Next(m, h, reuse, response).0, h)
  {
    var q := Queue(m, h);
    if !Has(m, h) || reuse {
      NoQueueOr(m, h);
      assert [] + q == q && [] + [] == q[..0];
    } else {
      TakeLaw(m, h, response);
      GoneRest(q, response);
    }
  }

  lemma NoQueueOr(m: seq<Slot>, h: nat)
    ensures !Has(m, h) ==> Queue(m, h) == []
  {
  }

  lemma GoneRest(q: seq<Flow>, response: Flow -> bool)
    ensures q == Gone(q, false, response) + q[Min(FirstReady(q, response) + 1, |q|)..]
  {
    hide FirstReady;
    TakeAndRest(q, Min(FirstReady(q, response) + 1, |q|));
  }

  lemma TakeAndRest(q: seq<Flow>, n: nat)
    requires n <= |q|
    ensures q == q[..n] + q[n..]
  {
  }

  lemma TakeLaw(m: seq<Slot>, h: nat, response: Flow -> bool)
    requires Ok(m) && Has(m, h)
    ensures var (n, r) := Next(m, h, false, response);
      var q := Queue(m, h);
      && Ok(n) && r == FirstIn(q, response)
      && (forall k :: k != h ==> Queue(n, k) == Queue(m, k))
      && Queue(n, h) == q[Min(FirstReady(q, response) + 1, |q|)..]
  {
    hide Ok, Queue, Delete, SetQueue, Has;
    var q := Queue(m, h);
    var i := FirstReady(q, response);
    DeleteFacts(m, h);
    if i + 1 < |q| {
      SetQueueFacts(m, h, q[i + 1..]);
    } else {
      assert q[|q|..] == [];
    }
  }

  lemma NextHashes(m: seq<Slot>, h: nat, reuse: bool, response: Flow -> bool, hash: Hash)
    requires HashedBy(m, hash)
    ensures HashedBy(Next(m, h, reuse, response).0, hash)
  {
    var n := Next(m, h, reuse, response).0;
    if Has(m, h) {
      assert m[Position(m, h)] in m;
    }
    forall s, f | s in n && f in s.queue
      ensures f.http && hash(f) == s.hash
    {
      if s !in m {
        assert f in Queue(m, h);
      }
    }
  }

  // ----- rehashing -----

  lemma {:induction false} FlatFilter(m: seq<Slot>, hash: Hash, h: nat)
    requires Ok(m) && HashedBy(m, hash)
    ensures Filter(Flat(m), Under(hash, h)) == Queue(m, h)
  {
    hide Ok, HashedBy, Queue;
    if m != [] {
      SplitHead(m, hash, h);
      FlatFilter(m[1..], hash, h);
      var p := Under(hash, h);
      FilterConcat(m[0].queue, Flat(m[1..]), p);
      if m[0].hash == h {
        FilterAll(m[0].queue, p);
      } else {
        FilterNone(m[0].queue, p);
      }
    } else {
      NoQueueOr(m, h);
    }
  }

  lemma SplitHead(m: seq<Slot>, hash: Hash, h: nat)
    requires Ok(m) && HashedBy(m, hash) && m != []
    ensures Ok(m[1..]) && HashedBy(m[1..], hash)
    ensures forall f :: f in m[0].queue ==> f.http && hash(f) == m[0].hash
    ensures m[0].hash == h ==> Queue(m, h) == m[0].queue && Queue(m[1..], h) == []
    ensures m[0].hash != h ==> Queue(m, h) == Queue(m[1..], h)
  {
    TailKeeps(m, hash);
    if m[0].hash == h {
      HasNot(m[1..], h);
      PositionIs(m, 0);
    } else {
      hide Ok, HashedBy;
      QueueTail(m, h);
    }
  }

  lemma TailKeeps(m: seq<Slot>, hash: Hash)
    requires Ok(m) && HashedBy(m, hash) && m != []
    ensures Ok(m[1..]) && HashedBy(m[1..], hash)
    ensures forall f :: f in m[0].queue ==> f.http && hash(f) == m[0].hash
  {
    assert m[0] in m && forall s :: s in m[1..] ==> s in m;
  }

  lemma QueueTail(m: seq<Slot>, h: nat)
    requires m != [] && m[0].hash != h
    ensures Queue(m, h) == Queue(m[1..], h)
  {
    assert m == [m[0]] + m[1..];
  }

  lemma {:induction false} FlatHttp(m: seq<Slot>, hash: Hash)
    requires HashedBy(m, hash)
    ensures forall f :: f in Flat(m) ==> f.http
  {
    if m != [] {
      assert m[0] in m && forall s :: s in m[1..] ==> s in m;
      FlatHttp(m[1..], hash);
    }
  }

  /** After rehashing, every flow waits under its new hash, and two flows that shared a queue before and share one
      afterwards keep their order: seen through the other hash, old and new queues are the same. */
  lemma RecomputeLaw(m: seq<Slot>, before: Hash, after: Hash, h: nat, k: nat)
    requires Ok(m) && HashedBy(m, before)
    ensures Ok(Recompute(m, after)) && HashedBy(Recompute(m, after), after)
    ensures Filter(Queue(Recompute(m, after), k), Under(before, h)) == Filter(Queue(m, h), Under(after, k))
  {
    hide Ok, Queue, AddAll, Flat, HashedBy, Filter;
    var fs := Flat(m);
    var none: seq<Slot> := [];
    assert Ok(none) && HashedBy(none, after) && Queue(none, k) == [] by { Nothing(after, k); }
    AddAppends(none, fs, after);
    AddHashes(none, fs, after);
    FlatFilter(m, before, h);
    FiltersCommute(fs, Under(after, k), Under(before, h));
    assert [] + Filter(fs, Under(after, k)) == Filter(fs, Under(after, k));
  }

  lemma Nothing(hash: Hash, k: nat)
    ensures Ok([]) && HashedBy([], hash) && Queue([], k) == []
  {
  }

  /** Rehashing with an unchanged hash leaves every queue as it is. */
  lemma RecomputeSame(m: seq<Slot>, hash: Hash, k: nat)
    requires Ok(m) && HashedBy(m, hash)
    ensures Queue(Recompute(m, hash), k) == Queue(m, k)
  {
    Nothing(hash, k);
    AddAppends([], Flat(m), hash);
    FlatFilter(m, hash, k);
    assert [] + Queue(m, k) == Queue(m, k);
  }

  /** The flows that satisfy p, slot after slot in the order of the dictionary. */
  ghost function Merged(m: seq<Slot>, p: Flow -> bool): seq<Flow> {
    if m == [] then [] else Merged(m[..|m| - 1], p) + Filter(m[|m| - 1].queue, p)
  }

  lemma {:induction false} MergedFirst(s: Slot, m: seq<Slot>, p: Flow -> bool)
    ensures Merged([s] + m, p) == Filter(s.queue, p) + Merged(m, p)
  {
    hide Filter;
    if m == [] {
      assert [s] + m == [s] && [s][..0] == [];
      assert [] + Filter(s.queue, p) == Filter(s.queue, p) + [];
    } else {
      var n := |m| - 1;
      MergedFirst(s, m[..n], p);
      assert ([s] + m)[n + 1] == m[n] && ([s] + m)[..n + 1] == [s] + m[..n];
      assert Merged([s] + m, p) == Merged([s] + m[..n], p) + Filter(m[n].queue, p);
      assert Merged(m, p) == Merged(m[..n], p) + Filter(m[n].queue, p);
      hide Merged;
      Associative(Filter(s.queue, p), Merged(m[..n], p), Filter(m[n].queue, p));
    }
  }

  lemma {:induction false} FlatMerged(m: seq<Slot>, p: Flow -> bool)
    ensures Filter(Flat(m), p) == Merged(m, p)
  {
    if m != [] {
      FlatMerged(m[1..], p);
      FilterConcat(m[0].queue, Flat(m[1..]), p);
      MergedFirst(m[0], m[1..], p);
      hide Filter;
      assert m == [m[0]] + m[1..];
    }
  }

  /** When queues merge, the flows of an earlier key of the dictionary come first, and those of one queue stay in their
      order. */
  lemma MergeOrder(m: seq<Slot>, before: Hash, after: Hash, k: nat)
    requires HashedBy(m, before)
    ensures Queue(Recompute(m, after), k) == Merged(m, Under(after, k))
  {
    Nothing(after, k);
    AddAppends([], Flat(m), after);
    FlatMerged(m, Under(after, k));
    hide Merged, Filter, AddAll, Flat, Queue;
    assert [] + Filter(Flat(m), Under(after, k)) == Filter(Flat(m), Under(after, k));
  }

  // ----- the order of the dictionary -----

  ghost function Hashes(m: seq<Slot>): (r: seq<nat>)
    ensures |r| == |m| && forall i :: 0 <= i < |r| ==> r[i] == m[i].hash
  {
    seq(|m|, i requires 0 <= i < |m| => m[i].hash)
  }

  /** A new hash comes last, and a known one keeps its place. */
  lemma AddOrder(m: seq<Slot>, f: Flow, hash: Hash)
    ensures Hashes(AddOne(m, f, hash))
         == Hashes(m) + (if f.http && hash(f) !in Hashes(m) then [hash(f)] else [])
  {
    assert Has(m, hash(f)) <==> hash(f) in Hashes(m) by {
      if Has(m, hash(f)) {
        assert Hashes(m)[Position(m, hash(f))] == hash(f);
      }
      if i :| 0 <= i < |m| && Hashes(m)[i] == hash(f) {
        assert m[i] in m;
      }
    }
  }

  /** Serving leaves the other hashes in their order; the one served goes exactly if nothing waits under it any more. */
  lemma ServeOrder(m: seq<Slot>, h: nat, reuse: bool, response: Flow -> bool)
    requires Ok(m)
    ensures
      var n := Next(m, h, reuse, response).0;
      if Queue(n, h) == [] && h in Hashes(m) then
        exists i :: 0 <= i < |m| && m[i].hash == h && Hashes(n) == Hashes(m)[..i] + Hashes(m)[i + 1..]
      else Hashes(n) == Hashes(m)
  {
    if Has(m, h) {
      var i, n := Position(m, h), Next(m, h, reuse, response).0;
      OwnHash(m, h);
      DeleteHashes(m, h);
      DeleteFacts(m, h);
      hide Ok, Queue, Hashes, Delete, SetQueue;
      if n != m && n != Delete(m, h) {
        var q := Queue(m, h)[FirstReady(Queue(m, h), response) + 1..];
        assert n == SetQueue(m, h, q);
        SetHashes(m, h, q);
        SetQueueFacts(m, h, q);
      }
    } else {
      assert forall i :: 0 <= i < |m| ==> m[i] in m;
    }
  }

  lemma OwnHash(m: seq<Slot>, h: nat)
    requires Ok(m) && Has(m, h)
    ensures h in Hashes(m) && Queue(m, h) != []
  {
    var i := Position(m, h);
    assert Hashes(m)[i] == h && m[i] in m;
  }

  lemma DeleteHashes(m: seq<Slot>, h: nat)
    requires Has(m, h)
    ensures Hashes(Delete(m, h)) == Hashes(m)[..Position(m, h)] + Hashes(m)[Position(m, h) + 1..]
  {
  }

  lemma SetHashes(m: seq<Slot>, h: nat, q: seq<Flow>)
    requires Has(m, h)
    ensures Hashes(SetQueue(m, h, q)) == Hashes(m)
  {
  }

  // ----- conservation -----

  lemma {:induction false} FlatConcat(a: seq<Slot>, b: seq<Slot>)
    ensures Flat(a + b) == Flat(a) + Flat(b)
  {
    if a == [] {
      assert a + b == b;
    } else {
      FlatConcat(a[1..], b);
      FlatConcatFirst(a[0], a[1..], b);
      assert [a[0]] + a[1..] == a;
    }
  }

  lemma FlatConcatFirst(s: Slot, a: seq<Slot>, b: seq<Slot>)
    requires Flat(a + b) == Flat(a) + Flat(b)
    ensures Flat([s] + a + b) == Flat([s] + a) + Flat(b)
  {
    hide Flat;
    FlatFirst(s, a);
    FlatFirst(s, a + b);
    Associative([s], a, b);
    Associative(s.queue, Flat(a), Flat(b));
  }

  lemma Associative<T>(a: seq<T>, b: seq<T>, c: seq<T>)
    ensures a + b + c == a + (b + c)
  {
  }

  lemma FlatFirst(s: Slot, m: seq<Slot>)
    ensures Flat([s] + m) == s.queue + Flat(m)
  {
    assert ([s] + m)[1..] == m;
  }

  /** The dictionary around one of its slots. */
  lemma FlatAround(m: seq<Slot>, i: nat)
    requires i < |m|
    ensures Flat(m) == Flat(m[..i]) + m[i].queue + Flat(m[i + 1..])
  {
    assert m == m[..i] + m[i..];
    FlatConcat(m[..i], m[i..]);
    assert m[i..][1..] == m[i + 1..];
  }

  lemma SetQueueFlat(m: seq<Slot>, h: nat, q: seq<Flow>)
    requires Has(m, h)
    ensures multiset(Flat(SetQueue(m, h, q))) + multiset(Queue(m, h)) == multiset(Flat(m)) + multiset(q)
  {
    var i, n := Position(m, h), SetQueue(m, h, q);
    FlatAround(m, i);
    FlatAround(n, i);
    assert n[..i] == m[..i] && n[i + 1..] == m[i + 1..] && n[i].queue == q;
    hide Flat, SetQueue, Has;
  }

  lemma DeleteFlat(m: seq<Slot>, h: nat)
    requires Has(m, h)
    ensures multiset(Flat(Delete(m, h))) + multiset(Queue(m, h)) == multiset(Flat(m))
  {
    var i := Position(m, h);
    FlatAround(m, i);
    FlatConcat(m[..i], m[i + 1..]);
    hide Flat, Has;
  }

  lemma Cancel(a: multiset<Flow>, b: multiset<Flow>, c: multiset<Flow>)
    requires a + b == c + b
    ensures a == c
  {
    forall f
      ensures a[f] == c[f]
    {
      assert (a + b)[f] == (c + b)[f];
    }
  }

  lemma AddOneFlat(m: seq<Slot>, f: Flow, hash: Hash)
    ensures multiset(Flat(AddOne(m, f, hash))) == multiset(Flat(m)) + (if f.http then multiset{f} else multiset{})
  {
    var one := [Slot(hash(f), [f])];
    FlatConcat(m, one);
    assert Flat(one) == [f] + Flat(one[1..]) == [f];
    hide Flat, Has, SetQueue, Queue;
    if f.http && Has(m, hash(f)) {
      var q := Queue(m, hash(f));
      SetQueueFlat(m, hash(f), q + [f]);
      Cancel(multiset(Flat(SetQueue(m, hash(f), q + [f]))), multiset(q), multiset(Flat(m)) + multiset{f});
    }
  }

  ghost function Http(): Flow -> bool {
    (f: Flow) => f.http
  }

  lemma {:induction false} AddFlat(m: seq<Slot>, fs: seq<Flow>, hash: Hash)
    ensures multiset(Flat(AddAll(m, fs, hash))) == multiset(Flat(m)) + multiset(Filter(fs, Http()))
  {
    hide AddOne, Flat;
    if fs != [] {
      var n := |fs| - 1;
      AddFlat(m, fs[..n], hash);
      AddOneFlat(AddAll(m, fs[..n], hash), fs[n], hash);
    }
  }

  lemma NextFlat(m: seq<Slot>, h: nat, reuse: bool, response: Flow -> bool)
    requires Ok(m)
    ensures multiset(Flat(Next(m, h, reuse, response).0)) + multiset(Gone(Queue(m, h), reuse, response))
         == multiset(Flat(m))
  {
    hide Ok, Flat, Delete, SetQueue;
    var q := Queue(m, h);
    if Has(m, h) && !reuse {
      var i := FirstReady(q, response);
      GoneRest(q, response);
      assert multiset(q) == multiset(Gone(q, false, response)) + multiset(q[Min(i + 1, |q|)..]);
      DeleteFlat(m, h);
      if i + 1 < |q| {
        SetQueueFlat(m, h, q[i + 1..]);
        Cancel(multiset(Flat(SetQueue(m, h, q[i + 1..]))) + multiset(Gone(q, false, response)), multiset(q[i + 1..]),
               multiset(Flat(m)));
      } else {
        assert q[|q|..] == [];
      }
    } else {
      NoQueueOr(m, h);
    }
  }

  /** Rehashing keeps the waiting flows, and so their number. */
  lemma RecomputeFlat(m: seq<Slot>, before: Hash, after: Hash)
    requires HashedBy(m, before)
    ensures multiset(Flat(Recompute(m, after))) == multiset(Flat(m))
    ensures |Flat(Recompute(m, after))| == |Flat(m)|
  {
    FlatHttp(m, before);
    FilterAll(Flat(m), Http());
    AddFlat([], Flat(m), after);
    assert |multiset(Flat(m))| == |Flat(m)| && |multiset(Flat(Recompute(m, after)))| == |Flat(Recompute(m, after))|;
  }

  // ----- runs -----

  /** What happens to the addon; a change of the options that enter the hash rehashes at once. */
  datatype Event =
    | Loads(flows: seq<Flow>)
    | Adds(flows: seq<Flow>)
    | Clears
    | Serves(flow: Flow, reuse: bool, response: Flow -> bool)
    | Rehashes(hash: Hash)

  datatype State = State(queues: seq<Slot>, hash: Hash)

  ghost function Step(s: State, e: Event): State {
    match e
    case Loads(fs) => s.(queues := AddAll([], fs, s.hash))
    case Adds(fs) => s.(queues := AddAll(s.queues, fs, s.hash))
    case Clears => s.(queues := [])
    case Serves(f, reuse, response) => s.(queues := Next(s.queues, s.hash(f), reuse, response).0)
    case Rehashes(hash) => State(Recompute(s.queues, hash), hash)
  }

  ghost function Run(s: State, es: seq<Event>): State {
    if es == [] then s else Step(Run(s, es[..|es| - 1]), es[|es| - 1])
  }

  ghost predicate Inv(s: State) {
    Ok(s.queues) && HashedBy(s.queues, s.hash)
  }

  lemma StepKeeps(s: State, e: Event)
    requires Inv(s)
    ensures Inv(Step(s, e))
  {
    Nothing(s.hash, 0);
    match e
    case Loads(fs) =>
      AddAppends([], fs, s.hash);
      AddHashes([], fs, s.hash);
    case Clears =>
    case Adds(fs) =>
      AddAppends(s.queues, fs, s.hash);
      AddHashes(s.queues, fs, s.hash);
    case Serves(f, reuse, response) =>
      NextLaw(s.queues, s.hash(f), reuse, response);
      NextHashes(s.queues, s.hash(f), reuse, response, s.hash);
    case Rehashes(hash) => RecomputeLaw(s.queues, s.hash, hash, 0, 0);
  }

  /** After every run of loading, adding, serving, clearing and rehashing, no queue is empty, no hash occurs twice,
      and every flow waits under its present hash. */
  lemma {:induction false} RunKeeps(s: State, es: seq<Event>)
    requires Inv(s)
    ensures Inv(Run(s, es))
  {
    if es != [] {
      RunKeeps(s, es[..|es| - 1]);
      StepKeeps(Run(s, es[..|es| - 1]), es[|es| - 1]);
    }
  }

  /** The flows under h that an event takes away, and those it brings. */
  ghost function Taken(s: State, e: Event, h: nat): seq<Flow> {
    match e
    case Serves(f, reuse, response) => if s.hash(f) == h then Gone(Queue(s.queues, h), reuse, response) else []
    case Loads(_) => Queue(s.queues, h)
    case Clears => Queue(s.queues, h)
    case _ => []
  }

  ghost function Brought(s: State, e: Event, h: nat): seq<Flow> {
    match e
    case Loads(fs) => Filter(fs, Under(s.hash, h))
    case Adds(fs) => Filter(fs, Under(s.hash, h))
    case _ => []
  }

  ghost function AllTaken(s: State, es: seq<Event>, h: nat): seq<Flow> {
    if es == [] then []
    else
      var n := |es| - 1;
      AllTaken(s, es[..n], h) + Taken(Run(s, es[..n]), es[n], h)
  }

  ghost function AllBrought(s: State, es: seq<Event>, h: nat): seq<Flow> {
    if es == [] then []
    else
      var n := |es| - 1;
      AllBrought(s, es[..n], h) + Brought(Run(s, es[..n]), es[n], h)
  }

  /** First in, first out: as long as the hash stays, the flows taken from a queue so far, followed by those still
      waiting, are the flows of the start followed by those added, in exactly this order. */
  lemma {:induction false} FirstInFirstOut(s: State, es: seq<Event>, h: nat)
    requires Inv(s) && forall e :: e in es ==> !e.Rehashes?
    ensures AllTaken(s, es, h) + Queue(Run(s, es).queues, h) == Queue(s.queues, h) + AllBrought(s, es, h)
  {
    hide Inv, Queue, Taken, Brought, Step;
    if es == [] {
      assert [] + Queue(s.queues, h) == Queue(s.queues, h) + [];
    } else {
      var n := |es| - 1;
      FirstInFirstOut(s, es[..n], h);
      RunKeeps(s, es[..n]);
      var b := Run(s, es[..n]);
      TakeAndBring(b, es[n], h);
      var t, q, r := Taken(b, es[n], h), Queue(b.queues, h), Queue(Step(b, es[n]).queues, h);
      Regroup(AllTaken(s, es[..n], h), t, r, q, Brought(b, es[n], h), Queue(s.queues, h), AllBrought(s, es[..n], h));
    }
  }

  lemma Regroup(a: seq<Flow>, t: seq<Flow>, r: seq<Flow>, q: seq<Flow>, b: seq<Flow>, s: seq<Flow>, c: seq<Flow>)
    requires a + q == s + c && t + r == q + b
    ensures (a + t) + r == s + (c + b)
  {
    assert (a + t) + r == a + (t + r);
    assert a + (q + b) == (a + q) + b;
    assert (s + c) + b == s + (c + b);
  }

  lemma TakeAndBring(s: State, e: Event, h: nat)
    requires Inv(s) && !e.Rehashes?
    ensures Taken(s, e, h) + Queue(Step(s, e).queues, h) == Queue(s.queues, h) + Brought(s, e, h)
  {
    hide Queue, Ok, HashedBy, Gone, Next, AddAll, Filter;
    var q := Queue(s.queues, h);
    match e
    case Loads(fs) =>
      Nothing(s.hash, h);
      AddAppends([], fs, s.hash);
      assert [] + Brought(s, e, h) == Brought(s, e, h);
    case Clears =>
      Nothing(s.hash, h);
    case Adds(fs) =>
      AddAppends(s.queues, fs, s.hash);
      assert [] + (q + Brought(s, e, h)) == q + Brought(s, e, h);
    case Serves(f, reuse, response) =>
      NextLaw(s.queues, s.hash(f), reuse, response);
      assert q + [] == q && [] + q == q;
  }

  // ----- order across rehashing -----

  /** HTTP flows that share their hash. */
  ghost predicate Together(hash: Hash, p: Flow -> bool) {
    && (forall f :: p(f) ==> f.http)
    && (forall f, g :: p(f) && p(g) ==> hash(f) == hash(g))
  }

  /** They do so under the first hash of the run and under every later one. */
  ghost predicate AlwaysTogether(s: State, es: seq<Event>, p: Flow -> bool) {
    && Together(s.hash, p)
    && (forall i :: 0 <= i < |es| && es[i].Rehashes? ==> Together(es[i].hash, p))
  }

  /** The flows that an event takes away under any hash, and those it brings. */
  ghost function GoneBy(s: State, e: Event): seq<Flow> {
    match e
    case Serves(f, reuse, response) => Gone(Queue(s.queues, s.hash(f)), reuse, response)
    case Loads(_) => Flat(s.queues)
    case Clears => Flat(s.queues)
    case _ => []
  }

  ghost function BroughtBy(e: Event): seq<Flow> {
    if e.Adds? || e.Loads? then e.flows else []
  }

  ghost function AllGone(s: State, es: seq<Event>): seq<Flow> {
    if es == [] then []
    else
      var n := |es| - 1;
      AllGone(s, es[..n]) + GoneBy(Run(s, es[..n]), es[n])
  }

  ghost function AllCame(es: seq<Event>): seq<Flow> {
    if es == [] then [] else AllCame(es[..|es| - 1]) + BroughtBy(es[|es| - 1])
  }

  lemma {:induction false} FilterNarrow(fs: seq<Flow>, q: Flow -> bool, p: Flow -> bool)
    requires forall f :: p(f) ==> q(f)
    ensures Filter(Filter(fs, q), p) == Filter(fs, p)
  {
    if fs != [] {
      var n := |fs| - 1;
      FilterNarrow(fs[..n], q, p);
      var last := if q(fs[n]) then [fs[n]] else [];
      assert q(fs[n]) ==> last[..0] == [];
      FilterConcat(Filter(fs[..n], q), last, p);
    }
  }

  /** Flows that share the hash h wait in its queue. */
  lemma InOneQueue(m: seq<Slot>, hash: Hash, p: Flow -> bool, h: nat)
    requires Ok(m) && HashedBy(m, hash) && forall f :: p(f) ==> f.http && hash(f) == h
    ensures Filter(Flat(m), p) == Filter(Queue(m, h), p)
  {
    FlatFilter(m, hash, h);
    FilterNarrow(Flat(m), Under(hash, h), p);
  }

  /** What adding does to them. */
  lemma AddTogether(m: seq<Slot>, fs: seq<Flow>, hash: Hash, p: Flow -> bool, h: nat)
    requires Ok(m) && HashedBy(m, hash) && forall f :: p(f) ==> f.http && hash(f) == h
    ensures Filter(Flat(AddAll(m, fs, hash)), p) == Filter(Flat(m), p) + Filter(fs, p)
  {
    hide Ok, HashedBy, Queue, Filter, Flat, AddAll;
    AddAppends(m, fs, hash);
    AddHashes(m, fs, hash);
    InOneQueue(m, hash, p, h);
    InOneQueue(AddAll(m, fs, hash), hash, p, h);
    FilterConcat(Queue(m, h), Filter(fs, Under(hash, h)), p);
    FilterNarrow(fs, Under(hash, h), p);
  }

  /** What serving does to them. */
  lemma ServeTogether(s: State, e: Event, p: Flow -> bool, h: nat)
    requires Inv(s) && e.Serves? && forall f :: p(f) ==> f.http && s.hash(f) == h
    ensures Filter(GoneBy(s, e), p) + Filter(Flat(Step(s, e).queues), p) == Filter(Flat(s.queues), p)
  {
    var k := s.hash(e.flow);
    var m, n := s.queues, Step(s, e).queues;
    StepKeeps(s, e);
    NextLaw(m, k, e.reuse, e.response);
    hide Gone, Ok, HashedBy, Filter, Flat, Queue, Next;
    InOneQueue(m, s.hash, p, h);
    InOneQueue(n, s.hash, p, h);
    if k != h {
      GoneHashes(s, e);
      FilterNone(GoneBy(s, e), p);
      Unit(Filter(Flat(m), p));
    } else {
      FilterConcat(GoneBy(s, e), Queue(n, h), p);
    }
  }

  lemma GoneHashes(s: State, e: Event)
    requires HashedBy(s.queues, s.hash) && e.Serves?
    ensures forall f :: f in GoneBy(s, e) ==> s.hash(f) == s.hash(e.flow)
  {
    QueueHashes(s.queues, s.hash(e.flow), s.hash);
    hide Queue, HashedBy, FirstReady;
    assert forall f :: f in GoneBy(s, e) ==> f in Queue(s.queues, s.hash(e.flow));
  }

  lemma QueueHashes(m: seq<Slot>, h: nat, hash: Hash)
    requires HashedBy(m, hash)
    ensures forall f :: f in Queue(m, h) ==> hash(f) == h
  {
    if Has(m, h) {
      assert m[Position(m, h)] in m;
    }
  }

  lemma StepTogether(s: State, e: Event, p: Flow -> bool)
    requires Inv(s) && Together(s.hash, p) && (e.Rehashes? ==> Together(e.hash, p))
    ensures Filter(GoneBy(s, e), p) + Filter(Flat(Step(s, e).queues), p)
         == Filter(Flat(s.queues), p) + Filter(BroughtBy(e), p)
  {
    if g :| p(g) {
      SomeTogether(s, e, p, g);
    } else {
      hide Inv, GoneBy, BroughtBy, Flat, Step;
      FilterNone(GoneBy(s, e), p);
      FilterNone(Flat(Step(s, e).queues), p);
      FilterNone(Flat(s.queues), p);
      FilterNone(BroughtBy(e), p);
    }
  }

  lemma SomeTogether(s: State, e: Event, p: Flow -> bool, g: Flow)
    requires Inv(s) && p(g) && Together(s.hash, p) && (e.Rehashes? ==> Together(e.hash, p))
    ensures Filter(GoneBy(s, e), p) + Filter(Flat(Step(s, e).queues), p)
         == Filter(Flat(s.queues), p) + Filter(BroughtBy(e), p)
  {
    var h := s.hash(g);
    NothingLeft(p);
    hide Ok, HashedBy, Gone, Filter, Flat, Next, AddAll, Queue, Together;
    match e
    case Loads(fs) => LoadTogether(fs, s.hash, p, g);
    case Clears =>
    case Adds(fs) =>
      AddTogether(s.queues, fs, s.hash, p, h) by { SameHash(s.hash, p, g); }
      Unit(Filter(Flat(Step(s, e).queues), p));
    case Serves(_, _, _) =>
      ServeTogether(s, e, p, h) by { SameHash(s.hash, p, g); }
      Unit(Filter(Flat(s.queues), p));
    case Rehashes(hash) =>
      LoadTogether(Flat(s.queues), hash, p, g);
      Unit(Filter(Flat(s.queues), p));
  }

  lemma Unit(fs: seq<Flow>)
    ensures [] + fs == fs == fs + []
  {
  }

  lemma NothingLeft(p: Flow -> bool)
    ensures Flat([]) == [] && Filter([], p) == []
  {
  }

  lemma SameHash(hash: Hash, p: Flow -> bool, g: Flow)
    requires Together(hash, p) && p(g)
    ensures forall f :: p(f) ==> f.http && hash(f) == hash(g)
  {
  }

  /** What loading, and so rehashing, does to them. */
  lemma LoadTogether(fs: seq<Flow>, hash: Hash, p: Flow -> bool, g: Flow)
    requires Together(hash, p) && p(g)
    ensures Filter(Flat(AddAll([], fs, hash)), p) == Filter(fs, p)
  {
    Nothing(hash, 0);
    NothingLeft(p);
    SameHash(hash, p, g);
    hide Ok, HashedBy, Filter, Flat, AddAll, Queue, Together;
    AddTogether([], fs, hash, p, hash(g));
    Unit(Filter(fs, p));
  }

  /** First in, first out over whole runs: take any flows that every hash of the run puts into one queue. Those of them
      that were taken, followed by those still waiting, are those of the start followed by those that came, in exactly
      this order, whatever is rehashed in between. */
  lemma {:induction false} OrderAcrossRehashing(s: State, es: seq<Event>, p: Flow -> bool)
    requires Inv(s) && AlwaysTogether(s, es, p)
    ensures Filter(AllGone(s, es), p) + Filter(Flat(Run(s, es).queues), p)
         == Filter(Flat(s.queues), p) + Filter(AllCame(es), p)
  {
    hide Inv, Flat, Filter, Together, GoneBy, BroughtBy, Step;
    if es == [] {
      FilterNone([], p);
      assert [] + Filter(Flat(s.queues), p) == Filter(Flat(s.queues), p) + [];
    } else {
      var n := |es| - 1;
      OrderAcrossRehashing(s, es[..n], p);
      RunKeeps(s, es[..n]);
      HashTogether(s, es[..n], p);
      var b, e := Run(s, es[..n]), es[n];
      StepTogether(b, e, p);
      FilterConcat(AllGone(s, es[..n]), GoneBy(b, e), p);
      FilterConcat(AllCame(es[..n]), BroughtBy(e), p);
      Regroup(Filter(AllGone(s, es[..n]), p), Filter(GoneBy(b, e), p), Filter(Flat(Step(b, e).queues), p),
              Filter(Flat(b.queues), p), Filter(BroughtBy(e), p),
              Filter(Flat(s.queues), p), Filter(AllCame(es[..n]), p));
    }
  }

  lemma {:induction false} HashTogether(s: State, es: seq<Event>, p: Flow -> bool)
    requires AlwaysTogether(s, es, p)
    ensures Together(Run(s, es).hash, p)
  {
    hide Together;
    if es != [] {
      HashTogether(s, es[..|es| - 1], p);
    }
  }

  // ----- where every flow goes -----

  /** What `next_flow` returns in this event. */
  ghost function Answer(s: State, e: Event): Option<Flow> {
    if e.Serves? then Next(s.queues, s.hash(e.flow), e.reuse, e.response).1 else None
  }

  /** The flow returned, unless it stays for reuse. */
  ghost function ServedBy(s: State, e: Event): multiset<Flow> {
    if e.Serves? && !e.reuse && Answer(s, e).Some? then multiset{Answer(s, e).value} else multiset{}
  }

  /** The flows without a response that are ahead of it, or all if there is none. */
  ghost function DiscardedBy(s: State, e: Event): multiset<Flow> {
    if e.Serves? && !e.reuse then
      var q := Queue(s.queues, s.hash(e.flow));
      multiset(q[..FirstReady(q, e.response)])
    else multiset{}
  }

  /** All that waits when the queues are loaded anew or cleared. */
  ghost function DroppedBy(s: State, e: Event): multiset<Flow> {
    if e.Loads? || e.Clears? then multiset(Flat(s.queues)) else multiset{}
  }

  ghost function CameBy(e: Event): multiset<Flow> {
    if e.Adds? || e.Loads? then multiset(Filter(e.flows, Http())) else multiset{}
  }

  ghost function Served(s: State, es: seq<Event>): multiset<Flow> {
    if es == [] then multiset{}
    else
      var n := |es| - 1;
      Served(s, es[..n]) + ServedBy(Run(s, es[..n]), es[n])
  }

  ghost function Discarded(s: State, es: seq<Event>): multiset<Flow> {
    if es == [] then multiset{}
    else
      var n := |es| - 1;
      Discarded(s, es[..n]) + DiscardedBy(Run(s, es[..n]), es[n])
  }

  ghost function Dropped(s: State, es: seq<Event>): multiset<Flow> {
    if es == [] then multiset{}
    else
      var n := |es| - 1;
      Dropped(s, es[..n]) + DroppedBy(Run(s, es[..n]), es[n])
  }

  ghost function Came(es: seq<Event>): multiset<Flow> {
    if es == [] then multiset{} else Came(es[..|es| - 1]) + CameBy(es[|es| - 1])
  }

  lemma GoneIs(q: seq<Flow>, response: Flow -> bool)
    ensures
      var i := FirstReady(q, response);
      multiset(Gone(q, false, response))
      == multiset(q[..i]) + (if FirstIn(q, response).Some? then multiset{FirstIn(q, response).value} else multiset{})
  {
    var i := FirstReady(q, response);
    if i < |q| {
      assert q[..i + 1] == q[..i] + [q[i]];
    }
  }

  lemma StepConserves(s: State, e: Event)
    requires Inv(s)
    ensures multiset(Flat(Step(s, e).queues)) + (ServedBy(s, e) + DiscardedBy(s, e) + DroppedBy(s, e))
         == multiset(Flat(s.queues)) + CameBy(e)
  {
    hide Inv, Flat, Step;
    if e.Serves? {
      ServeConserves(s, e);
      assert DroppedBy(s, e) == multiset{} && CameBy(e) == multiset{};
    } else {
      OtherConserves(s, e);
      assert ServedBy(s, e) == multiset{} && DiscardedBy(s, e) == multiset{};
    }
    hide *;
  }

  lemma OtherConserves(s: State, e: Event)
    requires Inv(s) && !e.Serves?
    ensures multiset(Flat(Step(s, e).queues)) + DroppedBy(s, e) == multiset(Flat(s.queues)) + CameBy(e)
  {
    hide Ok, HashedBy, Filter, AddAll, Recompute, Flat;
    match e
    case Loads(fs) =>
      AddFlat([], fs, s.hash);
      NothingWaits();
    case Clears => NothingWaits();
    case Adds(fs) => AddFlat(s.queues, fs, s.hash);
    case Rehashes(hash) => RecomputeFlat(s.queues, s.hash, hash);
  }

  lemma NothingWaits()
    ensures Flat([]) == []
  {
  }

  lemma ServeConserves(s: State, e: Event)
    requires Inv(s) && e.Serves?
    ensures multiset(Flat(Step(s, e).queues)) + (ServedBy(s, e) + DiscardedBy(s, e)) == multiset(Flat(s.queues))
  {
    NextFlat(s.queues, s.hash(e.flow), e.reuse, e.response);
    NextLaw(s.queues, s.hash(e.flow), e.reuse, e.response);
    hide Ok, HashedBy, Next, Queue, FirstReady, FirstIn, Flat;
    var q := Queue(s.queues, s.hash(e.flow));
    if e.reuse {
      assert Gone(q, true, e.response) == [];
    } else {
      GoneIs(q, e.response);
      var served := ServedBy(s, e);
      assert multiset(Gone(q, false, e.response)) == DiscardedBy(s, e) + served;
      hide *;
      Swap(DiscardedBy(s, e), served);
    }
  }

  lemma Swap(a: multiset<Flow>, b: multiset<Flow>)
    ensures a + b == b + a
  {
  }

  /** Conservation, with rehashing at any time: the flows waiting at the start and those that came are the flows that
      were returned, those discarded for want of a response, those dropped by loading anew or clearing, and those still
      waiting. */
  lemma {:induction false} Conservation(s: State, es: seq<Event>)
    requires Inv(s)
    ensures multiset(Flat(Run(s, es).queues)) + (Served(s, es) + Discarded(s, es) + Dropped(s, es))
         == multiset(Flat(s.queues)) + Came(es)
  {
    hide Inv, Flat, ServedBy, DiscardedBy, DroppedBy, CameBy, Step;
    if es != [] {
      var n := |es| - 1;
      Conservation(s, es[..n]);
      RunKeeps(s, es[..n]);
      var b, e := Run(s, es[..n]), es[n];
      StepConserves(b, e);
      Chain(multiset(Flat(Step(b, e).queues)), ServedBy(b, e), DiscardedBy(b, e), DroppedBy(b, e),
            multiset(Flat(b.queues)), CameBy(e),
            Served(s, es[..n]), Discarded(s, es[..n]), Dropped(s, es[..n]), multiset(Flat(s.queues)), Came(es[..n]));
    }
  }

  lemma Chain(
    z: multiset<Flow>, p: multiset<Flow>, q: multiset<Flow>, r: multiset<Flow>, y: multiset<Flow>, c: multiset<Flow>,
    ps: multiset<Flow>, qs: multiset<Flow>, rs: multiset<Flow>, x: multiset<Flow>, cs: multiset<Flow>)
    requires z + (p + q + r) == y + c && y + (ps + qs + rs) == x + cs
    ensures z + ((ps + p) + (qs + q) + (rs + r)) == x + (cs + c)
  {
    forall f
      ensures (z + ((ps + p) + (qs + q) + (rs + r)))[f] == (x + (cs + c))[f]
    {
      assert (z + (p + q + r))[f] == (y + c)[f] && (y + (ps + qs + rs))[f] == (x + cs)[f];
    }
  }

  /** What is discarded has no response, and what is served has one. */
  lemma DiscardedUnready(s: State, e: Event, f: Flow)
    requires Inv(s) && e.Serves?
    ensures f in DiscardedBy(s, e) ==> !e.response(f)
    ensures f in ServedBy(s, e) ==> e.response(f)
  {
    NextLaw(s.queues, s.hash(e.flow), e.reuse, e.response);
  }
}

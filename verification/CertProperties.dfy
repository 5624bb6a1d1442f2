/** The generated certificates are a bounded first-in-first-out cache; entries added by hand are never evicted. */
module CertProperties {
  import opened Prelude
  import opened CertStore

  // ----- asterisk forms -----

  /** "*" followed by the rest of s from each of its dots on, in order. */
  ghost function FromDots(s: string): seq<string> {
    if s == "" then []
    else (if s[0] == '.' then ["*" + s] else []) + FromDots(s[1..])
  }

  lemma {:induction false} JoinSplit(s: string)
    ensures JoinDots(SplitDots(s)) == s
    decreases |s|
  {
    var i := FirstDot(s);
    if i < |s| {
      JoinSplit(s[i + 1..]);
      JoinMore(s[..i], SplitDots(s[i + 1..]));
      AtDot(s, i);
    }
  }

  lemma JoinMore(part: string, parts: seq<string>)
    requires parts != []
    ensures JoinDots([part] + parts) == part + "." + JoinDots(parts)
  {
    assert ([part] + parts)[1..] == parts;
  }

  lemma AtDot(s: string, i: nat)
    requires i < |s| && s[i] == '.'
    ensures s == s[..i] + "." + s[i + 1..]
  {
  }

  lemma {:induction false} FromDotsSkip(s: string, i: nat)
    requires i <= |s| && '.' !in s[..i]
    ensures FromDots(s) == FromDots(s[i..])
  {
    if i > 0 {
      assert s[..i][0] == s[0];
      assert forall c :: c in s[1..][..i - 1] ==> c in s[..i];
      FromDotsSkip(s[1..], i - 1);
      assert s[1..][i - 1..] == s[i..];
      assert [] + FromDots(s[1..]) == FromDots(s[1..]);
    }
  }

  lemma {:induction false} WildcardsTail(part: string, parts: seq<string>, n: nat)
    requires n < |parts|
    ensures Wildcards([part] + parts, n + 1) == ["*." + JoinDots(parts)] + Wildcards(parts, n)
  {
    var all := [part] + parts;
    assert all[n + 1..] == parts[n..];
    if n > 0 {
      WildcardsTail(part, parts, n - 1);
    } else {
      assert parts[0..] == parts && Wildcards(all, 0) == [];
    }
  }

  lemma {:induction false} WildcardsAreFromDots(s: string)
    ensures Wildcards(SplitDots(s), |SplitDots(s)| - 1) == FromDots(s)
    decreases |s|
  {
    var i := FirstDot(s);
    FromDotsSkip(s, i);
    if i < |s| {
      var rest := s[i + 1..];
      WildcardsAreFromDots(rest);
      WildcardsTail(s[..i], SplitDots(rest), |SplitDots(rest)| - 1);
      JoinSplit(rest);
      hide Wildcards, JoinDots, FirstDot;
      FromDotsAt(s, i);
    }
  }

  lemma FromDotsAt(s: string, i: nat)
    requires i < |s| && s[i] == '.'
    ensures FromDots(s[i..]) == ["*." + s[i + 1..]] + FromDots(s[i + 1..])
  {
    assert s[i..][1..] == s[i + 1..];
    assert "*" + s[i..] == "*." + s[i + 1..];
  }

  lemma {:induction false} FromDotsMember(s: string, x: string)
    ensures x in FromDots(s) <==> exists k :: 0 <= k < |s| && s[k] == '.' && x == "*" + s[k..]
  {
    if s != "" {
      FromDotsMember(s[1..], x);
      if x in FromDots(s[1..]) {
        var k :| 0 <= k < |s[1..]| && s[1..][k] == '.' && x == "*" + s[1..][k..];
        assert s[k + 1] == '.' && s[1..][k..] == s[k + 1..];
      }
      if k :| 0 <= k < |s| && s[k] == '.' && x == "*" + s[k..] {
        if k > 0 {
          assert s[1..][k - 1] == '.' && s[1..][k - 1..] == s[k..];
        } else {
          assert s[0..] == s;
        }
      }
    }
  }

  /** The asterisk forms of a name are the name itself and one form for each of its dots. */
  lemma FormsExact(dn: string, x: string)
    ensures x in Forms(dn) <==> x == dn || exists k :: 0 <= k < |dn| && dn[k] == '.' && x == "*" + dn[k..]
  {
    WildcardsAreFromDots(dn);
    FromDotsMember(dn, x);
  }

  // ----- the invariant -----

  ghost predicate Distinct(q: seq<Entry>) {
    forall i, j :: 0 <= i < j < |q| ==> q[i] != q[j]
  }

  /** Every generated entry of the store is queued, under one key only; every queued entry is in the store; and what was
      added by hand is not queued. */
  ghost predicate Core(s: Store) {
    && |s.queue| <= 100
    && Distinct(s.queue)
    && (forall k :: k in s.certs ==> (k.Generated? <==> s.certs[k] in s.queue))
    && (forall k, l :: k in s.certs && l in s.certs && k.Generated? && s.certs[k] == s.certs[l] ==> k == l)
    && (forall e :: e in s.queue ==> exists k :: k in s.certs && s.certs[k] == e)
  }

  lemma {:induction false} RegisterFacts(certs: map<CertId, Entry>, entry: Entry, names: seq<string>)
    ensures forall k :: k in Register(certs, entry, names) <==> k in certs || (k.Custom? && k.name in names)
    ensures forall k :: k in Register(certs, entry, names) ==>
      Register(certs, entry, names)[k] == if k.Custom? && k.name in names then entry else certs[k]
  {
    if names != [] {
      var n := |names| - 1;
      RegisterFacts(certs, entry, names[..n]);
      assert names == names[..n] + [names[n]];
    }
  }

  /** Adding by hand keeps the invariant exactly when it writes nothing, or an entry that is not queued. */
  lemma AddKeeps(s: Store, entry: Entry, names: seq<string>)
    requires Core(s)
    ensures Core(Add(s, entry, names)) <==> Written(entry, names) == [] || entry !in s.queue
    ensures Custom("") in Add(s, entry, names).certs <==> Custom("") in s.certs || "" in Written(entry, names)
  {
    var w, t := Written(entry, names), Add(s, entry, names);
    RegisterFacts(s.certs, entry, w);
    hide Register, Written;
    if w != [] {
      assert Custom(w[0]) in t.certs && t.certs[Custom(w[0])] == entry;
      if entry !in s.queue {
        forall e | e in t.queue
          ensures exists k :: k in t.certs && t.certs[k] == e
        {
          var k :| k in s.certs && s.certs[k] == e;
          assert k.Generated? && t.certs[k] == e;
        }
      }
    }
  }

  ghost predicate FreshEntry(s: Store, made: Entry) {
    made !in s.queue && forall k :: k in s.certs ==> s.certs[k] != made
  }

  /** The store with one more generated entry, before expiry. */
  lemma InsertFacts(s: Store, key: CertId, made: Entry)
    requires Core(s) && key.Generated? && key !in s.certs && FreshEntry(s, made)
    ensures
      var c, q := s.certs[key := made], s.queue + [made];
      && Distinct(q)
      && (forall k :: k in c ==> (k.Generated? <==> c[k] in q))
      && (forall k, l :: k in c && l in c && k.Generated? && c[k] == c[l] ==> k == l)
      && (forall e :: e in q ==> exists k :: k in c && c[k] == e)
  {
    var c, q := s.certs[key := made], s.queue + [made];
    forall e | e in q
      ensures exists k :: k in c && c[k] == e
    {
      if e == made {
        assert c[key] == e;
      } else {
        var k :| k in s.certs && s.certs[k] == e;
        assert c[k] == e;
      }
    }
    assert forall i :: 0 <= i < |s.queue| ==> s.queue[i] in s.queue;
  }

  lemma EvictFacts(c: map<CertId, Entry>, q: seq<Entry>)
    requires q != [] && Distinct(q)
    requires forall k :: k in c ==> (k.Generated? <==> c[k] in q)
    requires forall e :: e in q ==> exists k :: k in c && c[k] == e
    ensures
      var d, r := Without(c, q[0]), q[1..];
      && Distinct(r) && d.Keys <= c.Keys
      && (forall k :: k in d ==> d[k] == c[k] && (k.Generated? <==> d[k] in r))
      && (forall e :: e in r ==> exists k :: k in d && d[k] == e)
      && (forall k :: k in c && c[k] != q[0] ==> k in d)
  {
    var d, r := Without(c, q[0]), q[1..];
    assert q == [q[0]] + r;
    forall e | e in r
      ensures e != q[0] && exists k :: k in d && d[k] == e
    {
      var i :| 0 <= i < |r| && r[i] == e;
      assert q[i + 1] == e && e in q;
      var k :| k in c && c[k] == e;
      assert k in d;
    }
  }

  /** The request is about to make a second entry under its own key, while the first one stays queued. */
  ghost predicate Overwrites(s: Store, cn: Option<string>, sans: seq<San>) {
    var key := Generated(cn, sans);
    && Hit(s, cn, sans).None?
    && key in s.certs
    && !(|s.queue| == 100 && s.queue[0] == s.certs[key])
  }

  /** A request misses although its own key is stored only when the empty name is the first name found. */
  lemma MissedKey(s: Store, cn: Option<string>, sans: seq<San>)
    requires Hit(s, cn, sans).None? && Generated(cn, sans) in s.certs
    ensures FirstKnown(s.certs, PotentialKeys(cn, sans)) == Some(Custom(""))
  {
    var keys := PotentialKeys(cn, sans);
    assert keys[|keys| - 1] == Generated(cn, sans);
  }

  /** With a newly made entry that is really new, a request keeps the invariant exactly when it does not overwrite; its
      answer is always in the store. */
  lemma GetKeeps(s: Store, cn: Option<string>, sans: seq<San>, made: Entry)
    requires Core(s) && (Hit(s, cn, sans).None? ==> FreshEntry(s, made))
    ensures Core(Get(s, cn, sans, made).0) <==> !Overwrites(s, cn, sans)
    ensures var (t, e) := Get(s, cn, sans, made); exists k :: k in t.certs && t.certs[k] == e
  {
    var key := Generated(cn, sans);
    hide Hit, PotentialKeys;
    if Hit(s, cn, sans).Some? {
      var k := Hit(s, cn, sans).value;
      assert s.certs[k] == Get(s, cn, sans, made).1;
    } else {
      MadeIsStored(s, cn, sans, made);
      if key in s.certs {
        SecondEntry(s, key, made);
      } else {
        MissKeeps(s, key, made);
      }
    }
  }

  lemma MissKeeps(s: Store, key: CertId, made: Entry)
    requires Core(s) && key.Generated? && key !in s.certs && FreshEntry(s, made)
    ensures Core(Expire(s.(certs := s.certs[key := made]), made))
  {
    InsertFacts(s, key, made);
    var c, q := s.certs[key := made], s.queue + [made];
    assert c[key] == made;
    if |q| > 100 {
      EvictFacts(c, q);
      assert q[0] in s.queue;
      assert key in Without(c, q[0]);
    }
  }

  /** A second entry under a stored key leaves the first one in no key, so it must be the one that is evicted. */
  lemma SecondEntry(s: Store, key: CertId, made: Entry)
    requires Core(s) && key.Generated? && key in s.certs && FreshEntry(s, made)
    ensures
      Core(Expire(s.(certs := s.certs[key := made]), made))
      <==> |s.queue| == 100 && s.queue[0] == s.certs[key]
  {
    var first := s.certs[key];
    var c, q := s.certs[key := made], s.queue + [made];
    assert Forgotten(c, first);
    if |s.queue| == 100 && s.queue[0] == first {
      assert Without(c, first) == c && q[0] == first && q[1..] == s.queue[1..] + [made];
      SwapFacts(s, key, made);
    } else {
      var t := Expire(s.(certs := c), made);
      var i :| 0 <= i < |s.queue| && s.queue[i] == first;
      assert q[i] == first && first in t.queue by {
        assert |q| > 100 ==> i > 0 && q[1..][i - 1] == first;
      }
      assert Forgotten(t.certs, first);
    }
  }

  ghost predicate Forgotten(certs: map<CertId, Entry>, e: Entry) {
    forall k :: k in certs ==> certs[k] != e
  }

  lemma SwapFacts(s: Store, key: CertId, made: Entry)
    requires Core(s) && key.Generated? && key in s.certs && FreshEntry(s, made)
    requires s.queue != [] && s.queue[0] == s.certs[key]
    ensures Core(Store(s.certs[key := made], s.queue[1..] + [made]))
  {
    var c, r := s.certs[key := made], s.queue[1..];
    assert s.queue == [s.queue[0]] + r;
    forall e | e in r + [made]
      ensures exists k :: k in c && c[k] == e
    {
      if e == made {
        assert c[key] == e;
      } else {
        var i :| 0 <= i < |r| && r[i] == e;
        assert s.queue[i + 1] == e && e in s.queue;
        var k :| k in s.certs && s.certs[k] == e;
        assert c[k] == e;
      }
    }
    assert Distinct(r + [made]) by {
      assert forall i :: 0 <= i < |r| ==> r[i] == s.queue[i + 1] && r[i] in s.queue;
    }
    assert s.certs[key] !in r;
  }

  /** `get_cert` never touches what was added by hand, nor a generated entry under another key that stays queued; the
      key of a request that misses holds the new entry. */
  lemma GetLocal(s: Store, cn: Option<string>, sans: seq<San>, made: Entry, k: CertId)
    requires Core(s) && k in s.certs && (Hit(s, cn, sans).None? ==> FreshEntry(s, made))
    ensures
      var t := Get(s, cn, sans, made).0;
      if Hit(s, cn, sans).None? && k == Generated(cn, sans) then k in t.certs && t.certs[k] == made
      else if k.Custom? || s.certs[k] in t.queue then k in t.certs && t.certs[k] == s.certs[k]
      else k !in t.certs
  {
    hide Hit;
    if Hit(s, cn, sans).None? {
      MadeIsStored(s, cn, sans, made);
      var q := s.queue + [made];
      assert q[0] in q;
      if |q| > 100 {
        assert q[0] == s.queue[0] && q[0] in s.queue;
        assert Distinct(s.queue) && q[0] !in q[1..];
        assert s.certs[k] in q ==> s.certs[k] == q[0] || s.certs[k] in q[1..] by {
          assert q == [q[0]] + q[1..];
        }
        assert forall e :: e in q[1..] ==> e in q;
      }
    }
  }

  /** The answer to a request: the entry of the first potential key that the store knows, in the order of the
      common name, the alternative names, "*" and the exact request; a new entry exactly if there is none, or if that
      first key is the empty name. */
  lemma GetIsFirstMatch(s: Store, cn: Option<string>, sans: seq<San>, made: Entry, i: nat)
    ensures
      var keys := PotentialKeys(cn, sans);
      && ((forall k :: k in keys ==> k !in s.certs) ==> Get(s, cn, sans, made).1 == made && Hit(s, cn, sans).None?)
      && (i < |keys| && keys[i] in s.certs && (forall j :: 0 <= j < i ==> keys[j] !in s.certs)
          ==> if keys[i] == Custom("") then Get(s, cn, sans, made).1 == made && Hit(s, cn, sans).None?
              else Get(s, cn, sans, made) == (s, s.certs[keys[i]]))
  {
    var keys := PotentialKeys(cn, sans);
    if i < |keys| && keys[i] in s.certs && (forall j :: 0 <= j < i ==> keys[j] !in s.certs) {
      FirstKnownIs(s.certs, keys, i);
    }
  }

  lemma {:induction false} FirstKnownIs(certs: map<CertId, Entry>, keys: seq<CertId>, i: nat)
    requires i < |keys| && keys[i] in certs && forall j :: 0 <= j < i ==> keys[j] !in certs
    ensures FirstKnown(certs, keys) == Some(keys[i])
  {
    if i > 0 {
      FirstKnownIs(certs, keys[1..], i - 1);
    }
  }

  lemma {:induction false} FirstKnownAt(certs: map<CertId, Entry>, keys: seq<CertId>) returns (i: nat)
    requires FirstKnown(certs, keys).Some?
    ensures i < |keys| && keys[i] in certs && FirstKnown(certs, keys) == Some(keys[i])
    ensures forall j :: 0 <= j < i ==> keys[j] !in certs
  {
    if keys[0] in certs {
      i := 0;
    } else {
      var n := FirstKnownAt(certs, keys[1..]);
      i := n + 1;
      assert forall j :: 0 < j < i ==> keys[j] == keys[1..][j - 1];
    }
  }

  /** Asking again gives the same entry and changes nothing, whatever would be made now, exactly when the first name
      found is not the empty one. */
  lemma RepeatedRequest(s: Store, cn: Option<string>, sans: seq<San>, made: Entry, again: Entry)
    requires Core(s) && (Hit(s, cn, sans).None? ==> FreshEntry(s, made))
    ensures
      var (t, e) := Get(s, cn, sans, made);
      Get(t, cn, sans, again) == (t, e) <==> FirstKnown(s.certs, PotentialKeys(cn, sans)) != Some(Custom(""))
  {
    var t := Get(s, cn, sans, made).0;
    var keys := PotentialKeys(cn, sans);
    if Hit(s, cn, sans).None? {
      if FirstKnown(s.certs, keys) == Some(Custom("")) {
        EmptyNameMissesAgain(s, cn, sans, made);
        hide Hit, PotentialKeys, Core;
        QueueMoves(s, cn, sans, made, again);
      } else {
        MadeAnswers(s, cn, sans, made);
      }
    }
  }

  lemma MadeAnswers(s: Store, cn: Option<string>, sans: seq<San>, made: Entry)
    requires Core(s) && FreshEntry(s, made) && FirstKnown(s.certs, PotentialKeys(cn, sans)).None?
    ensures
      var t, key := Get(s, cn, sans, made).0, Generated(cn, sans);
      Hit(t, cn, sans) == Some(key) && t.certs[key] == made
  {
    var t := Get(s, cn, sans, made).0;
    var keys := PotentialKeys(cn, sans);
    var n := |keys| - 1;
    assert keys[n] == Generated(cn, sans);
    MadeIsStored(s, cn, sans, made);
    forall j | 0 <= j < n
      ensures keys[j] !in t.certs
    {
      assert keys[j] in keys && keys[j].Custom?;
    }
    FirstKnownIs(t.certs, keys, n);
  }

  /** A second miss changes the queue, even if it made the same entry again. */
  lemma QueueMoves(s: Store, cn: Option<string>, sans: seq<San>, made: Entry, again: Entry)
    requires |s.queue| <= 100 && Distinct(s.queue) && made !in s.queue
    requires Hit(s, cn, sans).None? && Hit(Get(s, cn, sans, made).0, cn, sans).None?
    ensures var t := Get(s, cn, sans, made).0; Get(t, cn, sans, again).0.queue != t.queue
  {
    var t := Get(s, cn, sans, made).0;
    var u := Get(t, cn, sans, again).0;
    var n := |t.queue|;
    assert t.queue[n - 1] == made;
    if |u.queue| == n {
      assert u.queue[n - 2] == made;
      assert t.queue[n - 2] in s.queue by {
        assert t.queue == s.queue + [made] || t.queue == (s.queue + [made])[1..];
      }
    }
  }

  lemma MadeIsStored(s: Store, cn: Option<string>, sans: seq<San>, made: Entry)
    requires Core(s) && Hit(s, cn, sans).None? && FreshEntry(s, made)
    ensures
      var t := Get(s, cn, sans, made).0;
      Generated(cn, sans) in t.certs && t.certs[Generated(cn, sans)] == made
  {
    assert (s.queue + [made])[0] == made ==> s.queue == [];
  }

  // ----- runs -----

  datatype Event =
    | Adds(entry: Entry, names: seq<string>)
    | Gets(cn: Option<string>, sans: seq<San>, made: Entry)

  ghost function Step(s: Store, e: Event): Store {
    match e
    case Adds(entry, names) => Add(s, entry, names)
    case Gets(cn, sans, made) => Get(s, cn, sans, made).0
  }

  ghost function Run(s: Store, es: seq<Event>): Store {
    if es == [] then s else Step(Run(s, es[..|es| - 1]), es[|es| - 1])
  }

  ghost predicate NewMade(s: Store, e: Event) {
    e.Gets? && Hit(s, e.cn, e.sans).None? ==> FreshEntry(s, e.made)
  }

  /** Made entries are new, entries added by hand are not generated ones, and no request overwrites. */
  ghost predicate Allowed(s: Store, e: Event) {
    && NewMade(s, e)
    && match e
       case Adds(entry, names) => Written(entry, names) == [] || entry !in s.queue
       case Gets(cn, sans, _) => !Overwrites(s, cn, sans)
  }

  ghost predicate Disciplined(s: Store, es: seq<Event>) {
    forall i :: 0 <= i < |es| ==> Allowed(Run(s, es[..i]), es[i])
  }

  /** If made entries are new, the invariant holds all along a run exactly when every step is allowed. */
  lemma RunKeeps(s: Store, es: seq<Event>)
    requires Core(s) && forall i :: 0 <= i < |es| ==> NewMade(Run(s, es[..i]), es[i])
    ensures Disciplined(s, es) <==> forall i :: 0 <= i <= |es| ==> Core(Run(s, es[..i]))
  {
    hide Core, Allowed, NewMade, Step, Run;
    if Disciplined(s, es) {
      forall i | 0 <= i <= |es|
        ensures Core(Run(s, es[..i]))
      {
        Prefix(s, es, i);
        CoreAfter(s, es[..i]);
      }
    }
    if forall i :: 0 <= i <= |es| ==> Core(Run(s, es[..i])) {
      forall i | 0 <= i < |es|
        ensures Allowed(Run(s, es[..i]), es[i])
      {
        StepKeeps(Run(s, es[..i]), es[i]);
        RunStep(s, es, i);
        assert Core(Run(s, es[..i + 1]));
      }
    }
  }

  lemma RunStep(s: Store, es: seq<Event>, i: nat)
    requires i < |es|
    ensures Run(s, es[..i + 1]) == Step(Run(s, es[..i]), es[i])
  {
    assert es[..i + 1][..i] == es[..i];
  }

  lemma Prefix(s: Store, es: seq<Event>, n: nat)
    requires n <= |es| && Disciplined(s, es)
    ensures Disciplined(s, es[..n])
  {
    assert forall i :: 0 <= i < n ==> es[..n][..i] == es[..i] && es[..n][i] == es[i];
  }

  lemma {:induction false} CoreAfter(s: Store, es: seq<Event>)
    requires Core(s) && Disciplined(s, es)
    ensures Core(Run(s, es))
  {
    hide Core, Allowed;
    if es != [] {
      var n := |es| - 1;
      Prefix(s, es, n);
      CoreAfter(s, es[..n]);
      assert Allowed(Run(s, es[..n]), es[n]);
      assert NewMade(Run(s, es[..n]), es[n]) by { AllowedIsNew(Run(s, es[..n]), es[n]); }
      StepKeeps(Run(s, es[..n]), es[n]);
    }
  }

  lemma AllowedIsNew(s: Store, e: Event)
    requires Allowed(s, e)
    ensures NewMade(s, e)
  {
  }

  lemma StepKeeps(s: Store, e: Event)
    requires Core(s) && NewMade(s, e)
    ensures Core(Step(s, e)) <==> Allowed(s, e)
  {
    hide Core, Overwrites;
    match e
    case Adds(entry, names) => AddKeeps(s, entry, names);
    case Gets(cn, sans, made) => GetKeeps(s, cn, sans, made);
  }

  /** Without the empty name no request ever overwrites. */
  lemma {:induction false} NoEmptyName(s: Store, es: seq<Event>, cn: Option<string>, sans: seq<San>)
    requires Custom("") !in s.certs && forall e :: e in es && e.Adds? ==> "" !in Written(e.entry, e.names)
    ensures Custom("") !in Run(s, es).certs && !Overwrites(Run(s, es), cn, sans)
  {
    if es != [] {
      var n := |es| - 1;
      assert forall e :: e in es[..n] ==> e in es;
      NoEmptyName(s, es[..n], cn, sans);
      var b, e := Run(s, es[..n]), es[n];
      assert e in es;
      if e.Adds? {
        RegisterFacts(b.certs, e.entry, Written(e.entry, e.names));
      }
    }
    if Overwrites(Run(s, es), cn, sans) {
      MissedKey(Run(s, es), cn, sans);
    }
  }

  /** The entries generated in a run, in order. */
  ghost function Made(s: Store, es: seq<Event>): seq<Entry> {
    if es == [] then []
    else
      var n := |es| - 1;
      var b, e := Run(s, es[..n]), es[n];
      Made(s, es[..n]) + (if e.Gets? && Hit(b, e.cn, e.sans).None? then [e.made] else [])
  }

  ghost function LastOnes(es: seq<Entry>): seq<Entry> {
    if |es| <= 100 then es else es[|es| - 100..]
  }

  lemma LastOnesStep(es: seq<Entry>, e: Entry)
    ensures
      var q := LastOnes(es) + [e];
      LastOnes(es + [e]) == if |q| > 100 then q[1..] else q
  {
  }

  /** The queue holds exactly the last entries made, at most 100 of them, in insertion order. */
  lemma {:induction false} QueueIsLastMade(es: seq<Event>)
    ensures Run(Store(map[], []), es).queue == LastOnes(Made(Store(map[], []), es))
  {
    var s := Store(map[], []);
    hide LastOnes, Register, Without, Hit;
    if es != [] {
      var n := |es| - 1;
      QueueIsLastMade(es[..n]);
      var e := es[n];
      if e.Gets? && Hit(Run(s, es[..n]), e.cn, e.sans).None? {
        LastOnesStep(Made(s, es[..n]), e.made);
      }
      assert Made(s, es[..n]) + [] == Made(s, es[..n]);
    } else {
      assert LastOnes([]) == [] by { NoneMade(); }
    }
  }

  lemma NoneMade()
    ensures LastOnes([]) == []
  {
  }

  /** In every run from an empty store the generated certificates are exactly the last 100 ones made: a
      generated key is present exactly as long as its entry is among them. */
  lemma GeneratedAreLastMade(es: seq<Event>, e: Entry)
    requires Disciplined(Store(map[], []), es)
    ensures
      var s, made := Run(Store(map[], []), es), Made(Store(map[], []), es);
      (exists k :: k in s.certs && k.Generated? && s.certs[k] == e)
      <==> e in LastOnes(made)
  {
    var s := Run(Store(map[], []), es);
    CoreAfter(Store(map[], []), es);
    QueueIsLastMade(es);
    if e in s.queue {
      var k :| k in s.certs && s.certs[k] == e;
      assert k.Generated?;
    }
  }

  /** A generated entry keeps answering its key as long as it is queued; what was added by hand is never evicted, and
      changes only when its name is registered again. */
  lemma {:induction false} StaysCached(s: Store, es: seq<Event>, k: CertId)
    requires Core(s) && Disciplined(s, es) && k in s.certs
    ensures k.Custom? ==> k in Run(s, es).certs && (Registered(es, k.name) || Run(s, es).certs[k] == s.certs[k])
    ensures k.Generated? && s.certs[k] in Run(s, es).queue && !Remade(s, es, s.certs[k])
      ==> k in Run(s, es).certs && Run(s, es).certs[k] == s.certs[k]
  {
    hide Core, Step, Allowed, Hit, Disciplined, Registered;
    if es != [] {
      var n := |es| - 1;
      Prefix(s, es, n);
      CoreAfter(s, es[..n]);
      StaysCached(s, es[..n], k);
      RegisteredMore(es, k);
      LastAllowed(s, es);
      QueueStep(Run(s, es[..n]), es[n]);
      if k in Run(s, es[..n]).certs {
        StaysStep(Run(s, es[..n]), es[n], k);
      }
    }
  }

  lemma LastAllowed(s: Store, es: seq<Event>)
    requires es != [] && Disciplined(s, es)
    ensures Allowed(Run(s, es[..|es| - 1]), es[|es| - 1])
  {
  }

  lemma RegisteredMore(es: seq<Event>, k: CertId)
    requires es != []
    ensures
      var n := |es| - 1;
      k.Custom? ==> (Registered(es, k.name) <==> Registered(es[..n], k.name) || Registers(es[n], k.name))
  {
    var n := |es| - 1;
    assert es == es[..n] + [es[n]];
    assert forall e :: e in es <==> e in es[..n] || e == es[n];
  }

  lemma DropFirst(q: seq<Entry>, e: Entry)
    requires q != []
    ensures (q + [e])[1..] == q[1..] + [e]
  {
  }

  lemma StaysStep(s: Store, e: Event, k: CertId)
    requires Core(s) && Allowed(s, e) && k in s.certs
    ensures k.Custom? ==>
      k in Step(s, e).certs && (Registers(e, k.name) || Step(s, e).certs[k] == s.certs[k])
    ensures k.Generated? && s.certs[k] in Step(s, e).queue ==>
      k in Step(s, e).certs && Step(s, e).certs[k] == s.certs[k]
  {
    if e.Adds? {
      RegisterFacts(s.certs, e.entry, Written(e.entry, e.names));
    } else {
      hide Hit;
      GetLocal(s, e.cn, e.sans, e.made, k);
      if Hit(s, e.cn, e.sans).None? && k == Generated(e.cn, e.sans) {
        assert s.queue[0] == s.certs[k];
        DropFirst(s.queue, e.made);
      }
    }
  }

  lemma QueueStep(s: Store, e: Event)
    ensures forall x :: x in Step(s, e).queue ==>
      x in s.queue || (e.Gets? && Hit(s, e.cn, e.sans).None? && x == e.made)
  {
    if e.Gets? {
      assert forall x :: x in (s.queue + [e.made])[1..] ==> x in s.queue + [e.made];
    }
  }

  /** Whether an entry is made again in a run. */
  ghost predicate Remade(s: Store, es: seq<Event>, e: Entry) {
    e in Made(s, es)
  }

  ghost predicate Registers(e: Event, name: string) {
    e.Adds? && name in Written(e.entry, e.names)
  }

  /** Whether a run registers an entry under the name. */
  ghost predicate Registered(es: seq<Event>, name: string) {
    exists e :: e in es && Registers(e, name)
  }

  // ----- the empty name -----

  /** If the empty name is the first name found, each request misses again: the entry that the first one makes stays
      queued, and after the second one no key holds it. */
  lemma EmptyNameForgets(s: Store, cn: Option<string>, sans: seq<San>, made: Entry, again: Entry)
    requires Core(s) && FirstKnown(s.certs, PotentialKeys(cn, sans)) == Some(Custom(""))
    requires made != again && FreshEntry(s, made)
    ensures
      var t := Get(s, cn, sans, made).0;
      var u := Get(t, cn, sans, again).0;
      made in u.queue && forall k :: k in u.certs ==> u.certs[k] != made
  {
    EmptyNameMissesAgain(s, cn, sans, made);
    var t := Get(s, cn, sans, made).0;
    var u := Get(t, cn, sans, again).0;
    hide Hit, PotentialKeys, Core;
    assert t.queue[|t.queue| - 1] == made;
    assert u.queue[|u.queue| - 2] == made;
  }

  lemma EmptyNameMissesAgain(s: Store, cn: Option<string>, sans: seq<San>, made: Entry)
    requires Core(s) && FirstKnown(s.certs, PotentialKeys(cn, sans)) == Some(Custom("")) && FreshEntry(s, made)
    ensures Hit(s, cn, sans).None? && Hit(Get(s, cn, sans, made).0, cn, sans).None?
  {
    var t := Get(s, cn, sans, made).0;
    var keys := PotentialKeys(cn, sans);
    var i := FirstKnownAt(s.certs, keys);
    forall j | 0 <= j < i
      ensures keys[j] !in t.certs
    {
      assert keys[j].Custom?;
    }
    GetLocal(s, cn, sans, made, Custom(""));
    FirstKnownIs(t.certs, keys, i);
  }

  /** From the empty store the failure takes three calls: an entry under the empty name, and twice a request for it. */
  lemma EmptyNameReached(hand: Entry, made: Entry, again: Entry)
    requires hand != made && made != again && again != hand
    ensures
      var es := [Adds(hand, [""]), Gets(None, [Dns("")], made), Gets(None, [Dns("")], again)];
      && Disciplined(Store(map[], []), es[..2])
      && NewMade(Run(Store(map[], []), es[..2]), es[2])
      && !Core(Run(Store(map[], []), es))
  {
    var none := Store(map[], []);
    var es := [Adds(hand, [""]), Gets(None, [Dns("")], made), Gets(None, [Dns("")], again)];
    var one := Add(none, hand, [""]);
    var two := Get(one, None, [Dns("")], made).0;
    EmptyNameStored(hand);
    EmptyNameTwice(one, made, again);
    RunStep(none, es, 0);
    RunStep(none, es, 1);
    RunStep(none, es, 2);
    hide Core, NewMade, Overwrites, Add, Get;
    assert es[..0] == [] && es[..3] == es && Run(none, []) == none;
    assert Run(none, es[..1]) == one && Run(none, es[..2]) == two;
    hide Run;
    assert forall i :: 0 <= i < 2 ==> es[..2][..i] == es[..i] && es[..2][i] == es[i];
  }

  lemma EmptyNameStored(hand: Entry)
    ensures
      var none := Store(map[], []);
      var one := Add(none, hand, [""]);
      && Allowed(none, Adds(hand, [""])) && Core(one) && Custom("") in one.certs
      && one.queue == [] && forall k :: k in one.certs ==> k.Custom? && one.certs[k] == hand
  {
    var none := Store(map[], []);
    RegisterFacts(none.certs, hand, Written(hand, [""]));
    AddKeeps(none, hand, [""]);
  }

  lemma EmptyNameTwice(one: Store, made: Entry, again: Entry)
    requires Core(one) && Custom("") in one.certs && one.queue == []
    requires forall k :: k in one.certs ==> k.Custom? && one.certs[k] != made && one.certs[k] != again
    requires made != again
    ensures
      var e, g := Gets(None, [Dns("")], made), Gets(None, [Dns("")], again);
      var two := Step(one, e);
      Allowed(one, e) && NewMade(two, g) && !Core(Step(two, g))
  {
    var two := Get(one, None, [Dns("")], made).0;
    EmptyNameMisses(one);
    EmptyNameMissesAgain(one, None, [Dns("")], made);
    MadeIsStored(one, None, [Dns("")], made);
    GetKeeps(one, None, [Dns("")], made);
    hide Hit, Core, Without;
    assert two.queue == [made];
    GetKeeps(two, None, [Dns("")], again);
  }

  lemma EmptyNameMisses(s: Store)
    requires Custom("") in s.certs
    ensures FirstKnown(s.certs, PotentialKeys(None, [Dns("")])) == Some(Custom(""))
  {
    assert Forms("")[0] == "";
    assert SansForms([Dns("")][..0]) == [];
    assert SansForms([Dns("")])[0] == "";
    var keys := PotentialKeys(None, [Dns("")]);
    assert keys[0] == Custom("");
  }
}

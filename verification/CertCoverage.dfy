/** Which certificate answers a request: the names that cover it, in the order in which they are tried, written down
    without the list of keys that the store goes through. */
module CertCoverage {
  import opened Prelude
  import opened CertStore
  import opened CertProperties

  /** What a request asks for, in order: its common name, if there is one and it is not empty, its alternative names,
      and the wildcard for everything. */
  ghost function Wanted(cn: Option<string>, sans: seq<San>): seq<San> {
    (if cn.Some? && cn.value != "" then [Dns(cn.value)] else []) + sans + [Other("*")]
  }

  /** The names that cover one of them: the name itself at place 0, and for a DNS name the wildcard for what follows a
      dot at position p - 1; so names that leave out less have smaller places. */
  ghost predicate Covers(san: San, p: nat) {
    p == 0 || (san.Dns? && p <= |san.value| && san.value[p - 1] == '.')
  }

  ghost function CoveringName(san: San, p: nat): string
    requires Covers(san, p)
  {
    if p == 0 then san.value else "*" + san.value[p - 1..]
  }

  /** A certificate is registered under the covering name at place p of the g-th thing wanted. */
  ghost predicate Covered(s: Store, wanted: seq<San>, g: nat, p: nat) {
    g < |wanted| && Covers(wanted[g], p) && Custom(CoveringName(wanted[g], p)) in s.certs
  }

  ghost predicate Earlier(g: nat, p: nat, h: nat, q: nat) {
    g < h || (g == h && p < q)
  }

  ghost predicate NoneEarlier(s: Store, wanted: seq<San>, h: nat, q: nat) {
    forall g, p :: Earlier(g, p, h, q) ==> !Covered(s, wanted, g, p)
  }

  ghost predicate NoneCovered(s: Store, wanted: seq<San>) {
    forall g, p :: !Covered(s, wanted, g, p)
  }

  // ----- the keys of one name -----

  lemma {:induction false} FirstKnownConcat(certs: map<CertId, Entry>, a: seq<CertId>, b: seq<CertId>)
    ensures FirstKnown(certs, a + b)
         == if FirstKnown(certs, a).Some? then FirstKnown(certs, a) else FirstKnown(certs, b)
  {
    if a == [] {
      assert a + b == b;
    } else {
      assert (a + b)[0] == a[0] && (a + b)[1..] == a[1..] + b;
      FirstKnownConcat(certs, a[1..], b);
    }
  }

  lemma AsCustomConcat(a: seq<string>, b: seq<string>)
    ensures AsCustom(a + b) == AsCustom(a) + AsCustom(b)
  {
  }

  ghost predicate StoredDot(certs: map<CertId, Entry>, s: string, k: nat) {
    k < |s| && s[k] == '.' && Custom("*" + s[k..]) in certs
  }

  /** The first stored wildcard in the order of the dots. */
  lemma {:induction false} FirstDotKnown(certs: map<CertId, Entry>, s: string, k: nat)
    requires k <= |s| && (forall i: nat :: i < k ==> !StoredDot(certs, s, i)) && (k < |s| ==> StoredDot(certs, s, k))
    ensures FirstKnown(certs, AsCustom(FromDots(s))) == if k < |s| then Some(Custom("*" + s[k..])) else None
  {
    if s != "" {
      var head := if s[0] == '.' then ["*" + s] else [];
      AsCustomConcat(head, FromDots(s[1..]));
      FirstKnownConcat(certs, AsCustom(head), AsCustom(FromDots(s[1..])));
      assert s[0..] == s;
      if k == 0 {
        assert AsCustom(head) == [Custom("*" + s)];
      } else {
        forall i: nat | i < k - 1
          ensures !StoredDot(certs, s[1..], i)
        {
          assert s[1..][i..] == s[i + 1..] && !StoredDot(certs, s, i + 1);
        }
        assert k < |s| ==> s[1..][k - 1..] == s[k..];
        FirstDotKnown(certs, s[1..], k - 1);
        assert !StoredDot(certs, s, 0);
        assert FirstKnown(certs, AsCustom(head)).None?;
      }
    } else {
      assert AsCustom(FromDots(s)) == [];
    }
  }

  ghost predicate StoredAt(certs: map<CertId, Entry>, san: San, p: nat) {
    Covers(san, p) && Custom(CoveringName(san, p)) in certs
  }

  /** The first stored name that covers one thing wanted. */
  lemma FirstFormKnown(certs: map<CertId, Entry>, san: San, p: nat)
    requires StoredAt(certs, san, p) && forall q: nat :: q < p ==> !StoredAt(certs, san, q)
    ensures FirstKnown(certs, AsCustom(SanForms(san))) == Some(Custom(CoveringName(san, p)))
  {
    FormsOf(san);
    if p == 0 {
      assert AsCustom(SanForms(san))[0] == Custom(san.value);
    } else {
      forall i: nat | i < p - 1
        ensures !StoredDot(certs, san.value, i)
      {
        assert !StoredAt(certs, san, i + 1);
      }
      FirstDotKnown(certs, san.value, p - 1);
      assert !StoredAt(certs, san, 0);
      AsCustomConcat([san.value], FromDots(san.value));
      FirstKnownConcat(certs, AsCustom([san.value]), AsCustom(FromDots(san.value)));
    }
  }

  lemma NoFormKnown(certs: map<CertId, Entry>, san: San)
    requires forall p: nat :: !StoredAt(certs, san, p)
    ensures FirstKnown(certs, AsCustom(SanForms(san))).None?
  {
    FormsOf(san);
    assert !StoredAt(certs, san, 0);
    if san.Dns? {
      forall i: nat | i < |san.value|
        ensures !StoredDot(certs, san.value, i)
      {
        assert !StoredAt(certs, san, i + 1);
      }
      FirstDotKnown(certs, san.value, |san.value|);
      AsCustomConcat([san.value], FromDots(san.value));
      FirstKnownConcat(certs, AsCustom([san.value]), AsCustom(FromDots(san.value)));
    }
  }

  lemma FormsOf(san: San)
    ensures SanForms(san) == if san.Dns? then [san.value] + FromDots(san.value) else [san.value]
  {
    if san.Dns? {
      WildcardsAreFromDots(san.value);
    }
  }

  // ----- the keys of a request -----

  ghost function KeysFor(wanted: seq<San>): seq<CertId> {
    if wanted == [] then [] else AsCustom(SanForms(wanted[0])) + KeysFor(wanted[1..])
  }

  lemma {:induction false} KeysConcat(a: seq<San>, b: seq<San>)
    ensures KeysFor(a + b) == KeysFor(a) + KeysFor(b)
  {
    hide AsCustom, SanForms;
    if a == [] {
      assert a + b == b;
    } else {
      assert (a + b)[0] == a[0] && (a + b)[1..] == a[1..] + b;
      KeysConcat(a[1..], b);
    }
  }

  lemma KeysOne(san: San)
    ensures KeysFor([san]) == AsCustom(SanForms(san))
  {
    assert [san][1..] == [] && KeysFor([]) == [];
  }

  lemma {:induction false} SansKeys(sans: seq<San>)
    ensures AsCustom(SansForms(sans)) == KeysFor(sans)
  {
    hide SanForms;
    if sans == [] {
      assert AsCustom([]) == [];
    } else {
      var n := |sans| - 1;
      SansKeys(sans[..n]);
      AsCustomConcat(SansForms(sans[..n]), SanForms(sans[n]));
      KeysOne(sans[n]);
      KeysConcat(sans[..n], [sans[n]]);
      assert sans == sans[..n] + [sans[n]];
    }
  }

  lemma WantedKeys(cn: Option<string>, sans: seq<San>)
    ensures PotentialKeys(cn, sans) == KeysFor(Wanted(cn, sans)) + [Generated(cn, sans)]
  {
    var head := if cn.Some? && cn.value != "" then [Dns(cn.value)] else [];
    var names := if cn.Some? && cn.value != "" then Forms(cn.value) else [];
    assert AsCustom(names) == KeysFor(head) by {
      if head != [] {
        KeysOne(head[0]);
      } else {
        assert AsCustom([]) == [];
      }
    }
    SansKeys(sans);
    KeysOne(Other("*"));
    hide AsCustom, KeysFor, Forms, SansForms;
    AsCustomConcat(names + SansForms(sans), ["*"]);
    AsCustomConcat(names, SansForms(sans));
    KeysConcat(head + sans, [Other("*")]);
    KeysConcat(head, sans);
  }

  /** The first stored covering name in the order of what is wanted. */
  lemma {:induction false} FirstCoveredKnown(s: Store, wanted: seq<San>, g: nat, p: nat)
    requires Covered(s, wanted, g, p) && NoneEarlier(s, wanted, g, p)
    ensures FirstKnown(s.certs, KeysFor(wanted)) == Some(Custom(CoveringName(wanted[g], p)))
  {
    FirstKnownConcat(s.certs, AsCustom(SanForms(wanted[0])), KeysFor(wanted[1..]));
    if g == 0 {
      forall q: nat | q < p
        ensures !StoredAt(s.certs, wanted[0], q)
      {
        assert Earlier(0, q, 0, p) && !Covered(s, wanted, 0, q);
      }
      FirstFormKnown(s.certs, wanted[0], p);
    } else {
      forall q: nat
        ensures !StoredAt(s.certs, wanted[0], q)
      {
        assert Earlier(0, q, g, p) && !Covered(s, wanted, 0, q);
      }
      NoFormKnown(s.certs, wanted[0]);
      forall h: nat, q: nat | Earlier(h, q, g - 1, p)
        ensures !Covered(s, wanted[1..], h, q)
      {
        assert Earlier(h + 1, q, g, p) && !Covered(s, wanted, h + 1, q);
      }
      FirstCoveredKnown(s, wanted[1..], g - 1, p);
    }
  }

  lemma {:induction false} NoneCoveredKnown(s: Store, wanted: seq<San>)
    requires NoneCovered(s, wanted)
    ensures FirstKnown(s.certs, KeysFor(wanted)).None?
  {
    if wanted != [] {
      FirstKnownConcat(s.certs, AsCustom(SanForms(wanted[0])), KeysFor(wanted[1..]));
      forall q: nat
        ensures !StoredAt(s.certs, wanted[0], q)
      {
        assert !Covered(s, wanted, 0, q);
      }
      NoFormKnown(s.certs, wanted[0]);
      forall h: nat, q: nat
        ensures !Covered(s, wanted[1..], h, q)
      {
        assert !Covered(s, wanted, h + 1, q);
      }
      NoneCoveredKnown(s, wanted[1..]);
    }
  }

  // ----- the answer -----

  /** The covering name that is wanted first, and among those for one name the one that leaves out least, answers the
      request; unless it is the empty name, which is taken for none. */
  lemma FirstCoveringAnswers(s: Store, cn: Option<string>, sans: seq<San>, made: Entry, g: nat, p: nat)
    requires Covered(s, Wanted(cn, sans), g, p) && NoneEarlier(s, Wanted(cn, sans), g, p)
    ensures
      var name := CoveringName(Wanted(cn, sans)[g], p);
      && Custom(name) in s.certs
      && if name == "" then Get(s, cn, sans, made).1 == made else Get(s, cn, sans, made) == (s, s.certs[Custom(name)])
  {
    var wanted := Wanted(cn, sans);
    WantedKeys(cn, sans);
    FirstCoveredKnown(s, wanted, g, p);
    FirstKnownConcat(s.certs, KeysFor(wanted), [Generated(cn, sans)]);
    hide PotentialKeys, KeysFor, NoneEarlier, Wanted, Expire;
  }

  /** If no covering name is stored, the very same request answers itself, and otherwise a new entry is made and stored
      for it. */
  lemma NotCoveredAnswers(s: Store, cn: Option<string>, sans: seq<San>, made: Entry)
    requires NoneCovered(s, Wanted(cn, sans))
    ensures
      var key := Generated(cn, sans);
      if key in s.certs then Get(s, cn, sans, made) == (s, s.certs[key])
      else Get(s, cn, sans, made) == (Expire(s.(certs := s.certs[key := made]), made), made)
  {
    var wanted, key := Wanted(cn, sans), Generated(cn, sans);
    WantedKeys(cn, sans);
    NoneCoveredKnown(s, wanted);
    FirstKnownConcat(s.certs, KeysFor(wanted), [key]);
    assert [key][1..] == [] && FirstKnown(s.certs, []) == None;
    hide PotentialKeys, KeysFor, NoneCovered, Wanted, Expire;
  }

  /** Without the empty name, an entry is made exactly when no covering name is stored and the same request was not made
      before (and is not evicted). */
  lemma MadeExactly(s: Store, cn: Option<string>, sans: seq<San>, made: Entry)
    requires Custom("") !in s.certs && forall k :: k in s.certs ==> s.certs[k] != made
    ensures Get(s, cn, sans, made).1 == made <==> NoneCovered(s, Wanted(cn, sans)) && Generated(cn, sans) !in s.certs
  {
    var wanted := Wanted(cn, sans);
    if NoneCovered(s, wanted) {
      NotCoveredAnswers(s, cn, sans, made);
    } else {
      var g, p := SomeFirst(s, wanted);
      FirstCoveringAnswers(s, cn, sans, made, g, p);
    }
  }

  /** If any covering name is stored, there is a first one. */
  lemma SomeFirst(s: Store, wanted: seq<San>) returns (g: nat, p: nat)
    requires !NoneCovered(s, wanted)
    ensures Covered(s, wanted, g, p) && NoneEarlier(s, wanted, g, p)
  {
    g, p :| Covered(s, wanted, g, p);
    while !NoneEarlier(s, wanted, g, p)
      invariant Covered(s, wanted, g, p)
      decreases g, p
    {
      var h, q :| Earlier(h, q, g, p) && Covered(s, wanted, h, q);
      g, p := h, q;
    }
  }

  /** What was added under "*" answers every request that nothing else answers. */
  lemma StarAnswers(s: Store, cn: Option<string>, sans: seq<San>, made: Entry)
    requires Custom("*") in s.certs && NoneEarlier(s, Wanted(cn, sans), |Wanted(cn, sans)| - 1, 0)
    ensures Get(s, cn, sans, made) == (s, s.certs[Custom("*")])
  {
    var wanted := Wanted(cn, sans);
    assert Covered(s, wanted, |wanted| - 1, 0);
    FirstCoveringAnswers(s, cn, sans, made, |wanted| - 1, 0);
  }

  // ----- adding -----

  /** `add_cert` registers the entry under its common name, if it has one, under its alternative names and under the
      names given, and touches nothing else. */
  lemma AddRegisters(s: Store, entry: Entry, names: seq<string>, k: CertId)
    ensures
      var t := Add(s, entry, names);
      && t.queue == s.queue
      && if k.Custom? && ((k.name == entry.cn && entry.cn != "") || k.name in entry.altnames || k.name in names) then
           k in t.certs && t.certs[k] == entry
         else if k in s.certs then k in t.certs && t.certs[k] == s.certs[k]
         else k !in t.certs
  {
    RegisterFacts(s.certs, entry, Written(entry, names));
    hide Register;
  }
}

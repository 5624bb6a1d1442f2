/** The in-memory certificate store of mitmproxy/certs.py: entries added by hand, which stay, and generated ones,
    which a queue of bounded length evicts in insertion order. */
module CertStore {
  import opened Prelude

  /** A certificate entry; `id` tells entries apart, the rest are the names that its certificate carries. An empty
      `cn` stands for no common name. */
  datatype Entry = Entry(id: nat, cn: string, altnames: seq<string>)

  /** A subject alternative name: a DNS name, or another one with the text of its value. */
  datatype San = Dns(value: string) | Other(value: string)

  datatype CertId = Custom(name: string) | Generated(cn: Option<string>, sans: seq<San>)

  datatype Store = Store(certs: map<CertId, Entry>, queue: seq<Entry>)

  const STORE_CAP: nat := 100

  // ----- names -----

  function FirstDot(s: string): (i: nat)
    ensures i <= |s| && '.' !in s[..i] && (i < |s| ==> s[i] == '.')
  {
    if s == "" || s[0] == '.' then 0 else 1 + FirstDot(s[1..])
  }

  /** `s.split(".")` */
  function SplitDots(s: string): (parts: seq<string>)
    ensures parts != []
    decreases |s|
  {
    var i := FirstDot(s);
    if i == |s| then [s] else [s[..i]] + SplitDots(s[i + 1..])
  }

  /** `".".join(parts)` */
  function JoinDots(parts: seq<string>): string {
    if parts == [] then ""
    else if |parts| == 1 then parts[0]
    else parts[0] + "." + JoinDots(parts[1..])
  }

  /** The forms "*.rest" for the first n of the parts that are left out. */
  function Wildcards(parts: seq<string>, n: nat): (r: seq<string>)
    requires n < |parts|
    ensures |r| == n
  {
    if n == 0 then [] else Wildcards(parts, n - 1) + ["*." + JoinDots(parts[n..])]
  }

  function Forms(dn: string): seq<string> {
    var parts := SplitDots(dn);
    [dn] + Wildcards(parts, |parts| - 1)
  }

  function SanForms(san: San): seq<string> {
    match san
    case Dns(value) => Forms(value)
    case Other(value) => [value]
  }

  function AsCustom(names: seq<string>): (r: seq<CertId>)
    ensures |r| == |names| && forall i :: 0 <= i < |r| ==> r[i] == Custom(names[i])
  {
    seq(|names|, i requires 0 <= i < |names| => Custom(names[i]))
  }

  function SansForms(sans: seq<San>): seq<string> {
    if sans == [] then [] else SansForms(sans[..|sans| - 1]) + SanForms(sans[|sans| - 1])
  }

  function PotentialKeys(cn: Option<string>, sans: seq<San>): seq<CertId> {
    AsCustom((if cn.Some? && cn.value != "" then Forms(cn.value) else []) + SansForms(sans) + ["*"])
    + [Generated(cn, sans)]
  }

  function FirstKnown(certs: map<CertId, Entry>, keys: seq<CertId>): (r: Option<CertId>)
    ensures r.Some? ==> r.value in certs && r.value in keys
    ensures r.None? ==> forall k :: k in keys ==> k !in certs
  {
    if keys == [] then None
    else if keys[0] in certs then Some(keys[0])
    else FirstKnown(certs, keys[1..])
  }

  // ----- the operations -----

  /** The names under which `add_cert` registers an entry. */
  function Written(entry: Entry, names: seq<string>): seq<string> {
    (if entry.cn != "" then [entry.cn] else []) + entry.altnames + names
  }

  function Register(certs: map<CertId, Entry>, entry: Entry, names: seq<string>): map<CertId, Entry> {
    if names == [] then certs
    else Register(certs, entry, names[..|names| - 1])[Custom(names[|names| - 1]) := entry]
  }

  function Add(s: Store, entry: Entry, names: seq<string>): Store {
    s.(certs := Register(s.certs, entry, Written(entry, names)))
  }

  function Without(certs: map<CertId, Entry>, entry: Entry): map<CertId, Entry> {
    map k | k in certs && certs[k] != entry :: certs[k]
  }

  function Expire(s: Store, entry: Entry): Store {
    var q := s.queue + [entry];
    if |q| > STORE_CAP then Store(Without(s.certs, q[0]), q[1..]) else s.(queue := q)
  }

  /** The key that answers a request; an empty name is falsy and counts as none. */
  function Hit(s: Store, cn: Option<string>, sans: seq<San>): (r: Option<CertId>)
    ensures r.Some? ==> r.value in s.certs
  {
    var k := FirstKnown(s.certs, PotentialKeys(cn, sans));
    if k == Some(Custom("")) then None else k
  }

  /** `get_cert`, where `made` is the entry that `dummy_cert` would make. */
  function Get(s: Store, cn: Option<string>, sans: seq<San>, made: Entry): (Store, Entry) {
    var k := Hit(s, cn, sans);
    if k.Some? then (s, s.certs[k.value])
    else (Expire(s.(certs := s.certs[Generated(cn, sans) := made]), made), made)
  }

  // ----- the code -----

  /** `asterisk_forms` of a string */
  method AsteriskForms(dn: string) returns (r: seq<string>)
    ensures r == Forms(dn)
  {
    var parts := SplitDots(dn);
    r := [dn];
    for i := 1 to |parts|
      invariant r == [dn] + Wildcards(parts, i - 1)
    {
      r := r + ["*." + JoinDots(parts[i..])];
    }
  }

  method KeysToTry(cn: Option<string>, sans: seq<San>) returns (r: seq<CertId>)
    ensures r == PotentialKeys(cn, sans)
  {
    hide Forms, SanForms, AsCustom;
    var keys := [];
    if cn.Some? && cn.value != "" {
      keys := AsteriskForms(cn.value);
    }
    ghost var first := keys;
    for i := 0 to |sans|
      invariant keys == first + SansForms(sans[..i])
    {
      assert sans[..i + 1][..i] == sans[..i];
      assert first + (SansForms(sans[..i]) + SanForms(sans[i])) == keys + SanForms(sans[i]);
      keys := keys + SanForms(sans[i]);
    }
    assert sans[..|sans|] == sans;
    r := AsCustom(keys + ["*"]) + [Generated(cn, sans)];
  }

  class Certificates {
    var certs: map<CertId, Entry>
    var expireQueue: seq<Entry>

    ghost function Model(): Store
      reads this
    {
      Store(certs, expireQueue)
    }

    constructor ()
      ensures Model() == Store(map[], [])
    {
      certs, expireQueue := map[], [];
    }

    method ExpireEntry(entry: Entry)
      modifies this
      ensures Model() == Expire(old(Model()), entry)
    {
      expireQueue := expireQueue + [entry];
      if |expireQueue| > STORE_CAP {
        var d := expireQueue[0];
        expireQueue := expireQueue[1..];
        certs := map k | k in certs && certs[k] != d :: certs[k];
      }
    }

    method AddCert(entry: Entry, names: seq<string>)
      modifies this
      ensures Model() == Add(old(Model()), entry, names)
    {
      var keys := Written(entry, names);
      for i := 0 to |keys|
        invariant expireQueue == old(expireQueue) && certs == Register(old(certs), entry, keys[..i])
      {
        assert keys[..i + 1][..i] == keys[..i];
        certs := certs[Custom(keys[i]) := entry];
      }
      assert keys[..|keys|] == keys;
    }

    method GetCert(cn: Option<string>, sans: seq<San>, made: Entry) returns (entry: Entry)
      modifies this
      ensures (Model(), entry) == Get(old(Model()), cn, sans, made)
    {
      var potential := KeysToTry(cn, sans);
      var name := FirstKnown(certs, potential);
      if name.Some? && name.value != Custom("") {
        entry := certs[name.value];
      } else {
        entry := made;
        certs := certs[Generated(cn, sans) := entry];
        ExpireEntry(entry);
      }
    }
  }
}

/** The queues of mitmproxy/addons/serverplayback.py: recorded flows wait under the hash of their request until a
    request with the same hash is answered from them. The hash is a parameter: a function of the flow, fixed by
    the options until the next rehashing. */
module ServerPlayback {
  import opened Prelude

  datatype Flow = Flow(id: nat, http: bool)

  /** One key of the dictionary with its list. */
  datatype Slot = Slot(hash: nat, queue: seq<Flow>)

  type Hash = Flow -> nat

  // ----- the dictionary, in insertion order -----

  predicate Has(m: seq<Slot>, h: nat) {
    exists s | s in m :: s.hash == h
  }

  function Position(m: seq<Slot>, h: nat): (i: nat)
    requires Has(m, h)
    ensures i < |m| && m[i].hash == h
    ensures forall j :: 0 <= j < i ==> m[j].hash != h
  {
    if m[0].hash == h then 0 else 1 + Position(m[1..], h)
  }

  /** The flows waiting under h. */
  function Queue(m: seq<Slot>, h: nat): seq<Flow> {
    if Has(m, h) then m[Position(m, h)].queue else []
  }

  /** All waiting flows, list after list. */
  function Flat(m: seq<Slot>): seq<Flow> {
    if m == [] then [] else m[0].queue + Flat(m[1..])
  }

  function SetQueue(m: seq<Slot>, h: nat, q: seq<Flow>): seq<Slot>
    requires Has(m, h)
  {
    m[Position(m, h) := Slot(h, q)]
  }

  function Delete(m: seq<Slot>, h: nat): seq<Slot>
    requires Has(m, h)
  {
    var i := Position(m, h);
    m[..i] + m[i + 1..]
  }

  // ----- the commands -----

  function AddOne(m: seq<Slot>, f: Flow, hash: Hash): seq<Slot> {
    if !f.http then m
    else if Has(m, hash(f)) then SetQueue(m, hash(f), Queue(m, hash(f)) + [f])
    else m + [Slot(hash(f), [f])]
  }

  function AddAll(m: seq<Slot>, fs: seq<Flow>, hash: Hash): seq<Slot> {
    if fs == [] then m
    else AddOne(AddAll(m, fs[..|fs| - 1], hash), fs[|fs| - 1], hash)
  }

  function Recompute(m: seq<Slot>, hash: Hash): seq<Slot> {
    AddAll([], Flat(m), hash)
  }

  /** The position of the first flow with a response. */
  function FirstReady(q: seq<Flow>, response: Flow -> bool): (i: nat)
    ensures i <= |q| && (i < |q| ==> response(q[i]))
    ensures forall j :: 0 <= j < i ==> !response(q[j])
  {
    if q == [] || response(q[0]) then 0 else 1 + FirstReady(q[1..], response)
  }

  /** `next_flow`: the dictionary afterwards, and the flow to replay. */
  function Next(m: seq<Slot>, h: nat, reuse: bool, response: Flow -> bool): (seq<Slot>, Option<Flow>) {
    if !Has(m, h) then (m, None)
    else
      var q := Queue(m, h);
      var i := FirstReady(q, response);
      if i == |q| then (if reuse then m else Delete(m, h), None)
      else if reuse then (m, Some(q[i]))
      else if i + 1 == |q| then (Delete(m, h), Some(q[i]))
      else (SetQueue(m, h, q[i + 1..]), Some(q[i]))
  }

  // ----- the code -----

  class Playback {
    var flowmap: seq<Slot>

    constructor ()
      ensures flowmap == []
    {
      flowmap := [];
    }

    method LoadFlows(flows: seq<Flow>, hash: Hash)
      modifies this
      ensures flowmap == AddAll([], flows, hash)
    {
      flowmap := [];
      AddFlows(flows, hash);
    }

    method AddFlows(flows: seq<Flow>, hash: Hash)
      modifies this
      ensures flowmap == AddAll(old(flowmap), flows, hash)
    {
      for i := 0 to |flows|
        invariant flowmap == AddAll(old(flowmap), flows[..i], hash)
      {
        assert flows[..i + 1][..i] == flows[..i];
        var f := flows[i];
        if f.http {
          var h := hash(f);
          if Has(flowmap, h) {
            var k := Position(flowmap, h);
            flowmap := flowmap[k := Slot(h, flowmap[k].queue + [f])];
          } else {
            flowmap := flowmap + [Slot(h, [f])];
          }
        }
      }
      assert flows[..|flows|] == flows;
    }

    method Clear()
      modifies this
      ensures flowmap == []
    {
      flowmap := [];
    }

    method Count() returns (n: nat)
      ensures n == |Flat(flowmap)|
    {
      n := 0;
      for i := |flowmap| downto 0
        invariant n == |Flat(flowmap[i..])|
      {
        assert flowmap[i..][1..] == flowmap[i + 1..];
        n := n + |flowmap[i].queue|;
      }
      assert flowmap[0..] == flowmap;
    }

    /** `next_flow`: pops until a flow has a response or the list is empty, and never pops from an empty list. */
    method NextFlow(flow: Flow, hash: Hash, reuse: bool, response: Flow -> bool) returns (r: Option<Flow>)
      requires forall s :: s in flowmap ==> s.queue != []
      modifies this
      ensures (flowmap, r) == Next(old(flowmap), hash(flow), reuse, response)
    {
      var h := hash(flow);
      if !Has(flowmap, h) {
        return None;
      }
      var k := Position(flowmap, h);
      var q := flowmap[k].queue;
      if reuse {
        var i := FirstReady(q, response);
        return if i < |q| then Some(q[i]) else None;
      }
      assert flowmap[k] in flowmap;
      var n := 1;
      var ret := q[0];
      while !response(ret)
        invariant 1 <= n <= |q| && ret == q[n - 1]
        invariant forall j :: 0 <= j < n - 1 ==> !response(q[j])
        decreases |q| - n
      {
        if q[n..] != [] {
          ret := q[n];
          n := n + 1;
        } else {
          assert FirstReady(q, response) == |q| by { ReadyIs(q, response, |q|); }
          flowmap := flowmap[..k] + flowmap[k + 1..];
          return None;
        }
      }
      ReadyIs(q, response, n - 1);
      if q[n..] == [] {
        flowmap := flowmap[..k] + flowmap[k + 1..];
      } else {
        flowmap := flowmap[k := Slot(h, q[n..])];
      }
      r := Some(ret);
    }

    method RecomputeHashes(hash: Hash)
      modifies this
      ensures flowmap == Recompute(old(flowmap), hash)
    {
      LoadFlows(Flat(flowmap), hash);
    }
  }

  lemma ReadyIs(q: seq<Flow>, response: Flow -> bool, i: nat)
    requires i <= |q| && (i < |q| ==> response(q[i])) && forall j :: 0 <= j < i ==> !response(q[j])
    ensures FirstReady(q, response) == i
  {
    var k := FirstReady(q, response);
    assert k < |q| ==> response(q[k]);
  }
}

/**
 Choosing a VPN node from probes that finish in any order, as in `src/client.rs`.

 `probes[i]` is how the probe of node `i` ends and `order` is the order in which the probes finish.
 Each loop takes one finished probe at a time.
 */
module Probes {
  import opened Wrappers
  import opened Counting

  datatype Vpn = Vpn(id: int, name: string, enName: string, ip: string, apiPort: nat, vpnPort: nat, protocolMode: int)

  datatype ProbeResponse = ProbeResponse(latencyMs: int, cookies: seq<string>)

  type Probe = Result<ProbeResponse, string>

  datatype SelectedVpn = SelectedVpn(vpn: Vpn, cookies: seq<string>)

  datatype VpnNode = VpnNode(
    id: int, name: string, enName: string, ip: string, apiPort: nat, vpnPort: nat, protocolMode: int,
    latencyMs: Option<int>)

  // ----- Default strategy: the first node of the list that answers

  ghost predicate IsLowest(probes: seq<Probe>, k: nat) {
    k < |probes| && probes[k].Ok? && forall j :: 0 <= j < k ==> probes[j].Err?
  }

  /** The two runs have the same answer: no node at all, or the same index. */
  ghost predicate SameAnswer(probes: seq<Probe>, others: seq<Probe>) {
    forall k: nat :: IsLowest(probes, k) <==> IsLowest(others, k)
  }

  /** Whatever the unfinished probes bring, the first `t` finished ones already fix the answer. */
  ghost predicate Determined(probes: seq<Probe>, order: seq<nat>, t: nat)
    requires IsOrder(order, |probes|) && t <= |order|
  {
    forall others: seq<Probe> ::
      |others| == |probes| && (forall i :: 0 <= i < t ==> others[order[i]] == probes[order[i]])
      ==> SameAnswer(probes, others)
  }

  /** The nodes whose probes are among the first `t` to finish. */
  ghost function Finished(order: seq<nat>, t: nat): set<nat>
    requires t <= |order|
  {
    set i | 0 <= i < t :: order[i]
  }

  /** An unfinished probe behind failures only can still go either way. */
  lemma Undetermined(probes: seq<Probe>, order: seq<nat>, t: nat, next: nat)
    requires IsOrder(order, |probes|) && t <= |order|
    requires next < |probes| && next !in Finished(order, t)
    requires forall j :: 0 <= j < next ==> probes[j].Err?
    ensures !Determined(probes, order, t)
  {
    var flipped := probes[next := if probes[next].Ok? then Err("") else Ok(ProbeResponse(0, []))];
    forall i | 0 <= i < t ensures flipped[order[i]] == probes[order[i]] {
      assert order[i] in Finished(order, t);
    }
    assert IsLowest(probes, next) != IsLowest(flipped, next);
  }

  /** Every unfinished probe is behind the answer. */
  ghost predicate Ready(probes: seq<Probe>, order: seq<nat>, t: nat)
    requires t <= |order|
  {
    forall m: nat :: m < |probes| && m !in Finished(order, t) ==> exists k: nat :: k < m && IsLowest(probes, k)
  }

  ghost predicate NotReadyBefore(probes: seq<Probe>, order: seq<nat>, t: nat)
    requires t <= |order|
  {
    forall u: nat :: u < t ==> !Ready(probes, order, u)
  }

  /** The first `t` finished probes fix the answer exactly when every unfinished one is behind it. */
  lemma ReadyIsDetermined(probes: seq<Probe>, order: seq<nat>, t: nat)
    requires IsOrder(order, |probes|) && t <= |order|
    ensures Ready(probes, order, t) <==> Determined(probes, order, t)
  {
    if Ready(probes, order, t) {
      forall others: seq<Probe> |
        |others| == |probes| && (forall i :: 0 <= i < t ==> others[order[i]] == probes[order[i]])
        ensures SameAnswer(probes, others)
      {
        forall m: nat | m < |probes| && others[m] != probes[m]
          ensures exists k: nat :: k < m && IsLowest(probes, k)
        {
          assert m !in Finished(order, t);
        }
        SameUpToAnswer(probes, others);
      }
    } else {
      var m: nat :| m < |probes| && m !in Finished(order, t) && !exists k: nat :: k < m && IsLowest(probes, k);
      NoLowestBelow(probes, m);
      Undetermined(probes, order, t, m);
    }
  }

  lemma SameUpToAnswer(probes: seq<Probe>, others: seq<Probe>)
    requires |probes| == |others|
    requires forall m: nat :: m < |probes| && others[m] != probes[m] ==> exists k: nat :: k < m && IsLowest(probes, k)
    ensures SameAnswer(probes, others)
  {
    if k: nat :| IsLowest(probes, k) {
      forall j: nat | j <= k ensures others[j] == probes[j] {
        assert forall i: nat :: i < j ==> !IsLowest(probes, i);
      }
    } else {
      assert others == probes;
    }
  }

  lemma {:induction false} NoLowestBelow(probes: seq<Probe>, m: nat)
    requires m <= |probes|
    requires forall k: nat :: k < m ==> !IsLowest(probes, k)
    ensures forall j :: 0 <= j < m ==> probes[j].Err?
  {
    if m > 0 {
      NoLowestBelow(probes, m - 1);
      assert !IsLowest(probes, m - 1);
    }
  }

  /** Slot `j` holds its probe's result from when it finishes until it is taken. */
  ghost predicate SlotsHold(results: seq<Option<Probe>>, probes: seq<Probe>, finished: set<nat>, next: nat)
    requires |results| == |probes|
  {
    && next <= |probes|
    && (forall j: nat :: j < next ==> probes[j].Err? && j in finished)
    && (forall j: nat :: next <= j < |probes| ==> results[j] == if j in finished then Some(probes[j]) else None)
  }

  lemma StoreResult(results: seq<Option<Probe>>, probes: seq<Probe>, finished: set<nat>, next: nat, index: nat)
    requires |results| == |probes| && SlotsHold(results, probes, finished, next)
    requires index < |probes| && index !in finished
    ensures SlotsHold(results[index := Some(probes[index])], probes, finished + {index}, next)
  {
  }

  lemma TakeFailure(results: seq<Option<Probe>>, probes: seq<Probe>, finished: set<nat>, next: nat)
    requires |results| == |probes| && SlotsHold(results, probes, finished, next)
    requires next < |probes| && results[next].Some? && probes[next].Err?
    ensures SlotsHold(results[next := None], probes, finished, next + 1)
  {
  }

  /**
   One finished probe: its result is stored, then the results that are ready are taken in list order. The
   index only moves forward, so over all completions no slot is taken twice.
   */
  method TakeCompletion(vpns: seq<Vpn>, results: array<Option<Probe>>, first: nat, index: nat,
                        probes: seq<Probe>, ghost finished: set<nat>)
    returns (selected: Option<SelectedVpn>, next: nat)
    requires |vpns| == |probes| == results.Length && SlotsHold(results[..], probes, finished, first)
    requires index < |vpns| && index !in finished
    modifies results
    ensures first <= next <= |vpns| && (selected.Some? ==> first < next)
    ensures forall j: nat :: first <= j < next ==> results[j].None?
    ensures selected.None? ==>
            && SlotsHold(results[..], probes, finished + {index}, next)
            && (next < |vpns| ==> next !in finished + {index})
    ensures selected.Some? ==>
            && 0 < next && IsLowest(probes, next - 1)
            && (forall j: nat :: j < next ==> j in finished + {index})
            && selected.value == SelectedVpn(vpns[next - 1], probes[next - 1].value.cookies)
  {
    StoreResult(results[..], probes, finished, first, index);
    ghost var slots := results[..];
    results[index] := Some(probes[index]);
    assert results[..] == slots[index := Some(probes[index])];
    next := first;
    while next < |vpns| && results[next].Some?
      invariant first <= next <= |vpns| && SlotsHold(results[..], probes, finished + {index}, next)
      invariant forall j: nat :: first <= j < next ==> results[j].None?
    {
      slots := results[..];
      var probe := results[next].value;
      results[next] := None;
      next := next + 1;
      if probe.Ok? {
        return Some(SelectedVpn(vpns[next - 1], probe.value.cookies)), next;
      }
      assert results[..] == slots[next - 1 := None];
      TakeFailure(slots, probes, finished + {index}, next - 1);
    }
    return None, next;
  }

  /** Where the default strategy stands after `t` completions. */
  ghost predicate Waiting(results: seq<Option<Probe>>, probes: seq<Probe>, order: seq<nat>, t: nat, next: nat)
    requires |results| == |probes| && t <= |order|
  {
    && SlotsHold(results, probes, Finished(order, t), next)
    && (next < |probes| ==> next !in Finished(order, t))
  }

  lemma WaitingIsNotReady(results: seq<Option<Probe>>, probes: seq<Probe>, order: seq<nat>, t: nat, next: nat)
    requires |results| == |probes| && IsOrder(order, |probes|) && t < |order|
    requires Waiting(results, probes, order, t, next)
    requires NotReadyBefore(probes, order, t)
    ensures NotReadyBefore(probes, order, t + 1)
    ensures order[t] !in Finished(order, t)
    ensures Finished(order, t + 1) == Finished(order, t) + {order[t]}
  {
    assert order[t] !in Finished(order, t);
    assert next < |probes|;
    assert !Ready(probes, order, t);
  }

  lemma SuccessIsReady(probes: seq<Probe>, order: seq<nat>, t: nat, k: nat)
    requires t <= |order| && IsLowest(probes, k)
    requires forall j: nat :: j <= k ==> j in Finished(order, t)
    ensures Ready(probes, order, t)
    ensures !(forall i :: 0 <= i < |probes| ==> probes[i].Err?)
  {
  }

  lemma NothingLeft(results: seq<Option<Probe>>, probes: seq<Probe>, order: seq<nat>, next: nat)
    requires |results| == |probes| && IsOrder(order, |probes|)
    requires Waiting(results, probes, order, |order|, next)
    ensures forall i :: 0 <= i < |probes| ==> probes[i].Err?
    ensures Ready(probes, order, |order|)
  {
    forall m: nat | m < |probes| ensures m in Finished(order, |order|) {
      OrderHasAll(order, |probes|, m);
    }
  }

  method GetFirstAvailableVpn(vpns: seq<Vpn>, probes: seq<Probe>, order: seq<nat>)
    returns (selected: Option<SelectedVpn>, taken: nat)
    requires |vpns| == |probes| && IsOrder(order, |probes|)
    ensures selected.None? <==> forall i :: 0 <= i < |probes| ==> probes[i].Err?
    ensures selected.Some? ==>
            exists k: nat :: IsLowest(probes, k) && selected.value == SelectedVpn(vpns[k], probes[k].value.cookies)
    ensures taken <= |order| && Ready(probes, order, taken)
    ensures NotReadyBefore(probes, order, taken)
  {
    var results := new Option<Probe>[|vpns|](_ => None);
    var next: nat := 0;
    taken := 0;
    while taken < |vpns|
      invariant taken <= |vpns|
      invariant Waiting(results[..], probes, order, taken, next)
      invariant NotReadyBefore(probes, order, taken)
    {
      WaitingIsNotReady(results[..], probes, order, taken, next);
      selected, next := TakeCompletion(vpns, results, next, order[taken], probes, Finished(order, taken));
      taken := taken + 1;
      if selected.Some? {
        SuccessIsReady(probes, order, taken, next - 1);
        return;
      }
    }
    NothingLeft(results[..], probes, order, next);
    selected := None;
  }

  // ----- Latency strategy: the quickest answer, the earlier node on a tie

  ghost predicate Quicker(probes: seq<Probe>, k: nat, j: nat)
    requires k < |probes| && j < |probes| && probes[k].Ok? && probes[j].Ok?
  {
    var x, y := probes[k].value.latencyMs, probes[j].value.latencyMs;
    x < y || (x == y && k <= j)
  }

  /** `k` answered among the first `t` finished probes, and none of them that answered beats it. */
  ghost predicate IsFastest(probes: seq<Probe>, order: seq<nat>, t: nat, k: nat)
    requires IsOrder(order, |probes|) && t <= |order|
  {
    && k in Finished(order, t) && k < |probes| && probes[k].Ok?
    && forall i :: 0 <= i < t && probes[order[i]].Ok? ==> Quicker(probes, k, order[i])
  }

  method GetFirstVpnByLatency(vpns: seq<Vpn>, probes: seq<Probe>, order: seq<nat>)
    returns (selected: Option<SelectedVpn>)
    requires |vpns| == |probes| && IsOrder(order, |probes|)
    ensures selected.None? <==> forall i :: 0 <= i < |probes| ==> probes[i].Err?
    ensures selected.Some? ==>
            exists k: nat :: k < |probes| && probes[k].Ok?
              && (forall j :: 0 <= j < |probes| && probes[j].Ok? ==> Quicker(probes, k, j))
              && selected.value == SelectedVpn(vpns[k], probes[k].value.cookies)
  {
    var fastest: Option<(int, nat, SelectedVpn)> := None;
    for t := 0 to |order|
      invariant fastest.None? ==> forall i :: 0 <= i < t ==> probes[order[i]].Err?
      invariant fastest.Some? ==>
                var (latency, k, vpn) := fastest.value;
                && IsFastest(probes, order, t, k)
                && latency == probes[k].value.latencyMs
                && vpn == SelectedVpn(vpns[k], probes[k].value.cookies)
    {
      var index := order[t];
      assert Finished(order, t + 1) == Finished(order, t) + {index};
      match probes[index] {
        case Ok(response) =>
          var replace := match fastest
            case None => true
            case Some((latency, best, _)) =>
              response.latencyMs < latency || (response.latencyMs == latency && index < best);
          if replace {
            fastest := Some((response.latencyMs, index, SelectedVpn(vpns[index], response.cookies)));
          }
        case Err(_) =>
      }
    }
    forall j: nat | j < |probes|
      ensures fastest.None? ==> probes[j].Err?
      ensures fastest.Some? && probes[j].Ok? ==> Quicker(probes, fastest.value.1, j)
    {
      OrderHasAll(order, |probes|, j);
    }
    selected := if fastest.Some? then Some(fastest.value.2) else None;
  }

  // ----- Listing the nodes with their latency

  /** What the list shows for one node: the latency only if the probe answered in time. */
  function Listed(vpn: Vpn, probe: Probe, inTime: bool): VpnNode {
    VpnNode(vpn.id, vpn.name, vpn.enName, vpn.ip, vpn.apiPort, vpn.vpnPort, vpn.protocolMode,
            if inTime && probe.Ok? then Some(probe.value.latencyMs) else None)
  }

  /** `results.into_iter().flatten()` */
  function Flatten<T>(results: seq<Option<T>>): seq<T> {
    if results == [] then []
    else (if results[0].Some? then [results[0].value] else []) + Flatten(results[1..])
  }

  lemma {:induction false} FlattenFull<T>(results: seq<Option<T>>, values: seq<T>)
    requires |results| == |values| && forall i :: 0 <= i < |values| ==> results[i] == Some(values[i])
    ensures Flatten(results) == values
  {
    if values != [] {
      FlattenFull(results[1..], values[1..]);
    }
  }

  method ProbeVpnNodes(vpns: seq<Vpn>, probes: seq<Probe>, inTime: seq<bool>, order: seq<nat>)
    returns (nodes: seq<VpnNode>)
    requires |vpns| == |probes| == |inTime| && IsOrder(order, |probes|)
    ensures |nodes| == |vpns|
    ensures forall i :: 0 <= i < |vpns| ==>
            && nodes[i].id == vpns[i].id && nodes[i].name == vpns[i].name && nodes[i].enName == vpns[i].enName
            && nodes[i].ip == vpns[i].ip && nodes[i].apiPort == vpns[i].apiPort && nodes[i].vpnPort == vpns[i].vpnPort
            && nodes[i].protocolMode == vpns[i].protocolMode
            && (nodes[i].latencyMs.Some? <==> inTime[i] && probes[i].Ok?)
            && (nodes[i].latencyMs.Some? ==> nodes[i].latencyMs.value == probes[i].value.latencyMs)
  {
    var n := |vpns|;
    var results := new Option<VpnNode>[n](_ => None);
    for t := 0 to n
      invariant forall i :: 0 <= i < t ==>
        results[order[i]] == Some(Listed(vpns[order[i]], probes[order[i]], inTime[order[i]]))
    {
      var index := order[t];
      results[index] := Some(Listed(vpns[index], probes[index], inTime[index]));
    }
    ghost var all := seq(n, i requires 0 <= i < n => Listed(vpns[i], probes[i], inTime[i]));
    forall j: nat | j < n ensures results[j] == Some(all[j]) {
      OrderHasAll(order, n, j);
    }
    FlattenFull(results[..], all);
    nodes := Flatten(results[..]);
  }
}

/**
  What every run of the causal broadcast guarantees: stamps are happens-before, deliveries respect it, nothing parks
  forever.
  */
module CausalOrder {
  import opened CausalNode
  import opened CausalSystem

  // --------------------------------------------------------------- happens-before

  /**
    One causal step: an earlier broadcast of the same node, or a message its sender had delivered before broadcasting.
    */
  ghost predicate Direct(s: System, j: nat, k: nat)
    requires j < |s.sent| && k < |s.sent|
  {
    var from, at := s.sent[k].d.from, s.sent[k].at;
    (s.sent[j].d.from == from && j < k)
    || (from < |s.logs| && exists a :: 0 <= a < at && a < |s.logs[from]| && s.logs[from][a] == s.sent[j].d)
  }

  ghost predicate IsPath(s: System, path: seq<nat>) {
    && |path| > 0
    && (forall i :: 0 <= i < |path| ==> path[i] < |s.sent|)
    && (forall i :: 0 < i < |path| ==> Direct(s, path[i - 1], path[i]))
  }

  /** Broadcast j happens before broadcast k: a chain of one or more causal steps leads from j to k. */
  ghost predicate HappensBefore(s: System, j: nat, k: nat) {
    exists path :: |path| > 1 && IsPath(s, path) && path[0] == j && path[|path| - 1] == k
  }

  /** The stamp test: k's sender had counted j. */
  predicate StampBefore(a: Data, b: Data)
    requires a.from < |a.w| == |b.w|
  {
    a.w[a.from] < b.w[a.from]
  }

  ghost predicate Below(a: seq<nat>, b: seq<nat>) {
    |a| == |b| && forall q :: 0 <= q < |a| ==> a[q] <= b[q]
  }

  /** A causal step between two broadcasts of one node. */
  lemma SameNodeGrows(n: nat, s: System, j: nat, k: nat)
    requires Inv(n, s) && j < k < |s.sent| && s.sent[j].d.from == s.sent[k].d.from
    ensures WellFormed(n, s.sent[j].d) && WellFormed(n, s.sent[k].d)
    ensures StampBefore(s.sent[j].d, s.sent[k].d) && Below(s.sent[j].d.w, s.sent[k].d.w)
  {
    var a, b := s.sent[j], s.sent[k];
    var p := a.d.from;
    assert StampInv(n, s, j) && StampInv(n, s, k);
    CountFromGrows(s.sent, j, k, p);
    forall q | 0 <= q < n
      ensures a.d.w[q] <= b.d.w[q]
    {
      assert s.logs[p][..b.at][..a.at] == s.logs[p][..a.at];
      CountInGrows(s.logs[p], a.at, b.at, q);
    }
  }

  /** A causal step by delivery: the stamp of what was delivered is below the stamp of the later broadcast. */
  lemma DeliveryGrows(n: nat, s: System, j: nat, k: nat, i: nat)
    requires Inv(n, s) && j < |s.sent| && k < |s.sent|
    requires s.sent[k].d.from < n && i < s.sent[k].at <= |s.logs[s.sent[k].d.from]|
    requires s.logs[s.sent[k].d.from][i] == s.sent[j].d
    ensures WellFormed(n, s.sent[j].d) && WellFormed(n, s.sent[k].d)
    ensures StampBefore(s.sent[j].d, s.sent[k].d) && Below(s.sent[j].d.w, s.sent[k].d.w)
  {
    var a, b := s.sent[j].d, s.sent[k];
    var p := b.d.from;
    var log := s.logs[p];
    assert StampInv(n, s, j) && StampInv(n, s, k) && NodeInv(n, s, p);
    Numbered(n, log, i, b.at);
    forall q | 0 <= q < n
      ensures a.w[q] <= b.d.w[q]
    {
      CountInGrows(log, i, b.at, q);
    }
  }

  lemma DirectGrows(n: nat, s: System, j: nat, k: nat)
    requires Inv(n, s) && j < |s.sent| && k < |s.sent| && Direct(s, j, k)
    ensures WellFormed(n, s.sent[j].d) && WellFormed(n, s.sent[k].d)
    ensures StampBefore(s.sent[j].d, s.sent[k].d) && Below(s.sent[j].d.w, s.sent[k].d.w)
  {
    var from, at := s.sent[k].d.from, s.sent[k].at;
    assert StampInv(n, s, k);
    if s.sent[j].d.from == from && j < k {
      SameNodeGrows(n, s, j, k);
    } else {
      var i: nat :| i < at && i < |s.logs[from]| && s.logs[from][i] == s.sent[j].d;
      DeliveryGrows(n, s, j, k, i);
    }
  }

  lemma {:induction false} PathGrows(n: nat, s: System, path: seq<nat>)
    requires Inv(n, s) && IsPath(s, path) && |path| > 1
    ensures WellFormed(n, s.sent[path[0]].d) && WellFormed(n, s.sent[path[|path| - 1]].d)
    ensures StampBefore(s.sent[path[0]].d, s.sent[path[|path| - 1]].d)
  {
    var last := |path| - 1;
    DirectGrows(n, s, path[last - 1], path[last]);
    if last > 1 {
      PathGrows(n, s, path[..last]);
    }
  }

  /** A counted broadcast is one causal step away. */
  lemma {:induction false} StampIsDirect(n: nat, s: System, j: nat, k: nat)
    requires Inv(n, s) && j < |s.sent| && k < |s.sent|
    requires WellFormed(n, s.sent[j].d) && WellFormed(n, s.sent[k].d) && StampBefore(s.sent[j].d, s.sent[k].d)
    ensures Direct(s, j, k)
  {
    var a, b := s.sent[j].d, s.sent[k];
    var q, p := a.from, b.d.from;
    assert StampInv(n, s, j) && StampInv(n, s, k);
    if q == p {
      if k < j {
        SameNodeGrows(n, s, k, j);
      }
    } else {
      assert NodeInv(n, s, p);
      var i := Delivered(n, s.logs[p], b.at, q, a.w[q]);
      SameInLog(n, s, p, i, j);
    }
  }

  /** A delivered message with the identifier of a broadcast is that broadcast. */
  lemma {:induction false} SameInLog(n: nat, s: System, p: Node, i: nat, j: nat)
    requires Inv(n, s) && p < n && i < |s.logs[p]| && j < |s.sent|
    requires WellFormed(n, s.logs[p][i]) && WellFormed(n, s.sent[j].d) && Id(s.logs[p][i]) == Id(s.sent[j].d)
    ensures s.logs[p][i] == s.sent[j].d
  {
    assert NodeInv(n, s, p);
    assert s.logs[p][i] in s.logs[p];
    assert Known(s, s.logs[p][i]);
    var m :| 0 <= m < |s.sent| && s.sent[m].d == s.logs[p][i];
    SameIdSameBroadcast(n, s, m, j);
  }

  /** Stamps are happens-before: j happens before k exactly when k's stamp counts j. */
  lemma StampsAreHappensBefore(n: nat, run: seq<System>, i: nat, j: nat, k: nat)
    requires IsRun(n, run) && i < |run| && j < |run[i].sent| && k < |run[i].sent|
    ensures WellFormed(n, run[i].sent[j].d) && WellFormed(n, run[i].sent[k].d)
    ensures HappensBefore(run[i], j, k) <==> StampBefore(run[i].sent[j].d, run[i].sent[k].d)
  {
    var s := run[i];
    RunInv(n, run, i);
    assert StampInv(n, s, j) && StampInv(n, s, k);
    if HappensBefore(s, j, k) {
      var path :| |path| > 1 && IsPath(s, path) && path[0] == j && path[|path| - 1] == k;
      PathGrows(n, s, path);
    }
    if StampBefore(s.sent[j].d, s.sent[k].d) {
      StampIsDirect(n, s, j, k);
      var path := [j, k];
      assert IsPath(s, path);
    }
  }

  // --------------------------------------------------------------------- delivery

  /** Causal delivery: a node that has delivered a broadcast delivered everything that happens before it earlier. */
  lemma CausalDelivery(n: nat, run: seq<System>, i: nat, p: Node, b: nat, j: nat, k: nat) returns (a: nat)
    requires IsRun(n, run) && i < |run| && p < n && j < |run[i].sent| && k < |run[i].sent|
    requires b < |run[i].logs[p]| && run[i].logs[p][b] == run[i].sent[k].d
    requires HappensBefore(run[i], j, k)
    ensures a < b && run[i].logs[p][a] == run[i].sent[j].d
  {
    var s := run[i];
    RunInv(n, run, i);
    StampsAreHappensBefore(n, run, i, j, k);
    var d := s.sent[j].d;
    assert NodeInv(n, s, p);
    a := Delivered(n, s.logs[p], b, d.from, d.w[d.from]);
    assert s.logs[p][a] in s.logs[p];
    assert Known(s, s.logs[p][a]);
    var m :| 0 <= m < |s.sent| && s.sent[m].d == s.logs[p][a];
    assert StampInv(n, s, m);
    SameIdSameBroadcast(n, s, m, j);
  }

  /** Sequence numbers of q's messages in a log, in delivery order. */
  function Numbers(log: seq<Data>, q: Node): seq<nat> {
    if log == [] then []
    else
      var d := log[|log| - 1];
      Numbers(log[..|log| - 1], q) + if d.from == q && q < |d.w| then [d.w[q]] else []
  }

  lemma LogShorter(n: nat, log: seq<Data>)
    requires LogInv(n, log) && log != []
    ensures LogInv(n, log[..|log| - 1])
    ensures var d := log[|log| - 1]; WellFormed(n, d) && d.w[d.from] == CountIn(log[..|log| - 1], d.from)
  {
    var front := log[..|log| - 1];
    assert forall b :: 0 <= b < |front| ==> front[..b] == log[..b];
  }

  lemma {:induction false} NumbersCount(n: nat, log: seq<Data>, q: Node)
    requires LogInv(n, log) && q < n
    ensures Numbers(log, q) == seq(CountIn(log, q), k => k)
  {
    if log != [] {
      var front := log[..|log| - 1];
      LogShorter(n, log);
      NumbersCount(n, front, q);
    }
  }

  /** Each node delivers from each origin exactly the numbers 0..V[origin]-1, in order. */
  lemma DeliveredInOrder(n: nat, run: seq<System>, i: nat, p: Node, q: Node)
    requires IsRun(n, run) && i < |run| && p < n && q < n
    ensures Numbers(run[i].logs[p], q) == seq(run[i].nodes[p].v[q], k => k)
  {
    RunInv(n, run, i);
    assert NodeInv(n, run[i], p);
    NumbersCount(n, run[i].logs[p], q);
  }

  /** Between steps no node keeps a message it could deliver. */
  lemma NothingReadyParked(n: nat, run: seq<System>, i: nat, p: Node)
    requires IsRun(n, run) && i < |run| && p < n
    ensures forall a :: 0 <= a < |run[i].nodes[p].pending| ==> !Ready(run[i].nodes[p].pending[a].w, run[i].nodes[p].v)
  {
    RunInv(n, run, i);
    assert NodeInv(n, run[i], p);
  }

  // ----------------------------------------------------------- no eternal parking

  /** Every broadcast has reached every node. */
  ghost predicate ReceivedEverywhere(n: nat, s: System)
    requires Shaped(n, s)
  {
    forall p: Node, k: nat :: p < n && k < |s.sent| ==> ReceivedBy(s, p, k)
  }

  ghost predicate ReceivedBy(s: System, p: Node, k: nat)
    requires p < |s.nodes| && k < |s.sent|
  {
    s.sent[k].d.from < |s.sent[k].d.w| && Id(s.sent[k].d) in s.nodes[p].delivered
  }

  /** What a node has received, it has delivered or parked. */
  lemma ReceivedIsKept(n: nat, s: System, p: Node, k: nat)
    requires Inv(n, s) && p < n && k < |s.sent| && WellFormed(n, s.sent[k].d) && Id(s.sent[k].d) in s.nodes[p].delivered
    ensures s.sent[k].d in s.logs[p] || s.sent[k].d in s.nodes[p].pending
  {
    assert NodeInv(n, s, p);
    var id := Id(s.sent[k].d);
    var d :| (d in s.logs[p] || d in s.nodes[p].pending) && WellFormed(n, d) && Id(d) == id;
    assert Known(s, d);
    var m :| 0 <= m < |s.sent| && s.sent[m].d == d;
    SameIdSameBroadcast(n, s, m, k);
  }

  /** If a node has everything and parks none of the first k broadcasts, it has delivered all of them. */
  lemma EarlierDelivered(n: nat, s: System, p: Node, k: nat, q: Node)
    requires Inv(n, s) && ReceivedEverywhere(n, s) && p < n && q < n && k <= |s.sent|
    requires forall j :: 0 <= j < k ==> s.sent[j].d !in s.nodes[p].pending
    ensures CountFrom(s.sent[..k], q) <= s.nodes[p].v[q]
  {
    var log := s.logs[p];
    assert NodeInv(n, s, p);
    assert log[..|log|] == log;
    var seqno := s.nodes[p].v[q];
    if seqno < CountFrom(s.sent[..k], q) {
      var j := Broadcast(n, s, k, q, seqno);
      assert ReceivedBy(s, p, j);
      ReceivedIsKept(n, s, p, j);
      var a :| 0 <= a < |log| && log[a] == s.sent[j].d;
      Numbered(n, log, a, |log|);
      assert false;
    }
  }

  /** The first parked broadcast would be deliverable: nothing can be parked before it. */
  lemma FirstIsNotParked(n: nat, s: System, p: Node, k: nat)
    requires Inv(n, s) && ReceivedEverywhere(n, s) && p < n && k < |s.sent|
    requires forall j :: 0 <= j < k ==> s.sent[j].d !in s.nodes[p].pending
    ensures s.sent[k].d !in s.nodes[p].pending
  {
    var d, v := s.sent[k].d, s.nodes[p].v;
    assert StampInv(n, s, k) && NodeInv(n, s, p);
    forall q | 0 <= q < n
      ensures d.w[q] <= v[q]
    {
      EarlierDelivered(n, s, p, k, q);
    }
    assert Ready(d.w, v);
  }

  lemma {:induction false} NoneParked(n: nat, s: System, p: Node, k: nat)
    requires Inv(n, s) && ReceivedEverywhere(n, s) && p < n && k <= |s.sent|
    ensures forall j :: 0 <= j < k ==> s.sent[j].d !in s.nodes[p].pending
  {
    if k > 0 {
      NoneParked(n, s, p, k - 1);
      FirstIsNotParked(n, s, p, k - 1);
    }
  }

  lemma ParkedIsKnown(n: nat, s: System, p: Node)
    requires Inv(n, s) && p < n && s.nodes[p].pending != []
    ensures exists k :: 0 <= k < |s.sent| && s.sent[k].d in s.nodes[p].pending
  {
    assert NodeInv(n, s, p);
    var d := s.nodes[p].pending[0];
    assert d in s.nodes[p].pending;
    assert Known(s, d);
  }

  /** No eternal parking: once every broadcast has reached every node, nothing is parked and all vectors are equal. */
  lemma NoEternalParking(n: nat, run: seq<System>, i: nat, p: Node)
    requires IsRun(n, run) && i < |run| && p < n && ReceivedEverywhere(n, run[i])
    ensures run[i].nodes[p].pending == []
    ensures forall q: Node :: q < n ==> run[i].nodes[p].v[q] == run[i].nodes[q].lsn
    ensures forall r: Node :: r < n ==> run[i].nodes[r].v == run[i].nodes[p].v
  {
    RunInv(n, run, i);
    forall r: Node | r < n
      ensures run[i].nodes[r].pending == []
      ensures forall q: Node :: q < n ==> run[i].nodes[r].v[q] == run[i].nodes[q].lsn
    {
      AllDelivered(n, run[i], r);
    }
  }

  lemma AllDelivered(n: nat, s: System, r: Node)
    requires Inv(n, s) && ReceivedEverywhere(n, s) && r < n
    ensures s.nodes[r].pending == []
    ensures forall q: Node :: q < n ==> s.nodes[r].v[q] == s.nodes[q].lsn
  {
    assert s.sent[..|s.sent|] == s.sent;
    NoneParked(n, s, r, |s.sent|);
    assert NodeInv(n, s, r);
    if s.nodes[r].pending != [] {
      ParkedIsKnown(n, s, r);
      assert false;
    }
    forall q: Node | q < n
      ensures s.nodes[r].v[q] == s.nodes[q].lsn
    {
      EarlierDelivered(n, s, r, |s.sent|, q);
      DeliveredBounded(n, s, r, q);
      assert NodeInv(n, s, q);
    }
  }
}

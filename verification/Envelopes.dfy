/** hub/envelope.go: how a batch moves a session's contiguous inbound ack. */
module Envelopes {

  // What framing a poll's envelope carries into classification and the handlers behind it.
  datatype Inbound = Inbound(id: string, kind: string, seqNo: int)

  datatype Batch = Batch(ack: int, accepted: seq<nat>, duplicate: nat, gapped: nat)

  function Seqs(envelopes: seq<Inbound>): (seqs: seq<int>)
    ensures |seqs| == |envelopes| && forall i :: 0 <= i < |seqs| ==> seqs[i] == envelopes[i].seqNo
  {
    seq(|envelopes|, i requires 0 <= i < |envelopes| => envelopes[i].seqNo)
  }

  /** The specification of classifyInbound, one envelope at a time in arrival order. */
  function Classify(ack: int, seqs: seq<int>): (batch: Batch)
    ensures ack <= batch.ack == ack + |batch.accepted|
    ensures forall k :: 0 <= k < |batch.accepted| ==> batch.accepted[k] < |seqs|
  {
    if seqs == [] then Batch(ack, [], 0, 0)
    else
      var last := |seqs| - 1;
      var batch := Classify(ack, seqs[..last]);
      if seqs[last] <= batch.ack then batch.(duplicate := batch.duplicate + 1)
      else if seqs[last] == batch.ack + 1 then batch.(ack := batch.ack + 1, accepted := batch.accepted + [last])
      else batch.(gapped := batch.gapped + 1)
  }

  method ClassifyInbound(ack: int, envelopes: seq<Inbound>) returns (batch: Batch)
    ensures batch == Classify(ack, Seqs(envelopes))
  {
    batch := Batch(ack, [], 0, 0);
    for index := 0 to |envelopes|
      invariant batch == Classify(ack, Seqs(envelopes)[..index])
    {
      var e := envelopes[index];
      assert Seqs(envelopes)[..index + 1][..index] == Seqs(envelopes)[..index];
      if e.seqNo <= batch.ack {
        batch := batch.(duplicate := batch.duplicate + 1);
      } else if e.seqNo == batch.ack + 1 {
        batch := batch.(ack := batch.ack + 1, accepted := batch.accepted + [index]);
      } else {
        batch := batch.(gapped := batch.gapped + 1);
      }
    }
    assert Seqs(envelopes)[..|envelopes|] == Seqs(envelopes);
  }

  // Indices, in arrival order, whose seqs run on from an ack without a gap.
  predicate Chain(ack: int, seqs: seq<int>, indices: seq<nat>) {
    && (forall k :: 0 <= k < |indices| ==> indices[k] < |seqs| && seqs[indices[k]] == ack + 1 + k)
    && (forall j, k :: 0 <= j < k < |indices| ==> indices[j] < indices[k])
  }

  lemma ChainSnoc(ack: int, seqs: seq<int>, indices: seq<nat>)
    requires seqs != [] && Chain(ack, seqs[..|seqs| - 1], indices)
    ensures Chain(ack, seqs, indices)
    ensures seqs[|seqs| - 1] == ack + |indices| + 1 ==> Chain(ack, seqs, indices + [|seqs| - 1])
  {
    var last := |seqs| - 1;
    assert forall i :: 0 <= i < last ==> seqs[..last][i] == seqs[i];
  }

  lemma {:induction false} AcceptsChain(ack: int, seqs: seq<int>)
    ensures Chain(ack, seqs, Classify(ack, seqs).accepted)
    ensures var batch := Classify(ack, seqs);
            |batch.accepted| + batch.duplicate + batch.gapped == |seqs|
  {
    if seqs != [] {
      var before := seqs[..|seqs| - 1];
      AcceptsChain(ack, before);
      ChainSnoc(ack, seqs, Classify(ack, before).accepted);
    }
  }

  // The ack before each envelope of a batch, and after the last: one more for each that is next.
  ghost predicate AcksBetween(ack: int, seqs: seq<int>, acks: seq<int>) {
    && |acks| == |seqs| + 1 && acks[0] == ack
    && forall k :: 0 <= k < |seqs| ==> acks[k + 1] == if seqs[k] == acks[k] + 1 then acks[k] + 1 else acks[k]
  }

  // Which envelopes each outcome takes, by the ack before each.
  ghost predicate Sorts(seqs: seq<int>, acks: seq<int>, accepted: seq<nat>, dups: set<nat>, gaps: set<nat>)
    requires |acks| == |seqs| + 1
  {
    && (forall k :: k in accepted <==> 0 <= k < |seqs| && seqs[k] == acks[k] + 1)
    && (forall k :: k in dups <==> 0 <= k < |seqs| && seqs[k] <= acks[k])
    && (forall k :: k in gaps <==> 0 <= k < |seqs| && seqs[k] > acks[k] + 1)
  }

  ghost predicate Tells(ack: int, seqs: seq<int>, batch: Batch, acks: seq<int>, dups: set<nat>, gaps: set<nat>) {
    && AcksBetween(ack, seqs, acks) && Sorts(seqs, acks, batch.accepted, dups, gaps)
    && batch.ack == acks[|seqs|] && batch.duplicate == |dups| && batch.gapped == |gaps|
  }

  /** Each envelope is taken against the ack the ones before it left: the next one is accepted, one at
      or below the ack is a duplicate, one further above it is gapped, and each is counted as that. */
  lemma {:induction false} ClassifiesEach(ack: int, seqs: seq<int>) returns (acks: seq<int>, dups: set<nat>, gaps: set<nat>)
    ensures Tells(ack, seqs, Classify(ack, seqs), acks, dups, gaps)
  {
    if seqs == [] {
      acks, dups, gaps := [ack], {}, {};
    } else {
      var last := |seqs| - 1;
      acks, dups, gaps := ClassifiesEach(ack, seqs[..last]);
      assert seqs == seqs[..last] + [seqs[last]];
      acks, dups, gaps := TellsSnoc(ack, seqs[..last], Classify(ack, seqs[..last]), acks, dups, gaps, seqs[last], Classify(ack, seqs));
    }
  }

  // One more envelope, by the ack left before it.
  lemma TellsSnoc(ack: int, seqs: seq<int>, before: Batch, acks: seq<int>, dups: set<nat>, gaps: set<nat>, s: int, after: Batch)
    returns (longer: seq<int>, moreDups: set<nat>, moreGaps: set<nat>)
    requires Tells(ack, seqs, before, acks, dups, gaps)
    requires after == if s <= before.ack then before.(duplicate := before.duplicate + 1)
                      else if s == before.ack + 1 then before.(ack := before.ack + 1, accepted := before.accepted + [|seqs|])
                      else before.(gapped := before.gapped + 1)
    ensures Tells(ack, seqs + [s], after, longer, moreDups, moreGaps)
  {
    longer := acks + [after.ack];
    moreDups := if s <= before.ack then dups + {|seqs|} else dups;
    moreGaps := if s > before.ack + 1 then gaps + {|seqs|} else gaps;
    AcksSnoc(ack, seqs, acks, s);
    SortsSnoc(seqs, acks, before.accepted, dups, gaps, s);
    CountsOneMore(dups, |seqs|);
    CountsOneMore(gaps, |seqs|);
  }

  lemma CountsOneMore(s: set<nat>, n: nat)
    requires n !in s
    ensures |s + {n}| == |s| + 1
  {
  }

  lemma AcksSnoc(ack: int, seqs: seq<int>, acks: seq<int>, s: int)
    requires AcksBetween(ack, seqs, acks)
    ensures AcksBetween(ack, seqs + [s], acks + [if s == acks[|seqs|] + 1 then acks[|seqs|] + 1 else acks[|seqs|]])
  {
    var more, longer := seqs + [s], acks + [if s == acks[|seqs|] + 1 then acks[|seqs|] + 1 else acks[|seqs|]];
    forall k | 0 <= k < |more| ensures longer[k + 1] == if more[k] == longer[k] + 1 then longer[k] + 1 else longer[k] {
      if k < |seqs| {
        assert longer[k] == acks[k] && longer[k + 1] == acks[k + 1] && more[k] == seqs[k];
      }
    }
  }

  lemma SortsSnoc(seqs: seq<int>, acks: seq<int>, accepted: seq<nat>, dups: set<nat>, gaps: set<nat>, s: int)
    requires |acks| == |seqs| + 1 && Sorts(seqs, acks, accepted, dups, gaps)
    ensures var before := acks[|seqs|];
            Sorts(seqs + [s], acks + [if s == before + 1 then before + 1 else before],
                  if s == before + 1 then accepted + [|seqs|] else accepted,
                  if s <= before then dups + {|seqs|} else dups, if s > before + 1 then gaps + {|seqs|} else gaps)
  {
    var more, longer := seqs + [s], acks + [if s == acks[|seqs|] + 1 then acks[|seqs|] + 1 else acks[|seqs|]];
    assert forall k :: 0 <= k < |seqs| ==> more[k] == seqs[k] && longer[k] == acks[k];
  }

  lemma ChainFits(ack: int, seqs: seq<int>, indices: seq<nat>)
    ensures Chain(ack, seqs, indices) && indices != [] ==> seqs != []
  {
    if indices != [] {
      assert indices[0] >= 0;
    }
  }

  lemma {:induction false} NoLongerChain(ack: int, seqs: seq<int>, indices: seq<nat>)
    requires Chain(ack, seqs, indices)
    ensures |indices| <= |Classify(ack, seqs).accepted|
  {
    ChainFits(ack, seqs, indices);
    if seqs != [] {
      var last := |seqs| - 1;
      if indices != [] && indices[|indices| - 1] == last {
        var shorter := indices[..|indices| - 1];
        ChainBefore(ack, seqs, indices, shorter);
        NoLongerChain(ack, seqs[..last], shorter);
        assert seqs[last] == ack + |indices|;
      } else {
        ChainBefore(ack, seqs, indices, indices);
        NoLongerChain(ack, seqs[..last], indices);
      }
    }
  }

  lemma ChainBefore(ack: int, seqs: seq<int>, indices: seq<nat>, shorter: seq<nat>)
    requires seqs != [] && Chain(ack, seqs, indices) && shorter <= indices
    requires |shorter| < |indices| || indices == [] || indices[|indices| - 1] != |seqs| - 1
    ensures Chain(ack, seqs[..|seqs| - 1], shorter)
  {
    forall k | 0 <= k < |shorter| ensures shorter[k] < |seqs| - 1 {
      var top := |indices| - 1;
      assert indices[top] < |seqs| && (k < top ==> indices[k] < indices[top]);
    }
  }

  /** What a batch accepts is a chain, every envelope is accepted, a duplicate or gapped, and no
      chain of the batch is longer: the ack moves exactly as far as the arrival order allows. */
  lemma AcceptsLongestChain(ack: int, seqs: seq<int>)
    ensures var batch := Classify(ack, seqs);
            && Chain(ack, seqs, batch.accepted)
            && |batch.accepted| + batch.duplicate + batch.gapped == |seqs|
            && (forall indices :: Chain(ack, seqs, indices) ==> |indices| <= |batch.accepted|)
  {
    AcceptsChain(ack, seqs);
    forall indices | Chain(ack, seqs, indices) ensures |indices| <= |Classify(ack, seqs).accepted| {
      NoLongerChain(ack, seqs, indices);
    }
  }

  /** Two batches in a row are one batch: where a sender cuts its backlog does not matter. */
  lemma {:induction false} BatchesCompose(ack: int, first: seq<int>, second: seq<int>)
    ensures Classify(ack, first + second).ack == Classify(Classify(ack, first).ack, second).ack
  {
    if second == [] {
      assert first + second == first;
    } else {
      var last := |second| - 1;
      BatchesCompose(ack, first, second[..last]);
      assert (first + second)[..|first| + last] == first + second[..last];
    }
  }

  /** A later starting ack never ends lower. */
  lemma {:induction false} AckMonotone(lower: int, higher: int, seqs: seq<int>)
    requires lower <= higher
    ensures Classify(lower, seqs).ack <= Classify(higher, seqs).ack
  {
    if seqs != [] {
      AckMonotone(lower, higher, seqs[..|seqs| - 1]);
    }
  }

  lemma {:induction false} NothingNextStays(ack: int, seqs: seq<int>)
    requires ack + 1 !in seqs
    ensures Classify(ack, seqs).ack == ack
  {
    if seqs != [] {
      NothingNextStays(ack, seqs[..|seqs| - 1]);
    }
  }

  lemma {:induction false} NextAdvances(ack: int, seqs: seq<int>)
    requires ack + 1 in seqs
    ensures Classify(ack, seqs).ack > ack
  {
    var last := |seqs| - 1;
    if ack + 1 in seqs[..last] {
      NextAdvances(ack, seqs[..last]);
    } else {
      NothingNextStays(ack, seqs[..last]);
    }
  }

  /** Sending the same batch again accepts nothing exactly when the batch does not hold the seq
      that follows the ack it was answered with. An ascending batch never does. */
  lemma RetransmissionAcceptsNothing(ack: int, seqs: seq<int>)
    ensures var after := Classify(ack, seqs).ack;
            && (Classify(after, seqs).accepted == [] <==> after + 1 !in seqs)
            && ((forall i, j :: 0 <= i < j < |seqs| ==> seqs[i] <= seqs[j]) ==> after + 1 !in seqs)
  {
    var after := Classify(ack, seqs).ack;
    if after + 1 in seqs {
      NextAdvances(after, seqs);
    } else {
      NothingNextStays(after, seqs);
    }
    if forall i, j :: 0 <= i < j < |seqs| ==> seqs[i] <= seqs[j] {
      AscendingReachesGap(ack, seqs);
    }
  }

  lemma {:induction false} AscendingReachesGap(ack: int, seqs: seq<int>)
    requires forall i, j :: 0 <= i < j < |seqs| ==> seqs[i] <= seqs[j]
    ensures Classify(ack, seqs).ack + 1 !in seqs
  {
    if seqs != [] {
      var last := |seqs| - 1;
      var before := seqs[..last];
      AscendingReachesGap(ack, before);
      forall i | 0 <= i < |seqs| ensures seqs[i] != Classify(ack, seqs).ack + 1 {
        if i < last {
          assert before[i] in before && seqs[i] <= seqs[last];
        }
      }
    }
  }

  /** Out of order, a retransmission can be taken as new work: `[2, 1]` moves the ack to 1, and
      the very same batch then moves it to 2. */
  lemma UnsortedBatchMovesTwice()
    ensures Classify(0, [2, 1]).ack == 1 && Classify(1, [2, 1]).ack == 2
  {
    assert [2, 1][..1] == [2] && [2][..0] == [];
    assert Classify(0, [2]).ack == 0 && Classify(1, [2]).ack == 2;
  }
}

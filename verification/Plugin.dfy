/** The plugin half of the protocol as conformance/hub/plugin.go keeps it, tied to the step models:
    its methods do what Uplink's and Downlink's plugin steps say. */
module Plugin {
  import opened Wrappers
  import Downlink
  import QueueOrder
  import Uplink

  class FakePlugin {
    var session: nat
    var inboundAck: nat
    var outboundSeq: nat

    constructor (session: nat)
      ensures this.session == session && inboundAck == 0 && outboundSeq == 0
    {
      this.session, inboundAck, outboundSeq := session, 0, 0;
    }

    // A new session resets both sequence spaces.
    method Reconnect(session: nat)
      modifies this
      ensures this.session == session && inboundAck == 0 && outboundSeq == 0
    {
      this.session, inboundAck, outboundSeq := session, 0, 0;
    }

    method NextOutbound(id: string) returns (framed: Uplink.Framed)
      modifies this`outboundSeq
      ensures outboundSeq == old(outboundSeq) + 1 && framed == Uplink.Framed(id, outboundSeq)
    {
      outboundSeq := outboundSeq + 1;
      framed := Uplink.Framed(id, outboundSeq);
    }

    // Only the seq moves.
    method Renumber(unacked: Uplink.Framed) returns (framed: Uplink.Framed)
      modifies this`outboundSeq
      ensures outboundSeq == old(outboundSeq) + 1 && framed == unacked.(seqNo := outboundSeq)
    {
      outboundSeq := outboundSeq + 1;
      framed := unacked.(seqNo := outboundSeq);
    }

    /** A reconnect with a buffer still unacked: the step Uplink calls Adopt. */
    method ReconnectRenumbering(session: nat, buffer: seq<Uplink.Framed>) returns (renumbered: seq<Uplink.Framed>)
      modifies this
      ensures this.session == session && inboundAck == 0 && outboundSeq == |buffer|
      ensures renumbered == Uplink.Renumbered(buffer)
    {
      Reconnect(session);
      renumbered := [];
      for k := 0 to |buffer|
        invariant this.session == session && inboundAck == 0 && outboundSeq == k == |renumbered|
        invariant forall i :: 0 <= i < k ==> renumbered[i] == Uplink.Framed(buffer[i].id, i + 1)
      {
        var framed := Renumber(buffer[k]);
        renumbered := renumbered + [framed];
      }
    }

    /** The loop a real plugin runs on a response: a batch out of seq order is refused whole, and
        otherwise delivery is taken while each envelope is the next one. What was processed is
        exactly what Downlink's Receive step appends to its history. */
    method PollAndAck(envelopes: seq<Downlink.Wire>) returns (processed: Option<seq<string>>)
      modifies this`inboundAck
      ensures processed.Some? <==> QueueOrder.Ascending(envelopes)
      ensures processed.None? ==> inboundAck == old(inboundAck)
      ensures processed.Some? ==>
                processed.value == Downlink.Process(old(inboundAck), envelopes) &&
                inboundAck == old(inboundAck) + |processed.value|
    {
      for i := 0 to |envelopes|
        invariant inboundAck == old(inboundAck) && QueueOrder.Ascending(envelopes[..i])
      {
        if i > 0 && envelopes[i].seqNo <= envelopes[i - 1].seqNo {
          assert !(envelopes[i - 1].seqNo < envelopes[i].seqNo);
          return None;
        }
        AscendingSnoc(envelopes, i);
      }
      assert envelopes[..|envelopes|] == envelopes;
      var ids := TakeDelivery(envelopes);
      processed := Some(ids);
    }

    method TakeDelivery(envelopes: seq<Downlink.Wire>) returns (processed: seq<string>)
      modifies this`inboundAck
      ensures processed == Downlink.Process(old(inboundAck), envelopes)
      ensures inboundAck == old(inboundAck) + |processed|
    {
      processed := [];
      var k := 0;
      while k < |envelopes| && envelopes[k].seqNo == inboundAck + 1
        invariant 0 <= k <= |envelopes| && |processed| == k && inboundAck == old(inboundAck) + k
        invariant forall j :: 0 <= j < k ==> envelopes[j].id == processed[j] && envelopes[j].seqNo == old(inboundAck) + 1 + j
      {
        inboundAck := envelopes[k].seqNo;
        processed := processed + [envelopes[k].id];
        k := k + 1;
      }
      Downlink.ProcessIs(old(inboundAck), envelopes, processed);
    }
  }

  lemma AscendingSnoc(envelopes: seq<Downlink.Wire>, i: nat)
    requires i < |envelopes| && QueueOrder.Ascending(envelopes[..i])
    requires i > 0 ==> envelopes[i - 1].seqNo < envelopes[i].seqNo
    ensures QueueOrder.Ascending(envelopes[..i + 1])
  {
    var shorter := envelopes[..i];
    assert forall a :: 0 <= a < i - 1 ==> shorter[a].seqNo < shorter[i - 1].seqNo;
    assert forall a :: 0 <= a < i ==> envelopes[a] == shorter[a];
  }
}

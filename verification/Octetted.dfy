/** Byte strings and octets. */
module Octetted {
  import opened Base64url
  import opened Wrappers

  predicate IsBytes(text: string) {
    forall i :: 0 <= i < |text| ==> text[i] as int < 256
  }

  function Bytes(text: string): (octets: seq<Octet>)
    requires IsBytes(text)
    ensures |octets| == |text| && forall i :: 0 <= i < |text| ==> octets[i] == OctetOf(text[i] as int)
  {
    seq(|text|, i requires 0 <= i < |text| => OctetOf(text[i] as int))
  }

  function FromBytes(octets: seq<Octet>): (text: string)
    ensures |text| == |octets| && forall i :: 0 <= i < |octets| ==> text[i] as int == OctetNumber(octets[i])
  {
    seq(|octets|, i requires 0 <= i < |octets| => OctetNumber(octets[i]) as char)
  }

  lemma OctetNumberOf(n: nat)
    requires n < 256
    ensures OctetNumber(OctetOf(n)) == n
  {
  }

  lemma FromBytesOfBytes(text: string)
    requires IsBytes(text)
    ensures FromBytes(Bytes(text)) == text
  {
    var back := FromBytes(Bytes(text));
    forall i | 0 <= i < |text| ensures back[i] == text[i] {
      OctetNumberOf(text[i] as int);
    }
  }

  lemma BytesOfFromBytes(octets: seq<Octet>)
    ensures IsBytes(FromBytes(octets))
    ensures Bytes(FromBytes(octets)) == octets
  {
    var text := FromBytes(octets);
    assert forall i :: 0 <= i < |octets| ==> OctetNumber(octets[i]) < 256;
    forall i | 0 <= i < |octets| ensures Bytes(text)[i] == octets[i] {
      assert text[i] as int == OctetNumber(octets[i]);
    }
  }
}

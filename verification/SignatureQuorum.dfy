/** Signature counting for multisig transactions (multisig/utils.py). */
module SignatureQuorum {
  import opened Prelude

  datatype Signature = Signature(inputIndex: int, signer: string)

  /** One entry of the required_signatures dictionary. */
  datatype Requirement = Requirement(inputIndex: int, m: int)

  ghost function Signers(signatures: seq<Signature>, index: int): set<string> {
    set s | s in signatures && s.inputIndex == index :: s.signer
  }

  ghost predicate InputMet(signatures: seq<Signature>, requirement: Requirement) {
    |Signers(signatures, requirement.inputIndex)| >= requirement.m
  }

  /** Every listed input has at least its required number of distinct signers. */
  ghost predicate QuorumMet(signatures: seq<Signature>, required: seq<Requirement>) {
    forall r | r in required :: InputMet(signatures, r)
  }

  method GroupSignaturesByInput(signatures: seq<Signature>) returns (grouped: map<int, set<string>>)
    ensures forall index :: index in grouped <==> Signers(signatures, index) != {}
    ensures forall index | index in grouped :: grouped[index] == Signers(signatures, index)
  {
    grouped := map[];
    for i := 0 to |signatures|
      invariant forall index :: index in grouped <==> Signers(signatures[..i], index) != {}
      invariant forall index | index in grouped :: grouped[index] == Signers(signatures[..i], index)
    {
      var sig := signatures[i];
      var signers := if sig.inputIndex in grouped then grouped[sig.inputIndex] else {};
      forall index
        ensures Signers(signatures[..i + 1], index)
             == Signers(signatures[..i], index) + if index == sig.inputIndex then {sig.signer} else {}
      {
        assert signatures[..i + 1] == signatures[..i] + [sig];
      }
      grouped := grouped[sig.inputIndex := signers + {sig.signer}];
    }
    assert signatures[..|signatures|] == signatures;
  }

  predicate IsInputFullySigned(index: int, grouped: map<int, set<string>>, required: int) {
    var signers := if index in grouped then grouped[index] else {};
    |signers| >= required
  }

  method IsTransactionFullySigned(signatures: seq<Signature>, required: seq<Requirement>) returns (full: bool)
    ensures full <==> QuorumMet(signatures, required)
  {
    var grouped := GroupSignaturesByInput(signatures);
    for i := 0 to |required|
      invariant forall j | 0 <= j < i :: InputMet(signatures, required[j])
    {
      var index := required[i].inputIndex;
      assert index in grouped || Signers(signatures, index) == {};
      assert InputMet(signatures, required[i]) <==> IsInputFullySigned(index, grouped, required[i].m);
      if !IsInputFullySigned(index, grouped, required[i].m) {
        return false;
      }
    }
    return true;
  }

  /** More signatures never undo a quorum, wherever they are added and in whatever order. */
  lemma QuorumIsMonotone(signatures: seq<Signature>, more: seq<Signature>, required: seq<Requirement>)
    requires forall s | s in signatures :: s in more
    requires QuorumMet(signatures, required)
    ensures QuorumMet(more, required)
  {
    forall r | r in required
      ensures InputMet(more, r)
    {
      assert InputMet(signatures, r);
      SubsetSize(Signers(signatures, r.inputIndex), Signers(more, r.inputIndex));
    }
  }

  /** Reordering or repeating signatures changes nothing. */
  lemma QuorumIgnoresOrderAndRepeats(signatures: seq<Signature>, other: seq<Signature>, required: seq<Requirement>)
    requires forall s :: s in signatures <==> s in other
    ensures QuorumMet(signatures, required) <==> QuorumMet(other, required)
  {
    forall r | r in required
      ensures InputMet(signatures, r) <==> InputMet(other, r)
    {
      assert Signers(signatures, r.inputIndex) == Signers(other, r.inputIndex);
    }
  }

  /** One signer counts once per input: repeats of one signature meet a quorum of at most one. */
  lemma RepeatedSignatureCountsOnce(sig: Signature, n: nat, m: int)
    requires n > 0
    ensures QuorumMet(seq(n, _ => sig), [Requirement(sig.inputIndex, m)]) <==> m <= 1
  {
    var repeated := seq(n, _ => sig);
    assert repeated[0] == sig;
    assert Signers(repeated, sig.inputIndex) == {sig.signer};
    var requirement := Requirement(sig.inputIndex, m);
    assert requirement in [requirement];
  }
}

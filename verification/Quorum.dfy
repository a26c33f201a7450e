/** Signer sets that pass the contract's threshold. Operators are positions in a list of stakes. */
module Quorum {
  import opened ByteStrings
  import opened Commitment
  import opened ServiceManager

  /** Stake of the operators of `signers`. */
  function StakeOf(stakes: seq<nat>, signers: set<nat>): nat {
    if stakes == [] then 0
    else
      var n := |stakes| - 1;
      StakeOf(stakes[..n], signers) + if n in signers then stakes[n] else 0
  }

  function TotalStake(stakes: seq<nat>): nat {
    if stakes == [] then 0 else TotalStake(stakes[..|stakes| - 1]) + stakes[|stakes| - 1]
  }

  lemma {:induction false} Overlap(stakes: seq<nat>, a: set<nat>, b: set<nat>)
    ensures StakeOf(stakes, a) + StakeOf(stakes, b) <= TotalStake(stakes) + StakeOf(stakes, a * b)
  {
    if stakes != [] {
      Overlap(stakes[..|stakes| - 1], a, b);
    }
  }

  /** What `checkSignatures` reports for a set of signers, when the stakes fit its 96-bit fields. */
  function Checked(stakes: seq<nat>, signers: set<nat>): SignatureCheck {
    if StakeOf(stakes, signers) < TWO_TO_THE_96 && TotalStake(stakes) < TWO_TO_THE_96
    then Stakes(StakeOf(stakes, signers), TotalStake(stakes)) else BadSignature
  }

  lemma {:induction false} SomeoneHasStake(stakes: seq<nat>, signers: set<nat>) returns (op: nat)
    requires StakeOf(stakes, signers) > 0
    ensures op < |stakes| && op in signers && stakes[op] > 0
  {
    var n := |stakes| - 1;
    if n in signers && stakes[n] > 0 {
      op := n;
    } else {
      op := SomeoneHasStake(stakes[..n], signers);
    }
  }

  /** Two accepted signer sets over the same stakes share at least 34% of them, so more than a third. */
  lemma QuorumsIntersect(stakes: seq<nat>, a: set<nat>, b: set<nat>)
    requires MeetsThreshold(Checked(stakes, a)) && MeetsThreshold(Checked(stakes, b))
    ensures 100 * StakeOf(stakes, a * b) >= 34 * TotalStake(stakes)
    ensures TotalStake(stakes) > 0 ==> 3 * StakeOf(stakes, a * b) > TotalStake(stakes)
  {
    Overlap(stakes, a, b);
  }

  /** The 34% is reached: three operators with 33, 34 and 33, the middle one signing both. */
  lemma IntersectionIsTight()
    ensures var stakes := [33, 34, 33];
            && MeetsThreshold(Checked(stakes, {0, 1})) && MeetsThreshold(Checked(stakes, {1, 2}))
            && StakeOf(stakes, {0, 1} * {1, 2}) == 34 && TotalStake(stakes) == 100
  {
    var stakes := [33, 34, 33];
    assert stakes[..2] == [33, 34] && stakes[..2][..1] == [33] && stakes[..2][..1][..0] == [];
    StakeOfThree(33, 34, 33, {0, 1});
    StakeOfThree(33, 34, 33, {1, 2});
    StakeOfThree(33, 34, 33, {0, 1} * {1, 2});
    assert TotalStake([33]) == 33 && TotalStake([33, 34]) == 67;
  }

  lemma StakeOfThree(x: nat, y: nat, z: nat, signers: set<nat>)
    ensures StakeOf([x, y, z], signers)
         == (if 0 in signers then x else 0) + (if 1 in signers then y else 0) + (if 2 in signers then z else 0)
  {
    var stakes := [x, y, z];
    assert stakes[..2] == [x, y] && [x, y][..1] == [x] && [x][..0] == [];
    assert StakeOf([x], signers) == if 0 in signers then x else 0;
    assert StakeOf([x, y], signers) == StakeOf([x], signers) + if 1 in signers then y else 0;
  }

  /** In any run, two roots verified over the same positive stakes were both signed by some staked operator. */
  lemma VerifiedRootsShareSigner(txs: seq<Tx>, r: Digest, i: nat, q: Digest, j: nat,
                                 stakes: seq<nat>, a: set<nat>, b: set<nat>) returns (op: nat)
    requires i < |txs| && EventAt(map[], txs, i) == Some(BatchVerified(r))
    requires j < |txs| && EventAt(map[], txs, j) == Some(BatchVerified(q))
    requires txs[i] == RespondToTask(r, Checked(stakes, a)) && txs[j] == RespondToTask(q, Checked(stakes, b))
    requires TotalStake(stakes) > 0
    ensures op < |stakes| && op in a && op in b && stakes[op] > 0
  {
    VerifiedMeetsThreshold(map[], txs, r, i);
    VerifiedMeetsThreshold(map[], txs, q, j);
    Overlap(stakes, a, b);
    op := SomeoneHasStake(stakes, a * b);
  }
}

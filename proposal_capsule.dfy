/**
 * The governance proposal capsule: a mutable holder of one immutable protocol
 * buffer `Proposal` record. Every setter replaces the held record by a copy in
 * which one field has changed; the queries decide whether the proposal is
 * settled, expired, or approved by enough active witnesses.
 */
module Capsule {

  /** Java `long`. */
  newtype int64 = x: int | -0x8000_0000_0000_0000 <= x < 0x8000_0000_0000_0000

  /** A protocol buffer `ByteString`; two addresses are equal when their bytes are. */
  type Address = seq<bv8>

  /** `Proposal.State` of the protocol buffer schema, in declaration order. */
  datatype State = Pending | Disapproved | Approved | Canceled

  /** The protocol buffer message `Proposal`. */
  datatype Proposal = Proposal(
    id: int64,
    proposer: Address,
    parameters: map<int64, int64>,
    expirationTime: int64,
    createTime: int64,
    approvals: seq<Address>,
    state: State)

  /** The default message: zero scalars, empty collections, the first enum value. */
  const DefaultProposal := Proposal(0, [], map[], 0, 0, [], Pending)

  /**
   * The database key of proposal `number`. Its byte layout is produced by a
   * helper that is not part of this model, so the key stays abstract.
   */
  datatype DbKey = DbKey(number: int64)

  function CalculateDbKey(number: int64): (key: DbKey)
  {
    DbKey(number)
  }

  // ---------------------------------------------------------------------------
  // The approval threshold, in Java `int` arithmetic

  /** `Integer.MAX_VALUE`. */
  const IntMax: int := 0x7fff_ffff

  /** Largest witness count whose product by 6 still fits in a Java `int`. */
  const ExactSizeBound: int := 357_913_941

  /** `List.size()` of a list holding `n` elements: capped at `Integer.MAX_VALUE`. */
  function ListSize(n: nat): (r: int)
    ensures 0 <= r <= IntMax
    ensures n <= IntMax ==> r == n
  {
    if n <= IntMax then n else IntMax
  }

  /** Two's-complement wrap-around of a Java `int` product. */
  function WrapInt(x: int): (r: int)
    ensures -0x8000_0000 <= r <= IntMax
    ensures -0x8000_0000 <= x <= IntMax ==> r == x
  {
    (x + 0x8000_0000) % 0x1_0000_0000 - 0x8000_0000
  }

  /** Java `/` on `int` with a positive divisor: the quotient is truncated toward zero. */
  function JavaDiv(a: int, b: int): (q: int)
    requires b > 0
  {
    if a >= 0 then a / b else -((-a) / b)
  }

  /**
   * `activeWitnesses.size() * 6 / 10`, evaluated as the Java expression is. Up
   * to 357,913,941 witnesses it is the floor of six tenths of their number.
   */
  function ApprovalThreshold(size: int): (threshold: int)
    ensures 0 <= size <= ExactSizeBound ==> threshold == size * 6 / 10
    ensures 0 <= size <= ExactSizeBound ==> 0 <= 10 * threshold <= 6 * size < 10 * threshold + 10
  {
    JavaDiv(WrapInt(size * 6), 10)
  }

  /** One witness more and the product wraps: the threshold turns negative. */
  lemma ThresholdWrapsBeyondBound()
    ensures ApprovalThreshold(ExactSizeBound + 1) == -214_748_364
  {
  }

  /** Number of entries of `approvals` found in `witnesses`, duplicates included. */
  function ActiveApprovals(approvals: seq<Address>, witnesses: seq<Address>): (count: nat)
    ensures count <= |approvals|
  {
    if approvals == [] then 0
    else (if approvals[0] in witnesses then 1 else 0) + ActiveApprovals(approvals[1..], witnesses)
  }

  /** Appending one approval adds one to the count exactly when it is an active witness, even when it is already present. */
  lemma {:induction false} ActiveApprovalsAppend(approvals: seq<Address>, witnesses: seq<Address>, a: Address)
    ensures ActiveApprovals(approvals + [a], witnesses)
         == ActiveApprovals(approvals, witnesses) + (if a in witnesses then 1 else 0)
  {
    if approvals != [] {
      assert (approvals + [a])[1..] == approvals[1..] + [a];
      ActiveApprovalsAppend(approvals[1..], witnesses, a);
    }
  }

  /**
   * The count equals the number of approvals exactly when every approval is an
   * active witness: the source logs the invalid approvals in the other case.
   */
  lemma {:induction false} AllApprovalsActive(approvals: seq<Address>, witnesses: seq<Address>)
    ensures ActiveApprovals(approvals, witnesses) == |approvals|
        <==> forall i :: 0 <= i < |approvals| ==> approvals[i] in witnesses
  {
    if approvals != [] {
      AllApprovalsActive(approvals[1..], witnesses);
      if approvals[0] in witnesses {
        forall i | 0 <= i < |approvals| && (forall j :: 0 <= j < |approvals| - 1 ==> approvals[1..][j] in witnesses)
          ensures approvals[i] in witnesses
        {
          if i > 0 { assert approvals[i] == approvals[1..][i - 1]; }
        }
      }
    }
  }

  /**
   * `hasMostApprovals` on the approval list of a proposal. With no active
   * witnesses every proposal passes; for realistic witness counts a proposal
   * passes exactly when ten times its active approvals exceed six times the
   * number of witnesses minus ten.
   */
  predicate MostApprovals(approvals: seq<Address>, witnesses: seq<Address>): (most: bool)
    ensures witnesses == [] ==> most
    ensures |witnesses| <= ExactSizeBound ==>
              (most <==> 10 * ActiveApprovals(approvals, witnesses) + 10 > 6 * |witnesses|)
  {
    ActiveApprovals(approvals, witnesses) >= ApprovalThreshold(ListSize(|witnesses|))
  }

  /**
   * Adding an approval never turns a passing proposal into a failing one, and an
   * approval that is not an active witness changes nothing.
   */
  lemma AddApprovalKeepsMost(approvals: seq<Address>, witnesses: seq<Address>, a: Address)
    ensures MostApprovals(approvals, witnesses) ==> MostApprovals(approvals + [a], witnesses)
    ensures a !in witnesses ==> MostApprovals(approvals + [a], witnesses) == MostApprovals(approvals, witnesses)
  {
    ActiveApprovalsAppend(approvals, witnesses, a);
  }

  // ---------------------------------------------------------------------------
  // Removing one approval

  /** `List.remove(Object)`: drop the first element equal to `a`, if there is one. */
  function RemoveFirst(s: seq<Address>, a: Address): (r: seq<Address>)
    ensures a !in s ==> r == s
    ensures a in s ==> |r| == |s| - 1
  {
    if s == [] then []
    else if s[0] == a then s[1..]
    else [s[0]] + RemoveFirst(s[1..], a)
  }

  /** Removal takes away exactly one occurrence of `a`, and nothing when there is none. */
  lemma {:induction false} RemoveFirstMultiset(s: seq<Address>, a: Address)
    ensures multiset(RemoveFirst(s, a)) == multiset(s) - multiset{a}
  {
    if s != [] {
      assert s == [s[0]] + s[1..];
      if s[0] != a {
        RemoveFirstMultiset(s[1..], a);
      }
    }
  }

  /** With `i` the first position of `a`, exactly that element goes and the rest keep their order. */
  lemma {:induction false} RemoveFirstAt(s: seq<Address>, a: Address, i: nat)
    requires i < |s| && s[i] == a && a !in s[..i]
    ensures RemoveFirst(s, a) == s[..i] + s[i + 1..]
  {
    if i == 0 {
      assert s[..i] + s[i + 1..] == s[1..];
    } else {
      assert s[0] != a by { assert s[0] == s[..i][0]; }
      var t := s[1..];
      assert t[..i - 1] == s[1..i];
      assert t[i..] == s[i + 1..];
      RemoveFirstAt(t, a, i - 1);
      assert RemoveFirst(s, a) == [s[0]] + (t[..i - 1] + t[i..]);
      assert [s[0]] + s[1..i] == s[..i];
    }
  }

  // ---------------------------------------------------------------------------
  // The capsule

  class ProposalCapsule {
    var proposal: Proposal

    /** Wraps an existing proposal. */
    constructor (proposal: Proposal)
      ensures this.proposal == proposal
    {
      this.proposal := proposal;
    }

    /** A fresh proposal carrying only its proposer and its id. */
    constructor FromProposer(address: Address, id: int64)
      ensures proposal == DefaultProposal.(proposer := address, id := id)
    {
      proposal := DefaultProposal.(proposer := address, id := id);
    }

    method SetID(id: int64)
      modifies this
      ensures proposal == old(proposal).(id := id)
      ensures CreateDbKey() == CalculateDbKey(id)
    {
      proposal := proposal.(id := id);
    }

    method SetProposalAddress(address: Address)
      modifies this
      ensures proposal == old(proposal).(proposer := address)
      ensures CreateDbKey() == old(CreateDbKey())
    {
      proposal := proposal.(proposer := address);
    }

    /** Merges `parameters` into the existing map: the new values win on shared keys. */
    method SetParameters(parameters: map<int64, int64>)
      modifies this
      ensures proposal == old(proposal).(parameters := old(proposal.parameters) + parameters)
      ensures proposal.parameters.Keys == old(proposal.parameters).Keys + parameters.Keys
      ensures forall k :: k in parameters ==> proposal.parameters[k] == parameters[k]
      ensures forall k :: k in old(proposal.parameters) && k !in parameters
                ==> proposal.parameters[k] == old(proposal.parameters)[k]
      ensures CreateDbKey() == old(CreateDbKey())
    {
      proposal := proposal.(parameters := proposal.parameters + parameters);
    }

    method SetExpirationTime(time: int64)
      modifies this
      ensures proposal == old(proposal).(expirationTime := time)
      ensures CreateDbKey() == old(CreateDbKey())
    {
      proposal := proposal.(expirationTime := time);
    }

    method SetCreateTime(time: int64)
      modifies this
      ensures proposal == old(proposal).(createTime := time)
      ensures CreateDbKey() == old(CreateDbKey())
    {
      proposal := proposal.(createTime := time);
    }

    method SetState(state: State)
      modifies this
      ensures proposal == old(proposal).(state := state)
      ensures CreateDbKey() == old(CreateDbKey())
    {
      proposal := proposal.(state := state);
    }

    /** Copies the approval list, removes the first occurrence of `address`, stores the copy. */
    method RemoveApproval(address: Address)
      modifies this
      ensures proposal == old(proposal).(approvals := RemoveFirst(old(proposal.approvals), address))
      ensures address in old(proposal.approvals) ==>
                exists i :: 0 <= i < |old(proposal.approvals)| && old(proposal.approvals)[i] == address
                  && proposal.approvals == old(proposal.approvals)[..i] + old(proposal.approvals)[i + 1..]
      ensures address !in old(proposal.approvals) ==> proposal == old(proposal)
    {
      var approvals := proposal.approvals;
      var i := 0;
      while i < |approvals| && approvals[i] != address
        invariant 0 <= i <= |approvals|
        invariant address !in approvals[..i]
      {
        i := i + 1;
      }
      if i < |approvals| {
        RemoveFirstAt(approvals, address, i);
        approvals := approvals[..i] + approvals[i + 1..];
      } else {
        assert approvals[..i] == approvals;
      }
      proposal := proposal.(approvals := approvals);
    }

    method ClearApproval()
      modifies this
      ensures proposal == old(proposal).(approvals := [])
    {
      proposal := proposal.(approvals := []);
    }

    /** Appends `committeeAddress`; duplicates are kept. */
    method AddApproval(committeeAddress: Address)
      modifies this
      ensures proposal == old(proposal).(approvals := old(proposal.approvals) + [committeeAddress])
      ensures forall ws :: committeeAddress in ws ==>
                ActiveApprovals(proposal.approvals, ws) == ActiveApprovals(old(proposal.approvals), ws) + 1
    {
      proposal := proposal.(approvals := proposal.approvals + [committeeAddress]);
      forall ws | committeeAddress in ws
        ensures ActiveApprovals(proposal.approvals, ws) == ActiveApprovals(old(proposal.approvals), ws) + 1
      {
        ActiveApprovalsAppend(old(proposal.approvals), ws, committeeAddress);
      }
    }

    /** Settled: approved or disapproved, hence neither pending nor canceled. */
    predicate HasProcessed(): (processed: bool)
      reads this
      ensures processed ==> proposal.state != Pending && proposal.state != Canceled
    {
      proposal.state == Disapproved || proposal.state == Approved
    }

    /** A canceled proposal is never settled. */
    predicate HasCanceled(): (canceled: bool)
      reads this
      ensures canceled ==> !HasProcessed()
    {
      proposal.state == Canceled
    }

    predicate HasExpired(time: int64): (expired: bool)
      reads this
    {
      proposal.expirationTime <= time
    }

    function CreateDbKey(): (key: DbKey)
      reads this
    {
      CalculateDbKey(proposal.id)
    }

    predicate HasMostApprovals(activeWitnesses: seq<Address>): (most: bool)
      reads this
    {
      MostApprovals(proposal.approvals, activeWitnesses)
    }
  }

  /** A proposal is never both settled and canceled; every other proposal is still pending. */
  lemma ProcessedExcludesCanceled(c: ProposalCapsule)
    ensures !(c.HasProcessed() && c.HasCanceled())
    ensures !c.HasProcessed() && !c.HasCanceled() <==> c.proposal.state == Pending
  {
  }

  /**
   * Once expired, a proposal stays expired at every later time. The expiration
   * time itself already counts as expired, and no earlier time does.
   */
  lemma ExpiryIsMonotone(c: ProposalCapsule, time: int64, later: int64)
    requires time <= later
    ensures c.HasExpired(time) ==> c.HasExpired(later)
    ensures c.HasExpired(c.proposal.expirationTime)
    ensures time < c.proposal.expirationTime ==> !c.HasExpired(time)
  {
  }

  /** The database key depends on the id alone. */
  lemma DbKeyDependsOnIdOnly(c: ProposalCapsule, d: ProposalCapsule)
    requires c.proposal.id == d.proposal.id
    ensures c.CreateDbKey() == d.CreateDbKey()
  {
  }
}

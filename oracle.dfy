/** The attestation and consensus engine of contracts/boxmeout/src/oracle.rs.
    Registered oracles each cast one binary vote per registered market once
    its resolution time has passed; consensus is decided by a threshold
    with a tie veto. Counters are `u32` in the source and `nat` here. */
module Oracle {
  import opened Wrappers
  import opened Token

  type MarketId = nat

  /** `register_oracle` refuses once this many oracles were counted. */
  const MAX_ORACLES: nat := 10

  /** The accuracy score a new oracle starts with. */
  const INITIAL_ACCURACY: nat := 100

  /** What `register_oracle` stores per oracle. */
  datatype OracleInfo = OracleInfo(name: string, accuracy: nat, registeredAt: nat)

  datatype Attestation = Attestation(attestor: Address, outcome: nat, timestamp: nat)

  /** What `initialize` stores: the admin and the consensus threshold. */
  datatype OracleConfig = OracleConfig(admin: Address, requiredConsensus: nat)

  /** Everything oracle.rs keeps under one market id once it is registered:
      the resolution time, the two attestation counters, the voter list in
      attestation order, each voter's vote and attestation record. */
  datatype MarketRecord = MarketRecord(
    resolutionTime: nat, yesCount: nat, noCount: nat,
    voters: seq<Address>, votes: map<Address, nat>, attestations: map<Address, Attestation>)

  /** The panics of oracle.rs, one constructor per reason. */
  datatype Error =
    | NotInitialized        // no admin stored
    | Unauthorized          // the admin did not authorise the call
    | LimitReached          // "Maximum oracle limit reached"
    | AlreadyRegistered     // "Oracle already registered"
    | NotRegistered         // "Oracle not registered"
    | MarketNotRegistered
    | TooEarly              // "Cannot attest before resolution time"
    | InvalidOutcome        // "Invalid attestation result"
    | AlreadyAttested       // "Oracle already attested"

  // ---------------------------------------------------------------------
  // Tallies and the consensus rule.

  /** The vote `check_consensus` reads for a voter; a missing vote reads as 0. */
  function VoteOf(votes: map<Address, nat>, a: Address): nat {
    if a in votes then votes[a] else 0
  }

  /** Number of voters in the list whose vote reads as 1 (YES). */
  function YesTally(voters: seq<Address>, votes: map<Address, nat>): nat
  {
    if voters == [] then 0
    else YesTally(voters[..|voters| - 1], votes) + (if VoteOf(votes, voters[|voters| - 1]) == 1 then 1 else 0)
  }

  /** Number of voters in the list whose vote reads as anything but 1: the
      loop counts every such vote as NO. */
  function NoTally(voters: seq<Address>, votes: map<Address, nat>): nat
  {
    if voters == [] then 0
    else NoTally(voters[..|voters| - 1], votes) + (if VoteOf(votes, voters[|voters| - 1]) == 1 then 0 else 1)
  }

  /** Every voter is counted exactly once, on one side. */
  lemma {:induction false} TalliesCoverVoters(voters: seq<Address>, votes: map<Address, nat>)
    ensures YesTally(voters, votes) + NoTally(voters, votes) == |voters|
  {
    if voters != [] {
      TalliesCoverVoters(voters[..|voters| - 1], votes);
    }
  }

  /** Appending a voter adds its vote to one tally. */
  lemma TallyAppend(voters: seq<Address>, votes: map<Address, nat>, a: Address)
    ensures YesTally(voters + [a], votes) == YesTally(voters, votes) + (if VoteOf(votes, a) == 1 then 1 else 0)
    ensures NoTally(voters + [a], votes) == NoTally(voters, votes) + (if VoteOf(votes, a) == 1 then 0 else 1)
  {
    assert (voters + [a])[..|voters + [a]| - 1] == voters;
  }

  /** Recording the vote of someone outside the list changes neither tally. */
  lemma {:induction false} TallyIgnoresOutsider(voters: seq<Address>, votes: map<Address, nat>, a: Address, v: nat)
    requires a !in voters
    ensures YesTally(voters, votes[a := v]) == YesTally(voters, votes)
    ensures NoTally(voters, votes[a := v]) == NoTally(voters, votes)
  {
    if voters != [] {
      var init := voters[..|voters| - 1];
      assert forall x :: x in init ==> x in voters;
      TallyIgnoresOutsider(init, votes, a, v);
    }
  }

  /** The comparison `check_consensus` ends with: a side wins when it meets
      the threshold and has strictly more votes; a tie is never consensus,
      even when both sides meet the threshold. */
  function Decide(yes: nat, no: nat, threshold: nat): (r: (bool, nat))
    ensures r == (true, 1) <==> yes >= threshold && yes > no
    ensures r == (true, 0) <==> no >= threshold && no > yes
    ensures r.0 <==> (yes >= threshold && yes > no) || (no >= threshold && no > yes)
    ensures !r.0 ==> r.1 == 0
    ensures yes == no ==> r == (false, 0)
  {
    if yes >= threshold && yes > no then (true, 1)
    else if no >= threshold && no > yes then (true, 0)
    else if yes >= threshold && no >= threshold && yes == no then (false, 0)
    else (false, 0)
  }

  /** `check_consensus` on a voter list: fewer voters than the threshold
      returns at once, otherwise the tallies are decided. */
  function Consensus(voters: seq<Address>, votes: map<Address, nat>, threshold: nat): (r: (bool, nat))
    ensures |voters| < threshold ==> r == (false, 0)
    ensures r.1 <= 1 && (!r.0 ==> r.1 == 0)
    ensures r.0 ==> threshold <= |voters|
  {
    if |voters| < threshold then (false, 0)
    else Decide(YesTally(voters, votes), NoTally(voters, votes), threshold)
  }

  /** The early return is only a shortcut: with fewer voters than the
      threshold neither side can reach it, so the comparison itself would
      also report no consensus. */
  lemma {:induction false} ConsensusIsDecide(voters: seq<Address>, votes: map<Address, nat>, threshold: nat)
    ensures Consensus(voters, votes, threshold) == Decide(YesTally(voters, votes), NoTally(voters, votes), threshold)
  {
    TalliesCoverVoters(voters, votes);
  }

  /** Consensus needs a strict majority of the voters that meets the
      threshold. */
  lemma {:induction false} ConsensusNeedsMajority(voters: seq<Address>, votes: map<Address, nat>, threshold: nat)
    ensures var r := Consensus(voters, votes, threshold);
            r.0 ==> (r.1 == 1 <==> 2 * YesTally(voters, votes) > |voters|)
    ensures var r := Consensus(voters, votes, threshold);
            r.0 ==> (if r.1 == 1 then YesTally(voters, votes) else NoTally(voters, votes)) >= threshold
    ensures var r := Consensus(voters, votes, threshold);
            r.0 ==> 2 * (if r.1 == 1 then YesTally(voters, votes) else NoTally(voters, votes)) > |voters|
  {
    TalliesCoverVoters(voters, votes);
  }

  /** Three voters, threshold 2: two YES and one NO resolve YES. */
  lemma TwoOfThreeExample()
    ensures Consensus([1, 2, 3], map[1 := 1, 2 := 1, 3 := 0], 2) == (true, 1)
  {
    var votes: map<Address, nat> := map[1 := 1, 2 := 1, 3 := 0];
    TallyAppend([1, 2], votes, 3);
    TallyAppend([1], votes, 2);
    TallyAppend([], votes, 1);
    assert [1, 2, 3] == [1, 2] + [3] && [1, 2] == [1] + [2] && [1] == [] + [1];
  }

  /** Four voters split two to two with threshold 2: no consensus. */
  lemma TieExample()
    ensures Consensus([1, 2, 3, 4], map[1 := 1, 2 := 1, 3 := 0, 4 := 0], 2) == (false, 0)
  {
    var vs: seq<Address> := [1, 2, 3, 4];
    var votes: map<Address, nat> := map[1 := 1, 2 := 1, 3 := 0, 4 := 0];
    TallyAppend([1, 2, 3], votes, 4);
    TallyAppend([1, 2], votes, 3);
    TallyAppend([1], votes, 2);
    TallyAppend([], votes, 1);
    assert vs == [1, 2, 3] + [4] && [1, 2, 3] == [1, 2] + [3] && [1, 2] == [1] + [2] && [1] == [] + [1];
  }

  /** The counting loop of `check_consensus`: one pass over the voters,
      a vote of 1 counts YES and anything else NO. */
  method CountVotes(voters: seq<Address>, votes: map<Address, nat>) returns (yesVotes: nat, noVotes: nat)
    ensures yesVotes == YesTally(voters, votes) && noVotes == NoTally(voters, votes)
  {
    yesVotes, noVotes := 0, 0;
    var i := 0;
    while i < |voters|
      invariant 0 <= i <= |voters|
      invariant yesVotes == YesTally(voters[..i], votes)
      invariant noVotes == NoTally(voters[..i], votes)
    {
      assert voters[..i + 1][..i] == voters[..i];
      if VoteOf(votes, voters[i]) == 1 {
        yesVotes := yesVotes + 1;
      } else {
        noVotes := noVotes + 1;
      }
      i := i + 1;
    }
    assert voters[..|voters|] == voters;
  }

  // ---------------------------------------------------------------------
  // Market records.

  predicate NoDuplicates(s: seq<Address>) {
    forall i, j :: 0 <= i < j < |s| ==> s[i] != s[j]
  }

  /** The voter list, without repetition, and the vote map name the same
      oracles, and every vote is 0 or 1. */
  ghost predicate VotesWellFormed(r: MarketRecord) {
    && NoDuplicates(r.voters)
    && (forall a :: a in r.votes <==> a in r.voters)
    && (forall a :: a in r.votes ==> r.votes[a] <= 1)
  }

  /** Each voter has exactly one attestation, naming it and its vote. */
  ghost predicate AttestationsAgree(r: MarketRecord) {
    && r.attestations.Keys == r.votes.Keys
    && (forall a :: a in r.attestations ==>
          r.attestations[a].attestor == a && r.attestations[a].outcome == r.votes[a])
  }

  /** The counters tally the voters from position `epoch` on. */
  ghost predicate CountersAgree(r: MarketRecord, epoch: nat) {
    && epoch <= |r.voters|
    && r.yesCount == YesTally(r.voters[epoch..], r.votes)
    && r.noCount == NoTally(r.voters[epoch..], r.votes)
  }

  /** What holds of a market record between calls. `epoch` is the length
      of the voter list when the market was last registered: registering
      again zeroes the counters but keeps voters and votes, so the
      counters tally exactly the voters who attested since. */
  ghost predicate RecordValid(r: MarketRecord, epoch: nat) {
    VotesWellFormed(r) && AttestationsAgree(r) && CountersAgree(r, epoch)
  }

  /** The record of a market after `oracle` attests `outcome` at `now`. */
  function AfterAttestation(r: MarketRecord, oracle: Address, outcome: nat, now: nat): (r': MarketRecord)
    ensures r'.voters == r.voters + [oracle]
    ensures r'.votes == r.votes[oracle := outcome]
    ensures r'.attestations == r.attestations[oracle := Attestation(oracle, outcome, now)]
    ensures r'.resolutionTime == r.resolutionTime
    ensures outcome == 1 ==> r'.yesCount == r.yesCount + 1 && r'.noCount == r.noCount
    ensures outcome != 1 ==> r'.noCount == r.noCount + 1 && r'.yesCount == r.yesCount
  {
    r.(voters := r.voters + [oracle],
       votes := r.votes[oracle := outcome],
       attestations := r.attestations[oracle := Attestation(oracle, outcome, now)],
       yesCount := if outcome == 1 then r.yesCount + 1 else r.yesCount,
       noCount := if outcome == 1 then r.noCount else r.noCount + 1)
  }

  /** The record of a market after (re-)registration with `resolutionTime`:
      a fresh record, or the old one with new time and zeroed counters. */
  function AfterRegistration(r: Option<MarketRecord>, resolutionTime: nat): (r': MarketRecord)
    ensures r'.resolutionTime == resolutionTime && r'.yesCount == 0 && r'.noCount == 0
    ensures r.None? ==> r'.voters == [] && r'.votes == map[] && r'.attestations == map[]
    ensures r.Some? ==> r'.voters == r.value.voters && r'.votes == r.value.votes
                        && r'.attestations == r.value.attestations
  {
    match r
    case None => MarketRecord(resolutionTime, 0, 0, [], map[], map[])
    case Some(prev) => prev.(resolutionTime := resolutionTime, yesCount := 0, noCount := 0)
  }

  /** Appending a voter that is not yet in the list keeps it free of
      duplicates. */
  lemma AppendKeepsNoDuplicates(s: seq<Address>, a: Address)
    requires NoDuplicates(s) && a !in s
    ensures NoDuplicates(s + [a])
  {
    forall i, j | 0 <= i < j < |s + [a]| ensures (s + [a])[i] != (s + [a])[j] {
      if j == |s| {
        assert (s + [a])[i] == s[i];
      }
    }
  }

  /** A new voter's vote extends the tallies of the voters since `epoch`
      by that vote alone. */
  lemma AttestationTallies(voters: seq<Address>, votes: map<Address, nat>, epoch: nat, oracle: Address, outcome: nat)
    requires epoch <= |voters| && oracle !in voters
    ensures YesTally((voters + [oracle])[epoch..], votes[oracle := outcome])
            == YesTally(voters[epoch..], votes) + (if outcome == 1 then 1 else 0)
    ensures NoTally((voters + [oracle])[epoch..], votes[oracle := outcome])
            == NoTally(voters[epoch..], votes) + (if outcome == 1 then 0 else 1)
  {
    var tail := voters[epoch..];
    assert (voters + [oracle])[epoch..] == tail + [oracle];
    assert oracle !in tail;
    TallyIgnoresOutsider(tail, votes, oracle, outcome);
    TallyAppend(tail, votes[oracle := outcome], oracle);
  }

  lemma AttestationKeepsVotesWellFormed(r: MarketRecord, oracle: Address, outcome: nat, now: nat)
    requires VotesWellFormed(r) && oracle !in r.votes && outcome <= 1
    ensures VotesWellFormed(AfterAttestation(r, oracle, outcome, now))
  {
    AppendKeepsNoDuplicates(r.voters, oracle);
  }

  lemma AttestationKeepsAttestationsAgree(r: MarketRecord, oracle: Address, outcome: nat, now: nat)
    requires AttestationsAgree(r)
    ensures AttestationsAgree(AfterAttestation(r, oracle, outcome, now))
  {
  }

  lemma AttestationKeepsCountersAgree(r: MarketRecord, epoch: nat, oracle: Address, outcome: nat, now: nat)
    requires CountersAgree(r, epoch) && oracle !in r.voters
    ensures CountersAgree(AfterAttestation(r, oracle, outcome, now), epoch)
  {
    AttestationTallies(r.voters, r.votes, epoch, oracle, outcome);
  }

  /** A first attestation by an oracle keeps a record valid and bumps the
      counter of its side. */
  lemma AttestationKeepsRecordValid(r: MarketRecord, epoch: nat, oracle: Address, outcome: nat, now: nat)
    requires RecordValid(r, epoch) && oracle !in r.votes && outcome <= 1
    ensures RecordValid(AfterAttestation(r, oracle, outcome, now), epoch)
  {
    AttestationKeepsVotesWellFormed(r, oracle, outcome, now);
    AttestationKeepsAttestationsAgree(r, oracle, outcome, now);
    AttestationKeepsCountersAgree(r, epoch, oracle, outcome, now);
  }

  /** (Re-)registration keeps a record valid once the epoch moves to the
      current end of the voter list. */
  lemma RegistrationKeepsRecordValid(r: Option<MarketRecord>, epoch: nat, resolutionTime: nat)
    requires r.Some? ==> RecordValid(r.value, epoch)
    ensures var r' := AfterRegistration(r, resolutionTime);
            RecordValid(r', |r'.voters|)
  {
    var r' := AfterRegistration(r, resolutionTime);
    assert r'.voters[|r'.voters|..] == [];
  }

  /** A registered market's record with, as ghost data, its epoch. */
  datatype MarketEntry = MarketEntry(record: MarketRecord, ghost epoch: nat)

  /** The entries the contract can hold: their records are valid. */
  type ValidEntry = e: MarketEntry | RecordValid(e.record, e.epoch)
    witness MarketEntry(MarketRecord(0, 0, 0, [], map[], map[]), 0)

  // ---------------------------------------------------------------------
  // The contract.

  class OracleManager {
    /** `None` until `initialize` runs. */
    var config: Option<OracleConfig>

    /** The oracle counter; it reads as 0 before `initialize`. */
    var oracleCount: nat

    /** The oracle registry: an address is registered iff it is a key. */
    var oracles: map<Address, OracleInfo>

    /** Registered markets. */
    var markets: map<MarketId, ValidEntry>

    ghost predicate Valid()
      reads this
    {
      oracleCount <= MAX_ORACLES
    }

    /** The threshold `check_consensus` reads: 0 when unset. */
    function Threshold(): nat
      reads this
    {
      if config.Some? then config.value.requiredConsensus else 0
    }

    /** The voter list and votes of a market: empty when unregistered. */
    function VotersOf(marketId: MarketId): seq<Address>
      reads this
    {
      if marketId in markets then markets[marketId].record.voters else []
    }

    function VotesOf(marketId: MarketId): map<Address, nat>
      reads this
    {
      if marketId in markets then markets[marketId].record.votes else map[]
    }

    constructor ()
      ensures Valid()
      ensures config == None && oracleCount == 0 && oracles == map[] && markets == map[]
    {
      config := None;
      oracleCount := 0;
      oracles := map[];
      markets := map[];
    }

    /** `initialize`, authorised by `admin`. There is no
        already-initialized guard: a later call replaces the admin and the
        threshold and resets the counter, leaving the registry in place. */
    method Initialize(admin: Address, requiredConsensus: nat)
      requires Valid()
      modifies this
      ensures Valid()
      ensures config == Some(OracleConfig(admin, requiredConsensus)) && oracleCount == 0
      ensures oracles == old(oracles) && markets == old(markets)
    {
      config := Some(OracleConfig(admin, requiredConsensus));
      oracleCount := 0;
    }

    /** `register_oracle` at ledger time `now`; `caller` stands for the
        account whose authorisation the host checked against the admin. */
    method RegisterOracle(caller: Address, oracle: Address, name: string, now: nat) returns (r: Outcome<Error>)
      requires Valid()
      modifies this
      ensures Valid()
      ensures r == (if old(config).None? then Fail(NotInitialized)
                    else if caller != old(config).value.admin then Fail(Unauthorized)
                    else if old(oracleCount) >= MAX_ORACLES then Fail(LimitReached)
                    else if oracle in old(oracles) then Fail(AlreadyRegistered)
                    else Pass)
      ensures r.Fail? ==> unchanged(this)
      ensures r.Pass? ==>
        && oracles == old(oracles)[oracle := OracleInfo(name, INITIAL_ACCURACY, now)]
        && oracleCount == old(oracleCount) + 1
        && config == old(config) && markets == old(markets)
    {
      if config.None? {
        return Fail(NotInitialized);
      }
      if caller != config.value.admin {
        return Fail(Unauthorized);
      }
      if oracleCount >= MAX_ORACLES {
        return Fail(LimitReached);
      }
      if oracle in oracles {
        return Fail(AlreadyRegistered);
      }
      oracles := oracles[oracle := OracleInfo(name, INITIAL_ACCURACY, now)];
      oracleCount := oracleCount + 1;
      return Pass;
    }

    /** `register_market`: (re-)sets the resolution time and zeroes both
        counters. Votes, attestations and the voter list of an earlier
        registration are left in place. */
    method RegisterMarket(caller: Address, marketId: MarketId, resolutionTime: nat) returns (r: Outcome<Error>)
      requires Valid()
      modifies this
      ensures Valid()
      ensures r == (if old(config).None? then Fail(NotInitialized)
                    else if caller != old(config).value.admin then Fail(Unauthorized)
                    else Pass)
      ensures r.Fail? ==> unchanged(this)
      ensures r.Pass? ==>
        && marketId in markets
        && markets[marketId].record == AfterRegistration(
             if marketId in old(markets) then Some(old(markets)[marketId].record) else None, resolutionTime)
        && markets == old(markets)[marketId := markets[marketId]]
        && config == old(config) && oracles == old(oracles) && oracleCount == old(oracleCount)
    {
      if config.None? {
        return Fail(NotInitialized);
      }
      if caller != config.value.admin {
        return Fail(Unauthorized);
      }
      var previous := if marketId in markets then Some(markets[marketId].record) else None;
      var epoch := if marketId in markets then markets[marketId].epoch else 0;
      RegistrationKeepsRecordValid(previous, epoch, resolutionTime);
      var record := AfterRegistration(previous, resolutionTime);
      markets := markets[marketId := MarketEntry(record, |record.voters|)];
      return Pass;
    }

    /** `get_market_resolution_time`. */
    function GetMarketResolutionTime(marketId: MarketId): (t: Option<nat>)
      reads this
      ensures t.Some? <==> marketId in markets
      ensures t.Some? ==> t.value == markets[marketId].record.resolutionTime
    {
      if marketId in markets then Some(markets[marketId].record.resolutionTime) else None
    }

    /** `get_attestation_counts`: both counters, 0 for an unregistered
        market. */
    function GetAttestationCounts(marketId: MarketId): (counts: (nat, nat))
      reads this
      ensures marketId !in markets ==> counts == (0, 0)
    {
      if marketId in markets then (markets[marketId].record.yesCount, markets[marketId].record.noCount) else (0, 0)
    }

    /** `get_attestation`. */
    function GetAttestation(marketId: MarketId, oracle: Address): (a: Option<Attestation>)
      reads this
      ensures a.Some? ==> marketId in markets
    {
      if marketId in markets && oracle in markets[marketId].record.attestations
      then Some(markets[marketId].record.attestations[oracle]) else None
    }

    /** An oracle has an attestation on a market iff it is in the market's
        voter list, and the attestation carries its own address and vote. */
    lemma AttestationMatchesVote(marketId: MarketId, oracle: Address)
      ensures GetAttestation(marketId, oracle).Some? <==> oracle in VotersOf(marketId)
      ensures GetAttestation(marketId, oracle).Some? ==>
                GetAttestation(marketId, oracle).value.attestor == oracle &&
                GetAttestation(marketId, oracle).value.outcome == VoteOf(VotesOf(marketId), oracle)
    {
      if marketId in markets {
        assert RecordValid(markets[marketId].record, markets[marketId].epoch);
      }
    }

    /** Each registered oracle has at most one vote on a market: the voter
        list has no repetition, names exactly the oracles with a vote, and
        every vote is 0 or 1. */
    lemma OneVotePerOracle(marketId: MarketId)
      requires marketId in markets
      ensures NoDuplicates(VotersOf(marketId))
      ensures forall a :: a in VotesOf(marketId) <==> a in VotersOf(marketId)
      ensures forall a :: a in VotesOf(marketId) ==> VotesOf(marketId)[a] <= 1
    {
      assert RecordValid(markets[marketId].record, markets[marketId].epoch);
    }

    /** The counters tally the votes cast since the market was last
        registered; for a market registered before its first attestation
        and never since, they agree with the tallies `check_consensus`
        computes over the whole voter list. */
    lemma {:induction false} CountersMatchTallies(marketId: MarketId)
      requires marketId in markets
      ensures markets[marketId].epoch <= |VotersOf(marketId)|
      ensures GetAttestationCounts(marketId)
              == (YesTally(VotersOf(marketId)[markets[marketId].epoch..], VotesOf(marketId)),
                  NoTally(VotersOf(marketId)[markets[marketId].epoch..], VotesOf(marketId)))
      ensures var (yes, no) := GetAttestationCounts(marketId);
              yes + no == |VotersOf(marketId)| - markets[marketId].epoch
      ensures markets[marketId].epoch == 0 ==>
                GetAttestationCounts(marketId) == (YesTally(VotersOf(marketId), VotesOf(marketId)),
                                                   NoTally(VotersOf(marketId), VotesOf(marketId)))
    {
      var r := markets[marketId].record;
      var epoch := markets[marketId].epoch;
      assert RecordValid(r, epoch);
      TalliesCoverVoters(r.voters[epoch..], r.votes);
      assert r.voters[0..] == r.voters;
    }

    /** `submit_attestation` by the authenticated `oracle` at ledger time
        `now`. The data hash argument is not stored and is left out. */
    method SubmitAttestation(oracle: Address, marketId: MarketId, outcome: nat, now: nat) returns (r: Outcome<Error>)
      requires Valid()
      modifies this
      ensures Valid()
      ensures r == (if oracle !in old(oracles) then Fail(NotRegistered)
                    else if marketId !in old(markets) then Fail(MarketNotRegistered)
                    else if now < old(markets)[marketId].record.resolutionTime then Fail(TooEarly)
                    else if outcome > 1 then Fail(InvalidOutcome)
                    else if oracle in old(markets)[marketId].record.votes then Fail(AlreadyAttested)
                    else Pass)
      ensures r.Fail? ==> unchanged(this)
      ensures r.Pass? ==>
        && marketId in markets && markets == old(markets)[marketId := markets[marketId]]
        && markets[marketId].record == AfterAttestation(old(markets)[marketId].record, oracle, outcome, now)
        && markets[marketId].epoch == old(markets)[marketId].epoch
        && config == old(config) && oracles == old(oracles) && oracleCount == old(oracleCount)
    {
      if oracle !in oracles {
        r := Fail(NotRegistered);
      } else if marketId !in markets {
        r := Fail(MarketNotRegistered);
      } else if now < markets[marketId].record.resolutionTime {
        r := Fail(TooEarly);
      } else if outcome > 1 {
        r := Fail(InvalidOutcome);
      } else if oracle in markets[marketId].record.votes {
        r := Fail(AlreadyAttested);
      } else {
        var entry := markets[marketId];
        AttestationKeepsRecordValid(entry.record, entry.epoch, oracle, outcome, now);
        markets := markets[marketId := MarketEntry(AfterAttestation(entry.record, oracle, outcome, now), entry.epoch)];
        r := Pass;
      }
    }

    /** `check_consensus`: reads the voter list and the threshold, returns
        early below the threshold, then counts the votes and compares. */
    method CheckConsensus(marketId: MarketId) returns (r: (bool, nat))
      ensures r == Consensus(VotersOf(marketId), VotesOf(marketId), Threshold())
    {
      var voters := VotersOf(marketId);
      var votes := VotesOf(marketId);
      var threshold := Threshold();
      if |voters| < threshold {
        return (false, 0);
      }
      var yesVotes, noVotes := CountVotes(voters, votes);
      if yesVotes >= threshold && yesVotes > noVotes {
        r := (true, 1);
      } else if noVotes >= threshold && noVotes > yesVotes {
        r := (true, 0);
      } else if yesVotes >= threshold && noVotes >= threshold && yesVotes == noVotes {
        r := (false, 0);
      } else {
        r := (false, 0);
      }
    }
  }
}

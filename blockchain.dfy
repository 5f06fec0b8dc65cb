/**
 * The validator node of src/algorithms/blockchain.py. Its lists and
 * dictionaries are fields that the message handlers update in place; each
 * method's postcondition ties the new fields to the functions of module
 * BlockchainSpec applied to the old ones.
 */
module Blockchain {
  import opened Wrappers
  import opened BlockchainSpec

  /** How on_block_vote ended. FinalizeRaised: list.remove raised inside check_transactions. */
  datatype VoteOutcome = NoBlockAtHeight | HashMismatch | Recorded | Finalized | FinalizeRaised

  class BlockchainNode {
    const nodeId: int
    /** sha256 of the serialised block; nothing is assumed of it. */
    const hash: Block -> Bytes

    var pendingTxs: seq<Transaction>
    var finalizedTxs: seq<Transaction>
    var balances: map<int, int>
    var stakes: map<int, int>
    var blocks: seq<Block>
    var blockVotes: map<Bytes, set<int>>

    /** Every (sender, nonce) key occurs at most once across pending and finalized. */
    ghost predicate Valid()
      reads this
    {
      KeysDistinct(pendingTxs, finalizedTxs)
    }

    function Snapshot(): Books
      reads this
    {
      Books(balances, stakes, pendingTxs, finalizedTxs)
    }

    constructor (nodeId: int, hash: Block -> Bytes)
      ensures Valid()
      ensures this.nodeId == nodeId && this.hash == hash
      ensures pendingTxs == [] && finalizedTxs == []
      ensures balances == map[] && stakes == map[]
      ensures blocks == [] && blockVotes == map[]
    {
      this.nodeId := nodeId;
      this.hash := hash;
      pendingTxs, finalizedTxs := [], [];
      balances, stakes := map[], map[];
      blocks, blockVotes := [], map[];
    }

    /** handle_tx */
    method HandleTx(tx: Transaction)
      requires Valid()
      modifies this`balances
      ensures Valid()
      ensures balances == ApplyTx(old(balances), tx)
    {
      if BalanceOf(balances, tx.sender) - tx.amount >= 0 {
        balances := balances[tx.sender := BalanceOf(balances, tx.sender) - tx.amount];
        balances := balances[tx.receiver := BalanceOf(balances, tx.receiver) + tx.amount];
      } else {
        // The failed lookup still enters the sender with its default balance.
        balances := balances[tx.sender := BalanceOf(balances, tx.sender)];
      }
    }

    /** handle_stake */
    method HandleStake(tx: Transaction)
      requires Valid()
      modifies this`balances, this`stakes
      ensures Valid()
      ensures (balances, stakes) == ApplyStake(old(balances), old(stakes), tx)
    {
      if BalanceOf(balances, tx.sender) - tx.amount >= 0 {
        balances := balances[tx.sender := BalanceOf(balances, tx.sender) - tx.amount];
        stakes := stakes[tx.sender := StakeOf(stakes, tx.sender) + tx.amount];
      } else {
        balances := balances[tx.sender := BalanceOf(balances, tx.sender)];
      }
    }

    /** handle_transactions: admitted is true when the payload is appended (and then gossiped). */
    method HandleTransactions(tx: Transaction) returns (admitted: bool)
      requires Valid()
      modifies this`pendingTxs
      ensures Valid()
      ensures admitted <==> IsNew(old(pendingTxs), finalizedTxs, tx)
      ensures pendingTxs == Admit(old(pendingTxs), finalizedTxs, tx)
    {
      AdmitKeepsKeysDistinct(pendingTxs, finalizedTxs, tx);
      admitted := Key(tx) !in KeysOf(finalizedTxs) && Key(tx) !in KeysOf(pendingTxs);
      if admitted {
        pendingTxs := pendingTxs + [tx];
      }
    }

    /** One iteration of check_transactions: funds check, then list.remove and append. */
    method SettleTransaction(tx: Transaction) returns (ok: bool)
      requires Valid()
      modifies this`balances, this`stakes, this`pendingTxs, this`finalizedTxs
      ensures Valid()
      ensures Settled(Snapshot(), ok) == SettleOne(old(Snapshot()), tx)
    {
      if tx.isStake {
        HandleStake(tx);
      } else {
        HandleTx(tx);
      }
      ok := tx in pendingTxs;
      if ok {
        RemoveFirstKeepsKeysDistinct(pendingTxs, finalizedTxs, tx);
        pendingTxs := RemoveFirst(pendingTxs, tx);
        finalizedTxs := finalizedTxs + [tx];
      }
    }

    /**
     * check_transactions: applies each transaction, then moves it from pending
     * to finalized. ok is false when a transaction is not pending, where
     * list.remove raises and the remaining transactions are not visited.
     */
    method CheckTransactions(txs: seq<Transaction>) returns (ok: bool)
      requires Valid()
      modifies this`balances, this`stakes, this`pendingTxs, this`finalizedTxs
      ensures Valid()
      ensures Settled(Snapshot(), ok) == Settle(old(Snapshot()), txs)
    {
      ok := true;
      var i := 0;
      while i < |txs|
        invariant 0 <= i <= |txs|
        invariant Valid()
        invariant Settle(old(Snapshot()), txs[..i]) == Settled(Snapshot(), true)
      {
        assert txs[..i + 1][..i] == txs[..i];
        ok := SettleTransaction(txs[i]);
        if !ok {
          SettleStopsAfterFailure(old(Snapshot()), txs, i + 1);
          return;
        }
        i := i + 1;
      }
      assert txs[..|txs|] == txs;
    }

    /** finalize_block */
    method FinalizeBlock(block: Block) returns (ok: bool)
      requires Valid()
      modifies this`balances, this`stakes, this`pendingTxs, this`finalizedTxs
      ensures Valid()
      ensures Settled(Snapshot(), ok) == Settle(old(Snapshot()), block.transactions)
    {
      ok := CheckTransactions(block.transactions);
    }

    /** broadcast_block_confirmation: records this node's own vote and returns the vote it broadcasts. */
    method BroadcastBlockConfirmation(block: Block) returns (vote: BlockVote)
      requires Valid()
      modifies this`blockVotes
      ensures Valid()
      ensures vote == BlockVote(block.height, hash(block))
      ensures blockVotes == AddVote(old(blockVotes), hash(block), nodeId)
    {
      var blockHash := hash(block);
      vote := BlockVote(block.height, blockHash);
      blockVotes := blockVotes[blockHash := VotesOf(blockVotes, blockHash) + {nodeId}];
    }

    /** form_block at time now: appends the new block and votes for it. */
    method FormBlock(now: int) returns (block: Block, vote: BlockVote)
      requires Valid()
      modifies this`blocks, this`blockVotes
      ensures Valid()
      ensures block == NextBlock(old(blocks), pendingTxs, now, hash)
      ensures blocks == old(blocks) + [block]
      ensures ChainHeight(blocks) == ChainHeight(old(blocks)) + 1
      ensures vote == BlockVote(block.height, hash(block))
      ensures blockVotes == AddVote(old(blockVotes), hash(block), nodeId)
    {
      var prevBlockHash := GenesisPrevHash;
      if |blocks| > 0 {
        prevBlockHash := hash(blocks[|blocks| - 1]);
      }
      block := Block(ChainHeight(blocks) + 1, prevBlockHash, now, pendingTxs[..Min(|pendingTxs|, MaxTxAmount)]);
      blocks := blocks + [block];
      vote := BroadcastBlockConfirmation(block);
    }

    /** on_block: an unknown block is appended and voted for; a known one changes nothing. */
    method OnBlock(b: Block) returns (accepted: bool)
      requires Valid()
      modifies this`blocks, this`blockVotes
      ensures Valid()
      ensures accepted <==> b !in old(blocks)
      ensures blocks == AcceptBlock(old(blocks), b)
      ensures blockVotes == if accepted then AddVote(old(blockVotes), hash(b), nodeId) else old(blockVotes)
    {
      accepted := b !in blocks;
      if accepted {
        blocks := blocks + [b];
        var _ := BroadcastBlockConfirmation(b);
      }
    }

    /**
     * on_block_vote from voter, with validators other validators known. The vote
     * is checked against the first block of its height; the tally entry is
     * dropped only after the block's transactions settled without raising.
     */
    method OnBlockVote(voter: int, vote: BlockVote, validators: nat) returns (outcome: VoteOutcome)
      requires Valid()
      modifies this`blockVotes, this`balances, this`stakes, this`pendingTxs, this`finalizedTxs
      ensures Valid()
      ensures match FirstAtHeight(blocks, vote.height)
        case None =>
          outcome == NoBlockAtHeight && blockVotes == old(blockVotes) && Snapshot() == old(Snapshot())
        case Some(i) =>
          if hash(blocks[i]) != vote.blockHash then
            outcome == HashMismatch && blockVotes == old(blockVotes) && Snapshot() == old(Snapshot())
          else
            var tally := AddVote(old(blockVotes), vote.blockHash, voter);
            if !ReachesQuorum(|VotesOf(tally, vote.blockHash)|, validators) then
              outcome == Recorded && blockVotes == tally && Snapshot() == old(Snapshot())
            else
              var s := Settle(old(Snapshot()), blocks[i].transactions);
              Snapshot() == s.books &&
              if s.ok then outcome == Finalized && blockVotes == tally - {vote.blockHash}
              else outcome == FinalizeRaised && blockVotes == tally
    {
      var found := FirstAtHeight(blocks, vote.height);
      if found.None? {
        return NoBlockAtHeight;
      }
      var block := blocks[found.value];
      if hash(block) != vote.blockHash {
        return HashMismatch;
      }
      blockVotes := blockVotes[vote.blockHash := VotesOf(blockVotes, vote.blockHash) + {voter}];
      if !ReachesQuorum(|blockVotes[vote.blockHash]|, validators) {
        return Recorded;
      }
      var ok := FinalizeBlock(block);
      if !ok {
        return FinalizeRaised;
      }
      blockVotes := blockVotes - {vote.blockHash};
      outcome := Finalized;
    }
  }
}

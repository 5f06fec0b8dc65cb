# Validator ledger and gossip token table: a Dafny model

This project models two in-memory ledger components of a small permissioned
blockchain written in Python on top of a peer-to-peer messaging library.

**`BlockchainNode`** (`src/algorithms/blockchain.py`) is a validator. It keeps these containers:
- `pending_txs` and `finalized_txs`: lists of transactions.
- `balances` and `stakes`: dictionaries with defaults. An unseen account has balance 1000 and stake 0.
- `blocks`: the chain.
- `block_votes`: a map from block hash to the set of voter ids.

Its handlers are modelled as methods of the class `Blockchain.BlockchainNode`:
- admit a transaction, de-duplicated on `(sender, nonce)`;
- form a block from the first five pending transactions;
- accept a block from a peer;
- record a vote and finalize the block once two thirds of the validators have voted.

Finalizing a block applies each transfer or stake, then moves the transaction
from pending to finalized.

**`TokenCommunity`** (`simulation/tokenNetwork/tokenSimulation.py`) keeps
`records`, which maps each address to a `(tx_id, amount)` pair. It has three handlers:
- receiving a transfer debits the sender's record and bumps and credits the node's own record;
- balance gossip is merged last-writer-wins, on a strictly larger `tx_id`;
- sending a transfer debits the node's own record when the funds suffice.

These are modelled by the class `TokenNetwork.TokenCommunity`.

Both classes keep their state in `seq`/`map` fields, and their methods change those fields in place.
- Each method's postcondition says what the new state is: a pure function of
  the old state in module `BlockchainSpec` or `TokenNetwork`. A method's
  return value stands for the message it sends.
- The properties are proved about those functions, as their own postconditions and as lemmas.
- The object invariants are preserved by every method:
  - for the validator, no `(sender, nonce)` key occurs twice across pending and finalized;
  - for the token node, the node's own entry is always present.

Files:
- `wrappers.dfy`: `Option`.
- `blockchain_spec.dfy`: module `BlockchainSpec`, with the datatypes, transitions and lemmas of the validator.
- `blockchain.dfy`: module `Blockchain`, the node class.
- `token_network.dfy`: module `TokenNetwork`, the functions, lemmas and class of the token table.

Modelling choices:
- The block hash `sha256(default_serializer.pack(...))` becomes `hash: Block -> seq<bv8>`.
  - It is a constant of the node, given to its constructor.
  - Nothing is assumed about it: the model only uses the fact that two hash results are equal or unequal.
- Python's `defaultdict` inserts a key when a missing key is read. The model reproduces this:
  - after a failed funds check, the sender is present in `balances` with its default balance;
  - a vote entry is created before it is counted.
- The finality test `count >= 2 * (V + 1) / 3` uses Python true division. It is written over integers as
  `3 * count >= 2 * (V + 1)`. `ReachesQuorum` proves that this is the same test when the division is exact.
- `list.remove` raises a `ValueError` when the transaction is not in `pending_txs`, and the model follows that error path.
  - `CheckTransactions` returns `ok = false`.
  - The state is left as the raise leaves it. The failing transaction's funds effect has already happened, and the later transactions are not visited.
  - `OnBlockVote` then reports `FinalizeRaised` and does not drop the tally entry.
- The source does not reject negative amounts. Non-negative balances are therefore proved only for non-negative amounts. `NegativeAmountOverdraws` shows that a transfer of -2000 drives the receiver to -1000.

In four places the code does not do what the ledger's design intends. The model follows the code:
- A transaction that fails its funds check is still moved to `finalized_txs` (`blockchain.py:147-156`). It is not re-queued.
- The default balance is 1000 for every account, not only for clients.
- `validate_block` always returns true, so a block is checked neither for its height nor for its `prev_block_hash` link.
- Only the validator's own copy of the vote tally is used. There is no leader guard against proposing a second block.

## Model

| member | source | states |
|---|---|---|
| `BlockchainSpec.BalanceOf` | src/algorithms/blockchain.py:57 | An account's balance: the stored value, or 1000 for an account not yet seen. |
| `BlockchainSpec.StakeOf` | src/algorithms/blockchain.py:58 | An account's stake: the stored value, or 0 for an account not yet seen. |
| `BlockchainSpec.ApplyTx` | src/algorithms/blockchain.py:158-161 | When the sender can afford the amount, the sender is debited and the receiver credited. Otherwise every balance is unchanged. The sender+receiver sum is conserved in both cases and no other account changes. Balances stay non-negative when the amount is non-negative. The sender's key is always materialised. |
| `BlockchainSpec.ApplyStake` | src/algorithms/blockchain.py:163-169 | When affordable, the amount moves from the sender's balance to the sender's stake, so balance+stake is conserved. Otherwise the stakes map is unchanged and so is every balance. Other accounts never change. |
| `BlockchainSpec.NegativeAmountOverdraws` | src/algorithms/blockchain.py:158-161 | A transfer of -2000 passes the funds check and leaves the receiver at -1000: negative amounts break non-negativity. |
| `BlockchainSpec.Admit` | src/algorithms/blockchain.py:171-175 | When the payload's (sender, nonce) key is in neither list, pending becomes the old pending with the payload itself appended. Otherwise pending is unchanged. Afterwards the key is known to one of the two lists. |
| `BlockchainSpec.AdmitKeepsKeysDistinct` | src/algorithms/blockchain.py:171-175 | Admission keeps keys unique within pending, within finalized, and across the two. |
| `BlockchainSpec.AdmitIdempotent` | src/algorithms/blockchain.py:171-175 | Receiving the same payload twice leaves pending as after the first time. |
| `BlockchainSpec.FirstIndex` | src/algorithms/blockchain.py:155 | The position that `list.remove` searches for: the first occurrence of the element, or the length when it is absent. |
| `BlockchainSpec.RemoveFirst` | src/algorithms/blockchain.py:155 | `list.remove` deletes the first occurrence: there is an index k holding x, with no x before it, and the result is the list without position k, the rest in order. Adding one copy back gives the original multiset. |
| `BlockchainSpec.RemoveFirstSubsequence` | src/algorithms/blockchain.py:155 | What `list.remove` leaves is a subsequence of the old list: the remaining elements keep their order. |
| `BlockchainSpec.Credit` | src/algorithms/blockchain.py:150-153 | A stake changes balances and stakes as `ApplyStake`; a transfer changes balances as `ApplyTx` and leaves stakes alone. The lists are untouched. |
| `BlockchainSpec.SettleOne` | src/algorithms/blockchain.py:148-156 | One loop iteration succeeds exactly when the transaction is pending, whatever the funds check said. On success it moves one copy from pending to the end of finalized. On failure the lists are unchanged. On both paths the balances and stakes are those of `ApplyStake` or `ApplyTx`, so the raising transaction's funds effect has happened. |
| `BlockchainSpec.Settle` | src/algorithms/blockchain.py:147-156 | The sum of the pending and finalized lengths is conserved, and finalized only grows. On success finalized gains the block's transactions in block order, and pending plus those transactions is the old pending as a multiset. |
| `BlockchainSpec.SettleKeepsPendingOrder` | src/algorithms/blockchain.py:147-156 | Whether or not it raises, settlement only deletes from pending: the new pending is a subsequence of the old one, so the order that the next `pending_txs[:5]` takes survives. |
| `BlockchainSpec.SettleStopsAfterFailure` | src/algorithms/blockchain.py:147-156 | After the transaction that raised, no later transaction of the block has any effect. |
| `BlockchainSpec.SettleOkIff` | src/algorithms/blockchain.py:147-156 | check_transactions runs to the end if and only if the block's transactions, as a multiset, are contained in pending. |
| `BlockchainSpec.SettlePendingPrefix` | src/algorithms/blockchain.py:147-156 | Settling the first n pending transactions succeeds. It leaves `pending[n..]` in order and appends `pending[..n]` to finalized. |
| `BlockchainSpec.RemoveFirstKeepsKeysDistinct` | src/algorithms/blockchain.py:155-156 | Moving a pending transaction to finalized keeps all keys distinct. |
| `BlockchainSpec.SettleKeepsKeysDistinct` | src/algorithms/blockchain.py:147-156 | Settlement keeps all keys distinct across pending and finalized, also when it stops early. |
| `BlockchainSpec.SettleKeepsNonNegative` | src/algorithms/blockchain.py:147-161 | Settling transactions with non-negative amounts never drives a balance negative. |
| `BlockchainSpec.ChainHeight` | src/algorithms/blockchain.py:105-108 | `get_block_height`: 0 on an empty chain, otherwise the height stored in the last block. |
| `BlockchainSpec.NextBlock` | src/algorithms/blockchain.py:129-136 | The formed block has `get_block_height() + 1` as its height. Its transactions are a prefix of pending, of length min(len(pending), 5). Its prev hash is the sentinel `b'0'` on an empty chain and otherwise the hash of the last block. Its timestamp is the given time. |
| `BlockchainSpec.NextBlockAdvancesHeight` | src/algorithms/blockchain.py:105-108 | Appending the formed block raises `get_block_height` by exactly one. |
| `BlockchainSpec.ChainHeightCountsBlocks` | src/algorithms/blockchain.py:105-108 | On a chain numbered 1, 2, ... the height is the number of blocks; on an empty chain it is 0. |
| `BlockchainSpec.NextBlockKeepsWellLinked` | src/algorithms/blockchain.py:129-138 | A chain built only by form_block from the empty chain is numbered consecutively, and each block carries its predecessor's hash. |
| `BlockchainSpec.FormedBlockSettles` | src/algorithms/blockchain.py:129-156 | A block this node formed, finalized while pending is unchanged, settles without raising. Its transactions move to finalized and the rest of pending stays in order. |
| `BlockchainSpec.AcceptBlock` | src/algorithms/blockchain.py:204-207 | Afterwards the block is in the chain. The chain only grows, and it grows by one exactly when the block was new. |
| `BlockchainSpec.AcceptBlockIdempotent` | src/algorithms/blockchain.py:204-207 | Receiving the same block twice leaves the chain as after the first time. |
| `BlockchainSpec.VotesOf` | src/algorithms/blockchain.py:62 | The tally of a hash: the stored set, or the empty set for a hash not yet seen. |
| `BlockchainSpec.AddVote` | src/algorithms/blockchain.py:236 | The voter joins the tally set of that hash, and every other hash's set is unchanged. |
| `BlockchainSpec.FirstAtHeight` | src/algorithms/blockchain.py:222-226 | Returns the index of the first block with the vote's height, or None exactly when no block has it. |
| `BlockchainSpec.ReachesQuorum` | src/algorithms/blockchain.py:240 | The integer test is true exactly when count >= 2(V+1)/3 in exact division. |
| `BlockchainSpec.QuorumsIntersect` | src/algorithms/blockchain.py:240 | Two vote sets drawn from the same V+1 validators that both pass the finality test share a voter. |
| `Blockchain.BlockchainNode.constructor` | src/algorithms/blockchain.py:54-62 | All lists, dictionaries and the vote tally start empty; the invariant holds. |
| `Blockchain.BlockchainNode.HandleTx` | src/algorithms/blockchain.py:158-161 | The balances field becomes `ApplyTx` of the old balances. Nothing else changes. |
| `Blockchain.BlockchainNode.HandleStake` | src/algorithms/blockchain.py:163-169 | The balances and stakes fields become `ApplyStake` of the old ones. Nothing else changes. |
| `Blockchain.BlockchainNode.HandleTransactions` | src/algorithms/blockchain.py:171-179 | Reports admission exactly when the key is new, sets pending to `Admit` of the old pending, leaves finalized untouched and preserves the invariant. |
| `Blockchain.BlockchainNode.SettleTransaction` | src/algorithms/blockchain.py:149-156 | One iteration changes the books as `SettleOne` says. |
| `Blockchain.BlockchainNode.CheckTransactions` | src/algorithms/blockchain.py:147-156 | The loop leaves the books and the ok flag as `Settle` of the old books, and it preserves the invariant. |
| `Blockchain.BlockchainNode.FinalizeBlock` | src/algorithms/blockchain.py:186-188 | The block's transactions are settled as `Settle` states. |
| `Blockchain.BlockchainNode.BroadcastBlockConfirmation` | src/algorithms/blockchain.py:190-197 | Records the node's own id under the block's hash, and returns the vote (height, hash) that it broadcasts. |
| `Blockchain.BlockchainNode.FormBlock` | src/algorithms/blockchain.py:129-145 | Appends exactly `NextBlock` of the old chain, raises the height by one, records the node's own vote for its hash and leaves pending unchanged. |
| `Blockchain.BlockchainNode.OnBlock` | src/algorithms/blockchain.py:203-217 | Accepts exactly a block not already in the chain. The chain becomes `AcceptBlock`, and an own vote is recorded only for an accepted block. |
| `Blockchain.BlockchainNode.OnBlockVote` | src/algorithms/blockchain.py:219-242 | Nothing changes when no block has the vote's height, or when the first such block's hash differs from the vote's. Otherwise the voter is recorded. Settlement happens exactly when the tally passes the finality test. The tally entry is dropped only when settlement does not raise. The chain is untouched and the invariant is preserved. |
| `TokenNetwork.EntryOf` | simulation/tokenNetwork/tokenSimulation.py:64 | A record lookup: the stored entry, or (0, 1000) for an address not yet seen. |
| `TokenNetwork.Received` | simulation/tokenNetwork/tokenSimulation.py:59-73 | The peer's record becomes (max(old tx_id, message tx_id), old amount - tokens), with default (0, 1000). The node's own record becomes (tx_id + 1, amount + tokens). For a peer other than the node, the two amounts' sum is conserved. No other address changes, and no tx_id decreases. |
| `TokenNetwork.Newer` | simulation/tokenNetwork/tokenSimulation.py:87 | The write test: true for an address absent from records, and otherwise exactly when the stored tx_id is strictly smaller than the record's. |
| `TokenNetwork.Absorb` | simulation/tokenNetwork/tokenSimulation.py:87-89 | One payload record is written exactly when its address is absent or holds a strictly smaller tx_id. The write stores the record's own (tx_id, amount). Only that address can change, and its tx_id never decreases. |
| `TokenNetwork.Merge` | simulation/tokenNetwork/tokenSimulation.py:85-89 | Stored tx_ids never decrease and no address disappears. Addresses not in the payload are unchanged. If nothing was written, nothing changed. If something was written, some address is new or holds a strictly larger tx_id. |
| `TokenNetwork.MergeStoresPayload` | simulation/tokenNetwork/tokenSimulation.py:86-89 | Every entry afterwards is either the old entry, or the exact (tx_id, amount) of some record of the payload for that address. No amount is invented. |
| `TokenNetwork.MergeCovers` | simulation/tokenNetwork/tokenSimulation.py:86-89 | Afterwards every payload address holds that record's tx_id or a larger one, also when the payload repeats an address. |
| `TokenNetwork.MergeWrittenIff` | simulation/tokenNetwork/tokenSimulation.py:85-91 | The `new_records` flag, which triggers re-gossip, is true if and only if the table changed. |
| `TokenNetwork.MergeCoveredIsNoop` | simulation/tokenNetwork/tokenSimulation.py:86-89 | A table that already holds, for every payload record, that tx_id or a larger one absorbs nothing. |
| `TokenNetwork.MergeIdempotent` | simulation/tokenNetwork/tokenSimulation.py:85-91 | Applying the same gossip a second time writes nothing and changes nothing. |
| `TokenNetwork.Spend` | simulation/tokenNetwork/tokenSimulation.py:97-108 | A send happens exactly when the drawn amount is at most the own amount. The own tx_id then rises by one and the amount falls by the drawn amount, staying non-negative. |
| `TokenNetwork.TransferKeepsViewsAgreed` | simulation/tokenNetwork/tokenSimulation.py:64-73 | Suppose the receiver's view of the sender's amount matched the sender's own amount. After a send and its receipt it still matches, and the receiver gains the tokens. The receiver's tx_id for the sender is then one behind the sender's own. |
| `TokenNetwork.TokenCommunity.constructor` | simulation/tokenNetwork/tokenSimulation.py:53 | A fresh node's records are exactly {own address: (0, 1000)}. |
| `TokenNetwork.TokenCommunity.OnReceiveTransfer` | simulation/tokenNetwork/tokenSimulation.py:58-77 | Records become `Received` of the old ones, and the handler returns the two records it gossips. |
| `TokenNetwork.TokenCommunity.OnReceiveBalance` | simulation/tokenNetwork/tokenSimulation.py:79-91 | The loop leaves records and the `new_records` flag as `Merge` of the old records. |
| `TokenNetwork.TokenCommunity.RandomTransfer` | simulation/tokenNetwork/tokenSimulation.py:93-108 | Nothing changes and nothing is sent without verified peers, or when the drawn amount exceeds the own amount. Otherwise the message carries the old tx_id and the drawn amount, and the own record becomes `Spend` of the old one. |

## Left out

- `select_leader` (`blockchain.py:120-127`)
  - It draws the leader with Python's seeded `random.choices`, which cannot be reproduced here.
  - The caller of `FormBlock` decides that this node leads.
- `start_validator`'s seeding of every validator's stake with 100 (`blockchain.py:95-103`): scheduling set-up, not handler logic.
- `on_start`, `start_client`, `create_transaction` and `send_stake` (`blockchain.py:68-118`): task scheduling, peer choice and nonce counting. The transactions they build arrive in the model as payloads.
- `ez_send`, `get_peers`, `get_validators` and every `print`/`logger` call: transport and logging.
  - The number of known validators is the parameter `validators`.
  - The voter id `node_id_from_peer(peer)` is the parameter `voter`.
  - A message a handler sends is its return value.
- `time.time()`: the parameter `now`.
- `sha256` and `default_serializer.pack` are foreign calls. Only equality of their results is used.
- QuorumsIntersect: its premise that every voter is one of the V + 1 validators is not something the code ensures. `on_block_vote` records the id of any peer that sends a vote (`blockchain.py:236`). Without that premise two passing tallies need not share a validator.
- ReachesQuorum: Python compares against a float. IEEE double rounding of `2 * (V + 1) / 3` is not modelled; the test is exact division.
- What the messaging library does with the `ValueError` from `list.remove` is not modelled. The model returns `FinalizeRaised` with the state at the raise.
- `gossip_balance` (`tokenSimulation.py:110-115`) picks `ceil(0.25 * n)` random peers. This network fan-out is not modelled, but the flag that decides whether it is called is.
- In `random_transfer`, `random.randint(1, 3)`, `random.choice` over verified peers and the size of `verified_peers` become the parameters `k`, `peer` and `hasPeers`.
- `TokenCommunity`'s threading lock and asynchronous dispatch: each handler is one atomic step.
- `BasicTokenSimulation`, `SimulatedToken` and the `__main__` harness in `tokenSimulation.py`: simulation driver.
- `src/algorithms/validator.py` and `src/algorithms/client.py` are not part of this model. They are gossip glue: `validator.py` imports a name the package does not define, and `client.py` uses the name `Gossip` without importing it.
- `src/algorithms/messages.py` holds message declarations and a hash wrapper only. It is not part of this model.

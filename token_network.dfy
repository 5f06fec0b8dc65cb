/**
 * The gossip balance table of simulation/tokenNetwork/tokenSimulation.py.
 * Each node keeps records: address -> (tx_id, amount), its own entry included.
 * Transfers debit the sender's view and credit the receiver; balance gossip is
 * merged last-writer-wins on strictly larger tx_id.
 */
module TokenNetwork {
  import opened Wrappers

  /** A peer's member id. */
  type Addr = seq<bv8>

  /** (tx_id, amount) */
  type Entry = (int, int)

  datatype Record = Record(address: Addr, txId: int, amount: int)

  datatype TransferMessage = TransferMessage(txId: int, tokens: int)

  /** Every node starts with this entry for itself, and assumes it for a peer it has no record of. */
  const InitialEntry: Entry := (0, 1000)

  function Max(a: int, b: int): int { if a >= b then a else b }

  function EntryOf(records: map<Addr, Entry>, a: Addr): (e: Entry)
    ensures a in records ==> e == records[a]
    ensures a !in records ==> e == InitialEntry
  {
    if a in records then records[a] else InitialEntry
  }

  // ---------------------------------------------------------------------------
  // Receiving a transfer
  // ---------------------------------------------------------------------------

  /** on_receive_transfer: records after peer sent msg to the node me. */
  function Received(records: map<Addr, Entry>, me: Addr, peer: Addr, msg: TransferMessage): (r: map<Addr, Entry>)
    requires me in records
    ensures r.Keys == records.Keys + {peer}
    ensures forall a :: a in records && a != me && a != peer ==> r[a] == records[a]
    ensures r[me].0 > records[me].0
    ensures forall a :: a in records ==> r[a].0 >= records[a].0
    ensures peer != me ==>
              r[peer] == (Max(EntryOf(records, peer).0, msg.txId), EntryOf(records, peer).1 - msg.tokens) &&
              r[me] == (records[me].0 + 1, records[me].1 + msg.tokens)
    ensures peer != me ==> r[peer].1 + r[me].1 == EntryOf(records, peer).1 + records[me].1
    ensures peer == me ==> r[me].1 == records[me].1
  {
    var (peerTxId, peerAmount) := EntryOf(records, peer);
    var withPeer := records[peer := (Max(peerTxId, msg.txId), peerAmount - msg.tokens)];
    var (myTxId, myAmount) := withPeer[me];
    withPeer[me := (myTxId + 1, myAmount + msg.tokens)]
  }

  // ---------------------------------------------------------------------------
  // Merging balance gossip
  // ---------------------------------------------------------------------------

  /** records after a merge, and whether any entry was written. */
  datatype Merged = Merged(records: map<Addr, Entry>, written: bool)

  /** The write test of on_receive_balance. */
  predicate Newer(records: map<Addr, Entry>, rec: Record): (n: bool)
    ensures rec.address !in records ==> n
    ensures rec.address in records ==> (n <==> records[rec.address].0 < rec.txId)
  {
    rec.address !in records || records[rec.address].0 < rec.txId
  }

  function Absorb(m: Merged, rec: Record): (r: Merged)
    ensures r.written == (m.written || Newer(m.records, rec))
    ensures forall a :: a in m.records ==> a in r.records && r.records[a].0 >= m.records[a].0
    ensures rec.address in r.records && r.records[rec.address].0 >= rec.txId
    ensures forall a :: a != rec.address ==>
              (a in r.records <==> a in m.records) && (a in m.records ==> r.records[a] == m.records[a])
    ensures !Newer(m.records, rec) ==> r.records == m.records
    ensures Newer(m.records, rec) ==>
              rec.address !in m.records || m.records[rec.address].0 < r.records[rec.address].0
    ensures Newer(m.records, rec) ==> r.records[rec.address] == (rec.txId, rec.amount)
  {
    if Newer(m.records, rec) then Merged(m.records[rec.address := (rec.txId, rec.amount)], true) else m
  }

  /** The addresses a payload mentions. */
  function Addresses(payload: seq<Record>): set<Addr>
    decreases |payload|
  {
    if payload == [] then {} else Addresses(payload[..|payload| - 1]) + {payload[|payload| - 1].address}
  }

  /** Some record of the payload carries exactly this (tx_id, amount) for address a. */
  predicate Stores(payload: seq<Record>, a: Addr, e: Entry) {
    exists i :: 0 <= i < |payload| && payload[i] == Record(a, e.0, e.1)
  }

  /** on_receive_balance: the records, in payload order, absorbed one at a time. */
  function Merge(records: map<Addr, Entry>, payload: seq<Record>): (r: Merged)
    decreases |payload|
    ensures forall a :: a in records ==> a in r.records && r.records[a].0 >= records[a].0
    ensures forall a :: a !in Addresses(payload) ==>
              (a in r.records <==> a in records) && (a in records ==> r.records[a] == records[a])
    ensures !r.written ==> r.records == records
    ensures r.written ==> exists a :: a in r.records && (a !in records || records[a].0 < r.records[a].0)
  {
    if payload == [] then Merged(records, false)
    else
      var init, last := payload[..|payload| - 1], payload[|payload| - 1];
      assert forall i :: 0 <= i < |init| ==> payload[i] == init[i];
      var prior := Merge(records, init);
      var r := Absorb(prior, last);
      assert r.written ==> exists a :: a in r.records && (a !in records || records[a].0 < r.records[a].0) by {
        if r.written && !prior.written {
          assert last.address in records ==> last.address in prior.records;
          assert last.address in r.records;
        }
      }
      r
  }

  /** Afterwards every payload address holds that record's tx_id or a larger one. */
  lemma {:induction false} MergeCovers(records: map<Addr, Entry>, payload: seq<Record>)
    ensures var r := Merge(records, payload).records;
            forall i :: 0 <= i < |payload| ==>
              payload[i].address in r && r[payload[i].address].0 >= payload[i].txId
    decreases |payload|
  {
    if payload != [] {
      var init, last := payload[..|payload| - 1], payload[|payload| - 1];
      MergeCovers(records, init);
      var prior := Merge(records, init);
      var r := Absorb(prior, last);
      assert Merge(records, payload) == r;
      forall i | 0 <= i < |payload|
        ensures payload[i].address in r.records && r.records[payload[i].address].0 >= payload[i].txId
      {
        if i < |init| {
          assert payload[i] == init[i];
          assert prior.records[init[i].address].0 >= init[i].txId;
        }
      }
    }
  }

  /**
   * Last writer wins: every entry afterwards is either the old entry or the
   * (tx_id, amount) of some record of the payload, never a made-up value.
   */
  lemma {:induction false} MergeStoresPayload(records: map<Addr, Entry>, payload: seq<Record>)
    ensures var r := Merge(records, payload).records;
            forall a :: a in r ==> (a in records && r[a] == records[a]) || Stores(payload, a, r[a])
    decreases |payload|
  {
    if payload != [] {
      var init, last := payload[..|payload| - 1], payload[|payload| - 1];
      MergeStoresPayload(records, init);
      var prior := Merge(records, init);
      var r := Absorb(prior, last);
      assert Merge(records, payload) == r;
      forall a | a in r.records && !(a in records && r.records[a] == records[a])
        ensures Stores(payload, a, r.records[a])
      {
        if a == last.address && Newer(prior.records, last) {
          assert payload[|payload| - 1] == Record(a, r.records[a].0, r.records[a].1);
        } else {
          assert r.records[a] == prior.records[a];
          var i :| 0 <= i < |init| && init[i] == Record(a, r.records[a].0, r.records[a].1);
          assert payload[i] == init[i];
        }
      }
    }
  }

  /** new_records is true exactly when the table changed. */
  lemma MergeWrittenIff(records: map<Addr, Entry>, payload: seq<Record>)
    ensures Merge(records, payload).written <==> Merge(records, payload).records != records
  {
  }

  /** A table that already holds every payload tx_id or a larger one absorbs nothing. */
  lemma {:induction false} MergeCoveredIsNoop(records: map<Addr, Entry>, payload: seq<Record>)
    requires forall i :: 0 <= i < |payload| ==>
               payload[i].address in records && records[payload[i].address].0 >= payload[i].txId
    ensures Merge(records, payload) == Merged(records, false)
    decreases |payload|
  {
    if payload != [] {
      MergeCoveredIsNoop(records, payload[..|payload| - 1]);
    }
  }

  /** Applying the same gossip twice: the second time writes nothing and changes nothing. */
  lemma MergeIdempotent(records: map<Addr, Entry>, payload: seq<Record>)
    ensures var once := Merge(records, payload).records;
            Merge(once, payload) == Merged(once, false)
  {
    MergeCovers(records, payload);
    MergeCoveredIsNoop(Merge(records, payload).records, payload);
  }

  // ---------------------------------------------------------------------------
  // Sending a transfer
  // ---------------------------------------------------------------------------

  /** random_transfer with the drawn amount k: the own entry after sending, or None when funds are short. */
  function Spend(own: Entry, k: int): (r: Option<Entry>)
    ensures r.Some? <==> k <= own.1
    ensures r.Some? ==> r.value.0 == own.0 + 1 && r.value.1 + k == own.1
    ensures r.Some? && 0 <= k ==> 0 <= r.value.1 <= own.1
  {
    if k > own.1 then None else Some((own.0 + 1, own.1 - k))
  }

  /**
   * A transfer of k from a to b: if b's view of a's amount agreed with a's own
   * entry before, it agrees afterwards and b gains k; b's tx_id for a is then
   * exactly one behind a's own, since the message carries a's tx_id from before.
   */
  lemma TransferKeepsViewsAgreed(aOwn: Entry, k: int, bRecords: map<Addr, Entry>, a: Addr, b: Addr)
    requires b in bRecords && a != b
    requires Spend(aOwn, k).Some?
    requires EntryOf(bRecords, a).1 == aOwn.1
    requires EntryOf(bRecords, a).0 <= aOwn.0
    ensures var after := Received(bRecords, b, a, TransferMessage(aOwn.0, k));
            var aNew := Spend(aOwn, k).value;
            after[a].1 == aNew.1 && after[b].1 == bRecords[b].1 + k && after[a].0 + 1 == aNew.0
  {
  }

  // ---------------------------------------------------------------------------
  // The node
  // ---------------------------------------------------------------------------

  class TokenCommunity {
    const me: Addr
    var records: map<Addr, Entry>

    /** The node always has an entry for itself. */
    ghost predicate Valid()
      reads this
    {
      me in records
    }

    constructor (me: Addr)
      ensures Valid()
      ensures this.me == me && records == map[me := InitialEntry]
    {
      this.me := me;
      records := map[me := InitialEntry];
    }

    /** on_receive_transfer from peer; update is the pair of records it gossips. */
    method OnReceiveTransfer(peer: Addr, msg: TransferMessage) returns (update: seq<Record>)
      requires Valid()
      modifies this
      ensures Valid()
      ensures records == Received(old(records), me, peer, msg)
      ensures var (peerTxId, peerAmount) := EntryOf(old(records), peer);
              update == [Record(peer, Max(peerTxId, msg.txId), peerAmount - msg.tokens),
                         Record(me, records[me].0, records[me].1)]
    {
      var (peerTxId, peerAmount) := EntryOf(records, peer);
      var newPeerTxId := Max(peerTxId, msg.txId);
      var newPeerAmount := peerAmount - msg.tokens;
      records := records[peer := (newPeerTxId, newPeerAmount)];
      var (myTxId, myAmount) := records[me];
      var newMyTxId := myTxId + 1;
      var newMyAmount := myAmount + msg.tokens;
      records := records[me := (newMyTxId, newMyAmount)];
      update := [Record(peer, newPeerTxId, newPeerAmount), Record(me, newMyTxId, newMyAmount)];
    }

    /** on_receive_balance; the payload is gossiped on exactly when newRecords is true. */
    method OnReceiveBalance(payload: seq<Record>) returns (newRecords: bool)
      requires Valid()
      modifies this
      ensures Valid()
      ensures Merged(records, newRecords) == Merge(old(records), payload)
    {
      newRecords := false;
      var i := 0;
      while i < |payload|
        invariant 0 <= i <= |payload|
        invariant Merge(old(records), payload[..i]) == Merged(records, newRecords)
      {
        var rec := payload[i];
        assert payload[..i + 1][..i] == payload[..i];
        if rec.address !in records || records[rec.address].0 < rec.txId {
          newRecords := true;
          records := records[rec.address := (rec.txId, rec.amount)];
        }
        i := i + 1;
      }
      assert payload[..|payload|] == payload;
    }

    /**
     * random_transfer with the drawn amount k and chosen peer; hasPeers says
     * whether any verified peer is known. sent is the message handed to the peer.
     */
    method RandomTransfer(hasPeers: bool, k: int, peer: Addr) returns (sent: Option<(Addr, TransferMessage)>)
      requires Valid()
      requires 1 <= k <= 3
      modifies this
      ensures Valid()
      ensures !hasPeers ==> sent.None? && records == old(records)
      ensures hasPeers ==> match Spend(old(records)[me], k)
        case None => sent.None? && records == old(records)
        case Some(own) =>
          sent == Some((peer, TransferMessage(old(records)[me].0, k))) && records == old(records)[me := own]
    {
      if !hasPeers {
        return None;
      }
      var (txId, amount) := records[me];
      if k > amount {
        return None;
      }
      sent := Some((peer, TransferMessage(txId, k)));
      records := records[me := (txId + 1, amount - k)];
    }
  }
}

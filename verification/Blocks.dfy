/** Content-addressed blocks and a node that may follow any fork at any moment. */
module Blocks {
  import opened Journal

  datatype Tx = Tx(hash: Hash, from: Address, nonce: nat)

  datatype Block = Block(number: nat, parent: Hash, txs: seq<Tx>)

  /** A block hash determines the block's number, parent and transactions. */
  type Chain = Hash -> Block

  datatype Served = Unavailable | Served(hash: Hash, block: Block)

  datatype ReceiptReply = ReceiptMissing | ReceiptError | Receipt(hash: Hash, block: Anchor, succeeded: bool)

  datatype AnchorCheck = Same | Changed(observed: Anchor) | Unreadable

  predicate Matches(tx: Tx, signer: Address, nonce: nat) {
    tx.from == signer && tx.nonce == nonce
  }

  predicate Spends(block: Block, signer: Address, nonce: nat) {
    exists k :: 0 <= k < |block.txs| && Matches(block.txs[k], signer, nonce)
  }

  function ParentOf(chain: Chain, a: Anchor): Anchor
    requires a.number > 0
  {
    Anchor(a.number - 1, chain(a.hash).parent)
  }

  /** Walking parent links from `tip` back to `base` meets no transaction of the
      signer with this nonce; `base` itself is not examined. */
  ghost predicate Clear(chain: Chain, signer: Address, nonce: nat, base: Anchor, tip: Anchor)
    decreases tip.number
  {
    tip == base || (
      && tip.number > base.number
      && chain(tip.hash).number == tip.number
      && !Spends(chain(tip.hash), signer, nonce)
      && Clear(chain, signer, nonce, base, ParentOf(chain, tip)))
  }

  /** `block` is linked to `base` by clear blocks and is the first to spend the
      nonce, in exactly one transaction. */
  ghost predicate FirstSpend(chain: Chain, signer: Address, nonce: nat, base: Anchor, block: Anchor, hash: Hash) {
    && block.number > base.number
    && chain(block.hash).number == block.number
    && Clear(chain, signer, nonce, base, ParentOf(chain, block))
    && OnlySpend(chain(block.hash), signer, nonce, hash)
  }

  ghost predicate OnlySpend(block: Block, signer: Address, nonce: nat, hash: Hash) {
    exists k :: 0 <= k < |block.txs| && block.txs[k] == Tx(hash, signer, nonce)
      && forall l :: 0 <= l < |block.txs| && Matches(block.txs[l], signer, nonce) ==> l == k
  }

  lemma {:induction false} ClearJoins(chain: Chain, signer: Address, nonce: nat, a: Anchor, b: Anchor, c: Anchor)
    requires Clear(chain, signer, nonce, a, b) && Clear(chain, signer, nonce, b, c)
    ensures Clear(chain, signer, nonce, a, c)
    decreases c.number
  {
    if c != b {
      ClearJoins(chain, signer, nonce, a, b, ParentOf(chain, c));
    }
  }

  /** The account rule of the Ethereum Yellow Paper, section 6: a transaction is
      valid only at the sender's current nonce, so a block that moves the
      signer's count spends every nonce in between. */
  ghost predicate NonceRule(chain: Chain, signer: Address, count: Hash -> nat) {
    forall h: Hash, n: nat :: count(chain(h).parent) <= n < count(h) ==> Spends(chain(h), signer, n)
  }

  /** Clear ancestry cannot move the count past the nonce. */
  lemma {:induction false} ClearKeepsCount(chain: Chain, signer: Address, count: Hash -> nat, nonce: nat, base: Anchor, tip: Anchor)
    requires NonceRule(chain, signer, count) && Clear(chain, signer, nonce, base, tip)
    requires count(base.hash) <= nonce
    ensures count(tip.hash) <= nonce
    decreases tip.number
  {
    if tip != base {
      ClearKeepsCount(chain, signer, count, nonce, base, ParentOf(chain, tip));
      assert chain(tip.hash).parent == ParentOf(chain, tip).hash;
    }
  }

  /** A JSON-RPC node and all it would ever answer: the block it shows at a number, a
      transaction's receipt, and the signer's count at a number or at its
      head, with or without pending transactions, each at every moment.
      All of it is arbitrary, except that a block's content is the one its hash commits
      to, and only the calls below consult it. A call made at the moment `since` is answered then or later. */
  class Rpc {
    const chain: Chain
    const shown: (nat, nat) -> Option<Hash>
    const receipts: (Hash, nat) -> ReceiptReply
    const counts: (nat, nat) -> Option<nat>
    const live: (bool, nat) -> Option<nat>

    constructor (chain: Chain, shown: (nat, nat) -> Option<Hash>, receipts: (Hash, nat) -> ReceiptReply,
                 counts: (nat, nat) -> Option<nat>, live: (bool, nat) -> Option<nat>)
      ensures this.chain == chain && this.shown == shown && this.receipts == receipts && this.counts == counts && this.live == live
    {
      this.chain, this.shown, this.receipts, this.counts, this.live := chain, shown, receipts, counts, live;
    }

    /** The node shows this very block at the block's own number. */
    predicate ShownAt(a: Anchor, at: nat) {
      shown(a.number, at) == Some(a.hash) && chain(a.hash).number == a.number
    }

    /** It does so at some moment from `since` on. */
    ghost predicate ShownSince(a: Anchor, since: nat) {
      exists at :: at >= since && ShownAt(a, at)
    }

    method GetBlock(number: nat, since: nat) returns (r: Served, at: nat)
      ensures at >= since
      ensures r.Served? ==> r.block == chain(r.hash) && shown(number, at) == Some(r.hash)
    {
      at :| at >= since;
      r := match shown(number, at) case None => Unavailable case Some(h) => Served(h, chain(h));
    }

    method GetReceipt(hash: Hash, since: nat) returns (r: ReceiptReply, at: nat)
      ensures at >= since && r == receipts(hash, at)
    {
      at :| at >= since;
      r := receipts(hash, at);
    }

    method GetTransactionCount(number: nat, since: nat) returns (r: Option<nat>, at: nat)
      ensures at >= since && r == counts(number, at)
    {
      at :| at >= since;
      r := counts(number, at);
    }

    method GetLiveCount(pending: bool, since: nat) returns (r: Option<nat>, at: nat)
      ensures at >= since && r == live(pending, at)
    {
      at :| at >= since;
      r := live(pending, at);
    }

    method GetAnchor(number: nat, since: nat) returns (r: Option<Anchor>, at: nat)
      ensures at >= since
      ensures r.Some? ==> r.value.number == number && ShownAt(r.value, at)
    {
      var served;
      served, at := GetBlock(number, since);
      if served.Unavailable? || served.block.number != number { return None, at; }
      return Some(Anchor(number, served.hash)), at;
    }

    method CheckAnchor(expected: Anchor, since: nat) returns (r: AnchorCheck, at: nat)
      ensures at >= since
      ensures r.Same? ==> ShownAt(expected, at)
      ensures r.Changed? ==> r.observed.number == expected.number && r.observed != expected && ShownAt(r.observed, at)
    {
      var observed;
      observed, at := GetAnchor(expected.number, since);
      if observed.None? { return Unreadable, at; }
      return if observed.value == expected then Same else Changed(observed.value), at;
    }
  }
}

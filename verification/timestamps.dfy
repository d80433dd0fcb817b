/** Epoch timestamps and the visibility order on them.

    A stamp is a signed 64-bit number.  A non-negative stamp is a commit epoch, the
    negated id of a transaction marks a write that transaction has not committed, and
    the largest value means "never" (or "rolled back"). */
module Timestamps {
  type TxnId = int

  const TOMBSTONE := 0x7FFF_FFFF_FFFF_FFFF
  const RO_TRANSACTION := TOMBSTONE - 1

  /** The last epoch a reader can use: every committed stamp lies at or below it. */
  const LAST_EPOCH := TOMBSTONE - 1

  /** Three-way comparison of a stamp with epoch `y`, as transaction `local` sees it. */
  function Cmp(x: int, y: int, local: TxnId): int {
    if -x == local then 0
    else if x < 0 then 1
    else if x < y then -1
    else if x == y then 0
    else 1
  }

  /** The same comparison without a local transaction, as compaction uses it. */
  function CmpNoLocal(x: int, y: int): int {
    if x < 0 then 1
    else if x < y then -1
    else if x == y then 0
    else 1
  }

  /** The stamp has taken effect for a reader of transaction `local` at epoch `y`. */
  predicate Reached(x: int, y: int, local: TxnId) {
    Cmp(x, y, local) <= 0
  }

  lemma ReachedMeaning(x: int, y: int, local: TxnId)
    requires 0 < local
    ensures Reached(x, y, local) <==> x == -local || 0 <= x <= y
    ensures CmpNoLocal(x, y) < 0 <==> 0 <= x < y
    ensures CmpNoLocal(x, y) > 0 <==> x < 0 || y < x
  {
  }
}

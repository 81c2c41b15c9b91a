/** What a channel's log carries, and what folding it over a pool leaves. */
module Logs {
  import opened Bytes
  import opened Crypto
  import opened Transaction
  import opened Chain
  import opened Protocol

  function BlockOf(m: Msg): seq<Block> {
    match m case NewBlock(b) => [b] case _ => []
  }

  function TxOf(m: Msg): seq<SignedTx> {
    match m case TxAnnounce(tx) => [tx] case _ => []
  }

  /** The blocks delivered by a log, in order. */
  function Delivered(log: seq<Msg>): seq<Block> {
    if log == [] then [] else Delivered(log[..|log| - 1]) + BlockOf(log[|log| - 1])
  }

  /** The transactions announced by a log, in order. */
  function Announced(log: seq<Msg>): seq<SignedTx> {
    if log == [] then [] else Announced(log[..|log| - 1]) + TxOf(log[|log| - 1])
  }

  lemma AppendOne(log: seq<Msg>, m: Msg)
    ensures Delivered(log + [m]) == Delivered(log) + BlockOf(m)
    ensures Announced(log + [m]) == Announced(log) + TxOf(m)
  {
    assert (log + [m])[..|log|] == log;
  }

  lemma {:induction false} DeliveredPrefix(log: seq<Msg>, k: nat)
    requires k <= |log|
    ensures Delivered(log[..k]) <= Delivered(log)
    ensures Announced(log[..k]) <= Announced(log)
    decreases |log|
  {
    if k < |log| {
      var front := log[..|log| - 1];
      DeliveredPrefix(front, k);
      assert front[..k] == log[..k];
    } else {
      assert log[..k] == log;
    }
  }

  /** Reading one more message. */
  lemma ReadOne(log: seq<Msg>, k: nat, read: seq<Msg>)
    requires k < |log| && read == log[..k]
    ensures log[..k + 1] == read + [log[k]]
    ensures Delivered(log[..k + 1]) == Delivered(read) + BlockOf(log[k])
    ensures Announced(log[..k + 1]) == Announced(read) + TxOf(log[k])
  {
    assert log[..k + 1] == read + [log[k]];
    AppendOne(read, log[k]);
  }

  // ---- Subsequences ----

  /** `a` is what remains of `b` after leaving entries out. */
  ghost predicate IsSubsequence(a: seq<SignedTx>, b: seq<SignedTx>)
    decreases |b|
  {
    if a == [] then true
    else if b == [] then false
    else
      || (a[|a| - 1] == b[|b| - 1] && IsSubsequence(a[..|a| - 1], b[..|b| - 1]))
      || IsSubsequence(a, b[..|b| - 1])
  }

  lemma SubsequenceExtends(a: seq<SignedTx>, b: seq<SignedTx>, x: SignedTx)
    requires IsSubsequence(a, b)
    ensures IsSubsequence(a, b + [x])
    ensures IsSubsequence(a + [x], b + [x])
  {
    assert (a + [x])[..|a|] == a && (b + [x])[..|b|] == b;
  }

  lemma {:induction false} SubsequenceHas(a: seq<SignedTx>, b: seq<SignedTx>, x: SignedTx)
    requires IsSubsequence(a, b) && x in a
    ensures x in b
    decreases |b|
  {
    var a', b' := a[..|a| - 1], b[..|b| - 1];
    if a[|a| - 1] == b[|b| - 1] && IsSubsequence(a', b') {
      if x != a[|a| - 1] {
        SubsequenceHas(a', b', x);
        assert x in b';
      }
    } else {
      SubsequenceHas(a, b', x);
      assert x in b';
    }
  }

  /** Per sender, nonces never go down. */
  ghost predicate NonceSorted(txs: seq<SignedTx>) {
    forall i, j :: 0 <= i < j < |txs| && txs[i].fromPubkeyB64 == txs[j].fromPubkeyB64 ==>
      txs[i].nonce <= txs[j].nonce
  }

  lemma {:induction false} SubsequenceSorted(a: seq<SignedTx>, b: seq<SignedTx>)
    requires IsSubsequence(a, b) && NonceSorted(b)
    ensures NonceSorted(a)
    decreases |b|
  {
    if a != [] {
      var a', b' := a[..|a| - 1], b[..|b| - 1];
      assert NonceSorted(b');
      if a[|a| - 1] == b[|b| - 1] && IsSubsequence(a', b') {
        SubsequenceSorted(a', b');
        forall i | 0 <= i < |a'| && a[i].fromPubkeyB64 == a[|a'|].fromPubkeyB64
          ensures a[i].nonce <= a[|a'|].nonce
        {
          assert a[i] == a'[i];
          SubsequenceHas(a', b', a'[i]);
          var k :| 0 <= k < |b'| && b'[k] == a'[i];
          assert b[k] == b'[k];
        }
        forall i, j | 0 <= i < j < |a'| && a[i].fromPubkeyB64 == a[j].fromPubkeyB64
          ensures a[i].nonce <= a[j].nonce
        {
          assert a[i] == a'[i] && a[j] == a'[j];
        }
      } else {
        SubsequenceSorted(a, b');
      }
    }
  }

  // ---- Folding pending messages over a pool's ids ----

  /** An announcement adds an id, a block removes its ids. */
  function FoldOne(e: Env, ids: set<Text>, m: Msg): set<Text> {
    match m
    case TxAnnounce(tx) => ids + {TxId(e, tx)}
    case NewBlock(b) => ids - IdSet(e, b.txs)
    case _ => ids
  }

  /** The ids left in a pool once all of `msgs` have been processed. */
  function Fold(e: Env, ids: set<Text>, msgs: seq<Msg>): set<Text> {
    if msgs == [] then ids else FoldOne(e, Fold(e, ids, msgs[..|msgs| - 1]), msgs[|msgs| - 1])
  }

  lemma FoldAppend(e: Env, ids: set<Text>, msgs: seq<Msg>, m: Msg)
    ensures Fold(e, ids, msgs + [m]) == FoldOne(e, Fold(e, ids, msgs), m)
  {
    assert (msgs + [m])[..|msgs|] == msgs;
  }

  lemma {:induction false} FoldMonotone(e: Env, small: set<Text>, large: set<Text>, msgs: seq<Msg>)
    requires small <= large
    ensures Fold(e, small, msgs) <= Fold(e, large, msgs)
  {
    if msgs != [] {
      FoldMonotone(e, small, large, msgs[..|msgs| - 1]);
    }
  }

  lemma {:induction false} FoldHead(e: Env, ids: set<Text>, msgs: seq<Msg>)
    requires msgs != []
    ensures Fold(e, ids, msgs) == Fold(e, FoldOne(e, ids, msgs[0]), msgs[1..])
  {
    if |msgs| == 1 {
      assert msgs == [] + [msgs[0]];
      FoldAppend(e, ids, [], msgs[0]);
    } else {
      var front, last := msgs[..|msgs| - 1], msgs[|msgs| - 1];
      FoldHead(e, ids, front);
      assert msgs[1..] == front[1..] + [last];
      FoldAppend(e, FoldOne(e, ids, msgs[0]), front[1..], last);
    }
  }

  /** Folding the rest over what the front left is folding the whole. */
  lemma {:induction false} FoldSplit(e: Env, ids: set<Text>, log: seq<Msg>, k: nat)
    requires k <= |log|
    ensures Fold(e, Fold(e, ids, log[..k]), log[k..]) == Fold(e, ids, log)
    decreases |log| - k
  {
    if k == |log| {
      assert log[..k] == log;
    } else {
      assert log[..k + 1] == log[..k] + [log[k]];
      FoldAppend(e, ids, log[..k], log[k]);
      FoldHead(e, Fold(e, ids, log[..k]), log[k..]);
      assert log[k..][1..] == log[k + 1..];
      FoldSplit(e, ids, log, k + 1);
    }
  }
}

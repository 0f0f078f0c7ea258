/**
 The hash chain under both the action journal and the audit ledger.  A digest is an injective
 constructor over the entry it covers, so it holds the whole history that precedes it.
 */
module HashChain {
  datatype Digest<B> = Genesis | Link(sequence: nat, body: B, previous: Digest<B>)

  datatype Entry<B> = Entry(sequence: nat, body: B, previous: Digest<B>, digest: Digest<B>)

  // The digest that entry i is chained to.
  function Before<B>(log: seq<Entry<B>>, i: nat): Digest<B>
    requires i <= |log|
  {
    if i == 0 then Genesis else log[i - 1].digest
  }

  function Head<B>(log: seq<Entry<B>>): Digest<B> {
    Before(log, |log|)
  }

  predicate LinkOk<B(==)>(log: seq<Entry<B>>, i: nat)
    requires i < |log|
  {
    && log[i].previous == Before(log, i)
    && log[i].digest == Link(log[i].sequence, log[i].body, Before(log, i))
  }

  /** What both verify() loops check of the chain. */
  predicate ChainOk<B(==)>(log: seq<Entry<B>>) {
    forall i :: 0 <= i < |log| ==> LinkOk(log, i)
  }

  function Append<B>(log: seq<Entry<B>>, sequence: nat, body: B): seq<Entry<B>> {
    log + [Entry(sequence, body, Head(log), Link(sequence, body, Head(log)))]
  }

  /** Appending keeps the chain intact, and only an intact log can grow into an intact one. */
  lemma {:induction false} AppendKeepsChain<B>(log: seq<Entry<B>>, sequence: nat, body: B)
    ensures ChainOk(Append(log, sequence, body)) <==> ChainOk(log)
  {
    var longer := Append(log, sequence, body);
    assert forall i :: 0 <= i <= |log| ==> Before(longer, i) == Before(log, i);
    assert forall i :: 0 <= i < |log| ==> (LinkOk(longer, i) <==> LinkOk(log, i));
    assert LinkOk(longer, |log|);
  }

  function Depth<B>(d: Digest<B>): nat {
    match d
    case Genesis => 0
    case Link(_, _, p) => 1 + Depth(p)
  }

  lemma {:induction false} DigestDepth<B>(log: seq<Entry<B>>, i: nat)
    requires ChainOk(log) && i <= |log|
    ensures Depth(Before(log, i)) == i
  {
    if i > 0 {
      DigestDepth(log, i - 1);
      assert LinkOk(log, i - 1);
    }
  }

  /** No two positions of an intact log carry the same digest. */
  lemma {:induction false} DigestsDistinct<B>(log: seq<Entry<B>>, i: nat, j: nat)
    requires ChainOk(log) && i < |log| && j < |log|
    requires log[i].digest == log[j].digest
    ensures i == j
  {
    DigestDepth(log, i + 1);
    DigestDepth(log, j + 1);
  }

  /** The last digest binds the whole history: two intact logs that end alike are equal entry by entry. */
  lemma {:induction false} HeadBindsHistory<B>(a: seq<Entry<B>>, b: seq<Entry<B>>)
    requires ChainOk(a) && ChainOk(b)
    requires Head(a) == Head(b)
    ensures a == b
    decreases |a|
  {
    DigestDepth(a, |a|);
    DigestDepth(b, |b|);
    if a != [] {
      var n := |a| - 1;
      assert LinkOk(a, n) && LinkOk(b, n);
      PrefixChain(a, n);
      PrefixChain(b, n);
      HeadBindsHistory(a[..n], b[..n]);
      assert a == a[..n] + [a[n]] && b == b[..n] + [b[n]];
    }
  }

  lemma {:induction false} PrefixChain<B>(log: seq<Entry<B>>, n: nat)
    requires ChainOk(log) && n <= |log|
    ensures ChainOk(log[..n]) && Head(log[..n]) == Before(log, n)
  {
    assert forall i :: 0 <= i < n ==> LinkOk(log, i) ==> LinkOk(log[..n], i);
  }

  /** An edit that keeps the length and the last digest of an intact log breaks its chain. */
  lemma TamperingIsVisible<B>(log: seq<Entry<B>>, edited: seq<Entry<B>>)
    requires ChainOk(log) && edited != log
    requires Head(edited) == Head(log)
    ensures !ChainOk(edited)
  {
    if ChainOk(edited) { HeadBindsHistory(log, edited); }
  }
}

/**
 The accounts of a queue that two threads work on: what has been put, what has been taken, what is there;
 and what of it one thread's call can tell when the other thread has been running.
 */
module Accounting {
  /** a is what is left of b after some of its oldest elements are gone. */
  predicate Remains<T(==)>(a: seq<T>, b: seq<T>) {
    |a| <= |b| && forall i | 0 <= i < |a| :: a[i] == b[|b| - |a| + i]
  }

  lemma RemainsTrans<T>(a: seq<T>, b: seq<T>, c: seq<T>)
    requires Remains(a, b) && Remains(b, c)
    ensures Remains(a, c)
  {
  }

  lemma RemainsAppend<T>(a: seq<T>, b: seq<T>, v: T)
    requires Remains(a, b)
    ensures Remains(a + [v], b + [v])
  {
  }

  lemma RemainsAppendAll<T>(a: seq<T>, b: seq<T>, more: seq<T>)
    requires Remains(a, b)
    ensures Remains(a + more, b + more)
  {
  }

  /**
   What has been put is what has been taken and then q. (Quantified so that the verifier looks inside only
   where `AccountsAre` is mentioned.)
   */
  ghost predicate Accounts<T>(put: seq<T>, taken: seq<T>, q: seq<T>) {
    forall x | x == q :: AccountsAre(put, taken, x)
  }

  ghost predicate AccountsAre<T>(put: seq<T>, taken: seq<T>, q: seq<T>) {
    put == taken + q
  }

  lemma AccountsPut<T>(put: seq<T>, taken: seq<T>, q: seq<T>, more: seq<T>)
    requires Accounts(put, taken, q)
    ensures Accounts(put + more, taken, q + more)
  {
    assert AccountsAre(put, taken, q);
    assert put + more == taken + (q + more);
  }

  lemma AccountsTaken<T>(put: seq<T>, taken: seq<T>, q: seq<T>, gone: seq<T>)
    requires Accounts(put, taken, gone + q)
    ensures Accounts(put, taken + gone, q)
  {
    assert AccountsAre(put, taken, gone + q);
    assert taken + (gone + q) == taken + gone + q;
  }

  /** Every value ever put, every value ever taken, and the contents. */
  datatype Books<T> = Books(put: seq<T>, taken: seq<T>, q: seq<T>)

  /** From a to b exactly `ins` was put and exactly `outs` was taken, and the contents are what that leaves. */
  ghost predicate Exchanged<T>(a: Books<T>, b: Books<T>, ins: seq<T>, outs: seq<T>) {
    b.put == a.put + ins && b.taken == a.taken + outs && a.q + ins == outs + b.q
  }

  /** When nothing but `ins` was put, what was taken is what is missing. */
  lemma WhatWent<T>(a: Books<T>, b: Books<T>, ins: seq<T>) returns (gone: seq<T>)
    requires Accounts(a.put, a.taken, a.q) && Accounts(b.put, b.taken, b.q)
    requires b.put == a.put + ins && Remains(b.q, a.q + ins)
    ensures Exchanged(a, b, ins, gone)
  {
    assert AccountsAre(a.put, a.taken, a.q) && AccountsAre(b.put, b.taken, b.q);
    var all := a.q + ins;
    gone := all[..|all| - |b.q|];
    assert all == gone + b.q;
    assert b.taken + b.q == (a.taken + gone) + b.q;
    assert b.taken == (b.taken + b.q)[..|b.taken|];
    assert a.taken + gone == ((a.taken + gone) + b.q)[..|b.taken|];
  }

  /** When nothing but `outs` was taken, what was put is what is new. */
  lemma WhatCame<T>(a: Books<T>, b: Books<T>, outs: seq<T>) returns (came: seq<T>)
    requires Accounts(a.put, a.taken, a.q) && Accounts(b.put, b.taken, b.q)
    requires b.taken == a.taken + outs && a.q <= outs + b.q
    ensures Exchanged(a, b, came, outs)
  {
    assert AccountsAre(a.put, a.taken, a.q) && AccountsAre(b.put, b.taken, b.q);
    came := (outs + b.q)[|a.q|..];
    assert a.q + came == outs + b.q;
    assert b.put == a.taken + (outs + b.q);
    assert a.put + came == a.taken + (a.q + came);
  }
}

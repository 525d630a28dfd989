/** Notions shared by the components. */
module Basics {

  datatype Option<+T> = None | Some(value: T)

  /** What ::poll answers. HangUp stands for POLLHUP, POLLERR and POLLNVAL, for those who look at them. */
  datatype PollResult = Ready | PollTimedOut | PollInterrupted | PollFailed | HangUp

  type byte = b: int | 0 <= b < 256

  /** The list without any occurrence of `x`, in order. */
  function Erased<T(==, !new)>(list: seq<T>, x: T): (kept: seq<T>)
    ensures forall y :: y in kept <==> y in list && y != x
  {
    if list == [] then []
    else
      var last := list[|list| - 1];
      assert list == list[..|list| - 1] + [last];
      Erased(list[..|list| - 1], x) + (if last == x then [] else [last])
  }

  /** However many threads are busy, there is another one. */
  lemma {:induction false} SomeoneElse(busy: set<nat>) returns (t: nat)
    ensures forall u | u in busy :: u < t
  {
    t := 0;
    if busy != {} {
      var u :| u in busy;
      var t' := SomeoneElse(busy - {u});
      t := if t' > u then t' else u + 1;
      forall v | v in busy ensures v < t {
        assert v == u || v in busy - {u};
      }
    }
  }

  lemma Regroup<T>(x: seq<T>, y: seq<T>, z: seq<T>)
    ensures x + (y + z) == (x + y) + z
  {
  }

  /** A prefix of `f` has been appended; one more piece makes it a longer prefix. */
  lemma OneMorePiece<T>(before: seq<T>, f: seq<T>, done: nat, count: nat)
    requires done + count <= |f|
    ensures (before + f[..done]) + f[done..done + count] == before + f[..done + count]
  {
    assert f[..done] + f[done..done + count] == f[..done + count];
    Regroup(before, f[..done], f[done..done + count]);
  }

  lemma OneMoreSlice<T>(s: seq<T>, a: nat, b: nat, n: nat)
    requires a <= b && b + n <= |s|
    ensures s[a..b] + s[b..b + n] == s[a..b + n]
  {
  }

  function Least(a: nat, b: nat): nat {
    if a <= b then a else b
  }
}

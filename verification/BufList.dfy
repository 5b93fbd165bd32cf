/** The buffers of A.ide/include/buf.h and the circular list A.ide/src/bio.c threads through them. */
module BufList {
  import opened FsFormat

  /** The device number of a buffer that never held a block. */
  const NODEV: nat := 0xFFFF_FFFF

  class Buf {
    var busy: bool
    var valid: bool
    var dirty: bool
    var dev: nat
    var blockno: nat
    var prev: Buf?
    var next: Buf?
    var qnext: Buf?
    var data: Block

    /** Zeroed memory. */
    constructor ()
      ensures !busy && !valid && !dirty && dev == 0 && blockno == 0 && prev == null && next == null && qnext == null
    {
      busy, valid, dirty, dev, blockno := false, false, false, 0, 0;
      prev, next, qnext, data := null, null, null, ZeroBlock();
    }
  }

  /** No buffer twice. */
  ghost predicate NoRepeats(s: seq<Buf>) {
    forall i, j :: 0 <= i < j < |s| ==> s[i] != s[j]
  }

  function After(i: nat, n: nat): nat { if i + 1 == n then 0 else i + 1 }

  /** The buffers of s, in that order, are one circle: next and prev are each other's inverse. */
  ghost predicate Ring(s: seq<Buf>)
    reads s`prev, s`next
  {
    && s != [] && NoRepeats(s)
    && (forall i :: 0 <= i < |s| ==> s[i].next == s[After(i, |s|)])
    && (forall i :: 0 <= i < |s| ==> s[After(i, |s|)].prev == s[i])
  }

  function Without<T>(s: seq<T>, k: nat): seq<T>
    requires k < |s|
  {
    s[..k] + s[k + 1..]
  }

  /** Takes b out of its circle. */
  method Unlink(b: Buf, ghost s: seq<Buf>, ghost k: nat)
    requires Ring(s) && 0 < k < |s| && s[k] == b
    modifies s`prev, s`next
    ensures Ring(Without(s, k))
  {
    assert b.next == s[After(k, |s|)];
    assert s[After(k - 1, |s|)].prev == s[k - 1];
    b.next.prev := b.prev;
    b.prev.next := b.next;
    ghost var t := Without(s, k);
    forall i | 0 <= i < |t| ensures t[i].next == t[After(i, |t|)] && t[After(i, |t|)].prev == t[i] {
    }
  }

  /** Puts b right after the head of a circle. */
  method LinkFront(b: Buf, head: Buf, ghost s: seq<Buf>)
    requires Ring(s) && s[0] == head && b !in s
    modifies s`prev, s`next, b`prev, b`next
    ensures Ring([head, b] + s[1..])
  {
    assert head.next == s[After(0, |s|)];
    b.next := head.next;
    b.prev := head;
    head.next.prev := b;
    head.next := b;
    ghost var t := [head, b] + s[1..];
    forall i | 0 <= i < |t| ensures t[i].next == t[After(i, |t|)] && t[After(i, |t|)].prev == t[i] {
    }
  }
}

/** The linked-list byte buffer of third/ssh/buffer.go between a channel's packets and its readers. */
module Buffer {
  import opened Bytes

  /** One link; buf shrinks as it is read. */
  class Element {
    var buf: seq<byte>
    var next: Element?

    constructor (buf: seq<byte>)
      ensures this.buf == buf && next == null
    {
      this.buf, this.next := buf, null;
    }
  }

  /** n bytes copied, end of file, or nothing to do yet (where the source waits on its condition). */
  datatype ReadStatus = Copied | Eof | WouldBlock

  ghost function Concat(spine: seq<Element>): (s: seq<byte>)
    reads spine
  {
    if spine == [] then [] else spine[0].buf + Concat(spine[1..])
  }

  lemma {:induction false} ConcatAppend(spine: seq<Element>, e: Element)
    ensures Concat(spine + [e]) == Concat(spine) + e.buf
  {
    if spine == [] {
      assert spine + [e] == [e];
      assert [e][1..] == [];
      assert e.buf + [] == e.buf;
    } else {
      assert (spine + [e])[1..] == spine[1..] + [e];
      ConcatAppend(spine[1..], e);
    }
  }

  class Buffer {
    var head: Element
    var tail: Element
    var closed: bool
    /** The links from head to tail. */
    ghost var spine: seq<Element>

    ghost predicate Valid()
      reads this, spine
    {
      && |spine| > 0 && head == spine[0] && tail == spine[|spine| - 1]
      && (forall i, j :: 0 <= i < j < |spine| ==> spine[i] != spine[j])
      && (forall i :: 0 <= i < |spine| - 1 ==> spine[i].next == spine[i + 1])
    }

    /** The bytes written and not yet read. */
    ghost function Unread(): (s: seq<byte>)
      reads this, spine
    {
      Concat(spine)
    }

    constructor ()
      ensures Valid() && fresh(spine) && Unread() == [] && !closed
    {
      var e := new Element([]);
      head, tail, closed := e, e, false;
      spine := [e];
      new;
      assert spine[1..] == [] && Concat(spine[1..]) == [];
    }

    method Write(buf: seq<byte>)
      requires Valid()
      modifies this, spine
      ensures Valid() && (forall e :: e in spine && e !in old(spine) ==> fresh(e))
      ensures Unread() == old(Unread()) + buf && closed == old(closed)
    {
      var e := new Element(buf);
      ConcatAppend(spine, e);
      tail.next := e;
      tail := e;
      ghost var was := spine;
      spine := spine + [e];
      SameBufs(was);
      ConcatAppend(was, e);
    }

    /** Relinking changes no contents. */
    twostate lemma {:induction false} SameBufs(links: seq<Element>)
      requires forall e :: e in links ==> e.buf == old(e.buf)
      ensures Concat(links) == old(Concat(links))
    {
      if links != [] {
        SameBufs(links[1..]);
      }
    }

    method CloseWrite()
      requires Valid()
      modifies this`closed
      ensures Valid() && closed && spine == old(spine) && Unread() == old(Unread())
    {
      closed := true;
    }

    /**
     Read into a buffer of `size` bytes: the longest available prefix, moving from link to link.
     EOF only on a closed buffer with nothing left; waiting only on an open one with nothing left.
     */
    method Read(size: nat) returns (data: seq<byte>, status: ReadStatus)
      requires Valid()
      modifies this, spine
      ensures Valid() && closed == old(closed)
      ensures forall e :: e in spine ==> e in old(spine)
      ensures data + Unread() == old(Unread())
      ensures |data| == if size < |old(Unread())| then size else |old(Unread())|
      ensures status == if size == 0 || |old(Unread())| > 0 then Copied else if closed then Eof else WouldBlock
    {
      data := [];
      status := Copied;
      while |data| < size
        invariant Valid() && closed == old(closed) && status == Copied
        invariant forall e :: e in spine ==> e in old(spine)
        invariant |data| <= size && data + Unread() == old(Unread())
        decreases |spine|, size - |data|
      {
        if |head.buf| > 0 {
          var r := if size - |data| < |head.buf| then size - |data| else |head.buf|;
          assert head in spine;
          data := TakeFromHead(r, data);
        } else if head != tail {
          DropHead();
        } else {
          assert |spine| == 1 && spine[1..] == [] && head.buf == [];
          assert Unread() == head.buf + Concat(spine[1..]);
          if |data| == 0 {
            status := if closed then Eof else WouldBlock;
          }
          break;
        }
      }
    }

    method TakeFromHead(r: nat, data: seq<byte>) returns (data': seq<byte>)
      requires Valid() && 0 < r <= |head.buf|
      modifies head
      ensures Valid() && spine == old(spine) && head.next == old(head.next)
      ensures |data'| == |data| + r && data' + Unread() == data + old(Unread())
    {
      data' := data + head.buf[..r];
      ghost var all := head.buf;
      ghost var others := spine[1..];
      head.buf := head.buf[r..];
      SameBufs(others);
      assert data' + (all[r..] + Concat(others)) == data + (all + Concat(others)) by {
        assert all == all[..r] + all[r..];
      }
    }

    method DropHead()
      requires Valid() && |head.buf| == 0 && head != tail
      modifies this
      ensures Valid() && closed == old(closed) && tail == old(tail)
      ensures spine == old(spine)[1..] && |spine| < |old(spine)| && Unread() == old(Unread())
    {
      assert |spine| > 1 && spine[0].next == spine[1];
      head := head.next;
      spine := spine[1..];
    }
  }
}
